/** Strict schemas: what strict_compatible checks, and what it guarantees about inlined schemas. */
module SchemaStrict {
  import opened Wrappers
  import opened Schema
  import opened SchemaMeaning

  /** strict_compatible. */
  predicate StrictCompatible(s: Schema) {
    match s
    case Flag(_) => true
    case Ref(_) => true
    case Node(_, props, required, additional, items, anyOf, oneOf, allOf, prefixItems, _) =>
      && (IsObject(s) ==>
            && additional == AllowAny(false) && props.Props? && required.Some?
            && forall i :: 0 <= i < |props.list| ==> StrictCompatible(props.list[i].schema))
      && (items.Items? ==> StrictCompatible(items.schema))
      && (anyOf.Branches? ==> forall i :: 0 <= i < |anyOf.list| ==> StrictCompatible(anyOf.list[i]))
      && (oneOf.Branches? ==> forall i :: 0 <= i < |oneOf.list| ==> StrictCompatible(oneOf.list[i]))
      && (allOf.Branches? ==> forall i :: 0 <= i < |allOf.list| ==> StrictCompatible(allOf.list[i]))
      && (prefixItems.Branches? ==> forall i :: 0 <= i < |prefixItems.list| ==> StrictCompatible(prefixItems.list[i]))
  }

  // ---- positions -------------------------------------------------------------------------------

  datatype Move = ToProp(i: nat) | ToItems | ToAnyOf(i: nat) | ToOneOf(i: nat) | ToAllOf(i: nat) | ToPrefix(i: nat)

  function Branch(b: Branches, i: nat): Option<Schema> {
    if b.Branches? && i < |b.list| then Some(b.list[i]) else None
  }

  function Child(s: Schema, m: Move): Option<Schema> {
    if !s.Node? then None
    else
      match m
      case ToProp(i) => if s.props.Props? && i < |s.props.list| then Some(s.props.list[i].schema) else None
      case ToItems => if s.items.Items? then Some(s.items.schema) else None
      case ToAnyOf(i) => Branch(s.anyOf, i)
      case ToOneOf(i) => Branch(s.oneOf, i)
      case ToAllOf(i) => Branch(s.allOf, i)
      case ToPrefix(i) => Branch(s.prefixItems, i)
  }

  /** The schema that a path of moves leads to. */
  function At(s: Schema, path: seq<Move>): Option<Schema> {
    if path == [] then Some(s)
    else match Child(s, path[0]) case None => None case Some(c) => At(c, path[1..])
  }

  /** An object declares its properties, lists its required fields and forbids unknown keys. */
  predicate ClosedHere(s: Schema) {
    s.Node? && IsObject(s) ==> s.additional == AllowAny(false) && s.props.Props? && s.required.Some?
  }

  lemma ChildOfStrictIsStrict(s: Schema, m: Move)
    requires StrictCompatible(s) && Child(s, m).Some?
    ensures StrictCompatible(Child(s, m).value)
  {
  }

  lemma {:induction false} StrictAtEveryPosition(s: Schema, path: seq<Move>)
    requires StrictCompatible(s) && At(s, path).Some?
    ensures StrictCompatible(At(s, path).value) && ClosedHere(At(s, path).value)
    decreases |path|
  {
    if path != [] {
      ChildOfStrictIsStrict(s, path[0]);
      StrictAtEveryPosition(Child(s, path[0]).value, path[1..]);
    }
  }

  predicate OpenAt(s: Schema, path: seq<Move>) {
    At(s, path).Some? && !ClosedHere(At(s, path).value)
  }

  lemma OpenBelow(s: Schema, m: Move, rest: seq<Move>)
    requires Child(s, m).Some? && OpenAt(Child(s, m).value, rest)
    ensures OpenAt(s, [m] + rest)
  {
    assert ([m] + rest)[1..] == rest;
  }

  lemma {:induction false} OpenBranch(b: Branches) returns (i: nat)
    requires b.Branches? && !forall k :: 0 <= k < |b.list| ==> StrictCompatible(b.list[k])
    ensures i < |b.list| && !StrictCompatible(b.list[i])
  {
    i :| 0 <= i < |b.list| && !StrictCompatible(b.list[i]);
  }

  /** A schema that is not strict has an open object somewhere. */
  lemma {:induction false} FindOpen(s: Schema) returns (path: seq<Move>)
    requires !StrictCompatible(s)
    ensures OpenAt(s, path)
    decreases s
  {
    var m: Move;
    if !ClosedHere(s) {
      return [];
    } else if s.props.Props? && exists k :: 0 <= k < |s.props.list| && !StrictCompatible(s.props.list[k].schema) {
      var k :| 0 <= k < |s.props.list| && !StrictCompatible(s.props.list[k].schema);
      m, path := FindOpenChild(s, ToProp(k));
    } else if s.items.Items? && !StrictCompatible(s.items.schema) {
      m, path := FindOpenChild(s, ToItems);
    } else if s.anyOf.Branches? && exists k :: 0 <= k < |s.anyOf.list| && !StrictCompatible(s.anyOf.list[k]) {
      var k := OpenBranch(s.anyOf);
      m, path := FindOpenChild(s, ToAnyOf(k));
    } else if s.oneOf.Branches? && exists k :: 0 <= k < |s.oneOf.list| && !StrictCompatible(s.oneOf.list[k]) {
      var k := OpenBranch(s.oneOf);
      m, path := FindOpenChild(s, ToOneOf(k));
    } else if s.allOf.Branches? && exists k :: 0 <= k < |s.allOf.list| && !StrictCompatible(s.allOf.list[k]) {
      var k := OpenBranch(s.allOf);
      m, path := FindOpenChild(s, ToAllOf(k));
    } else {
      var k := OpenBranch(s.prefixItems);
      m, path := FindOpenChild(s, ToPrefix(k));
    }
    OpenBelow(s, m, path);
    path := [m] + path;
  }

  lemma {:induction false} FindOpenChild(s: Schema, to: Move) returns (m: Move, rest: seq<Move>)
    requires Child(s, to).Some? && !StrictCompatible(Child(s, to).value)
    ensures m == to && OpenAt(Child(s, to).value, rest)
    decreases s, 0
  {
    m := to;
    rest := FindOpen(Child(s, to).value);
  }

  /** A schema is strict exactly when every object at every position it visits is closed. */
  lemma StrictExactlyWhenClosedEverywhere(s: Schema)
    ensures StrictCompatible(s) <==> forall path :: At(s, path).Some? ==> ClosedHere(At(s, path).value)
  {
    if StrictCompatible(s) {
      forall path | At(s, path).Some? ensures ClosedHere(At(s, path).value) {
        StrictAtEveryPosition(s, path);
      }
    } else {
      var path := FindOpen(s);
      assert At(s, path).Some? && !ClosedHere(At(s, path).value);
    }
  }

  // ---- what is walked --------------------------------------------------------------------------

  /** Walking keeps the shape: below a node that is not a free object, every position holds the walked form of what was
      there, one level deeper. */
  lemma WalkKeepsPositions(defs: Defs, seen: set<string>, depth: nat, s: Schema, m: Move)
    requires s.Node? && !IsFree(s)
    ensures var before, after := Child(s, m), Child(Walk(defs, seen, depth, s), m);
      after == if before.Some? then Some(Walk(defs, seen, depth + 1, before.value)) else None
  {
  }

  /** Every object that the walk reaches declares properties, and every reference leads to a definition that is not being
      followed already, at depth 8 at most. */
  predicate FullyDeclared(defs: Defs, seen: set<string>, depth: nat, s: Schema)
    decreases defs.Keys - seen, s
  {
    match s
    case Flag(_) => true
    case Ref(name) =>
      && name !in seen && depth <= 8 && name in defs
      && (assert name in defs.Keys - seen && name !in defs.Keys - (seen + {name});
          FullyDeclared(defs, seen + {name}, depth + 1, defs[name]))
    case Node(ty, props, _, _, items, anyOf, oneOf, allOf, prefixItems, _) =>
      && (ty.ObjectType? || props.Props? ==> props.Props? && |props.list| > 0)
      && PropsDeclared(defs, seen, depth + 1, props)
      && (items.Items? ==> FullyDeclared(defs, seen, depth + 1, items.schema))
      && AllDeclared(defs, seen, depth + 1, anyOf) && AllDeclared(defs, seen, depth + 1, oneOf)
      && AllDeclared(defs, seen, depth + 1, allOf) && AllDeclared(defs, seen, depth + 1, prefixItems)
  }

  predicate AllDeclared(defs: Defs, seen: set<string>, depth: nat, b: Branches)
    decreases defs.Keys - seen, b
  {
    b.Branches? ==> forall i :: 0 <= i < |b.list| ==> FullyDeclared(defs, seen, depth, b.list[i])
  }

  predicate PropsDeclared(defs: Defs, seen: set<string>, depth: nat, props: Properties)
    decreases defs.Keys - seen, props
  {
    props.Props? ==> forall i :: 0 <= i < |props.list| ==> FullyDeclared(defs, seen, depth, props.list[i].schema)
  }

  predicate AllStrict(b: Branches) {
    b.Branches? ==> forall i :: 0 <= i < |b.list| ==> StrictCompatible(b.list[i])
  }

  predicate PropsStrict(props: Properties) {
    props.Props? ==> forall i :: 0 <= i < |props.list| ==> StrictCompatible(props.list[i].schema)
  }

  predicate StrictBelow(s: Schema)
    requires s.Node?
  {
    && PropsStrict(s.props) && (s.items.Items? ==> StrictCompatible(s.items.schema))
    && AllStrict(s.anyOf) && AllStrict(s.oneOf) && AllStrict(s.allOf) && AllStrict(s.prefixItems)
  }

  lemma StrictNode(s: Schema)
    requires s.Node?
    ensures StrictCompatible(s) <==> ClosedHere(s) && StrictBelow(s)
  {
  }

  lemma {:induction false} BranchesStrictWhenDeclared(defs: Defs, seen: set<string>, depth: nat, b: Branches, after: Branches)
    requires after == if b.Branches? then Branches(WalkAll(defs, seen, depth, b.list)) else NoBranches
    ensures AllStrict(after) <==> AllDeclared(defs, seen, depth, b)
    decreases defs.Keys - seen, b
  {
    if b.Branches? {
      forall i | 0 <= i < |b.list| ensures StrictCompatible(after.list[i]) <==> FullyDeclared(defs, seen, depth, b.list[i]) {
        StrictExactlyWhenDeclared(defs, seen, depth, b.list[i]);
      }
    }
  }

  lemma {:induction false} PropsStrictWhenDeclared(defs: Defs, seen: set<string>, depth: nat, props: Properties, after: Properties)
    requires after == if props.Props? then Props(WalkProps(defs, seen, depth, props.list)) else NoProps
    ensures PropsStrict(after) <==> PropsDeclared(defs, seen, depth, props)
    decreases defs.Keys - seen, props
  {
    if props.Props? {
      forall i | 0 <= i < |props.list|
        ensures StrictCompatible(after.list[i].schema) <==> FullyDeclared(defs, seen, depth, props.list[i].schema)
      {
        StrictExactlyWhenDeclared(defs, seen, depth, props.list[i].schema);
      }
    }
  }

  lemma {:induction false} NodeStrictWhenDeclared(defs: Defs, seen: set<string>, depth: nat, s: Schema, out: Schema)
    requires s.Node? && !IsFree(s) && out == Walk(defs, seen, depth, s)
    ensures StrictCompatible(out) <==> FullyDeclared(defs, seen, depth, s)
    decreases defs.Keys - seen, s, 0
  {
    PropsStrictWhenDeclared(defs, seen, depth + 1, s.props, out.props);
    if s.items.Items? { StrictExactlyWhenDeclared(defs, seen, depth + 1, s.items.schema); }
    BranchesStrictWhenDeclared(defs, seen, depth + 1, s.anyOf, out.anyOf);
    BranchesStrictWhenDeclared(defs, seen, depth + 1, s.oneOf, out.oneOf);
    BranchesStrictWhenDeclared(defs, seen, depth + 1, s.allOf, out.allOf);
    BranchesStrictWhenDeclared(defs, seen, depth + 1, s.prefixItems, out.prefixItems);
    StrictNode(out);
  }

  /** A walked schema is strict exactly when every object it reaches declares properties and no reference is recursive,
      undefined or too deep: nothing else is opened or degraded. */
  lemma {:induction false} StrictExactlyWhenDeclared(defs: Defs, seen: set<string>, depth: nat, s: Schema)
    ensures StrictCompatible(Walk(defs, seen, depth, s)) <==> FullyDeclared(defs, seen, depth, s)
    decreases defs.Keys - seen, s, 1
  {
    match s {
      case Flag(_) =>
      case Ref(name) =>
        if name !in seen && depth <= 8 && name in defs {
          assert name in defs.Keys - seen && name !in defs.Keys - (seen + {name});
          StrictExactlyWhenDeclared(defs, seen + {name}, depth + 1, defs[name]);
        }
      case Node(_, _, _, _, _, _, _, _, _, _) =>
        if !IsFree(s) { NodeStrictWhenDeclared(defs, seen, depth, s, Walk(defs, seen, depth, s)); }
    }
  }

  // ---- inlined schemas -------------------------------------------------------------------------

  /** References and unsupported keywords are left below free objects only. */
  predicate Resolved(s: Schema) {
    match s
    case Flag(_) => true
    case Ref(_) => false
    case Node(_, props, _, additional, items, anyOf, oneOf, allOf, prefixItems, cs) =>
      (forall c <- cs :: Supported(c)) && ((IsObject(s) && additional != AllowAny(false)) || (
        && (props.Props? ==> forall i :: 0 <= i < |props.list| ==> Resolved(props.list[i].schema))
        && (items.Items? ==> Resolved(items.schema))
        && (anyOf.Branches? ==> forall i :: 0 <= i < |anyOf.list| ==> Resolved(anyOf.list[i]))
        && (oneOf.Branches? ==> forall i :: 0 <= i < |oneOf.list| ==> Resolved(oneOf.list[i]))
        && (allOf.Branches? ==> forall i :: 0 <= i < |allOf.list| ==> Resolved(allOf.list[i]))
        && (prefixItems.Branches? ==> forall i :: 0 <= i < |prefixItems.list| ==> Resolved(prefixItems.list[i]))))
  }

  predicate AllResolved(b: Branches) {
    b.Branches? ==> forall i :: 0 <= i < |b.list| ==> Resolved(b.list[i])
  }

  predicate PropsResolved(props: Properties) {
    props.Props? ==> forall i :: 0 <= i < |props.list| ==> Resolved(props.list[i].schema)
  }

  lemma ResolvedNode(s: Schema)
    requires s.Node? && (forall c <- s.constraints :: Supported(c))
    requires PropsResolved(s.props) && (s.items.Items? ==> Resolved(s.items.schema))
    requires AllResolved(s.anyOf) && AllResolved(s.oneOf) && AllResolved(s.allOf) && AllResolved(s.prefixItems)
    ensures Resolved(s)
  {
  }

  lemma {:induction false} BranchesResolve(defs: Defs, seen: set<string>, depth: nat, b: Branches, after: Branches)
    requires after == if b.Branches? then Branches(WalkAll(defs, seen, depth, b.list)) else NoBranches
    ensures AllResolved(after)
    decreases defs.Keys - seen, b
  {
    if b.Branches? {
      forall i | 0 <= i < |b.list| ensures Resolved(after.list[i]) {
        WalkResolves(defs, seen, depth, b.list[i]);
      }
    }
  }

  lemma {:induction false} PropsResolve(defs: Defs, seen: set<string>, depth: nat, props: Properties, after: Properties)
    requires after == if props.Props? then Props(WalkProps(defs, seen, depth, props.list)) else NoProps
    ensures PropsResolved(after)
    decreases defs.Keys - seen, props
  {
    if props.Props? {
      forall i | 0 <= i < |props.list| ensures Resolved(after.list[i].schema) {
        WalkResolves(defs, seen, depth, props.list[i].schema);
      }
    }
  }

  lemma {:induction false} NodeResolves(defs: Defs, seen: set<string>, depth: nat, s: Schema, out: Schema)
    requires s.Node? && !IsFree(s) && out == Walk(defs, seen, depth, s)
    ensures Resolved(out)
    decreases defs.Keys - seen, s, 0
  {
    PropsResolve(defs, seen, depth + 1, s.props, out.props);
    if s.items.Items? { WalkResolves(defs, seen, depth + 1, s.items.schema); }
    BranchesResolve(defs, seen, depth + 1, s.anyOf, out.anyOf);
    BranchesResolve(defs, seen, depth + 1, s.oneOf, out.oneOf);
    BranchesResolve(defs, seen, depth + 1, s.allOf, out.allOf);
    BranchesResolve(defs, seen, depth + 1, s.prefixItems, out.prefixItems);
    ResolvedNode(out);
  }

  lemma {:induction false} WalkResolves(defs: Defs, seen: set<string>, depth: nat, s: Schema)
    ensures Resolved(Walk(defs, seen, depth, s))
    decreases defs.Keys - seen, s, 1
  {
    match s {
      case Flag(_) =>
      case Ref(name) =>
        if name !in seen && depth <= MAX_DEPTH && name in defs {
          assert name in defs.Keys - seen && name !in defs.Keys - (seen + {name});
          WalkResolves(defs, seen + {name}, depth + 1, defs[name]);
        }
      case Node(_, _, _, _, _, _, _, _, _, _) =>
        if !IsFree(s) { NodeResolves(defs, seen, depth, s, Walk(defs, seen, depth, s)); }
    }
  }

  lemma ChildIsResolved(s: Schema, m: Move)
    requires StrictCompatible(s) && Resolved(s) && Child(s, m).Some?
    ensures Resolved(Child(s, m).value)
  {
  }

  lemma {:induction false} ResolvedAtEveryPosition(s: Schema, path: seq<Move>)
    requires StrictCompatible(s) && Resolved(s) && At(s, path).Some?
    ensures Resolved(At(s, path).value)
    decreases |path|
  {
    if path != [] {
      ChildIsResolved(s, path[0]);
      ChildOfStrictIsStrict(s, path[0]);
      ResolvedAtEveryPosition(Child(s, path[0]).value, path[1..]);
    }
  }

  /** A tool schema that passes strict_compatible has no open object, no degraded reference, no reference left and no
      unsupported keyword at any position it visits. */
  lemma StrictToolSchema(defs: Defs, s: Schema, path: seq<Move>)
    requires StrictCompatible(StrictSchema(defs, s)) && At(StrictSchema(defs, s), path).Some?
    ensures var t := At(StrictSchema(defs, s), path).value;
      && !t.Ref? && t != FREE_OBJECT
      && (t.Node? ==> forall c <- t.constraints :: Supported(c))
      && (t.Node? && IsObject(t) ==> t.additional == AllowAny(false) && t.props.Props? && t.required.Some?)
  {
    WalkResolves(defs, {}, 0, s);
    StrictAtEveryPosition(StrictSchema(defs, s), path);
    ResolvedAtEveryPosition(StrictSchema(defs, s), path);
  }
}
