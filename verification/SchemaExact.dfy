/** Strict tool schemas say exactly what the command's own schema says, up to the constraints that were dropped. */
module SchemaExact {
  import opened Wrappers
  import opened Schema
  import opened SchemaMeaning
  import opened SchemaStrict

  /** Required fields are declared, and additionalProperties stands on objects only. */
  predicate Plain(s: Schema) {
    match s
    case Flag(_) => true
    case Ref(_) => true
    case Node(_, props, required, additional, items, anyOf, _, allOf, prefixItems, _) =>
      && (props.Props? && required.Some? ==> forall r <- required.value :: Declares(props.list, r))
      && (!IsObject(s) ==> !additional.Matching?)
      && (props.Props? ==> forall i :: 0 <= i < |props.list| ==> Plain(props.list[i].schema))
      && (items.Items? ==> Plain(items.schema))
      && (anyOf.Branches? ==> forall i :: 0 <= i < |anyOf.list| ==> Plain(anyOf.list[i]))
      && (allOf.Branches? ==> forall i :: 0 <= i < |allOf.list| ==> Plain(allOf.list[i]))
      && (prefixItems.Branches? ==> forall i :: 0 <= i < |prefixItems.list| ==> Plain(prefixItems.list[i]))
  }

  ghost predicate Ready(j: Judge, defs: Defs) {
    && DefsInFragment(defs) && (forall name <- defs :: Plain(defs[name]))
    && forall c: Constraint, v: Value :: Unsupported(c) ==> j.constraint(c, v)
  }

  lemma FewerToFollow(defs: Defs, seen: set<string>, name: string)
    requires name in defs && name !in seen
    ensures |defs.Keys - (seen + {name})| + 1 == |defs.Keys - seen|
  {
    assert defs.Keys - seen == (defs.Keys - (seen + {name})) + {name};
  }

  lemma DroppedConstraintsHold(j: Judge, defs: Defs, cs: set<Constraint>, v: Value)
    requires Ready(j, defs) && forall c <- Kept(cs) :: j.constraint(c, v)
    ensures forall c <- cs :: j.constraint(c, v)
  {
    forall c | c in cs ensures j.constraint(c, v) {
      if Keeps(c) { assert c in Kept(cs); }
    }
  }

  /** Whatever a strict inlined schema accepts, the original accepts as a closed schema, following no more references
      than there are definitions. Constraints that are dropped are taken to hold. */
  lemma {:induction false} InliningIsFaithful(j: Judge, defs: Defs, seen: set<string>, depth: nat, s: Schema, v: Value, m: nat)
    requires InFragment(s) && Plain(s) && Ready(j, defs) && StrictCompatible(Walk(defs, seen, depth, s))
    requires Accepts(j, map[], false, m, Walk(defs, seen, depth, s), v)
    ensures Accepts(j, defs, true, |defs.Keys - seen|, s, v)
    decreases defs.Keys - seen, s, 1
  {
    match s {
      case Flag(_) =>
      case Ref(name) =>
        assert name !in seen && depth <= MAX_DEPTH && name in defs;
        assert name in defs.Keys - seen && name !in defs.Keys - (seen + {name});
        FewerToFollow(defs, seen, name);
        InliningIsFaithful(j, defs, seen + {name}, depth + 1, defs[name], v, m);
      case Node(_, _, _, _, _, _, _, _, _, _) =>
        var out := Walk(defs, seen, depth, s);
        assert !IsFree(s);
        if v.Obj? { FieldsAreFaithful(j, defs, seen, depth, s, v.fields, m, out); }
        if v.Arr? { ElementsAreFaithful(j, defs, seen, depth, s, v.elements, m, out); }
        BranchesAreFaithful(j, defs, seen, depth, s, v, m, out);
        DroppedConstraintsHold(j, defs, s.constraints, v);
    }
  }

  predicate Below(defs: Defs, seen: set<string>, depth: nat, s: Schema, out: Schema) {
    && s.Node? && !IsFree(s) && InFragment(s) && Plain(s)
    && out == Walk(defs, seen, depth, s) && StrictCompatible(out)
  }

  lemma {:induction false} FieldsAreFaithful(j: Judge, defs: Defs, seen: set<string>, depth: nat, s: Schema,
                                             fields: map<string, Value>, m: nat, out: Schema)
    requires Below(defs, seen, depth, s, out) && Ready(j, defs) && FieldsOk(j, map[], false, m, out, fields)
    ensures FieldsOk(j, defs, true, |defs.Keys - seen|, s, fields)
    decreases defs.Keys - seen, s, 0
  {
    if s.props.Props? {
      DeclaredIsSubset(if s.required.Some? then s.required.value else [], s.props.list);
      forall k | k in fields ensures Declares(s.props.list, k) {
        var i :| 0 <= i < |out.props.list| && out.props.list[i].name == k;
        assert s.props.list[i].name == k;
      }
      PropsAreFaithful(j, defs, seen, depth, s, fields, m, out);
    }
  }

  lemma {:induction false} PropsAreFaithful(j: Judge, defs: Defs, seen: set<string>, depth: nat, s: Schema,
                                            fields: map<string, Value>, m: nat, out: Schema)
    requires Below(defs, seen, depth, s, out) && Ready(j, defs) && FieldsOk(j, map[], false, m, out, fields)
    requires s.props.Props?
    ensures forall i :: 0 <= i < |s.props.list| && s.props.list[i].name in fields ==>
      Accepts(j, defs, true, |defs.Keys - seen|, s.props.list[i].schema, fields[s.props.list[i].name])
    decreases defs.Keys - seen, s, 0, 0
  {
    forall i | 0 <= i < |s.props.list| && s.props.list[i].name in fields
      ensures Accepts(j, defs, true, |defs.Keys - seen|, s.props.list[i].schema, fields[s.props.list[i].name])
    {
      assert out.props.list[i].name == s.props.list[i].name;
      InliningIsFaithful(j, defs, seen, depth + 1, s.props.list[i].schema, fields[s.props.list[i].name], m);
    }
  }

  lemma {:induction false} ElementsAreFaithful(j: Judge, defs: Defs, seen: set<string>, depth: nat, s: Schema,
                                               elements: seq<Value>, m: nat, out: Schema)
    requires Below(defs, seen, depth, s, out) && Ready(j, defs) && ElementsOk(j, map[], false, m, out, elements)
    ensures ElementsOk(j, defs, true, |defs.Keys - seen|, s, elements)
    decreases defs.Keys - seen, s, 0
  {
    if s.prefixItems.Branches? {
      forall i | 0 <= i < |s.prefixItems.list| && i < |elements|
        ensures Accepts(j, defs, true, |defs.Keys - seen|, s.prefixItems.list[i], elements[i])
      {
        assert Accepts(j, map[], false, m, out.prefixItems.list[i], elements[i]);
        InliningIsFaithful(j, defs, seen, depth + 1, s.prefixItems.list[i], elements[i], m);
      }
    }
    if s.items.Items? {
      forall i | PrefixLength(s.prefixItems) <= i < |elements|
        ensures Accepts(j, defs, true, |defs.Keys - seen|, s.items.schema, elements[i])
      {
        InliningIsFaithful(j, defs, seen, depth + 1, s.items.schema, elements[i], m);
      }
    }
  }

  lemma {:induction false} BranchesAreFaithful(j: Judge, defs: Defs, seen: set<string>, depth: nat, s: Schema,
                                               v: Value, m: nat, out: Schema)
    requires Below(defs, seen, depth, s, out) && Ready(j, defs) && BranchesOk(j, map[], false, m, out, v)
    ensures BranchesOk(j, defs, true, |defs.Keys - seen|, s, v)
    decreases defs.Keys - seen, s, 0
  {
    if s.anyOf.Branches? {
      var i :| 0 <= i < |out.anyOf.list| && Accepts(j, map[], false, m, out.anyOf.list[i], v);
      InliningIsFaithful(j, defs, seen, depth + 1, s.anyOf.list[i], v, m);
    }
    if s.allOf.Branches? {
      forall i | 0 <= i < |s.allOf.list| ensures Accepts(j, defs, true, |defs.Keys - seen|, s.allOf.list[i], v) {
        assert Accepts(j, map[], false, m, out.allOf.list[i], v);
        InliningIsFaithful(j, defs, seen, depth + 1, s.allOf.list[i], v, m);
      }
    }
  }

  /** A strict inlined schema has no degraded reference, so every reference was followed. */
  lemma {:induction false} StrictDegradesNothing(defs: Defs, seen: set<string>, depth: nat, s: Schema)
    requires Plain(s) && (forall name <- defs :: Plain(defs[name])) && StrictCompatible(Walk(defs, seen, depth, s))
    ensures DegradesObjectsOnly(defs, seen, depth, s)
    decreases defs.Keys - seen, s
  {
    match s {
      case Flag(_) =>
      case Ref(name) =>
        assert name !in seen && depth <= MAX_DEPTH && name in defs;
        assert name in defs.Keys - seen && name !in defs.Keys - (seen + {name});
        StrictDegradesNothing(defs, seen + {name}, depth + 1, defs[name]);
      case Node(_, props, _, _, items, anyOf, _, allOf, prefixItems, _) =>
        var out := Walk(defs, seen, depth, s);
        assert !IsFree(s);
        if props.Props? {
          forall i | 0 <= i < |props.list| ensures DegradesObjectsOnly(defs, seen, depth + 1, props.list[i].schema) {
            assert StrictCompatible(out.props.list[i].schema);
            StrictDegradesNothing(defs, seen, depth + 1, props.list[i].schema);
          }
        }
        if items.Items? { StrictDegradesNothing(defs, seen, depth + 1, items.schema); }
        if anyOf.Branches? { StrictBranchesDegradeNothing(defs, seen, depth + 1, anyOf.list, out.anyOf.list); }
        if allOf.Branches? { StrictBranchesDegradeNothing(defs, seen, depth + 1, allOf.list, out.allOf.list); }
        if prefixItems.Branches? { StrictBranchesDegradeNothing(defs, seen, depth + 1, prefixItems.list, out.prefixItems.list); }
    }
  }

  lemma {:induction false} StrictBranchesDegradeNothing(defs: Defs, seen: set<string>, depth: nat, ss: seq<Schema>, out: seq<Schema>)
    requires (forall i :: 0 <= i < |ss| ==> Plain(ss[i])) && (forall name <- defs :: Plain(defs[name]))
    requires out == WalkAll(defs, seen, depth, ss) && forall i :: 0 <= i < |out| ==> StrictCompatible(out[i])
    ensures forall i :: 0 <= i < |ss| ==> DegradesObjectsOnly(defs, seen, depth, ss[i])
    decreases defs.Keys - seen, ss
  {
    forall i | 0 <= i < |ss| ensures DegradesObjectsOnly(defs, seen, depth, ss[i]) {
      assert StrictCompatible(out[i]);
      StrictDegradesNothing(defs, seen, depth, ss[i]);
    }
  }

  lemma TopIsTheWalk(defs: Defs, s: Schema)
    requires ObjectAtTop(defs, s)
    ensures StrictSchema(defs, s) == Walk(defs, {}, 0, s)
  {
    if s.Ref? && s.name in defs {
      assert Walk(defs, {}, 0, s) == Walk(defs, {} + {s.name}, 1, defs[s.name]);
    }
  }

  /** A strict tool schema accepts exactly the instances that the command's schema accepts without undeclared keys,
      however deep the references go. */
  lemma StrictSchemaIsExact(j: Judge, defs: Defs, s: Schema, v: Value, m: nat)
    requires InFragment(s) && Plain(s) && Ready(j, defs) && ObjectAtTop(defs, s)
    requires StrictCompatible(StrictSchema(defs, s))
    ensures Accepts(j, map[], false, m, StrictSchema(defs, s), v) <==> exists fuel: nat :: Accepts(j, defs, true, fuel, s, v)
  {
    TopIsTheWalk(defs, s);
    StrictDegradesNothing(defs, {}, 0, s);
    if Accepts(j, map[], false, m, StrictSchema(defs, s), v) {
      InliningIsFaithful(j, defs, {}, 0, s, v, m);
      assert Accepts(j, defs, true, |defs.Keys - {}|, s, v);
    } else {
      forall fuel: nat ensures !Accepts(j, defs, true, fuel, s, v) {
        NotAcceptedAtAnyFuel(j, defs, fuel, s, v, m);
      }
    }
  }

  lemma NotAcceptedAtAnyFuel(j: Judge, defs: Defs, fuel: nat, s: Schema, v: Value, m: nat)
    requires InFragment(s) && DefsInFragment(defs) && DegradesObjectsOnly(defs, {}, 0, s)
    requires !Accepts(j, map[], false, m, Walk(defs, {}, 0, s), v)
    ensures !Accepts(j, defs, true, fuel, s, v)
  {
    if Accepts(j, defs, true, fuel, s, v) {
      InliningAccepts(j, defs, fuel, {}, 0, s, v, m);
    }
  }
}
