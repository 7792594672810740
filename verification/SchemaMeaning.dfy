/** What schemas accept, and what inlining preserves of it. */
module SchemaMeaning {
  import opened Wrappers
  import opened Schema

  datatype Value = Obj(fields: map<string, Value>) | Arr(elements: seq<Value>) | Scalar(json: string)

  /** How the keywords that contain no schemas judge a value. */
  datatype Judge = Judge(constraint: (Constraint, Value) -> bool, hasType: (string, Value) -> bool)

  predicate TypeOk(j: Judge, ty: Type, v: Value) {
    match ty
    case NoType => true
    case ObjectType => v.Obj?
    case OtherType(json) => j.hasType(json, v)
  }

  /**
   Whether s accepts v, following at most `fuel` references one inside the other; a reference that leads
   nowhere accepts nothing. With `closed`, objects that declare properties accept no other keys.
   oneOf is not judged here.
   */
  ghost predicate Accepts(j: Judge, defs: Defs, closed: bool, fuel: nat, s: Schema, v: Value)
    decreases fuel, s, 1
  {
    match s
    case Flag(b) => b
    case Ref(name) => fuel > 0 && name in defs && Accepts(j, defs, closed, fuel - 1, defs[name], v)
    case Node(ty, _, _, _, _, _, _, _, _, cs) =>
      && TypeOk(j, ty, v) && (forall c <- cs :: j.constraint(c, v))
      && (v.Obj? ==> FieldsOk(j, defs, closed, fuel, s, v.fields))
      && (v.Arr? ==> ElementsOk(j, defs, closed, fuel, s, v.elements))
      && BranchesOk(j, defs, closed, fuel, s, v)
  }

  /** required, properties and additionalProperties. */
  ghost predicate FieldsOk(j: Judge, defs: Defs, closed: bool, fuel: nat, s: Schema, fields: map<string, Value>)
    requires s.Node?
    decreases fuel, s, 0
  {
    && (s.required.Some? ==> forall r <- s.required.value :: r in fields)
    && (s.props.Props? ==> forall i :: 0 <= i < |s.props.list| && s.props.list[i].name in fields ==>
          Accepts(j, defs, closed, fuel, s.props.list[i].schema, fields[s.props.list[i].name]))
    && (forall k <- fields :: !(s.props.Props? && Declares(s.props.list, k)) ==>
          && (closed ==> s.props.NoProps? || s.props.list == [])
          && (s.additional.AllowAny? ==> s.additional.allow)
          && (s.additional.Matching? ==> Accepts(j, defs, closed, fuel, s.additional.schema, fields[k])))
  }

  /** prefixItems and items. */
  ghost predicate ElementsOk(j: Judge, defs: Defs, closed: bool, fuel: nat, s: Schema, elements: seq<Value>)
    requires s.Node?
    decreases fuel, s, 0
  {
    && (s.prefixItems.Branches? ==> forall i :: 0 <= i < |s.prefixItems.list| && i < |elements| ==>
          Accepts(j, defs, closed, fuel, s.prefixItems.list[i], elements[i]))
    && (s.items.Items? ==> forall i :: PrefixLength(s.prefixItems) <= i < |elements| ==>
          Accepts(j, defs, closed, fuel, s.items.schema, elements[i]))
  }

  ghost predicate BranchesOk(j: Judge, defs: Defs, closed: bool, fuel: nat, s: Schema, v: Value)
    requires s.Node?
    decreases fuel, s, 0
  {
    && (s.anyOf.Branches? ==> exists i :: 0 <= i < |s.anyOf.list| && Accepts(j, defs, closed, fuel, s.anyOf.list[i], v))
    && (s.allOf.Branches? ==> forall i :: 0 <= i < |s.allOf.list| ==> Accepts(j, defs, closed, fuel, s.allOf.list[i], v))
  }

  function PrefixLength(prefix: Branches): nat { if prefix.Branches? then |prefix.list| else 0 }

  // ---- the fragment ----------------------------------------------------------------------------

  predicate NoRefs(s: Schema) {
    match s
    case Flag(_) => true
    case Ref(_) => false
    case Node(_, props, _, additional, items, anyOf, oneOf, allOf, prefixItems, _) =>
      && (props.Props? ==> forall i :: 0 <= i < |props.list| ==> NoRefs(props.list[i].schema))
      && (additional.Matching? ==> NoRefs(additional.schema))
      && (items.Items? ==> NoRefs(items.schema))
      && (anyOf.Branches? ==> forall i :: 0 <= i < |anyOf.list| ==> NoRefs(anyOf.list[i]))
      && (allOf.Branches? ==> forall i :: 0 <= i < |allOf.list| ==> NoRefs(allOf.list[i]))
      && (prefixItems.Branches? ==> forall i :: 0 <= i < |prefixItems.list| ==> NoRefs(prefixItems.list[i]))
  }

  /** What is not walked below a free object. */
  predicate FreeIsSelfContained(s: Schema)
    requires s.Node?
  {
    && (s.anyOf.Branches? ==> forall i :: 0 <= i < |s.anyOf.list| ==> NoRefs(s.anyOf.list[i]))
    && (s.allOf.Branches? ==> forall i :: 0 <= i < |s.allOf.list| ==> NoRefs(s.allOf.list[i]))
  }

  /** Schemas built from typed objects, arrays, anyOf, allOf and references. A free object keeps its anyOf and
      allOf as they are, so they must not refer to definitions. */
  predicate InFragment(s: Schema) {
    match s
    case Flag(_) => true
    case Ref(_) => true
    case Node(ty, props, _, additional, items, anyOf, oneOf, allOf, prefixItems, _) =>
      && (props.Props? ==> ty.ObjectType?) && oneOf.NoBranches?
      && (IsFree(s) ==> FreeIsSelfContained(s))
      && (props.Props? ==> forall i :: 0 <= i < |props.list| ==> InFragment(props.list[i].schema))
      && (additional.Matching? ==> InFragment(additional.schema))
      && (items.Items? ==> InFragment(items.schema))
      && (anyOf.Branches? ==> forall i :: 0 <= i < |anyOf.list| ==> InFragment(anyOf.list[i]))
      && (allOf.Branches? ==> forall i :: 0 <= i < |allOf.list| ==> InFragment(allOf.list[i]))
      && (prefixItems.Branches? ==> forall i :: 0 <= i < |prefixItems.list| ==> InFragment(prefixItems.list[i]))
  }

  predicate DefsInFragment(defs: Defs) {
    forall name <- defs :: InFragment(defs[name])
  }

  predicate IsObjectSchema(s: Schema) { s.Node? && s.ty.ObjectType? }

  /** Every reference that the walk does not follow, because it is being followed already or is too deep, leads to an
      object schema. Enums and other definitions may be referred to wherever they are inlined. */
  predicate DegradesObjectsOnly(defs: Defs, seen: set<string>, depth: nat, s: Schema)
    decreases defs.Keys - seen, s
  {
    match s
    case Flag(_) => true
    case Ref(name) =>
      if name !in defs then true
      else if name in seen || depth > MAX_DEPTH then IsObjectSchema(defs[name])
      else
        assert name in defs.Keys - seen && name !in defs.Keys - (seen + {name});
        DegradesObjectsOnly(defs, seen + {name}, depth + 1, defs[name])
    case Node(_, props, _, additional, items, anyOf, _, allOf, prefixItems, _) =>
      IsFree(s) || (
        && (props.Props? ==> forall i :: 0 <= i < |props.list| ==> DegradesObjectsOnly(defs, seen, depth + 1, props.list[i].schema))
        && (!IsObject(s) && additional.Matching? ==> DegradesObjectsOnly(defs, seen, depth + 1, additional.schema))
        && (items.Items? ==> DegradesObjectsOnly(defs, seen, depth + 1, items.schema))
        && (anyOf.Branches? ==> forall i :: 0 <= i < |anyOf.list| ==> DegradesObjectsOnly(defs, seen, depth + 1, anyOf.list[i]))
        && (allOf.Branches? ==> forall i :: 0 <= i < |allOf.list| ==> DegradesObjectsOnly(defs, seen, depth + 1, allOf.list[i]))
        && (prefixItems.Branches? ==> forall i :: 0 <= i < |prefixItems.list| ==>
              DegradesObjectsOnly(defs, seen, depth + 1, prefixItems.list[i])))
  }

  /** In particular when all definitions are object schemas. */
  lemma {:induction false} ObjectDefsDegradeToObjects(defs: Defs, seen: set<string>, depth: nat, s: Schema)
    requires forall name <- defs :: IsObjectSchema(defs[name])
    ensures DegradesObjectsOnly(defs, seen, depth, s)
    decreases defs.Keys - seen, s
  {
    match s {
      case Flag(_) =>
      case Ref(name) =>
        if name in defs && name !in seen && depth <= MAX_DEPTH {
          assert name in defs.Keys - seen && name !in defs.Keys - (seen + {name});
          ObjectDefsDegradeToObjects(defs, seen + {name}, depth + 1, defs[name]);
        }
      case Node(_, props, _, additional, items, anyOf, _, allOf, prefixItems, _) =>
        if props.Props? {
          forall i | 0 <= i < |props.list| { ObjectDefsDegradeToObjects(defs, seen, depth + 1, props.list[i].schema); }
        }
        if additional.Matching? { ObjectDefsDegradeToObjects(defs, seen, depth + 1, additional.schema); }
        if items.Items? { ObjectDefsDegradeToObjects(defs, seen, depth + 1, items.schema); }
        if anyOf.Branches? {
          forall i | 0 <= i < |anyOf.list| { ObjectDefsDegradeToObjects(defs, seen, depth + 1, anyOf.list[i]); }
        }
        if allOf.Branches? {
          forall i | 0 <= i < |allOf.list| { ObjectDefsDegradeToObjects(defs, seen, depth + 1, allOf.list[i]); }
        }
        if prefixItems.Branches? {
          forall i | 0 <= i < |prefixItems.list| { ObjectDefsDegradeToObjects(defs, seen, depth + 1, prefixItems.list[i]); }
        }
    }
  }

  // ---- everything closed that was accepted stays accepted --------------------------------------

  /** Without references the definitions, the fuel and the closing of objects only ever restrict. */
  lemma {:induction false} RefFreeStaysAccepted(j: Judge, defs: Defs, fuel: nat, s: Schema, v: Value, m: nat)
    requires NoRefs(s) && Accepts(j, defs, true, fuel, s, v)
    ensures Accepts(j, map[], false, m, s, v)
    decreases s, 1
  {
    if s.Node? {
      if v.Obj? { RefFreeFields(j, defs, fuel, s, v.fields, m); }
      if v.Arr? { RefFreeElements(j, defs, fuel, s, v.elements, m); }
      RefFreeBranches(j, defs, fuel, s, v, m);
    }
  }

  lemma {:induction false} RefFreeFields(j: Judge, defs: Defs, fuel: nat, s: Schema, fields: map<string, Value>, m: nat)
    requires s.Node? && NoRefs(s) && FieldsOk(j, defs, true, fuel, s, fields)
    ensures FieldsOk(j, map[], false, m, s, fields)
    decreases s, 0
  {
    if s.props.Props? {
      forall i | 0 <= i < |s.props.list| && s.props.list[i].name in fields
        ensures Accepts(j, map[], false, m, s.props.list[i].schema, fields[s.props.list[i].name])
      {
        RefFreeStaysAccepted(j, defs, fuel, s.props.list[i].schema, fields[s.props.list[i].name], m);
      }
    }
    if s.additional.Matching? {
      forall k | k in fields && !(s.props.Props? && Declares(s.props.list, k))
        ensures Accepts(j, map[], false, m, s.additional.schema, fields[k])
      {
        RefFreeStaysAccepted(j, defs, fuel, s.additional.schema, fields[k], m);
      }
    }
  }

  lemma {:induction false} RefFreeElements(j: Judge, defs: Defs, fuel: nat, s: Schema, elements: seq<Value>, m: nat)
    requires s.Node? && NoRefs(s) && ElementsOk(j, defs, true, fuel, s, elements)
    ensures ElementsOk(j, map[], false, m, s, elements)
    decreases s, 0
  {
    if s.prefixItems.Branches? {
      forall i | 0 <= i < |s.prefixItems.list| && i < |elements|
        ensures Accepts(j, map[], false, m, s.prefixItems.list[i], elements[i])
      {
        RefFreeStaysAccepted(j, defs, fuel, s.prefixItems.list[i], elements[i], m);
      }
    }
    if s.items.Items? {
      forall i | PrefixLength(s.prefixItems) <= i < |elements|
        ensures Accepts(j, map[], false, m, s.items.schema, elements[i])
      {
        RefFreeStaysAccepted(j, defs, fuel, s.items.schema, elements[i], m);
      }
    }
  }

  lemma {:induction false} RefFreeBranches(j: Judge, defs: Defs, fuel: nat, s: Schema, v: Value, m: nat)
    requires s.Node? && FreeIsSelfContained(s) && BranchesOk(j, defs, true, fuel, s, v)
    ensures BranchesOk(j, map[], false, m, s, v)
    decreases s, 0
  {
    if s.anyOf.Branches? {
      var i :| 0 <= i < |s.anyOf.list| && Accepts(j, defs, true, fuel, s.anyOf.list[i], v);
      RefFreeStaysAccepted(j, defs, fuel, s.anyOf.list[i], v, m);
    }
    if s.allOf.Branches? {
      forall i | 0 <= i < |s.allOf.list| ensures Accepts(j, map[], false, m, s.allOf.list[i], v) {
        RefFreeStaysAccepted(j, defs, fuel, s.allOf.list[i], v, m);
      }
    }
  }

  /** Inlining loses nothing: whatever the schema accepts without undeclared keys, its inlined form accepts too,
      without any table, as long as only object definitions are degraded; recursive tables are included. */
  lemma {:induction false} InliningAccepts(j: Judge, defs: Defs, fuel: nat, seen: set<string>, depth: nat, s: Schema, v: Value, m: nat)
    requires InFragment(s) && DefsInFragment(defs) && DegradesObjectsOnly(defs, seen, depth, s)
    requires Accepts(j, defs, true, fuel, s, v)
    ensures Accepts(j, map[], false, m, Walk(defs, seen, depth, s), v)
    decreases fuel, s, 1
  {
    match s {
      case Flag(_) =>
      case Ref(name) =>
        if name in seen || depth > MAX_DEPTH {
          FreeObjectAccepts(j, v, m);
        } else {
          InliningAccepts(j, defs, fuel - 1, seen + {name}, depth + 1, defs[name], v, m);
        }
      case Node(_, _, _, _, _, _, _, _, _, _) =>
        if IsFree(s) {
          FreeInliningAccepts(j, defs, fuel, seen, depth, s, v, m);
        } else {
          if v.Obj? { FieldsSurvive(j, defs, fuel, seen, depth, s, v.fields, m, Walk(defs, seen, depth, s)); }
          if v.Arr? { ElementsSurvive(j, defs, fuel, seen, depth, s, v.elements, m, Walk(defs, seen, depth, s)); }
          BranchesSurvive(j, defs, fuel, seen, depth, s, v, m, Walk(defs, seen, depth, s));
        }
    }
  }

  lemma FreeObjectAccepts(j: Judge, v: Value, m: nat)
    requires v.Obj?
    ensures Accepts(j, map[], false, m, FREE_OBJECT, v)
  {
  }

  lemma FreeInliningAccepts(j: Judge, defs: Defs, fuel: nat, seen: set<string>, depth: nat, s: Schema, v: Value, m: nat)
    requires s.Node? && IsFree(s) && InFragment(s) && Accepts(j, defs, true, fuel, s, v)
    ensures Accepts(j, map[], false, m, Walk(defs, seen, depth, s), v)
  {
    RefFreeBranches(j, defs, fuel, s, v, m);
    var out := Walk(defs, seen, depth, s);
    assert BranchesOk(j, map[], false, m, out, v);
  }

  lemma {:induction false} FieldsSurvive(j: Judge, defs: Defs, fuel: nat, seen: set<string>, depth: nat, s: Schema,
                                         fields: map<string, Value>, m: nat, out: Schema)
    requires s.Node? && !IsFree(s) && InFragment(s) && DefsInFragment(defs) && DegradesObjectsOnly(defs, seen, depth, s)
    requires FieldsOk(j, defs, true, fuel, s, fields)
    requires out == Walk(defs, seen, depth, s)
    ensures FieldsOk(j, map[], false, m, out, fields)
    decreases fuel, s, 0
  {
    if s.props.Props? {
      PropsSurvive(j, defs, fuel, seen, depth, s, fields, m, out);
      DeclaredIsSubset(if s.required.Some? then s.required.value else [], s.props.list);
      forall k | k in fields ensures Declares(out.props.list, k) {
        var i :| 0 <= i < |s.props.list| && s.props.list[i].name == k;
        assert out.props.list[i].name == k;
      }
    } else if s.additional.Matching? {
      forall k | k in fields ensures Accepts(j, map[], false, m, out.additional.schema, fields[k]) {
        InliningAccepts(j, defs, fuel, seen, depth + 1, s.additional.schema, fields[k], m);
      }
    }
  }

  lemma {:induction false} PropsSurvive(j: Judge, defs: Defs, fuel: nat, seen: set<string>, depth: nat, s: Schema,
                                        fields: map<string, Value>, m: nat, out: Schema)
    requires s.Node? && !IsFree(s) && InFragment(s) && DefsInFragment(defs) && DegradesObjectsOnly(defs, seen, depth, s)
    requires FieldsOk(j, defs, true, fuel, s, fields)
    requires s.props.Props? && out == Walk(defs, seen, depth, s)
    ensures forall i :: 0 <= i < |out.props.list| && out.props.list[i].name in fields ==>
      Accepts(j, map[], false, m, out.props.list[i].schema, fields[out.props.list[i].name])
    decreases fuel, s, 0, 0
  {
    forall i | 0 <= i < |out.props.list| && out.props.list[i].name in fields
      ensures Accepts(j, map[], false, m, out.props.list[i].schema, fields[out.props.list[i].name])
    {
      InliningAccepts(j, defs, fuel, seen, depth + 1, s.props.list[i].schema, fields[s.props.list[i].name], m);
    }
  }

  lemma {:induction false} ElementsSurvive(j: Judge, defs: Defs, fuel: nat, seen: set<string>, depth: nat, s: Schema,
                                           elements: seq<Value>, m: nat, out: Schema)
    requires s.Node? && !IsFree(s) && InFragment(s) && DefsInFragment(defs) && DegradesObjectsOnly(defs, seen, depth, s)
    requires ElementsOk(j, defs, true, fuel, s, elements)
    requires out == Walk(defs, seen, depth, s)
    ensures ElementsOk(j, map[], false, m, out, elements)
    decreases fuel, s, 0
  {
    if s.prefixItems.Branches? {
      forall i | 0 <= i < |s.prefixItems.list| && i < |elements|
        ensures Accepts(j, map[], false, m, out.prefixItems.list[i], elements[i])
      {
        InliningAccepts(j, defs, fuel, seen, depth + 1, s.prefixItems.list[i], elements[i], m);
      }
    }
    if s.items.Items? {
      forall i | PrefixLength(s.prefixItems) <= i < |elements|
        ensures Accepts(j, map[], false, m, out.items.schema, elements[i])
      {
        InliningAccepts(j, defs, fuel, seen, depth + 1, s.items.schema, elements[i], m);
      }
    }
  }

  lemma {:induction false} BranchesSurvive(j: Judge, defs: Defs, fuel: nat, seen: set<string>, depth: nat, s: Schema,
                                           v: Value, m: nat, out: Schema)
    requires s.Node? && !IsFree(s) && InFragment(s) && DefsInFragment(defs) && DegradesObjectsOnly(defs, seen, depth, s)
    requires BranchesOk(j, defs, true, fuel, s, v)
    requires out == Walk(defs, seen, depth, s)
    ensures BranchesOk(j, map[], false, m, out, v)
    decreases fuel, s, 0
  {
    if s.anyOf.Branches? {
      var i :| 0 <= i < |s.anyOf.list| && Accepts(j, defs, true, fuel, s.anyOf.list[i], v);
      InliningAccepts(j, defs, fuel, seen, depth + 1, s.anyOf.list[i], v, m);
      assert Accepts(j, map[], false, m, out.anyOf.list[i], v);
    }
    if s.allOf.Branches? {
      forall i | 0 <= i < |s.allOf.list| ensures Accepts(j, map[], false, m, out.allOf.list[i], v) {
        InliningAccepts(j, defs, fuel, seen, depth + 1, s.allOf.list[i], v, m);
      }
    }
  }

  /** The schema of a command: an object, or a reference to one. */
  predicate ObjectAtTop(defs: Defs, s: Schema) {
    if s.Ref? then s.name in defs ==> IsObjectSchema(defs[s.name]) else IsObjectSchema(s)
  }

  /** The same for the whole transformation, for the object schemas that commands have. */
  lemma StrictSchemaAccepts(j: Judge, defs: Defs, fuel: nat, s: Schema, v: Value, m: nat)
    requires InFragment(s) && DefsInFragment(defs) && DegradesObjectsOnly(defs, {}, 0, s) && ObjectAtTop(defs, s)
    requires Accepts(j, defs, true, fuel, s, v)
    ensures Accepts(j, map[], false, m, StrictSchema(defs, s), v)
  {
    InliningAccepts(j, defs, fuel, {}, 0, s, v, m);
    if s.Ref? {
      assert Walk(defs, {}, 0, s) == Walk(defs, {} + {s.name}, 1, defs[s.name]);
    }
  }

  // ---- where the fragment ends -----------------------------------------------------------------

  /** A recursive definition that is not an object does not survive: below the recursion only objects are accepted. */
  lemma RecursiveArrayIsNotPreserved(j: Judge, m: nat)
    ensures var list := Node(OtherType("array"), NoProps, None, Unsaid, Items(Ref("List")), NoBranches, NoBranches, NoBranches, NoBranches, {});
      var defs := map["List" := list];
      var v := Arr([Arr([])]);
      (forall x :: j.hasType("array", x) <==> x.Arr?) ==>
        Accepts(j, defs, true, 2, Ref("List"), v) && !Accepts(j, map[], false, m, Walk(defs, {}, 0, Ref("List")), v)
  {
    var list := Node(OtherType("array"), NoProps, None, Unsaid, Items(Ref("List")), NoBranches, NoBranches, NoBranches, NoBranches, {});
    var defs := map["List" := list];
    var v := Arr([Arr([])]);
    if forall x :: j.hasType("array", x) <==> x.Arr? {
      assert Accepts(j, defs, true, 0, list, v.elements[0]);
      assert Accepts(j, defs, true, 1, Ref("List"), v.elements[0]);
      assert Accepts(j, defs, true, 1, list, v);
      var out := Walk(defs, {}, 0, Ref("List"));
      var seen := {} + {"List"};
      assert out == Walk(defs, seen, 1, list);
      assert out.items.schema == Walk(defs, seen, 2, Ref("List"));
      assert out.items.schema == FREE_OBJECT;
      assert !Accepts(j, map[], false, m, out.items.schema, v.elements[0]);
    }
  }

  /** A free object keeps a reference that no table resolves any more. */
  lemma FreeObjectKeepsReferences(j: Judge, m: nat)
    ensures var s := FREE_OBJECT.(anyOf := Branches([Ref("A")]));
      var defs := map["A" := FREE_OBJECT];
      Accepts(j, defs, true, 1, s, Obj(map[])) && !Accepts(j, map[], false, m, StrictSchema(defs, s), Obj(map[]))
  {
    var s := FREE_OBJECT.(anyOf := Branches([Ref("A")]));
    var defs := map["A" := FREE_OBJECT];
    assert Accepts(j, defs, true, 0, FREE_OBJECT, Obj(map[]));
    assert Accepts(j, defs, true, 1, s.anyOf.list[0], Obj(map[]));
    assert BranchesOk(j, defs, true, 1, s, Obj(map[]));
    var out := StrictSchema(defs, s);
    assert out.anyOf.list == [Ref("A")];
    assert !Accepts(j, map[], false, m, out.anyOf.list[0], Obj(map[]));
    assert !BranchesOk(j, map[], false, m, out, Obj(map[]));
  }
}
