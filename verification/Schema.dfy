/**
 Tool schemas: `$defs` are inlined, unknown keys forbidden and unsupported constraints dropped, for every
 definition table, cyclic ones included.
 */
module Schema {
  import opened Wrappers

  datatype Format = DateTime | Time | Date | Duration | Email | Hostname | Uri | Ipv4 | Ipv6 | Uuid | OtherFormat(name: string)

  /** The keywords that do not contain schemas, with their values as JSON text. */
  datatype Constraint =
    | Title(json: string) | Default(json: string)
    | Minimum(json: string) | Maximum(json: string) | ExclusiveMinimum(json: string) | ExclusiveMaximum(json: string)
    | MultipleOf(json: string) | MinLength(json: string) | MaxLength(json: string) | Pattern(json: string)
    | MinItems(json: string) | MaxItems(json: string) | UniqueItems(json: string)
    | MinProperties(json: string) | MaxProperties(json: string) | PatternProperties(json: string)
    | FormatIs(format: Format)
    | OtherKeyword(name: string, json: string)

  datatype Type = NoType | ObjectType | OtherType(json: string)

  datatype Prop = Prop(name: string, schema: Schema)

  datatype Additional = Unsaid | AllowAny(allow: bool) | Matching(schema: Schema)

  /** The value of properties, items, and of anyOf, oneOf, allOf and prefixItems, if the key is there. */
  datatype Properties = NoProps | Props(list: seq<Prop>)

  datatype Items = NoItems | Items(schema: Schema)

  datatype Branches = NoBranches | Branches(list: seq<Schema>)

  datatype Schema =
    | Flag(accepts: bool)
    | Ref(name: string)
    | Node(ty: Type, props: Properties, required: Option<seq<string>>, additional: Additional,
           items: Items, anyOf: Branches, oneOf: Branches, allOf: Branches, prefixItems: Branches,
           constraints: set<Constraint>)

  type Defs = map<string, Schema>

  const MAX_DEPTH := 8

  /** {"type": "object"}. */
  const FREE_OBJECT: Schema := Node(ObjectType, NoProps, None, Unsaid, NoItems, NoBranches, NoBranches, NoBranches, NoBranches, {})

  const EMPTY_OBJECT: Schema := Node(ObjectType, Props([]), Some([]), AllowAny(false), NoItems, NoBranches, NoBranches, NoBranches, NoBranches, {})

  /** The constraints that strict tool use accepts. */
  predicate Keeps(c: Constraint) {
    match c
    case FormatIs(f) => !f.OtherFormat?
    case OtherKeyword(_, _) => true
    case _ => false
  }

  /** What strict tool use is promised to leave: keywords it does not restrict, and ten formats. */
  predicate Supported(c: Constraint) {
    || c.OtherKeyword?
    || (c.FormatIs? &&
          (c.format.DateTime? || c.format.Time? || c.format.Date? || c.format.Duration? || c.format.Email? ||
           c.format.Hostname? || c.format.Uri? || c.format.Ipv4? || c.format.Ipv6? || c.format.Uuid?))
  }

  /** What it is promised to drop: the cosmetic keywords, the fourteen restrictions, and formats of other names. */
  predicate Unsupported(c: Constraint) {
    || c.Title? || c.Default?
    || c.Minimum? || c.Maximum? || c.ExclusiveMinimum? || c.ExclusiveMaximum? || c.MultipleOf?
    || c.MinLength? || c.MaxLength? || c.Pattern? || c.MinItems? || c.MaxItems? || c.UniqueItems?
    || c.MinProperties? || c.MaxProperties? || c.PatternProperties?
    || (c.FormatIs? && c.format.OtherFormat?)
  }

  predicate IsObject(s: Schema)
    requires s.Node?
  {
    s.ty.ObjectType? || s.props.Props?
  }

  /** An object that declares no properties stays open. */
  predicate IsFree(s: Schema)
    requires s.Node?
  {
    IsObject(s) && (s.props.NoProps? || s.props.list == [])
  }

  predicate Declares(props: seq<Prop>, name: string) {
    exists i :: 0 <= i < |props| && props[i].name == name
  }

  function Declared(names: seq<string>, props: seq<Prop>): seq<string> {
    if names == [] then []
    else Declared(names[..|names| - 1], props) +
         (if Declares(props, names[|names| - 1]) then [names[|names| - 1]] else [])
  }

  lemma {:induction false} DeclaredIsSubset(names: seq<string>, props: seq<Prop>)
    ensures forall n :: n in Declared(names, props) <==> n in names && exists i :: 0 <= i < |props| && props[i].name == n
  {
    if names != [] {
      DeclaredIsSubset(names[..|names| - 1], props);
      assert names == names[..|names| - 1] + [names[|names| - 1]];
    }
  }

  function Kept(cs: set<Constraint>): set<Constraint> { set c <- cs | Keeps(c) }

  // ---- what the transformation promises of one node --------------------------------------------

  /** An object schema that says nothing but whether other keys are allowed. */
  predicate IsBareObject(s: Schema) {
    && s.Node? && s.ty.ObjectType? && s.props.NoProps? && s.required.None? && s.items.NoItems? && s.constraints == {}
    && s.anyOf.NoBranches? && s.oneOf.NoBranches? && s.allOf.NoBranches? && s.prefixItems.NoBranches?
  }

  /** Every keyword of a node, before and after: an object that declares properties is closed and requires only fields that it
      declares, one that declares none is opened, and every node keeps exactly the supported constraints. */
  ghost predicate IsRewritten(s: Schema, out: Schema)
    requires s.Node?
  {
    && out.Node?
    && (forall c :: c in out.constraints <==> c in s.constraints && Supported(c))
    && (if s.ty.ObjectType? || s.props.Props? then
          && out.ty.ObjectType?
          && (if s.props.NoProps? || |s.props.list| == 0 then
                && out.props == s.props && out.required.None? && out.additional == AllowAny(true) && out.items == s.items
                && out.anyOf == s.anyOf && out.oneOf == s.oneOf && out.allOf == s.allOf && out.prefixItems == s.prefixItems
              else
                && out.props.Props? && |out.props.list| == |s.props.list| && out.additional == AllowAny(false)
                && (forall i :: 0 <= i < |s.props.list| ==> out.props.list[i].name == s.props.list[i].name)
                && out.required.Some?
                && (forall r :: r in out.required.value <==>
                      s.required.Some? && r in s.required.value && exists i :: 0 <= i < |s.props.list| && s.props.list[i].name == r)
                && SameBranches(s, out))
        else
          && out.ty == s.ty && out.props.NoProps? && out.required == s.required && SameBranches(s, out)
          && out.additional.Matching? == s.additional.Matching?
          && (!s.additional.Matching? ==> out.additional == s.additional))
  }

  predicate SameBranches(s: Schema, out: Schema)
    requires s.Node? && out.Node?
  {
    && s.items.Items? == out.items.Items?
    && SameNumber(s.anyOf, out.anyOf) && SameNumber(s.oneOf, out.oneOf)
    && SameNumber(s.allOf, out.allOf) && SameNumber(s.prefixItems, out.prefixItems)
  }

  predicate SameNumber(before: Branches, after: Branches) {
    before.Branches? == after.Branches? && (before.Branches? ==> |before.list| == |after.list|)
  }

  // ---- the transformation ----------------------------------------------------------------------

  /** walk. Every reference that is followed joins `seen`, so the definitions still to follow get fewer: that is why it ends. */
  function Walk(defs: Defs, seen: set<string>, depth: nat, s: Schema): Schema
    decreases defs.Keys - seen, s
  {
    match s
    case Flag(_) => s
    case Ref(name) =>
      if name in seen || depth > MAX_DEPTH then FREE_OBJECT
      else if name !in defs then FREE_OBJECT.(additional := AllowAny(true))
      else
        assert name in defs.Keys - seen && name !in defs.Keys - (seen + {name});
        Walk(defs, seen + {name}, depth + 1, defs[name])
    case Node(ty, props, required, additional, items, anyOf, oneOf, allOf, prefixItems, cs) =>
      if IsFree(s) then
        Node(ObjectType, props, None, AllowAny(true), items, anyOf, oneOf, allOf, prefixItems, Kept(cs))
      else
        Node(if IsObject(s) then ObjectType else ty,
             if props.Props? then Props(WalkProps(defs, seen, depth + 1, props.list)) else NoProps,
             if IsObject(s) then Some(Declared(if required.Some? then required.value else [], props.list)) else required,
             if IsObject(s) then AllowAny(false)
             else if additional.Matching? then Matching(Walk(defs, seen, depth + 1, additional.schema)) else additional,
             if items.Items? then Items(Walk(defs, seen, depth + 1, items.schema)) else NoItems,
             if anyOf.Branches? then Branches(WalkAll(defs, seen, depth + 1, anyOf.list)) else NoBranches,
             if oneOf.Branches? then Branches(WalkAll(defs, seen, depth + 1, oneOf.list)) else NoBranches,
             if allOf.Branches? then Branches(WalkAll(defs, seen, depth + 1, allOf.list)) else NoBranches,
             if prefixItems.Branches? then Branches(WalkAll(defs, seen, depth + 1, prefixItems.list)) else NoBranches,
             Kept(cs))
  }

  function WalkAll(defs: Defs, seen: set<string>, depth: nat, ss: seq<Schema>): (r: seq<Schema>)
    ensures |r| == |ss|
    ensures forall i :: 0 <= i < |ss| ==> r[i] == Walk(defs, seen, depth, ss[i])
    decreases defs.Keys - seen, ss
  {
    if ss == [] then [] else WalkAll(defs, seen, depth, ss[..|ss| - 1]) + [Walk(defs, seen, depth, ss[|ss| - 1])]
  }

  function WalkProps(defs: Defs, seen: set<string>, depth: nat, ps: seq<Prop>): (r: seq<Prop>)
    ensures |r| == |ps|
    ensures forall i :: 0 <= i < |ps| ==> r[i].name == ps[i].name && r[i].schema == Walk(defs, seen, depth, ps[i].schema)
    decreases defs.Keys - seen, ps
  {
    if ps == [] then []
    else WalkProps(defs, seen, depth, ps[..|ps| - 1]) + [Prop(ps[|ps| - 1].name, Walk(defs, seen, depth, ps[|ps| - 1].schema))]
  }

  lemma WalkRewrites(defs: Defs, seen: set<string>, depth: nat, s: Schema)
    requires s.Node?
    ensures IsRewritten(s, Walk(defs, seen, depth, s))
  {
    if s.props.Props? && s.props.list != [] {
      DeclaredIsSubset(if s.required.Some? then s.required.value else [], s.props.list);
    }
  }

  /** strict_schema. */
  function StrictSchema(defs: Defs, s: Schema): Schema {
    var out := Walk(defs, {}, 0, s);
    if out.Node? && out.ty.ObjectType? then out else EMPTY_OBJECT
  }

  /** The walk as it runs: one shared set of the references being followed, extended and restored. */
  class Inliner {
    const defs: Defs
    var seen: set<string>

    constructor (defs: Defs)
      ensures this.defs == defs && seen == {}
    {
      this.defs, seen := defs, {};
    }

    method WalkNode(s: Schema, depth: nat) returns (out: Schema)
      modifies this
      ensures seen == old(seen)
      ensures out == Walk(defs, seen, depth, s)
      ensures s.Flag? ==> out == s
      ensures s.Ref? && (s.name in seen || depth > 8) ==> IsBareObject(out) && out.additional.Unsaid?
      ensures s.Ref? && s.name !in seen && depth <= 8 && s.name !in defs ==> IsBareObject(out) && out.additional == AllowAny(true)
      ensures s.Ref? && s.name !in seen && depth <= 8 && s.name in defs ==> out == Walk(defs, seen + {s.name}, depth + 1, defs[s.name])
      ensures s.Node? ==> IsRewritten(s, out)
      decreases defs.Keys - seen, s, 1
    {
      match s {
        case Flag(_) =>
          out := s;
        case Ref(name) =>
          if name in seen || depth > MAX_DEPTH {
            return FREE_OBJECT;
          }
          if name !in defs {
            return FREE_OBJECT.(additional := AllowAny(true));
          }
          assert name in defs.Keys - seen && name !in defs.Keys - (seen + {name});
          ghost var before := seen;
          seen := seen + {name};
          out := WalkNode(defs[name], depth + 1);
          seen := seen - {name};
          assert seen == before;
        case Node(_, _, _, _, _, _, _, _, _, _) =>
          out := WalkKeywords(s, depth);
          WalkRewrites(defs, seen, depth, s);
      }
    }

    method WalkKeywords(s: Schema, depth: nat) returns (out: Schema)
      requires s.Node?
      modifies this
      ensures seen == old(seen)
      ensures out == Walk(defs, seen, depth, s)
      decreases defs.Keys - seen, s, 0
    {
      out := s.(constraints := Kept(s.constraints));
      if s.ty.ObjectType? || s.props.Props? {
        out := out.(ty := ObjectType);
        if s.props.NoProps? || s.props.list == [] {
          return out.(required := None, additional := AllowAny(true));
        }
        var props := WalkEachProp(s.props.list, depth + 1);
        out := out.(props := Props(props), additional := AllowAny(false),
                    required := Some(Declared(if s.required.Some? then s.required.value else [], s.props.list)));
      }
      if s.items.Items? {
        var items := WalkNode(s.items.schema, depth + 1);
        out := out.(items := Items(items));
      }
      if s.anyOf.Branches? {
        var branches := WalkEach(s.anyOf.list, depth + 1);
        out := out.(anyOf := Branches(branches));
      }
      if s.oneOf.Branches? {
        var branches := WalkEach(s.oneOf.list, depth + 1);
        out := out.(oneOf := Branches(branches));
      }
      if s.allOf.Branches? {
        var branches := WalkEach(s.allOf.list, depth + 1);
        out := out.(allOf := Branches(branches));
      }
      if s.prefixItems.Branches? {
        var branches := WalkEach(s.prefixItems.list, depth + 1);
        out := out.(prefixItems := Branches(branches));
      }
      if out.additional.Matching? {
        var rest := WalkNode(s.additional.schema, depth + 1);
        out := out.(additional := Matching(rest));
      }
    }

    method WalkEach(ss: seq<Schema>, depth: nat) returns (out: seq<Schema>)
      modifies this
      ensures seen == old(seen)
      ensures out == WalkAll(defs, seen, depth, ss)
      decreases defs.Keys - seen, ss
    {
      out := [];
      var i := 0;
      while i < |ss|
        invariant 0 <= i <= |ss| && seen == old(seen)
        invariant out == WalkAll(defs, seen, depth, ss)[..i]
      {
        var one := WalkNode(ss[i], depth);
        out := out + [one];
        i := i + 1;
      }
    }

    method WalkEachProp(ps: seq<Prop>, depth: nat) returns (out: seq<Prop>)
      modifies this
      ensures seen == old(seen)
      ensures out == WalkProps(defs, seen, depth, ps)
      decreases defs.Keys - seen, ps
    {
      out := [];
      var i := 0;
      while i < |ps|
        invariant 0 <= i <= |ps| && seen == old(seen)
        invariant out == WalkProps(defs, seen, depth, ps)[..i]
      {
        var one := WalkNode(ps[i].schema, depth);
        out := out + [Prop(ps[i].name, one)];
        i := i + 1;
      }
    }
  }
}
