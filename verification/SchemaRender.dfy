/**
 * packages/codemode/src/tool-schema.ts: rendering a JSON Schema as a TypeScript type. Types are syntax trees
 * here; `Has` says which JSON values a type admits, and validators are any relations that obey the keywords'
 * rules (JSON Schema 2020-12: Core sections 8.2.3.1, 10.2.1, 10.3.1.2 and 10.3.2; Validation sections 6.1 and
 * 6.5.3).
 */
module SchemaRender {
  import opened Wrappers

  datatype Json =
    | Null
    | Bool(truth: bool)
    | Num(number: real)
    | Str(text: string)
    | Arr(items: seq<Json>)
    | Obj(fields: map<string, Json>)

  // ---------------------------------------------------------------- schemas

  /** A `$ref`: a name under `#/$defs/` or `#/definitions/`, or anything else. */
  datatype Reference = Named(name: string) | Foreign

  datatype TypeKeyword = NoType | One(name: string) | Many(names: seq<string>)
  datatype Additional = NoAdditional | Allowed(allowed: bool) | Typed(schema: Schema)
  datatype Property = Property(name: string, schema: Schema)
  datatype Subschemas = NoSubschemas | These(schemas: seq<Schema>)
  datatype Properties = NoProperties | Listed(all: seq<Property>)
  datatype Items = NoItems | Each(schema: Schema)

  /** `node` is the identity of the schema object. */
  datatype Schema = Schema(
    node: nat,
    ref: Option<Reference>,
    constant: Option<Json>,
    enumeration: Option<seq<Json>>,
    anyOf: Subschemas,
    oneOf: Subschemas,
    allOf: Subschemas,
    types: TypeKeyword,
    properties: Properties,
    required: seq<string>,
    items: Items,
    additional: Additional,
    definitions: seq<Property>,
    defs: seq<Property>
  )

  type Definitions = map<string, Schema>

  const EMPTY: Schema :=
    Schema(0, None, None, None, NoSubschemas, NoSubschemas, NoSubschemas, NoType, NoProperties, [], NoItems,
        NoAdditional, [], [])

  function Entries(ps: seq<Property>): Definitions {
    if ps == [] then map[] else Entries(ps[..|ps| - 1])[ps[|ps| - 1].name := ps[|ps| - 1].schema]
  }

  /** The definitions in force inside a schema. */
  function Nested(defs: Definitions, s: Schema): Definitions {
    defs + Entries(s.definitions) + Entries(s.defs)
  }

  // ---------------------------------------------------------------- types

  datatype Field = Field(name: string, optional: bool, typ: Type)

  datatype Type =
    | Unknown
    | Literal(value: Json)
    | Union(members: seq<Type>)
    | Intersection(members: seq<Type>)
    | StringType | NumberType | BooleanType | NullType
    | ArrayType(element: Type)
    | ObjectType(fields: seq<Field>, index: Option<Type>)

  /** Whether a value belongs to a type. A type without fields is TypeScript's `{}`: anything but null. */
  predicate Has(t: Type, v: Json) {
    match t
    case Unknown => true
    case Literal(value) => v == value
    case Union(ts) => exists i :: 0 <= i < |ts| && Has(ts[i], v)
    case Intersection(ts) => forall i :: 0 <= i < |ts| ==> Has(ts[i], v)
    case StringType => v.Str?
    case NumberType => v.Num?
    case BooleanType => v.Bool?
    case NullType => v.Null?
    case ArrayType(e) => v.Arr? && forall i :: 0 <= i < |v.items| ==> Has(e, v.items[i])
    case ObjectType(fields, index) =>
      if fields == [] && index.None? then !v.Null?
      else
        && v.Obj?
        && (forall i :: 0 <= i < |fields| ==> fields[i].optional || fields[i].name in v.fields)
        && (forall i ::
              0 <= i < |fields| ==> fields[i].name in v.fields ==> Has(fields[i].typ, v.fields[fields[i].name]))
        && (index.Some? ==> forall k :: k in v.fields ==> Has(index.value, v.fields[k]))
  }

  /** `members.join(" | ")`: a single member stands for itself. */
  function UnionOf(ts: seq<Type>): Type {
    if |ts| == 1 then ts[0] else Union(ts)
  }

  function Concrete(ts: seq<Type>): seq<Type> {
    if ts == [] then [] else (if ts[0].Unknown? then [] else [ts[0]]) + Concrete(ts[1..])
  }

  /** `intersection`: unknown members are dropped, and a single one stands for itself. */
  function IntersectionOf(ts: seq<Type>): Type {
    var concrete := Concrete(ts);
    if concrete == [] then Unknown else if |concrete| == 1 then concrete[0] else Intersection(concrete)
  }

  predicate HasAll(ts: seq<Type>, v: Json) {
    forall i :: 0 <= i < |ts| ==> Has(ts[i], v)
  }

  lemma HasAllTail(ts: seq<Type>, v: Json)
    requires ts != []
    ensures HasAll(ts, v) <==> Has(ts[0], v) && HasAll(ts[1..], v)
  {
    if HasAll(ts[1..], v) {
      assert forall i :: 0 < i < |ts| ==> ts[i] == ts[1..][i - 1];
    }
  }

  lemma {:induction false} ConcreteHas(ts: seq<Type>, v: Json)
    ensures HasAll(Concrete(ts), v) <==> HasAll(ts, v)
  {
    if ts == [] {
    } else {
      hide HasAll;
      ConcreteHas(ts[1..], v);
      HasAllTail(ts, v);
      if ts[0].Unknown? {
        assert Concrete(ts) == Concrete(ts[1..]);
      } else {
        HasAllTail(Concrete(ts), v);
        assert Concrete(ts)[1..] == Concrete(ts[1..]);
      }
    }
  }

  /** Dropping `unknown` from an intersection does not change what belongs to it. */
  lemma IntersectionHas(ts: seq<Type>, v: Json)
    ensures Has(IntersectionOf(ts), v) <==> HasAll(ts, v)
  {
    ConcreteHas(ts, v);
    if |Concrete(ts)| == 1 { HasAllTail(Concrete(ts), v); }
  }

  lemma UnionHas(ts: seq<Type>, v: Json)
    ensures Has(UnionOf(ts), v) <==> exists i :: 0 <= i < |ts| && Has(ts[i], v)
  {
    if |ts| == 1 { assert Has(ts[0], v) <==> exists i :: 0 <= i < |ts| && Has(ts[i], v); }
  }

  // ---------------------------------------------------------------- definition names, for termination

  /** Every definition name that a schema introduces, however deep. */
  ghost function Names(s: Schema): set<string>
    decreases s, 1
  {
    NamesOfProperties(s.definitions) + NamesOfProperties(s.defs)
    + (if s.anyOf.These? then NamesOfAll(s.anyOf.schemas) else {})
    + (if s.oneOf.These? then NamesOfAll(s.oneOf.schemas) else {})
    + (if s.allOf.These? then NamesOfAll(s.allOf.schemas) else {})
    + (if s.properties.Listed? then NamesOfProperties(s.properties.all) else {})
    + (if s.items.Each? then Names(s.items.schema) else {})
    + (if s.additional.Typed? then Names(s.additional.schema) else {})
  }

  ghost function NamesOfAll(ss: seq<Schema>): set<string>
    decreases ss, 0
  {
    if ss == [] then {} else NamesOfAll(ss[..|ss| - 1]) + Names(ss[|ss| - 1])
  }

  ghost function NamesOfProperties(ps: seq<Property>): set<string>
    decreases ps, 0
  {
    if ps == [] then {}
    else NamesOfProperties(ps[..|ps| - 1]) + {ps[|ps| - 1].name} + Names(ps[|ps| - 1].schema)
  }

  ghost function Universe(defs: Definitions, s: Schema): set<string> {
    defs.Keys + (set k, n | k in defs && n in Names(defs[k]) :: n) + Names(s)
  }

  ghost function Unseen(defs: Definitions, s: Schema, seen: set<string>): nat {
    |Universe(defs, s) - seen|
  }

  lemma {:induction false} EntriesNames(ps: seq<Property>, k: string)
    requires k in Entries(ps)
    ensures k in NamesOfProperties(ps) && Names(Entries(ps)[k]) <= NamesOfProperties(ps)
  {
    if k != ps[|ps| - 1].name { EntriesNames(ps[..|ps| - 1], k); }
  }

  /** Following a reference uses up a name and introduces none. */
  lemma FollowingShrinks(defs: Definitions, s: Schema, seen: set<string>, name: string)
    requires name in Nested(defs, s) && name !in seen
    ensures Unseen(Nested(defs, s), Nested(defs, s)[name], seen + {name}) < Unseen(defs, s, seen)
  {
    var nested := Nested(defs, s);
    UniverseShrinks(defs, s, name);
    FewerLeft(Universe(defs, s), Universe(nested, nested[name]), seen, name);
  }

  lemma UniverseShrinks(defs: Definitions, s: Schema, name: string)
    requires name in Nested(defs, s)
    ensures name in Universe(defs, s) && Universe(Nested(defs, s), Nested(defs, s)[name]) <= Universe(defs, s)
  {
    hide Names, NamesOfProperties;
    var nested, universe := Nested(defs, s), Universe(defs, s);
    forall k | k in nested ensures k in universe && Names(nested[k]) <= universe { NestedNames(defs, s, k); }
    hide Nested, Entries;
  }

  lemma FewerLeft(before: set<string>, after: set<string>, seen: set<string>, name: string)
    requires after <= before && name in before && name !in seen
    ensures |after - (seen + {name})| < |before - seen|
  {
    Smaller(after - (seen + {name}), before - seen - {name});
    assert before - seen == (before - seen - {name}) + {name};
  }

  lemma NestedNames(defs: Definitions, s: Schema, k: string)
    requires k in Nested(defs, s)
    ensures k in Universe(defs, s) && Names(Nested(defs, s)[k]) <= Universe(defs, s)
  {
    if k in Entries(s.defs) {
      EntriesNames(s.defs, k);
    } else if k in Entries(s.definitions) {
      EntriesNames(s.definitions, k);
    }
  }

  lemma {:induction false} Smaller(a: set<string>, b: set<string>)
    requires a <= b
    ensures |a| <= |b|
  {
    if a != {} {
      var x :| x in a;
      Smaller(a - {x}, b - {x});
    }
  }

  // ---------------------------------------------------------------- hasUnresolvedRef

  predicate SomeUnresolved(ss: Subschemas, defs: Definitions, seen: set<string>, visited: set<nat>)
    decreases |defs.Keys - seen|, ss, 0
  {
    ss.These? && exists i :: 0 <= i < |ss.schemas| && HasUnresolvedRef(ss.schemas[i], defs, seen, visited)
  }

  /** Whether some reference reachable from a schema is undefined or recursive. */
  predicate HasUnresolvedRef(s: Schema, defs: Definitions, seen: set<string>, visited: set<nat>)
    decreases |defs.Keys - seen|, s, 1
  {
    if s.node in visited then false
    else
      var next := visited + {s.node};
      || (s.ref.Some? && (
            s.ref.value.Foreign? || s.ref.value.name !in defs || s.ref.value.name in seen ||
            (var name := s.ref.value.name;
             Smaller(defs.Keys - (seen + {name}), defs.Keys - seen - {name});
             assert defs.Keys - seen == (defs.Keys - seen - {name}) + {name};
             HasUnresolvedRef(defs[name], defs, seen + {name}, next))))
      || SomeUnresolved(s.anyOf, defs, seen, next)
      || SomeUnresolved(s.oneOf, defs, seen, next)
      || SomeUnresolved(s.allOf, defs, seen, next)
      || (s.properties.Listed? &&
          (exists i :: 0 <= i < |s.properties.all| && HasUnresolvedRef(s.properties.all[i].schema, defs, seen, next)))
      || (s.items.Each? && HasUnresolvedRef(s.items.schema, defs, seen, next))
      || (s.additional.Typed? && HasUnresolvedRef(s.additional.schema, defs, seen, next))
  }

  // ---------------------------------------------------------------- renderSchema

  const MAX_RENDER_DEPTH: nat := 8

  predicate NumberSentinel(s: Schema) {
    && s.types == One("string") && s.enumeration.Some? && |s.enumeration.value| == 1
    && (s.enumeration.value[0] == Str("NaN") || s.enumeration.value[0] == Str("Infinity") ||
          s.enumeration.value[0] == Str("-Infinity"))
  }

  /** Effect's number schema: `number` beside the names of the non-finite numbers. */
  predicate NumberArtifact(ss: seq<Schema>) {
    && (exists i :: 0 <= i < |ss| && ss[i].types == One("number"))
    && (forall i :: 0 <= i < |ss| ==> ss[i].types == One("number") || NumberSentinel(ss[i]))
  }

  /** Effect's empty struct: a bare object or a bare array. */
  predicate StructArtifact(ss: seq<Schema>) {
    && |ss| == 2 && ss[0].types == One("object") && ss[0].properties.NoProperties?
    && ss[1].types == One("array") && ss[1].items.NoItems?
  }

  function Alternatives(s: Schema): Subschemas {
    if s.anyOf.These? then s.anyOf else s.oneOf
  }

  function Literals(vs: seq<Json>): (r: seq<Type>)
    ensures |r| == |vs| && forall i :: 0 <= i < |r| ==> r[i] == Literal(vs[i])
  {
    seq(|vs|, i requires 0 <= i < |vs| => Literal(vs[i]))
  }

  /** `renderSchema`. It terminates on every document: depth rises, or a definition name is used up. */
  function Render(s: Schema, defs: Definitions, depth: nat, seen: set<string>): Type
    decreases MAX_RENDER_DEPTH + 1 - depth, Unseen(defs, s, seen)
  {
    if depth > MAX_RENDER_DEPTH then Unknown
    else
      var nested := Nested(defs, s);
      if s.ref.Some? then
        if s.ref.value.Foreign? || s.ref.value.name !in nested || s.ref.value.name in seen then Unknown
        else
          var name := s.ref.value.name;
          FollowingShrinks(defs, s, seen, name);
          IntersectionOf([
            Render(nested[name], nested, depth, seen + {name}),
            Render(s.(ref := None), nested, depth + 1, seen)])
      else if s.constant.Some? then Literal(s.constant.value)
      else if s.enumeration.Some? then UnionOf(Literals(s.enumeration.value))
      else if Alternatives(s).These? then
        var ss := Alternatives(s).schemas;
        if NumberArtifact(ss) then NumberType
        else if StructArtifact(ss) then ObjectType([], None)
        else
          var members := seq(|ss|, i requires 0 <= i < |ss| => Render(ss[i], nested, depth + 1, seen));
          if Unknown in members then Unknown
          else IntersectionOf([UnionOf(members),
              Render(s.(anyOf := NoSubschemas, oneOf := NoSubschemas), nested, depth + 1, seen)])
      else if s.allOf.These? then
        var ss := s.allOf.schemas;
        var members := seq(|ss|, i requires 0 <= i < |ss| => Render(ss[i], nested, depth + 1, seen));
        if exists i :: 0 <= i < |ss| && HasUnresolvedRef(ss[i], nested, {}, {}) then Unknown
        else IntersectionOf([Render(s.(allOf := NoSubschemas), nested, depth + 1, seen)] + members)
      else
        match s.types
        case Many(names) =>
          UnionOf(seq(|names|,
              i requires 0 <= i < |names| => Render(s.(types := One(names[i])), nested, depth + 1, seen)))
        case One("string") => StringType
        case One("number") => NumberType
        case One("integer") => NumberType
        case One("boolean") => BooleanType
        case One("null") => NullType
        case One("array") =>
          ArrayType(Render(if s.items.Each? then s.items.schema else EMPTY, nested, depth + 1, seen))
        case _ =>
          if s.types == One("object") || s.properties.Listed? then
            var ps := if s.properties.Listed? then s.properties.all else [];
            var index :=
              if s.additional.Typed? then Some(Render(s.additional.schema, nested, depth + 1, seen)) else None;
            ObjectType(
              seq(|ps|, i requires 0 <= i < |ps| =>
                Field(ps[i].name, ps[i].name !in s.required, Render(ps[i].schema, nested, depth + 1, seen))),
              index)
          else Unknown
  }

  /** `jsonSchemaToTypeScript`. */
  function RenderDocument(s: Schema): Type {
    Render(s, Entries(s.definitions) + Entries(s.defs), 0, {})
  }
}
