/** Rendering over-approximates: every value that is valid under a schema belongs to the rendered type. */
module SchemaSound {
  import opened Wrappers
  import opened SchemaRender

  // ---------------------------------------------------------------- validity

  type Validator = (Schema, Json) -> bool

  function Floor(x: real): int {
    x.Floor
  }

  predicate TypeHolds(name: string, v: Json) {
    match v
    case Null => name == "null"
    case Bool(_) => name == "boolean"
    case Num(x) => name == "number" || (name == "integer" && x == Floor(x) as real)
    case Str(_) => name == "string"
    case Arr(_) => name == "array"
    case Obj(_) => name == "object"
  }

  predicate Declares(ps: seq<Property>, name: string) {
    exists i :: 0 <= i < |ps| && ps[i].name == name
  }

  function Declared(s: Schema): seq<Property> {
    if s.properties.Listed? then s.properties.all else []
  }

  ghost predicate ReferenceHolds(valid: Validator, defs: Definitions, s: Schema, v: Json) {
    s.ref.Some? && s.ref.value.Named? && s.ref.value.name in defs ==> valid(defs[s.ref.value.name], v)
  }

  ghost predicate ValueHolds(s: Schema, v: Json) {
    && (s.constant.Some? ==> v == s.constant.value)
    && (s.enumeration.Some? ==> v in s.enumeration.value)
    && (s.types.One? ==> TypeHolds(s.types.name, v))
    && (s.types.Many? ==> exists i :: 0 <= i < |s.types.names| && TypeHolds(s.types.names[i], v))
  }

  ghost predicate AnyHolds(valid: Validator, ss: seq<Schema>, v: Json) {
    exists i :: 0 <= i < |ss| && valid(ss[i], v)
  }

  ghost predicate OneHolds(valid: Validator, ss: seq<Schema>, v: Json) {
    && AnyHolds(valid, ss, v)
    && (forall i, k :: 0 <= i < |ss| && 0 <= k < |ss| && valid(ss[i], v) && valid(ss[k], v) ==> i == k)
  }

  ghost predicate CombinedHolds(valid: Validator, s: Schema, v: Json) {
    && (s.anyOf.These? ==> AnyHolds(valid, s.anyOf.schemas, v))
    && (s.oneOf.These? ==> OneHolds(valid, s.oneOf.schemas, v))
    && (s.allOf.These? ==> forall i :: 0 <= i < |s.allOf.schemas| ==> valid(s.allOf.schemas[i], v))
  }

  ghost predicate ArrayHolds(valid: Validator, s: Schema, v: Json) {
    v.Arr? && s.items.Each? ==> forall i :: 0 <= i < |v.items| ==> valid(s.items.schema, v.items[i])
  }

  ghost predicate ObjectHolds(valid: Validator, ps: seq<Property>, required: seq<string>, additional: Additional,
                              v: Json) {
    v.Obj? ==>
      && (forall name :: name in required ==> name in v.fields)
      && (forall i :: 0 <= i < |ps| && ps[i].name in v.fields ==> valid(ps[i].schema, v.fields[ps[i].name]))
      && (additional == Allowed(false) ==> forall k :: k in v.fields ==> Declares(ps, k))
      && (additional.Typed? ==> forall k :: k in v.fields && !Declares(ps, k) ==> valid(additional.schema, v.fields[k]))
  }

  /** What the keywords of one schema demand of a value, given what is valid under its subschemas. */
  ghost predicate Holds(valid: Validator, defs: Definitions, s: Schema, v: Json) {
    && ReferenceHolds(valid, defs, s, v)
    && ValueHolds(s, v)
    && CombinedHolds(valid, s, v)
    && ArrayHolds(valid, s, v)
    && ObjectHolds(valid, Declared(s), s.required, s.additional, v)
  }

  /** A notion of validity under which nothing is valid that breaks a keyword; any JSON Schema validator is one. */
  ghost predicate Obeys(valid: Validator, defs: Definitions) {
    forall s, v :: valid(s, v) ==> Holds(valid, defs, s, v)
  }

  // ---------------------------------------------------------------- supported schemas

  /** The collapse of number unions that drops alternatives which are not numbers. */
  predicate DropsSentinels(ss: seq<Schema>) {
    NumberArtifact(ss) && exists i :: 0 <= i < |ss| && ss[i].types != One("number")
  }

  /**
   * The schemas for which rendering over-approximates: one definitions map throughout, properties only beside an
   * explicit type, no schema for additional properties beside declared ones, and no collapsed number sentinels.
   */
  predicate Supported(s: Schema, defs: Definitions)
    decreases s
  {
    && Nested(defs, s) == defs
    && (s.properties.Listed? ==> !s.types.NoType?)
    && (s.additional.Typed? ==> Declared(s) == [] && Supported(s.additional.schema, defs))
    && (Alternatives(s).These? ==> !DropsSentinels(Alternatives(s).schemas))
    && (s.anyOf.These? ==> forall i :: 0 <= i < |s.anyOf.schemas| ==> Supported(s.anyOf.schemas[i], defs))
    && (s.oneOf.These? ==> forall i :: 0 <= i < |s.oneOf.schemas| ==> Supported(s.oneOf.schemas[i], defs))
    && (s.allOf.These? ==> forall i :: 0 <= i < |s.allOf.schemas| ==> Supported(s.allOf.schemas[i], defs))
    && (s.properties.Listed? ==> forall i ::
          0 <= i < |s.properties.all| ==> Supported(s.properties.all[i].schema, defs))
    && (s.items.Each? ==> Supported(s.items.schema, defs))
  }

  predicate SupportedDefinitions(defs: Definitions) {
    forall k :: k in defs ==> Supported(defs[k], defs)
  }

  // ---------------------------------------------------------------- the theorem

  ghost predicate Premise(valid: Validator, defs: Definitions, s: Schema, v: Json) {
    Obeys(valid, defs) && SupportedDefinitions(defs) && Supported(s, defs) && Holds(valid, defs, s, v)
  }

  /** A subschema's value carries the premise with it. */
  lemma Descend(valid: Validator, defs: Definitions, s: Schema, v: Json)
    requires Obeys(valid, defs) && SupportedDefinitions(defs) && Supported(s, defs) && valid(s, v)
    ensures Premise(valid, defs, s, v)
  {
  }

  lemma DropReference(valid: Validator, defs: Definitions, s: Schema, v: Json)
    requires Premise(valid, defs, s, v)
    ensures Premise(valid, defs, s.(ref := None), v)
  {
  }

  lemma DropAlternatives(valid: Validator, defs: Definitions, s: Schema, v: Json)
    requires Premise(valid, defs, s, v)
    ensures Premise(valid, defs, s.(anyOf := NoSubschemas, oneOf := NoSubschemas), v)
  {
  }

  lemma DropAllOf(valid: Validator, defs: Definitions, s: Schema, v: Json)
    requires Premise(valid, defs, s, v)
    ensures Premise(valid, defs, s.(allOf := NoSubschemas), v)
  {
  }

  lemma ChooseType(valid: Validator, defs: Definitions, s: Schema, v: Json, i: nat)
    requires Premise(valid, defs, s, v) && s.types.Many? && i < |s.types.names| && TypeHolds(s.types.names[i], v)
    ensures Premise(valid, defs, s.(types := One(s.types.names[i])), v)
  {
  }

  predicate Follows(s: Schema, defs: Definitions, seen: set<string>) {
    s.ref.Some? && s.ref.value.Named? && s.ref.value.name in defs && s.ref.value.name !in seen
  }

  lemma RenderReference(s: Schema, defs: Definitions, depth: nat, seen: set<string>)
    requires Nested(defs, s) == defs && depth <= MAX_RENDER_DEPTH && s.ref.Some?
    ensures Follows(s, defs, seen) ==>
              Render(s, defs, depth, seen) == IntersectionOf([
                Render(defs[s.ref.value.name], defs, depth, seen + {s.ref.value.name}),
                Render(s.(ref := None), defs, depth + 1, seen)])
    ensures !Follows(s, defs, seen) ==> Render(s, defs, depth, seen) == Unknown
  {
    hide IntersectionOf, Unseen;
  }

  /** What the premise says about the definition referred to. */
  lemma Referred(valid: Validator, defs: Definitions, s: Schema, v: Json)
    requires Premise(valid, defs, s, v) && Follows(s, defs, {})
    ensures Premise(valid, defs, defs[s.ref.value.name], v)
  {
    assert ReferenceHolds(valid, defs, s, v);
    Descend(valid, defs, defs[s.ref.value.name], v);
  }

  lemma OverReference(valid: Validator, defs: Definitions, s: Schema, v: Json, depth: nat, seen: set<string>)
    requires Premise(valid, defs, s, v) && depth <= MAX_RENDER_DEPTH && s.ref.Some? && Nested(defs, s) == defs
    ensures Has(Render(s, defs, depth, seen), v)
    decreases MAX_RENDER_DEPTH + 1 - depth, Unseen(defs, s, seen), 1
  {
    hide Premise, Render, Unseen, Supported, Has, IntersectionOf, Nested;
    RenderReference(s, defs, depth, seen);
    if Follows(s, defs, seen) {
      var name := s.ref.value.name;
      FollowingShrinks(defs, s, seen, name);
      Referred(valid, defs, s, v);
      DropReference(valid, defs, s, v);
      Over(valid, defs, defs[name], v, depth, seen + {name});
      Over(valid, defs, s.(ref := None), v, depth + 1, seen);
      AllHave(Render(defs[name], defs, depth, seen + {name}), Render(s.(ref := None), defs, depth + 1, seen), v);
    } else {
      UnknownHas(v);
    }
  }

  function Members(ss: seq<Schema>, defs: Definitions, depth: nat, seen: set<string>): (r: seq<Type>)
    ensures |r| == |ss| && forall i :: 0 <= i < |ss| ==> r[i] == Render(ss[i], defs, depth, seen)
  {
    seq(|ss|, i requires 0 <= i < |ss| => Render(ss[i], defs, depth, seen))
  }

  function WithoutAlternatives(s: Schema): Schema {
    s.(anyOf := NoSubschemas, oneOf := NoSubschemas)
  }

  lemma RenderAlternatives(s: Schema, defs: Definitions, depth: nat, seen: set<string>)
    requires Nested(defs, s) == defs && depth <= MAX_RENDER_DEPTH
    requires s.ref.None? && s.constant.None? && s.enumeration.None? && Alternatives(s).These?
    ensures var ss := Alternatives(s).schemas;
            var t := Render(s, defs, depth, seen);
            if NumberArtifact(ss) then t == NumberType
            else if StructArtifact(ss) then t == ObjectType([], None)
            else
              var union := UnionOf(Members(ss, defs, depth + 1, seen));
              t == Unknown || t == IntersectionOf([union, Render(WithoutAlternatives(s), defs, depth + 1, seen)])
  {
    hide IntersectionOf, UnionOf, NumberArtifact, StructArtifact, Unseen;
    var ss := Alternatives(s).schemas;
    assert seq(|ss|, i requires 0 <= i < |ss| => Render(ss[i], defs, depth + 1, seen)) == Members(ss, defs, depth + 1,
        seen);
  }

  /** What the premise says about the alternatives. */
  lemma Alternative(valid: Validator, defs: Definitions, s: Schema, v: Json) returns (i: nat)
    requires Premise(valid, defs, s, v) && Alternatives(s).These?
    ensures Nested(defs, s) == defs && !DropsSentinels(Alternatives(s).schemas)
    ensures i < |Alternatives(s).schemas| && valid(Alternatives(s).schemas[i], v) &&
              Premise(valid, defs, Alternatives(s).schemas[i], v)
    ensures Premise(valid, defs, WithoutAlternatives(s), v)
  {
    assert AnyHolds(valid, Alternatives(s).schemas, v);
    i :| 0 <= i < |Alternatives(s).schemas| && valid(Alternatives(s).schemas[i], v);
    assert Supported(Alternatives(s).schemas[i], defs);
    Descend(valid, defs, Alternatives(s).schemas[i], v);
    DropAlternatives(valid, defs, s, v);
  }

  lemma ArtifactHas(valid: Validator, defs: Definitions, s: Schema, v: Json)
    requires Premise(valid, defs, s, v) &&
               (s.types == One("number") || s.types == One("object") || s.types == One("array"))
    ensures !v.Null? && (s.types == One("number") ==> v.Num?)
  {
    assert ValueHolds(s, v);
  }

  lemma OverUnion(valid: Validator, defs: Definitions, s: Schema, v: Json, depth: nat, seen: set<string>,
                  ss: seq<Schema>, i: nat)
    requires Premise(valid, defs, s, v) && depth <= MAX_RENDER_DEPTH
    requires i < |ss| && Premise(valid, defs, ss[i], v)
    ensures Has(IntersectionOf([UnionOf(Members(ss, defs, depth + 1, seen)), Render(s, defs, depth + 1, seen)]), v)
    decreases MAX_RENDER_DEPTH + 1 - depth, 0, 0
  {
    hide *;
    Over(valid, defs, ss[i], v, depth + 1, seen);
    Over(valid, defs, s, v, depth + 1, seen);
    var members := Members(ss, defs, depth + 1, seen);
    assert Has(members[i], v);
    UnionHas(members, v);
    AllHave(UnionOf(members), Render(s, defs, depth + 1, seen), v);
  }

  lemma AllHave(a: Type, b: Type, v: Json)
    requires Has(a, v) && Has(b, v)
    ensures Has(IntersectionOf([a, b]), v)
  {
    hide Has, IntersectionOf;
    IntersectionHas([a, b], v);
  }

  lemma OverAlternatives(valid: Validator, defs: Definitions, s: Schema, v: Json, depth: nat, seen: set<string>)
    requires Premise(valid, defs, s, v) && depth <= MAX_RENDER_DEPTH
    requires s.ref.None? && s.constant.None? && s.enumeration.None? && Alternatives(s).These?
    ensures Has(Render(s, defs, depth, seen), v)
    decreases MAX_RENDER_DEPTH + 1 - depth, 0, 1
  {
    var ss := Alternatives(s).schemas;
    var i := Alternative(valid, defs, s, v);
    hide Premise, Render, Supported, IntersectionOf, UnionOf, NumberSentinel, Nested, Alternatives, Members;
    RenderAlternatives(s, defs, depth, seen);
    if NumberArtifact(ss) || StructArtifact(ss) {
      ArtifactHas(valid, defs, ss[i], v);
    } else {
      hide *;
      OverUnion(valid, defs, WithoutAlternatives(s), v, depth, seen, ss, i);
      UnknownHas(v);
    }
  }

  lemma UnknownHas(v: Json)
    ensures Has(Unknown, v)
  {
  }

  function WithoutAllOf(s: Schema): Schema {
    s.(allOf := NoSubschemas)
  }

  lemma RenderAllOf(s: Schema, defs: Definitions, depth: nat, seen: set<string>)
    requires Nested(defs, s) == defs && depth <= MAX_RENDER_DEPTH
    requires s.ref.None? && s.constant.None? && s.enumeration.None? && !Alternatives(s).These? && s.allOf.These?
    ensures var t := Render(s, defs, depth, seen);
            var members := Members(s.allOf.schemas, defs, depth + 1, seen);
            t == Unknown || t == IntersectionOf([Render(WithoutAllOf(s), defs, depth + 1, seen)] + members)
  {
    hide IntersectionOf, UnionOf, NumberArtifact, StructArtifact, Unseen, HasUnresolvedRef;
    var ss := s.allOf.schemas;
    assert seq(|ss|, i requires 0 <= i < |ss| => Render(ss[i], defs, depth + 1, seen)) == Members(ss, defs, depth + 1,
        seen);
  }

  /** What the premise says about the members of `allOf`. */
  lemma Conjunct(valid: Validator, defs: Definitions, s: Schema, v: Json)
    requires Premise(valid, defs, s, v) && s.allOf.These?
    ensures forall i :: 0 <= i < |s.allOf.schemas| ==> Premise(valid, defs, s.allOf.schemas[i], v)
    ensures Premise(valid, defs, WithoutAllOf(s), v)
  {
    DropAllOf(valid, defs, s, v);
    assert CombinedHolds(valid, s, v);
    forall i | 0 <= i < |s.allOf.schemas| ensures Premise(valid, defs, s.allOf.schemas[i], v) {
      Descend(valid, defs, s.allOf.schemas[i], v);
    }
  }

  lemma OverAllOf(valid: Validator, defs: Definitions, s: Schema, v: Json, depth: nat, seen: set<string>)
    requires Premise(valid, defs, s, v) && depth <= MAX_RENDER_DEPTH && Nested(defs, s) == defs
    requires s.ref.None? && s.constant.None? && s.enumeration.None? && !Alternatives(s).These? && s.allOf.These?
    ensures Has(Render(s, defs, depth, seen), v)
    decreases MAX_RENDER_DEPTH + 1 - depth, 0, 1
  {
    hide *;
    Conjunct(valid, defs, s, v);
    RenderAllOf(s, defs, depth, seen);
    UnknownHas(v);
    var ss := s.allOf.schemas;
    var first := Render(WithoutAllOf(s), defs, depth + 1, seen);
    Over(valid, defs, WithoutAllOf(s), v, depth + 1, seen);
    var members := Members(ss, defs, depth + 1, seen);
    forall i | 0 <= i < |ss| ensures Has(members[i], v) { Over(valid, defs, ss[i], v, depth + 1, seen); }
    EachHave(first, members, v);
  }

  lemma EachHave(a: Type, ts: seq<Type>, v: Json)
    requires Has(a, v) && forall i :: 0 <= i < |ts| ==> Has(ts[i], v)
    ensures Has(IntersectionOf([a] + ts), v)
  {
    hide Has, IntersectionOf;
    IntersectionHas([a] + ts, v);
  }

  predicate Plain(s: Schema) {
    s.ref.None? && s.constant.None? && s.enumeration.None? && !Alternatives(s).These? && !s.allOf.These?
  }

  lemma OverMany(valid: Validator, defs: Definitions, s: Schema, v: Json, depth: nat, seen: set<string>)
    requires Premise(valid, defs, s, v) && depth <= MAX_RENDER_DEPTH && Plain(s) && s.types.Many?
    ensures Has(Render(s, defs, depth, seen), v)
    decreases MAX_RENDER_DEPTH + 1 - depth, 0, 1
  {
    var names := s.types.names;
    var i :| 0 <= i < |names| && TypeHolds(names[i], v);
    ChooseType(valid, defs, s, v, i);
    Over(valid, defs, s.(types := One(names[i])), v, depth + 1, seen);
    var members := seq(|names|,
        i requires 0 <= i < |names| => Render(s.(types := One(names[i])), defs, depth + 1, seen));
    assert Has(members[i], v);
    UnionHas(members, v);
  }

  lemma OverArray(valid: Validator, defs: Definitions, s: Schema, v: Json, depth: nat, seen: set<string>)
    requires Premise(valid, defs, s, v) && depth <= MAX_RENDER_DEPTH && Plain(s) && s.types == One("array")
    ensures Has(Render(s, defs, depth, seen), v)
    decreases MAX_RENDER_DEPTH + 1 - depth, 0, 1
  {
    if s.items.Each? {
      forall i | 0 <= i < |v.items| ensures Has(Render(s.items.schema, defs, depth + 1, seen), v.items[i]) {
        Descend(valid, defs, s.items.schema, v.items[i]);
        Over(valid, defs, s.items.schema, v.items[i], depth + 1, seen);
      }
    } else {
      assert Render(EMPTY, defs, depth + 1, seen) == Unknown;
    }
  }

  lemma OverObject(valid: Validator, defs: Definitions, s: Schema, v: Json, depth: nat, seen: set<string>)
    requires Premise(valid, defs, s, v) && depth <= MAX_RENDER_DEPTH && Plain(s) && s.types == One("object")
    ensures Has(Render(s, defs, depth, seen), v)
    decreases MAX_RENDER_DEPTH + 1 - depth, 0, 1
  {
    var ps := Declared(s);
    forall i | 0 <= i < |ps| && ps[i].name in v.fields
      ensures Has(Render(ps[i].schema, defs, depth + 1, seen), v.fields[ps[i].name])
    {
      Descend(valid, defs, ps[i].schema, v.fields[ps[i].name]);
      Over(valid, defs, ps[i].schema, v.fields[ps[i].name], depth + 1, seen);
    }
    if s.additional.Typed? {
      forall k | k in v.fields ensures Has(Render(s.additional.schema, defs, depth + 1, seen), v.fields[k]) {
        assert !Declares(ps, k);
        Descend(valid, defs, s.additional.schema, v.fields[k]);
        Over(valid, defs, s.additional.schema, v.fields[k], depth + 1, seen);
      }
    }
  }

  lemma RenderValue(s: Schema, defs: Definitions, depth: nat, seen: set<string>, v: Json)
    requires Nested(defs, s) == defs && depth <= MAX_RENDER_DEPTH && ValueHolds(s, v)
    requires s.ref.None? && (s.constant.Some? || s.enumeration.Some?)
    ensures Has(Render(s, defs, depth, seen), v)
  {
    if s.enumeration.Some? { UnionHas(Literals(s.enumeration.value), v); }
    hide UnionOf, NumberArtifact, StructArtifact, Unseen, NumberSentinel;
  }

  /** Types without subschemas, and everything that renders as `unknown`. */
  lemma OverBasic(valid: Validator, defs: Definitions, s: Schema, v: Json, depth: nat, seen: set<string>)
    requires Premise(valid, defs, s, v) && Plain(s)
    requires !s.types.Many? && s.types != One("array") && s.types != One("object")
    ensures Has(Render(s, defs, depth, seen), v)
  {
    assert ValueHolds(s, v);
    assert !s.properties.Listed? || s.types.One?;
    hide Premise, Unseen, NumberArtifact, StructArtifact;
  }

  /**
   * Whatever the keywords of a supported schema allow belongs to its rendering, at every depth and under every set of
   * names seen.
   */
  lemma {:induction false} Over(valid: Validator, defs: Definitions, s: Schema, v: Json, depth: nat, seen: set<string>)
    requires Premise(valid, defs, s, v)
    ensures Has(Render(s, defs, depth, seen), v)
    decreases MAX_RENDER_DEPTH + 1 - depth, Unseen(defs, s, seen), 2
  {
    if depth > MAX_RENDER_DEPTH {
    } else {
      assert Nested(defs, s) == defs && ValueHolds(s, v);
      hide Premise, Render, Has, Supported, ValueHolds;
      if s.ref.Some? {
        OverReference(valid, defs, s, v, depth, seen);
      } else if s.constant.Some? || s.enumeration.Some? {
        RenderValue(s, defs, depth, seen, v);
      } else if Alternatives(s).These? {
        OverAlternatives(valid, defs, s, v, depth, seen);
      } else if s.allOf.These? {
        OverAllOf(valid, defs, s, v, depth, seen);
      } else if s.types.Many? {
        OverMany(valid, defs, s, v, depth, seen);
      } else if s.types == One("array") {
        OverArray(valid, defs, s, v, depth, seen);
      } else if s.types == One("object") {
        OverObject(valid, defs, s, v, depth, seen);
      } else {
        OverBasic(valid, defs, s, v, depth, seen);
      }
    }
  }

  /** The type printed for a document admits every value the document allows. */
  lemma DocumentAdmits(valid: Validator, s: Schema, v: Json)
    requires var defs := Entries(s.definitions) + Entries(s.defs);
             Obeys(valid, defs) && SupportedDefinitions(defs) && Supported(s, defs)
    requires valid(s, v)
    ensures Has(RenderDocument(s), v)
  {
    var defs := Entries(s.definitions) + Entries(s.defs);
    Descend(valid, defs, s, v);
    Over(valid, defs, s, v, 0, {});
  }
}
