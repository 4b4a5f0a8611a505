/**
 * Where rendering is narrower than validity: for each of three shapes of schema, exactly when a valid value is lost.
 */
module SchemaMisses {
  import opened Wrappers
  import opened SchemaRender
  import opened SchemaSound

  function DocumentDefs(s: Schema): Definitions {
    Entries(s.definitions) + Entries(s.defs)
  }

  /** Some validator accepts a value that the type printed for the document rejects. */
  ghost predicate Misses(s: Schema) {
    exists valid: Validator, v :: Obeys(valid, DocumentDefs(s)) && valid(s, v) && !Has(RenderDocument(s), v)
  }

  /** A bare schema: a type keyword, perhaps with an enumeration. */
  predicate Bare(s: Schema) {
    s == EMPTY.(node := s.node, types := s.types, enumeration := s.enumeration)
  }

  lemma BareIsSupported(s: Schema)
    requires Bare(s)
    ensures Supported(s, map[])
  {
  }

  // ---------------------------------------------------------------- unions of numbers

  /** Some validator accepts the value. */
  ghost predicate Accepts(s: Schema, defs: Definitions, v: Json) {
    exists valid: Validator :: Obeys(valid, defs) && valid(s, v)
  }

  /** Rendering gets as far as the alternatives, and collapses them to `number`, whatever stands beside them. */
  predicate Collapses(s: Schema) {
    && s.ref.None? && s.constant.None? && s.enumeration.None?
    && Alternatives(s).These? && NumberArtifact(Alternatives(s).schemas)
  }

  lemma CollapsedIsNumber(s: Schema)
    requires Collapses(s)
    ensures RenderDocument(s) == NumberType
  {
    hide Unseen, NumberArtifact;
  }

  /** Whatever a collapsing schema allows is a number, or the name that one of its alternatives gives. */
  lemma AlternativeTakes(valid: Validator, defs: Definitions, s: Schema, v: Json) returns (i: nat)
    requires Collapses(s) && Obeys(valid, defs) && valid(s, v)
    ensures i < |Alternatives(s).schemas| && valid(Alternatives(s).schemas[i], v)
    ensures v.Num? || (NumberSentinel(Alternatives(s).schemas[i])
                       && v == Alternatives(s).schemas[i].enumeration.value[0])
  {
    var ss := Alternatives(s).schemas;
    assert Holds(valid, defs, s, v);
    i :| 0 <= i < |ss| && valid(ss[i], v);
    assert Holds(valid, defs, ss[i], v);
    if NumberSentinel(ss[i]) { assert v in ss[i].enumeration.value; }
  }

  /**
   * A union that is collapsed to `number`, under either keyword and with any siblings, loses a value exactly when the
   * schema as a whole accepts the name that one of its alternatives gives. Numbers are never lost.
   */
  lemma CollapseMisses(s: Schema)
    requires Collapses(s)
    ensures var ss := Alternatives(s).schemas;
            Misses(s) <==> exists i :: 0 <= i < |ss| && NumberSentinel(ss[i])
                                       && Accepts(s, DocumentDefs(s), ss[i].enumeration.value[0])
  {
    var ss, defs := Alternatives(s).schemas, DocumentDefs(s);
    CollapsedIsNumber(s);
    hide Collapses, Obeys, RenderDocument, DocumentDefs;
    if i :| 0 <= i < |ss| && NumberSentinel(ss[i]) && Accepts(s, defs, ss[i].enumeration.value[0]) {
      assert !Has(RenderDocument(s), ss[i].enumeration.value[0]);
    }
    if Misses(s) {
      var valid: Validator, v :| Obeys(valid, defs) && valid(s, v) && !Has(RenderDocument(s), v);
      var i := AlternativeTakes(valid, defs, s, v);
      assert NumberSentinel(ss[i]) && Accepts(s, defs, ss[i].enumeration.value[0]);
    }
  }

  /** No reference and no combinators. */
  predicate Plain(s: Schema) {
    s.ref.None? && s.anyOf.NoSubschemas? && s.oneOf.NoSubschemas? && s.allOf.NoSubschemas?
  }

  /** A plain alternative that names a non-finite number accepts the name unless a constant says otherwise. */
  predicate TakesItsName(s: Schema)
    requires NumberSentinel(s)
  {
    s.constant.None? || s.constant == Some(s.enumeration.value[0])
  }

  /** Alternative `i` can be the one that holds: always under `anyOf`, only without a twin under `oneOf`. */
  predicate CanHold(s: Schema, i: nat)
    requires Alternatives(s).These? && i < |Alternatives(s).schemas|
  {
    var ss := Alternatives(s).schemas;
    s.oneOf.These? ==> forall k :: 0 <= k < |ss| && k != i ==> ss[k] != ss[i]
  }

  /** On the keywords: the name of a plain alternative is accepted if type, constant and twins let it. */
  lemma NameAccepted(s: Schema, i: nat)
    requires Collapses(s) && s.allOf.NoSubschemas? && (s.anyOf.NoSubschemas? || s.oneOf.NoSubschemas?)
    requires var ss := Alternatives(s).schemas; i < |ss| && NumberSentinel(ss[i]) && Plain(ss[i]) && TakesItsName(ss[i])
    requires TypesTake(s.types, StrKind) && CanHold(s, i)
    ensures Accepts(s, DocumentDefs(s), Alternatives(s).schemas[i].enumeration.value[0])
  {
    var ss, defs := Alternatives(s).schemas, DocumentDefs(s);
    var word := ss[i].enumeration.value[0];
    var valid: Validator := (t, v) => v == word && (t == s || t == ss[i]);
    assert forall k :: 0 <= k < |ss| ==> ss[k] < s;
    assert ValueHolds(s, word) by { StringTypes(s, word); }
    assert AnyHolds(valid, ss, word) by { assert valid(ss[i], word); }
    assert Holds(valid, defs, s, word);
    assert Holds(valid, defs, ss[i], word);
    assert Obeys(valid, defs) && valid(s, word);
  }

  lemma StringTypes(s: Schema, word: Json)
    requires s.constant.None? && s.enumeration.None? && word.Str?
    ensures ValueHolds(s, word) <==> TypesTake(s.types, StrKind)
  {
    if s.types.Many? {
      assert forall i :: 0 <= i < |s.types.names| ==> (TypeHolds(s.types.names[i], word)
                                                       <==> Takes(s.types.names[i], StrKind));
    }
  }

  /**
   * With plain alternatives, one union keyword and no `allOf`, the keywords decide: a name is lost exactly when the
   * types beside the union take strings and some alternative takes its own name.
   */
  lemma CollapseOnKeywords(s: Schema)
    requires Collapses(s) && s.allOf.NoSubschemas? && (s.anyOf.NoSubschemas? || s.oneOf.NoSubschemas?)
    requires var ss := Alternatives(s).schemas; forall i :: 0 <= i < |ss| && NumberSentinel(ss[i]) ==> Plain(ss[i])
    ensures var ss := Alternatives(s).schemas;
            Misses(s) <==> && TypesTake(s.types, StrKind)
                           && exists i :: 0 <= i < |ss| && NumberSentinel(ss[i]) && TakesItsName(ss[i]) && CanHold(s, i)
  {
    var ss, defs := Alternatives(s).schemas, DocumentDefs(s);
    CollapseMisses(s);
    if i :| 0 <= i < |ss| && NumberSentinel(ss[i]) && TakesItsName(ss[i]) && CanHold(s, i)
            && TypesTake(s.types, StrKind) {
      hide Collapses, DocumentDefs, Misses;
      NameAccepted(s, i);
    }
    if k :| 0 <= k < |ss| && NumberSentinel(ss[k]) && Accepts(s, defs, ss[k].enumeration.value[0]) {
      var valid: Validator :| Obeys(valid, defs) && valid(s, ss[k].enumeration.value[0]);
      hide Collapses, DocumentDefs, Misses, Obeys;
      var i := AcceptedName(valid, defs, s, ss[k].enumeration.value[0]);
    }
  }

  /** Whatever name such a schema accepts, some alternative that can hold takes it as its own. */
  lemma AcceptedName(valid: Validator, defs: Definitions, s: Schema, word: Json) returns (i: nat)
    requires Collapses(s) && Obeys(valid, defs) && valid(s, word) && word.Str?
    requires s.anyOf.NoSubschemas? || s.oneOf.NoSubschemas?
    ensures var ss := Alternatives(s).schemas;
            i < |ss| && NumberSentinel(ss[i]) && TakesItsName(ss[i]) && CanHold(s, i) && TypesTake(s.types, StrKind)
  {
    i := AlternativeTakes(valid, defs, s, word);
    var ss := Alternatives(s).schemas;
    assert Holds(valid, defs, s, word) && Holds(valid, defs, ss[i], word);
    hide Obeys, NumberArtifact, ReferenceHolds, ArrayHolds, ObjectHolds;
    StringTypes(s, word);
    assert TakesItsName(ss[i]);
    hide ValueHolds;
    assert s.oneOf.These? ==> OneHolds(valid, ss, word);
  }

  function Collapsing(ss: seq<Schema>): Schema {
    EMPTY.(anyOf := These(ss))
  }

  /** What is valid under the subschemas of a schema does not depend on what is valid elsewhere. */
  lemma Restricted(valid: Validator, s: Schema, v: Json, t: Schema, w: Json)
    requires Obeys(valid, map[]) && valid(t, w) && t < s
    ensures Holds((u, x) => (u == s && x == v) || (u < s && valid(u, x)), map[], t, w)
  {
    var below: Validator := (u, x) => (u == s && x == v) || (u < s && valid(u, x));
    assert Holds(valid, map[], t, w);
    assert t.anyOf.These? ==> forall i :: 0 <= i < |t.anyOf.schemas| ==> t.anyOf.schemas[i] < s;
    assert t.oneOf.These? ==> forall i :: 0 <= i < |t.oneOf.schemas| ==> t.oneOf.schemas[i] < s;
    assert t.allOf.These? ==> forall i :: 0 <= i < |t.allOf.schemas| ==> t.allOf.schemas[i] < s;
  }

  /** A bare union accepts what one of its alternatives accepts. */
  lemma AlternativeAccepted(ss: seq<Schema>, i: nat, v: Json)
    requires i < |ss| && Accepts(ss[i], map[], v)
    ensures Accepts(Collapsing(ss), map[], v)
  {
    var s := Collapsing(ss);
    var valid: Validator :| Obeys(valid, map[]) && valid(ss[i], v);
    var below: Validator := (u, x) => (u == s && x == v) || (u < s && valid(u, x));
    assert ss[i] < s.anyOf && s.anyOf < s;
    assert below(ss[i], v) && AnyHolds(below, ss, v);
    forall t, w | below(t, w) ensures Holds(below, map[], t, w) {
      if t < s && valid(t, w) { Restricted(valid, s, v, t, w); }
    }
    assert below(s, v);
  }

  /**
   * So a union with nothing beside it loses a value exactly when one of the alternatives that name a non-finite number
   * accepts that name at all. The number alternatives lose nothing, whatever else they say.
   */
  lemma CollapseIsSound(ss: seq<Schema>)
    requires NumberArtifact(ss)
    ensures Misses(Collapsing(ss)) <==>
            exists i :: 0 <= i < |ss| && NumberSentinel(ss[i]) && Accepts(ss[i], map[], ss[i].enumeration.value[0])
  {
    var s := Collapsing(ss);
    assert DocumentDefs(s) == map[] && Collapses(s);
    CollapseMisses(s);
    hide Collapses, DocumentDefs, Misses;
    if i :| 0 <= i < |ss| && NumberSentinel(ss[i]) && Accepts(ss[i], map[], ss[i].enumeration.value[0]) {
      AlternativeAccepted(ss, i, ss[i].enumeration.value[0]);
    }
    if k :| 0 <= k < |ss| && NumberSentinel(ss[k]) && Accepts(s, map[], ss[k].enumeration.value[0]) {
      var valid: Validator :| Obeys(valid, map[]) && valid(s, ss[k].enumeration.value[0]);
      var i := AlternativeTakes(valid, map[], s, ss[k].enumeration.value[0]);
      assert Accepts(ss[i], map[], ss[i].enumeration.value[0]);
    }
  }

  /** Without references and combinators, such an alternative accepts the name unless a constant says otherwise. */
  lemma SentinelAccepts(s: Schema)
    requires NumberSentinel(s) && Plain(s)
    ensures Accepts(s, map[], s.enumeration.value[0]) <==> TakesItsName(s)
  {
    var word := s.enumeration.value[0];
    if TakesItsName(s) {
      var valid: Validator := (t, v) => t == s && v == word;
      assert Holds(valid, map[], s, word);
      assert Obeys(valid, map[]) && valid(s, word);
    }
  }

  // ---------------------------------------------------------------- properties without a type

  /**
   * Listed properties, no reference and no combinators, and otherwise supported: rendering loses a value exactly when
   * the schema has neither a type nor a constant nor an enumeration. Then it says nothing about values that are not
   * objects, but is rendered as an object type.
   */
  lemma UntypedPropertiesMiss(s: Schema)
    requires s.properties.Listed? && s.ref.None? && !Alternatives(s).These? && !s.allOf.These?
    requires SupportedDefinitions(DocumentDefs(s)) && Supported(s.(types := One("object")), DocumentDefs(s))
    ensures Misses(s) <==> s.types.NoType? && s.constant.None? && s.enumeration.None?
  {
    var defs := DocumentDefs(s);
    assert Nested(defs, s) == Nested(defs, s.(types := One("object"))) == defs;
    if s.constant.Some? || s.enumeration.Some? {
      forall valid: Validator, v | Obeys(valid, defs) && valid(s, v) ensures Has(RenderDocument(s), v) {
        assert Holds(valid, defs, s, v);
        RenderValue(s, defs, 0, {}, v);
      }
    } else if s.types.NoType? {
      NullIsMissed(s);
    } else {
      TypedIsSupported(s, defs);
      forall valid: Validator, v | Obeys(valid, defs) && valid(s, v) ensures Has(RenderDocument(s), v) {
        DocumentAdmits(valid, s, v);
      }
    }
  }

  lemma TypedIsSupported(s: Schema, defs: Definitions)
    requires !s.types.NoType? && Supported(s.(types := One("object")), defs)
    ensures Supported(s, defs)
  {
    assert Declared(s) == Declared(s.(types := One("object")));
    assert Alternatives(s) == Alternatives(s.(types := One("object")));
  }

  lemma NullIsMissed(s: Schema)
    requires s.properties.Listed? && s.types.NoType? && s.ref.None? && s.constant.None? && s.enumeration.None?
    requires !Alternatives(s).These? && !s.allOf.These? && Nested(DocumentDefs(s), s) == DocumentDefs(s)
    ensures Misses(s)
  {
    hide Unseen, NumberArtifact, StructArtifact;
    var valid: Validator := (t, v) => t == s && v == Null;
    assert Holds(valid, DocumentDefs(s), s, Null);
    assert Obeys(valid, DocumentDefs(s));
    assert Render(s, DocumentDefs(s), 0, {}).ObjectType?;
    assert valid(s, Null) && !Has(RenderDocument(s), Null);
  }

  // ---------------------------------------------------------------- additional properties beside declared ones

  datatype Kind = NullKind | BoolKind | NumKind | StrKind | ArrKind | ObjKind

  function KindOf(v: Json): Kind {
    match v
    case Null => NullKind
    case Bool(_) => BoolKind
    case Num(_) => NumKind
    case Str(_) => StrKind
    case Arr(_) => ArrKind
    case Obj(_) => ObjKind
  }

  /** Whether a type name allows some value of a kind. */
  predicate Takes(name: string, k: Kind) {
    match k
    case NullKind => name == "null"
    case BoolKind => name == "boolean"
    case NumKind => name == "number" || name == "integer"
    case StrKind => name == "string"
    case ArrKind => name == "array"
    case ObjKind => name == "object"
  }

  predicate TypesTake(types: TypeKeyword, k: Kind) {
    match types
    case NoType => true
    case One(name) => Takes(name, k)
    case Many(names) => exists i :: 0 <= i < |names| && Takes(names[i], k)
  }

  predicate Basic(name: string) {
    name == "null" || name == "boolean" || name == "number" || name == "integer" || name == "string" || name == "array"
  }

  /** The kinds that the rendering of a type name covers: `object` is `{}`, and what is no type at all is `unknown`. */
  predicate NameCovers(name: string, k: Kind) {
    if Basic(name) then Takes(name, k) else name == "object" ==> !k.NullKind?
  }

  predicate Covers(types: TypeKeyword, k: Kind) {
    match types
    case NoType => true
    case One(name) => NameCovers(name, k)
    case Many(names) => exists i :: 0 <= i < |names| && NameCovers(names[i], k)
  }

  predicate TypesAdmit(types: TypeKeyword, v: Json) {
    match types
    case NoType => true
    case One(name) => TypeHolds(name, v)
    case Many(names) => exists i :: 0 <= i < |names| && TypeHolds(names[i], v)
  }

  function Sample(k: Kind): Json {
    match k
    case NullKind => Null
    case BoolKind => Bool(true)
    case NumKind => Num(0.0)
    case StrKind => Str("")
    case ArrKind => Arr([])
    case ObjKind => Obj(map[])
  }

  /** A value of each kind that a type takes is admitted, and nothing of another kind. */
  lemma KindsDecide(types: TypeKeyword, v: Json, k: Kind)
    ensures TypesAdmit(types, v) ==> TypesTake(types, KindOf(v))
    ensures TypesTake(types, k) ==> TypesAdmit(types, Sample(k)) && KindOf(Sample(k)) == k
    ensures TypesTake(types, k) && !types.NoType? ==> Covers(types, k)
  {
    assert 0.0 == Floor(0.0) as real;
    match types {
      case Many(names) =>
        if TypesAdmit(types, v) {
          var i :| 0 <= i < |names| && TypeHolds(names[i], v);
          assert Takes(names[i], KindOf(v));
        }
        if TypesTake(types, k) {
          var i :| 0 <= i < |names| && Takes(names[i], k);
          assert TypeHolds(names[i], Sample(k)) && NameCovers(names[i], k);
        }
      case _ =>
    }
  }

  /** What belongs to the rendering of a bare type. */
  lemma BareTypeHas(b: Schema, depth: nat, v: Json)
    requires b == EMPTY.(node := b.node, types := b.types) && !b.types.Many? && depth < MAX_RENDER_DEPTH
    ensures Has(Render(b, map[], depth, {}), v) <==> Covers(b.types, KindOf(v))
  {
    hide Unseen;
    assert Nested(map[], b) == map[];
    if b.types == One("array") { assert Render(EMPTY, map[], depth + 1, {}) == Unknown; }
  }

  lemma BareHas(b: Schema, v: Json)
    requires b == EMPTY.(node := b.node, types := b.types)
    ensures Has(Render(b, map[], 1, {}), v) <==> Covers(b.types, KindOf(v))
  {
    if b.types.Many? {
      var names := b.types.names;
      var members := seq(|names|, i requires 0 <= i < |names| => Render(b.(types := One(names[i])), map[], 2, {}));
      ManyRendering(b, members);
      forall i | 0 <= i < |names| ensures Has(members[i], v) <==> NameCovers(names[i], KindOf(v)) {
        BareTypeHas(b.(types := One(names[i])), 2, v);
      }
      UnionHas(members, v);
    } else {
      BareTypeHas(b, 1, v);
    }
  }

  lemma ManyRendering(b: Schema, members: seq<Type>)
    requires b == EMPTY.(node := b.node, types := b.types) && b.types.Many? && |members| == |b.types.names|
    requires forall i :: 0 <= i < |members| ==> members[i] == Render(b.(types := One(b.types.names[i])), map[], 2, {})
    ensures Render(b, map[], 1, {}) == UnionOf(members)
  {
    hide Unseen, UnionOf;
    assert Nested(map[], b) == map[];
    var names := b.types.names;
    assert members == seq(|names|, i requires 0 <= i < |names| => Render(b.(types := One(names[i])), map[], 2, {}));
  }

  /** A bare declared property allows a value that the rendering of the bare additional schema does not cover. */
  predicate Escapes(p: Schema, b: Schema) {
    if p.enumeration.Some? then
      exists i :: 0 <= i < |p.enumeration.value| && TypesAdmit(p.types, p.enumeration.value[i])
                  && !Covers(b.types, KindOf(p.enumeration.value[i]))
    else
      exists k: Kind :: TypesTake(p.types, k) && !Covers(b.types, k)
  }

  /** A bare schema allows some value. */
  predicate Inhabited(p: Schema) {
    if p.enumeration.Some? then
      exists i :: 0 <= i < |p.enumeration.value| && TypesAdmit(p.types, p.enumeration.value[i])
    else
      exists k: Kind :: TypesTake(p.types, k)
  }

  lemma InhabitedMeans(p: Schema) returns (v: Json)
    requires Bare(p) && Inhabited(p)
    ensures ValueHolds(p, v)
  {
    if p.enumeration.Some? {
      var i :| 0 <= i < |p.enumeration.value| && TypesAdmit(p.types, p.enumeration.value[i]);
      v := p.enumeration.value[i];
    } else {
      var k: Kind :| TypesTake(p.types, k);
      KindsDecide(p.types, Null, k);
      v := Sample(k);
    }
  }

  lemma EscapesMeans(p: Schema, b: Schema) returns (v: Json)
    requires Bare(p) && Escapes(p, b)
    ensures ValueHolds(p, v) && !Covers(b.types, KindOf(v))
  {
    if p.enumeration.Some? {
      var i :| 0 <= i < |p.enumeration.value| && TypesAdmit(p.types, p.enumeration.value[i])
               && !Covers(b.types, KindOf(p.enumeration.value[i]));
      v := p.enumeration.value[i];
    } else {
      var k: Kind :| TypesTake(p.types, k) && !Covers(b.types, k);
      KindsDecide(p.types, Null, k);
      v := Sample(k);
    }
  }

  lemma ValueIsWitness(p: Schema, b: Schema, v: Json)
    requires Bare(p) && ValueHolds(p, v)
    ensures Inhabited(p) && (!Covers(b.types, KindOf(v)) ==> Escapes(p, b))
  {
    assert TypesAdmit(p.types, v);
    if p.enumeration.Some? {
      var i :| 0 <= i < |p.enumeration.value| && p.enumeration.value[i] == v;
    } else {
      KindsDecide(p.types, v, NullKind);
    }
  }

  predicate DistinctNames(ps: seq<Property>) {
    forall i, k :: 0 <= i < k < |ps| ==> ps[i].name != ps[k].name
  }

  /** What governs a property: its own schema if it is declared, otherwise the additional one. */
  function Governing(ps: seq<Property>, b: Schema, name: string): Schema {
    if ps == [] then b
    else if ps[|ps| - 1].name == name then ps[|ps| - 1].schema
    else Governing(ps[..|ps| - 1], b, name)
  }

  lemma {:induction false} GoverningDeclared(ps: seq<Property>, b: Schema, i: nat)
    requires DistinctNames(ps) && i < |ps|
    ensures Governing(ps, b, ps[i].name) == ps[i].schema
  {
    if i < |ps| - 1 { GoverningDeclared(ps[..|ps| - 1], b, i); }
  }

  lemma {:induction false} GoverningOther(ps: seq<Property>, b: Schema, name: string)
    ensures !Declares(ps, name) ==> Governing(ps, b, name) == b
    ensures Declares(ps, name) ==> exists i ::
              0 <= i < |ps| && ps[i].name == name && Governing(ps, b, name) == ps[i].schema
  {
    if ps != [] && ps[|ps| - 1].name != name {
      var most := ps[..|ps| - 1];
      GoverningOther(most, b, name);
      if Declares(ps, name) {
        var i :| 0 <= i < |ps| && ps[i].name == name;
        assert most[i].name == name;
        var k :| 0 <= k < |most| && most[k].name == name && Governing(most, b, name) == most[k].schema;
        assert ps[k].name == name && Governing(ps, b, name) == ps[k].schema;
      } else {
        assert forall i :: 0 <= i < |most| ==> most[i].name == ps[i].name;
      }
    }
  }

  /** An object schema with declared properties beside a schema for additional ones. */
  function Indexed(node: nat, ps: seq<Property>, required: seq<string>, b: Schema): Schema {
    EMPTY.(node := node, types := One("object"), properties := Listed(ps), required := required, additional := Typed(b))
  }

  predicate AllBare(ps: seq<Property>, b: Schema) {
    b == EMPTY.(node := b.node, types := b.types) && forall i :: 0 <= i < |ps| ==> Bare(ps[i].schema)
  }

  lemma GoverningBare(ps: seq<Property>, b: Schema, name: string)
    requires AllBare(ps, b)
    ensures Bare(Governing(ps, b, name))
  {
    GoverningOther(ps, b, name);
  }

  lemma IndexedRendering(node: nat, ps: seq<Property>, required: seq<string>, b: Schema)
    ensures var t := RenderDocument(Indexed(node, ps, required, b));
            && t.ObjectType? && |t.fields| == |ps| && t.index == Some(Render(b, map[], 1, {}))
            && forall i :: 0 <= i < |ps| ==>
                 t.fields[i] == Field(ps[i].name, ps[i].name !in required, Render(ps[i].schema, map[], 1, {}))
  {
    hide Unseen;
    var s := Indexed(node, ps, required, b);
    assert DocumentDefs(s) == map[] && Nested(map[], s) == map[];
  }

  /** A validator that knows bare schemas and one object of one schema. */
  function Knowing(s: Schema, known: Json): Validator {
    (t: Schema, v: Json) => (t == s && v == known) || (Bare(t) && BareHolds(t, v))
  }

  predicate BareHolds(t: Schema, v: Json) {
    TypesAdmit(t.types, v) && (t.enumeration.Some? ==> v in t.enumeration.value)
  }

  ghost predicate Allows(t: Schema) {
    exists v :: BareHolds(t, v)
  }

  lemma BareValue(t: Schema, v: Json)
    requires Bare(t)
    ensures ValueHolds(t, v) <==> BareHolds(t, v)
  {
    match t.types {
      case Many(names) => assert TypesAdmit(t.types, v) <==> exists i :: 0 <= i < |names| && TypeHolds(names[i], v);
      case _ =>
    }
  }

  lemma BareValid(valid: Validator, t: Schema, v: Json)
    requires Bare(t) && BareHolds(t, v)
    ensures Holds(valid, map[], t, v)
  {
    BareValue(t, v);
    assert ObjectHolds(valid, [], [], NoAdditional, v);
  }

  lemma KnowingObeys(node: nat, ps: seq<Property>, required: seq<string>, b: Schema, fields: map<string, Json>)
    requires AllBare(ps, b) && DistinctNames(ps)
    requires forall name :: name in required ==> name in fields
    requires forall name :: name in fields ==> BareHolds(Governing(ps, b, name), fields[name])
    ensures Obeys(Knowing(Indexed(node, ps, required, b), Obj(fields)), map[])
  {
    var s := Indexed(node, ps, required, b);
    var valid := Knowing(s, Obj(fields));
    forall i | 0 <= i < |ps| && ps[i].name in fields ensures valid(ps[i].schema, fields[ps[i].name]) {
      GoverningDeclared(ps, b, i);
    }
    forall k | k in fields && !Declares(ps, k) ensures valid(b, fields[k]) { GoverningOther(ps, b, k); }
    assert ObjectHolds(valid, ps, required, Typed(b), Obj(fields));
    hide AllBare, DistinctNames, BareHolds, Declares, Governing, ObjectHolds;
    assert Holds(valid, map[], s, Obj(fields));
    forall t, v | Bare(t) && BareHolds(t, v) ensures Holds(valid, map[], t, v) { BareValid(valid, t, v); }
  }

  /** An object with a property that escapes, and every required property. */
  lemma EscapeMisses(node: nat, ps: seq<Property>, required: seq<string>, b: Schema, i: nat)
    requires AllBare(ps, b) && DistinctNames(ps) && i < |ps| && Escapes(ps[i].schema, b)
    requires forall name :: name in required ==> Inhabited(Governing(ps, b, name))
    ensures Misses(Indexed(node, ps, required, b))
  {
    var s, key := Indexed(node, ps, required, b), ps[i].name;
    var odd := EscapesMeans(ps[i].schema, b);
    GoverningDeclared(ps, b, i);
    forall name | name in required ensures Allows(Governing(ps, b, name)) {
      GoverningBare(ps, b, name);
      var v := InhabitedMeans(Governing(ps, b, name));
      BareValue(Governing(ps, b, name), v);
    }
    var rest := Witnesses(ps, b, required);
    var fields := rest[key := odd];
    BareValue(ps[i].schema, odd);
    KnowingObeys(node, ps, required, b, fields);
    IndexedRendering(node, ps, required, b);
    BareHas(b, odd);
    var valid := Knowing(s, Obj(fields));
    assert DocumentDefs(s) == map[];
    assert !Has(RenderDocument(s), Obj(fields)) by { assert key in fields && fields[key] == odd; }
    assert valid(s, Obj(fields));
  }

  lemma {:induction false} Witnesses(ps: seq<Property>, b: Schema, names: seq<string>)
    returns (fields: map<string, Json>)
    requires forall name :: name in names ==> Allows(Governing(ps, b, name))
    ensures forall name :: name in names ==> name in fields
    ensures forall name :: name in fields ==> BareHolds(Governing(ps, b, name), fields[name])
  {
    if names == [] {
      fields := map[];
    } else {
      var last := names[|names| - 1];
      fields := Witnesses(ps, b, names[..|names| - 1]);
      assert Allows(Governing(ps, b, last));
      var v :| BareHolds(Governing(ps, b, last), v);
      fields := fields[last := v];
    }
  }

  /** Whatever such a schema allows shows what its parts allow. */
  lemma AllowedParts(valid: Validator, node: nat, ps: seq<Property>, required: seq<string>, b: Schema, v: Json)
    requires AllBare(ps, b) && DistinctNames(ps) && Obeys(valid, map[]) && valid(Indexed(node, ps, required, b), v)
    ensures v.Obj? && forall name :: name in required ==> name in v.fields
    ensures forall name :: name in v.fields ==> ValueHolds(Governing(ps, b, name), v.fields[name])
  {
    var s := Indexed(node, ps, required, b);
    assert Holds(valid, map[], s, v);
    assert ObjectHolds(valid, ps, required, Typed(b), v);
    forall name | name in v.fields ensures ValueHolds(Governing(ps, b, name), v.fields[name]) {
      GoverningOther(ps, b, name);
      assert valid(Governing(ps, b, name), v.fields[name]);
      assert Holds(valid, map[], Governing(ps, b, name), v.fields[name]);
    }
  }

  lemma NoEscapeAdmits(valid: Validator, node: nat, ps: seq<Property>, required: seq<string>, b: Schema, v: Json)
    requires AllBare(ps, b) && DistinctNames(ps) && Obeys(valid, map[]) && valid(Indexed(node, ps, required, b), v)
    requires forall i :: 0 <= i < |ps| ==> !Escapes(ps[i].schema, b)
    ensures Has(RenderDocument(Indexed(node, ps, required, b)), v)
  {
    AllowedParts(valid, node, ps, required, b, v);
    IndexedRendering(node, ps, required, b);
    forall i | 0 <= i < |ps| && ps[i].name in v.fields
      ensures Has(Render(ps[i].schema, map[], 1, {}), v.fields[ps[i].name])
    {
      GoverningDeclared(ps, b, i);
      BareIsSupported(ps[i].schema);
      BareAdmits(ps[i].schema, v.fields[ps[i].name]);
    }
    forall k | k in v.fields ensures Has(Render(b, map[], 1, {}), v.fields[k]) {
      GoverningBare(ps, b, k);
      GoverningOther(ps, b, k);
      ValueIsWitness(Governing(ps, b, k), b, v.fields[k]);
      KindsDecide(b.types, v.fields[k], KindOf(v.fields[k]));
      BareHas(b, v.fields[k]);
    }
  }

  /** A value that a bare schema allows belongs to its rendering. */
  lemma BareAdmits(p: Schema, v: Json)
    requires Bare(p) && ValueHolds(p, v)
    ensures Has(Render(p, map[], 1, {}), v)
  {
    var valid: Validator := (t, x) => t == p && x == v;
    assert Holds(valid, map[], p, v);
    BareIsSupported(p);
    Over(valid, map[], p, v, 1, {});
  }

  /**
   * Bare declared properties beside a bare schema for additional ones: rendering loses a value exactly when some
   * declared property can hold a value of a kind that the index type does not cover, and the required properties can
   * be there at all.
   */
  lemma IndexMissesDeclared(node: nat, ps: seq<Property>, required: seq<string>, b: Schema)
    requires AllBare(ps, b) && DistinctNames(ps)
    ensures Misses(Indexed(node, ps, required, b)) <==>
            && (exists i :: 0 <= i < |ps| && Escapes(ps[i].schema, b))
            && (forall name :: name in required ==> Inhabited(Governing(ps, b, name)))
  {
    var s := Indexed(node, ps, required, b);
    assert DocumentDefs(s) == map[];
    if Misses(s) {
      var valid: Validator, v :| Obeys(valid, map[]) && valid(s, v) && !Has(RenderDocument(s), v);
      AllowedParts(valid, node, ps, required, b, v);
      forall name | name in required ensures Inhabited(Governing(ps, b, name)) {
        GoverningBare(ps, b, name);
        ValueIsWitness(Governing(ps, b, name), b, v.fields[name]);
      }
      if forall i :: 0 <= i < |ps| ==> !Escapes(ps[i].schema, b) { NoEscapeAdmits(valid, node, ps, required, b, v); }
    }
    if (exists i :: 0 <= i < |ps| && Escapes(ps[i].schema, b))
       && (forall name :: name in required ==> Inhabited(Governing(ps, b, name))) {
      var i :| 0 <= i < |ps| && Escapes(ps[i].schema, b);
      EscapeMisses(node, ps, required, b, i);
    }
  }

  // ---------------------------------------------------------------- inputs

  const NUMBER: Schema := EMPTY.(types := One("number"))
  const TEXT: Schema := EMPTY.(types := One("string"))
  const NAN: Schema := TEXT.(enumeration := Some([Str("NaN")]))
  const NUMBER_OR_NAN: Subschemas := These([NUMBER, NAN])

  lemma NumberOrNaN()
    ensures NUMBER_OR_NAN.These? && NumberArtifact(NUMBER_OR_NAN.schemas) && |NUMBER_OR_NAN.schemas| == 2
    ensures NUMBER_OR_NAN.schemas[0] == NUMBER && !NumberSentinel(NUMBER)
    ensures NUMBER_OR_NAN.schemas[1] == NAN && NumberSentinel(NAN) && Plain(NAN) && TakesItsName(NAN) && NAN != NUMBER
  {
    assert NUMBER_OR_NAN.schemas[0].types == One("number");
  }

  /** `number` beside the name of a non-finite number, under either keyword; a type beside them that rules it out. */
  lemma CollapseExamples()
    ensures Misses(EMPTY.(anyOf := NUMBER_OR_NAN))
    ensures Misses(EMPTY.(oneOf := NUMBER_OR_NAN))
    ensures !Misses(EMPTY.(types := One("number"), anyOf := NUMBER_OR_NAN))
  {
    hide NUMBER, TEXT, NAN, NUMBER_OR_NAN, Misses, NumberArtifact, NumberSentinel, TakesItsName, Plain;
    NumberOrNaN();
    var either, one := EMPTY.(anyOf := NUMBER_OR_NAN), EMPTY.(oneOf := NUMBER_OR_NAN);
    assert CanHold(either, 1) && CanHold(one, 1);
    CollapseOnKeywords(either);
    CollapseOnKeywords(one);
    CollapseOnKeywords(EMPTY.(types := One("number"), anyOf := NUMBER_OR_NAN));
  }

  /** `properties` alone. */
  lemma PropertiesExample()
    ensures Misses(EMPTY.(properties := Listed([])))
  {
    var s := EMPTY.(properties := Listed([]));
    assert DocumentDefs(s) == map[] && Nested(map[], s) == map[];
    NullIsMissed(s);
  }

  /** A declared number beside additional strings; a declared string beside them, which nothing loses. */
  lemma IndexExamples()
    ensures Misses(Indexed(0, [Property("a", NUMBER)], [], TEXT))
    ensures !Misses(Indexed(0, [Property("a", TEXT)], ["a"], TEXT))
  {
    assert TypesTake(NUMBER.types, NumKind) && !Covers(TEXT.types, NumKind);
    assert Escapes([Property("a", NUMBER)][0].schema, TEXT);
    hide Misses;
    IndexMissesDeclared(0, [Property("a", NUMBER)], [], TEXT);
    IndexMissesDeclared(0, [Property("a", TEXT)], ["a"], TEXT);
  }
}
