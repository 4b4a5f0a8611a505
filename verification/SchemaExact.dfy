/**
 * Exactly which values belong to a rendered type: for every schema, by its keywords and those of its subschemas, and
 * for schemas without references and combinators in the words of the keywords alone.
 */
module SchemaExact {
  import opened Wrappers
  import opened SchemaRender

  // ---------------------------------------------------------------- every schema

  predicate IsNumber(s: Schema) {
    s.types == One("number")
  }

  /** A string that can only be the name of a number that JSON cannot write. */
  predicate NamesNumber(s: Schema) {
    s.types == One("string") && exists name :: name in ["NaN", "Infinity", "-Infinity"]
                                               && s.enumeration == Some([Str(name)])
  }

  /** Numbers beside such names. */
  predicate OnlyNumbers(ss: seq<Schema>) {
    (exists s :: s in ss && IsNumber(s)) && forall s :: s in ss ==> IsNumber(s) || NamesNumber(s)
  }

  /** A bare object beside a bare array. */
  predicate ObjectOrArray(ss: seq<Schema>) {
    && |ss| == 2 && ss[0].types == One("object") && ss[1].types == One("array")
    && ss[0].properties == NoProperties && ss[1].items == NoItems
  }

  /** Reference `name` can be followed: it is defined and not being followed already. */
  predicate Followed(s: Schema, defs: Definitions, seen: set<string>) {
    s.ref.Some? && s.ref.value.Named? && s.ref.value.name in Nested(defs, s) && s.ref.value.name !in seen
  }

  predicate Unresolvable(ss: seq<Schema>, defs: Definitions) {
    exists i :: 0 <= i < |ss| && HasUnresolvedRef(ss[i], defs, {}, {})
  }

  predicate HasUnion(s: Schema) {
    s.anyOf.These? || s.oneOf.These?
  }

  /** The alternatives that are shown: `oneOf` is, only without `anyOf`. */
  function UnionMembers(s: Schema): seq<Schema>
    requires HasUnion(s)
  {
    if s.anyOf.These? then s.anyOf.schemas else s.oneOf.schemas
  }

  /** The schema says nothing that is shown: it is too deep, its reference leads nowhere, or it has no type. */
  predicate Silent(s: Schema, defs: Definitions, depth: nat, seen: set<string>)
    decreases MAX_RENDER_DEPTH + 1 - depth, Unseen(defs, s, seen)
  {
    var nested := Nested(defs, s);
    if depth > MAX_RENDER_DEPTH then true
    else if s.ref != None then
      !Followed(s, defs, seen) || (
        var name := s.ref.value.name;
        FollowingShrinks(defs, s, seen, name);
        Silent(nested[name], nested, depth, seen + {name}) && Silent(s.(ref := None), nested, depth + 1, seen))
    else if s.constant != None || s.enumeration != None then false
    else if HasUnion(s) then
      var ss := UnionMembers(s);
      !OnlyNumbers(ss) && !ObjectOrArray(ss) && exists i :: 0 <= i < |ss| && Silent(ss[i], nested, depth + 1, seen)
    else if s.allOf.These? then
      var ss := s.allOf.schemas;
      Unresolvable(ss, nested) || (
        Silent(s.(allOf := NoSubschemas), nested, depth + 1, seen)
        && forall i :: 0 <= i < |ss| ==> Silent(ss[i], nested, depth + 1, seen))
    else
      match s.types
      case Many(names) => |names| == 1 && Silent(s.(types := One(names[0])), nested, depth + 1, seen)
      case One(name) =>
        name !in ["string", "number", "integer", "boolean", "null", "array", "object"] && s.properties == NoProperties
      case NoType => s.properties == NoProperties
  }

  /**
   * What a schema lets through at a depth. A union with a silent member lets everything through, and so does an
   * `allOf` with an unresolvable member; a constant or an enumeration overrules everything beside it; integers are
   * numbers; an object type without fields is anything but null, and fields that are not listed are allowed.
   */
  predicate Fits(s: Schema, defs: Definitions, depth: nat, seen: set<string>, v: Json)
    decreases MAX_RENDER_DEPTH + 1 - depth, Unseen(defs, s, seen)
  {
    var nested := Nested(defs, s);
    if depth > MAX_RENDER_DEPTH then true
    else if s.ref != None then
      !Followed(s, defs, seen) || (
        var name := s.ref.value.name;
        FollowingShrinks(defs, s, seen, name);
        Fits(nested[name], nested, depth, seen + {name}, v) && Fits(s.(ref := None), nested, depth + 1, seen, v))
    else if s.constant != None then v == s.constant.value
    else if s.enumeration != None then v in s.enumeration.value
    else if HasUnion(s) then
      var ss := UnionMembers(s);
      if OnlyNumbers(ss) then v.Num?
      else if ObjectOrArray(ss) then v != Null
      else
        || (exists i :: 0 <= i < |ss| && Silent(ss[i], nested, depth + 1, seen))
        || (&& (exists i :: 0 <= i < |ss| && Fits(ss[i], nested, depth + 1, seen, v))
            && Fits(s.(anyOf := NoSubschemas, oneOf := NoSubschemas), nested, depth + 1, seen, v))
    else if s.allOf.These? then
      var ss := s.allOf.schemas;
      || Unresolvable(ss, nested)
      || (&& Fits(s.(allOf := NoSubschemas), nested, depth + 1, seen, v)
          && forall i :: 0 <= i < |ss| ==> Fits(ss[i], nested, depth + 1, seen, v))
    else
      match s.types
      case Many(names) =>
        exists i :: 0 <= i < |names| && Fits(s.(types := One(names[i])), nested, depth + 1, seen, v)
      case One(name) =>
        if name == "string" then v.Str?
        else if name == "number" || name == "integer" then v.Num?
        else if name == "boolean" then v.Bool?
        else if name == "null" then v.Null?
        else if name == "array" then
          v.Arr? && (s.items.Each? ==>
            forall i :: 0 <= i < |v.items| ==> Fits(s.items.schema, nested, depth + 1, seen, v.items[i]))
        else (name == "object" || s.properties.Listed?) ==> FitsFields(s, nested, depth, seen, v)
      case NoType => s.properties.Listed? ==> FitsFields(s, nested, depth, seen, v)
  }

  predicate FitsFields(s: Schema, nested: Definitions, depth: nat, seen: set<string>, v: Json)
    requires depth <= MAX_RENDER_DEPTH
    decreases MAX_RENDER_DEPTH + 1 - depth, 0, 0
  {
    if (s.properties.Listed? ==> s.properties.all == []) && !s.additional.Typed? then v != Null
    else
      && v.Obj?
      && (s.properties.Listed? ==> forall i :: 0 <= i < |s.properties.all| ==>
            var p := s.properties.all[i];
            && (p.name in s.required ==> p.name in v.fields)
            && (p.name in v.fields ==> Fits(p.schema, nested, depth + 1, seen, v.fields[p.name])))
      && (s.additional.Typed? ==>
            forall k :: k in v.fields ==> Fits(s.additional.schema, nested, depth + 1, seen, v.fields[k]))
  }

  // ---------------------------------------------------------------- the cases of rendering

  lemma ArtifactsMean(ss: seq<Schema>)
    ensures NumberArtifact(ss) <==> OnlyNumbers(ss)
    ensures StructArtifact(ss) <==> ObjectOrArray(ss)
  {
    forall s ensures NumberSentinel(s) <==> NamesNumber(s) { SentinelMeans(s); }
    hide NumberSentinel, NamesNumber;
    forall s | s in ss ensures exists i :: 0 <= i < |ss| && ss[i] == s {}
    if i :| 0 <= i < |ss| && ss[i].types == One("number") { assert IsNumber(ss[i]) && ss[i] in ss; }
    if OnlyNumbers(ss) {
      forall i | 0 <= i < |ss| ensures IsNumber(ss[i]) || NumberSentinel(ss[i]) { assert ss[i] in ss; }
    }
  }

  lemma SentinelMeans(s: Schema)
    ensures NumberSentinel(s) <==> NamesNumber(s)
  {
    if NumberSentinel(s) {
      var word := s.enumeration.value[0];
      assert s.enumeration.value == [word];
      assert word.text in ["NaN", "Infinity", "-Infinity"] && s.enumeration == Some([Str(word.text)]);
    }
    if NamesNumber(s) {
      var name :| name in ["NaN", "Infinity", "-Infinity"] && s.enumeration == Some([Str(name)]);
    }
  }

  function Members(ss: seq<Schema>, defs: Definitions, depth: nat, seen: set<string>): (r: seq<Type>)
    ensures |r| == |ss| && forall i :: 0 <= i < |ss| ==> r[i] == Render(ss[i], defs, depth, seen)
  {
    seq(|ss|, i requires 0 <= i < |ss| => Render(ss[i], defs, depth, seen))
  }

  lemma ReferenceRendering(s: Schema, defs: Definitions, depth: nat, seen: set<string>)
    requires depth <= MAX_RENDER_DEPTH && s.ref.Some?
    ensures var nested, t := Nested(defs, s), Render(s, defs, depth, seen);
            if !Followed(s, defs, seen) then t == Unknown
            else t == IntersectionOf([Render(nested[s.ref.value.name], nested, depth, seen + {s.ref.value.name}),
                                      Render(s.(ref := None), nested, depth + 1, seen)])
  {
    hide IntersectionOf, Unseen, Nested;
  }

  lemma ValueRendering(s: Schema, defs: Definitions, depth: nat, seen: set<string>)
    requires depth <= MAX_RENDER_DEPTH && s.ref.None? && (s.constant.Some? || s.enumeration.Some?)
    ensures Render(s, defs, depth, seen) ==
              if s.constant.Some? then Literal(s.constant.value) else UnionOf(Literals(s.enumeration.value))
  {
    hide UnionOf, Literals, Unseen, Nested;
  }

  lemma UnionRendering(s: Schema, defs: Definitions, depth: nat, seen: set<string>)
    requires depth <= MAX_RENDER_DEPTH && s.ref.None? && s.constant.None? && s.enumeration.None? && HasUnion(s)
    ensures var ss, nested, t := UnionMembers(s), Nested(defs, s), Render(s, defs, depth, seen);
            if OnlyNumbers(ss) then t == NumberType
            else if ObjectOrArray(ss) then t == ObjectType([], None)
            else
              var members := Members(ss, nested, depth + 1, seen);
              var rest := Render(s.(anyOf := NoSubschemas, oneOf := NoSubschemas), nested, depth + 1, seen);
              t == if Unknown in members then Unknown else IntersectionOf([UnionOf(members), rest])
  {
    var ss, nested := UnionMembers(s), Nested(defs, s);
    ArtifactsMean(ss);
    hide IntersectionOf, UnionOf, NumberArtifact, StructArtifact, OnlyNumbers, ObjectOrArray, Unseen, Nested;
    assert seq(|ss|, i requires 0 <= i < |ss| => Render(ss[i], nested, depth + 1, seen))
           == Members(ss, nested, depth + 1, seen);
  }

  predicate NoCombinators(s: Schema) {
    s.ref.None? && s.constant.None? && s.enumeration.None? && !HasUnion(s)
  }

  lemma AllOfRendering(s: Schema, defs: Definitions, depth: nat, seen: set<string>)
    requires depth <= MAX_RENDER_DEPTH && NoCombinators(s) && s.allOf.These?
    ensures var ss, nested, t := s.allOf.schemas, Nested(defs, s), Render(s, defs, depth, seen);
            var rest := Render(s.(allOf := NoSubschemas), nested, depth + 1, seen);
            t == if Unresolvable(ss, nested) then Unknown
                 else IntersectionOf([rest] + Members(ss, nested, depth + 1, seen))
  {
    var ss, nested := s.allOf.schemas, Nested(defs, s);
    hide IntersectionOf, UnionOf, Unseen, Nested, HasUnresolvedRef;
    assert seq(|ss|, i requires 0 <= i < |ss| => Render(ss[i], nested, depth + 1, seen))
           == Members(ss, nested, depth + 1, seen);
  }

  function Choice(s: Schema, names: seq<string>): (r: seq<Schema>)
    ensures |r| == |names| && forall i :: 0 <= i < |r| ==> r[i] == s.(types := One(names[i]))
  {
    seq(|names|, i requires 0 <= i < |names| => s.(types := One(names[i])))
  }

  lemma ManyRendering(s: Schema, defs: Definitions, depth: nat, seen: set<string>)
    requires depth <= MAX_RENDER_DEPTH && NoCombinators(s) && s.allOf.NoSubschemas? && s.types.Many?
    ensures Render(s, defs, depth, seen) ==
              UnionOf(Members(Choice(s, s.types.names), Nested(defs, s), depth + 1, seen))
  {
    var names, nested := s.types.names, Nested(defs, s);
    hide UnionOf, Unseen, Nested;
    assert seq(|names|, i requires 0 <= i < |names| => Render(s.(types := One(names[i])), nested, depth + 1, seen))
           == Members(Choice(s, names), nested, depth + 1, seen);
  }

  // ---------------------------------------------------------------- what is rendered as unknown

  lemma {:induction false} ConcreteOnes(ts: seq<Type>)
    ensures Concrete(ts) == [] <==> forall i :: 0 <= i < |ts| ==> ts[i] == Unknown
    ensures forall i :: 0 <= i < |Concrete(ts)| ==> Concrete(ts)[i] != Unknown
  {
    if ts != [] {
      ConcreteOnes(ts[1..]);
      assert forall i :: 0 < i < |ts| ==> ts[i] == ts[1..][i - 1];
      if Concrete(ts[1..]) == [] && ts[0] == Unknown {
        forall i | 0 <= i < |ts| ensures ts[i] == Unknown { if i > 0 { assert ts[1..][i - 1] == Unknown; } }
      }
      if forall i :: 0 <= i < |ts| ==> ts[i] == Unknown {
        forall i | 0 <= i < |ts[1..]| ensures ts[1..][i] == Unknown { assert ts[i + 1] == Unknown; }
      }
    }
  }

  lemma IntersectionUnknown(ts: seq<Type>)
    ensures IntersectionOf(ts) == Unknown <==> forall i :: 0 <= i < |ts| ==> ts[i] == Unknown
  {
    ConcreteOnes(ts);
  }

  lemma UnionUnknown(ts: seq<Type>)
    ensures UnionOf(ts) == Unknown <==> ts == [Unknown]
  {
  }

  lemma {:induction false} SilentExactly(s: Schema, defs: Definitions, depth: nat, seen: set<string>)
    ensures Render(s, defs, depth, seen) == Unknown <==> Silent(s, defs, depth, seen)
    decreases MAX_RENDER_DEPTH + 1 - depth, Unseen(defs, s, seen), 1
  {
    if depth <= MAX_RENDER_DEPTH {
      hide Render, Silent;
      if s.ref.Some? {
        SilentReference(s, defs, depth, seen);
      } else if s.constant.Some? || s.enumeration.Some? {
        SilentValue(s, defs, depth, seen);
      } else if HasUnion(s) {
        SilentUnion(s, defs, depth, seen);
      } else if s.allOf.These? {
        SilentAllOf(s, defs, depth, seen);
      } else if s.types.Many? {
        SilentMany(s, defs, depth, seen);
      } else {
        SilentType(s, defs, depth, seen);
      }
    }
  }

  lemma {:induction false} SilentReference(s: Schema, defs: Definitions, depth: nat, seen: set<string>)
    requires depth <= MAX_RENDER_DEPTH && s.ref.Some?
    ensures Render(s, defs, depth, seen) == Unknown <==> Silent(s, defs, depth, seen)
    decreases MAX_RENDER_DEPTH + 1 - depth, Unseen(defs, s, seen), 0
  {
    var nested := Nested(defs, s);
    hide Render, Unseen, Nested, IntersectionOf;
    ReferenceRendering(s, defs, depth, seen);
    if Followed(s, defs, seen) {
      var name := s.ref.value.name;
      FollowingShrinks(defs, s, seen, name);
      SilentExactly(nested[name], nested, depth, seen + {name});
      SilentExactly(s.(ref := None), nested, depth + 1, seen);
      var first := Render(nested[name], nested, depth, seen + {name});
      var rest := Render(s.(ref := None), nested, depth + 1, seen);
      IntersectionUnknown([first, rest]);
      assert [first, rest][0] == first && [first, rest][1] == rest;
    }
  }

  lemma SilentValue(s: Schema, defs: Definitions, depth: nat, seen: set<string>)
    requires depth <= MAX_RENDER_DEPTH && s.ref.None? && (s.constant.Some? || s.enumeration.Some?)
    ensures Render(s, defs, depth, seen) != Unknown && !Silent(s, defs, depth, seen)
  {
    hide Render, Unseen, Nested, UnionOf;
    ValueRendering(s, defs, depth, seen);
    if s.constant.None? {
      var literals := Literals(s.enumeration.value);
      UnionUnknown(literals);
      assert literals != [] ==> literals[0] != Unknown;
    }
  }

  lemma {:induction false} SilentAllOf(s: Schema, defs: Definitions, depth: nat, seen: set<string>)
    requires depth <= MAX_RENDER_DEPTH && NoCombinators(s) && s.allOf.These?
    ensures Render(s, defs, depth, seen) == Unknown <==> Silent(s, defs, depth, seen)
    decreases MAX_RENDER_DEPTH + 1 - depth, 0, 0
  {
    var ss, nested := s.allOf.schemas, Nested(defs, s);
    hide Render, Unseen, Nested, Unresolvable, IntersectionOf;
    AllOfRendering(s, defs, depth, seen);
    SilentExactly(s.(allOf := NoSubschemas), nested, depth + 1, seen);
    var members := Members(ss, nested, depth + 1, seen);
    forall i | 0 <= i < |ss| ensures members[i] == Unknown <==> Silent(ss[i], nested, depth + 1, seen) {
      SilentExactly(ss[i], nested, depth + 1, seen);
    }
    SilentAll(Render(s.(allOf := NoSubschemas), nested, depth + 1, seen), members);
  }

  lemma {:induction false} SilentMany(s: Schema, defs: Definitions, depth: nat, seen: set<string>)
    requires depth <= MAX_RENDER_DEPTH && NoCombinators(s) && s.allOf.NoSubschemas? && s.types.Many?
    ensures Render(s, defs, depth, seen) == Unknown <==> Silent(s, defs, depth, seen)
    decreases MAX_RENDER_DEPTH + 1 - depth, 0, 0
  {
    hide Render, Unseen, Nested, UnionOf;
    ManyRendering(s, defs, depth, seen);
    var names, nested := s.types.names, Nested(defs, s);
    var members := Members(Choice(s, names), nested, depth + 1, seen);
    UnionUnknown(members);
    assert Silent(s, defs, depth, seen) <==>
           |names| == 1 && Silent(s.(types := One(names[0])), nested, depth + 1, seen);
    hide Silent;
    if |names| == 1 {
      SilentExactly(s.(types := One(names[0])), nested, depth + 1, seen);
      assert members == [members[0]] && members[0] == Render(s.(types := One(names[0])), nested, depth + 1, seen);
    }
  }

  lemma SilentAll(first: Type, members: seq<Type>)
    ensures IntersectionOf([first] + members) == Unknown <==>
              first == Unknown && forall i :: 0 <= i < |members| ==> members[i] == Unknown
  {
    hide IntersectionOf;
    var ts := [first] + members;
    IntersectionUnknown(ts);
    assert ts[0] == first && forall i :: 0 <= i < |members| ==> ts[i + 1] == members[i];
  }

  lemma {:induction false} SilentUnion(s: Schema, defs: Definitions, depth: nat, seen: set<string>)
    requires depth <= MAX_RENDER_DEPTH && s.ref.None? && s.constant.None? && s.enumeration.None? && HasUnion(s)
    ensures Render(s, defs, depth, seen) == Unknown <==> Silent(s, defs, depth, seen)
    decreases MAX_RENDER_DEPTH + 1 - depth, 0, 0
  {
    var ss, nested := UnionMembers(s), Nested(defs, s);
    hide Render, Unseen, Nested, OnlyNumbers, ObjectOrArray, IntersectionOf, UnionOf;
    UnionRendering(s, defs, depth, seen);
    var members := Members(ss, nested, depth + 1, seen);
    forall i | 0 <= i < |ss| ensures members[i] == Unknown <==> Silent(ss[i], nested, depth + 1, seen) {
      SilentExactly(ss[i], nested, depth + 1, seen);
    }
    var rest := Render(s.(anyOf := NoSubschemas, oneOf := NoSubschemas), nested, depth + 1, seen);
    UnionUnknown(members);
    IntersectionUnknown([UnionOf(members), rest]);
    assert [UnionOf(members), rest][0] == UnionOf(members);
  }

  lemma SilentType(s: Schema, defs: Definitions, depth: nat, seen: set<string>)
    requires depth <= MAX_RENDER_DEPTH && NoCombinators(s) && s.allOf.NoSubschemas? && !s.types.Many?
    ensures Render(s, defs, depth, seen) == Unknown <==> Silent(s, defs, depth, seen)
  {
    hide Unseen, Nested;
  }

  // ---------------------------------------------------------------- what belongs to the rendering

  /**
   * Exactly the values that a schema lets through belong to its rendering, for every schema, at every depth and with
   * every set of names being followed.
   */
  lemma {:induction false} RenderedExactly(s: Schema, defs: Definitions, depth: nat, seen: set<string>, v: Json)
    ensures Has(Render(s, defs, depth, seen), v) <==> Fits(s, defs, depth, seen, v)
    decreases MAX_RENDER_DEPTH + 1 - depth, Unseen(defs, s, seen), 2
  {
    if depth <= MAX_RENDER_DEPTH {
      hide Render, Fits, Has;
      if s.ref.Some? {
        FitsReference(s, defs, depth, seen, v);
      } else if s.constant.Some? || s.enumeration.Some? {
        FitsValue(s, defs, depth, seen, v);
      } else if HasUnion(s) {
        FitsUnion(s, defs, depth, seen, v);
      } else if s.allOf.These? {
        FitsAllOf(s, defs, depth, seen, v);
      } else if s.types.Many? {
        FitsMany(s, defs, depth, seen, v);
      } else if s.types == One("array") {
        FitsArray(s, defs, depth, seen, v);
      } else if s.types == One("object") || (s.properties.Listed? && !BasicType(s.types)) {
        FitsObject(s, defs, depth, seen, v);
      } else {
        FitsBasic(s, defs, depth, seen, v);
      }
    }
  }

  predicate BasicType(types: TypeKeyword) {
    types.One? && types.name in ["string", "number", "integer", "boolean", "null"]
  }

  lemma BothHave(a: Type, b: Type, v: Json)
    ensures Has(IntersectionOf([a, b]), v) <==> Has(a, v) && Has(b, v)
  {
    hide Has, IntersectionOf;
    IntersectionHas([a, b], v);
    assert [a, b][0] == a && [a, b][1] == b;
  }

  lemma {:induction false} FitsReference(s: Schema, defs: Definitions, depth: nat, seen: set<string>, v: Json)
    requires depth <= MAX_RENDER_DEPTH && s.ref.Some?
    ensures Has(Render(s, defs, depth, seen), v) <==> Fits(s, defs, depth, seen, v)
    decreases MAX_RENDER_DEPTH + 1 - depth, Unseen(defs, s, seen), 0
  {
    var nested := Nested(defs, s);
    hide Render, Unseen, Nested, IntersectionOf;
    ReferenceRendering(s, defs, depth, seen);
    if Followed(s, defs, seen) {
      var name := s.ref.value.name;
      FollowingShrinks(defs, s, seen, name);
      RenderedExactly(nested[name], nested, depth, seen + {name}, v);
      RenderedExactly(s.(ref := None), nested, depth + 1, seen, v);
      hide Has;
      BothHave(Render(nested[name], nested, depth, seen + {name}), Render(s.(ref := None), nested, depth + 1, seen), v);
    }
  }

  lemma FitsValue(s: Schema, defs: Definitions, depth: nat, seen: set<string>, v: Json)
    requires depth <= MAX_RENDER_DEPTH && s.ref.None? && (s.constant.Some? || s.enumeration.Some?)
    ensures Has(Render(s, defs, depth, seen), v) <==> Fits(s, defs, depth, seen, v)
  {
    hide Render, Unseen, Nested, UnionOf;
    ValueRendering(s, defs, depth, seen);
    if s.constant.None? {
      var vs := s.enumeration.value;
      UnionHas(Literals(vs), v);
      if v in vs { var i :| 0 <= i < |vs| && vs[i] == v; assert Has(Literals(vs)[i], v); }
    }
  }

  lemma {:induction false} MembersFit(ss: seq<Schema>, nested: Definitions, depth: nat, seen: set<string>, v: Json)
    requires depth <= MAX_RENDER_DEPTH
    ensures var members := Members(ss, nested, depth + 1, seen);
            && (forall i :: 0 <= i < |ss| ==> (members[i] == Unknown <==> Silent(ss[i], nested, depth + 1, seen)))
            && (forall i :: 0 <= i < |ss| ==> (Has(members[i], v) <==> Fits(ss[i], nested, depth + 1, seen, v)))
    decreases MAX_RENDER_DEPTH + 1 - depth, 0, 0
  {
    hide Render, Silent, Has, Fits;
    var members := Members(ss, nested, depth + 1, seen);
    forall i | 0 <= i < |ss|
      ensures members[i] == Unknown <==> Silent(ss[i], nested, depth + 1, seen)
      ensures Has(members[i], v) <==> Fits(ss[i], nested, depth + 1, seen, v)
    {
      SilentExactly(ss[i], nested, depth + 1, seen);
      RenderedExactly(ss[i], nested, depth + 1, seen, v);
    }
  }

  lemma {:induction false} FitsUnion(s: Schema, defs: Definitions, depth: nat, seen: set<string>, v: Json)
    requires depth <= MAX_RENDER_DEPTH && s.ref.None? && s.constant.None? && s.enumeration.None? && HasUnion(s)
    ensures Has(Render(s, defs, depth, seen), v) <==> Fits(s, defs, depth, seen, v)
    decreases MAX_RENDER_DEPTH + 1 - depth, 0, 1
  {
    hide Render, Unseen, Nested, OnlyNumbers, ObjectOrArray, IntersectionOf, UnionOf, Silent, Has, Fits;
    var ss, nested := UnionMembers(s), Nested(defs, s);
    UnionRendering(s, defs, depth, seen);
    UnionFits(s, defs, depth, seen, v);
    ArtifactsHave(v);
    MembersFit(ss, nested, depth, seen, v);
    var members := Members(ss, nested, depth + 1, seen);
    var remaining := s.(anyOf := NoSubschemas, oneOf := NoSubschemas);
    RenderedExactly(remaining, nested, depth + 1, seen, v);
    BothHave(UnionOf(members), Render(remaining, nested, depth + 1, seen), v);
    UnionHas(members, v);
  }

  lemma ArtifactsHave(v: Json)
    ensures Has(NumberType, v) <==> v.Num?
    ensures Has(ObjectType([], None), v) <==> v != Null
    ensures Has(Unknown, v)
  {
  }

  lemma UnionFits(s: Schema, defs: Definitions, depth: nat, seen: set<string>, v: Json)
    requires depth <= MAX_RENDER_DEPTH && s.ref.None? && s.constant.None? && s.enumeration.None? && HasUnion(s)
    ensures var ss, nested := UnionMembers(s), Nested(defs, s);
            var remaining := s.(anyOf := NoSubschemas, oneOf := NoSubschemas);
            Fits(s, defs, depth, seen, v) <==>
              if OnlyNumbers(ss) then v.Num?
              else if ObjectOrArray(ss) then v != Null
              else
                || (exists i :: 0 <= i < |ss| && Silent(ss[i], nested, depth + 1, seen))
                || ((exists i :: 0 <= i < |ss| && Fits(ss[i], nested, depth + 1, seen, v))
                    && Fits(remaining, nested, depth + 1, seen, v))
  {
    hide OnlyNumbers, ObjectOrArray, Nested, Unseen, Silent;
  }

  lemma {:induction false} FitsAllOf(s: Schema, defs: Definitions, depth: nat, seen: set<string>, v: Json)
    requires depth <= MAX_RENDER_DEPTH && NoCombinators(s) && s.allOf.These?
    ensures Has(Render(s, defs, depth, seen), v) <==> Fits(s, defs, depth, seen, v)
    decreases MAX_RENDER_DEPTH + 1 - depth, 0, 1
  {
    var ss, nested := s.allOf.schemas, Nested(defs, s);
    hide Render, Unseen, Nested, Unresolvable, IntersectionOf, Has, Fits, Silent;
    AllOfRendering(s, defs, depth, seen);
    AllOfFits(s, defs, depth, seen, v);
    ArtifactsHave(v);
    MembersFit(ss, nested, depth, seen, v);
    var members := Members(ss, nested, depth + 1, seen);
    var remaining := s.(allOf := NoSubschemas);
    RenderedExactly(remaining, nested, depth + 1, seen, v);
    AllHave(Render(remaining, nested, depth + 1, seen), members, v);
  }

  lemma AllOfFits(s: Schema, defs: Definitions, depth: nat, seen: set<string>, v: Json)
    requires depth <= MAX_RENDER_DEPTH && NoCombinators(s) && s.allOf.These?
    ensures var ss, nested := s.allOf.schemas, Nested(defs, s);
            Fits(s, defs, depth, seen, v) <==>
              || Unresolvable(ss, nested)
              || (Fits(s.(allOf := NoSubschemas), nested, depth + 1, seen, v)
                  && forall i :: 0 <= i < |ss| ==> Fits(ss[i], nested, depth + 1, seen, v))
  {
    hide Unresolvable, Nested, Unseen;
  }

  lemma AllHave(first: Type, members: seq<Type>, v: Json)
    ensures Has(IntersectionOf([first] + members), v) <==>
              Has(first, v) && forall i :: 0 <= i < |members| ==> Has(members[i], v)
  {
    hide Has, IntersectionOf;
    var ts := [first] + members;
    IntersectionHas(ts, v);
    assert ts[0] == first && forall i :: 0 <= i < |members| ==> ts[i + 1] == members[i];
  }

  lemma {:induction false} FitsMany(s: Schema, defs: Definitions, depth: nat, seen: set<string>, v: Json)
    requires depth <= MAX_RENDER_DEPTH && NoCombinators(s) && s.allOf.NoSubschemas? && s.types.Many?
    ensures Has(Render(s, defs, depth, seen), v) <==> Fits(s, defs, depth, seen, v)
    decreases MAX_RENDER_DEPTH + 1 - depth, 0, 0
  {
    var names, nested := s.types.names, Nested(defs, s);
    ManyFits(s, defs, depth, seen, v);
    hide Render, Unseen, Nested, UnionOf, Has, Fits;
    ManyRendering(s, defs, depth, seen);
    var members := Members(Choice(s, names), nested, depth + 1, seen);
    forall i | 0 <= i < |names|
      ensures Has(members[i], v) <==> Fits(s.(types := One(names[i])), nested, depth + 1, seen, v)
    {
      RenderedExactly(s.(types := One(names[i])), nested, depth + 1, seen, v);
    }
    UnionHas(members, v);
  }

  lemma ManyFits(s: Schema, defs: Definitions, depth: nat, seen: set<string>, v: Json)
    requires depth <= MAX_RENDER_DEPTH && NoCombinators(s) && s.allOf.NoSubschemas? && s.types.Many?
    ensures var names, nested := s.types.names, Nested(defs, s);
            Fits(s, defs, depth, seen, v) <==>
              exists i :: 0 <= i < |names| && Fits(s.(types := One(names[i])), nested, depth + 1, seen, v)
  {
    hide Nested, Unseen;
  }

  lemma {:induction false} FitsArray(s: Schema, defs: Definitions, depth: nat, seen: set<string>, v: Json)
    requires depth <= MAX_RENDER_DEPTH && NoCombinators(s) && s.allOf.NoSubschemas? && s.types == One("array")
    ensures Has(Render(s, defs, depth, seen), v) <==> Fits(s, defs, depth, seen, v)
    decreases MAX_RENDER_DEPTH + 1 - depth, 0, 0
  {
    var nested := Nested(defs, s);
    var items := if s.items.Each? then s.items.schema else EMPTY;
    ArrayRendering(s, defs, depth, seen);
    ArrayFits(s, defs, depth, seen, v);
    ArrayHas(Render(items, nested, depth + 1, seen), v);
    hide Render, Unseen, Nested, Has, Fits;
    if v.Arr? {
      forall i | 0 <= i < |v.items|
        ensures Has(Render(items, nested, depth + 1, seen), v.items[i])
                <==> Fits(items, nested, depth + 1, seen, v.items[i])
      {
        RenderedExactly(items, nested, depth + 1, seen, v.items[i]);
      }
    }
  }

  lemma ArrayHas(element: Type, v: Json)
    ensures Has(ArrayType(element), v) <==> v.Arr? && forall i :: 0 <= i < |v.items| ==> Has(element, v.items[i])
  {
  }

  lemma ArrayFits(s: Schema, defs: Definitions, depth: nat, seen: set<string>, v: Json)
    requires depth <= MAX_RENDER_DEPTH && NoCombinators(s) && s.allOf.NoSubschemas? && s.types == One("array")
    ensures var items := if s.items.Each? then s.items.schema else EMPTY;
            Fits(s, defs, depth, seen, v) <==>
              v.Arr? && forall i :: 0 <= i < |v.items| ==> Fits(items, Nested(defs, s), depth + 1, seen, v.items[i])
  {
    hide Nested, Unseen;
  }

  lemma ArrayRendering(s: Schema, defs: Definitions, depth: nat, seen: set<string>)
    requires depth <= MAX_RENDER_DEPTH && NoCombinators(s) && s.allOf.NoSubschemas? && s.types == One("array")
    ensures var items := if s.items.Each? then s.items.schema else EMPTY;
            Render(s, defs, depth, seen) == ArrayType(Render(items, Nested(defs, s), depth + 1, seen))
  {
    hide Unseen, Nested;
  }

  function Fields(s: Schema, nested: Definitions, depth: nat, seen: set<string>): (r: seq<Field>)
    ensures s.properties.Listed? ==>
              && |r| == |s.properties.all|
              && forall i :: 0 <= i < |r| ==>
                   var p := s.properties.all[i];
                   r[i] == Field(p.name, p.name !in s.required, Render(p.schema, nested, depth, seen))
    ensures s.properties.NoProperties? ==> r == []
  {
    var ps := if s.properties.Listed? then s.properties.all else [];
    seq(|ps|, i requires 0 <= i < |ps| =>
      Field(ps[i].name, ps[i].name !in s.required, Render(ps[i].schema, nested, depth, seen)))
  }

  lemma ObjectRendering(s: Schema, defs: Definitions, depth: nat, seen: set<string>)
    requires depth <= MAX_RENDER_DEPTH && NoCombinators(s) && s.allOf.NoSubschemas? && !s.types.Many?
    requires s.types == One("object") || (s.properties.Listed? && !BasicType(s.types) && s.types != One("array"))
    ensures var nested := Nested(defs, s);
            Render(s, defs, depth, seen) ==
              ObjectType(Fields(s, nested, depth + 1, seen),
                if s.additional.Typed? then Some(Render(s.additional.schema, nested, depth + 1, seen)) else None)
  {
    hide Unseen, Nested;
    var nested := Nested(defs, s);
    var ps := if s.properties.Listed? then s.properties.all else [];
    assert Fields(s, nested, depth + 1, seen) == seq(|ps|, i requires 0 <= i < |ps| =>
      Field(ps[i].name, ps[i].name !in s.required, Render(ps[i].schema, nested, depth + 1, seen)));
  }

  lemma {:induction false} FitsObject(s: Schema, defs: Definitions, depth: nat, seen: set<string>, v: Json)
    requires depth <= MAX_RENDER_DEPTH && NoCombinators(s) && s.allOf.NoSubschemas? && !s.types.Many?
    requires s.types == One("object") || (s.properties.Listed? && !BasicType(s.types) && s.types != One("array"))
    ensures Has(Render(s, defs, depth, seen), v) <==> Fits(s, defs, depth, seen, v)
    decreases MAX_RENDER_DEPTH + 1 - depth, 0, 0
  {
    var nested := Nested(defs, s);
    ObjectRendering(s, defs, depth, seen);
    assert Fits(s, defs, depth, seen, v) <==> FitsFields(s, nested, depth, seen, v) by { hide Unseen, Nested; }
    hide Render, Unseen, Nested, Fits;
    if v.Obj? {
      if s.properties.Listed? {
        var ps := s.properties.all;
        forall i | 0 <= i < |ps| && ps[i].name in v.fields
          ensures Settled(ps[i].schema, nested, depth + 1, seen, v.fields[ps[i].name])
        {
          RenderedExactly(ps[i].schema, nested, depth + 1, seen, v.fields[ps[i].name]);
        }
      }
      if s.additional.Typed? {
        forall k | k in v.fields
          ensures Settled(s.additional.schema, nested, depth + 1, seen, v.fields[k])
        {
          RenderedExactly(s.additional.schema, nested, depth + 1, seen, v.fields[k]);
        }
      }
    }
    FieldsMean(s, nested, depth, seen, v);
  }

  predicate Settled(s: Schema, defs: Definitions, depth: nat, seen: set<string>, v: Json) {
    Has(Render(s, defs, depth, seen), v) <==> Fits(s, defs, depth, seen, v)
  }

  lemma FieldsMean(s: Schema, nested: Definitions, depth: nat, seen: set<string>, v: Json)
    requires depth <= MAX_RENDER_DEPTH
    requires v.Obj? && s.properties.Listed? ==>
               forall i :: 0 <= i < |s.properties.all| && s.properties.all[i].name in v.fields ==>
                 Settled(s.properties.all[i].schema, nested, depth + 1, seen, v.fields[s.properties.all[i].name])
    requires v.Obj? && s.additional.Typed? ==>
               forall k :: k in v.fields ==> Settled(s.additional.schema, nested, depth + 1, seen, v.fields[k])
    ensures var index :=
              if s.additional.Typed? then Some(Render(s.additional.schema, nested, depth + 1, seen)) else None;
            Has(ObjectType(Fields(s, nested, depth + 1, seen), index), v) <==> FitsFields(s, nested, depth, seen, v)
  {
    hide Render, Fits;
  }

  lemma FitsBasic(s: Schema, defs: Definitions, depth: nat, seen: set<string>, v: Json)
    requires depth <= MAX_RENDER_DEPTH && NoCombinators(s) && s.allOf.NoSubschemas? && !s.types.Many?
    requires s.types != One("array") && s.types != One("object") && (s.properties.Listed? ==> BasicType(s.types))
    ensures Has(Render(s, defs, depth, seen), v) <==> Fits(s, defs, depth, seen, v)
  {
    hide Unseen, Nested;
  }

  /** The definitions in force inside a schema: its own `$defs` before its `definitions`, and both before the outer. */
  lemma NestedExactly(defs: Definitions, s: Schema, name: string)
    requires DistinctNames(s.defs) && DistinctNames(s.definitions)
    ensures name in Nested(defs, s) <==> Lists(s.defs, name) || Lists(s.definitions, name) || name in defs
    ensures forall p :: p in s.defs && p.name == name ==> Nested(defs, s)[name] == p.schema
    ensures forall p :: p in s.definitions && p.name == name && !Lists(s.defs, name) ==>
              Nested(defs, s)[name] == p.schema
    ensures name in defs && !Lists(s.defs, name) && !Lists(s.definitions, name) ==> Nested(defs, s)[name] == defs[name]
  {
    EntriesExactly(s.defs, name);
    EntriesExactly(s.definitions, name);
  }

  predicate Lists(ps: seq<Property>, name: string) {
    exists p :: p in ps && p.name == name
  }

  predicate DistinctNames(ps: seq<Property>) {
    forall i, k :: 0 <= i < k < |ps| ==> ps[i].name != ps[k].name
  }

  lemma {:induction false} EntriesExactly(ps: seq<Property>, name: string)
    requires DistinctNames(ps)
    ensures name in Entries(ps) <==> Lists(ps, name)
    ensures forall p :: p in ps && p.name == name ==> Entries(ps)[name] == p.schema
  {
    if ps != [] {
      var most, last := ps[..|ps| - 1], ps[|ps| - 1];
      EntriesExactly(most, name);
      assert forall p :: p in ps <==> p in most || p == last;
      if p :| p in most && p.name == name { assert last.name != name; }
      assert last.name == name ==> Lists(ps, name);
    }
  }

  // ---------------------------------------------------------------- plain schemas, in the words of their keywords

  predicate NoUnions(s: Schema) {
    s.ref == None && s.anyOf == NoSubschemas && s.oneOf == NoSubschemas && s.allOf == NoSubschemas
  }

  /**
   * A schema without references, combinators and additional schemas that needs at most so many levels of rendering
   * below its own. A list of types takes a level of its own.
   */
  predicate Nests(s: Schema, levels: int)
    decreases s
  {
    && levels >= 0 && NoUnions(s) && !s.additional.Typed?
    && (s.constant == None && s.enumeration == None ==>
          var left := levels - if s.types.Many? then 1 else 0;
          && left >= 0
          && (s.items.Each? ==> Nests(s.items.schema, left - 1))
          && (s.properties.Listed? ==> forall i :: 0 <= i < |s.properties.all| ==>
                Nests(s.properties.all[i].schema, left - 1)))
  }

  /**
   * What the keywords of a plain schema ask for. A constant or an enumeration speaks alone; integers are numbers; items
   * and listed properties satisfy their schemas, and the required ones of those that are listed are there.
   */
  predicate Satisfies(s: Schema, v: Json)
    decreases s, 1
  {
    if s.constant != None then v == s.constant.value
    else if s.enumeration != None then v in s.enumeration.value
    else
      match s.types
      case NoType => s.properties.Listed? ==> SatisfiesType("object", s, v)
      case One(name) => SatisfiesType(name, s, v)
      case Many(names) => exists i :: 0 <= i < |names| && SatisfiesType(names[i], s, v)
  }

  predicate SatisfiesType(name: string, s: Schema, v: Json)
    decreases s, 0
  {
    if name == "string" then v.Str?
    else if name == "number" || name == "integer" then v.Num?
    else if name == "boolean" then v.Bool?
    else if name == "null" then v == Null
    else if name == "array" then
      && v.Arr?
      && (s.items.Each? ==> forall i :: 0 <= i < |v.items| ==> Satisfies(s.items.schema, v.items[i]))
    else if name == "object" || s.properties.Listed? then
      if s.properties.Listed? && s.properties.all != [] then
        && v.Obj?
        && forall i :: 0 <= i < |s.properties.all| ==>
             var p := s.properties.all[i];
             && (p.name in s.required ==> p.name in v.fields)
             && (p.name in v.fields ==> Satisfies(p.schema, v.fields[p.name]))
      else v != Null
    else true
  }

  /**
   * Rendering a plain schema within the depth limit loses and adds nothing: exactly the values that satisfy its
   * keywords belong to the printed type.
   */
  lemma PlainExactly(s: Schema, v: Json)
    requires Nests(s, 8)
    ensures Has(RenderDocument(s), v) <==> Satisfies(s, v)
  {
    var defs := Entries(s.definitions) + Entries(s.defs);
    RenderedExactly(s, defs, 0, {}, v);
    PlainFits(s, defs, 0, v);
  }

  lemma {:induction false} PlainFits(s: Schema, defs: Definitions, depth: nat, v: Json)
    requires Nests(s, MAX_RENDER_DEPTH - depth)
    ensures Fits(s, defs, depth, {}, v) <==> Satisfies(s, v)
    decreases s, 1
  {
    var nested := Nested(defs, s);
    hide Nested, Unseen;
    if s.constant == None && s.enumeration == None {
      if s.types.Many? {
        var names := s.types.names;
        forall i | 0 <= i < |names|
          ensures Fits(s.(types := One(names[i])), nested, depth + 1, {}, v) <==> SatisfiesType(names[i], s, v)
        {
          PlainTypeFits(s, s.(types := One(names[i])), names[i], nested, depth + 1, v);
        }
        ManyFits(s, defs, depth, {}, v);
      } else {
        var name := if s.types.One? then s.types.name else if s.properties.Listed? then "object" else "";
        PlainTypeFits(s, s, name, defs, depth, v);
      }
    }
  }

  /** One type of a plain schema; `t` is `s` with that type alone. */
  lemma {:induction false} PlainTypeFits(s: Schema, t: Schema, name: string, defs: Definitions, depth: nat, v: Json)
    requires depth <= MAX_RENDER_DEPTH && NoUnions(s) && !s.additional.Typed? && s.constant == None
    requires s.enumeration == None
    requires || t == s.(types := One(name))
             || (t == s && s.types.NoType? && name == if s.properties.Listed? then "object" else "")
    requires s.items.Each? ==> Nests(s.items.schema, MAX_RENDER_DEPTH - depth - 1)
    requires s.properties.Listed? ==>
               forall i :: 0 <= i < |s.properties.all| ==>
                 Nests(s.properties.all[i].schema, MAX_RENDER_DEPTH - depth - 1)
    ensures Fits(t, defs, depth, {}, v) <==> SatisfiesType(name, s, v)
    decreases s, 0
  {
    var nested := Nested(defs, t);
    hide Nested, Unseen, Nests;
    if v.Arr? && s.items.Each? {
      forall i | 0 <= i < |v.items|
        ensures Fits(s.items.schema, nested, depth + 1, {}, v.items[i]) <==> Satisfies(s.items.schema, v.items[i])
      {
        PlainFits(s.items.schema, nested, depth + 1, v.items[i]);
      }
    }
    if v.Obj? && s.properties.Listed? {
      var ps := s.properties.all;
      forall i | 0 <= i < |ps| && ps[i].name in v.fields
        ensures Fits(ps[i].schema, nested, depth + 1, {}, v.fields[ps[i].name])
                <==> Satisfies(ps[i].schema, v.fields[ps[i].name])
      {
        PlainFits(ps[i].schema, nested, depth + 1, v.fields[ps[i].name]);
      }
    }
  }
}
