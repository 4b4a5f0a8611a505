/**
 * What `hasUnresolvedRef` promises (packages/codemode/src/tool-schema.ts:43-65), although it stops at every schema it
 * has passed.
 */
module SchemaReferences {
  import opened Wrappers
  import opened SchemaRender

  predicate Under(ss: Subschemas, b: Schema) {
    ss.These? && b in ss.schemas
  }

  predicate Follows(defs: Definitions, a: Schema, b: Schema) {
    a.ref.Some? && a.ref.value.Named? && a.ref.value.name in defs && b == defs[a.ref.value.name]
  }

  predicate Enters(a: Schema, b: Schema) {
    || Under(a.anyOf, b) || Under(a.oneOf, b) || Under(a.allOf, b)
    || (a.properties.Listed? && exists i :: 0 <= i < |a.properties.all| && a.properties.all[i].schema == b)
    || a.items == Each(b)
    || a.additional == Typed(b)
  }

  /** One step from a schema: into a subschema, or through its reference. */
  predicate Steps(defs: Definitions, a: Schema, b: Schema) {
    Follows(defs, a, b) || Enters(a, b)
  }

  predicate Path(defs: Definitions, p: seq<Schema>) {
    p != [] && forall i :: 0 <= i < |p| - 1 ==> Steps(defs, p[i], p[i + 1])
  }

  predicate Simple(p: seq<Schema>) {
    forall i, k :: 0 <= i < k < |p| ==> p[i].node != p[k].node
  }

  predicate Avoids(p: seq<Schema>, visited: set<nat>) {
    forall i :: 0 <= i < |p| ==> p[i].node !in visited
  }

  /** Equal identities belong to equal schemas. */
  predicate Identified(p: seq<Schema>) {
    forall i, k :: 0 <= i < |p| && 0 <= k < |p| && p[i].node == p[k].node ==> p[i] == p[k]
  }

  predicate Resolves(defs: Definitions, s: Schema) {
    s.ref.Some? ==> s.ref.value.Named? && s.ref.value.name in defs
  }

  lemma StepExplored(defs: Definitions, a: Schema, b: Schema, seen: set<string>,
                     visited: set<nat>) returns (after: set<string>)
    requires !HasUnresolvedRef(a, defs, seen, visited) && a.node !in visited && Steps(defs, a, b)
    ensures !HasUnresolvedRef(b, defs, after, visited + {a.node})
  {
    after := if Follows(defs, a, b) then seen + {a.ref.value.name} else seen;
  }

  lemma {:induction false} SimpleExplored(defs: Definitions, p: seq<Schema>, seen: set<string>, visited: set<nat>)
    requires Path(defs, p) && Simple(p) && Avoids(p, visited) && !HasUnresolvedRef(p[0], defs, seen, visited)
    ensures Resolves(defs, p[|p| - 1])
    decreases |p|
  {
    if |p| > 1 {
      var after := StepExplored(defs, p[0], p[1], seen, visited);
      assert forall i :: 0 <= i < |p| - 2 ==> Steps(defs, p[1..][i], p[1..][i + 1]);
      SimpleExplored(defs, p[1..], after, visited + {p[0].node});
    }
  }

  lemma {:induction false} Shortened(defs: Definitions, p: seq<Schema>) returns (q: seq<Schema>)
    requires Path(defs, p) && Identified(p)
    ensures Path(defs, q) && Simple(q) && q[0] == p[0] && q[|q| - 1] == p[|p| - 1]
    ensures forall x :: x in q ==> x in p
    decreases |p|
  {
    hide Steps;
    if |p| == 1 {
      q := p;
    } else {
      assert forall i :: 0 <= i < |p| - 2 ==> Steps(defs, p[1..][i], p[1..][i + 1]);
      var rest := Shortened(defs, p[1..]);
      assert forall x :: x in p[1..] ==> x in p;
      if k :| 0 <= k < |rest| && rest[k].node == p[0].node {
        assert rest[k] in p[1..];
        q := rest[k..];
      } else {
        q := [p[0]] + rest;
      }
    }
  }

  /**
   * When the check finds nothing, every reference that can be reached, through any number of definitions, is defined.
   */
  lemma EveryReferenceResolves(defs: Definitions, p: seq<Schema>)
    requires Path(defs, p) && Identified(p) && !HasUnresolvedRef(p[0], defs, {}, {})
    ensures Resolves(defs, p[|p| - 1])
  {
    var q := Shortened(defs, p);
    SimpleExplored(defs, q, {}, {});
  }

  // ---------------------------------------------------------------- what a report means

  /** A schema on the way, and the names followed so far. */
  datatype Stop = Stop(schema: Schema, seen: set<string>)

  /** Into a subschema, or through a reference whose name has not been followed yet. */
  predicate Moves(defs: Definitions, x: Stop, y: Stop) {
    || (Enters(x.schema, y.schema) && y.seen == x.seen)
    || (Follows(defs, x.schema, y.schema) && x.schema.ref.value.name !in x.seen &&
        y.seen == x.seen + {x.schema.ref.value.name})
  }

  /** The reference is foreign, undefined, or already followed on the way. */
  predicate Troubled(defs: Definitions, x: Stop) {
    x.schema.ref.Some? &&
      (x.schema.ref.value.Foreign? || x.schema.ref.value.name !in defs || x.schema.ref.value.name in x.seen)
  }

  predicate Trail(defs: Definitions, p: seq<Stop>) {
    p != [] && forall i :: 0 <= i < |p| - 1 ==> Moves(defs, p[i], p[i + 1])
  }

  /** No schema is passed twice, and none of `visited`. */
  predicate Straight(p: seq<Stop>, visited: set<nat>) {
    && (forall i, k :: 0 <= i < k < |p| ==> p[i].schema.node != p[k].schema.node)
    && (forall i :: 0 <= i < |p| ==> p[i].schema.node !in visited)
  }

  predicate LeadsToTrouble(defs: Definitions, p: seq<Stop>, s: Schema, seen: set<string>, visited: set<nat>) {
    Trail(defs, p) && Straight(p, visited) && p[0] == Stop(s, seen) && Troubled(defs, p[|p| - 1])
  }

  lemma TrailExtends(defs: Definitions, x: Stop, p: seq<Stop>, visited: set<nat>) returns (q: seq<Stop>)
    requires Trail(defs, p) && Straight(p, visited + {x.schema.node}) && Moves(defs, x, p[0])
    requires x.schema.node !in visited && Troubled(defs, p[|p| - 1])
    ensures LeadsToTrouble(defs, q, x.schema, x.seen, visited)
  {
    q := [x] + p;
  }

  /** Which subschema or reference a report comes from. */
  lemma ReportedChild(s: Schema, defs: Definitions, seen: set<string>, visited: set<nat>) returns (y: Stop)
    requires HasUnresolvedRef(s, defs, seen, visited) && !Troubled(defs, Stop(s, seen))
    ensures s.node !in visited && Moves(defs, Stop(s, seen), y) &&
              HasUnresolvedRef(y.schema, defs, y.seen, visited + {s.node})
    ensures y.seen == seen ==> y.schema < s
    ensures y.seen != seen ==> |defs.Keys - y.seen| < |defs.Keys - seen|
  {
    var next := visited + {s.node};
    if s.ref.Some? && HasUnresolvedRef(defs[s.ref.value.name], defs, seen + {s.ref.value.name}, next) {
      var name := s.ref.value.name;
      y := Stop(defs[name], seen + {name});
      Smaller(defs.Keys - (seen + {name}), defs.Keys - seen - {name});
      assert defs.Keys - seen == (defs.Keys - seen - {name}) + {name};
    } else if SomeUnresolved(s.anyOf, defs, seen, next) {
      var i :| 0 <= i < |s.anyOf.schemas| && HasUnresolvedRef(s.anyOf.schemas[i], defs, seen, next);
      y := Stop(s.anyOf.schemas[i], seen);
    } else if SomeUnresolved(s.oneOf, defs, seen, next) {
      var i :| 0 <= i < |s.oneOf.schemas| && HasUnresolvedRef(s.oneOf.schemas[i], defs, seen, next);
      y := Stop(s.oneOf.schemas[i], seen);
    } else if SomeUnresolved(s.allOf, defs, seen, next) {
      var i :| 0 <= i < |s.allOf.schemas| && HasUnresolvedRef(s.allOf.schemas[i], defs, seen, next);
      y := Stop(s.allOf.schemas[i], seen);
    } else if s.items.Each? && HasUnresolvedRef(s.items.schema, defs, seen, next) {
      y := Stop(s.items.schema, seen);
    } else if s.additional.Typed? && HasUnresolvedRef(s.additional.schema, defs, seen, next) {
      y := Stop(s.additional.schema, seen);
    } else {
      var i :| 0 <= i < |s.properties.all| && HasUnresolvedRef(s.properties.all[i].schema, defs, seen, next);
      y := Stop(s.properties.all[i].schema, seen);
    }
  }

  lemma {:induction false} ReportHasTrail(s: Schema, defs: Definitions, seen: set<string>, visited: set<nat>)
    returns (p: seq<Stop>)
    requires HasUnresolvedRef(s, defs, seen, visited)
    ensures LeadsToTrouble(defs, p, s, seen, visited)
    decreases |defs.Keys - seen|, s
  {
    if Troubled(defs, Stop(s, seen)) {
      p := [Stop(s, seen)];
    } else {
      var y := ReportedChild(s, defs, seen, visited);
      hide HasUnresolvedRef, Moves, Troubled;
      var rest := ReportHasTrail(y.schema, defs, y.seen, visited + {s.node});
      p := TrailExtends(defs, Stop(s, seen), rest, visited);
    }
  }

  lemma MoveReports(defs: Definitions, x: Stop, y: Stop, visited: set<nat>)
    requires Moves(defs, x, y) && x.schema.node !in visited
    requires HasUnresolvedRef(y.schema, defs, y.seen, visited + {x.schema.node})
    ensures HasUnresolvedRef(x.schema, defs, x.seen, visited)
  {
  }

  lemma {:induction false} TrailIsReported(p: seq<Stop>, defs: Definitions, s: Schema, seen: set<string>,
                                           visited: set<nat>)
    requires LeadsToTrouble(defs, p, s, seen, visited)
    ensures HasUnresolvedRef(s, defs, seen, visited)
    decreases |p|
  {
    if |p| > 1 {
      hide HasUnresolvedRef, Moves, Troubled;
      assert forall i :: 0 <= i < |p| - 2 ==> Moves(defs, p[1..][i], p[1..][i + 1]);
      TrailIsReported(p[1..], defs, p[1].schema, p[1].seen, visited + {s.node});
      MoveReports(defs, p[0], p[1], visited);
    }
  }

  /**
   * What the check reports, exactly: some way from the schema, through subschemas and references and passing no schema
   * twice, ends at a reference that is foreign, undefined, or already followed on that way.
   */
  lemma ReportsExactly(s: Schema, defs: Definitions)
    ensures HasUnresolvedRef(s, defs, {}, {}) <==> exists p :: LeadsToTrouble(defs, p, s, {}, {})
  {
    if HasUnresolvedRef(s, defs, {}, {}) { var p := ReportHasTrail(s, defs, {}, {}); }
    if p :| LeadsToTrouble(defs, p, s, {}, {}) { TrailIsReported(p, defs, s, {}, {}); }
  }

  /** The reference at the end of the way is recursive: its name was followed before. */
  predicate Recursive(defs: Definitions, p: seq<Stop>, s: Schema) {
    && Trail(defs, p) && p[0] == Stop(s, {})
    && p[|p| - 1].schema.ref.Some? && p[|p| - 1].schema.ref.value.Named? &&
         p[|p| - 1].schema.ref.value.name in p[|p| - 1].seen
  }

  /**
   * So a recursive reference is reported on its own account exactly if it can be reached without passing a schema
   * twice.
   */
  lemma RecursionReported(s: Schema, defs: Definitions)
    requires forall p: seq<Stop> :: Trail(defs, p) && p[0] == Stop(s, {}) ==> Resolves(defs, p[|p| - 1].schema)
    ensures HasUnresolvedRef(s, defs, {}, {}) <==> exists p :: Recursive(defs, p, s) && Straight(p, {})
  {
    ReportsExactly(s, defs);
    if p :| LeadsToTrouble(defs, p, s, {}, {}) { assert Recursive(defs, p, s) && Straight(p, {}); }
    if p :| Recursive(defs, p, s) && Straight(p, {}) { assert LeadsToTrouble(defs, p, s, {}, {}); }
  }

  /** An input for which that is not so: the recursion leads back to the schema the check started from. */
  lemma RecursionBackToTheStartIsMissed()
    ensures var inner := EMPTY.(node := 2, ref := Some(Named("A")));
            var start := EMPTY.(node := 1, items := Each(inner));
            var a := EMPTY.(node := 3, allOf := These([start]));
            var defs := map["A" := a];
            !HasUnresolvedRef(start, defs, {}, {}) && exists p :: Recursive(defs, p, start)
  {
    var inner := EMPTY.(node := 2, ref := Some(Named("A")));
    var start := EMPTY.(node := 1, items := Each(inner));
    var a := EMPTY.(node := 3, allOf := These([start]));
    var defs := map["A" := a];
    assert !HasUnresolvedRef(start, defs, {"A"}, {1, 2, 3});
    assert {1, 2} + {3} == {1, 2, 3};
    assert !HasUnresolvedRef(a, defs, {"A"}, {1, 2});
    assert {1} + {2} == {1, 2};
    assert {} + {"A"} == {"A"};
    assert !HasUnresolvedRef(inner, defs, {}, {1});
    assert {} + {1} == {1};
    var p := [Stop(start, {}), Stop(inner, {}), Stop(a, {"A"}), Stop(start, {"A"}), Stop(inner, {"A"})];
    assert a.allOf.schemas[0] == start;
    assert Recursive(defs, p, start);
  }
}
