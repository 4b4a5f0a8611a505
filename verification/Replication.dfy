/**
 * What replaying a log buys: a replica that holds a prefix of a source log converges to the source under
 * replayAll, whatever it already has and however often a batch dies half-way.
 */
module Replication {
  import opened Wrappers
  import opened Journal

  // ---------------------------------------------------------------- well-formed journals

  /** No aggregate is kept without events, and no event ID is used at two positions of the whole journal. */
  ghost predicate WellFormed(j: Journal) {
    && (forall a :: a in j ==> j[a].log != [])
    && (forall a, b, i, k ::
          a in j && b in j && 0 <= i < |j[a].log| && 0 <= k < |j[b].log| && j[a].log[i].id == j[b].log[k].id
          ==> a == b && i == k)
  }

  lemma CommitKeepsWellFormed(reg: Registry, ps: Projectors, m: Model, def: Definition, event: Event, origin: Origin)
    requires WellFormed(m.journal)
    ensures WellFormed(Commit(reg, ps, m, def, event, origin).after.journal)
  {
    var r := Commit(reg, ps, m, def, event, origin);
    if r.outcome.Committed? {
      var a := r.outcome.aggregate;
      AppendKeepsWellFormed(m.journal, r.after.journal, a, r.after.journal[a].log[|Get(m.journal, a).log|]);
    }
  }

  lemma AppendKeepsWellFormed(j: Journal, j': Journal, a: string, entry: Entry)
    requires WellFormed(j) && !UsesID(j, entry.id)
    requires a in j' && j'[a].log == Get(j, a).log + [entry]
    requires forall b :: b != a ==> (b in j <==> b in j') && (b in j ==> j'[b] == j[b])
    ensures WellFormed(j')
  {
    forall b, c, i, k | b in j' && c in j' && 0 <= i < |j'[b].log| && 0 <= k < |j'[c].log| &&
                        j'[b].log[i].id == j'[c].log[k].id
      ensures b == c && i == k
    {
      assert b in j && i < |j[b].log| ==> j'[b].log[i] == j[b].log[i];
      assert c in j && k < |j[c].log| ==> j'[c].log[k] == j[c].log[k];
    }
  }

  /** Every operation of the service keeps the journal well formed, including removal. */
  lemma PerformKeepsWellFormed(reg: Registry, ps: Projectors, m: Model, op: Operation)
    requires WellFormed(m.journal)
    ensures WellFormed(Perform(reg, ps, m, op).after.journal)
  {
    match op
    case Publish(def, event, hook) => CommitKeepsWellFormed(reg, ps, m, def, event, Local(hook));
    case Receive(e, o) =>
      if reg.definition(e.typ).Some? {
        var def := reg.definition(e.typ).value;
        if reg.decode(def, e.data).Some? {
          CommitKeepsWellFormed(reg, ps, m, def, Event(e.id, reg.decode(def, e.data).value),
                                Remote(e.sequence, e.aggregate, o.owner, o.strict));
        }
      }
    case Forget(_) =>
    case TakeOver(a, owner) =>
      var after := Claim(m, a, owner);
      assert forall b :: b in after.journal ==> after.journal[b].log == m.journal[b].log;
  }

  // ---------------------------------------------------------------- a replica of one aggregate

  /** The codec law replication rests on: the stored data of an entry decodes, and encodes back to itself. */
  ghost predicate Restores(reg: Registry, a: string, entry: Entry) {
    && reg.definition(entry.typ).Some?
    && var def := reg.definition(entry.typ).value;
    && def.versioned == entry.typ
    && reg.decode(def, entry.data).Some?
    && var data := reg.decode(def, entry.data).value;
    && reg.encode(def, data) == Some(entry.data)
    && reg.aggregateOf(def, data) == Some(a)
  }

  /** A log that some source holds for `a`, fit to be replayed into `j`. */
  ghost predicate Source(reg: Registry, j: Journal, a: string, source: seq<Entry>) {
    && (forall i :: 0 <= i < |source| ==> Restores(reg, a, source[i]))
    && (forall i, k :: 0 <= i < k < |source| ==> source[i].id != source[k].id)
    && (forall b, i, k ::
          b in j && b != a && 0 <= i < |j[b].log| && 0 <= k < |source| ==> j[b].log[i].id != source[k].id)
  }

  /** The replica holds the first `n` entries of the source and nothing fences the claimant. */
  ghost predicate Holds(m: Model, a: string, source: seq<Entry>, n: nat, options: Options) {
    n <= |source| && LogOf(m, a) == source[..n] && !Fences(OwnerOf(m, a), options.owner)
  }

  ghost predicate OthersUntouched(m: Model, m': Model, a: string) {
    forall b :: b != a ==> (b in m.journal <==> b in m'.journal) && Get(m.journal, b) == Get(m'.journal, b)
  }

  /** What a claimant may replay into the replica stays the same when only that aggregate changes. */
  lemma SourceFrame(reg: Registry, m: Model, m': Model, a: string, source: seq<Entry>)
    requires Source(reg, m.journal, a, source) && OthersUntouched(m, m', a)
    ensures Source(reg, m'.journal, a, source)
  {
    forall b, i, k | b in m'.journal && b != a && 0 <= i < |m'.journal[b].log| && 0 <= k < |source|
      ensures m'.journal[b].log[i].id != source[k].id
    {
      assert Get(m.journal, b) == Get(m'.journal, b);
      assert b in m.journal && m.journal[b].log[i].id != source[k].id;
    }
  }

  ghost predicate Succeeds(p: Projector) {
    forall v, e :: p(v, e).Some?
  }

  ghost predicate Total(ps: Projectors) {
    forall t, i :: t in ps && 0 <= i < |ps[t]| ==> Succeeds(ps[t][i])
  }

  function Serialize(a: string, source: seq<Entry>, from: nat, upto: nat): (r: seq<Serialized>)
    requires from <= upto <= |source|
    ensures |r| == upto - from
    ensures forall n :: 0 <= n < |r| ==>
      r[n] == Serialized(source[from + n].id, source[from + n].typ, from + n, a, source[from + n].data)
  {
    seq(upto - from, n requires 0 <= n < upto - from =>
      Serialized(source[from + n].id, source[from + n].typ, from + n, a, source[from + n].data))
  }

  lemma {:induction false} TotalProject(ps: seq<Projector>, view: View, e: Applied)
    requires forall i :: 0 <= i < |ps| ==> Succeeds(ps[i])
    ensures Project(ps, view, e).Some?
  {
    if ps == [] {
    } else {
      assert Succeeds(ps[0]);
      TotalProject(ps[1..], ps[0](view, e).value, e);
    }
  }

  /** One replayed entry the replica already holds: nothing is appended or projected, at most an owner is adopted. */
  lemma ReplayHeld(reg: Registry, ps: Projectors, m: Model, a: string, source: seq<Entry>, i: nat, n: nat,
                   options: Options)
    requires Source(reg, m.journal, a, source) && Holds(m, a, source, n, options) && i < n
    ensures var r := Replay(reg, ps, m, Serialize(a, source, i, i + 1)[0], options);
      && r.outcome == Ignored && r.after.view == m.view
      && Holds(r.after, a, source, n, options) && OthersUntouched(m, r.after, a)
      && (OwnerOf(r.after, a).Some? || !Truthy(options.owner))
      && r.after.journal == m.journal[a := Aggregate(Adopt(OwnerOf(m, a), options.owner), source[..n])]
  {
    assert Restores(reg, a, source[i]);
    assert LogOf(m, a)[i] == source[i];
  }

  /** The next entry of the source: appended and projected once, or nothing at all if a projector fails. */
  lemma ReplayNext(reg: Registry, ps: Projectors, m: Model, a: string, source: seq<Entry>, n: nat, options: Options)
    requires Source(reg, m.journal, a, source) && Holds(m, a, source, n, options) && n < |source|
    ensures var r := Replay(reg, ps, m, Serialize(a, source, n, n + 1)[0], options);
      && (r == Step(Died(ProjectionFailed), m) ||
          (r.outcome == Committed(a, n) && Holds(r.after, a, source, n + 1, options) && OthersUntouched(m, r.after, a)))
      && (Total(ps) ==> r.outcome.Committed?)
      && (r.outcome.Committed? ==> OwnerOf(r.after, a).Some? || !Truthy(options.owner))
      && reg.definition(source[n].typ).Some?
      && var def := reg.definition(source[n].typ).value;
      && reg.decode(def, source[n].data).Some?
      && var applied := Applied(source[n].id, def.typ, reg.decode(def, source[n].data).value, a, n);
      && (r.outcome.Committed? ==> Some(r.after.view) == Project(ProjectorsOf(ps, def.typ), m.view, applied))
  {
    var e := source[n];
    assert Restores(reg, a, e);
    var def := reg.definition(e.typ).value;
    var data := reg.decode(def, e.data).value;
    assert !UsesID(m.journal, e.id) by {
      forall b, i | b in m.journal && 0 <= i < |m.journal[b].log| ensures m.journal[b].log[i].id != e.id {
        if b == a { assert m.journal[b].log[i] == source[i]; }
      }
    }
    assert source[..n] + [e] == source[..n + 1];
    if Total(ps) {
      TotalProject(ProjectorsOf(ps, def.typ), m.view, Applied(e.id, def.typ, data, a, n));
    }
  }

  lemma SerializeTail(a: string, source: seq<Entry>, from: nat, upto: nat)
    requires from < upto <= |source|
    ensures Serialize(a, source, from, upto)[0] == Serialize(a, source, from, from + 1)[0]
    ensures Serialize(a, source, from, upto)[1..] == Serialize(a, source, from + 1, upto)
  {
  }

  /** What a slice leaves behind: the longer prefix, or a shorter one where a projector has failed. */
  ghost predicate SliceLeaves(ps: Projectors, m: Model, r: Step, a: string, source: seq<Entry>, from: nat, upto: nat,
                              n: nat, options: Options)
  {
    var held := |LogOf(r.after, a)|;
    && n <= held <= Max(n, upto) && Holds(r.after, a, source, held, options) && OthersUntouched(m, r.after, a)
    && (r.outcome.Died? ==> r.outcome.reason == ProjectionFailed && !Total(ps))
    && (!r.outcome.Died? ==>
          held == Max(n, upto) && (from < upto ==> OwnerOf(r.after, a).Some? || !Truthy(options.owner)))
  }

  /** One entry more at the front of a slice, with `n'` entries held after it. */
  lemma SliceGrows(ps: Projectors, m: Model, first: Step, r: Step, a: string, source: seq<Entry>, from: nat, upto: nat,
                   n: nat, n': nat, options: Options)
    requires from < upto && n' == Max(n, from + 1)
    requires OthersUntouched(m, first.after, a) && (OwnerOf(first.after, a).Some? || !Truthy(options.owner))
    requires SliceLeaves(ps, first.after, r, a, source, from + 1, upto, n', options)
    requires from + 1 == upto ==> r.after == first.after
    ensures SliceLeaves(ps, m, r, a, source, from, upto, n, options)
  {
    hide Holds;
  }

  /** Replaying source[from..upto] one transaction at a time leaves the longer prefix, or stops at a shorter one. */
  lemma {:induction false} ReplaySlice(reg: Registry, ps: Projectors, m: Model, a: string, source: seq<Entry>,
                                       from: nat, upto: nat, n: nat, options: Options)
    requires Source(reg, m.journal, a, source) && Holds(m, a, source, n, options)
    requires from <= upto <= |source| && from <= n
    ensures SliceLeaves(ps, m, ReplayEach(reg, ps, m, Serialize(a, source, from, upto), options), a, source, from, upto,
                        n, options)
    decreases upto - from
  {
    hide Replay, Serialize, Source;
    if from == upto {
    } else {
      SerializeTail(a, source, from, upto);
      var first := Replay(reg, ps, m, Serialize(a, source, from, upto)[0], options);
      assert from + 1 == upto ==> Serialize(a, source, from + 1, upto) == [];
      hide Holds, OthersUntouched, SliceLeaves;
      if from < n {
        ReplayHeld(reg, ps, m, a, source, from, n, options);
        SourceFrame(reg, m, first.after, a, source);
        ReplaySlice(reg, ps, first.after, a, source, from + 1, upto, n, options);
        SliceGrows(ps, m, first, ReplayEach(reg, ps, m, Serialize(a, source, from, upto), options), a, source, from,
                   upto, n, n, options);
      } else {
        ReplayNext(reg, ps, m, a, source, n, options);
        if first.outcome.Committed? {
          SourceFrame(reg, m, first.after, a, source);
          ReplaySlice(reg, ps, first.after, a, source, from + 1, upto, n + 1, options);
          SliceGrows(ps, m, first, ReplayEach(reg, ps, m, Serialize(a, source, from, upto), options), a, source, from,
                     upto, n, n + 1, options);
        } else {
          SliceStops(ps, m, a, source, from, upto, n, options);
        }
      }
    }
  }

  lemma SliceStops(ps: Projectors, m: Model, a: string, source: seq<Entry>, from: nat, upto: nat, n: nat,
                   options: Options)
    requires Holds(m, a, source, n, options) && !Total(ps)
    ensures SliceLeaves(ps, m, Step(Died(ProjectionFailed), m), a, source, from, upto, n, options)
  {
  }

  /** Replaying entries that are all held, with nothing left to adopt, changes nothing whatever the projectors are. */
  lemma {:induction false} ReplayAgain(reg: Registry, ps: Projectors, m: Model, a: string, source: seq<Entry>,
                                       from: nat, upto: nat, n: nat, options: Options)
    requires Source(reg, m.journal, a, source) && Holds(m, a, source, n, options)
    requires from <= upto <= n && (OwnerOf(m, a).Some? || !Truthy(options.owner))
    ensures ReplayEach(reg, ps, m, Serialize(a, source, from, upto), options) == Step(Ignored, m)
    decreases upto - from
  {
    if from == upto {
    } else {
      SerializeTail(a, source, from, upto);
      ReplayHeld(reg, ps, m, a, source, from, n, options);
      assert m.journal[a := Aggregate(OwnerOf(m, a), source[..n])] == m.journal;
      ReplayAgain(reg, ps, m, a, source, from + 1, upto, n, options);
    }
  }

  /**
   * Replication converges. The replica holds a prefix of the source; the batch is any non-empty slice of the
   * source that starts at or before the replica's next sequence. `ps` may fail anywhere; `again` are the
   * projectors of a later delivery of the same batch.
   */
  lemma ReplicationConverges(reg: Registry, ps: Projectors, again: Projectors, m: Model, a: string, source: seq<Entry>,
                             from: nat, upto: nat, n: nat, options: Options)
    requires a != ""
    requires Source(reg, m.journal, a, source) && Holds(m, a, source, n, options)
    requires from < upto <= |source| && from <= n
    ensures var batch := Serialize(a, source, from, upto);
      var first := ReplayAll(reg, ps, m, batch, options);
      var held := |LogOf(first.after, a)|;
      var second := ReplayAll(reg, again, first.after, batch, options);
      // whatever happens, what is left is a prefix of the source, and no other aggregate is touched
      && n <= held <= |source| && LogOf(first.after, a) == source[..held] && OthersUntouched(m, first.after, a)
      // a batch that is not interrupted leaves the longer of the two prefixes, and its repetition is a no-op
      && (first.result == Replayed(a) || first.result == Failed(ProjectionFailed))
      && (Total(ps) ==> first.result == Replayed(a))
      && (first.result == Replayed(a) ==> held == Max(n, upto) && second == Batch(Replayed(a), first.after))
      // a batch that died half-way is completed by delivering it again
      && (Total(again) ==> second.result == Replayed(a) && LogOf(second.after, a) == source[..Max(n, upto)])
  {
    var batch := Serialize(a, source, from, upto);
    assert batch != [] && batch[0].aggregate == a && SameAggregate(batch) && Contiguous(batch);
    ReplaySlice(reg, ps, m, a, source, from, upto, n, options);
    var first := ReplayAll(reg, ps, m, batch, options);
    var held := |LogOf(first.after, a)|;
    SourceFrame(reg, m, first.after, a, source);
    ReplaySlice(reg, again, first.after, a, source, from, upto, held, options);
    if first.result == Replayed(a) {
      ReplayAgain(reg, again, first.after, a, source, from, upto, held, options);
    }
  }

  /** A fresh replica fed the whole log, in one batch or cut anywhere in two, ends with exactly the source's log. */
  lemma ChunkedReplication(reg: Registry, ps: Projectors, m: Model, a: string, source: seq<Entry>, cut: nat,
                           options: Options)
    requires a != "" && a !in m.journal && Total(ps)
    requires Source(reg, m.journal, a, source) && 0 < cut < |source|
    ensures var one := ReplayAll(reg, ps, m, Serialize(a, source, 0, cut), options);
      var two := ReplayAll(reg, ps, one.after, Serialize(a, source, cut, |source|), options);
      two.result == Replayed(a) && LogOf(two.after, a) == source
  {
    ReplicationConverges(reg, ps, ps, m, a, source, 0, cut, 0, options);
    var one := ReplayAll(reg, ps, m, Serialize(a, source, 0, cut), options);
    ReplaySlice(reg, ps, m, a, source, 0, cut, 0, options);
    SourceFrame(reg, m, one.after, a, source);
    assert Serialize(a, source, 0, cut)[0].aggregate == a && SameAggregate(Serialize(a, source, 0, cut));
    ReplicationConverges(reg, ps, ps, one.after, a, source, cut, |source|, cut, options);
    assert source[..|source|] == source;
  }

  /** The empty aggregate ID is the one that batches cannot replicate: it reads as no source at all. */
  lemma EmptyAggregateIsSkipped(reg: Registry, ps: Projectors, m: Model, source: seq<Entry>, upto: nat,
                                options: Options)
    requires 0 < upto <= |source|
    ensures ReplayAll(reg, ps, m, Serialize("", source, 0, upto), options) == Batch(NoSource, m)
  {
    assert Serialize("", source, 0, upto)[0].aggregate == "";
  }
}
