/** Who may append to an aggregate: owners fence replays, and only claims, removals and first replays move them. */
module Ownership {
  import opened Wrappers
  import opened Journal

  /** Every change of an aggregate's owner is a claim, a removal, or the first owned replay of an unowned aggregate. */
  lemma OwnershipIsStable(reg: Registry, ps: Projectors, m: Model, op: Operation, a: string)
    ensures var before := OwnerOf(m, a);
      var after := OwnerOf(Perform(reg, ps, m, op).after, a);
      after == before
      || (op.TakeOver? && op.aggregate == a && a in m.journal && after == Some(op.owner))
      || (op == Forget(a) && after == None)
      || (op.Receive? && op.serialized.aggregate == a && before == None && after == op.options.owner)
  {
  }

  /** A replay under another owner than the aggregate's leaves the whole model alone; a strict one also fails. */
  lemma FencedReplayChangesNothing(reg: Registry, ps: Projectors, m: Model, event: Serialized, options: Options)
    requires Fences(OwnerOf(m, event.aggregate), options.owner)
    ensures var r := Replay(reg, ps, m, event, options);
      r.after == m && !r.outcome.Committed? && (options.strict ==> r.outcome.Died?)
  {
    var a := event.aggregate;
    assert m.journal[a := m.journal[a]] == m.journal;
  }

  /** What a committed event was allowed by: an exact next sequence for replays, and no foreign owner. */
  lemma CommittedMeansAdmitted(reg: Registry, ps: Projectors, m: Model, def: Definition, event: Event, origin: Origin)
    requires Commit(reg, ps, m, def, event, origin).outcome.Committed?
    ensures var r := Commit(reg, ps, m, def, event, origin);
      var a := r.outcome.aggregate;
      && reg.aggregateOf(def, event.data) == Some(a) && r.outcome.sequence == |LogOf(m, a)|
      && (origin.Remote? ==>
            origin.aggregate == a && origin.sequence == |LogOf(m, a)| && !Fences(OwnerOf(m, a), origin.owner))
      && !UsesID(m.journal, event.id)
      && |LogOf(r.after, a)| == |LogOf(m, a)| + 1 && LogOf(r.after, a)[..|LogOf(m, a)|] == LogOf(m, a)
      && LogOf(r.after, a)[|LogOf(m, a)|].id == event.id
      && forall b :: b != a ==> Get(r.after.journal, b) == Get(m.journal, b)
  {
  }

  ghost function Run(reg: Registry, ps: Projectors, m: Model, ops: seq<Operation>): Model
    decreases |ops|
  {
    if ops == [] then m else Run(reg, ps, Perform(reg, ps, m, ops[0]).after, ops[1..])
  }

  predicate Disturbs(op: Operation, a: string) {
    (op.Forget? || op.TakeOver?) && op.aggregate == a
  }

  /** One operation, other than removal, only ever extends a log. */
  lemma LogsOnlyGrow(reg: Registry, ps: Projectors, m: Model, op: Operation, a: string)
    requires op != Forget(a)
    ensures LogOf(m, a) <= LogOf(Perform(reg, ps, m, op).after, a)
    ensures |LogOf(Perform(reg, ps, m, op).after, a)| <= |LogOf(m, a)| + 1
    ensures |LogOf(Perform(reg, ps, m, op).after, a)| == |LogOf(m, a)| + 1 <==>
            Perform(reg, ps, m, op).outcome == Committed(a, |LogOf(m, a)|)
  {
  }

  /** Over any run without claims or removals of `a`, its log is append-only and an owner it has stays its owner. */
  lemma {:induction false} OwnersOutliveRuns(reg: Registry, ps: Projectors, m: Model, ops: seq<Operation>, a: string)
    requires forall i :: 0 <= i < |ops| ==> !Disturbs(ops[i], a)
    ensures var last := Run(reg, ps, m, ops);
      && LogOf(m, a) <= LogOf(last, a)
      && (OwnerOf(m, a).Some? ==> OwnerOf(last, a) == OwnerOf(m, a))
    decreases |ops|
  {
    if ops == [] {
    } else {
      var next := Perform(reg, ps, m, ops[0]).after;
      OwnershipIsStable(reg, ps, m, ops[0], a);
      LogsOnlyGrow(reg, ps, m, ops[0], a);
      OwnersOutliveRuns(reg, ps, next, ops[1..], a);
    }
  }
}
