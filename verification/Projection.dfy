/** What the projected view is made of: the committed events, each applied once, in the order of their commits. */
module Projection {
  import opened Wrappers
  import opened Journal
  import opened Ownership

  /** One committed event: what the projectors were given, and which projectors and hook ran. */
  datatype Record = Record(event: Applied, versioned: string, projectors: Projectors, origin: Origin)

  /** The view after a history: every recorded event goes through its projectors and its hook once, in order. */
  ghost function Fold(base: View, history: seq<Record>): Option<View> {
    if history == [] then Some(base)
    else
      var n := |history| - 1;
      match Fold(base, history[..n])
      case None => None
      case Some(view) => Advance(history[n].projectors, history[n].origin, view, history[n].event)
  }

  lemma {:induction false} FoldConcat(base: View, left: seq<Record>, right: seq<Record>)
    ensures Fold(base, left + right) ==
            match Fold(base, left) case None => None case Some(view) => Fold(view, right)
  {
    if right == [] {
      assert left + right == left;
    } else {
      var n := |right| - 1;
      assert (left + right)[..|left| + n] == left + right[..n];
      FoldConcat(base, left, right[..n]);
    }
  }

  /** The same fold for one set of projectors throughout, and without hooks. */
  ghost function FoldEvents(ps: Projectors, base: View, events: seq<Applied>): Option<View> {
    if events == [] then Some(base)
    else
      var e := events[|events| - 1];
      match FoldEvents(ps, base, events[..|events| - 1])
      case None => None
      case Some(view) => Project(ProjectorsOf(ps, e.typ), view, e)
  }

  predicate Hookless(record: Record) {
    record.origin.Remote? || record.origin.hook.None?
  }

  function EventsOf(history: seq<Record>): (r: seq<Applied>)
    ensures |r| == |history| && forall i :: 0 <= i < |r| ==> r[i] == history[i].event
  {
    seq(|history|, i requires 0 <= i < |history| => history[i].event)
  }

  /** With fixed projectors and no hooks, the fold is that of the projectors over the events. */
  lemma {:induction false} FixedFold(ps: Projectors, base: View, history: seq<Record>)
    requires forall i :: 0 <= i < |history| ==> history[i].projectors == ps && Hookless(history[i])
    ensures Fold(base, history) == FoldEvents(ps, base, EventsOf(history))
  {
    if history != [] {
      FixedFold(ps, base, history[..|history| - 1]);
      assert EventsOf(history)[..|history| - 1] == EventsOf(history[..|history| - 1]);
    }
  }

  // ---------------------------------------------------------------- what operations record

  ghost function CommitRecords(reg: Registry, ps: Projectors, m: Model, def: Definition, event: Event, origin: Origin):
      seq<Record>
  {
    var outcome := Commit(reg, ps, m, def, event, origin).outcome;
    if outcome.Committed? then
      [Record(Applied(event.id, def.typ, event.data, outcome.aggregate, outcome.sequence), def.versioned, ps, origin)]
    else []
  }

  ghost function ReplayRecords(reg: Registry, ps: Projectors, m: Model, event: Serialized,
                               options: Options): seq<Record> {
    match reg.definition(event.typ)
    case None => []
    case Some(def) =>
      match reg.decode(def, event.data)
      case None => []
      case Some(data) =>
        CommitRecords(reg, ps, m, def, Event(event.id, data),
                      Remote(event.sequence, event.aggregate, options.owner, options.strict))
  }

  ghost function EachRecords(reg: Registry, ps: Projectors, m: Model, events: seq<Serialized>,
                             options: Options): seq<Record>
    decreases |events|
  {
    if events == [] then []
    else
      var first := Replay(reg, ps, m, events[0], options);
      ReplayRecords(reg, ps, m, events[0], options)
      + if first.outcome.Died? then [] else EachRecords(reg, ps, first.after, events[1..], options)
  }

  ghost function BatchRecords(reg: Registry, ps: Projectors, m: Model, events: seq<Serialized>,
                              options: Options): seq<Record> {
    if events == [] || events[0].aggregate == "" || !SameAggregate(events) || !Contiguous(events) then []
    else EachRecords(reg, ps, m, events, options)
  }

  ghost function PerformRecords(reg: Registry, ps: Projectors, m: Model, op: Operation): seq<Record> {
    match op
    case Publish(def, event, hook) => CommitRecords(reg, ps, m, def, event, Local(hook))
    case Receive(event, options) => ReplayRecords(reg, ps, m, event, options)
    case Forget(_) => []
    case TakeOver(_, _) => []
  }

  ghost function RunRecords(reg: Registry, ps: Projectors, m: Model, ops: seq<Operation>): seq<Record>
    decreases |ops|
  {
    if ops == [] then []
    else PerformRecords(reg, ps, m, ops[0]) + RunRecords(reg, ps, Perform(reg, ps, m, ops[0]).after, ops[1..])
  }

  // ---------------------------------------------------------------- the view

  lemma CommitProjects(reg: Registry, ps: Projectors, m: Model, def: Definition, event: Event, origin: Origin)
    ensures Fold(m.view, CommitRecords(reg, ps, m, def, event, origin)) ==
            Some(Commit(reg, ps, m, def, event, origin).after.view)
  {
    var records := CommitRecords(reg, ps, m, def, event, origin);
    if records != [] { assert records[..0] == []; }
  }

  /** One operation puts what it commits through the projectors once; anything else leaves the view alone. */
  lemma PerformProjects(reg: Registry, ps: Projectors, m: Model, op: Operation)
    ensures var step := Perform(reg, ps, m, op);
            var records := PerformRecords(reg, ps, m, op);
            && Fold(m.view, records) == Some(step.after.view)
            && (records != [] <==> step.outcome.Committed?)
            && (!step.outcome.Committed? ==> step.after.view == m.view)
            && (forall i :: 0 <= i < |records| ==> records[i].projectors == ps)
  {
    match op
    case Publish(def, event, hook) => CommitProjects(reg, ps, m, def, event, Local(hook));
    case Receive(e, o) =>
      if reg.definition(e.typ).Some? && reg.decode(reg.definition(e.typ).value, e.data).Some? {
        var def := reg.definition(e.typ).value;
        CommitProjects(reg, ps, m, def, Event(e.id, reg.decode(def, e.data).value),
                       Remote(e.sequence, e.aggregate, o.owner, o.strict));
      }
    case _ =>
  }

  predicate NoHooks(ops: seq<Operation>) {
    forall i :: 0 <= i < |ops| ==> ops[i].Publish? ==> ops[i].hook.None?
  }

  lemma {:induction false} RunFolds(reg: Registry, ps: Projectors, m: Model, ops: seq<Operation>)
    ensures Fold(m.view, RunRecords(reg, ps, m, ops)) == Some(Run(reg, ps, m, ops).view)
    ensures forall r :: r in RunRecords(reg, ps, m, ops) ==> r.projectors == ps && (NoHooks(ops) ==> Hookless(r))
    decreases |ops|
  {
    if ops != [] {
      var next := Perform(reg, ps, m, ops[0]).after;
      PerformProjects(reg, ps, m, ops[0]);
      RunFolds(reg, ps, next, ops[1..]);
      FoldConcat(m.view, PerformRecords(reg, ps, m, ops[0]), RunRecords(reg, ps, next, ops[1..]));
    }
  }

  // ---------------------------------------------------------------- the records and the logs

  /** The log entry that a record stands for. */
  ghost function EntryOf(reg: Registry, record: Record): Option<Entry> {
    match reg.encode(Definition(record.event.typ, record.versioned), record.event.data)
    case None => None
    case Some(data) => Some(Entry(record.event.id, record.versioned, data))
  }

  /** The records of one aggregate. */
  function Of(records: seq<Record>, a: string): seq<Record> {
    if records == [] then []
    else
      var last := records[|records| - 1];
      Of(records[..|records| - 1], a) + if last.event.aggregate == a then [last] else []
  }

  lemma {:induction false} OfConcat(left: seq<Record>, right: seq<Record>, a: string)
    ensures Of(left + right, a) == Of(left, a) + Of(right, a)
  {
    if right == [] {
      assert left + right == left;
    } else {
      assert (left + right)[..|left + right| - 1] == left + right[..|right| - 1];
      OfConcat(left, right[..|right| - 1], a);
    }
  }

  /** The records from a sequence on are the entries of a log from there on, one record each, in order. */
  ghost predicate Records(reg: Registry, log: seq<Entry>, from: nat, records: seq<Record>) {
    && |log| == from + |records|
    && (forall i :: 0 <= i < |records| ==> records[i].event.sequence == from + i)
    && (forall i :: 0 <= i < |records| ==> EntryOf(reg, records[i]) == Some(log[from + i]))
  }

  /** What a commit leaves of the logs. */
  lemma CommitLogs(reg: Registry, ps: Projectors, m: Model, def: Definition, event: Event, origin: Origin, a: string)
    ensures var r := Commit(reg, ps, m, def, event, origin);
            if r.outcome.Committed? && r.outcome.aggregate == a then
              && r.outcome.sequence == |LogOf(m, a)| && reg.encode(def, event.data).Some?
              && LogOf(r.after, a) == LogOf(m, a) + [Entry(event.id, def.versioned, reg.encode(def, event.data).value)]
            else LogOf(r.after, a) == LogOf(m, a)
  {
  }

  lemma CommitExtends(reg: Registry, ps: Projectors, m: Model, def: Definition, event: Event, origin: Origin, a: string)
    ensures var log, longer := LogOf(m, a), LogOf(Commit(reg, ps, m, def, event, origin).after, a);
            log <= longer && Records(reg, longer, |log|, Of(CommitRecords(reg, ps, m, def, event, origin), a))
  {
    CommitLogs(reg, ps, m, def, event, origin, a);
    hide Commit, LogOf;
    var records := CommitRecords(reg, ps, m, def, event, origin);
    assert Definition(def.typ, def.versioned) == def;
    if records != [] {
      assert records[..0] == [];
      assert Of(records, a) == if records[0].event.aggregate == a then [records[0]] else [];
    }
  }

  lemma PerformExtends(reg: Registry, ps: Projectors, m: Model, op: Operation, a: string)
    requires op != Forget(a)
    ensures var log, longer := LogOf(m, a), LogOf(Perform(reg, ps, m, op).after, a);
            log <= longer && Records(reg, longer, |log|, Of(PerformRecords(reg, ps, m, op), a))
  {
    match op
    case Publish(def, event, hook) => CommitExtends(reg, ps, m, def, event, Local(hook), a);
    case Receive(e, o) =>
      if reg.definition(e.typ).Some? && reg.decode(reg.definition(e.typ).value, e.data).Some? {
        var def := reg.definition(e.typ).value;
        CommitExtends(reg, ps, m, def, Event(e.id, reg.decode(def, e.data).value),
                      Remote(e.sequence, e.aggregate, o.owner, o.strict), a);
      }
    case _ =>
  }

  lemma RecordsJoin(reg: Registry, middle: seq<Entry>, log: seq<Entry>, from: nat, left: seq<Record>,
                    right: seq<Record>)
    requires Records(reg, middle, from, left) && Records(reg, log, |middle|, right) && middle <= log
    ensures Records(reg, log, from, left + right)
  {
  }

  lemma {:induction false} RunExtends(reg: Registry, ps: Projectors, m: Model, ops: seq<Operation>, a: string)
    requires Forget(a) !in ops
    ensures var log, longer := LogOf(m, a), LogOf(Run(reg, ps, m, ops), a);
            log <= longer && Records(reg, longer, |log|, Of(RunRecords(reg, ps, m, ops), a))
    decreases |ops|
  {
    hide Perform, PerformRecords, Records;
    if ops == [] {
      assert Records(reg, LogOf(m, a), |LogOf(m, a)|, []) by { NothingRecorded(reg, LogOf(m, a)); }
    } else {
      var next := Perform(reg, ps, m, ops[0]).after;
      var first, rest := PerformRecords(reg, ps, m, ops[0]), RunRecords(reg, ps, next, ops[1..]);
      PerformExtends(reg, ps, m, ops[0], a);
      RunExtends(reg, ps, next, ops[1..], a);
      OfConcat(first, rest, a);
      RecordsJoin(reg, LogOf(next, a), LogOf(Run(reg, ps, m, ops), a), |LogOf(m, a)|, Of(first, a), Of(rest, a));
    }
  }

  lemma NothingRecorded(reg: Registry, log: seq<Entry>)
    ensures Records(reg, log, |log|, [])
  {
  }

  // ---------------------------------------------------------------- the theorem

  /**
   * With fixed projectors, from an empty journal and over any run: the view is the fold of the projectors (and of the
   * hooks, where commits have them) over the committed events in the order of their commits. The events of every
   * aggregate that is never removed are exactly its log, each once, at its sequence. Nothing else reaches the view.
   */
  lemma ViewIsFold(reg: Registry, ps: Projectors, view: View, ops: seq<Operation>, a: string)
    ensures var records := RunRecords(reg, ps, Model(map[], view), ops);
            var last := Run(reg, ps, Model(map[], view), ops);
            && Fold(view, records) == Some(last.view)
            && (forall r :: r in records ==> r.projectors == ps)
            && (NoHooks(ops) ==> FoldEvents(ps, view, EventsOf(records)) == Some(last.view))
            && (Forget(a) !in ops ==> Records(reg, LogOf(last, a), 0, Of(records, a)))
  {
    var m := Model(map[], view);
    RunFolds(reg, ps, m, ops);
    if NoHooks(ops) { FixedFold(ps, view, RunRecords(reg, ps, m, ops)); }
    if Forget(a) !in ops { RunExtends(reg, ps, m, ops, a); }
  }

  // ---------------------------------------------------------------- registering projectors

  lemma {:induction false} ProjectConcat(left: seq<Projector>, right: seq<Projector>, view: View, e: Applied)
    ensures Project(left + right, view, e) ==
            match Project(left, view, e) case None => None case Some(next) => Project(right, next, e)
  {
    if left == [] {
      assert left + right == right;
    } else if left[0](view, e).Some? {
      assert (left + right)[1..] == left[1..] + right;
      ProjectConcat(left[1..], right, left[0](view, e).value, e);
    }
  }

  function Register(ps: Projectors, typ: string, projector: Projector): Projectors {
    ps[typ := ProjectorsOf(ps, typ) + [projector]]
  }

  /**
   * A registered projector runs last on the events of its type, on what the earlier ones made; other types do not see
   * it.
   */
  lemma RegisteredRunsLast(ps: Projectors, typ: string, projector: Projector, view: View, e: Applied)
    ensures var before := Project(ProjectorsOf(ps, e.typ), view, e);
            Project(ProjectorsOf(Register(ps, typ, projector), e.typ), view, e) ==
            if e.typ == typ && before.Some? then projector(before.value, e) else before
  {
    if e.typ == typ {
      ProjectConcat(ProjectorsOf(ps, typ), [projector], view, e);
      var before := Project(ProjectorsOf(ps, typ), view, e);
      if before.Some? { assert [projector][1..] == []; }
    }
  }
}
