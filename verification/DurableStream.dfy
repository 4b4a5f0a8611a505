/**
 * The durable stream of one aggregate: a catch-up read followed by reads that a lossy wake signal triggers.
 * Commits, wakes (one sliding slot per subscriber), the reader's query, its cursor update and its deliveries
 * are separate steps and interleave freely.
 */
module DurableStream {
  import opened Wrappers
  import opened Journal
  import opened Ownership

  datatype Item = Item(sequence: int, entry: Entry)

  /** The events of a log after a cursor: what `readAfter` selects, in sequence order. */
  function ItemsAfter(log: seq<Entry>, after: int): (r: seq<Item>)
    ensures |r| == if after + 1 >= |log| then 0 else |log| - Max(0, after + 1)
    ensures forall i :: 0 <= i < |r| ==> r[i] == Item(Max(0, after + 1) + i, log[Max(0, after + 1) + i])
  {
    var from := Max(0, after + 1);
    if from >= |log| then []
    else seq(|log| - from, i requires 0 <= i < |log| - from => Item(from + i, log[from + i]))
  }

  function LastSequence(items: seq<Item>, cursor: int): int {
    if items == [] then cursor else items[|items| - 1].sequence
  }

  predicate Decodes(reg: Registry, entry: Entry) {
    reg.definition(entry.typ).Some? && reg.decode(reg.definition(entry.typ).value, entry.data).Some?
  }

  // ---------------------------------------------------------------- the system

  datatype Phase =
    | Subscribing                 // the wake is not registered yet
    | Reading                     // a read has been triggered, its query has not run
    | Fetched(items: seq<Item>)   // the query has run, the cursor has not moved
    | Idle                        // waiting for a wake
    | Dead                        // a stored row did not decode

  /** `seen` is the length the log had at the last query; it is only there to be reasoned about. */
  datatype Reader = Reader(phase: Phase, wake: bool, cursor: int, queue: seq<Item>, delivered: seq<Item>, seen: nat)

  /** `unwoken` counts the committers that have left their transaction but not yet published their wakes. */
  datatype System = System(model: Model, unwoken: multiset<string>, reader: Reader)

  datatype Event =
    | Transact(op: Operation)
    | Wake(aggregate: string)
    | Subscribe | Query | MoveCursor | TakeWake | Deliver

  ghost predicate Next(reg: Registry, ps: Projectors, target: string, s: System, e: Event, s': System) {
    var r := s.reader;
    match e
    case Transact(op) =>
      var step := Perform(reg, ps, s.model, op);
      s' == s.(model := step.after,
               unwoken := if step.outcome.Committed? then s.unwoken + multiset{step.outcome.aggregate} else s.unwoken)
    case Wake(a) =>
      && a in s.unwoken
      && s' == s.(unwoken := s.unwoken - multiset{a},
                  reader := if a == target && !r.phase.Subscribing? then r.(wake := true) else r)
    case Subscribe => r.phase.Subscribing? && s' == s.(reader := r.(phase := Reading))
    case Query =>
      var log := LogOf(s.model, target);
      var items := ItemsAfter(log, r.cursor);
      && r.phase.Reading?
      && s' == s.(reader := r.(seen := |log|, phase :=
                if forall i :: 0 <= i < |items| ==> Decodes(reg, items[i].entry) then Fetched(items) else Dead))
    case MoveCursor =>
      && r.phase.Fetched?
      && s' == s.(reader := r.(phase := Idle, queue := r.queue + r.phase.items,
           cursor := LastSequence(r.phase.items, r.cursor)))
    case TakeWake => r.phase.Idle? && r.wake && s' == s.(reader := r.(phase := Reading, wake := false))
    case Deliver =>
      && r.queue != []
      && s' == s.(reader := r.(queue := r.queue[1..], delivered := r.delivered + [r.queue[0]]))
  }

  ghost predicate Start(s: System, after: int) {
    s.reader == Reader(Subscribing, false, after, [], [], 0)
  }

  /** Any run: states and the events between them. */
  ghost predicate Steps(reg: Registry, ps: Projectors, target: string, states: seq<System>, events: seq<Event>) {
    && |states| == |events| + 1
    && (forall i :: 0 <= i < |events| ==> Next(reg, ps, target, states[i], events[i], states[i + 1]))
  }

  /** A run: states and the events between them, none of which removes the aggregate being read. */
  ghost predicate Runs(reg: Registry, ps: Projectors, target: string, states: seq<System>, events: seq<Event>) {
    && Steps(reg, ps, target, states, events)
    && (forall i :: 0 <= i < |events| ==> events[i] != Transact(Forget(target)))
  }

  // ---------------------------------------------------------------- invariant

  /** The entries of a log between a starting cursor and a length it had. */
  function Window(log: seq<Entry>, after: int, length: nat): seq<Item>
    requires length <= |log|
  {
    ItemsAfter(log[..length], after)
  }

  /**
   * What has been handed over or queued ends where the cursor stands. `before` was handed over or queued before the
   * reader stood at `after`: nothing at the start, what a removed log left behind later.
   */
  ghost predicate Inv(target: string, after: int, before: seq<Item>, s: System) {
    var log := LogOf(s.model, target);
    var r := s.reader;
    && after <= r.cursor && (r.cursor == after || 0 <= r.cursor < r.seen) && r.seen <= |log|
    && r.delivered + r.queue == before + (if r.cursor == after then [] else Window(log, after, r.cursor + 1))
    && (r.phase.Subscribing? ==> r.cursor == after && r.seen == 0 && !r.wake)
    && (r.phase.Fetched? ==> r.phase.items == Window(log, r.cursor, r.seen))
    && (r.phase.Idle? ==> r.cursor == if r.seen == 0 || r.seen - 1 <= after then after else r.seen - 1)
    && ((r.phase.Fetched? || r.phase.Idle?) && r.seen < |log| ==> r.wake || target in s.unwoken)
  }

  /** Two consecutive windows make one. */
  lemma WindowsJoin(log: seq<Entry>, after: int, cursor: int, length: nat)
    requires after <= cursor && (cursor == after || 0 <= cursor < length) && length <= |log|
    ensures (if cursor == after then [] else Window(log, after, cursor + 1)) + Window(log, cursor, length)
            == Window(log, after, length)
  {
    var left := if cursor == after then [] else Window(log, after, cursor + 1);
    assert |left + Window(log, cursor, length)| == |Window(log, after, length)|;
  }

  /** The cursor after a read stands at the last event of the window, or stays where it was. */
  lemma WindowEnd(log: seq<Entry>, cursor: int, length: nat)
    requires length <= |log|
    ensures LastSequence(Window(log, cursor, length), cursor)
            == if length == 0 || length - 1 <= cursor then cursor else length - 1
    ensures length == 0 || length - 1 <= cursor ==> Window(log, cursor, length) == []
  {
  }

  /** A window of a log is unaffected by later appends. */
  lemma WindowIsStable(log: seq<Entry>, longer: seq<Entry>, after: int, length: nat)
    requires log <= longer && length <= |log|
    ensures Window(log, after, length) == Window(longer, after, length)
  {
    assert log[..length] == longer[..length];
  }

  lemma TransactKeepsInv(reg: Registry, ps: Projectors, target: string, after: int, before: seq<Item>, s: System,
                         op: Operation, s': System)
    requires Inv(target, after, before, s) && Next(reg, ps, target, s, Transact(op), s') && op != Forget(target)
    ensures Inv(target, after, before, s')
  {
    hide Perform;
    LogsOnlyGrow(reg, ps, s.model, op, target);
    var log, longer := LogOf(s.model, target), LogOf(s'.model, target);
    var r := s.reader;
    if r.cursor != after { WindowIsStable(log, longer, after, r.cursor + 1); }
    WindowIsStable(log, longer, r.cursor, r.seen);
  }

  lemma QueryKeepsInv(reg: Registry, ps: Projectors, target: string, after: int, before: seq<Item>, s: System,
                      s': System)
    requires Inv(target, after, before, s) && Next(reg, ps, target, s, Query, s')
    ensures Inv(target, after, before, s')
  {
    hide Perform;
    var log := LogOf(s.model, target);
    assert log[..|log|] == log;
  }

  lemma MoveKeepsInv(reg: Registry, ps: Projectors, target: string, after: int, before: seq<Item>, s: System,
                     s': System)
    requires Inv(target, after, before, s) && Next(reg, ps, target, s, MoveCursor, s')
    ensures Inv(target, after, before, s')
  {
    hide Perform, Window, LastSequence;
    var log := LogOf(s.model, target);
    var r := s.reader;
    WindowsJoin(log, after, r.cursor, r.seen);
    WindowEnd(log, r.cursor, r.seen);
    if r.cursor != after { WindowEnd(log, after, r.cursor + 1); }
    Regroup(r.delivered, r.queue, r.phase.items, before,
            if r.cursor == after then [] else Window(log, after, r.cursor + 1), Window(log, after, r.seen));
  }

  lemma Regroup(delivered: seq<Item>, queue: seq<Item>, items: seq<Item>, before: seq<Item>, done: seq<Item>,
                all: seq<Item>)
    requires delivered + queue == before + done && done + items == all
    ensures delivered + (queue + items) == before + all
  {
    assert delivered + (queue + items) == (delivered + queue) + items;
    assert (before + done) + items == before + (done + items);
  }

  lemma DeliverKeepsInv(reg: Registry, ps: Projectors, target: string, after: int, before: seq<Item>, s: System,
                        s': System)
    requires Inv(target, after, before, s) && Next(reg, ps, target, s, Deliver, s')
    ensures Inv(target, after, before, s')
  {
    hide Perform, Window;
    var r := s.reader;
    assert (r.delivered + [r.queue[0]]) + r.queue[1..] == r.delivered + r.queue;
  }

  lemma NextKeepsInv(reg: Registry, ps: Projectors, target: string, after: int, before: seq<Item>, s: System,
                     e: Event, s': System)
    requires Inv(target, after, before, s) && Next(reg, ps, target, s, e, s') && e != Transact(Forget(target))
    ensures Inv(target, after, before, s')
  {
    hide Perform, Window;
    match e
    case Transact(op) => TransactKeepsInv(reg, ps, target, after, before, s, op, s');
    case Query => QueryKeepsInv(reg, ps, target, after, before, s, s');
    case MoveCursor => MoveKeepsInv(reg, ps, target, after, before, s, s');
    case Deliver => DeliverKeepsInv(reg, ps, target, after, before, s, s');
    case _ =>
  }

  lemma StartHasInv(target: string, after: int, s: System)
    requires Start(s, after)
    ensures Inv(target, after, [], s)
  {
  }

  // ---------------------------------------------------------------- removal of the aggregate being read

  /** Where the reader stands, counting a fetched batch whose cursor update is still to come. */
  function Reached(r: Reader): int {
    if r.phase.Fetched? then LastSequence(r.phase.items, r.cursor) else r.cursor
  }

  /** What the reader has handed over, has queued, or has fetched. */
  function Held(r: Reader): seq<Item> {
    r.delivered + r.queue + if r.phase.Fetched? then r.phase.items else []
  }

  /** After a removal and until the next query: the reader keeps its position and what it holds of the old log. */
  ghost predicate Adrift(target: string, after: int, before: seq<Item>, s: System) {
    var r := s.reader;
    && Reached(r) == after && Held(r) == before
    && (r.phase.Subscribing? ==> !r.wake)
    && ((r.phase.Fetched? || r.phase.Idle?) && LogOf(s.model, target) != [] ==> r.wake || target in s.unwoken)
  }

  ghost predicate Tracked(target: string, after: int, before: seq<Item>, s: System) {
    Inv(target, after, before, s) || Adrift(target, after, before, s)
  }

  lemma ForgetSetsAdrift(reg: Registry, ps: Projectors, target: string, s: System, s': System)
    requires Next(reg, ps, target, s, Transact(Forget(target)), s') && (s.reader.phase.Subscribing? ==> !s.reader.wake)
    ensures Adrift(target, Reached(s.reader), Held(s.reader), s')
  {
  }

  lemma TransactKeepsAdrift(reg: Registry, ps: Projectors, target: string, after: int, before: seq<Item>, s: System,
                            op: Operation, s': System)
    requires Adrift(target, after, before, s) && Next(reg, ps, target, s, Transact(op), s') && op != Forget(target)
    ensures Adrift(target, after, before, s')
  {
    hide Perform;
    LogsOnlyGrow(reg, ps, s.model, op, target);
  }

  lemma QueryEndsAdrift(reg: Registry, ps: Projectors, target: string, after: int, before: seq<Item>, s: System,
                        s': System)
    requires Adrift(target, after, before, s) && Next(reg, ps, target, s, Query, s')
    ensures Inv(target, after, before, s')
  {
    hide Perform;
    var log := LogOf(s.model, target);
    assert log[..|log|] == log;
    assert s.reader.delivered + s.reader.queue == before;
    assert before + [] == before;
  }

  /** Every step but a query keeps the reader adrift; a query takes it up again from where it stands. */
  lemma NextKeepsTracked(reg: Registry, ps: Projectors, target: string, after: int, before: seq<Item>, s: System,
                         e: Event, s': System)
    requires Tracked(target, after, before, s) && Next(reg, ps, target, s, e, s') && e != Transact(Forget(target))
    ensures Tracked(target, after, before, s')
  {
    hide Perform, Window, Inv;
    if Inv(target, after, before, s) {
      NextKeepsInv(reg, ps, target, after, before, s, e, s');
    } else {
      match e
      case Transact(op) => TransactKeepsAdrift(reg, ps, target, after, before, s, op, s');
      case Query => QueryEndsAdrift(reg, ps, target, after, before, s, s');
      case MoveCursor =>
        assert s'.reader.delivered + s'.reader.queue == before by { DeliveriesMove(s.reader); }
      case Deliver => DeliveriesShift(s.reader);
      case _ =>
    }
  }

  lemma DeliveriesMove(r: Reader)
    requires r.phase.Fetched?
    ensures r.delivered + (r.queue + r.phase.items) == Held(r)
    ensures r.delivered + (r.queue + r.phase.items) + [] == Held(r)
  {
  }

  lemma DeliveriesShift(r: Reader)
    requires r.queue != []
    ensures Held(r.(queue := r.queue[1..], delivered := r.delivered + [r.queue[0]])) == Held(r)
  {
    assert (r.delivered + [r.queue[0]]) + r.queue[1..] == r.delivered + r.queue;
  }

  /** The position and the holdings that the reader brought from the last removal, or from its start. */
  ghost function Base(target: string, after: int, states: seq<System>, events: seq<Event>, i: nat): (int, seq<Item>)
    requires |states| == |events| + 1 && i < |states|
  {
    if i == 0 then (after, [])
    else if events[i - 1] == Transact(Forget(target)) then (Reached(states[i - 1].reader), Held(states[i - 1].reader))
    else Base(target, after, states, events, i - 1)
  }

  lemma TrackedNotWoken(target: string, after: int, before: seq<Item>, s: System)
    requires Tracked(target, after, before, s) && s.reader.phase.Subscribing?
    ensures !s.reader.wake
  {
  }

  lemma {:induction false} TrackedHolds(reg: Registry, ps: Projectors, target: string, after: int, states: seq<System>,
                                        events: seq<Event>, i: nat)
    requires Steps(reg, ps, target, states, events) && Start(states[0], after) && i < |states|
    ensures var base := Base(target, after, states, events, i); Tracked(target, base.0, base.1, states[i])
  {
    hide Next, Inv, Adrift, Start, Reached, Held;
    if i == 0 {
      StartHasInv(target, after, states[0]);
    } else {
      TrackedHolds(reg, ps, target, after, states, events, i - 1);
      var base := Base(target, after, states, events, i - 1);
      if events[i - 1] == Transact(Forget(target)) {
        if states[i - 1].reader.phase.Subscribing? { TrackedNotWoken(target, base.0, base.1, states[i - 1]); }
        ForgetSetsAdrift(reg, ps, target, states[i - 1], states[i]);
      } else {
        NextKeepsTracked(reg, ps, target, base.0, base.1, states[i - 1], events[i - 1], states[i]);
      }
    }
  }

  // ---------------------------------------------------------------- theorems

  /** Nothing is under way: no wake is pending, no committer is between its commit and its wake, nothing is queued. */
  ghost predicate Quiet(target: string, s: System) {
    s.reader.phase.Idle? && !s.reader.wake && s.reader.queue == [] && target !in s.unwoken
  }

  lemma DeliveredSoFar(target: string, after: int, before: seq<Item>, s: System)
    requires Inv(target, after, before, s)
    ensures var all := before + ItemsAfter(LogOf(s.model, target), after);
      && s.reader.delivered <= all
      && (Quiet(target, s) ==> s.reader.delivered == all)
  {
    var log := LogOf(s.model, target);
    var r := s.reader;
    var done := if r.cursor == after then [] else Window(log, after, r.cursor + 1);
    DoneSoFar(log, after, before, r.cursor);
    assert r.delivered + r.queue == before + done;
    if Quiet(target, s) {
      assert r.delivered + r.queue == r.delivered;
      WindowEnd(log, r.cursor, |log|);
      assert r.delivered == before + ItemsAfter(log, after);
    }
    hide Window, ItemsAfter, Inv, Quiet;
    assert r.delivered <= r.delivered + r.queue;
  }

  lemma DoneSoFar(log: seq<Entry>, after: int, before: seq<Item>, cursor: int)
    requires after <= cursor && (cursor == after || 0 <= cursor < |log|)
    ensures var done := if cursor == after then [] else Window(log, after, cursor + 1);
            && before + done <= before + ItemsAfter(log, after)
            && (Window(log, cursor, |log|) == [] ==> done == ItemsAfter(log, after))
  {
    assert log[..|log|] == log;
    WindowsJoin(log, after, cursor, |log|);
  }

  lemma DeliveredAdrift(target: string, after: int, before: seq<Item>, s: System)
    requires Adrift(target, after, before, s)
    ensures s.reader.delivered <= before
    ensures Quiet(target, s) ==> s.reader.delivered == before && LogOf(s.model, target) == []
  {
    if Quiet(target, s) { assert s.reader.delivered + [] + [] == s.reader.delivered; }
  }

  lemma DeliveredWhenQuiet(target: string, after: int, before: seq<Item>, s: System)
    requires Tracked(target, after, before, s) && Quiet(target, s)
    ensures s.reader.delivered == before + ItemsAfter(LogOf(s.model, target), after)
  {
    hide Inv, Adrift, Quiet;
    if Inv(target, after, before, s) {
      DeliveredSoFar(target, after, before, s);
    } else {
      DeliveredAdrift(target, after, before, s);
      assert before + [] == before;
    }
  }

  /**
   * In every reachable state of a run without a removal the deliveries are a prefix of the events after the given
   * cursor: each at most once, in sequence order, without a gap. In every quiet one they are all of them.
   */
  lemma StreamIsExact(reg: Registry, ps: Projectors, target: string, after: int, states: seq<System>,
                      events: seq<Event>, i: nat)
    requires Runs(reg, ps, target, states, events) && Start(states[0], after) && i < |states|
    ensures var all := ItemsAfter(LogOf(states[i].model, target), after);
      && states[i].reader.delivered <= all
      && (Quiet(target, states[i]) ==> states[i].reader.delivered == all)
  {
    hide Next, Inv, Start, Quiet;
    InvHolds(reg, ps, target, after, states, events, i);
    DeliveredSoFar(target, after, [], states[i]);
    assert [] + ItemsAfter(LogOf(states[i].model, target), after) == ItemsAfter(LogOf(states[i].model, target), after);
  }

  lemma {:induction false} InvHolds(reg: Registry, ps: Projectors, target: string, after: int, states: seq<System>,
                                    events: seq<Event>, i: nat)
    requires Runs(reg, ps, target, states, events) && Start(states[0], after) && i < |states|
    ensures Inv(target, after, [], states[i])
  {
    hide Next, Inv, Start;
    if i == 0 {
      StartHasInv(target, after, states[0]);
    } else {
      InvHolds(reg, ps, target, after, states, events, i - 1);
      NextKeepsInv(reg, ps, target, after, [], states[i - 1], events[i - 1], states[i]);
    }
  }

  /**
   * With removals, for every run: the deliveries are what the reader held when the aggregate was last removed, and
   * then a prefix of the events of the new log after the position it had reached in the old one; all of them in every
   * quiet state. Batches fetched before a removal and moved after it are counted with the old log.
   */
  lemma StreamAcrossRemovals(reg: Registry, ps: Projectors, target: string, after: int, states: seq<System>,
                             events: seq<Event>, i: nat)
    requires Steps(reg, ps, target, states, events) && Start(states[0], after) && i < |states|
    ensures var base := Base(target, after, states, events, i);
      var all := base.1 + ItemsAfter(LogOf(states[i].model, target), base.0);
      && states[i].reader.delivered <= all
      && (Quiet(target, states[i]) ==> states[i].reader.delivered == all)
  {
    hide Next, Inv, Adrift, Start, Base;
    TrackedHolds(reg, ps, target, after, states, events, i);
    var base := Base(target, after, states, events, i);
    if Inv(target, base.0, base.1, states[i]) {
      DeliveredSoFar(target, base.0, base.1, states[i]);
    } else {
      DeliveredAdrift(target, base.0, base.1, states[i]);
    }
  }

  /** A reader never moves back, and a position it has reached is that of an event. */
  lemma {:induction false} ReachedOnward(reg: Registry, ps: Projectors, target: string, after: int, states: seq<System>,
                                         events: seq<Event>, i: nat)
    requires Steps(reg, ps, target, states, events) && Start(states[0], after) && i < |states|
    ensures var base := Base(target, after, states, events, i).0;
            after <= base <= Reached(states[i].reader) && (base == after || 0 <= base)
  {
    hide Next, Inv, Adrift, Tracked, Reached, Held, Start;
    TrackedHolds(reg, ps, target, after, states, events, i);
    var base := Base(target, after, states, events, i);
    TrackedReached(target, base.0, base.1, states[i]);
    if i > 0 {
      ReachedOnward(reg, ps, target, after, states, events, i - 1);
      var earlier := Base(target, after, states, events, i - 1);
      TrackedHolds(reg, ps, target, after, states, events, i - 1);
      TrackedReached(target, earlier.0, earlier.1, states[i - 1]);
    }
  }

  lemma TrackedReached(target: string, after: int, before: seq<Item>, s: System)
    requires Tracked(target, after, before, s)
    ensures after <= Reached(s.reader) && (Reached(s.reader) == after || 0 <= Reached(s.reader))
  {
    if Inv(target, after, before, s) && s.reader.phase.Fetched? {
      WindowEnd(LogOf(s.model, target), s.reader.cursor, s.reader.seen);
    }
  }

  /**
   * So, once the stream is quiet after a removal, the events of the new log have all been delivered exactly when the
   * reader had not moved past its starting cursor, or the new log has nothing beyond that cursor.
   */
  lemma RemovalLosesExactly(reg: Registry, ps: Projectors, target: string, after: int, states: seq<System>,
                            events: seq<Event>, i: nat)
    requires Steps(reg, ps, target, states, events) && Start(states[0], after) && i < |states| &&
               Quiet(target, states[i])
    ensures var base := Base(target, after, states, events, i);
      var log := LogOf(states[i].model, target);
      states[i].reader.delivered == base.1 + ItemsAfter(log, after)
      <==> base.0 == after || |log| <= Max(0, after + 1)
  {
    StreamAcrossRemovals(reg, ps, target, after, states, events, i);
    ReachedOnward(reg, ps, target, after, states, events, i);
    var base := Base(target, after, states, events, i);
    var log := LogOf(states[i].model, target);
    hide Steps, Start, Quiet, Base;
    SuffixesDiffer(log, after, base.0);
    if states[i].reader.delivered == base.1 + ItemsAfter(log, after) {
      assert |ItemsAfter(log, after)| == |ItemsAfter(log, base.0)|;
    }
  }

  lemma SuffixesDiffer(log: seq<Entry>, after: int, cursor: int)
    requires after <= cursor && (cursor == after || 0 <= cursor)
    ensures cursor == after || |log| <= Max(0, after + 1) ==> ItemsAfter(log, cursor) == ItemsAfter(log, after)
    ensures cursor != after && |log| > Max(0, after + 1) ==> |ItemsAfter(log, cursor)| < |ItemsAfter(log, after)|
  {
  }

  // ---------------------------------------------------------------- progress

  predicate Internal(e: Event) {
    !e.Transact?
  }

  /** What is left to do for a reader in a phase, where a read gives at most `length` events. */
  ghost function PhaseWork(p: Phase, length: nat): nat {
    match p
    case Subscribing => length + 3
    case Reading => length + 2
    case Fetched(items) => |items| + 1
    case Idle => 0
    case Dead => 0
  }

  /** A bound on what the system can do by itself: every wake may cost one more read of the whole log. */
  ghost function Remaining(target: string, s: System): nat {
    var length := |LogOf(s.model, target)|;
    |s.unwoken| * (length + 4) + (if s.reader.wake then length + 3 else 0)
    + PhaseWork(s.reader.phase, length) + |s.reader.queue|
  }

  ghost predicate AllDecode(reg: Registry, target: string, s: System) {
    forall i :: 0 <= i < |LogOf(s.model, target)| ==> Decodes(reg, LogOf(s.model, target)[i])
  }

  /** Every step that is not a commit uses up some of what remains, and only a row that does not decode kills. */
  lemma InternalShrinks(reg: Registry, ps: Projectors, target: string, s: System, e: Event, s': System)
    requires Next(reg, ps, target, s, e, s') && Internal(e)
    ensures s'.model == s.model && Remaining(target, s') < Remaining(target, s)
    ensures AllDecode(reg, target, s) && !s.reader.phase.Dead? ==> !s'.reader.phase.Dead?
  {
    hide Perform;
    match e {
      case Wake(a) => OneFewer(|s.unwoken|, |LogOf(s.model, target)| + 4);
      case _ =>
    }
  }

  lemma OneFewer(n: nat, cost: nat)
    requires n > 0
    ensures (n - 1) * cost == n * cost - cost
  {
  }

  /** Nothing can happen but commits. */
  ghost predicate AtRest(reg: Registry, ps: Projectors, target: string, s: System) {
    forall e, s' :: Internal(e) ==> !Next(reg, ps, target, s, e, s')
  }

  /** As long as the stream is alive and not quiet, it has a step of its own to take. */
  lemma RestIsQuiet(reg: Registry, ps: Projectors, target: string, s: System)
    requires AtRest(reg, ps, target, s) && !s.reader.phase.Dead?
    ensures Quiet(target, s) && s.unwoken == multiset{}
  {
    if s.unwoken != multiset{} {
      var a :| a in s.unwoken;
      Possible(reg, ps, target, s, Wake(a));
    }
    match s.reader.phase
    case Subscribing => Possible(reg, ps, target, s, Event.Subscribe);
    case Reading => Possible(reg, ps, target, s, Query);
    case Fetched(_) => Possible(reg, ps, target, s, MoveCursor);
    case _ =>
      if s.reader.wake { Possible(reg, ps, target, s, TakeWake); }
      if s.reader.queue != [] { Possible(reg, ps, target, s, Deliver); }
  }

  lemma Possible(reg: Registry, ps: Projectors, target: string, s: System, e: Event)
    requires match e
             case Transact(_) => false
             case Wake(a) => a in s.unwoken
             case Subscribe => s.reader.phase.Subscribing?
             case Query => s.reader.phase.Reading?
             case MoveCursor => s.reader.phase.Fetched?
             case TakeWake => s.reader.phase.Idle? && s.reader.wake
             case Deliver => s.reader.queue != []
    ensures exists s' :: Next(reg, ps, target, s, e, s')
    ensures !AtRest(reg, ps, target, s)
  {
    var r := s.reader;
    var log := LogOf(s.model, target);
    var items := ItemsAfter(log, r.cursor);
    var s' :=
      match e
      case Transact(_) => s
      case Wake(a) =>
        s.(unwoken := s.unwoken - multiset{a},
           reader := if a == target && !r.phase.Subscribing? then r.(wake := true) else r)
      case Subscribe => s.(reader := r.(phase := Reading))
      case Query =>
        s.(reader := r.(seen := |log|, phase :=
             if forall i :: 0 <= i < |items| ==> Decodes(reg, items[i].entry) then Fetched(items) else Dead))
      case MoveCursor =>
        s.(reader := r.(phase := Idle, queue := r.queue + r.phase.items,
             cursor := LastSequence(r.phase.items, r.cursor)))
      case TakeWake => s.(reader := r.(phase := Reading, wake := false))
      case Deliver => s.(reader := r.(queue := r.queue[1..], delivered := r.delivered + [r.queue[0]]));
    assert Next(reg, ps, target, s, e, s') && Internal(e);
  }

  lemma {:induction false} InternalRun(reg: Registry, ps: Projectors, target: string, states: seq<System>,
                                       events: seq<Event>, i: nat, j: nat)
    requires Steps(reg, ps, target, states, events) && i <= j < |states|
    requires forall k :: i <= k < j ==> Internal(events[k])
    ensures states[j].model == states[i].model && j - i + Remaining(target, states[j]) <= Remaining(target, states[i])
    ensures AllDecode(reg, target, states[i]) && !states[i].reader.phase.Dead? ==> !states[j].reader.phase.Dead?
    decreases j - i
  {
    hide Next, Remaining;
    if i < j {
      InternalRun(reg, ps, target, states, events, i, j - 1);
      InternalShrinks(reg, ps, target, states[j - 1], events[j - 1], states[j]);
    }
  }

  /** Steps that are not commits leave what the reader brought from the last removal. */
  lemma {:induction false} BaseStays(target: string, after: int, states: seq<System>, events: seq<Event>, i: nat,
                                     j: nat)
    requires |states| == |events| + 1 && i <= j < |states|
    requires forall k :: i <= k < j ==> Internal(events[k])
    ensures Base(target, after, states, events, j) == Base(target, after, states, events, i)
    decreases j - i
  {
    if i < j { BaseStays(target, after, states, events, i, j - 1); }
  }

  /**
   * Without further commits the stream drains, in whatever order the wakes, reads and deliveries that remain come:
   * from any state of any run, whatever continues it without a commit is no longer than what remained there; and where
   * it can go no further, every event after the reader's position has been delivered, provided every stored event
   * decodes.
   */
  lemma StreamDrains(reg: Registry, ps: Projectors, target: string, after: int, states: seq<System>,
                     events: seq<Event>, i: nat, j: nat)
    requires Steps(reg, ps, target, states, events) && Start(states[0], after) && i <= j < |states|
    requires forall k :: i <= k < j ==> Internal(events[k])
    ensures states[j].model == states[i].model && j - i <= Remaining(target, states[i])
    ensures AllDecode(reg, target, states[i]) && !states[i].reader.phase.Dead? && AtRest(reg, ps, target, states[j]) ==>
              var base := Base(target, after, states, events, i);
              && Quiet(target, states[j])
              && states[j].reader.delivered == base.1 + ItemsAfter(LogOf(states[i].model, target), base.0)
  {
    hide Next, Remaining, AtRest, AllDecode, Quiet, Start, Base;
    InternalRun(reg, ps, target, states, events, i, j);
    if AllDecode(reg, target, states[i]) && !states[i].reader.phase.Dead? && AtRest(reg, ps, target, states[j]) {
      RestIsQuiet(reg, ps, target, states[j]);
      StreamAcrossRemovals(reg, ps, target, after, states, events, j);
      BaseStays(target, after, states, events, i, j);
    }
  }

  // ---------------------------------------------------------------- reads

  /** The row at a position is of a known type and its data decodes. */
  ghost predicate Readable(reg: Registry, entry: Entry) {
    match reg.definition(entry.typ)
    case None => false
    case Some(def) => reg.decode(def, entry.data) != None
  }

  /**
   * A read fetches every event of the log after the cursor, in sequence order, whatever woke it; if one of them does
   * not decode, the stream dies instead. Nothing is delivered and the cursor does not move yet.
   */
  lemma QueryExactly(reg: Registry, ps: Projectors, target: string, states: seq<System>, events: seq<Event>, i: nat)
    requires Steps(reg, ps, target, states, events) && i < |events| && events[i] == Query
    ensures var r, log := states[i].reader, LogOf(states[i].model, target);
      var phase, first := states[i + 1].reader.phase, Max(0, r.cursor + 1);
      && states[i + 1] == states[i].(reader := r.(phase := phase, seen := |log|))
      && if exists k :: first <= k < |log| && !Readable(reg, log[k]) then phase == Dead
         else
           && phase.Fetched? && |phase.items| == Max(0, |log| - first)
           && forall n :: 0 <= n < |phase.items| ==> phase.items[n] == Item(first + n, log[first + n])
  {
    hide Perform;
    var log, r := LogOf(states[i].model, target), states[i].reader;
    var items := ItemsAfter(log, r.cursor);
    var first := Max(0, r.cursor + 1);
    assert Next(reg, ps, target, states[i], events[i], states[i + 1]);
    if k :| first <= k < |log| && !Readable(reg, log[k]) { assert !Decodes(reg, items[k - first].entry); }
    forall n | 0 <= n < |items| ensures Decodes(reg, items[n].entry) <==> Readable(reg, log[first + n]) {}
  }

  /** A stream that has died stays dead: what is queued may still be handed over, and nothing else ever is. */
  lemma {:induction false} DeadStaysDead(reg: Registry, ps: Projectors, target: string, states: seq<System>,
                                         events: seq<Event>, i: nat, j: nat)
    requires Steps(reg, ps, target, states, events) && i <= j < |states| && states[i].reader.phase.Dead?
    ensures states[j].reader.phase.Dead?
    ensures states[j].reader.delivered + states[j].reader.queue == states[i].reader.delivered + states[i].reader.queue
    decreases j
  {
    hide Next;
    if i < j {
      DeadStaysDead(reg, ps, target, states, events, i, j - 1);
      DeadStep(reg, ps, target, states[j - 1], events[j - 1], states[j]);
    }
  }

  lemma DeadStep(reg: Registry, ps: Projectors, target: string, s: System, e: Event, s': System)
    requires Next(reg, ps, target, s, e, s') && s.reader.phase.Dead?
    ensures s'.reader.phase.Dead?
    ensures s'.reader.delivered + s'.reader.queue == s.reader.delivered + s.reader.queue
  {
    hide Perform;
    var r := s.reader;
    if e.Deliver? { assert (r.delivered + [r.queue[0]]) + r.queue[1..] == r.delivered + r.queue; }
  }
}
