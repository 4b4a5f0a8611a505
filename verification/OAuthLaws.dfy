/**
 * What each step does to an OAuth attempt in a run, in terms of the state before it, and where an attempt that is taken
 * ends if the steps of its settlement go well, whatever else happens between them.
 */
module OAuthLaws {
  import opened Wrappers
  import opened OAuth

  /** An attempt in the map that is pending: nobody has completed, cancelled or expired it. */
  predicate Waits(s: State, id: ID) {
    id in s.attempts && s.attempts[id].Pending?
  }

  predicate FiberAt(s: State, id: ID, phase: Phase) {
    id in s.records && s.records[id].fiber == Some(phase)
  }

  /** The attempt's entry and its fiber are replaced; nothing else changes. */
  function Put(s: State, id: ID, attempt: Attempt, phase: Phase): State
    requires id in s.records
  {
    State(s.attempts[id := attempt], s.records[id := s.records[id].(fiber := Some(phase))])
  }

  lemma AnyStep(states: seq<State>, events: seq<Event>, i: nat, id: ID)
    requires Runs(states, events) && i < |events|
    ensures |states| == |events| + 1 && Enabled(states[i], events[i]) && states[i + 1] == Next(states[i], events[i])
    ensures id in states[i].attempts ==> id in states[i].records
    ensures id in states[i].records ==> Agrees(Find(states[i].attempts, id), states[i].records[id])
  {
    InvHolds(states, events, i);
  }

  // ---------------------------------------------------------------- one step

  /** A new attempt waits for ten minutes, unsettled; only the automatic mode counts as completing from the start. */
  lemma BeginExactly(states: seq<State>, events: seq<Event>, i: nat)
    requires Runs(states, events) && i < |events| && events[i].Begin?
    ensures var s, e := states[i], events[i];
      && e.id !in s.records
      && states[i + 1] == State(
           s.attempts[e.id := Pending(e.mode == Auto, false, e.mode, e.now + 600000)],
           s.records[e.id := Record(e.mode, None, 0, 0, 0, None, None)])
  {
    AnyStep(states, events, i, events[i].id);
  }

  /**
   * The exit of the automatic callback takes the attempt exactly if it is pending and not settling; the exit of a
   * `complete` finds it settling, as that call left it. Otherwise the fiber is gone and the map is unchanged.
   */
  lemma TakeExactly(states: seq<State>, events: seq<Event>, i: nat, ok: bool)
    requires Runs(states, events) && i < |events| && events[i].Take?
    ensures var s, id := states[i], events[i].id;
      && (FiberAt(s, id, Heard(ok)) ==>
            states[i + 1] ==
            if Waits(s, id) && !s.attempts[id].settling
            then Put(s, id, s.attempts[id].(settling := true), Taken(ok))
            else s.(records := s.records[id := s.records[id].(fiber := Some(Gone))]))
      && (FiberAt(s, id, Called(ok)) ==>
            && Waits(s, id) && s.attempts[id].settling
            && states[i + 1] == Put(s, id, s.attempts[id], Taken(ok)))
  {
    AnyStep(states, events, i, events[i].id);
    hide Runs;
  }

  /** A claim succeeds exactly for a pending attempt that is not completing, with a code if the mode asks for one. */
  lemma ClaimExactly(states: seq<State>, events: seq<Event>, i: nat)
    requires Runs(states, events) && i < |events| && events[i].ClaimIt?
    ensures var s, e := states[i], events[i];
      if Waits(s, e.id) && !s.attempts[e.id].completing && (s.attempts[e.id].mode == Code ==> e.code) then
        && e.id in s.records
        && states[i + 1] == Put(s, e.id, s.attempts[e.id].(completing := true, settling := true), Calling)
      else states[i + 1] == s
  {
    AnyStep(states, events, i, events[i].id);
    hide Runs;
  }

  /** And what the caller is told, in the order in which it is checked. */
  lemma ClaimSays(current: Attempts, id: ID, code: bool)
    ensures var r := ClaimAttempt(current, id, code).0;
      && (r == NotFound <==> id !in current)
      && (r == AlreadyOver <==> id in current && current[id].Terminal?)
      && (r == CodeRequired <==> id in current && current[id].Pending? && current[id].mode == Code && !code)
      && (r == AlreadyCompleting <==>
            && id in current && current[id].Pending? && current[id].completing
            && (current[id].mode == Code ==> code))
  {
  }

  /** A cancellation takes effect exactly on a pending attempt that is not settling: it is gone, its scope to close. */
  lemma CancelExactly(states: seq<State>, events: seq<Event>, i: nat)
    requires Runs(states, events) && i < |events| && events[i].Cancel?
    ensures var s, id := states[i], events[i].id;
      if Waits(s, id) && !s.attempts[id].settling then
        && id in s.records
        && states[i + 1] == State(s.attempts - {id},
             s.records[id := s.records[id].(owed := s.records[id].owed + 1, ending := Some(Cancelled))])
      else states[i + 1] == s
  {
    AnyStep(states, events, i, events[i].id);
    hide Runs;
  }

  /** A settlement ends its attempt as complete or failed by its outcome, to be shown for a minute. */
  lemma FinishExactly(states: seq<State>, events: seq<Event>, i: nat)
    requires Runs(states, events) && i < |events| && events[i].Finish?
    ensures var s, id := states[i], events[i].id;
      && Waits(s, id) && s.attempts[id].settling
      && (FiberAt(s, id, Taken(false)) || FiberAt(s, id, Outcome(true)) || FiberAt(s, id, Outcome(false)))
      && states[i + 1] == Finished(s, id, if FiberAt(s, id, Outcome(true)) then Complete else Failed, events[i].now)
  {
    hide Runs, Agrees, Next, Finished;
    AnyStep(states, events, i, events[i].id);
    EndsAttempt(states[i], events[i].id);
    FinishStep(states[i], events[i].id, events[i].now);
  }

  /** The attempt has ended with a status; its fiber is done and its scope is to be closed. */
  function Finished(s: State, id: ID, status: Status, now: int): State
    requires id in s.records
  {
    State(s.attempts[id := Terminal(status, now + 60000)],
          s.records[id := s.records[id].(fiber := Some(Done(status == Complete)), owed := s.records[id].owed + 1,
            ending := Some(Ended(status)))])
  }

  lemma FinishStep(s: State, id: ID, now: int)
    requires Enabled(s, Finish(id, now)) && Waits(s, id)
    ensures Next(s, Finish(id, now)) ==
              Finished(s, id, if FiberAt(s, id, Outcome(true)) then Complete else Failed, now)
  {
  }

  /** A settlement that is about to finish owns its attempt, and its outcome is that of the call it made, if any. */
  lemma EndsAttempt(s: State, id: ID)
    requires InPhase(s, id, {Taken(false), Outcome(true), Outcome(false)})
    requires Agrees(Find(s.attempts, id), s.records[id])
    ensures Waits(s, id) && s.attempts[id].settling
    ensures FiberAt(s, id, Taken(false)) || FiberAt(s, id, Outcome(true)) || FiberAt(s, id, Outcome(false))
  {
  }

  /**
   * A sweep expires the pending attempts whose time has come, except those that are settling, and closes their scopes;
   * it forgets the ended ones whose minute is over. The others stay.
   */
  lemma SweepExactly(states: seq<State>, events: seq<Event>, i: nat, id: ID)
    requires Runs(states, events) && i < |events| && events[i].ScrubAll?
    ensures var s, now := states[i], events[i].now;
      var before, after := Find(s.attempts, id), Find(states[i + 1].attempts, id);
      match before
      case Some(Pending(_, false, _, expires)) =>
        && id in s.records && id in states[i + 1].records
        && after == (if expires <= now then Some(Terminal(Expired, now + 60000)) else before)
        && states[i + 1].records[id] ==
             if expires <= now
             then s.records[id].(owed := s.records[id].owed + 1, ending := Some(Ended(Expired))) else s.records[id]
      case Some(Terminal(_, removeAt)) => after == if removeAt <= now then None else before
      case _ => after == before
  {
    AnyStep(states, events, i, id);
    hide Runs, Agrees;
  }

  /** The other steps of an attempt's fiber, and the closing of its scope, which is owed before: only these change. */
  lemma FiberStepsExactly(states: seq<State>, events: seq<Event>, i: nat)
    requires Runs(states, events) && i < |events|
    ensures var s, s' := states[i], states[i + 1];
      match events[i]
      case Fork(id) =>
        id in s.records && s.records[id].mode == Auto && s.records[id].fiber == None && s' == Moved(s, id, Listening)
      case Hear(id, ok) => FiberAt(s, id, Listening) && s' == Moved(s, id, Heard(ok))
      case Interrupt(id) => id in s.records && s.records[id].closes > 0 && s' == Moved(s, id, Gone)
      case Call(id, ok) => FiberAt(s, id, Calling) && s' == Moved(s, id, Called(ok))
      case Create(id) =>
        && FiberAt(s, id, Taken(true))
        && s' == s.(records := s.records[id := s.records[id].(fiber := Some(Creating), creates := 1)])
      case Return(id, ok) =>
        && FiberAt(s, id, Creating)
        && s' == s.(records := s.records[id := s.records[id].(fiber := Some(Outcome(ok)), returned := Some(ok))])
      case Close(id) =>
        && id in s.records && s.records[id].owed == 1 && s.records[id].closes == 0
        && s' == s.(records := s.records[id := s.records[id].(owed := 0, closes := 1)])
      case _ => true
  {
    hide Runs, Agrees, Next;
    if !events[i].ScrubAll? {
      AnyStep(states, events, i, events[i].id);
      var s, id := states[i], events[i].id;
      if id in s.records { RecordFacts(Find(s.attempts, id), s.records[id]); }
      FiberStep(s, events[i]);
    }
  }

  lemma RecordFacts(a: Option<Attempt>, r: Record)
    requires Agrees(a, r)
    ensures r.fiber == Some(Taken(true)) ==> r.creates == 0
    ensures r.owed > 0 ==> r.owed == 1 && r.closes == 0
  {
  }

  lemma FiberStep(s: State, e: Event)
    requires Enabled(s, e)
    ensures match e
      case Fork(id) =>
        && id in s.records && s.records[id].mode == Auto && s.records[id].fiber == None
        && Next(s, e) == Moved(s, id, Listening)
      case Hear(id, ok) => FiberAt(s, id, Listening) && Next(s, e) == Moved(s, id, Heard(ok))
      case Interrupt(id) => id in s.records && s.records[id].closes > 0 && Next(s, e) == Moved(s, id, Gone)
      case Call(id, ok) => FiberAt(s, id, Calling) && Next(s, e) == Moved(s, id, Called(ok))
      case Create(id) =>
        && FiberAt(s, id, Taken(true))
        && Next(s, e) == s.(records := s.records[id := s.records[id].(
             fiber := Some(Creating), creates := s.records[id].creates + 1)])
      case Return(id, ok) =>
        && FiberAt(s, id, Creating)
        && Next(s, e) == s.(records := s.records[id := s.records[id].(
             fiber := Some(Outcome(ok)), returned := Some(ok))])
      case Close(id) =>
        && id in s.records && s.records[id].owed > 0
        && Next(s, e) == s.(records := s.records[id := s.records[id].(
             owed := s.records[id].owed - 1, closes := s.records[id].closes + 1)])
      case _ => true
  {
  }

  // ---------------------------------------------------------------- a whole settlement

  /** A step of the attempt's own fiber. */
  predicate Own(e: Event, id: ID) {
    (e.Fork? || e.Hear? || e.Interrupt? || e.Call? || e.Take? || e.Create? || e.Return? || e.Finish?) && e.id == id
  }

  function OwnSteps(events: seq<Event>, id: ID): seq<Event> {
    if events == [] then []
    else
      var last := events[|events| - 1];
      OwnSteps(events[..|events| - 1], id) + if Own(last, id) then [last] else []
  }

  predicate IsSettling(s: State, id: ID, phase: Phase) {
    Waits(s, id) && s.attempts[id].settling && FiberAt(s, id, phase)
  }

  /** What does not belong to the settlement leaves a settling attempt and its fiber as they are. */
  lemma OthersLeaveIt(states: seq<State>, events: seq<Event>, i: nat, id: ID, phase: Phase)
    requires Runs(states, events) && i < |events| && IsSettling(states[i], id, phase) && !Own(events[i], id)
    ensures IsSettling(states[i + 1], id, phase)
  {
    AnyStep(states, events, i, id);
    hide Runs;
  }

  lemma StoreSteps(states: seq<State>, events: seq<Event>, i: nat, id: ID)
    requires Runs(states, events) && i < |events|
    ensures events[i] == Create(id) && IsSettling(states[i], id, Taken(true)) ==>
              IsSettling(states[i + 1], id, Creating)
    ensures forall ok :: events[i] == Return(id, ok) && IsSettling(states[i], id, Creating) ==>
              IsSettling(states[i + 1], id, Outcome(ok))
  {
    AnyStep(states, events, i, id);
    hide Runs, Agrees;
  }

  /** Where a settlement stands after its first steps: the credential is stored and the call returned `ok`. */
  predicate Stands(s: State, id: ID, ok: bool, steps: seq<Event>) {
    if steps == [] then IsSettling(s, id, Taken(true))
    else if steps == [Create(id)] then IsSettling(s, id, Creating)
    else steps == [Create(id), Return(id, ok)] && IsSettling(s, id, Outcome(ok))
  }

  lemma StandsNext(s: State, s': State, id: ID, ok: bool, steps: seq<Event>, e: Event)
    requires Stands(s, id, ok, steps) && steps + [e] <= [Create(id), Return(id, ok)]
    requires e == Create(id) && IsSettling(s, id, Taken(true)) ==> IsSettling(s', id, Creating)
    requires e == Return(id, ok) && IsSettling(s, id, Creating) ==> IsSettling(s', id, Outcome(ok))
    ensures Stands(s', id, ok, steps + [e])
  {
    hide IsSettling;
    assert e == (steps + [e])[|steps|] == [Create(id), Return(id, ok)][|steps|];
    if |steps| == 1 { assert steps[0] == (steps + [e])[0] == Create(id); }
  }

  /** The first steps of a settlement whose credential is stored. */
  predicate Stores(steps: seq<Event>, id: ID, ok: bool) {
    steps <= [Create(id), Return(id, ok)]
  }

  lemma StoresPart(steps: seq<Event>, more: seq<Event>, id: ID, ok: bool)
    requires steps <= more && Stores(more, id, ok)
    ensures Stores(steps, id, ok)
  {
  }

  lemma {:induction false} StandsAlong(states: seq<State>, events: seq<Event>, i: nat, j: nat, id: ID, ok: bool)
    requires Runs(states, events) && i <= j < |states| && IsSettling(states[i], id, Taken(true))
    requires Stores(OwnSteps(events[i..j], id), id, ok)
    ensures Stands(states[j], id, ok, OwnSteps(events[i..j], id))
    decreases j
  {
    assert |states| == |events| + 1;
    hide Runs, IsSettling, Own, Stands, OwnSteps, Stores;
    OwnStepsNext(events, i, j, id);
    if i == j {
      StandsFirst(states[i], id, ok);
    } else {
      StoresPart(OwnSteps(events[i..j - 1], id), OwnSteps(events[i..j], id), id, ok);
      StandsAlong(states, events, i, j - 1, id, ok);
      StandsStep(states, events, j - 1, id, ok, OwnSteps(events[i..j - 1], id));
    }
  }

  lemma StandsStep(states: seq<State>, events: seq<Event>, i: nat, id: ID, ok: bool, steps: seq<Event>)
    requires Runs(states, events) && i < |events| && Stands(states[i], id, ok, steps)
    requires Own(events[i], id) ==> Stores(steps + [events[i]], id, ok)
    ensures Stands(states[i + 1], id, ok, if Own(events[i], id) then steps + [events[i]] else steps)
  {
    assert |states| == |events| + 1;
    hide Runs, IsSettling, Own, Stands;
    if Own(events[i], id) {
      StoreSteps(states, events, i, id);
      StandsNext(states[i], states[i + 1], id, ok, steps, events[i]);
    } else {
      StandsOn(states, events, i, id, ok, steps);
    }
  }

  lemma OwnStepsNext(events: seq<Event>, i: nat, j: nat, id: ID)
    requires i <= j <= |events|
    ensures i == j ==> OwnSteps(events[i..j], id) == []
    ensures i < j ==>
              && OwnSteps(events[i..j - 1], id) <= OwnSteps(events[i..j], id)
              && OwnSteps(events[i..j], id) ==
                   if Own(events[j - 1], id) then OwnSteps(events[i..j - 1], id) + [events[j - 1]]
                   else OwnSteps(events[i..j - 1], id)
  {
    hide Own;
    if i < j { assert events[i..j][..j - i - 1] == events[i..j - 1]; }
  }

  lemma StandsFirst(s: State, id: ID, ok: bool)
    requires IsSettling(s, id, Taken(true))
    ensures Stands(s, id, ok, [])
  {
  }

  lemma StandsOn(states: seq<State>, events: seq<Event>, i: nat, id: ID, ok: bool, steps: seq<Event>)
    requires Runs(states, events) && i < |events| && Stands(states[i], id, ok, steps) && !Own(events[i], id)
    ensures Stands(states[i + 1], id, ok, steps)
  {
    var phase := if steps == [] then Taken(true) else if steps == [Create(id)] then Creating else Outcome(ok);
    hide IsSettling, Own;
    OthersLeaveIt(states, events, i, id, phase);
    hide Runs;
  }

  /**
   * An attempt that was taken after a successful callback is complete once its credential is stored, and failed if
   * storing it fails, whatever cancellations, claims, sweeps and other attempts come between.
   */
  lemma TakenEnds(states: seq<State>, events: seq<Event>, i: nat, j: nat, id: ID, ok: bool)
    requires Runs(states, events) && i < j < |events| && IsSettling(states[i], id, Taken(true))
    requires OwnSteps(events[i..j], id) == [Create(id), Return(id, ok)]
    requires events[j].Finish? && events[j].id == id
    ensures id in states[j + 1].attempts
    ensures states[j + 1].attempts[id] == Terminal(if ok then Complete else Failed, events[j].now + 60000)
  {
    StandsAlong(states, events, i, j, id, ok);
    FinishExactly(states, events, j);
  }

  /**
   * So an automatic attempt whose callback succeeds while it is pending, and whose credential is stored, completes: the
   * callback's exit is let in, and nothing that happens before the settlement finishes can take it away.
   */
  lemma AutomaticCompletes(states: seq<State>, events: seq<Event>, i: nat, j: nat, id: ID)
    requires Runs(states, events) && i + 1 < j < |events|
    requires FiberAt(states[i], id, Heard(true)) && Waits(states[i], id) && events[i] == Take(id)
    requires OwnSteps(events[i + 1..j], id) == [Create(id), Return(id, true)]
    requires events[j].Finish? && events[j].id == id
    ensures id in states[j + 1].attempts && states[j + 1].attempts[id] == Terminal(Complete, events[j].now + 60000)
  {
    AnyStep(states, events, i, id);
    TakeExactly(states, events, i, true);
    TakenEnds(states, events, i + 1, j, id, true);
  }
}
