/**
 * packages/core/src/integration.ts: OAuth attempts. Each function below is one atomic update of the attempts map; the
 * machine interleaves them with callbacks, calls that store the credential, expiry, and the closing of scopes.
 */
module OAuth {
  import opened Wrappers

  type ID = nat

  const ATTEMPT_LIFETIME: int := 10 * 60 * 1000
  const TERMINAL_RETENTION: int := 60 * 1000

  datatype Mode = Auto | Code
  datatype Status = Complete | Failed | Expired

  datatype Attempt =
    | Pending(completing: bool, settling: bool, mode: Mode, expires: int)
    | Terminal(status: Status, removeAt: int)

  type Attempts = map<ID, Attempt>

  // ---------------------------------------------------------------- the attempts map

  /** Lines 332-338: a settlement takes the attempt, or finds it already taken by the `complete` that runs it. */
  function TakeAttempt(current: Attempts, id: ID, owned: bool): (Option<Attempt>, Attempts) {
    if id !in current || !current[id].Pending? then (None, current)
    else if owned then (if current[id].settling then Some(current[id]) else None, current)
    else if current[id].settling then (None, current)
    else (Some(current[id]), current[id := current[id].(settling := true)])
  }

  /** Lines 358-370. */
  function EndAttempt(current: Attempts, id: ID, success: bool, now: int): (Option<Attempt>, Attempts) {
    if id !in current || !current[id].Pending? then (None, current)
    else (Some(current[id]), current[id := Terminal(if success then Complete else Failed, now + TERMINAL_RETENTION)])
  }

  predicate Expires(attempt: Attempt, now: int) {
    attempt.Pending? && !attempt.settling && attempt.expires <= now
  }

  predicate Forgotten(attempt: Attempt, now: int) {
    attempt.Terminal? && attempt.removeAt <= now
  }

  /** What `scrub` leaves. */
  function Scrubbed(current: Attempts, now: int): Attempts {
    map id | id in current && !Forgotten(current[id], now) ::
      if Expires(current[id], now) then Terminal(Expired, now + TERMINAL_RETENTION) else current[id]
  }

  /** The attempts whose scopes `scrub` closes, in the map's order. */
  function Overdue(current: Attempts, order: seq<ID>, now: int): seq<ID> {
    if order == [] then []
    else
      var id := order[|order| - 1];
      Overdue(current, order[..|order| - 1], now) + if id in current && Expires(current[id], now) then [id] else []
  }

  /** Lines 383-397. `order` lists the map's keys in insertion order. */
  method Scrub(current: Attempts, order: seq<ID>, now: int) returns (scopes: seq<ID>, next: Attempts)
    requires forall id: ID :: id in order <==> id in current
    requires forall i, k :: 0 <= i < k < |order| ==> order[i] != order[k]
    ensures next == Scrubbed(current, now)
    ensures scopes == Overdue(current, order, now)
  {
    hide Scrubbed, Overdue, Swept;
    next := current;
    scopes := [];
    ghost var goal := Scrubbed(current, now);
    SweepStarts(current, goal, order, now);
    for i := 0 to |order|
      invariant scopes == Overdue(current, order[..i], now)
      invariant Swept(current, goal, order[..i], next)
    {
      var id := order[i];
      var attempt := current[id];
      OverdueNext(current, order, i, now);
      assert order[..i + 1] == order[..i] + [id];
      assert id !in order[..i];
      ScrubbedAt(current, now, id);
      ghost var before := next;
      if attempt.Pending? && !attempt.settling && attempt.expires <= now {
        scopes := scopes + [id];
        next := next[id := Terminal(Expired, now + TERMINAL_RETENTION)];
        SweepsOne(current, goal, order[..i], id, before, next);
        continue;
      }
      if !attempt.Pending? && attempt.removeAt <= now {
        next := next - {id};
      } else {
        SweptSoFar(current, goal, order[..i], id, next);
      }
      SweepsOne(current, goal, order[..i], id, before, next);
    }
    assert order[..|order|] == order;
    SweepEnds(current, goal, order, next);
  }

  /** The attempts in the part of the order that has been swept are as they should be, the others as they were. */
  ghost predicate Swept(current: Attempts, goal: Attempts, done: seq<ID>, next: Attempts) {
    forall id: ID :: Find(next, id) == if id in done then Find(goal, id) else Find(current, id)
  }

  lemma SweepStarts(current: Attempts, goal: Attempts, order: seq<ID>, now: int)
    requires goal == Scrubbed(current, now)
    ensures Swept(current, goal, order[..0], current) && Overdue(current, order[..0], now) == []
    ensures forall id: ID :: id in goal ==> id in current
  {
  }

  lemma SweptSoFar(current: Attempts, goal: Attempts, done: seq<ID>, id: ID, next: Attempts)
    requires Swept(current, goal, done, next) && id !in done
    ensures Find(next, id) == Find(current, id)
  {
  }

  lemma SweepsOne(current: Attempts, goal: Attempts, done: seq<ID>, id: ID, next: Attempts, next': Attempts)
    requires Swept(current, goal, done, next) && Find(next', id) == Find(goal, id)
    requires forall other: ID :: other != id ==> Find(next', other) == Find(next, other)
    ensures Swept(current, goal, done + [id], next')
  {
  }

  lemma SweepEnds(current: Attempts, goal: Attempts, order: seq<ID>, next: Attempts)
    requires Swept(current, goal, order, next)
    requires (forall id: ID :: id in order <==> id in current) && forall id: ID :: id in goal ==> id in current
    ensures next == goal
  {
    forall id: ID ensures Find(next, id) == Find(goal, id) {
      assert Find(next, id) == if id in order then Find(goal, id) else Find(current, id);
    }
    SameAttempts(next, goal);
  }

  function Find(attempts: Attempts, id: ID): Option<Attempt> {
    if id in attempts then Some(attempts[id]) else None
  }

  lemma SameAttempts(a: Attempts, b: Attempts)
    requires forall id: ID :: Find(a, id) == Find(b, id)
    ensures a == b
  {
    forall id: ID ensures id in a <==> id in b { assert Find(a, id) == Find(b, id); }
    forall id: ID | id in a ensures a[id] == b[id] { assert Find(a, id) == Find(b, id); }
  }

  lemma ScrubbedAt(current: Attempts, now: int, id: ID)
    requires id in current
    ensures Find(Scrubbed(current, now), id) ==
              if Expires(current[id], now) then Some(Terminal(Expired, now + TERMINAL_RETENTION))
              else if Forgotten(current[id], now) then None
              else Some(current[id])
  {
  }

  lemma OverdueNext(current: Attempts, order: seq<ID>, i: nat, now: int)
    requires i < |order| && order[i] in current
    ensures Overdue(current, order[..i + 1], now) ==
              Overdue(current, order[..i], now) + if Expires(current[order[i]], now) then [order[i]] else []
  {
    assert order[..i + 1][..i] == order[..i];
  }

  datatype Claim = Claimed | NotFound | AlreadyOver | CodeRequired | AlreadyCompleting

  /** Lines 525-536. */
  function ClaimAttempt(current: Attempts, id: ID, code: bool): (Claim, Attempts) {
    if id !in current then (NotFound, current)
    else if !current[id].Pending? then (AlreadyOver, current)
    else if current[id].mode.Code? && !code then (CodeRequired, current)
    else if current[id].completing then (AlreadyCompleting, current)
    else (Claimed, current[id := current[id].(completing := true, settling := true)])
  }

  /** Lines 556-562. */
  function CancelAttempt(current: Attempts, id: ID): (bool, Attempts) {
    if id !in current || !current[id].Pending? || current[id].settling then (false, current)
    else (true, current - {id})
  }

  // ---------------------------------------------------------------- the machine

  /**
   * Where an attempt's fiber is: the automatic callback may run and exit, or `complete` may be in its callback and
   * have its exit; then the settlement has taken the attempt, stores the credential, knows the outcome, and is done.
   */
  datatype Phase =
    | Listening
    | Heard(ok: bool)
    | Calling
    | Called(ok: bool)
    | Taken(ok: bool)
    | Creating
    | Outcome(ok: bool)
    | Done(ok: bool)
    | Gone

  datatype Ending = Ended(status: Status) | Cancelled

  /**
   * What has happened to an attempt: how often its scope is to be closed and was closed, how often the credential
   * store was called and what it returned, and how the attempt stopped being pending.
   */
  datatype Record = Record(
    mode: Mode,
    fiber: Option<Phase>,
    owed: nat,
    closes: nat,
    creates: nat,
    returned: Option<bool>,
    ending: Option<Ending>
  )

  datatype State = State(attempts: Attempts, records: map<ID, Record>)

  datatype Event =
    | Begin(id: ID, mode: Mode, now: int)
    | Fork(id: ID)
    | Hear(id: ID, ok: bool)
    | Interrupt(id: ID)
    | ClaimIt(id: ID, code: bool)
    | Call(id: ID, ok: bool)
    | Take(id: ID)
    | Create(id: ID)
    | Return(id: ID, ok: bool)
    | Finish(id: ID, now: int)
    | Cancel(id: ID)
    | ScrubAll(now: int)
    | Close(id: ID)

  predicate InPhase(s: State, id: ID, phases: set<Phase>) {
    id in s.records && s.records[id].fiber.Some? && s.records[id].fiber.value in phases
  }

  predicate Enabled(s: State, e: Event) {
    match e
    case Begin(id, _, _) => id !in s.records
    case Fork(id) => id in s.records && s.records[id].mode.Auto? && s.records[id].fiber.None?
    case Hear(id, _) => InPhase(s, id, {Listening})
    case Interrupt(id) => InPhase(s, id, {Listening, Heard(true), Heard(false)}) && s.records[id].closes > 0
    case Call(id, _) => InPhase(s, id, {Calling})
    case Take(id) => InPhase(s, id, {Heard(true), Heard(false), Called(true), Called(false)})
    case Create(id) => InPhase(s, id, {Taken(true)})
    case Return(id, _) => InPhase(s, id, {Creating})
    case Finish(id, _) => InPhase(s, id, {Taken(false), Outcome(true), Outcome(false)})
    case Close(id) => id in s.records && s.records[id].owed > 0
    case ClaimIt(_, _) => true
    case Cancel(_) => true
    case ScrubAll(_) => true
  }

  function Moved(s: State, id: ID, phase: Phase): State
    requires id in s.records
  {
    s.(records := s.records[id := s.records[id].(fiber := Some(phase))])
  }

  /** An attempt stops being pending: its scope is to be closed. */
  function Leaves(r: Record, ending: Ending): Record {
    r.(owed := r.owed + 1, ending := Some(ending))
  }

  function Next(s: State, e: Event): State
    requires Enabled(s, e)
  {
    match e
    case Begin(id, mode, now) =>
      State(s.attempts[id := Pending(mode.Auto?, false, mode, now + ATTEMPT_LIFETIME)],
            s.records[id := Record(mode, None, 0, 0, 0, None, None)])
    case Fork(id) => Moved(s, id, Listening)
    case Hear(id, ok) => Moved(s, id, Heard(ok))
    case Interrupt(id) => Moved(s, id, Gone)
    case ClaimIt(id, code) =>
      var r := ClaimAttempt(s.attempts, id, code);
      if r.0.Claimed? && id in s.records then Moved(s, id, Calling).(attempts := r.1) else s
    case Call(id, ok) => Moved(s, id, Called(ok))
    case Take(id) =>
      var phase := s.records[id].fiber.value;
      var r := TakeAttempt(s.attempts, id, phase.Called?);
      Moved(s, id, if r.0.Some? then Taken(phase.ok) else Gone).(attempts := r.1)
    case Create(id) =>
      var record := s.records[id];
      s.(records := s.records[id := record.(fiber := Some(Creating), creates := record.creates + 1)])
    case Return(id, ok) =>
      s.(records := s.records[id := s.records[id].(fiber := Some(Outcome(ok)), returned := Some(ok))])
    case Finish(id, now) =>
      var ok := s.records[id].fiber.value.ok;
      var r := EndAttempt(s.attempts, id, ok, now);
      var record := s.records[id].(fiber := Some(Done(ok)));
      State(r.1, s.records[id := if r.0.Some? then Leaves(record, Ended(if ok then Complete else Failed)) else record])
    case Cancel(id) =>
      var r := CancelAttempt(s.attempts, id);
      if r.0 && id in s.records then State(r.1, s.records[id := Leaves(s.records[id], Cancelled)]) else s
    case ScrubAll(now) =>
      State(Scrubbed(s.attempts, now),
            map id | id in s.records ::
              if id in s.attempts && Expires(s.attempts[id], now) then Leaves(s.records[id], Ended(Expired))
                  else s.records[id])
    case Close(id) =>
      s.(records := s.records[id := s.records[id].(owed := s.records[id].owed - 1, closes := s.records[id].closes + 1)])
  }

  function Empty(): State {
    State(map[], map[])
  }

  ghost predicate Runs(states: seq<State>, events: seq<Event>) {
    && |states| == |events| + 1 && states[0] == Empty()
    && forall i :: 0 <= i < |events| ==> Enabled(states[i], events[i]) && states[i + 1] == Next(states[i], events[i])
  }

  // ---------------------------------------------------------------- the invariant, attempt by attempt

  predicate IsPending(a: Option<Attempt>) {
    a.Some? && a.value.Pending?
  }

  predicate Settling(a: Option<Attempt>) {
    IsPending(a) && a.value.settling
  }

  /** The settlement owns the attempt in these phases. */
  predicate Owns(phase: Option<Phase>) {
    phase.Some? && (phase.value.Calling? || phase.value.Called? || phase.value.Taken? || phase.value.Creating? ||
        phase.value.Outcome?)
  }

  /** The entry in the attempts map agrees with what has happened. */
  predicate EntryAgrees(a: Option<Attempt>, r: Record) {
    && (IsPending(a) <==> r.ending.None?)
    && (a.Some? && a.value.Terminal? ==> r.ending == Some(Ended(a.value.status)))
    && (IsPending(a) ==> a.value.mode == r.mode && a.value.completing == (r.mode.Auto? || a.value.settling))
    && (Settling(a) <==> Owns(r.fiber))
  }

  predicate FiberAgrees(r: Record) {
    && (r.mode.Code? ==> r.fiber.None? || !(r.fiber.value.Listening? || r.fiber.value.Heard? || r.fiber.value.Gone?))
    && (r.mode.Auto? ==> r.fiber.None? || !(r.fiber.value.Calling? || r.fiber.value.Called?))
    && r.creates <= 1
    && (r.creates == 1 ==> r.fiber.Some? && (r.fiber.value.Creating? || r.fiber.value.Outcome? || r.fiber.value.Done?))
    && (r.fiber == Some(Creating) ==> r.creates == 1 && r.returned.None?)
    && (r.returned.Some? ==>
          r.creates == 1 && (r.fiber == Some(Outcome(r.returned.value)) || r.fiber == Some(Done(r.returned.value))))
    && (r.fiber.Some? && (r.fiber.value.Outcome? || r.fiber == Some(Done(true))) ==>
          r.returned == Some(r.fiber.value.ok))
  }

  predicate EndingAgrees(r: Record) {
    && r.owed + r.closes == (if r.ending.Some? then 1 else 0)
    && (r.fiber.Some? && r.fiber.value.Done? ==> r.ending == Some(Ended(if r.fiber.value.ok then Complete else Failed)))
    && (r.ending == Some(Ended(Complete)) ==> r.fiber == Some(Done(true)))
    && (r.ending == Some(Ended(Failed)) ==> r.fiber == Some(Done(false)))
  }

  predicate Agrees(a: Option<Attempt>, r: Record) {
    EntryAgrees(a, r) && FiberAgrees(r) && EndingAgrees(r)
  }

  ghost predicate Inv(s: State) {
    && (forall id: ID :: id in s.attempts ==> id in s.records)
    && (forall id: ID :: id in s.records ==> Agrees(Find(s.attempts, id), s.records[id]))
  }

  /** Only attempt `id` differs. */
  ghost predicate OnlyAt(s: State, t: State, id: ID) {
    && t.records.Keys == s.records.Keys + {id}
    && (forall k: ID :: k != id ==> Find(t.attempts, k) == Find(s.attempts, k))
    && (forall k: ID :: k in s.records && k != id ==> t.records[k] == s.records[k])
  }

  lemma KeptElsewhere(s: State, t: State, id: ID)
    requires Inv(s) && OnlyAt(s, t, id) && Agrees(Find(t.attempts, id), t.records[id])
    ensures Inv(t)
  {
    hide Agrees;
    forall k: ID | k in t.attempts ensures k in t.records {
      assert k != id ==> Find(t.attempts, k) == Find(s.attempts, k);
    }
  }

  lemma ChangesOne(s: State, e: Event)
    requires Inv(s) && Enabled(s, e) && !e.ScrubAll? && e.id in Next(s, e).records
    ensures OnlyAt(s, Next(s, e), e.id)
  {
    hide Agrees, InPhase;
  }

  lemma BeginAgrees(s: State, id: ID, mode: Mode, now: int)
    requires Inv(s) && Enabled(s, Begin(id, mode, now))
    ensures var t := Next(s, Begin(id, mode, now)); Agrees(Find(t.attempts, id), t.records[id])
  {
  }

  /** The steps of the automatic callback. */
  lemma CallbackStepAgrees(s: State, e: Event)
    requires Inv(s) && Enabled(s, e) && (e.Fork? || e.Hear? || e.Interrupt?)
    ensures e.id in s.records && Agrees(Find(Next(s, e).attempts, e.id), Next(s, e).records[e.id])
  {
    assert Agrees(Find(s.attempts, e.id), s.records[e.id]);
    hide Inv;
  }

  /** The steps of a settlement up to its outcome. */
  lemma SettlementStepAgrees(s: State, e: Event)
    requires Inv(s) && Enabled(s, e) && (e.Call? || e.Create? || e.Return?)
    ensures e.id in s.records && Agrees(Find(Next(s, e).attempts, e.id), Next(s, e).records[e.id])
  {
    assert Agrees(Find(s.attempts, e.id), s.records[e.id]);
    hide Inv;
  }

  lemma TakeAgrees(s: State, id: ID)
    requires Inv(s) && Enabled(s, Take(id))
    ensures Agrees(Find(Next(s, Take(id)).attempts, id), Next(s, Take(id)).records[id])
  {
    assert Agrees(Find(s.attempts, id), s.records[id]);
    hide Inv;
  }

  lemma FinishAgrees(s: State, id: ID, now: int)
    requires Inv(s) && Enabled(s, Finish(id, now))
    ensures Agrees(Find(Next(s, Finish(id, now)).attempts, id), Next(s, Finish(id, now)).records[id])
  {
    assert Agrees(Find(s.attempts, id), s.records[id]);
    hide Inv;
  }

  /** The requests of callers, and the closing of scopes. */
  lemma CallerStepAgrees(s: State, e: Event)
    requires Inv(s) && Enabled(s, e) && (e.ClaimIt? || e.Cancel? || e.Close?) && e.id in s.records
    ensures e.id in Next(s, e).records && Agrees(Find(Next(s, e).attempts, e.id), Next(s, e).records[e.id])
  {
    assert Agrees(Find(s.attempts, e.id), s.records[e.id]);
    hide Inv;
  }

  lemma ScrubKept(s: State, now: int)
    requires Inv(s)
    ensures Inv(Next(s, ScrubAll(now)))
  {
    var t := Next(s, ScrubAll(now));
    hide Agrees;
    forall id: ID | id in t.records ensures Agrees(Find(t.attempts, id), t.records[id]) { ScrubAgrees(s, now, id); }
    hide Inv;
    assert Inv(t) by { forall id: ID | id in t.attempts ensures id in t.records { assert Inv(s); } }
  }

  lemma ScrubAgrees(s: State, now: int, id: ID)
    requires id in s.records && Agrees(Find(s.attempts, id), s.records[id])
    ensures Agrees(Find(Next(s, ScrubAll(now)).attempts, id), Next(s, ScrubAll(now)).records[id])
  {
  }

  lemma Kept(s: State, e: Event)
    requires Inv(s) && Enabled(s, e)
    ensures Inv(Next(s, e))
  {
    if e.ScrubAll? {
      ScrubKept(s, e.now);
    } else if (e.ClaimIt? || e.Cancel?) && e.id !in s.records {
      assert Next(s, e) == s;
    } else {
      match e {
        case Begin(id, mode, now) => BeginAgrees(s, id, mode, now);
        case Take(id) => TakeAgrees(s, id);
        case Finish(id, now) => FinishAgrees(s, id, now);
        case ClaimIt(_, _) => CallerStepAgrees(s, e);
        case Cancel(_) => CallerStepAgrees(s, e);
        case Close(_) => CallerStepAgrees(s, e);
        case Call(_, _) => SettlementStepAgrees(s, e);
        case Create(_) => SettlementStepAgrees(s, e);
        case Return(_, _) => SettlementStepAgrees(s, e);
        case _ => CallbackStepAgrees(s, e);
      }
      hide Agrees, Inv, Next;
      ChangesOne(s, e);
      KeptElsewhere(s, Next(s, e), e.id);
    }
  }

  // ---------------------------------------------------------------- over whole runs

  lemma {:induction false} InvHolds(states: seq<State>, events: seq<Event>, i: nat)
    requires Runs(states, events) && i < |states|
    ensures Inv(states[i])
  {
    if i > 0 {
      InvHolds(states, events, i - 1);
      hide Inv, Next;
      Kept(states[i - 1], events[i - 1]);
    }
  }

  /** However callbacks, completions, cancellations and expiry interleave, the credential is stored at most once. */
  lemma StoredAtMostOnce(states: seq<State>, events: seq<Event>, i: nat, id: ID)
    requires Runs(states, events) && i < |states| && id in states[i].records
    ensures states[i].records[id].creates <= 1
  {
    InvHolds(states, events, i);
    assert Agrees(Find(states[i].attempts, id), states[i].records[id]);
  }

  /**
   * An attempt is complete exactly when storing its credential returned success and its settlement has run: completion
   * is never shown before, and a stored credential is never shown as failed, expired or cancelled.
   */
  lemma CompleteIffStored(states: seq<State>, events: seq<Event>, i: nat, id: ID)
    requires Runs(states, events) && i < |states| && id in states[i].records
    ensures var r, a := states[i].records[id], Find(states[i].attempts, id);
            && (r.ending == Some(Ended(Complete)) <==> r.returned == Some(true) && !Settling(a))
            && (r.returned == Some(true) ==> Settling(a) || r.ending == Some(Ended(Complete)))
            && (r.returned == Some(false) ==> Settling(a) || r.ending == Some(Ended(Failed)))
            && (a.Some? && a.value.Terminal? ==> (a.value.status.Complete? <==> r.returned == Some(true)))
  {
    InvHolds(states, events, i);
    assert Agrees(Find(states[i].attempts, id), states[i].records[id]);
  }

  /** Once a settlement has taken an attempt, only that settlement ends it: no other step touches it. */
  lemma SettlingIsNotOvertaken(states: seq<State>, events: seq<Event>, i: nat, id: ID)
    requires Runs(states, events) && i < |events| && Settling(Find(states[i].attempts, id))
    ensures var before, after := Find(states[i].attempts, id), Find(states[i + 1].attempts, id);
            if events[i].Finish? && events[i].id == id then after.Some? && after.value.Terminal? &&
                !after.value.status.Expired?
            else after == before
  {
    InvHolds(states, events, i);
    assert Agrees(Find(states[i].attempts, id), states[i].records[id]);
    var e := events[i];
    assert states[i + 1] == Next(states[i], e);
    if !e.ScrubAll? && id in Next(states[i], e).records && e.id in Next(states[i], e).records && e.id != id {
      ChangesOne(states[i], e);
    }
  }

  /** So an attempt that was ever settling ends complete or failed, never expired or cancelled. */
  lemma {:induction false} SettledEndings(states: seq<State>, events: seq<Event>, i: nat, j: nat, id: ID)
    requires Runs(states, events) && i <= j < |states| && Settling(Find(states[i].attempts, id))
    ensures id in states[j].records
    ensures var r := states[j].records[id];
            Settling(Find(states[j].attempts, id)) || r.ending == Some(Ended(Complete)) ||
                r.ending == Some(Ended(Failed))
    decreases j
  {
    hide Next, Enabled, Inv;
    if i == j {
      Recorded(states, events, i, id);
    } else {
      SettledEndings(states, events, i, j - 1, id);
      InvHolds(states, events, j - 1);
      EndingsLast(states[j - 1], events[j - 1], id);
      if Settling(Find(states[j - 1].attempts, id)) {
        SettlingIsNotOvertaken(states, events, j - 1, id);
        Recorded(states, events, j, id);
      }
    }
  }

  lemma Recorded(states: seq<State>, events: seq<Event>, i: nat, id: ID)
    requires Runs(states, events) && i < |states| && Find(states[i].attempts, id).Some?
    ensures var a := Find(states[i].attempts, id).value;
            id in states[i].records && (a.Terminal? ==> states[i].records[id].ending == Some(Ended(a.status)))
  {
    InvHolds(states, events, i);
    assert Agrees(Find(states[i].attempts, id), states[i].records[id]);
  }

  /** How an attempt ended is never revised. */
  lemma EndingsLast(s: State, e: Event, id: ID)
    requires Inv(s) && Enabled(s, e) && id in s.records
    ensures id in Next(s, e).records
    ensures s.records[id].ending.Some? ==> Next(s, e).records[id].ending == s.records[id].ending
  {
    assert Agrees(Find(s.attempts, id), s.records[id]);
    if !e.ScrubAll? && e.id in s.records && e.id != id { ChangesOne(s, e); }
  }

  /** A scope is closed once after its attempt stops being pending, and not before. */
  lemma ScopeClosedOnce(states: seq<State>, events: seq<Event>, i: nat, id: ID)
    requires Runs(states, events) && i < |states| && id in states[i].records
    ensures var r := states[i].records[id];
            r.owed + r.closes == if IsPending(Find(states[i].attempts, id)) then 0 else 1
  {
    InvHolds(states, events, i);
    assert Agrees(Find(states[i].attempts, id), states[i].records[id]);
  }

  /** A settling attempt is never stuck: its fiber has a step to take, and is that of the right kind of attempt. */
  lemma SettlingGoesOn(states: seq<State>, events: seq<Event>, i: nat, id: ID)
    requires Runs(states, events) && i < |states| && Settling(Find(states[i].attempts, id))
    ensures exists e: Event {:trigger Enabled(states[i], e)} ::
              Enabled(states[i], e) && (e.Call? || e.Take? || e.Create? || e.Return? || e.Finish?) && e.id == id
    ensures InPhase(states[i], id, {Called(true), Called(false)}) ==>
              TakeAttempt(states[i].attempts, id, true) == (Find(states[i].attempts, id), states[i].attempts)
  {
    InvHolds(states, events, i);
    assert Agrees(Find(states[i].attempts, id), states[i].records[id]);
    var s := states[i];
    match s.records[id].fiber.value {
      case Calling => assert Enabled(s, Call(id, true));
      case Called(ok) => assert ok || !ok; assert Enabled(s, Take(id));
      case Taken(ok) => assert ok ==> Enabled(s, Create(id)); assert !ok ==> Enabled(s, Finish(id, 0));
      case Creating => assert Enabled(s, Return(id, true));
      case Outcome(ok) => assert ok || !ok; assert Enabled(s, Finish(id, 0));
      case _ =>
    }
  }

  // ---------------------------------------------------------------- time

  predicate Begins(e: Event, id: ID, expires: int) {
    e.Begin? && e.id == id && expires == e.now + ATTEMPT_LIFETIME
  }

  predicate Ends(e: Event, id: ID, removeAt: int) {
    ((e.Finish? && e.id == id) || e.ScrubAll?) && removeAt == e.now + TERMINAL_RETENTION
  }

  /** Where the entry of an attempt after a step comes from. */
  lemma EntryComesFrom(s: State, e: Event, id: ID)
    requires Enabled(s, e)
    ensures var before, after := Find(s.attempts, id), Find(Next(s, e).attempts, id);
            && (IsPending(after) ==>
                  Begins(e, id, after.value.expires) ||
                      (IsPending(before) && before.value.expires == after.value.expires))
            && (after.Some? && after.value.Terminal? ==> after == before || Ends(e, id, after.value.removeAt))
            && (before.Some? && before.value.Terminal? && after.None? ==> e.ScrubAll? && before.value.removeAt <= e.now)
            && (IsPending(before) && after.Some? && after.value.Terminal? && after.value.status.Expired? ==>
                  e.ScrubAll? && before.value.expires <= e.now)
  {
    hide InPhase;
  }

  lemma {:induction false} PendingSinceBegin(states: seq<State>, events: seq<Event>, i: nat, id: ID)
    requires Runs(states, events) && i < |states| && IsPending(Find(states[i].attempts, id))
    ensures exists k :: 0 <= k < i && Begins(events[k], id, Find(states[i].attempts, id).value.expires)
  {
    if i > 0 {
      EntryComesFrom(states[i - 1], events[i - 1], id);
      if !Begins(events[i - 1], id, Find(states[i].attempts, id).value.expires) {
        PendingSinceBegin(states, events, i - 1, id);
      }
    }
  }

  lemma {:induction false} TerminalSinceEnd(states: seq<State>, events: seq<Event>, i: nat, id: ID)
    requires Runs(states, events) && i < |states| && Find(states[i].attempts, id).Some? &&
               states[i].attempts[id].Terminal?
    ensures exists k :: 0 <= k < i && Ends(events[k], id, states[i].attempts[id].removeAt)
  {
    if i > 0 {
      EntryComesFrom(states[i - 1], events[i - 1], id);
      if !Ends(events[i - 1], id, states[i].attempts[id].removeAt) { TerminalSinceEnd(states, events, i - 1, id); }
    }
  }

  /** An attempt expires only in a sweep, and no earlier than ten minutes after it began. */
  lemma ExpiresOnlyOverdue(states: seq<State>, events: seq<Event>, i: nat, id: ID)
    requires Runs(states, events) && i < |events|
    requires IsPending(Find(states[i].attempts, id)) && id in states[i + 1].attempts
    requires states[i + 1].attempts[id].Terminal? && states[i + 1].attempts[id].status.Expired?
    ensures events[i].ScrubAll? && exists k ::
              0 <= k < i && events[k].Begin? && events[k].id == id && events[k].now + ATTEMPT_LIFETIME <= events[i].now
  {
    EntryComesFrom(states[i], events[i], id);
    PendingSinceBegin(states, events, i, id);
  }

  /** An outcome is forgotten only in a sweep, and no earlier than a minute after the attempt ended. */
  lemma OutcomeIsKept(states: seq<State>, events: seq<Event>, i: nat, id: ID)
    requires Runs(states, events) && i < |events|
    requires id in states[i].attempts && states[i].attempts[id].Terminal? && id !in states[i + 1].attempts
    ensures events[i].ScrubAll?
    ensures exists k ::
              0 <= k < i && ((events[k].Finish? && events[k].id == id) || events[k].ScrubAll?) &&
                  events[k].now + TERMINAL_RETENTION <= events[i].now
  {
    EntryComesFrom(states[i], events[i], id);
    TerminalSinceEnd(states, events, i, id);
    var k :| 0 <= k < i && Ends(events[k], id, states[i].attempts[id].removeAt);
    assert events[k].now + TERMINAL_RETENTION <= events[i].now;
  }
}
