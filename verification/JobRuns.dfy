/**
 * Background jobs as they run: accepted runs wait for the previous run's tail, execute, release their own tail
 * and only then settle, so settlements arrive in any order. Resolving `done` and `promoted`, closing scopes
 * and answering waiters are steps of their own.
 */
module JobRuns {
  import opened Wrappers
  import opened BackgroundJobs

  datatype Phase = Waiting | Executing | Ended(exit: Exit) | Released(exit: Exit) | Settled(exit: Exit)

  datatype Run = Run(id: string, previous: Option<Cell>, tail: Cell, phase: Phase)

  type Key = (Token, nat)

  /**
   * `jobs` is the registry. `generations` remembers the latest entry of every generation, also of those that a
   * later start has replaced; `finishes` and `promotions` list what transitions have handed out, in order.
   */
  datatype State = State(
    jobs: Jobs,
    generations: map<Token, Active>,
    runs: map<Key, Run>,
    cells: nat,
    released: set<Cell>,
    finishes: seq<Finish>,
    promotions: seq<Promotion>,
    done: map<Token, Info>,
    promoted: map<Token, Info>,
    closed: set<Token>,
    cancelled: set<Token>,
    waiters: set<Token>,
    answers: seq<Finish>
  )

  function Empty(): State {
    State(map[], map[], map[], 0, {}, [], [], map[], map[], {}, {}, {}, [])
  }

  datatype Event =
    | Start(id: string, typ: string, background: bool, hook: Option<Hook>, now: int)
    | Extend(id: string)
    | Begin(key: Key)
    | End(key: Key, exit: Exit)
    | Interrupt(key: Key)
    | Release(key: Key)
    | Settle(key: Key, now: int)
    | Cancel(id: string, now: int)
    | Promote(id: string)
    | ResolveDone(index: nat)
    | ResolvePromoted(index: nat)
    | CloseScope(index: nat)
    | Wait(id: string)
    | Answer(token: Token)

  function Fresh(s: State): Token {
    |s.generations|
  }

  function Remember(generations: map<Token, Active>, jobs: Jobs, id: string): map<Token, Active> {
    if id in jobs then generations[jobs[id].token := jobs[id]] else generations
  }

  /** The state after a transition of one job that may have ended its generation. */
  function AfterFinish(s: State, id: string, r: (Option<Finish>, Jobs)): State {
    s.(jobs := r.1, generations := Remember(s.generations, r.1, id),
       finishes := if r.0.Some? then s.finishes + [r.0.value] else s.finishes)
  }

  const INTERRUPTED := Failure("interrupted", true)

  predicate CanBegin(s: State, run: Run) {
    run.phase.Waiting? && (run.previous.None? || run.previous.value in s.released)
  }

  predicate Enabled(s: State, e: Event) {
    match e
    case Begin(key) => key in s.runs && CanBegin(s, s.runs[key])
    case End(key, _) => key in s.runs && s.runs[key].phase.Executing?
    case Interrupt(key) => key in s.runs && key.0 in s.closed &&
        (s.runs[key].phase.Waiting? || s.runs[key].phase.Executing?)
    case Release(key) => key in s.runs && s.runs[key].phase.Ended?
    case Settle(key, _) => key in s.runs && s.runs[key].phase.Released?
    case ResolveDone(i) => i < |s.finishes|
    case CloseScope(i) => i < |s.finishes|
    case ResolvePromoted(i) => i < |s.promotions|
    case Wait(id) => id in s.jobs && s.jobs[id].info.status.Running?
    case Answer(token) => token in s.waiters && token in s.done
    case _ => true
  }

  function Next(s: State, e: Event): State
    requires Enabled(s, e)
  {
    match e
    case Start(id, typ, background, hook, now) =>
      var r := StartJob(s.jobs, id, typ, background, hook, now, Fresh(s), s.cells);
      if !r.0 then s
      else s.(jobs := r.1, generations := Remember(s.generations, r.1, id), cells := s.cells + 1,
              runs := s.runs[(Fresh(s), 0) := Run(id, None, s.cells, Waiting)])
    case Extend(id) =>
      var r := ExtendJob(s.jobs, id, s.cells);
      if r.0.None? then s
      else s.(jobs := r.1, generations := Remember(s.generations, r.1, id), cells := s.cells + 1,
              runs := s.runs[(r.0.value.token, r.0.value.sequence) := Run(id, Some(r.0.value.previous), s.cells,
                  Waiting)])
    case Begin(key) => s.(runs := s.runs[key := s.runs[key].(phase := Executing)])
    case End(key, exit) => s.(runs := s.runs[key := s.runs[key].(phase := Ended(exit))])
    case Interrupt(key) => s.(runs := s.runs[key := s.runs[key].(phase := Ended(INTERRUPTED))])
    case Release(key) =>
      var run := s.runs[key];
      s.(runs := s.runs[key := run.(phase := Released(run.phase.exit))], released := s.released + {run.tail})
    case Settle(key, now) =>
      var run := s.runs[key];
      var r := SettleJob(s.jobs, run.id, key.0, key.1, run.phase.exit, now);
      AfterFinish(s, run.id, r).(runs := s.runs[key := run.(phase := Settled(run.phase.exit))])
    case Cancel(id, now) =>
      var r := CancelJob(s.jobs, id, now);
      AfterFinish(s, id, r).(cancelled := if r.0.Some? then s.cancelled + {r.0.value.token} else s.cancelled)
    case Promote(id) =>
      var r := PromoteJob(s.jobs, id);
      s.(jobs := r.1, generations := Remember(s.generations, r.1, id),
         promotions := if r.0.Some? then s.promotions + [r.0.value] else s.promotions)
    case ResolveDone(i) =>
      var f := s.finishes[i];
      if f.token in s.done then s else s.(done := s.done[f.token := f.info])
    case CloseScope(i) => s.(closed := s.closed + {s.finishes[i].token})
    case ResolvePromoted(i) =>
      var p := s.promotions[i];
      if p.token in s.promoted then s else s.(promoted := s.promoted[p.token := p.info])
    case Wait(id) => s.(waiters := s.waiters + {s.jobs[id].token})
    case Answer(token) => s.(answers := s.answers + [Finish(token, s.done[token])])
  }

  ghost predicate Runs(states: seq<State>, events: seq<Event>) {
    && |states| == |events| + 1 && states[0] == Empty()
    && forall i :: 0 <= i < |events| ==> Enabled(states[i], events[i]) && states[i + 1] == Next(states[i], events[i])
  }

  // ---------------------------------------------------------------- what the runs of a generation say

  predicate Over(p: Phase) {
    p.Ended? || p.Released? || p.Settled?
  }

  ghost predicate Accepted(runs: map<Key, Run>, t: Token, n: nat) {
    forall q: nat :: (t, q) in runs <==> q < n
  }

  /** How many of the first `n` runs have settled. */
  ghost function SettledCount(runs: map<Key, Run>, t: Token, n: nat): nat
    requires forall q: nat :: q < n ==> (t, q) in runs
  {
    if n == 0 then 0 else SettledCount(runs, t, n - 1) + if runs[(t, n - 1)].phase.Settled? then 1 else 0
  }

  /** The text of the highest of the first `n` runs that has settled with a non-empty result. */
  ghost function Latest(runs: map<Key, Run>, t: Token, n: nat): Option<Output>
    requires forall q: nat :: q < n ==> (t, q) in runs
  {
    if n == 0 then None
    else
      var p := runs[(t, n - 1)].phase;
      if p.Settled? && p.exit.Success? && p.exit.text != "" then Some(Output(n - 1, p.exit.text))
      else Latest(runs, t, n - 1)
  }

  ghost predicate AllSucceeded(runs: map<Key, Run>, t: Token, n: nat)
    requires forall q: nat :: q < n ==> (t, q) in runs
  {
    forall q: nat :: q < n ==> runs[(t, q)].phase.Settled? && runs[(t, q)].phase.exit.Success?
  }

  predicate TextOf(output: Option<Output>, text: Option<string>) {
    text == if output.Some? then Some(output.value.text) else None
  }

  // ---------------------------------------------------------------- invariant

  /** The registry points at generations that are remembered, numbered from 0. */
  ghost predicate Registry(jobs: Jobs, gens: map<Token, Active>) {
    && (forall t: Token :: t in gens <==> t < |gens|)
    && (forall t: Token :: t in gens ==> gens[t].token == t)
    && (forall id ::
          id in jobs ==> jobs[id].info.id == id && jobs[id].token in gens && gens[jobs[id].token] == jobs[id])
    && (forall t: Token :: t in gens && gens[t].info.status.Running? ==>
          gens[t].info.id in jobs && jobs[gens[t].info.id].token == t)
  }

  /** Every run belongs to a generation, and has a tail of its own that is resolved exactly when it was released. */
  ghost predicate Tails(gens: map<Token, Active>, runs: map<Key, Run>, cells: nat, released: set<Cell>) {
    && (forall k :: k in runs ==> k.0 in gens && runs[k].id == gens[k.0].info.id && runs[k].tail < cells)
    && (forall k, l :: k in runs && l in runs && runs[k].tail == runs[l].tail ==> k == l)
    && (forall c :: c in released ==> c < cells)
    && (forall k :: k in runs ==> (runs[k].tail in released <==> runs[k].phase.Released? || runs[k].phase.Settled?))
  }

  /** The runs of a generation are numbered from 0 and each waits for its predecessor's tail. */
  ghost predicate Numbered(a: Active, runs: map<Key, Run>, t: Token) {
    && a.next > 0 && Accepted(runs, t, a.next) && a.tail == runs[(t, a.next - 1)].tail
    && runs[(t, 0)].previous == None
    && forall q: nat :: 0 < q < a.next ==> runs[(t, q)].previous == Some(runs[(t, q - 1)].tail)
  }

  /** No run has left the waiting state before all earlier ones of its generation were over. */
  ghost predicate Serial(a: Active, runs: map<Key, Run>, t: Token)
    requires Numbered(a, runs, t)
  {
    forall q: nat, k: nat :: q < k < a.next && !runs[(t, k)].phase.Waiting? ==> Over(runs[(t, q)].phase)
  }

  /** What the registry says of a generation agrees with the runs that have settled, in whatever order. */
  ghost predicate Counted(a: Active, runs: map<Key, Run>, t: Token, cancelled: set<Token>)
    requires Numbered(a, runs, t)
  {
    match a.info.status
    case Running =>
      && a.pending == a.next - SettledCount(runs, t, a.next) && a.pending > 0
      && a.output == Latest(runs, t, a.next) && a.info.output == None
      && (forall q: nat :: q < a.next && runs[(t, q)].phase.Settled? ==> runs[(t, q)].phase.exit.Success?)
    case Completed =>
      AllSucceeded(runs, t, a.next) && TextOf(Latest(runs, t, a.next), a.info.output)
    case Error =>
      exists q: nat :: q < a.next && FailedWith(runs[(t, q)].phase, false, a.info.error)
    case Cancelled =>
      t in cancelled || exists q: nat :: q < a.next && FailedWith(runs[(t, q)].phase, true, a.info.error)
  }

  /** A settled failure with a message, of interruptions alone or not. */
  predicate FailedWith(p: Phase, interruptedOnly: bool, message: Option<string>) {
    p.Settled? && p.exit.Failure? && p.exit.interruptedOnly == interruptedOnly && message == Some(p.exit.message)
  }

  ghost predicate FinishOf(finishes: seq<Finish>, t: Token, info: Info) {
    exists i :: 0 <= i < |finishes| && finishes[i] == Finish(t, info)
  }

  /** Generations finish once, with the snapshot they keep; `done`, closed scopes and answers come from finishes. */
  ghost predicate Resolved(gens: map<Token, Active>, finishes: seq<Finish>, done: map<Token, Info>, closed: set<Token>,
                           answers: seq<Finish>) {
    && (forall i ::
          0 <= i < |finishes| ==> finishes[i].token in gens && gens[finishes[i].token].info == finishes[i].info)
    && (forall i :: 0 <= i < |finishes| ==> !finishes[i].info.status.Running?)
    && (forall i, k :: 0 <= i < k < |finishes| ==> finishes[i].token != finishes[k].token)
    && (forall t: Token :: t in gens && !gens[t].info.status.Running? ==> FinishOf(finishes, t, gens[t].info))
    && (forall t: Token :: t in done ==> FinishOf(finishes, t, done[t]))
    && (forall t: Token :: t in closed ==> t in gens && !gens[t].info.status.Running?)
    && (forall i :: 0 <= i < |answers| ==> answers[i].token in done && answers[i].info == done[answers[i].token])
  }

  ghost predicate PromotedOnce(gens: map<Token, Active>, promotions: seq<Promotion>, promoted: map<Token, Info>) {
    && (forall i :: 0 <= i < |promotions| ==> promotions[i].token in gens && gens[promotions[i].token].info.background)
    && (forall i, k :: 0 <= i < k < |promotions| ==> promotions[i].token != promotions[k].token)
    && (forall t: Token ::
          t in promoted ==> exists i ::
              0 <= i < |promotions| && promotions[i].token == t && promotions[i].info == promoted[t])
  }

  ghost predicate Sound(s: State, t: Token)
    requires t in s.generations
  {
    var a := s.generations[t];
    && Numbered(a, s.runs, t) && Counted(a, s.runs, t, s.cancelled)
    && (t !in s.closed ==> Serial(a, s.runs, t))
  }

  ghost predicate Inv(s: State) {
    && Registry(s.jobs, s.generations)
    && Tails(s.generations, s.runs, s.cells, s.released)
    && Resolved(s.generations, s.finishes, s.done, s.closed, s.answers)
    && PromotedOnce(s.generations, s.promotions, s.promoted)
    && (forall t: Token :: t in s.generations ==> Sound(s, t))
  }

  // ---------------------------------------------------------------- counting lemmas

  ghost predicate SameSettled(runs: map<Key, Run>, runs': map<Key, Run>, t: Token, n: nat) {
    forall q: nat :: q < n ==>
      (t, q) in runs && (t, q) in runs' && runs[(t, q)].phase.Settled? == runs'[(t, q)].phase.Settled?
      && (runs[(t, q)].phase.Settled? ==> runs[(t, q)].phase == runs'[(t, q)].phase)
  }

  lemma {:induction false} CountFrame(runs: map<Key, Run>, runs': map<Key, Run>, t: Token, n: nat)
    requires SameSettled(runs, runs', t, n)
    ensures SettledCount(runs, t, n) == SettledCount(runs', t, n) && Latest(runs, t, n) == Latest(runs', t, n)
  {
    if n > 0 { CountFrame(runs, runs', t, n - 1); }
  }

  lemma {:induction false} CountBound(runs: map<Key, Run>, t: Token, n: nat)
    requires forall q: nat :: q < n ==> (t, q) in runs
    ensures SettledCount(runs, t, n) <= n
    ensures SettledCount(runs, t, n) == n <==> forall q: nat :: q < n ==> runs[(t, q)].phase.Settled?
    ensures Latest(runs, t, n).Some? ==> Latest(runs, t, n).value.sequence < n
  {
    if n > 0 { CountBound(runs, t, n - 1); }
  }

  /** One more settlement counts once, and merges into the latest output whatever order it comes in. */
  lemma {:induction false} CountSettle(runs: map<Key, Run>, t: Token, n: nat, q: nat, exit: Exit)
    requires forall k: nat :: k < n ==> (t, k) in runs
    requires q < n && !runs[(t, q)].phase.Settled?
    ensures var runs' := runs[(t, q) := runs[(t, q)].(phase := Settled(exit))];
      && SettledCount(runs', t, n) == SettledCount(runs, t, n) + 1
      && Latest(runs', t, n) == Merge(Latest(runs, t, n), q, exit)
  {
    var runs' := runs[(t, q) := runs[(t, q)].(phase := Settled(exit))];
    CountBound(runs, t, n - 1);
    if q == n - 1 {
      CountFrame(runs, runs', t, n - 1);
    } else {
      CountSettle(runs, t, n - 1, q, exit);
    }
  }

  // ---------------------------------------------------------------- preservation: runs

  /** Whether a change of one run's phase, other than by settling, is one that keeps runs in order. */
  ghost predicate PhaseStep(s: State, key: Key, phase: Phase) {
    && key in s.runs && !s.runs[key].phase.Released? && !s.runs[key].phase.Settled? && !phase.Settled? &&
         !phase.Waiting?
    && (Over(s.runs[key].phase) ==> Over(phase))
    && (s.runs[key].phase.Waiting? && key.0 !in s.closed ==> CanBegin(s, s.runs[key]))
  }

  lemma SerialStep(s: State, key: Key, phase: Phase, t: Token)
    requires Tails(s.generations, s.runs, s.cells, s.released) && PhaseStep(s, key, phase)
    requires t in s.generations && Numbered(s.generations[t], s.runs, t) && Serial(s.generations[t], s.runs, t) &&
               t !in s.closed
    ensures var runs := s.runs[key := s.runs[key].(phase := phase)];
      Numbered(s.generations[t], runs, t) && Serial(s.generations[t], runs, t)
  {
    var a := s.generations[t];
    var runs := s.runs[key := s.runs[key].(phase := phase)];
    if key.0 == t && s.runs[key].phase.Waiting? {
      assert forall q: nat :: q < key.1 ==> Over(s.runs[(t, q)].phase) by {
        if key.1 > 0 {
          assert key == (t, key.1);
          assert s.runs[key].previous == Some(s.runs[(t, key.1 - 1)].tail);
          assert Over(s.runs[(t, key.1 - 1)].phase);
        }
      }
    }
  }

  lemma PhaseStepKept(s: State, key: Key, phase: Phase, t: Token)
    requires Tails(s.generations, s.runs, s.cells, s.released) && PhaseStep(s, key, phase)
    requires t in s.generations && Sound(s, t)
    ensures Sound(s.(runs := s.runs[key := s.runs[key].(phase := phase)]), t)
  {
    var a := s.generations[t];
    var runs := s.runs[key := s.runs[key].(phase := phase)];
    hide Counted;
    assert Numbered(a, runs, t) by { hide Serial, Tails; }
    if t !in s.closed { SerialStep(s, key, phase, t); }
    hide Serial, Tails;
    CountedStep(a, s.runs, runs, t, s.cancelled);
  }

  /** What the registry says depends on nothing but the runs that have settled. */
  lemma CountedStep(a: Active, runs: map<Key, Run>, runs': map<Key, Run>, t: Token, cancelled: set<Token>)
    requires Numbered(a, runs, t) && Numbered(a, runs', t) && Counted(a, runs, t, cancelled)
    requires SameSettled(runs, runs', t, a.next)
    ensures Counted(a, runs', t, cancelled)
  {
    CountFrame(runs, runs', t, a.next);
    hide Numbered, Latest, SettledCount;
    forall q: nat, only | q < a.next && FailedWith(runs[(t, q)].phase, only, a.info.error)
      ensures FailedWith(runs'[(t, q)].phase, only, a.info.error)
    {
    }
  }

  /** The tails that are resolved once a run is in a phase. */
  ghost function ReleasedBy(s: State, key: Key, phase: Phase): set<Cell>
    requires key in s.runs
  {
    if phase.Released? then s.released + {s.runs[key].tail} else s.released
  }

  /** How many steps a run may still take. */
  function Rank(p: Phase): nat {
    match p
    case Waiting => 4
    case Executing => 3
    case Ended(_) => 2
    case Released(_) => 1
    case Settled(_) => 0
  }

  lemma RunShape(s: State, e: Event) returns (phase: Phase, released: set<Cell>)
    requires Inv(s) && Enabled(s, e) && (e.Begin? || e.End? || e.Interrupt? || e.Release?)
    ensures e.key in s.runs && PhaseStep(s, e.key, phase)
    ensures Next(s, e) == s.(runs := s.runs[e.key := s.runs[e.key].(phase := phase)], released := released)
    ensures released == ReleasedBy(s, e.key, phase) && Rank(phase) < Rank(s.runs[e.key].phase)
  {
    hide Sound, Registry, Tails, Resolved, PromotedOnce;
    var s' := Next(s, e);
    phase, released := s'.runs[e.key].phase, s'.released;
  }

  lemma RunTails(s: State, key: Key, phase: Phase, released: set<Cell>)
    requires Tails(s.generations, s.runs, s.cells, s.released) && PhaseStep(s, key, phase)
    requires released == ReleasedBy(s, key, phase)
    ensures Tails(s.generations, s.runs[key := s.runs[key].(phase := phase)], s.cells, released)
  {
    var runs := s.runs[key := s.runs[key].(phase := phase)];
  }

  lemma RunEventKept(s: State, e: Event)
    requires Inv(s) && Enabled(s, e) && (e.Begin? || e.End? || e.Interrupt? || e.Release?)
    ensures Inv(Next(s, e))
  {
    hide Next, Sound, Registry, Tails, Resolved, PromotedOnce, PhaseStep, Enabled;
    var phase, released := RunShape(s, e);
    var s' := Next(s, e);
    forall t | t in s.generations ensures Sound(s', t) {
      PhaseStepKept(s, e.key, phase, t);
      SoundIgnoresReleases(s.(runs := s'.runs), released, t);
    }
    RunTails(s, e.key, phase, released);
  }

  lemma SoundIgnoresReleases(s: State, released: set<Cell>, t: Token)
    requires t in s.generations && Sound(s, t)
    ensures Sound(s.(released := released), t)
  {
  }

  // ---------------------------------------------------------------- preservation: transitions

  /** A generation is unaffected by whatever leaves its entry and its runs alone. */
  lemma SoundFrame(s: State, s': State, t: Token)
    requires t in s.generations && t in s'.generations && Sound(s, t) && s'.generations[t] == s.generations[t]
    requires forall q: nat ::
               ((t, q) in s.runs <==> (t, q) in s'.runs) && ((t, q) in s.runs ==> s'.runs[(t, q)] == s.runs[(t, q)])
    requires s.cancelled <= s'.cancelled && s.closed <= s'.closed
    ensures Sound(s', t)
  {
    CountFrame(s.runs, s'.runs, t, s.generations[t].next);
  }

  /** A transition that touches one job and keeps its identity. */
  predicate Retouches(jobs: Jobs, id: string, jobs': Jobs) {
    || jobs' == jobs
    || (id in jobs && id in jobs' && jobs' == jobs[id := jobs'[id]] && jobs[id].info.status.Running?
        && jobs'[id].token == jobs[id].token && jobs'[id].info.id == jobs[id].info.id)
  }

  lemma RegistryRetouched(jobs: Jobs, gens: map<Token, Active>, id: string, jobs': Jobs)
    requires Registry(jobs, gens) && Retouches(jobs, id, jobs')
    ensures var gens' := Remember(gens, jobs', id);
      && Registry(jobs', gens') && gens'.Keys == gens.Keys
      && (forall t: Token :: t in gens && (id !in jobs || t != jobs[id].token) ==> gens'[t] == gens[t])
      && (forall t: Token :: t in gens ==> gens'[t].info.id == gens[t].info.id && gens'[t].token == gens[t].token)
  {
    var gens' := Remember(gens, jobs', id);
    assert gens'.Keys == gens.Keys;
    assert |gens'| == |gens'.Keys| && |gens| == |gens.Keys|;
  }

  lemma StartShape(s: State, e: Event)
    requires Registry(s.jobs, s.generations) && e.Start? && Next(s, e) != s
    ensures var s' := Next(s, e);
      var t := Fresh(s);
      && t !in s.generations && e.id in s'.jobs && (e.id in s.jobs ==> !s.jobs[e.id].info.status.Running?)
      && s'.jobs[e.id] == Active(Info(e.id, e.typ, Running, None, None, e.background, e.now, None), t, 1, 1, None,
           s.cells, e.hook)
      && s' == s.(jobs := s.jobs[e.id := s'.jobs[e.id]], generations := s.generations[t := s'.jobs[e.id]],
           cells := s.cells + 1,
                  runs := s.runs[(t, 0) := Run(e.id, None, s.cells, Waiting)])
  {
  }

  lemma StartRegistry(jobs: Jobs, gens: map<Token, Active>, id: string, a: Active)
    requires Registry(jobs, gens) && a.token == |gens| && a.info.id == id && a.info.status.Running?
    requires id in jobs ==> !jobs[id].info.status.Running?
    ensures Registry(jobs[id := a], gens[|gens| := a])
  {
    var t := |gens|;
    var gens' := gens[t := a];
    OneMore(gens, t, a);
    forall u | u in gens' && gens'[u].info.status.Running?
      ensures gens'[u].info.id in jobs[id := a] && jobs[id := a][gens'[u].info.id].token == u
    {
      assert u == t || jobs[gens[u].info.id].token == u;
    }
  }

  lemma OneMore(gens: map<Token, Active>, t: Token, a: Active)
    requires t !in gens
    ensures |gens[t := a]| == |gens| + 1
  {
    assert gens[t := a].Keys == gens.Keys + {t} && |gens[t := a].Keys| == |gens[t := a]| && |gens.Keys| == |gens|;
  }

  lemma StartTails(gens: map<Token, Active>, runs: map<Key, Run>, cells: nat, released: set<Cell>, a: Active)
    requires Tails(gens, runs, cells, released) && |gens| !in gens
    ensures Tails(gens[|gens| := a], runs[(|gens|, 0) := Run(a.info.id, None, cells, Waiting)], cells + 1, released)
    ensures forall k :: k in runs ==> k.0 != |gens|
  {
  }

  lemma StartResolved(s: State, a: Active)
    requires Resolved(s.generations, s.finishes, s.done, s.closed, s.answers)
    requires PromotedOnce(s.generations, s.promotions, s.promoted)
    requires Fresh(s) !in s.generations && a.info.status.Running?
    ensures Resolved(s.generations[Fresh(s) := a], s.finishes, s.done, s.closed, s.answers)
    ensures PromotedOnce(s.generations[Fresh(s) := a], s.promotions, s.promoted)
    ensures Fresh(s) !in s.closed
  {
  }

  lemma FirstRunSound(s: State, t: Token)
    requires t in s.generations && t !in s.closed && (t, 0) in s.runs && forall k ::
               k in s.runs && k.0 == t ==> k == (t, 0)
    requires var a := s.generations[t];
      a.info.status.Running? && a.info.output.None? && a.pending == a.next == 1 && a.output.None? &&
          a.tail == s.runs[(t, 0)].tail
    requires s.runs[(t, 0)].phase.Waiting? && s.runs[(t, 0)].previous.None?
    ensures Sound(s, t)
  {
    assert forall q: nat :: (t, q) in s.runs ==> (t, q) == (t, 0);
    assert SettledCount(s.runs, t, 1) == SettledCount(s.runs, t, 0);
    assert Latest(s.runs, t, 1) == Latest(s.runs, t, 0);
  }

  lemma StartKept(s: State, e: Event)
    requires Inv(s) && e.Start?
    ensures Inv(Next(s, e))
  {
    hide Next, Sound, Registry, Tails, Resolved, PromotedOnce;
    var s' := Next(s, e);
    if s' != s {
      StartShape(s, e);
      var t, a := Fresh(s), s'.jobs[e.id];
      StartRegistry(s.jobs, s.generations, e.id, a);
      StartTails(s.generations, s.runs, s.cells, s.released, a);
      StartResolved(s, a);
      forall u | u in s'.generations ensures Sound(s', u) {
        if u == t { FirstRunSound(s', t); } else { SoundFrame(s, s', u); }
      }
    }
  }

  lemma ExtendShape(s: State, e: Event)
    requires Registry(s.jobs, s.generations) && e.Extend? && Next(s, e) != s
    ensures e.id in s.jobs
    ensures var s' := Next(s, e);
      var a := s.jobs[e.id];
      && a.info.status.Running? && a.token in s.generations && s.generations[a.token] == a && a.info.id == e.id
      && s' == s.(jobs := s.jobs[e.id := s'.generations[a.token]], cells := s.cells + 1,
                  generations := s.generations[a.token := a.(pending := a.pending + 1, next := a.next + 1,
                      tail := s.cells)],
                  runs := s.runs[(a.token, a.next) := Run(e.id, Some(a.tail), s.cells, Waiting)])
  {
  }

  lemma NextRunSound(s: State, t: Token, run: Run)
    requires t in s.generations && Sound(s, t) && s.generations[t].info.status.Running?
    requires run.phase.Waiting? && run.previous == Some(s.generations[t].tail)
    ensures var a := s.generations[t];
      Sound(s.(generations := s.generations[t := a.(pending := a.pending + 1, next := a.next + 1, tail := run.tail)],
               runs := s.runs[(t, a.next) := run]), t)
    ensures (t, s.generations[t].next) !in s.runs
  {
    var a := s.generations[t];
    CountFrame(s.runs, s.runs[(t, a.next) := run], t, a.next);
  }

  lemma ExtendRest(s: State, t: Token, a: Active, run: Run)
    requires Inv(s) && t in s.generations && s.generations[t].info.status.Running?
    requires a.info == s.generations[t].info && run.id == a.info.id && run.tail == s.cells && run.phase.Waiting?
    requires (t, s.generations[t].next) !in s.runs
    ensures Tails(s.generations[t := a], s.runs[(t, s.generations[t].next) := run], s.cells + 1, s.released)
    ensures Resolved(s.generations[t := a], s.finishes, s.done, s.closed, s.answers)
    ensures PromotedOnce(s.generations[t := a], s.promotions, s.promoted)
  {
    hide Sound, Registry;
  }

  lemma ExtendElsewhere(s: State, s': State, t: Token, run: Run)
    requires t in s.generations && s'.closed == s.closed && s'.cancelled == s.cancelled
    requires s'.runs == s.runs[(t, s.generations[t].next) := run]
    requires t in s'.generations && s'.generations == s.generations[t := s'.generations[t]]
    requires forall u: Token :: u in s.generations && u != t ==> Sound(s, u)
    ensures forall u: Token :: u in s.generations && u != t ==> Sound(s', u)
  {
    hide Sound;
    forall u: Token | u in s.generations && u != t ensures Sound(s', u) { SoundFrame(s, s', u); }
  }

  lemma ExtendKept(s: State, e: Event)
    requires Inv(s) && e.Extend?
    ensures Inv(Next(s, e))
  {
    hide Next, Sound, Registry, Tails, Resolved, PromotedOnce;
    var s' := Next(s, e);
    if s' != s {
      ExtendShape(s, e);
      var t := s.jobs[e.id].token;
      var run := Run(e.id, Some(s.generations[t].tail), s.cells, Waiting);
      RegistryRetouched(s.jobs, s.generations, e.id, s'.jobs);
      NextRunSound(s, t, run);
      SoundFrame'(s, s', t);
      ExtendRest(s, t, s'.generations[t], run);
      ExtendElsewhere(s, s', t, run);
    }
  }

  /** The soundness of a generation depends on nothing but its entry, the runs, the closed and the cancelled tokens. */
  lemma SoundFrame'(s: State, s': State, t: Token)
    requires t in s'.generations
    ensures var like := s.(generations := s'.generations, runs := s'.runs, closed := s'.closed,
                           cancelled := s'.cancelled);
            Sound(like, t) <==> Sound(s', t)
  {
  }

  lemma CancelShape(s: State, e: Event)
    requires Registry(s.jobs, s.generations) && e.Cancel? && CancelJob(s.jobs, e.id, e.now).0.Some?
    ensures e.id in s.jobs
    ensures var a := s.jobs[e.id];
      var t := a.token;
      var a' := a.(onPromote := None, pending := 0, info := a.info.(status := Cancelled, completedAt := Some(e.now)));
      && a.info.status.Running? && t in s.generations && s.generations[t] == a && a.info.id == e.id
      && Next(s, e) == s.(jobs := s.jobs[e.id := a'], generations := s.generations[t := a'],
                          finishes := s.finishes + [Finish(t, a'.info)], cancelled := s.cancelled + {t})
  {
  }

  /** A generation whose entry ends as cancelled on request. */
  lemma CancelledSound(s: State, s': State, t: Token)
    requires t in s.generations && Sound(s, t) && s'.runs == s.runs && s'.closed == s.closed && t in s'.cancelled
    requires t in s'.generations && s'.generations[t].info.status.Cancelled?
    requires s'.generations[t].next == s.generations[t].next && s'.generations[t].tail == s.generations[t].tail
    ensures Sound(s', t)
  {
  }

  lemma CancelKept(s: State, e: Event)
    requires Inv(s) && e.Cancel?
    ensures Inv(Next(s, e))
  {
    hide Sound, Registry, Tails, Resolved, PromotedOnce;
    if CancelJob(s.jobs, e.id, e.now).0.Some? {
      CancelShape(s, e);
      hide Next, CancelJob;
      var s' := Next(s, e);
      var t := s.jobs[e.id].token;
      RegistryRetouched(s.jobs, s.generations, e.id, s'.jobs);
      forall u | u in s'.generations ensures Sound(s', u) {
        if u == t { CancelledSound(s, s', t); } else { SoundFrame(s, s', u); }
      }
      FinishKept(s, t, s'.jobs[e.id], s'.generations);
    } else {
      NothingRemembered(s, e.id);
    }
  }

  lemma NothingRemembered(s: State, id: string)
    requires Registry(s.jobs, s.generations)
    ensures Remember(s.generations, s.jobs, id) == s.generations
  {
  }

  /** What a transition that ends a generation adds to the finishes. */
  lemma FinishKept(s: State, t: Token, a: Active, gens: map<Token, Active>)
    requires Inv(s) && t in s.generations && s.generations[t].info.status.Running? && !a.info.status.Running?
    requires gens == s.generations[t := a]
    requires a.info.id == s.generations[t].info.id && a.info.background == s.generations[t].info.background
    ensures Resolved(gens, s.finishes + [Finish(t, a.info)], s.done, s.closed, s.answers)
    ensures PromotedOnce(gens, s.promotions, s.promoted)
    ensures Tails(gens, s.runs, s.cells, s.released)
  {
    hide Sound, Registry;
    var finishes := s.finishes + [Finish(t, a.info)];
    assert forall i :: 0 <= i < |s.finishes| ==> s.finishes[i].token != t;
    assert finishes[|s.finishes|] == Finish(t, a.info);
    forall u | u in gens && !gens[u].info.status.Running? ensures FinishOf(finishes, u, gens[u].info) {
      if u != t {
        var i :| 0 <= i < |s.finishes| && s.finishes[i] == Finish(u, gens[u].info);
        assert finishes[i] == Finish(u, gens[u].info);
      }
    }
    forall u | u in s.done ensures FinishOf(finishes, u, s.done[u]) {
      var i :| 0 <= i < |s.finishes| && s.finishes[i] == Finish(u, s.done[u]);
      assert finishes[i] == Finish(u, s.done[u]);
    }
  }

  lemma PromoteShape(s: State, e: Event)
    requires Registry(s.jobs, s.generations) && e.Promote? && PromoteJob(s.jobs, e.id).0.Some?
    ensures e.id in s.jobs
    ensures var a := s.jobs[e.id];
      var t := a.token;
      var a' := a.(onPromote := None, info := a.info.(background := true));
      && a.info.status.Running? && !a.info.background && t in s.generations && s.generations[t] == a &&
           a.info.id == e.id
      && Next(s, e) == s.(jobs := s.jobs[e.id := a'], generations := s.generations[t := a'],
                          promotions := s.promotions + [Promotion(t, a'.info, a.onPromote)])
  {
  }

  lemma PromotedSound(s: State, s': State, t: Token)
    requires t in s.generations && Sound(s, t) && s'.runs == s.runs && s'.closed == s.closed &&
               s'.cancelled == s.cancelled
    requires t in s'.generations && s'.generations[t].info.status == s.generations[t].info.status == Running
    requires var a := s.generations[t]; s'.generations[t] == a.(onPromote := None, info := a.info.(background := true))
    ensures Sound(s', t)
  {
  }

  lemma PromotionKept(s: State, t: Token, a: Active, p: Promotion)
    requires Inv(s) && t in s.generations && s.generations[t].info.status.Running? && !s.generations[t].info.background
    requires a.info == s.generations[t].info.(background := true) && p.token == t
    ensures PromotedOnce(s.generations[t := a], s.promotions + [p], s.promoted)
    ensures Resolved(s.generations[t := a], s.finishes, s.done, s.closed, s.answers)
    ensures Tails(s.generations[t := a], s.runs, s.cells, s.released)
  {
    hide Sound, Registry;
    assert forall i :: 0 <= i < |s.promotions| ==> s.promotions[i].token != t;
    forall u | u in s.promoted
      ensures exists i ::
                0 <= i < |s.promotions + [p]| && (s.promotions + [p])[i].token == u &&
                    (s.promotions + [p])[i].info == s.promoted[u]
    {
      var i :| 0 <= i < |s.promotions| && s.promotions[i].token == u && s.promotions[i].info == s.promoted[u];
      assert (s.promotions + [p])[i] == s.promotions[i];
    }
  }

  lemma PromoteKept(s: State, e: Event)
    requires Inv(s) && e.Promote?
    ensures Inv(Next(s, e))
  {
    hide Sound, Registry, Tails, Resolved, PromotedOnce;
    if PromoteJob(s.jobs, e.id).0.Some? {
      PromoteShape(s, e);
      hide Next, PromoteJob;
      var s' := Next(s, e);
      var t := s.jobs[e.id].token;
      RegistryRetouched(s.jobs, s.generations, e.id, s'.jobs);
      forall u | u in s'.generations ensures Sound(s', u) {
        if u == t { PromotedSound(s, s', t); } else { SoundFrame(s, s', u); }
      }
      PromotionKept(s, t, s'.jobs[e.id], s'.promotions[|s.promotions|]);
    } else {
      NothingRemembered(s, e.id);
    }
  }

  // ---------------------------------------------------------------- preservation: settlements

  function SettledRuns(runs: map<Key, Run>, key: Key): map<Key, Run>
    requires key in runs && runs[key].phase.Released?
  {
    runs[key := runs[key].(phase := Settled(runs[key].phase.exit))]
  }

  /** The entry of a running generation after one of its runs has settled. */
  function SettledEntry(a: Active, sequence: nat, exit: Exit, now: int): Active {
    var output := Merge(a.output, sequence, exit);
    if exit.Success? && a.pending > 1 then a.(pending := a.pending - 1, output := output)
    else
      a.(onPromote := None, pending := 0, output := output, info := a.info.(
        status := EndStatus(exit), completedAt := Some(now),
        output := if output.Some? then Some(output.value.text) else a.info.output,
        error := if exit.Failure? then Some(exit.message) else a.info.error))
  }

  lemma SettleShape(s: State, e: Event)
    requires Registry(s.jobs, s.generations) && Tails(s.generations, s.runs, s.cells, s.released)
    requires e.Settle? && Enabled(s, e)
    ensures var t := e.key.0;
      var runs := SettledRuns(s.runs, e.key);
      && t in s.generations
      && var a := s.generations[t];
      if a.info.status.Running? then
        var a' := SettledEntry(a, e.key.1, s.runs[e.key].phase.exit, e.now);
        && a.info.id in s.jobs && s.jobs[a.info.id] == a
        && Next(s, e) == s.(jobs := s.jobs[a.info.id := a'], generations := s.generations[t := a'], runs := runs,
             finishes := if a'.info.status.Running? then s.finishes else s.finishes + [Finish(t, a'.info)])
      else Next(s, e) == s.(runs := runs)
  {
    NothingRemembered(s, s.runs[e.key].id);
    var a := s.generations[e.key.0];
    assert s.runs[e.key].id == a.info.id;
    if a.info.status.Running? {
      assert s.jobs[a.info.id] == a;
      hide Registry, Tails, Merge;
    }
  }

  /** Settling a run of a generation that is still running: its entry follows. */
  lemma SettleSound(s: State, s': State, key: Key, now: int)
    requires key in s.runs && s.runs[key].phase.Released? && key.0 in s.generations && Sound(s, key.0)
    requires s.generations[key.0].info.status.Running?
    requires s'.runs == SettledRuns(s.runs, key) && s'.closed == s.closed && s'.cancelled == s.cancelled
    requires key.0 in s'.generations
    requires s'.generations[key.0] == SettledEntry(s.generations[key.0], key.1, s.runs[key].phase.exit, now)
    ensures Sound(s', key.0)
  {
    var t := key.0;
    var a := s.generations[t];
    assert key == (t, key.1) && key.1 < a.next;
    hide Counted, Latest, SettledCount;
    assert Numbered(s'.generations[t], s'.runs, t);
    SettleCounted(a, s.runs, s.cancelled, key, now);
  }

  lemma SettleCounted(a: Active, runs: map<Key, Run>, cancelled: set<Token>, key: Key, now: int)
    requires key in runs && runs[key].phase.Released? && key.1 < a.next && a.info.status.Running?
    requires Numbered(a, runs, key.0) && Counted(a, runs, key.0, cancelled)
    requires Numbered(SettledEntry(a, key.1, runs[key].phase.exit, now), SettledRuns(runs, key), key.0)
    ensures Counted(SettledEntry(a, key.1, runs[key].phase.exit, now), SettledRuns(runs, key), key.0, cancelled)
  {
    var t, runs' := key.0, SettledRuns(runs, key);
    CountSettle(runs, t, a.next, key.1, runs[key].phase.exit);
    CountBound(runs', t, a.next);
    assert key == (t, key.1);
    var exit := runs[key].phase.exit;
    assert exit.Failure? ==> FailedWith(runs'[(t, key.1)].phase, exit.interruptedOnly, Some(exit.message));
    assert forall q: nat :: q < a.next && q != key.1 ==> runs'[(t, q)] == runs[(t, q)];
  }

  /** Settling a run of a generation that has ended already: it was not one that completed. */
  lemma LateSettleSound(s: State, s': State, key: Key)
    requires key in s.runs && s.runs[key].phase.Released? && key.0 in s.generations && Sound(s, key.0)
    requires !s.generations[key.0].info.status.Running?
    requires s'.runs == SettledRuns(s.runs, key) && s'.closed == s.closed && s'.cancelled == s.cancelled
    requires s'.generations == s.generations
    ensures Sound(s', key.0)
  {
    var t := key.0;
    var a := s.generations[t];
    assert key == (t, key.1) && key.1 < a.next;
    forall q: nat, interruptedOnly | q < a.next && FailedWith(s.runs[(t, q)].phase, interruptedOnly, a.info.error)
      ensures FailedWith(s'.runs[(t, q)].phase, interruptedOnly, a.info.error)
    {
    }
  }

  lemma SettleTails(gens: map<Token, Active>, runs: map<Key, Run>, cells: nat, released: set<Cell>, key: Key)
    requires Tails(gens, runs, cells, released) && key in runs && runs[key].phase.Released?
    ensures Tails(gens, SettledRuns(runs, key), cells, released)
  {
  }

  lemma SettleElsewhere(s: State, s': State, key: Key, u: Token)
    requires key in s.runs && s.runs[key].phase.Released? && u in s.generations && u != key.0 && Sound(s, u)
    requires s'.runs == SettledRuns(s.runs, key) && s'.closed == s.closed && s'.cancelled == s.cancelled
    requires u in s'.generations && s'.generations[u] == s.generations[u]
    ensures Sound(s', u)
  {
    hide Sound;
    SoundFrame(s, s', u);
  }

  lemma SettledIdentity(a: Active, sequence: nat, exit: Exit, now: int)
    requires a.info.status.Running?
    ensures var a' := SettledEntry(a, sequence, exit, now);
      && a'.token == a.token && a'.info.id == a.info.id && a'.info.background == a.info.background
      && (a'.info.status.Running? ==> a'.info == a.info)
  {
  }

  /** An update of a running entry that leaves its snapshot alone. */
  lemma EntryKept(s: State, t: Token, a: Active)
    requires Inv(s) && t in s.generations && a.info == s.generations[t].info
    ensures Resolved(s.generations[t := a], s.finishes, s.done, s.closed, s.answers)
    ensures PromotedOnce(s.generations[t := a], s.promotions, s.promoted)
    ensures Tails(s.generations[t := a], s.runs, s.cells, s.released)
  {
    hide Sound, Registry;
  }

  lemma SettleKept(s: State, e: Event)
    requires Inv(s) && e.Settle? && Enabled(s, e)
    ensures Inv(Next(s, e))
  {
    hide Next, Sound, Registry, Tails, Resolved, PromotedOnce, SettledRuns, SettledEntry;
    SettleShape(s, e);
    var s' := Next(s, e);
    var t := e.key.0;
    var a := s.generations[t];
    forall u | u in s.generations && u != t ensures Sound(s', u) { SettleElsewhere(s, s', e.key, u); }
    if a.info.status.Running? {
      var a' := s'.generations[t];
      SettleSound(s, s', e.key, e.now);
      SettledIdentity(a, e.key.1, s.runs[e.key].phase.exit, e.now);
      assert s.jobs[a.info.id].token == t by { RunningIsCurrent(s.jobs, s.generations, t); }
      RegistryRetouched(s.jobs, s.generations, a.info.id, s'.jobs);
      assert Remember(s.generations, s'.jobs, a.info.id) == s'.generations;
      if a'.info.status.Running? { EntryKept(s, t, a'); } else { FinishKept(s, t, a', s'.generations); }
      SettleTails(s'.generations, s.runs, s.cells, s.released, e.key);
    } else {
      LateSettleSound(s, s', e.key);
      SettleTails(s.generations, s.runs, s.cells, s.released, e.key);
    }
  }

  lemma RunningIsCurrent(jobs: Jobs, gens: map<Token, Active>, t: Token)
    requires Registry(jobs, gens) && t in gens && gens[t].info.status.Running?
    ensures var id := gens[t].info.id; id in jobs && jobs[id] == gens[t] && jobs[id].token == t
  {
  }

  // ---------------------------------------------------------------- preservation: effects

  /**
   * An effect that only touches resolved cells, waiters and answers keeps everything but the cells themselves sound.
   */
  lemma EffectShape(s: State, e: Event)
    requires Enabled(s, e) && (e.ResolveDone? || e.ResolvePromoted? || e.Wait? || e.Answer?)
    ensures var s' := Next(s, e);
      s' == s.(done := s'.done, promoted := s'.promoted, waiters := s'.waiters, answers := s'.answers)
  {
  }

  lemma DoneResolved(s: State, e: Event)
    requires Resolved(s.generations, s.finishes, s.done, s.closed, s.answers) && Enabled(s, e)
    requires e.ResolveDone? || e.ResolvePromoted? || e.Wait? || e.Answer?
    ensures var s' := Next(s, e); Resolved(s.generations, s.finishes, s'.done, s.closed, s'.answers)
  {
    if e.ResolveDone? {
      var f := s.finishes[e.index];
      assert s.finishes[e.index] == Finish(f.token, f.info);
    }
  }

  lemma PromotedResolved(s: State, e: Event)
    requires PromotedOnce(s.generations, s.promotions, s.promoted) && Enabled(s, e)
    requires e.ResolveDone? || e.ResolvePromoted? || e.Wait? || e.Answer?
    ensures PromotedOnce(s.generations, s.promotions, Next(s, e).promoted)
  {
  }

  lemma EffectKept(s: State, e: Event)
    requires Inv(s) && Enabled(s, e) && (e.ResolveDone? || e.ResolvePromoted? || e.Wait? || e.Answer?)
    ensures Inv(Next(s, e))
  {
    hide Next, Enabled, Registry, Tails, Resolved, PromotedOnce, Sound;
    EffectShape(s, e);
    DoneResolved(s, e);
    PromotedResolved(s, e);
    forall t | t in s.generations ensures Sound(Next(s, e), t) { SoundFrame(s, Next(s, e), t); }
  }

  lemma CloseKept(s: State, e: Event)
    requires Inv(s) && Enabled(s, e) && e.CloseScope?
    ensures Inv(Next(s, e))
  {
    hide Registry, Tails, PromotedOnce, Sound;
    var s' := Next(s, e);
    forall t | t in s.generations ensures Sound(s', t) { SoundFrame(s, s', t); }
  }

  lemma NextKept(s: State, e: Event)
    requires Inv(s) && Enabled(s, e)
    ensures Inv(Next(s, e))
  {
    hide Inv, Next, Enabled;
    match e
    case Start(_, _, _, _, _) => StartKept(s, e);
    case Extend(_) => ExtendKept(s, e);
    case Begin(_) => RunEventKept(s, e);
    case End(_, _) => RunEventKept(s, e);
    case Interrupt(_) => RunEventKept(s, e);
    case Release(_) => RunEventKept(s, e);
    case Settle(_, _) => SettleKept(s, e);
    case Cancel(_, _) => CancelKept(s, e);
    case Promote(_) => PromoteKept(s, e);
    case CloseScope(_) => CloseKept(s, e);
    case _ => EffectKept(s, e);
  }

  lemma EmptyInv()
    ensures Inv(Empty())
  {
    var s := Empty();
    assert s.generations == map[] && |s.generations| == 0;
    assert s.jobs == map[];
    assert Registry(s.jobs, s.generations) && Tails(s.generations, s.runs, s.cells, s.released);
    assert Resolved(s.generations, s.finishes, s.done, s.closed, s.answers);
    assert PromotedOnce(s.generations, s.promotions, s.promoted);
  }

  lemma {:induction false} InvHolds(states: seq<State>, events: seq<Event>, i: nat)
    requires Runs(states, events) && i < |states|
    ensures Inv(states[i])
  {
    hide Inv, Next, Enabled;
    if i == 0 {
      EmptyInv();
    } else {
      InvHolds(states, events, i - 1);
      NextKept(states[i - 1], events[i - 1]);
    }
  }

  // ---------------------------------------------------------------- theorems

  /**
   * A generation ends `completed` only if every accepted run has settled and succeeded, and its output is then
   * the text of the highest run with a non-empty result, in whatever order the settlements came.
   */
  lemma CompletionIsExact(states: seq<State>, events: seq<Event>, i: nat, t: Token)
    requires Runs(states, events) && i < |states|
    requires t in states[i].generations && states[i].generations[t].info.status.Completed?
    ensures var s := states[i];
      var a := s.generations[t];
      && (forall q: nat :: (t, q) in s.runs <==> q < a.next)
      && AllSucceeded(s.runs, t, a.next)
      && TextOf(Latest(s.runs, t, a.next), a.info.output)
  {
    InvHolds(states, events, i);
    assert Sound(states[i], t);
  }

  /**
   * A generation that ends in `error` tells the message of a run that failed, and not by interruption alone; one that
   * ends `cancelled` was cancelled, or had a run that was only interrupted, whose message it tells.
   */
  lemma FailureIsReported(states: seq<State>, events: seq<Event>, i: nat, t: Token)
    requires Runs(states, events) && i < |states| && t in states[i].generations
    ensures var s := states[i];
      var info := s.generations[t].info;
      && (info.status.Error? ==>
            exists q: nat :: (t, q) in s.runs && FailedWith(s.runs[(t, q)].phase, false, info.error))
      && (info.status.Cancelled? ==>
            t in s.cancelled || exists q: nat :: (t, q) in s.runs && FailedWith(s.runs[(t, q)].phase, true, info.error))
  {
    hide Runs, Registry, Tails, Resolved, PromotedOnce, Sound, FailedWith;
    InvHolds(states, events, i);
    SoundFailure(states[i], t);
  }

  lemma SoundFailure(s: State, t: Token)
    requires t in s.generations && Sound(s, t)
    ensures var info := s.generations[t].info;
      && (info.status.Error? ==>
            exists q: nat :: (t, q) in s.runs && FailedWith(s.runs[(t, q)].phase, false, info.error))
      && (info.status.Cancelled? ==>
            t in s.cancelled || exists q: nat :: (t, q) in s.runs && FailedWith(s.runs[(t, q)].phase, true, info.error))
  {
    hide FailedWith, Latest, SettledCount, Serial;
  }

  /** Conversely, a generation whose runs have all succeeded and settled, and that nobody cancelled, has completed. */
  lemma SuccessCompletes(states: seq<State>, events: seq<Event>, i: nat, t: Token)
    requires Runs(states, events) && i < |states|
    requires var s := states[i];
      && t in s.generations && t !in s.cancelled
      && forall q: nat :: (t, q) in s.runs ==> s.runs[(t, q)].phase.Settled? && s.runs[(t, q)].phase.exit.Success?
    ensures states[i].generations[t].info.status.Completed?
  {
    InvHolds(states, events, i);
    hide Registry, Tails, Resolved, PromotedOnce, Runs;
    SoundSuccess(states[i], t);
  }

  lemma SoundSuccess(s: State, t: Token)
    requires t in s.generations && Sound(s, t) && t !in s.cancelled
    requires forall q: nat :: (t, q) in s.runs ==> s.runs[(t, q)].phase.Settled? && s.runs[(t, q)].phase.exit.Success?
    ensures s.generations[t].info.status.Completed?
  {
    CountBound(s.runs, t, s.generations[t].next);
  }

  /**
   * While a generation runs, at most one of its bodies executes, they begin in the order in which they were
   * accepted, and `pending` counts the accepted runs that have not settled, of which there is at least one.
   */
  lemma BodiesAreSerial(states: seq<State>, events: seq<Event>, i: nat, id: string)
    requires Runs(states, events) && i < |states|
    requires id in states[i].jobs && states[i].jobs[id].info.status.Running?
    ensures var s := states[i];
      var a := s.jobs[id];
      && (forall q: nat :: (a.token, q) in s.runs <==> q < a.next)
      && a.pending == a.next - SettledCount(s.runs, a.token, a.next) >= 1
      && (forall q: nat, k: nat ::
            q < k < a.next && !s.runs[(a.token, k)].phase.Waiting? ==> Over(s.runs[(a.token, q)].phase))
  {
    InvHolds(states, events, i);
    var s := states[i];
    var t := s.jobs[id].token;
    assert Sound(s, t);
    assert t !in s.closed;
  }

  /**
   * A generation leaves `running` at most once. Whatever `done` and its waiters get is the one snapshot with
   * which it did, and that snapshot is final; `promoted` and `onPromote` are handed out at most once.
   */
  lemma CellsResolveOnce(states: seq<State>, events: seq<Event>, i: nat)
    requires Runs(states, events) && i < |states|
    ensures var s := states[i];
      && (forall x, y :: 0 <= x < y < |s.finishes| ==> s.finishes[x].token != s.finishes[y].token)
      && (forall x :: 0 <= x < |s.finishes| ==>
            s.finishes[x].token in s.generations && s.generations[s.finishes[x].token].info == s.finishes[x].info)
      && (forall t: Token ::
            t in s.done ==> t in s.generations && s.done[t] == s.generations[t].info && !s.done[t].status.Running?)
      && (forall x :: 0 <= x < |s.answers| ==>
            s.answers[x].token in s.generations && s.answers[x].info == s.generations[s.answers[x].token].info)
      && (forall x, y :: 0 <= x < y < |s.promotions| ==> s.promotions[x].token != s.promotions[y].token)
  {
    InvHolds(states, events, i);
    hide Sound, Registry, Tails;
  }

  // ---------------------------------------------------------------- what has ended

  /** Only the entry of a running generation is replaced, or a new one added. */
  ghost predicate OnlyRunning(gens: map<Token, Active>, gens': map<Token, Active>) {
    forall t: Token :: t in gens && !gens[t].info.status.Running? ==> t in gens' && gens'[t] == gens[t]
  }

  lemma CancelReplaces(s: State, e: Event)
    requires Inv(s) && e.Cancel?
    ensures OnlyRunning(s.generations, Next(s, e).generations)
  {
    hide Sound, Tails, Resolved, PromotedOnce;
    if CancelJob(s.jobs, e.id, e.now).0.Some? {
      CancelShape(s, e);
      hide Next, Inv;
    } else {
      NothingRemembered(s, e.id);
    }
  }

  lemma PromoteReplaces(s: State, e: Event)
    requires Inv(s) && e.Promote?
    ensures OnlyRunning(s.generations, Next(s, e).generations)
  {
    hide Sound, Tails, Resolved, PromotedOnce;
    if PromoteJob(s.jobs, e.id).0.Some? {
      PromoteShape(s, e);
      hide Next, Inv;
    } else {
      NothingRemembered(s, e.id);
    }
  }

  lemma JobReplaces(s: State, e: Event)
    requires Inv(s) && Enabled(s, e) && (e.Start? || e.Extend? || e.Settle?)
    ensures OnlyRunning(s.generations, Next(s, e).generations)
  {
    hide Next, Enabled, SettledRuns, SettledEntry, Registry, Tails, Resolved, PromotedOnce, Sound;
    if Next(s, e) != s {
      match e {
        case Start(_, _, _, _, _) => StartShape(s, e);
        case Extend(_) => ExtendShape(s, e);
        case Settle(_, _) => SettleShape(s, e);
      }
    }
  }

  lemma RunReplaces(s: State, e: Event)
    requires Inv(s) && Enabled(s, e) && (e.Begin? || e.End? || e.Interrupt? || e.Release?)
    ensures OnlyRunning(s.generations, Next(s, e).generations)
  {
    hide Inv, Next, Enabled, PhaseStep;
    var phase, released := RunShape(s, e);
  }

  lemma CloseReplaces(s: State, e: Event)
    requires Enabled(s, e) && e.CloseScope?
    ensures OnlyRunning(s.generations, Next(s, e).generations)
  {
  }

  lemma EffectReplaces(s: State, e: Event)
    requires Enabled(s, e) && (e.ResolveDone? || e.ResolvePromoted? || e.Wait? || e.Answer?)
    ensures OnlyRunning(s.generations, Next(s, e).generations)
  {
    EffectShape(s, e);
    hide Next, Enabled;
  }

  lemma EndedStays(s: State, e: Event)
    requires Inv(s) && Enabled(s, e)
    ensures OnlyRunning(s.generations, Next(s, e).generations)
  {
    hide Inv, Next, Enabled, OnlyRunning;
    match e {
      case Start(_, _, _, _, _) => JobReplaces(s, e);
      case Extend(_) => JobReplaces(s, e);
      case Settle(_, _) => JobReplaces(s, e);
      case Cancel(_, _) => CancelReplaces(s, e);
      case Promote(_) => PromoteReplaces(s, e);
      case Begin(_) => RunReplaces(s, e);
      case End(_, _) => RunReplaces(s, e);
      case Interrupt(_) => RunReplaces(s, e);
      case Release(_) => RunReplaces(s, e);
      case CloseScope(_) => CloseReplaces(s, e);
      case _ => EffectReplaces(s, e);
    }
  }

  /** A generation that has ended never changes again, whatever runs of it settle late and whatever replaces it. */
  lemma {:induction false} EndedIsFinal(states: seq<State>, events: seq<Event>, i: nat, j: nat, t: Token)
    requires Runs(states, events) && i <= j < |states|
    requires t in states[i].generations && !states[i].generations[t].info.status.Running?
    ensures t in states[j].generations && states[j].generations[t] == states[i].generations[t]
    decreases j
  {
    hide Inv, Next, Enabled;
    if i < j {
      EndedIsFinal(states, events, i, j - 1, t);
      InvHolds(states, events, j - 1);
      EndedStays(states[j - 1], events[j - 1]);
    }
  }

  /** A generation that is not its job's current one, or has ended. */
  predicate Late(s: State, t: Token) {
    t in s.generations ==>
      var job := s.generations[t];
      !job.info.status.Running? || job.info.id !in s.jobs || s.jobs[job.info.id].token != t
  }

  /**
   * A settlement of a generation that is not the job's current one, or that has ended, is only a run that is over: no
   * job, no finish, no cell and no promotion changes.
   */
  lemma LateSettlementChangesNothing(states: seq<State>, events: seq<Event>, i: nat)
    requires Runs(states, events) && i < |events| && events[i].Settle?
    requires Late(states[i], events[i].key.0)
    ensures events[i].key in states[i].runs && states[i].runs[events[i].key].phase.Released?
    ensures states[i + 1] == states[i].(runs := SettledRuns(states[i].runs, events[i].key))
  {
    hide Next, Registry, Tails, Resolved, PromotedOnce, Sound;
    InvHolds(states, events, i);
    LateSettlement(states[i], events[i]);
  }

  lemma LateSettlement(s: State, e: Event)
    requires e.Settle? && Enabled(s, e) && Late(s, e.key.0)
    requires Registry(s.jobs, s.generations) && Tails(s.generations, s.runs, s.cells, s.released)
    ensures Next(s, e) == s.(runs := SettledRuns(s.runs, e.key))
  {
    hide Registry, Tails, Next, SettledRuns, SettledEntry;
    SettleShape(s, e);
    var t := e.key.0;
    if s.generations[t].info.status.Running? { RunningIsCurrent(s.jobs, s.generations, t); }
  }

  // ---------------------------------------------------------------- progress

  /** A run has a step to take, whatever the clock says and however its body ends. */
  ghost predicate CanGoOn(s: State, key: Key)
    requires key in s.runs
  {
    match s.runs[key].phase
    case Waiting => Enabled(s, Begin(key))
    case Executing => forall exit :: Enabled(s, End(key, exit))
    case Ended(_) => Enabled(s, Release(key))
    case Released(_) => forall now :: Enabled(s, Settle(key, now))
    case Settled(_) => false
  }

  /** The earliest run of a generation that has not settled. */
  lemma {:induction false} FirstUnsettled(runs: map<Key, Run>, t: Token, n: nat) returns (first: nat)
    requires (forall q: nat :: q < n ==> (t, q) in runs) && SettledCount(runs, t, n) < n
    ensures first < n && !runs[(t, first)].phase.Settled?
    ensures forall q: nat :: q < first ==> runs[(t, q)].phase.Settled?
  {
    CountBound(runs, t, n - 1);
    if SettledCount(runs, t, n - 1) < n - 1 { first := FirstUnsettled(runs, t, n - 1); } else { first := n - 1; }
  }

  /**
   * A running generation never gets stuck: its earliest run that has not settled can take its next step. If it waits,
   * the run before it has resolved its tail.
   */
  lemma JobGoesOn(states: seq<State>, events: seq<Event>, i: nat, id: string) returns (q: nat)
    requires Runs(states, events) && i < |states|
    requires id in states[i].jobs && states[i].jobs[id].info.status.Running?
    ensures var s := states[i];
      var a := s.jobs[id];
      && q < a.next && (a.token, q) in s.runs && CanGoOn(s, (a.token, q))
      && forall k: nat :: k < q ==> (a.token, k) in s.runs && s.runs[(a.token, k)].phase.Settled?
  {
    hide Inv, Runs, Numbered, CanGoOn;
    InvHolds(states, events, i);
    RunningHasWork(states[i], id);
    q := GoesOn(states[i], states[i].jobs[id]);
  }

  lemma RunningHasWork(s: State, id: string)
    requires Inv(s) && id in s.jobs && s.jobs[id].info.status.Running?
    ensures var a := s.jobs[id];
      && Numbered(a, s.runs, a.token) && Tails(s.generations, s.runs, s.cells, s.released)
      && SettledCount(s.runs, a.token, a.next) < a.next
  {
    hide Tails, Resolved, PromotedOnce, Numbered;
    assert Sound(s, s.jobs[id].token);
  }

  lemma GoesOn(s: State, a: Active) returns (q: nat)
    requires Numbered(a, s.runs, a.token) && Tails(s.generations, s.runs, s.cells, s.released)
    requires SettledCount(s.runs, a.token, a.next) < a.next
    ensures q < a.next && (a.token, q) in s.runs && CanGoOn(s, (a.token, q))
    ensures forall k: nat :: k < q ==> (a.token, k) in s.runs && s.runs[(a.token, k)].phase.Settled?
  {
    q := FirstUnsettled(s.runs, a.token, a.next);
    hide SettledCount;
    if q > 0 {
      assert s.runs[(a.token, q)].previous == Some(s.runs[(a.token, q - 1)].tail);
      assert s.runs[(a.token, q - 1)].tail in s.released;
    }
  }

  /** The steps that the first `n` runs of a generation may still take. */
  ghost function Work(runs: map<Key, Run>, t: Token, n: nat): (r: nat)
    requires forall q: nat :: q < n ==> (t, q) in runs
    ensures r <= 4 * n
  {
    if n == 0 then 0 else Work(runs, t, n - 1) + Rank(runs[(t, n - 1)].phase)
  }

  /** The event is a step of a run of the generation. */
  predicate StepOf(e: Event, t: Token) {
    match e
    case Begin(key) => key.0 == t
    case End(key, _) => key.0 == t
    case Interrupt(key) => key.0 == t
    case Release(key) => key.0 == t
    case Settle(key, _) => key.0 == t
    case _ => false
  }

  function StepsOf(events: seq<Event>, t: Token): nat {
    if events == [] then 0
    else StepsOf(events[..|events| - 1], t) + if StepOf(events[|events| - 1], t) then 1 else 0
  }

  ghost predicate SameRanks(runs: map<Key, Run>, runs': map<Key, Run>, t: Token, n: nat) {
    forall q: nat :: q < n ==> (t, q) in runs && (t, q) in runs' && runs'[(t, q)].phase == runs[(t, q)].phase
  }

  lemma {:induction false} WorkFrame(runs: map<Key, Run>, runs': map<Key, Run>, t: Token, n: nat)
    requires SameRanks(runs, runs', t, n)
    ensures Work(runs', t, n) == Work(runs, t, n)
  {
    if n > 0 { WorkFrame(runs, runs', t, n - 1); }
  }

  lemma {:induction false} WorkShrinks(runs: map<Key, Run>, t: Token, n: nat, q: nat, phase: Phase)
    requires (forall k: nat :: k < n ==> (t, k) in runs) && q < n && Rank(phase) < Rank(runs[(t, q)].phase)
    ensures Work(runs[(t, q) := runs[(t, q)].(phase := phase)], t, n) < Work(runs, t, n)
  {
    var runs' := runs[(t, q) := runs[(t, q)].(phase := phase)];
    if q == n - 1 { WorkFrame(runs, runs', t, n - 1); } else { WorkShrinks(runs, t, n - 1, q, phase); }
  }

  ghost predicate Lists(s: State, t: Token) {
    t in s.generations && forall q: nat :: (t, q) in s.runs <==> q < s.generations[t].next
  }

  /** What one event may do to the runs of a generation: nothing, a step of one of them, or one more that waits. */
  ghost predicate WorkDone(s: State, e: Event, s': State, t: Token)
    requires Lists(s, t)
  {
    && Lists(s', t)
    && var n, n' := s.generations[t].next, s'.generations[t].next;
    || (n' == n && SameRanks(s.runs, s'.runs, t, n) && !StepOf(e, t))
    || (n' == n && exists q: nat, phase ::
          q < n && Rank(phase) < Rank(s.runs[(t, q)].phase)
          && s'.runs == s.runs[(t, q) := s.runs[(t, q)].(phase := phase)])
    || (n' == n + 1 && SameRanks(s.runs, s'.runs, t, n) && !StepOf(e, t))
  }

  lemma WorkOfStart(s: State, e: Event, t: Token)
    requires Inv(s) && Lists(s, t) && e.Start?
    ensures WorkDone(s, e, Next(s, e), t)
  {
    hide Next, Registry, Tails, Resolved, PromotedOnce, Sound;
    if Next(s, e) != s { StartShape(s, e); }
  }

  lemma WorkOfExtend(s: State, e: Event, t: Token)
    requires Inv(s) && Lists(s, t) && e.Extend?
    ensures WorkDone(s, e, Next(s, e), t)
  {
    hide Next, Registry, Tails, Resolved, PromotedOnce, Sound;
    if Next(s, e) != s { ExtendShape(s, e); }
  }

  lemma WorkOfSettle(s: State, e: Event, t: Token)
    requires Inv(s) && Lists(s, t) && e.Settle? && Enabled(s, e)
    ensures WorkDone(s, e, Next(s, e), t)
  {
    hide Next, Registry, Tails, Resolved, PromotedOnce, Sound;
    SettleShape(s, e);
    if e.key.0 == t {
      var q, phase := e.key.1, Settled(s.runs[e.key].phase.exit);
      assert e.key == (t, q);
      assert Rank(phase) < Rank(s.runs[(t, q)].phase);
    }
  }

  lemma WorkOfRun(s: State, e: Event, t: Token)
    requires Inv(s) && Lists(s, t) && (e.Begin? || e.End? || e.Interrupt? || e.Release?) && Enabled(s, e)
    ensures WorkDone(s, e, Next(s, e), t)
  {
    hide Inv, Next, Enabled, PhaseStep;
    var phase, released := RunShape(s, e);
    if e.key.0 == t {
      assert e.key == (t, e.key.1);
    }
  }

  lemma WorkOfCancel(s: State, e: Event, t: Token)
    requires Registry(s.jobs, s.generations) && Lists(s, t) && e.Cancel?
    ensures WorkDone(s, e, Next(s, e), t)
  {
    hide Registry, Tails, Resolved, PromotedOnce, Sound;
    if CancelJob(s.jobs, e.id, e.now).0.Some? {
      CancelShape(s, e);
      hide Next;
    } else {
      NothingRemembered(s, e.id);
    }
  }

  lemma WorkOfPromote(s: State, e: Event, t: Token)
    requires Registry(s.jobs, s.generations) && Lists(s, t) && e.Promote?
    ensures WorkDone(s, e, Next(s, e), t)
  {
    hide Registry, Tails, Resolved, PromotedOnce, Sound;
    if PromoteJob(s.jobs, e.id).0.Some? {
      PromoteShape(s, e);
      hide Next;
    } else {
      NothingRemembered(s, e.id);
    }
  }

  lemma WorkOfEffect(s: State, e: Event, t: Token)
    requires Lists(s, t) && Enabled(s, e)
    requires e.CloseScope? || e.ResolveDone? || e.ResolvePromoted? || e.Wait? || e.Answer?
    ensures WorkDone(s, e, Next(s, e), t)
  {
    if !e.CloseScope? {
      EffectShape(s, e);
      hide Next, Enabled;
    }
  }

  lemma WorkOf(s: State, e: Event, t: Token)
    requires Inv(s) && Lists(s, t) && Enabled(s, e)
    ensures WorkDone(s, e, Next(s, e), t)
  {
    hide Next, Enabled, WorkDone, Lists, Registry, Tails, Resolved, PromotedOnce, Sound;
    match e
    case Start(_, _, _, _, _) => WorkOfStart(s, e, t);
    case Extend(_) => WorkOfExtend(s, e, t);
    case Settle(_, _) => WorkOfSettle(s, e, t);
    case Cancel(_, _) => WorkOfCancel(s, e, t);
    case Promote(_) => WorkOfPromote(s, e, t);
    case Begin(_) => WorkOfRun(s, e, t);
    case End(_, _) => WorkOfRun(s, e, t);
    case Interrupt(_) => WorkOfRun(s, e, t);
    case Release(_) => WorkOfRun(s, e, t);
    case _ => WorkOfEffect(s, e, t);
  }

  lemma WorkMeasured(s: State, e: Event, s': State, t: Token)
    requires Lists(s, t) && WorkDone(s, e, s', t)
    ensures Lists(s', t)
    ensures var n, n' := s.generations[t].next, s'.generations[t].next;
      Work(s'.runs, t, n') + (if StepOf(e, t) then 1 else 0) <= Work(s.runs, t, n) + 4 * (n' - n)
  {
    var n, n' := s.generations[t].next, s'.generations[t].next;
    if SameRanks(s.runs, s'.runs, t, n) && !StepOf(e, t) {
      WorkFrame(s.runs, s'.runs, t, n);
      if n' == n + 1 { assert Work(s'.runs, t, n') == Work(s'.runs, t, n) + Rank(s'.runs[(t, n)].phase); }
    } else {
      var q: nat, phase :| q < n && Rank(phase) < Rank(s.runs[(t, q)].phase)
                           && s'.runs == s.runs[(t, q) := s.runs[(t, q)].(phase := phase)];
      WorkShrinks(s.runs, t, n, q, phase);
    }
  }

  lemma SoundLists(s: State, t: Token)
    requires Inv(s) && t in s.generations
    ensures Lists(s, t)
  {
    assert Sound(s, t);
    hide Registry, Tails, Resolved, PromotedOnce, Counted, Serial;
  }

  /**
   * However a run of the system goes on, every step of a generation's runs uses up one of at most four that each
   * accepted run has. So a generation that is not extended for ever has ended after finitely many of them.
   */
  lemma {:induction false} StepsAreBounded(states: seq<State>, events: seq<Event>, i: nat, j: nat, t: Token)
    requires Runs(states, events) && i <= j < |states| && t in states[i].generations
    ensures Lists(states[i], t) && Lists(states[j], t)
    ensures var n, n' := states[i].generations[t].next, states[j].generations[t].next;
      StepsOf(events[i..j], t) + Work(states[j].runs, t, n') <= Work(states[i].runs, t, n) + 4 * (n' - n)
    decreases j
  {
    hide Inv, Next, Enabled, WorkDone, StepOf, Work, Lists;
    InvHolds(states, events, i);
    SoundLists(states[i], t);
    if i < j {
      StepsAreBounded(states, events, i, j - 1, t);
      InvHolds(states, events, j - 1);
      WorkOf(states[j - 1], events[j - 1], t);
      WorkMeasured(states[j - 1], events[j - 1], states[j], t);
      assert events[i..j][..j - i - 1] == events[i..j - 1];
    }
  }
}
