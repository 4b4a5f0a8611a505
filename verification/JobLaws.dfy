/**
 * What each call on the registry of jobs does in a run of the system, in terms of the state before it: which entry
 * changes and how, what is handed to the effects that follow, and when nothing changes at all.
 */
module JobLaws {
  import opened Wrappers
  import opened BackgroundJobs
  import opened JobRuns

  /** The job is there and running: what `start` refuses, and everything else asks for. */
  predicate IsRunning(s: State, id: string) {
    id in s.jobs && s.jobs[id].info.status == Running
  }

  /** The entry of a job, in the registry and among the generations, is replaced. */
  function Replaced(s: State, id: string, a: Active): State {
    s.(jobs := s.jobs[id := a], generations := s.generations[a.token := a])
  }

  lemma AnyRun(states: seq<State>, events: seq<Event>, i: nat)
    requires Runs(states, events) && i < |events|
    ensures |states| == |events| + 1 && Enabled(states[i], events[i]) && states[i + 1] == Next(states[i], events[i])
    ensures Registry(states[i].jobs, states[i].generations)
    ensures Tails(states[i].generations, states[i].runs, states[i].cells, states[i].released)
  {
    InvHolds(states, events, i);
  }

  // ---------------------------------------------------------------- cancel

  /**
   * Cancelling ends a running job, in the background or not, and with it its generation; the finish that it hands out
   * is the snapshot with which it ended. A job that is not there or not running is left alone.
   */
  lemma CancelExactly(states: seq<State>, events: seq<Event>, i: nat)
    requires Runs(states, events) && i < |events| && events[i].Cancel?
    ensures var s, id := states[i], events[i].id;
      if !IsRunning(s, id) then states[i + 1] == s
      else
        var a := s.jobs[id];
        var ended := a.info.(status := Cancelled, completedAt := Some(events[i].now));
        states[i + 1] == Replaced(s, id, Active(ended, a.token, 0, a.next, a.output, a.tail, None)).(
          finishes := s.finishes + [Finish(a.token, ended)], cancelled := s.cancelled + {a.token})
  {
    hide Runs, Registry, Tails;
    AnyRun(states, events, i);
    if IsRunning(states[i], events[i].id) {
      CancelShape(states[i], events[i]);
      hide Next;
    } else {
      NothingRemembered(states[i], events[i].id);
    }
  }

  /** And it stays cancelled, whatever its runs do afterwards and whatever is started under its name. */
  lemma CancelLasts(states: seq<State>, events: seq<Event>, i: nat, j: nat)
    requires Runs(states, events) && i < j < |states| && events[i].Cancel? && IsRunning(states[i], events[i].id)
    ensures var t := states[i].jobs[events[i].id].token;
      && t in states[j].generations
      && states[j].generations[t].info ==
           states[i].jobs[events[i].id].info.(status := Cancelled, completedAt := Some(events[i].now))
      && states[j].generations[t].pending == 0
  {
    hide Next;
    CancelExactly(states, events, i);
    EndedIsFinal(states, events, i + 1, j, states[i].jobs[events[i].id].token);
  }

  // ---------------------------------------------------------------- start and extend

  /**
   * Starting does nothing to a running job. Otherwise a new generation begins with one waiting run, which waits for
   * nobody, and takes the job's place in the registry; the one it replaces keeps its entry.
   */
  lemma StartExactly(states: seq<State>, events: seq<Event>, i: nat)
    requires Runs(states, events) && i < |events| && events[i].Start?
    ensures var s, e := states[i], events[i];
      var t := |s.generations|;
      if IsRunning(s, e.id) then states[i + 1] == s
      else
        && t !in s.generations
        && states[i + 1] == Replaced(s, e.id, Active(Info(e.id, e.typ, Running, None, None, e.background, e.now, None),
             t, 1, 1, None, s.cells, e.hook)).(
             cells := s.cells + 1, runs := s.runs[(t, 0) := Run(e.id, None, s.cells, Waiting)])
  {
    hide Runs, Tails;
    AnyRun(states, events, i);
  }

  /**
   * Extending is accepted exactly while the job runs. The new run is the next of its generation and waits for the tail
   * of the one before it.
   */
  lemma ExtendExactly(states: seq<State>, events: seq<Event>, i: nat)
    requires Runs(states, events) && i < |events| && events[i].Extend?
    ensures var s, id := states[i], events[i].id;
      if !IsRunning(s, id) then states[i + 1] == s
      else
        var a := s.jobs[id];
        states[i + 1] == Replaced(s, id, a.(pending := a.pending + 1, next := a.next + 1, tail := s.cells)).(
          cells := s.cells + 1, runs := s.runs[(a.token, a.next) := Run(id, Some(a.tail), s.cells, Waiting)])
  {
    hide Runs, Tails;
    AnyRun(states, events, i);
  }

  // ---------------------------------------------------------------- promote

  /**
   * A promotion is handed out, with the hook the job was started with, exactly when the job runs and is not yet in the
   * background. It moves there and gives up the hook.
   */
  lemma PromoteExactly(states: seq<State>, events: seq<Event>, i: nat)
    requires Runs(states, events) && i < |events| && events[i].Promote?
    ensures var s, id := states[i], events[i].id;
      if !IsRunning(s, id) || s.jobs[id].info.background then states[i + 1] == s
      else
        var a := s.jobs[id];
        var info := a.info.(background := true);
        states[i + 1] == Replaced(s, id, a.(info := info, onPromote := None)).(
          promotions := s.promotions + [Promotion(a.token, info, a.onPromote)])
  {
    hide Runs, Registry, Tails;
    AnyRun(states, events, i);
    var s, id := states[i], events[i].id;
    if IsRunning(s, id) && !s.jobs[id].info.background {
      PromoteShape(s, events[i]);
      hide Next;
    } else {
      NothingRemembered(s, id);
    }
  }

  // ---------------------------------------------------------------- settle

  /** What an entry knows of the output once a run has succeeded with a text: the later non-empty one wins. */
  function Newer(output: Option<Output>, sequence: nat, text: string): Option<Output> {
    if text == "" then output
    else if output != None && sequence <= output.value.sequence then output
    else Some(Output(sequence, text))
  }

  /** The snapshot with which a generation ends. */
  function Ended(info: Info, status: Status, output: Option<Output>, error: Option<string>, now: int): Info {
    Info(info.id, info.typ, status, if output != None then Some(output.value.text) else info.output,
         if error != None then error else info.error, info.background, info.startedAt, Some(now))
  }

  /**
   * A settlement counts only for the current, running generation of its job. A success that others still follow counts
   * down; the last success completes the job; a failure ends it at once, as cancelled if it was an interruption.
   */
  lemma SettleExactly(states: seq<State>, events: seq<Event>, i: nat)
    requires Runs(states, events) && i < |events| && events[i].Settle?
    ensures events[i].key in states[i].runs && states[i].runs[events[i].key].phase.Released?
    ensures var s, key, now := states[i], events[i].key, events[i].now;
      var run := s.runs[key];
      var runs := s.runs[key := run.(phase := Settled(run.phase.exit))];
      if !IsRunning(s, run.id) || s.jobs[run.id].token != key.0 then states[i + 1] == s.(runs := runs)
      else
        var a, t := s.jobs[run.id], key.0;
        match run.phase.exit
        case Success(text) =>
          var output := Newer(a.output, key.1, text);
          if a.pending > 1 then
            states[i + 1] == Replaced(s, run.id, a.(pending := a.pending - 1, output := output)).(runs := runs)
          else
            var info := Ended(a.info, Completed, output, None, now);
            states[i + 1] == Replaced(s, run.id, Active(info, t, 0, a.next, output, a.tail, None)).(
              runs := runs, finishes := s.finishes + [Finish(t, info)])
        case Failure(message, interruptedOnly) =>
          var info := Ended(a.info, if interruptedOnly then Cancelled else Error, a.output, Some(message), now);
          states[i + 1] == Replaced(s, run.id, Active(info, t, 0, a.next, a.output, a.tail, None)).(
            runs := runs, finishes := s.finishes + [Finish(t, info)])
  {
    hide Runs, Registry, Tails, Next;
    AnyRun(states, events, i);
    SettleShape(states[i], events[i]);
    CurrentGeneration(states[i], events[i].key);
  }

  /** The job of a run is at the run's generation exactly when that generation is the job's current one. */
  lemma CurrentGeneration(s: State, key: Key)
    requires Registry(s.jobs, s.generations) && Tails(s.generations, s.runs, s.cells, s.released) && key in s.runs
    ensures key.0 in s.generations && s.runs[key].id == s.generations[key.0].info.id
    ensures var id := s.runs[key].id;
      s.generations[key.0].info.status == Running <==> IsRunning(s, id) && s.jobs[id].token == key.0
  {
  }

  // ---------------------------------------------------------------- runs and effects

  function Put(s: State, key: Key, phase: JobRuns.Phase): State
    requires key in s.runs
  {
    s.(runs := s.runs[key := s.runs[key].(phase := phase)])
  }

  /**
   * A run begins once the tail it waits for is resolved; its body ends, or is interrupted with the closed scope of its
   * generation; then it resolves its own tail. Nothing else changes.
   */
  lemma RunStepsExactly(states: seq<State>, events: seq<Event>, i: nat)
    requires Runs(states, events) && i < |events|
    ensures var s, s' := states[i], states[i + 1];
      match events[i]
      case Begin(key) =>
        && key in s.runs && s.runs[key].phase == Waiting && s' == Put(s, key, Executing)
        && (s.runs[key].previous != None ==> s.runs[key].previous.value in s.released)
      case End(key, exit) => key in s.runs && s.runs[key].phase == Executing && s' == Put(s, key, JobRuns.Ended(exit))
      case Interrupt(key) =>
        && key in s.runs && s.runs[key].phase in [Waiting, Executing] && key.0 in s.closed
        && s' == Put(s, key, JobRuns.Ended(Failure("interrupted", true)))
      case Release(key) =>
        && key in s.runs && s.runs[key].phase.Ended?
        && s' == Put(s, key, Released(s.runs[key].phase.exit)).(released := s.released + {s.runs[key].tail})
      case _ => true
  {
    hide Registry, Tails;
    AnyRun(states, events, i);
    hide Runs;
  }

  /**
   * Resolving `done` gives it the snapshot with which its generation ended, whether or not it had it already; closing a
   * scope, waiting for a running job and answering a waiter with what `done` holds do that and nothing else.
   */
  lemma EffectsExactly(states: seq<State>, events: seq<Event>, i: nat)
    requires Runs(states, events) && i < |events|
    ensures var s, s' := states[i], states[i + 1];
      match events[i]
      case ResolveDone(n) => n < |s.finishes| && s' == s.(done := s.done[s.finishes[n].token := s.finishes[n].info])
      case CloseScope(n) => n < |s.finishes| && s' == s.(closed := s.closed + {s.finishes[n].token})
      case ResolvePromoted(n) =>
        && n < |s.promotions| && s.promotions[n].token in s'.promoted
        && s' == s.(promoted := s'.promoted) && s.promoted.Keys + {s.promotions[n].token} == s'.promoted.Keys
        && (s.promotions[n].token !in s.promoted ==> s'.promoted[s.promotions[n].token] == s.promotions[n].info)
      case Wait(id) => IsRunning(s, id) && s' == s.(waiters := s.waiters + {s.jobs[id].token})
      case Answer(token) =>
        token in s.waiters && token in s.done && s' == s.(answers := s.answers + [Finish(token, s.done[token])])
      case _ => true
  {
    hide Runs, Registry, Tails, Inv, Next, Resolved;
    AnyRun(states, events, i);
    InvHolds(states, events, i);
    EffectStep(states[i], events[i]);
    if events[i].ResolveDone? {
      EndsResolved(states[i]);
      DoneAgrees(states[i], events[i].index);
    }
  }

  lemma EndsResolved(s: State)
    requires Inv(s)
    ensures Resolved(s.generations, s.finishes, s.done, s.closed, s.answers)
  {
  }

  lemma EffectStep(s: State, e: Event)
    requires Enabled(s, e)
    ensures match e
      case ResolveDone(n) =>
        && n < |s.finishes|
        && var f := s.finishes[n];
        Next(s, e) == if f.token in s.done then s else s.(done := s.done[f.token := f.info])
      case CloseScope(n) => n < |s.finishes| && Next(s, e) == s.(closed := s.closed + {s.finishes[n].token})
      case ResolvePromoted(n) =>
        && n < |s.promotions|
        && var p := s.promotions[n];
        Next(s, e) == if p.token in s.promoted then s else s.(promoted := s.promoted[p.token := p.info])
      case Wait(id) => IsRunning(s, id) && Next(s, e) == s.(waiters := s.waiters + {s.jobs[id].token})
      case Answer(token) =>
        && token in s.waiters && token in s.done
        && Next(s, e) == s.(answers := s.answers + [Finish(token, s.done[token])])
      case _ => true
  {
  }

  /** What `done` holds is what every finish of its generation says. */
  lemma DoneAgrees(s: State, n: nat)
    requires Resolved(s.generations, s.finishes, s.done, s.closed, s.answers) && n < |s.finishes|
    ensures s.finishes[n].token in s.done ==> s.done[s.finishes[n].token] == s.finishes[n].info
  {
    var t := s.finishes[n].token;
    if t in s.done { assert FinishOf(s.finishes, t, s.done[t]); }
  }

  /** Whoever waits for a generation that has ended can be answered, and with the snapshot with which it ended. */
  lemma WaiterIsServed(states: seq<State>, events: seq<Event>, i: nat, t: Token) returns (n: nat)
    requires Runs(states, events) && i < |states| && t in states[i].waiters && t in states[i].generations
    requires states[i].generations[t].info.status != Running
    ensures Enabled(states[i], ResolveDone(n))
    ensures var s := Next(states[i], ResolveDone(n));
            && Enabled(s, Answer(t))
            && Next(s, Answer(t)).answers == s.answers + [Finish(t, states[i].generations[t].info)]
  {
    hide Runs, Inv, Next, Resolved;
    InvHolds(states, events, i);
    EndsResolved(states[i]);
    n := FinishAt(states[i], t);
    DoneAgrees(states[i], n);
    EffectStep(states[i], ResolveDone(n));
    var s := Next(states[i], ResolveDone(n));
    assert s.done.Keys == states[i].done.Keys + {t} && s.done[t] == states[i].generations[t].info;
    EffectStep(s, Answer(t));
  }

  lemma FinishAt(s: State, t: Token) returns (n: nat)
    requires Resolved(s.generations, s.finishes, s.done, s.closed, s.answers)
    requires t in s.generations && s.generations[t].info.status != Running
    ensures n < |s.finishes| && s.finishes[n] == Finish(t, s.generations[t].info)
  {
    assert FinishOf(s.finishes, t, s.generations[t].info);
    n :| 0 <= n < |s.finishes| && s.finishes[n] == Finish(t, s.generations[t].info);
  }
}
