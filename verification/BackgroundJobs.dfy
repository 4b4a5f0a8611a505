/**
 * The registry of packages/core/src/background-job.ts: the transitions that its `SynchronizedRef.modify` calls
 * apply to the map of jobs. Every generation of a job has its own token; its `done`, `promoted` and `scope`
 * are identified by that token. `tail` cells are numbered.
 */
module BackgroundJobs {
  import opened Wrappers

  datatype Status = Running | Completed | Error | Cancelled

  datatype Info = Info(id: string, typ: string, status: Status, output: Option<string>, error: Option<string>,
                       background: bool, startedAt: int, completedAt: Option<int>)

  datatype Output = Output(sequence: nat, text: string)

  /** How a run ended. */
  datatype Exit = Success(text: string) | Failure(message: string, interruptedOnly: bool)

  type Token = nat
  type Cell = nat
  type Hook = nat

  datatype Active = Active(info: Info, token: Token, pending: int, next: nat, output: Option<Output>, tail: Cell,
                           onPromote: Option<Hook>)

  type Jobs = map<string, Active>

  /** What a transition hands to the effects that follow it: the generation that has just ended, with its snapshot. */
  datatype Finish = Finish(token: Token, info: Info)
  datatype Promotion = Promotion(token: Token, info: Info, hook: Option<Hook>)
  datatype Extension = Extension(token: Token, sequence: nat, previous: Cell)

  function StartJob(jobs: Jobs, id: string, typ: string, background: bool, hook: Option<Hook>, now: int,
                    token: Token, tail: Cell): (bool, Jobs) {
    if id in jobs && jobs[id].info.status.Running? then (false, jobs)
    else
      var info := Info(id, typ, Running, None, None, background, now, None);
      (true, jobs[id := Active(info, token, 1, 1, None, tail, hook)])
  }

  function ExtendJob(jobs: Jobs, id: string, tail: Cell): (Option<Extension>, Jobs) {
    if id !in jobs || !jobs[id].info.status.Running? then (None, jobs)
    else
      var job := jobs[id];
      (Some(Extension(job.token, job.next, job.tail)),
       jobs[id := job.(pending := job.pending + 1, next := job.next + 1, tail := tail)])
  }

  /** The output after one more run: only a later, non-empty text replaces what is there. */
  function Merge(output: Option<Output>, sequence: nat, exit: Exit): Option<Output> {
    if exit.Success? && exit.text != "" && (output.None? || sequence > output.value.sequence)
    then Some(Output(sequence, exit.text)) else output
  }

  function EndStatus(exit: Exit): Status {
    if exit.Success? then Completed else if exit.interruptedOnly then Cancelled else Error
  }

  function SettleJob(jobs: Jobs, id: string, token: Token, sequence: nat, exit: Exit, now: int):
      (Option<Finish>, Jobs)
  {
    if id !in jobs || jobs[id].token != token || !jobs[id].info.status.Running? then (None, jobs)
    else
      var job := jobs[id];
      var pending := job.pending - 1;
      var output := Merge(job.output, sequence, exit);
      if exit.Success? && pending > 0 then (None, jobs[id := job.(pending := pending, output := output)])
      else
        var info := job.info.(
          status := EndStatus(exit), completedAt := Some(now),
          output := if output.Some? then Some(output.value.text) else job.info.output,
          error := if exit.Failure? then Some(exit.message) else job.info.error);
        (Some(Finish(token, info)), jobs[id := job.(onPromote := None, pending := 0, output := output, info := info)])
  }

  function PromoteJob(jobs: Jobs, id: string): (Option<Promotion>, Jobs) {
    if id !in jobs || !jobs[id].info.status.Running? || jobs[id].info.background then (None, jobs)
    else
      var job := jobs[id];
      var info := job.info.(background := true);
      (Some(Promotion(job.token, info, job.onPromote)), jobs[id := job.(onPromote := None, info := info)])
  }

  function CancelJob(jobs: Jobs, id: string, now: int): (Option<Finish>, Jobs) {
    if id !in jobs || !jobs[id].info.status.Running? then (None, jobs)
    else
      var job := jobs[id];
      var info := job.info.(status := Cancelled, completedAt := Some(now));
      (Some(Finish(job.token, info)), jobs[id := job.(onPromote := None, pending := 0, info := info)])
  }
}
