/** What the job table records, read off the events of a run: how the process ended, whether a cancel was asked for
    while the job was live, and when. */
module BridgeOutcomes {
  import opened Wrappers
  import opened Bridge

  /** What the run says about one job. `signal` is how its process ended: Exit, Expire or Raise. */
  datatype Told = Told(
    posted: Option<nat>,
    begun: Option<nat>,
    pid: Option<nat>,
    signal: Option<Event>,
    cancelAsked: bool,
    finished: Option<nat>)

  const NOTHING := Told(None, None, None, None, false, None)

  predicate AsksToCancel(s: State, e: Event, j: JobId) {
    e.CancelCheck? && e.h in s.handlers && s.handlers[e.h] == CancelAsked(j) && Live(s, j)
  }

  function NextTold(s: State, e: Event, j: JobId, told: Told): Told {
    match e
    case Post(_, i, now) => if i == j then told.(posted := Some(now)) else told
    case Begin(i, now) => if i == j then told.(begun := Some(now)) else told
    case Launch(i, pid) => if i == j then told.(pid := Some(pid)) else told
    case Exit(i, _, _, _) => if i == j then told.(signal := Some(e)) else told
    case Expire(i, _) => if i == j then told.(signal := Some(e)) else told
    case Raise(i, _) => if i == j then told.(signal := Some(e)) else told
    case Finish(i, now) => if i == j then told.(finished := Some(now)) else told
    case _ => if AsksToCancel(s, e, j) then told.(cancelAsked := true) else told
  }

  function ToldBy(events: seq<Event>, j: JobId): Told
    requires After(events).Some?
  {
    if events == [] then NOTHING
    else
      var before := events[..|events| - 1];
      NextTold(After(before).value, events[|events| - 1], j, ToldBy(before, j))
  }

  /** A process that ended by itself: cancelled if that was asked for, else done with its output if its code is zero,
      else failed with what it printed. */
  predicate EndedAs(job: Job, code: int, stdout: string, stderr: string, cancelAsked: bool) {
    && job.exitCode == Some(code)
    && (cancelAsked ==> job.status.Cancelled? && job.error == Some(CANCELLED_TEXT) && job.result.None?)
    && (!cancelAsked && code == 0 ==> job.status.Done? && job.result == Some(stdout) && job.error.None?)
    && (!cancelAsked && code != 0 ==>
          && job.status.FailedRun? && job.result.None?
          && job.error == Some(if stderr != "" then stderr else if stdout != "" then stdout else RUN_FAILED_TEXT))
  }

  /** A process that ran out of time: cancelled if that was asked for, else timed out. */
  predicate ExpiredAs(job: Job, code: int, cancelAsked: bool) {
    && job.exitCode == Some(code) && job.result.None?
    && (cancelAsked ==> job.status.Cancelled? && job.error == Some(CANCELLED_TEXT))
    && (!cancelAsked ==> job.status.TimedOut? && job.error == Some(TIMED_OUT_TEXT))
  }

  predicate BrokenAs(job: Job, message: string) {
    job.status.FailedRun? && job.exitCode.None? && job.result.None? && job.error == Some(BRIDGE_ERROR + message)
  }

  predicate OutcomeIs(job: Job, signal: Event, cancelAsked: bool) {
    match signal
    case Exit(_, code, stdout, stderr) => EndedAs(job, code, stdout, stderr, cancelAsked)
    case Expire(_, code) => ExpiredAs(job, code, cancelAsked)
    case Raise(_, message) => BrokenAs(job, message)
    case _ => false
  }

  /** What a thread knows, and whether its process is on record. */
  predicate ThreadTold(pc: ThreadPc, j: JobId, told: Told, process: Option<nat>) {
    match pc
    case Starting => process.None?
    case Launching => process.None?
    case Registering(pid) => process.None? && told.pid == Some(pid)
    case Waiting => process.Some?
    case Exited(code, stdout, stderr) => process.Some? && told.signal == Some(Exit(j, code, stdout, stderr))
    case OutOfTime(code) => process.Some? && told.signal == Some(Expire(j, code))
    case Raised(message) => told.signal == Some(Raise(j, message))
    case CleaningUp => true
    case Releasing => process.None?
    case Over => process.None?
  }

  predicate TimesTold(job: Job, told: Told) {
    && told.posted == Some(job.createdAt) && told.begun == job.startedAt && told.finished == job.finishedAt
    && (job.cancelRequested <==> told.cancelAsked)
  }

  predicate OutcomeTold(job: Job, told: Told) {
    if Terminal(job.status) then told.signal.Some? && OutcomeIs(job, told.signal.value, told.cancelAsked)
    else job.exitCode.None? && job.result.None? && job.error.None?
  }

  /** The record of a job and its thread say what the run says. */
  predicate Matches(s: State, j: JobId, told: Told) {
    if j !in s.g.jobs then told == NOTHING
    else
      var job := s.g.jobs[j];
      && TimesTold(job, told) && OutcomeTold(job, told)
      && (job.process.Some? ==> job.process == told.pid)
      && (if j in s.threads then ThreadTold(s.threads[j], j, told, job.process) else job.process.None?)
  }

  lemma HandlerMatches(s: State, e: Event, j: JobId, told: Told)
    requires Inv(s) && Enabled(s, e) && Matches(s, j, told) && HandlerEvent(e)
    ensures Matches(Step(s, e), j, NextTold(s, e, j, told))
  {
    assert j in s.g.jobs ==> JobInv(s, j);
  }

  lemma CancelMatches(s: State, e: Event, j: JobId, told: Told)
    requires Inv(s) && Enabled(s, e) && Matches(s, j, told) && CancelEvent(e)
    ensures Matches(Step(s, e), j, NextTold(s, e, j, told))
  {
  }

  /** A thread's step is about its own job only. */
  lemma OtherMatches(s: State, e: Event, j: JobId, told: Told)
    requires Enabled(s, e) && Matches(s, j, told) && !HandlerEvent(e) && !CancelEvent(e) && e.j != j
    ensures Matches(Step(s, e), j, NextTold(s, e, j, told))
  {
  }

  lemma FinishedIs(job: Job, pc: ThreadPc, j: JobId, told: Told, now: nat)
    requires ThreadTold(pc, j, told, job.process) && TimesTold(job, told)
    requires !Terminal(job.status) && OutcomeTold(job, told) && (pc.Exited? || pc.OutOfTime? || pc.Raised?)
    ensures var v := FinishedJob(job, pc, now);
            && TimesTold(v, told.(finished := Some(now))) && OutcomeTold(v, told) && v.process == job.process
  {
  }

  lemma FinishMatches(s: State, e: Event, j: JobId, told: Told)
    requires Inv(s) && Enabled(s, e) && Matches(s, j, told) && e.Finish? && e.j == j
    ensures Matches(Step(s, e), j, NextTold(s, e, j, told))
  {
    assert JobInv(s, j);
    FinishedIs(s.g.jobs[j], s.threads[j], j, told, e.now);
  }

  lemma OwnMatches(s: State, e: Event, j: JobId, told: Told)
    requires Inv(s) && Enabled(s, e) && Matches(s, j, told)
    requires !HandlerEvent(e) && !CancelEvent(e) && !e.Finish? && e.j == j
    ensures Matches(Step(s, e), j, NextTold(s, e, j, told))
  {
    assert j in s.g.jobs && JobInv(s, j);
  }

  lemma StepMatches(s: State, e: Event, j: JobId, told: Told)
    requires Inv(s) && Enabled(s, e) && Matches(s, j, told)
    ensures Matches(Step(s, e), j, NextTold(s, e, j, told))
  {
    if HandlerEvent(e) {
      HandlerMatches(s, e, j, told);
    } else if CancelEvent(e) {
      CancelMatches(s, e, j, told);
    } else if e.j != j {
      OtherMatches(s, e, j, told);
    } else if e.Finish? {
      FinishMatches(s, e, j, told);
    } else {
      OwnMatches(s, e, j, told);
    }
  }

  /** In every interleaving the table says of every job what the run says of it: when it was posted, begun and finished,
      whether a cancel was asked for while it was live, and, once it is over, the outcome of how its process ended. */
  lemma {:induction false} TableTellsTheRun(events: seq<Event>, j: JobId)
    requires After(events).Some?
    ensures Matches(After(events).value, j, ToldBy(events, j))
  {
    if events != [] {
      var before := events[..|events| - 1];
      TableTellsTheRun(before, j);
      InvOverRuns(before);
      StepMatches(After(before).value, events[|events| - 1], j, ToldBy(before, j));
    }
  }

  /** How the process ended decides the outcome, both ways: done exactly on code zero, failed exactly on another code
      or a failure of the bridge's own, timed out exactly on expiry, and cancelled exactly when that was asked for and
      the bridge did not fail. */
  lemma OutcomeIff(events: seq<Event>, j: JobId)
    requires After(events).Some? && j in After(events).value.g.jobs
    requires Terminal(After(events).value.g.jobs[j].status)
    ensures var job, told := After(events).value.g.jobs[j], ToldBy(events, j);
            && told.signal.Some?
            && (job.status.Done? <==> told.signal.value.Exit? && told.signal.value.code == 0 && !told.cancelAsked)
            && (job.status.FailedRun? <==>
                  told.signal.value.Raise?
                  || (told.signal.value.Exit? && told.signal.value.code != 0 && !told.cancelAsked))
            && (job.status.TimedOut? <==> told.signal.value.Expire? && !told.cancelAsked)
            && (job.status.Cancelled? <==> !told.signal.value.Raise? && told.cancelAsked)
            && (job.status.Done? ==> job.exitCode == Some(0) && job.result == Some(told.signal.value.stdout))
  {
    TableTellsTheRun(events, j);
  }

  /** What a cancel request is answered: 404 for an unknown job, 409 for one that is over, neither changing anything,
      and else the job is marked and its process stopped before 202. */
  lemma CancelAnswers(s: State, h: nat, j: JobId)
    requires h in s.handlers && s.handlers[h] == CancelAsked(j)
    ensures var v := Step(s, CancelCheck(h));
            && h in v.handlers && v.threads == s.threads && v.g.permits == s.g.permits && v.g.active == s.g.active
            && (j !in s.g.jobs ==> v.handlers[h] == Answered(404) && v.g == s.g)
            && (j in s.g.jobs && !Live(s, j) ==> v.handlers[h] == Answered(409) && v.g == s.g)
            && (Live(s, j) ==>
                  && v.handlers[h] == Stopping(j) && j in v.g.jobs
                  && CancelVerdict(s.g, j).process == s.g.jobs[j].process
                  && v.g.jobs[j] == s.g.jobs[j].(cancelRequested := true)
                  && Enabled(v, CancelReply(h)) && Step(v, CancelReply(h)).handlers[h] == Answered(202))
  {
  }

  /** A run request is refused with 429 exactly when the permit is out. */
  lemma RunAnswers(s: State, h: nat)
    requires At(s, h, Validated)
    ensures var v := Step(s, TryAcquire(h));
            if s.g.permits == 0
            then Enabled(v, Refuse(h)) && Step(v, Refuse(h)) == Moved(v, h, Answered(429)) && v.g == s.g
            else At(v, h, Holding) && v.g.permits == s.g.permits - 1
  {
  }
}
