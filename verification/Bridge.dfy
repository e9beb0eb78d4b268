/** The local bridge's single-worker job protocol: request handlers, one job thread per accepted run,
    a bounded semaphore of one, and a job table behind a lock. */
module Bridge {
  import opened Wrappers

  datatype Status = Queued | Running | Done | FailedRun | TimedOut | Cancelled

  predicate Terminal(s: Status) {
    !s.Queued? && !s.Running?
  }

  type JobId = string

  datatype Job = Job(
    status: Status,
    createdAt: nat,
    startedAt: Option<nat>,
    finishedAt: Option<nat>,
    cancelRequested: bool,
    process: Option<nat>,
    exitCode: Option<int>,
    result: Option<string>,
    error: Option<string>)

  const CANCELLED_TEXT := "Task cancelled by user. Partial file changes may exist; inspect before retrying."
  const TIMED_OUT_TEXT := "Task exceeded the time limit and was stopped."
  const BRIDGE_ERROR := "Bridge error: "
  const RUN_FAILED_TEXT := "Gcode run failed"

  /** What the locks protect: semaphore permits, job table, active job. */
  datatype Shared = Shared(permits: nat, jobs: map<JobId, Job>, active: Option<JobId>)

  datatype CancelAnswer = NotFound | AlreadyOver(status: Status) | Cancelling(process: Option<nat>)

  // ---- The critical sections ----

  function Acquired(g: Shared): Shared {
    g.(permits := Monus(g.permits, 1))
  }

  function Released(g: Shared): Shared {
    g.(permits := g.permits + 1)
  }

  function Posted(g: Shared, j: JobId, now: nat): Shared {
    g.(jobs := g.jobs[j := Job(Queued, now, None, None, false, None, None, None, None)], active := Some(j))
  }

  function Begun(g: Shared, j: JobId, now: nat): Shared
    requires j in g.jobs
  {
    g.(jobs := g.jobs[j := g.jobs[j].(status := Running, startedAt := Some(now))])
  }

  function Registered(g: Shared, j: JobId, pid: nat): Shared
    requires j in g.jobs
  {
    g.(jobs := g.jobs[j := g.jobs[j].(process := Some(pid))])
  }

  /** The process ended by itself: cancelled wins over done, done over failed. */
  function Ended(job: Job, code: int, stdout: string, stderr: string, now: nat): Job {
    var outcome :=
      if job.cancelRequested then job.(status := Cancelled, error := Some(CANCELLED_TEXT))
      else if code == 0 then job.(status := Done, result := Some(stdout))
      else job.(status := FailedRun,
                error := Some(if stderr != "" then stderr else if stdout != "" then stdout else RUN_FAILED_TEXT));
    outcome.(exitCode := Some(code), finishedAt := Some(now))
  }

  /** The process ran out of time and was stopped. */
  function Expired(job: Job, code: int, now: nat): Job {
    var outcome :=
      if job.cancelRequested then job.(status := Cancelled, error := Some(CANCELLED_TEXT))
      else job.(status := TimedOut, error := Some(TIMED_OUT_TEXT));
    outcome.(exitCode := Some(code), finishedAt := Some(now))
  }

  /** The bridge itself failed while running the job. */
  function Broken(job: Job, message: string, now: nat): Job {
    job.(status := FailedRun, error := Some(BRIDGE_ERROR + message), finishedAt := Some(now))
  }

  function Cleaned(g: Shared, j: JobId): Shared {
    g.(jobs := if j in g.jobs then g.jobs[j := g.jobs[j].(process := None)] else g.jobs,
       active := if g.active == Some(j) then None else g.active)
  }

  function CancelVerdict(g: Shared, j: JobId): CancelAnswer {
    if j !in g.jobs then NotFound
    else if Terminal(g.jobs[j].status) then AlreadyOver(g.jobs[j].status)
    else Cancelling(g.jobs[j].process)
  }

  function CancelMarked(g: Shared, j: JobId): Shared {
    if CancelVerdict(g, j).Cancelling? then g.(jobs := g.jobs[j := g.jobs[j].(cancelRequested := true)]) else g
  }

  /** The global variables, changed by one critical section at a time. */
  class Globals {
    var runLock: nat
    var jobs: map<JobId, Job>
    var activeJobId: Option<JobId>

    function View(): Shared
      reads this
    {
      Shared(runLock, jobs, activeJobId)
    }

    constructor ()
      ensures View() == Shared(1, map[], None)
    {
      runLock, jobs, activeJobId := 1, map[], None;
    }

    method TryAcquire() returns (ok: bool)
      modifies this
      ensures ok == (old(runLock) > 0)
      ensures View() == Acquired(old(View()))
    {
      ok := runLock > 0;
      if ok {
        runLock := runLock - 1;
      }
    }

    // A bounded semaphore refuses a release that was not acquired.
    method Release()
      requires runLock < 1
      modifies this
      ensures View() == Released(old(View()))
    {
      runLock := runLock + 1;
    }

    method PostJob(j: JobId, now: nat)
      modifies this
      ensures View() == Posted(old(View()), j, now)
    {
      jobs := jobs[j := Job(Queued, now, None, None, false, None, None, None, None)];
      activeJobId := Some(j);
    }

    method BeginJob(j: JobId, now: nat)
      requires j in jobs
      modifies this
      ensures View() == Begun(old(View()), j, now)
    {
      jobs := jobs[j := jobs[j].(status := Running)];
      jobs := jobs[j := jobs[j].(startedAt := Some(now))];
    }

    method FinishEnded(j: JobId, code: int, stdout: string, stderr: string, now: nat)
      requires j in jobs
      modifies this
      ensures View() == old(View()).(jobs := old(jobs)[j := Ended(old(jobs)[j], code, stdout, stderr, now)])
    {
      var job := jobs[j];
      if job.cancelRequested {
        job := job.(status := Cancelled, error := Some(CANCELLED_TEXT));
      } else if code == 0 {
        job := job.(status := Done, result := Some(stdout));
      } else {
        job := job.(status := FailedRun);
        job := job.(error := Some(if stderr != "" then stderr else if stdout != "" then stdout else RUN_FAILED_TEXT));
      }
      job := job.(exitCode := Some(code));
      jobs := jobs[j := job.(finishedAt := Some(now))];
    }

    method FinishExpired(j: JobId, code: int, now: nat)
      requires j in jobs
      modifies this
      ensures View() == old(View()).(jobs := old(jobs)[j := Expired(old(jobs)[j], code, now)])
    {
      var job := jobs[j];
      if job.cancelRequested {
        job := job.(status := Cancelled, error := Some(CANCELLED_TEXT));
      } else {
        job := job.(status := TimedOut, error := Some(TIMED_OUT_TEXT));
      }
      jobs := jobs[j := job.(exitCode := Some(code), finishedAt := Some(now))];
    }

    method CleanUp(j: JobId)
      modifies this
      ensures View() == Cleaned(old(View()), j)
    {
      if j in jobs {
        jobs := jobs[j := jobs[j].(process := None)];
      }
      if activeJobId == Some(j) {
        activeJobId := None;
      }
    }

    method RequestCancel(j: JobId) returns (answer: CancelAnswer)
      modifies this
      ensures answer == CancelVerdict(old(View()), j)
      ensures View() == CancelMarked(old(View()), j)
    {
      if j !in jobs {
        return NotFound;
      }
      if Terminal(jobs[j].status) {
        return AlreadyOver(jobs[j].status);
      }
      jobs := jobs[j := jobs[j].(cancelRequested := true)];
      return Cancelling(jobs[j].process);
    }
  }

  // ---- Program counters ----

  datatype HandlerPc =
    | Validated
    | Refusing
    | Holding
    | JobPosted(job: JobId)
    | Crashed
    | CancelAsked(job: JobId)
    | Stopping(job: JobId)
    | Answered(code: nat)

  datatype ThreadPc =
    | Starting
    | Launching
    | Registering(pid: nat)
    | Waiting
    | OutOfTime(code: int)
    | Exited(code: int, stdout: string, stderr: string)
    | Raised(message: string)
    | CleaningUp
    | Releasing
    | Over

  /** On whose behalf the one permit is out. */
  datatype Owner = Nobody | OfHandler(h: nat) | OfThread(j: JobId) | Leaked(j: JobId)

  // `accepted` are the jobs for which a cancel was answered 202; the counters count semaphore calls.
  datatype State = State(
    g: Shared,
    handlers: map<nat, HandlerPc>,
    threads: map<JobId, ThreadPc>,
    owner: Owner,
    acquires: nat,
    releases: nat,
    accepted: set<JobId>)

  datatype Event =
    | RunArrives(h: nat)
    | TryAcquire(h: nat)
    | Refuse(h: nat)
    | Post(h: nat, j: JobId, now: nat)
    | StartThread(h: nat)
    | StartFails(h: nat)
    | CancelArrives(h: nat, j: JobId)
    | CancelCheck(h: nat)
    | CancelReply(h: nat)
    | Begin(j: JobId, now: nat)
    | Launch(j: JobId, pid: nat)
    | Register(j: JobId)
    | Exit(j: JobId, code: int, stdout: string, stderr: string)
    | Expire(j: JobId, code: int)
    | Raise(j: JobId, message: string)
    | Finish(j: JobId, now: nat)
    | Clean(j: JobId)
    | Free(j: JobId)

  function Init(): State {
    State(Shared(1, map[], None), map[], map[], Nobody, 0, 0, {})
  }

  predicate At(s: State, h: nat, pc: HandlerPc) {
    h in s.handlers && s.handlers[h] == pc
  }

  predicate Enabled(s: State, e: Event) {
    match e
    case RunArrives(h) => h !in s.handlers
    case TryAcquire(h) => At(s, h, Validated)
    case Refuse(h) => At(s, h, Refusing)
    case Post(h, j, _) => At(s, h, Holding) && j !in s.g.jobs
    case StartThread(h) => h in s.handlers && s.handlers[h].JobPosted?
    case StartFails(h) => h in s.handlers && s.handlers[h].JobPosted?
    case CancelArrives(h, _) => h !in s.handlers
    case CancelCheck(h) => h in s.handlers && s.handlers[h].CancelAsked?
    case CancelReply(h) => h in s.handlers && s.handlers[h].Stopping?
    case Begin(j, _) => j in s.threads && j in s.g.jobs && s.threads[j].Starting?
    case Launch(j, _) => j in s.threads && s.threads[j].Launching?
    case Register(j) => j in s.threads && j in s.g.jobs && s.threads[j].Registering?
    case Exit(j, _, _, _) => j in s.threads && s.threads[j].Waiting?
    case Expire(j, _) => j in s.threads && s.threads[j].Waiting?
    case Raise(j, _) => j in s.threads
                        && (s.threads[j].Launching? || s.threads[j].Waiting? || s.threads[j].Exited?
                           || s.threads[j].OutOfTime?)
    case Finish(j, _) => j in s.threads && j in s.g.jobs
                         && (s.threads[j].Exited? || s.threads[j].OutOfTime? || s.threads[j].Raised?)
    case Clean(j) => j in s.threads && s.threads[j].CleaningUp?
    case Free(j) => j in s.threads && s.threads[j].Releasing?
  }

  function Moved(s: State, h: nat, pc: HandlerPc): State {
    s.(handlers := s.handlers[h := pc])
  }

  function Advanced(s: State, j: JobId, pc: ThreadPc): State {
    s.(threads := s.threads[j := pc])
  }

  function FinishedJob(job: Job, pc: ThreadPc, now: nat): Job {
    match pc
    case Exited(code, stdout, stderr) => Ended(job, code, stdout, stderr, now)
    case OutOfTime(code) => Expired(job, code, now)
    case Raised(message) => Broken(job, message, now)
    case _ => job
  }

  function CancelCode(answer: CancelAnswer): nat {
    if answer.NotFound? then 404 else 409
  }

  function Step(s: State, e: Event): State
    requires Enabled(s, e)
  {
    match e
    case RunArrives(h) => Moved(s, h, Validated)
    case TryAcquire(h) =>
      if s.g.permits > 0
      then Moved(s, h, Holding).(g := Acquired(s.g), owner := OfHandler(h), acquires := s.acquires + 1)
      else Moved(s, h, Refusing)
    case Refuse(h) => Moved(s, h, Answered(429))
    case Post(h, j, now) => Moved(s, h, JobPosted(j)).(g := Posted(s.g, j, now))
    case StartThread(h) =>
      var j := s.handlers[h].job;
      Advanced(Moved(s, h, Answered(202)), j, Starting).(owner := OfThread(j))
    case StartFails(h) => Moved(s, h, Crashed).(owner := Leaked(s.handlers[h].job))
    case CancelArrives(h, j) => Moved(s, h, CancelAsked(j))
    case CancelCheck(h) =>
      var j := s.handlers[h].job;
      var answer := CancelVerdict(s.g, j);
      Moved(s, h, if answer.Cancelling? then Stopping(j) else Answered(CancelCode(answer))).(g := CancelMarked(s.g, j))
    case CancelReply(h) => Moved(s, h, Answered(202)).(accepted := s.accepted + {s.handlers[h].job})
    case Begin(j, now) => Advanced(s, j, Launching).(g := Begun(s.g, j, now))
    case Launch(j, pid) => Advanced(s, j, Registering(pid))
    case Register(j) => Advanced(s, j, Waiting).(g := Registered(s.g, j, s.threads[j].pid))
    case Exit(j, code, stdout, stderr) => Advanced(s, j, Exited(code, stdout, stderr))
    case Expire(j, code) => Advanced(s, j, OutOfTime(code))
    case Raise(j, message) => Advanced(s, j, Raised(message))
    case Finish(j, now) =>
      Advanced(s, j, CleaningUp).(g := s.g.(jobs := s.g.jobs[j := FinishedJob(s.g.jobs[j], s.threads[j], now)]))
    case Clean(j) => Advanced(s, j, Releasing).(g := Cleaned(s.g, j))
    case Free(j) => Advanced(s, j, Over).(g := Released(s.g), owner := Nobody, releases := s.releases + 1)
  }

  /** The state after a sequence of atomic steps in any interleaving; None if a step was not possible. */
  function After(events: seq<Event>): Option<State> {
    if events == [] then Some(Init())
    else
      var before, e := After(events[..|events| - 1]), events[|events| - 1];
      if before.Some? && Enabled(before.value, e) then Some(Step(before.value, e)) else None
  }

  // ---- The invariant ----

  predicate HandlerHolds(pc: HandlerPc) {
    pc.Holding? || pc.JobPosted?
  }

  predicate PermitInv(s: State) {
    && s.g.permits == (if s.owner.Nobody? then 1 else 0)
    && s.acquires == s.releases + (1 - s.g.permits)
    && (s.owner.OfHandler? ==> s.owner.h in s.handlers)
    && (s.owner.OfThread? ==> s.owner.j in s.threads)
    && (forall h :: h in s.handlers ==> (HandlerHolds(s.handlers[h]) <==> s.owner == OfHandler(h)))
    && (forall j :: j in s.threads ==> (!s.threads[j].Over? <==> s.owner == OfThread(j)))
  }

  /** The job the permit is out for, once it has been posted. */
  function HeldJob(s: State): Option<JobId> {
    match s.owner
    case Nobody => None
    case Leaked(j) => Some(j)
    case OfThread(j) => Some(j)
    case OfHandler(h) => if h in s.handlers && s.handlers[h].JobPosted? then Some(s.handlers[h].job) else None
  }

  predicate ThreadMatches(status: Status, pc: ThreadPc) {
    match pc
    case Starting => status.Queued?
    case CleaningUp => Terminal(status)
    case Releasing => Terminal(status)
    case Over => Terminal(status)
    case _ => status.Running?
  }

  /** The recorded error is the bridge's own. */
  predicate BrokeDown(job: Job) {
    job.error.Some? && BRIDGE_ERROR <= job.error.value
  }

  predicate JobInv(s: State, j: JobId)
    requires j in s.g.jobs
  {
    var job := s.g.jobs[j];
    && (if j in s.threads then ThreadMatches(job.status, s.threads[j]) else job.status.Queued? && HeldJob(s) == Some(j))
    && (job.finishedAt.Some? <==> Terminal(job.status))
    && (job.startedAt.Some? <==> !job.status.Queued?)
    && (job.cancelRequested && Terminal(job.status) ==>
          job.status.Cancelled? || (job.status.FailedRun? && BrokeDown(job)))
  }

  predicate TableInv(s: State) {
    && s.threads.Keys <= s.g.jobs.Keys
    && (forall j :: j in s.g.jobs ==> JobInv(s, j))
    && (HeldJob(s).Some? ==> HeldJob(s).value in s.g.jobs)
    && (s.owner.Leaked? || s.owner.OfHandler? ==> HeldJob(s).Some? ==> HeldJob(s).value !in s.threads)
    && s.g.active == (if s.owner.OfThread? && s.owner.j in s.threads && s.threads[s.owner.j].Releasing? then None
                      else HeldJob(s))
  }

  predicate CancelInv(s: State) {
    && (forall j :: j in s.accepted ==> j in s.g.jobs && s.g.jobs[j].cancelRequested)
    && (forall h :: h in s.handlers && s.handlers[h].Stopping? ==>
          s.handlers[h].job in s.g.jobs && s.g.jobs[s.handlers[h].job].cancelRequested)
  }

  predicate Inv(s: State) {
    PermitInv(s) && TableInv(s) && CancelInv(s)
  }

  predicate HandlerEvent(e: Event) {
    e.RunArrives? || e.TryAcquire? || e.Refuse? || e.Post? || e.StartThread? || e.StartFails?
  }

  predicate CancelEvent(e: Event) {
    e.CancelArrives? || e.CancelCheck? || e.CancelReply?
  }

  lemma HandlerKeepsPermits(s: State, e: Event)
    requires Inv(s) && Enabled(s, e) && (HandlerEvent(e) || CancelEvent(e))
    ensures PermitInv(Step(s, e))
  {
  }

  lemma ThreadKeepsPermits(s: State, e: Event)
    requires Inv(s) && Enabled(s, e) && !HandlerEvent(e) && !CancelEvent(e)
    ensures PermitInv(Step(s, e))
  {
  }

  lemma RequestKeepsTable(s: State, e: Event)
    requires Inv(s) && Enabled(s, e) && (e.RunArrives? || e.TryAcquire? || e.Refuse?)
    ensures TableInv(Step(s, e))
  {
    assert HeldJob(Step(s, e)) == HeldJob(s);
  }

  lemma PostKeepsTable(s: State, e: Event)
    requires Inv(s) && Enabled(s, e) && e.Post?
    ensures TableInv(Step(s, e))
  {
    assert HeldJob(s) == None && HeldJob(Step(s, e)) == Some(e.j);
    forall j | j in s.g.jobs ensures j in s.threads {
      assert JobInv(s, j);
    }
  }

  lemma StartKeepsTable(s: State, e: Event)
    requires Inv(s) && Enabled(s, e) && (e.StartThread? || e.StartFails?)
    ensures TableInv(Step(s, e))
  {
    assert HeldJob(Step(s, e)) == HeldJob(s);
  }

  lemma CancelKeepsTable(s: State, e: Event)
    requires Inv(s) && Enabled(s, e) && CancelEvent(e)
    ensures TableInv(Step(s, e))
  {
    var s' := Step(s, e);
    assert HeldJob(s') == HeldJob(s);
  }

  predicate PrivateEvent(e: Event) {
    e.Launch? || e.Exit? || e.Expire? || e.Raise?
  }

  lemma PrivateKeepsTable(s: State, e: Event)
    requires Inv(s) && Enabled(s, e) && PrivateEvent(e)
    ensures TableInv(Step(s, e))
  {
    var s' := Step(s, e);
    assert HeldJob(s') == HeldJob(s) == Some(e.j);
    forall i | i in s'.g.jobs ensures JobInv(s', i) {
      assert JobInv(s, i);
    }
  }

  /** A step of the thread of `e.j` leaves every other job alone. */
  lemma ThreadKeepsOwnJob(s: State, e: Event)
    requires Inv(s) && Enabled(s, e) && !HandlerEvent(e) && !CancelEvent(e) && !PrivateEvent(e)
    ensures e.j in Step(s, e).g.jobs && JobInv(Step(s, e), e.j)
  {
    assert JobInv(s, e.j);
  }

  lemma ThreadKeepsTable(s: State, e: Event)
    requires Inv(s) && Enabled(s, e) && !HandlerEvent(e) && !CancelEvent(e) && !PrivateEvent(e)
    ensures TableInv(Step(s, e))
  {
    var s', j := Step(s, e), e.j;
    assert s.owner == OfThread(j) && HeldJob(s) == Some(j);
    assert s'.g.jobs.Keys == s.g.jobs.Keys;
    ThreadKeepsOwnJob(s, e);
    forall i | i in s'.g.jobs && i != j ensures JobInv(s', i) {
      assert JobInv(s, i) && i in s.threads;
    }
  }

  lemma StepKeepsCancels(s: State, e: Event)
    requires Inv(s) && Enabled(s, e)
    ensures CancelInv(Step(s, e))
  {
  }

  lemma StepKeepsInv(s: State, e: Event)
    requires Inv(s) && Enabled(s, e)
    ensures Inv(Step(s, e))
  {
    StepKeepsCancels(s, e);
    if HandlerEvent(e) || CancelEvent(e) {
      HandlerKeepsPermits(s, e);
    } else {
      ThreadKeepsPermits(s, e);
    }
    match e {
      case RunArrives(_) => RequestKeepsTable(s, e);
      case TryAcquire(_) => RequestKeepsTable(s, e);
      case Refuse(_) => RequestKeepsTable(s, e);
      case Post(_, _, _) => PostKeepsTable(s, e);
      case StartThread(_) => StartKeepsTable(s, e);
      case StartFails(_) => StartKeepsTable(s, e);
      case CancelArrives(_, _) => CancelKeepsTable(s, e);
      case CancelCheck(_) => CancelKeepsTable(s, e);
      case CancelReply(_) => CancelKeepsTable(s, e);
      case _ =>
        if PrivateEvent(e) {
          PrivateKeepsTable(s, e);
        } else {
          ThreadKeepsTable(s, e);
        }
    }
  }

  lemma {:induction false} InvOverRuns(events: seq<Event>)
    requires After(events).Some?
    ensures Inv(After(events).value)
  {
    if events != [] {
      InvOverRuns(events[..|events| - 1]);
      StepKeepsInv(After(events[..|events| - 1]).value, events[|events| - 1]);
    }
  }

  // ---- Mutual exclusion ----

  predicate Live(s: State, j: JobId) {
    j in s.g.jobs && !Terminal(s.g.jobs[j].status)
  }

  /** In every interleaving at most one job is queued or running, the active id names the job for which the
      permit is out, and permits are given back exactly once per acquire, never beyond the bound. */
  lemma MutualExclusion(events: seq<Event>)
    requires After(events).Some?
    ensures var s := After(events).value;
            && (forall i, j :: Live(s, i) && Live(s, j) ==> i == j)
            && (s.g.active.Some? ==> HeldJob(s) == s.g.active && s.g.permits == 0)
            && (forall j :: Live(s, j) ==> s.g.active == Some(j))
            && s.acquires == s.releases + (1 - s.g.permits) && s.g.permits <= 1
            && (forall j :: j in s.threads && s.threads[j].Releasing? ==> s.g.permits == 0)
  {
    InvOverRuns(events);
    var s := After(events).value;
    forall j | Live(s, j) ensures HeldJob(s) == Some(j) && s.g.active == Some(j) {
      assert JobInv(s, j);
    }
  }

  // ---- Job outcomes ----

  function Rank(status: Status): nat {
    match status
    case Queued => 0
    case Running => 1
    case _ => 2
  }

  /** One step never takes a job back, never changes a terminal status or what was recorded with it, and never
      withdraws a cancel request. */
  lemma StepAdvancesJobs(s: State, e: Event, j: JobId)
    requires Inv(s) && Enabled(s, e) && j in s.g.jobs
    ensures j in Step(s, e).g.jobs
    ensures var before, now := s.g.jobs[j], Step(s, e).g.jobs[j];
            && Rank(before.status) <= Rank(now.status) <= Rank(before.status) + 1
            && (before.cancelRequested ==> now.cancelRequested)
            && (Terminal(before.status) ==> now.(process := before.process) == before)
  {
    assert JobInv(s, j);
  }

  predicate IsPrefix(a: seq<Event>, b: seq<Event>) {
    |a| <= |b| && b[..|a|] == a
  }

  /** Over any stretch of a run a job moves only forward, and a terminal job stays exactly as it is but for
      its process handle. */
  lemma {:induction false} JobsOnlyAdvance(before: seq<Event>, events: seq<Event>, j: JobId)
    requires IsPrefix(before, events) && After(before).Some? && After(events).Some?
    requires j in After(before).value.g.jobs
    ensures j in After(events).value.g.jobs
    ensures var was, now := After(before).value.g.jobs[j], After(events).value.g.jobs[j];
            && Rank(was.status) <= Rank(now.status)
            && (was.cancelRequested ==> now.cancelRequested)
            && (Terminal(was.status) ==> now.(process := was.process) == was)
  {
    if |before| == |events| {
      assert before == events;
    } else {
      var shorter := events[..|events| - 1];
      assert shorter[..|before|] == events[..|before|];
      JobsOnlyAdvance(before, shorter, j);
      InvOverRuns(shorter);
      StepAdvancesJobs(After(shorter).value, events[|events| - 1], j);
    }
  }

  /** Finish times belong to finished jobs only, and a job whose cancel was answered 202 never ends as done or
      timed out: it ends cancelled, or failed with an error of the bridge's own. */
  lemma JobOutcomes(events: seq<Event>, j: JobId)
    requires After(events).Some? && j in After(events).value.g.jobs
    ensures var s := After(events).value;
            var job := s.g.jobs[j];
            && (job.finishedAt.Some? <==> Terminal(job.status))
            && (job.startedAt.Some? <==> !job.status.Queued?)
            && (j in s.accepted ==>
                  job.status.Queued? || job.status.Running? || job.status.Cancelled?
                  || (job.status.FailedRun? && BrokeDown(job)))
  {
    InvOverRuns(events);
    assert JobInv(After(events).value, j);
  }

  /** The failure is the bridge's own: a requested cancel ends as failed only on the exception path. */
  lemma CancelledUnlessBroken(s: State, e: Event)
    requires Inv(s) && Enabled(s, e) && e.Finish? && s.g.jobs[e.j].cancelRequested
    ensures Step(s, e).g.jobs[e.j].status == (if s.threads[e.j].Raised? then FailedRun else Cancelled)
  {
  }

  lemma LeakStays(s: State, e: Event)
    requires Inv(s) && Enabled(s, e) && s.owner.Leaked?
    ensures Step(s, e).owner == s.owner
  {
  }

  lemma LeakBlocks(s: State, j: JobId)
    requires Inv(s) && s.owner == Leaked(j)
    ensures s.g.permits == 0 && j in s.g.jobs && s.g.jobs[j].status.Queued?
    ensures forall h :: At(s, h, Validated) ==> Step(s, TryAcquire(h)) == Moved(s, h, Refusing)
  {
    assert JobInv(s, j);
  }

  predicate StartFailed(events: seq<Event>) {
    exists i :: 0 <= i < |events| && events[i].StartFails?
  }

  /** The permit has leaked exactly when some job's thread could not be started. */
  lemma {:induction false} LeakedIffStartFailed(events: seq<Event>)
    requires After(events).Some?
    ensures After(events).value.owner.Leaked? <==> StartFailed(events)
  {
    if events != [] {
      var before, e := events[..|events| - 1], events[|events| - 1];
      var s := After(before).value;
      LeakedIffStartFailed(before);
      InvOverRuns(before);
      StartFailedSnoc(before, e);
      assert before + [e] == events;
      if s.owner.Leaked? {
        LeakStays(s, e);
      }
    }
  }

  lemma StartFailedSnoc(before: seq<Event>, e: Event)
    ensures StartFailed(before + [e]) <==> StartFailed(before) || e.StartFails?
  {
    if StartFailed(before) {
      var i :| 0 <= i < |before| && before[i].StartFails?;
      assert (before + [e])[i] == before[i];
    }
    assert (before + [e])[|before|] == e;
  }

  /** The permit stays out for the job it leaked for. */
  lemma {:induction false} LeakedJobStays(before: seq<Event>, events: seq<Event>, j: JobId)
    requires IsPrefix(before, events) && After(before).Some? && After(events).Some?
    requires After(before).value.owner == Leaked(j)
    ensures After(events).value.owner == Leaked(j)
  {
    if |before| == |events| {
      assert before == events;
    } else {
      var shorter := events[..|events| - 1];
      assert shorter[..|before|] == events[..|before|];
      LeakedJobStays(before, shorter, j);
      InvOverRuns(shorter);
      LeakStays(After(shorter).value, events[|events| - 1]);
    }
  }

  /** Every prefix of a possible run is possible, so the event was enabled when it came. */
  lemma {:induction false} PrefixesArePossible(events: seq<Event>, i: nat)
    requires After(events).Some? && i < |events|
    ensures After(events[..i]).Some? && Enabled(After(events[..i]).value, events[i])
  {
    var shorter := events[..|events| - 1];
    if i < |events| - 1 {
      PrefixesArePossible(shorter, i);
      assert shorter[..i] == events[..i] && shorter[i] == events[i];
    }
  }

  lemma FailedStartLeaks(events: seq<Event>, i: nat, j: JobId)
    requires i < |events| && events[i].StartFails?
    requires After(events[..i]).Some? && Enabled(After(events[..i]).value, events[i])
    requires j == After(events[..i]).value.handlers[events[i].h].job
    ensures After(events[..i + 1]).Some? && After(events[..i + 1]).value.owner == Leaked(j)
  {
    assert events[..i + 1][..i] == events[..i];
  }

  /** Once a handler fails to start its job's thread, the permit is never given back: whatever happens later, that job
      stays queued and every run request that asks for the permit is refused. */
  lemma LeakIsForever(events: seq<Event>, i: nat)
    requires After(events).Some? && i < |events| && events[i].StartFails?
    ensures After(events[..i]).Some? && Enabled(After(events[..i]).value, events[i])
    ensures var s, j := After(events).value, After(events[..i]).value.handlers[events[i].h].job;
            && s.g.permits == 0
            && j in s.g.jobs && s.g.jobs[j].status.Queued?
            && (forall h :: At(s, h, Validated) ==> Step(s, TryAcquire(h)) == Moved(s, h, Refusing))
  {
    PrefixesArePossible(events, i);
    var j := After(events[..i]).value.handlers[events[i].h].job;
    FailedStartLeaks(events, i, j);
    LeakedJobStays(events[..i + 1], events, j);
    InvOverRuns(events);
    LeakBlocks(After(events).value, j);
  }

  const FAILING_START: seq<Event> := [RunArrives(1), TryAcquire(1), Post(1, "job", 0), StartFails(1)]

  lemma FirstPosted()
    ensures var s := After(FAILING_START[..3]);
            && s.Some? && 1 in s.value.handlers && s.value.handlers[1] == JobPosted("job")
  {
    var events := FAILING_START;
    assert events[..1] == [RunArrives(1)] && events[..1][..0] == [];
    assert events[..2] == [RunArrives(1), TryAcquire(1)] && events[..2][..1] == events[..1];
    assert events[..3] == [RunArrives(1), TryAcquire(1), Post(1, "job", 0)] && events[..3][..2] == events[..2];
    assert After(events[..1]) == Some(Moved(Init(), 1, Validated));
    assert After(events[..2]) == Some(Step(Moved(Init(), 1, Validated), TryAcquire(1)));
  }

  /** Four steps lead there: a request, its permit, its job, and a thread that does not start. */
  lemma LeakIsReachable()
    ensures After(FAILING_START).Some? && After(FAILING_START).value.owner == Leaked("job")
  {
    FirstPosted();
    assert FAILING_START[..|FAILING_START| - 1] == FAILING_START[..3];
  }

  /** The permit is out exactly while a handler that took it has not handed it on, a job thread has not finished,
      or a thread could not be started. */
  lemma PermitAccounting(events: seq<Event>)
    requires After(events).Some?
    ensures var s := After(events).value;
            s.g.permits == 0 <==>
              || (exists h :: h in s.handlers && HandlerHolds(s.handlers[h]))
              || (exists j :: j in s.threads && !s.threads[j].Over?)
              || s.owner.Leaked?
  {
    InvOverRuns(events);
  }
}
