/** Detached background tasks: status records on disk, rewritten by whoever looks at them, and the events
    published on the way. Probing the process, its output and the clock are inputs. */
module BackgroundTasks {
  import opened Wrappers

  type TaskId = string

  datatype TaskStatus = Running | Completed | Superseded | Failed

  datatype ProgressKind = Determinate | Indeterminate

  datatype ProgressSource = Reported | ParsedOutput | Heuristic

  datatype Progress = Progress(
    kind: ProgressKind,
    percent: Option<real>,
    message: Option<string>,
    current: Option<nat>,
    total: Option<nat>,
    unit: Option<string>,
    etaSeconds: Option<nat>,
    updatedAt: nat,
    source: ProgressSource)

  datatype EventKind =
    | ProgressEvent | CheckpointEvent | CompletedEvent | FailedEvent | SupersededEvent | CancelledEvent | DeliveryEvent

  datatype EventRecord = EventRecord(
    kind: EventKind,
    timestamp: nat,
    message: Option<string>,
    status: Option<TaskStatus>,
    exitCode: Option<int>,
    progress: Option<Progress>)

  // `startedAt` is None when the recorded text is not a time.
  datatype StatusFile = StatusFile(
    taskId: TaskId,
    toolName: string,
    displayName: Option<string>,
    sessionId: string,
    status: TaskStatus,
    exitCode: Option<int>,
    error: Option<string>,
    startedAt: Option<nat>,
    completedAt: Option<nat>,
    duration: Option<nat>,
    pid: Option<nat>,
    detached: bool,
    notify: bool,
    wake: bool,
    progress: Option<Progress>,
    history: seq<EventRecord>)

  datatype BusEvent =
    | TaskCompleted(taskId: TaskId, status: TaskStatus, exitCode: Option<int>, duration: nat, notify: bool, wake: bool)
    | TaskProgress(taskId: TaskId, progress: Progress)

  // What a caller finds out about the process: an exit code collected by waiting, whether it still runs, the exit
  // code its output ends with, and the time.
  datatype Probe = Probe(reaped: Option<int>, running: bool, marker: Option<int>, now: nat)

  const MAX_EVENT_HISTORY: nat := 50
  const CANCELLED_BY_USER := "Cancelled by user"
  const NO_EXIT_CODE := "Detached command exited without a readable exit code"

  // ---- Progress ----

  /** Two decimals, halves upwards. */
  function RoundHundredth(x: real): real {
    (x * 100.0 + 0.5).Floor as real / 100.0
  }

  function Clamp(x: real): real {
    if x < 0.0 then 0.0 else if x > 100.0 then 100.0 else x
  }

  /** The progress carries a measure: a percentage, or a total to count towards. */
  predicate Measured(p: Progress) {
    p.percent.Some? || (p.total.Some? && p.total.value > 0)
  }

  function ComputedPercent(p: Progress): Option<real> {
    if p.current.Some? && p.total.Some? && p.total.value > 0 && p.percent.None?
    then Some(RoundHundredth(p.current.value as real / p.total.value as real * 100.0))
    else p.percent
  }

  function Normalized(p: Progress): Progress {
    var computed := ComputedPercent(p);
    var percent := if computed.Some? then Some(RoundHundredth(Clamp(computed.value))) else None;
    var q := p.(percent := percent);
    if Measured(q) then q.(kind := Determinate) else q
  }

  lemma RoundedStays(x: real)
    ensures RoundHundredth(RoundHundredth(x)) == RoundHundredth(x)
    ensures 0.0 <= x <= 100.0 ==> 0.0 <= RoundHundredth(x) <= 100.0
  {
    var n := (x * 100.0 + 0.5).Floor;
    assert RoundHundredth(x) * 100.0 == n as real;
    assert (n as real + 0.5).Floor == n;
  }

  /** Normalizing twice is normalizing once; a measured progress is determinate with a percentage in range, and
      nothing turns into measured that was not. */
  lemma NormalizedFacts(p: Progress)
    ensures Normalized(Normalized(p)) == Normalized(p)
    ensures Measured(Normalized(p)) <==> Measured(p)
    ensures Measured(p) ==> Normalized(p).kind.Determinate?
    ensures Normalized(p).percent.Some? ==> 0.0 <= Normalized(p).percent.value <= 100.0
  {
    var computed := ComputedPercent(p);
    if computed.Some? {
      RoundedStays(Clamp(computed.value));
    }
  }

  predicate Equivalent(a: Progress, b: Progress) {
    a.(updatedAt := 0) == b.(updatedAt := 0)
  }

  /** An update is dropped when it says nothing new, or when parsed output would lose the measure already known. */
  predicate Dropped(existing: Option<Progress>, p: Progress) {
    && existing.Some?
    && (Equivalent(existing.value, p) || (Measured(existing.value) && !Measured(p) && p.source.ParsedOutput?))
  }

  // ---- Records ----

  function Pushed(history: seq<EventRecord>, e: EventRecord): seq<EventRecord> {
    var longer := history + [e];
    if |longer| > MAX_EVENT_HISTORY then longer[|longer| - MAX_EVENT_HISTORY..] else longer
  }

  function PushedAll(history: seq<EventRecord>, events: seq<EventRecord>): seq<EventRecord> {
    if events == [] then history else Pushed(PushedAll(history, events[..|events| - 1]), events[|events| - 1])
  }

  /** After any number of events the history is exactly the newest fifty, oldest first. */
  lemma {:induction false} HistoryIsNewestFifty(events: seq<EventRecord>)
    ensures PushedAll([], events) ==
            if |events| > MAX_EVENT_HISTORY then events[|events| - MAX_EVENT_HISTORY..] else events
  {
    if events != [] {
      var shorter := events[..|events| - 1];
      HistoryIsNewestFifty(shorter);
      assert shorter + [events[|events| - 1]] == events;
    }
  }

  function TerminalKind(status: TaskStatus, error: Option<string>): EventKind {
    match status
    case Completed => CompletedEvent
    case Superseded => SupersededEvent
    case Failed => if error == Some(CANCELLED_BY_USER) then CancelledEvent else FailedEvent
    case Running => ProgressEvent
  }

  function TerminalRecord(status: TaskStatus, exitCode: Option<int>, error: Option<string>, now: nat): EventRecord {
    EventRecord(TerminalKind(status, error), now, error, Some(status), exitCode, None)
  }

  function Decimal(n: int): string
    decreases if n < 0 then 1 - n else n
  {
    if n < 0 then "-" + Decimal(-n)
    else if n < 10 then [('0' as int + n) as char]
    else Decimal(n / 10) + [('0' as int + n % 10) as char]
  }

  function Elapsed(startedAt: Option<nat>, completedAt: nat): Option<nat> {
    if startedAt.Some? && startedAt.value <= completedAt then Some(completedAt - startedAt.value) else None
  }

  function ExitOf(probe: Probe): Option<int> {
    if probe.reaped.Some? then probe.reaped else probe.marker
  }

  /** The record belongs to a detached task that is still down as running but whose process is gone. */
  predicate FoundOver(f: StatusFile, probe: Probe) {
    f.status.Running? && f.detached && f.pid.Some? && (probe.reaped.Some? || !probe.running)
  }

  function Closed(f: StatusFile, status: TaskStatus, exitCode: Option<int>, error: Option<string>, now: nat)
    : StatusFile
  {
    f.(status := status, exitCode := exitCode, error := error, completedAt := Some(now),
       duration := Elapsed(f.startedAt, now),
       history := Pushed(f.history, TerminalRecord(status, exitCode, error, now)))
  }

  function ExitError(exitCode: Option<int>): Option<string> {
    if exitCode == Some(0) then None
    else if exitCode.Some? then Some("Command exited with code " + Decimal(exitCode.value))
    else Some(NO_EXIT_CODE)
  }

  function Finalized(f: StatusFile, probe: Probe): StatusFile {
    var exitCode := ExitOf(probe);
    Closed(f, if exitCode == Some(0) then Completed else Failed, exitCode, ExitError(exitCode), probe.now)
  }

  function Cancelled(f: StatusFile, now: nat): StatusFile {
    Closed(f, Failed, None, Some(CANCELLED_BY_USER), now)
  }

  function Announcement(f: StatusFile): BusEvent {
    TaskCompleted(f.taskId, f.status, f.exitCode, if f.duration.Some? then f.duration.value else 0, f.notify, f.wake)
  }

  function Bool(b: bool): string {
    if b then "true" else "false"
  }

  // ---- The calls, as functions of what is on disk and what has been published ----

  datatype Disk = Disk(files: map<TaskId, StatusFile>, published: seq<BusEvent>)

  /** Finalizing a record read earlier: the write and the event are decided by what was read, not by what is there. */
  function FinalizedFrom(d: Disk, f: StatusFile, probe: Probe): Disk {
    if FoundOver(f, probe) then
      var closed := Finalized(f, probe);
      Disk(d.files[f.taskId := closed], d.published + [Announcement(closed)])
    else d
  }

  function Settled(f: StatusFile, probe: Probe): StatusFile {
    if FoundOver(f, probe) then Finalized(f, probe) else f
  }

  /** The last part of a cancel, after the grace period: it writes over whatever is there by then. */
  function CancelledFrom(d: Disk, f: StatusFile, now: nat): Disk {
    d.(files := d.files[f.taskId := Cancelled(f, now)])
  }

  predicate Cancellable(f: StatusFile) {
    f.status.Running? && f.detached && f.pid.Some?
  }

  function Reconciled(d: Disk, id: TaskId, probe: Probe): Disk {
    if id in d.files then FinalizedFrom(d, d.files[id], probe) else d
  }

  function CancelledByUser(d: Disk, id: TaskId, probe: Probe, now: nat): Disk {
    if id !in d.files then d
    else
      var settled := Settled(d.files[id], probe);
      var d' := FinalizedFrom(d, d.files[id], probe);
      if Cancellable(settled) then CancelledFrom(d', settled, now) else d'
  }

  function Registered(d: Disk, id: TaskId, toolName: string, displayName: Option<string>, sessionId: string, pid: nat,
                      startedAt: Option<nat>, notify: bool, wake: bool): Disk {
    var f := StatusFile(id, toolName, displayName, sessionId, Running, None, None, startedAt, None, None,
                        Some(pid), true, notify || wake, wake, None, []);
    d.(files := d.files[id := f])
  }

  /** A progress report on a record read earlier. */
  function ProgressFrom(d: Disk, id: TaskId, f: StatusFile, progress: Progress, kind: EventKind, now: nat): Disk {
    var p := Normalized(progress);
    if Dropped(f.progress, p) then d
    else
      var record := EventRecord(kind, now, p.message, Some(Running), None, Some(p));
      Disk(d.files[id := f.(progress := Some(p), history := Pushed(f.history, record))],
           d.published + [TaskProgress(f.taskId, p)])
  }

  function Redirected(f: StatusFile, notify: bool, wake: bool, now: nat): StatusFile {
    var message := "notify=" + Bool(notify || wake) + ", wake=" + Bool(wake);
    var record := EventRecord(DeliveryEvent, now, Some(message), Some(f.status), f.exitCode, f.progress);
    f.(notify := notify || wake, wake := wake, history := Pushed(f.history, record))
  }

  /** New delivery flags for a record read earlier. */
  function DeliveryFrom(d: Disk, id: TaskId, f: StatusFile, notify: bool, wake: bool, now: nat): Disk {
    d.(files := d.files[id := Redirected(f, notify, wake, now)])
  }

  function ProgressUpdated(d: Disk, id: TaskId, progress: Progress, kind: EventKind, now: nat): Disk {
    if id in d.files then ProgressFrom(d, id, d.files[id], progress, kind, now) else d
  }

  function DeliveryUpdated(d: Disk, id: TaskId, notify: bool, wake: bool, now: nat): Disk {
    if id in d.files then DeliveryFrom(d, id, d.files[id], notify, wake, now) else d
  }

  predicate WellFiled(d: Disk) {
    forall id :: id in d.files ==> d.files[id].taskId == id
  }

  class BackgroundTaskManager {
    var files: map<TaskId, StatusFile>
    var published: seq<BusEvent>

    function View(): Disk
      reads this
    {
      Disk(files, published)
    }

    constructor ()
      ensures View() == Disk(map[], [])
    {
      files, published := map[], [];
    }

    method PushTaskEvent(history: seq<EventRecord>, event: EventRecord) returns (kept: seq<EventRecord>)
      ensures kept == Pushed(history, event)
    {
      kept := history + [event];
      var overflow := Monus(|kept|, MAX_EVENT_HISTORY);
      if overflow > 0 {
        kept := kept[overflow..];
      }
    }

    method FinalizeDetachedStatusIfNeeded(read: StatusFile, probe: Probe) returns (status: StatusFile)
      modifies this
      ensures View() == FinalizedFrom(old(View()), read, probe)
      ensures status == Settled(read, probe)
    {
      status := read;
      if !status.status.Running? || !status.detached {
        return;
      }
      if status.pid.None? {
        return;
      }
      if probe.reaped.None? && probe.running {
        return;
      }
      var exitCode := if probe.reaped.Some? then probe.reaped else probe.marker;
      var finalStatus := if exitCode == Some(0) then Completed else Failed;
      var finalError := None;
      if finalStatus.Failed? {
        finalError := if exitCode.Some? then Some("Command exited with code " + Decimal(exitCode.value))
                      else Some(NO_EXIT_CODE);
      }
      status := status.(status := finalStatus, exitCode := exitCode, error := finalError);
      status := status.(completedAt := Some(probe.now), duration := Elapsed(status.startedAt, probe.now));
      var history := PushTaskEvent(status.history, TerminalRecord(finalStatus, exitCode, finalError, probe.now));
      status := status.(history := history);
      files := files[status.taskId := status];
      published := published + [Announcement(status)];
    }

    method RegisterDetachedTask(id: TaskId, toolName: string, displayName: Option<string>, sessionId: string, pid: nat,
                                startedAt: Option<nat>, notify: bool, wake: bool)
      modifies this
      ensures View() == Registered(old(View()), id, toolName, displayName, sessionId, pid, startedAt, notify, wake)
    {
      var status := StatusFile(id, toolName, displayName, sessionId, Running, None, None, startedAt, None, None,
                               Some(pid), true, notify || wake, wake, None, []);
      files := files[id := status];
    }

    method ReadStatusFile(id: TaskId) returns (status: Option<StatusFile>)
      ensures status == if id in files then Some(files[id]) else None
    {
      return if id in files then Some(files[id]) else None;
    }

    // What follows the read: other callers may have written the record since.
    method UpdateProgressFrom(id: TaskId, read: StatusFile, progress: Progress, kind: EventKind, now: nat)
      returns (status: StatusFile)
      modifies this
      ensures View() == ProgressFrom(old(View()), id, read, progress, kind, now)
      ensures status == if Dropped(read.progress, Normalized(progress)) then read else files[id]
    {
      status := read;
      var normalized := Normalized(progress);
      if status.progress.Some? {
        var existing := status.progress.value;
        if Equivalent(existing, normalized) {
          return;
        }
        var existingIsMoreDeterminate := existing.percent.Some? || (existing.total.Some? && existing.total.value > 0);
        var newIsLessDeterminate :=
          normalized.percent.None? && !(normalized.total.Some? && normalized.total.value > 0);
        if existingIsMoreDeterminate && newIsLessDeterminate && normalized.source.ParsedOutput? {
          return;
        }
      }
      var record := EventRecord(kind, now, normalized.message, Some(Running), None, Some(normalized));
      var history := PushTaskEvent(status.history, record);
      status := status.(progress := Some(normalized), history := history);
      files := files[id := status];
      published := published + [TaskProgress(status.taskId, normalized)];
    }

    method UpdateProgressWithEventKind(id: TaskId, progress: Progress, kind: EventKind, now: nat)
      returns (result: Option<StatusFile>)
      modifies this
      ensures View() == ProgressUpdated(old(View()), id, progress, kind, now)
      ensures result == (if id in files then Some(files[id]) else None)
    {
      var read := ReadStatusFile(id);
      if read.None? {
        return None;
      }
      var status := UpdateProgressFrom(id, read.value, progress, kind, now);
      return Some(status);
    }

    method UpdateDeliveryFrom(id: TaskId, read: StatusFile, notify: bool, wake: bool, now: nat)
      returns (status: StatusFile)
      modifies this
      ensures View() == DeliveryFrom(old(View()), id, read, notify, wake, now) && status == files[id]
    {
      status := read.(notify := notify || wake, wake := wake);
      var message := "notify=" + Bool(notify || wake) + ", wake=" + Bool(wake);
      var record := EventRecord(DeliveryEvent, now, Some(message), Some(status.status), status.exitCode,
                                status.progress);
      var history := PushTaskEvent(status.history, record);
      status := status.(history := history);
      files := files[id := status];
    }

    method UpdateDelivery(id: TaskId, notify: bool, wake: bool, now: nat) returns (result: Option<StatusFile>)
      modifies this
      ensures View() == DeliveryUpdated(old(View()), id, notify, wake, now)
      ensures result == (if id in files then Some(files[id]) else None)
    {
      var read := ReadStatusFile(id);
      if read.None? {
        return None;
      }
      var status := UpdateDeliveryFrom(id, read.value, notify, wake, now);
      return Some(status);
    }

    // After the grace period, with the record as it was before it.
    method FinishCancel(read: StatusFile, now: nat)
      modifies this
      ensures View() == CancelledFrom(old(View()), read, now)
    {
      var status := read.(status := Failed, exitCode := None, error := Some(CANCELLED_BY_USER));
      status := status.(completedAt := Some(now), duration := Elapsed(status.startedAt, now));
      var history := PushTaskEvent(status.history, TerminalRecord(Failed, None, Some(CANCELLED_BY_USER), now));
      status := status.(history := history);
      files := files[status.taskId := status];
    }

    // For a task that does not run inside this process.
    method CancelDetached(id: TaskId, probe: Probe, now: nat) returns (cancelled: bool)
      modifies this
      ensures View() == CancelledByUser(old(View()), id, probe, now)
      ensures cancelled <==> id in old(files) && Cancellable(Settled(old(files)[id], probe))
    {
      var read := ReadStatusFile(id);
      if read.None? {
        return false;
      }
      var status := FinalizeDetachedStatusIfNeeded(read.value, probe);
      if !status.status.Running? || !status.detached {
        return false;
      }
      if status.pid.None? {
        return false;
      }
      FinishCancel(status, now);
      return true;
    }
  }

  // ---- Runs, each call one step ----

  datatype Call =
    | Register(id: TaskId, toolName: string, displayName: Option<string>, sessionId: string, pid: nat,
               startedAt: Option<nat>, notify: bool, wake: bool)
    | InProcessWrite(id: TaskId, file: StatusFile)
    | Reconcile(id: TaskId, probe: Probe)
    | UpdateProgress(id: TaskId, progress: Progress, kind: EventKind, now: nat)
    | UpdateDelivery(id: TaskId, notify: bool, wake: bool, now: nat)
    | Cancel(id: TaskId, probe: Probe, now: nat)

  predicate DetachedIn(d: Disk, id: TaskId) {
    id in d.files && d.files[id].detached
  }

  /** Task ids are not reused, and tasks inside the process write their own records only. */
  predicate Enabled(d: Disk, c: Call) {
    match c
    case Register(id, _, _, _, _, _, _, _) => id !in d.files
    case InProcessWrite(id, file) => file.taskId == id && !file.detached && !DetachedIn(d, id)
    case _ => true
  }

  function Step(d: Disk, c: Call): Disk {
    match c
    case Register(id, toolName, displayName, sessionId, pid, startedAt, notify, wake) =>
      Registered(d, id, toolName, displayName, sessionId, pid, startedAt, notify, wake)
    case InProcessWrite(id, file) => d.(files := d.files[id := file])
    case Reconcile(id, probe) => Reconciled(d, id, probe)
    case UpdateProgress(id, progress, kind, now) => ProgressUpdated(d, id, progress, kind, now)
    case UpdateDelivery(id, notify, wake, now) => DeliveryUpdated(d, id, notify, wake, now)
    case Cancel(id, probe, now) => CancelledByUser(d, id, probe, now)
  }

  function After(calls: seq<Call>): Option<Disk> {
    if calls == [] then Some(Disk(map[], []))
    else
      var before, c := After(calls[..|calls| - 1]), calls[|calls| - 1];
      if before.Some? && Enabled(before.value, c) then Some(Step(before.value, c)) else None
  }

  /** The completion events published for one task, oldest first. */
  function Completions(published: seq<BusEvent>, id: TaskId): (r: seq<BusEvent>)
    ensures forall k :: 0 <= k < |r| ==> r[k].TaskCompleted? && r[k].taskId == id
  {
    if published == [] then []
    else
      var e := published[|published| - 1];
      Completions(published[..|published| - 1], id) + (if e.TaskCompleted? && e.taskId == id then [e] else [])
  }

  lemma CompletionsSnoc(published: seq<BusEvent>, e: BusEvent, id: TaskId)
    ensures Completions(published + [e], id) ==
            Completions(published, id) + (if e.TaskCompleted? && e.taskId == id then [e] else [])
  {
    assert (published + [e])[..|published + [e]| - 1] == published;
  }

  predicate CancelledFile(f: StatusFile) {
    f.error == Some(CANCELLED_BY_USER)
  }

  /** What a detached record looks like, and which completion events go with it. */
  predicate Consistent(f: StatusFile, announced: seq<BusEvent>) {
    && !f.status.Superseded?
    && f.pid.Some?
    && (f.completedAt.Some? <==> !f.status.Running?)
    && (f.status.Completed? <==> f.exitCode == Some(0))
    && (f.error.Some? <==> f.status.Failed?)
    && |f.history| <= MAX_EVENT_HISTORY
    && |announced| == (if f.status.Running? || CancelledFile(f) then 0 else 1)
    && (announced != [] ==> announced[0].TaskCompleted? && announced[0].status == f.status
                            && announced[0].exitCode == f.exitCode)
  }

  ghost predicate InvAt(d: Disk, id: TaskId) {
    if DetachedIn(d, id) then Consistent(d.files[id], Completions(d.published, id))
    else Completions(d.published, id) == []
  }

  ghost predicate Inv(d: Disk) {
    WellFiled(d) && forall id :: InvAt(d, id)
  }

  lemma FinalizedIsConsistent(f: StatusFile, probe: Probe)
    requires FoundOver(f, probe) && Consistent(f, [])
    ensures Consistent(Finalized(f, probe), [Announcement(Finalized(f, probe))])
  {
    var exitCode := ExitOf(probe);
    if exitCode.Some? && exitCode != Some(0) {
      assert ("Command exited with code " + Decimal(exitCode.value))[1] == 'o';
      assert CANCELLED_BY_USER[1] == 'a';
    } else if exitCode.None? {
      assert |NO_EXIT_CODE| != |CANCELLED_BY_USER|;
    }
  }

  lemma FinalizedCompletions(d: Disk, f: StatusFile, probe: Probe, id: TaskId)
    requires FoundOver(f, probe)
    ensures Completions(FinalizedFrom(d, f, probe).published, id) ==
            Completions(d.published, id) + (if id == f.taskId then [Announcement(Finalized(f, probe))] else [])
  {
    CompletionsSnoc(d.published, Announcement(Finalized(f, probe)), id);
  }

  lemma FinalizeKeepsInvAt(d: Disk, f: StatusFile, probe: Probe, id: TaskId)
    requires FoundOver(f, probe) && f.taskId in d.files && d.files[f.taskId] == f
    requires InvAt(d, id) && InvAt(d, f.taskId)
    ensures InvAt(FinalizedFrom(d, f, probe), id)
  {
    FinalizedCompletions(d, f, probe, id);
    if id == f.taskId {
      assert Completions(d.published, id) == [];
      FinalizedIsConsistent(f, probe);
    }
  }

  lemma FinalizeKeepsInv(d: Disk, id: TaskId, probe: Probe)
    requires Inv(d) && id in d.files
    ensures Inv(FinalizedFrom(d, d.files[id], probe))
  {
    var f := d.files[id];
    if FoundOver(f, probe) {
      forall other ensures InvAt(FinalizedFrom(d, f, probe), other) {
        assert InvAt(d, other) && InvAt(d, f.taskId);
        FinalizeKeepsInvAt(d, f, probe, other);
      }
    }
  }

  lemma CancelKeepsInv(d: Disk, id: TaskId, probe: Probe, now: nat)
    requires Inv(d)
    ensures Inv(CancelledByUser(d, id, probe, now))
  {
    if id in d.files {
      FinalizeKeepsInv(d, id, probe);
      var f := d.files[id];
      var settled := Settled(f, probe);
      if Cancellable(settled) {
        assert InvAt(d, id) && Consistent(f, Completions(d.published, id));
        assert settled == f && Consistent(Cancelled(f, now), []);
        forall other ensures InvAt(CancelledFrom(d, f, now), other) {
          assert InvAt(d, other);
        }
      }
    }
  }

  lemma ProgressKeepsInv(d: Disk, id: TaskId, progress: Progress, kind: EventKind, now: nat)
    requires Inv(d)
    ensures Inv(ProgressUpdated(d, id, progress, kind, now))
  {
    forall other ensures InvAt(ProgressUpdated(d, id, progress, kind, now), other) {
      assert InvAt(d, other);
      if id in d.files {
        CompletionsSnoc(d.published, TaskProgress(d.files[id].taskId, Normalized(progress)), other);
      }
    }
  }

  lemma DeliveryKeepsInv(d: Disk, id: TaskId, notify: bool, wake: bool, now: nat)
    requires Inv(d)
    ensures Inv(DeliveryUpdated(d, id, notify, wake, now))
  {
    forall other ensures InvAt(DeliveryUpdated(d, id, notify, wake, now), other) {
      assert InvAt(d, other);
    }
  }

  lemma NewFileKeepsInv(d: Disk, c: Call)
    requires Inv(d) && Enabled(d, c) && (c.Register? || c.InProcessWrite?)
    ensures Inv(Step(d, c))
  {
    forall other ensures InvAt(Step(d, c), other) {
      assert InvAt(d, other);
    }
  }

  lemma StepKeepsInv(d: Disk, c: Call)
    requires Inv(d) && Enabled(d, c)
    ensures Inv(Step(d, c))
  {
    match c
    case Register(_, _, _, _, _, _, _, _) => NewFileKeepsInv(d, c);
    case InProcessWrite(_, _) => NewFileKeepsInv(d, c);
    case Reconcile(id, probe) => if id in d.files { FinalizeKeepsInv(d, id, probe); }
    case UpdateProgress(id, progress, kind, now) => ProgressKeepsInv(d, id, progress, kind, now);
    case UpdateDelivery(id, notify, wake, now) => DeliveryKeepsInv(d, id, notify, wake, now);
    case Cancel(id, probe, now) => CancelKeepsInv(d, id, probe, now);
  }

  /** Over every run of calls: a detached record completes with exit code 0 only, has an error exactly when it failed
      and a completion time exactly when it is over; one completion event is published for a task that ended by
      itself, with the recorded outcome, and none for a running or cancelled one. */
  lemma {:induction false} TasksOverRuns(calls: seq<Call>)
    requires After(calls).Some?
    ensures Inv(After(calls).value)
  {
    if calls != [] {
      TasksOverRuns(calls[..|calls| - 1]);
      StepKeepsInv(After(calls[..|calls| - 1]).value, calls[|calls| - 1]);
    }
  }

  lemma AtMostOneCompletion(calls: seq<Call>, id: TaskId)
    requires After(calls).Some?
    ensures |Completions(After(calls).value.published, id)| <= 1
  {
    TasksOverRuns(calls);
    assert InvAt(After(calls).value, id);
  }

  /** The part of a record that tells how a task ended. */
  predicate SameEnding(f: StatusFile, f': StatusFile) {
    && f'.status == f.status && f'.exitCode == f.exitCode && f'.error == f.error
    && f'.completedAt == f.completedAt && f'.duration == f.duration && f'.pid == f.pid && f'.detached == f.detached
  }

  ghost predicate EndingKept(d: Disk, d': Disk, id: TaskId)
    requires DetachedIn(d, id)
  {
    && DetachedIn(d', id) && SameEnding(d.files[id], d'.files[id])
    && Completions(d'.published, id) == Completions(d.published, id)
  }

  lemma StepKeepsEnding(d: Disk, c: Call, id: TaskId)
    requires WellFiled(d) && Enabled(d, c) && DetachedIn(d, id) && !d.files[id].status.Running?
    ensures EndingKept(d, Step(d, c), id)
  {
    if c.UpdateProgress? && c.id in d.files {
      CompletionsSnoc(d.published, TaskProgress(d.files[c.id].taskId, Normalized(c.progress)), id);
    } else if (c.Reconcile? || c.Cancel?) && c.id in d.files && FoundOver(d.files[c.id], c.probe) {
      CompletionsSnoc(d.published, Announcement(Finalized(d.files[c.id], c.probe)), id);
    }
  }

  /** Once over, always over in the same way: no later call of any kind changes how a detached task ended, and none
      publishes a further completion. */
  lemma {:induction false} EndingIsFinal(calls: seq<Call>, later: seq<Call>, id: TaskId)
    requires After(calls).Some? && After(calls + later).Some?
    requires DetachedIn(After(calls).value, id) && !After(calls).value.files[id].status.Running?
    ensures var was, now := After(calls).value, After(calls + later).value;
            && DetachedIn(now, id) && SameEnding(was.files[id], now.files[id])
            && Completions(now.published, id) == Completions(was.published, id)
  {
    if later == [] {
      assert calls + later == calls;
    } else {
      var shorter := later[..|later| - 1];
      assert (calls + later)[..|calls + later| - 1] == calls + shorter;
      EndingIsFinal(calls, shorter, id);
      TasksOverRuns(calls + shorter);
      StepKeepsEnding(After(calls + shorter).value, later[|later| - 1], id);
    }
  }

  // ---- Progress never loses its measure to parsed output ----

  /** The progress is measured, and labelled determinate. */
  predicate Determined(progress: Option<Progress>) {
    progress.Some? && Measured(progress.value) && progress.value.kind.Determinate?
  }

  predicate KnowsMeasure(d: Disk, id: TaskId) {
    DetachedIn(d, id) && Determined(d.files[id].progress)
  }

  predicate ParsedOnly(c: Call, id: TaskId) {
    c.UpdateProgress? && c.id == id ==> c.progress.source.ParsedOutput?
  }

  lemma StepKeepsMeasure(d: Disk, c: Call, id: TaskId)
    requires WellFiled(d) && Enabled(d, c) && KnowsMeasure(d, id) && ParsedOnly(c, id)
    ensures KnowsMeasure(Step(d, c), id)
  {
  }

  /** However many calls come in any order, while only parsed output reports on a task its progress stays measured
      and labelled determinate once it is. */
  lemma {:induction false} ParsedOutputKeepsMeasure(calls: seq<Call>, later: seq<Call>, id: TaskId)
    requires After(calls).Some? && After(calls + later).Some? && KnowsMeasure(After(calls).value, id)
    requires forall k :: 0 <= k < |later| ==> ParsedOnly(later[k], id)
    ensures KnowsMeasure(After(calls + later).value, id)
  {
    if later == [] {
      assert calls + later == calls;
    } else {
      var shorter := later[..|later| - 1];
      assert (calls + later)[..|calls + later| - 1] == calls + shorter;
      ParsedOutputKeepsMeasure(calls, shorter, id);
      TasksOverRuns(calls + shorter);
      StepKeepsMeasure(After(calls + shorter).value, later[|later| - 1], id);
    }
  }

  /** The label alone is not protected: parsed output turns a determinate label into an indeterminate one exactly when
      the stored progress has neither a percentage nor a total. */
  lemma LabelCanBeLost(d: Disk, id: TaskId, progress: Progress, kind: EventKind, now: nat)
    requires id in d.files && d.files[id].progress.Some? && d.files[id].progress.value.kind.Determinate?
    requires progress.source.ParsedOutput? && progress.kind.Indeterminate? && !Measured(progress)
    ensures ProgressUpdated(d, id, progress, kind, now).files[id].progress.value.kind.Indeterminate?
            <==> !Measured(d.files[id].progress.value)
  {
    NormalizedFacts(progress);
  }

  const T := "t"

  function Plain(kind: ProgressKind, source: ProgressSource): Progress {
    Progress(kind, None, None, None, None, None, None, 0, source)
  }

  function Labelled(kind: ProgressKind, source: ProgressSource): Call {
    UpdateProgress(T, Plain(kind, source), ProgressEvent, 0)
  }

  const REGISTER := Register(T, "tool", None, "session", 1, Some(0), true, false)

  /** A run that loses the label: a task reports determinate progress without numbers, and parsed output follows. */
  lemma LabelLossIsReachable()
    ensures var first := [REGISTER] + [Labelled(Determinate, Reported)];
            var second := first + [Labelled(Indeterminate, ParsedOutput)];
            && After(first).Some? && T in After(first).value.files
            && After(first).value.files[T].progress == Some(Plain(Determinate, Reported))
            && After(second).Some? && T in After(second).value.files
            && After(second).value.files[T].progress == Some(Plain(Indeterminate, ParsedOutput))
  {
    var first := [REGISTER] + [Labelled(Determinate, Reported)];
    AfterSnoc([], REGISTER);
    assert [] + [REGISTER] == [REGISTER];
    AfterSnoc([REGISTER], Labelled(Determinate, Reported));
    AfterSnoc(first, Labelled(Indeterminate, ParsedOutput));
  }

  lemma AfterSnoc(calls: seq<Call>, c: Call)
    requires After(calls).Some? && Enabled(After(calls).value, c)
    ensures After(calls + [c]) == Some(Step(After(calls).value, c))
  {
    assert (calls + [c])[..|calls + [c]| - 1] == calls;
  }
}
