/** When a detached task is down as over, and as what: read off what was found out about its process, not off the
    conditions that the calls test. */
module TaskSettlement {
  import opened Wrappers
  import opened BackgroundTasks
  import Overlap = OverlappingTasks

  /** An exit code was collected, or the process does not run. */
  predicate Gone(probe: Probe) {
    probe.reaped.Some? || !probe.running
  }

  /** The code collected, or else the one that the output ends with. */
  function CodeOf(probe: Probe): Option<int> {
    if probe.reaped.Some? then probe.reaped else probe.marker
  }

  // ---- Looking at a process that still runs ----

  /** Looking at a task whose process runs and left no exit code changes nothing at all. */
  lemma LookingAtRunningChangesNothing(d: Disk, id: TaskId, probe: Probe)
    requires probe.reaped.None? && probe.running
    ensures Step(d, Reconcile(id, probe)) == d
  {
  }

  /** The same when the look and the landing are apart, whatever came between. */
  lemma LandingOnRunningChangesNothing(s: Overlap.State, k: nat, probe: Probe)
    requires probe.reaped.None? && probe.running && k in s.copies
    ensures Overlap.Next(s, Overlap.Land(k, Overlap.Settle(probe))).d == s.d
  {
  }

  // ---- How a task ended ----

  datatype Ending = StillGoing | ByItself(code: Option<int>, at: nat) | ByUser(at: nat)

  /** A running task is over with the first look that finds its process gone, or with the first cancel. */
  function NextEnding(ending: Ending, c: Call, id: TaskId): Ending {
    if !ending.StillGoing? then ending
    else
      match c
      case Reconcile(i, probe) => if i == id && Gone(probe) then ByItself(CodeOf(probe), probe.now) else ending
      case Cancel(i, probe, now) =>
        if i != id then ending else if Gone(probe) then ByItself(CodeOf(probe), probe.now) else ByUser(now)
      case _ => ending
  }

  function EndingBy(calls: seq<Call>, id: TaskId): Ending
    requires After(calls).Some?
  {
    if calls == [] then StillGoing
    else
      var before := calls[..|calls| - 1];
      if DetachedIn(After(before).value, id) then NextEnding(EndingBy(before, id), calls[|calls| - 1], id)
      else StillGoing
  }

  /** Completed exactly with code zero; failed with another code or none, or by the user. */
  predicate EndsAs(f: StatusFile, ending: Ending) {
    match ending
    case StillGoing => f.status.Running? && f.exitCode.None? && f.completedAt.None? && f.error.None?
    case ByItself(code, at) =>
      && (if code == Some(0) then f.status.Completed? && f.error.None?
          else f.status.Failed? && f.error == Some(if code.Some? then "Command exited with code " + Decimal(code.value)
                                                   else NO_EXIT_CODE))
      && f.exitCode == code && f.completedAt == Some(at) && Lasted(f, at)
    case ByUser(at) =>
      && f.status.Failed? && f.error == Some(CANCELLED_BY_USER)
      && f.exitCode.None? && f.completedAt == Some(at) && Lasted(f, at)
  }

  /** The duration is the time since the start, if the start is known and was before. */
  predicate Lasted(f: StatusFile, at: nat) {
    if f.startedAt.Some? && f.startedAt.value <= at then f.duration == Some(at - f.startedAt.value)
    else f.duration.None?
  }

  /** One completion for a task that ended by itself, with its outcome, and none for another. */
  predicate AnnouncedAs(announced: seq<BusEvent>, id: TaskId, ending: Ending) {
    if ending.ByItself? then
      && |announced| == 1 && announced[0].TaskCompleted? && announced[0].taskId == id
      && announced[0].exitCode == ending.code
      && announced[0].status == if ending.code == Some(0) then Completed else Failed
    else announced == []
  }

  ghost predicate TellsEnding(d: Disk, id: TaskId, ending: Ending) {
    if DetachedIn(d, id) then
      && d.files[id].pid.Some? && EndsAs(d.files[id], ending) && AnnouncedAs(Completions(d.published, id), id, ending)
    else ending.StillGoing?
  }

  lemma FoundOverIff(f: StatusFile, probe: Probe)
    requires f.detached && f.pid.Some?
    ensures FoundOver(f, probe) <==> f.status.Running? && Gone(probe)
  {
  }

  lemma FinalizedEnds(f: StatusFile, probe: Probe)
    requires FoundOver(f, probe)
    ensures EndsAs(Finalized(f, probe), ByItself(CodeOf(probe), probe.now))
    ensures AnnouncedAs([Announcement(Finalized(f, probe))], f.taskId, ByItself(CodeOf(probe), probe.now))
  {
  }

  lemma CancelledEnds(f: StatusFile, now: nat)
    ensures EndsAs(Cancelled(f, now), ByUser(now))
  {
  }

  lemma ReconcileTells(d: Disk, id: TaskId, probe: Probe, ending: Ending)
    requires WellFiled(d) && DetachedIn(d, id) && TellsEnding(d, id, ending)
    ensures TellsEnding(Reconciled(d, id, probe), id, NextEnding(ending, Reconcile(id, probe), id))
  {
    var f := d.files[id];
    FoundOverIff(f, probe);
    if FoundOver(f, probe) {
      FinalizedEnds(f, probe);
      FinalizedCompletions(d, f, probe, id);
    }
  }

  lemma CancelTells(d: Disk, id: TaskId, probe: Probe, now: nat, ending: Ending)
    requires WellFiled(d) && DetachedIn(d, id) && TellsEnding(d, id, ending)
    ensures TellsEnding(CancelledByUser(d, id, probe, now), id, NextEnding(ending, Cancel(id, probe, now), id))
  {
    var f := d.files[id];
    FoundOverIff(f, probe);
    if FoundOver(f, probe) {
      FinalizedEnds(f, probe);
      FinalizedCompletions(d, f, probe, id);
    } else if f.status.Running? {
      CancelledEnds(f, now);
    }
  }

  /** What tells the ending of a task, and its announcements, are as before. */
  ghost predicate Untouched(d: Disk, v: Disk, id: TaskId)
    requires DetachedIn(d, id)
  {
    && DetachedIn(v, id) && SameEnding(d.files[id], v.files[id]) && v.files[id].startedAt == d.files[id].startedAt
    && Completions(v.published, id) == Completions(d.published, id)
  }

  lemma UntouchedTells(d: Disk, v: Disk, id: TaskId, ending: Ending)
    requires DetachedIn(d, id) && TellsEnding(d, id, ending) && Untouched(d, v, id)
    ensures TellsEnding(v, id, ending)
  {
  }

  lemma ReportLeavesEnding(d: Disk, c: Call, id: TaskId)
    requires WellFiled(d) && DetachedIn(d, id) && c.UpdateProgress?
    ensures Untouched(d, Step(d, c), id)
  {
    if c.id in d.files {
      CompletionsSnoc(d.published, TaskProgress(d.files[c.id].taskId, Normalized(c.progress)), id);
    }
  }

  lemma ClosingLeavesOthers(d: Disk, c: Call, id: TaskId)
    requires WellFiled(d) && DetachedIn(d, id) && (c.Reconcile? || c.Cancel?) && c.id != id
    ensures Untouched(d, Step(d, c), id)
  {
    if c.id in d.files && FoundOver(d.files[c.id], c.probe) {
      FinalizedCompletions(d, d.files[c.id], c.probe, id);
    }
  }

  /** A call about another task, or one that ends none, leaves record and announcements as far as endings go. */
  lemma OtherTells(d: Disk, c: Call, id: TaskId, ending: Ending)
    requires WellFiled(d) && Enabled(d, c) && DetachedIn(d, id) && TellsEnding(d, id, ending)
    requires (c.Reconcile? || c.Cancel?) ==> c.id != id
    ensures TellsEnding(Step(d, c), id, ending)
  {
    if c.UpdateProgress? {
      ReportLeavesEnding(d, c, id);
    } else if c.Reconcile? || c.Cancel? {
      ClosingLeavesOthers(d, c, id);
    } else {
      assert Untouched(d, Step(d, c), id);
    }
    UntouchedTells(d, Step(d, c), id, ending);
  }

  /** Only registration makes a task a detached one. */
  lemma NotYetDetached(d: Disk, c: Call, id: TaskId)
    requires WellFiled(d) && Enabled(d, c) && !DetachedIn(d, id) && !(c.Register? && c.id == id)
    ensures !DetachedIn(Step(d, c), id)
  {
  }

  /** Before it is registered nothing is announced for a task. */
  lemma FirstTells(d: Disk, c: Call, id: TaskId)
    requires Inv(d) && Enabled(d, c) && !DetachedIn(d, id)
    ensures TellsEnding(Step(d, c), id, StillGoing)
  {
    if c.Register? && c.id == id {
      assert InvAt(d, id);
    } else {
      NotYetDetached(d, c, id);
    }
  }

  lemma StepTells(d: Disk, c: Call, id: TaskId, ending: Ending)
    requires WellFiled(d) && Enabled(d, c) && DetachedIn(d, id) && TellsEnding(d, id, ending)
    ensures TellsEnding(Step(d, c), id, NextEnding(ending, c, id))
  {
    if c.Reconcile? && c.id == id {
      ReconcileTells(d, id, c.probe, ending);
    } else if c.Cancel? && c.id == id {
      CancelTells(d, id, c.probe, c.now, ending);
    } else {
      OtherTells(d, c, id, ending);
    }
  }

  /** Over every run of calls, each detached task is down as running exactly until the first look that finds its
      process gone or the first cancel, and from then on as ended in that way: completed exactly if the collected code,
      or else the one in its output, is zero. */
  lemma {:induction false} RecordTellsTheRun(calls: seq<Call>, id: TaskId)
    requires After(calls).Some?
    ensures TellsEnding(After(calls).value, id, EndingBy(calls, id))
  {
    if calls != [] {
      var before, c := calls[..|calls| - 1], calls[|calls| - 1];
      var d := After(before).value;
      TasksOverRuns(before);
      if DetachedIn(d, id) {
        RecordTellsTheRun(before, id);
        StepTells(d, c, id, EndingBy(before, id));
      } else {
        FirstTells(d, c, id);
      }
    }
  }

  /** The completion event for a record: its ending, how long it took, and who is to be told. */
  function Notice(f: StatusFile): BusEvent {
    TaskCompleted(f.taskId, f.status, f.exitCode, f.duration.GetOr(0), f.notify, f.wake)
  }

  /** One look at a running task, in any run: it ends the task exactly when a code was collected or the process is not
      running, and as completed exactly when the collected code, or else the one in the output, is zero. */
  lemma LookEndsIff(calls: seq<Call>, id: TaskId, probe: Probe)
    requires After(calls).Some? && DetachedIn(After(calls).value, id) && After(calls).value.files[id].status.Running?
    ensures var d := After(calls).value;
            var v := Step(d, Reconcile(id, probe));
            && DetachedIn(v, id)
            && (!v.files[id].status.Running? <==> probe.reaped.Some? || !probe.running)
            && (v.files[id].status.Completed? <==>
                  (probe.reaped == Some(0)) || (probe.reaped.None? && !probe.running && probe.marker == Some(0)))
            && v.published == d.published + (if v.files[id].status.Running? then [] else [Notice(v.files[id])])
            && v.files[id].notify == d.files[id].notify && v.files[id].wake == d.files[id].wake
  {
    RecordTellsTheRun(calls, id);
    TasksOverRuns(calls);
    ReconcileTells(After(calls).value, id, probe, EndingBy(calls, id));
  }

  /** The same for a landing on a copy read while the task ran. */
  lemma LandingEndsIff(events: seq<Overlap.Event>, k: nat, probe: Probe)
    requires Overlap.Reached(events).Some? && k in Overlap.Reached(events).value.copies
    requires var copy := Overlap.Reached(events).value.copies[k]; copy.detached && copy.status.Running?
    ensures var s := Overlap.Reached(events).value;
            var copy, v := s.copies[k], Overlap.Next(s, Overlap.Land(k, Overlap.Settle(probe))).d;
            if probe.reaped.Some? || !probe.running then
              && copy.taskId in v.files && EndsAs(v.files[copy.taskId], ByItself(CodeOf(probe), probe.now))
              && Completions(v.published, copy.taskId)
                 == Completions(s.d.published, copy.taskId) + [Notice(v.files[copy.taskId])]
            else v == s.d
  {
    var s := Overlap.Reached(events).value;
    Overlap.FittingOverRuns(events);
    assert Overlap.CopyFits(s.d, s.copies[k]);
    if Gone(probe) {
      FinalizedEnds(s.copies[k], probe);
      FinalizedCompletions(s.d, s.copies[k], probe, s.copies[k].taskId);
    }
  }

  // ---- Who is told ----

  /** What registration or the last change of delivery asked for. */
  datatype Wish = Wish(notify: bool, wake: bool)

  function NextWish(wish: Wish, c: Call, id: TaskId): Wish {
    match c
    case Register(i, _, _, _, _, _, notify, wake) => if i == id then Wish(notify, wake) else wish
    case UpdateDelivery(i, notify, wake, _) => if i == id then Wish(notify, wake) else wish
    case _ => wish
  }

  function WishBy(calls: seq<Call>, id: TaskId): Wish {
    if calls == [] then Wish(false, false)
    else NextWish(WishBy(calls[..|calls| - 1], id), calls[|calls| - 1], id)
  }

  predicate Delivers(f: StatusFile, wish: Wish) {
    f.wake == wish.wake && (f.notify <==> wish.notify || wish.wake)
  }

  lemma StepDelivers(d: Disk, c: Call, id: TaskId, wish: Wish)
    requires WellFiled(d) && Enabled(d, c) && (DetachedIn(d, id) ==> Delivers(d.files[id], wish))
    ensures DetachedIn(Step(d, c), id) ==> Delivers(Step(d, c).files[id], NextWish(wish, c, id))
  {
  }

  /** Over every run the flags of a detached task are those asked for last, and whoever is to be woken is also told. */
  lemma {:induction false} FlagsAreTheLastAskedFor(calls: seq<Call>, id: TaskId)
    requires After(calls).Some?
    ensures DetachedIn(After(calls).value, id) ==> Delivers(After(calls).value.files[id], WishBy(calls, id))
  {
    if calls != [] {
      FlagsAreTheLastAskedFor(calls[..|calls| - 1], id);
      TasksOverRuns(calls[..|calls| - 1]);
      StepDelivers(After(calls[..|calls| - 1]).value, calls[|calls| - 1], id, WishBy(calls[..|calls| - 1], id));
    }
  }

  // ---- What the history says ----

  function Truth(b: bool): string {
    if b then "true" else "false"
  }

  /** The record of an ending: its kind tells completion, failure and cancellation apart. */
  function EndRecord(code: Option<int>, byUser: bool, at: nat, error: Option<string>): EventRecord {
    EventRecord(if byUser then CancelledEvent else if code == Some(0) then CompletedEvent else FailedEvent, at, error,
                Some(if !byUser && code == Some(0) then Completed else Failed), code, None)
  }

  /** What a call adds to the history of a record. */
  function Added(f: StatusFile, c: Call): Option<EventRecord> {
    match c
    case Reconcile(_, probe) => if f.status.Running? && Gone(probe) then Some(EndOf(f, probe)) else None
    case Cancel(_, probe, now) =>
      if !f.status.Running? then None
      else if Gone(probe) then Some(EndOf(f, probe))
      else Some(EndRecord(None, true, now, Some(CANCELLED_BY_USER)))
    case UpdateProgress(_, progress, kind, now) =>
      var p := Normalized(progress);
      if Dropped(f.progress, p) then None else Some(EventRecord(kind, now, p.message, Some(Running), None, Some(p)))
    case UpdateDelivery(_, notify, wake, now) =>
      Some(EventRecord(DeliveryEvent, now, Some("notify=" + Truth(notify || wake) + ", wake=" + Truth(wake)),
                       Some(f.status), f.exitCode, f.progress))
    case _ => None
  }

  function EndOf(f: StatusFile, probe: Probe): EventRecord {
    EndRecord(CodeOf(probe), false, probe.now,
              if CodeOf(probe) == Some(0) then None
              else if CodeOf(probe).Some? then Some("Command exited with code " + Decimal(CodeOf(probe).value))
              else Some(NO_EXIT_CODE))
  }

  /** All that the calls of a run said of a detached task. */
  function Said(calls: seq<Call>, id: TaskId): seq<EventRecord>
    requires After(calls).Some?
  {
    if calls == [] then []
    else
      var before, c := calls[..|calls| - 1], calls[|calls| - 1];
      var d := After(before).value;
      if !DetachedIn(d, id) then []
      else
        Said(before, id)
        + (if c.id == id && Added(d.files[id], c).Some? then [Added(d.files[id], c).value] else [])
  }

  function NewestFifty(records: seq<EventRecord>): seq<EventRecord> {
    records[Monus(|records|, 50)..]
  }

  lemma PushKeepsFifty(records: seq<EventRecord>, history: seq<EventRecord>, e: EventRecord)
    requires history == NewestFifty(records)
    ensures Pushed(history, e) == NewestFifty(records + [e])
  {
  }

  predicate Adds(f: StatusFile, history: seq<EventRecord>, added: Option<EventRecord>) {
    history == if added.Some? then Pushed(f.history, added.value) else f.history
  }

  lemma ClosingAdds(d: Disk, c: Call, id: TaskId)
    requires WellFiled(d) && DetachedIn(d, id) && d.files[id].pid.Some? && c.id == id && (c.Reconcile? || c.Cancel?)
    ensures DetachedIn(Step(d, c), id) && Adds(d.files[id], Step(d, c).files[id].history, Added(d.files[id], c))
  {
    FoundOverIff(d.files[id], c.probe);
  }

  lemma UpdatingAdds(d: Disk, c: Call, id: TaskId)
    requires WellFiled(d) && Enabled(d, c) && DetachedIn(d, id) && c.id == id && !c.Reconcile? && !c.Cancel?
    ensures DetachedIn(Step(d, c), id) && Adds(d.files[id], Step(d, c).files[id].history, Added(d.files[id], c))
  {
  }

  lemma OthersAddNothing(d: Disk, c: Call, id: TaskId)
    requires WellFiled(d) && Enabled(d, c) && DetachedIn(d, id) && c.id != id
    ensures DetachedIn(Step(d, c), id) && Step(d, c).files[id] == d.files[id]
  {
  }

  lemma StepAdds(d: Disk, c: Call, id: TaskId)
    requires WellFiled(d) && Enabled(d, c) && DetachedIn(d, id) && d.files[id].pid.Some?
    ensures DetachedIn(Step(d, c), id)
    ensures Adds(d.files[id], Step(d, c).files[id].history, if c.id == id then Added(d.files[id], c) else None)
  {
    if c.id != id {
      OthersAddNothing(d, c, id);
    } else if c.Reconcile? || c.Cancel? {
      ClosingAdds(d, c, id);
    } else {
      UpdatingAdds(d, c, id);
    }
  }

  lemma NewRecordIsSilent(d: Disk, c: Call, id: TaskId)
    requires WellFiled(d) && Enabled(d, c) && !DetachedIn(d, id)
    ensures DetachedIn(Step(d, c), id) ==> Step(d, c).files[id].history == []
  {
    if !(c.Register? && c.id == id) {
      NotYetDetached(d, c, id);
    }
  }

  /** Over every run the history of a detached task is the newest fifty of what the calls said of it. */
  lemma {:induction false} HistoryTellsTheRun(calls: seq<Call>, id: TaskId)
    requires After(calls).Some?
    ensures DetachedIn(After(calls).value, id) ==> After(calls).value.files[id].history == NewestFifty(Said(calls, id))
  {
    if calls != [] {
      var before, c := calls[..|calls| - 1], calls[|calls| - 1];
      var d := After(before).value;
      HistoryTellsTheRun(before, id);
      TasksOverRuns(before);
      if DetachedIn(d, id) {
        RecordTellsTheRun(before, id);
        StepAdds(d, c, id);
        if c.id == id && Added(d.files[id], c).Some? {
          PushKeepsFifty(Said(before, id), d.files[id].history, Added(d.files[id], c).value);
        } else {
          assert Said(before, id) + [] == Said(before, id);
        }
      } else {
        NewRecordIsSilent(d, c, id);
      }
    }
  }

  // ---- Progress ----

  /** The nearest hundredth, halves upwards. */
  predicate IsNearestHundredth(x: real, y: real) {
    (y * 100.0).Floor as real == y * 100.0 && y - 0.005 <= x < y + 0.005
  }

  lemma RoundsToNearest(x: real)
    ensures IsNearestHundredth(x, RoundHundredth(x))
  {
    var n := (x * 100.0 + 0.5).Floor;
    assert RoundHundredth(x) * 100.0 == n as real;
  }

  /** The percentage that a progress amounts to: its own, or else how much of the total is done. */
  function Amount(p: Progress): Option<real> {
    if p.percent.Some? then p.percent
    else if p.current.Some? && p.total.Some? && p.total.value > 0
    then Some(100.0 * p.current.value as real / p.total.value as real)
    else None
  }

  /** What is stored is the given progress with its amount as a percentage: the nearest hundredth between 0 and 100, at
      most half a hundredth further off when it was computed. */
  lemma NormalizedAmount(p: Progress)
    ensures var q := Normalized(p);
            && q == p.(percent := q.percent, kind := q.kind)
            && (q.kind == if Amount(p).Some? || (p.total.Some? && p.total.value > 0) then Determinate else p.kind)
            && (q.percent.Some? <==> Amount(p).Some?)
            && (p.percent.Some? ==> IsNearestHundredth(Max01(p.percent.value), q.percent.value))
            && (p.percent.None? && Amount(p).Some? && Amount(p).value <= 100.0 ==>
                  IsNearestHundredth(Amount(p).value, q.percent.value))
            && (p.percent.None? && Amount(p).Some? && Amount(p).value > 100.0 ==> q.percent == Some(100.0))
  {
    if p.percent.Some? {
      RoundsToNearest(Max01(p.percent.value));
      assert Clamp(p.percent.value) == Max01(p.percent.value);
    } else if Amount(p).Some? {
      ComputedIsRounded(p, Amount(p).value);
    }
  }

  function Max01(x: real): real {
    if x < 0.0 then 0.0 else if x <= 100.0 then x else 100.0
  }

  lemma ComputedIsRounded(p: Progress, amount: real)
    requires p.percent.None? && Amount(p) == Some(amount)
    ensures Normalized(p).percent.Some?
    ensures amount <= 100.0 ==> IsNearestHundredth(amount, Normalized(p).percent.value)
    ensures amount > 100.0 ==> Normalized(p).percent == Some(100.0)
  {
    var share := p.current.value as real / p.total.value as real;
    assert share >= 0.0 && share * 100.0 == amount;
    RoundsToNearest(amount);
    RoundedStays(amount);
    if amount > 100.0 {
      assert RoundHundredth(amount) >= 100.0;
    } else {
      assert Clamp(RoundHundredth(amount)) == RoundHundredth(amount);
    }
  }

  /** The two say the same but for the time. */
  predicate SaysTheSame(a: Progress, b: Progress) {
    && a.kind == b.kind && a.percent == b.percent && a.message == b.message && a.current == b.current
    && a.total == b.total && a.unit == b.unit && a.etaSeconds == b.etaSeconds && a.source == b.source
  }

  predicate HasMeasure(p: Progress) {
    p.percent.Some? || (p.total.Some? && p.total.value > 0)
  }

  /** A report on a task is stored and published exactly when it says something new and is not parsed output without a
      measure where one is known. Nothing else about the task changes but its history. */
  lemma ReportIsStoredIff(d: Disk, id: TaskId, progress: Progress, kind: EventKind, now: nat)
    requires id in d.files
    ensures var f, p := d.files[id], Normalized(progress);
            var v := Step(d, UpdateProgress(id, progress, kind, now));
            if f.progress.Some?
               && (SaysTheSame(f.progress.value, p)
                   || (HasMeasure(f.progress.value) && !HasMeasure(p) && p.source.ParsedOutput?))
            then v == d
            else
              && v.published == d.published + [TaskProgress(f.taskId, p)]
              && v.files == d.files[id := v.files[id]]
              && v.files[id] == f.(progress := Some(p), history := v.files[id].history)
              && v.files[id].history != []
              && v.files[id].history[|v.files[id].history| - 1]
                 == EventRecord(kind, now, p.message, Some(Running), None, Some(p))
  {
  }

  // ---- Numbers in messages ----

  function DigitValue(c: char): int {
    c as int - '0' as int
  }

  function Value(digits: string): int {
    if digits == [] then 0 else 10 * Value(digits[..|digits| - 1]) + DigitValue(digits[|digits| - 1])
  }

  function Parsed(s: string): int {
    if s != [] && s[0] == '-' then -Value(s[1..]) else Value(s)
  }

  lemma {:induction false} DigitsValue(n: nat)
    ensures Decimal(n) != [] && Value(Decimal(n)) == n && Decimal(n)[0] != '-'
    decreases n
  {
    if n >= 10 {
      DigitsValue(n / 10);
      var s := Decimal(n);
      assert s[..|s| - 1] == Decimal(n / 10);
    } else {
      assert Decimal(n)[..0] == [];
    }
  }

  /** The exit code in an error message reads back as the code. */
  lemma DecimalReadsBack(n: int)
    ensures Parsed(Decimal(n)) == n
  {
    if n < 0 {
      DigitsValue(-n);
      assert Decimal(n)[1..] == Decimal(-n);
    } else {
      DigitsValue(n);
    }
  }
}
