/** Calls on detached tasks that overlap: each reads a record, and later writes what it makes of that copy over whatever
    is there by then. */
module OverlappingTasks {
  import opened Wrappers
  import opened BackgroundTasks

  /** What a call does with its copy. A cancel settles it or, after the grace period, ends it as cancelled. */
  datatype Act =
    | Settle(probe: Probe)
    | Report(progress: Progress, kind: EventKind, now: nat)
    | Deliver(notify: bool, wake: bool, now: nat)
    | EndAsCancelled(now: nat)

  function Landed(d: Disk, copy: StatusFile, act: Act): Disk {
    match act
    case Settle(probe) => FinalizedFrom(d, copy, probe)
    case Report(progress, kind, now) => ProgressFrom(d, copy.taskId, copy, progress, kind, now)
    case Deliver(notify, wake, now) => DeliveryFrom(d, copy.taskId, copy, notify, wake, now)
    case EndAsCancelled(now) => CancelledFrom(d, copy, now)
  }

  /** A call that lands on what it has just read is the call as one step. */
  lemma LandingAtOnceIsAtomic(d: Disk, id: TaskId, act: Act)
    requires WellFiled(d) && id in d.files
    ensures match act
            case Settle(probe) => Landed(d, d.files[id], act) == Reconciled(d, id, probe)
            case Report(progress, kind, now) =>
              Landed(d, d.files[id], act) == ProgressUpdated(d, id, progress, kind, now)
            case Deliver(notify, wake, now) =>
              Landed(d, d.files[id], act) == DeliveryUpdated(d, id, notify, wake, now)
            case EndAsCancelled(now) =>
              forall probe :: Cancellable(d.files[id]) && !FoundOver(d.files[id], probe) ==>
                                Landed(d, d.files[id], act) == CancelledByUser(d, id, probe, now)
  {
  }

  // `copies` are what the calls under way have read.
  datatype State = State(d: Disk, copies: map<nat, StatusFile>)

  datatype Event = Create(call: Call) | Read(k: nat, id: TaskId) | Land(k: nat, act: Act)

  predicate CanHappen(s: State, e: Event) {
    match e
    case Create(call) => (call.Register? || call.InProcessWrite?) && Enabled(s.d, call)
    case Read(k, id) => k !in s.copies && id in s.d.files
    case Land(k, act) => k in s.copies && (act.EndAsCancelled? ==> Cancellable(s.copies[k]))
  }

  function Next(s: State, e: Event): State
    requires CanHappen(s, e)
  {
    match e
    case Create(call) => s.(d := Step(s.d, call))
    case Read(k, id) => s.(copies := s.copies[k := s.d.files[id]])
    case Land(k, act) => State(Landed(s.d, s.copies[k], act), s.copies - {k})
  }

  /** The state after a sequence of reads and landings in any interleaving; None if a step was not possible. */
  function Reached(events: seq<Event>): Option<State> {
    if events == [] then Some(State(Disk(map[], []), map[]))
    else
      var before, e := Reached(events[..|events| - 1]), events[|events| - 1];
      if before.Some? && CanHappen(before.value, e) then Some(Next(before.value, e)) else None
  }

  predicate Ended(d: Disk, id: TaskId) {
    DetachedIn(d, id) && !d.files[id].status.Running?
  }

  /** Whatever had ended keeps its ending, and no completion is published for it. */
  ghost predicate EndingsKept(d: Disk, d': Disk) {
    forall id :: Ended(d, id) ==>
                   && DetachedIn(d', id) && SameEnding(d.files[id], d'.files[id])
                   && Completions(d'.published, id) == Completions(d.published, id)
  }

  predicate WritesNothing(copy: StatusFile, act: Act) {
    match act
    case Settle(probe) => !FoundOver(copy, probe)
    case Report(progress, _, _) => Dropped(copy.progress, Normalized(progress))
    case _ => false
  }

  /** The landing cancels again, at the recorded time, what was already cancelled. */
  predicate CancelsAgain(f: StatusFile, act: Act) {
    act.EndAsCancelled? && CancelledFile(f) && f.completedAt == Some(act.now)
  }

  /** A landing on an ended task does no harm: the copy was read after the end, or nothing is written, or the same
      ending is written again. */
  predicate Harmless(s: State, e: Event) {
    e.Land? && e.k in s.copies && Ended(s.d, s.copies[e.k].taskId) ==>
      var copy := s.copies[e.k];
      !copy.status.Running? || WritesNothing(copy, e.act) || CancelsAgain(s.d.files[copy.taskId], e.act)
  }

  // ---- Copies and records belong together ----

  /** The times and error of a detached record fit its status. */
  predicate Shaped(f: StatusFile) {
    f.detached ==>
      && f.pid.Some?
      && (f.completedAt.Some? <==> !f.status.Running?)
      && (f.completedAt.Some? ==> f.duration == Elapsed(f.startedAt, f.completedAt.value))
      && (CancelledFile(f) ==> f.status.Failed? && f.exitCode == None)
  }

  /** Two records of one task: what registration fixed is the same. */
  predicate Akin(a: StatusFile, b: StatusFile) {
    && a.taskId == b.taskId && a.detached == b.detached
    && (a.detached ==> a.pid == b.pid && a.startedAt == b.startedAt)
  }

  predicate CopyFits(d: Disk, copy: StatusFile) {
    copy.taskId in d.files && Akin(copy, d.files[copy.taskId]) && Shaped(copy)
  }

  ghost predicate Fitting(s: State) {
    && WellFiled(s.d)
    && (forall id :: id in s.d.files ==> Shaped(s.d.files[id]))
    && (forall k :: k in s.copies ==> CopyFits(s.d, s.copies[k]))
  }

  /** The record a landing leaves. */
  function Written(copy: StatusFile, act: Act): StatusFile {
    match act
    case Settle(probe) => Finalized(copy, probe)
    case Report(progress, kind, now) =>
      var p := Normalized(progress);
      copy.(progress := Some(p),
            history := Pushed(copy.history, EventRecord(kind, now, p.message, Some(Running), None, Some(p))))
    case Deliver(notify, wake, now) => Redirected(copy, notify, wake, now)
    case EndAsCancelled(now) => Cancelled(copy, now)
  }

  lemma LandedWrites(d: Disk, copy: StatusFile, act: Act)
    ensures if WritesNothing(copy, act) then Landed(d, copy, act) == d
            else Landed(d, copy, act).files == d.files[copy.taskId := Written(copy, act)]
  {
  }

  /** A landing publishes a completion exactly when it settles something. */
  lemma LandedPublishes(d: Disk, copy: StatusFile, act: Act, id: TaskId)
    ensures Completions(Landed(d, copy, act).published, id) ==
            Completions(d.published, id) + (if act.Settle? && FoundOver(copy, act.probe) && id == copy.taskId
                                            then [Announcement(Finalized(copy, act.probe))] else [])
  {
    match act
    case Settle(probe) =>
      if FoundOver(copy, probe) {
        FinalizedCompletions(d, copy, probe, id);
      }
    case Report(progress, _, _) =>
      CompletionsSnoc(d.published, TaskProgress(copy.taskId, Normalized(progress)), id);
    case _ =>
  }

  lemma WrittenFits(copy: StatusFile, act: Act)
    requires Shaped(copy) && !WritesNothing(copy, act) && (act.EndAsCancelled? ==> Cancellable(copy))
    ensures Shaped(Written(copy, act)) && Akin(copy, Written(copy, act))
  {
    if act.Settle? {
      var exitCode := ExitOf(act.probe);
      if exitCode.Some? && exitCode != Some(0) {
        assert ("Command exited with code " + Decimal(exitCode.value))[1] == 'o';
        assert CANCELLED_BY_USER[1] == 'a';
      } else if exitCode.None? {
        assert |NO_EXIT_CODE| != |CANCELLED_BY_USER|;
      }
    }
  }

  lemma CreateFits(s: State, e: Event)
    requires Fitting(s) && CanHappen(s, e) && e.Create?
    ensures Fitting(Next(s, e))
  {
  }

  lemma LandFits(s: State, e: Event)
    requires Fitting(s) && CanHappen(s, e) && e.Land?
    ensures Fitting(Next(s, e))
  {
    var copy := s.copies[e.k];
    LandedWrites(s.d, copy, e.act);
    if !WritesNothing(copy, e.act) {
      WrittenFits(copy, e.act);
    }
  }

  lemma {:induction false} FittingOverRuns(events: seq<Event>)
    requires Reached(events).Some?
    ensures Fitting(Reached(events).value)
  {
    if events != [] {
      var before, e := events[..|events| - 1], events[|events| - 1];
      FittingOverRuns(before);
      match e
      case Create(_) => CreateFits(Reached(before).value, e);
      case Read(_, _) =>
      case Land(_, _) => LandFits(Reached(before).value, e);
    }
  }

  // ---- While endings are kept ----

  /** A copy read after the end tells the ending that is on record; one read before is consistent with no completion. */
  predicate CopyCurrent(d: Disk, copy: StatusFile) {
    copy.detached && copy.taskId in d.files ==>
      && |copy.history| <= MAX_EVENT_HISTORY
      && (copy.status.Running? ==> Consistent(copy, []))
      && (!copy.status.Running? ==> Ended(d, copy.taskId) && SameEnding(copy, d.files[copy.taskId]))
  }

  ghost predicate Current(s: State) {
    Inv(s.d) && forall k :: k in s.copies ==> CopyCurrent(s.d, s.copies[k])
  }

  lemma OnlyItsOwnTask(d: Disk, copy: StatusFile, act: Act, id: TaskId)
    requires id != copy.taskId
    ensures id in Landed(d, copy, act).files <==> id in d.files
    ensures id in d.files ==> Landed(d, copy, act).files[id] == d.files[id]
    ensures Completions(Landed(d, copy, act).published, id) == Completions(d.published, id)
  {
    LandedPublishes(d, copy, act, id);
    LandedWrites(d, copy, act);
    var files := Landed(d, copy, act).files;
    assert files == d.files || files == d.files[copy.taskId := Written(copy, act)];
  }

  /** The ending after a landing on an ended task, and its completions. */
  ghost predicate KeptAt(d: Disk, copy: StatusFile, act: Act)
    requires Ended(d, copy.taskId)
  {
    var d', id := Landed(d, copy, act), copy.taskId;
    DetachedIn(d', id) && SameEnding(d.files[id], d'.files[id])
    && Completions(d'.published, id) == Completions(d.published, id)
  }

  lemma KeptIff(d: Disk, copy: StatusFile, act: Act)
    requires Ended(d, copy.taskId) && CopyFits(d, copy) && CopyCurrent(d, copy) && Shaped(d.files[copy.taskId])
    requires act.EndAsCancelled? ==> Cancellable(copy)
    ensures KeptAt(d, copy, act) <==>
              !copy.status.Running? || WritesNothing(copy, act) || CancelsAgain(d.files[copy.taskId], act)
  {
    LandedWrites(d, copy, act);
    LandedPublishes(d, copy, act, copy.taskId);
  }

  /** One step keeps every ending exactly when it is harmless. */
  lemma StepKeepsEndingsIff(s: State, e: Event)
    requires Fitting(s) && Current(s) && CanHappen(s, e)
    ensures EndingsKept(s.d, Next(s, e).d) <==> Harmless(s, e)
  {
    if e.Land? {
      var copy := s.copies[e.k];
      forall id | id != copy.taskId && Ended(s.d, id)
        ensures DetachedIn(Next(s, e).d, id) && SameEnding(s.d.files[id], Next(s, e).d.files[id])
        ensures Completions(Next(s, e).d.published, id) == Completions(s.d.published, id)
      {
        OnlyItsOwnTask(s.d, copy, e.act, id);
      }
      if Ended(s.d, copy.taskId) {
        KeptIff(s.d, copy, e.act);
      }
    }
  }

  lemma WrittenIsConsistent(s: State, e: Event)
    requires Fitting(s) && Current(s) && CanHappen(s, e) && e.Land? && Harmless(s, e)
    requires !WritesNothing(s.copies[e.k], e.act) && DetachedIn(s.d, s.copies[e.k].taskId)
    ensures InvAt(Next(s, e).d, s.copies[e.k].taskId)
  {
    var copy := s.copies[e.k];
    LandedWrites(s.d, copy, e.act);
    LandedPublishes(s.d, copy, e.act, copy.taskId);
    assert InvAt(s.d, copy.taskId);
    if e.act.Settle? {
      FinalizedIsConsistent(copy, e.act.probe);
    }
  }

  lemma LandKeepsOwn(s: State, e: Event)
    requires Fitting(s) && Current(s) && CanHappen(s, e) && e.Land? && Harmless(s, e)
    ensures InvAt(Next(s, e).d, s.copies[e.k].taskId)
  {
    var copy := s.copies[e.k];
    if !WritesNothing(copy, e.act) && DetachedIn(s.d, copy.taskId) {
      WrittenIsConsistent(s, e);
    } else {
      LandedWrites(s.d, copy, e.act);
      LandedPublishes(s.d, copy, e.act, copy.taskId);
      assert InvAt(s.d, copy.taskId);
      if !WritesNothing(copy, e.act) {
        WrittenFits(copy, e.act);
      }
    }
  }

  lemma LandKeepsInv(s: State, e: Event)
    requires Fitting(s) && Current(s) && CanHappen(s, e) && e.Land? && Harmless(s, e)
    ensures Inv(Next(s, e).d)
  {
    LandFits(s, e);
    LandKeepsOwn(s, e);
    forall id ensures InvAt(Next(s, e).d, id) {
      assert InvAt(s.d, id);
      if id != s.copies[e.k].taskId {
        OnlyItsOwnTask(s.d, s.copies[e.k], e.act, id);
      }
    }
  }

  lemma LandKeepsCurrent(s: State, e: Event)
    requires Fitting(s) && Current(s) && CanHappen(s, e) && e.Land? && Harmless(s, e)
    ensures Current(Next(s, e))
  {
    LandKeepsInv(s, e);
    StepKeepsEndingsIff(s, e);
    var s' := Next(s, e);
    forall k | k in s'.copies ensures CopyCurrent(s'.d, s'.copies[k]) {
      assert CopyCurrent(s.d, s.copies[k]) && CopyFits(s.d, s.copies[k]);
    }
  }

  lemma ReadKeepsCurrent(s: State, e: Event)
    requires Current(s) && CanHappen(s, e) && e.Read?
    ensures Current(Next(s, e))
  {
    assert InvAt(s.d, e.id);
  }

  lemma CreateKeepsCurrent(s: State, e: Event)
    requires Fitting(s) && Current(s) && CanHappen(s, e) && e.Create?
    ensures Current(Next(s, e))
  {
    NewFileKeepsInv(s.d, e.call);
    var s' := Next(s, e);
    forall k | k in s'.copies ensures CopyCurrent(s'.d, s'.copies[k]) {
      assert CopyCurrent(s.d, s.copies[k]) && CopyFits(s.d, s.copies[k]);
    }
  }

  lemma StepKeepsCurrent(s: State, e: Event)
    requires Fitting(s) && Current(s) && CanHappen(s, e) && Harmless(s, e)
    ensures Current(Next(s, e))
  {
    match e
    case Create(_) => CreateKeepsCurrent(s, e);
    case Read(_, _) => ReadKeepsCurrent(s, e);
    case Land(_, _) => LandKeepsCurrent(s, e);
  }

  // ---- Every interleaving ----

  ghost predicate AlwaysKept(events: seq<Event>)
    requires Reached(events).Some?
  {
    events == []
    || (var before := events[..|events| - 1];
        AlwaysKept(before) && EndingsKept(Reached(before).value.d, Reached(events).value.d))
  }

  predicate AlwaysHarmless(events: seq<Event>)
    requires Reached(events).Some?
  {
    events == []
    || (var before := events[..|events| - 1];
        AlwaysHarmless(before) && Harmless(Reached(before).value, events[|events| - 1]))
  }

  lemma {:induction false} CurrentOverRuns(events: seq<Event>)
    requires Reached(events).Some? && AlwaysHarmless(events)
    ensures Current(Reached(events).value)
  {
    if events != [] {
      var before := events[..|events| - 1];
      CurrentOverRuns(before);
      FittingOverRuns(before);
      StepKeepsCurrent(Reached(before).value, events[|events| - 1]);
    }
  }

  /** Over every interleaving of reads and landings: no ending ever changes and no ended task is announced again exactly
      when every landing is harmless; and then every record and its completions are as if calls never overlapped. */
  lemma {:induction false} EndingsKeptIffHarmless(events: seq<Event>)
    requires Reached(events).Some?
    ensures AlwaysKept(events) <==> AlwaysHarmless(events)
    ensures AlwaysHarmless(events) ==>
              && Inv(Reached(events).value.d)
              && forall id :: |Completions(Reached(events).value.d.published, id)| <= 1
  {
    if events != [] {
      var before := events[..|events| - 1];
      EndingsKeptIffHarmless(before);
      if AlwaysHarmless(before) {
        CurrentOverRuns(before);
        FittingOverRuns(before);
        StepKeepsEndingsIff(Reached(before).value, events[|events| - 1]);
      }
    }
    if AlwaysHarmless(events) {
      CurrentOverRuns(events);
      forall id ensures |Completions(Reached(events).value.d.published, id)| <= 1 {
        assert InvAt(Reached(events).value.d, id);
      }
    }
  }

  /** How many landings of the run settled the task. */
  function Settlements(events: seq<Event>, id: TaskId): nat
    requires Reached(events).Some?
  {
    if events == [] then 0
    else
      var before, e := events[..|events| - 1], events[|events| - 1];
      var copies := Reached(before).value.copies;
      Settlements(before, id)
      + if e.Land? && e.act.Settle? && copies[e.k].taskId == id && FoundOver(copies[e.k], e.act.probe) then 1 else 0
  }

  /** In every interleaving, harmless or not, a task is announced once for each landing that settles it. */
  lemma {:induction false} OneCompletionPerSettlement(events: seq<Event>, id: TaskId)
    requires Reached(events).Some?
    ensures |Completions(Reached(events).value.d.published, id)| == Settlements(events, id)
  {
    if events != [] {
      var before, e := events[..|events| - 1], events[|events| - 1];
      OneCompletionPerSettlement(before, id);
      if e.Land? {
        LandedPublishes(Reached(before).value.d, Reached(before).value.copies[e.k], e.act, id);
      }
    }
  }

  // ---- Progress under overlap ----

  /** On a task with determinate progress, a landing keeps it so exactly when it writes nothing, reports a measure, or,
      reporting nothing, works on a copy that had it: a copy read earlier can lose the measure. */
  lemma MeasureKeptIff(d: Disk, copy: StatusFile, act: Act)
    requires KnowsMeasure(d, copy.taskId) && copy.detached
    ensures KnowsMeasure(Landed(d, copy, act), copy.taskId) <==>
              || WritesNothing(copy, act)
              || (if act.Report? then Measured(act.progress) else Determined(copy.progress))
  {
    LandedWrites(d, copy, act);
    if act.Report? {
      NormalizedFacts(act.progress);
    }
  }

  // ---- Runs from the empty disk ----

  const GONE := Probe(Some(0), false, None, 5)

  lemma Extends(events: seq<Event>, e: Event)
    requires Reached(events).Some? && CanHappen(Reached(events).value, e)
    ensures Reached(events + [e]) == Some(Next(Reached(events).value, e))
  {
    assert (events + [e])[..|events + [e]| - 1] == events;
  }

  /** One task is registered and two calls read it while it runs. */
  const TWO_READ: seq<Event> := [Create(REGISTER)] + [Read(1, T)] + [Read(2, T)]

  function Started(): StatusFile {
    StatusFile(T, "tool", None, "session", Running, None, None, Some(0), None, None, Some(1), true, true, false, None,
               [])
  }

  lemma TwoRead()
    ensures Reached(TWO_READ) == Some(State(Disk(map[T := Started()], []), map[1 := Started(), 2 := Started()]))
  {
    Extends([], Create(REGISTER));
    assert [] + [Create(REGISTER)] == [Create(REGISTER)];
    Extends([Create(REGISTER)], Read(1, T));
    Extends([Create(REGISTER)] + [Read(1, T)], Read(2, T));
    var s := Reached(TWO_READ).value;
    assert s.d.files == map[T := Started()] && s.copies == map[1 := Started(), 2 := Started()];
  }

  /** The second call settles the task: it is recorded and announced as completed. */
  const SETTLED: seq<Event> := TWO_READ + [Land(2, Settle(GONE))]

  lemma StartedSettles()
    ensures FoundOver(Started(), GONE) && Finalized(Started(), GONE).status.Completed?
  {
  }

  lemma SettledIs()
    ensures Reached(SETTLED) == Some(State(Disk(map[T := Finalized(Started(), GONE)],
                                                [Announcement(Finalized(Started(), GONE))]), map[1 := Started()]))
  {
    TwoRead();
    StartedSettles();
    Extends(TWO_READ, Land(2, Settle(GONE)));
    var s := Reached(SETTLED).value;
    assert s.copies == map[1 := Started()];
    assert s.d.files == map[T := Finalized(Started(), GONE)];
    assert s.d.published == [Announcement(Finalized(Started(), GONE))];
  }

  lemma SettledOnce()
    ensures Reached(SETTLED) == Some(State(Disk(map[T := Finalized(Started(), GONE)],
                                                [Announcement(Finalized(Started(), GONE))]), map[1 := Started()]))
    ensures Finalized(Started(), GONE).status.Completed?
    ensures |Completions(Reached(SETTLED).value.d.published, T)| == 1
  {
    SettledIs();
    StartedSettles();
    FinalizedCompletions(Disk(map[T := Started()], []), Started(), GONE, T);
    assert [] + [Announcement(Finalized(Started(), GONE))] == [Announcement(Finalized(Started(), GONE))];
  }

  /** The first call then lands its own settlement: a second completion. */
  lemma AnnouncedTwice()
    ensures var run := SETTLED + [Land(1, Settle(GONE))];
            && Reached(run).Some? && |Completions(Reached(run).value.d.published, T)| == 2
            && !AlwaysHarmless(run)
  {
    SettledOnce();
    var run := SETTLED + [Land(1, Settle(GONE))];
    Extends(SETTLED, Land(1, Settle(GONE)));
    FinalizedCompletions(Reached(SETTLED).value.d, Started(), GONE, T);
    assert run[..|run| - 1] == SETTLED;
  }

  /** Or it ends its grace period: the completed, announced task is recorded as cancelled. */
  lemma CompletedBecomesCancelled()
    ensures var run := SETTLED + [Land(1, EndAsCancelled(9))];
            && Reached(run).Some? && T in Reached(run).value.d.files
            && Reached(run).value.d.files[T].status.Failed? && CancelledFile(Reached(run).value.d.files[T])
            && |Completions(Reached(run).value.d.published, T)| == 1
            && !AlwaysHarmless(run)
  {
    SettledOnce();
    var run := SETTLED + [Land(1, EndAsCancelled(9))];
    Extends(SETTLED, Land(1, EndAsCancelled(9)));
    assert run[..|run| - 1] == SETTLED;
  }

  /** Or it lands new delivery flags or a progress report: the ended task is down as running again, and whoever looks at
      it next announces it a second time. */
  lemma EndedRunsAgain(act: Act)
    requires act.Deliver? || act.Report?
    ensures var back := SETTLED + [Land(1, act)];
            var again := back + [Read(3, T)] + [Land(3, Settle(GONE))];
            && Reached(back).Some? && T in Reached(back).value.d.files
            && Reached(back).value.d.files[T].status.Running?
            && Reached(again).Some? && |Completions(Reached(again).value.d.published, T)| == 2
            && !AlwaysHarmless(back)
  {
    SettledOnce();
    var back := SETTLED + [Land(1, act)];
    Extends(SETTLED, Land(1, act));
    assert back[..|back| - 1] == SETTLED;
    var d := Reached(SETTLED).value.d;
    LandedPublishes(d, Started(), act, T);
    LandedWrites(d, Started(), act);
    var copy := Reached(back).value.d.files[T];
    Extends(back, Read(3, T));
    Extends(back + [Read(3, T)], Land(3, Settle(GONE)));
    FinalizedCompletions(Reached(back).value.d, copy, GONE, T);
  }
}
