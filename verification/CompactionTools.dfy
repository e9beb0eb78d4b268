/** Tool results and their calls under compaction: when the messages sent hold a call for every result they hold. */
module CompactionTools {
  import opened Wrappers
  import opened Messages
  import opened CompactionCore
  import opened CompactionModel
  import opened CompactionRuns

  /** The messages hold a call for each of their tool results. */
  ghost predicate Closed(ms: seq<Message>) {
    Answers(ms) <= Uses(ms)
  }

  ghost predicate SendsClosed(w: World) {
    Closed(Active(w.m, w.t))
  }

  /** The count is within the transcript and cuts no result from its call. */
  ghost predicate KeptClosed(w: World) {
    w.m.compacted <= |w.t| && ClosedFrom(w.t, w.m.compacted)
  }

  // ---- Every operation, exactly ----

  /** What each operation needs, said of the state before it: an appended or inserted result answers a call that is
      still kept, a task is applied at a cut the cut-off rule would leave alone, and histories are closed where they are
      cut. */
  ghost predicate SafeFor(w: World, op: Op) {
    match op
    case Append(message) => AnswersKept(w, message)
    case AppendUnseen(message) => AnswersKept(w, message)
    case PollTask(_) => Applies(w, op) ==> SafeCount(w.t, w.m.compacted + w.m.pendingCutoff)
    case Restore(stored, history) => ClosedFrom(history, Min(stored.compactedCount, |history|))
    case Seed(history) => w.m.compacted <= |history| && ClosedFrom(history, w.m.compacted)
    case Reset(_, _) => ClosedFrom(w.t, 0)
    case Rewind(len) => RewindClosed(w, len)
    case Insert(after, message) => after < |w.t| ==> AnswersKept(w, NewlySent(w, after, message))
    case _ => true
  }

  /** What a rewind leaves reaches the count and holds the calls of its results. */
  ghost predicate RewindClosed(w: World, len: nat) {
    var left := Min(len, |w.t|);
    w.m.compacted <= left && ClosedFrom(w.t[..left], w.m.compacted)
  }

  ghost predicate AnswersKept(w: World, message: Message) {
    AnsweredIn(message.content) <= Uses(Active(w.m, w.t)) + UsedIn(message.content)
  }

  /** The cut-off rule returns the count itself. */
  ghost predicate SafeCount(t: seq<Message>, count: nat) {
    SafeCutoff(t, count) == count
  }

  lemma SafeCountIsClosed(t: seq<Message>, count: nat)
    requires count > 0
    ensures SafeCount(t, count) <==> count <= |t| && ClosedFrom(t, count)
  {
    SafeCutoffBounds(t, count);
  }

  lemma IdsOfOne(m: Message)
    ensures Uses([m]) == UsedIn(m.content) && Answers([m]) == AnsweredIn(m.content)
  {
    assert [m][1..] == [];
  }

  lemma AppendIff(w: World, message: Message)
    requires KeptClosed(w)
    ensures ClosedFrom(w.t + [message], w.m.compacted) <==> AnswersKept(w, message)
  {
    var kept := w.t[w.m.compacted..];
    assert (w.t + [message])[w.m.compacted..] == kept + [message];
    IdsConcat(kept, [message]);
    IdsOfOne(message);
  }

  lemma ClosedShifts(t: seq<Message>, base: nat, cut: nat)
    requires base <= |t| && cut <= |t| - base
    ensures ClosedFrom(t[base..], cut) <==> ClosedFrom(t, base + cut)
  {
    assert t[base..][cut..] == t[base + cut..];
  }

  lemma ClosedWithInserted(t: seq<Message>, c: nat, after: nat, message: Message, sent: Message)
    requires c <= |t| && after < |t| && ClosedFrom(t, c)
    requires sent == if c <= after + 1 then message else t[c - 1]
    ensures ClosedFrom(t[..after + 1] + [message] + t[after + 1..], c) <==>
              AnsweredIn(sent.content) <= Uses(t[c..]) + UsedIn(sent.content)
  {
    IdsOfOne(sent);
    if c <= after + 1 {
      InsertedBehind(t, after, message, c);
      IdsConcat(t[c..after + 1], t[after + 1..]);
      IdsConcat(t[c..after + 1], [message]);
      IdsConcat(t[c..after + 1] + [message], t[after + 1..]);
    } else {
      InsertedBelow(t, after, message, c);
      IdsConcat([sent], t[c..]);
    }
  }

  lemma InsertIff(w: World, after: nat, message: Message)
    requires KeptClosed(w) && after < |w.t|
    ensures KeptClosed(Step(w, Insert(after, message))) <==> AnswersKept(w, NewlySent(w, after, message))
  {
    ClosedWithInserted(w.t, w.m.compacted, after, message, NewlySent(w, after, message));
  }

  lemma HardKeepsClosed(w: World, notice: string)
    requires KeptClosed(w)
    ensures KeptClosed(HardStep(w, notice))
  {
    HardStepAdvances(w, notice);
    if HardRefusal(w.m, w.t).None? {
      HardCompactionKeepsRecent(w.m, w.t, notice);
      ClosedShifts(w.t, w.m.compacted, HardCut(Active(w.m, w.t), w.m.budget));
    }
  }

  lemma StartKeepsCount(w: World, sense: Sense)
    ensures var v := StartIfDue(w, sense);
            v.t == w.t && v.m.compacted == w.m.compacted && v.m.budget == w.m.budget
  {
    if WillStart(w.m, w.t, sense) {
      CutoffInRange(w.m, w.t, sense.relevance);
    }
  }

  lemma CountIff(w: World, v: World, count: nat)
    requires KeptClosed(w) && v.t == w.t && v.m.compacted == count >= w.m.compacted
    ensures KeptClosed(v) <==> SafeCount(w.t, count)
  {
    if count > 0 {
      SafeCountIsClosed(w.t, count);
    }
  }

  lemma ApplyIff(w: World, op: Op)
    requires KeptClosed(w) && op.PollTask?
    ensures KeptClosed(Step(w, op)) <==> SafeFor(w, op)
  {
    if Applies(w, op) {
      ApplyAddsCutoff(w, op.poll.text);
      CountIff(w, Step(w, op), w.m.compacted + w.m.pendingCutoff);
    }
  }

  /** One operation keeps the messages sent tool-closed exactly when it is safe in the state it meets. Background
      starts, manual starts and hard compactions always are. */
  lemma StepKeepsClosedIff(w: World, op: Op)
    requires KeptClosed(w)
    ensures KeptClosed(Step(w, op)) <==> SafeFor(w, op)
  {
    match op {
      case Append(message) => AppendIff(w, message);
      case AppendUnseen(message) => AppendIff(w, message);
      case Ensure(sense, notice) =>
        StartKeepsCount(w, sense);
        HardKeepsClosed(StartIfDue(w, sense), notice);
      case Hard(notice) => HardKeepsClosed(w, notice);
      case PollTask(_) => ApplyIff(w, op);
      case Insert(after, message) =>
        if after < |w.t| {
          InsertIff(w, after, message);
        }
      case _ =>
    }
  }

  /** A repair puts the result for a call behind it: with the call still sent, that is safe. */
  lemma RepairBehindCountIsSafe(w: World, call: nat, after: nat, result: Message)
    requires KeptClosed(w) && w.m.compacted <= call <= after < |w.t|
    requires AnsweredIn(result.content) <= UsedIn(w.t[call].content)
    ensures SafeFor(w, Insert(after, result))
  {
    assert w.t[w.m.compacted..] == w.t[w.m.compacted..call] + [w.t[call]] + w.t[call + 1..];
    IdsConcat(w.t[w.m.compacted..call], [w.t[call]]);
    IdsConcat(w.t[w.m.compacted..call] + [w.t[call]], w.t[call + 1..]);
    IdsOfOne(w.t[call]);
  }

  lemma PrefixKeepsOrder(t: seq<Message>, k: nat)
    requires k <= |t|
    ensures ResultsFollowCalls(t) ==> ResultsFollowCalls(t[..k])
    ensures CallIdsUnique(t) ==> CallIdsUnique(t[..k])
  {
    var p := t[..k];
    if ResultsFollowCalls(t) {
      forall j, id | 0 <= j < |p| && id in AnsweredIn(p[j].content)
        ensures exists i :: 0 <= i < j && id in UsedIn(p[i].content)
      {
        assert p[j] == t[j];
        var i :| 0 <= i < j && id in UsedIn(t[i].content);
        assert p[i] == t[i];
      }
    }
    if CallIdsUnique(t) {
      forall i, j, id | 0 <= i < |p| && 0 <= j < |p| && id in UsedIn(p[i].content) && id in UsedIn(p[j].content)
        ensures i == j
      {
        assert p[i] == t[i] && p[j] == t[j];
      }
    }
  }

  /** In a transcript whose results follow their calls, a rewind is safe exactly when it stays behind the count. */
  lemma RewindIsSafeIff(w: World, len: nat)
    requires KeptClosed(w) && ResultsFollowCalls(w.t) && CallIdsUnique(w.t)
    ensures SafeFor(w, Rewind(len)) <==> w.m.compacted <= len
  {
    var left := Min(len, |w.t|);
    if w.m.compacted <= left {
      ClosedSuffixIsOrdered(w.t, w.m.compacted);
      PrefixKeepsOrder(w.t, left);
      PrefixKeepsOrder(w.t[w.m.compacted..], left - w.m.compacted);
      assert w.t[w.m.compacted..][..left - w.m.compacted] == w.t[..left][w.m.compacted..];
      ClosedSuffixIsOrdered(w.t[..left], w.m.compacted);
    }
  }

  /** In histories whose results follow their calls, whatever their ids: loading one is safe exactly when the cut-off
      rule returns the count it is cut at, and a reset always is. */
  lemma LoadsAreSafeIff(w: World, stored: Stored, history: seq<Message>, mode: Mode, config: Config)
    requires ResultsFollowCalls(history)
    ensures SafeFor(w, Restore(stored, history)) <==> SafeCount(history, Min(stored.compactedCount, |history|))
    ensures SafeFor(w, Seed(history)) <==> SafeCount(history, w.m.compacted)
    ensures w.t == history ==> SafeFor(w, Reset(mode, config))
  {
    WholeIsClosed(history);
    var count := Min(stored.compactedCount, |history|);
    if count > 0 {
      SafeCountIsClosed(history, count);
    }
    if w.m.compacted > 0 {
      SafeCountIsClosed(history, w.m.compacted);
    }
  }

  lemma {:induction false} WholeIsClosed(t: seq<Message>)
    requires ResultsFollowCalls(t)
    ensures ClosedFrom(t, 0)
  {
    assert t[0..] == t;
    forall id | id in Answers(t) ensures id in Uses(t) {
      IdsWitness(t, id);
      var j :| 0 <= j < |t| && id in AnsweredIn(t[j].content);
    }
  }

  /** No orphan tool results, over every run: the messages sent are tool-closed throughout exactly when every operation
      is safe in the state it meets. */
  lemma {:induction false} NoOrphanResultsOverRuns(w: World, ops: seq<Op>)
    requires KeptClosed(w)
    ensures Always(w, ops, v => KeptClosed(v)) <==> Follows(w, ops, (v, op) => SafeFor(v, op))
    ensures Follows(w, ops, (v, op) => SafeFor(v, op)) ==> SendsClosed(Run(w, ops))
  {
    if ops != [] {
      var before := ops[..|ops| - 1];
      NoOrphanResultsOverRuns(w, before);
      if Always(w, before, v => KeptClosed(v)) {
        StepKeepsClosedIff(Run(w, before), ops[|ops| - 1]);
      }
    }
  }

  // ---- Applying a task, with or without a hard compaction since its start ----

  /** Whatever happened since the task started, applying it leaves no orphan exactly when the new count is a safe cut;
      a count past the end sends the whole transcript again, which must then be closed itself. */
  lemma ApplyLeavesNoOrphanIff(w: World, text: string)
    requires w.m.pending.Some? && w.m.pendingCutoff > 0
    ensures var count := w.m.compacted + w.m.pendingCutoff;
            SendsClosed(Step(w, PollTask(Finished(text)))) <==>
              if count <= |w.t| then SafeCount(w.t, count) else Closed(w.t)
  {
    ApplyAddsCutoff(w, text);
    SafeCountIsClosed(w.t, w.m.compacted + w.m.pendingCutoff);
  }

  lemma ActivePastEnd(v: World, later: seq<Message>)
    requires v.m.compacted > |v.t|
    ensures var a := Appended(v, later);
            Active(a.m, a.t) == if |v.t| + |later| < v.m.compacted then v.t + later else later[v.m.compacted - |v.t|..]
  {
    var all := v.t + later;
    assert later == [] ==> all == v.t;
    if |all| >= v.m.compacted {
      assert all[v.m.compacted..] == later[v.m.compacted - |v.t|..];
    }
  }

  /** A count past the end is not settled by the apply: once appended messages reach it, it cuts among them, wherever
      their calls are. */
  lemma OvershootCutsLaterMessages(w: World, text: string, later: seq<Message>)
    requires w.m.pending.Some? && w.m.compacted + w.m.pendingCutoff > |w.t|
    ensures var v := Run(Step(w, PollTask(Finished(text))), AppendOps(later));
            var below := w.m.compacted + w.m.pendingCutoff - |w.t|;
            Active(v.m, v.t) == if |later| < below then w.t + later else later[below..]
  {
    ApplyAddsCutoff(w, text);
    RunAppends(Step(w, PollTask(Finished(text))), later);
    ActivePastEnd(Step(w, PollTask(Finished(text))), later);
  }

  /** The pending cut is where the apply will cut, as long as no hard compaction moves the count. */
  ghost predicate PendingCutClosed(w: World) {
    w.m.pending.Some? ==>
      && w.taskBase + w.m.pendingCutoff <= |w.t|
      && w.m.pendingCutoff > 0
      && ClosedFrom(w.t, w.taskBase + w.m.pendingCutoff)
  }

  ghost predicate AnswersPastPending(w: World, message: Message) {
    TakenEnd(w) <= |w.t| && AnsweredIn(message.content) <= Uses(w.t[TakenEnd(w)..]) + UsedIn(message.content)
  }

  /** Appended and inserted results answer calls at or after any pending cut, loaded histories are closed where they are
      cut, and tasks are applied at the count they were started from. */
  ghost predicate WellFormedOp(w: World, op: Op) {
    && Undisturbed(w, op)
    && match op
       case Append(message) => AnswersPastPending(w, message)
       case AppendUnseen(message) => AnswersPastPending(w, message)
       case Insert(after, message) => after < |w.t| ==> AnswersPastPending(w, message)
       case Restore(stored, history) => ClosedFrom(history, Min(stored.compactedCount, |history|))
       case Seed(history) => ClosedFrom(history, 0)
       case Reset(_, _) => ClosedFrom(w.t, 0)
       case Rewind(len) =>
         && RewindClosed(w, len)
         && (w.m.pending.Some? && w.taskBase + w.m.pendingCutoff <= Min(len, |w.t|) ==>
               ClosedFrom(w.t[..Min(len, |w.t|)], w.taskBase + w.m.pendingCutoff))
       case _ => true
  }

  lemma UsesGrowBackwards(t: seq<Message>, j: nat, k: nat)
    requires j <= k <= |t|
    ensures Uses(t[k..]) <= Uses(t[j..])
  {
    assert t[j..] == t[j..k] + t[k..];
    IdsConcat(t[j..k], t[k..]);
  }

  lemma AppendKeepsClosed(t: seq<Message>, message: Message, cut: nat, kept: nat)
    requires cut <= kept <= |t| && ClosedFrom(t, cut)
    requires AnsweredIn(message.content) <= Uses(t[kept..]) + UsedIn(message.content)
    ensures ClosedFrom(t + [message], cut)
  {
    UsesGrowBackwards(t, cut, kept);
    assert (t + [message])[cut..] == t[cut..] + [message];
    IdsConcat(t[cut..], [message]);
    IdsOfOne(message);
  }

  /** In a well-formed run every operation is safe: an undisturbed apply cuts where the task was cut. */
  lemma WellFormedIsSafe(w: World, op: Op)
    requires KeptClosed(w) && PendingCutClosed(w) && WellFormedOp(w, op)
    ensures SafeFor(w, op)
  {
    match op {
      case Append(message) => UsesGrowBackwards(w.t, w.m.compacted, TakenEnd(w));
      case AppendUnseen(message) => UsesGrowBackwards(w.t, w.m.compacted, TakenEnd(w));
      case Insert(after, _) =>
        if after < |w.t| {
          UsesGrowBackwards(w.t, w.m.compacted, TakenEnd(w));
        }
      case PollTask(_) =>
        if Applies(w, op) {
          SafeCountIsClosed(w.t, w.m.compacted + w.m.pendingCutoff);
        }
      case _ =>
    }
  }

  lemma StartMoves(w: World, sense: Sense)
    requires WillStart(w.m, w.t, sense)
    ensures var v := StartIfDue(w, sense);
            && v.t == w.t && v.taskBase == w.m.compacted
            && v.m.pendingCutoff == BackgroundCutoff(w.m, w.t, sense.relevance) > 0
  {
    CutoffInRange(w.m, w.t, sense.relevance);
    var started := MaybeStart(w.m, w.t, sense);
    assert StartIfDue(w, sense) == WithTask(w, started);
  }

  lemma StartCutIsClosed(w: World, relevance: Relevance)
    requires w.m.compacted <= |w.t| && BackgroundCutoff(w.m, w.t, relevance) > 0
    ensures var cut := BackgroundCutoff(w.m, w.t, relevance);
            w.m.compacted + cut <= |w.t| && ClosedFrom(w.t, w.m.compacted + cut)
  {
    CutoffInRange(w.m, w.t, relevance);
    ClosedShifts(w.t, w.m.compacted, BackgroundCutoff(w.m, w.t, relevance));
  }

  lemma StartCutsClosed(w: World, sense: Sense)
    requires KeptClosed(w) && PendingCutClosed(w)
    ensures PendingCutClosed(StartIfDue(w, sense))
  {
    if WillStart(w.m, w.t, sense) {
      StartMoves(w, sense);
      StartCutIsClosed(w, sense.relevance);
    } else {
      assert StartIfDue(w, sense) == w;
    }
  }

  ghost function ManualCut(w: World): nat {
    SafeCutoff(Active(w.m, w.t), Monus(|Active(w.m, w.t)|, RECENT_TURNS_TO_KEEP))
  }

  lemma ManualMoves(w: World)
    requires ForceRefusal(w.m, w.t).None?
    ensures var v := Step(w, Manual);
            v.t == w.t && v.taskBase == w.m.compacted && v.m.pendingCutoff == ManualCut(w) > 0
  {
    ForceStarts(w.m, w.t);
    assert Step(w, Manual) == WithTask(w, Force(w.m, w.t));
  }

  lemma ManualCutIsClosed(w: World)
    requires w.m.compacted <= |w.t| && ManualCut(w) > 0
    ensures w.m.compacted + ManualCut(w) <= |w.t| && ClosedFrom(w.t, w.m.compacted + ManualCut(w))
  {
    SafeCutoffBounds(Active(w.m, w.t), Monus(|Active(w.m, w.t)|, RECENT_TURNS_TO_KEEP));
    ClosedShifts(w.t, w.m.compacted, ManualCut(w));
  }

  lemma CutIsClosed(w: World, v: World, cut: nat)
    requires v.t == w.t && v.taskBase == w.m.compacted && v.m.pendingCutoff == cut > 0
    requires w.m.compacted + cut <= |w.t| && ClosedFrom(w.t, w.m.compacted + cut)
    ensures PendingCutClosed(v)
  {
  }

  lemma RefusedManualDoesNothing(w: World)
    requires ForceRefusal(w.m, w.t).Some?
    ensures Step(w, Manual) == w
  {
  }

  lemma ManualCutsClosed(w: World)
    requires KeptClosed(w) && PendingCutClosed(w)
    ensures PendingCutClosed(Step(w, Manual))
  {
    if ForceRefusal(w.m, w.t).None? {
      ManualMoves(w);
      ManualCutIsClosed(w);
      CutIsClosed(w, Step(w, Manual), ManualCut(w));
    } else {
      RefusedManualDoesNothing(w);
    }
  }

  lemma AppendKeepsPendingCut(w: World, message: Message, op: Op)
    requires KeptClosed(w) && PendingCutClosed(w) && WellFormedOp(w, op)
    requires op == Append(message) || op == AppendUnseen(message)
    ensures PendingCutClosed(Step(w, op))
  {
    if w.m.pending.Some? {
      AppendKeepsClosed(w.t, message, w.taskBase + w.m.pendingCutoff, TakenEnd(w));
    }
  }

  lemma InsertKeepsClosed(t: seq<Message>, after: nat, message: Message, cut: nat, kept: nat)
    requires cut <= kept <= after + 1 <= |t| && ClosedFrom(t, cut)
    requires AnsweredIn(message.content) <= Uses(t[kept..]) + UsedIn(message.content)
    ensures cut <= |t| + 1 && ClosedFrom(t[..after + 1] + [message] + t[after + 1..], cut)
  {
    UsesGrowBackwards(t, cut, kept);
    InsertedBehind(t, after, message, cut);
    IdsOfOne(message);
    IdsConcat(t[cut..after + 1], t[after + 1..]);
    IdsConcat(t[cut..after + 1], [message]);
    IdsConcat(t[cut..after + 1] + [message], t[after + 1..]);
  }

  lemma InsertKeepsPendingCut(w: World, op: Op)
    requires PendingCutClosed(w) && WellFormedOp(w, op) && op.Insert? && op.after < |w.t|
    ensures PendingCutClosed(Step(w, op))
  {
    if w.m.pending.Some? {
      InsertKeepsClosed(w.t, op.after, op.message, w.taskBase + w.m.pendingCutoff, TakenEnd(w));
    }
  }

  lemma HardKeepsPendingCut(w: World, notice: string)
    requires PendingCutClosed(w)
    ensures PendingCutClosed(HardStep(w, notice))
  {
    HardStepAdvances(w, notice);
  }

  lemma OtherKeepsPendingCut(w: World, op: Op)
    requires PendingCutClosed(w) && WellFormedOp(w, op)
    requires !op.Append? && !op.AppendUnseen? && !op.Ensure? && !op.Manual? && !op.Hard? && !op.Insert?
    ensures PendingCutClosed(Step(w, op))
  {
    if op.PollTask? && Applies(w, op) {
      ApplyAddsCutoff(w, op.poll.text);
    }
  }

  lemma StepKeepsPendingCut(w: World, op: Op)
    requires KeptClosed(w) && PendingCutClosed(w) && WellFormedOp(w, op)
    ensures PendingCutClosed(Step(w, op))
  {
    match op {
      case Append(message) => AppendKeepsPendingCut(w, message, op);
      case AppendUnseen(message) => AppendKeepsPendingCut(w, message, op);
      case Ensure(sense, notice) =>
        StartCutsClosed(w, sense);
        HardKeepsPendingCut(StartIfDue(w, sense), notice);
      case Manual => ManualCutsClosed(w);
      case Hard(notice) => HardKeepsPendingCut(w, notice);
      case Insert(after, _) =>
        if after < |w.t| {
          InsertKeepsPendingCut(w, op);
        }
      case _ => OtherKeepsPendingCut(w, op);
    }
  }

  /** Over runs without a hard compaction between a task's start and its apply, it is enough that appended results
      answer calls at or after any pending cut. */
  lemma {:induction false} NoOrphanResultsUndisturbed(w: World, ops: seq<Op>)
    requires KeptClosed(w) && PendingCutClosed(w) && Follows(w, ops, (v, op) => WellFormedOp(v, op))
    ensures KeptClosed(Run(w, ops)) && PendingCutClosed(Run(w, ops)) && SendsClosed(Run(w, ops))
  {
    if ops != [] {
      var before := ops[..|ops| - 1];
      NoOrphanResultsUndisturbed(w, before);
      WellFormedIsSafe(Run(w, before), ops[|ops| - 1]);
      StepKeepsClosedIff(Run(w, before), ops[|ops| - 1]);
      StepKeepsPendingCut(Run(w, before), ops[|ops| - 1]);
    }
  }

  lemma InitialWorldIsClosed(mode: Mode, config: Config)
    ensures KeptClosed(InitialWorld(mode, config)) && PendingCutClosed(InitialWorld(mode, config))
  {
  }

  // ---- A run that sends an orphan ----

  const CALL := Message(Assistant, [ToolUse("t", "", "")])
  const RESULT := Message(User, [ToolResult("t", "", None)])

  /** Fifteen messages, a tool call at index 9 and its result at index 10. */
  function WithCall(): seq<Message> {
    seq(15, i => if i == 9 then CALL else if i == 10 then RESULT else PLAIN)
  }

  lemma WithCallIds(k: nat)
    requires k <= 15
    ensures Answers(WithCall()[k..]) == (if k <= 10 then {"t"} else {})
    ensures Uses(WithCall()[k..]) == (if k <= 9 then {"t"} else {})
    decreases 15 - k
  {
    if k < 15 {
      WithCallIds(k + 1);
      var rest := WithCall()[k..];
      assert rest[1..] == WithCall()[k + 1..];
    }
  }

  lemma WithCallSize(k: nat)
    requires k <= 15
    ensures TotalChars(WithCall()[k..]) == (if k <= 9 then 70 else if k == 10 then 20 else 0)
    decreases 15 - k
  {
    if k < 15 {
      WithCallSize(k + 1);
      var rest := WithCall()[k..];
      assert rest[1..] == WithCall()[k + 1..];
      assert MessageChars(CALL) == 50 && MessageChars(RESULT) == 20 && MessageChars(PLAIN) == 0;
    }
  }

  lemma WithCallCrowd(config: Config, sense: Sense, notice: string)
    ensures var hard := Step(CrowdedWorld(config, WithCall(), 1000), Ensure(sense, notice));
            && hard.m.pending.Some? && hard.m.pendingCutoff == 5 == hard.m.compacted && hard.t == WithCall()
            && hard.taskBase == 0
  {
    var t := WithCall();
    WithCallIds(5);
    WithCallSize(0);
    assert t[0..] == t;
    KeepTenFits(t);
    CrowdedEnsure(config, t, 1000, sense, notice);
  }

  lemma WithCallClosed()
    ensures ClosedFrom(WithCall(), 0) && ClosedFrom(WithCall(), 5) && !ClosedFrom(WithCall(), 10)
  {
    WithCallIds(0);
    WithCallIds(5);
    WithCallIds(10);
  }

  /** The task took five messages, a hard compaction the same five: the apply cuts between call and result. */
  lemma CutsCallFromResult(hard: World, text: string)
    requires hard.t == WithCall() && hard.taskBase == 0
    requires hard.m.pending.Some? && hard.m.pendingCutoff == 5 == hard.m.compacted
    ensures KeptClosed(hard) && PendingCutClosed(hard) && !SafeFor(hard, PollTask(Finished(text)))
    ensures var v := Step(hard, PollTask(Finished(text)));
            v.m.compacted == 10 && !SendsClosed(v)
  {
    WithCallClosed();
    SafeCountIsClosed(hard.t, 10);
    ApplyLeavesNoOrphanIff(hard, text);
    ApplyAddsCutoff(hard, text);
  }

  /** One call that starts a task and hard compacts, then the apply: every state before it is closed, results follow
      their calls throughout, and the result at index 10 is sent without the call at index 9. */
  lemma OneEnsureCallCanOrphanAResult(config: Config, sense: Sense, notice: string, text: string)
    ensures var w := Run(InitialWorld(Reactive, config), Setup(WithCall(), 1000, 960));
            var hard := Step(w, Ensure(sense, notice));
            var v := Step(hard, PollTask(Finished(text)));
            && w.t == WithCall() && ResultsFollowCalls(w.t) && CallIdsUnique(w.t)
            && KeptClosed(w) && KeptClosed(hard) && PendingCutClosed(hard)
            && !SafeFor(hard, PollTask(Finished(text)))
            && v.m.compacted == 10 && !SendsClosed(v)
  {
    CrowdedIsReachable(config, WithCall(), 1000);
    CallsInOrder();
    WithCallClosed();
    WithCallCrowd(config, sense, notice);
    CutsCallFromResult(Step(CrowdedWorld(config, WithCall(), 1000), Ensure(sense, notice)), text);
  }

  lemma CallsInOrder()
    ensures ResultsFollowCalls(WithCall()) && CallIdsUnique(WithCall())
  {
    var t := WithCall();
    assert UsedIn(PLAIN.content) == {} && UsedIn(RESULT.content) == {} && UsedIn(CALL.content) == {"t"};
    assert AnsweredIn(PLAIN.content) == {} && AnsweredIn(CALL.content) == {} && AnsweredIn(RESULT.content) == {"t"};
    assert "t" in UsedIn(t[9].content);
  }
}
