/** What the compaction manager guarantees over whole runs: coverage of the transcript, tool results
    kept with their calls, an exact character cache, single flight, and the cooldown. */
module CompactionRuns {
  import opened Wrappers
  import opened Messages
  import opened CompactionCore
  import opened CompactionModel

  // ---- The manager together with its caller's transcript ----

  // `covers` are the transcript indices that the active summary speaks for; `taskCovers` are those that the running
  // task's summary will speak for, judged by what the task was handed, and `taskBase` is the compacted count when it
  // started.
  datatype World = World(m: State, t: seq<Message>, covers: set<nat>, taskCovers: set<nat>, taskBase: nat)

  datatype Op =
    | Append(message: Message)
    | AppendUnseen(message: Message)
    | Observe(tokens: nat)
    | PushTokens(tokens: nat)
    | PushEmbedding
    | SetMode(mode: Mode)
    | SetBudget(budget: nat)
    | Ensure(sense: Sense, notice: string)
    | Manual
    | Hard(notice: string)
    | PollTask(poll: Poll)
    | Restore(stored: Stored, history: seq<Message>)
    | Seed(history: seq<Message>)
    | Reset(freshMode: Mode, config: Config)
    | Rewind(len: nat)
    | Insert(after: nat, message: Message)

  ghost function Between(lo: nat, hi: nat): (r: set<nat>)
    ensures forall i: nat :: i in r <==> lo <= i < hi
  {
    if hi <= lo then {} else Between(lo, hi - 1) + {hi - 1}
  }

  ghost function Below(n: nat): set<nat> {
    Between(0, n)
  }

  lemma BelowGrows(lo: nat, hi: nat)
    requires lo <= hi
    ensures Below(lo) + Between(lo, hi) == Below(hi)
  {
  }

  ghost function InitialWorld(mode: Mode, config: Config): World {
    World(Fresh(mode, config), [], {}, {}, 0)
  }

  /** Where the active messages begin. */
  function ActiveFrom(w: World): nat {
    if w.m.compacted <= |w.t| then w.m.compacted else 0
  }

  /** The places, counted from `from` on, at which the transcript has these messages. */
  ghost function PlacesOf(t: seq<Message>, from: nat, ms: seq<Message>): (r: set<nat>)
    ensures forall i: nat :: i in r <==> from <= i < from + |ms| && i < |t| && t[i] == ms[i - from]
  {
    set i: nat | from <= i < Min(from + |ms|, |t|) && t[i] == ms[i - from]
  }

  /** What a task's summary will speak for: the active messages it was handed, each at its place, and what the summary
      speaks for that it was handed. */
  ghost function Handed(w: World, task: Task): set<nat> {
    (if task.prior == w.m.summary then w.covers else {}) + PlacesOf(w.t, ActiveFrom(w), task.messages)
  }

  /** A background task starts in state `m`. */
  ghost function WithTask(w: World, m: State): World {
    w.(m := m, taskBase := w.m.compacted,
       taskCovers := if m.pending.Some? then Handed(w, m.pending.value) else {})
  }

  ghost function StartIfDue(w: World, sense: Sense): World {
    if WillStart(w.m, w.t, sense) then WithTask(w, MaybeStart(w.m, w.t, sense)) else w
  }

  /** The new summary begins with the text of the old one. */
  predicate Retells(before: Option<Summary>, after: Option<Summary>) {
    before.None? || (after.Some? && before.value.text <= after.value.text)
  }

  predicate EndsWith(summary: Option<Summary>, text: string) {
    summary.Some? && |text| <= |summary.value.text| && summary.value.text[|summary.value.text| - |text|..] == text
  }

  predicate Says(summary: Option<Summary>, text: string) {
    summary.Some? && summary.value.text == text
  }

  /** What the summary speaks for after a hard compaction: what it retells, and the dropped messages if it ends with the
      notice about them. */
  ghost function HardCovers(w: World, m: State, notice: string): set<nat> {
    (if Retells(w.m.summary, m.summary) then w.covers else {})
    + (if EndsWith(m.summary, notice) then Between(w.m.compacted, m.compacted) else {})
  }

  ghost function HardStep(w: World, notice: string): World {
    var m := HardCompact(w.m, w.t, notice);
    w.(m := m, covers := HardCovers(w, m, notice))
  }

  ghost predicate Applies(w: World, op: Op) {
    op.PollTask? && op.poll.Finished? && w.m.pending.Some?
  }

  /** The agent shortens the transcript and does not tell the manager. A summary speaks for what is left of its
      messages. */
  ghost function Rewound(w: World, len: nat): World
    requires len <= |w.t|
  {
    w.(t := w.t[..len], covers := w.covers * Below(len), taskCovers := w.taskCovers * Below(len))
  }

  /** Indices after a message was put in at place `at`. */
  ghost function Shifted(indices: set<nat>, at: nat): (r: set<nat>)
    ensures forall i: nat :: i in r <==> (i < at && i in indices) || (i > at && i - 1 in indices)
  {
    (set i | i in indices && i < at) + (set i | i in indices && i >= at :: i + 1)
  }

  /** A repair puts a message behind one that is there and does not tell the manager. A summary speaks for the messages
      it spoke for before, wherever they have moved to. */
  ghost function WithInserted(w: World, after: nat, message: Message): World
    requires after < |w.t|
  {
    w.(t := w.t[..after + 1] + [message] + w.t[after + 1..],
       covers := Shifted(w.covers, after + 1), taskCovers := Shifted(w.taskCovers, after + 1))
  }

  /** What the summary speaks for after polling: what the task was handed, once its own text is the summary. */
  ghost function PolledCovers(w: World, op: Op, m: State): set<nat> {
    if !Applies(w, op) then w.covers else if Says(m.summary, op.poll.text) then w.taskCovers else {}
  }

  ghost function RestoredCovers(m: State, stored: Stored, history: seq<Message>): set<nat> {
    if Says(m.summary, stored.summaryText) then Below(Min(stored.compactedCount, |history|)) else {}
  }

  ghost function Step(w: World, op: Op): World {
    match op
    case Append(message) => w.(m := Noted(w.m, message.content), t := w.t + [message])
    case AppendUnseen(message) => w.(m := NotedUnseen(w.m), t := w.t + [message])
    case Observe(tokens) => w.(m := w.m.(observed := Some(tokens)))
    case PushTokens(tokens) => w.(m := TokensPushed(w.m, tokens))
    case PushEmbedding => w.(m := EmbeddingPushed(w.m))
    case SetMode(mode) => w.(m := w.m.(mode := mode))
    case SetBudget(budget) => w.(m := w.m.(budget := budget))
    case Ensure(sense, notice) =>
      var started := StartIfDue(w, sense);
      if Critical(started.m, w.t) then HardStep(started, notice) else started
    case Manual =>
      if ForceRefusal(w.m, w.t).Some? then w else WithTask(w, Force(w.m, w.t))
    case Hard(notice) => HardStep(w, notice)
    case PollTask(poll) =>
      var m := CheckAndApply(w.m, w.t, poll);
      w.(m := m, covers := PolledCovers(w, op, m))
    case Restore(stored, history) =>
      var m := Restored(w.m, stored, history);
      w.(m := m, t := history, covers := RestoredCovers(m, stored, history))
    case Seed(history) => w.(m := Seeded(w.m, history), t := history)
    case Reset(mode, config) => w.(m := Fresh(mode, config), covers := {})
    case Rewind(len) => Rewound(w, Min(len, |w.t|))
    case Insert(after, message) => if after < |w.t| then WithInserted(w, after, message) else w
  }

  ghost function Run(w: World, ops: seq<Op>): World {
    if ops == [] then w else Step(Run(w, ops[..|ops| - 1]), ops[|ops| - 1])
  }

  /** Every operation of the run is allowed in the state it meets. */
  ghost predicate Follows(w: World, ops: seq<Op>, allowed: (World, Op) -> bool) {
    ops == [] || (Follows(w, ops[..|ops| - 1], allowed) && allowed(Run(w, ops[..|ops| - 1]), ops[|ops| - 1]))
  }

  /** The property holds at the start of the run and after each of its operations. */
  ghost predicate Always(w: World, ops: seq<Op>, holds: World -> bool) {
    holds(Run(w, ops)) && (ops == [] || Always(w, ops[..|ops| - 1], holds))
  }

  /** The manager's part of a step is exactly the operation proved of the class. */
  lemma EnsureStepIsEnsureFits(w: World, sense: Sense, notice: string)
    ensures Step(w, Ensure(sense, notice)).m == EnsureFits(w.m, w.t, sense, notice)
  {
  }

  // ---- Hard compaction's search ----

  ghost predicate InHalving(first: nat, keep: nat) {
    keep == first || (first > MIN_TURNS_TO_KEEP && InHalving(NextKeep(first), keep))
  }

  lemma {:induction false} HalvingDescends(first: nat, keep: nat)
    requires first >= MIN_TURNS_TO_KEEP && InHalving(first, keep)
    ensures MIN_TURNS_TO_KEEP <= keep <= first
  {
    if keep != first {
      HalvingDescends(NextKeep(first), keep);
    }
  }

  /** The search settles on the largest kept count of the halving sequence that fits, else on the minimum. */
  lemma {:induction false} ChosenKeepIsLargestFit(active: seq<Message>, budget: nat, first: nat)
    requires first >= MIN_TURNS_TO_KEEP
    ensures InHalving(first, ChosenKeep(active, budget, first))
    ensures forall k: nat :: InHalving(first, k) && KeepFits(active, budget, k) ==>
            k <= ChosenKeep(active, budget, first)
    ensures KeepFits(active, budget, ChosenKeep(active, budget, first))
            || ChosenKeep(active, budget, first) == MIN_TURNS_TO_KEEP
  {
    if KeepFits(active, budget, first) {
      forall k: nat | InHalving(first, k) ensures k <= first {
        HalvingDescends(first, k);
      }
    } else if first > MIN_TURNS_TO_KEEP {
      ChosenKeepIsLargestFit(active, budget, NextKeep(first));
    }
  }

  /** A hard compaction that goes through drops a safe prefix of the active messages and leaves at least two. A
      count past the end of the transcript is accepted as well: it is raised further, and the whole transcript stays
      active. */
  lemma HardCompactionKeepsRecent(s: State, t: seq<Message>, notice: string)
    requires HardRefusal(s, t).None?
    ensures var cut := HardCut(Active(s, t), s.budget);
            var v := HardCompact(s, t, notice);
            && 0 < cut <= |Active(s, t)| && ClosedFrom(Active(s, t), cut)
            && v.compacted == s.compacted + cut
            && v.activeChars == TotalChars(Active(s, t)[cut..])
            && |Active(v, t)| >= MIN_TURNS_TO_KEEP
            && Active(v, t) == if s.compacted <= |t| then Active(s, t)[cut..] else t
  {
    var active := Active(s, t);
    ChosenKeepIsLargestFit(active, s.budget, FirstKeep(active));
    HalvingDescends(FirstKeep(active), ChosenKeep(active, s.budget, FirstKeep(active)));
    SafeCutoffBounds(active, Monus(|active|, ChosenKeep(active, s.budget, FirstKeep(active))));
  }

  // ---- Coverage ----

  /** Every transcript index is either covered by the summary or among the messages sent. */
  ghost predicate Complete(w: World) {
    forall i: nat :: i < |w.t| ==> i in w.covers || w.m.compacted > |w.t| || w.m.compacted <= i
  }

  ghost predicate CoverageInv(w: World) {
    && w.m.compacted <= |w.t|
    && w.covers == Below(w.m.compacted)
    && (w.m.compacted > 0 ==> w.m.summary.Some?)
    && (w.m.pending.Some? ==>
          && w.taskBase <= w.m.compacted
          && 0 < w.m.pendingCutoff
          && w.taskBase + w.m.pendingCutoff <= |w.t|
          && w.taskCovers == Below(w.taskBase + w.m.pendingCutoff))
  }

  /** History is seeded into a manager with nothing compacted and nothing pending. */
  ghost predicate SeedsFresh(w: World, op: Op) {
    op.Seed? ==> w.m.compacted == 0 && w.m.pending.None?
  }

  /** Where the messages end that are compacted or handed to a pending task. */
  function TakenEnd(w: World): nat {
    if w.m.pending.Some? then Max(w.m.compacted, w.taskBase + w.m.pendingCutoff) else w.m.compacted
  }

  /** A rewind or an insertion leaves in place the compacted messages and those of a pending task. */
  ghost predicate EditsBehind(w: World, op: Op) {
    && (op.Rewind? ==> TakenEnd(w) <= op.len)
    && (op.Insert? && op.after < |w.t| ==> TakenEnd(w) <= op.after + 1)
  }

  /** A task is applied at the count it was started from. */
  ghost predicate Undisturbed(w: World, op: Op) {
    (Applies(w, op) ==> w.taskBase == w.m.compacted) && SeedsFresh(w, op) && EditsBehind(w, op)
  }

  lemma HandedIsCovered(w: World, m: State)
    requires CoverageInv(w) && HoldsFirst(w, m)
    ensures Handed(w, m.pending.value) == Below(w.m.compacted + m.pendingCutoff)
  {
    BelowGrows(w.m.compacted, w.m.compacted + m.pendingCutoff);
  }

  lemma StartedIsCovered(w: World, m: State)
    requires CoverageInv(w) && HoldsFirst(w, m) && m.compacted == w.m.compacted && m.summary == w.m.summary
    ensures CoverageInv(WithTask(w, m))
  {
    HandedIsCovered(w, m);
  }

  lemma StartKeepsSummary(s: State, t: seq<Message>, sense: Sense)
    ensures MaybeStart(s, t, sense).compacted == s.compacted && MaybeStart(s, t, sense).summary == s.summary
  {
    CutoffInRange(s, t, sense.relevance);
  }

  lemma StartKeepsCoverage(w: World, sense: Sense)
    requires CoverageInv(w)
    ensures CoverageInv(StartIfDue(w, sense))
    ensures StartIfDue(w, sense).t == w.t && StartIfDue(w, sense).m.compacted == w.m.compacted
  {
    if WillStart(w.m, w.t, sense) {
      StartHolds(w, sense);
      StartKeepsSummary(w.m, w.t, sense);
      StartedIsCovered(w, MaybeStart(w.m, w.t, sense));
    }
  }

  lemma ForceStarts(s: State, t: seq<Message>)
    requires ForceRefusal(s, t).None?
    ensures var forced, cut := Force(s, t), SafeCutoff(Active(s, t), Monus(|Active(s, t)|, RECENT_TURNS_TO_KEEP));
            && forced.compacted == s.compacted && forced.summary == s.summary
            && forced.pending.Some? && forced.pendingCutoff == cut && 0 < cut < |Active(s, t)|
  {
    SafeCutoffBounds(Active(s, t), Monus(|Active(s, t)|, RECENT_TURNS_TO_KEEP));
  }

  lemma ManualStartKeepsCoverage(w: World)
    requires CoverageInv(w) && ForceRefusal(w.m, w.t).None?
    ensures CoverageInv(WithTask(w, Force(w.m, w.t)))
  {
    ForceStarts(w.m, w.t);
    ForceHolds(w);
    StartedIsCovered(w, Force(w.m, w.t));
  }

  lemma EmergencyTextHoldsBoth(prior: Option<Summary>, summary: Option<Summary>, notice: string)
    requires summary.Some? && summary.value.text == EmergencyText(prior, notice)
    ensures Retells(prior, summary) && EndsWith(summary, notice)
  {
  }

  lemma HardSummary(s: State, t: seq<Message>, notice: string)
    requires HardRefusal(s, t).None?
    ensures HardCompact(s, t, notice).summary.Some?
    ensures HardCompact(s, t, notice).summary.value.text == EmergencyText(s.summary, notice)
  {
  }

  /** A hard compaction keeps the text of the earlier summary and ends with its notice, so it speaks for both. */
  lemma HardSpeaksForAll(w: World, notice: string)
    requires HardRefusal(w.m, w.t).None?
    ensures var m := HardCompact(w.m, w.t, notice);
            && m.summary.Some? && Retells(w.m.summary, m.summary) && EndsWith(m.summary, notice)
            && HardCovers(w, m, notice) == w.covers + Between(w.m.compacted, m.compacted)
  {
    HardSummary(w.m, w.t, notice);
    EmergencyTextHoldsBoth(w.m.summary, HardCompact(w.m, w.t, notice).summary, notice);
  }

  lemma CoveredUpTo(w: World, v: World)
    requires CoverageInv(w) && v.t == w.t && w.m.compacted <= v.m.compacted <= |w.t| && v.m.summary.Some?
    requires v.covers == w.covers + Between(w.m.compacted, v.m.compacted) && v.taskCovers == w.taskCovers
    requires v.taskBase == w.taskBase && v.m.pending == w.m.pending && v.m.pendingCutoff == w.m.pendingCutoff
    ensures CoverageInv(v)
  {
    BelowGrows(w.m.compacted, v.m.compacted);
  }

  lemma HardStepKeepsCoverage(w: World, notice: string)
    requires CoverageInv(w)
    ensures CoverageInv(HardStep(w, notice))
  {
    HardStepAdvances(w, notice);
    if HardRefusal(w.m, w.t).None? {
      HardCompactionKeepsRecent(w.m, w.t, notice);
      HardSpeaksForAll(w, notice);
      CoveredUpTo(w, HardStep(w, notice));
    }
  }

  lemma BelowBoth(n: nat, len: nat)
    ensures Below(n) * Below(len) == Below(Min(n, len))
  {
  }

  /** A rewind keeps coverage exactly when it stays behind the count and the messages of any pending task. */
  lemma RewindKeepsCoverageIff(w: World, op: Op)
    requires CoverageInv(w) && op.Rewind?
    ensures CoverageInv(Step(w, op)) <==> EditsBehind(w, op)
  {
    var len := Min(op.len, |w.t|);
    BelowBoth(w.m.compacted, len);
    BelowBoth(w.taskBase + w.m.pendingCutoff, len);
  }

  lemma BelowShifts(n: nat, at: nat)
    ensures Shifted(Below(n), at) == if n <= at then Below(n) else Below(n + 1) - {at}
  {
    var shifted := if n <= at then Below(n) else Below(n + 1) - {at};
    forall i: nat ensures i in Shifted(Below(n), at) <==> i in shifted {
      if i > at {
        var before: nat := i - 1;
        assert before in Below(n) <==> before < n;
      }
    }
  }

  /** An insertion keeps coverage exactly when it comes after the compacted messages and those of any pending task. */
  lemma InsertKeepsCoverageIff(w: World, op: Op)
    requires CoverageInv(w) && op.Insert?
    ensures CoverageInv(Step(w, op)) <==> EditsBehind(w, op)
  {
    if op.after < |w.t| {
      ShiftedCoverageIff(w, Step(w, op), op.after + 1);
    }
  }

  lemma ShiftedCoverageIff(w: World, v: World, at: nat)
    requires CoverageInv(w) && at <= |w.t| && v.m == w.m && |v.t| == |w.t| + 1 && v.taskBase == w.taskBase
    requires v.covers == Shifted(w.covers, at) && v.taskCovers == Shifted(w.taskCovers, at)
    ensures CoverageInv(v) <==> TakenEnd(w) <= at
  {
    BelowShifts(w.m.compacted, at);
    BelowShifts(w.taskBase + w.m.pendingCutoff, at);
    assert at !in v.covers && at !in v.taskCovers;
  }

  /** A message inserted among compacted ones is neither summarised nor sent, and the last of those is sent although the
      summary speaks for it. */
  lemma InsertLosesItself(w: World, after: nat, message: Message)
    requires CoverageInv(w) && after < |w.t|
    ensures var v := Step(w, Insert(after, message));
            && (Complete(v) <==> w.m.compacted <= after + 1)
            && (after + 1 < w.m.compacted ==>
                  && v.t[after + 1] == message && after + 1 !in v.covers && after + 1 < v.m.compacted
                  && v.t[w.m.compacted] == w.t[w.m.compacted - 1] && w.m.compacted in v.covers
                  && Active(v.m, v.t) == [w.t[w.m.compacted - 1]] + Active(w.m, w.t))
  {
    var v := Step(w, Insert(after, message));
    BelowShifts(w.m.compacted, after + 1);
    if after + 1 < w.m.compacted {
      assert after + 1 !in v.covers;
      InsertedBelow(w.t, after, message, w.m.compacted);
    }
  }

  /** The message that an insertion brings into the part that is sent: the new one, or the last compacted one where the
      new one goes in among those. */
  function NewlySent(w: World, after: nat, message: Message): Message {
    if after + 1 < w.m.compacted <= |w.t| then w.t[w.m.compacted - 1] else message
  }

  lemma InsertedBelow(t: seq<Message>, after: nat, message: Message, count: nat)
    requires after + 1 < count <= |t|
    ensures (t[..after + 1] + [message] + t[after + 1..])[count..] == [t[count - 1]] + t[count..]
  {
  }

  lemma InsertedBehind(t: seq<Message>, after: nat, message: Message, count: nat)
    requires count <= after + 1 <= |t|
    ensures (t[..after + 1] + [message] + t[after + 1..])[count..] == t[count..after + 1] + [message] + t[after + 1..]
    ensures t[count..] == t[count..after + 1] + t[after + 1..]
  {
  }

  lemma StepKeepsCoverage(w: World, op: Op)
    requires CoverageInv(w) && Undisturbed(w, op)
    ensures CoverageInv(Step(w, op))
  {
    match op {
      case Ensure(sense, notice) =>
        StartKeepsCoverage(w, sense);
        HardStepKeepsCoverage(StartIfDue(w, sense), notice);
      case Manual =>
        if ForceRefusal(w.m, w.t).None? {
          ManualStartKeepsCoverage(w);
        }
      case Hard(notice) => HardStepKeepsCoverage(w, notice);
      case Rewind(_) => RewindKeepsCoverageIff(w, op);
      case Insert(_, _) => InsertKeepsCoverageIff(w, op);
      case _ =>
    }
  }

  lemma ApplyAddsCutoff(w: World, text: string)
    requires w.m.pending.Some?
    ensures var v := Step(w, PollTask(Finished(text)));
            v.t == w.t && v.m.compacted == w.m.compacted + w.m.pendingCutoff && v.covers == w.taskCovers
  {
  }

  /** Applying a task keeps coverage, now and for what is appended later, exactly when no messages were compacted
      since it started. */
  lemma ApplyKeepsCoverageIff(w: World, text: string)
    requires CoverageInv(w) && w.m.pending.Some?
    ensures CoverageInv(Step(w, PollTask(Finished(text)))) <==> w.taskBase == w.m.compacted
  {
    var v := Step(w, PollTask(Finished(text)));
    ApplyAddsCutoff(w, text);
    if w.taskBase < w.m.compacted {
      assert w.taskBase + w.m.pendingCutoff in Below(v.m.compacted);
      assert w.taskBase + w.m.pendingCutoff !in v.covers;
    }
  }

  /** The messages lost by such an apply are those between the task's own cut and the count that is set. A count past
      the end hides the loss, because the whole transcript is sent again, until appended messages reach it. */
  lemma LossShowsWhenCountIsReached(w: World, text: string, later: seq<Message>)
    requires CoverageInv(w) && w.m.pending.Some?
    ensures var v := Run(Step(w, PollTask(Finished(text))), AppendOps(later));
            var count := w.m.compacted + w.m.pendingCutoff;
            && (Complete(v) <==> w.taskBase == w.m.compacted || |w.t| + |later| < count)
            && (count <= |v.t| ==>
                  forall i: nat :: i < |v.t| ==>
                    ((i !in v.covers && i < v.m.compacted) <==> w.taskBase + w.m.pendingCutoff <= i < count))
  {
    var applied := Step(w, PollTask(Finished(text)));
    ApplyAddsCutoff(w, text);
    RunAppends(applied, later);
    var v := Run(applied, AppendOps(later));
    if w.taskBase < w.m.compacted && v.m.compacted <= |v.t| {
      assert w.taskBase + w.m.pendingCutoff !in v.covers;
    }
  }

  // ---- The guard, read off the operations ----

  ghost predicate StartsByItself(w: World, op: Op) {
    op.Ensure? && WillStart(w.m, w.t, op.sense)
  }

  ghost predicate StartsByHand(w: World, op: Op) {
    op.Manual? && ForceRefusal(w.m, w.t).None?
  }

  ghost predicate Starts(w: World, op: Op) {
    StartsByItself(w, op) || StartsByHand(w, op)
  }

  /** The pending task holds the first active messages of `w`, as many as will be compacted, and the summary that was
      active there. */
  predicate HoldsFirst(w: World, m: State) {
    && m.pending.Some?
    && 0 < m.pendingCutoff <= |w.t| - ActiveFrom(w)
    && m.pending.value.messages == w.t[ActiveFrom(w)..ActiveFrom(w) + m.pendingCutoff]
    && m.pending.value.prior == w.m.summary
  }

  lemma FirstActive(w: World, cut: nat)
    requires cut <= |Active(w.m, w.t)|
    ensures ActiveFrom(w) + cut <= |w.t| && Active(w.m, w.t)[..cut] == w.t[ActiveFrom(w)..ActiveFrom(w) + cut]
  {
  }

  lemma StartHolds(w: World, sense: Sense)
    requires WillStart(w.m, w.t, sense)
    ensures HoldsFirst(w, StartIfDue(w, sense).m) && StartIfDue(w, sense).taskBase == w.m.compacted
  {
    CutoffInRange(w.m, w.t, sense.relevance);
    FirstActive(w, BackgroundCutoff(w.m, w.t, sense.relevance));
  }

  lemma ForceHolds(w: World)
    requires ForceRefusal(w.m, w.t).None?
    ensures HoldsFirst(w, Force(w.m, w.t))
  {
    SafeCutoffBounds(Active(w.m, w.t), Monus(|Active(w.m, w.t)|, RECENT_TURNS_TO_KEEP));
    FirstActive(w, SafeCutoff(Active(w.m, w.t), Monus(|Active(w.m, w.t)|, RECENT_TURNS_TO_KEEP)));
  }

  lemma SameTaskHolds(w: World, m: State, later: State)
    requires HoldsFirst(w, m) && later.pending == m.pending && later.pendingCutoff == m.pendingCutoff
    ensures HoldsFirst(w, later)
  {
  }

  lemma EnsureKeepsStart(w: World, op: Op)
    requires op.Ensure?
    ensures var started, v := StartIfDue(w, op.sense), Step(w, op);
            && v.m.pending == started.m.pending && v.m.pendingCutoff == started.m.pendingCutoff
            && v.taskBase == started.taskBase
  {
    HardStepAdvances(StartIfDue(w, op.sense), op.notice);
  }

  lemma EnsureStartHolds(w: World, op: Op)
    requires StartsByItself(w, op)
    ensures HoldsFirst(w, Step(w, op).m) && Step(w, op).taskBase == w.m.compacted
  {
    StartHolds(w, op.sense);
    EnsureKeepsStart(w, op);
    SameTaskHolds(w, StartIfDue(w, op.sense).m, Step(w, op).m);
  }

  /** From the count on, when that is within the transcript. */
  predicate HandedFromCount(w: World, m: State) {
    w.m.compacted <= |w.t| ==>
      && m.pending.Some? && w.m.compacted + m.pendingCutoff <= |w.t|
      && m.pending.value.messages == w.t[w.m.compacted..w.m.compacted + m.pendingCutoff]
      && m.pending.value.prior == w.m.summary
  }

  lemma FirstIsFromCount(w: World, m: State)
    requires HoldsFirst(w, m)
    ensures HandedFromCount(w, m)
  {
  }

  /** Whichever way a task starts, it is handed the messages from the count on, exactly those that its cut will compact,
      and the active summary. */
  lemma StartedTaskHoldsFirst(w: World, op: Op)
    requires Starts(w, op)
    ensures HoldsFirst(w, Step(w, op).m) && Step(w, op).taskBase == w.m.compacted
    ensures HandedFromCount(w, Step(w, op).m)
  {
    if op.Ensure? {
      EnsureStartHolds(w, op);
    } else {
      ForceHolds(w);
    }
    FirstIsFromCount(w, Step(w, op).m);
  }

  /** Some operation of the run started the task that is pending, and it still holds what it was handed then. */
  ghost predicate WasHanded(w: World, ops: seq<Op>, m: State) {
    exists k :: 0 <= k < |ops| && Starts(Run(w, ops[..k]), ops[k]) && HoldsFirst(Run(w, ops[..k]), m)
  }

  lemma StepKeepsTask(w: World, op: Op)
    requires !Starts(w, op) && Step(w, op).m.pending.Some?
    ensures Step(w, op).m.pending == w.m.pending && Step(w, op).m.pendingCutoff == w.m.pendingCutoff
  {
    if op.Ensure? {
      EnsureKeepsStart(w, op);
    }
  }

  lemma StaysHanded(w: World, before: seq<Op>, ops: seq<Op>, m: State, later: State)
    requires WasHanded(w, before, m) && before <= ops
    requires later.pending == m.pending && later.pendingCutoff == m.pendingCutoff
    ensures WasHanded(w, ops, later)
  {
    var k :| 0 <= k < |before| && Starts(Run(w, before[..k]), before[k]) && HoldsFirst(Run(w, before[..k]), m);
    assert before[..k] == ops[..k] && before[k] == ops[k];
    SameTaskHolds(Run(w, ops[..k]), m, later);
  }

  /** Over every run, a pending task holds the first active messages and the summary of the moment it was started. */
  lemma {:induction false} TaskHoldsWhatItWasHanded(w: World, ops: seq<Op>)
    requires w.m.pending.None? && Run(w, ops).m.pending.Some?
    ensures WasHanded(w, ops, Run(w, ops).m)
  {
    var before, op := ops[..|ops| - 1], ops[|ops| - 1];
    var v := Run(w, before);
    if Starts(v, op) {
      StartedTaskHoldsFirst(v, op);
    } else {
      StepKeepsTask(v, op);
      TaskHoldsWhatItWasHanded(w, before);
      StaysHanded(w, before, ops, v.m, Step(v, op).m);
    }
  }

  /** The operation drops messages by a hard compaction. */
  ghost predicate GoesThrough(w: World, op: Op) {
    match op
    case Hard(_) => HardRefusal(w.m, w.t).None?
    case Ensure(sense, _) =>
      var started := StartIfDue(w, sense);
      Critical(started.m, w.t) && HardRefusal(started.m, w.t).None?
    case _ => false
  }

  /** A hard compaction went through in or after the operation that started the last task. */
  ghost predicate HardSinceStart(w: World, ops: seq<Op>) {
    ops != []
    && (var before, op := ops[..|ops| - 1], ops[|ops| - 1];
        GoesThrough(Run(w, before), op)
        || (HardSinceStart(w, before) && !StartsByItself(Run(w, before), op) && !StartsByHand(Run(w, before), op)))
  }

  /** No task of the run is applied after a hard compaction that came since its start. */
  ghost predicate NoHardBetween(w: World, ops: seq<Op>) {
    ops == []
    || (var before, op := ops[..|ops| - 1], ops[|ops| - 1];
        NoHardBetween(w, before) && (Applies(Run(w, before), op) ==> !HardSinceStart(w, before)))
  }

  lemma HardStepAdvances(w: World, notice: string)
    ensures var v := HardStep(w, notice);
            && v.t == w.t && v.taskBase == w.taskBase
            && v.m.pending == w.m.pending && v.m.pendingCutoff == w.m.pendingCutoff
            && (HardRefusal(w.m, w.t).Some? ==> v == w)
            && (HardRefusal(w.m, w.t).None? ==> v.m.compacted > w.m.compacted)
  {
    var m := HardCompact(w.m, w.t, notice);
    if HardRefusal(w.m, w.t).Some? {
      assert m == w.m && Between(w.m.compacted, m.compacted) == {};
    }
  }

  /** The count has moved away from where the pending task started, or is still there. */
  ghost predicate DriftIs(w: World, drifted: bool) {
    w.m.pending.Some? ==> w.taskBase <= w.m.compacted && (w.taskBase < w.m.compacted <==> drifted)
  }

  lemma EnsureMovesDrift(w: World, op: Op, drifted: bool)
    requires DriftIs(w, drifted) && op.Ensure?
    ensures DriftIs(Step(w, op), GoesThrough(w, op) || (drifted && !StartsByItself(w, op)))
  {
    var started := StartIfDue(w, op.sense);
    assert DriftIs(started, drifted && !StartsByItself(w, op));
    HardStepAdvances(started, op.notice);
  }

  lemma ManualMovesDrift(w: World, drifted: bool)
    requires DriftIs(w, drifted)
    ensures DriftIs(Step(w, Manual), drifted && !StartsByHand(w, Manual))
  {
    if ForceRefusal(w.m, w.t).None? {
      ForceStarts(w.m, w.t);
    }
  }

  lemma OtherKeepsDrift(w: World, op: Op, drifted: bool)
    requires DriftIs(w, drifted) && !op.Ensure? && !op.Hard? && !op.Manual?
    ensures DriftIs(Step(w, op), drifted)
  {
  }

  lemma StepMovesDrift(w: World, op: Op, drifted: bool)
    requires DriftIs(w, drifted)
    ensures DriftIs(Step(w, op),
                    GoesThrough(w, op) || (drifted && !StartsByItself(w, op) && !StartsByHand(w, op)))
  {
    match op {
      case Ensure(_, _) => EnsureMovesDrift(w, op, drifted);
      case Hard(notice) => HardStepAdvances(w, notice);
      case Manual => ManualMovesDrift(w, drifted);
      case _ => OtherKeepsDrift(w, op, drifted);
    }
  }

  /** While a task is pending, the count is where the task started exactly when no hard compaction went through
      since. */
  lemma {:induction false} DriftIsHardCompaction(w: World, ops: seq<Op>)
    requires w.m.pending.None?
    ensures DriftIs(Run(w, ops), HardSinceStart(w, ops))
  {
    if ops != [] {
      var before := ops[..|ops| - 1];
      DriftIsHardCompaction(w, before);
      StepMovesDrift(Run(w, before), ops[|ops| - 1], HardSinceStart(w, before));
    }
  }

  /** Over every run: the coverage invariant, of what is compacted and of what a pending task will compact, is never
      broken exactly when no hard compaction goes through between a task's start and its application, and no rewind or
      insertion reaches into compacted messages or those of a pending task. */
  lemma {:induction false} CoveredIffNoHardBetween(w: World, ops: seq<Op>)
    requires CoverageInv(w) && w.m.pending.None? && Follows(w, ops, (v, op) => SeedsFresh(v, op))
    ensures Always(w, ops, v => CoverageInv(v)) <==>
            NoHardBetween(w, ops) && Follows(w, ops, (v, op) => EditsBehind(v, op))
  {
    if ops != [] {
      var before, op := ops[..|ops| - 1], ops[|ops| - 1];
      CoveredIffNoHardBetween(w, before);
      if Always(w, before, v => CoverageInv(v)) {
        DriftIsHardCompaction(w, before);
        if Applies(Run(w, before), op) {
          ApplyKeepsCoverageIff(Run(w, before), op.poll.text);
        } else if op.Rewind? {
          RewindKeepsCoverageIff(Run(w, before), op);
        } else if op.Insert? {
          InsertKeepsCoverageIff(Run(w, before), op);
        } else {
          StepKeepsCoverage(Run(w, before), op);
        }
      }
    }
  }

  /** Coverage over whole runs: what was compacted is summarised, everything else is sent as it is, in order. */
  lemma CoverageOverRuns(w: World, ops: seq<Op>)
    requires CoverageInv(w) && w.m.pending.None? && Follows(w, ops, (v, op) => SeedsFresh(v, op))
    requires NoHardBetween(w, ops) && Follows(w, ops, (v, op) => EditsBehind(v, op))
    ensures CoverageInv(Run(w, ops)) && Complete(Run(w, ops))
    ensures var v := Run(w, ops);
            if v.m.summary.Some? then Payload(v.m, v.t) == [SummaryMessage(v.m.summary.value)] + v.t[v.m.compacted..]
            else Payload(v.m, v.t) == v.t
  {
    CoveredIffNoHardBetween(w, ops);
    assert Always(w, ops, v => CoverageInv(v));
  }

  // ---- Runs of appended messages ----

  function AppendOps(ms: seq<Message>): seq<Op> {
    seq(|ms|, i requires 0 <= i < |ms| => Append(ms[i]))
  }

  /** The world after messages were appended and counted. */
  function Appended(w: World, ms: seq<Message>): World {
    if ms == [] then w
    else w.(t := w.t + ms,
            m := w.m.(totalTurns := w.m.totalTurns + |ms|, suppressed := false, dirty := false,
                      activeChars := w.m.activeChars + TotalChars(ms)))
  }

  lemma {:induction false} RunAppends(w: World, ms: seq<Message>)
    ensures Run(w, AppendOps(ms)) == Appended(w, ms)
  {
    if ms != [] {
      var init, last := ms[..|ms| - 1], ms[|ms| - 1];
      RunAppends(w, init);
      assert AppendOps(ms)[..|ms| - 1] == AppendOps(init);
      assert ms == init + [last];
      TotalCharsConcat(init, [last]);
      assert TotalChars([last]) == MessageChars(last);
      assert w.t + init + [last] == w.t + ms;
    }
  }

  lemma RunSnoc(w: World, ops: seq<Op>, op: Op)
    ensures Run(w, ops + [op]) == Step(Run(w, ops), op)
  {
    assert (ops + [op])[..|ops + [op]| - 1] == ops;
  }

  // ---- A run that loses messages ----

  const PLAIN := Message(User, [Text("")])

  /** Copies of one message that carries no tool result. */
  ghost predicate Uniform(ms: seq<Message>, m: Message) {
    AnsweredIn(m.content) == {} && forall i :: 0 <= i < |ms| ==> ms[i] == m
  }

  lemma {:induction false} UniformFacts(ms: seq<Message>, m: Message)
    requires Uniform(ms, m)
    ensures TotalChars(ms) == |ms| * MessageChars(m) && Answers(ms) == {}
  {
    if ms != [] {
      UniformFacts(ms[1..], m);
    }
  }

  lemma UniformCuts(ms: seq<Message>, m: Message, k: nat)
    requires Uniform(ms, m) && k <= |ms|
    ensures SafeCutoff(ms, k) == k && TotalChars(ms[k..]) == (|ms| - k) * MessageChars(m)
  {
    UniformFacts(ms[k..], m);
    assert ClosedFrom(ms, k);
  }

  /** The setup of the counterexamples: messages appended to a new manager, a budget and an observed usage. */
  function Setup(ms: seq<Message>, budget: nat, tokens: nat): seq<Op> {
    AppendOps(ms) + [SetBudget(budget)] + [Observe(tokens)]
  }

  function CrowdedWorld(config: Config, t: seq<Message>, budget: nat): World {
    World(Fresh(Reactive, config).(budget := budget, observed := Some(960), totalTurns := |t|,
                                   activeChars := TotalChars(t)),
          t, {}, {}, 0)
  }

  lemma CrowdedIsReachable(config: Config, t: seq<Message>, budget: nat)
    requires t != []
    ensures Run(InitialWorld(Reactive, config), Setup(t, budget, 960)) == CrowdedWorld(config, t, budget)
    ensures CoverageInv(CrowdedWorld(config, t, budget))
  {
    var w := InitialWorld(Reactive, config);
    RunAppends(w, t);
    RunSnoc(w, AppendOps(t), SetBudget(budget));
    RunSnoc(w, AppendOps(t) + [SetBudget(budget)], Observe(960));
    assert [] + t == t;
  }

  lemma CrowdedStart(config: Config, t: seq<Message>, budget: nat, sense: Sense)
    requires |t| == 15 && 0 < budget <= 1000 && ClosedFrom(t, 5)
    ensures var started := StartIfDue(CrowdedWorld(config, t, budget), sense);
            && started.m == MaybeStart(CrowdedWorld(config, t, budget).m, t, sense)
            && started.m.pending.Some? && started.m.pendingCutoff == 5 && started.m.compacted == 0
            && started.taskBase == 0
            && started.t == t && started.taskCovers == Below(5)
            && Critical(started.m, t)
            && Active(started.m, t) == t && started.m.budget == budget
  {
    var w := CrowdedWorld(config, t, budget);
    assert Active(w.m, w.t) == t;
    assert EffectiveTokens(w.m, w.t) >= 960;
    assert SafeCutoff(t, 5) == 5;
    assert WillStart(w.m, w.t, sense);
    assert EffectiveTokens(StartIfDue(w, sense).m, t) >= 960;
    BelowGrows(0, 5);
  }

  /** One call on a crowded transcript starts a task over the first five messages and hard compacts as well. */
  lemma CrowdedEnsure(config: Config, t: seq<Message>, budget: nat, sense: Sense, notice: string)
    requires |t| == 15 && 0 < budget <= 1000 && ClosedFrom(t, 5) && HardCut(t, budget) > 0
    ensures var hard := Step(CrowdedWorld(config, t, budget), Ensure(sense, notice));
            && hard.m.pending.Some? && hard.m.pendingCutoff == 5 && hard.taskBase == 0 && hard.t == t
            && hard.m.compacted == HardCut(t, budget) && !hard.m.dirty && hard.m.totalTurns == 15
            && hard.taskCovers == Below(5)
            && CoverageInv(hard)
  {
    var w := CrowdedWorld(config, t, budget);
    CrowdedStart(config, t, budget, sense);
    CrowdedIsReachable(config, t, budget);
    StepKeepsCoverage(w, Ensure(sense, notice));
    var started := StartIfDue(w, sense);
    HardCompactionKeepsRecent(started.m, t, notice);
  }

  lemma KeepTenFits(t: seq<Message>)
    requires |t| == 15 && ClosedFrom(t, 5) && TotalChars(t) <= 4000
    ensures HardCut(t, 1000) == 5
  {
    assert t == t[..5] + t[5..];
    TotalCharsConcat(t[..5], t[5..]);
    assert SafeCutoff(t, 5) == 5;
    assert KeepFits(t, 1000, 10);
  }

  /** The task took five messages, a hard compaction the same five: the next five are lost at the apply. */
  lemma LosesFive(hard: World, text: string)
    requires CoverageInv(hard) && hard.m.pending.Some? && |hard.t| == 15
    requires hard.m.pendingCutoff == 5 == hard.m.compacted && hard.taskBase == 0
    ensures var v := Step(hard, PollTask(Finished(text)));
            !Complete(v) && v.m.compacted == 10 && v.covers == Below(5)
  {
    LossShowsWhenCountIsReached(hard, text, []);
    assert AppendOps([]) == [];
  }

  lemma PlainCrowd(config: Config, sense: Sense, notice: string)
    ensures var t := seq(15, _ => PLAIN);
            var hard := Step(CrowdedWorld(config, t, 1000), Ensure(sense, notice));
            && CoverageInv(hard) && hard.m.pending.Some? && |hard.t| == 15
            && hard.m.pendingCutoff == 5 == hard.m.compacted && hard.taskBase == 0
  {
    var t := seq(15, _ => PLAIN);
    UniformCuts(t, PLAIN, 0);
    UniformCuts(t, PLAIN, 5);
    UniformFacts(t[5..], PLAIN);
    assert MessageChars(PLAIN) == 0;
    KeepTenFits(t);
    CrowdedEnsure(config, t, 1000, sense, notice);
  }

  /** Fifteen plain messages with usage at 96% of the budget: one call starts a task over the first five and
      hard compacts those same five; applying that task then leaves messages 5 to 9 neither summarised nor sent. */
  lemma OneEnsureCallCanLoseMessages(config: Config, sense: Sense, notice: string, text: string)
    ensures var w := Run(InitialWorld(Reactive, config), Setup(seq(15, _ => PLAIN), 1000, 960));
            var hard := Step(w, Ensure(sense, notice));
            var v := Step(hard, PollTask(Finished(text)));
            && CoverageInv(w) && CoverageInv(hard)
            && !Complete(v) && v.m.compacted == 10 && v.covers == Below(5)
  {
    var t := seq(15, _ => PLAIN);
    CrowdedIsReachable(config, t, 1000);
    PlainCrowd(config, sense, notice);
    LosesFive(Step(CrowdedWorld(config, t, 1000), Ensure(sense, notice)), text);
  }

  /** Messages appended after a rewind below the count are lost as soon as they reach it: those at the length rewound to
      and after, up to the count, are neither summarised nor sent. No hard compaction is needed for that. */
  lemma RewindLosesLaterMessages(w: World, len: nat, later: seq<Message>)
    requires CoverageInv(w) && len < w.m.compacted
    ensures var v := Run(Step(w, Rewind(len)), AppendOps(later));
            && |v.t| == len + |later| && v.m.compacted == w.m.compacted
            && (Complete(v) <==> len + |later| < w.m.compacted)
            && (w.m.compacted <= |v.t| ==>
                  forall i: nat :: i < |v.t| ==> ((i !in v.covers && i < v.m.compacted) <==> len <= i < v.m.compacted))
  {
    var rewound := Step(w, Rewind(len));
    BelowBoth(w.m.compacted, len);
    RunAppends(rewound, later);
    var v := Run(rewound, AppendOps(later));
    if w.m.compacted <= |v.t| {
      assert len !in v.covers;
    }
  }

  /** The rewind reaches into a pending task's messages and leaves the compacted ones alone. */
  ghost predicate IntoTask(w: World, len: nat) {
    && CoverageInv(w) && w.m.pending.Some? && w.taskBase == w.m.compacted
    && w.m.compacted <= len < w.m.compacted + w.m.pendingCutoff
  }

  lemma RewoundIntoTask(w: World, len: nat)
    requires IntoTask(w, len)
    ensures var v := Step(w, Rewind(len));
            v.m == w.m && v.t == w.t[..len] && v.covers == Below(w.m.compacted) && v.taskCovers == Below(len)
  {
    BelowBoth(w.m.compacted, len);
    BelowBoth(w.taskBase + w.m.pendingCutoff, len);
  }

  /** A rewind into a pending task's messages loses nothing by itself, and if the task fails all is well again. */
  lemma FailedTaskForgivesRewind(w: World, len: nat)
    requires IntoTask(w, len)
    ensures Complete(Step(w, Rewind(len))) && !CoverageInv(Step(w, Rewind(len)))
    ensures CoverageInv(Step(Step(w, Rewind(len)), PollTask(Failed)))
  {
    RewoundIntoTask(w, len);
  }

  /** If the task succeeds, the count is past the end, and messages are lost once appended ones reach it. */
  lemma AppliedTaskLosesAfterRewind(w: World, len: nat, text: string, later: seq<Message>)
    requires IntoTask(w, len)
    ensures Complete(Run(Step(Step(w, Rewind(len)), PollTask(Finished(text))), AppendOps(later))) <==>
              len + |later| < w.m.compacted + w.m.pendingCutoff
  {
    var rewound := Step(w, Rewind(len));
    RewoundIntoTask(w, len);
    ApplyAddsCutoff(rewound, text);
    RunAppends(Step(rewound, PollTask(Finished(text))), later);
    var v := Run(Step(rewound, PollTask(Finished(text))), AppendOps(later));
    if v.m.compacted <= |v.t| {
      assert len !in v.covers;
    }
  }

  lemma PlainHardCut()
    ensures HardCut(seq(15, _ => PLAIN), 1000) == 5
  {
    var t := seq(15, _ => PLAIN);
    UniformCuts(t, PLAIN, 0);
    UniformFacts(t[5..], PLAIN);
    assert MessageChars(PLAIN) == 0;
    KeepTenFits(t);
  }

  lemma PlainHard(config: Config, notice: string)
    ensures var hard := Step(CrowdedWorld(config, seq(15, _ => PLAIN), 1000), Hard(notice));
            CoverageInv(hard) && hard.m.compacted == 5 && |hard.t| == 15
  {
    var t := seq(15, _ => PLAIN);
    var w := CrowdedWorld(config, t, 1000);
    PlainHardCut();
    CrowdedIsReachable(config, t, 1000);
    StepKeepsCoverage(w, Hard(notice));
    assert Active(w.m, t) == t;
    HardCompactionKeepsRecent(w.m, t, notice);
  }

  /** From a new manager: a hard compaction of five messages, a rewind to two, and three more messages, which are
      lost. */
  lemma RewindCanLoseMessages(config: Config, notice: string, m: Message)
    ensures var w := Run(InitialWorld(Reactive, config), Setup(seq(15, _ => PLAIN), 1000, 960));
            var v := Run(Step(Step(w, Hard(notice)), Rewind(2)), AppendOps([m, m, m]));
            && CoverageInv(Step(w, Hard(notice))) && !Complete(v) && |v.t| == v.m.compacted == 5
            && 2 !in v.covers && 3 !in v.covers && 4 !in v.covers
  {
    CrowdedIsReachable(config, seq(15, _ => PLAIN), 1000);
    PlainHard(config, notice);
    RewindLosesLaterMessages(Step(CrowdedWorld(config, seq(15, _ => PLAIN), 1000), Hard(notice)), 2, [m, m, m]);
  }

  const LONG := Message(User, [Text("12345678")])

  lemma KeepTwoIsLeft(t: seq<Message>)
    requires |t| == 15 && Uniform(t, LONG)
    ensures HardCut(t, 1) == 13
  {
    assert ContentChars(LONG.content) == 8 by {
      assert ByteLen("12345678") == 8 by {
        ByteLenOfLong();
      }
      assert LONG.content[1..] == [];
    }
    UniformCuts(t, LONG, 5);
    UniformCuts(t, LONG, 10);
    UniformCuts(t, LONG, 13);
    assert NextKeep(10) == 5 && NextKeep(5) == 2;
    assert !KeepFits(t, 1, 10) && !KeepFits(t, 1, 5) && !KeepFits(t, 1, 2);
    assert ChosenKeep(t, 1, 2) == 2;
    assert ChosenKeep(t, 1, 5) == 2;
  }

  lemma ByteLenOfLong()
    ensures ByteLen("12345678") == 8
  {
    assert ByteLen("5678") == 4;
    assert "12345678"[1..] == "2345678" && "2345678"[1..] == "345678" && "345678"[1..] == "45678"
           && "45678"[1..] == "5678";
  }

  lemma LongCrowd(config: Config, sense: Sense, notice: string)
    ensures var t := seq(15, _ => LONG);
            var hard := Step(CrowdedWorld(config, t, 1), Ensure(sense, notice));
            && CoverageInv(hard) && !hard.m.dirty && hard.m.totalTurns == 15 && hard.t == t
            && hard.m.pending.Some? && hard.m.pendingCutoff == 5 && hard.m.compacted == 13
  {
    var t := seq(15, _ => LONG);
    KeepTwoIsLeft(t);
    UniformFacts(t[5..], LONG);
    CrowdedEnsure(config, t, 1, sense, notice);
  }

  /** Fifteen messages too long for the budget: the same call drops thirteen of them, and applying the task sets a
      count three past the end. */
  lemma OneEnsureCallCanOvershoot(config: Config, sense: Sense, notice: string, text: string)
    ensures var w := Run(InitialWorld(Reactive, config), Setup(seq(15, _ => LONG), 1, 960));
            var hard := Step(w, Ensure(sense, notice));
            && CoverageInv(hard) && |hard.t| == 15
            && Step(hard, PollTask(Finished(text))).m.compacted == 18
  {
    var t := seq(15, _ => LONG);
    CrowdedIsReachable(config, t, 1);
    LongCrowd(config, sense, notice);
    ApplyAddsCutoff(Step(CrowdedWorld(config, t, 1), Ensure(sense, notice)), text);
  }

  /** A new manager over an empty transcript satisfies the invariant that coverage starts from. */
  lemma InitialWorldIsCovered(mode: Mode, config: Config)
    ensures CoverageInv(InitialWorld(mode, config))
  {
  }

  // ---- Single flight, quiet after a restore, cooldown ----

  /** No operation starts a task while one is pending, and only polling, restoring or resetting can end one. */
  lemma SingleFlight(w: World, op: Op)
    ensures StartsByItself(w, op) || StartsByHand(w, op) ==> w.m.pending.None? && Step(w, op).m.pending.Some?
    ensures w.m.pending.Some? && !op.PollTask? && !op.Restore? && !op.Reset? ==>
              Step(w, op).m.pending == w.m.pending && Step(w, op).m.pendingCutoff == w.m.pendingCutoff
    ensures w.m.pending.None? && Step(w, op).m.pending.Some? ==> StartsByItself(w, op) || StartsByHand(w, op)
  {
  }

  ghost predicate Quiet(w: World, op: Op) {
    !op.Append? && !op.AppendUnseen? && !op.Reset?
  }

  predicate Suppressed(w: World) {
    w.m.suppressed || w.t == []
  }

  lemma LoadSuppresses(w: World, load: Op)
    requires load.Restore? || load.Seed?
    ensures Suppressed(Step(w, load))
  {
  }

  lemma StaysSuppressed(w: World, op: Op)
    requires Suppressed(w) && Quiet(w, op)
    ensures Suppressed(Step(w, op))
  {
  }

  lemma SuppressedStartsNothing(w: World, op: Op)
    requires Suppressed(w)
    ensures !StartsByItself(w, op)
  {
  }

  /** After history is loaded, nothing starts by itself until a message is added. */
  lemma {:induction false} NoStartAfterRestore(w: World, load: Op, ops: seq<Op>, next: Op)
    requires load.Restore? || load.Seed?
    requires Follows(Step(w, load), ops, (v, op) => Quiet(v, op))
    ensures var v := Run(Step(w, load), ops);
            Suppressed(v) && !StartsByItself(v, next)
  {
    if ops == [] {
      LoadSuppresses(w, load);
    } else {
      NoStartAfterRestore(w, load, ops[..|ops| - 1], next);
      StaysSuppressed(Run(Step(w, load), ops[..|ops| - 1]), ops[|ops| - 1]);
    }
    SuppressedStartsNothing(Run(Step(w, load), ops), next);
  }

  ghost predicate Rests(w: World, op: Op) {
    Applies(w, op) || op.Restore? || op.Reset?
  }

  /** Token snapshots recorded since the last applied task, restore or reset. */
  ghost function SnapshotsSinceRest(w: World, ops: seq<Op>): nat {
    if ops == [] then w.m.turnsSinceCompact
    else
      var before, op := ops[..|ops| - 1], ops[|ops| - 1];
      if Rests(Run(w, before), op) then 0
      else SnapshotsSinceRest(w, before) + if op.PushTokens? then 1 else 0
  }

  lemma StepCountsSnapshots(w: World, op: Op)
    ensures Step(w, op).m.turnsSinceCompact
            == if Rests(w, op) then 0 else w.m.turnsSinceCompact + if op.PushTokens? then 1 else 0
  {
  }

  /** A start in proactive or semantic mode always waits for the configured number of snapshots. */
  lemma {:induction false} CooldownOverRuns(w: World, ops: seq<Op>, next: Op)
    ensures Run(w, ops).m.turnsSinceCompact == SnapshotsSinceRest(w, ops)
    ensures StartsByItself(Run(w, ops), next) && !Run(w, ops).m.mode.Reactive? ==>
              SnapshotsSinceRest(w, ops) >= Run(w, ops).m.config.minTurnsBetweenCompactions
  {
    if ops != [] {
      CooldownOverRuns(w, ops[..|ops| - 1], next);
      StepCountsSnapshots(Run(w, ops[..|ops| - 1]), ops[|ops| - 1]);
    }
  }

  // ---- Persisting the compacted view ----

  /** Saving and reloading a compacted view sends the same messages exactly when the count is within the transcript. */
  lemma PersistRoundTrip(s: State, other: State, t: seq<Message>)
    requires s.summary.Some?
    ensures var reloaded := Restored(other, Persisted(s).value, t);
            && (Payload(reloaded, t) == Payload(s, t) <==> s.compacted <= |t| || t == [])
            && (s.compacted <= |t| ==> reloaded.compacted == s.compacted && Persisted(reloaded) == Persisted(s))
  {
    var reloaded := Restored(other, Persisted(s).value, t);
    assert Payload(reloaded, t)[1..] == Active(reloaded, t);
    assert Payload(s, t)[1..] == Active(s, t);
  }
}
