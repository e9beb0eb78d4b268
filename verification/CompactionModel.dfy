/** The compaction manager's state as a value, and what each of its operations does to it.

    The manager owns no messages: every operation is given the caller's transcript. The class in
    CompactionManager.dfy updates its fields in place and is proved to follow these functions;
    CompactionRuns.dfy, CompactionTools.dfy and CompactionCache.dfy prove what they guarantee over whole runs. */
module CompactionModel {
  import opened Wrappers
  import opened Messages
  import opened CompactionCore

  datatype Mode = Reactive | Proactive | Semantic

  function ModeLabel(mode: Mode): string {
    match mode
    case Reactive => "reactive"
    case Proactive => "proactive"
    case Semantic => "semantic"
  }

  datatype Settings = Settings(
    lookaheadTurns: nat,
    ewmaAlpha: real,
    proactiveFloor: real,
    minSamples: nat,
    stallWindow: nat,
    minTurnsBetweenCompactions: nat,
    topicShiftThreshold: real)

  // A stall window of zero would index an empty list, so it is not a usable setting.
  type Config = c: Settings | c.stallWindow > 0
    witness Settings(15, 0.3, 0.4, 3, 5, 10, 0.45)

  datatype Summary = Summary(text: string, coversUpToTurn: nat, originalTurnCount: nat)

  /** The inputs handed to a background summarisation. */
  datatype Task = Task(messages: seq<Message>, prior: Option<Summary>)

  datatype Event = Event(
    trigger: string,
    preTokens: nat,
    postTokens: nat,
    tokensSaved: nat,
    messagesDropped: Option<nat>,
    messagesCompacted: nat,
    summaryChars: nat,
    activeMessages: nat)

  datatype State = State(
    compacted: nat,
    summary: Option<Summary>,
    activeChars: nat,
    dirty: bool,
    pending: Option<Task>,
    pendingTrigger: Option<string>,
    pendingCutoff: nat,
    totalTurns: nat,
    suppressed: bool,
    budget: nat,
    observed: Option<nat>,
    lastEvent: Option<Event>,
    mode: Mode,
    config: Config,
    tokenHistory: seq<nat>,
    turnsSinceCompact: nat,
    embeddings: nat)

  /** A persisted compacted view. */
  datatype Stored = Stored(summaryText: string, coversUpToTurn: nat, originalTurnCount: nat, compactedCount: nat)

  /** What the embedding model says about the active messages. */
  datatype Relevance = NoGoalEmbedding | Scores(relevant: seq<bool>)

  datatype Sense = Sense(similarity: real, relevance: Relevance)

  /** What polling the background task finds. */
  datatype Poll = StillRunning | Finished(text: string) | Failed

  datatype Action = NoAction | BackgroundStarted(trigger: string) | HardCompacted(dropped: nat)

  datatype Refusal = InProgress | NotEnoughMessages(have: nat) | UsageTooLow | WouldSplitToolPair

  function Fresh(mode: Mode, config: Config): State {
    State(0, None, 0, false, None, None, 0, 0, false, DEFAULT_TOKEN_BUDGET, None, None, mode, config, [], 0, 0)
  }

  // ---- Reading the state ----

  /** The uncompacted messages; a transcript shorter than the count is taken whole. */
  function Active(s: State, t: seq<Message>): seq<Message> {
    if s.compacted <= |t| then t[s.compacted..] else t
  }

  function ActiveCount(s: State): nat {
    Monus(s.totalTurns, s.compacted)
  }

  function CachedChars(s: State, t: seq<Message>): nat {
    if s.dirty || ActiveCount(s) != |Active(s, t)| then TotalChars(Active(s, t)) else s.activeChars
  }

  function EstimateTokens(summary: Option<Summary>, chars: nat, budget: nat): nat {
    var summaryChars := if summary.Some? then ByteLen(summary.value.text) else 0;
    (summaryChars + chars) / CHARS_PER_TOKEN
    + (if budget >= DEFAULT_TOKEN_BUDGET / 2 then SYSTEM_OVERHEAD_TOKENS else 0)
  }

  function TokenEstimate(s: State, t: seq<Message>): nat {
    EstimateTokens(s.summary, CachedChars(s, t), s.budget)
  }

  function EffectiveTokens(s: State, t: seq<Message>): nat {
    Max(TokenEstimate(s, t), s.observed.GetOr(0))
  }

  /** Usage at or above a share of the budget. A budget of zero divides to infinity, or to
      not-a-number when there are no tokens either. */
  predicate UsageAtLeast(tokens: nat, budget: nat, share: real) {
    if budget == 0 then tokens > 0 else tokens as real >= share * budget as real
  }

  predicate UsageBelow(tokens: nat, budget: nat, share: real) {
    budget > 0 && (tokens as real) < share * budget as real
  }

  predicate Critical(s: State, t: seq<Message>) {
    UsageAtLeast(EffectiveTokens(s, t), s.budget, 0.95)
  }

  // ---- When to compact ----

  predicate Stalled(history: seq<nat>, window: nat)
    requires window > 0
  {
    |history| >= window && history[|history| - 1] <= history[|history| - window]
  }

  predicate AntiSignalsBlock(s: State, t: seq<Message>) {
    || s.pending.Some?
    || UsageBelow(EffectiveTokens(s, t), s.budget, s.config.proactiveFloor)
    || |s.tokenHistory| < s.config.minSamples
    || Stalled(s.tokenHistory, s.config.stallWindow)
    || s.turnsSinceCompact < s.config.minTurnsBetweenCompactions
  }

  /** Growth between two snapshots, with shrinking counted as no growth. */
  function Growth(before: nat, after: nat): real {
    Monus(after, before) as real
  }

  /** Smoothed growth per turn, latest snapshot last. */
  function SmoothedGrowth(history: seq<nat>, alpha: real): real
    requires |history| >= 2
  {
    var n := |history|;
    var last := Growth(history[n - 2], history[n - 1]);
    if n == 2 then last else alpha * last + (1.0 - alpha) * SmoothedGrowth(history[..n - 1], alpha)
  }

  predicate ProjectionReaches(newest: nat, growth: real, turns: nat, budget: nat) {
    newest as real + growth * turns as real >= 0.8 * budget as real
  }

  predicate GrowthReachesThreshold(s: State) {
    && |s.tokenHistory| >= 2
    && ProjectionReaches(s.tokenHistory[|s.tokenHistory| - 1], SmoothedGrowth(s.tokenHistory, s.config.ewmaAlpha),
                         s.config.lookaheadTurns, s.budget)
  }

  predicate ShouldCompactProactively(s: State, t: seq<Message>) {
    !AntiSignalsBlock(s, t) && GrowthReachesThreshold(s)
  }

  predicate ShouldCompactSemantic(s: State, t: seq<Message>, similarity: real) {
    && !AntiSignalsBlock(s, t)
    && ((s.embeddings >= 4 && similarity < s.config.topicShiftThreshold) || ShouldCompactProactively(s, t))
  }

  predicate ShouldCompact(s: State, t: seq<Message>, similarity: real) {
    && !s.suppressed
    && |Active(s, t)| > RECENT_TURNS_TO_KEEP
    && match s.mode
       case Reactive => s.pending.None? && UsageAtLeast(EffectiveTokens(s, t), s.budget, 0.8)
       case Proactive => ShouldCompactProactively(s, t)
       case Semantic => ShouldCompactSemantic(s, t, similarity)
  }

  /** Index of the first relevant message among the first `limit`, or `limit`. */
  function EarliestRelevant(flags: seq<bool>, limit: nat): (i: nat)
    ensures i <= limit
  {
    if flags == [] || limit == 0 then limit
    else if flags[0] then 0
    else 1 + EarliestRelevant(flags[1..], limit - 1)
  }

  function SemanticCutoff(active: seq<Message>, relevance: Relevance): nat {
    var standard := Monus(|active|, RECENT_TURNS_TO_KEEP);
    match relevance
    case NoGoalEmbedding => standard
    case Scores(flags) =>
      var earliest := EarliestRelevant(flags, standard);
      if earliest < 2 then standard else earliest
  }

  ghost function BackgroundCutoff(s: State, t: seq<Message>, relevance: Relevance): nat {
    var active := Active(s, t);
    var wanted := if s.mode.Semantic? then SemanticCutoff(active, relevance)
                  else Monus(|active|, RECENT_TURNS_TO_KEEP);
    SafeCutoff(active, wanted)
  }

  ghost predicate WillStart(s: State, t: seq<Message>, sense: Sense) {
    ShouldCompact(s, t, sense.similarity) && BackgroundCutoff(s, t, sense.relevance) > 0
  }

  // ---- Operations ----

  function Started(s: State, t: seq<Message>, cutoff: nat, trigger: string): State
    requires cutoff <= |Active(s, t)|
  {
    s.(pending := Some(Task(Active(s, t)[..cutoff], s.summary)),
       pendingTrigger := Some(trigger),
       pendingCutoff := cutoff)
  }

  ghost function MaybeStart(s: State, t: seq<Message>, sense: Sense): State {
    if WillStart(s, t, sense) then
      var cutoff := BackgroundCutoff(s, t, sense.relevance);
      CutoffInRange(s, t, sense.relevance);
      Started(s, t, cutoff, ModeLabel(s.mode))
    else s
  }

  lemma CutoffInRange(s: State, t: seq<Message>, relevance: Relevance)
    ensures BackgroundCutoff(s, t, relevance) <= |Active(s, t)|
    ensures BackgroundCutoff(s, t, relevance) > 0 ==>
              ClosedFrom(Active(s, t), BackgroundCutoff(s, t, relevance))
  {
    var active := Active(s, t);
    SafeCutoffBounds(active, if s.mode.Semantic? then SemanticCutoff(active, relevance)
                             else Monus(|active|, RECENT_TURNS_TO_KEEP));
  }

  ghost function ForceRefusal(s: State, t: seq<Message>): Option<Refusal> {
    var active := Active(s, t);
    if s.pending.Some? then Some(InProgress)
    else if |active| <= RECENT_TURNS_TO_KEEP then Some(NotEnoughMessages(|active|))
    else if UsageBelow(EffectiveTokens(s, t), s.budget, 0.1) then Some(UsageTooLow)
    else if SafeCutoff(active, |active| - RECENT_TURNS_TO_KEEP) == 0 then Some(WouldSplitToolPair)
    else None
  }

  ghost function Force(s: State, t: seq<Message>): State {
    if ForceRefusal(s, t).Some? then s
    else
      var active := Active(s, t);
      SafeCutoffBounds(active, |active| - RECENT_TURNS_TO_KEEP);
      Started(s, t, SafeCutoff(active, |active| - RECENT_TURNS_TO_KEEP), "manual")
  }

  /** The finished task's summary replaces the first `pendingCutoff` active messages. The count is
      advanced before the character cache is read, and the dirty flag is still the old one then. */
  function Applied(s: State, t: seq<Message>, text: string): State
    requires s.pending.Some?
  {
    var active := Active(s, t);
    var dropped := TotalChars(active[..Min(s.pendingCutoff, |active|)]);
    var advanced := s.(pending := None, compacted := s.compacted + s.pendingCutoff);
    var resized := advanced.(
      activeChars := Monus(CachedChars(advanced, t), dropped),
      dirty := false,
      summary := Some(Summary(text, |s.pending.value.messages|, s.pendingCutoff)),
      observed := None);
    var pre := EffectiveTokens(s, t);
    var post := EffectiveTokens(resized, t);
    resized.(
      lastEvent := Some(Event(s.pendingTrigger.GetOr(ModeLabel(s.mode)), pre, post, Monus(pre, post), None,
                              |s.pending.value.messages|, ByteLen(text), ActiveCount(resized))),
      pendingTrigger := None,
      pendingCutoff := 0,
      turnsSinceCompact := 0)
  }

  function CheckAndApply(s: State, t: seq<Message>, poll: Poll): State {
    if s.pending.None? then s
    else
      match poll
      case StillRunning => s
      case Finished(text) => Applied(s, t, text)
      case Failed => s.(pending := None, pendingTrigger := None, pendingCutoff := 0)
  }

  // ---- Hard compaction: halve the number of kept messages until the rest fits ----

  function NextKeep(keep: nat): nat {
    Max(keep / 2, MIN_TURNS_TO_KEEP)
  }

  ghost function CutKeeping(active: seq<Message>, keep: nat): nat {
    SafeCutoff(active, Monus(|active|, keep))
  }

  ghost predicate KeepFits(active: seq<Message>, budget: nat, keep: nat) {
    var cut := CutKeeping(active, keep);
    SafeCutoffBounds(active, Monus(|active|, keep));
    cut > 0 && TotalChars(active[cut..]) / CHARS_PER_TOKEN <= budget
  }

  ghost function ChosenKeep(active: seq<Message>, budget: nat, keep: nat): nat {
    if KeepFits(active, budget, keep) then keep
    else if keep <= MIN_TURNS_TO_KEEP then MIN_TURNS_TO_KEEP
    else ChosenKeep(active, budget, NextKeep(keep))
  }

  function FirstKeep(active: seq<Message>): nat {
    Min(RECENT_TURNS_TO_KEEP, Monus(|active|, 1))
  }

  /** How many messages a hard compaction drops; 0 when no safe cut is left. */
  ghost function HardCut(active: seq<Message>, budget: nat): nat {
    CutKeeping(active, ChosenKeep(active, budget, FirstKeep(active)))
  }

  ghost function HardRefusal(s: State, t: seq<Message>): Option<Refusal> {
    var active := Active(s, t);
    if |active| <= MIN_TURNS_TO_KEEP then Some(NotEnoughMessages(|active|))
    else if HardCut(active, s.budget) == 0 then Some(WouldSplitToolPair)
    else None
  }

  /** The earlier summary, unless it is empty, followed by the emergency notice. */
  function EmergencyText(prior: Option<Summary>, notice: string): string {
    if prior.Some? && prior.value.text != "" then prior.value.text + "\n\n" + notice else notice
  }

  /** State after dropping `cut` messages. A pending task and its cutoff are left as they are. */
  function HardApplied(s: State, t: seq<Message>, cut: nat, notice: string): State
    requires cut <= |Active(s, t)|
  {
    var text := EmergencyText(s.summary, notice);
    var shortened := s.(
      compacted := s.compacted + cut,
      activeChars := TotalChars(Active(s, t)[cut..]),
      dirty := false,
      summary := Some(Summary(text, cut, cut)),
      observed := None);
    var pre := EffectiveTokens(s, t);
    var post := EstimateTokens(shortened.summary, 0, s.budget);
    shortened.(lastEvent := Some(Event("hard_compact", pre, post, Monus(pre, post), Some(cut), cut,
                                       ByteLen(text), ActiveCount(shortened))))
  }

  ghost function HardCompact(s: State, t: seq<Message>, notice: string): State {
    if HardRefusal(s, t).Some? then s
    else
      var active := Active(s, t);
      SafeCutoffBounds(active, Monus(|active|, ChosenKeep(active, s.budget, FirstKeep(active))));
      HardApplied(s, t, HardCut(active, s.budget), notice)
  }

  /** Start a background task if it is due and, when usage is critical, hard compact as well. */
  ghost function EnsureFits(s: State, t: seq<Message>, sense: Sense, notice: string): State {
    var started := MaybeStart(s, t, sense);
    if Critical(started, t) then HardCompact(started, t, notice) else started
  }

  ghost function EnsureFitsAction(s: State, t: seq<Message>, sense: Sense): Action {
    var started := MaybeStart(s, t, sense);
    if Critical(started, t) && HardRefusal(started, t).None? then HardCompacted(HardCut(Active(started, t), s.budget))
    else if s.pending.None? && started.pending.Some? then
      BackgroundStarted(started.pendingTrigger.GetOr(ModeLabel(s.mode)))
    else NoAction
  }

  /** The text block that stands for everything compacted so far. */
  function SummaryMessage(summary: Summary): Message {
    Message(User, [Text("## Previous Conversation Summary\n\n" + summary.text + "\n\n---\n\n")])
  }

  function Payload(s: State, t: seq<Message>): seq<Message> {
    if s.summary.Some? then [SummaryMessage(s.summary.value)] + Active(s, t) else Active(s, t)
  }

  /** A message was appended and its content is known. The dirty flag is cleared without a resync. */
  function Noted(s: State, content: seq<ContentBlock>): State {
    s.(totalTurns := s.totalTurns + 1, suppressed := false,
       activeChars := s.activeChars + ContentChars(content), dirty := false)
  }

  /** A message was appended by a caller that does not pass its content. */
  function NotedUnseen(s: State): State {
    s.(totalTurns := s.totalTurns + 1, suppressed := false, dirty := true)
  }

  /** History was loaded without a compacted view. The compacted count is not touched. */
  function Seeded(s: State, t: seq<Message>): State {
    s.(totalTurns := |t|, suppressed := |t| > 0, activeChars := TotalChars(t), dirty := false)
  }

  /** History was loaded together with a compacted view. */
  function Restored(s: State, stored: Stored, t: seq<Message>): State {
    var placed := s.(
      pending := None, pendingTrigger := None, pendingCutoff := 0, observed := None, lastEvent := None,
      tokenHistory := [], turnsSinceCompact := 0, embeddings := 0, totalTurns := |t|,
      compacted := Min(stored.compactedCount, |t|),
      summary := Some(Summary(stored.summaryText, stored.coversUpToTurn, stored.originalTurnCount)),
      suppressed := |t| > 0);
    placed.(activeChars := TotalChars(Active(placed, t)), dirty := false)
  }

  function Persisted(s: State): Option<Stored> {
    if s.summary.None? then None
    else
      var summary := s.summary.value;
      Some(Stored(summary.text, summary.coversUpToTurn, summary.originalTurnCount, s.compacted))
  }

  function TokensPushed(s: State, tokens: nat): State {
    var history := s.tokenHistory + [tokens];
    s.(tokenHistory := if |history| > TOKEN_HISTORY_WINDOW then history[1..] else history,
       turnsSinceCompact := s.turnsSinceCompact + 1)
  }

  function EmbeddingPushed(s: State): State {
    s.(embeddings := Min(s.embeddings + 1, EMBEDDING_HISTORY_WINDOW))
  }
}
