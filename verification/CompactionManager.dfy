/** The compaction manager itself: fields updated in place, proved to follow CompactionModel. */
module CompactionManager {
  import opened Wrappers
  import opened Messages
  import opened CompactionCore
  import opened CompactionModel

  /** Projected growth per turn, smoothed from the oldest pair of snapshots to the newest. */
  method SmoothGrowth(history: seq<nat>, alpha: real) returns (ewma: real)
    requires |history| >= 2
    ensures ewma == SmoothedGrowth(history, alpha)
  {
    ewma := Growth(history[0], history[1]);
    assert history[..2][..1] == history[..1];
    for i := 2 to |history|
      invariant ewma == SmoothedGrowth(history[..i], alpha)
    {
      assert history[..i + 1][..i] == history[..i];
      ewma := alpha * Growth(history[i - 1], history[i]) + (1.0 - alpha) * ewma;
    }
    assert history[..|history|] == history;
  }

  method Projects(newest: nat, growth: real, turns: nat, budget: nat) returns (due: bool)
    ensures due == ProjectionReaches(newest, growth, turns, budget)
  {
    var projected := newest as real + growth * turns as real;
    due := projected >= 0.8 * budget as real;
  }

  /** Walk the candidate messages, remembering the first relevant one. */
  method FindSemanticCutoff(active: seq<Message>, relevance: Relevance) returns (cutoff: nat)
    ensures cutoff == SemanticCutoff(active, relevance)
  {
    var standard := Monus(|active|, RECENT_TURNS_TO_KEEP);
    if relevance.NoGoalEmbedding? {
      return standard;
    }
    var flags := relevance.relevant;
    var earliest := standard;
    var idx := 0;
    while idx < standard && idx < |flags|
      invariant 0 <= idx <= standard && idx <= |flags| && earliest <= standard
      invariant earliest < idx ==> earliest == EarliestRelevant(flags, standard)
      invariant earliest >= idx ==> earliest == standard
      invariant earliest >= idx ==>
                  EarliestRelevant(flags, standard) == idx + EarliestRelevant(flags[idx..], standard - idx)
    {
      assert flags[idx..][1..] == flags[idx + 1..];
      if flags[idx] {
        earliest := Min(earliest, idx);
      }
      idx := idx + 1;
    }
    return if earliest < 2 then standard else earliest;
  }

  /** Character counts of every suffix of the active messages, filled from the back. */
  method SuffixChars(active: seq<Message>) returns (remaining: array<nat>)
    ensures fresh(remaining) && remaining.Length == |active| + 1
    ensures forall i :: 0 <= i <= |active| ==> remaining[i] == TotalChars(active[i..])
  {
    remaining := new nat[|active| + 1];
    remaining[|active|] := 0;
    var idx := |active|;
    while idx > 0
      invariant 0 <= idx <= |active|
      invariant forall i :: idx <= i <= |active| ==> remaining[i] == TotalChars(active[i..])
    {
      idx := idx - 1;
      remaining[idx] := remaining[idx + 1] + MessageChars(active[idx]);
      assert active[idx..][1..] == active[idx + 1..];
    }
  }

  lemma KeepFitsAt(active: seq<Message>, budget: nat, keep: nat, cutoff: nat)
    requires keep < |active| && cutoff == SafeCutoff(active, |active| - keep)
    ensures cutoff == CutKeeping(active, keep) <= |active|
    ensures KeepFits(active, budget, keep) <==> cutoff > 0 && TotalChars(active[cutoff..]) / CHARS_PER_TOKEN <= budget
  {
    SafeCutoffBounds(active, |active| - keep);
  }

  /** The safe cut that keeps `keep` messages, and whether what it keeps fits the budget. */
  method CandidateCut(active: seq<Message>, remaining: array<nat>, budget: nat, keep: nat)
    returns (cutoff: nat, fits: bool)
    requires keep < |active| && remaining.Length == |active| + 1
    requires forall i :: 0 <= i <= |active| ==> remaining[i] == TotalChars(active[i..])
    ensures cutoff == CutKeeping(active, keep) <= |active| - keep
    ensures fits == KeepFits(active, budget, keep)
  {
    cutoff := SafeCompactionCutoff(active, |active| - keep);
    KeepFitsAt(active, budget, keep, cutoff);
    fits := cutoff > 0 && remaining[cutoff] / CHARS_PER_TOKEN <= budget;
  }

  /** The halving search of hard compaction. */
  method FindHardCut(active: seq<Message>, budget: nat) returns (cutoff: nat)
    requires |active| > MIN_TURNS_TO_KEEP
    ensures cutoff == HardCut(active, budget)
    ensures cutoff <= |active| - MIN_TURNS_TO_KEEP
  {
    var remaining := SuffixChars(active);
    var keep, fits := Min(RECENT_TURNS_TO_KEEP, |active| - 1), false;
    cutoff, fits := CandidateCut(active, remaining, budget, keep);
    while !fits && keep > MIN_TURNS_TO_KEEP
      invariant MIN_TURNS_TO_KEEP <= keep < |active|
      invariant cutoff == CutKeeping(active, keep) <= |active| - keep
      invariant fits == KeepFits(active, budget, keep)
      invariant ChosenKeep(active, budget, keep) == ChosenKeep(active, budget, FirstKeep(active))
      modifies {}
      decreases keep
    {
      keep := NextKeep(keep);
      cutoff, fits := CandidateCut(active, remaining, budget, keep);
    }
  }

  class Manager {
    var compactedCount: nat
    var activeSummary: Option<Summary>
    var activeMessageChars: nat
    var activeMessageCharsDirty: bool
    var pendingTask: Option<Task>
    var pendingTrigger: Option<string>
    var pendingCutoff: nat
    var totalTurns: nat
    var suppressUntilNewMessage: bool
    var tokenBudget: nat
    var observedInputTokens: Option<nat>
    var lastCompaction: Option<Event>
    var mode: Mode
    var config: Config
    var tokenHistory: seq<nat>
    var turnsSinceLastCompact: nat
    var embeddingSnapshots: nat

    function View(): State
      reads this
    {
      State(compactedCount, activeSummary, activeMessageChars, activeMessageCharsDirty, pendingTask, pendingTrigger,
            pendingCutoff, totalTurns, suppressUntilNewMessage, tokenBudget, observedInputTokens, lastCompaction,
            mode, config, tokenHistory, turnsSinceLastCompact, embeddingSnapshots)
    }

    constructor (mode: Mode, config: Config)
      ensures View() == Fresh(mode, config)
    {
      compactedCount, activeSummary, activeMessageChars, activeMessageCharsDirty := 0, None, 0, false;
      pendingTask, pendingTrigger, pendingCutoff := None, None, 0;
      totalTurns, suppressUntilNewMessage, tokenBudget := 0, false, DEFAULT_TOKEN_BUDGET;
      observedInputTokens, lastCompaction := None, None;
      this.mode, this.config := mode, config;
      tokenHistory, turnsSinceLastCompact, embeddingSnapshots := [], 0, 0;
    }

    method ClearTask()
      modifies this
      ensures View() == old(View()).(pending := None, pendingTrigger := None, pendingCutoff := 0)
    {
      pendingTask, pendingTrigger, pendingCutoff := None, None, 0;
    }

    method TakeTask()
      modifies this
      ensures View() == old(View()).(pending := None)
    {
      pendingTask := None;
    }

    method Record(event: Event)
      modifies this
      ensures View() == old(View()).(lastEvent := Some(event))
    {
      lastCompaction := Some(event);
    }

    method ClearHistory()
      modifies this
      ensures View() == old(View()).(tokenHistory := [], turnsSinceCompact := 0, embeddings := 0)
    {
      tokenHistory, turnsSinceLastCompact, embeddingSnapshots := [], 0, 0;
    }

    method SetActiveChars(chars: nat)
      modifies this
      ensures View() == old(View()).(activeChars := chars, dirty := false)
    {
      activeMessageChars, activeMessageCharsDirty := chars, false;
    }

    method SetTurns(turns: nat, suppress: bool)
      modifies this
      ensures View() == old(View()).(totalTurns := turns, suppressed := suppress)
    {
      totalTurns, suppressUntilNewMessage := turns, suppress;
    }

    method SetSummary(compacted: nat, summary: Option<Summary>)
      modifies this
      ensures View() == old(View()).(compacted := compacted, summary := summary, observed := None)
    {
      compactedCount, activeSummary, observedInputTokens := compacted, summary, None;
    }

    method Configure(newMode: Mode, newConfig: Config, budget: nat)
      modifies this
      ensures View() == old(View()).(mode := newMode, config := newConfig, budget := budget)
    {
      mode, config, tokenBudget := newMode, newConfig, budget;
    }

    method Reset(newMode: Mode, newConfig: Config)
      modifies this
      ensures View() == Fresh(newMode, newConfig)
    {
      SetSummary(0, None);
      SetActiveChars(0);
      ClearTask();
      ClearHistory();
      SetTurns(0, false);
      Configure(newMode, newConfig, DEFAULT_TOKEN_BUDGET);
      lastCompaction := None;
    }

    method NotifyMessageAdded()
      modifies this
      ensures View() == NotedUnseen(old(View()))
    {
      totalTurns := totalTurns + 1;
      suppressUntilNewMessage := false;
      activeMessageCharsDirty := true;
    }

    method NotifyMessageAddedBlocks(content: seq<ContentBlock>)
      modifies this
      ensures View() == Noted(old(View()), content)
    {
      totalTurns := totalTurns + 1;
      suppressUntilNewMessage := false;
      activeMessageChars := activeMessageChars + ContentChars(content);
      activeMessageCharsDirty := false;
    }

    method SeedRestoredMessagesWith(all: seq<Message>)
      modifies this
      ensures View() == Seeded(old(View()), all)
    {
      totalTurns := |all|;
      suppressUntilNewMessage := |all| > 0;
      activeMessageChars := TotalChars(all);
      activeMessageCharsDirty := false;
    }

    method RestorePersistedStateWith(stored: Stored, all: seq<Message>)
      modifies this
      ensures View() == Restored(old(View()), stored, all)
    {
      ClearTask();
      ClearHistory();
      lastCompaction := None;
      SetTurns(|all|, |all| > 0);
      SetSummary(Min(stored.compactedCount, |all|),
                 Some(Summary(stored.summaryText, stored.coversUpToTurn, stored.originalTurnCount)));
      SetActiveChars(TotalChars(all[compactedCount..]));
    }

    method PushTokenSnapshot(tokens: nat)
      modifies this
      ensures View() == TokensPushed(old(View()), tokens)
    {
      tokenHistory := tokenHistory + [tokens];
      if |tokenHistory| > TOKEN_HISTORY_WINDOW {
        tokenHistory := tokenHistory[1..];
      }
      turnsSinceLastCompact := turnsSinceLastCompact + 1;
    }

    /** Project the growth of the token history over the coming turns. */
    method GrowthIsDue() returns (due: bool)
      ensures due == GrowthReachesThreshold(View())
    {
      if |tokenHistory| < 2 {
        return false;
      }
      var growth := SmoothGrowth(tokenHistory, config.ewmaAlpha);
      due := Projects(tokenHistory[|tokenHistory| - 1], growth, config.lookaheadTurns, tokenBudget);
    }

    method ShouldCompactWith(all: seq<Message>, similarity: real) returns (due: bool)
      ensures due == ShouldCompact(View(), all, similarity)
    {
      if suppressUntilNewMessage || |Active(View(), all)| <= RECENT_TURNS_TO_KEEP {
        return false;
      }
      if mode.Reactive? {
        return pendingTask.None? && UsageAtLeast(EffectiveTokens(View(), all), tokenBudget, 0.8);
      }
      if AntiSignalsBlock(View(), all) {
        return false;
      }
      if mode.Semantic? && embeddingSnapshots >= 4 && similarity < config.topicShiftThreshold {
        return true;
      }
      due := GrowthIsDue();
    }

    /** Hand the first `cutoff` active messages to a background task. */
    method StartTask(all: seq<Message>, cutoff: nat, trigger: string)
      requires cutoff <= |Active(View(), all)|
      modifies this
      ensures View() == Started(old(View()), all, cutoff, trigger)
    {
      pendingTask := Some(Task(Active(View(), all)[..cutoff], activeSummary));
      pendingCutoff := cutoff;
      pendingTrigger := Some(trigger);
    }

    method MaybeStartCompactionWith(all: seq<Message>, sense: Sense)
      modifies this
      ensures View() == MaybeStart(old(View()), all, sense)
    {
      var due := ShouldCompactWith(all, sense.similarity);
      if !due {
        return;
      }
      var active := Active(View(), all);
      var cutoff := Monus(|active|, RECENT_TURNS_TO_KEEP);
      if mode.Semantic? {
        cutoff := FindSemanticCutoff(active, sense.relevance);
      }
      cutoff := SafeCompactionCutoff(active, cutoff);
      if cutoff == 0 {
        return;
      }
      StartTask(all, cutoff, ModeLabel(mode));
    }

    method ForceCompactWith(all: seq<Message>) returns (refusal: Option<Refusal>)
      modifies this
      ensures refusal == ForceRefusal(old(View()), all)
      ensures View() == Force(old(View()), all)
    {
      if pendingTask.Some? {
        return Some(InProgress);
      }
      var active := Active(View(), all);
      if |active| <= RECENT_TURNS_TO_KEEP {
        return Some(NotEnoughMessages(|active|));
      }
      if UsageBelow(EffectiveTokens(View(), all), tokenBudget, 0.1) {
        return Some(UsageTooLow);
      }
      var cutoff := SafeCompactionCutoff(active, |active| - RECENT_TURNS_TO_KEEP);
      if cutoff == 0 {
        return Some(WouldSplitToolPair);
      }
      StartTask(all, cutoff, "manual");
      return None;
    }

    method HardCompactWith(all: seq<Message>, notice: string) returns (outcome: Result<nat, Refusal>)
      modifies this
      ensures View() == HardCompact(old(View()), all, notice)
      ensures outcome == (if HardRefusal(old(View()), all).Some? then Err(HardRefusal(old(View()), all).value)
                          else Ok(HardCut(Active(old(View()), all), tokenBudget)))
    {
      var active := Active(View(), all);
      if |active| <= MIN_TURNS_TO_KEEP {
        return Err(NotEnoughMessages(|active|));
      }
      var pre := EffectiveTokens(View(), all);
      var cutoff := FindHardCut(active, tokenBudget);
      if cutoff == 0 {
        return Err(WouldSplitToolPair);
      }
      var text := EmergencyText(activeSummary, notice);
      SetSummary(compactedCount + cutoff, Some(Summary(text, cutoff, cutoff)));
      SetActiveChars(TotalChars(active[cutoff..]));
      var post := EstimateTokens(activeSummary, 0, tokenBudget);
      Record(Event("hard_compact", pre, post, Monus(pre, post), Some(cutoff), cutoff,
                   ByteLen(text), Monus(totalTurns, compactedCount)));
      return Ok(cutoff);
    }

    method EnsureContextFits(all: seq<Message>, sense: Sense, notice: string) returns (action: Action)
      modifies this
      ensures View() == EnsureFits(old(View()), all, sense, notice)
      ensures action == EnsureFitsAction(old(View()), all, sense)
    {
      var wasCompacting := pendingTask.Some?;
      MaybeStartCompactionWith(all, sense);
      var started := !wasCompacting && pendingTask.Some?;
      if Critical(View(), all) {
        var outcome := HardCompactWith(all, notice);
        if outcome.Ok? {
          return HardCompacted(outcome.value);
        }
      }
      return if started then BackgroundStarted(pendingTrigger.GetOr(ModeLabel(mode))) else NoAction;
    }

    method CheckAndApplyCompactionWith(all: seq<Message>, poll: Poll)
      modifies this
      ensures View() == CheckAndApply(old(View()), all, poll)
    {
      if pendingTask.None? || poll.StillRunning? {
        return;
      }
      var task := pendingTask.value;
      if poll.Failed? {
        pendingTask, pendingTrigger, pendingCutoff := None, None, 0;
        return;
      }
      var pre := EffectiveTokens(View(), all);
      var active := Active(View(), all);
      var droppedChars := TotalChars(active[..Min(pendingCutoff, |active|)]);
      TakeTask();
      compactedCount := compactedCount + pendingCutoff;
      SetActiveChars(Monus(CachedChars(View(), all), droppedChars));
      SetSummary(compactedCount, Some(Summary(poll.text, |task.messages|, pendingCutoff)));
      var post := EffectiveTokens(View(), all);
      Record(Event(pendingTrigger.GetOr(ModeLabel(mode)), pre, post, Monus(pre, post), None,
                   |task.messages|, ByteLen(poll.text), Monus(totalTurns, compactedCount)));
      turnsSinceLastCompact := 0;
      ClearTask();
    }

    method MessagesForApiWith(all: seq<Message>, poll: Poll) returns (payload: seq<Message>)
      modifies this
      ensures View() == CheckAndApply(old(View()), all, poll)
      ensures payload == Payload(View(), all)
    {
      CheckAndApplyCompactionWith(all, poll);
      var active := Active(View(), all);
      if activeSummary.None? {
        return active;
      }
      payload := [SummaryMessage(activeSummary.value)];
      payload := payload + active;
    }
  }
}
