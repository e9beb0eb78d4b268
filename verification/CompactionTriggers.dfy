/** When a compaction starts, said without the functions that decide it: the growth estimate as a weighted mean, and
    each trigger as a condition on tokens, budget and histories. */
module CompactionTriggers {
  import opened Wrappers
  import opened Messages
  import opened CompactionCore
  import opened CompactionModel
  import opened CompactionRuns

  // ---- Projected growth ----

  function Pow(x: real, k: nat): real {
    if k == 0 then 1.0 else x * Pow(x, k - 1)
  }

  /** What the growth `k` pairs before the newest counts for, of `pairs` pairs. The oldest pair starts the mean. */
  function Weight(alpha: real, pairs: nat, k: nat): real
    requires k < pairs
  {
    if k == pairs - 1 then Pow(1.0 - alpha, k) else alpha * Pow(1.0 - alpha, k)
  }

  /** The weighted sum of the newest `m` growths. */
  function WeightedGrowth(growths: seq<real>, alpha: real, m: nat): real
    requires m <= |growths|
  {
    if m == 0 then 0.0
    else WeightedGrowth(growths, alpha, m - 1) + Weight(alpha, |growths|, m - 1) * growths[|growths| - m]
  }

  function WeightSum(alpha: real, pairs: nat, m: nat): real
    requires m <= pairs
  {
    if m == 0 then 0.0 else WeightSum(alpha, pairs, m - 1) + Weight(alpha, pairs, m - 1)
  }

  lemma TakeOff(whole: real, taken: real, p: real, alpha: real, last: real, rest: real, blended: real, more: real,
                q: real)
    requires whole == taken + p * blended && Follows(alpha, last, rest, blended)
    requires more == taken + alpha * p * last && q == (1.0 - alpha) * p
    ensures whole == more + q * rest
  {
    calc {
      p * blended;
      p * (alpha * last) + p * ((1.0 - alpha) * rest);
      alpha * p * last + (1.0 - alpha) * p * rest;
    }
  }

  /** Estimates, growths, powers and weighted sums that belong together; `estimates[i]` is the one after `i + 1`
      pairs. */
  predicate Smoothing(alpha: real, growths: seq<real>, estimates: seq<real>, powers: seq<real>, sums: seq<real>) {
    |estimates| == |growths| && Chain(alpha, growths, estimates) && Scales(1.0 - alpha, powers)
    && Adds(alpha, growths, powers, sums)
  }

  /** Taking the newest `j` growths off the recursion. */
  lemma {:induction false} NewestTakenOff(alpha: real, growths: seq<real>, estimates: seq<real>, powers: seq<real>,
                                          sums: seq<real>, j: nat)
    requires Smoothing(alpha, growths, estimates, powers, sums) && j < |growths|
    ensures estimates[|growths| - 1] == sums[j] + powers[j] * estimates[|growths| - 1 - j]
  {
    if j > 0 {
      var at := |growths| - j;
      NewestTakenOff(alpha, growths, estimates, powers, sums, j - 1);
      TakeOff(estimates[|growths| - 1], sums[j - 1], powers[j - 1], alpha, growths[at], estimates[at - 1],
              estimates[at], sums[j], powers[j]);
    }
  }

  /** By how much the second is above the first, if it is. */
  function Rise(before: nat, after: nat): real {
    if after > before then (after - before) as real else 0.0
  }

  lemma GrowthIsRise(before: nat, after: nat)
    ensures Growth(before, after) == Rise(before, after)
  {
  }

  function Growths(history: seq<nat>): (r: seq<real>)
    requires history != []
    ensures |r| == |history| - 1
  {
    seq(|history| - 1, i requires 0 <= i < |history| - 1 => Rise(history[i], history[i + 1]))
  }

  lemma EstimateStep(history: seq<nat>, alpha: real, n: nat, before: real, after: real)
    requires 3 <= n <= |history| && before == SmoothedGrowth(history[..n - 1], alpha)
    requires Follows(alpha, Rise(history[n - 2], history[n - 1]), before, after)
    ensures after == SmoothedGrowth(history[..n], alpha)
  {
    GrowthIsRise(history[n - 2], history[n - 1]);
    assert history[..n][..n - 1] == history[..n - 1];
  }

  predicate Follows(alpha: real, growth: real, before: real, after: real) {
    after == alpha * growth + (1.0 - alpha) * before
  }

  /** The estimates of the growing histories, each from the one before. */
  predicate Chain(alpha: real, growths: seq<real>, estimates: seq<real>) {
    && 0 < |estimates| <= |growths| && estimates[0] == growths[0]
    && forall i :: 0 < i < |estimates| ==> Follows(alpha, growths[i], estimates[i - 1], estimates[i])
  }

  lemma ChainGrows(alpha: real, growths: seq<real>, estimates: seq<real>, next: real)
    requires Chain(alpha, growths, estimates) && |estimates| < |growths|
    requires Follows(alpha, growths[|estimates|], estimates[|estimates| - 1], next)
    ensures Chain(alpha, growths, estimates + [next])
  {
    var longer := estimates + [next];
    forall i | 0 < i < |longer| ensures Follows(alpha, growths[i], longer[i - 1], longer[i]) {
      assert longer[i - 1] == estimates[i - 1];
      assert i < |estimates| ==> longer[i] == estimates[i];
    }
  }

  lemma ChainsNext(history: seq<nat>, alpha: real, n: nat, estimates: seq<real>, next: real)
    requires 3 <= n <= |history| && |estimates| == n - 2 && Chain(alpha, Growths(history), estimates)
    requires Follows(alpha, Rise(history[n - 2], history[n - 1]), estimates[n - 3], next)
    ensures Chain(alpha, Growths(history), estimates + [next])
  {
    ChainGrows(alpha, Growths(history), estimates, next);
  }

  lemma {:induction false} EstimateChain(history: seq<nat>, alpha: real, n: nat) returns (estimates: seq<real>)
    requires 2 <= n <= |history|
    ensures |estimates| == n - 1 && Chain(alpha, Growths(history), estimates)
    ensures estimates[n - 2] == SmoothedGrowth(history[..n], alpha)
  {
    if n == 2 {
      GrowthIsRise(history[0], history[1]);
      estimates := [Rise(history[0], history[1])];
    } else {
      var shorter := EstimateChain(history, alpha, n - 1);
      var next := alpha * Rise(history[n - 2], history[n - 1]) + (1.0 - alpha) * shorter[n - 3];
      EstimateStep(history, alpha, n, shorter[n - 3], next);
      ChainsNext(history, alpha, n, shorter, next);
      estimates := shorter + [next];
    }
  }

  predicate Scales(x: real, powers: seq<real>) {
    powers != [] && powers[0] == 1.0 && forall i :: 0 < i < |powers| ==> powers[i] == x * powers[i - 1]
  }

  predicate Adds(alpha: real, growths: seq<real>, powers: seq<real>, sums: seq<real>) {
    && |growths| == |powers| == |sums| > 0 && sums[0] == 0.0
    && forall i :: 0 < i < |sums| ==> sums[i] == sums[i - 1] + alpha * powers[i - 1] * growths[|growths| - i]
  }

  lemma PowersScale(x: real, powers: seq<real>)
    requires powers != [] && forall i :: 0 <= i < |powers| ==> powers[i] == Pow(x, i)
    ensures Scales(x, powers)
  {
  }

  lemma SumStep(growths: seq<real>, alpha: real, i: nat)
    requires 0 < i < |growths|
    ensures WeightedGrowth(growths, alpha, i) ==
            WeightedGrowth(growths, alpha, i - 1) + alpha * Pow(1.0 - alpha, i - 1) * growths[|growths| - i]
  {
  }

  lemma SumsAdd(growths: seq<real>, alpha: real, powers: seq<real>, sums: seq<real>)
    requires |growths| == |powers| == |sums| > 0
    requires forall i :: 0 <= i < |powers| ==> powers[i] == Pow(1.0 - alpha, i)
    requires forall i :: 0 <= i < |sums| ==> sums[i] == WeightedGrowth(growths, alpha, i)
    ensures Adds(alpha, growths, powers, sums)
  {
    forall i | 0 < i < |sums| ensures sums[i] == sums[i - 1] + alpha * powers[i - 1] * growths[|growths| - i] {
      SumStep(growths, alpha, i);
    }
  }

  lemma AllTakenOff(alpha: real, growths: seq<real>, estimates: seq<real>, powers: seq<real>, sums: seq<real>,
                    last: nat)
    requires Smoothing(alpha, growths, estimates, powers, sums) && last == |growths| - 1
    ensures estimates[last] == sums[last] + powers[last] * estimates[0]
  {
    NewestTakenOff(alpha, growths, estimates, powers, sums, last);
  }

  lemma SumIsWeighted(growths: seq<real>, alpha: real, last: nat, sum: real, power: real)
    requires last == |growths| - 1 && sum == WeightedGrowth(growths, alpha, last) && power == Pow(1.0 - alpha, last)
    ensures sum + power * growths[0] == WeightedGrowth(growths, alpha, |growths|)
  {
    OldestWeighted(growths, alpha);
  }

  lemma LastIsWeighted(growths: seq<real>, alpha: real, estimates: seq<real>)
    requires growths != [] && |estimates| == |growths| && Chain(alpha, growths, estimates)
    ensures estimates[|growths| - 1] == WeightedGrowth(growths, alpha, |growths|)
  {
    var n := |growths|;
    var powers := seq(n, i requires 0 <= i < n => Pow(1.0 - alpha, i));
    var sums := seq(n, i requires 0 <= i < n => WeightedGrowth(growths, alpha, i));
    PowersScale(1.0 - alpha, powers);
    SumsAdd(growths, alpha, powers, sums);
    AllTakenOff(alpha, growths, estimates, powers, sums, n - 1);
    SumIsWeighted(growths, alpha, n - 1, sums[n - 1], powers[n - 1]);
  }

  /** The estimate is the weighted mean of the growths: the one `k` pairs before the newest counts `alpha` times
      `(1 - alpha)` to the power `k`, and the oldest what is left over. */
  lemma SmoothedIsWeighted(history: seq<nat>, alpha: real)
    requires |history| >= 2
    ensures SmoothedGrowth(history, alpha) == WeightedGrowth(Growths(history), alpha, |history| - 1)
  {
    var estimates := EstimateChain(history, alpha, |history|);
    LastIsWeighted(Growths(history), alpha, estimates);
    assert history[..|history|] == history;
  }

  lemma OldestWeighted(growths: seq<real>, alpha: real)
    requires growths != []
    ensures WeightedGrowth(growths, alpha, |growths|) ==
            WeightedGrowth(growths, alpha, |growths| - 1) + Pow(1.0 - alpha, |growths| - 1) * growths[0]
  {
  }

  lemma {:induction false} WeightsLeaveOver(alpha: real, pairs: nat, m: nat)
    requires m < pairs
    ensures WeightSum(alpha, pairs, m) == 1.0 - Pow(1.0 - alpha, m)
  {
    if m > 0 {
      WeightsLeaveOver(alpha, pairs, m - 1);
    }
  }

  /** The weights add up to one. */
  lemma WeightsSumToOne(alpha: real, pairs: nat)
    requires pairs > 0
    ensures WeightSum(alpha, pairs, pairs) == 1.0
  {
    WeightsLeaveOver(alpha, pairs, pairs - 1);
  }

  // ---- Tokens ----

  /** The bytes of the summary and of the active messages, as the manager counts them. */
  function CountedBytes(w: World): nat {
    (if w.m.summary.Some? then ByteLen(w.m.summary.value.text) else 0) + CachedChars(w.m, w.t)
  }

  /** The estimate is a quarter of the counted bytes, rounded down, and 18,000 more where the budget is at least half
      the default. */
  lemma EstimateIsQuarter(w: World)
    ensures var overhead := if 2 * w.m.budget >= DEFAULT_TOKEN_BUDGET then SYSTEM_OVERHEAD_TOKENS else 0;
            var tokens := TokenEstimate(w.m, w.t) - overhead;
            0 <= 4 * tokens <= CountedBytes(w) < 4 * tokens + 4
  {
  }

  /** Tokens in use: what the provider reported, if that is more than the estimate. */
  predicate InUse(w: World, tokens: nat) {
    && tokens >= TokenEstimate(w.m, w.t)
    && (w.m.observed.Some? ==> tokens >= w.m.observed.value)
    && (tokens == TokenEstimate(w.m, w.t) || w.m.observed == Some(tokens))
  }

  lemma EffectiveIsInUse(w: World, tokens: nat)
    ensures InUse(w, tokens) <==> tokens == EffectiveTokens(w.m, w.t)
  {
  }

  // ---- The triggers ----

  function ActiveLen(w: World): nat {
    |w.t| - ActiveFrom(w)
  }

  /** Nothing forbids a start, and more than ten messages are active. */
  predicate MayStart(w: World) {
    w.m.pending.None? && !w.m.suppressed && ActiveLen(w) > 10
  }

  /** A percentage of the budget is reached; with no budget, by any token at all. */
  predicate Reaches(tokens: nat, budget: nat, percent: nat) {
    if budget == 0 then tokens > 0 else 100 * tokens >= percent * budget
  }

  lemma ReachesIsUsage(tokens: nat, budget: nat, percent: nat, share: real)
    requires 100.0 * share == percent as real
    ensures UsageAtLeast(tokens, budget, share) <==> Reaches(tokens, budget, percent)
    ensures UsageBelow(tokens, budget, share) <==> budget > 0 && 100 * tokens < percent * budget
  {
    assert 100.0 * (share * budget as real) == percent as real * budget as real;
    assert (percent * budget) as real == percent as real * budget as real;
  }

  lemma StartsIff(w: World, sense: Sense, notice: string)
    ensures StartsByItself(w, Ensure(sense, notice)) <==>
              ShouldCompact(w.m, w.t, sense.similarity) && BackgroundCutoff(w.m, w.t, sense.relevance) > 0
  {
  }

  /** In reactive mode a task starts exactly when four fifths of the budget are in use and some safe cut leaves ten
      messages. */
  lemma ReactiveStartIff(w: World, sense: Sense, notice: string, tokens: nat)
    requires w.m.mode.Reactive? && InUse(w, tokens)
    ensures StartsByItself(w, Ensure(sense, notice)) <==>
              && MayStart(w) && Reaches(tokens, w.m.budget, 80)
              && SafeCutoff(Active(w.m, w.t), ActiveLen(w) - 10) > 0
  {
    EffectiveIsInUse(w, tokens);
    ReachesIsUsage(tokens, w.m.budget, 80, 0.8);
  }

  /** A hard compaction is called for exactly when nineteen twentieths are in use. */
  lemma CriticalIff(w: World, tokens: nat)
    requires InUse(w, tokens)
    ensures Critical(w.m, w.t) <==> Reaches(tokens, w.m.budget, 95)
  {
    EffectiveIsInUse(w, tokens);
    ReachesIsUsage(tokens, w.m.budget, 95, 0.95);
  }

  /** A start by hand needs only a tenth of the budget in use, and ignores suppression. */
  lemma ManualStartIff(w: World, tokens: nat)
    requires InUse(w, tokens)
    ensures StartsByHand(w, Manual) <==>
              && w.m.pending.None? && ActiveLen(w) > 10
              && (w.m.budget > 0 ==> 10 * tokens >= w.m.budget)
              && SafeCutoff(Active(w.m, w.t), ActiveLen(w) - 10) > 0
  {
    EffectiveIsInUse(w, tokens);
    ReachesIsUsage(tokens, w.m.budget, 10, 0.1);
  }

  /** The newest snapshot is no higher than the one `window - 1` before it. */
  predicate NoRise(history: seq<nat>, window: nat) {
    0 < window <= |history| && history[|history| - 1] <= history[|history| - window]
  }

  /** The share of the budget is in use, or there is no budget. */
  predicate AtFloor(tokens: nat, budget: nat, floor: real) {
    budget > 0 ==> tokens as real >= floor * budget as real
  }

  /** Enough of the budget, enough snapshots, a rise, and a rest since the last compaction. */
  predicate Ripe(w: World, tokens: nat) {
    && AtFloor(tokens, w.m.budget, w.m.config.proactiveFloor)
    && |w.m.tokenHistory| >= w.m.config.minSamples
    && !NoRise(w.m.tokenHistory, w.m.config.stallWindow)
    && w.m.turnsSinceCompact >= w.m.config.minTurnsBetweenCompactions
  }

  /** The newest snapshot with the growth of the coming turns comes to four fifths of the budget. */
  predicate ComesTo(newest: nat, growth: real, turns: nat, budget: nat) {
    newest as real + growth * turns as real >= 0.8 * budget as real
  }

  lemma ReachesIffComesTo(newest: nat, growth: real, turns: nat, budget: nat)
    ensures ProjectionReaches(newest, growth, turns, budget) <==> ComesTo(newest, growth, turns, budget)
  {
  }

  predicate Projected(w: World) {
    var history := w.m.tokenHistory;
    && |history| >= 2
    && ComesTo(history[|history| - 1], WeightedGrowth(Growths(history), w.m.config.ewmaAlpha, |history| - 1),
               w.m.config.lookaheadTurns, w.m.budget)
  }

  lemma ThresholdIs(w: World, growth: real)
    requires |w.m.tokenHistory| >= 2 && growth == SmoothedGrowth(w.m.tokenHistory, w.m.config.ewmaAlpha)
    ensures var newest := w.m.tokenHistory[|w.m.tokenHistory| - 1];
            GrowthReachesThreshold(w.m) <==> ProjectionReaches(newest, growth, w.m.config.lookaheadTurns, w.m.budget)
  {
  }

  lemma ProjectedIs(w: World, growth: real)
    requires |w.m.tokenHistory| >= 2
    requires growth == WeightedGrowth(Growths(w.m.tokenHistory), w.m.config.ewmaAlpha, |w.m.tokenHistory| - 1)
    ensures var newest := w.m.tokenHistory[|w.m.tokenHistory| - 1];
            Projected(w) <==> ProjectionReaches(newest, growth, w.m.config.lookaheadTurns, w.m.budget)
  {
    ReachesIffComesTo(w.m.tokenHistory[|w.m.tokenHistory| - 1], growth, w.m.config.lookaheadTurns, w.m.budget);
  }

  lemma SameProjection(w: World, growth: real)
    requires |w.m.tokenHistory| >= 2 && growth == SmoothedGrowth(w.m.tokenHistory, w.m.config.ewmaAlpha)
    requires growth == WeightedGrowth(Growths(w.m.tokenHistory), w.m.config.ewmaAlpha, |w.m.tokenHistory| - 1)
    ensures GrowthReachesThreshold(w.m) <==> Projected(w)
  {
    ThresholdIs(w, growth);
    ProjectedIs(w, growth);
  }

  lemma LongProjectedIff(w: World)
    requires |w.m.tokenHistory| >= 2
    ensures GrowthReachesThreshold(w.m) <==> Projected(w)
  {
    SmoothedIsWeighted(w.m.tokenHistory, w.m.config.ewmaAlpha);
    SameProjection(w, WeightedGrowth(Growths(w.m.tokenHistory), w.m.config.ewmaAlpha, |w.m.tokenHistory| - 1));
  }

  lemma ProjectedIff(w: World)
    ensures GrowthReachesThreshold(w.m) <==> Projected(w)
  {
    if |w.m.tokenHistory| >= 2 {
      LongProjectedIff(w);
    }
  }

  lemma FloorIff(tokens: nat, budget: nat, floor: real)
    ensures !UsageBelow(tokens, budget, floor) <==> AtFloor(tokens, budget, floor)
  {
  }

  lemma RipeIff(w: World, tokens: nat)
    requires tokens == EffectiveTokens(w.m, w.t)
    ensures !AntiSignalsBlock(w.m, w.t) <==> w.m.pending.None? && Ripe(w, tokens)
  {
    FloorIff(tokens, w.m.budget, w.m.config.proactiveFloor);
  }

  /** In proactive mode a task starts exactly when the time is ripe and the projection reaches the threshold. */
  lemma ProactiveStartIff(w: World, sense: Sense, notice: string, tokens: nat)
    requires w.m.mode.Proactive? && InUse(w, tokens)
    ensures StartsByItself(w, Ensure(sense, notice)) <==>
              && MayStart(w) && Ripe(w, tokens) && Projected(w)
              && SafeCutoff(Active(w.m, w.t), ActiveLen(w) - 10) > 0
  {
    EffectiveIsInUse(w, tokens);
    RipeIff(w, tokens);
    ProjectedIff(w);
  }

  /** In semantic mode a shift of topic is enough where the projection does not reach, and the cut keeps what is
      relevant. */
  lemma SemanticStartIff(w: World, sense: Sense, notice: string, tokens: nat)
    requires w.m.mode.Semantic? && InUse(w, tokens)
    ensures StartsByItself(w, Ensure(sense, notice)) <==>
              && MayStart(w) && Ripe(w, tokens)
              && ((w.m.embeddings >= 4 && sense.similarity < w.m.config.topicShiftThreshold) || Projected(w))
              && SafeCutoff(Active(w.m, w.t), SemanticCutoff(Active(w.m, w.t), sense.relevance)) > 0
  {
    EffectiveIsInUse(w, tokens);
    RipeIff(w, tokens);
    ProjectedIff(w);
  }

  /** The first relevant message among those that may be dropped. */
  predicate FirstRelevantAt(flags: seq<bool>, limit: nat, i: nat) {
    i < limit && i < |flags| && flags[i] && forall k :: 0 <= k < i ==> !flags[k]
  }

  lemma {:induction false} EarliestIsFirst(flags: seq<bool>, limit: nat, i: nat)
    requires i < limit
    ensures EarliestRelevant(flags, limit) == i <==> FirstRelevantAt(flags, limit, i)
  {
    if flags != [] && !flags[0] {
      if i == 0 {
        assert !FirstRelevantAt(flags, limit, 0);
      } else {
        EarliestIsFirst(flags[1..], limit - 1, i - 1);
        assert FirstRelevantAt(flags, limit, i) <==> FirstRelevantAt(flags[1..], limit - 1, i - 1) by {
          assert forall k :: 0 < k < |flags| ==> flags[k] == flags[1..][k - 1];
          if FirstRelevantAt(flags, limit, i) {
            assert forall k :: 0 <= k < i - 1 ==> flags[1..][k] == flags[k + 1];
          }
        }
      }
    }
  }

  /** The semantic cut is the first relevant message among those before the newest ten, unless there is none or it is
      one of the first two: then all but the newest ten may go. */
  lemma SemanticCutIff(active: seq<Message>, flags: seq<bool>, cut: nat)
    ensures var standard := Monus(|active|, 10);
            SemanticCutoff(active, Scores(flags)) == cut <==>
              (2 <= cut && FirstRelevantAt(flags, standard, cut))
              || (cut == standard && forall i: nat :: 2 <= i ==> !FirstRelevantAt(flags, standard, i))
  {
    var standard := Monus(|active|, 10);
    var earliest := EarliestRelevant(flags, standard);
    if earliest < standard {
      EarliestIsFirst(flags, standard, earliest);
    }
    forall i: nat | FirstRelevantAt(flags, standard, i) ensures earliest == i {
      EarliestIsFirst(flags, standard, i);
    }
  }

  // ---- What is reported and sent ----

  /** What a hard compaction of the started world does to the count. */
  lemma HardMovesCount(s: State, t: seq<Message>, notice: string)
    ensures var v := HardCompact(s, t, notice);
            && v.compacted == s.compacted + (if HardRefusal(s, t).None? then HardCut(Active(s, t), s.budget) else 0)
            && (HardRefusal(s, t).None? ==> v.compacted > s.compacted)
            && v.pending == s.pending && v.pendingTrigger == s.pendingTrigger
  {
  }

  lemma StartKeepsCount(s: State, t: seq<Message>, sense: Sense)
    ensures MaybeStart(s, t, sense).compacted == s.compacted
  {
    CutoffInRange(s, t, sense.relevance);
  }

  /** What the action says of a call is what happened: a hard compaction and how many messages it dropped, else a start
      and what triggered it. */
  predicate Tells(action: Action, s: State, v: State) {
    && (action.HardCompacted? <==> v.compacted > s.compacted)
    && (action.HardCompacted? ==> action.dropped == v.compacted - s.compacted)
    && (action.BackgroundStarted? <==> v.compacted == s.compacted && s.pending.None? && v.pending.Some?)
    && (action.BackgroundStarted? ==> v.pendingTrigger == Some(action.trigger))
  }

  lemma ActionTells(s: State, t: seq<Message>, sense: Sense, notice: string)
    ensures Tells(EnsureFitsAction(s, t, sense), s, EnsureFits(s, t, sense, notice))
  {
    StartKeepsCount(s, t, sense);
    HardMovesCount(MaybeStart(s, t, sense), t, notice);
  }

  /** A report's figures are the usage before and after, and what that saves. */
  predicate Balances(event: Event, before: nat, after: nat) {
    && event.preTokens == before && event.postTokens == after
    && (before >= after ==> event.tokensSaved == before - after)
    && (before < after ==> event.tokensSaved == 0)
  }

  lemma ApplyReports(s: State, t: seq<Message>, text: string)
    requires s.pending.Some?
    ensures var v := Applied(s, t, text);
            && v.lastEvent.Some? && Balances(v.lastEvent.value, EffectiveTokens(s, t), EffectiveTokens(v, t))
            && (s.pendingTrigger.Some? ==> v.lastEvent.value.trigger == s.pendingTrigger.value)
            && v.lastEvent.value.messagesCompacted == |s.pending.value.messages|
            && v.lastEvent.value.summaryChars == ByteLen(text)
            && v.lastEvent.value.messagesDropped.None?
            && v.lastEvent.value.activeMessages == ActiveCount(v)
            && v.summary == Some(Summary(text, |s.pending.value.messages|, s.pendingCutoff)) && v.observed.None?
  {
  }

  lemma HardReports(s: State, t: seq<Message>, notice: string)
    requires HardRefusal(s, t).None?
    ensures var v := HardCompact(s, t, notice);
            && v.lastEvent.Some?
            && Balances(v.lastEvent.value, EffectiveTokens(s, t), EstimateTokens(v.summary, 0, v.budget))
            && v.lastEvent.value.messagesDropped == Some(v.compacted - s.compacted)
            && v.lastEvent.value.messagesCompacted == v.compacted - s.compacted
            && v.lastEvent.value.trigger == "hard_compact"
            && v.summary.Some? && v.lastEvent.value.summaryChars == ByteLen(v.summary.value.text)
            && v.summary.value.coversUpToTurn == v.summary.value.originalTurnCount == v.compacted - s.compacted
            && v.lastEvent.value.activeMessages == ActiveCount(v)
            && v.observed.None?
  {
  }

  /** A task is down under what started it: the mode of the manager, or the user. */
  lemma StartNamesItsTrigger(w: World, op: Op)
    requires Starts(w, op)
    ensures Step(w, op).m.pendingTrigger ==
            Some(if op.Manual? then "manual" else if w.m.mode.Reactive? then "reactive"
                 else if w.m.mode.Proactive? then "proactive" else "semantic")
  {
    if op.Ensure? {
      CutoffInRange(w.m, w.t, op.sense.relevance);
      HardMovesCount(StartIfDue(w, op.sense).m, w.t, op.notice);
    }
  }

  /** Loading a compacted view forgets any task, its trigger and the last report. */
  lemma RestoreForgets(s: State, stored: Stored, t: seq<Message>)
    ensures var v := Restored(s, stored, t);
            && v.pending.None? && v.pendingTrigger.None? && v.pendingCutoff == 0 && v.lastEvent.None?
            && v.summary.Some? && v.summary.value.text == stored.summaryText
  {
  }

  /** The message that stands for the compacted part is a user's and holds the whole text of the summary. */
  lemma SummaryIsSent(summary: Summary)
    ensures var m := SummaryMessage(summary);
            && m.role.User? && |m.content| == 1 && m.content[0].Text?
            && exists i :: 0 <= i <= |m.content[0].text| - |summary.text|
                           && HasAt(m.content[0].text, summary.text, i)
  {
    var head := "## Previous Conversation Summary\n\n";
    var text := SummaryMessage(summary).content[0].text;
    assert text == head + summary.text + "\n\n---\n\n";
    assert HasAt(text, summary.text, |head|);
  }

  predicate HasAt(text: string, part: string, i: int) {
    0 <= i <= |text| - |part| && text[i..i + |part|] == part
  }

  /** A kept count fits when a safe cut is left and the characters kept are at most four to a token of the budget. */
  lemma KeepFitsIff(active: seq<Message>, budget: nat, keep: nat)
    ensures var cut := SafeCutoff(active, Monus(|active|, keep));
            KeepFits(active, budget, keep) <==>
              0 < cut <= |active| && TotalChars(active[cut..]) < 4 * budget + 4
  {
    SafeCutoffBounds(active, Monus(|active|, keep));
  }
}
