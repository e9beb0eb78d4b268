/** The incremental character cache under every operation: when the token estimate is the one computed from scratch, and
    by how much it is off otherwise. */
module CompactionCache {
  import opened Wrappers
  import opened Messages
  import opened CompactionCore
  import opened CompactionModel
  import opened CompactionRuns

  /** The estimate uses the exact size of the messages sent. */
  ghost predicate Exact(w: World) {
    CachedChars(w.m, w.t) == TotalChars(Active(w.m, w.t))
  }

  // ---- Runs of counted operations ----

  ghost predicate CacheInv(w: World) {
    && w.m.compacted <= |w.t|
    && !w.m.dirty
    && (w.m.totalTurns == |w.t| ==> w.m.activeChars == TotalChars(Active(w.m, w.t)))
    && (w.m.totalTurns < |w.t| ==> w.m.compacted < |w.t|)
  }

  /** The new count stays within the transcript, and inside it while some messages have not been announced. */
  ghost predicate CountInside(w: World) {
    var count := w.m.compacted + w.m.pendingCutoff;
    count < |w.t| || count == |w.t| <= w.m.totalTurns
  }

  /** A rewind stays behind the count, and does not by chance bring the transcript back in step with a count of turns
      that was behind, unless the cache happens to be right there. */
  ghost predicate RewindCounted(w: World, len: nat) {
    var left := Min(len, |w.t|);
    && w.m.compacted <= left
    && (w.m.totalTurns < left ==> w.m.compacted < left)
    && (w.m.totalTurns == left < |w.t| ==> w.m.activeChars == TotalChars(w.t[w.m.compacted..left]))
  }

  /** The cache is not shown an inserted message either. Only where the turns are one ahead of the messages does the
      insertion bring them in step, and then the cache must happen to be right. */
  ghost predicate InsertCounted(w: World, after: nat, message: Message) {
    after < |w.t| && w.m.totalTurns == |w.t| + 1 ==>
      w.m.activeChars == TotalChars(Active(w.m, w.t)) + MessageChars(NewlySent(w, after, message))
  }

  /** What the cache needs of an operation: messages are announced with their content, a task is not applied past the
      end, history is seeded behind a compacted part without characters, a rewind stays behind the count, and no
      insertion by chance brings turns and messages back in step. */
  ghost predicate CountedOp(w: World, op: Op) {
    && !op.AppendUnseen?
    && (Applies(w, op) ==> CountInside(w))
    && (op.Seed? ==> w.m.compacted <= |op.history| && TotalChars(op.history[..w.m.compacted]) == 0)
    && (op.Rewind? ==> RewindCounted(w, op.len))
    && (op.Insert? ==> InsertCounted(w, op.after, op.message))
  }

  lemma AppendKeepsCache(w: World, message: Message)
    requires CacheInv(w)
    ensures CacheInv(Step(w, Append(message)))
  {
    assert (w.t + [message])[w.m.compacted..] == w.t[w.m.compacted..] + [message];
    TotalCharsConcat(w.t[w.m.compacted..], [message]);
  }

  /** The fields of the character cache after a task was applied. */
  lemma AppliedChars(s: State, t: seq<Message>, text: string)
    requires s.pending.Some? && s.compacted + s.pendingCutoff <= |t|
    ensures var v := Applied(s, t, text);
            && v.pending.None? && !v.dirty && v.totalTurns == s.totalTurns
            && v.compacted == s.compacted + s.pendingCutoff && Active(v, t) == Active(s, t)[s.pendingCutoff..]
            && v.activeChars == Monus(if Recounts(s, t) then TotalChars(Active(v, t)) else s.activeChars,
                                      TotalChars(Active(s, t)[..s.pendingCutoff]))
  {
    assert t[s.compacted..][s.pendingCutoff..] == t[s.compacted + s.pendingCutoff..];
  }

  /** An apply finds the cache dirty, or the count of turns out of step with the transcript. */
  ghost predicate Recounts(s: State, t: seq<Message>) {
    s.dirty || Monus(s.totalTurns, s.compacted + s.pendingCutoff) != Monus(|t|, s.compacted + s.pendingCutoff)
  }

  lemma ActiveSplits(s: State, t: seq<Message>, cut: nat)
    requires cut <= |Active(s, t)|
    ensures TotalChars(Active(s, t)) == TotalChars(Active(s, t)[..cut]) + TotalChars(Active(s, t)[cut..])
  {
    assert Active(s, t) == Active(s, t)[..cut] + Active(s, t)[cut..];
    TotalCharsConcat(Active(s, t)[..cut], Active(s, t)[cut..]);
  }

  lemma ApplyCacheIff(w: World, text: string)
    requires CacheInv(w) && w.m.pending.Some?
    ensures CacheInv(Step(w, PollTask(Finished(text)))) <==> CountInside(w)
  {
    ApplyAddsCutoff(w, text);
    if w.m.compacted + w.m.pendingCutoff <= |w.t| {
      AppliedChars(w.m, w.t, text);
      ActiveSplits(w.m, w.t, w.m.pendingCutoff);
    }
  }

  lemma HardKeepsCache(w: World, notice: string)
    requires CacheInv(w)
    ensures CacheInv(HardStep(w, notice))
  {
    HardStepAdvances(w, notice);
    if HardRefusal(w.m, w.t).None? {
      HardCompactionKeepsRecent(w.m, w.t, notice);
    }
  }

  lemma StartKeepsCache(w: World, sense: Sense)
    requires CacheInv(w)
    ensures CacheInv(StartIfDue(w, sense))
  {
    if WillStart(w.m, w.t, sense) {
      CutoffInRange(w.m, w.t, sense.relevance);
    }
  }

  lemma SeedCacheIff(w: World, history: seq<Message>)
    ensures CacheInv(Step(w, Seed(history))) <==>
            w.m.compacted <= |history| && TotalChars(history[..w.m.compacted]) == 0
  {
    if w.m.compacted <= |history| {
      assert history == history[..w.m.compacted] + history[w.m.compacted..];
      TotalCharsConcat(history[..w.m.compacted], history[w.m.compacted..]);
    }
  }

  lemma RewindCacheIff(w: World, len: nat)
    requires CacheInv(w)
    ensures CacheInv(Step(w, Rewind(len))) <==> RewindCounted(w, len)
  {
    var left := Min(len, |w.t|);
    assert left == |w.t| ==> w.t[..left] == w.t;
    if w.m.compacted <= left {
      assert w.t[..left][w.m.compacted..] == w.t[w.m.compacted..left];
    }
  }

  lemma CharsAmong(t: seq<Message>, after: nat, message: Message, c: nat)
    requires c <= after + 1 <= |t|
    ensures TotalChars((t[..after + 1] + [message] + t[after + 1..])[c..]) == TotalChars(t[c..]) + MessageChars(message)
  {
    var before, behind := t[c..after + 1], t[after + 1..];
    InsertedBehind(t, after, message, c);
    TotalCharsConcat(before, behind);
    TotalCharsConcat(before, [message]);
    TotalCharsConcat(before + [message], behind);
    assert TotalChars([message]) == MessageChars(message);
  }

  lemma CharsBelow(t: seq<Message>, after: nat, message: Message, c: nat)
    requires after + 1 < c <= |t|
    ensures TotalChars((t[..after + 1] + [message] + t[after + 1..])[c..])
            == TotalChars(t[c..]) + MessageChars(t[c - 1])
  {
    InsertedBelow(t, after, message, c);
    TotalCharsConcat([t[c - 1]], t[c..]);
    assert TotalChars([t[c - 1]]) == MessageChars(t[c - 1]);
  }

  lemma InsertedSplice(w: World, after: nat, message: Message)
    requires after < |w.t|
    ensures var v := Step(w, Insert(after, message));
            v.m == w.m && v.t == w.t[..after + 1] + [message] + w.t[after + 1..] && |v.t| == |w.t| + 1
  {
  }

  lemma InsertedTotal(w: World, v: World, after: nat, message: Message)
    requires w.m.compacted <= |w.t| && after < |w.t|
    requires v.m == w.m && v.t == w.t[..after + 1] + [message] + w.t[after + 1..]
    ensures TotalChars(Active(v.m, v.t)) == TotalChars(Active(w.m, w.t)) + MessageChars(NewlySent(w, after, message))
  {
    if w.m.compacted <= after + 1 {
      CharsAmong(w.t, after, message, w.m.compacted);
    } else {
      CharsBelow(w.t, after, message, w.m.compacted);
    }
  }

  lemma InsertedChars(w: World, after: nat, message: Message)
    requires w.m.compacted <= |w.t| && after < |w.t|
    ensures var v := Step(w, Insert(after, message));
            TotalChars(Active(v.m, v.t)) == TotalChars(Active(w.m, w.t)) + MessageChars(NewlySent(w, after, message))
  {
    InsertedSplice(w, after, message);
    InsertedTotal(w, Step(w, Insert(after, message)), after, message);
  }

  lemma InsertCacheIff(w: World, after: nat, message: Message)
    requires CacheInv(w)
    ensures CacheInv(Step(w, Insert(after, message))) <==> InsertCounted(w, after, message)
  {
    if after < |w.t| {
      InsertedChars(w, after, message);
    }
  }

  lemma UnseenBreaksCache(w: World, message: Message)
    ensures !CacheInv(Step(w, AppendUnseen(message)))
  {
  }

  lemma EnsureKeepsCache(w: World, sense: Sense, notice: string)
    requires CacheInv(w)
    ensures CacheInv(Step(w, Ensure(sense, notice)))
  {
    StartKeepsCache(w, sense);
    HardKeepsCache(StartIfDue(w, sense), notice);
  }

  lemma PollCacheIff(w: World, op: Op)
    requires CacheInv(w) && op.PollTask?
    ensures CacheInv(Step(w, op)) <==> CountedOp(w, op)
  {
    if Applies(w, op) {
      ApplyCacheIff(w, op.poll.text);
    }
  }

  lemma OtherKeepsCache(w: World, op: Op)
    requires CacheInv(w)
    requires op.Observe? || op.PushTokens? || op.PushEmbedding? || op.SetMode? || op.SetBudget? || op.Manual?
             || op.Restore? || op.Reset?
    ensures CacheInv(Step(w, op))
  {
  }

  /** One operation keeps the cache exact and clean exactly when it is a counted one in the state it meets. */
  lemma StepKeepsCacheIff(w: World, op: Op)
    requires CacheInv(w)
    ensures CacheInv(Step(w, op)) <==> CountedOp(w, op)
  {
    match op {
      case Append(message) => AppendKeepsCache(w, message);
      case AppendUnseen(message) => UnseenBreaksCache(w, message);
      case Ensure(sense, notice) => EnsureKeepsCache(w, sense, notice);
      case Hard(notice) => HardKeepsCache(w, notice);
      case PollTask(_) => PollCacheIff(w, op);
      case Seed(history) => SeedCacheIff(w, history);
      case Rewind(len) => RewindCacheIff(w, len);
      case Insert(after, message) => InsertCacheIff(w, after, message);
      case _ => OtherKeepsCache(w, op);
    }
  }

  lemma InvIsExact(w: World)
    requires CacheInv(w)
    ensures Exact(w)
  {
  }

  /** Over every run: the cache stays exact and clean exactly when every operation is a counted one, and the token
      estimate is then the one computed from scratch. Hard compactions may come at any time. */
  lemma {:induction false} CacheExactOverRuns(w: World, ops: seq<Op>)
    requires CacheInv(w)
    ensures Always(w, ops, v => CacheInv(v)) <==> Follows(w, ops, (v, op) => CountedOp(v, op))
    ensures Follows(w, ops, (v, op) => CountedOp(v, op)) ==>
              var v := Run(w, ops);
              TokenEstimate(v.m, v.t) == EstimateTokens(v.m.summary, TotalChars(Active(v.m, v.t)), v.m.budget)
  {
    if ops != [] {
      var before := ops[..|ops| - 1];
      CacheExactOverRuns(w, before);
      if Always(w, before, v => CacheInv(v)) {
        StepKeepsCacheIff(Run(w, before), ops[|ops| - 1]);
      }
    }
    if Always(w, ops, v => CacheInv(v)) {
      InvIsExact(Run(w, ops));
    }
  }

  lemma InitialWorldIsCounted(mode: Mode, config: Config)
    ensures CacheInv(InitialWorld(mode, config))
  {
  }

  /** History that was seeded is counted whole: the estimate is exact when nothing compacted has characters, and only
      then. */
  lemma SeedIsExactIffNothingCompacted(w: World, history: seq<Message>)
    requires w.m.compacted <= |history|
    ensures Exact(Step(w, Seed(history))) <==> TotalChars(history[..w.m.compacted]) == 0
  {
    assert history == history[..w.m.compacted] + history[w.m.compacted..];
    TotalCharsConcat(history[..w.m.compacted], history[w.m.compacted..]);
  }

  /** A rewind leaves the cache as it was. Behind the count every estimate is then a recount, because the turns
      outnumber the messages; below the count the stale cache is used when the active count happens to equal what is
      left. */
  lemma RewindIsExactIff(w: World, len: nat)
    requires CacheInv(w) && w.m.totalTurns == |w.t| && len <= |w.t|
    ensures Exact(Step(w, Rewind(len))) <==>
              w.m.compacted <= len || |w.t| - w.m.compacted != len
              || TotalChars(w.t[w.m.compacted..]) == TotalChars(w.t[..len])
  {
    if w.m.compacted <= len {
      assert len == |w.t| ==> w.t[..len] == w.t;
    }
  }

  lemma WithoutLast(t: seq<Message>, c: nat)
    requires c < |t|
    ensures TotalChars(t[..|t| - 1][c..]) + MessageChars(t[|t| - 1]) == TotalChars(t[c..])
  {
    var last := t[|t| - 1];
    assert t[c..] == t[..|t| - 1][c..] + [last];
    TotalCharsConcat(t[..|t| - 1][c..], [last]);
    assert TotalChars([last]) == MessageChars(last);
  }

  /** Two unannounced changes by one message each, `v` after the first and `x` after the second: the first is met by a
      recount, the second brings the cache back into use. */
  lemma BackInStepIsExactIff(w: World, v: World, x: World, gained: nat, lost: nat)
    requires CacheInv(w) && w.m.totalTurns == |w.t| && v.m == w.m == x.m && v.m.compacted <= |v.t|
    requires (|v.t| == |w.t| + 1 || |v.t| + 1 == |w.t|) && |x.t| == |w.t|
    requires TotalChars(Active(x.m, x.t)) + lost == TotalChars(Active(w.m, w.t)) + gained
    ensures Exact(v) && (Exact(x) <==> gained == lost)
  {
  }

  lemma ShortenedTotal(v: World, x: World)
    requires v.m.compacted < |v.t| && x.m == v.m && x.t == v.t[..|v.t| - 1]
    ensures TotalChars(Active(x.m, x.t)) + MessageChars(v.t[|v.t| - 1]) == TotalChars(Active(v.m, v.t))
  {
    WithoutLast(v.t, v.m.compacted);
  }

  lemma LengthenThenShorten(w: World, v: World, x: World, after: nat, message: Message)
    requires CacheInv(w) && w.m.totalTurns == |w.t| && after < |w.t| && v.m == w.m == x.m
    requires v.t == w.t[..after + 1] + [message] + w.t[after + 1..] && x.t == v.t[..|v.t| - 1]
    ensures Exact(v)
    ensures Exact(x) <==> MessageChars(NewlySent(w, after, message)) == MessageChars(v.t[|v.t| - 1])
  {
    InsertedTotal(w, v, after, message);
    ShortenedTotal(v, x);
    BackInStepIsExactIff(w, v, x, MessageChars(NewlySent(w, after, message)), MessageChars(v.t[|v.t| - 1]));
  }

  lemma ShortenThenLengthen(w: World, v: World, x: World, after: nat, message: Message)
    requires CacheInv(w) && w.m.totalTurns == |w.t| && after + 1 < |w.t| && w.m.compacted < |w.t| && v.m == w.m == x.m
    requires v.t == w.t[..|w.t| - 1] && x.t == v.t[..after + 1] + [message] + v.t[after + 1..]
    ensures Exact(v)
    ensures Exact(x) <==> MessageChars(NewlySent(v, after, message)) == MessageChars(w.t[|w.t| - 1])
  {
    ShortenedTotal(w, v);
    InsertedTotal(v, x, after, message);
    BackInStepIsExactIff(w, v, x, MessageChars(NewlySent(v, after, message)), MessageChars(w.t[|w.t| - 1]));
  }

  lemma RewindCuts(w: World, len: nat)
    requires len <= |w.t|
    ensures Step(w, Rewind(len)).m == w.m && Step(w, Rewind(len)).t == w.t[..len]
  {
  }

  /** Behind an insertion every estimate is a recount, until a rewind by one message brings turns and messages back in
      step. The cache is then used, and right exactly when the message that came into the part sent and the one that
      left it are equally long. */
  lemma InsertThenRewindIff(w: World, after: nat, message: Message, inserted: World, rewound: World)
    requires CacheInv(w) && w.m.totalTurns == |w.t| && after < |w.t|
    requires inserted == Step(w, Insert(after, message)) && rewound == Step(inserted, Rewind(|w.t|))
    ensures Exact(inserted) && |inserted.t| == |w.t| + 1
    ensures Exact(rewound) <==> MessageChars(NewlySent(w, after, message)) == MessageChars(inserted.t[|w.t|])
  {
    InsertedSplice(w, after, message);
    RewindCuts(inserted, |w.t|);
    LengthenThenShorten(w, inserted, rewound, after, message);
  }

  /** The same the other way round: a rewind by one message, and an insertion into what is left. */
  lemma RewindThenInsertIff(w: World, after: nat, message: Message, rewound: World, inserted: World)
    requires CacheInv(w) && w.m.totalTurns == |w.t| && after + 1 < |w.t| && w.m.compacted < |w.t|
    requires rewound == Step(w, Rewind(|w.t| - 1)) && inserted == Step(rewound, Insert(after, message))
    ensures Exact(rewound)
    ensures Exact(inserted) <==>
              MessageChars(NewlySent(rewound, after, message)) == MessageChars(w.t[|w.t| - 1])
  {
    RewindCuts(w, |w.t| - 1);
    InsertedSplice(rewound, after, message);
    ShortenThenLengthen(w, rewound, inserted, after, message);
  }

  // ---- A count past the end ----

  lemma AppliedPastEnd(s: State, t: seq<Message>, text: string)
    requires s.pending.Some? && !s.dirty && s.totalTurns == |t| && s.compacted <= |t| < s.compacted + s.pendingCutoff
    requires s.activeChars == TotalChars(Active(s, t))
    ensures var v := Applied(s, t, text);
            && !v.dirty && v.totalTurns == |t| && v.compacted == s.compacted + s.pendingCutoff
            && v.activeChars == Monus(TotalChars(t), TotalChars(Active(s, t)))
  {
    assert Active(s, t)[..|Active(s, t)|] == Active(s, t);
    assert |t| == 0 ==> Active(s, t) == t;
  }

  lemma OvershotCache(w: World, text: string)
    requires CacheInv(w) && w.m.totalTurns == |w.t| && w.m.pending.Some?
    requires w.m.compacted + w.m.pendingCutoff > |w.t|
    ensures var v := Step(w, PollTask(Finished(text)));
            && v.t == w.t && !v.m.dirty && v.m.totalTurns == |w.t|
            && v.m.compacted == w.m.compacted + w.m.pendingCutoff
            && v.m.activeChars == TotalChars(w.t[..w.m.compacted])
  {
    AppliedPastEnd(w.m, w.t, text);
    assert w.t == w.t[..w.m.compacted] + w.t[w.m.compacted..];
    TotalCharsConcat(w.t[..w.m.compacted], w.t[w.m.compacted..]);
  }

  lemma PastEndIsExactIff(v: World, later: seq<Message>)
    requires v.m.compacted > |v.t| == v.m.totalTurns && !v.m.dirty && (v.t == [] ==> v.m.activeChars == 0)
    ensures Exact(Appended(v, later)) <==>
              |v.t| + |later| < v.m.compacted
              || v.m.activeChars + TotalChars(later[..v.m.compacted - |v.t|]) == 0
  {
    var all, below := v.t + later, v.m.compacted - |v.t|;
    assert later == [] ==> all == v.t;
    if |later| >= below {
      assert all[v.m.compacted..] == later[below..];
      assert later == later[..below] + later[below..];
      TotalCharsConcat(later[..below], later[below..]);
    }
  }

  /** A task applied past the end leaves the characters of the messages compacted before it in the cache. The estimate
      is recounted, and so exact, until counted appends reach the count; from then on it is exact only if neither those
      messages nor the appended ones below the count have characters. */
  lemma OvershootIsExactIff(w: World, text: string, later: seq<Message>)
    requires CacheInv(w) && w.m.totalTurns == |w.t| && w.m.pending.Some?
    requires w.m.compacted + w.m.pendingCutoff > |w.t|
    ensures var below := w.m.compacted + w.m.pendingCutoff - |w.t|;
            Exact(Run(Step(w, PollTask(Finished(text))), AppendOps(later))) <==>
              |later| < below || TotalChars(w.t[..w.m.compacted]) + TotalChars(later[..below]) == 0
  {
    OvershotCache(w, text);
    RunAppends(Step(w, PollTask(Finished(text))), later);
    PastEndIsExactIff(Step(w, PollTask(Finished(text))), later);
  }

  // ---- By how much the cache is off, over every run ----

  /** Characters the cache lacks; negative when it has too many. */
  ghost function Lacking(w: World): int {
    TotalChars(Active(w.m, w.t)) - w.m.activeChars
  }

  ghost predicate InRange(w: World, op: Op) {
    && (Applies(w, op) ==> w.m.compacted + w.m.pendingCutoff <= |w.t|)
    && (op.Seed? ==> w.m.compacted <= |op.history|)
    && (op.Rewind? ==> w.m.compacted <= op.len)
  }

  /** How one operation changes the lack `e`: unseen content adds to it, hard compactions and loads settle it, and an
      apply that has to recount lacks the compacted characters instead. */
  ghost function NextLack(w: World, op: Op, e: int): int
    requires w.m.compacted <= |w.t| && InRange(w, op)
  {
    match op
    case AppendUnseen(message) => e + MessageChars(message)
    case Ensure(_, _) => if GoesThrough(w, op) then 0 else e
    case Hard(_) => if GoesThrough(w, op) then 0 else e
    case PollTask(_) =>
      if !Applies(w, op) then e
      else
        var active, cut := Active(w.m, w.t), w.m.pendingCutoff;
        Min(TotalChars(active[cut..]), if Recounts(w.m, w.t) then TotalChars(active[..cut]) else e)
    case Restore(_, _) => 0
    case Seed(history) => 0 - TotalChars(history[..w.m.compacted])
    case Reset(_, _) => TotalChars(w.t)
    case Rewind(len) => e - TotalChars(w.t[Min(len, |w.t|)..])
    case Insert(after, message) => if after < |w.t| then e + MessageChars(NewlySent(w, after, message)) else e
    case _ => e
  }

  lemma AppendMovesLack(w: World, message: Message)
    requires w.m.compacted <= |w.t|
    ensures Lacking(Step(w, Append(message))) == Lacking(w)
    ensures Lacking(Step(w, AppendUnseen(message))) == Lacking(w) + MessageChars(message)
  {
    assert (w.t + [message])[w.m.compacted..] == w.t[w.m.compacted..] + [message];
    TotalCharsConcat(w.t[w.m.compacted..], [message]);
    assert TotalChars([message]) == MessageChars(message);
  }

  lemma HardSettlesLack(w: World, notice: string)
    requires w.m.compacted <= |w.t|
    ensures HardStep(w, notice).m.compacted <= |w.t|
    ensures Lacking(HardStep(w, notice)) == if HardRefusal(w.m, w.t).None? then 0 else Lacking(w)
  {
    HardStepAdvances(w, notice);
    if HardRefusal(w.m, w.t).None? {
      HardCompactionKeepsRecent(w.m, w.t, notice);
    }
  }

  lemma StartKeepsLack(w: World, sense: Sense)
    ensures var v := StartIfDue(w, sense);
            && v.t == w.t && v.m.compacted == w.m.compacted && v.m.activeChars == w.m.activeChars
            && v.m.dirty == w.m.dirty
            && v.m.totalTurns == w.m.totalTurns
  {
    if WillStart(w.m, w.t, sense) {
      CutoffInRange(w.m, w.t, sense.relevance);
    }
  }

  lemma ApplyMovesLack(w: World, text: string)
    requires w.m.pending.Some? && w.m.compacted + w.m.pendingCutoff <= |w.t|
    ensures var v := Step(w, PollTask(Finished(text)));
            && v.m.compacted <= |v.t|
            && Lacking(v) == NextLack(w, PollTask(Finished(text)), Lacking(w))
  {
    ApplyAddsCutoff(w, text);
    AppliedChars(w.m, w.t, text);
    ActiveSplits(w.m, w.t, w.m.pendingCutoff);
  }

  lemma SeedMovesLack(w: World, history: seq<Message>)
    requires w.m.compacted <= |history|
    ensures Lacking(Step(w, Seed(history))) == 0 - TotalChars(history[..w.m.compacted])
  {
    assert history == history[..w.m.compacted] + history[w.m.compacted..];
    TotalCharsConcat(history[..w.m.compacted], history[w.m.compacted..]);
  }

  lemma RewindMovesLack(w: World, len: nat)
    requires w.m.compacted <= |w.t| && w.m.compacted <= len
    ensures Lacking(Step(w, Rewind(len))) == Lacking(w) - TotalChars(w.t[Min(len, |w.t|)..])
  {
    var left := Min(len, |w.t|);
    assert w.t[..left][w.m.compacted..] == w.t[w.m.compacted..left];
    assert w.t[w.m.compacted..] == w.t[w.m.compacted..left] + w.t[left..];
    TotalCharsConcat(w.t[w.m.compacted..left], w.t[left..]);
  }

  /** The operation leaves the world's counts inside the transcript and its lack as computed. */
  ghost predicate LackMoves(w: World, op: Op)
    requires w.m.compacted <= |w.t| && InRange(w, op)
  {
    Step(w, op).m.compacted <= |Step(w, op).t| && Lacking(Step(w, op)) == NextLack(w, op, Lacking(w))
  }

  lemma AppendStep(w: World, op: Op)
    requires w.m.compacted <= |w.t| && (op.Append? || op.AppendUnseen?)
    ensures LackMoves(w, op)
  {
    AppendMovesLack(w, op.message);
  }

  /** What the start and the possible hard compaction of one call do to count and lack. */
  lemma EnsureMovesLack(w: World, sense: Sense, notice: string)
    requires w.m.compacted <= |w.t|
    ensures var v := Step(w, Ensure(sense, notice));
            && v.m.compacted <= |v.t|
            && Lacking(v) == if GoesThrough(w, Ensure(sense, notice)) then 0 else Lacking(w)
  {
    var started := StartIfDue(w, sense);
    StartKeepsLack(w, sense);
    HardSettlesLack(started, notice);
    assert Lacking(started) == Lacking(w);
    assert Step(w, Ensure(sense, notice)) ==
           if Critical(started.m, w.t) then HardStep(started, notice) else started;
  }

  lemma EnsureStep(w: World, op: Op)
    requires w.m.compacted <= |w.t| && op.Ensure?
    ensures LackMoves(w, op)
  {
    EnsureMovesLack(w, op.sense, op.notice);
  }

  lemma HardOpStep(w: World, op: Op)
    requires w.m.compacted <= |w.t| && op.Hard?
    ensures LackMoves(w, op)
  {
    HardSettlesLack(w, op.notice);
  }

  lemma PollStep(w: World, op: Op)
    requires w.m.compacted <= |w.t| && InRange(w, op) && op.PollTask?
    ensures LackMoves(w, op)
  {
    if Applies(w, op) {
      ApplyMovesLack(w, op.poll.text);
    }
  }

  lemma ManualKeepsCounts(s: State, t: seq<Message>)
    ensures Force(s, t).compacted == s.compacted && Force(s, t).activeChars == s.activeChars
  {
  }

  lemma ManualStep(w: World, op: Op)
    requires w.m.compacted <= |w.t| && op.Manual?
    ensures LackMoves(w, op)
  {
    ManualKeepsCounts(w.m, w.t);
    assert Step(w, op).m == Force(w.m, w.t) && Step(w, op).t == w.t;
  }

  lemma RestoreStep(w: World, op: Op)
    requires w.m.compacted <= |w.t| && op.Restore?
    ensures LackMoves(w, op)
  {
  }

  lemma ResetStep(w: World, op: Op)
    requires w.m.compacted <= |w.t| && op.Reset?
    ensures LackMoves(w, op)
  {
    assert Active(Step(w, op).m, w.t) == w.t;
  }

  lemma SeedStep(w: World, op: Op)
    requires w.m.compacted <= |w.t| && InRange(w, op) && op.Seed?
    ensures LackMoves(w, op)
  {
    SeedMovesLack(w, op.history);
  }

  lemma RewindStep(w: World, op: Op)
    requires w.m.compacted <= |w.t| && InRange(w, op) && op.Rewind?
    ensures LackMoves(w, op)
  {
    RewindMovesLack(w, op.len);
  }

  lemma InsertStep(w: World, op: Op)
    requires w.m.compacted <= |w.t| && op.Insert?
    ensures LackMoves(w, op)
  {
    if op.after < |w.t| {
      InsertedChars(w, op.after, op.message);
    }
  }

  lemma FieldStep(w: World, op: Op)
    requires w.m.compacted <= |w.t|
    requires op.Observe? || op.PushTokens? || op.PushEmbedding? || op.SetMode? || op.SetBudget?
    ensures LackMoves(w, op)
  {
  }

  lemma StepMovesLack(w: World, op: Op)
    requires w.m.compacted <= |w.t| && InRange(w, op)
    ensures LackMoves(w, op)
  {
    match op {
      case Append(_) => AppendStep(w, op);
      case AppendUnseen(_) => AppendStep(w, op);
      case Ensure(_, _) => EnsureStep(w, op);
      case Hard(_) => HardOpStep(w, op);
      case PollTask(_) => PollStep(w, op);
      case Manual => ManualStep(w, op);
      case Restore(_, _) => RestoreStep(w, op);
      case Seed(_) => SeedStep(w, op);
      case Reset(_, _) => ResetStep(w, op);
      case Rewind(_) => RewindStep(w, op);
      case Insert(_, _) => InsertStep(w, op);
      case _ => FieldStep(w, op);
    }
  }

  /** The lack after a run, from the operations and what they meet. */
  ghost function LackAfter(w: World, ops: seq<Op>): int
    requires w.m.compacted <= |w.t| && Follows(w, ops, (v, op) => InRange(v, op))
  {
    if ops == [] then Lacking(w)
    else
      var before := ops[..|ops| - 1];
      RunStaysInside(w, before);
      NextLack(Run(w, before), ops[|ops| - 1], LackAfter(w, before))
  }

  lemma {:induction false} RunStaysInside(w: World, ops: seq<Op>)
    requires w.m.compacted <= |w.t| && Follows(w, ops, (v, op) => InRange(v, op))
    ensures Run(w, ops).m.compacted <= |Run(w, ops).t|
  {
    if ops != [] {
      RunStaysInside(w, ops[..|ops| - 1]);
      StepMovesLack(Run(w, ops[..|ops| - 1]), ops[|ops| - 1]);
    }
  }

  /** The estimate is made from a recount rather than from the cache. */
  ghost predicate Recounted(w: World) {
    w.m.dirty || ActiveCount(w.m) != |Active(w.m, w.t)|
  }

  /** Over every run within range, whatever is announced or applied when: the cache lacks exactly this much, and the
      estimate is exact exactly when it is recounted or nothing is lacking. */
  lemma {:induction false} CacheLackOverRuns(w: World, ops: seq<Op>)
    requires w.m.compacted <= |w.t| && Follows(w, ops, (v, op) => InRange(v, op))
    ensures Lacking(Run(w, ops)) == LackAfter(w, ops)
    ensures Exact(Run(w, ops)) <==> Recounted(Run(w, ops)) || LackAfter(w, ops) == 0
  {
    if ops != [] {
      var before := ops[..|ops| - 1];
      RunStaysInside(w, before);
      CacheLackOverRuns(w, before);
      StepMovesLack(Run(w, before), ops[|ops| - 1]);
    }
  }

  // ---- Content the manager was not shown ----

  predicate OnlyAppends(ops: seq<Op>) {
    forall k :: 0 <= k < |ops| ==> ops[k].Append? || ops[k].AppendUnseen?
  }

  /** The characters of the messages announced without their content. */
  function UnseenChars(ops: seq<Op>): nat {
    if ops == [] then 0
    else
      var last := ops[|ops| - 1];
      UnseenChars(ops[..|ops| - 1]) + if last.AppendUnseen? then MessageChars(last.message) else 0
  }

  lemma {:induction false} AppendsLack(w: World, ops: seq<Op>)
    requires w.m.compacted <= |w.t| == w.m.totalTurns && OnlyAppends(ops)
    ensures var v := Run(w, ops);
            && Lacking(v) == Lacking(w) + UnseenChars(ops)
            && v.m.compacted <= |v.t| == v.m.totalTurns
            && (ops != [] ==> (v.m.dirty <==> ops[|ops| - 1].AppendUnseen?))
  {
    if ops != [] {
      AppendsLack(w, ops[..|ops| - 1]);
      AppendMovesLack(Run(w, ops[..|ops| - 1]), ops[|ops| - 1].message);
    }
  }

  /** From an exact cache, appends with and without content in any order: after one with content the estimate is exact
      exactly when all the messages announced without content were empty. */
  lemma UnseenContentStaysMissing(w: World, ops: seq<Op>)
    requires CacheInv(w) && w.m.totalTurns == |w.t|
    requires OnlyAppends(ops) && ops != [] && ops[|ops| - 1].Append?
    ensures Exact(Run(w, ops)) <==> UnseenChars(ops) == 0
  {
    AppendsLack(w, ops);
  }

  /** The shortest such run: one message not shown, one shown. */
  lemma CountedAppendAfterUnseenOne(w: World, unseen: Message, seen: Message)
    requires CacheInv(w) && w.m.totalTurns == |w.t|
    ensures Exact(Run(w, [AppendUnseen(unseen), Append(seen)])) <==> MessageChars(unseen) == 0
  {
    var ops := [AppendUnseen(unseen), Append(seen)];
    UnseenContentStaysMissing(w, ops);
    assert ops[..1] == [AppendUnseen(unseen)] && [AppendUnseen(unseen)][..0] == [];
    assert UnseenChars(ops[..1]) == MessageChars(unseen);
  }

  /** The operations that make up for content that was not shown: hard compactions that go through, restoring,
      resetting, seeding behind a part without characters, applying a task that leaves none, and rewinding or inserting,
      after which turns and messages are out of step and every estimate is a recount. */
  ghost predicate Heals(w: World, op: Op)
    requires w.m.compacted <= |w.t| && InRange(w, op)
  {
    || GoesThrough(w, op)
    || op.Restore?
    || op.Reset?
    || (op.Rewind? && op.len < |w.t|)
    || (op.Insert? && op.after < |w.t|)
    || (op.Seed? && TotalChars(op.history[..w.m.compacted]) == 0)
    || (Applies(w, op) && TotalChars(Active(w.m, w.t)[w.m.pendingCutoff..]) == 0)
  }

  lemma HardStaysInStep(w: World, notice: string)
    ensures HardStep(w, notice).m.totalTurns == w.m.totalTurns && HardStep(w, notice).t == w.t
  {
    HardStepAdvances(w, notice);
  }

  lemma StaysInStep(w: World, op: Op)
    requires w.m.totalTurns == |w.t|
    ensures !op.Reset? && !op.Rewind? && !op.Insert? ==> Step(w, op).m.totalTurns == |Step(w, op).t|
  {
    match op {
      case Ensure(sense, notice) =>
        StartKeepsLack(w, sense);
        HardStaysInStep(StartIfDue(w, sense), notice);
      case Hard(notice) => HardStaysInStep(w, notice);
      case _ =>
    }
  }

  /** After one more counted append the estimate is exact when turns and messages are out of step or nothing is
      lacking. */
  lemma ExactAfterAppendIff(v: World, next: Message)
    requires v.m.compacted <= |v.t|
    ensures Exact(Step(v, Append(next))) <==> v.m.totalTurns != |v.t| || Lacking(v) == 0
  {
    AppendMovesLack(v, next);
  }

  /** The turns and messages after an operation, when they were in step before. */
  lemma OutOfStepIff(w: World, op: Op)
    requires w.m.totalTurns == |w.t|
    ensures Step(w, op).m.totalTurns != |Step(w, op).t| <==>
              (op.Reset? && w.t != []) || (op.Rewind? && op.len < |w.t|) || (op.Insert? && op.after < |w.t|)
  {
    if !op.Reset? && !op.Rewind? && !op.Insert? {
      StaysInStep(w, op);
    }
  }

  lemma LackIsSettledIff(w: World, op: Op)
    requires w.m.compacted <= |w.t| && Lacking(w) > 0 && InRange(w, op)
    requires !op.Reset? && !(op.Rewind? && op.len < |w.t|) && !(op.Insert? && op.after < |w.t|)
    requires !w.m.dirty && w.m.totalTurns == |w.t|
    ensures NextLack(w, op, Lacking(w)) == 0 <==> Heals(w, op)
  {
    assert op.Rewind? ==> w.t[|w.t|..] == [];
  }

  /** While content is missing, an operation followed by a counted append gives an exact estimate exactly when the
      operation is one of those: nothing else ever repairs it. */
  lemma OnlyTheseHeal(w: World, op: Op, next: Message)
    requires w.m.compacted <= |w.t| == w.m.totalTurns && !w.m.dirty && Lacking(w) > 0
    requires InRange(w, op)
    ensures Exact(Step(Step(w, op), Append(next))) <==> Heals(w, op)
  {
    StepMovesLack(w, op);
    ExactAfterAppendIff(Step(w, op), next);
    OutOfStepIff(w, op);
    assert w.t != [];
    if !op.Reset? && !(op.Rewind? && op.len < |w.t|) && !(op.Insert? && op.after < |w.t|) {
      LackIsSettledIff(w, op);
    }
  }

  // ---- Applying a task to a dirty cache ----

  /** Applying a task while the cache is dirty recounts the new suffix and then subtracts the compacted
      characters once more: exact only when one of the two is empty. */
  lemma ApplyWhileDirtySubtractsTwice(w: World, text: string)
    requires w.m.pending.Some? && w.m.dirty && w.m.totalTurns == |w.t|
    requires w.m.compacted + w.m.pendingCutoff <= |w.t|
    ensures var v := Step(w, PollTask(Finished(text)));
            var compactedChars := TotalChars(Active(w.m, w.t)[..w.m.pendingCutoff]);
            && v.m.activeChars == Monus(TotalChars(Active(v.m, v.t)), compactedChars)
            && (Exact(v) <==> compactedChars == 0 || TotalChars(Active(v.m, v.t)) == 0)
  {
    ApplyAddsCutoff(w, text);
    AppliedChars(w.m, w.t, text);
  }

  const SHORT := Message(User, [Text("a")])

  lemma ShortChars()
    ensures MessageChars(SHORT) == 1
  {
    assert SHORT.content[1..] == [];
    assert ByteLen("a") == 1;
  }

  /** Fifteen one-character messages, half the budget in use, and a task started by hand. */
  ghost function HandStarted(config: Config): World {
    Step(CrowdedWorld(config, seq(15, _ => SHORT), 1000), Manual)
  }

  lemma HandStartedIs(config: Config)
    ensures var v := HandStarted(config);
            && v.m.pending.Some? && v.m.pendingCutoff == 5 && v.m.compacted == 0 && v.t == seq(15, _ => SHORT)
            && v.m.totalTurns == 15
  {
    var t := seq(15, _ => SHORT);
    var w := CrowdedWorld(config, t, 1000);
    assert Active(w.m, w.t) == t;
    UniformCuts(t, SHORT, 5);
    assert EffectiveTokens(w.m, w.t) >= 960;
    assert ForceRefusal(w.m, w.t).None?;
  }

  /** A run that gets there with both amounts positive: a task is started by hand, one message comes without its
      content, and the task is applied. Eleven characters are left and six are counted. */
  lemma DirtyApplyIsReachable(config: Config, text: string)
    ensures var setup := Setup(seq(15, _ => SHORT), 1000, 960);
            var v := Run(InitialWorld(Reactive, config), setup + [Manual] + [AppendUnseen(SHORT)]
                                                             + [PollTask(Finished(text))]);
            && TotalChars(Active(v.m, v.t)) == 11 && CachedChars(v.m, v.t) == 6 && !Exact(v)
  {
    var t := seq(15, _ => SHORT);
    var setup := Setup(t, 1000, 960);
    var w0 := InitialWorld(Reactive, config);
    CrowdedIsReachable(config, t, 1000);
    RunSnoc(w0, setup, Manual);
    RunSnoc(w0, setup + [Manual], AppendUnseen(SHORT));
    RunSnoc(w0, setup + [Manual] + [AppendUnseen(SHORT)], PollTask(Finished(text)));
    DirtyApply(config, text);
  }

  lemma DirtyApply(config: Config, text: string)
    ensures var v := Step(Step(HandStarted(config), AppendUnseen(SHORT)), PollTask(Finished(text)));
            TotalChars(Active(v.m, v.t)) == 11 && CachedChars(v.m, v.t) == 6
  {
    HandStartedIs(config);
    ShortChars();
    var dirty := Step(HandStarted(config), AppendUnseen(SHORT));
    var t := dirty.t;
    assert Uniform(t, SHORT) && |t| == 16;
    assert t[0..] == t;
    UniformFacts(t[..5], SHORT);
    UniformFacts(t[5..], SHORT);
    ApplyAddsCutoff(dirty, text);
    ApplyWhileDirtySubtractsTwice(dirty, text);
  }
}
