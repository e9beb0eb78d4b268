/** What the triggers read, over whole runs: each history and flag as a function of the operations that came before. */
module CompactionHistory {
  import opened Wrappers
  import opened Messages
  import opened CompactionCore
  import opened CompactionModel
  import opened CompactionRuns

  /** What the operations say about the manager's memory. */
  datatype Memory = Memory(tokens: seq<nat>, observed: Option<nat>, suppressed: bool, embeddings: nat)

  /** The operation replaces the summary. */
  ghost predicate Compacts(w: World, op: Op) {
    GoesThrough(w, op) || Applies(w, op)
  }

  ghost function NextMemory(w: World, op: Op, memory: Memory): Memory {
    match op
    case Append(_) => memory.(suppressed := false)
    case AppendUnseen(_) => memory.(suppressed := false)
    case Observe(tokens) => memory.(observed := Some(tokens))
    case PushTokens(tokens) => memory.(tokens := memory.tokens + [tokens])
    case PushEmbedding => memory.(embeddings := memory.embeddings + 1)
    case Restore(_, history) => Memory([], None, history != [], 0)
    case Seed(history) => memory.(suppressed := history != [])
    case Reset(_, _) => Memory([], None, false, 0)
    case _ => if Compacts(w, op) then memory.(observed := None) else memory
  }

  /** All snapshots, the last usage reported, whether loaded history still waits for a message, and how many embeddings
      were recorded: since the last load or reset, and for the usage since the last compaction. */
  ghost function Remembered(w: World, ops: seq<Op>): Memory {
    if ops == [] then Memory(w.m.tokenHistory, w.m.observed, w.m.suppressed, w.m.embeddings)
    else
      var before := ops[..|ops| - 1];
      NextMemory(Run(w, before), ops[|ops| - 1], Remembered(w, before))
  }

  function NewestOf(tokens: seq<nat>, n: nat): seq<nat> {
    tokens[Monus(|tokens|, n)..]
  }

  /** The manager keeps the newest twenty snapshots and counts up to ten embeddings. */
  predicate Keeps(m: State, memory: Memory) {
    && m.tokenHistory == NewestOf(memory.tokens, 20)
    && m.observed == memory.observed
    && m.suppressed == memory.suppressed
    && m.embeddings == Min(memory.embeddings, 10)
  }

  lemma PushKeepsNewest(tokens: seq<nat>, kept: seq<nat>, next: nat)
    requires kept == NewestOf(tokens, 20)
    ensures var longer := kept + [next];
            (if |longer| > 20 then longer[1..] else longer) == NewestOf(tokens + [next], 20)
  {
  }

  /** The part of the state that the triggers remember. */
  predicate SameMemory(m: State, v: State) {
    && v.tokenHistory == m.tokenHistory && v.suppressed == m.suppressed && v.embeddings == m.embeddings
    && v.observed == m.observed
  }

  lemma StartKeepsMemory(w: World, sense: Sense)
    ensures SameMemory(w.m, StartIfDue(w, sense).m)
  {
    CutoffInRange(w.m, w.t, sense.relevance);
  }

  lemma HardForgetsUsage(w: World, notice: string)
    ensures var v := HardStep(w, notice).m;
            && SameMemory(w.m.(observed := v.observed), v)
            && v.observed == if HardRefusal(w.m, w.t).None? then None else w.m.observed
  {
    HardStepAdvances(w, notice);
  }

  lemma EnsureMemory(w: World, op: Op)
    requires op.Ensure?
    ensures var v := Step(w, op).m;
            && SameMemory(w.m.(observed := v.observed), v)
            && v.observed == if GoesThrough(w, op) then None else w.m.observed
  {
    StartKeepsMemory(w, op.sense);
    HardForgetsUsage(StartIfDue(w, op.sense), op.notice);
  }

  lemma ManualKeepsMemory(w: World)
    ensures SameMemory(w.m, Step(w, Manual).m)
  {
  }

  lemma PollMemory(w: World, op: Op)
    requires op.PollTask?
    ensures var v := Step(w, op).m;
            && SameMemory(w.m.(observed := v.observed), v)
            && v.observed == if Applies(w, op) then None else w.m.observed
  {
  }

  lemma SameKeeps(m: State, v: State, memory: Memory, observed: Option<nat>)
    requires Keeps(m, memory) && SameMemory(m.(observed := observed), v)
    ensures Keeps(v, memory.(observed := observed))
  {
  }

  lemma CompactingKeepsMemory(w: World, op: Op, memory: Memory)
    requires Keeps(w.m, memory) && (op.Ensure? || op.Hard? || op.PollTask?)
    ensures Keeps(Step(w, op).m, NextMemory(w, op, memory))
  {
    match op {
      case Ensure(_, _) => EnsureMemory(w, op);
      case Hard(notice) => HardForgetsUsage(w, notice);
      case PollTask(_) => PollMemory(w, op);
    }
    SameKeeps(w.m, Step(w, op).m, memory, Step(w, op).m.observed);
  }

  lemma RecordingKeepsMemory(w: World, op: Op, memory: Memory)
    requires Keeps(w.m, memory) && !op.Ensure? && !op.Hard? && !op.PollTask? && !op.Manual?
    ensures Keeps(Step(w, op).m, NextMemory(w, op, memory))
  {
    if op.PushTokens? {
      PushKeepsNewest(memory.tokens, w.m.tokenHistory, op.tokens);
    }
  }

  lemma StepKeepsMemory(w: World, op: Op, memory: Memory)
    requires Keeps(w.m, memory)
    ensures Keeps(Step(w, op).m, NextMemory(w, op, memory))
  {
    if op.Manual? {
      ManualKeepsMemory(w);
    } else if op.Ensure? || op.Hard? || op.PollTask? {
      CompactingKeepsMemory(w, op, memory);
    } else {
      RecordingKeepsMemory(w, op, memory);
    }
  }

  /** Over every run: the snapshots are the newest twenty since the last load or reset, the reported usage is the last
      one since the last compaction, load or reset, and automatic starts are suppressed exactly between the loading of
      some history and the next message or reset. */
  lemma {:induction false} MemoryOverRuns(w: World, ops: seq<Op>)
    requires |w.m.tokenHistory| <= 20 && w.m.embeddings <= 10
    ensures Keeps(Run(w, ops).m, Remembered(w, ops))
  {
    if ops != [] {
      var before := ops[..|ops| - 1];
      MemoryOverRuns(w, before);
      StepKeepsMemory(Run(w, before), ops[|ops| - 1], Remembered(w, before));
    }
  }
}
