/** The cut-off rule that keeps tool results together with the calls they answer. */
module CompactionCore {
  import opened Wrappers
  import opened Messages

  const DEFAULT_TOKEN_BUDGET: nat := 200_000
  const RECENT_TURNS_TO_KEEP: nat := 10
  const MIN_TURNS_TO_KEEP: nat := 2
  const CHARS_PER_TOKEN: nat := 4
  const SYSTEM_OVERHEAD_TOKENS: nat := 18_000
  const TOKEN_HISTORY_WINDOW: nat := 20
  const EMBEDDING_HISTORY_WINDOW: nat := 10
  const SEMANTIC_EMBED_CACHE_CAPACITY: nat := 256

  /** Every tool result kept by a cut at `k` has its tool call kept as well. */
  ghost predicate ClosedFrom(ms: seq<Message>, k: nat)
    requires k <= |ms|
  {
    Answers(ms[k..]) <= Uses(ms[k..])
  }

  /** The largest closed cut at or below `k`, or 0 when there is none. */
  ghost function LargestClosedCut(ms: seq<Message>, k: nat): nat
    requires k <= |ms|
  {
    if k == 0 || ClosedFrom(ms, k) then k else LargestClosedCut(ms, k - 1)
  }

  lemma {:induction false} LargestClosedCutIsLargest(ms: seq<Message>, k: nat)
    requires k <= |ms|
    ensures LargestClosedCut(ms, k) <= k
    ensures LargestClosedCut(ms, k) > 0 ==> ClosedFrom(ms, LargestClosedCut(ms, k))
    ensures forall j :: LargestClosedCut(ms, k) < j <= k ==> !ClosedFrom(ms, j)
  {
    if k > 0 && !ClosedFrom(ms, k) {
      LargestClosedCutIsLargest(ms, k - 1);
    }
  }

  /** What the cut-off search answers for any requested cut, in or out of range. */
  ghost function SafeCutoff(ms: seq<Message>, initial: nat): nat {
    LargestClosedCut(ms, Min(initial, |ms|))
  }

  lemma SafeCutoffBounds(ms: seq<Message>, initial: nat)
    ensures SafeCutoff(ms, initial) <= initial && SafeCutoff(ms, initial) <= |ms|
    ensures SafeCutoff(ms, initial) > 0 ==> ClosedFrom(ms, SafeCutoff(ms, initial))
  {
    LargestClosedCutIsLargest(ms, Min(initial, |ms|));
  }

  /** One message seen by the search: which ids are available and which are still missing. */
  method ScanMessage(m: Message, available: set<string>, missing: set<string>)
    returns (available': set<string>, missing': set<string>)
    requires missing !! available
    ensures available' == available + UsedIn(m.content)
    ensures missing' == (missing + AnsweredIn(m.content)) - available'
  {
    available', missing' := available, missing;
    for i := 0 to |m.content|
      invariant available' == available + UsedIn(m.content[..i])
      invariant missing' == (missing + AnsweredIn(m.content[..i])) - available'
    {
      assert m.content[..i + 1] == m.content[..i] + [m.content[i]];
      match m.content[i] {
        case ToolUse(id, _, _) =>
          available', missing' := available' + {id}, missing' - {id};
        case ToolResult(id, _, _) =>
          if id !in available' {
            missing' := missing' + {id};
          }
        case _ =>
      }
    }
    assert m.content[..|m.content|] == m.content;
  }

  ghost predicate Scanned(kept: seq<Message>, available: set<string>, missing: set<string>) {
    available == Uses(kept) && missing == Answers(kept) - Uses(kept)
  }

  lemma ScannedPrepend(m: Message, kept: seq<Message>)
    ensures Uses([m] + kept) == UsedIn(m.content) + Uses(kept)
    ensures Answers([m] + kept) == AnsweredIn(m.content) + Answers(kept)
  {
    assert ([m] + kept)[1..] == kept;
  }

  lemma NothingMissing(ms: seq<Message>, k: nat, available: set<string>, missing: set<string>)
    requires k <= |ms| && Scanned(ms[k..], available, missing)
    ensures missing == {} <==> ClosedFrom(ms, k)
  {
    assert forall id | id in Answers(ms[k..]) :: id in Uses(ms[k..]) || id in missing;
  }

  /** The forward pass over the part that the requested cut would keep. */
  method ScanKept(kept: seq<Message>) returns (available: set<string>, missing: set<string>)
    ensures Scanned(kept, available, missing)
  {
    available, missing := {}, {};
    for i := 0 to |kept|
      invariant Scanned(kept[..i], available, missing)
    {
      assert kept[..i + 1] == kept[..i] + [kept[i]];
      IdsConcat(kept[..i], [kept[i]]);
      ScannedPrepend(kept[i], []);
      available, missing := ScanMessage(kept[i], available, missing);
    }
    assert kept[..|kept|] == kept;
  }

  /** Scan the kept part once, then walk the cut backwards until nothing is missing. */
  method SafeCompactionCutoff(ms: seq<Message>, initial: nat) returns (cutoff: nat)
    ensures cutoff == SafeCutoff(ms, initial)
    ensures cutoff <= initial && cutoff <= |ms|
    ensures cutoff > 0 ==> ClosedFrom(ms, cutoff)
  {
    SafeCutoffBounds(ms, initial);
    var start := Min(initial, |ms|);
    var available, missing := ScanKept(ms[start..]);
    NothingMissing(ms, start, available, missing);
    var idx := start;
    while idx > 0 && missing != {}
      invariant 0 <= idx <= start
      invariant Scanned(ms[idx..], available, missing)
      invariant missing == {} <==> ClosedFrom(ms, idx)
      invariant LargestClosedCut(ms, start) == LargestClosedCut(ms, idx)
    {
      assert ms[idx - 1..] == [ms[idx - 1]] + ms[idx..];
      ScannedPrepend(ms[idx - 1], ms[idx..]);
      idx := idx - 1;
      available, missing := ScanMessage(ms[idx], available, missing);
      NothingMissing(ms, idx, available, missing);
    }
    return idx;
  }

  // ---- Order: a closed suffix of a well ordered transcript is itself well ordered ----

  /** Every tool result comes after a message holding its tool call. */
  ghost predicate ResultsFollowCalls(ms: seq<Message>) {
    forall j, id :: 0 <= j < |ms| && id in AnsweredIn(ms[j].content)
      ==> exists i :: 0 <= i < j && id in UsedIn(ms[i].content)
  }

  ghost predicate CallIdsUnique(ms: seq<Message>) {
    forall i, j, id :: 0 <= i < |ms| && 0 <= j < |ms| && id in UsedIn(ms[i].content) && id in UsedIn(ms[j].content)
      ==> i == j
  }

  lemma {:induction false} IdsWitness(ms: seq<Message>, id: string)
    ensures id in Uses(ms) <==> exists i :: 0 <= i < |ms| && id in UsedIn(ms[i].content)
    ensures id in Answers(ms) <==> exists i :: 0 <= i < |ms| && id in AnsweredIn(ms[i].content)
  {
    if ms != [] {
      IdsWitness(ms[1..], id);
      var rest := ms[1..];
      assert forall i :: 0 <= i < |rest| ==> rest[i] == ms[i + 1];
      if i :| 0 <= i < |ms| && id in UsedIn(ms[i].content) {
        assert i == 0 || id in UsedIn(rest[i - 1].content);
      }
      if i :| 0 <= i < |ms| && id in AnsweredIn(ms[i].content) {
        assert i == 0 || id in AnsweredIn(rest[i - 1].content);
      }
    }
  }

  /** A closed cut never separates a result from its call, so the kept part can be sent as it is. */
  lemma ClosedSuffixIsOrdered(ms: seq<Message>, k: nat)
    requires k <= |ms| && ResultsFollowCalls(ms) && CallIdsUnique(ms)
    ensures ClosedFrom(ms, k) <==> ResultsFollowCalls(ms[k..])
  {
    var kept := ms[k..];
    if ClosedFrom(ms, k) {
      forall j, id | 0 <= j < |kept| && id in AnsweredIn(kept[j].content)
        ensures exists i :: 0 <= i < j && id in UsedIn(kept[i].content)
      {
        IdsWitness(kept, id);
        var i :| 0 <= i < |kept| && id in UsedIn(kept[i].content);
        assert id in AnsweredIn(ms[k + j].content);
        var i0 :| 0 <= i0 < k + j && id in UsedIn(ms[i0].content);
        assert id in UsedIn(ms[k + i].content);
        assert i0 == k + i;
      }
    }
    if ResultsFollowCalls(kept) {
      forall id | id in Answers(kept) ensures id in Uses(kept) {
        IdsWitness(kept, id);
      }
    }
  }
}
