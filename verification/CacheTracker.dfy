/** Client-side cache tracking: a request breaks the provider's prefix cache when the previous message list
    is not a prefix of the current one. Only hashes are remembered. */
module CacheTracker {
  import opened Wrappers
  import opened Messages

  const MAX_HISTORY: nat := 10

  type Hash = h: nat | h < 0x1_0000_0000_0000_0000

  /** Any way of hashing one message and of extending a hash by the next one. */
  datatype Hasher = Hasher(message: Message -> Hash, extend: (Hash, Hash) -> Hash)

  /** Hash of a message list: the first message's hash, extended by each later message's hash. */
  function ListHash(H: Hasher, ms: seq<Message>): Hash {
    if ms == [] then 0
    else if |ms| == 1 then H.message(ms[0])
    else H.extend(ListHash(H, ms[..|ms| - 1]), H.message(ms[|ms| - 1]))
  }

  predicate ArePrefixHashes(H: Hasher, hashes: seq<Hash>, ms: seq<Message>) {
    |hashes| == |ms| && forall i :: 0 <= i < |ms| ==> hashes[i] == ListHash(H, ms[..i + 1])
  }

  lemma PrefixHashesGrow(H: Hasher, hashes: seq<Hash>, ms: seq<Message>, m: Message)
    requires ArePrefixHashes(H, hashes, ms)
    ensures ArePrefixHashes(H, hashes + [ListHash(H, ms + [m])], ms + [m])
  {
    forall k | 0 <= k < |ms| ensures ListHash(H, (ms + [m])[..k + 1]) == hashes[k] {
      assert (ms + [m])[..k + 1] == ms[..k + 1];
    }
    assert (ms + [m])[..|ms| + 1] == ms + [m];
  }

  /** Hash of one more message on top of the hashes pushed so far. */
  method NextHash(H: Hasher, hashes: seq<Hash>, ghost before: seq<Message>, m: Message) returns (h: Hash)
    requires ArePrefixHashes(H, hashes, before)
    ensures h == ListHash(H, before + [m])
  {
    h := H.message(m);
    if |hashes| > 0 {
      assert before[..|before|] == before && (before + [m])[..|before|] == before;
      h := H.extend(hashes[|hashes| - 1], h);
    }
  }

  method PrefixHashes(H: Hasher, ms: seq<Message>) returns (hashes: seq<Hash>)
    ensures ArePrefixHashes(H, hashes, ms)
  {
    hashes := [];
    for i := 0 to |ms|
      invariant ArePrefixHashes(H, hashes, ms[..i])
    {
      var h := NextHash(H, hashes, ms[..i], ms[i]);
      assert ms[..i] + [ms[i]] == ms[..i + 1];
      PrefixHashesGrow(H, hashes, ms[..i], ms[i]);
      hashes := hashes + [h];
    }
    assert ms[..|ms|] == ms;
  }

  datatype Reason = MessagesRemoved(had: nat) | PrefixModified(first: nat)

  datatype Violation = Violation(turn: nat, messageCount: nat, expected: Hash, actual: Hash, reason: Reason)

  datatype State = State(
    previousHash: Option<Hash>,
    previousCount: nat,
    turns: nat,
    history: seq<Hash>,
    lastViolation: Option<Violation>)

  const BLANK := State(None, 0, 0, [], None)

  function Pushed(history: seq<Hash>, h: Hash): seq<Hash> {
    var longer := history + [h];
    if |longer| > MAX_HISTORY then longer[1..] else longer
  }

  /** What recording a snapshot reports, given the hash at the previous count and the hash of the whole list. */
  function Verdict(s: State, count: nat, atPrevious: Option<Hash>, full: Option<Hash>): Option<Violation> {
    if s.turns == 0 || s.previousHash.None? then None
    else if count < s.previousCount then
      Some(Violation(s.turns + 1, count, s.previousHash.value, full.GetOr(0), MessagesRemoved(s.previousCount)))
    else if atPrevious.GetOr(0) != s.previousHash.value then
      Some(Violation(s.turns + 1, count, s.previousHash.value, atPrevious.GetOr(0), PrefixModified(s.previousCount)))
    else None
  }

  function Recorded(s: State, count: nat, atPrevious: Option<Hash>, full: Option<Hash>): State {
    var hash := full.GetOr(0);
    State(Some(hash), count, s.turns + 1, Pushed(s.history, hash), Verdict(s, count, atPrevious, full))
  }

  /** The three numbers taken from a list of prefix hashes. */
  function AtPrevious(previousCount: nat, hashes: seq<Hash>): Option<Hash> {
    if previousCount == 0 || previousCount > |hashes| then None else Some(hashes[previousCount - 1])
  }

  function LastHash(hashes: seq<Hash>): Option<Hash> {
    if hashes == [] then None else Some(hashes[|hashes| - 1])
  }

  class Tracker {
    var previousPrefixHash: Option<Hash>
    var previousMessageCount: nat
    var turnCount: nat
    var hashHistory: seq<Hash>
    var lastViolation: Option<Violation>

    function View(): State
      reads this
    {
      State(previousPrefixHash, previousMessageCount, turnCount, hashHistory, lastViolation)
    }

    constructor ()
      ensures View() == BLANK
    {
      previousPrefixHash, previousMessageCount, turnCount, hashHistory, lastViolation := None, 0, 0, [], None;
    }

    method Reset()
      modifies this
      ensures View() == BLANK
    {
      previousPrefixHash, previousMessageCount, turnCount, hashHistory, lastViolation := None, 0, 0, [], None;
    }

    method Remember(hash: Hash, count: nat, violation: Option<Violation>)
      modifies this
      ensures View() == State(Some(hash), count, old(turnCount), Pushed(old(hashHistory), hash), violation)
    {
      previousPrefixHash, previousMessageCount := Some(hash), count;
      hashHistory := hashHistory + [hash];
      if |hashHistory| > MAX_HISTORY {
        hashHistory := hashHistory[1..];
      }
      lastViolation := violation;
    }

    method RecordPrefixHashSnapshot(count: nat, atPrevious: Option<Hash>, full: Option<Hash>)
      returns (violation: Option<Violation>)
      modifies this
      ensures violation == Verdict(old(View()), count, atPrevious, full)
      ensures View() == Recorded(old(View()), count, atPrevious, full)
    {
      turnCount := turnCount + 1;
      var hash := full.GetOr(0);
      violation := None;
      if turnCount == 1 || previousPrefixHash.None? {
        Remember(hash, count, None);
        return;
      }
      var previousHash := previousPrefixHash.value;
      if count < previousMessageCount {
        violation := Some(Violation(turnCount, count, previousHash, hash, MessagesRemoved(previousMessageCount)));
      } else {
        var prefixHash := atPrevious.GetOr(0);
        if prefixHash != previousHash {
          violation := Some(Violation(turnCount, count, previousHash, prefixHash,
            PrefixModified(previousMessageCount)));
        }
      }
      Remember(hash, count, violation);
    }

    method RecordPrefixHashes(hashes: seq<Hash>) returns (violation: Option<Violation>)
      modifies this
      ensures var s := old(View());
              && violation == Verdict(s, |hashes|, AtPrevious(s.previousCount, hashes), LastHash(hashes))
              && View() == Recorded(s, |hashes|, AtPrevious(s.previousCount, hashes), LastHash(hashes))
    {
      violation := RecordPrefixHashSnapshot(|hashes|, AtPrevious(previousMessageCount, hashes), LastHash(hashes));
    }

    method RecordRequest(H: Hasher, ms: seq<Message>) returns (violation: Option<Violation>)
      modifies this
      ensures violation == RequestVerdict(H, old(View()), ms)
      ensures View() == RequestRecorded(H, old(View()), ms)
    {
      var hashes := PrefixHashes(H, ms);
      SnapshotOfHashes(H, hashes, ms, previousMessageCount);
      violation := RecordPrefixHashes(hashes);
    }
  }

  // ---- A request, in terms of its messages ----

  function HashAtPrevious(H: Hasher, previousCount: nat, ms: seq<Message>): Option<Hash> {
    if previousCount == 0 || previousCount > |ms| then None else Some(ListHash(H, ms[..previousCount]))
  }

  function HashOfAll(H: Hasher, ms: seq<Message>): Option<Hash> {
    if ms == [] then None else Some(ListHash(H, ms))
  }

  function RequestVerdict(H: Hasher, s: State, ms: seq<Message>): Option<Violation> {
    Verdict(s, |ms|, HashAtPrevious(H, s.previousCount, ms), HashOfAll(H, ms))
  }

  function RequestRecorded(H: Hasher, s: State, ms: seq<Message>): State {
    Recorded(s, |ms|, HashAtPrevious(H, s.previousCount, ms), HashOfAll(H, ms))
  }

  lemma SnapshotOfHashes(H: Hasher, hashes: seq<Hash>, ms: seq<Message>, previousCount: nat)
    requires ArePrefixHashes(H, hashes, ms)
    ensures AtPrevious(previousCount, hashes) == HashAtPrevious(H, previousCount, ms)
    ensures LastHash(hashes) == HashOfAll(H, ms)
  {
    assert ms[..|ms|] == ms;
  }

  // ---- The session's incremental hash cache and the agent's fast path ----

  datatype CacheMode = Clean | AppendPending | Full

  class Session {
    var messages: seq<Message>
    var cachedHashes: seq<Hash>
    var cacheLen: nat
    var cacheMode: CacheMode

    /** Unless a full rebuild is due, the cache holds the prefix hashes of the first `cacheLen` messages. */
    predicate Valid(H: Hasher)
      reads this
    {
      !cacheMode.Full? ==>
        && cacheLen <= |messages|
        && ArePrefixHashes(H, cachedHashes, messages[..cacheLen])
        && (cacheMode.Clean? ==> cacheLen == |messages|)
    }

    constructor (H: Hasher)
      ensures Valid(H) && messages == []
    {
      messages, cachedHashes, cacheLen, cacheMode := [], [], 0, Full;
    }

    method AppendStoredMessage(H: Hasher, m: Message)
      requires Valid(H)
      modifies this
      ensures Valid(H) && messages == old(messages) + [m]
    {
      assert !cacheMode.Full? ==> (messages + [m])[..cacheLen] == messages[..cacheLen];
      messages := messages + [m];
      if !cacheMode.Full? {
        cacheMode := AppendPending;
      }
    }

    /** Insertion, replacement and truncation all ask for a full rebuild. */
    method ReplaceMessages(H: Hasher, ms: seq<Message>)
      modifies this
      ensures Valid(H) && messages == ms
    {
      messages := ms;
      cacheMode := Full;
    }

    method PushUncached(H: Hasher)
      requires cacheLen <= |messages| && ArePrefixHashes(H, cachedHashes, messages[..cacheLen])
      modifies `cachedHashes
      ensures ArePrefixHashes(H, cachedHashes, messages)
    {
      var all, hashes := messages, cachedHashes;
      for i := cacheLen to |all|
        invariant ArePrefixHashes(H, hashes, all[..i])
      {
        var h := NextHash(H, hashes, all[..i], all[i]);
        assert all[..i] + [all[i]] == all[..i + 1];
        PrefixHashesGrow(H, hashes, all[..i], all[i]);
        hashes := hashes + [h];
      }
      assert all[..|all|] == all;
      cachedHashes := hashes;
    }

    method ProviderMessagePrefixHashes(H: Hasher) returns (hashes: seq<Hash>)
      requires Valid(H)
      modifies this
      ensures Valid(H) && messages == old(messages)
      ensures ArePrefixHashes(H, hashes, messages)
    {
      assert messages[..|messages|] == messages;
      if cacheMode.Full? || cacheLen > |messages| {
        cachedHashes, cacheLen := [], 0;
        PushUncached(H);
        cacheLen, cacheMode := |messages|, Clean;
      } else if cacheMode.AppendPending? && cacheLen < |messages| {
        PushUncached(H);
        cacheLen, cacheMode := |messages|, Clean;
      }
      hashes := cachedHashes;
    }
  }

  /** The agent's check before each request: from cached hashes when no compaction is in play, else from the
      messages. Both give the same answer about the same messages. */
  method RecordClientCacheRequest(H: Hasher, tracker: Tracker, session: Session, ms: seq<Message>, compacting: bool)
    returns (violation: Option<Violation>)
    requires session.Valid(H)
    requires !compacting ==> ms == session.messages
    modifies tracker, session
    ensures violation == RequestVerdict(H, old(tracker.View()), ms)
    ensures tracker.View() == RequestRecorded(H, old(tracker.View()), ms)
    ensures session.Valid(H) && session.messages == old(session.messages)
  {
    if compacting {
      violation := tracker.RecordRequest(H, ms);
    } else {
      var previousCount := tracker.previousMessageCount;
      var hashes := session.ProviderMessagePrefixHashes(H);
      SnapshotOfHashes(H, hashes, ms, previousCount);
      violation := tracker.RecordPrefixHashSnapshot(|hashes|, AtPrevious(previousCount, hashes), LastHash(hashes));
    }
  }

  // ---- What is flagged ----

  datatype Op = Request(messages: seq<Message>) | Reset

  function Step(H: Hasher, s: State, op: Op): State {
    if op.Request? then RequestRecorded(H, s, op.messages) else BLANK
  }

  function Run(H: Hasher, ops: seq<Op>): State {
    if ops == [] then BLANK else Step(H, Run(H, ops[..|ops| - 1]), ops[|ops| - 1])
  }

  /** The message list of the last request since the last reset. */
  function LastRequest(ops: seq<Op>): Option<seq<Message>> {
    if ops == [] || ops[|ops| - 1].Reset? then None else Some(ops[|ops| - 1].messages)
  }

  /** The tracker holds just the length and hash of the last list, and the last few hashes. */
  predicate Remembers(H: Hasher, s: State, last: Option<seq<Message>>) {
    && (last.None? ==> s == BLANK)
    && (last.Some? ==>
          && s.turns > 0
          && s.previousHash == Some(ListHash(H, last.value))
          && s.previousCount == |last.value|
          && 0 < |s.history| <= MAX_HISTORY
          && s.history[|s.history| - 1] == ListHash(H, last.value))
  }

  lemma {:induction false} RunRemembers(H: Hasher, ops: seq<Op>)
    ensures Remembers(H, Run(H, ops), LastRequest(ops))
  {
    if ops != [] {
      RunRemembers(H, ops[..|ops| - 1]);
    }
  }

  /** The last list was rewritten, and its hash equals that of the equally long start of the new one. */
  predicate Collides(H: Hasher, last: Option<seq<Message>>, ms: seq<Message>) {
    && last.Some? && |last.value| <= |ms|
    && last.value != ms[..|last.value|]
    && ListHash(H, last.value) == ListHash(H, ms[..|last.value|])
  }

  predicate PrefixBroken(last: Option<seq<Message>>, ms: seq<Message>) {
    last.Some? && !(last.value <= ms)
  }

  /** Over every run, with any hash function: a flag is never a false alarm, and the flag says exactly whether the
      previous list is a prefix of the current one unless those two equally long lists collide. */
  lemma FlagsExactlyBrokenPrefixes(H: Hasher, ops: seq<Op>, ms: seq<Message>)
    ensures var flagged := RequestVerdict(H, Run(H, ops), ms).Some?;
            var broken := PrefixBroken(LastRequest(ops), ms);
            && (flagged ==> broken)
            && ((flagged <==> broken) <==> !Collides(H, LastRequest(ops), ms))
  {
    RunRemembers(H, ops);
    var last := LastRequest(ops);
    if last.Some? && |last.value| <= |ms| {
      assert last.value <= ms <==> last.value == ms[..|last.value|];
    }
  }

  /** Removing messages is always noticed, and never confused with a rewrite. */
  lemma RemovalIsAlwaysFlagged(H: Hasher, ops: seq<Op>, ms: seq<Message>)
    requires LastRequest(ops).Some?
    ensures var verdict := RequestVerdict(H, Run(H, ops), ms);
            var before := LastRequest(ops).value;
            (verdict.Some? && verdict.value.reason == MessagesRemoved(|before|)) <==> |ms| < |before|
  {
    RunRemembers(H, ops);
  }

  // ---- What is reported and remembered ----

  /** The hashes of the requests since the last reset. */
  function HashesSince(H: Hasher, ops: seq<Op>): seq<Hash> {
    if ops == [] || ops[|ops| - 1].Reset? then []
    else HashesSince(H, ops[..|ops| - 1]) + [ListHash(H, ops[|ops| - 1].messages)]
  }

  /** Over every run: the turns are the requests since the last reset, and the history holds the hashes of the newest
      ten of them, oldest first. */
  lemma {:induction false} HistoryIsNewestTen(H: Hasher, ops: seq<Op>)
    ensures var s, all := Run(H, ops), HashesSince(H, ops);
            && s.turns == |all|
            && s.history == all[Monus(|all|, 10)..]
            && (LastRequest(ops).Some? <==> all != [])
  {
    if ops != [] {
      HistoryIsNewestTen(H, ops[..|ops| - 1]);
    }
  }

  /** What a flag says: the number of this request since the reset, how many messages it has, the hash remembered, and
      the hash it found in its place, which is that of the equally long start of the list, or of the whole list where it
      is shorter. */
  lemma VerdictReports(H: Hasher, ops: seq<Op>, ms: seq<Message>)
    requires RequestVerdict(H, Run(H, ops), ms).Some?
    ensures var v, last := RequestVerdict(H, Run(H, ops), ms).value, LastRequest(ops);
            && last.Some?
            && v.turn == |HashesSince(H, ops)| + 1 && v.messageCount == |ms|
            && v.expected == ListHash(H, last.value)
            && (if |ms| < |last.value|
                then v.reason == MessagesRemoved(|last.value|) && v.actual == ListHash(H, ms)
                else v.reason == PrefixModified(|last.value|) && v.actual == ListHash(H, ms[..|last.value|]))
  {
    RunRemembers(H, ops);
    HistoryIsNewestTen(H, ops);
  }

  /** At place `k` two lists of which the earlier messages hash alike, or are none, are hashed alike although the
      hasher was given different things. */
  predicate HasherCollides(H: Hasher, a: seq<Message>, b: seq<Message>, k: nat)
    requires k < |a| == |b|
  {
    || (a[k] != b[k] && H.message(a[k]) == H.message(b[k]))
    || (k > 0 && (ListHash(H, a[..k]), H.message(a[k])) != (ListHash(H, b[..k]), H.message(b[k]))
        && H.extend(ListHash(H, a[..k]), H.message(a[k])) == H.extend(ListHash(H, b[..k]), H.message(b[k])))
  }

  lemma OneMessage(a: seq<Message>, b: seq<Message>)
    requires |a| == |b| == 1 && a[0] == b[0]
    ensures a == b
  {
  }

  /** Lists of one length that differ have the same hash only if the hasher itself collides at some place: nothing of a
      list is left out of its hash. */
  lemma {:induction false} CollisionIsTheHashers(H: Hasher, a: seq<Message>, b: seq<Message>) returns (k: nat)
    requires |a| == |b| && a != b && ListHash(H, a) == ListHash(H, b)
    ensures k < |a| && HasherCollides(H, a, b, k)
  {
    var n := |a| - 1;
    k := n;
    if !HasherCollides(H, a, b, n) {
      assert H.message(a[n]) == H.message(b[n]) && a[n] == b[n];
      if n == 0 {
        OneMessage(a, b);
      }
      assert ListHash(H, a[..n]) == ListHash(H, b[..n]);
      assert a[..n] != b[..n] by {
        assert a == a[..n] + [a[n]] && b == b[..n] + [b[n]];
      }
      k := CollisionIsTheHashers(H, a[..n], b[..n]);
      assert a[..n][..k] == a[..k] && b[..n][..k] == b[..k];
    }
  }
}
