/** Repair of tool calls that never got a result: an incremental scan and an in-place splice. */
module ToolRepair {
  import opened Wrappers
  import opened Messages

  const TOOL_OUTPUT_MISSING_TEXT := "Tool output missing (session interrupted before tool execution completed)"

  // ---- Ids by role: calls count in assistant messages, results in user messages ----

  function CallsOfBlocks(content: seq<ContentBlock>): seq<string> {
    if content == [] then []
    else (if content[0].ToolUse? then [content[0].id] else []) + CallsOfBlocks(content[1..])
  }

  function CallIds(m: Message): seq<string> {
    if m.role.Assistant? then CallsOfBlocks(m.content) else []
  }

  function ResultsOfBlocks(content: seq<ContentBlock>): seq<string> {
    if content == [] then []
    else (if content[0].ToolResult? then [content[0].toolUseId] else []) + ResultsOfBlocks(content[1..])
  }

  function ResultIds(m: Message): seq<string> {
    if m.role.User? then ResultsOfBlocks(m.content) else []
  }

  function Elements(ids: seq<string>): set<string> {
    set id | id in ids
  }

  function Calls(ms: seq<Message>): set<string> {
    if ms == [] then {} else Elements(CallIds(ms[0])) + Calls(ms[1..])
  }

  function Results(ms: seq<Message>): set<string> {
    if ms == [] then {} else Elements(ResultIds(ms[0])) + Results(ms[1..])
  }

  lemma {:induction false} CallsConcat(a: seq<Message>, b: seq<Message>)
    ensures Calls(a + b) == Calls(a) + Calls(b)
    ensures Results(a + b) == Results(a) + Results(b)
  {
    if a == [] {
      assert a + b == b;
    } else {
      assert (a + b)[1..] == a[1..] + b;
      CallsConcat(a[1..], b);
    }
  }

  // ---- The one-pass rebuild ----

  function MissingResult(id: string): Message {
    Message(User, [ToolResult(id, TOOL_OUTPUT_MISSING_TEXT, Some(true))])
  }

  function MissingResults(ids: seq<string>): seq<Message> {
    seq(|ids|, i requires 0 <= i < |ids| => MissingResult(ids[i]))
  }

  /** The ids without a known result, in order, repeated as often as they occur. */
  function Missing(ids: seq<string>, known: set<string>): seq<string> {
    if ids == [] then []
    else (if ids[0] in known then [] else [ids[0]]) + Missing(ids[1..], known)
  }

  function MissingIn(m: Message, known: set<string>): seq<string> {
    Missing(CallIds(m), known)
  }

  function Rebuilt(ms: seq<Message>, known: set<string>): seq<Message> {
    if ms == [] then []
    else [ms[0]] + MissingResults(MissingIn(ms[0], known)) + Rebuilt(ms[1..], known)
  }

  function AddedIds(ms: seq<Message>, known: set<string>): set<string> {
    if ms == [] then {} else Elements(MissingIn(ms[0], known)) + AddedIds(ms[1..], known)
  }

  lemma {:induction false} RebuiltConcat(a: seq<Message>, b: seq<Message>, known: set<string>)
    ensures Rebuilt(a + b, known) == Rebuilt(a, known) + Rebuilt(b, known)
    ensures AddedIds(a + b, known) == AddedIds(a, known) + AddedIds(b, known)
  {
    if a == [] {
      assert a + b == b;
    } else {
      assert (a + b)[1..] == a[1..] + b;
      RebuiltConcat(a[1..], b, known);
      Regroup([a[0]] + MissingResults(MissingIn(a[0], known)), Rebuilt(a[1..], known), Rebuilt(b, known));
    }
  }

  lemma {:induction false} MissingElements(ids: seq<string>, known: set<string>)
    ensures Elements(Missing(ids, known)) == Elements(ids) - known
    ensures Missing(ids, known) == [] <==> Elements(ids) <= known
  {
    if ids != [] {
      MissingElements(ids[1..], known);
      assert Elements(ids) == {ids[0]} + Elements(ids[1..]);
      var here: seq<string> := if ids[0] in known then [] else [ids[0]];
      assert Elements(here + Missing(ids[1..], known)) == Elements(here) + Elements(Missing(ids[1..], known));
      if Missing(ids, known) == [] {
        assert ids[0] in known;
      }
    }
  }

  lemma {:induction false} AddedIdsAre(ms: seq<Message>, known: set<string>)
    ensures AddedIds(ms, known) == Calls(ms) - known
    ensures Calls(ms) <= known ==> Rebuilt(ms, known) == ms
  {
    if ms != [] {
      AddedIdsAre(ms[1..], known);
      MissingElements(CallIds(ms[0]), known);
    }
  }

  lemma {:induction false} MissingResultsIds(ids: seq<string>)
    ensures Calls(MissingResults(ids)) == {}
    ensures Results(MissingResults(ids)) == Elements(ids)
  {
    if ids != [] {
      MissingResultsIds(ids[1..]);
      assert MissingResults(ids)[1..] == MissingResults(ids[1..]);
      var first := MissingResult(ids[0]);
      assert ResultsOfBlocks(first.content) == [ids[0]] + ResultsOfBlocks(first.content[1..]);
      assert ResultIds(first) == [ids[0]];
      assert Elements(ids) == {ids[0]} + Elements(ids[1..]);
    }
  }

  /** The rebuild adds no calls, and adds exactly the results that were missing. */
  lemma {:induction false} RebuiltIds(ms: seq<Message>, known: set<string>)
    ensures Calls(Rebuilt(ms, known)) == Calls(ms)
    ensures Results(Rebuilt(ms, known)) == Results(ms) + AddedIds(ms, known)
  {
    if ms != [] {
      RebuiltIds(ms[1..], known);
      var added := MissingResults(MissingIn(ms[0], known));
      MissingResultsIds(MissingIn(ms[0], known));
      CallsConcat([ms[0]] + added, Rebuilt(ms[1..], known));
      CallsConcat([ms[0]], added);
      assert [ms[0]][1..] == [];
    }
  }

  /** A message and the error results that go right behind it. */
  function Block(m: Message, known: set<string>): seq<Message> {
    [m] + MissingResults(MissingIn(m, known))
  }

  lemma RebuiltOne(m: Message, known: set<string>)
    ensures Rebuilt([m], known) == Block(m, known)
  {
    assert [m][1..] == [];
  }

  lemma RebuiltSplits(ms: seq<Message>, known: set<string>, i: nat)
    requires i < |ms|
    ensures Rebuilt(ms[..i + 1], known) == Rebuilt(ms[..i], known) + Block(ms[i], known)
    ensures Rebuilt(ms, known) == Rebuilt(ms[..i], known) + Block(ms[i], known) + Rebuilt(ms[i + 1..], known)
  {
    assert ms[..i + 1] == ms[..i] + [ms[i]];
    RebuiltConcat(ms[..i], [ms[i]], known);
    RebuiltOne(ms[i], known);
    assert ms == ms[..i + 1] + ms[i + 1..];
    RebuiltConcat(ms[..i + 1], ms[i + 1..], known);
  }

  /** Each original message is followed immediately by one error result per missing call, in order. */
  lemma RebuiltPlacesResults(ms: seq<Message>, known: set<string>, i: nat)
    requires i < |ms|
    ensures var at := |Rebuilt(ms[..i], known)|;
            var missing := MissingIn(ms[i], known);
            && |Rebuilt(ms[..i + 1], known)| == at + 1 + |missing| <= |Rebuilt(ms, known)|
            && Rebuilt(ms, known)[at] == ms[i]
            && Rebuilt(ms, known)[at + 1..at + 1 + |missing|] == MissingResults(missing)
  {
    RebuiltSplits(ms, known, i);
    var before, added, rest :=
      Rebuilt(ms[..i], known), MissingResults(MissingIn(ms[i], known)), Rebuilt(ms[i + 1..], known);
    Regroup(before, [ms[i]], added);
    Joints(before + [ms[i]], added, rest);
  }

  // ---- Erasing what was inserted ----

  /** Which messages of the rebuild are original ones. */
  function OriginalMask(ms: seq<Message>, known: set<string>): seq<bool> {
    if ms == [] then []
    else [true] + seq(|MissingIn(ms[0], known)|, _ => false) + OriginalMask(ms[1..], known)
  }

  function Keep(ms: seq<Message>, mask: seq<bool>): seq<Message>
    requires |ms| == |mask|
  {
    if ms == [] then [] else (if mask[0] then [ms[0]] else []) + Keep(ms[1..], mask[1..])
  }

  lemma {:induction false} KeepConcat(a: seq<Message>, b: seq<Message>, maskA: seq<bool>, maskB: seq<bool>)
    requires |a| == |maskA| && |b| == |maskB|
    ensures Keep(a + b, maskA + maskB) == Keep(a, maskA) + Keep(b, maskB)
  {
    if a == [] {
      assert a + b == b && maskA + maskB == maskB;
    } else {
      assert (a + b)[1..] == a[1..] + b && (maskA + maskB)[1..] == maskA[1..] + maskB;
      KeepConcat(a[1..], b, maskA[1..], maskB);
      var first: seq<Message> := if maskA[0] then [a[0]] else [];
      assert Keep(a, maskA) == first + Keep(a[1..], maskA[1..]);
      Regroup(first, Keep(a[1..], maskA[1..]), Keep(b, maskB));
    }
  }

  lemma {:induction false} KeepNone(ms: seq<Message>)
    ensures Keep(ms, seq(|ms|, _ => false)) == []
  {
    if ms != [] {
      KeepNone(ms[1..]);
      assert seq(|ms|, _ => false)[1..] == seq(|ms| - 1, _ => false);
    }
  }

  /** Erasing the inserted messages gives back the original transcript. */
  lemma {:induction false} ErasingGivesBackOriginal(ms: seq<Message>, known: set<string>)
    ensures |OriginalMask(ms, known)| == |Rebuilt(ms, known)|
    ensures Keep(Rebuilt(ms, known), OriginalMask(ms, known)) == ms
  {
    if ms != [] {
      ErasingGivesBackOriginal(ms[1..], known);
      var missing := MissingIn(ms[0], known);
      var added, mask := MissingResults(missing), seq(|missing|, _ => false);
      KeepConcat([ms[0]] + added, Rebuilt(ms[1..], known), [true] + mask, OriginalMask(ms[1..], known));
      KeepConcat([ms[0]], added, [true], mask);
      KeepNone(added);
    }
  }

  // ---- The tracker as a value ----

  datatype Tracker = Tracker(messages: seq<Message>, callIds: set<string>, resultIds: set<string>, scanIndex: nat)

  function Forgotten(s: Tracker): Tracker {
    s.(callIds := {}, resultIds := {}, scanIndex := 0)
  }

  function ScanBase(s: Tracker): Tracker {
    if s.scanIndex > |s.messages| then Forgotten(s) else s
  }

  /** Result ids known once the unscanned messages have been read. */
  function Known(s: Tracker): set<string>
    requires s.scanIndex <= |s.messages|
  {
    s.resultIds + Results(s.messages[s.scanIndex..])
  }

  function RepairedTracker(s: Tracker): Tracker {
    var base := ScanBase(s);
    var unscanned, known := base.messages[base.scanIndex..], Known(base);
    var rebuilt := base.messages[..base.scanIndex] + Rebuilt(unscanned, known);
    Tracker(rebuilt, base.callIds + Calls(unscanned), known + AddedIds(unscanned, known), |rebuilt|)
  }

  // ---- The splice ----

  function RepairAt(m: Message, index: nat, known: set<string>): seq<(nat, seq<string>)> {
    if MissingIn(m, known) == [] then [] else [(index, MissingIn(m, known))]
  }

  /** The messages with missing results: position in the transcript and missing ids. */
  function Repairs(ms: seq<Message>, base: nat, known: set<string>): seq<(nat, seq<string>)> {
    if ms == [] then []
    else RepairAt(ms[0], base, known) + Repairs(ms[1..], base + 1, known)
  }

  /** The messages after all repairs are spliced in, `inserted` messages having gone in before them. */
  function Spliced(ms: seq<Message>, repairs: seq<(nat, seq<string>)>, inserted: nat): seq<Message>
    decreases |repairs|
  {
    if repairs == [] then ms
    else
      var at := Min(repairs[0].0 + 1 + inserted, |ms|);
      Spliced(ms[..at] + MissingResults(repairs[0].1) + ms[at..], repairs[1..], inserted + |repairs[0].1|)
  }

  function SplicedIds(repairs: seq<(nat, seq<string>)>): set<string> {
    if repairs == [] then {} else Elements(repairs[0].1) + SplicedIds(repairs[1..])
  }

  lemma RepairsCons(ms: seq<Message>, base: nat, known: set<string>)
    requires ms != []
    ensures var repairs, missing := Repairs(ms, base, known), MissingIn(ms[0], known);
            if missing == [] then repairs == Repairs(ms[1..], base + 1, known)
            else repairs != [] && repairs[0] == (base, missing) && repairs[1..] == Repairs(ms[1..], base + 1, known)
  {
  }

  lemma {:induction false} RepairsInRange(ms: seq<Message>, base: nat, known: set<string>)
    ensures forall r :: r in Repairs(ms, base, known) ==> base <= r.0 < base + |ms|
    ensures SplicedIds(Repairs(ms, base, known)) == AddedIds(ms, known)
  {
    if ms != [] {
      RepairsInRange(ms[1..], base + 1, known);
      RepairsCons(ms, base, known);
    }
  }

  lemma SplicedStep(before: seq<Message>, m: Message, rest: seq<Message>, base: nat, missing: seq<string>,
                    later: seq<(nat, seq<string>)>, inserted: nat)
    requires |before| == base + inserted
    ensures Spliced(before + ([m] + rest), [(base, missing)] + later, inserted)
            == Spliced(before + [m] + MissingResults(missing) + rest, later, inserted + |missing|)
  {
    var all := before + ([m] + rest);
    var repairs := [(base, missing)] + later;
    assert Min(repairs[0].0 + 1 + inserted, |all|) == |before| + 1;
    assert all[..|before| + 1] == before + [m] && all[|before| + 1..] == rest;
    assert repairs[1..] == later;
  }

  function WithResults(before: seq<Message>, m: Message, known: set<string>): seq<Message> {
    before + [m] + MissingResults(MissingIn(m, known))
  }

  lemma SplicedUnfolds(before: seq<Message>, ms: seq<Message>, base: nat, inserted: nat, known: set<string>)
    requires ms != [] && |before| == base + inserted
    ensures Spliced(before + ms, Repairs(ms, base, known), inserted)
            == Spliced(WithResults(before, ms[0], known) + ms[1..], Repairs(ms[1..], base + 1, known),
                       inserted + |MissingIn(ms[0], known)|)
  {
    var missing, later := MissingIn(ms[0], known), Repairs(ms[1..], base + 1, known);
    RepairsCons(ms, base, known);
    assert ms == [ms[0]] + ms[1..];
    if missing == [] {
      assert WithResults(before, ms[0], known) + ms[1..] == before + ms;
    } else {
      assert Repairs(ms, base, known) == [(base, missing)] + later;
      SplicedStep(before, ms[0], ms[1..], base, missing, later, inserted);
    }
  }

  lemma RebuiltUnfolds(before: seq<Message>, ms: seq<Message>, known: set<string>)
    requires ms != []
    ensures before + Rebuilt(ms, known) == WithResults(before, ms[0], known) + Rebuilt(ms[1..], known)
  {
    Regroup(before, Block(ms[0], known), Rebuilt(ms[1..], known));
    Regroup(before, [ms[0]], MissingResults(MissingIn(ms[0], known)));
  }

  /** Splicing from left to right, each position shifted by what went in before, gives the one-pass rebuild. */
  lemma {:induction false} SplicingRebuilds(before: seq<Message>, ms: seq<Message>, base: nat, inserted: nat,
      known: set<string>)
    requires |before| == base + inserted
    ensures Spliced(before + ms, Repairs(ms, base, known), inserted) == before + Rebuilt(ms, known)
    decreases |ms|
  {
    if ms == [] {
      assert before + ms == before && before + Rebuilt(ms, known) == before;
    } else {
      SplicedUnfolds(before, ms, base, inserted, known);
      RebuiltUnfolds(before, ms, known);
      SplicingRebuilds(WithResults(before, ms[0], known), ms[1..], base + 1,
                       inserted + |MissingIn(ms[0], known)|, known);
    }
  }

  lemma RepairsUnfold(m: Message, rest: seq<Message>, base: nat, known: set<string>)
    ensures Repairs([m] + rest, base, known) == RepairAt(m, base, known) + Repairs(rest, base + 1, known)
  {
    assert ([m] + rest)[1..] == rest;
  }

  lemma {:induction false} RepairsSnoc(ms: seq<Message>, m: Message, base: nat, known: set<string>)
    ensures Repairs(ms + [m], base, known) == Repairs(ms, base, known) + RepairAt(m, base + |ms|, known)
  {
    if ms == [] {
      assert ms + [m] == [m] + [];
      RepairsUnfold(m, [], base, known);
    } else {
      var first, rest := ms[0], ms[1..];
      assert ms == [first] + rest && ms + [m] == [first] + (rest + [m]);
      RepairsSnoc(rest, m, base + 1, known);
      RepairsUnfold(first, rest, base, known);
      RepairsUnfold(first, rest + [m], base, known);
      Regroup(RepairAt(first, base, known), Repairs(rest, base + 1, known), RepairAt(m, base + |ms|, known));
    }
  }

  lemma {:induction false} MissingSnoc(ids: seq<string>, id: string, known: set<string>)
    ensures Missing(ids + [id], known) == Missing(ids, known) + if id in known then [] else [id]
  {
    if ids == [] {
      assert ids + [id] == [id];
    } else {
      assert (ids + [id])[1..] == ids[1..] + [id];
      MissingSnoc(ids[1..], id, known);
    }
  }

  /** One pass over the calls of a message: record them and pick out those without a result. */
  method MissingForMessage(ids: seq<string>, known: set<string>, calls: set<string>)
    returns (missing: seq<string>, calls': set<string>)
    ensures missing == Missing(ids, known)
    ensures calls' == calls + Elements(ids)
  {
    missing, calls' := [], calls;
    for i := 0 to |ids|
      invariant missing == Missing(ids[..i], known)
      invariant calls' == calls + Elements(ids[..i])
    {
      assert ids[..i + 1] == ids[..i] + [ids[i]];
      MissingSnoc(ids[..i], ids[i], known);
      calls' := calls' + {ids[i]};
      if ids[i] !in known {
        missing := missing + [ids[i]];
      }
    }
    assert ids[..|ids|] == ids;
  }

  method RepairForMessage(m: Message, index: nat, known: set<string>, calls: set<string>)
    returns (found: seq<(nat, seq<string>)>, calls': set<string>)
    ensures found == RepairAt(m, index, known)
    ensures calls' == calls + Elements(CallIds(m))
  {
    var missing;
    missing, calls' := MissingForMessage(CallIds(m), known, calls);
    found := [];
    if missing != [] {
      found := [(index, missing)];
    }
  }

  lemma IdsUpTo(ms: seq<Message>, start: nat, i: nat)
    requires start <= i < |ms|
    ensures Calls(ms[start..i + 1]) == Calls(ms[start..i]) + Elements(CallIds(ms[i]))
    ensures Results(ms[start..i + 1]) == Results(ms[start..i]) + Elements(ResultIds(ms[i]))
  {
    assert ms[start..i + 1] == ms[start..i] + [ms[i]];
    CallsConcat(ms[start..i], [ms[i]]);
    assert [ms[i]][1..] == [];
  }

  lemma RepairsUpTo(ms: seq<Message>, start: nat, i: nat, known: set<string>)
    requires start <= i < |ms|
    ensures Repairs(ms[start..i + 1], start, known) == Repairs(ms[start..i], start, known) + RepairAt(ms[i], i, known)
  {
    assert ms[start..i + 1] == ms[start..i] + [ms[i]];
    RepairsSnoc(ms[start..i], ms[i], start, known);
  }

  /** What one pass over `ms[start..i]` has found: all calls, and the repairs to make. */
  predicate FoundUpTo(ms: seq<Message>, start: nat, i: nat, known: set<string>, before: set<string>, calls: set<string>,
                      repairs: seq<(nat, seq<string>)>)
    requires start <= i <= |ms|
  {
    calls == before + Calls(ms[start..i]) && repairs == Repairs(ms[start..i], start, known)
  }

  lemma FindsOne(ms: seq<Message>, start: nat, i: nat, known: set<string>, before: set<string>, calls: set<string>,
                 repairs: seq<(nat, seq<string>)>)
    requires start <= i < |ms| && FoundUpTo(ms, start, i, known, before, calls, repairs)
    ensures FoundUpTo(ms, start, i + 1, known, before, calls + Elements(CallIds(ms[i])),
                      repairs + RepairAt(ms[i], i, known))
  {
    IdsUpTo(ms, start, i);
    RepairsUpTo(ms, start, i, known);
  }

  lemma ResultsUpTo(ms: seq<Message>, start: nat, i: nat, before: set<string>, ids: set<string>)
    requires start <= i < |ms| && ids == before + Results(ms[start..i])
    ensures ids + Elements(ResultIds(ms[i])) == before + Results(ms[start..i + 1])
  {
    IdsUpTo(ms, start, i);
  }

  lemma RepairParts(scanned: seq<Message>, unscanned: seq<Message>, known: set<string>)
    ensures var repairs := Repairs(unscanned, |scanned|, known);
            && (forall r :: r in repairs ==> r.0 < |scanned + unscanned|)
            && Spliced(scanned + unscanned, repairs, 0) == scanned + Rebuilt(unscanned, known)
            && SplicedIds(repairs) == AddedIds(unscanned, known)
  {
    RepairsInRange(unscanned, |scanned|, known);
    SplicingRebuilds(scanned, unscanned, |scanned|, 0, known);
  }

  /** The three passes of a repair put together. */
  lemma RepairAssembles(s: Tracker, repairs: seq<(nat, seq<string>)>)
    requires s.scanIndex <= |s.messages| && repairs == Repairs(s.messages[s.scanIndex..], s.scanIndex, Known(s))
    ensures forall r :: r in repairs ==> r.0 < |s.messages|
    ensures var rebuilt := Spliced(s.messages, repairs, 0);
            RepairedTracker(s) == Tracker(rebuilt, s.callIds + Calls(s.messages[s.scanIndex..]),
                                          Known(s) + SplicedIds(repairs), |rebuilt|)
  {
    var scanned, unscanned, known := s.messages[..s.scanIndex], s.messages[s.scanIndex..], Known(s);
    assert scanned + unscanned == s.messages && |scanned| == s.scanIndex;
    RepairParts(scanned, unscanned, known);
    assert Spliced(s.messages, repairs, 0) == scanned + Rebuilt(unscanned, known);
  }

  /** First pass: the result ids of the unscanned messages are learnt. */
  method LearnResults(all: seq<Message>, start: nat, before: set<string>) returns (ids: set<string>)
    requires start <= |all|
    ensures ids == before + Results(all[start..])
  {
    ids := before;
    for i := start to |all|
      invariant ids == before + Results(all[start..i])
    {
      ResultsUpTo(all, start, i, before, ids);
      ids := ids + Elements(ResultIds(all[i]));
    }
    assert all[start..|all|] == all[start..];
  }

  /** Second pass: all calls are recorded and those without a known result picked out. */
  method PickRepairs(all: seq<Message>, start: nat, known: set<string>, before: set<string>)
    returns (calls: set<string>, repairs: seq<(nat, seq<string>)>)
    requires start <= |all|
    ensures FoundUpTo(all, start, |all|, known, before, calls, repairs)
  {
    calls, repairs := before, [];
    for i := start to |all|
      invariant FoundUpTo(all, start, i, known, before, calls, repairs)
    {
      FindsOne(all, start, i, known, before, calls, repairs);
      var found;
      found, calls := RepairForMessage(all[i], i, known, calls);
      repairs := repairs + found;
    }
  }

  class Agent {
    var messages: seq<Message>
    var toolCallIds: set<string>
    var toolResultIds: set<string>
    var toolOutputScanIndex: nat

    function View(): Tracker
      reads this
    {
      Tracker(messages, toolCallIds, toolResultIds, toolOutputScanIndex)
    }

    constructor ()
      ensures View() == Tracker([], {}, {}, 0)
    {
      messages, toolCallIds, toolResultIds, toolOutputScanIndex := [], {}, {}, 0;
    }

    method ResetToolOutputTracking()
      modifies this
      ensures View() == Forgotten(old(View()))
    {
      toolCallIds, toolResultIds, toolOutputScanIndex := {}, {}, 0;
    }

    method InsertMessage(index: nat, message: Message)
      requires index <= |messages|
      modifies `messages
      ensures messages == old(messages[..index]) + [message] + old(messages[index..])
    {
      messages := messages[..index] + [message] + messages[index..];
    }

    method ScanResults(start: nat)
      requires start <= |messages|
      modifies `toolResultIds
      ensures toolResultIds == old(toolResultIds) + Results(messages[start..])
    {
      toolResultIds := LearnResults(messages, start, toolResultIds);
    }

    method FindRepairs(start: nat) returns (repairs: seq<(nat, seq<string>)>)
      requires start <= |messages|
      modifies `toolCallIds
      ensures toolCallIds == old(toolCallIds) + Calls(messages[start..])
      ensures repairs == Repairs(messages[start..], start, toolResultIds)
    {
      assert messages[start..|messages|] == messages[start..];
      var calls;
      calls, repairs := PickRepairs(messages, start, toolResultIds, toolCallIds);
      toolCallIds := calls;
    }

    /** Insert one error result per missing id, right after the message that made the calls. */
    method InsertResults(at: nat, missing: seq<string>)
      requires at <= |messages|
      modifies `messages, `toolResultIds
      ensures messages == old(messages[..at]) + MissingResults(missing) + old(messages[at..])
      ensures toolResultIds == old(toolResultIds) + Elements(missing)
    {
      ghost var before, after := messages[..at], messages[at..];
      for offset := 0 to |missing|
        invariant messages == before + MissingResults(missing[..offset]) + after
        invariant toolResultIds == old(toolResultIds) + Elements(missing[..offset])
      {
        var id := missing[offset];
        assert missing[..offset + 1] == missing[..offset] + [id];
        assert MissingResults(missing[..offset + 1]) == MissingResults(missing[..offset]) + [MissingResult(id)];
        InsertMessage(at + offset, MissingResult(id));
        toolResultIds := toolResultIds + {id};
      }
      assert missing[..|missing|] == missing;
    }

    /** Splice all repairs into the transcript; `inserted` shifts the later positions. */
    method Splice(repairs: seq<(nat, seq<string>)>) returns (repaired: nat)
      requires forall r :: r in repairs ==> r.0 < |messages|
      modifies `messages, `toolResultIds
      ensures messages == Spliced(old(messages), repairs, 0)
      ensures toolResultIds == old(toolResultIds) + SplicedIds(repairs)
      ensures |messages| == |old(messages)| + repaired
    {
      repaired := 0;
      for k := 0 to |repairs|
        invariant |messages| == |old(messages)| + repaired
        invariant Spliced(messages, repairs[k..], repaired) == Spliced(old(messages), repairs, 0)
        invariant toolResultIds + SplicedIds(repairs[k..]) == old(toolResultIds) + SplicedIds(repairs)
      {
        var index, missing := repairs[k].0, repairs[k].1;
        assert repairs[k] in repairs && repairs[k..][1..] == repairs[k + 1..];
        InsertResults(index + 1 + repaired, missing);
        repaired := repaired + |missing|;
      }
    }

    method RepairMissingToolOutputs() returns (repaired: nat)
      modifies this
      ensures View() == RepairedTracker(old(View()))
      ensures repaired == |messages| - |old(messages)|
    {
      if toolOutputScanIndex > |messages| {
        ResetToolOutputTracking();
      }
      ghost var base := View();
      assert base == ScanBase(old(View())) && RepairedTracker(base) == RepairedTracker(old(View()));
      var start := toolOutputScanIndex;
      ScanResults(start);
      var repairs := FindRepairs(start);
      toolOutputScanIndex := |messages|;
      RepairAssembles(base, repairs);
      repaired := Splice(repairs);
      toolOutputScanIndex := |messages|;
    }
  }

  // ---- Runs ----

  datatype Op = Append(message: Message) | Repair | Forget | Replace(history: seq<Message>)

  function Step(s: Tracker, op: Op): Tracker {
    match op
    case Append(message) => s.(messages := s.messages + [message])
    case Repair => RepairedTracker(s)
    case Forget => Forgotten(s)
    case Replace(history) => Forgotten(s).(messages := history)
  }

  function Run(s: Tracker, ops: seq<Op>): Tracker {
    if ops == [] then s else Step(Run(s, ops[..|ops| - 1]), ops[|ops| - 1])
  }

  /** The id sets are those of the scanned prefix, and every call scanned has a result. */
  predicate Tracks(s: Tracker) {
    && s.scanIndex <= |s.messages|
    && s.callIds == Calls(s.messages[..s.scanIndex])
    && s.resultIds == Results(s.messages[..s.scanIndex])
    && s.callIds <= s.resultIds
  }

  lemma RepairCompletes(s: Tracker)
    requires Tracks(s)
    ensures Tracks(RepairedTracker(s))
    ensures RepairedTracker(s).scanIndex == |RepairedTracker(s).messages|
    ensures Calls(RepairedTracker(s).messages) <= Results(RepairedTracker(s).messages)
  {
    var scanned, unscanned := s.messages[..s.scanIndex], s.messages[s.scanIndex..];
    var known := Known(s);
    var repaired := RepairedTracker(s);
    AddedIdsAre(unscanned, known);
    RebuiltIds(unscanned, known);
    CallsConcat(scanned, Rebuilt(unscanned, known));
    assert repaired.messages[..repaired.scanIndex] == repaired.messages;
  }

  /** Over any run the id sets are exactly those of the scanned prefix; right after a repair that prefix is the
      whole transcript and every assistant call in it has a result. */
  lemma {:induction false} TrackingOverRuns(s: Tracker, ops: seq<Op>)
    requires Tracks(s)
    ensures Tracks(Run(s, ops))
    ensures var v := Step(Run(s, ops), Repair);
            v.scanIndex == |v.messages| && Calls(v.messages) <= Results(v.messages)
  {
    if ops != [] {
      TrackingOverRuns(s, ops[..|ops| - 1]);
      var before, op := Run(s, ops[..|ops| - 1]), ops[|ops| - 1];
      match op {
        case Append(message) =>
          assert (before.messages + [message])[..before.scanIndex] == before.messages[..before.scanIndex];
        case Repair => RepairCompletes(before);
        case _ =>
      }
    }
    RepairCompletes(Run(s, ops));
  }

  /** A second repair right after the first inserts nothing and changes nothing. */
  lemma RepairTwice(s: Tracker)
    requires Tracks(s)
    ensures RepairedTracker(RepairedTracker(s)) == RepairedTracker(s)
  {
    RepairCompletes(s);
    var repaired := RepairedTracker(s);
    assert repaired.messages[repaired.scanIndex..] == [];
  }

  lemma FullScanAgrees(scanned: seq<Message>, unscanned: seq<Message>, known: set<string>)
    requires Calls(scanned) <= known
    ensures Rebuilt(scanned + unscanned, known) == scanned + Rebuilt(unscanned, known)
    ensures AddedIds(scanned + unscanned, known) == AddedIds(unscanned, known)
  {
    RebuiltConcat(scanned, unscanned, known);
    AddedIdsAre(scanned, known);
  }

  lemma FullScanKnows(s: Tracker)
    requires Tracks(s)
    ensures Known(Forgotten(s)) == Known(s)
    ensures Calls(s.messages) == s.callIds + Calls(s.messages[s.scanIndex..])
  {
    assert s.messages[0..] == s.messages == s.messages[..s.scanIndex] + s.messages[s.scanIndex..];
    CallsConcat(s.messages[..s.scanIndex], s.messages[s.scanIndex..]);
  }

  /** Scanning only what is new repairs exactly as a scan of the whole transcript would. */
  lemma IncrementalIsFullScan(s: Tracker)
    requires Tracks(s)
    ensures RepairedTracker(s) == RepairedTracker(Forgotten(s))
  {
    var scanned, unscanned, full := s.messages[..s.scanIndex], s.messages[s.scanIndex..], Forgotten(s);
    assert s.messages == scanned + unscanned;
    assert full.messages[0..] == s.messages && full.messages[..0] == [];
    FullScanKnows(s);
    FullScanAgrees(scanned, unscanned, Known(s));
    assert [] + Rebuilt(s.messages, Known(s)) == Rebuilt(s.messages, Known(s));
  }

  /** A transcript that became shorter than the scan index is rescanned in full, whatever ids were recorded. */
  lemma ShrunkTranscriptIsRescanned(s: Tracker, len: nat)
    requires len < s.scanIndex && len <= |s.messages|
    ensures var cut := s.(messages := s.messages[..len]);
            && RepairedTracker(cut) == RepairedTracker(Forgotten(cut))
            && Tracks(RepairedTracker(cut))
            && Calls(RepairedTracker(cut).messages) <= Results(RepairedTracker(cut).messages)
  {
    var cut := s.(messages := s.messages[..len]);
    assert cut.messages[..0] == [];
    RepairCompletes(Forgotten(cut));
  }
}
