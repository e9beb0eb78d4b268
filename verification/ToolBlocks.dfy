/** What a transcript repair does, said of the blocks of the messages and not of the id lists that the scan reads. */
module ToolBlocks {
  import opened Wrappers
  import opened Messages
  import opened ToolRepair

  /** Block `j` of message `i`, an assistant's, is a tool call with this id. */
  predicate CallAt(ms: seq<Message>, i: nat, j: nat, id: string) {
    && i < |ms| && ms[i].role.Assistant?
    && j < |ms[i].content| && ms[i].content[j].ToolUse? && ms[i].content[j].id == id
  }

  /** Block `j` of message `i`, a user's, is a tool result for this id. */
  predicate ResultAt(ms: seq<Message>, i: nat, j: nat, id: string) {
    && i < |ms| && ms[i].role.User?
    && j < |ms[i].content| && ms[i].content[j].ToolResult? && ms[i].content[j].toolUseId == id
  }

  ghost predicate Called(ms: seq<Message>, id: string) {
    exists i: nat, j: nat :: CallAt(ms, i, j, id)
  }

  ghost predicate Answered(ms: seq<Message>, id: string) {
    exists i: nat, j: nat :: ResultAt(ms, i, j, id)
  }

  // ---- The id lists are those of the blocks ----

  lemma {:induction false} BlockCalls(content: seq<ContentBlock>, id: string)
    ensures id in CallsOfBlocks(content) <==>
              exists j: nat :: j < |content| && content[j].ToolUse? && content[j].id == id
  {
    if content != [] {
      BlockCalls(content[1..], id);
      assert forall j :: 0 < j < |content| ==> content[j] == content[1..][j - 1];
      assert forall j :: 0 <= j < |content[1..]| ==> content[1..][j] == content[j + 1];
    }
  }

  lemma {:induction false} BlockResults(content: seq<ContentBlock>, id: string)
    ensures id in ResultsOfBlocks(content) <==>
              exists j: nat :: j < |content| && content[j].ToolResult? && content[j].toolUseId == id
  {
    if content != [] {
      BlockResults(content[1..], id);
      assert forall j :: 0 < j < |content| ==> content[j] == content[1..][j - 1];
      assert forall j :: 0 <= j < |content[1..]| ==> content[1..][j] == content[j + 1];
    }
  }

  lemma {:induction false} CallsAreBlocks(ms: seq<Message>, id: string)
    ensures id in Calls(ms) <==> Called(ms, id)
  {
    if ms != [] {
      var rest := ms[1..];
      CallsAreBlocks(rest, id);
      BlockCalls(ms[0].content, id);
      forall i: nat, j: nat ensures CallAt(rest, i, j, id) <==> CallAt(ms, i + 1, j, id) {}
      if i: nat, j: nat :| CallAt(ms, i, j, id) {
        assert i > 0 ==> CallAt(rest, i - 1, j, id);
      }
      if ms[0].role.Assistant? && id in CallsOfBlocks(ms[0].content) {
        var j: nat :| j < |ms[0].content| && ms[0].content[j].ToolUse? && ms[0].content[j].id == id;
        assert CallAt(ms, 0, j, id);
      }
    }
  }

  lemma {:induction false} ResultsAreBlocks(ms: seq<Message>, id: string)
    ensures id in Results(ms) <==> Answered(ms, id)
  {
    if ms != [] {
      var rest := ms[1..];
      ResultsAreBlocks(rest, id);
      BlockResults(ms[0].content, id);
      forall i: nat, j: nat ensures ResultAt(rest, i, j, id) <==> ResultAt(ms, i + 1, j, id) {}
      if i: nat, j: nat :| ResultAt(ms, i, j, id) {
        assert i > 0 ==> ResultAt(rest, i - 1, j, id);
      }
      if ms[0].role.User? && id in ResultsOfBlocks(ms[0].content) {
        var j: nat :| j < |ms[0].content| && ms[0].content[j].ToolResult? && ms[0].content[j].toolUseId == id;
        assert ResultAt(ms, 0, j, id);
      }
    }
  }

  // ---- Every call is answered ----

  /** Over every run: right after a repair, every tool call block of an assistant's message has a tool result block for
      its id in some user's message. */
  lemma EveryCallBlockIsAnswered(s: Tracker, ops: seq<Op>, i: nat, j: nat, id: string)
    requires Tracks(s) && CallAt(Step(Run(s, ops), Repair).messages, i, j, id)
    ensures Answered(Step(Run(s, ops), Repair).messages, id)
  {
    var ms := Step(Run(s, ops), Repair).messages;
    TrackingOverRuns(s, ops);
    CallsAreBlocks(ms, id);
    ResultsAreBlocks(ms, id);
  }

  // ---- One result per unanswered call block, in block order ----

  /** Block `j` is a tool call whose id is not known. */
  predicate MissesAt(content: seq<ContentBlock>, known: set<string>, j: nat) {
    j < |content| && content[j].ToolUse? && content[j].id !in known
  }

  predicate Ascending(places: seq<nat>) {
    forall j, k :: 0 <= j < k < |places| ==> places[j] < places[k]
  }

  /** The places are those of the tool call blocks whose ids are not known, from first to last. */
  ghost predicate PlacesOfMissing(content: seq<ContentBlock>, known: set<string>, places: seq<nat>) {
    && Ascending(places)
    && forall j: nat :: j in places <==> MissesAt(content, known, j)
  }

  predicate IdsAt(content: seq<ContentBlock>, places: seq<nat>, ids: seq<string>) {
    && |places| == |ids|
    && forall k :: 0 <= k < |places| ==>
                     places[k] < |content| && content[places[k]].ToolUse? && content[places[k]].id == ids[k]
  }

  function MovedOn(places: seq<nat>): (r: seq<nat>)
    ensures |r| == |places| && forall k :: 0 <= k < |r| ==> r[k] == places[k] + 1
  {
    seq(|places|, k requires 0 <= k < |places| => places[k] + 1)
  }

  lemma MovedHolds(places: seq<nat>, j: nat)
    ensures j in MovedOn(places) <==> j > 0 && j - 1 in places
  {
    if j > 0 && j - 1 in places {
      var k :| 0 <= k < |places| && places[k] == j - 1;
      assert MovedOn(places)[k] == j;
    }
  }

  /** The first place, if the block in front is missing too, and the others one further on. */
  function InFront(first: bool, places: seq<nat>): seq<nat> {
    (if first then [0] else []) + MovedOn(places)
  }

  lemma InFrontHolds(first: bool, places: seq<nat>, j: nat)
    ensures j in InFront(first, places) <==> if j == 0 then first else j - 1 in places
    ensures Ascending(places) ==> Ascending(InFront(first, places))
  {
    MovedHolds(places, j);
    assert first ==> InFront(first, places)[0] == 0;
  }

  lemma BlockInFront(block: ContentBlock, rest: seq<ContentBlock>, known: set<string>, places: seq<nat>)
    requires PlacesOfMissing(rest, known, places)
    ensures PlacesOfMissing([block] + rest, known, InFront(MissesAt([block], known, 0), places))
  {
    var all, first := [block] + rest, MissesAt([block], known, 0);
    forall j: nat ensures j in InFront(first, places) <==> MissesAt(all, known, j) {
      InFrontHolds(first, places, j);
      assert j > 0 ==> (MissesAt(all, known, j) <==> MissesAt(rest, known, j - 1));
    }
    InFrontHolds(first, places, 0);
  }

  lemma IdsInFront(block: ContentBlock, rest: seq<ContentBlock>, known: set<string>, places: seq<nat>, ids: seq<string>)
    requires IdsAt(rest, places, ids)
    ensures IdsAt([block] + rest, InFront(MissesAt([block], known, 0), places),
                  (if MissesAt([block], known, 0) then [block.id] else []) + ids)
  {
  }

  lemma {:induction false} MissingOfBlocks(content: seq<ContentBlock>, known: set<string>) returns (places: seq<nat>)
    ensures PlacesOfMissing(content, known, places)
    ensures IdsAt(content, places, Missing(CallsOfBlocks(content), known))
  {
    places := [];
    if content != [] {
      var block, rest := content[0], content[1..];
      var later := MissingOfBlocks(rest, known);
      assert content == [block] + rest;
      BlockInFront(block, rest, known, later);
      IdsInFront(block, rest, known, later, Missing(CallsOfBlocks(rest), known));
      MissingInFront(block, CallsOfBlocks(rest), known);
      places := InFront(MissesAt([block], known, 0), later);
    }
  }

  lemma MissingInFront(block: ContentBlock, ids: seq<string>, known: set<string>)
    ensures Missing((if block.ToolUse? then [block.id] else []) + ids, known) ==
            (if block.ToolUse? && block.id !in known then [block.id] else []) + Missing(ids, known)
  {
    if block.ToolUse? {
      assert ([block.id] + ids)[1..] == ids;
    } else {
      assert [] + ids == ids;
    }
  }

  /** The messages that a repair puts right behind a message: for each of its unanswered tool call blocks, in block
      order, a user's message with one error result for the block's id, and nothing else. */
  ghost predicate AnswersInOrder(m: Message, known: set<string>, added: seq<Message>, places: seq<nat>) {
    && (m.role.Assistant? ==> PlacesOfMissing(m.content, known, places))
    && (m.role.User? ==> places == [])
    && |added| == |places|
    && forall k :: 0 <= k < |added| ==>
                     && added[k].role.User? && |added[k].content| == 1 && places[k] < |m.content|
                     && m.content[places[k]].ToolUse? && added[k].content[0].ToolResult?
                     && added[k].content[0].toolUseId == m.content[places[k]].id
                     && added[k].content[0].isError == Some(true)
                     && added[k].content[0].content == TOOL_OUTPUT_MISSING_TEXT
  }

  lemma AddedAnswerInOrder(m: Message, known: set<string>) returns (places: seq<nat>)
    ensures AnswersInOrder(m, known, MissingResults(MissingIn(m, known)), places)
  {
    places := [];
    if m.role.Assistant? {
      places := MissingOfBlocks(m.content, known);
    }
  }

  /** The ids known to a repair are those answered somewhere in the transcript. */
  lemma KnownIsAnswered(s: Tracker, id: string)
    requires Tracks(s)
    ensures id in Known(s) <==> Answered(s.messages, id)
  {
    assert s.messages == s.messages[..s.scanIndex] + s.messages[s.scanIndex..];
    CallsConcat(s.messages[..s.scanIndex], s.messages[s.scanIndex..]);
    ResultsAreBlocks(s.messages, id);
  }

  /** Where message `k` of the unscanned ones, the first of which is at `base`, stands after a repair. */
  function PlaceAfter(base: nat, unscanned: seq<Message>, known: set<string>, k: nat): nat
    requires k <= |unscanned|
  {
    base + |Rebuilt(unscanned[..k], known)|
  }

  /** Message `k` of the unscanned ones and what follows it up to the next one. */
  ghost predicate StandsWithAnswers(ms: seq<Message>, base: nat, unscanned: seq<Message>, known: set<string>, k: nat,
                                    places: seq<nat>)
    requires k < |unscanned|
  {
    var at, next := PlaceAfter(base, unscanned, known, k), PlaceAfter(base, unscanned, known, k + 1);
    && at < next <= |ms| && ms[at] == unscanned[k]
    && AnswersInOrder(unscanned[k], known, ms[at + 1..next], places)
  }

  /** The same for the rebuilt messages alone, with the places where they stand given. */
  lemma StandsInRebuilt(unscanned: seq<Message>, known: set<string>, k: nat, rebuilt: seq<Message>, at: nat, next: nat)
    requires k < |unscanned| && rebuilt == Rebuilt(unscanned, known)
    requires at == |Rebuilt(unscanned[..k], known)| && next == |Rebuilt(unscanned[..k + 1], known)|
    ensures at < next <= |rebuilt| && rebuilt[at] == unscanned[k]
    ensures rebuilt[at + 1..next] == MissingResults(MissingIn(unscanned[k], known))
  {
    RebuiltPlacesResults(unscanned, known, k);
  }

  lemma StandsBehindScanned(scanned: seq<Message>, rebuilt: seq<Message>, at: nat, next: nat, m: Message,
                            known: set<string>, places: seq<nat>)
    requires at < next <= |rebuilt| && rebuilt[at] == m && AnswersInOrder(m, known, rebuilt[at + 1..next], places)
    ensures var ms := scanned + rebuilt;
            && |scanned| + next <= |ms| && ms[|scanned| + at] == m
            && AnswersInOrder(m, known, ms[|scanned| + at + 1..|scanned| + next], places)
  {
    InRepaired(scanned, rebuilt, at, next);
  }

  lemma RebuiltStands(scanned: seq<Message>, unscanned: seq<Message>, known: set<string>, k: nat)
    returns (places: seq<nat>)
    requires k < |unscanned|
    ensures StandsWithAnswers(scanned + Rebuilt(unscanned, known), |scanned|, unscanned, known, k, places)
  {
    var at, next := |Rebuilt(unscanned[..k], known)|, |Rebuilt(unscanned[..k + 1], known)|;
    places := AddedAnswerInOrder(unscanned[k], known);
    StandsInRebuilt(unscanned, known, k, Rebuilt(unscanned, known), at, next);
    StandsBehindScanned(scanned, Rebuilt(unscanned, known), at, next, unscanned[k], known, places);
  }

  /** Whatever was scanned before: every message that was not is still there, followed at once by one error result for
      each of its tool call blocks that the transcript nowhere answers, in block order, and then by the next message. */
  lemma RepairAnswersInBlockOrder(s: Tracker, k: nat) returns (places: seq<nat>)
    requires Tracks(s) && s.scanIndex + k < |s.messages|
    ensures StandsWithAnswers(RepairedTracker(s).messages, s.scanIndex, s.messages[s.scanIndex..], Known(s), k, places)
    ensures forall id :: id in Known(s) <==> Answered(s.messages, id)
  {
    places := RebuiltStands(s.messages[..s.scanIndex], s.messages[s.scanIndex..], Known(s), k);
    forall id ensures id in Known(s) <==> Answered(s.messages, id) {
      KnownIsAnswered(s, id);
    }
  }

  lemma InRepaired(scanned: seq<Message>, rebuilt: seq<Message>, at: nat, next: nat)
    requires at < next <= |rebuilt|
    ensures var ms := scanned + rebuilt;
            ms[|scanned| + at] == rebuilt[at] && ms[|scanned| + at + 1..|scanned| + next] == rebuilt[at + 1..next]
  {
  }

  /** A message that was scanned before has no unanswered tool call block left. */
  lemma ScannedIsAnswered(s: Tracker, i: nat, j: nat, id: string)
    requires Tracks(s) && i < s.scanIndex && CallAt(s.messages, i, j, id)
    ensures Answered(s.messages, id) && RepairedTracker(s).messages[..s.scanIndex] == s.messages[..s.scanIndex]
  {
    assert CallAt(s.messages[..s.scanIndex], i, j, id);
    CallsAreBlocks(s.messages[..s.scanIndex], id);
    KnownIsAnswered(s, id);
  }
}
