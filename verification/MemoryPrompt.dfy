/** The conversation excerpt given to the memory side calls: the newest messages that fit a character budget. */
module MemoryPrompt {
  import opened Wrappers
  import opened Messages

  const MEMORY_CONTEXT_MAX_CHARS: nat := 8_000
  const MEMORY_CONTEXT_MAX_MESSAGES: nat := 12
  const MEMORY_CONTEXT_MAX_BLOCK_CHARS: nat := 1_200
  const EXTRACTION_CONTEXT_MAX_MESSAGES: nat := 40
  const EXTRACTION_CONTEXT_MAX_CHARS: nat := 24_000

  // ---- Text ----

  /** The characters with the Unicode property White_Space. */
  predicate IsWhitespace(c: char) {
    || '\U{9}' <= c <= '\U{D}' || c == ' ' || c == '\U{85}' || c == '\U{A0}' || c == '\U{1680}'
    || '\U{2000}' <= c <= '\U{200A}' || c == '\U{2028}' || c == '\U{2029}' || c == '\U{202F}' || c == '\U{205F}'
    || c == '\U{3000}'
  }

  predicate AllWhitespace(s: string) {
    forall k :: 0 <= k < |s| ==> IsWhitespace(s[k])
  }

  function TrimStart(s: string): string {
    if s != [] && IsWhitespace(s[0]) then TrimStart(s[1..]) else s
  }

  function TrimEnd(s: string): string {
    if s != [] && IsWhitespace(s[|s| - 1]) then TrimEnd(s[..|s| - 1]) else s
  }

  function Trim(s: string): string {
    TrimEnd(TrimStart(s))
  }

  lemma {:induction false} TrimStartSplits(s: string) returns (left: string)
    ensures s == left + TrimStart(s) && AllWhitespace(left)
    ensures TrimStart(s) != [] ==> !IsWhitespace(TrimStart(s)[0])
  {
    left := [];
    if s != [] && IsWhitespace(s[0]) {
      var inner := TrimStartSplits(s[1..]);
      left := [s[0]] + inner;
      assert s == [s[0]] + s[1..];
    }
  }

  lemma {:induction false} TrimEndSplits(s: string) returns (right: string)
    ensures s == TrimEnd(s) + right && AllWhitespace(right)
    ensures TrimEnd(s) != [] ==> !IsWhitespace(TrimEnd(s)[|TrimEnd(s)| - 1]) && TrimEnd(s)[0] == s[0]
  {
    right := [];
    if s != [] && IsWhitespace(s[|s| - 1]) {
      var inner := TrimEndSplits(s[..|s| - 1]);
      right := inner + [s[|s| - 1]];
      assert s == s[..|s| - 1] + [s[|s| - 1]];
    }
  }

  /** Trimming takes whitespace off both ends and leaves none there. */
  lemma TrimSplits(s: string) returns (left: string, right: string)
    ensures s == left + Trim(s) + right && AllWhitespace(left) && AllWhitespace(right)
    ensures Trim(s) != [] ==> !IsWhitespace(Trim(s)[0]) && !IsWhitespace(Trim(s)[|Trim(s)| - 1])
  {
    left := TrimStartSplits(s);
    right := TrimEndSplits(TrimStart(s));
  }

  lemma TrimEmptyIff(s: string)
    ensures Trim(s) == [] <==> AllWhitespace(s)
  {
    var left, right := TrimSplits(s);
    if Trim(s) != [] {
      assert s[|left|] == Trim(s)[0];
    }
  }

  function TruncateChars(value: string, maxChars: nat): string {
    if |value| <= maxChars then value else value[..maxChars]
  }

  // ---- Blocks and messages ----

  type Formatter = ContentBlock -> Option<string>

  function FormatText(text: string): Option<string> {
    if Trim(text) == [] then None else Some(TruncateChars(Trim(text), MEMORY_CONTEXT_MAX_BLOCK_CHARS))
  }

  function FormatBlockForRelevance(block: ContentBlock): Option<string> {
    match block
    case Text(text) => FormatText(text)
    case ToolUse(_, name, _) => Some("[Tool: " + name + "]")
    case ToolResult(_, content, isError) =>
      if isError.GetOr(false)
      then Some("[Tool error: " + TruncateChars(Trim(content), MEMORY_CONTEXT_MAX_BLOCK_CHARS / 4) + "]")
      else None
    case Reasoning(_) => None
    case Image(_) => Some("[Image]")
    case OpenAICompaction(_) => Some("[OpenAI native compaction]")
  }

  function FormatBlockForExtraction(block: ContentBlock): Option<string> {
    match block
    case Text(text) => FormatText(text)
    case ToolUse(_, name, input) =>
      Some("[Tool: " + name + " input: " + TruncateChars(input, MEMORY_CONTEXT_MAX_BLOCK_CHARS / 2) + "]")
    case ToolResult(_, content, isError) =>
      var heading := if isError.GetOr(false) then "Tool error" else "Tool result";
      Some("[" + heading + ": " + TruncateChars(content, MEMORY_CONTEXT_MAX_BLOCK_CHARS / 2) + "]")
    case Reasoning(_) => None
    case Image(_) => Some("[Image]")
    case OpenAICompaction(_) => Some("[OpenAI native compaction]")
  }

  predicate Says(block: ContentBlock, format: Formatter) {
    format(block).Some? && format(block).value != []
  }

  /** One line per block that has something to say, in order. */
  function Lines(content: seq<ContentBlock>, format: Formatter): string {
    if content == [] then []
    else
      var rest, last := Lines(content[..|content| - 1], format), content[|content| - 1];
      if Says(last, format) then rest + format(last).value + "\n" else rest
  }

  function RoleName(role: Role): string {
    if role.User? then "User" else "Assistant"
  }

  function Chunk(m: Message, format: Formatter): string {
    var lines := Lines(m.content, format);
    if lines == [] then [] else RoleName(m.role) + ":\n" + lines
  }

  lemma {:induction false} LinesEmptyIff(content: seq<ContentBlock>, format: Formatter)
    ensures Lines(content, format) == [] <==> forall b :: b in content ==> !Says(b, format)
  {
    if content != [] {
      LinesEmptyIff(content[..|content| - 1], format);
      assert content == content[..|content| - 1] + [content[|content| - 1]];
    }
  }

  /** For the relevance check a message is left out exactly when it holds nothing but blank text, reasoning and tool
      results that are not errors. */
  lemma LeftOutOfRelevance(m: Message)
    ensures Chunk(m, FormatBlockForRelevance) == [] <==>
              forall b :: b in m.content ==>
                (b.Text? && AllWhitespace(b.text)) || b.Reasoning? || (b.ToolResult? && b.isError != Some(true))
  {
    LinesEmptyIff(m.content, FormatBlockForRelevance);
    forall b | b in m.content
      ensures !Says(b, FormatBlockForRelevance) <==>
              (b.Text? && AllWhitespace(b.text)) || b.Reasoning? || (b.ToolResult? && b.isError != Some(true))
    {
      if b.Text? {
        TrimEmptyIff(b.text);
      }
    }
  }

  /** For extraction only blank text and reasoning are left out. */
  lemma LeftOutOfExtraction(m: Message)
    ensures Chunk(m, FormatBlockForExtraction) == [] <==>
              forall b :: b in m.content ==> (b.Text? && AllWhitespace(b.text)) || b.Reasoning?
  {
    LinesEmptyIff(m.content, FormatBlockForExtraction);
    forall b | b in m.content
      ensures !Says(b, FormatBlockForExtraction) <==> (b.Text? && AllWhitespace(b.text)) || b.Reasoning?
    {
      if b.Text? {
        TrimEmptyIff(b.text);
      }
    }
  }

  method FormatMessageContextWith(message: Message, format: Formatter) returns (result: string)
    ensures result == Chunk(message, format)
  {
    var chunk := RoleName(message.role);
    chunk := chunk + ":\n";
    ghost var head := chunk;
    var hasContent := false;
    for i := 0 to |message.content|
      invariant chunk == head + Lines(message.content[..i], format)
      invariant hasContent <==> Lines(message.content[..i], format) != []
    {
      assert message.content[..i + 1][..i] == message.content[..i];
      var text := format(message.content[i]);
      if text.Some? && text.value != [] {
        hasContent := true;
        chunk := chunk + text.value;
        chunk := chunk + "\n";
      }
    }
    assert message.content[..|message.content|] == message.content;
    return if hasContent then chunk else [];
  }

  // ---- The budgeted window ----

  /** The chunks of the messages that have one, in order. */
  function Chunks(ms: seq<Message>, format: Formatter): seq<string> {
    if ms == [] then []
    else
      var rest := Chunks(ms[1..], format);
      if Chunk(ms[0], format) == [] then rest else [Chunk(ms[0], format)] + rest
  }

  function Newest(ms: seq<Message>, n: nat): seq<Message> {
    ms[Monus(|ms|, n)..]
  }

  function Total(chunks: seq<string>): nat {
    if chunks == [] then 0 else |chunks[0]| + Total(chunks[1..])
  }

  /** How many chunks, counted from the last, fit the budget before the first that does not. */
  function FitCount(chunks: seq<string>, budget: nat): (n: nat)
    ensures n <= |chunks|
  {
    if chunks == [] || |chunks[|chunks| - 1]| > budget then 0
    else 1 + FitCount(chunks[..|chunks| - 1], budget - |chunks[|chunks| - 1]|)
  }

  function LastOf(chunks: seq<string>, n: nat): seq<string>
    requires n <= |chunks|
  {
    chunks[|chunks| - n..]
  }

  function Chosen(chunks: seq<string>, budget: nat): seq<string> {
    if chunks != [] && |chunks[|chunks| - 1]| > budget then [TruncateChars(chunks[|chunks| - 1], budget)]
    else LastOf(chunks, FitCount(chunks, budget))
  }

  lemma {:induction false} TotalConcat(a: seq<string>, b: seq<string>)
    ensures Total(a + b) == Total(a) + Total(b)
  {
    if a == [] {
      assert a + b == b;
    } else {
      assert (a + b)[1..] == a[1..] + b;
      TotalConcat(a[1..], b);
    }
  }

  lemma {:induction false} ChunksConcat(a: seq<Message>, b: seq<Message>, format: Formatter)
    ensures Chunks(a + b, format) == Chunks(a, format) + Chunks(b, format)
  {
    if a == [] {
      assert a + b == b;
    } else {
      assert (a + b)[1..] == a[1..] + b;
      ChunksConcat(a[1..], b, format);
    }
  }

  lemma LastOfSnoc(chunks: seq<string>, n: nat)
    requires n < |chunks|
    ensures Total(LastOf(chunks, n + 1)) == Total(LastOf(chunks[..|chunks| - 1], n)) + |chunks[|chunks| - 1]|
  {
    var init, last := chunks[..|chunks| - 1], chunks[|chunks| - 1];
    assert LastOf(chunks, n + 1) == LastOf(init, n) + [last];
    TotalConcat(LastOf(init, n), [last]);
    assert Total([last]) == |last|;
  }

  lemma {:induction false} FitCountFits(chunks: seq<string>, budget: nat)
    ensures Total(LastOf(chunks, FitCount(chunks, budget))) <= budget
    ensures FitCount(chunks, budget) < |chunks| ==> Total(LastOf(chunks, FitCount(chunks, budget) + 1)) > budget
  {
    if chunks == [] {
    } else if |chunks[|chunks| - 1]| > budget {
      LastOfSnoc(chunks, 0);
    } else {
      var rest := budget - |chunks[|chunks| - 1]|;
      var n := FitCount(chunks[..|chunks| - 1], rest);
      FitCountFits(chunks[..|chunks| - 1], rest);
      LastOfSnoc(chunks, n);
      if n + 1 < |chunks| {
        LastOfSnoc(chunks, n + 1);
      }
    }
  }

  /** The count is the largest that fits: no longer run of newest chunks does. */
  lemma FitCountIsLargest(chunks: seq<string>, budget: nat, n: nat)
    requires n <= |chunks|
    ensures Total(LastOf(chunks, n)) <= budget <==> n <= FitCount(chunks, budget)
  {
    var m := FitCount(chunks, budget);
    FitCountFits(chunks, budget);
    if n <= m {
      LongerRunIsLarger(chunks, n, m);
    } else {
      LongerRunIsLarger(chunks, m + 1, n);
    }
  }

  lemma LongerRunIsLarger(chunks: seq<string>, n: nat, m: nat)
    requires n <= m <= |chunks|
    ensures Total(LastOf(chunks, n)) <= Total(LastOf(chunks, m))
  {
    assert LastOf(chunks, m) == chunks[|chunks| - m..|chunks| - n] + LastOf(chunks, n);
    TotalConcat(chunks[|chunks| - m..|chunks| - n], LastOf(chunks, n));
  }

  /** The newest chunk fits as soon as anything does. */
  lemma ChosenIsRun(chunks: seq<string>, budget: nat)
    requires FitCount(chunks, budget) > 0
    ensures Chosen(chunks, budget) == LastOf(chunks, FitCount(chunks, budget))
  {
  }

  /** A run of newest chunks that fits while one more does not is the chosen one. */
  lemma ChosenRun(older: seq<string>, next: string, run: seq<string>, budget: nat)
    requires Total(run) <= budget < Total([next] + run)
    ensures Chosen(older + [next] + run, budget) == if run == [] then [TruncateChars(next, budget)] else run
  {
    var chunks := older + [next] + run;
    Joints(older + [next], run, []);
    assert LastOf(chunks, |run|) == run;
    assert LastOf(chunks, |run| + 1) == [next] + run;
    FitCountIsLargest(chunks, budget, |run|);
    FitCountIsLargest(chunks, budget, |run| + 1);
    if run != [] {
      ChosenIsRun(chunks, budget);
    } else {
      assert Total([next]) == |next|;
    }
  }

  lemma ChosenAll(chunks: seq<string>, budget: nat)
    requires Total(chunks) <= budget
    ensures Chosen(chunks, budget) == chunks
  {
    if chunks != [] {
      assert LastOf(chunks, |chunks|) == chunks;
      FitCountIsLargest(chunks, budget, |chunks|);
      ChosenIsRun(chunks, budget);
    }
  }

  lemma ChosenFits(chunks: seq<string>, budget: nat)
    ensures Total(Chosen(chunks, budget)) <= budget && |Chosen(chunks, budget)| <= |chunks|
  {
    FitCountFits(chunks, budget);
  }

  function Reversed(s: seq<string>): (r: seq<string>)
    ensures |r| == |s|
  {
    if s == [] then [] else [s[|s| - 1]] + Reversed(s[..|s| - 1])
  }

  lemma ReversedSnoc(s: seq<string>, x: string)
    ensures Reversed(s + [x]) == [x] + Reversed(s)
  {
    assert (s + [x])[..|s|] == s;
  }

  lemma {:induction false} NoChunkIsEmpty(ms: seq<Message>, format: Formatter)
    ensures Total(Chunks(ms, format)) == 0 ==> Chunks(ms, format) == []
    ensures forall k :: 0 <= k < |Chunks(ms, format)| ==> Chunks(ms, format)[k] != []
    ensures forall k :: 0 <= k < |Chunks(ms, format)| ==>
            Chunks(ms, format)[k][0] == 'U' || Chunks(ms, format)[k][0] == 'A'
  {
    if ms != [] {
      NoChunkIsEmpty(ms[1..], format);
    }
  }

  /** The chunks of the newest `i` messages. */
  function RunOf(ms: seq<Message>, i: nat, format: Formatter): seq<string>
    requires i <= |ms|
  {
    Chunks(ms[|ms| - i..], format)
  }

  lemma ChunkPrepends(m: Message, tail: seq<Message>, format: Formatter)
    requires Chunk(m, format) != []
    ensures Chunks([m] + tail, format) == [Chunk(m, format)] + Chunks(tail, format)
  {
    assert ([m] + tail)[1..] == tail;
  }

  lemma RunGrows(ms: seq<Message>, i: nat, format: Formatter)
    requires i < |ms|
    ensures var next := Chunk(ms[|ms| - 1 - i], format);
            && RunOf(ms, i + 1, format) == (if next == [] then [] else [next]) + RunOf(ms, i, format)
            && Total(RunOf(ms, i + 1, format)) == |next| + Total(RunOf(ms, i, format))
  {
    assert ms[|ms| - i - 1..] == [ms[|ms| - 1 - i]] + ms[|ms| - i..];
  }

  lemma {:induction false} StopsBetween(older: seq<Message>, m: Message, tail: seq<Message>, budget: nat,
                                        format: Formatter)
    requires Chunk(m, format) != []
    requires Total(Chunks(tail, format)) <= budget < Total(Chunks(tail, format)) + |Chunk(m, format)|
    ensures Chosen(Chunks(older + ([m] + tail), format), budget)
            == if Chunks(tail, format) == [] then [TruncateChars(Chunk(m, format), budget)] else Chunks(tail, format)
  {
    ChunksConcat(older, [m] + tail, format);
    ChunkPrepends(m, tail, format);
    Regroup(Chunks(older, format), [Chunk(m, format)], Chunks(tail, format));
    ChosenRun(Chunks(older, format), Chunk(m, format), Chunks(tail, format), budget);
  }

  lemma NewestSplits(ms: seq<Message>, maxMessages: nat, i: nat)
    requires i < Min(maxMessages, |ms|)
    ensures var all := Newest(ms, maxMessages);
            all == all[..|all| - i - 1] + ([ms[|ms| - 1 - i]] + ms[|ms| - i..])
  {
    var all := Newest(ms, maxMessages);
    assert all == all[..|all| - i - 1] + all[|all| - i - 1..];
    assert all[|all| - i - 1..] == ms[|ms| - i - 1..];
  }

  lemma StopsHere(ms: seq<Message>, maxMessages: nat, budget: nat, format: Formatter, i: nat)
    requires i < Min(maxMessages, |ms|)
    requires var next, run := Chunk(ms[|ms| - 1 - i], format), RunOf(ms, i, format);
             next != [] && Total(run) <= budget < Total(run) + |next|
    ensures var next, run := Chunk(ms[|ms| - 1 - i], format), RunOf(ms, i, format);
            && (Total(run) == 0 <==> run == [])
            && Chosen(Chunks(Newest(ms, maxMessages), format), budget)
               == if run == [] then [TruncateChars(next, budget)] else run
  {
    var all, m, tail := Newest(ms, maxMessages), ms[|ms| - 1 - i], ms[|ms| - i..];
    var older := all[..|all| - i - 1];
    NewestSplits(ms, maxMessages, i);
    NoChunkIsEmpty(tail, format);
    StopsBetween(older, m, tail, budget, format);
  }

  /** What the loop below leaves: the chosen chunks, newest first. */
  predicate CollectedAll(ms: seq<Message>, maxMessages: nat, budget: nat, format: Formatter, chunks: seq<string>) {
    Reversed(chunks) == Chosen(Chunks(Newest(ms, maxMessages), format), budget)
  }

  predicate Collected(ms: seq<Message>, i: nat, budget: nat, format: Formatter, chunks: seq<string>, totalChars: nat)
    requires i <= |ms|
  {
    Reversed(chunks) == RunOf(ms, i, format) && totalChars == Total(RunOf(ms, i, format)) <= budget
  }

  lemma CollectsOne(ms: seq<Message>, i: nat, budget: nat, format: Formatter, chunks: seq<string>, totalChars: nat)
    requires i < |ms| && Collected(ms, i, budget, format, chunks, totalChars)
    ensures var next := Chunk(ms[|ms| - 1 - i], format);
            && (next == [] ==> Collected(ms, i + 1, budget, format, chunks, totalChars))
            && (next != [] && totalChars + |next| <= budget ==>
                  Collected(ms, i + 1, budget, format, chunks + [next], totalChars + |next|))
  {
    var next := Chunk(ms[|ms| - 1 - i], format);
    RunGrows(ms, i, format);
    ReversedSnoc(chunks, next);
  }

  lemma CollectingStops(ms: seq<Message>, maxMessages: nat, i: nat, budget: nat, format: Formatter, chunks: seq<string>,
                        totalChars: nat)
    requires i < Min(maxMessages, |ms|) && Collected(ms, i, budget, format, chunks, totalChars)
    requires totalChars + |Chunk(ms[|ms| - 1 - i], format)| > budget
    ensures CollectedAll(ms, maxMessages, budget, format,
                         if totalChars == 0 then chunks + [TruncateChars(Chunk(ms[|ms| - 1 - i], format), budget)]
                         else chunks)
  {
    StopsHere(ms, maxMessages, budget, format, i);
    ReversedSnoc(chunks, TruncateChars(Chunk(ms[|ms| - 1 - i], format), budget));
  }

  lemma CollectingEnds(ms: seq<Message>, maxMessages: nat, budget: nat, format: Formatter, chunks: seq<string>,
                       totalChars: nat)
    requires Collected(ms, Min(maxMessages, |ms|), budget, format, chunks, totalChars)
    ensures CollectedAll(ms, maxMessages, budget, format, chunks)
  {
    ChosenAll(Reversed(chunks), budget);
  }

  /** The loop over the newest messages, newest first. */
  method CollectNewest(ms: seq<Message>, maxMessages: nat, budget: nat, format: Formatter) returns (chunks: seq<string>)
    ensures CollectedAll(ms, maxMessages, budget, format, chunks)
  {
    chunks := [];
    var totalChars: nat := 0;
    for i := 0 to Min(maxMessages, |ms|)
      invariant Collected(ms, i, budget, format, chunks, totalChars)
    {
      var chunk := FormatMessageContextWith(ms[|ms| - 1 - i], format);
      CollectsOne(ms, i, budget, format, chunks, totalChars);
      if chunk == [] {
        continue;
      }
      var chunkLen := |chunk|;
      if totalChars + chunkLen > budget {
        CollectingStops(ms, maxMessages, i, budget, format, chunks, totalChars);
        if totalChars == 0 {
          chunks := chunks + [TruncateChars(chunk, budget)];
        }
        return;
      }
      totalChars := totalChars + chunkLen;
      chunks := chunks + [chunk];
    }
    CollectingEnds(ms, maxMessages, budget, format, chunks, totalChars);
  }

  function Join(chunks: seq<string>, separator: string): string {
    if chunks == [] then []
    else if |chunks| == 1 then chunks[0]
    else chunks[0] + separator + Join(chunks[1..], separator)
  }

  lemma {:induction false} JoinLength(chunks: seq<string>)
    ensures |Join(chunks, "\n")| == Total(chunks) + Monus(|chunks|, 1)
  {
    if |chunks| > 1 {
      JoinLength(chunks[1..]);
    }
  }

  function Context(ms: seq<Message>, maxMessages: nat, budget: nat, format: Formatter): string {
    Trim(Join(Chosen(Chunks(Newest(ms, maxMessages), format), budget), "\n"))
  }

  lemma {:induction false} AtMostOneChunkEach(ms: seq<Message>, format: Formatter)
    ensures |Chunks(ms, format)| <= |ms|
  {
    if ms != [] {
      AtMostOneChunkEach(ms[1..], format);
    }
  }

  /** The text never exceeds the budget by more than one separator per extra chunk, of which there are fewer than the
      window has messages; and it is the joined chunks with nothing but whitespace taken off their end. */
  lemma ContextFacts(ms: seq<Message>, maxMessages: nat, budget: nat, format: Formatter)
    requires maxMessages > 0 && budget > 0
    ensures var chosen := Chosen(Chunks(Newest(ms, maxMessages), format), budget);
            var context := Context(ms, maxMessages, budget, format);
            && |chosen| <= maxMessages
            && |context| <= budget + Monus(|chosen|, 1)
            && context <= Join(chosen, "\n") && AllWhitespace(Join(chosen, "\n")[|context|..])
  {
    var chunks := Chunks(Newest(ms, maxMessages), format);
    var chosen := Chosen(chunks, budget);
    AtMostOneChunkEach(Newest(ms, maxMessages), format);
    ChosenFits(chunks, budget);
    JoinLength(chosen);
    NoChunkIsEmpty(Newest(ms, maxMessages), format);
    var joined := Join(chosen, "\n");
    assert joined != [] ==> !IsWhitespace(joined[0]);
    var right := TrimEndSplits(joined);
  }

  method FormatContext(ms: seq<Message>, maxMessages: nat, budget: nat, format: Formatter) returns (context: string)
    ensures context == Context(ms, maxMessages, budget, format)
  {
    var chunks := CollectNewest(ms, maxMessages, budget, format);
    chunks := Reversed(chunks);
    context := Trim(Join(chunks, "\n"));
  }

  method FormatContextForRelevance(ms: seq<Message>) returns (context: string)
    ensures context == Context(ms, MEMORY_CONTEXT_MAX_MESSAGES, MEMORY_CONTEXT_MAX_CHARS, FormatBlockForRelevance)
    ensures |context| < MEMORY_CONTEXT_MAX_CHARS + MEMORY_CONTEXT_MAX_MESSAGES
  {
    context := FormatContext(ms, MEMORY_CONTEXT_MAX_MESSAGES, MEMORY_CONTEXT_MAX_CHARS, FormatBlockForRelevance);
    ContextFacts(ms, MEMORY_CONTEXT_MAX_MESSAGES, MEMORY_CONTEXT_MAX_CHARS, FormatBlockForRelevance);
  }

  method FormatContextForExtraction(ms: seq<Message>) returns (context: string)
    ensures context == Context(ms, EXTRACTION_CONTEXT_MAX_MESSAGES, EXTRACTION_CONTEXT_MAX_CHARS,
                               FormatBlockForExtraction)
    ensures |context| < EXTRACTION_CONTEXT_MAX_CHARS + EXTRACTION_CONTEXT_MAX_MESSAGES
  {
    context := FormatContext(ms, EXTRACTION_CONTEXT_MAX_MESSAGES, EXTRACTION_CONTEXT_MAX_CHARS,
                             FormatBlockForExtraction);
    ContextFacts(ms, EXTRACTION_CONTEXT_MAX_MESSAGES, EXTRACTION_CONTEXT_MAX_CHARS, FormatBlockForExtraction);
  }

  /** The same excerpt said without the counting: either every longer run of newest chunks is over the budget and the
      excerpt is the longest that is not, or even the newest chunk alone is and the excerpt is its beginning. */
  lemma ChosenIsLongestRun(chunks: seq<string>, budget: nat)
    requires chunks != []
    ensures var newest := chunks[|chunks| - 1];
            var chosen := Chosen(chunks, budget);
            if |newest| > budget then chosen == [newest[..budget]]
            else
              && 0 < |chosen| <= |chunks| && chosen == chunks[|chunks| - |chosen|..]
              && (forall n :: 0 <= n <= |chunks| ==> (Total(LastOf(chunks, n)) <= budget <==> n <= |chosen|))
  {
    if |chunks[|chunks| - 1]| <= budget {
      forall n | 0 <= n <= |chunks|
        ensures Total(LastOf(chunks, n)) <= budget <==> n <= FitCount(chunks, budget)
      {
        FitCountIsLargest(chunks, budget, n);
      }
    }
  }

  // ---- What is said, and in which order ----

  /** The beginning of a text, as much of it as the length allows. */
  predicate Beginning(part: string, whole: string, length: nat) {
    part <= whole && |part| == Min(|whole|, length)
  }

  lemma TruncateIsBeginning(value: string, maxChars: nat)
    ensures Beginning(TruncateChars(value, maxChars), value, maxChars)
  {
  }

  /** What a block says in the relevance excerpt, `part` being what is kept of its text. */
  lemma RelevanceSays(block: ContentBlock) returns (part: string)
    requires Says(block, FormatBlockForRelevance)
    ensures var line := FormatBlockForRelevance(block).value;
            match block
            case Text(text) => line == part && Beginning(part, Trim(text), 1200)
            case ToolUse(_, name, _) => line == "[Tool: " + name + "]"
            case ToolResult(_, content, isError) =>
              isError == Some(true) && line == "[Tool error: " + part + "]" && Beginning(part, Trim(content), 300)
            case Image(_) => line == "[Image]"
            case OpenAICompaction(_) => line == "[OpenAI native compaction]"
            case Reasoning(_) => false
  {
    part := match block
      case Text(text) => TruncateChars(Trim(text), 1200)
      case ToolResult(_, content, _) => TruncateChars(Trim(content), 300)
      case _ => [];
  }

  lemma ResultSays(content: string, isError: Option<bool>, part: string)
    requires part == TruncateChars(content, 600)
    ensures FormatBlockForExtraction(ToolResult("", content, isError)) ==
            Some((if isError == Some(true) then "[Tool error: " else "[Tool result: ") + part + "]")
  {
    if isError == Some(true) {
      assert "[" + "Tool error" + ": " == "[Tool error: ";
    } else {
      assert "[" + "Tool result" + ": " == "[Tool result: ";
    }
  }

  /** What a block says in the extraction excerpt. */
  lemma ExtractionSays(block: ContentBlock) returns (part: string)
    requires Says(block, FormatBlockForExtraction)
    ensures var line := FormatBlockForExtraction(block).value;
            match block
            case Text(text) => line == part && Beginning(part, Trim(text), 1200)
            case ToolUse(_, name, input) =>
              line == "[Tool: " + name + " input: " + part + "]" && Beginning(part, input, 600)
            case ToolResult(_, content, isError) =>
              && Beginning(part, content, 600)
              && line == (if isError == Some(true) then "[Tool error: " else "[Tool result: ") + part + "]"
            case Image(_) => line == "[Image]"
            case OpenAICompaction(_) => line == "[OpenAI native compaction]"
            case Reasoning(_) => false
  {
    match block
    case Text(text) => part := TruncateChars(Trim(text), 1200);
    case ToolUse(_, _, input) => part := TruncateChars(input, 600);
    case ToolResult(_, content, isError) =>
      part := TruncateChars(content, 600);
      ResultSays(content, isError, part);
    case _ => part := [];
  }

  /** The lines of a message are those of its blocks, in order. */
  lemma {:induction false} LinesConcat(a: seq<ContentBlock>, b: seq<ContentBlock>, format: Formatter)
    ensures Lines(a + b, format) == Lines(a, format) + Lines(b, format)
  {
    if b == [] {
      assert a + b == a;
    } else {
      var init, last := b[..|b| - 1], b[|b| - 1];
      assert (a + b)[..|a + b| - 1] == a + init;
      LinesConcat(a, init, format);
      if Says(last, format) {
        Regroup(Lines(a, format), Lines(init, format), format(last).value + "\n");
      }
    }
  }

  lemma OneLine(block: ContentBlock, format: Formatter)
    ensures Lines([block], format) == if Says(block, format) then format(block).value + "\n" else []
  {
    assert [block][..0] == [];
  }

  /** A message that says something is its role and then its lines. */
  lemma ChunkIsRoleAndLines(m: Message, format: Formatter)
    requires Chunk(m, format) != []
    ensures Chunk(m, format) == (if m.role.User? then "User:\n" else "Assistant:\n") + Lines(m.content, format)
  {
  }

  /** Joined chunks stand in their order, with one separator between. */
  lemma {:induction false} JoinConcat(a: seq<string>, b: seq<string>)
    requires a != [] && b != []
    ensures Join(a + b, "\n") == Join(a, "\n") + "\n" + Join(b, "\n")
  {
    if |a| == 1 {
      assert (a + b)[1..] == b;
    } else {
      assert (a + b)[1..] == a[1..] + b;
      JoinConcat(a[1..], b);
    }
  }

  /** Messages older than the window do not matter, and within it none is skipped. */
  lemma ContextIgnoresOlder(older: seq<Message>, recent: seq<Message>, maxMessages: nat, budget: nat, format: Formatter)
    requires older != [] ==> |recent| >= maxMessages
    ensures Context(older + recent, maxMessages, budget, format) == Context(recent, maxMessages, budget, format)
    ensures |recent| <= maxMessages ==> Newest(recent, maxMessages) == recent
  {
    assert Newest(older + recent, maxMessages) == Newest(recent, maxMessages);
  }

  /** The newest message that says something is always there: whole, or its beginning if it alone is over the budget. */
  lemma NewestIsThere(ms: seq<Message>, maxMessages: nat, budget: nat, format: Formatter)
    requires maxMessages > 0 && ms != [] && Chunk(ms[|ms| - 1], format) != []
    ensures var chosen := Chosen(Chunks(Newest(ms, maxMessages), format), budget);
            && chosen != []
            && Beginning(chosen[|chosen| - 1], Chunk(ms[|ms| - 1], format), budget)
  {
    var all, last := Newest(ms, maxMessages), ms[|ms| - 1];
    assert all == all[..|all| - 1] + [last];
    ChunksConcat(all[..|all| - 1], [last], format);
    assert [last][1..] == [];
    var chunks := Chunks(all, format);
    assert chunks[|chunks| - 1] == Chunk(last, format);
    ChosenIsLongestRun(chunks, budget);
  }
}
