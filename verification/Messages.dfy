/** Conversation messages, their size in bytes, and the tool ids they mention. */
module Messages {
  import opened Wrappers

  datatype Role = User | Assistant

  // The JSON input of a tool call is represented by its serialised text.
  datatype ContentBlock =
    | Text(text: string)
    | Reasoning(text: string)
    | ToolUse(id: string, name: string, input: string)
    | ToolResult(toolUseId: string, content: string, isError: Option<bool>)
    | Image(data: string)
    | OpenAICompaction(encryptedContent: string)

  datatype Message = Message(role: Role, content: seq<ContentBlock>)

  // ---- Size ----

  /** Bytes of one character in UTF-8. */
  function CharBytes(c: char): nat {
    if c < '\U{80}' then 1 else if c < '\U{800}' then 2 else if c < '\U{10000}' then 3 else 4
  }

  function ByteLen(s: string): nat {
    if s == [] then 0 else CharBytes(s[0]) + ByteLen(s[1..])
  }

  function BlockChars(b: ContentBlock): nat {
    match b
    case Text(text) => ByteLen(text)
    case Reasoning(text) => ByteLen(text)
    case ToolUse(_, _, input) => ByteLen(input) + 50
    case ToolResult(_, content, _) => ByteLen(content) + 20
    case Image(data) => ByteLen(data)
    case OpenAICompaction(encrypted) => ByteLen(encrypted)
  }

  function ContentChars(content: seq<ContentBlock>): nat {
    if content == [] then 0 else BlockChars(content[0]) + ContentChars(content[1..])
  }

  function MessageChars(m: Message): nat {
    ContentChars(m.content)
  }

  function TotalChars(ms: seq<Message>): nat {
    if ms == [] then 0 else MessageChars(ms[0]) + TotalChars(ms[1..])
  }

  lemma {:induction false} TotalCharsConcat(a: seq<Message>, b: seq<Message>)
    ensures TotalChars(a + b) == TotalChars(a) + TotalChars(b)
  {
    if a == [] {
      assert a + b == b;
    } else {
      assert (a + b)[1..] == a[1..] + b;
      TotalCharsConcat(a[1..], b);
    }
  }

  lemma {:induction false} ByteLenConcat(a: string, b: string)
    ensures ByteLen(a + b) == ByteLen(a) + ByteLen(b)
  {
    if a == [] {
      assert a + b == b;
    } else {
      assert (a + b)[1..] == a[1..] + b;
      ByteLenConcat(a[1..], b);
    }
  }

  /** A text has a byte for each character and up to three more for those that are not ASCII. */
  lemma {:induction false} ByteLenBounds(s: string)
    ensures |s| <= ByteLen(s) <= 4 * |s|
    ensures ByteLen(s) == |s| <==> forall k :: 0 <= k < |s| ==> s[k] < '\U{80}'
  {
    if s != [] {
      ByteLenBounds(s[1..]);
      assert forall k :: 0 < k < |s| ==> s[k] == s[1..][k - 1];
      assert forall k :: 0 <= k < |s| - 1 ==> s[1..][k] == s[k + 1];
    }
  }

  /** A message is as long as its blocks together: their text, and something for each call and each result. */
  lemma {:induction false} ContentCharsConcat(a: seq<ContentBlock>, b: seq<ContentBlock>)
    ensures ContentChars(a + b) == ContentChars(a) + ContentChars(b)
  {
    if a == [] {
      assert a + b == b;
    } else {
      assert (a + b)[1..] == a[1..] + b;
      ContentCharsConcat(a[1..], b);
    }
  }

  lemma OneBlockChars(b: ContentBlock)
    ensures var size := ContentChars([b]);
            match b
            case Text(text) => size == ByteLen(text)
            case Reasoning(text) => size == ByteLen(text)
            case ToolUse(_, _, input) => size == ByteLen(input) + 50
            case ToolResult(_, content, _) => size == ByteLen(content) + 20
            case Image(data) => size == ByteLen(data)
            case OpenAICompaction(encrypted) => size == ByteLen(encrypted)
  {
    assert [b][1..] == [];
  }

  // ---- Tool ids, whatever the role of the message that carries them ----

  ghost function UsedIn(content: seq<ContentBlock>): set<string> {
    set b | b in content && b.ToolUse? :: b.id
  }

  ghost function AnsweredIn(content: seq<ContentBlock>): set<string> {
    set b | b in content && b.ToolResult? :: b.toolUseId
  }

  ghost function Uses(ms: seq<Message>): set<string> {
    if ms == [] then {} else UsedIn(ms[0].content) + Uses(ms[1..])
  }

  ghost function Answers(ms: seq<Message>): set<string> {
    if ms == [] then {} else AnsweredIn(ms[0].content) + Answers(ms[1..])
  }

  lemma {:induction false} IdsConcat(a: seq<Message>, b: seq<Message>)
    ensures Uses(a + b) == Uses(a) + Uses(b)
    ensures Answers(a + b) == Answers(a) + Answers(b)
  {
    if a == [] {
      assert a + b == b;
    } else {
      assert (a + b)[1..] == a[1..] + b;
      IdsConcat(a[1..], b);
    }
  }
}
