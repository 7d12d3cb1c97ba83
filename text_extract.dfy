/** Extraction of searchable, role-tagged text segments from a message's JSON content
    (hapi-search/src/text_extract.rs). `render` stands for `Value::to_string`. */
module TextExtract {
  import opened Base
  import opened Strings
  import opened Json
  import opened Models

  const USER := "user"
  const ASSISTANT := "assistant"
  const TOOL := "tool"
  const TOOL_RESULT := "tool_result"

  /** Every segment the extractor produces: a known role, non-empty text, user and
      assistant text never blank, tool results at most 2000 chars plus the "..." marker. */
  predicate WellFormedSegment(seg: TextSegment) {
    && seg.role in {USER, ASSISTANT, TOOL, TOOL_RESULT}
    && seg.text != []
    && (seg.role in {USER, ASSISTANT} ==> !IsBlank(seg.text))
    && (seg.role == TOOL_RESULT ==> |seg.text| <= 2003)
  }

  predicate AllWellFormed(segs: seq<TextSegment>) {
    forall i | 0 <= i < |segs| :: WellFormedSegment(segs[i])
  }

  predicate NoUserSegment(segs: seq<TextSegment>) {
    forall i | 0 <= i < |segs| :: segs[i].role != USER
  }

  /** `v.and_then(|c| c.get(key))` */
  function GetIn(v: Option<Value>, key: string): Option<Value> {
    if v.Some? then v.value.Get(key) else None
  }

  /** `content.role` as a string, else "unknown". */
  function RoleOf(content: Value): string {
    StrField(content, "role").GetOr("unknown")
  }

  /** Keep the first and last `maxChars / 2` characters around "..." when `s` is longer
      than `maxChars`. The result may exceed `maxChars` by the three marker characters. */
  function TruncateStr(s: string, maxChars: nat): (r: string)
    ensures |s| <= maxChars ==> r == s
    ensures |s| > maxChars ==>
      var keep := maxChars / 2;
      && |r| == 2 * keep + 3
      && r[..keep] == s[..keep]
      && r[keep..keep + 3] == "..."
      && r[keep + 3..] == s[|s| - keep..]
    ensures |r| <= maxChars + 3
  {
    if |s| <= maxChars then s
    else
      var keep := maxChars / 2;
      s[..keep] + "..." + s[|s| - keep..]
  }

  /** A string one or two characters over the limit comes back longer than it was. */
  lemma TruncateCanLengthen()
    ensures |TruncateStr(seq(2001, i => 'x'), 2000)| == 2003
  {
  }

  /** `truncate_json`: the value's JSON text, truncated. */
  function TruncateJson(v: Value, render: Value -> string, maxLen: nat): string {
    TruncateStr(render(v), maxLen)
  }

  // ---------------------------------------------------------------- user path

  /** `content.content.text` when it is a string */
  function UserTextField(content: Value): Option<string> {
    StrOf(GetIn(content.Get("content"), "text"))
  }

  /** `extract_user_text`: at most one "user" segment, present exactly when
      `content.content.text` is a string that is not blank. */
  function ExtractUserText(content: Value): (r: seq<TextSegment>)
    ensures |r| <= 1 && AllWellFormed(r)
    ensures r != [] <==> UserTextField(content).Some? && !IsBlank(UserTextField(content).value)
    ensures r != [] ==> r[0] == TextSegment(USER, UserTextField(content).value)
  {
    var text := UserTextField(content);
    if text.Some? && !IsBlank(text.value) then [TextSegment(USER, text.value)] else []
  }

  // ----------------------------------------------------------- assistant path

  /** The candidate block sources, in priority order. */
  function AgentContent(content: Value): Option<Value> {
    GetIn(GetIn(content.Get("content"), "message"), "content")
  }

  function DataContent(content: Value): Option<Value> {
    GetIn(content.Get("content"), "data")
  }

  function DirectContent(content: Value): Option<Value> {
    var c := content.Get("content");
    if c.Some? && c.value.Arr? then c else None
  }

  /** The first present source wins, whatever it holds. */
  function AssistantBlocks(content: Value): (r: Option<Value>)
    ensures AgentContent(content).Some? ==> r == AgentContent(content)
    ensures AgentContent(content).None? && DataContent(content).Some? ==> r == DataContent(content)
    ensures AgentContent(content).None? && DataContent(content).None? ==> r == DirectContent(content)
  {
    AgentContent(content).Or(DataContent(content)).Or(DirectContent(content))
  }

  /** `extract_tool_result_text`, as a reference definition: a string content as is, an
      array's string `text` fields joined by newlines, any other value as truncated JSON,
      and "" when there is no `content`. */
  function ToolResultText(block: Value, render: Value -> string): string {
    match block.Get("content")
    case None => []
    case Some(c) =>
      match c
      case Str(s) => s
      case Arr(parts) => Join(PartTexts(parts), "\n")
      case _ => TruncateJson(c, render, 500)
  }

  /** The string `text` fields of `parts`, in order. */
  function PartTexts(parts: seq<Value>): seq<string> {
    if |parts| == 0 then []
    else
      var t := StrField(parts[|parts| - 1], "text");
      PartTexts(parts[..|parts| - 1]) + (if t.Some? then [t.value] else [])
  }

  /** A block's `type` field, "" when missing or not a string. */
  function BlockType(block: Value): string {
    StrField(block, "type").GetOr("")
  }

  /** The segment, if any, that one content block contributes: only "text", "tool_use"
      and "tool_result" blocks contribute, each with the role of its type. */
  function BlockSegment(block: Value, render: Value -> string): (r: seq<TextSegment>)
    ensures |r| <= 1 && AllWellFormed(r) && NoUserSegment(r)
    ensures BlockType(block) !in {"text", "tool_use", "tool_result"} ==> r == []
    ensures BlockType(block) == "text" ==>
      && (r != [] <==> StrField(block, "text").Some? && !IsBlank(StrField(block, "text").value))
      && (r != [] ==> r[0] == TextSegment(ASSISTANT, StrField(block, "text").value))
    ensures BlockType(block) == "tool_use" ==>
      && (block.Get("input").None? ==> r == [])
      && (block.Get("input").Some? ==>
            var input := TruncateJson(block.Get("input").value, render, 500);
            && (r != [] <==> input != [])
            && (r != [] ==>
                  r[0] == TextSegment(TOOL, "Tool: " + StrField(block, "name").GetOr("unknown") + " Input: " + input)))
    ensures BlockType(block) == "tool_result" ==>
      && (r != [] <==> ToolResultText(block, render) != [])
      && (r != [] ==> r[0] == TextSegment(TOOL_RESULT, TruncateStr(ToolResultText(block, render), 2000)))
  {
    var blockType := BlockType(block);
    if blockType == "text" then
      var text := StrField(block, "text");
      if text.Some? && !IsBlank(text.value) then [TextSegment(ASSISTANT, text.value)] else []
    else if blockType == "tool_use" then
      var name := StrField(block, "name").GetOr("unknown");
      var input := match block.Get("input") case Some(v) => TruncateJson(v, render, 500) case None => "";
      if input != [] then [TextSegment(TOOL, "Tool: " + name + " Input: " + input)] else []
    else if blockType == "tool_result" then
      var resultText := ToolResultText(block, render);
      if resultText != [] then [TextSegment(TOOL_RESULT, TruncateStr(resultText, 2000))] else []
    else
      []
  }

  /** The segments of a list of blocks, in block order. */
  function BlocksSegments(blocks: seq<Value>, render: Value -> string): (r: seq<TextSegment>)
    ensures |r| <= |blocks| && AllWellFormed(r) && NoUserSegment(r)
  {
    if |blocks| == 0 then []
    else BlocksSegments(blocks[..|blocks| - 1], render) + BlockSegment(blocks[|blocks| - 1], render)
  }

  lemma BlocksStep(blocks: seq<Value>, i: nat, render: Value -> string)
    requires i < |blocks|
    ensures BlocksSegments(blocks[..i + 1], render) == BlocksSegments(blocks[..i], render) + BlockSegment(blocks[i], render)
  {
    PrefixStep(blocks, i);
  }

  /** A text block gives back its text as an assistant segment. */
  lemma TextBlockRoundTrip(text: string, render: Value -> string)
    requires !IsBlank(text)
    ensures BlockSegment(Obj(map["type" := Str("text"), "text" := Str(text)]), render)
            == [TextSegment(ASSISTANT, text)]
  {
    var block := Obj(map["type" := Str("text"), "text" := Str(text)]);
    assert BlockType(block) == "text";
  }

  /** A tool result given as a string comes back truncated to 2000 characters. */
  lemma ToolResultBlockRoundTrip(result: string, render: Value -> string)
    requires result != []
    ensures BlockSegment(Obj(map["type" := Str("tool_result"), "content" := Str(result)]), render)
            == [TextSegment(TOOL_RESULT, TruncateStr(result, 2000))]
  {
    var block := Obj(map["type" := Str("tool_result"), "content" := Str(result)]);
    assert BlockType(block) == "tool_result";
    assert ToolResultText(block, render) == result;
  }

  /** Blocks of any other type contribute nothing, wherever they stand. */
  lemma {:induction false} OtherBlocksIgnored(blocks: seq<Value>, render: Value -> string)
    requires forall i | 0 <= i < |blocks| :: BlockType(blocks[i]) !in {"text", "tool_use", "tool_result"}
    ensures BlocksSegments(blocks, render) == []
  {
    if |blocks| > 0 {
      OtherBlocksIgnored(blocks[..|blocks| - 1], render);
    }
  }

  /** What `extract_content_blocks` appends for a block source. */
  function ContentBlockSegments(value: Value, render: Value -> string): (r: seq<TextSegment>)
    ensures AllWellFormed(r) && NoUserSegment(r)
    ensures value.Str? ==> (r != [] <==> !IsBlank(value.s))
    ensures value.Str? && !IsBlank(value.s) ==> r == [TextSegment(ASSISTANT, value.s)]
    ensures !value.Str? && !value.Arr? ==> r == []
  {
    match value
    case Str(s) => if !IsBlank(s) then [TextSegment(ASSISTANT, s)] else []
    case Arr(blocks) => BlocksSegments(blocks, render)
    case _ => []
  }

  /** `extract_assistant_text`: the segments of the first present block source. */
  function ExtractAssistantText(content: Value, render: Value -> string): (r: seq<TextSegment>)
    ensures AllWellFormed(r) && NoUserSegment(r)
    ensures AssistantBlocks(content).None? ==> r == []
  {
    var blocks := AssistantBlocks(content);
    if blocks.Some? then ContentBlockSegments(blocks.value, render) else []
  }

  /** `extract_text`: dispatch on the message's role. A "user" message uses only the user
      path, an "assistant" message only the assistant path, and any other role tries the
      user path and falls back to the assistant path when that yields nothing. */
  function ExtractText(content: Value, render: Value -> string): (r: seq<TextSegment>)
    ensures AllWellFormed(r)
    ensures RoleOf(content) == USER ==> r == ExtractUserText(content)
    ensures RoleOf(content) == ASSISTANT ==> r == ExtractAssistantText(content, render)
    ensures RoleOf(content) != USER && RoleOf(content) != ASSISTANT ==>
      r == if ExtractUserText(content) != [] then ExtractUserText(content)
           else ExtractAssistantText(content, render)
  {
    var role := RoleOf(content);
    if role == USER then ExtractUserText(content)
    else if role == ASSISTANT then ExtractAssistantText(content, render)
    else
      var segments := ExtractUserText(content);
      if segments == [] then ExtractAssistantText(content, render) else segments
  }

  /** A message with a user text field yields a single user segment for any role other
      than "assistant", and then the assistant path is never consulted. */
  lemma UserPathWins(content: Value, render: Value -> string)
    requires RoleOf(content) != ASSISTANT
    requires UserTextField(content).Some? && !IsBlank(UserTextField(content).value)
    ensures ExtractText(content, render) == [TextSegment(USER, UserTextField(content).value)]
  {
  }

  // ------------------------------------------------------- imperative parts

  /** `extract_tool_result_text`, with the loop that collects the parts' texts. */
  method ExtractToolResultText(block: Value, render: Value -> string) returns (r: string)
    ensures r == ToolResultText(block, render)
  {
    var content := block.Get("content");
    if content.None? {
      return [];
    }
    match content.value {
      case Str(s) =>
        r := s;
      case Arr(parts) =>
        var texts: seq<string> := [];
        var i := 0;
        while i < |parts|
          invariant 0 <= i <= |parts|
          invariant texts == PartTexts(parts[..i])
        {
          var text := StrField(parts[i], "text");
          if text.Some? {
            texts := texts + [text.value];
          }
          assert parts[..i + 1][..i] == parts[..i];
          i := i + 1;
        }
        assert parts[..|parts|] == parts;
        r := Join(texts, "\n");
      case _ =>
        r := TruncateJson(content.value, render, 500);
    }
  }

  /** `extract_content_blocks`: appends the segments of `value` to `segments`. */
  method ExtractContentBlocks(value: Value, render: Value -> string, segments: seq<TextSegment>)
    returns (out: seq<TextSegment>)
    ensures out == segments + ContentBlockSegments(value, render)
  {
    out := segments;
    match value {
      case Str(s) =>
        if !IsBlank(s) {
          out := out + [TextSegment(ASSISTANT, s)];
        }
      case Arr(blocks) =>
        var i := 0;
        while i < |blocks|
          invariant 0 <= i <= |blocks|
          invariant out == segments + BlocksSegments(blocks[..i], render)
        {
          BlocksStep(blocks, i, render);
          AppendAssoc(segments, BlocksSegments(blocks[..i], render), BlockSegment(blocks[i], render));
          out := AppendBlockSegment(blocks[i], render, out);
          i := i + 1;
        }
        WholePrefix(blocks);
      case _ =>
    }
  }

  /** One iteration of the block loop in `extract_content_blocks`. */
  method AppendBlockSegment(block: Value, render: Value -> string, segments: seq<TextSegment>)
    returns (out: seq<TextSegment>)
    ensures out == segments + BlockSegment(block, render)
  {
    out := segments;
    var blockType := StrField(block, "type").GetOr("");
    if blockType == "text" {
      var text := StrField(block, "text");
      if text.Some? && !IsBlank(text.value) {
        out := out + [TextSegment(ASSISTANT, text.value)];
      }
    } else if blockType == "tool_use" {
      var name := StrField(block, "name").GetOr("unknown");
      var input := match block.Get("input") case Some(v) => TruncateJson(v, render, 500) case None => "";
      if input != [] {
        out := out + [TextSegment(TOOL, "Tool: " + name + " Input: " + input)];
      }
    } else if blockType == "tool_result" {
      var resultText := ExtractToolResultText(block, render);
      if resultText != [] {
        out := out + [TextSegment(TOOL_RESULT, TruncateStr(resultText, 2000))];
      }
    }
  }
}
