/** Merging whole messages into chunks of about 1500 characters
    (hapi-search/src/chunker.rs). */
module Chunker {
  import opened Base
  import opened Strings
  import opened Models

  const TARGET_CHUNK_CHARS: nat := 1500

  /** A message to be chunked. */
  datatype MessageInfo = MessageInfo(
    messageId: string, sessionId: string, seqNo: int, createdAt: int,
    segments: seq<TextSegment>)

  // ------------------------------------------------------- flatten_segments

  /** The "[role] text" parts of the non-blank segments, text trimmed, in order. */
  function SegmentParts(segments: seq<TextSegment>): (r: seq<string>)
    ensures |r| <= |segments|
    ensures forall i | 0 <= i < |r| :: |r[i]| > 0
  {
    if |segments| == 0 then []
    else
      var seg := segments[|segments| - 1];
      var text := Trim(seg.text);
      SegmentParts(segments[..|segments| - 1]) + (if text == [] then [] else ["[" + seg.role + "] " + text])
  }

  lemma SegmentPartsStep(segments: seq<TextSegment>)
    requires |segments| > 0
    ensures SegmentParts(segments) == [] <==>
      SegmentParts(segments[..|segments| - 1]) == [] && IsBlank(segments[|segments| - 1].text)
  {
    var last := segments[|segments| - 1];
    var text := Trim(last.text);
    assert text == [] <==> IsBlank(last.text);
  }

  predicate BlankSegments(segments: seq<TextSegment>) {
    forall i | 0 <= i < |segments| :: IsBlank(segments[i].text)
  }

  lemma BlankSegmentsStep(segments: seq<TextSegment>)
    requires |segments| > 0
    ensures BlankSegments(segments) <==>
      BlankSegments(segments[..|segments| - 1]) && IsBlank(segments[|segments| - 1].text)
  {
    var init := segments[..|segments| - 1];
    assert forall i | 0 <= i < |init| :: init[i] == segments[i];
  }

  /** There are no parts exactly when every segment's text is blank. */
  lemma {:induction false} SegmentPartsEmptyIff(segments: seq<TextSegment>)
    ensures SegmentParts(segments) == [] <==> forall i | 0 <= i < |segments| :: IsBlank(segments[i].text)
  {
    if |segments| > 0 {
      SegmentPartsEmptyIff(segments[..|segments| - 1]);
      SegmentPartsStep(segments);
      BlankSegmentsStep(segments);
    }
  }

  /** The flattened text of a message: its parts joined by newlines. */
  function Flatten(segments: seq<TextSegment>): string {
    Join(SegmentParts(segments), "\n")
  }

  /** A message flattens to nothing exactly when every segment's text is blank. */
  lemma FlattenEmptyIff(segments: seq<TextSegment>)
    ensures Flatten(segments) == [] <==> forall i | 0 <= i < |segments| :: IsBlank(segments[i].text)
  {
    var parts := SegmentParts(segments);
    SegmentPartsEmptyIff(segments);
  }

  /** `flatten_segments`, with its loop over the segments. */
  method FlattenSegments(segments: seq<TextSegment>) returns (r: string)
    ensures r == Flatten(segments)
  {
    var parts: seq<string> := [];
    for i := 0 to |segments|
      invariant parts == SegmentParts(segments[..i])
    {
      PrefixStep(segments, i);
      var text := Trim(segments[i].text);
      if text != [] {
        parts := parts + ["[" + segments[i].role + "] " + text];
      }
    }
    WholePrefix(segments);
    r := Join(parts, "\n");
  }

  // ----------------------------------------------------------- dominant_role

  predicate HasUserSegment(segments: seq<TextSegment>) {
    exists i | 0 <= i < |segments| :: segments[i].role == "user"
  }

  /** `dominant_role` */
  function DominantRole(segments: seq<TextSegment>): string {
    if HasUserSegment(segments) then "user"
    else if |segments| > 0 then segments[0].role
    else "unknown"
  }

  /** The dominant role is "user" when any segment is a user segment, otherwise the first
      segment's role, and "unknown" only for a message without segments (or whose first
      segment is itself called "unknown"). */
  lemma DominantRoleSpec(segments: seq<TextSegment>)
    ensures DominantRole(segments) == "user" <==> HasUserSegment(segments)
    ensures !HasUserSegment(segments) && |segments| > 0 ==> DominantRole(segments) == segments[0].role
    ensures |segments| == 0 ==> DominantRole(segments) == "unknown"
    ensures |segments| > 0 ==> exists i | 0 <= i < |segments| :: segments[i].role == DominantRole(segments)
  {
    if !HasUserSegment(segments) && |segments| > 0 {
      assert segments[0].role != "user";
    }
  }

  // ------------------------------------------------------- the chunk layout

  function MessageText(m: MessageInfo): string {
    Flatten(m.segments)
  }

  predicate HasText(m: MessageInfo) {
    MessageText(m) != []
  }

  /** The messages whose flattened text is not empty, in input order. */
  function Kept(messages: seq<MessageInfo>): (r: seq<MessageInfo>)
    ensures |r| <= |messages|
    ensures forall i | 0 <= i < |r| :: MessageText(r[i]) != []
  {
    Filter(HasText, messages)
  }

  function Texts(run: seq<MessageInfo>): (r: seq<string>)
    ensures |r| == |run|
  {
    MapSeq(MessageText, run)
  }


  /** A run of consecutive kept messages that share one chunk; never empty. */
  datatype Run = Run(first: MessageInfo, rest: seq<MessageInfo>) {
    function Messages(): seq<MessageInfo> {
      [first] + rest
    }

    /** The text of the run's chunk: its messages' texts joined by newlines. */
    function Text(): string {
      Join(Texts(Messages()), "\n")
    }
  }

  /** How one more kept message `x` extends the runs: it joins the last run when the
      run's text plus a newline plus its own text fits in TARGET_CHUNK_CHARS, and starts a
      new run otherwise. */
  function AddToRuns(runs: seq<Run>, x: MessageInfo): seq<Run> {
    if |runs| == 0 then [Run(x, [])]
    else
      var last := runs[|runs| - 1];
      if |last.Text()| + 1 + |MessageText(x)| > TARGET_CHUNK_CHARS then runs + [Run(x, [])]
      else runs[..|runs| - 1] + [Run(last.first, last.rest + [x])]
  }

  /** How the loop groups the kept messages into runs, one chunk per run. */
  function Runs(items: seq<MessageInfo>): seq<Run> {
    if |items| == 0 then [] else AddToRuns(Runs(items[..|items| - 1]), items[|items| - 1])
  }

  lemma RunsSnoc(items: seq<MessageInfo>, x: MessageInfo)
    ensures Runs(items + [x]) == AddToRuns(Runs(items), x)
  {
    assert (items + [x])[..|items|] == items;
  }

  /** The chunk for `run`: text from all of its messages, everything else from its first. */
  function MakeChunk(run: Run, index: nat): TextChunk {
    var first := run.first;
    TextChunk(first.messageId, first.sessionId, first.seqNo, first.createdAt,
              DominantRole(first.segments), run.Text(), index)
  }

  /** One chunk per run, numbered from 0. */
  function ChunksOfRuns(runs: seq<Run>): seq<TextChunk> {
    seq(|runs|, k requires 0 <= k < |runs| => MakeChunk(runs[k], k))
  }

  lemma ChunksOfRunsSnoc(runs: seq<Run>, run: Run)
    ensures ChunksOfRuns(runs + [run]) == ChunksOfRuns(runs) + [MakeChunk(run, |runs|)]
  {
    var all := runs + [run];
    assert forall k | 0 <= k < |runs| :: all[k] == runs[k];
  }

  /** What `chunk_messages` returns, as a function of its input. */
  function Chunks(messages: seq<MessageInfo>): seq<TextChunk> {
    ChunksOfRuns(Runs(Kept(messages)))
  }

  // ---------------------------------------------------------- chunk_messages

  /** The loop's state after a prefix of the messages: the chunks flushed so far are those
      of all runs but the last, and the buffer holds the chunk of the last run. */
  ghost predicate Tracks(runs: seq<Run>, chunks: seq<TextChunk>, buf: TextChunk) {
    if |runs| == 0 then buf.text == [] && chunks == [] && buf.chunkIndex == 0
    else
      && chunks == ChunksOfRuns(runs[..|runs| - 1])
      && buf == MakeChunk(runs[|runs| - 1], |runs| - 1)
      && buf.text != []
  }

  /** The buffer right after message `x` starts a chunk. */
  function StartChunk(x: MessageInfo, index: nat): TextChunk {
    TextChunk(x.messageId, x.sessionId, x.seqNo, x.createdAt, DominantRole(x.segments),
              MessageText(x), index)
  }

  lemma SingletonRunText(x: MessageInfo)
    ensures Run(x, []).Text() == MessageText(x)
  {
    assert Run(x, []).Messages() == [x];
    MapSeqSingle(MessageText, x);
  }

  /** An empty buffer means no run yet: the message starts the first one. */
  lemma TracksStart(runs: seq<Run>, chunks: seq<TextChunk>, buf: TextChunk, x: MessageInfo)
    requires Tracks(runs, chunks, buf) && buf.text == [] && MessageText(x) != []
    ensures Tracks(AddToRuns(runs, x), chunks, StartChunk(x, buf.chunkIndex))
  {
    SingletonRunText(x);
  }

  /** Closing the buffer's run and opening `run` after it. */
  lemma TracksPush(runs: seq<Run>, chunks: seq<TextChunk>, buf: TextChunk, run: Run)
    requires Tracks(runs, chunks, buf) && |runs| > 0 && run.Text() != []
    ensures Tracks(runs + [run], chunks + [buf], MakeChunk(run, |runs|))
  {
    var n := |runs|;
    PrefixOfSnoc(runs, run);
    SplitLast(runs);
    ChunksOfRunsSnoc(runs[..n - 1], runs[n - 1]);
  }

  /** A message that would overflow the buffer flushes it and starts the next run. */
  lemma TracksFlush(runs: seq<Run>, chunks: seq<TextChunk>, buf: TextChunk, x: MessageInfo)
    requires Tracks(runs, chunks, buf) && buf.text != [] && MessageText(x) != []
    requires |buf.text| + 1 + |MessageText(x)| > TARGET_CHUNK_CHARS
    ensures Tracks(AddToRuns(runs, x), chunks + [buf], StartChunk(x, buf.chunkIndex + 1))
  {
    var n := |runs|;
    assert AddToRuns(runs, x) == runs + [Run(x, [])] by {
      assert buf == MakeChunk(runs[n - 1], n - 1);
    }
    SingletonRunText(x);
    TracksPush(runs, chunks, buf, Run(x, []));
  }

  lemma TextsSnoc(run: seq<MessageInfo>, x: MessageInfo)
    ensures Texts(run + [x]) == Texts(run) + [MessageText(x)]
  {
    MapSeqAppend(MessageText, run, [x]);
    MapSeqSingle(MessageText, x);
  }


  /** A message that fits is appended to the buffer after a newline. */
  lemma TracksMerge(runs: seq<Run>, chunks: seq<TextChunk>, buf: TextChunk, x: MessageInfo)
    requires Tracks(runs, chunks, buf) && buf.text != [] && MessageText(x) != []
    requires |buf.text| + 1 + |MessageText(x)| <= TARGET_CHUNK_CHARS
    ensures Tracks(AddToRuns(runs, x), chunks, buf.(text := buf.text + "\n" + MessageText(x)))
  {
    var n := |runs|;
    var last := runs[n - 1];
    var merged := Run(last.first, last.rest + [x]);
    SnocAfterPrefix(runs, merged);
    ConsSnoc(last.first, last.rest, x);
    TextsSnoc(last.Messages(), x);
    JoinSnoc(Texts(last.Messages()), MessageText(x), "\n");
  }

  /** After the last message, flushing a non-empty buffer completes the chunks. */
  lemma TracksFinish(runs: seq<Run>, chunks: seq<TextChunk>, buf: TextChunk)
    requires Tracks(runs, chunks, buf)
    ensures buf.text != [] ==> ChunksOfRuns(runs) == chunks + [buf]
    ensures buf.text == [] ==> ChunksOfRuns(runs) == chunks
  {
    if |runs| > 0 {
      SplitLast(runs);
      ChunksOfRunsSnoc(runs[..|runs| - 1], runs[|runs| - 1]);
    }
  }

  lemma KeptStep(messages: seq<MessageInfo>, i: nat)
    requires i < |messages|
    ensures MessageText(messages[i]) == [] ==> Kept(messages[..i + 1]) == Kept(messages[..i])
    ensures MessageText(messages[i]) != [] ==> Kept(messages[..i + 1]) == Kept(messages[..i]) + [messages[i]]
  {
    PrefixStep(messages, i);
    AppendEmpty(Kept(messages[..i]));
  }

  /** Feeding the next message to the runs of the kept messages before it. */
  lemma RunsOfKeptStep(messages: seq<MessageInfo>, i: nat)
    requires i < |messages|
    ensures MessageText(messages[i]) == [] ==> Runs(Kept(messages[..i + 1])) == Runs(Kept(messages[..i]))
    ensures MessageText(messages[i]) != [] ==>
      Runs(Kept(messages[..i + 1])) == AddToRuns(Runs(Kept(messages[..i])), messages[i])
  {
    KeptStep(messages, i);
    if MessageText(messages[i]) != [] {
      RunsSnoc(Kept(messages[..i]), messages[i]);
    }
  }

  /** `chunk_messages`: the loop with its buffer of the current chunk. */
  method ChunkMessages(messages: seq<MessageInfo>) returns (chunks: seq<TextChunk>)
    ensures chunks == Chunks(messages)
  {
    chunks := [];
    var chunkIndex: nat := 0;
    var bufText: string := [];
    var bufFirstMsgId: string := [];
    var bufFirstSeq: int := 0;
    var bufFirstCreatedAt: int := 0;
    var bufSessionId: string := [];
    var bufRole: string := [];
    ghost var runs: seq<Run> := [];
    assert Kept(messages[..0]) == [];

    for i := 0 to |messages|
      invariant runs == Runs(Kept(messages[..i]))
      invariant Tracks(runs, chunks,
        TextChunk(bufFirstMsgId, bufSessionId, bufFirstSeq, bufFirstCreatedAt, bufRole, bufText, chunkIndex))
    {
      ghost var buf := TextChunk(bufFirstMsgId, bufSessionId, bufFirstSeq, bufFirstCreatedAt,
                                 bufRole, bufText, chunkIndex);
      RunsOfKeptStep(messages, i);
      var msg := messages[i];
      var msgText := FlattenSegments(msg.segments);
      if msgText == [] {
        continue;
      }
      var msgChars := |msgText|;

      if bufText == [] {
        TracksStart(runs, chunks, buf, msg);
        bufText := msgText;
        bufFirstMsgId := msg.messageId;
        bufFirstSeq := msg.seqNo;
        bufFirstCreatedAt := msg.createdAt;
        bufSessionId := msg.sessionId;
        bufRole := DominantRole(msg.segments);
      } else {
        var combinedChars := |bufText| + 1 + msgChars;
        if combinedChars > TARGET_CHUNK_CHARS {
          TracksFlush(runs, chunks, buf, msg);
          chunks := chunks + [TextChunk(bufFirstMsgId, bufSessionId, bufFirstSeq,
                                        bufFirstCreatedAt, bufRole, bufText, chunkIndex)];
          chunkIndex := chunkIndex + 1;
          bufText := msgText;
          bufFirstMsgId := msg.messageId;
          bufFirstSeq := msg.seqNo;
          bufFirstCreatedAt := msg.createdAt;
          bufSessionId := msg.sessionId;
          bufRole := DominantRole(msg.segments);
        } else {
          TracksMerge(runs, chunks, buf, msg);
          bufText := bufText + "\n" + msgText;
        }
      }
      runs := AddToRuns(runs, msg);
    }

    assert messages[..|messages|] == messages;
    TracksFinish(runs, chunks,
      TextChunk(bufFirstMsgId, bufSessionId, bufFirstSeq, bufFirstCreatedAt, bufRole, bufText, chunkIndex));
    if bufText != [] {
      chunks := chunks + [TextChunk(bufFirstMsgId, bufSessionId, bufFirstSeq,
                                    bufFirstCreatedAt, bufRole, bufText, chunkIndex)];
    }
  }

  // ------------------------------------------------------------- properties

  /** The messages of the runs, in order. */
  function AllMessages(runs: seq<Run>): (r: seq<MessageInfo>)
    ensures |r| >= |runs|
  {
    if |runs| == 0 then [] else AllMessages(runs[..|runs| - 1]) + runs[|runs| - 1].Messages()
  }

  lemma AllMessagesSnoc(runs: seq<Run>, run: Run)
    ensures AllMessages(runs + [run]) == AllMessages(runs) + run.Messages()
  {
    PrefixOfSnoc(runs, run);
  }

  /** Appending `x` to the last run appends it to the messages. */
  lemma MergeMessages(runs: seq<Run>, x: MessageInfo)
    requires |runs| > 0
    ensures var last := runs[|runs| - 1];
      AllMessages(runs[..|runs| - 1] + [Run(last.first, last.rest + [x])]) == AllMessages(runs) + [x]
  {
    var n := |runs|;
    var init := runs[..n - 1];
    var last := runs[n - 1];
    var merged := Run(last.first, last.rest + [x]);
    SplitLast(runs);
    AllMessagesSnoc(init, last);
    AllMessagesSnoc(init, merged);
    ConsSnoc(last.first, last.rest, x);
    assert merged.Messages() == last.Messages() + [x];
  }

  lemma AddToRunsMessages(runs: seq<Run>, x: MessageInfo)
    ensures AllMessages(AddToRuns(runs, x)) == AllMessages(runs) + [x]
  {
    var n := |runs|;
    var single := Run(x, []);
    assert single.Messages() == [x];
    if n == 0 {
      assert AddToRuns(runs, x) == runs + [single];
      AllMessagesSnoc(runs, single);
    } else if Overflows(runs[n - 1], x) {
      assert AddToRuns(runs, x) == runs + [single];
      AllMessagesSnoc(runs, single);
    } else {
      var last := runs[n - 1];
      assert AddToRuns(runs, x) == runs[..n - 1] + [Run(last.first, last.rest + [x])];
      MergeMessages(runs, x);
    }
  }

  /** Messages are never split, dropped or reordered: the runs, read in order, are the
      kept messages. */
  lemma {:induction false} RunsMessages(items: seq<MessageInfo>)
    ensures AllMessages(Runs(items)) == items
  {
    if |items| > 0 {
      var n := |items|;
      RunsMessages(items[..n - 1]);
      AddToRunsMessages(Runs(items[..n - 1]), items[n - 1]);
      SplitLast(items);
    }
  }

  lemma KeptAppend(a: seq<MessageInfo>, b: seq<MessageInfo>)
    ensures Kept(a + b) == Kept(a) + Kept(b)
  {
    FilterAppend(HasText, a, b);
  }

  lemma KeptSkipsBlank(before: seq<MessageInfo>, m: MessageInfo, after: seq<MessageInfo>)
    requires MessageText(m) == []
    ensures Kept(before + [m] + after) == Kept(before + after)
  {
    KeptAppend(before + [m], after);
    KeptAppend(before, [m]);
    KeptAppend(before, after);
    FilterSingle(HasText, m);
    AppendEmpty(Kept(before));
  }

  /** A message whose flattened text is empty contributes nothing, wherever it stands. */
  lemma BlankMessageIgnored(before: seq<MessageInfo>, m: MessageInfo, after: seq<MessageInfo>)
    requires MessageText(m) == []
    ensures Chunks(before + [m] + after) == Chunks(before + after)
  {
    KeptSkipsBlank(before, m, after);
  }

  lemma TextsAppend(a: seq<MessageInfo>, b: seq<MessageInfo>)
    ensures Texts(a + b) == Texts(a) + Texts(b)
  {
    MapSeqAppend(MessageText, a, b);
  }

  function RunText(run: Run): string {
    run.Text()
  }

  /** The texts of the runs' chunks. */
  function RunTexts(runs: seq<Run>): (r: seq<string>)
    ensures |r| == |runs|
  {
    MapSeq(RunText, runs)
  }

  lemma JoinRunTextsSingle(run: Run)
    ensures Join(RunTexts([run]), "\n") == Join(Texts(AllMessages([run])), "\n")
  {
    MapSeqSingle(RunText, run);
    AllMessagesSnoc([], run);
    AppendEmpty(run.Messages());
    assert [] + [run] == [run];
  }

  /** Joining the runs' texts with newlines is joining all of their messages' texts. */
  lemma {:induction false} JoinRunTexts(runs: seq<Run>)
    ensures Join(RunTexts(runs), "\n") == Join(Texts(AllMessages(runs)), "\n")
  {
    var n := |runs|;
    if n == 1 {
      JoinRunTextsSingle(runs[0]);
      assert runs == [runs[0]];
    } else if n > 1 {
      var init := runs[..n - 1];
      var last := runs[n - 1];
      JoinRunTexts(init);
      MapSeqSnoc(RunText, runs);
      JoinSnoc(RunTexts(init), last.Text(), "\n");
      JoinAppend(Texts(AllMessages(init)), Texts(last.Messages()), "\n");
      TextsAppend(AllMessages(init), last.Messages());
    }
  }

  /** The texts of a list of chunks. */
  function ChunkTexts(chunks: seq<TextChunk>): (r: seq<string>)
    ensures |r| == |chunks|
  {
    seq(|chunks|, k requires 0 <= k < |chunks| => chunks[k].text)
  }

  /** No content is lost or reordered: joining the chunk texts with newlines gives the
      newline-join of the flattened texts of the non-empty messages. */
  lemma ChunksPreserveContent(messages: seq<MessageInfo>)
    ensures Join(ChunkTexts(Chunks(messages)), "\n") == Join(Texts(Kept(messages)), "\n")
  {
    var runs := Runs(Kept(messages));
    assert ChunkTexts(Chunks(messages)) == RunTexts(runs);
    JoinRunTexts(runs);
    RunsMessages(Kept(messages));
  }

  /** The layout the greedy loop produces: every run has non-empty text, a run of two or
      more messages fits in TARGET_CHUNK_CHARS, and each run was closed because the next
      message would not have fitted. */
  ghost predicate LaidOut(runs: seq<Run>) {
    All(WellSized, runs) && Chain(Closed, runs)
  }

  /** A run has text, and fits in TARGET_CHUNK_CHARS unless it is a single message. */
  predicate WellSized(run: Run) {
    run.Text() != [] && (|run.rest| > 0 ==> |run.Text()| <= TARGET_CHUNK_CHARS)
  }

  /** Appending `x` to `run` would exceed TARGET_CHUNK_CHARS. */
  predicate Overflows(run: Run, x: MessageInfo) {
    |run.Text()| + 1 + |MessageText(x)| > TARGET_CHUNK_CHARS
  }

  /** `next` starts a new run because its first message overflowed `run`. */
  predicate Closed(run: Run, next: Run) {
    Overflows(run, next.first)
  }

  lemma MergedText(run: Run, x: MessageInfo)
    ensures Run(run.first, run.rest + [x]).Text() == run.Text() + "\n" + MessageText(x)
  {
    ConsSnoc(run.first, run.rest, x);
    TextsSnoc(run.Messages(), x);
    JoinSnoc(Texts(run.Messages()), MessageText(x), "\n");
  }

  lemma MergedWellSized(run: Run, x: MessageInfo)
    requires run.Text() != [] && !Overflows(run, x)
    ensures WellSized(Run(run.first, run.rest + [x]))
  {
    MergedText(run, x);
  }

  lemma SingletonWellSized(x: MessageInfo)
    requires MessageText(x) != []
    ensures WellSized(Run(x, []))
  {
    SingletonRunText(x);
  }

  lemma FlushLaidOut(runs: seq<Run>, x: MessageInfo)
    requires LaidOut(runs) && MessageText(x) != [] && |runs| > 0
    requires Overflows(runs[|runs| - 1], x)
    ensures LaidOut(runs + [Run(x, [])])
  {
    SingletonWellSized(x);
    AllSnoc(WellSized, runs, Run(x, []));
    ChainSnoc(Closed, runs, Run(x, []));
  }

  lemma MergeLaidOut(runs: seq<Run>, x: MessageInfo)
    requires LaidOut(runs) && |runs| > 0
    requires !Overflows(runs[|runs| - 1], x)
    ensures LaidOut(runs[..|runs| - 1] + [Run(runs[|runs| - 1].first, runs[|runs| - 1].rest + [x])])
  {
    var n := |runs|;
    var last := runs[n - 1];
    var merged := Run(last.first, last.rest + [x]);
    MergedWellSized(last, x);
    AllReplaceLast(WellSized, runs, merged);
    if n > 1 {
      assert Closed(runs[n - 2], runs[n - 1]);
      assert Closed(runs[n - 2], merged);
    }
    ChainReplaceLast(Closed, runs, merged);
  }

  lemma AddToRunsLaidOut(runs: seq<Run>, x: MessageInfo)
    requires LaidOut(runs) && MessageText(x) != []
    ensures LaidOut(AddToRuns(runs, x))
  {
    var n := |runs|;
    if n == 0 {
      SingletonWellSized(x);
    } else if Overflows(runs[n - 1], x) {
      FlushLaidOut(runs, x);
    } else {
      MergeLaidOut(runs, x);
    }
  }

  lemma {:induction false} RunsLaidOut(items: seq<MessageInfo>)
    requires forall i | 0 <= i < |items| :: MessageText(items[i]) != []
    ensures LaidOut(Runs(items))
  {
    if |items| > 0 {
      var n := |items|;
      RunsLaidOut(items[..n - 1]);
      AddToRunsLaidOut(Runs(items[..n - 1]), items[n - 1]);
    }
  }

  /** What `chunk_messages` promises: chunk k is numbered k, takes everything but its text
      from the first message of its run, has non-empty text, holds at most
      TARGET_CHUNK_CHARS characters unless it is a single message, and was closed only
      because the next message would have overflowed it. */
  lemma ChunkLayout(messages: seq<MessageInfo>)
    ensures var runs := Runs(Kept(messages));
      var cs := Chunks(messages);
      && |cs| == |runs|
      && AllMessages(runs) == Kept(messages)
      && (forall k | 0 <= k < |cs| ::
            && cs[k].chunkIndex == k
            && cs[k].text == runs[k].Text() != []
            && cs[k].messageId == runs[k].first.messageId
            && cs[k].sessionId == runs[k].first.sessionId
            && cs[k].seqNo == runs[k].first.seqNo
            && cs[k].createdAt == runs[k].first.createdAt
            && cs[k].role == DominantRole(runs[k].first.segments))
      && (forall k | 0 <= k < |cs| :: |runs[k].rest| > 0 ==> |cs[k].text| <= TARGET_CHUNK_CHARS)
      && (forall k | 0 <= k < |cs| - 1 ::
            |cs[k].text| + 1 + |MessageText(runs[k + 1].first)| > TARGET_CHUNK_CHARS)
  {
    var runs := Runs(Kept(messages));
    var cs := Chunks(messages);
    RunsMessages(Kept(messages));
    RunsLaidOut(Kept(messages));
    forall k | 0 <= k < |cs|
      ensures cs[k] == MakeChunk(runs[k], k) && WellSized(runs[k])
    {
    }
    forall k | 0 <= k < |cs| - 1
      ensures Closed(runs[k], runs[k + 1])
    {
    }
  }

  /** There are no chunks exactly when every message flattens to nothing. */
  lemma NoChunksIff(messages: seq<MessageInfo>)
    ensures Chunks(messages) == [] <==> forall i | 0 <= i < |messages| :: MessageText(messages[i]) == []
  {
    FilterEmptyIff(HasText, messages);
    RunsMessages(Kept(messages));
  }
}
