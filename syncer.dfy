/** The indexing pipeline of the indexer (hapi-search/src/syncer.rs): grouping fetched
    messages by session, chunking each session, embedding the chunks in batches and building
    the search documents; and the paging loop of the initial sync.

    The hub's session cache, the embedder and the search index are reached over the network;
    the model takes what they answer as function parameters. */
module Syncer {
  import opened Base
  import opened Strings
  import opened Json
  import opened Models
  import opened TextExtract
  import opened Chunker

  /** How many messages one page of the initial sync asks for. */
  const BATCH_SIZE: nat := 500

  /** How many chunk texts go to the embedder in one call. */
  const EMBED_BATCH_SIZE: nat := 32

  // ------------------------------------------------------ grouping by session

  function ToInfo(msg: SyncMessage, segments: seq<TextSegment>): MessageInfo {
    MessageInfo(msg.id, msg.sessionId, msg.seqNo, msg.createdAt, segments)
  }

  /** The messages that have extracted text, as chunker input, in their original order. */
  function Infos(messages: seq<SyncMessage>, render: Value -> string): (r: seq<MessageInfo>)
    ensures |r| <= |messages|
    ensures forall i | 0 <= i < |r| :: r[i].segments != []
  {
    if |messages| == 0 then []
    else
      var msg := messages[|messages| - 1];
      var segments := ExtractText(msg.content, render);
      Infos(messages[..|messages| - 1], render) + (if segments == [] then [] else [ToInfo(msg, segments)])
  }

  /** A message whose extraction yields no segment contributes nothing. */
  lemma InfosStep(messages: seq<SyncMessage>, render: Value -> string, i: nat)
    requires i < |messages|
    ensures ExtractText(messages[i].content, render) == [] ==>
      Infos(messages[..i + 1], render) == Infos(messages[..i], render)
    ensures ExtractText(messages[i].content, render) != [] ==>
      Infos(messages[..i + 1], render) ==
        Infos(messages[..i], render) + [ToInfo(messages[i], ExtractText(messages[i].content, render))]
  {
    PrefixStep(messages, i);
    AppendEmpty(Infos(messages[..i], render));
  }

  /** The session ids of `infos`, each once, in order of first appearance. */
  function SessionOrder(infos: seq<MessageInfo>): (r: seq<string>)
    ensures |r| <= |infos|
  {
    if |infos| == 0 then []
    else
      var prev := SessionOrder(infos[..|infos| - 1]);
      var sid := infos[|infos| - 1].sessionId;
      if sid in prev then prev else prev + [sid]
  }

  /** The messages of session `sid`, in their original order. */
  function OfSession(infos: seq<MessageInfo>, sid: string): (r: seq<MessageInfo>)
    ensures |r| <= |infos|
    ensures forall i | 0 <= i < |r| :: r[i].sessionId == sid
  {
    if |infos| == 0 then []
    else
      var prev := OfSession(infos[..|infos| - 1], sid);
      var x := infos[|infos| - 1];
      if x.sessionId == sid then prev + [x] else prev
  }

  lemma SessionStep(infos: seq<MessageInfo>, x: MessageInfo)
    ensures SessionOrder(infos + [x]) ==
      if x.sessionId in SessionOrder(infos) then SessionOrder(infos) else SessionOrder(infos) + [x.sessionId]
    ensures forall sid :: OfSession(infos + [x], sid) ==
                          if x.sessionId == sid then OfSession(infos, sid) + [x] else OfSession(infos, sid)
  {
    PrefixOfSnoc(infos, x);
  }

  /** A session appears in the order exactly when one of the messages belongs to it. */
  lemma {:induction false} SessionOrderMembers(infos: seq<MessageInfo>, sid: string)
    ensures sid in SessionOrder(infos) <==> exists i | 0 <= i < |infos| :: infos[i].sessionId == sid
  {
    if |infos| > 0 {
      var init := infos[..|infos| - 1];
      SessionOrderMembers(init, sid);
      assert forall i | 0 <= i < |init| :: init[i] == infos[i];
      if sid in SessionOrder(init) {
        var i :| 0 <= i < |init| && init[i].sessionId == sid;
        assert infos[i].sessionId == sid;
      }
    }
  }

  /** A session with messages is in the order. */
  lemma {:induction false} OfSessionListed(infos: seq<MessageInfo>, sid: string)
    requires OfSession(infos, sid) != []
    ensures sid in SessionOrder(infos)
  {
    var init := infos[..|infos| - 1];
    if infos[|infos| - 1].sessionId != sid {
      OfSessionListed(init, sid);
    }
  }

  /** No session is listed twice. */
  lemma {:induction false} SessionOrderDistinct(infos: seq<MessageInfo>)
    ensures forall a, b | 0 <= a < b < |SessionOrder(infos)| :: SessionOrder(infos)[a] != SessionOrder(infos)[b]
  {
    if |infos| > 0 {
      SessionOrderDistinct(infos[..|infos| - 1]);
    }
  }

  /** Sessions are listed in order of first appearance: a session listed before another has
      a message earlier than every message of the other. */
  lemma {:induction false} SessionOrderFirstSeen(infos: seq<MessageInfo>, a: nat, b: nat)
    requires a < b < |SessionOrder(infos)|
    ensures exists i | 0 <= i < |infos| ::
      infos[i].sessionId == SessionOrder(infos)[a] &&
      forall j | 0 <= j <= i :: infos[j].sessionId != SessionOrder(infos)[b]
  {
    var n := |infos|;
    var init := infos[..n - 1];
    var prev := SessionOrder(init);
    var order := SessionOrder(infos);
    assert forall i | 0 <= i < |init| :: init[i] == infos[i];
    if b < |prev| {
      assert order[a] == prev[a] && order[b] == prev[b];
      SessionOrderFirstSeen(init, a, b);
      var i :| 0 <= i < |init| && init[i].sessionId == prev[a] &&
        forall j | 0 <= j <= i :: init[j].sessionId != prev[b];
      assert infos[i].sessionId == order[a];
    } else {
      var last := infos[n - 1].sessionId;
      assert order == prev + [last] && order[b] == last && order[a] == prev[a];
      SessionOrderMembers(init, order[a]);
      SessionOrderMembers(init, last);
      var i :| 0 <= i < |init| && init[i].sessionId == order[a];
      assert infos[i].sessionId == order[a];
      forall j | 0 <= j <= i
        ensures infos[j].sessionId != last
      {
        assert infos[j] == init[j];
      }
    }
  }

  /** The total size of the groups, listed in `order`. */
  function GroupedCount(order: seq<string>, infos: seq<MessageInfo>): nat {
    if |order| == 0 then 0
    else GroupedCount(order[..|order| - 1], infos) + |OfSession(infos, order[|order| - 1])|
  }

  lemma {:induction false} GroupedCountSnoc(order: seq<string>, infos: seq<MessageInfo>, x: MessageInfo)
    requires forall a, b | 0 <= a < b < |order| :: order[a] != order[b]
    ensures GroupedCount(order, infos + [x]) ==
      GroupedCount(order, infos) + (if x.sessionId in order then 1 else 0)
  {
    SessionStep(infos, x);
    if |order| > 0 {
      var init := order[..|order| - 1];
      GroupedCountSnoc(init, infos, x);
      assert x.sessionId in order <==> x.sessionId in init || x.sessionId == order[|order| - 1];
    }
  }

  /** The groups partition the messages: their sizes add up to the number of messages. */
  lemma {:induction false} GroupsPartition(infos: seq<MessageInfo>)
    ensures GroupedCount(SessionOrder(infos), infos) == |infos|
  {
    if |infos| > 0 {
      var n := |infos|;
      var init := infos[..n - 1];
      var x := infos[n - 1];
      GroupsPartition(init);
      SplitLast(infos);
      SessionStep(init, x);
      SessionOrderDistinct(init);
      GroupedCountSnoc(SessionOrder(init), init, x);
      if x.sessionId !in SessionOrder(init) {
        if OfSession(init, x.sessionId) != [] {
          OfSessionListed(init, x.sessionId);
        }
        var order := SessionOrder(init) + [x.sessionId];
        assert order[..|order| - 1] == SessionOrder(init);
      }
    }
  }

  /** `order` lists the sessions of `infos` in order of first appearance and `groups` maps
      exactly those sessions to their messages. */
  ghost predicate Grouped(order: seq<string>, groups: map<string, seq<MessageInfo>>, infos: seq<MessageInfo>) {
    && order == SessionOrder(infos)
    && (forall sid :: sid in groups <==> sid in order)
    && (forall sid | sid in groups :: groups[sid] == OfSession(infos, sid))
  }

  /** Recording one more message: its session is listed if new, and the message is pushed
      onto its session's list. */
  lemma GroupStep(order: seq<string>, groups: map<string, seq<MessageInfo>>, infos: seq<MessageInfo>, x: MessageInfo)
    requires Grouped(order, groups, infos)
    ensures Grouped(if x.sessionId in groups then order else order + [x.sessionId],
                    groups[x.sessionId := (if x.sessionId in groups then groups[x.sessionId] else []) + [x]],
                    infos + [x])
  {
    SessionStep(infos, x);
    if x.sessionId !in groups && OfSession(infos, x.sessionId) != [] {
      OfSessionListed(infos, x.sessionId);
    }
  }

  /** The grouping loop of `process_messages`: `order` lists the sessions in order of first
      appearance and `groups` maps each to its messages. */
  method GroupBySession(messages: seq<SyncMessage>, render: Value -> string)
    returns (order: seq<string>, groups: map<string, seq<MessageInfo>>)
    ensures order == SessionOrder(Infos(messages, render))
    ensures forall sid :: sid in groups <==> sid in order
    ensures forall sid | sid in groups :: groups[sid] == OfSession(Infos(messages, render), sid)
  {
    order := [];
    groups := map[];
    for i := 0 to |messages|
      invariant Grouped(order, groups, Infos(messages[..i], render))
    {
      var msg := messages[i];
      var segments := ExtractText(msg.content, render);
      InfosStep(messages, render, i);
      if segments == [] {
        continue;
      }
      var info := ToInfo(msg, segments);
      GroupStep(order, groups, Infos(messages[..i], render), info);
      if msg.sessionId !in groups {
        order := order + [msg.sessionId];
      }
      var current := if msg.sessionId in groups then groups[msg.sessionId] else [];
      groups := groups[msg.sessionId := current + [info]];
    }
    WholePrefix(messages);
  }

  // ------------------------------------------------------ chunking per session

  /** The chunks of every session, sessions in `order`, each session chunked on its own. */
  function AllChunks(order: seq<string>, infos: seq<MessageInfo>): seq<TextChunk> {
    if |order| == 0 then []
    else AllChunks(order[..|order| - 1], infos) + Chunks(OfSession(infos, order[|order| - 1]))
  }

  /** The chunking loop of `process_messages`. */
  method ChunkSessions(order: seq<string>, groups: map<string, seq<MessageInfo>>, ghost infos: seq<MessageInfo>)
    returns (all: seq<TextChunk>)
    requires forall sid | sid in order :: sid in groups && groups[sid] == OfSession(infos, sid)
    ensures all == AllChunks(order, infos)
  {
    all := [];
    for k := 0 to |order|
      invariant all == AllChunks(order[..k], infos)
    {
      var sid := order[k];
      PrefixStep(order, k);
      if sid in groups {
        var chunks := ChunkMessages(groups[sid]);
        all := all + chunks;
      }
    }
    WholePrefix(order);
  }

  lemma {:induction false} AllMessagesHas(runs: seq<Run>, k: nat, j: nat)
    requires k < |runs| && j < |runs[k].Messages()|
    ensures runs[k].Messages()[j] in AllMessages(runs)
  {
    var n := |runs|;
    SplitLast(runs);
    AllMessagesSnoc(runs[..n - 1], runs[n - 1]);
    if k < n - 1 {
      AllMessagesHas(runs[..n - 1], k, j);
    }
  }

  /** Every message that ends up in a run came from the input. */
  lemma RunMessageFromInput(msgs: seq<MessageInfo>, k: nat, j: nat)
    requires k < |Runs(Kept(msgs))| && j < |Runs(Kept(msgs))[k].Messages()|
    ensures Runs(Kept(msgs))[k].Messages()[j] in msgs
  {
    var runs := Runs(Kept(msgs));
    RunsMessages(Kept(msgs));
    AllMessagesHas(runs, k, j);
    FilterSubset(HasText, msgs);
  }

  /** No chunk mixes sessions: every message merged into a chunk of session `sid` belongs
      to `sid`. */
  lemma SessionRunsPure(infos: seq<MessageInfo>, sid: string)
    ensures var runs := Runs(Kept(OfSession(infos, sid)));
      forall k, j | 0 <= k < |runs| && 0 <= j < |runs[k].Messages()| :: runs[k].Messages()[j].sessionId == sid
  {
    var msgs := OfSession(infos, sid);
    var runs := Runs(Kept(msgs));
    forall k, j | 0 <= k < |runs| && 0 <= j < |runs[k].Messages()|
      ensures runs[k].Messages()[j].sessionId == sid
    {
      RunMessageFromInput(msgs, k, j);
    }
  }

  /** ... and every chunk of session `sid` is labelled with `sid`. */
  lemma SessionChunksLabelled(infos: seq<MessageInfo>, sid: string)
    ensures forall k | 0 <= k < |Chunks(OfSession(infos, sid))| :: Chunks(OfSession(infos, sid))[k].sessionId == sid
  {
    var msgs := OfSession(infos, sid);
    var runs := Runs(Kept(msgs));
    var cs := Chunks(msgs);
    assert cs == ChunksOfRuns(runs);
    forall k | 0 <= k < |cs|
      ensures cs[k].sessionId == sid
    {
      assert cs[k] == MakeChunk(runs[k], k);
      assert runs[k].Messages()[0] == runs[k].first;
      RunMessageFromInput(msgs, k, 0);
    }
  }

  // ------------------------------------------------------ documents

  /** The session fields a document carries. */
  datatype ChunkMeta = ChunkMeta(name: string, path: string, flavor: string)

  /** The session's display name: its metadata name, else its summary text, else "". A
      present but empty name is kept. */
  function SessionName(metadata: Option<SessionMetadata>): (r: string)
    ensures metadata.Some? && metadata.value.name.Some? ==> r == metadata.value.name.value
    ensures metadata.Some? && metadata.value.name.None? && metadata.value.summary.Some? ==>
      r == metadata.value.summary.value.text
    ensures metadata.None? || (metadata.value.name.None? && metadata.value.summary.None?) ==> r == []
  {
    match metadata
    case None => ""
    case Some(m) =>
      var summary := if m.summary.Some? then Some(m.summary.value.text) else None;
      m.name.Or(summary).GetOr("")
  }

  /** The metadata of a session as the hub's cache knows it, if any. */
  function MetadataOf(session: Option<SyncSession>): Option<SessionMetadata> {
    if session.Some? then session.value.metadata else None
  }

  function MetaOf(session: Option<SyncSession>): ChunkMeta {
    var metadata := MetadataOf(session);
    ChunkMeta(
      SessionName(metadata),
      if metadata.Some? then metadata.value.path.GetOr("") else "",
      if metadata.Some? then metadata.value.flavor.GetOr("") else "")
  }

  /** The loop that resolves every chunk's session fields through the session cache. */
  method ResolveMetas(chunks: seq<TextChunk>, lookup: string -> Option<SyncSession>)
    returns (metas: seq<ChunkMeta>)
    ensures |metas| == |chunks|
    ensures forall i | 0 <= i < |chunks| :: metas[i] == MetaOf(lookup(chunks[i].sessionId))
  {
    metas := [];
    for i := 0 to |chunks|
      invariant |metas| == i
      invariant forall j | 0 <= j < i :: metas[j] == MetaOf(lookup(chunks[j].sessionId))
    {
      metas := metas + [MetaOf(lookup(chunks[i].sessionId))];
    }
  }

  /** The text sent to the embedder: the chunk text, prefixed by "[name] " when the session
      has a non-empty name. */
  function EmbeddingText(text: string, name: string): (r: string)
    ensures name == [] ==> r == text
    ensures name != [] ==> |r| == |name| + 3 + |text| && r[..|name| + 3] == "[" + name + "] "
    ensures r[|r| - |text|..] == text
  {
    if name == [] then text else "[" + name + "] " + text
  }

  /** The document id `msg_{message_id}_chunk_{chunk_index}`. */
  function DocumentId(messageId: string, chunkIndex: nat): string {
    "msg_" + messageId + "_chunk_" + NatToString(chunkIndex)
  }

  /** Different (message id, chunk index) pairs never share a document id: the digits after
      the last '_' are the chunk index, and what comes before them fixes the message id. */
  lemma SeparatorAt(p: string, d: string)
    ensures (p + "_" + d)[|p|] == '_'
  {
  }

  lemma DigitAfterSeparator(p: string, d: string, k: int)
    ensures AllDigits(d) && |p| < k < |p| + 1 + |d| ==> IsAsciiDigit((p + "_" + d)[k])
  {
    if AllDigits(d) && |p| < k < |p| + 1 + |d| {
      assert (p + "_" + d)[k] == d[k - |p| - 1];
    }
  }

  lemma DocumentIdInjective(m1: string, k1: nat, m2: string, k2: nat)
    requires DocumentId(m1, k1) == DocumentId(m2, k2)
    ensures m1 == m2 && k1 == k2
  {
    var d1 := NatToString(k1);
    var d2 := NatToString(k2);
    var id := DocumentId(m1, k1);
    var p1 := "msg_" + m1 + "_chunk";
    var p2 := "msg_" + m2 + "_chunk";
    assert id == p1 + "_" + d1;
    assert id == p2 + "_" + d2;
    if |d1| < |d2| {
      SeparatorAt(p1, d1);
      DigitAfterSeparator(p2, d2, |p1|);
      assert false;
    } else if |d2| < |d1| {
      SeparatorAt(p2, d2);
      DigitAfterSeparator(p1, d1, |p2|);
      assert false;
    }
    assert d1 == id[|id| - |d1|..] == d2;
    NatToStringInjective(k1, k2);
    assert m1 == id[4..|id| - |d1| - 7] == m2;
  }

  /** The chunks of one session get pairwise different document ids. */
  lemma SessionDocumentIdsDistinct(infos: seq<MessageInfo>, sid: string, a: nat, b: nat)
    requires a < b < |Chunks(OfSession(infos, sid))|
    ensures var cs := Chunks(OfSession(infos, sid));
      DocumentId(cs[a].messageId, cs[a].chunkIndex) != DocumentId(cs[b].messageId, cs[b].chunkIndex)
  {
    var cs := Chunks(OfSession(infos, sid));
    ChunkLayout(OfSession(infos, sid));
    if DocumentId(cs[a].messageId, cs[a].chunkIndex) == DocumentId(cs[b].messageId, cs[b].chunkIndex) {
      DocumentIdInjective(cs[a].messageId, cs[a].chunkIndex, cs[b].messageId, cs[b].chunkIndex);
    }
  }

  function MakeDocument(chunk: TextChunk, meta: ChunkMeta, embedding: seq<bv32>): SearchDocument {
    SearchDocument(
      DocumentId(chunk.messageId, chunk.chunkIndex), chunk.messageId, chunk.sessionId,
      chunk.seqNo, chunk.role, chunk.text, meta.name, meta.path, meta.flavor,
      chunk.createdAt, Vectors(embedding))
  }

  // ------------------------------------------------------ embedding batches

  /** The batch starting at `start` ends 32 chunks later, or at the last chunk. */
  function BatchEnd(start: nat, n: nat): nat {
    Min(start + EMBED_BATCH_SIZE, n)
  }

  /** The embedding texts of the batch [start, end). */
  function BatchTexts(chunks: seq<TextChunk>, metas: seq<ChunkMeta>, start: nat, end: nat): (r: seq<string>)
    requires start <= end <= |chunks| == |metas|
    ensures |r| == end - start
  {
    seq(end - start, j requires 0 <= j < end - start => EmbeddingText(chunks[start + j].text, metas[start + j].name))
  }

  /** The documents of a batch: chunks paired with embeddings, up to the shorter of the two. */
  function BatchDocuments(chunks: seq<TextChunk>, metas: seq<ChunkMeta>, start: nat, end: nat,
                          embeddings: seq<seq<bv32>>): (r: seq<SearchDocument>)
    requires start <= end <= |chunks| == |metas|
    ensures |r| == Min(end - start, |embeddings|)
  {
    seq(Min(end - start, |embeddings|), j requires 0 <= j < Min(end - start, |embeddings|) =>
      MakeDocument(chunks[start + j], metas[start + j], embeddings[j]))
  }

  /** The `zip` loop that builds a batch's documents. */
  method BuildDocuments(chunks: seq<TextChunk>, metas: seq<ChunkMeta>, start: nat, end: nat,
                        embeddings: seq<seq<bv32>>) returns (documents: seq<SearchDocument>)
    requires start <= end <= |chunks| == |metas|
    ensures documents == BatchDocuments(chunks, metas, start, end, embeddings)
  {
    documents := [];
    var i := start;
    var j := 0;
    while i < end && j < |embeddings|
      invariant start <= i <= end && i - start == j <= |embeddings|
      invariant documents == BatchDocuments(chunks, metas, start, i, embeddings[..j])
    {
      documents := documents + [MakeDocument(chunks[i], metas[i], embeddings[j])];
      i := i + 1;
      j := j + 1;
    }
  }

  /** What the indexing part of `process_messages` did: the document batches handed to the
      index, in order, and whether it finished without error. */
  datatype Indexed = Indexed(sent: seq<seq<SearchDocument>>, ok: bool)

  /** The batches from `start` on. A failed embedding skips its batch; a failed write to
      the index ends the run with an error. */
  function Pipeline(chunks: seq<TextChunk>, metas: seq<ChunkMeta>,
                    embed: seq<string> -> Option<seq<seq<bv32>>>, addOk: seq<SearchDocument> -> bool,
                    start: nat): (r: Indexed)
    requires |chunks| == |metas|
    decreases |chunks| - start
  {
    if start >= |chunks| then Indexed([], true)
    else
      var end := BatchEnd(start, |chunks|);
      var embeddings := embed(BatchTexts(chunks, metas, start, end));
      if embeddings.None? then Pipeline(chunks, metas, embed, addOk, start + EMBED_BATCH_SIZE)
      else
        var documents := BatchDocuments(chunks, metas, start, end, embeddings.value);
        if !addOk(documents) then Indexed([documents], false)
        else
          var rest := Pipeline(chunks, metas, embed, addOk, start + EMBED_BATCH_SIZE);
          Indexed([documents] + rest.sent, rest.ok)
  }

  /** The concatenation of the document batches. */
  function Concat(batches: seq<seq<SearchDocument>>): seq<SearchDocument> {
    if |batches| == 0 then [] else batches[0] + Concat(batches[1..])
  }

  /** A run ends with an error exactly when its last write failed; every earlier write
      succeeded, and no batch is larger than 32 documents. */
  lemma {:induction false} PipelineStopsAtFailure(chunks: seq<TextChunk>, metas: seq<ChunkMeta>,
                                                  embed: seq<string> -> Option<seq<seq<bv32>>>,
                                                  addOk: seq<SearchDocument> -> bool, start: nat)
    requires |chunks| == |metas|
    ensures var r := Pipeline(chunks, metas, embed, addOk, start);
      && (r.ok <==> |r.sent| == 0 || addOk(r.sent[|r.sent| - 1]))
      && (forall k | 0 <= k < |r.sent| - 1 :: addOk(r.sent[k]))
      && (forall k | 0 <= k < |r.sent| :: |r.sent[k]| <= EMBED_BATCH_SIZE)
    decreases |chunks| - start
  {
    if start < |chunks| {
      var end := BatchEnd(start, |chunks|);
      var embeddings := embed(BatchTexts(chunks, metas, start, end));
      PipelineStopsAtFailure(chunks, metas, embed, addOk, start + EMBED_BATCH_SIZE);
      if embeddings.Some? {
        var documents := BatchDocuments(chunks, metas, start, end, embeddings.value);
        var rest := Pipeline(chunks, metas, embed, addOk, start + EMBED_BATCH_SIZE);
        if addOk(documents) {
          var sent := [documents] + rest.sent;
          assert forall k | 1 <= k < |sent| :: sent[k] == rest.sent[k - 1];
        }
      }
    }
  }

  /** When the embedder answers every batch with one vector per text and the index accepts
      every write, each chunk from `start` on is indexed exactly once, in order, under its
      document id and with its text. */
  lemma {:induction false} PipelineIndexesAll(chunks: seq<TextChunk>, metas: seq<ChunkMeta>,
                                              embed: seq<string> -> Option<seq<seq<bv32>>>,
                                              addOk: seq<SearchDocument> -> bool, start: nat)
    requires |chunks| == |metas| && start <= |chunks|
    requires forall texts :: embed(texts).Some? && |embed(texts).value| == |texts|
    requires forall documents :: addOk(documents)
    ensures var docs := Concat(Pipeline(chunks, metas, embed, addOk, start).sent);
      && Pipeline(chunks, metas, embed, addOk, start).ok
      && |docs| == |chunks| - start
      && forall j | 0 <= j < |docs| ::
           docs[j].id == DocumentId(chunks[start + j].messageId, chunks[start + j].chunkIndex) &&
           docs[j].text == chunks[start + j].text
    decreases |chunks| - start
  {
    if start < |chunks| {
      var end := BatchEnd(start, |chunks|);
      var next := Min(start + EMBED_BATCH_SIZE, |chunks|);
      var embeddings := embed(BatchTexts(chunks, metas, start, end)).value;
      var documents := BatchDocuments(chunks, metas, start, end, embeddings);
      PipelineIndexesAll(chunks, metas, embed, addOk, next);
      var rest := Pipeline(chunks, metas, embed, addOk, start + EMBED_BATCH_SIZE);
      assert rest == Pipeline(chunks, metas, embed, addOk, next);
      var sent := [documents] + rest.sent;
      assert sent[1..] == rest.sent;
      assert Concat(sent) == documents + Concat(rest.sent);
    }
  }

  /** The documents of the batch starting at `first`, when the embedder answers it. */
  function EmbeddedBatch(chunks: seq<TextChunk>, metas: seq<ChunkMeta>,
                         embed: seq<string> -> Option<seq<seq<bv32>>>, first: nat): seq<SearchDocument>
    requires |chunks| == |metas| && first < |chunks|
  {
    var end := BatchEnd(first, |chunks|);
    var embeddings := embed(BatchTexts(chunks, metas, first, end));
    if embeddings.Some? then BatchDocuments(chunks, metas, first, end, embeddings.value) else []
  }

  /** When the embedder answers every batch and the index accepts every write, batch `k`
      holds the documents of chunks [start + 32k, min(start + 32k + 32, n)), and there are
      just enough batches to reach the last chunk. */
  lemma {:induction false} PipelineBatches(chunks: seq<TextChunk>, metas: seq<ChunkMeta>,
                                           embed: seq<string> -> Option<seq<seq<bv32>>>,
                                           addOk: seq<SearchDocument> -> bool, start: nat)
    requires |chunks| == |metas| && start <= |chunks|
    requires forall texts :: embed(texts).Some? && |embed(texts).value| == |texts|
    requires forall documents :: addOk(documents)
    ensures var sent := Pipeline(chunks, metas, embed, addOk, start).sent;
      && BatchStart(start, |sent|) >= |chunks|
      && forall k | 0 <= k < |sent| ::
           BatchStart(start, k) < |chunks|
           && sent[k] == EmbeddedBatch(chunks, metas, embed, BatchStart(start, k))
    decreases |chunks| - start
  {
    if start < |chunks| {
      var next := Min(start + EMBED_BATCH_SIZE, |chunks|);
      PipelineBatches(chunks, metas, embed, addOk, next);
      var rest := Pipeline(chunks, metas, embed, addOk, start + EMBED_BATCH_SIZE);
      assert rest == Pipeline(chunks, metas, embed, addOk, next);
      var sent := [EmbeddedBatch(chunks, metas, embed, start)] + rest.sent;
      assert Pipeline(chunks, metas, embed, addOk, start).sent == sent;
      forall k | 0 <= k < |sent|
        ensures BatchStart(start, k) < |chunks|
        ensures sent[k] == EmbeddedBatch(chunks, metas, embed, BatchStart(start, k))
      {
        if k > 0 {
          assert sent[k] == rest.sent[k - 1];
          assert BatchStart(next, k - 1) < |chunks|;
          assert BatchStart(start, k) == BatchStart(next, k - 1);
        }
      }
      assert BatchStart(start, |sent|) >= BatchStart(next, |rest.sent|);
    }
  }

  /** Where batch `k` starts when the first batch starts at `start`: `EMBED_BATCH_SIZE`
      (32) chunks further per batch. */
  function BatchStart(start: nat, k: nat): (r: nat)
    ensures r == start + k * EMBED_BATCH_SIZE
  {
    start + 32 * k
  }

  /** The embedder answers the batch starting at `first`. */
  predicate Answers(chunks: seq<TextChunk>, metas: seq<ChunkMeta>,
                    embed: seq<string> -> Option<seq<seq<bv32>>>, first: nat)
    requires |chunks| == |metas| && first < |chunks|
  {
    embed(BatchTexts(chunks, metas, first, BatchEnd(first, |chunks|))).Some?
  }

  /** `sent` lists the batches numbered `js` from `start`, in increasing order, and `js`
      holds exactly the batches the embedder answered. */
  ghost predicate ListsAnswered(chunks: seq<TextChunk>, metas: seq<ChunkMeta>,
                                embed: seq<string> -> Option<seq<seq<bv32>>>, start: nat,
                                js: seq<nat>, sent: seq<seq<SearchDocument>>)
    requires |chunks| == |metas|
  {
    BatchesNumbered(chunks, metas, embed, start, js, sent) && Increasing(js)
    && AnsweredExactly(chunks, metas, embed, start, js)
  }

  /** `sent[m]` is the batch numbered `js[m]` from `start`. */
  ghost predicate BatchesNumbered(chunks: seq<TextChunk>, metas: seq<ChunkMeta>,
                                  embed: seq<string> -> Option<seq<seq<bv32>>>, start: nat,
                                  js: seq<nat>, sent: seq<seq<SearchDocument>>)
    requires |chunks| == |metas|
  {
    && |sent| == |js|
    && forall m {:trigger sent[m]} | 0 <= m < |js| ::
         BatchStart(start, js[m]) < |chunks|
         && sent[m] == EmbeddedBatch(chunks, metas, embed, BatchStart(start, js[m]))
  }

  ghost predicate Increasing(js: seq<nat>) {
    forall m, m' | 0 <= m < m' < |js| :: js[m] < js[m']
  }

  /** `js` holds exactly the numbers of the batches from `start` that the embedder answered. */
  ghost predicate AnsweredExactly(chunks: seq<TextChunk>, metas: seq<ChunkMeta>,
                                  embed: seq<string> -> Option<seq<seq<bv32>>>, start: nat,
                                  js: seq<nat>)
    requires |chunks| == |metas|
  {
    forall j: nat {:trigger BatchStart(start, j)} | BatchStart(start, j) < |chunks| ::
      j in js <==> Answers(chunks, metas, embed, BatchStart(start, j))
  }

  /** When the index accepts every write, a batch whose embedding failed is skipped and the
      later batches still run. */
  lemma {:induction false} PipelineSkips(chunks: seq<TextChunk>, metas: seq<ChunkMeta>,
                                         embed: seq<string> -> Option<seq<seq<bv32>>>,
                                         addOk: seq<SearchDocument> -> bool, start: nat)
    returns (js: seq<nat>)
    requires |chunks| == |metas|
    requires forall documents :: addOk(documents)
    ensures var r := Pipeline(chunks, metas, embed, addOk, start);
      r.ok && ListsAnswered(chunks, metas, embed, start, js, r.sent)
    decreases |chunks| - start
  {
    if start >= |chunks| {
      js := [];
      return;
    }
    var later := PipelineSkips(chunks, metas, embed, addOk, start + EMBED_BATCH_SIZE);
    var rest := Pipeline(chunks, metas, embed, addOk, start + EMBED_BATCH_SIZE).sent;
    js := ListsAnsweredStep(chunks, metas, embed, start, later, rest);
    var first := if Answers(chunks, metas, embed, start)
                 then [EmbeddedBatch(chunks, metas, embed, start)] else [];
    var r := Pipeline(chunks, metas, embed, addOk, start);
    if Answers(chunks, metas, embed, start) {
      assert r.sent == first + rest;
    } else {
      assert r.sent == rest == first + rest;
    }
    assert r.ok;
  }

  /** Every batch number moved up by one. */
  function Shift(later: seq<nat>): (r: seq<nat>)
    ensures |r| == |later|
    ensures forall m | 0 <= m < |r| :: r[m] == later[m] + 1
  {
    seq(|later|, m requires 0 <= m < |later| => later[m] + 1)
  }

  lemma ShiftHas(later: seq<nat>, j: nat)
    ensures j + 1 in Shift(later) <==> j in later
    ensures 0 !in Shift(later)
  {
    if j in later {
      var m :| 0 <= m < |later| && later[m] == j;
      assert Shift(later)[m] == j + 1;
    }
  }

  /** One batch before a listing: the batch numbers of the later listing move up by one. */
  lemma ListsAnsweredStep(chunks: seq<TextChunk>, metas: seq<ChunkMeta>,
                          embed: seq<string> -> Option<seq<seq<bv32>>>, start: nat,
                          later: seq<nat>, rest: seq<seq<SearchDocument>>)
    returns (js: seq<nat>)
    requires |chunks| == |metas| && start < |chunks|
    requires ListsAnswered(chunks, metas, embed, start + EMBED_BATCH_SIZE, later, rest)
    ensures ListsAnswered(chunks, metas, embed, start, js,
                          (if Answers(chunks, metas, embed, start)
                           then [EmbeddedBatch(chunks, metas, embed, start)] else []) + rest)
  {
    var head := if Answers(chunks, metas, embed, start) then [0] else [];
    js := head + Shift(later);
    NumberedStep(chunks, metas, embed, start, later, rest);
    IncreasingStep(head, later);
    AnsweredStep(chunks, metas, embed, start, later);
  }

  lemma NumberedStep(chunks: seq<TextChunk>, metas: seq<ChunkMeta>,
                     embed: seq<string> -> Option<seq<seq<bv32>>>, start: nat,
                     later: seq<nat>, rest: seq<seq<SearchDocument>>)
    requires |chunks| == |metas| && start < |chunks|
    requires BatchesNumbered(chunks, metas, embed, start + EMBED_BATCH_SIZE, later, rest)
    ensures var answered := Answers(chunks, metas, embed, start);
      BatchesNumbered(chunks, metas, embed, start,
                      (if answered then [0] else []) + Shift(later),
                      (if answered then [EmbeddedBatch(chunks, metas, embed, start)] else []) + rest)
  {
    NumberedShift(chunks, metas, embed, start, later, rest);
    if Answers(chunks, metas, embed, start) {
      NumberedPrepend(chunks, metas, embed, start, Shift(later), rest);
    } else {
      assert [] + Shift(later) == Shift(later) && [] + rest == rest;
    }
  }

  /** Numbering the same batches from one batch earlier. */
  lemma NumberedShift(chunks: seq<TextChunk>, metas: seq<ChunkMeta>,
                      embed: seq<string> -> Option<seq<seq<bv32>>>, start: nat,
                      later: seq<nat>, rest: seq<seq<SearchDocument>>)
    requires |chunks| == |metas|
    requires BatchesNumbered(chunks, metas, embed, start + EMBED_BATCH_SIZE, later, rest)
    ensures BatchesNumbered(chunks, metas, embed, start, Shift(later), rest)
  {
    var js := Shift(later);
    forall m | 0 <= m < |js|
      ensures BatchStart(start, js[m]) < |chunks|
      ensures rest[m] == EmbeddedBatch(chunks, metas, embed, BatchStart(start, js[m]))
    {
      var batch := rest[m];
      assert BatchStart(start, js[m]) == BatchStart(start + EMBED_BATCH_SIZE, later[m]);
    }
  }

  /** The batch at `start` itself, numbered 0, ahead of the others. */
  lemma NumberedPrepend(chunks: seq<TextChunk>, metas: seq<ChunkMeta>,
                        embed: seq<string> -> Option<seq<seq<bv32>>>, start: nat,
                        js: seq<nat>, rest: seq<seq<SearchDocument>>)
    requires |chunks| == |metas| && start < |chunks|
    requires BatchesNumbered(chunks, metas, embed, start, js, rest)
    ensures BatchesNumbered(chunks, metas, embed, start, [0] + js,
                            [EmbeddedBatch(chunks, metas, embed, start)] + rest)
  {
    var sent := [EmbeddedBatch(chunks, metas, embed, start)] + rest;
    forall m | 0 < m < |sent|
      ensures sent[m] == rest[m - 1] && ([0] + js)[m] == js[m - 1]
    {
    }
  }

  lemma IncreasingStep(head: seq<nat>, later: seq<nat>)
    requires head == [] || head == [0]
    requires Increasing(later)
    ensures Increasing(head + Shift(later))
  {
    var js := head + Shift(later);
    forall m, m' | 0 <= m < m' < |js|
      ensures js[m] < js[m']
    {
      if m >= |head| {
        assert js[m] == later[m - |head|] + 1 && js[m'] == later[m' - |head|] + 1;
      }
    }
  }

  lemma AnsweredStep(chunks: seq<TextChunk>, metas: seq<ChunkMeta>,
                     embed: seq<string> -> Option<seq<seq<bv32>>>, start: nat, later: seq<nat>)
    requires |chunks| == |metas| && start < |chunks|
    requires AnsweredExactly(chunks, metas, embed, start + EMBED_BATCH_SIZE, later)
    ensures AnsweredExactly(chunks, metas, embed, start,
                            (if Answers(chunks, metas, embed, start) then [0] else []) + Shift(later))
  {
    var js := (if Answers(chunks, metas, embed, start) then [0] else []) + Shift(later);
    forall j: nat | BatchStart(start, j) < |chunks|
      ensures j in js <==> Answers(chunks, metas, embed, BatchStart(start, j))
    {
      ShiftHas(later, if j > 0 then j - 1 else 0);
      if j > 0 {
        assert BatchStart(start, j) == BatchStart(start + EMBED_BATCH_SIZE, j - 1);
      }
    }
  }

  /** The session fields of every chunk, as the session cache resolves them. */
  function Metas(chunks: seq<TextChunk>, lookup: string -> Option<SyncSession>): (r: seq<ChunkMeta>)
    ensures |r| == |chunks|
  {
    seq(|chunks|, i requires 0 <= i < |chunks| => MetaOf(lookup(chunks[i].sessionId)))
  }

  /** The batch loop of `process_messages`. */
  method IndexChunks(chunks: seq<TextChunk>, metas: seq<ChunkMeta>,
                     embed: seq<string> -> Option<seq<seq<bv32>>>, addOk: seq<SearchDocument> -> bool)
    returns (result: Indexed)
    requires |chunks| == |metas|
    ensures result == Pipeline(chunks, metas, embed, addOk, 0)
  {
    var sent: seq<seq<SearchDocument>> := [];
    var start := 0;
    while start < |chunks|
      invariant Pipeline(chunks, metas, embed, addOk, 0) == Then(sent, Pipeline(chunks, metas, embed, addOk, start))
      decreases |chunks| - start
    {
      var end := Min(start + EMBED_BATCH_SIZE, |chunks|);
      var texts := BatchTexts(chunks, metas, start, end);
      var embeddings := embed(texts);
      if embeddings.None? {
        start := start + EMBED_BATCH_SIZE;
        continue;
      }
      var documents := BuildDocuments(chunks, metas, start, end, embeddings.value);
      if !addOk(documents) {
        return Indexed(sent + [documents], false);
      }
      ThenSnoc(sent, documents, Pipeline(chunks, metas, embed, addOk, start + EMBED_BATCH_SIZE));
      sent := sent + [documents];
      start := start + EMBED_BATCH_SIZE;
    }
    AppendEmpty(sent);
    result := Indexed(sent, true);
  }

  /** A run preceded by the batches already sent. */
  function Then(sent: seq<seq<SearchDocument>>, rest: Indexed): Indexed {
    Indexed(sent + rest.sent, rest.ok)
  }

  lemma ThenSnoc(sent: seq<seq<SearchDocument>>, documents: seq<SearchDocument>, rest: Indexed)
    ensures Then(sent, Indexed([documents] + rest.sent, rest.ok)) == Then(sent + [documents], rest)
  {
    assert sent + ([documents] + rest.sent) == (sent + [documents]) + rest.sent;
  }

  /** `process_messages`: group, chunk, resolve the session fields, then embed and index the
      chunks in batches of 32. */
  method ProcessMessages(messages: seq<SyncMessage>, render: Value -> string,
                         lookup: string -> Option<SyncSession>,
                         embed: seq<string> -> Option<seq<seq<bv32>>>,
                         addOk: seq<SearchDocument> -> bool)
    returns (result: Indexed)
    ensures var infos := Infos(messages, render);
      var chunks := AllChunks(SessionOrder(infos), infos);
      result == Pipeline(chunks, Metas(chunks, lookup), embed, addOk, 0)
  {
    var order, groups := GroupBySession(messages, render);
    var chunks := ChunkSessions(order, groups, Infos(messages, render));
    if |chunks| == 0 {
      return Indexed([], true);
    }
    var metas := ResolveMetas(chunks, lookup);
    assert metas == Metas(chunks, lookup);
    result := IndexChunks(chunks, metas, embed, addOk);
  }

  // ------------------------------------------------------ initial sync

  /** The sync cursor state the indexer persists between runs. */
  datatype SyncStore = SyncStore(lastSyncTs: int, cursor: Option<string>)

  datatype SyncStatus = Completed | Failed | PagesExhausted

  /** What the initial sync did: how it ended, the store it left, the number of messages it
      indexed, the pages it processed in order, and the cursor it sent with each fetch. */
  datatype SyncRun = SyncRun(status: SyncStatus, store: SyncStore, total: nat,
                             processed: seq<SyncMessagesResponse>, requests: seq<Option<string>>)

  /** The store after processing page `resp`: the creation time of its last message, and
      its cursor if it carries one. */
  function AfterPage(store: SyncStore, resp: SyncMessagesResponse): SyncStore
    requires |resp.messages| > 0
  {
    SyncStore(resp.messages[|resp.messages| - 1].createdAt,
              if resp.cursor.Some? then resp.cursor else store.cursor)
  }

  /** Where one fetch leads: the sync ends, with the pages it processed on the way (none or
      this one) and the store it leaves, or it goes on after processing this page. */
  datatype PageStep =
    | Halt(status: SyncStatus, taken: seq<SyncMessagesResponse>, after: SyncStore)
    | Continue(resp: SyncMessagesResponse, after: SyncStore)

  /** The fetch succeeded with messages, and processing them succeeded. */
  predicate Processed(page: Option<SyncMessagesResponse>, processOk: seq<SyncMessage> -> bool) {
    page.Some? && |page.value.messages| > 0 && processOk(page.value.messages)
  }

  /** The fetch failed, or processing its messages failed. */
  predicate FailsSync(page: Option<SyncMessagesResponse>, processOk: seq<SyncMessage> -> bool) {
    page.None? || (|page.value.messages| > 0 && !processOk(page.value.messages))
  }

  /** The loop goes on after this fetch result: it was processed and promised more. */
  predicate GoesOn(page: Option<SyncMessagesResponse>, processOk: seq<SyncMessage> -> bool) {
    Processed(page, processOk) && page.value.hasMore
  }

  /** One pass of the paging loop on the fetch result `page` (None: the fetch failed);
      `processOk` says whether processing a page's messages succeeded. A page with no
      messages ends the sync; so does a page without `has_more`, after it is processed. */
  function Step(store: SyncStore, page: Option<SyncMessagesResponse>, processOk: seq<SyncMessage> -> bool)
    : (r: PageStep)
    ensures page.None? ==> r == Halt(Failed, [], store)
    ensures page.Some? && page.value.messages == [] ==> r == Halt(Completed, [], store)
    ensures page.Some? && |page.value.messages| > 0 && !processOk(page.value.messages) ==>
      r == Halt(Failed, [], store)
    ensures Processed(page, processOk) ==> (r.Continue? <==> page.value.hasMore)
    ensures r.Halt? && r.taken == [] ==> r.after == store
    ensures r.Halt? && r.taken == [] ==>
      (r.status == Completed <==> page.Some? && page.value.messages == [])
    ensures r.Halt? && r.taken != [] ==>
      && page.Some? && r.taken == [page.value] && r.status == Completed
      && |page.value.messages| > 0 && processOk(page.value.messages) && !page.value.hasMore
      && r.after == AfterPage(store, page.value)
    ensures r.Continue? ==>
      && page == Some(r.resp) && |r.resp.messages| > 0 && processOk(r.resp.messages) && r.resp.hasMore
      && r.after == AfterPage(store, r.resp)
  {
    if page.None? then Halt(Failed, [], store)
    else
      var resp := page.value;
      if |resp.messages| == 0 then Halt(Completed, [], store)
      else if !processOk(resp.messages) then Halt(Failed, [], store)
      else if !resp.hasMore then Halt(Completed, [resp], AfterPage(store, resp))
      else Continue(resp, AfterPage(store, resp))
  }

  /** The number of messages in `pages`. */
  function MessageCount(pages: seq<SyncMessagesResponse>): nat
    decreases |pages|
  {
    if |pages| == 0 then 0 else |pages[0].messages| + MessageCount(pages[1..])
  }

  /** The paging loop of `initial_sync` from fetch `i` on, fed with the fetch results
      `pages`. */
  function SyncFrom(store: SyncStore, pages: seq<Option<SyncMessagesResponse>>, i: nat,
                    processOk: seq<SyncMessage> -> bool): (r: SyncRun)
    requires i <= |pages|
    ensures |r.requests| <= |pages| - i
    decreases |pages| - i
  {
    if i == |pages| then SyncRun(PagesExhausted, store, 0, [], [])
    else
      match Step(store, pages[i], processOk)
      case Halt(status, taken, after) => SyncRun(status, after, MessageCount(taken), taken, [store.cursor])
      case Continue(resp, after) =>
        var rest := SyncFrom(after, pages, i + 1, processOk);
        SyncRun(rest.status, rest.store, |resp.messages| + rest.total, [resp] + rest.processed, [store.cursor] + rest.requests)
  }

  /** A run preceded by what the loop has already done. */
  function After(total: nat, processed: seq<SyncMessagesResponse>, requests: seq<Option<string>>,
                 rest: SyncRun): SyncRun {
    SyncRun(rest.status, rest.store, total + rest.total, processed + rest.processed, requests + rest.requests)
  }

  lemma AfterNext(total: nat, processed: seq<SyncMessagesResponse>, requests: seq<Option<string>>,
                  resp: SyncMessagesResponse, cursor: Option<string>, rest: SyncRun)
    ensures After(total, processed, requests,
                  SyncRun(rest.status, rest.store, |resp.messages| + rest.total, [resp] + rest.processed, [cursor] + rest.requests)) ==
      After(total + |resp.messages|, processed + [resp], requests + [cursor], rest)
  {
    assert (processed + [resp]) + rest.processed == processed + ([resp] + rest.processed);
    assert (requests + [cursor]) + rest.requests == requests + ([cursor] + rest.requests);
  }

  /** One pass of `initial_sync`'s loop body: check the fetch, stop on an empty page,
      process the messages, advance `last_sync_ts` and the cursor, stop without `has_more`. */
  method SyncPage(store: SyncStore, page: Option<SyncMessagesResponse>, processOk: seq<SyncMessage> -> bool)
    returns (step: PageStep)
    ensures step == Step(store, page, processOk)
  {
    if page.None? {
      return Halt(Failed, [], store);
    }
    var resp := page.value;
    var count := |resp.messages|;
    if count == 0 {
      return Halt(Completed, [], store);
    }
    if !processOk(resp.messages) {
      return Halt(Failed, [], store);
    }
    var next := store.(lastSyncTs := resp.messages[count - 1].createdAt);
    if resp.cursor.Some? {
      next := next.(cursor := resp.cursor);
    }
    if !resp.hasMore {
      return Halt(Completed, [resp], next);
    }
    return Continue(resp, next);
  }

  /** `initial_sync`, with its loop over the fetched pages. */
  method InitialSync(store0: SyncStore, pages: seq<Option<SyncMessagesResponse>>,
                     processOk: seq<SyncMessage> -> bool) returns (run: SyncRun)
    ensures run == SyncFrom(store0, pages, 0, processOk)
  {
    var store := store0;
    var total: nat := 0;
    var processed: seq<SyncMessagesResponse> := [];
    var requests: seq<Option<string>> := [];
    var i := 0;
    while i < |pages|
      invariant i <= |pages|
      invariant SyncFrom(store0, pages, 0, processOk) == After(total, processed, requests, SyncFrom(store, pages, i, processOk))
      decreases |pages| - i
    {
      var cursor := store.cursor;
      var step := SyncPage(store, pages[i], processOk);
      match step {
        case Halt(status, taken, after) =>
          return SyncRun(status, after, total + MessageCount(taken), processed + taken, requests + [cursor]);
        case Continue(resp, after) =>
          AfterNext(total, processed, requests, resp, cursor, SyncFrom(after, pages, i + 1, processOk));
          total := total + |resp.messages|;
          processed := processed + [resp];
          requests := requests + [cursor];
          store := after;
          i := i + 1;
      }
    }
    AppendEmpty(processed);
    AppendEmpty(requests);
    return SyncRun(PagesExhausted, store, total, processed, requests);
  }

  /** The sync processes the fetched pages from `i` on, in order: each processed page was
      non-empty, every one but the last promised more, and the total is their message count;
      one fetch is made per processed page, plus the one that ended the sync unless the last
      processed page said there was no more. */
  lemma {:induction false} SyncProcessesPrefix(store: SyncStore, pages: seq<Option<SyncMessagesResponse>>,
                                               i: nat, processOk: seq<SyncMessage> -> bool)
    requires i <= |pages|
    ensures var r := SyncFrom(store, pages, i, processOk);
      && |r.processed| <= |r.requests|
      && (forall k | 0 <= k < |r.processed| :: i + k < |pages| && pages[i + k] == Some(r.processed[k]))
      && (forall k | 0 <= k < |r.processed| :: |r.processed[k].messages| > 0)
      && (forall k | 0 <= k < |r.processed| - 1 :: r.processed[k].hasMore)
      && r.total == MessageCount(r.processed)
    decreases |pages| - i
  {
    if i < |pages| {
      var step := Step(store, pages[i], processOk);
      if step.Continue? {
        var resp := step.resp;
        var rest := SyncFrom(step.after, pages, i + 1, processOk);
        SyncProcessesPrefix(step.after, pages, i + 1, processOk);
        var processed := [resp] + rest.processed;
        assert processed[1..] == rest.processed;
        assert forall k | 1 <= k < |processed| :: processed[k] == rest.processed[k - 1];
      } else if step.taken != [] {
        assert MessageCount(step.taken) == |step.taken[0].messages| + MessageCount(step.taken[1..]);
      }
    }
  }

  /** The sync fetches pages from `i` on until one does not go on: every fetch before the
      last went on and was processed, the last one is processed unless it failed or was
      empty, and the sync fails exactly when that last fetch or its processing failed. It
      ends with `PagesExhausted` only when the fetch results run out while it still goes on. */
  lemma {:induction false} SyncOutcome(store: SyncStore, pages: seq<Option<SyncMessagesResponse>>,
                                       i: nat, processOk: seq<SyncMessage> -> bool)
    requires i <= |pages|
    ensures var r := SyncFrom(store, pages, i, processOk);
      var n := |r.requests|;
      && i + n <= |pages|
      && (forall k | i <= k < i + n - 1 :: GoesOn(pages[k], processOk))
      && (n < |pages| - i ==> n > 0 && !GoesOn(pages[i + n - 1], processOk))
      && |r.processed| == (if n > 0 && !Processed(pages[i + n - 1], processOk) then n - 1 else n)
      && (r.status == Failed <==> n > 0 && FailsSync(pages[i + n - 1], processOk))
      && (r.status == PagesExhausted <==> n == |pages| - i && (n == 0 || GoesOn(pages[i + n - 1], processOk)))
    decreases |pages| - i
  {
    if i < |pages| {
      var step := Step(store, pages[i], processOk);
      if step.Continue? {
        SyncOutcome(step.after, pages, i + 1, processOk);
        var rest := SyncFrom(step.after, pages, i + 1, processOk);
        assert |SyncFrom(store, pages, i, processOk).requests| == 1 + |rest.requests|;
        if |rest.requests| > 0 {
          assert pages[i + 1 + |rest.requests| - 1] == pages[i + |rest.requests|];
        }
      }
    }
  }

  /** `last_sync_ts` ends as the creation time of the last message processed, or unchanged
      when nothing was processed. */
  lemma {:induction false} SyncLastTimestamp(store: SyncStore, pages: seq<Option<SyncMessagesResponse>>,
                                             i: nat, processOk: seq<SyncMessage> -> bool)
    requires i <= |pages|
    ensures var r := SyncFrom(store, pages, i, processOk);
      && (r.processed == [] ==> r.store.lastSyncTs == store.lastSyncTs)
      && (r.processed != [] ==>
            var last := r.processed[|r.processed| - 1];
            |last.messages| > 0 && r.store.lastSyncTs == last.messages[|last.messages| - 1].createdAt)
    decreases |pages| - i
  {
    if i < |pages| {
      var step := Step(store, pages[i], processOk);
      if step.Continue? {
        SyncLastTimestamp(step.after, pages, i + 1, processOk);
      }
    }
  }

  /** The cursor in force before each fetch: the stored one, replaced by every processed page
      that carries one. */
  function CursorAfter(cursor: Option<string>, pages: seq<SyncMessagesResponse>): Option<string>
    decreases |pages|
  {
    if |pages| == 0 then cursor
    else CursorAfter(if pages[0].cursor.Some? then pages[0].cursor else cursor, pages[1..])
  }

  lemma CursorStep(cursor: Option<string>, pages: seq<SyncMessagesResponse>)
    requires |pages| > 0
    ensures CursorAfter(cursor, pages) == CursorAfter(if pages[0].cursor.Some? then pages[0].cursor else cursor, pages[1..])
  {
  }

  /** The cursor changes only when a processed page carries one: fetch k sends the cursor
      left by the pages processed before it, and so does the store at the end. */
  lemma {:induction false} SyncCursor(store: SyncStore, pages: seq<Option<SyncMessagesResponse>>,
                                      i: nat, processOk: seq<SyncMessage> -> bool)
    requires i <= |pages|
    ensures var r := SyncFrom(store, pages, i, processOk);
      && (forall k | 0 <= k < |r.requests| && k <= |r.processed| :: r.requests[k] == CursorAfter(store.cursor, r.processed[..k]))
      && r.store.cursor == CursorAfter(store.cursor, r.processed)
    decreases |pages| - i
  {
    if i < |pages| {
      var step := Step(store, pages[i], processOk);
      var r := SyncFrom(store, pages, i, processOk);
      if step.Continue? {
        var rest := SyncFrom(step.after, pages, i + 1, processOk);
        SyncCursor(step.after, pages, i + 1, processOk);
        assert r.processed == [step.resp] + rest.processed;
        forall k | 0 <= k < |r.requests| && k <= |r.processed|
          ensures r.requests[k] == CursorAfter(store.cursor, r.processed[..k])
        {
          if k > 0 {
            CursorStep(store.cursor, r.processed[..k]);
            assert r.processed[..k][1..] == rest.processed[..k - 1];
          }
        }
        CursorStep(store.cursor, r.processed);
        assert r.processed[1..] == rest.processed;
      } else if step.taken != [] {
        CursorStep(store.cursor, r.processed);
        assert r.processed[1..] == [];
      }
    }
  }

  /** If no processed page carries a cursor, the stored cursor is left as it was. */
  lemma {:induction false} CursorUnchanged(cursor: Option<string>, pages: seq<SyncMessagesResponse>)
    requires forall k | 0 <= k < |pages| :: pages[k].cursor.None?
    ensures CursorAfter(cursor, pages) == cursor
    decreases |pages|
  {
    if |pages| > 0 {
      CursorUnchanged(cursor, pages[1..]);
    }
  }

  /** Otherwise the cursor left is that of the last page that carried one. */
  lemma {:induction false} CursorOfLastCarrier(cursor: Option<string>, pages: seq<SyncMessagesResponse>, k: nat)
    requires k < |pages| && pages[k].cursor.Some?
    requires forall j | k < j < |pages| :: pages[j].cursor.None?
    ensures CursorAfter(cursor, pages) == pages[k].cursor
    decreases |pages|
  {
    var next := if pages[0].cursor.Some? then pages[0].cursor else cursor;
    if k > 0 {
      CursorOfLastCarrier(next, pages[1..], k - 1);
    } else {
      CursorUnchanged(next, pages[1..]);
    }
  }
}
