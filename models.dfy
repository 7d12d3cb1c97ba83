/** The data shapes of the indexer (hapi-search/src/models.rs). Embedding vectors are
    sequences of raw `f32` bit patterns; scores are exact reals. */
module Models {
  import opened Base
  import Json

  /** A message as the hub's sync API returns it. */
  datatype SyncMessage = SyncMessage(
    id: string, sessionId: string, seqNo: int, content: Json.Value, createdAt: int)

  datatype SummaryText = SummaryText(text: string)

  datatype SessionMetadata = SessionMetadata(
    name: Option<string>, path: Option<string>, summary: Option<SummaryText>,
    flavor: Option<string>, machineId: Option<string>)

  datatype SyncSession = SyncSession(
    id: string, namespace: Option<string>, metadata: Option<SessionMetadata>,
    createdAt: int, updatedAt: int, active: bool)

  /** One page of the hub's message sync API. */
  datatype SyncMessagesResponse = SyncMessagesResponse(
    messages: seq<SyncMessage>, cursor: Option<string>, hasMore: bool)

  datatype Vectors = Vectors(bge: seq<bv32>)

  /** A document stored in the search index. */
  datatype SearchDocument = SearchDocument(
    id: string, messageId: string, sessionId: string, seqNo: int, role: string, text: string,
    sessionName: string, sessionPath: string, sessionFlavor: string, createdAt: int,
    vectors: Vectors)

  /** A piece of role-tagged text extracted from a message. */
  datatype TextSegment = TextSegment(role: string, text: string)

  /** A chunk of text ready for embedding. */
  datatype TextChunk = TextChunk(
    messageId: string, sessionId: string, seqNo: int, createdAt: int, role: string,
    text: string, chunkIndex: nat)

  datatype SearchHitSession = SearchHitSession(
    id: string, name: string, path: string, flavor: string, url: string)

  /** A search result returned to the front end. */
  datatype SearchHit = SearchHit(
    text: string, role: string, messageId: string, seqNo: int, createdAt: int,
    session: SearchHitSession, score: real, semanticScore: Option<real>,
    keywordScore: Option<real>)

  datatype SearchResponse = SearchResponse(
    query: string, hits: seq<SearchHit>, totalHits: nat, processingTimeMs: nat)
}
