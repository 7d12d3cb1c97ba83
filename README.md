# hapi: the search indexer and the runner agent, modelled in Dafny

This project models the sequential decision logic of two Rust programs from the hapi
repository and proves properties of it.

**`hapi-search`** indexes chat sessions from the hapi hub and answers searches over them.
- `text_extract` pulls role-tagged text segments out of a message's JSON.
- `chunker` merges whole messages into chunks of about 1500 characters.
- `syncer` groups fetched messages by session, chunks them, embeds the chunks in batches of
  32 and writes the resulting documents to the search index. Its initial sync pages through
  the hub's messages with a cursor.
- `search` groups index hits into one best hit per session, ranks the sessions and pages
  through them.
- `web` serves `/api/search`: it clamps the limit and chooses between JSON and a plain-text
  listing.

**`happier`** is the runner agent on a machine. It registers with the hub, keeps a
Socket.IO connection to it, and opens TCP tunnels on the hub's request.
- `register` retries the registration.
- `socket` is a small Socket.IO v5 client over Engine.IO v4: URL, packets, parser,
  ack ids and the reader's dispatch.
- `connection` decodes the hub's `tunnel:*` events.
- `tunnel` keeps the table of open tunnels.
- `main` runs the reconnect loop with its back-off.
- `config` resolves the runner's settings.

Each source file is one Dafny module: `TextExtract`, `Chunker`, `Syncer`, `Search`, `Web`,
`Socket`, `Connection`, `Tunnel`, `Register`, `Runner` (for `happier/src/main.rs`) and
`Config`. Four modules hold shared data:
- `Base`: `Option`, sequence lemmas.
- `Strings`: trimming, joining, decimal text.
- `Json`: a `serde_json::Value` datatype.
- `Models`: the records of `hapi-search/src/models.rs`.

Where the source changes state step by step, the model does too: a method with a loop, or
the `Socket.SocketClient` class with its id counter, waiter set and outbox. Each such method
is proved equal to a specification function, and the properties are lemmas about that
function.

**Inputs and library routines.** The outcome of every piece of I/O is an input of the
model:
- a TCP connect, an emit, an HTTP response, a WebSocket frame, an index or embedder answer;
- a settings file's text, an environment variable, a signal.

Library codecs are function parameters:
- JSON parsing and printing, base64, `to_lowercase`, `{:.3}`, UUID generation.

Floating-point scores are `real`. Integers are unbounded, except where the source truncates:
- the `as u16` port;
- the `i64` ack id.

**Where the model follows the code rather than the description:**
- `truncate_str` (hapi-search/src/text_extract.rs:158-169) can return up to three
  characters more than its limit. A 2001-character text cut to 2000 comes back with 2003
  characters (`TextExtract.TruncateCanLengthen`).
- An ack waiter whose send fails, or whose wait times out, stays in the waiter table
  (happier/src/socket.rs:201-209). `Socket.SocketClient.EmitWithAck` keeps it.
- Most waits in the reconnect loop end early on SIGINT or SIGTERM. The wait after a failed
  initial-state emit does not (happier/src/main.rs:70-76), so `Runner.Round.EmitFailed`
  carries no signal.
- A `tunnel:open` port above 65535 is not refused: it wraps to its low 16 bits
  (`Connection.PortWraps`).

## Model

| member | source | states |
|---|---|---|
| TextExtract.TruncateStr | hapi-search/src/text_extract.rs:158-169 | identity up to `maxChars`; otherwise the first and last `maxChars/2` characters around `...`, at most `maxChars + 3` long |
| TextExtract.TruncateCanLengthen | hapi-search/src/text_extract.rs:158-169 | a 2001-character string truncated to 2000 has 2003 characters |
| TextExtract.ExtractUserText | hapi-search/src/text_extract.rs:31-49 | at most one segment, role `user`, present exactly when `content.content.text` is a non-blank string |
| TextExtract.AssistantBlocks | hapi-search/src/text_extract.rs:55-66 | the block source is `message.content`, else `data`, else `content` if it is an array; the first present wins |
| TextExtract.BlockSegment | hapi-search/src/text_extract.rs:86-127 | blocks other than `text`, `tool_use` and `tool_result` yield nothing; a `text` block yields an assistant segment with its text exactly when the text is a non-blank string; a `tool_use` block yields `Tool: <name or unknown> Input: <input truncated to 500>` as a tool segment exactly when the truncated input is non-empty, nothing without an input; a `tool_result` block yields its result text truncated to 2000 as a tool-result segment exactly when that text is non-empty |
| TextExtract.BlocksSegments | hapi-search/src/text_extract.rs:85-129 | no more segments than blocks, none of them a user segment |
| TextExtract.ContentBlockSegments | hapi-search/src/text_extract.rs:75-132 | a non-blank string yields exactly one assistant segment holding that string, a blank one none; values other than strings and arrays yield none |
| TextExtract.TextBlockRoundTrip | hapi-search/src/text_extract.rs:90-98 | a `text` block with a non-blank text yields exactly one assistant segment with that text |
| TextExtract.ToolResultBlockRoundTrip | hapi-search/src/text_extract.rs:117-124 | a `tool_result` block with a non-empty result text yields exactly one tool-result segment with that text truncated to 2000 |
| TextExtract.OtherBlocksIgnored | hapi-search/src/text_extract.rs:125 | an array of blocks none of whose types is `text`, `tool_use` or `tool_result` yields no segment |
| TextExtract.ExtractAssistantText | hapi-search/src/text_extract.rs:51-73 | only assistant or tool segments; nothing when no block source is present |
| TextExtract.ExtractText | hapi-search/src/text_extract.rs:11-29 | `user` uses only the user path, `assistant` only the assistant path, any other role falls back to the assistant path when the user path yields nothing |
| TextExtract.UserPathWins | hapi-search/src/text_extract.rs:17-28 | for a role other than `assistant`, a non-blank user text gives exactly that one user segment |
| TextExtract.ExtractToolResultText | hapi-search/src/text_extract.rs:134-151 | the loop over the parts computes the tool-result text: a string as is, the parts' texts joined by newlines, other values as truncated JSON, `""` when missing |
| TextExtract.ExtractContentBlocks | hapi-search/src/text_extract.rs:75-132 | appending to the segment vector adds exactly the value's segments, in block order |
| TextExtract.AppendBlockSegment | hapi-search/src/text_extract.rs:87-127 | one iteration appends exactly that block's segment |
| Chunker.SegmentParts | hapi-search/src/chunker.rs:96-104 | at most one non-empty part per segment |
| Chunker.SegmentPartsEmptyIff | hapi-search/src/chunker.rs:98-104 | no parts exactly when every segment is blank |
| Chunker.FlattenEmptyIff | hapi-search/src/chunker.rs:96-106 | a message flattens to nothing exactly when all its segments are blank |
| Chunker.FlattenSegments | hapi-search/src/chunker.rs:96-106 | the loop builds the `[role] text` lines of the trimmed non-blank segments, joined by newlines |
| Chunker.DominantRoleSpec | hapi-search/src/chunker.rs:109-119 | `user` exactly when a segment is a user segment, else the first segment's role, else `unknown` |
| Chunker.Kept | hapi-search/src/chunker.rs:33-36 | kept messages all have text |
| Chunker.ChunkMessages | hapi-search/src/chunker.rs:19-93 | the buffer loop produces exactly the chunks of the runs of kept messages |
| Chunker.RunsMessages | hapi-search/src/chunker.rs:31-77 | the runs hold every kept message once, in order |
| Chunker.BlankMessageIgnored | hapi-search/src/chunker.rs:33-36 | inserting a message with no text anywhere changes no chunk |
| Chunker.ChunksPreserveContent | hapi-search/src/chunker.rs:31-90 | the chunk texts joined by newlines are the kept messages' texts joined by newlines |
| Chunker.RunsLaidOut | hapi-search/src/chunker.rs:50-76 | every run holding two or more messages fits in 1500 characters, and each run closed only because the next message would overflow it |
| Chunker.ChunkLayout | hapi-search/src/chunker.rs:40-90 | chunk `k` has index `k`, non-empty text, and its id, session, seq, time and role from its first message; only single messages exceed 1500 characters; a flush happens only on overflow |
| Chunker.NoChunksIff | hapi-search/src/chunker.rs:80-92 | no chunks exactly when every message flattens to nothing |
| Syncer.Infos | hapi-search/src/syncer.rs:103-123 | only messages with segments are kept |
| Syncer.SessionOrderMembers | hapi-search/src/syncer.rs:109-111 | a session is listed exactly when one of its messages was kept |
| Syncer.SessionOrderDistinct | hapi-search/src/syncer.rs:109-111 | each session is listed once |
| Syncer.SessionOrderFirstSeen | hapi-search/src/syncer.rs:109-111 | sessions are listed in order of first appearance |
| Syncer.GroupsPartition | hapi-search/src/syncer.rs:103-131 | the per-session groups together hold every kept message exactly once |
| Syncer.GroupBySession | hapi-search/src/syncer.rs:100-123 | the loop fills the map and the order list: the map has one entry per listed session, holding that session's messages in order |
| Syncer.ChunkSessions | hapi-search/src/syncer.rs:126-131 | the chunks are each session's chunks in session order |
| Syncer.SessionChunksLabelled | hapi-search/src/syncer.rs:127-130 | no chunk mixes sessions: each carries its session's id |
| Syncer.SessionName | hapi-search/src/syncer.rs:151-158 | the metadata name, else the summary text, else `""` |
| Syncer.ResolveMetas | hapi-search/src/syncer.rs:146-175 | one set of session fields per chunk, from that chunk's session |
| Syncer.EmbeddingText | hapi-search/src/syncer.rs:181-190 | the chunk text, prefixed with `[name] ` only when the name is non-empty |
| Syncer.DocumentIdInjective | hapi-search/src/syncer.rs:207 | `msg_{id}_chunk_{k}` determines the message id and chunk index |
| Syncer.SessionDocumentIdsDistinct | hapi-search/src/syncer.rs:202-219 | the chunks of one session get pairwise different document ids |
| Syncer.BatchDocuments | hapi-search/src/syncer.rs:201-219 | as many documents as the shorter of the batch and the embeddings |
| Syncer.BuildDocuments | hapi-search/src/syncer.rs:201-219 | the zip loop builds exactly those documents |
| Syncer.PipelineStopsAtFailure | hapi-search/src/syncer.rs:177-224 | the run fails exactly when its last index write failed; all earlier writes succeeded; no batch exceeds 32 documents |
| Syncer.PipelineSkips | hapi-search/src/syncer.rs:177-224 | when every index write succeeds, the run succeeds and its batches are exactly the batches the embedder answered, in increasing order, each holding the documents of its 32 chunks; a batch whose embedding failed is skipped and the later batches still run |
| Syncer.PipelineBatches | hapi-search/src/syncer.rs:177-210 | with a complete embedder and index, batch `k` holds the documents of chunks [32k, min(32k + 32, n)) in order, and there are just enough batches to reach the last chunk |
| Syncer.PipelineIndexesAll | hapi-search/src/syncer.rs:177-222 | with a complete embedder and index, every chunk is indexed once, in order, under its document id and with its text |
| Syncer.IndexChunks | hapi-search/src/syncer.rs:177-224 | the batch loop, including skipped embedding batches, matches the pipeline |
| Syncer.ProcessMessages | hapi-search/src/syncer.rs:98-225 | extract, group, chunk, resolve, embed and index, matching the composed specification |
| Syncer.Step | hapi-search/src/syncer.rs:64-90 | a failed fetch or failed processing ends the sync as failed and an empty page as completed, leaving the store unchanged; a processed page moves `last_sync_ts` to its last message and the cursor to its own, if any; the sync goes on only after a processed non-empty page with `has_more` |
| Syncer.SyncOutcome | hapi-search/src/syncer.rs:62-89 | every page up to the first stopping one is fetched, and every fetched page before it was processed and had `has_more`; the sync fails exactly when that last fetch or its processing failed, and runs out of pages only when every page went on |
| Syncer.SyncPage | hapi-search/src/syncer.rs:64-90 | one pass of the loop body matches that step |
| Syncer.InitialSync | hapi-search/src/syncer.rs:56-95 | the paging loop matches the sync specification |
| Syncer.SyncProcessesPrefix | hapi-search/src/syncer.rs:63-91 | pages are processed in order; each processed page was non-empty and all but the last promised more; the total is their message count |
| Syncer.SyncLastTimestamp | hapi-search/src/syncer.rs:79-81 | `last_sync_ts` ends as the last processed message's creation time, or unchanged |
| Syncer.SyncCursor | hapi-search/src/syncer.rs:83-86 | each fetch sends the cursor left by the pages before it; only pages carrying a cursor change it |
| Search.FetchLimit | hapi-search/src/search.rs:39 | `min(max(5*limit, 50), 200)`: always in [50, 200] |
| Search.SplitQuery | hapi-search/src/search.rs:170-171 | no piece contains a separator |
| Search.SplitQueryJoin | hapi-search/src/search.rs:170-171 | the pieces joined by spaces are the query with every separator turned into a space |
| Search.QueryTokens | hapi-search/src/search.rs:170-173 | every token is longer than 2 UTF-8 bytes |
| Search.NameBoost | hapi-search/src/search.rs:162-190 | the boost is in [0, 0.02], and 0 for an empty name or when no token is kept |
| Search.NameBoostFull | hapi-search/src/search.rs:180-189 | a name containing every token gets 0.02 |
| Search.NameBoostNone | hapi-search/src/search.rs:180-189 | a name containing no token gets 0 |
| Search.HitShape | hapi-search/src/search.rs:25-116 | the score is the ranking score plus at most 0.02; the URL is the trimmed base, `/sessions/` and the session id; a missing session id is `""` |
| Search.BestExists | hapi-search/src/search.rs:118-124 | a session has a best hit exactly when it has hits |
| Search.BestIsMaximal | hapi-search/src/search.rs:126-129 | no hit of the session scores above its best hit |
| Search.BestIsFirstMaximum | hapi-search/src/search.rs:126-129 | the best hit is the earliest of maximal score: every earlier hit of the session scores strictly less |
| Search.RecordStep | hapi-search/src/search.rs:118-129 | one loop step keeps the groups equal to the best hit and count per session |
| Search.GroupHits | hapi-search/src/search.rs:50-130 | the grouping loop yields one group per session with hits, with its best hit and its hit count |
| Search.GroupValues | hapi-search/src/search.rs:133 | the groups collected once each, in some order |
| Search.InsertRankedAdds | hapi-search/src/search.rs:134-140 | inserting adds exactly that group |
| Search.InsertRankedRanked | hapi-search/src/search.rs:134-140 | inserting keeps the order: score descending, then chunk count descending |
| Search.SortGroups | hapi-search/src/search.rs:133-140 | the result is ranked and a permutation of the groups |
| Search.Page | hapi-search/src/search.rs:143-149 | `min(limit, max(0, total - offset))` hits: groups `offset`, `offset+1`, ... |
| Search.PagesConcatenate | hapi-search/src/search.rs:144-149 | consecutive pages concatenate to the larger page |
| Search.SessionsOfCount | hapi-search/src/search.rs:52-123 | a session is counted exactly when it has a hit |
| Search.GroupCount | hapi-search/src/search.rs:133-143 | the number of groups is the number of distinct sessions among the hits |
| Search.SearchResult | hapi-search/src/search.rs:133-149 | the sorted groups hold every session with hits exactly once, each with its best hit and count; the page has distinct sessions, each with its best hit, in non-increasing score order |
| Search.SearchSessions | hapi-search/src/search.rs:29-157 | fails exactly when the embedding or the index query fails; otherwise there is a ranked ordering of the groups that holds each session with hits exactly once, with its best hit and count; the total is its length and the page is its `[offset, offset + limit)` window, distinct, best and ranked |
| Web.EffectiveLimit | hapi-search/src/web.rs:36-77 | 20 by default, never above 100, the requested limit otherwise |
| Web.HandleSearch | hapi-search/src/web.rs:73-90 | a server error exactly when the search failed; the listing exactly when `format=compact`; JSON otherwise |
| Web.StripMarks | hapi-search/src/web.rs:97 | never longer than the text |
| Strings.RemoveAllFirst | hapi-search/src/web.rs:97 | removal scans left to right: text before the first occurrence is kept, that occurrence is dropped, and removal continues after it |
| Strings.RemoveAllWhole | hapi-search/src/web.rs:97 | only whole occurrences are removed: the length lost is the number removed times the pattern's length |
| Web.StripMarksHighlight | hapi-search/src/web.rs:97 | `a<mark>w</mark>b` becomes `awb` when `a`, `w` and `b` hold no `<` |
| Web.CleanText | hapi-search/src/web.rs:97-98 | at most 80 characters, no line break, a prefix of the mark-stripped text with line breaks removed |
| Web.CleanTextKeepsPlain | hapi-search/src/web.rs:97-98 | short plain single-line text is listed unchanged |
| Web.ScoreText | hapi-search/src/web.rs:99-100 | a missing score renders as `-` |
| Web.CompactText | hapi-search/src/web.rs:112-114 | no hits give exactly `No results found.\n` |
| Web.FormatCompact | hapi-search/src/web.rs:92-121 | the loop writes the two lines of each hit, numbered from 1, then the no-results line when there were no hits |
| Web.BlocksPrefix | hapi-search/src/web.rs:95-111 | the listing of the first `k` hits starts the listing of the first `n` |
| Web.HitBlockTwoLines | hapi-search/src/web.rs:101-110 | a hit whose fields hold no newline takes exactly two lines |
| Web.CompactLineCount | hapi-search/src/web.rs:95-114 | the listing has two lines per hit, or one line when there are none |
| Socket.SocketUrl | happier/src/socket.rs:29-36 | the path is `/socket.io/` and the query `EIO=4&transport=websocket`; the host is kept; only special schemes succeed |
| Socket.SocketUrlSecure | happier/src/socket.rs:30-33 | the scheme becomes `wss` exactly for `https`, else `ws` |
| Socket.LeadingDigits | happier/src/socket.rs:251 | the longest prefix of ASCII digits |
| Socket.ParseI64 | happier/src/socket.rs:253-255 | the value when it fits `i64`, else nothing |
| Socket.ParseSioPacket | happier/src/socket.rs:230-270 | none exactly when nothing or no digit follows the `4`; otherwise the type is that digit and the id a non-negative `i64` |
| Socket.PacketRoundTrip | happier/src/socket.rs:230-270 | a packet built from a type, namespace, id digits and an array payload parses back to them |
| Socket.AckRequestRoundTrip | happier/src/socket.rs:192-199 | an `emit_with_ack` packet parses to type 2 with its id |
| Socket.EmitRoundTrip | happier/src/socket.rs:176-184 | an `emit` packet parses to type 2 with no id |
| Socket.OverflowingIdDropped | happier/src/socket.rs:250-257 | id digits beyond `i64` are consumed but give no id |
| Socket.OnPacket | happier/src/socket.rs:136-164 | an answer exactly for type 3 with id and payload; an event only for type 2 with a payload |
| Socket.Dispatch | happier/src/socket.rs:114-168 | a pong exactly for the text `2`; packets are handled only for text starting with `4`; the loop stops exactly when the stream ends, on a Close frame, or on a text other than the ping that starts with `1` (engine close) or `41` plus the namespace (disconnect) |
| Socket.DispatchPacket | happier/src/socket.rs:119-135 | a `4` packet that is not a disconnect reaches the packet handler |
| Socket.EmitDispatched | happier/src/socket.rs:148-161 | an emitted event is delivered to the receiver's handler with its name and data |
| Socket.AnswerDispatched | happier/src/socket.rs:138-145 | an answer packet reaches the waiter for its id |
| Socket.ReadLedger | happier/src/socket.rs:138-145 | over the reader loop, waiters only leave the table, each waiter is answered at most once, and it leaves exactly when answered |
| Socket.ReadWritesPongs | happier/src/socket.rs:119-122 | the reader only appends pongs to what was written |
| Socket.ConnectedOnAck | happier/src/socket.rs:76-105 | the handshake succeeds only after a `40{ns}` frame arrived |
| Socket.Head | happier/src/socket.rs:64 | the first `min(n, len)` characters |
| Socket.Handshake | happier/src/socket.rs:61-105 | success needs an open packet starting with `0` and a sent connect packet; the connect packet is the first frame written |
| Socket.SocketClient.Connect | happier/src/socket.rs:61-105 | the handshake loop matches the handshake specification and leaves the ids and waiters alone |
| Socket.SocketClient.Emit | happier/src/socket.rs:176-184 | writes `42{ns},[event,data]` when the send succeeds, and nothing else changes |
| Socket.SocketClient.EmitWithAck | happier/src/socket.rs:186-211 | takes the next id, which was never waited on, inserts its waiter before the send, and writes `42{ns},{id}[event,data]` |
| Socket.SocketClient.Disconnect | happier/src/socket.rs:213-217 | writes `41{ns}` |
| Socket.SocketClient.ReadLoop | happier/src/socket.rs:113-171 | the reader loop matches the reader specification |
| Socket.ReaderKeepsLedger | happier/src/socket.rs:138-145 | with the client's table, each waiter is answered at most once and leaves exactly when answered |
| Connection.AuthObject | happier/src/connection.rs:21-25 | the token, `machine-scoped` and the machine id |
| Connection.PortOf | happier/src/connection.rs:33 | the low 16 bits of an unsigned integer, else 0 |
| Connection.DecodeEvent | happier/src/connection.rs:28-56 | `tunnel:open` needs a non-empty id and a non-zero port; `tunnel:data` and `tunnel:close` need a non-empty id; other events give nothing; the fields come from the data |
| Connection.OpenRoundTrip | happier/src/connection.rs:31-38 | a well-formed `tunnel:open` decodes to exactly its tunnel |
| Connection.PortWraps | happier/src/connection.rs:33-37 | port 65616 opens port 80; port 65536 is dropped |
| Connection.DataAndCloseRoundTrip | happier/src/connection.rs:40-53 | data and close decode to their id; missing data is `""` |
| Connection.InitialStatePayload | happier/src/connection.rs:84-91 | machine id, `running`, start time and expected version 0 |
| Connection.AlivePayload | happier/src/connection.rs:112-115 | machine id and time |
| Tunnel.TargetHost | happier/src/tunnel.rs:39 | the event's host, else `127.0.0.1` |
| Tunnel.HandleTunnelOpen | happier/src/tunnel.rs:71-126 | the open handler's table and emits match the open specification |
| Tunnel.Run | happier/src/tunnel.rs:29-69 | the event loop over the table matches the loop specification |
| Tunnel.DataIgnored | happier/src/tunnel.rs:43-56 | data for an unknown tunnel, or undecodable data, changes nothing |
| Tunnel.DataWriteFailureRemoves | happier/src/tunnel.rs:47-50 | a closed write channel removes that tunnel and nothing else |
| Tunnel.CloseRemovesOnly | happier/src/tunnel.rs:58-61 | close removes exactly that id |
| Tunnel.OpenFailureReports | happier/src/tunnel.rs:113-124 | a failed connect leaves the table and reports `connect ECONNREFUSED {host}:{port}` |
| Tunnel.OpenInsertsAfterReady | happier/src/tunnel.rs:78-111 | a tunnel enters or changes only with `tunnel:ready` sent, and replaces the old entry |
| Tunnel.DisconnectEnds | happier/src/tunnel.rs:62-66 | disconnect empties the table and ends the loop |
| Tunnel.ApplySound | happier/src/tunnel.rs:36-67 | one event keeps every tunnel in the table announced, and bytes forwarded only to announced tunnels |
| Tunnel.RunSound | happier/src/tunnel.rs:36-68 | the whole loop keeps that |
| Tunnel.RunAppends | happier/src/tunnel.rs:36-68 | the loop only appends to what it sent |
| Register.DelayAfter | happier/src/register.rs:20-53 | every delay is between 1 and 30 seconds |
| Register.Schedule | happier/src/register.rs:50-53 | the delays in order |
| Register.RegisterMachine | happier/src/register.rs:20-57 | at most 60 attempts; Ok exactly on the first 2xx, with no attempt after it; Err after 60 failures; the sleeps are the schedule, one fewer than the attempts |
| Register.DelaySequence | happier/src/register.rs:20-53 | 1, 2, 4, 8, 16, then 30 from the sixth delay on |
| Register.ScheduleTotal | happier/src/register.rs:50-53 | `n >= 5` delays sum to `31 + 30(n-5)` seconds |
| Register.ExhaustedWait | happier/src/register.rs:22-56 | a registration that never succeeds sleeps 59 times, 1651 seconds |
| Runner.Run | happier/src/main.rs:45-118 | the reconnect loop matches the round-by-round specification |
| Runner.BackoffInRange | happier/src/main.rs:45-117 | the back-off and every wait stay in [1, 30] seconds |
| Runner.StopsOnSignal | happier/src/main.rs:58-115 | `run` ends exactly when a signal comes during a wait that watches for signals |
| Runner.ConnectResets | happier/src/main.rs:51-117 | a connected round waits one second whatever the back-off was, and leaves two |
| Runner.FailuresFollowSchedule | happier/src/main.rs:45-64 | from the start of `run`, consecutive failed connects wait 1, 2, 4, 8, 16, 30, ... seconds, the registration schedule |
| Runner.FailuresAfterConnect | happier/src/main.rs:51-117 | after a connected round, consecutive failed connects wait 2, 4, 8, 16, 30, ... seconds, the registration schedule without its first delay |
| Config.PathJoin | happier/src/config.rs:32 | the name becomes the last path component |
| Config.HapiHomePrecedence | happier/src/config.rs:27-33 | `HAPI_HOME`, else `.hapi` under `HOME`, else `/root/.hapi` |
| Config.SettingsOf | happier/src/config.rs:14-25 | every unknown field is kept; no known key lands among them |
| Config.SettingsRoundTrip | happier/src/config.rs:14-48 | written settings read back as the same settings, unknown fields included |
| Config.ReadSettings | happier/src/config.rs:35-41 | a missing file, text that is not JSON, or JSON that does not deserialise as settings gives the default settings; otherwise the deserialised settings |
| Config.ReadMalformedSettings | happier/src/config.rs:38 | JSON that is not an object, or whose known field is neither null nor a string, is read as the default settings |
| Config.ReadWrittenSettings | happier/src/config.rs:35-48 | a file holding written settings is read back as those settings |
| Config.Load | happier/src/config.rs:51-88 | `load` matches the resolution specification on the settings read |
| Config.ResolvePrecedence | happier/src/config.rs:55-79 | URL: env, settings, default; token: env, settings, else the token error, with nothing written; name from the env |
| Config.ResolveMachineId | happier/src/config.rs:67-77 | a stored id is kept with no write; otherwise the new id is written with every other setting unchanged, and used only if the write succeeded |
| Config.SavedIdIsKept | happier/src/config.rs:51-88 | after a generated id is saved, the next load keeps it, writes nothing and gives the same configuration |

## Left out

- JSON parsing and printing, base64 (section 4 of RFC 4648), `to_lowercase`, `{:.3}` and UUID generation: library codecs, so they are function parameters.
- Floating point: scores are exact reals, so NaN from `partial_cmp` and rounding are not modelled.
- `Search.GroupValues`: `HashMap` iteration order is unspecified. The order is chosen nondeterministically, and nothing is claimed about the order of exact ties.
- Tokio concurrency is not modelled: spawned tasks, channels, `Mutex`, lock poisoning, `Notify`, `select!` and timeouts. Timeouts and signals are inputs of the model. The reader loop records its pong as written even when the send fails, whereas `read_loop` ignores a failed pong send (happier/src/socket.rs:119-121).
- `tcp_read_loop`, `tcp_write_loop` (happier/src/tunnel.rs:128-187) and `keep_alive`'s timer loop (happier/src/connection.rs:100-122): TCP I/O. Only the keep-alive payload is modelled.
- `Tunnel.Run`: a tunnel's handle stands for its two TCP tasks. Aborting them when a handle is dropped is not modelled.
- `initial_sync` (hapi-search/src/syncer.rs:79-86): a failed write of the sync state file is not modelled. The fetch's `since` argument is not modelled either: it stays the stored value for the whole loop, and only the cursor changes.
- `realtime_sync` (hapi-search/src/syncer.rs:228-282): an SSE event loop that dispatches to `process_messages` and to network calls.
- `Socket.SocketClient.EmitWithAck`: the id is unbounded, so `i64` overflow of `next_id` is not modelled.
- `Socket.SocketUrl`: URL parsing is reduced to scheme, authority, path and query, and the `file` scheme's rules are not modelled.
- The WebSocket dial and the HTTP client: their errors are inputs.
- String slicing by bytes that could panic inside a multi-byte character is not modelled. Strings are sequences of characters; the byte length is used only where the source compares `len()`.
- `Config.Load`: the text of an I/O error is not modelled (a failed settings write is `WriteFailed`).
- `Config.SettingsJson`: if an unknown field ever had a known field's name, serde would write both keys. The model lets the known field win; settings read from a file never have such a field.
- `serde_json::to_value(..).unwrap()` in `handle_search` could panic; this is not modelled.
- `Web.HandleSearch`: the query string is decoded by axum's `Query` extractor (hapi-search/src/web.rs:25-34, 75), which answers 400 Bad Request before the handler runs when `q` is missing or `limit`/`offset` is not a non-negative integer. The model's parameters are already typed, so this rejection is not represented.
- `happier/src/metadata.rs` and the registration request body: environment reads and a host-name system call. Only the retry schedule is modelled.
- `Runner.Run`: the loop never ends on its own. The model runs it over a finite sequence of rounds.
