/** The runner's minimal Socket.IO client (happier/src/socket.rs): Socket.IO protocol
    version 5 packets carried in Engine.IO version 4 text frames over a WebSocket.

    A packet is '4' (an Engine.IO message), a packet-type digit, an optional namespace and
    ',', an optional decimal acknowledgement id, then a JSON payload. The client numbers
    acknowledged emits from 1 and keeps a table of the ids still waiting for their answer.

    The WebSocket itself, the writer and reader tasks and their channels are I/O: the model
    takes the frames read as a sequence, whether a send succeeded as a parameter, and records
    the frames written in `outbox`. JSON parsing and printing are library codecs and are
    parameters (`parse`, `render`). */
module Socket {
  import opened Base
  import opened Strings
  import opened Json

  // ------------------------------------------------------------ the WebSocket URL

  /** The parts of a parsed URL that the client changes. */
  datatype Url = Url(scheme: string, authority: string, path: string, query: Option<string>)

  /** The schemes the URL library calls special; it refuses to switch a URL between a
      special and a non-special scheme. */
  predicate IsSpecialScheme(scheme: string) {
    scheme in {"http", "https", "ws", "wss", "ftp"}
  }

  /** The Socket.IO endpoint for the hub's API URL: `https` becomes `wss`, every other scheme
      `ws`; the path is `/socket.io/` and the query selects Engine.IO 4 over WebSocket.
      `None` is the "invalid url scheme" error. */
  function SocketUrl(api: Url): (r: Option<Url>)
    ensures r.Some? <==> IsSpecialScheme(api.scheme)
    ensures r.Some? ==> r.value.authority == api.authority
    ensures r.Some? ==> r.value.path == "/socket.io/" && r.value.query == Some("EIO=4&transport=websocket")
  {
    if IsSpecialScheme(api.scheme) then
      Some(Url(if api.scheme == "https" then "wss" else "ws", api.authority, "/socket.io/",
               Some("EIO=4&transport=websocket")))
    else None
  }

  /** The endpoint is secure exactly when the API URL is `https`: a `wss` API URL is not
      kept secure. */
  lemma SocketUrlSecure(api: Url)
    requires IsSpecialScheme(api.scheme)
    ensures SocketUrl(api).value.scheme == "wss" <==> api.scheme == "https"
    ensures SocketUrl(api).value.scheme == "ws" <==> api.scheme != "https"
  {
  }

  // ------------------------------------------------------------ packets

  const PING: string := "2"
  const PONG: string := "3"

  /** The largest `i64`. */
  const I64_MAX: int := 0x7FFF_FFFF_FFFF_FFFF

  /** The Socket.IO CONNECT packet with the authentication object's text. */
  function ConnectPacket(ns: string, authText: string): string {
    "40" + ns + "," + authText
  }

  /** The payload of an event: the array `[event, data]`. */
  function EventPayload(event: string, data: Value): Value {
    Arr([Str(event), data])
  }

  /** A Socket.IO packet of type `kind` in the namespace, with the id text `idText`
      (empty for none) and the payload text. */
  function Packet(kind: char, ns: string, idText: string, payloadText: string): string {
    ['4', kind] + ns + "," + idText + payloadText
  }

  /** An EVENT packet without acknowledgement id. */
  function EmitPacket(ns: string, payloadText: string): string {
    Packet('2', ns, "", payloadText)
  }

  /** An EVENT packet asking for an acknowledgement with id `id`. */
  function AckRequestPacket(ns: string, id: nat, payloadText: string): string {
    Packet('2', ns, NatToString(id), payloadText)
  }

  /** The peer's ACK packet answering id `id`. */
  function AnswerPacket(ns: string, id: nat, payloadText: string): string {
    Packet('3', ns, NatToString(id), payloadText)
  }

  /** The Socket.IO DISCONNECT packet. */
  function DisconnectPacket(ns: string): string {
    "41" + ns
  }

  datatype SioPacket = SioPacket(packetType: nat, id: Option<int>, payload: Option<Value>)

  /** The length of the run of ASCII digits `s` starts with. */
  function LeadingDigits(s: string): (n: nat)
    ensures n <= |s| && AllDigits(s[..n])
    ensures n < |s| ==> !IsAsciiDigit(s[n])
  {
    if |s| > 0 && IsAsciiDigit(s[0]) then
      var n := 1 + LeadingDigits(s[1..]);
      assert s[..n] == [s[0]] + s[1..][..n - 1];
      n
    else 0
  }

  /** After the packet type: the namespace and one ',' after it are dropped when the text
      starts with the namespace. */
  function StripNamespace(rest: string, ns: string): string {
    if StartsWith(rest, ns) then
      var r := rest[|ns|..];
      if StartsWith(r, ",") then r[1..] else r
    else rest
  }

  /** `str::parse::<i64>` on a non-empty run of digits: it fails on overflow. */
  function ParseI64(digits: string): (r: Option<int>)
    requires AllDigits(digits)
    ensures r.Some? <==> DigitsValue(digits) <= I64_MAX
    ensures r.Some? ==> r.value == DigitsValue(digits)
  {
    if DigitsValue(digits) <= I64_MAX then Some(DigitsValue(digits)) else None
  }

  /** `parse_sio_packet`, on a frame that starts with the Engine.IO message type '4'. */
  function ParseSioPacket(input: string, ns: string, parse: string -> Option<Value>): (r: Option<SioPacket>)
    requires |input| > 0
    ensures r.None? <==> |input| < 2 || !IsAsciiDigit(input[1])
    ensures r.Some? ==> r.value.packetType == input[1] as int - '0' as int && r.value.packetType < 10
    ensures r.Some? && r.value.id.Some? ==> 0 <= r.value.id.value <= I64_MAX
  {
    var rest := input[1..];
    if rest == [] || !IsAsciiDigit(rest[0]) then None
    else
      var afterNs := StripNamespace(rest[1..], ns);
      var n := LeadingDigits(afterNs);
      var id := if n > 0 then ParseI64(afterNs[..n]) else None;
      var body := afterNs[n..];
      Some(SioPacket(rest[0] as int - '0' as int, id, if IsBlank(body) then None else parse(body)))
  }

  /** A payload text as the JSON printer writes an array: it starts with '['. */
  predicate IsArrayText(payloadText: string) {
    |payloadText| > 0 && payloadText[0] == '['
  }

  lemma LeadingDigitsOf(digits: string, tail: string)
    requires AllDigits(digits) && (tail == [] || !IsAsciiDigit(tail[0]))
    ensures LeadingDigits(digits + tail) == |digits|
    decreases |digits|
  {
    if |digits| > 0 {
      assert (digits + tail)[1..] == digits[1..] + tail;
      LeadingDigitsOf(digits[1..], tail);
    } else {
      assert digits + tail == tail;
    }
  }

  lemma StripNamespaceOf(ns: string, tail: string)
    ensures StripNamespace(ns + "," + tail, ns) == tail
  {
    var s := ns + "," + tail;
    assert s[..|ns|] == ns;
    assert s[|ns|..] == "," + tail;
    assert ("," + tail)[1..] == tail;
  }

  /** After its type, a packet's text is its namespace, ',', the id text and the payload. */
  lemma PacketLayout(kind: char, ns: string, idText: string, payloadText: string)
    ensures var input := Packet(kind, ns, idText, payloadText);
      |input| >= 2 && input[1] == kind
      && StripNamespace(input[1..][1..], ns) == idText + payloadText
  {
    var tail := idText + payloadText;
    var input := Packet(kind, ns, idText, payloadText);
    assert input == ['4', kind] + (ns + "," + tail);
    assert input[1..][1..] == ns + "," + tail;
    StripNamespaceOf(ns, tail);
  }

  /** A packet whose payload is a JSON array parses back to its type, its id (when the id
      text is a number that fits `i64`) and the parse of its payload. */
  lemma PacketRoundTrip(kind: char, ns: string, idText: string, payloadText: string,
                        parse: string -> Option<Value>)
    requires IsAsciiDigit(kind) && AllDigits(idText) && IsArrayText(payloadText)
    ensures ParseSioPacket(Packet(kind, ns, idText, payloadText), ns, parse)
            == Some(SioPacket(kind as int - '0' as int, if idText == [] then None else ParseI64(idText),
                              parse(payloadText)))
  {
    PacketLayout(kind, ns, idText, payloadText);
    ParseLaidOut(Packet(kind, ns, idText, payloadText), kind, ns, idText, payloadText, parse);
  }

  /** Parsing any frame laid out as type, namespace, id digits and an array payload. */
  lemma ParseLaidOut(input: string, kind: char, ns: string, idText: string, payloadText: string,
                     parse: string -> Option<Value>)
    requires |input| >= 2 && input[1] == kind && StripNamespace(input[1..][1..], ns) == idText + payloadText
    requires IsAsciiDigit(kind) && AllDigits(idText) && IsArrayText(payloadText)
    ensures ParseSioPacket(input, ns, parse)
            == Some(SioPacket(kind as int - '0' as int, if idText == [] then None else ParseI64(idText),
                              parse(payloadText)))
  {
    var afterNs := idText + payloadText;
    LeadingDigitsOf(idText, payloadText);
    assert afterNs[..|idText|] == idText && afterNs[|idText|..] == payloadText;
    assert !IsBlank(payloadText) by {
      assert !IsWhitespace(payloadText[0]);
    }
  }

  /** An acknowledged emit parses back as an EVENT with its id and its payload. */
  lemma AckRequestRoundTrip(ns: string, id: nat, payloadText: string, parse: string -> Option<Value>)
    requires id <= I64_MAX && IsArrayText(payloadText)
    ensures ParseSioPacket(AckRequestPacket(ns, id, payloadText), ns, parse)
            == Some(SioPacket(2, Some(id), parse(payloadText)))
  {
    PacketRoundTrip('2', ns, NatToString(id), payloadText, parse);
    DecimalRoundTrip(id);
  }

  /** An emit without acknowledgement parses back as an EVENT with no id. */
  lemma EmitRoundTrip(ns: string, payloadText: string, parse: string -> Option<Value>)
    requires IsArrayText(payloadText)
    ensures ParseSioPacket(EmitPacket(ns, payloadText), ns, parse) == Some(SioPacket(2, None, parse(payloadText)))
  {
    PacketRoundTrip('2', ns, "", payloadText, parse);
  }

  /** An id too large for `i64` is read and dropped: the packet has no id, and the digits do
      not reach the payload. */
  lemma OverflowingIdDropped(ns: string, digits: string, payloadText: string, parse: string -> Option<Value>)
    requires |digits| > 0 && AllDigits(digits) && DigitsValue(digits) > I64_MAX && IsArrayText(payloadText)
    ensures ParseSioPacket(Packet('3', ns, digits, payloadText), ns, parse) == Some(SioPacket(3, None, parse(payloadText)))
  {
    PacketRoundTrip('3', ns, digits, payloadText, parse);
  }

  // ------------------------------------------------------------ the reader task

  /** A WebSocket message: a text frame, a close frame, or any other frame. */
  datatype WsMessage = Text(text: string) | Close | OtherFrame

  /** What the reader does with one read: answer a ping, stop, skip, hand an answer to an
      ack waiter, or call the event handler. */
  datatype Action = Pong | Stop | Skip | Answer(id: int, payload: Value) | Event(name: string, data: Value)

  /** What the reader does with a parsed Socket.IO packet: an ACK with an id and a payload
      goes to its waiter, an EVENT whose payload starts with a string goes to the handler
      with the element after it (or null); everything else is skipped. */
  function OnPacket(packet: Option<SioPacket>): (a: Action)
    ensures a.Answer? <==> packet.Some? && packet.value.packetType == 3 && packet.value.id.Some? && packet.value.payload.Some?
    ensures a.Event? <==> packet.Some? && packet.value.packetType == 2 && packet.value.payload.Some?
                          && StrOf(packet.value.payload.value.At(0)).Some?
    ensures !a.Pong? && !a.Stop?
  {
    match packet
    case None => Skip
    case Some(p) =>
      if p.packetType == 3 then
        if p.id.Some? && p.payload.Some? then Answer(p.id.value, p.payload.value) else Skip
      else if p.packetType == 2 && p.payload.Some? && StrOf(p.payload.value.At(0)).Some? then
        Event(StrOf(p.payload.value.At(0)).value, p.payload.value.At(1).GetOr(Null))
      else Skip
  }

  /** The reader's dispatch rules for one read; `None` is a read error. A ping is answered,
      a read error, a close frame, an Engine.IO CLOSE or a Socket.IO DISCONNECT for the
      namespace stops the reader, and only Engine.IO messages are parsed. */
  function Dispatch(read: Option<WsMessage>, ns: string, parse: string -> Option<Value>): (a: Action)
    ensures a.Pong? <==> read == Some(Text(PING))
    ensures a.Stop? <==>
      || read.None? || read == Some(Close)
      || (read.Some? && read.value.Text? && read.value.text != PING
          && (StartsWith(read.value.text, "1") || StartsWith(read.value.text, "41" + ns)))
    ensures a.Answer? || a.Event? ==> read.Some? && read.value.Text? && StartsWith(read.value.text, "4")
  {
    match read
    case None => Stop
    case Some(Close) => Stop
    case Some(OtherFrame) => Skip
    case Some(Text(t)) =>
      if t == PING then Pong
      else if StartsWith(t, "1") || StartsWith(t, "41" + ns) then Stop
      else if !StartsWith(t, "4") then Skip
      else OnPacket(ParseSioPacket(t, ns, parse))
  }

  /** A Socket.IO packet of a type other than DISCONNECT is parsed and acted on. */
  lemma DispatchPacket(kind: char, ns: string, idText: string, payloadText: string, parse: string -> Option<Value>)
    requires kind != '1'
    ensures Dispatch(Some(Text(Packet(kind, ns, idText, payloadText))), ns, parse)
            == OnPacket(ParseSioPacket(Packet(kind, ns, idText, payloadText), ns, parse))
  {
    var t := Packet(kind, ns, idText, payloadText);
    assert t == ['4', kind] + (ns + "," + idText + payloadText);
    assert t[0] == '4' && t[1] == kind && |t| > 2;
    assert t != PING;
    assert !StartsWith(t, "1");
    assert StartsWith(t, "4") by {
      assert t[..1] == "4";
    }
    assert !StartsWith(t, "41" + ns) by {
      if |"41" + ns| <= |t| {
        assert t[..|"41" + ns|][1] == kind;
      }
    }
  }

  /** An event sent with `emit` reaches the peer's handler with its name and data, given a
      JSON codec whose printer writes an array with '[' and whose parser reads it back. */
  lemma EmitDispatched(ns: string, event: string, data: Value, render: Value -> string,
                       parse: string -> Option<Value>)
    requires IsArrayText(render(EventPayload(event, data)))
    requires parse(render(EventPayload(event, data))) == Some(EventPayload(event, data))
    ensures Dispatch(Some(Text(EmitPacket(ns, render(EventPayload(event, data))))), ns, parse) == Event(event, data)
  {
    var payload := EventPayload(event, data);
    var text := render(payload);
    DispatchPacket('2', ns, "", text, parse);
    EmitRoundTrip(ns, text, parse);
    assert ParseSioPacket(EmitPacket(ns, text), ns, parse) == Some(SioPacket(2, None, Some(payload)));
    assert StrOf(payload.At(0)) == Some(event) && payload.At(1) == Some(data);
  }

  /** The peer's answer to an acknowledged emit reaches the waiter with that id. */
  lemma AnswerDispatched(ns: string, id: nat, payload: Value, render: Value -> string,
                         parse: string -> Option<Value>)
    requires id <= I64_MAX && IsArrayText(render(payload)) && parse(render(payload)) == Some(payload)
    ensures Dispatch(Some(Text(AnswerPacket(ns, id, render(payload)))), ns, parse) == Answer(id, payload)
  {
    DispatchPacket('3', ns, NatToString(id), render(payload), parse);
    PacketRoundTrip('3', ns, NatToString(id), render(payload), parse);
    DecimalRoundTrip(id);
  }

  /** An answer delivered to a waiter, and an event handed to the handler. */
  datatype Delivery = Delivery(id: int, payload: Value)
  datatype EventCall = EventCall(name: string, data: Value)

  /** What the reader has done so far: frames written, waiters left, answers delivered and
      events handled. */
  datatype ReaderState = ReaderState(
    outbox: seq<string>, waiters: set<int>, delivered: seq<Delivery>, events: seq<EventCall>)

  /** One action on the reader's state. An answer whose id has no waiter is dropped. */
  function Apply(st: ReaderState, a: Action): ReaderState {
    match a
    case Pong => st.(outbox := st.outbox + [PONG])
    case Answer(id, payload) =>
      if id in st.waiters then st.(waiters := st.waiters - {id}, delivered := st.delivered + [Delivery(id, payload)])
      else st
    case Event(name, data) => st.(events := st.events + [EventCall(name, data)])
    case _ => st
  }

  /** The reader loop over the frames `frames`, up to the first one that stops it. */
  function Read(st: ReaderState, frames: seq<Option<WsMessage>>, ns: string, parse: string -> Option<Value>): ReaderState
    decreases |frames|
  {
    if frames == [] then st
    else
      var a := Dispatch(frames[0], ns, parse);
      if a.Stop? then st else Read(Apply(st, a), frames[1..], ns, parse)
  }

  function DeliveredIds(ds: seq<Delivery>): (r: seq<int>)
    ensures |r| == |ds|
  {
    MapSeq((d: Delivery) => d.id, ds)
  }

  /** The ack table's bookkeeping against the table `table` the reader started with: the
      waiters only shrink, every answer went to a waiter of `table`, no waiter got two, and a
      waiter has left the table exactly when it got its answer. */
  ghost predicate Ledger(table: set<int>, st: ReaderState) {
    && st.waiters <= table
    && Distinct(DeliveredIds(st.delivered))
    && (forall k | 0 <= k < |st.delivered| :: st.delivered[k].id in table)
    && (forall id | id in table :: id !in st.waiters <==> id in DeliveredIds(st.delivered))
  }

  lemma ApplyLedger(table: set<int>, st: ReaderState, a: Action)
    requires Ledger(table, st)
    ensures Ledger(table, Apply(st, a))
  {
    if a.Answer? && a.id in st.waiters {
      var d := st.delivered + [Delivery(a.id, a.payload)];
      var ids := DeliveredIds(d);
      assert ids == DeliveredIds(st.delivered) + [a.id];
      assert forall k | 0 <= k < |st.delivered| :: d[k] == st.delivered[k];
    }
  }

  lemma {:induction false} ReadLedger(table: set<int>, st: ReaderState, frames: seq<Option<WsMessage>>,
                                      ns: string, parse: string -> Option<Value>)
    requires Ledger(table, st)
    ensures Ledger(table, Read(st, frames, ns, parse))
    decreases |frames|
  {
    if frames != [] {
      var a := Dispatch(frames[0], ns, parse);
      if !a.Stop? {
        ApplyLedger(table, st, a);
        ReadLedger(table, Apply(st, a), frames[1..], ns, parse);
      }
    }
  }

  /** The reader only appends to what was written before it, and writes nothing but pongs. */
  lemma {:induction false} ReadWritesPongs(st: ReaderState, frames: seq<Option<WsMessage>>,
                                           ns: string, parse: string -> Option<Value>)
    ensures var out := Read(st, frames, ns, parse).outbox;
      |st.outbox| <= |out| && out[..|st.outbox|] == st.outbox
      && forall k | |st.outbox| <= k < |out| :: out[k] == PONG
    decreases |frames|
  {
    if frames != [] {
      var a := Dispatch(frames[0], ns, parse);
      if !a.Stop? {
        var next := Apply(st, a);
        ReadWritesPongs(next, frames[1..], ns, parse);
        assert |st.outbox| <= |next.outbox| && next.outbox[..|st.outbox|] == st.outbox;
        assert forall k | |st.outbox| <= k < |next.outbox| :: next.outbox[k] == PONG;
      }
    }
  }

  // ------------------------------------------------------------ the client

  /** A read during the connect handshake: a message, a read error with its text, the end
      of the stream, or the handshake's ten-second deadline passing. */
  datatype HandshakeRead = Got(msg: WsMessage) | ReadFailed(error: string) | Ended | TimedOut

  datatype ConnectOutcome = Connected | ConnectFailed(message: string)

  /** How the wait for the CONNECT acknowledgement ends, and how many pings it answered.
      Running out of frames is the deadline passing. */
  datatype AckWait = AckWait(outcome: ConnectOutcome, pongs: nat)

  function AwaitConnectAck(frames: seq<HandshakeRead>, ns: string): (r: AckWait)
    ensures r.pongs <= |frames|
    decreases |frames|
  {
    if frames == [] then AckWait(ConnectFailed("Socket.IO connect ack timed out"), 0)
    else
      match frames[0]
      case Got(Text(t)) =>
        if t == PING then
          var w := AwaitConnectAck(frames[1..], ns);
          w.(pongs := w.pongs + 1)
        else if StartsWith(t, "40" + ns) then AckWait(Connected, 0)
        else if StartsWith(t, "44" + ns) then AckWait(ConnectFailed("Socket.IO connect error: " + t), 0)
        else if StartsWith(t, "41") then AckWait(ConnectFailed("Socket.IO closed during connect: " + t), 0)
        else AwaitConnectAck(frames[1..], ns)
      case Got(_) => AwaitConnectAck(frames[1..], ns)
      case ReadFailed(e) => AckWait(ConnectFailed(e), 0)
      case Ended => AckWait(ConnectFailed("WebSocket closed during connect"), 0)
      case TimedOut => AckWait(ConnectFailed("Socket.IO connect ack timed out"), 0)
  }

  /** The handshake connects only on a text frame that starts with the CONNECT packet for
      the namespace. */
  lemma {:induction false} ConnectedOnAck(frames: seq<HandshakeRead>, ns: string)
    requires AwaitConnectAck(frames, ns).outcome.Connected?
    ensures exists i | 0 <= i < |frames| :: frames[i].Got? && frames[i].msg.Text? && StartsWith(frames[i].msg.text, "40" + ns)
    decreases |frames|
  {
    match frames[0]
    case Got(Text(t)) =>
      if t == PING || !StartsWith(t, "40" + ns) {
        ConnectedOnAck(frames[1..], ns);
        var i :| 0 <= i < |frames[1..]| && frames[1..][i].Got? && frames[1..][i].msg.Text?
                 && StartsWith(frames[1..][i].msg.text, "40" + ns);
        assert frames[i + 1] == frames[1..][i];
      } else {
        assert frames[0].Got?;
      }
    case Got(_) =>
      ConnectedOnAck(frames[1..], ns);
      var i :| 0 <= i < |frames[1..]| && frames[1..][i].Got? && frames[1..][i].msg.Text?
               && StartsWith(frames[1..][i].msg.text, "40" + ns);
      assert frames[i + 1] == frames[1..][i];
  }

  /** The first `n` characters of `s`, or all of it. */
  function Head(s: string, n: nat): (r: string)
    ensures |r| == Min(n, |s|) && r == s[..|r|]
  {
    s[..Min(n, |s|)]
  }

  /** `n` pongs. */
  function Pongs(n: nat): (r: seq<string>)
    ensures |r| == n && forall k | 0 <= k < n :: r[k] == PONG
  {
    seq(n, k => PONG)
  }

  /** The handshake as a whole: the Engine.IO OPEN packet must come first, then the CONNECT
      packet is sent and the acknowledgement awaited. The result is the outcome and the
      frames written. */
  function Handshake(open: HandshakeRead, frames: seq<HandshakeRead>, ns: string, authText: string,
                     sendOk: bool): (r: (ConnectOutcome, seq<string>))
    ensures r.0.Connected? ==> open.Got? && open.msg.Text? && StartsWith(open.msg.text, "0") && sendOk
    ensures r.1 == [] || r.1[0] == ConnectPacket(ns, authText)
  {
    if !(open.Got? && open.msg.Text?) then (ConnectFailed("no EIO open packet"), [])
    else if !StartsWith(open.msg.text, "0") then
      (ConnectFailed("expected EIO open, got: " + Head(open.msg.text, 80)), [])
    else if !sendOk then (ConnectFailed("channel closed"), [])
    else
      var w := AwaitConnectAck(frames, ns);
      (w.outcome, [ConnectPacket(ns, authText)] + Pongs(w.pongs))
  }

  class SocketClient {
    const namespace: string
    /** The next acknowledgement id. */
    var nextId: int
    /** The ids whose answer is still awaited. */
    var waiters: set<int>
    /** The text frames handed to the writer task, in order. */
    var outbox: seq<string>

    /** Every waiting id was handed out already, and ids start at 1. */
    ghost predicate Valid()
      reads this
    {
      nextId >= 1 && forall id | id in waiters :: 1 <= id < nextId
    }

    constructor (namespace: string)
      ensures Valid()
      ensures this.namespace == namespace && nextId == 1 && waiters == {} && outbox == []
    {
      this.namespace := namespace;
      nextId := 1;
      waiters := {};
      outbox := [];
    }

    /** The connect handshake after the WebSocket opened: `open` is the first read,
        `sendOk` whether the CONNECT packet could be handed to the writer. */
    method Connect(open: HandshakeRead, frames: seq<HandshakeRead>, authText: string, sendOk: bool)
      returns (outcome: ConnectOutcome)
      modifies this
      ensures outcome == Handshake(open, frames, namespace, authText, sendOk).0
      ensures outbox == old(outbox) + Handshake(open, frames, namespace, authText, sendOk).1
      ensures nextId == old(nextId) && waiters == old(waiters)
    {
      if !(open.Got? && open.msg.Text?) {
        return ConnectFailed("no EIO open packet");
      }
      if !StartsWith(open.msg.text, "0") {
        return ConnectFailed("expected EIO open, got: " + Head(open.msg.text, 80));
      }
      if !sendOk {
        return ConnectFailed("channel closed");
      }
      outbox := outbox + [ConnectPacket(namespace, authText)];
      ghost var start := outbox;
      var i := 0;
      ghost var pongs := 0;
      outcome := ConnectFailed("Socket.IO connect ack timed out");
      var waiting := true;
      assert frames[0..] == frames;
      while waiting && i < |frames|
        invariant 0 <= i <= |frames|
        invariant nextId == old(nextId) && waiters == old(waiters)
        invariant waiting ==> outcome == ConnectFailed("Socket.IO connect ack timed out")
        invariant outbox == start + Pongs(pongs)
        invariant waiting ==> AwaitConnectAck(frames, namespace)
                              == AwaitConnectAck(frames[i..], namespace).(pongs := AwaitConnectAck(frames[i..], namespace).pongs + pongs)
        invariant !waiting ==> AwaitConnectAck(frames, namespace) == AckWait(outcome, pongs)
        decreases |frames| - i, waiting
      {
        var read := frames[i];
        assert frames[i..][1..] == frames[i + 1..];
        match read {
          case Got(Text(t)) =>
            if t == PING {
              outbox := outbox + [PONG];
              pongs := pongs + 1;
              assert Pongs(pongs) == Pongs(pongs - 1) + [PONG];
            } else if StartsWith(t, "40" + namespace) {
              outcome := Connected;
              waiting := false;
            } else if StartsWith(t, "44" + namespace) {
              outcome := ConnectFailed("Socket.IO connect error: " + t);
              waiting := false;
            } else if StartsWith(t, "41") {
              outcome := ConnectFailed("Socket.IO closed during connect: " + t);
              waiting := false;
            }
          case Got(_) =>
          case ReadFailed(e) =>
            outcome := ConnectFailed(e);
            waiting := false;
          case Ended =>
            outcome := ConnectFailed("WebSocket closed during connect");
            waiting := false;
          case TimedOut =>
            outcome := ConnectFailed("Socket.IO connect ack timed out");
            waiting := false;
        }
        if waiting {
          i := i + 1;
        }
      }
      if waiting {
        assert frames[i..] == [];
      }
    }

    /** `emit`: one EVENT packet with the payload `[event, data]`; `sendOk` says whether the
        writer took it. */
    method Emit(event: string, data: Value, render: Value -> string, sendOk: bool) returns (ok: bool)
      modifies this
      ensures ok == sendOk
      ensures outbox == old(outbox) + if sendOk then [EmitPacket(namespace, render(EventPayload(event, data)))] else []
      ensures nextId == old(nextId) && waiters == old(waiters)
    {
      var packet := EmitPacket(namespace, render(EventPayload(event, data)));
      if sendOk {
        outbox := outbox + [packet];
      }
      ok := sendOk;
    }

    /** `emit_with_ack` up to the wait for the answer: take the next id, register its
        waiter, then send. The id is fresh, and the waiter stays registered even when the
        send fails. */
    method EmitWithAck(event: string, data: Value, render: Value -> string, sendOk: bool)
      returns (id: int, ok: bool)
      requires Valid()
      modifies this
      ensures Valid()
      ensures id == old(nextId) && id >= 1 && nextId == id + 1
      ensures id !in old(waiters) && waiters == old(waiters) + {id}
      ensures ok == sendOk
      ensures outbox == old(outbox) + if sendOk then [AckRequestPacket(namespace, id, render(EventPayload(event, data)))] else []
    {
      id := nextId;
      nextId := nextId + 1;
      var packet := AckRequestPacket(namespace, id, render(EventPayload(event, data)));
      waiters := waiters + {id};
      if sendOk {
        outbox := outbox + [packet];
      }
      ok := sendOk;
    }

    /** `disconnect`: sends the DISCONNECT packet; a failed send is ignored. */
    method Disconnect(sendOk: bool)
      modifies this
      ensures outbox == old(outbox) + if sendOk then [DisconnectPacket(namespace)] else []
      ensures nextId == old(nextId) && waiters == old(waiters)
    {
      if sendOk {
        outbox := outbox + [DisconnectPacket(namespace)];
      }
    }

    /** The reader task over the frames `frames`: it answers pings, hands answers to their
        waiters, calls the event handler, and stops at the first read that ends it. */
    method ReadLoop(frames: seq<Option<WsMessage>>, parse: string -> Option<Value>)
      returns (delivered: seq<Delivery>, events: seq<EventCall>)
      requires Valid()
      modifies this
      ensures Valid()
      ensures ReaderState(outbox, waiters, delivered, events)
              == Read(ReaderState(old(outbox), old(waiters), [], []), frames, namespace, parse)
      ensures nextId == old(nextId)
    {
      ghost var start := ReaderState(outbox, waiters, [], []);
      delivered := [];
      events := [];
      var i := 0;
      var running := true;
      while running && i < |frames|
        invariant 0 <= i <= |frames|
        invariant waiters <= old(waiters) && nextId == old(nextId)
        invariant running ==> Read(start, frames, namespace, parse)
                              == Read(ReaderState(outbox, waiters, delivered, events), frames[i..], namespace, parse)
        invariant !running ==> Read(start, frames, namespace, parse) == ReaderState(outbox, waiters, delivered, events)
        decreases |frames| - i, running
      {
        assert frames[i..][1..] == frames[i + 1..];
        var action := Dispatch(frames[i], namespace, parse);
        match action {
          case Stop =>
            running := false;
          case Pong =>
            outbox := outbox + [PONG];
          case Answer(id, payload) =>
            if id in waiters {
              waiters := waiters - {id};
              delivered := delivered + [Delivery(id, payload)];
            }
          case Event(name, data) =>
            events := events + [EventCall(name, data)];
          case Skip =>
        }
        if running {
          i := i + 1;
        }
      }
      if running {
        assert frames[i..] == [];
      }
    }
  }

  /** With the client's table: ids handed out are never reused, and after the reader ran,
      each waiter was answered at most once and has left the table exactly when answered. */
  lemma ReaderKeepsLedger(table: set<int>, outbox: seq<string>, frames: seq<Option<WsMessage>>,
                          ns: string, parse: string -> Option<Value>)
    ensures var st := Read(ReaderState(outbox, table, [], []), frames, ns, parse);
      && st.waiters <= table
      && Distinct(DeliveredIds(st.delivered))
      && (forall id | id in table :: id !in st.waiters <==> id in DeliveredIds(st.delivered))
  {
    ReadLedger(table, ReaderState(outbox, table, [], []), frames, ns, parse);
  }
}
