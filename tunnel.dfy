/** The runner's tunnel table (happier/src/tunnel.rs): the event loop that opens TCP
    connections for the hub's tunnels, forwards the hub's data to them, and closes them.

    The TCP connections, their read and write tasks and the hub socket are I/O: each event
    comes with the outcomes of the I/O it triggers (`Io`), the model records what the loop
    sends (`Effect`), and base64 decoding is a library codec passed as `decode`. A tunnel in
    the table stands for its handle; dropping the handle aborts its two tasks. */
module Tunnel {
  import opened Base
  import opened Strings
  import opened Json
  import opened Connection

  const DEFAULT_HOST: string := "127.0.0.1"

  /** The TCP target of an open tunnel. */
  datatype Tunnel = Tunnel(host: string, port: nat)

  /** The I/O outcomes an event can meet: whether the TCP connect succeeded, whether the
      emit to the hub succeeded, and whether the tunnel's write channel took the bytes. */
  datatype Io = Io(connectOk: bool, emitOk: bool, writeOk: bool)

  /** What the loop sent: an event emitted to the hub, or bytes handed to a tunnel's TCP
      writer. */
  datatype Effect = Emitted(event: string, data: Value) | Forwarded(tunnelId: string, bytes: seq<bv8>)

  /** The table and everything sent so far. */
  datatype State = State(tunnels: map<string, Tunnel>, effects: seq<Effect>)

  /** The host to connect to: the event's host, or the loopback address. */
  function TargetHost(host: Option<string>): (r: string)
    ensures host.None? ==> r == DEFAULT_HOST
    ensures host.Some? ==> r == host.value
  {
    host.GetOr(DEFAULT_HOST)
  }

  function ReadyData(tunnelId: string): Value {
    Obj(map["tunnelId" := Str(tunnelId)])
  }

  /** The message reported for any failed connect. */
  function RefusedMessage(host: string, port: nat): string {
    "connect ECONNREFUSED " + host + ":" + NatToString(port)
  }

  function ErrorData(tunnelId: string, host: string, port: nat): Value {
    Obj(map["tunnelId" := Str(tunnelId), "message" := Str(RefusedMessage(host, port))])
  }

  function Ready(tunnelId: string): Effect {
    Emitted("tunnel:ready", ReadyData(tunnelId))
  }

  /** `handle_tunnel_open`: on a successful connect, emit `tunnel:ready` and, only if that
      was sent, put the tunnel in the table (replacing any tunnel under the same id); on a
      failed connect, report `tunnel:error` and leave the table alone. */
  function Open(tunnels: map<string, Tunnel>, tunnelId: string, host: string, port: nat, io: Io): State {
    if io.connectOk then
      if io.emitOk then State(tunnels[tunnelId := Tunnel(host, port)], [Ready(tunnelId)])
      else State(tunnels, [])
    else
      State(tunnels, if io.emitOk then [Emitted("tunnel:error", ErrorData(tunnelId, host, port))] else [])
  }

  /** The loop's handling of one event other than `Disconnected`. */
  function Apply(st: State, event: SocketEvent, io: Io, decode: string -> Option<seq<bv8>>): State
    requires !event.Disconnected?
  {
    match event
    case TunnelOpen(id, host, port) =>
      var o := Open(st.tunnels, id, TargetHost(host), port, io);
      State(o.tunnels, st.effects + o.effects)
    case TunnelData(id, data) =>
      if id in st.tunnels && decode(data).Some? then
        if io.writeOk then st.(effects := st.effects + [Forwarded(id, decode(data).value)])
        else st.(tunnels := st.tunnels - {id})
      else st
    case TunnelClose(id) => st.(tunnels := st.tunnels - {id})
  }

  /** The loop over `events`, each with its I/O outcomes: `Disconnected` empties the table
      and ends the loop. When the event channel ends the loop ends too and the table is
      returned as it is (the source then drops it along with the manager). */
  function RunFrom(st: State, events: seq<SocketEvent>, ios: seq<Io>, decode: string -> Option<seq<bv8>>): State
    requires |ios| == |events|
    decreases |events|
  {
    if events == [] then st
    else if events[0].Disconnected? then st.(tunnels := map[])
    else RunFrom(Apply(st, events[0], ios[0], decode), events[1..], ios[1..], decode)
  }

  /** `handle_tunnel_open` on the table. */
  method HandleTunnelOpen(tunnels: map<string, Tunnel>, tunnelId: string, host: string, port: nat, io: Io)
    returns (after: map<string, Tunnel>, sent: seq<Effect>)
    ensures State(after, sent) == Open(tunnels, tunnelId, host, port, io)
  {
    after := tunnels;
    sent := [];
    if io.connectOk {
      if !io.emitOk {
        return;
      }
      sent := [Ready(tunnelId)];
      after := after[tunnelId := Tunnel(host, port)];
    } else {
      if io.emitOk {
        sent := [Emitted("tunnel:error", ErrorData(tunnelId, host, port))];
      }
    }
  }

  /** `run`: the event loop over the table, from an empty table. */
  method Run(events: seq<SocketEvent>, ios: seq<Io>, decode: string -> Option<seq<bv8>>)
    returns (tunnels: map<string, Tunnel>, effects: seq<Effect>)
    requires |ios| == |events|
    ensures State(tunnels, effects) == RunFrom(State(map[], []), events, ios, decode)
  {
    tunnels := map[];
    effects := [];
    var i := 0;
    while i < |events|
      invariant 0 <= i <= |events|
      invariant RunFrom(State(map[], []), events, ios, decode)
                == RunFrom(State(tunnels, effects), events[i..], ios[i..], decode)
    {
      assert events[i..][1..] == events[i + 1..] && ios[i..][1..] == ios[i + 1..];
      var io := ios[i];
      match events[i] {
        case TunnelOpen(id, host, port) =>
          var targetHost := TargetHost(host);
          var sent;
          tunnels, sent := HandleTunnelOpen(tunnels, id, targetHost, port, io);
          effects := effects + sent;
        case TunnelData(id, data) =>
          if id in tunnels {
            var bytes := decode(data);
            if bytes.Some? {
              if io.writeOk {
                effects := effects + [Forwarded(id, bytes.value)];
              } else {
                tunnels := tunnels - {id};
              }
            }
          }
        case TunnelClose(id) =>
          tunnels := tunnels - {id};
        case Disconnected =>
          tunnels := map[];
          return;
      }
      i := i + 1;
    }
    assert events[i..] == [];
  }

  // ------------------------------------------------------------ one event

  /** Data for a tunnel not in the table, or data that is not valid base64, changes
      nothing and sends nothing. */
  lemma DataIgnored(st: State, id: string, data: string, io: Io, decode: string -> Option<seq<bv8>>)
    requires id !in st.tunnels || decode(data).None?
    ensures Apply(st, TunnelData(id, data), io, decode) == st
  {
  }

  /** When the tunnel's write channel is closed, that tunnel and only that one is removed. */
  lemma DataWriteFailureRemoves(st: State, id: string, data: string, io: Io, decode: string -> Option<seq<bv8>>)
    requires id in st.tunnels && decode(data).Some? && !io.writeOk
    ensures var after := Apply(st, TunnelData(id, data), io, decode);
      && id !in after.tunnels && after.effects == st.effects
      && forall other | other != id :: (other in after.tunnels <==> other in st.tunnels)
                                       && (other in after.tunnels ==> after.tunnels[other] == st.tunnels[other])
  {
  }

  /** Closing removes exactly that tunnel, whether or not it was open. */
  lemma CloseRemovesOnly(st: State, id: string, io: Io, decode: string -> Option<seq<bv8>>)
    ensures var after := Apply(st, TunnelClose(id), io, decode);
      && id !in after.tunnels && after.effects == st.effects
      && forall other | other != id :: (other in after.tunnels <==> other in st.tunnels)
                                       && (other in after.tunnels ==> after.tunnels[other] == st.tunnels[other])
  {
  }

  /** A failed connect leaves the table as it was and reports the refused host and port. */
  lemma OpenFailureReports(st: State, id: string, host: Option<string>, port: nat, io: Io,
                           decode: string -> Option<seq<bv8>>)
    requires !io.connectOk && io.emitOk
    ensures var after := Apply(st, TunnelOpen(id, host, port), io, decode);
      && after.tunnels == st.tunnels
      && after.effects == st.effects + [Emitted("tunnel:error", ErrorData(id, TargetHost(host), port))]
      && ErrorData(id, TargetHost(host), port).Field("message")
         == Str("connect ECONNREFUSED " + TargetHost(host) + ":" + NatToString(port))
  {
  }

  /** A tunnel enters the table only with its `tunnel:ready` sent, and then replaces any
      tunnel under the same id. */
  lemma OpenInsertsAfterReady(st: State, id: string, host: Option<string>, port: nat, io: Io,
                              decode: string -> Option<seq<bv8>>)
    ensures var after := Apply(st, TunnelOpen(id, host, port), io, decode);
      && (id in after.tunnels && (id !in st.tunnels || after.tunnels[id] != st.tunnels[id])
          ==> io.connectOk && io.emitOk && after.effects == st.effects + [Ready(id)])
      && (io.connectOk && io.emitOk ==> after.tunnels == st.tunnels[id := Tunnel(TargetHost(host), port)])
  {
  }

  /** `Disconnected` empties the table and nothing after it is handled. */
  lemma DisconnectEnds(st: State, events: seq<SocketEvent>, ios: seq<Io>, decode: string -> Option<seq<bv8>>)
    requires |ios| == |events| && |events| > 0 && events[0].Disconnected?
    ensures RunFrom(st, events, ios, decode) == State(map[], st.effects)
  {
  }

  // ------------------------------------------------------------ the whole loop

  predicate ReadySent(effects: seq<Effect>, id: string) {
    Ready(id) in effects
  }

  /** Every tunnel in the table has had its `tunnel:ready` sent, and bytes were only ever
      forwarded to a tunnel whose `tunnel:ready` had been sent before. */
  ghost predicate Sound(st: State) {
    && (forall id | id in st.tunnels :: ReadySent(st.effects, id))
    && (forall k | 0 <= k < |st.effects| && st.effects[k].Forwarded? ::
          ReadySent(st.effects[..k], st.effects[k].tunnelId))
  }

  lemma SoundExtend(st: State, extra: seq<Effect>)
    requires Sound(st)
    requires forall k | 0 <= k < |extra| :: !extra[k].Forwarded?
    ensures forall k | 0 <= k < |st.effects + extra| && (st.effects + extra)[k].Forwarded? ::
              ReadySent((st.effects + extra)[..k], (st.effects + extra)[k].tunnelId)
  {
    var es := st.effects + extra;
    forall k | 0 <= k < |es| && es[k].Forwarded?
      ensures ReadySent(es[..k], es[k].tunnelId)
    {
      assert k < |st.effects|;
      assert es[..k] == st.effects[..k];
    }
  }

  lemma ApplySound(st: State, event: SocketEvent, io: Io, decode: string -> Option<seq<bv8>>)
    requires Sound(st) && !event.Disconnected?
    ensures Sound(Apply(st, event, io, decode))
  {
    var after := Apply(st, event, io, decode);
    match event
    case TunnelOpen(id, host, port) =>
      var o := Open(st.tunnels, id, TargetHost(host), port, io);
      SoundExtend(st, o.effects);
      forall t | t in after.tunnels
        ensures ReadySent(after.effects, t)
      {
        if t != id || !(io.connectOk && io.emitOk) {
          assert t in st.tunnels;
          assert ReadySent(st.effects, t);
        } else {
          assert after.effects[|st.effects|] == Ready(id);
        }
      }
    case TunnelData(id, data) =>
      if id in st.tunnels && decode(data).Some? && io.writeOk {
        var es := after.effects;
        assert es == st.effects + [Forwarded(id, decode(data).value)];
        forall k | 0 <= k < |es| && es[k].Forwarded?
          ensures ReadySent(es[..k], es[k].tunnelId)
        {
          if k < |st.effects| {
            assert es[..k] == st.effects[..k];
          } else {
            assert es[..k] == st.effects;
          }
        }
      }
    case TunnelClose(id) =>
  }

  /** Over the whole loop: tunnels are only used after their `tunnel:ready` was sent. */
  lemma {:induction false} RunSound(st: State, events: seq<SocketEvent>, ios: seq<Io>,
                                    decode: string -> Option<seq<bv8>>)
    requires |ios| == |events| && Sound(st)
    ensures Sound(RunFrom(st, events, ios, decode))
    decreases |events|
  {
    if events != [] && !events[0].Disconnected? {
      ApplySound(st, events[0], ios[0], decode);
      RunSound(Apply(st, events[0], ios[0], decode), events[1..], ios[1..], decode);
    }
  }

  /** The loop never takes back what it sent: each event only appends effects. */
  lemma {:induction false} RunAppends(st: State, events: seq<SocketEvent>, ios: seq<Io>,
                                      decode: string -> Option<seq<bv8>>)
    requires |ios| == |events|
    ensures IsPrefix(st.effects, RunFrom(st, events, ios, decode).effects)
    decreases |events|
  {
    if events != [] && !events[0].Disconnected? {
      var next := Apply(st, events[0], ios[0], decode);
      assert IsPrefix(st.effects, next.effects) by {
        match events[0]
        case TunnelOpen(_, _, _) =>
          assert next.effects == st.effects + (next.effects[|st.effects|..]);
        case _ =>
      }
      RunAppends(next, events[1..], ios[1..], decode);
      PrefixTransitive(st.effects, next.effects, RunFrom(next, events[1..], ios[1..], decode).effects);
    }
  }
}
