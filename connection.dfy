/** The runner's hub connection (happier/src/connection.rs): the authentication object sent
    with the Socket.IO CONNECT packet, the decoding of the hub's `tunnel:*` events into
    `SocketEvent`s for the main loop, and the payloads of the runner's own state events. */
module Connection {
  import opened Base
  import opened Json

  /** The Socket.IO namespace the runner joins. */
  const NAMESPACE: string := "/cli"

  /** Events forwarded to the main loop. `Disconnected` comes only from the client's
      disconnect notification, never from a hub event. */
  datatype SocketEvent =
    | TunnelOpen(tunnelId: string, host: Option<string>, port: nat)
    | TunnelData(tunnelId: string, data: string)
    | TunnelClose(tunnelId: string)
    | Disconnected

  /** The authentication object of the CONNECT packet. */
  function AuthObject(token: string, machineId: string): (r: Value)
    ensures r.Obj? && r.Field("clientType") == Str("machine-scoped")
    ensures r.Field("token") == Str(token) && r.Field("machineId") == Str(machineId)
  {
    Obj(map["token" := Str(token), "clientType" := Str("machine-scoped"), "machineId" := Str(machineId)])
  }

  /** `value[key].as_str().unwrap_or("")` */
  function StrOr(data: Value, key: string): string {
    data.Field(key).AsStr().GetOr("")
  }

  /** `value["port"].as_u64().unwrap_or(0) as u16`: the low 16 bits of an unsigned integer,
      0 for anything else. */
  function PortOf(data: Value): (r: nat)
    ensures r < 0x1_0000
  {
    data.Field("port").AsU64().GetOr(0) % 0x1_0000
  }

  /** The event handler's decoding of a hub event; `None` is an event it ignores. */
  function DecodeEvent(event: string, data: Value): (r: Option<SocketEvent>)
    ensures r.Some? ==> !r.value.Disconnected? && r.value.tunnelId != []
    ensures r.Some? && r.value.TunnelOpen? <==> event == "tunnel:open" && StrOr(data, "tunnelId") != [] && PortOf(data) != 0
    ensures r.Some? && r.value.TunnelData? <==> event == "tunnel:data" && StrOr(data, "tunnelId") != []
    ensures r.Some? && r.value.TunnelClose? <==> event == "tunnel:close" && StrOr(data, "tunnelId") != []
    ensures r.Some? ==> r.value.tunnelId == StrOr(data, "tunnelId")
    ensures r.Some? && r.value.TunnelOpen? ==> r.value.port == PortOf(data) && r.value.host == data.Field("host").AsStr()
    ensures r.Some? && r.value.TunnelData? ==> r.value.data == StrOr(data, "data")
  {
    var tunnelId := StrOr(data, "tunnelId");
    if event == "tunnel:open" then
      var port := PortOf(data);
      var host := data.Field("host").AsStr();
      if tunnelId == [] || port == 0 then None else Some(TunnelOpen(tunnelId, host, port))
    else if event == "tunnel:data" then
      if tunnelId == [] then None else Some(TunnelData(tunnelId, StrOr(data, "data")))
    else if event == "tunnel:close" then
      if tunnelId == [] then None else Some(TunnelClose(tunnelId))
    else None
  }

  /** The data of a `tunnel:open` event as the hub sends it. */
  function OpenData(tunnelId: string, host: Option<string>, port: nat): Value {
    var fields := map["tunnelId" := Str(tunnelId), "port" := Int(port)];
    Obj(if host.Some? then fields["host" := Str(host.value)] else fields)
  }

  /** A well-formed `tunnel:open` decodes to exactly the tunnel it describes. */
  lemma OpenRoundTrip(tunnelId: string, host: Option<string>, port: nat)
    requires tunnelId != [] && 0 < port < 0x1_0000
    ensures DecodeEvent("tunnel:open", OpenData(tunnelId, host, port)) == Some(TunnelOpen(tunnelId, host, port))
  {
    var data := OpenData(tunnelId, host, port);
    assert data.Field("tunnelId") == Str(tunnelId);
    assert data.Field("port") == Int(port);
    assert data.Field("host").AsStr() == host;
  }

  /** A port beyond 16 bits is not refused but wraps: 65616 opens port 80, and 65536 is
      dropped as port 0. */
  lemma PortWraps(tunnelId: string)
    requires tunnelId != []
    ensures DecodeEvent("tunnel:open", OpenData(tunnelId, None, 65616)) == Some(TunnelOpen(tunnelId, None, 80))
    ensures DecodeEvent("tunnel:open", OpenData(tunnelId, None, 65536)) == None
  {
    assert OpenData(tunnelId, None, 65616).Field("port") == Int(65616);
    assert OpenData(tunnelId, None, 65536).Field("port") == Int(65536);
    assert OpenData(tunnelId, None, 65616).Field("tunnelId") == Str(tunnelId);
  }

  /** A `tunnel:data` or `tunnel:close` with a tunnel id decodes to that id; data that is
      missing or not a string is the empty string. */
  lemma DataAndCloseRoundTrip(tunnelId: string, payload: Option<string>)
    requires tunnelId != []
    ensures var fields := map["tunnelId" := Str(tunnelId)];
      && DecodeEvent("tunnel:data", Obj(if payload.Some? then fields["data" := Str(payload.value)] else fields))
         == Some(TunnelData(tunnelId, payload.GetOr("")))
      && DecodeEvent("tunnel:close", Obj(fields)) == Some(TunnelClose(tunnelId))
  {
    var fields := map["tunnelId" := Str(tunnelId)];
    var data := Obj(if payload.Some? then fields["data" := Str(payload.value)] else fields);
    assert data.Field("tunnelId") == Str(tunnelId);
    assert Obj(fields).Field("tunnelId") == Str(tunnelId);
    if payload.None? {
      assert "data" !in fields;
    }
  }

  /** The `machine-update-state` payload the runner sends after connecting, at time `now`
      in milliseconds since the epoch. */
  function InitialStatePayload(machineId: string, now: nat): (r: Value)
    ensures r.Field("machineId") == Str(machineId) && r.Field("expectedVersion") == Int(0)
    ensures r.Field("runnerState").Field("status") == Str("running")
    ensures r.Field("runnerState").Field("startedAt") == Int(now)
  {
    Obj(map["machineId" := Str(machineId),
            "runnerState" := Obj(map["status" := Str("running"), "startedAt" := Int(now)]),
            "expectedVersion" := Int(0)])
  }

  /** The `machine-alive` payload sent every 20 seconds. */
  function AlivePayload(machineId: string, now: nat): (r: Value)
    ensures r.Field("machineId") == Str(machineId) && r.Field("time") == Int(now)
  {
    Obj(map["machineId" := Str(machineId), "time" := Int(now)])
  }
}
