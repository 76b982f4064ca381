/** What the browser client sends over its WebSocket
    (src-client/websocketService.js, `sendWebSocketMessage` and
    `sendControlMessageToServer`): JSON requests and binary control frames.
    `ws.send` is the transport; whether it throws is a parameter. */
module ClientMessages {
  import opened Wrappers
  import opened Bytes
  import opened ClientState

  /** The settings of a `start` request (`getStreamSettings`); `None`
      plays a NaN bitrate, which JSON writes as `null`. */
  datatype StreamSettings = StreamSettings(
    maxFps: int,
    bitrate: Option<int>,
    enableAudio: bool,
    enableControl: bool,
    video: bool,
    noPowerOn: bool,
    turnScreenOff: bool,
    powerOffOnClose: bool,
    displayMode: string,
    rotationLock: string,
    resolution: string,
    dpi: string)

  /** The ADB commands the client asks the server to run. */
  datatype AdbRequest =
    | GetDisplayList
    | SetOverlay(resolution: string, dpi: string)
    | SetWmSize(resolution: string)
    | SetWmDensity(dpi: string)
    | CleanupAdb(mode: string)

  /** The `commandType` field of a request. */
  function CommandType(r: AdbRequest): string
  {
    match r
    case GetDisplayList => "getDisplayList"
    case SetOverlay(_, _) => "setOverlay"
    case SetWmSize(_) => "setWmSize"
    case SetWmDensity(_) => "setWmDensity"
    case CleanupAdb(_) => "cleanupAdb"
  }

  /** The JSON requests of the client. */
  datatype ClientMessage =
    | Start(deviceId: string, settings: StreamSettings, overlayDisplayId: Option<nat>)
    | Disconnect
    | GetAdbDevices
    | AdbCommand(commandId: string, deviceId: string, request: AdbRequest)

  datatype Outgoing = Json(message: ClientMessage) | Binary(bytes: seq<byte>)

  /** `sendWebSocketMessage`: the message goes out, and `true` is returned,
      exactly when the socket is open and `send` does not throw. */
  method SendWebSocketMessage(g: GlobalState, m: ClientMessage, sendThrows: bool)
    returns (ok: bool, sent: seq<Outgoing>)
    ensures ok <==> IsOpen(g.ws) && !sendThrows
    ensures sent == (if ok then [Json(m)] else [])
  {
    if g.ws.Socket? && g.ws.readyState == Open {
      if sendThrows {
        ok, sent := false, [];
      } else {
        ok, sent := true, [Json(m)];
      }
    } else {
      ok, sent := false, [];
    }
  }

  /** `sendControlMessageToServer`: a control frame goes out only on an open
      socket of a stream started with control enabled. */
  method SendControlMessageToServer(g: GlobalState, buffer: seq<byte>, sendThrows: bool)
    returns (sent: seq<Outgoing>)
    ensures |sent| <= 1
    ensures sent != [] <==> IsOpen(g.ws) && g.controlEnabledAtStart && !sendThrows
    ensures sent != [] ==> sent == [Binary(buffer)]
  {
    sent := [];
    if g.ws.Socket? && g.ws.readyState == Open && g.controlEnabledAtStart {
      if !sendThrows {
        sent := [Binary(buffer)];
      }
    }
  }
}
