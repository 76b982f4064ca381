/** The client's ADB requests (src-client/services/adbClientService.js):
    the connect-by-address form, the table of commands waiting for a reply,
    and the cancellation of a QR pairing run. Answers of `fetch`, the
    outcome of `ws.send`, the command id (`Date.now()` plus random
    characters) and the firing of the 15-second timer are parameters or
    separate operations. */
module AdbClient {
  import opened Wrappers
  import opened Text
  import opened ClientState
  import opened ClientMessages
  import QrPairing
  import AdbService

  // ---------------------------------------------------------------------
  // `handleConnectByIp`
  // ---------------------------------------------------------------------

  const ENTER_ADDRESS := "Please enter an IP address and port."
  const BAD_FORMAT := "Invalid format. Use IP:PORT (e.g., 192.168.1.8:5555)."
  const CONNECTED_DEFAULT := "Successfully connected!"
  const FAILED_DEFAULT := "Failed to connect."
  const CONNECTION_ERROR := "Connection error: "

  /** The checks made before any request: `Ok(address)` is the trimmed
      input that is posted to `/connect-ip`, `Err` the status line shown
      instead. */
  function ConnectByIpCheck(input: string): (r: Result<string>)
    ensures r.Ok? <==> QrPairing.IsIpPort(Trim(input))
    ensures r.Ok? ==> r.value == Trim(input)
    ensures r.Err? && r.msg == ENTER_ADDRESS <==> Trim(input) == ""
  {
    var address := Trim(input);
    if address == "" then Err(ENTER_ADDRESS)
    else if !QrPairing.IsIpPort(address) then Err(BAD_FORMAT)
    else Ok(address)
  }

  /** An address the client posts always passes the server's own format
      check: the two patterns are the same. */
  lemma CheckedAddressAccepted(input: string, outcome: Result<AdbService.ProcessOutput>)
    requires ConnectByIpCheck(input).Ok?
    ensures QrPairing.ConnectIp(ConnectByIpCheck(input).value, outcome).code != 400
  {
  }

  /** What `fetch('/connect-ip')` gave: `response.ok`, `data.success` and
      `data.message` (`""` for a missing one). */
  datatype ConnectResponse = ConnectResponse(ok: bool, success: bool, message: string)

  /** The status line after the request; `refreshes` is the device-list
      refresh (and the modal closing) that follows a success. */
  datatype ConnectStatus = ConnectStatus(text: string, isError: bool, refreshes: bool)

  /** The status after the request; `Err` is a thrown `fetch`. */
  function ConnectByIpOutcome(response: Result<ConnectResponse>): (s: ConnectStatus)
    ensures s.refreshes <==> response.Ok? && response.value.ok && response.value.success
    ensures s.isError <==> !s.refreshes
    ensures response.Ok? && response.value.message != "" ==> s.text == response.value.message
    ensures response.Err? ==> s.text == CONNECTION_ERROR + response.msg
  {
    match response
    case Err(m) => ConnectStatus(CONNECTION_ERROR + m, true, false)
    case Ok(r) =>
      if r.ok && r.success then
        ConnectStatus(if r.message != "" then r.message else CONNECTED_DEFAULT, false, true)
      else
        ConnectStatus(if r.message != "" then r.message else FAILED_DEFAULT, true, false)
  }

  /** The response a server reply of `/connect-ip` makes: `res.json` answers
      with status 200 unless a status was set. */
  function FromServer(reply: QrPairing.Reply): ConnectResponse
    requires reply.Message?
  {
    ConnectResponse(reply.code == 200, reply.success, reply.message)
  }

  /** End to end: the client reports success and refreshes its device list
      exactly when its input is a well-formed address and `adb connect`
      reported the connection. */
  lemma ConnectByIpEndToEnd(input: string, outcome: Result<AdbService.ProcessOutput>)
    requires ConnectByIpCheck(input).Ok?
    ensures var address := ConnectByIpCheck(input).value;
      ConnectByIpOutcome(Ok(FromServer(QrPairing.ConnectIp(address, outcome)))).refreshes
      <==> outcome.Ok? && QrPairing.ConnectIpSucceeded(outcome.value)
  {
    var address := ConnectByIpCheck(input).value;
    var reply := QrPairing.ConnectIp(address, outcome);
    assert reply.success ==> reply.code == 200;
  }

  // ---------------------------------------------------------------------
  // `sendAdbCommandToServer` and the pending-command table
  // ---------------------------------------------------------------------

  const NOT_CONNECTED := "WebSocket not connected or no device selected for ADB command."
  const SEND_ERROR := "WebSocket send error for ADB command: "

  /** A reply of the server to an ADB command: `commandId` and `error` are
      `""` when the message lacks them. */
  datatype CommandReply = CommandReply(commandId: string, kind: string, success: bool, error: string)

  /** How the promise of a command ends: resolved with the reply, or
      rejected with an error message. */
  datatype Settled = Resolved(commandId: string, reply: CommandReply) | Rejected(commandId: string, error: string)

  /** The state after an operation on the table, the promise it settles
      (if any) and what it sends over the socket. */
  datatype CommandStep = CommandStep(state: Globals, settled: Option<Settled>, sent: seq<Outgoing>)

  /** The socket is open and a device (a non-empty id) is selected. */
  predicate CanSendCommand(g: Globals)
  {
    IsOpen(g.ws) && g.selectedDeviceId.Some? && g.selectedDeviceId.value != ""
  }

  /** `sendAdbCommandToServer(request)` under the id `commandId`;
      `sendError` is the message of a throwing `ws.send`. */
  function SendCommand(g: Globals, request: AdbRequest, commandId: string, sendError: Option<string>): (s: CommandStep)
    ensures s.state == g.(pendingAdbCommands := s.state.pendingAdbCommands)
    ensures s.settled.None? <==> CanSendCommand(g) && sendError.None?
    ensures s.settled.None? ==>
      s.state.pendingAdbCommands == g.pendingAdbCommands[commandId := Pending(CommandType(request))]
      && s.sent == [Json(AdbCommand(commandId, g.selectedDeviceId.value, request))]
    ensures s.settled.Some? ==> s.sent == [] && s.settled.value.Rejected? && s.settled.value.commandId == commandId
    ensures !CanSendCommand(g) ==> s.state == g && s.settled == Some(Rejected(commandId, NOT_CONNECTED))
    ensures CanSendCommand(g) && sendError.Some? ==>
      s.state.pendingAdbCommands == g.pendingAdbCommands - {commandId}
      && s.settled == Some(Rejected(commandId, SEND_ERROR + sendError.value))
  {
    if !CanSendCommand(g) then CommandStep(g, Some(Rejected(commandId, NOT_CONNECTED)), [])
    else
      var registered := g.pendingAdbCommands[commandId := Pending(CommandType(request))];
      match sendError
      case Some(e) =>
        CommandStep(g.(pendingAdbCommands := registered - {commandId}), Some(Rejected(commandId, SEND_ERROR + e)), [])
      case None =>
        CommandStep(g.(pendingAdbCommands := registered),
                    None, [Json(AdbCommand(commandId, g.selectedDeviceId.value, request))])
  }

  /** The rejection text of a command whose timer fired. */
  function TimeoutMessage(commandType: string, commandId: string): string
  {
    "ADB command " + commandType + " (ID: " + commandId + ") timed out."
  }

  /** The 15-second timer of `commandId` fires: the command is rejected and
      dropped if it is still waiting, and nothing happens otherwise. */
  function Timeout(g: Globals, commandId: string): (s: CommandStep)
    ensures s.state == g.(pendingAdbCommands := g.pendingAdbCommands - {commandId})
    ensures s.settled.Some? <==> commandId in g.pendingAdbCommands
    ensures s.settled.Some? ==>
      s.settled.value == Rejected(commandId, TimeoutMessage(g.pendingAdbCommands[commandId].commandType, commandId))
    ensures s.sent == []
  {
    if commandId in g.pendingAdbCommands then
      CommandStep(g.(pendingAdbCommands := g.pendingAdbCommands - {commandId}),
                  Some(Rejected(commandId, TimeoutMessage(g.pendingAdbCommands[commandId].commandType, commandId))), [])
    else CommandStep(g, None, [])
  }

  /** A command that was sent waits in the table until its timer fires,
      which rejects it exactly once: a second firing does nothing. */
  lemma SentThenTimedOut(g: Globals, request: AdbRequest, commandId: string)
    requires CanSendCommand(g)
    ensures var sent := SendCommand(g, request, commandId, None).state;
      var first := Timeout(sent, commandId);
      first.settled == Some(Rejected(commandId, TimeoutMessage(CommandType(request), commandId)))
      && first.state.pendingAdbCommands == g.pendingAdbCommands - {commandId}
      && Timeout(first.state, commandId).settled.None?
  {
  }

  /** The command is sent on the client's socket. */
  method SendAdbCommandToServer(g: GlobalState, request: AdbRequest, commandId: string, sendError: Option<string>)
    returns (settled: Option<Settled>, sent: seq<Outgoing>)
    modifies g
    ensures CommandStep(g.Snap(), settled, sent) == SendCommand(old(g.Snap()), request, commandId, sendError)
  {
    if !(g.ws.Socket? && g.ws.readyState == Open && g.selectedDeviceId.Some? && g.selectedDeviceId.value != "") {
      return Some(Rejected(commandId, NOT_CONNECTED)), [];
    }
    g.pendingAdbCommands := g.pendingAdbCommands[commandId := Pending(CommandType(request))];
    if sendError.Some? {
      g.pendingAdbCommands := g.pendingAdbCommands - {commandId};
      return Some(Rejected(commandId, SEND_ERROR + sendError.value)), [];
    }
    settled, sent := None, [Json(AdbCommand(commandId, g.selectedDeviceId.value, request))];
  }

  /** The timer callback of `commandId`. */
  method CommandTimedOut(g: GlobalState, commandId: string) returns (settled: Option<Settled>)
    modifies g
    ensures CommandStep(g.Snap(), settled, []) == Timeout(old(g.Snap()), commandId)
  {
    settled := None;
    if commandId in g.pendingAdbCommands {
      var cmd := g.pendingAdbCommands[commandId];
      settled := Some(Rejected(commandId, TimeoutMessage(cmd.commandType, commandId)));
      g.pendingAdbCommands := g.pendingAdbCommands - {commandId};
    }
  }

  // ---------------------------------------------------------------------
  // `cancelQrPairingSession`
  // ---------------------------------------------------------------------

  /** The state after a cancel, whether `/cancel-qr-session` is posted and
      whether the QR socket is closed. */
  datatype QrCancel = QrCancel(state: Globals, postsCancel: bool, closesSocket: bool)

  /** Cancelling posts the cancellation only while a run is active, closes
      the QR socket only when it is open, and always leaves no run and no
      socket; nothing else changes. */
  function CancelQr(g: Globals): (c: QrCancel)
    ensures !c.state.isQrProcessActive && c.state.qrWs == NoSocket
    ensures c.state == g.(isQrProcessActive := false, qrWs := NoSocket)
    ensures c.postsCancel <==> g.isQrProcessActive
    ensures c.closesSocket <==> IsOpen(g.qrWs)
  {
    QrCancel(g.(isQrProcessActive := false, qrWs := NoSocket), g.isQrProcessActive, IsOpen(g.qrWs))
  }

  /** A second cancel changes nothing and sends nothing. */
  lemma CancelQrIdempotent(g: Globals)
    ensures var once := CancelQr(g).state;
      CancelQr(once).state == once && !CancelQr(once).postsCancel && !CancelQr(once).closesSocket
  {
  }

  /** `cancelQrPairingSession()`; a failing `fetch` is only logged. */
  method CancelQrPairingSession(g: GlobalState) returns (postsCancel: bool, closesSocket: bool)
    modifies g
    ensures QrCancel(g.Snap(), postsCancel, closesSocket) == CancelQr(old(g.Snap()))
  {
    postsCancel := g.isQrProcessActive;
    closesSocket := g.qrWs.Socket? && g.qrWs.readyState == Open;
    g.qrWs := NoSocket;
    g.isQrProcessActive := false;
  }
}
