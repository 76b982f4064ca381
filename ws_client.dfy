/** The client's WebSocket (src-client/websocketService.js): the guard that
    keeps a single connection, the routing of text replies to the commands
    waiting for them, the device-list reply, the dispatch of binary frames,
    and the drain of the waiting commands when the connection ends. The
    browser's socket is the `ws` field of the state; its events are
    operations, and the payloads and failures they carry are parameters. */
module WsClient {
  import opened Wrappers
  import opened Bytes
  import opened ClientState
  import opened ClientMessages
  import opened StartRequests
  import AdbClient
  import Sidebar
  import VideoPlayback

  const RESPONSE_SUFFIX := "Response"
  const DEVICES_LIST := "adbDevicesList"
  const STATUS := "status"
  const ERROR := "error"
  const STREAMING_STOPPED := "Streaming stopped"
  const CLOSED_REASON := "WebSocket connection closed."
  const ERROR_REASON := "WebSocket error."

  /** `BINARY_TYPES` (src-client/constants.js). */
  const VIDEO: byte := 0
  const AUDIO: byte := 1

  // ---------------------------------------------------------------------
  // `initializeWebSocket` and the socket's own transitions
  // ---------------------------------------------------------------------

  /** The state after `initializeWebSocket`, whether a socket was created
      and whether the device list is asked for again. */
  datatype ConnectStep = ConnectStep(state: Globals, created: bool, refreshes: bool)

  /** A socket that is open or still connecting is kept (an open one only
      refreshes the device list); otherwise a new one starts connecting.
      Nothing else changes. */
  function Connect(g: Globals): (c: ConnectStep)
    ensures c.created <==> !(g.ws.Socket? && g.ws.readyState in {Open, Connecting})
    ensures c.created ==> c.state == g.(ws := Socket(Connecting)) && !c.refreshes
    ensures !c.created ==> c.state == g && (c.refreshes <==> IsOpen(g.ws))
  {
    if g.ws.Socket? && (g.ws.readyState == Open || g.ws.readyState == Connecting) then
      ConnectStep(g, false, g.ws.readyState == Open)
    else ConnectStep(g.(ws := Socket(Connecting)), true, false)
  }

  /** Calling `initializeWebSocket` again creates no second socket. */
  lemma ConnectOnce(g: Globals)
    ensures var once := Connect(g).state;
      !Connect(once).created && Connect(once).state == once
  {
  }

  /** `close()` on a socket (the WebSocket standard): an open or connecting
      socket starts closing; a closing or closed one stays as it is. */
  function CloseRequested(ws: Socket): (r: Socket)
    ensures r.NoSocket? <==> ws.NoSocket?
    ensures ws.Socket? ==> r.readyState in {Closing, Closed}
    ensures ws.Socket? && ws.readyState in {Closing, Closed} ==> r == ws
  {
    match ws
    case NoSocket => NoSocket
    case Socket(s) => if s == Closed then ws else Socket(Closing)
  }

  /** A socket whose close was requested does not hold back a new one. */
  lemma ConnectAfterClose(g: Globals)
    requires g.ws.Socket?
    ensures Connect(g.(ws := CloseRequested(g.ws))).created
  {
  }

  /** `initializeWebSocket()`; `sendThrows` is the outcome of the request
      for the device list an open socket sends; `controlChecked` is the
      control checkbox. */
  method InitializeWebSocket(g: GlobalState, select: Sidebar.DeviceSelect, panel: Sidebar.Panel,
                             controlChecked: bool, sendThrows: bool)
    returns (created: bool, sent: seq<Outgoing>)
    modifies g, select, panel
    ensures var c := Connect(old(g.Snap()));
      g.Snap() == c.state && created == c.created
      && sent == (if c.refreshes && !sendThrows then [Json(GetAdbDevices)] else [])
      && panel.disabled == (if c.refreshes then old(panel.disabled)[Sidebar.RefreshButton := true] else old(panel.disabled))
  {
    if g.ws.Socket? && (g.ws.readyState == Open || g.ws.readyState == Connecting) {
      created := false;
      sent := [];
      if g.ws.readyState == Open {
        sent := Sidebar.RequestAdbDevices(g, select, panel, controlChecked, sendThrows);
      }
      return;
    }
    g.ws := Socket(Connecting);
    created, sent := true, [];
  }

  /** `onopen`: the browser marks the socket open, Refresh is enabled,
      and the device list is asked for, which disables Refresh again until
      the answer. */
  method OnOpen(g: GlobalState, select: Sidebar.DeviceSelect, panel: Sidebar.Panel, controlChecked: bool,
                sendThrows: bool) returns (sent: seq<Outgoing>)
    modifies g, select, panel
    ensures g.Snap() == old(g.Snap()).(ws := Socket(Open))
    ensures sent == (if sendThrows then [] else [Json(GetAdbDevices)])
    ensures panel.disabled == old(panel.disabled)[Sidebar.RefreshButton := true]
  {
    g.ws := Socket(Open);
    panel.disabled := panel.disabled[Sidebar.RefreshButton := false];
    sent := Sidebar.RequestAdbDevices(g, select, panel, controlChecked, sendThrows);
  }

  /** `closeWebSocket()`. */
  method CloseWebSocket(g: GlobalState)
    modifies g
    ensures g.Snap() == old(g.Snap()).(ws := CloseRequested(old(g.ws)))
  {
    if g.ws.Socket? && g.ws.readyState != Closed {
      g.ws := Socket(Closing);
    }
  }

  // ---------------------------------------------------------------------
  // Text messages: reply routing, the device list, stops
  // ---------------------------------------------------------------------

  /** The fields of a JSON message of the server the client looks at; a
      missing string field is `""`, a missing `devices` list `[]`. */
  datatype ServerMessage = ServerMessage(commandId: string, kind: string, success: bool,
                                         error: string, message: string, devices: seq<Device>)

  /** The waiting command a message answers: its id is set and waiting, and
      its type is the command's type followed by `Response`. */
  function AnsweredBy(g: Globals, m: ServerMessage): (r: Option<Pending>)
    ensures r.Some? <==> m.commandId != "" && m.commandId in g.pendingAdbCommands
                         && m.kind == g.pendingAdbCommands[m.commandId].commandType + RESPONSE_SUFFIX
    ensures r.Some? ==> r.value == g.pendingAdbCommands[m.commandId]
  {
    if m.commandId != "" && m.commandId in g.pendingAdbCommands
       && m.kind == g.pendingAdbCommands[m.commandId].commandType + RESPONSE_SUFFIX
    then Some(g.pendingAdbCommands[m.commandId])
    else None
  }

  /** The text of a failure reply that carries no error. */
  function FailedMessage(commandType: string): string
  {
    "ADB command " + commandType + " failed."
  }

  /** How the answered command's promise ends. */
  function Settlement(m: ServerMessage, p: Pending): AdbClient.Settled
  {
    if m.success then AdbClient.Resolved(m.commandId, AdbClient.CommandReply(m.commandId, m.kind, m.success, m.error))
    else AdbClient.Rejected(m.commandId, if m.error != "" then m.error else FailedMessage(p.commandType))
  }

  /** The state after a text message, the promise it settles and the device
      list it puts in the `<select>` (if any). */
  datatype TextStep = TextStep(state: Globals, settled: Option<AdbClient.Settled>, listed: Option<seq<Device>>)

  /** A message that ends the stream: the `Streaming stopped` status, or an
      error. */
  predicate StopsStream(m: ServerMessage)
  {
    (m.kind == STATUS && m.message == STREAMING_STOPPED) || m.kind == ERROR
  }

  /** `onmessage` for a text frame. */
  function OnText(g: Globals, m: ServerMessage): TextStep
  {
    match AnsweredBy(g, m)
    case Some(p) =>
      TextStep(g.(pendingAdbCommands := g.pendingAdbCommands - {m.commandId}), Some(Settlement(m, p)), None)
    case None =>
      if m.kind == DEVICES_LIST then
        var list := if m.success then m.devices else [];
        TextStep(g.(adbDevices := list, selectedDeviceId := Sidebar.Selection(list, g.selectedDeviceId)), None, Some(list))
      else if StopsStream(m) then TextStep(StreamingStopped(g, false), None, None)
      else TextStep(g, None, None)
  }

  /** A reply settles its command exactly when it answers it: a success
      resolves with the reply, a failure rejects with its error or the
      default text, the entry is dropped and nothing else changes. A
      message that answers no command leaves the table as it was. */
  lemma ReplyRules(g: Globals, m: ServerMessage)
    ensures var t := OnText(g, m);
      (t.settled.Some? <==> AnsweredBy(g, m).Some?)
      && (t.settled.Some? ==>
            t.state == g.(pendingAdbCommands := g.pendingAdbCommands - {m.commandId})
            && t.settled.value.commandId == m.commandId
            && (t.settled.value.Resolved? <==> m.success)
            && (!m.success && m.error == "" ==>
                  t.settled.value.error == FailedMessage(g.pendingAdbCommands[m.commandId].commandType))
            && t.listed.None?)
      && (t.settled.None? ==> t.state.pendingAdbCommands == g.pendingAdbCommands)
  {
  }

  /** A device-list message that answers no command replaces the list with
      its devices on success and with nothing otherwise, and selects as the
      sidebar does. */
  lemma DeviceListRules(g: Globals, m: ServerMessage)
    requires AnsweredBy(g, m).None? && m.kind == DEVICES_LIST
    ensures var t := OnText(g, m);
      var list := if m.success then m.devices else [];
      t.listed == Some(list) && t.state.adbDevices == list
      && t.state.selectedDeviceId == Sidebar.Selection(list, g.selectedDeviceId)
      && (!m.success ==> t.state.selectedDeviceId.None?)
      && t.state == g.(adbDevices := t.state.adbDevices, selectedDeviceId := t.state.selectedDeviceId)
  {
  }

  /** A command settles at most once: once its reply is routed, the same
      reply, and its timer, settle nothing more. */
  lemma SettlesOnce(g: Globals, m: ServerMessage)
    requires OnText(g, m).settled.Some?
    ensures var after := OnText(g, m).state;
      OnText(after, m).settled.None? && AdbClient.Timeout(after, m.commandId).settled.None?
  {
  }

  /** End to end: a command sent with `sendAdbCommandToServer` is settled
      by the reply of its type, according to the reply's flag, and leaves
      the table as it was before the command. */
  lemma SentThenAnswered(g: Globals, request: AdbRequest, commandId: string, reply: ServerMessage)
    requires AdbClient.CanSendCommand(g) && commandId != ""
    requires reply.commandId == commandId && reply.kind == CommandType(request) + RESPONSE_SUFFIX
    ensures var sent := AdbClient.SendCommand(g, request, commandId, None).state;
      var t := OnText(sent, reply);
      t.settled.Some? && (t.settled.value.Resolved? <==> reply.success)
      && t.state.pendingAdbCommands == g.pendingAdbCommands - {commandId}
  {
    var sent := AdbClient.SendCommand(g, request, commandId, None).state;
    assert sent.pendingAdbCommands[commandId] == Pending(CommandType(request));
    assert AnsweredBy(sent, reply).Some?;
  }

  /** A reply of another command type is not taken as the answer. */
  lemma WrongTypeNotAnswer(g: Globals, request: AdbRequest, commandId: string, reply: ServerMessage)
    requires AdbClient.CanSendCommand(g)
    requires reply.commandId == commandId && reply.kind != CommandType(request) + RESPONSE_SUFFIX
    ensures var sent := AdbClient.SendCommand(g, request, commandId, None).state;
      OnText(sent, reply).settled.None?
      && commandId in OnText(sent, reply).state.pendingAdbCommands
  {
    var sent := AdbClient.SendCommand(g, request, commandId, None).state;
    assert sent.pendingAdbCommands[commandId] == Pending(CommandType(request));
  }

  /** `onmessage` for a text frame. A device list enables Refresh and is
      then shown, and a stop ends the stream; both then set every control
      from the new state. */
  method OnTextMessage(g: GlobalState, select: Sidebar.DeviceSelect, panel: Sidebar.Panel, controlChecked: bool,
                       m: ServerMessage)
    returns (settled: Option<AdbClient.Settled>, listed: Option<seq<Device>>)
    modifies g, select, panel
    ensures TextStep(g.Snap(), settled, listed) == OnText(old(g.Snap()), m)
    ensures listed.Some? ==> select.choices == Sidebar.Choices(listed.value)
    ensures listed.Some? || (settled.None? && StopsStream(m)) ==>
      forall c :: c in panel.disabled && panel.disabled[c] == !Sidebar.Enabled(c, Sidebar.EnvOf(g.Snap(), controlChecked))
    ensures settled.Some? || (listed.None? && !StopsStream(m)) ==> panel.disabled == old(panel.disabled)
  {
    settled, listed := None, None;
    if m.commandId != "" && m.commandId in g.pendingAdbCommands {
      var cmd := g.pendingAdbCommands[m.commandId];
      if m.kind == cmd.commandType + RESPONSE_SUFFIX {
        if m.success {
          settled := Some(AdbClient.Resolved(m.commandId, AdbClient.CommandReply(m.commandId, m.kind, m.success, m.error)));
        } else {
          settled := Some(AdbClient.Rejected(m.commandId, if m.error != "" then m.error else FailedMessage(cmd.commandType)));
        }
        g.pendingAdbCommands := g.pendingAdbCommands - {m.commandId};
        return;
      }
    }
    if m.kind == DEVICES_LIST {
      var list := if m.success then m.devices else [];
      panel.disabled := panel.disabled[Sidebar.RefreshButton := false];
      Sidebar.PopulateDeviceSelect(g, select, panel, list, controlChecked);
      listed := Some(list);
      return;
    }
    if (m.kind == STATUS && m.message == STREAMING_STOPPED) || m.kind == ERROR {
      g.HandleStreamingStopped(false);
      Sidebar.UpdateDisplayOptionsOnStreamStop(g, panel, controlChecked);
    }
  }

  // ---------------------------------------------------------------------
  // Binary frames
  // ---------------------------------------------------------------------

  /** Where a binary frame goes: byte 0 is its type, the rest its payload. */
  datatype BinaryRoute = Dropped | Video(payload: seq<byte>) | Audio(payload: seq<byte>)

  /** `onmessage` for an `ArrayBuffer`: frames count only while running,
      an empty one is ignored, video needs a converter and audio the audio
      checkbox. */
  function RouteBinary(isRunning: bool, converter: bool, audioChecked: bool, data: seq<byte>): BinaryRoute
  {
    if !isRunning || |data| < 1 then Dropped
    else if data[0] == VIDEO && converter then Video(data[1..])
    else if data[0] == AUDIO && audioChecked then Audio(data[1..])
    else Dropped
  }

  /** A frame built as its type byte followed by a payload is routed with
      that same payload, by type and by the running, converter and audio
      flags; nothing else gets through. */
  lemma RouteBinaryFrames(isRunning: bool, converter: bool, audioChecked: bool, t: byte, payload: seq<byte>)
    ensures RouteBinary(isRunning, converter, audioChecked, [t] + payload) ==
      if !isRunning then Dropped
      else if t == VIDEO && converter then Video(payload)
      else if t == AUDIO && audioChecked then Audio(payload)
      else Dropped
    ensures RouteBinary(isRunning, converter, audioChecked, []) == Dropped
  {
    assert ([t] + payload)[1..] == payload;
  }

  /** Every frame that is not dropped is its type byte followed by the
      payload it delivers. */
  lemma RouteBinaryPayload(isRunning: bool, converter: bool, audioChecked: bool, data: seq<byte>)
    requires !RouteBinary(isRunning, converter, audioChecked, data).Dropped?
    ensures var r := RouteBinary(isRunning, converter, audioChecked, data);
      isRunning && data == [if r.Video? then VIDEO else AUDIO] + r.payload
  {
    assert data == [data[0]] + data[1..];
  }

  /** `onmessage` for an `ArrayBuffer`: a video payload is handed to
      `handleVideoData` at clock reading `now`; an audio payload is handed
      back to the caller (the audio playback is not part of this model). */
  method OnBinaryMessage(g: GlobalState, p: VideoPlayback.Playback, data: seq<byte>, audioChecked: bool, now: int)
    returns (route: BinaryRoute)
    modifies g
    ensures route == RouteBinary(old(g.isRunning), old(g.stream.converter), audioChecked, data)
    ensures g.Snap() == if route.Video? then VideoPlayback.VideoData(old(g.Snap()), p, route.payload, now).state
                        else old(g.Snap())
  {
    route := Dropped;
    if !g.isRunning || |data| < 1 {
      return;
    }
    var kind := data[0];
    var payload := data[1..];
    if kind == VIDEO && g.stream.converter {
      route := Video(payload);
      var _, _ := VideoPlayback.HandleVideoData(g, p, payload, now);
    } else if kind == AUDIO && audioChecked {
      route := Audio(payload);
    }
  }

  // ---------------------------------------------------------------------
  // `onclose` and `onerror`
  // ---------------------------------------------------------------------

  /** The state after the connection ends: a running stream is stopped,
      the socket is dropped, the device list and the selection are emptied
      and no command waits any longer. */
  function Ended(g: Globals): (r: Globals)
    ensures !r.isRunning && r.ws == NoSocket && r.pendingAdbCommands == map[]
    ensures r.adbDevices == [] && r.selectedDeviceId.None?
    ensures g.isRunning ==> r.stream == DEFAULT_STREAM && r.pointer == DEFAULT_POINTER
    ensures !g.isRunning ==> r == g.(ws := NoSocket, adbDevices := [], selectedDeviceId := None, pendingAdbCommands := map[])
  {
    var stopped := if g.isRunning then StreamingStopped(g, false) else g;
    stopped.(ws := NoSocket, adbDevices := [], selectedDeviceId := None, pendingAdbCommands := map[])
  }

  /** Once the connection has ended, no reply and no timer settles
      anything, and the next `initializeWebSocket` connects anew. */
  lemma NothingSettlesAfterClose(g: Globals, m: ServerMessage, commandId: string)
    ensures OnText(Ended(g), m).settled.None?
    ensures AdbClient.Timeout(Ended(g), commandId).settled.None?
    ensures Connect(Ended(g)).created
  {
  }

  /** The ids of a list of settlements. */
  function Ids(s: seq<AdbClient.Settled>): set<string>
  {
    if s == [] then {} else Ids(s[..|s| - 1]) + {s[|s| - 1].commandId}
  }

  /** One rejection per id: `reason` for each, no id twice. */
  predicate RejectsEach(rejected: seq<AdbClient.Settled>, keys: set<string>, reason: string)
  {
    Ids(rejected) == keys && |rejected| == |keys|
    && (forall i :: 0 <= i < |rejected| ==> rejected[i] == AdbClient.Rejected(rejected[i].commandId, reason))
    && (forall i, j :: 0 <= i < j < |rejected| ==> rejected[i].commandId != rejected[j].commandId)
  }

  /** Rejecting one more id that was not yet rejected keeps one
      rejection per id. */
  lemma RejectOneMore(rejected: seq<AdbClient.Settled>, done: set<string>, k: string, reason: string)
    requires RejectsEach(rejected, done, reason) && k !in done
    ensures RejectsEach(rejected + [AdbClient.Rejected(k, reason)], done + {k}, reason)
  {
    var more := rejected + [AdbClient.Rejected(k, reason)];
    assert more[..|more| - 1] == rejected;
    forall i | 0 <= i < |rejected| ensures rejected[i].commandId != k {
      IdsListed(rejected, i);
    }
  }

  /** Each listed id is in the set of ids. */
  lemma {:induction false} IdsListed(s: seq<AdbClient.Settled>, i: nat)
    requires i < |s|
    ensures s[i].commandId in Ids(s)
    decreases |s|
  {
    if i < |s| - 1 {
      IdsListed(s[..|s| - 1], i);
    }
  }

  /** The rejections of the `forEach` over the table's entries, in some
      order of its keys. */
  method RejectKeys(keys: set<string>, reason: string) returns (rejected: seq<AdbClient.Settled>)
    ensures RejectsEach(rejected, keys, reason)
  {
    var left := keys;
    ghost var done: set<string> := {};
    rejected := [];
    while left != {}
      invariant done + left == keys && done !! left
      invariant RejectsEach(rejected, done, reason)
      decreases |left|
    {
      var k :| k in left;
      RejectOneMore(rejected, done, k, reason);
      rejected := rejected + [AdbClient.Rejected(k, reason)];
      done := done + {k};
      left := left - {k};
    }
  }

  /** Every waiting command is rejected with `reason`, once each, and the
      table is cleared. */
  method RejectAll(g: GlobalState, reason: string) returns (rejected: seq<AdbClient.Settled>)
    modifies g
    ensures g.Snap() == old(g.Snap()).(pendingAdbCommands := map[])
    ensures RejectsEach(rejected, old(g.pendingAdbCommands).Keys, reason)
  {
    rejected := RejectKeys(g.pendingAdbCommands.Keys, reason);
    g.pendingAdbCommands := map[];
  }

  /** `onclose` (with `CLOSED_REASON`) and `onerror` (with `ERROR_REASON`):
      Refresh and Start are disabled, and then the emptied list sets every
      control from the stopped state, so the list itself ends enabled and
      Refresh and Start stay disabled. */
  method OnConnectionEnd(g: GlobalState, select: Sidebar.DeviceSelect, panel: Sidebar.Panel, controlChecked: bool,
                         reason: string)
    returns (rejected: seq<AdbClient.Settled>)
    modifies g, select, panel
    ensures g.Snap() == Ended(old(g.Snap()))
    ensures select.choices == Sidebar.Choices([])
    ensures forall c :: c in panel.disabled && panel.disabled[c] == !Sidebar.Enabled(c, Sidebar.EnvOf(g.Snap(), controlChecked))
    ensures Sidebar.DeviceList in panel.disabled && !panel.disabled[Sidebar.DeviceList]
    ensures Sidebar.RefreshButton in panel.disabled && panel.disabled[Sidebar.RefreshButton]
    ensures Sidebar.StartButton in panel.disabled && panel.disabled[Sidebar.StartButton]
    ensures RejectsEach(rejected, old(g.pendingAdbCommands).Keys, reason)
  {
    ghost var before := g.Snap();
    if g.isRunning {
      g.HandleStreamingStopped(false);
      Sidebar.UpdateDisplayOptionsOnStreamStop(g, panel, controlChecked);
    }
    g.ws := NoSocket;
    panel.disabled := panel.disabled[Sidebar.RefreshButton := true][Sidebar.StartButton := true];
    Sidebar.PopulateDeviceSelect(g, select, panel, [], controlChecked);
    assert g.Snap().pendingAdbCommands == before.pendingAdbCommands;
    rejected := RejectAll(g, reason);
  }
}
