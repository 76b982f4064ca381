// The browser client's shared state (`globalState`) and its stream reset.
module ClientState {
  import opened Wrappers
  import StartRequests

  /** `WebSocket.readyState`: CONNECTING 0, OPEN 1, CLOSING 2, CLOSED 3. */
  datatype ReadyState = Connecting | Open | Closing | Closed

  /** A `WebSocket` reference, or `null`. */
  datatype Socket = NoSocket | Socket(readyState: ReadyState)

  predicate IsOpen(ws: Socket) { ws.Socket? && ws.readyState == Open }

  /** A point in device pixels (`lastMousePosition`). */
  datatype Point = Point(x: int, y: int)

  /** One entry of `inputBytes`: when a video chunk arrived and its size. */
  datatype InputSample = InputSample(timestamp: int, bytes: nat)

  /** One entry of `videoStats` (decoded and dropped frame counters). */
  datatype QualityStat = QualityStat(timestamp: int, decodedFrames: int, droppedFrames: int)

  /** Playback bookkeeping that every stream start and stop puts back to its
      defaults. Presence flags stand for the objects (`converter`,
      `audioContext`, `audioDecoder`, `sourceBufferInternal`, `audioMetadata`,
      `momentumQualityStats`), which the model does not look inside; media
      times are `real`, clock readings `int` milliseconds. */
  datatype StreamFields = StreamFields(
    converter: bool,
    audioContext: bool,
    audioDecoder: bool,
    sourceBuffer: bool,
    currentTimeNotChangedSince: int,
    bigBufferSince: int,
    aheadOfBufferSince: int,
    lastVideoTime: real,
    seekingSince: int,
    removeStart: real,
    removeEnd: real,
    receivedFirstAudioPacket: bool,
    audioMetadata: bool,
    videoStats: seq<QualityStat>,
    inputBytes: seq<InputSample>,
    momentumQualityStats: bool,
    noDecodedFramesSince: int,
    nextAudioTime: real,
    totalAudioFrames: int)

  /** `isMouseDown`, `currentMouseButtons` and `lastMousePosition`. */
  datatype Pointer = Pointer(isMouseDown: bool, buttons: nat, last: Point)

  /** `deviceWidth`, `deviceHeight` and the `videoResolution` text. */
  datatype Dims = Dims(width: int, height: int, resolution: string)

  /** What the client remembers about a command sent with
      `sendAdbCommandToServer`; the promise callbacks are the settlement
      values the operations return. */
  datatype Pending = Pending(commandType: string)

  /** An app of the launcher list (`allApps`). */
  datatype App = App(packageName: string, appLabel: string, letter: string)

  const DEFAULT_STREAM := StreamFields(false, false, false, false, -1, -1, -1, -1.0, -1,
                                       -1.0, -1.0, false, false, [], [], false, -1, 0.0, 0)
  const DEFAULT_POINTER := Pointer(false, 0, Point(0, 0))
  const UNKNOWN_RESOLUTION := "Unknown"
  const DEFAULT_DIMS := Dims(0, 0, UNKNOWN_RESOLUTION)
  const DEFAULT_MODE := "default"
  const APPS_PER_PAGE := 9

  /** A value of the whole modelled `globalState`. */
  datatype Globals = Globals(
    ws: Socket,
    isRunning: bool,
    controlEnabledAtStart: bool,
    stream: StreamFields,
    pointer: Pointer,
    dims: Dims,
    frameCheckCounter: int,
    adbDevices: seq<StartRequests.Device>,
    selectedDeviceId: Option<string>,
    currentDisplayMode: string,
    pendingAdbCommands: map<string, Pending>,
    isQrProcessActive: bool,
    qrWs: Socket,
    allApps: seq<App>,
    appsPerPage: int,
    totalPages: int,
    currentPage: int)

  /** `globalState` as the page loads it. */
  function Initial(): (g: Globals)
    ensures g.stream == DEFAULT_STREAM && g.pointer == DEFAULT_POINTER && g.dims == DEFAULT_DIMS
    ensures !g.isRunning && g.ws == NoSocket && g.pendingAdbCommands == map[]
  {
    Globals(NoSocket, false, false, DEFAULT_STREAM, DEFAULT_POINTER, DEFAULT_DIMS, 0, [], None,
            DEFAULT_MODE, map[], false, NoSocket, [], APPS_PER_PAGE, 0, 1)
  }

  /** `resetStreamRelatedState`: the stream, pointer and size fields go back
      to their defaults; everything else is kept. */
  function Reset(g: Globals): Globals
  {
    g.(stream := DEFAULT_STREAM, pointer := DEFAULT_POINTER, dims := DEFAULT_DIMS)
  }

  /** A reset leaves the client in the stream state it had at page load. */
  lemma ResetRestoresInitial(g: Globals)
    ensures var r := Reset(g); var i := Initial();
      r.stream == i.stream && r.pointer == i.pointer && r.dims == i.dims
  {
  }

  /** The connection, the run flag, the selection, the display mode, the
      control choice and the pending table are not touched by a reset. */
  lemma ResetKeeps(g: Globals)
    ensures var r := Reset(g);
      r.ws == g.ws && r.isRunning == g.isRunning && r.selectedDeviceId == g.selectedDeviceId
      && r.currentDisplayMode == g.currentDisplayMode
      && r.controlEnabledAtStart == g.controlEnabledAtStart
      && r.pendingAdbCommands == g.pendingAdbCommands
  {
  }

  /** Resetting twice is resetting once. */
  lemma ResetIdempotent(g: Globals)
    ensures Reset(Reset(g)) == Reset(g)
  {
  }

  /** `handleStreamingStopped` (messageHandlers.js): the video converter
      stops (`converter` and `sourceBufferInternal` cleared, size 0x0), the
      client stops running and the stream state is reset. Whatever the flag,
      the client ends up not running: when it was not running the flag only
      decides whether the status line is written. */
  function StreamingStopped(g: Globals, sendDisconnect: bool): (r: Globals)
    ensures !r.isRunning && r.stream == DEFAULT_STREAM && r.pointer == DEFAULT_POINTER
    ensures r.ws == g.ws && r.pendingAdbCommands == g.pendingAdbCommands
    ensures r.selectedDeviceId == g.selectedDeviceId && r.adbDevices == g.adbDevices
  {
    var stopped := g.(stream := g.stream.(converter := false, sourceBuffer := false));
    var ran := if g.isRunning || !sendDisconnect then stopped.(isRunning := false) else stopped;
    Reset(ran)
  }

  /** The browser's `globalState` object. Fields that state.js resets
      together are kept as the records `stream`, `pointer` and `dims`. */
  class GlobalState {
    var ws: Socket
    var isRunning: bool
    var controlEnabledAtStart: bool
    var stream: StreamFields
    var pointer: Pointer
    var dims: Dims
    var frameCheckCounter: int
    var adbDevices: seq<StartRequests.Device>
    var selectedDeviceId: Option<string>
    var currentDisplayMode: string
    var pendingAdbCommands: map<string, Pending>
    var isQrProcessActive: bool
    var qrWs: Socket
    var allApps: seq<App>
    var appsPerPage: int
    var totalPages: int
    var currentPage: int

    function Snap(): Globals
      reads this
    {
      Globals(ws, isRunning, controlEnabledAtStart, stream, pointer, dims, frameCheckCounter,
              adbDevices, selectedDeviceId, currentDisplayMode, pendingAdbCommands,
              isQrProcessActive, qrWs, allApps, appsPerPage, totalPages, currentPage)
    }

    constructor ()
      ensures Snap() == Initial()
    {
      ws, isRunning, controlEnabledAtStart := NoSocket, false, false;
      stream, pointer, dims, frameCheckCounter := DEFAULT_STREAM, DEFAULT_POINTER, DEFAULT_DIMS, 0;
      adbDevices, selectedDeviceId, currentDisplayMode := [], None, DEFAULT_MODE;
      pendingAdbCommands, isQrProcessActive, qrWs := map[], false, NoSocket;
      allApps, appsPerPage, totalPages, currentPage := [], APPS_PER_PAGE, 0, 1;
    }

    /** `resetStreamRelatedState`. */
    method ResetStreamRelatedState()
      modifies this
      ensures Snap() == Reset(old(Snap()))
    {
      stream := DEFAULT_STREAM;
      pointer := DEFAULT_POINTER;
      dims := DEFAULT_DIMS;
    }

    /** `stopVideoConverter`: converter and source buffer dropped, size 0x0. */
    method StopVideoConverter()
      modifies this
      ensures Snap() == old(Snap()).(stream := old(stream).(converter := false, sourceBuffer := false),
                                     dims := Dims(0, 0, "0x0"))
    {
      stream := stream.(converter := false, sourceBuffer := false);
      dims := Dims(0, 0, "0x0");
    }

    /** `handleStreamingStopped(sendDisconnect)`. */
    method HandleStreamingStopped(sendDisconnect: bool)
      modifies this
      ensures Snap() == StreamingStopped(old(Snap()), sendDisconnect)
    {
      var wasRunning := isRunning;
      StopVideoConverter();
      if wasRunning || !sendDisconnect {
        isRunning := false;
      }
      ResetStreamRelatedState();
    }
  }
}
