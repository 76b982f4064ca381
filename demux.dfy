/** The per-socket demultiplexer of a scrcpy session: the device opens up to
    three TCP sockets (video, audio, control) in that order; the first
    carries the 64-byte device name, each media socket a codec header, and
    then 12-byte-header packets follow. `processSingleSocket` drives one
    socket's state machine over the bytes buffered for it. Two copies of
    the machine exist, in the session module and in the monolithic server;
    `Variant` selects where they differ. */
module Demux {
  import opened Wrappers
  import opened Bytes
  import Aac
  import Sps

  const DEVICE_NAME_LENGTH: nat := 64
  const VIDEO_METADATA_LENGTH: nat := 12
  const AUDIO_METADATA_LENGTH: nat := 4
  const PACKET_HEADER_LENGTH: nat := 12
  /** `10 * 1024 * 1024`. */
  const MAX_PACKET_SIZE: nat := 0xA0_0000
  const CODEC_H264: nat := 0x68323634
  const CODEC_AAC: nat := 0x00616163
  const BINARY_VIDEO: byte := 0
  const BINARY_AUDIO: byte := 1
  const CONTROL_MSG_TYPE_SET_SCREEN_POWER_MODE: byte := 10

  /** `SessionModule` is src-server/scrcpySession.js, `LegacyServer` the
      copy inside server.js. */
  datatype Variant = SessionModule | LegacyServer

  datatype Stream = Video | Audio | Control

  /** `socket.state`. */
  datatype Phase = AwaitingInitialData | AwaitingMetadata | Streaming | Unknown

  /** `socket.type`; `Untyped` is `'unknown'`. */
  datatype Kind = Untyped | VideoSocket | AudioSocket | ControlSocket

  type SocketId = nat

  /** One device socket: its state, type, flags and pending bytes. */
  datatype Conn = Conn(phase: Phase, kind: Kind, didHandleDeviceName: bool,
                       destroyed: bool, buffer: seq<byte>)

  /** What the server sends: JSON and binary messages to the browser, and
      bytes written to the control socket. */
  datatype Event =
    | DeviceName(name: seq<byte>)
    | VideoInfo(codecId: nat, width: nat, height: nat)
    | AudioInfo(codecId: nat)
    | AudioMetadata(config: Aac.AudioConfig)
    | StreamingStarted
    | ResolutionChange(newWidth: int, newHeight: int)
    | Binary(frame: seq<byte>)
    | DeviceMessage(data: seq<byte>)
    | ControlWrite(data: seq<byte>)
    | StreamingStopped

  /** The session record as far as the demultiplexer reads and writes it.
      `unidentified` lists the keys of `unidentifiedSockets` in insertion
      order, which is the iteration order of a JavaScript `Map`. */
  datatype Session = Session(
    expected: seq<Stream>, controlOption: bool, screenOffOnStart: bool,
    processStarted: bool,
    video: Option<SocketId>, audio: Option<SocketId>, control: Option<SocketId>,
    deviceNameReceived: bool, socketsConnected: nat, streamingStartedNotified: bool,
    unidentified: seq<SocketId>,
    audioMetadata: Option<Aac.AudioConfig>, width: int, height: int,
    conns: map<SocketId, Conn>, sent: seq<Event>)

  /** What every state of a session satisfies. */
  ghost predicate Inv(s: Session)
  {
    (forall i | i in s.conns :: s.conns[i].phase == Streaming ==> s.conns[i].kind != Untyped)
    && (forall x | x in s.unidentified :: x in s.conns)
    && (s.audioMetadata.Some? ==> s.audioMetadata.value.sampleRateIndex < 16)
  }

  // ---------------------------------------------------------------------
  // Session setup and connections

  /** The streams `setupScrcpySession` waits for, in the order the device
      connects them; with none enabled it throws. */
  function ExpectedSockets(video: bool, audio: bool, control: bool): (r: Result<seq<Stream>>)
    ensures r.Err? <==> !video && !audio && !control
    ensures r.Ok? ==>
      (Video in r.value <==> video) && (Audio in r.value <==> audio) && (Control in r.value <==> control)
    ensures r.Ok? ==> forall i, j | 0 <= i < j < |r.value| :: Rank(r.value[i]) < Rank(r.value[j])
  {
    var streams := (if video then [Video] else []) + (if audio then [Audio] else [])
      + (if control then [Control] else []);
    if streams == [] then Err("No streams enabled.") else Ok(streams)
  }

  function Rank(t: Stream): nat
  {
    match t
    case Video => 0
    case Audio => 1
    case Control => 2
  }

  /** The session record right after setup. */
  function NewSession(expected: seq<Stream>, controlOption: bool, screenOff: bool): (s: Session)
    ensures Inv(s) && s.conns == map[] && s.sent == [] && s.socketsConnected == 0
  {
    Session(expected, controlOption, screenOff, false, None, None, None, false, 0, false,
      [], None, 0, 0, map[], [])
  }

  /** A connection accepted by the session's TCP server: beyond the expected
      number it is refused (destroyed and forgotten); otherwise it is
      registered as unidentified and awaiting the device name. */
  function Accept(s: Session, id: SocketId): (r: Session)
    requires Inv(s) && id !in s.conns
    ensures Inv(r)
    ensures s.socketsConnected >= |s.expected| ==> r == s
    ensures s.socketsConnected < |s.expected| ==>
      r.socketsConnected == s.socketsConnected + 1 && r.unidentified == s.unidentified + [id]
      && r.conns == s.conns[id := Conn(AwaitingInitialData, Untyped, false, false, [])]
  {
    if s.socketsConnected >= |s.expected| then s
    else s.(socketsConnected := s.socketsConnected + 1,
            unidentified := s.unidentified + [id],
            conns := s.conns[id := Conn(AwaitingInitialData, Untyped, false, false, [])])
  }

  /** `unidentifiedSockets.delete(id)`. */
  function Remove(ids: seq<SocketId>, id: SocketId): (r: seq<SocketId>)
    ensures forall x :: x in r <==> x in ids && x != id
    ensures |r| <= |ids|
  {
    if ids == [] then []
    else if ids[0] == id then Remove(ids[1..], id)
    else [ids[0]] + Remove(ids[1..], id)
  }

  // ---------------------------------------------------------------------
  // Notifications

  /** A stream is ready when it is not expected or has its socket. */
  predicate Ready(s: Session, t: Stream, socket: Option<SocketId>)
  {
    t !in s.expected || socket.Some?
  }

  predicate AllReady(s: Session)
  {
    Ready(s, Video, s.video) && Ready(s, Audio, s.audio) && Ready(s, Control, s.control)
  }

  /** `checkAndSendStreamingStarted` up to its first `await`: once every
      expected stream has its socket, "Streaming started" is sent, and, in
      the session module, the pending screen-off command
      `[SET_SCREEN_POWER_MODE, 0]` is written to the control socket. */
  function NotifyStarted(v: Variant, s: Session): (r: Session)
    ensures Grows(s, r)
    ensures r.conns == s.conns && r.audioMetadata == s.audioMetadata
    ensures r.video == s.video && r.audio == s.audio && r.control == s.control
    ensures r.unidentified == s.unidentified && r.expected == s.expected
    ensures r.socketsConnected == s.socketsConnected && r.controlOption == s.controlOption
    ensures r.streamingStartedNotified == (s.streamingStartedNotified || AllReady(s))
    ensures s.streamingStartedNotified ==> r == s
    ensures !s.streamingStartedNotified && AllReady(s) ==>
      s.sent + [StreamingStarted] <= r.sent
  {
    if s.streamingStartedNotified || !AllReady(s) then s
    else
      var started := s.(sent := s.sent + [StreamingStarted], streamingStartedNotified := true);
      if v == SessionModule && s.screenOffOnStart && s.control.Some? && s.controlOption then
        started.(sent := started.sent + [ControlWrite([CONTROL_MSG_TYPE_SET_SCREEN_POWER_MODE, 0])],
                 screenOffOnStart := false)
      else started
  }

  /** The number of "Streaming started" messages sent. */
  function Starts(events: seq<Event>): nat
  {
    multiset(events)[StreamingStarted]
  }

  /** What a pass of the state machine keeps: the sockets, the session's
      configuration and counters, and everything already sent, to which
      "Streaming started" is added exactly when the flag is first set. */
  ghost predicate Grows(s: Session, r: Session)
  {
    r.conns.Keys == s.conns.Keys && r.expected == s.expected && r.controlOption == s.controlOption
    && r.socketsConnected == s.socketsConnected && r.processStarted == s.processStarted
    && s.sent <= r.sent
    && (s.streamingStartedNotified ==> r.streamingStartedNotified)
    && Starts(r.sent) == Starts(s.sent) + (if r.streamingStartedNotified && !s.streamingStartedNotified then 1 else 0)
  }

  lemma GrowsTrans(a: Session, b: Session, c: Session)
    requires Grows(a, b) && Grows(b, c)
    ensures Grows(a, c)
  {
  }

  // ---------------------------------------------------------------------
  // Identification by deduction

  /** A control socket forwards everything it has buffered to the browser;
      this is also the whole effect of the nested `processSingleSocket` call
      on a socket that has just been deduced to be the control socket. */
  function Forward(s: Session, id: SocketId): (r: Session)
    requires Inv(s) && id in s.conns
    ensures Grows(s, r) && Inv(r)
    ensures |s.conns[id].buffer| == 0 ==> r == s
    ensures |s.conns[id].buffer| > 0 ==>
      r == s.(sent := s.sent + [DeviceMessage(s.conns[id].buffer)],
              conns := s.conns[id := s.conns[id].(buffer := [])])
  {
    var c := s.conns[id];
    if |c.buffer| > 0 then
      var sent := Send(s, DeviceMessage(c.buffer));
      var r := SetConn(sent, id, c.(buffer := []));
      GrowsTrans(s, sent, r);
      r
    else s
  }

  /** One socket's record is replaced. */
  function SetConn(s: Session, id: SocketId, c: Conn): (r: Session)
    requires Inv(s) && id in s.conns && (c.phase == Streaming ==> c.kind != Untyped)
    ensures Grows(s, r) && Inv(r)
    ensures r == s.(conns := s.conns[id := c])
  {
    s.(conns := s.conns[id := c])
  }

  /** No socket is added or removed, and each either keeps its state or is
      streaming with no more bytes than before. */
  ghost predicate Settled(s: Session, r: Session)
  {
    r.conns.Keys == s.conns.Keys
    && forall x | x in s.conns ::
      r.conns[x] == s.conns[x]
      || (r.conns[x].phase == Streaming && |r.conns[x].buffer| <= |s.conns[x].buffer|
          && r.conns[x].destroyed == s.conns[x].destroyed)
  }

  /** `attemptIdentifyControlByDeduction`. */
  function Deduce(v: Variant, s: Session): (r: Session)
    requires Inv(s)
    ensures Grows(s, r)
    ensures Inv(r) && Settled(s, r)
  {
    if s.control.Some? || !s.controlOption || s.socketsConnected < |s.expected| then s
    else if Ready(s, Video, s.video) && Ready(s, Audio, s.audio) && |s.unidentified| == 1 then
      DeduceControl(v, s)
    else s
  }

  /** The last unidentified socket becomes the control socket. */
  function DeduceControl(v: Variant, s: Session): (r: Session)
    requires Inv(s) && |s.unidentified| == 1
    ensures Grows(s, r)
    ensures Inv(r) && Settled(s, r)
    ensures r.control == Some(s.unidentified[0]) && r.unidentified == []
    ensures r.conns[s.unidentified[0]].kind == ControlSocket
    ensures r.conns[s.unidentified[0]].phase == Streaming
  {
    var rid := s.unidentified[0];
    var claimed := Claim(s);
    var notified := NotifyStarted(v, claimed);
    if notified.conns[rid].destroyed then notified
    else
      var r := FlushControl(notified, rid);
      SettledTrans(s, claimed, r);
      r
  }

  lemma SettledTrans(a: Session, b: Session, c: Session)
    requires Settled(a, b) && Settled(b, c)
    ensures Settled(a, c)
  {
  }

  /** `Forward` on a streaming socket settles the session. */
  function FlushControl(s: Session, id: SocketId): (r: Session)
    requires Inv(s) && id in s.conns && s.conns[id].phase == Streaming
    ensures Grows(s, r)
    ensures Inv(r) && Settled(s, r) && r.control == s.control && r.unidentified == s.unidentified
    ensures r.conns[id].kind == s.conns[id].kind && r.conns[id].phase == Streaming
  {
    var c := s.conns[id];
    if c.buffer == [] then s
    else
      var r := Forward(s, id);
      SettledUpdate(s, r, id, c.(buffer := []));
      r
  }

  lemma SettledUpdate(s: Session, r: Session, id: SocketId, c: Conn)
    requires id in s.conns && r.conns == s.conns[id := c]
    requires c.phase == Streaming && |c.buffer| <= |s.conns[id].buffer| && c.destroyed == s.conns[id].destroyed
    ensures Settled(s, r)
  {
  }

  function Claim(s: Session): (r: Session)
    requires Inv(s) && |s.unidentified| == 1
    ensures Grows(s, r)
    ensures Inv(r) && Settled(s, r)
    ensures r.control == Some(s.unidentified[0]) && r.unidentified == []
    ensures r.conns[s.unidentified[0]].kind == ControlSocket
    ensures r.conns[s.unidentified[0]].phase == Streaming
  {
    var rid := s.unidentified[0];
    var c := s.conns[rid];
    s.(control := Some(rid), unidentified := [],
      conns := s.conns[rid := c.(kind := ControlSocket, phase := Streaming)])
  }

  /** The control socket is deduced exactly when control is enabled and not
      yet identified, every expected socket has connected, video and audio
      are identified (or not expected), and exactly one socket remains
      unidentified; it is then that socket. */
  lemma DeductionRule(v: Variant, s: Session)
    requires Inv(s)
    ensures Deduce(v, s).control != s.control <==>
      s.control.None? && s.controlOption && s.socketsConnected >= |s.expected|
      && Ready(s, Video, s.video) && Ready(s, Audio, s.audio) && |s.unidentified| == 1
    ensures Deduce(v, s).control != s.control ==>
      Deduce(v, s).control == Some(s.unidentified[0]) && Deduce(v, s).unidentified == []
      && Deduce(v, s).conns[s.unidentified[0]].kind == ControlSocket
      && Deduce(v, s).conns[s.unidentified[0]].phase == Streaming
  {
  }

  // ---------------------------------------------------------------------
  // The three handlers

  /** The device name: the bytes before the first NUL of the 64-byte field
      (`toString('utf8').split('\0')[0]`; the UTF-8 decoding is not part of
      this model). */
  function NameBytes(field: seq<byte>): (name: seq<byte>)
    ensures name <= field && 0 !in name
    ensures |name| < |field| ==> field[|name|] == 0
  {
    if field == [] || field[0] == 0 then [] else [field[0]] + NameBytes(field[1..])
  }

  /** `_handleAwaitingInitialData`: the first socket to buffer 64 bytes
      takes them as the device name; once the name is known every socket
      moves on to its metadata. */
  function InitialStep(v: Variant, s: Session, id: SocketId): (r: (Session, bool))
    requires Inv(s) && id in s.conns
    ensures Grows(s, r.0)
    ensures Inv(r.0) && id in r.0.conns
  {
    var c := s.conns[id];
    if !s.deviceNameReceived then
      if |c.buffer| >= DEVICE_NAME_LENGTH then
        var named := Name(s, id);
        var r := Deduce(v, named);
        GrowsTrans(s, named, r);
        (r, true)
      else (s, false)
    else (SetConn(s, id, c.(phase := AwaitingMetadata)), true)
  }

  /** The 64 bytes at the front of the socket name the device. */
  function Name(s: Session, id: SocketId): (r: Session)
    requires Inv(s) && id in s.conns && |s.conns[id].buffer| >= DEVICE_NAME_LENGTH
    ensures Grows(s, r) && Inv(r) && r.deviceNameReceived
    ensures r.conns[id] == s.conns[id].(buffer := s.conns[id].buffer[DEVICE_NAME_LENGTH..],
      didHandleDeviceName := true, phase := AwaitingMetadata)
    ensures r.sent == s.sent + [DeviceName(NameBytes(s.conns[id].buffer[..DEVICE_NAME_LENGTH]))]
  {
    var c := s.conns[id];
    var r := s.(sent := s.sent + [DeviceName(NameBytes(c.buffer[..DEVICE_NAME_LENGTH]))],
      conns := s.conns[id := c.(buffer := c.buffer[DEVICE_NAME_LENGTH..],
        didHandleDeviceName := true, phase := AwaitingMetadata)],
      deviceNameReceived := true);
    assert multiset(r.sent) == multiset(s.sent) + multiset{DeviceName(NameBytes(c.buffer[..DEVICE_NAME_LENGTH]))};
    r
  }

  /** A socket identified as `kind`: its header of `n` bytes is consumed,
      it leaves the unidentified list and starts streaming. */
  function Identify(v: Variant, s: Session, id: SocketId, kind: Kind, n: nat, info: seq<Event>): (r: Session)
    requires Inv(s) && id in s.conns && n <= |s.conns[id].buffer| && kind != Untyped
    requires StreamingStarted !in info
    ensures Grows(s, r)
    ensures Inv(r) && id in r.conns
  {
    Deduce(v, NotifyStarted(v, Assign(s, id, kind, n, info)))
  }

  function Assign(s: Session, id: SocketId, kind: Kind, n: nat, info: seq<Event>): (r: Session)
    requires Inv(s) && id in s.conns && n <= |s.conns[id].buffer| && kind != Untyped
    requires StreamingStarted !in info
    ensures Grows(s, r)
    ensures Inv(r) && id in r.conns && id !in r.unidentified
    ensures r.conns[id] == s.conns[id].(kind := kind, buffer := s.conns[id].buffer[n..], phase := Streaming)
    ensures r.sent == s.sent + info
  {
    var c := s.conns[id];
    var r := s.(unidentified := Remove(s.unidentified, id), sent := s.sent + info,
      conns := s.conns[id := c.(kind := kind, buffer := c.buffer[n..], phase := Streaming)]);
    assert multiset(r.sent) == multiset(s.sent) + multiset(info);
    match kind
    case VideoSocket => r.(video := Some(id))
    case AudioSocket => r.(audio := Some(id))
    case ControlSocket => r.(control := Some(id))
  }

  /** Which stream, if any, this pass identifies the socket as. */
  function Identified(s: Session, id: SocketId): (k: Kind)
    requires id in s.conns
  {
    var c := s.conns[id];
    if s.video.None? && Video in s.expected && |c.buffer| >= VIDEO_METADATA_LENGTH
       && ReadU32(c.buffer, 0) == CODEC_H264 then VideoSocket
    else if s.audio.None? && Audio in s.expected && |c.buffer| >= AUDIO_METADATA_LENGTH
       && ReadU32(c.buffer, 0) == CODEC_AAC then AudioSocket
    else if s.control.None? && s.expected == [Control] && c.didHandleDeviceName then ControlSocket
    else Untyped
  }

  /** `_handleAwaitingMetadata` as written: when this pass identifies
      nothing, processing goes on while bytes are buffered, with the state
      unchanged. */
  function MetadataStepAsWritten(v: Variant, s: Session, id: SocketId): (r: (Session, bool))
    requires Inv(s) && id in s.conns
    ensures Grows(s, r.0)
    ensures Inv(r.0) && id in r.0.conns
  {
    var c := s.conns[id];
    match Identified(s, id)
    case VideoSocket =>
      (Identify(v, s, id, VideoSocket, VIDEO_METADATA_LENGTH,
         [VideoInfo(CODEC_H264, ReadU32(c.buffer, 4), ReadU32(c.buffer, 8))]), true)
    case AudioSocket =>
      (Identify(v, s, id, AudioSocket, AUDIO_METADATA_LENGTH, [AudioInfo(CODEC_AAC)]), true)
    case ControlSocket => (Identify(v, s, id, ControlSocket, 0, []), true)
    case Untyped =>
      var d := Deduce(v, s);
      if d.control.None? && Control in d.expected && (v == LegacyServer || id in d.unidentified)
      then (d, false)
      else (d, |d.conns[id].buffer| > 0)
  }

  /** `_handleAwaitingMetadata` as intended: a pass that identifies nothing
      waits for more data. */
  function MetadataStep(v: Variant, s: Session, id: SocketId): (r: (Session, bool))
    requires Inv(s) && id in s.conns
    ensures Grows(s, r.0)
    ensures Inv(r.0) && id in r.0.conns
    ensures Identified(s, id) == Untyped ==> !r.1
  {
    if Identified(s, id) == Untyped then (Deduce(v, s), false) else MetadataStepAsWritten(v, s, id)
  }

  // ---------------------------------------------------------------------
  // Packets

  /** What the 12-byte header at the front of a buffer announces. */
  datatype Framing =
    | Incomplete
    | Oversize(size: nat)
    | Packet(config: bool, payload: seq<byte>, rest: seq<byte>)

  /** The config flag is the top bit of the first header byte. */
  predicate ConfigFlag(header: byte) { header >= 128 }

  /** The packet at the front of `buffer`: the big-endian size at offset 8;
      a size above 10 MiB is refused; a packet is taken only once all of
      it is buffered. */
  function NextPacket(buffer: seq<byte>): (r: Framing)
    ensures r.Incomplete? <==>
      (|buffer| < PACKET_HEADER_LENGTH
       || (ReadU32(buffer, 8) <= MAX_PACKET_SIZE && |buffer| < PACKET_HEADER_LENGTH + ReadU32(buffer, 8)))
    ensures r.Oversize? <==> |buffer| >= PACKET_HEADER_LENGTH && ReadU32(buffer, 8) > MAX_PACKET_SIZE
    ensures r.Packet? ==>
      |r.payload| == ReadU32(buffer, 8) <= MAX_PACKET_SIZE
      && buffer == buffer[..PACKET_HEADER_LENGTH] + r.payload + r.rest
      && r.config == ConfigFlag(buffer[0])
      && r.rest == buffer[PACKET_HEADER_LENGTH + |r.payload|..]
  {
    if |buffer| < PACKET_HEADER_LENGTH then Incomplete
    else
      var size := ReadU32(buffer, 8);
      if size > MAX_PACKET_SIZE then Oversize(size)
      else if |buffer| < PACKET_HEADER_LENGTH + size then Incomplete
      else
        assert buffer == buffer[..PACKET_HEADER_LENGTH] + buffer[PACKET_HEADER_LENGTH..PACKET_HEADER_LENGTH + size]
          + buffer[PACKET_HEADER_LENGTH + size..];
        Packet(ConfigFlag(buffer[0]), buffer[PACKET_HEADER_LENGTH..PACKET_HEADER_LENGTH + size],
          buffer[PACKET_HEADER_LENGTH + size..])
  }

  /** The header the device writes: the PTS field with the config flag in
      bit 63 and the key-frame flag in bit 62, then the payload size. */
  function PacketHeader(config: bool, keyFrame: bool, pts: nat, size: nat): (h: seq<byte>)
    requires pts < 0x4000_0000_0000_0000 && size < TWO_32
    ensures |h| == PACKET_HEADER_LENGTH
  {
    BELength(pts % 0x100_0000_0000_0000, 7);
    BELength(size, 4);
    [((if config then 128 else 0) + (if keyFrame then 64 else 0) + pts / 0x100_0000_0000_0000) as byte]
      + BE(pts % 0x100_0000_0000_0000, 7) + BE(size, 4)
  }

  /** A framed packet is read back whole, with its flag, whatever follows. */
  lemma PacketRoundTrip(config: bool, keyFrame: bool, pts: nat, payload: seq<byte>, rest: seq<byte>)
    requires pts < 0x4000_0000_0000_0000 && |payload| <= MAX_PACKET_SIZE
    ensures NextPacket(PacketHeader(config, keyFrame, pts, |payload|) + payload + rest)
      == Packet(config, payload, rest)
  {
    var h := PacketHeader(config, keyFrame, pts, |payload|);
    var buffer := h + payload + rest;
    Pow256Values();
    BEExact(|payload|, 4);
    assert buffer[8..12] == BE(|payload|, 4);
    assert buffer[PACKET_HEADER_LENGTH..PACKET_HEADER_LENGTH + |payload|] == payload;
    assert buffer[PACKET_HEADER_LENGTH + |payload|..] == rest;
  }

  /** A buffer that does not yet hold a whole packet is left alone, and one
      that holds a packet and more keeps the more for the next packet. */
  lemma PacketPrefix(buffer: seq<byte>, more: seq<byte>)
    requires NextPacket(buffer).Packet?
    ensures NextPacket(buffer + more) ==
      Packet(NextPacket(buffer).config, NextPacket(buffer).payload, NextPacket(buffer).rest + more)
  {
    assert (buffer + more)[..PACKET_HEADER_LENGTH] == buffer[..PACKET_HEADER_LENGTH];
    assert (buffer + more)[8..12] == buffer[8..12];
    var size := ReadU32(buffer, 8);
    assert (buffer + more)[PACKET_HEADER_LENGTH..PACKET_HEADER_LENGTH + size]
      == buffer[PACKET_HEADER_LENGTH..PACKET_HEADER_LENGTH + size];
    assert (buffer + more)[PACKET_HEADER_LENGTH + size..] == buffer[PACKET_HEADER_LENGTH + size..] + more;
  }

  /** An oversize header destroys the socket and marks its state unknown. */
  function Refuse(s: Session, id: SocketId): (r: Session)
    requires Inv(s) && id in s.conns
    ensures Grows(s, r)
    ensures Inv(r) && r.conns.Keys == s.conns.Keys && !Live(r, id)
  {
    SetConn(s, id, s.conns[id].(phase := Unknown, destroyed := true))
  }

  /** A failed AudioSpecificConfig destroys the socket and keeps its bytes. */
  function Destroy(s: Session, id: SocketId): (r: Session)
    requires Inv(s) && id in s.conns
    ensures Grows(s, r)
    ensures Inv(r) && r.conns.Keys == s.conns.Keys && !Live(r, id)
  {
    SetConn(s, id, s.conns[id].(destroyed := true))
  }

  /** Drop a packet of `n` bytes from the front of the socket's buffer. */
  function Consume(s: Session, id: SocketId, n: nat): (r: Session)
    requires Inv(s) && id in s.conns && n <= |s.conns[id].buffer|
    ensures Grows(s, r)
    ensures Inv(r) && r.conns.Keys == s.conns.Keys
    ensures r.conns[id] == s.conns[id].(buffer := s.conns[id].buffer[n..])
  {
    SetConn(s, id, s.conns[id].(buffer := s.conns[id].buffer[n..]))
  }

  /** A config packet's SPS may change the stream's resolution; the browser
      is told only when it does. */
  function Resolution(s: Session, payload: seq<byte>): (r: Session)
    ensures Grows(s, r)
    ensures r.conns == s.conns && r.audioMetadata == s.audioMetadata && r.unidentified == s.unidentified
    ensures s.sent <= r.sent
  {
    match Sps.ParseSps(payload)
    case Some(size) =>
      if s.width != size.width || s.height != size.height then
        var r := s.(width := size.width, height := size.height,
           sent := s.sent + [ResolutionChange(size.width, size.height)]);
        assert multiset(r.sent) == multiset(s.sent) + multiset{ResolutionChange(size.width, size.height)};
        r
      else s
    case None => s
  }

  /** `_processVideoStreamPacket`: every whole packet is sent on as a binary
      message `[0] + payload`. */
  function VideoStep(v: Variant, s: Session, id: SocketId): (r: (Session, bool))
    requires Inv(s) && id in s.conns
    ensures Grows(s, r.0)
    ensures Inv(r.0) && id in r.0.conns
    ensures NextPacket(s.conns[id].buffer).Incomplete? ==> r == (s, false)
    ensures NextPacket(s.conns[id].buffer).Oversize? ==> !r.1 && !Live(r.0, id)
    ensures NextPacket(s.conns[id].buffer).Packet? ==>
      (r.1 && r.0.conns[id] == s.conns[id].(buffer := NextPacket(s.conns[id].buffer).rest)
       && s.sent < r.0.sent
       && r.0.sent[|r.0.sent| - 1] == Binary([BINARY_VIDEO] + NextPacket(s.conns[id].buffer).payload))
  {
    match NextPacket(s.conns[id].buffer)
    case Incomplete => (s, false)
    case Oversize(_) => (Refuse(s, id), false)
    case Packet(config, payload, _) => (VideoPacket(v, s, id, config, payload), true)
  }

  /** A whole video packet at the front of the socket's buffer. */
  function VideoPacket(v: Variant, s: Session, id: SocketId, config: bool, payload: seq<byte>): (r: Session)
    requires Inv(s) && id in s.conns && PACKET_HEADER_LENGTH + |payload| <= |s.conns[id].buffer|
    ensures Grows(s, r)
    ensures Inv(r) && id in r.conns
    ensures r.conns[id] == s.conns[id].(buffer := s.conns[id].buffer[PACKET_HEADER_LENGTH + |payload|..])
    ensures s.sent < r.sent && r.sent[|r.sent| - 1] == Binary([BINARY_VIDEO] + payload)
    ensures !(v == SessionModule && config) ==> r.sent == s.sent + [Binary([BINARY_VIDEO] + payload)]
  {
    var sent := ShowFrame(v, s, config, payload);
    var r := Consume(sent, id, PACKET_HEADER_LENGTH + |payload|);
    GrowsTrans(s, sent, r);
    r
  }

  /** The frame is sent, after any change of resolution its SPS shows. */
  function ShowFrame(v: Variant, s: Session, config: bool, payload: seq<byte>): (r: Session)
    requires Inv(s)
    ensures Grows(s, r) && Inv(r) && r.conns == s.conns
    ensures s.sent < r.sent && r.sent[|r.sent| - 1] == Binary([BINARY_VIDEO] + payload)
    ensures !(v == SessionModule && config) ==> r.sent == s.sent + [Binary([BINARY_VIDEO] + payload)]
  {
    var seen := if v == SessionModule && config then Resolution(s, payload) else s;
    var r := Send(seen, Binary([BINARY_VIDEO] + payload));
    GrowsTrans(s, seen, r);
    r
  }

  /** One message other than "Streaming started" is sent. */
  function Send(s: Session, e: Event): (r: Session)
    requires Inv(s) && e != StreamingStarted
    ensures Grows(s, r) && Inv(r)
    ensures r == s.(sent := s.sent + [e])
  {
    var r := s.(sent := s.sent + [e]);
    assert multiset(r.sent) == multiset(s.sent) + multiset{e};
    r
  }

  /** `_processAudioStreamPacket`: the first config packet is parsed as the
      AudioSpecificConfig (a parse failure destroys the socket); every other
      packet, once the configuration is known, is sent as
      `[1] + ADTS header + payload`; anything else is dropped. */
  function AudioStep(s: Session, id: SocketId): (r: (Session, bool))
    requires Inv(s) && id in s.conns
    ensures Grows(s, r.0)
    ensures Inv(r.0) && id in r.0.conns
    ensures NextPacket(s.conns[id].buffer).Incomplete? ==> r == (s, false)
    ensures NextPacket(s.conns[id].buffer).Oversize? ==> !r.1 && !Live(r.0, id)
    ensures NextPacket(s.conns[id].buffer).Packet? && r.1 ==>
      r.0.conns[id] == s.conns[id].(buffer := NextPacket(s.conns[id].buffer).rest)
    ensures NextPacket(s.conns[id].buffer).Packet? && !r.1 ==> !Live(r.0, id)
  {
    match NextPacket(s.conns[id].buffer)
    case Incomplete => (s, false)
    case Oversize(_) => (Refuse(s, id), false)
    case Packet(config, payload, _) => AudioPacket(s, id, config, payload)
  }

  /** A whole audio packet at the front of the socket's buffer. */
  function AudioPacket(s: Session, id: SocketId, config: bool, payload: seq<byte>): (r: (Session, bool))
    requires Inv(s) && id in s.conns && PACKET_HEADER_LENGTH + |payload| <= |s.conns[id].buffer|
    ensures Grows(s, r.0)
    ensures Inv(r.0) && id in r.0.conns
    ensures r.1 ==>
      r.0.conns[id] == s.conns[id].(buffer := s.conns[id].buffer[PACKET_HEADER_LENGTH + |payload|..])
    ensures !r.1 <==> config && s.audioMetadata.None? && Aac.ParseAsc(payload).Err?
    ensures !r.1 ==> !Live(r.0, id) && r.0.sent == s.sent
    ensures config && s.audioMetadata.None? && r.1 ==>
      r.0.audioMetadata == Some(Aac.ParseAsc(payload).value)
      && r.0.sent == s.sent + [AudioMetadata(Aac.ParseAsc(payload).value)]
    ensures !config && s.audioMetadata.Some? ==>
      (r.0.audioMetadata == s.audioMetadata
       && r.0.sent == s.sent + [Binary([BINARY_AUDIO] + (Aac.AdtsHeader(|payload|, s.audioMetadata.value) + payload))])
    ensures config == s.audioMetadata.Some? ==> r.0.sent == s.sent && r.0.audioMetadata == s.audioMetadata
  {
    var n := PACKET_HEADER_LENGTH + |payload|;
    if config && s.audioMetadata.None? then ConfigPacket(s, id, payload)
    else if !config && s.audioMetadata.Some? then (FramePacket(s, id, payload), true)
    else (Consume(s, id, n), true)
  }

  /** The first config packet: its AudioSpecificConfig becomes the
      session's audio metadata, or the socket is destroyed. */
  function ConfigPacket(s: Session, id: SocketId, payload: seq<byte>): (r: (Session, bool))
    requires Inv(s) && id in s.conns && PACKET_HEADER_LENGTH + |payload| <= |s.conns[id].buffer|
    ensures Grows(s, r.0)
    ensures Inv(r.0) && id in r.0.conns
    ensures r.1 <==> Aac.ParseAsc(payload).Ok?
    ensures !r.1 ==> !Live(r.0, id) && r.0.sent == s.sent
    ensures r.1 ==>
      r.0.conns[id] == s.conns[id].(buffer := s.conns[id].buffer[PACKET_HEADER_LENGTH + |payload|..])
      && r.0.audioMetadata == Some(Aac.ParseAsc(payload).value)
      && r.0.sent == s.sent + [AudioMetadata(Aac.ParseAsc(payload).value)]
  {
    match Aac.ParseAsc(payload)
    case Err(_) => (Destroy(s, id), false)
    case Ok(m) =>
      ParsedIndex(payload);
      (Consume(s.(audioMetadata := Some(m), sent := s.sent + [AudioMetadata(m)]), id, PACKET_HEADER_LENGTH + |payload|), true)
  }

  /** A media packet once the configuration is known: an ADTS header is
      put in front of the raw AAC frame. */
  function FramePacket(s: Session, id: SocketId, payload: seq<byte>): (r: Session)
    requires Inv(s) && id in s.conns && PACKET_HEADER_LENGTH + |payload| <= |s.conns[id].buffer|
    requires s.audioMetadata.Some?
    ensures Grows(s, r)
    ensures Inv(r) && id in r.conns && r.audioMetadata == s.audioMetadata
    ensures r.conns[id] == s.conns[id].(buffer := s.conns[id].buffer[PACKET_HEADER_LENGTH + |payload|..])
    ensures r.sent == s.sent + [Binary([BINARY_AUDIO] + (Aac.AdtsHeader(|payload|, s.audioMetadata.value) + payload))]
  {
    var frame := Aac.AdtsHeader(|payload|, s.audioMetadata.value) + payload;
    Consume(s.(sent := s.sent + [Binary([BINARY_AUDIO] + frame)]), id, PACKET_HEADER_LENGTH + |payload|)
  }

  lemma ParsedIndex(payload: seq<byte>)
    requires Aac.ParseAsc(payload).Ok?
    ensures Aac.ParseAsc(payload).value.sampleRateIndex < 16
  {
  }

  /** `_handleStreamingData`. */
  function StreamingStep(v: Variant, s: Session, id: SocketId): (r: (Session, bool))
    requires Inv(s) && id in s.conns
    ensures Grows(s, r.0)
    ensures Inv(r.0) && id in r.0.conns
  {
    match s.conns[id].kind
    case Untyped => (SetConn(s, id, s.conns[id].(phase := AwaitingMetadata)), true)
    case VideoSocket => VideoStep(v, s, id)
    case AudioSocket => AudioStep(s, id)
    case ControlSocket => (Forward(s, id), false)
  }

  // ---------------------------------------------------------------------
  // processSingleSocket

  /** One pass of the `switch` in `processSingleSocket`, with the metadata
      handler as intended. */
  function Step(v: Variant, s: Session, id: SocketId): (r: (Session, bool))
    requires Inv(s) && id in s.conns
    ensures Grows(s, r.0)
    ensures Inv(r.0) && id in r.0.conns
  {
    match s.conns[id].phase
    case AwaitingInitialData => InitialStep(v, s, id)
    case AwaitingMetadata => MetadataStep(v, s, id)
    case Streaming => StreamingStep(v, s, id)
    case Unknown => (s, false)
  }

  /** Whether the loop of `processSingleSocket` runs another pass. */
  predicate Live(s: Session, id: SocketId)
    requires id in s.conns
  {
    !s.conns[id].destroyed && s.conns[id].phase != Unknown
  }

  /** What bounds the passes: the pending bytes, then how far the socket is
      from streaming. */
  function Measure(s: Session, id: SocketId): nat
    requires id in s.conns
  {
    var c := s.conns[id];
    3 * |c.buffer| + match c.phase
      case AwaitingInitialData => 2
      case AwaitingMetadata => 1
      case _ => 0
  }

  /** Each pass that asks for another one brings the socket closer to
      having consumed its bytes. */
  lemma StepDecreases(v: Variant, s: Session, id: SocketId)
    requires Inv(s) && id in s.conns && Live(s, id)
    ensures Step(v, s, id).1 ==> Live(Step(v, s, id).0, id) && Measure(Step(v, s, id).0, id) < Measure(s, id)
  {
    var c := s.conns[id];
    match c.phase
    case AwaitingInitialData =>
      InitialDecreases(v, s, id);
    case AwaitingMetadata =>
      MetadataDecreases(v, s, id);
    case Streaming =>
      StreamingDecreases(v, s, id);
    case Unknown =>
  }

  lemma StreamingDecreases(v: Variant, s: Session, id: SocketId)
    requires Inv(s) && id in s.conns && Live(s, id) && s.conns[id].phase == Streaming
    ensures StreamingStep(v, s, id).1 ==>
      Live(StreamingStep(v, s, id).0, id) && Measure(StreamingStep(v, s, id).0, id) < Measure(s, id)
  {
    var buf := s.conns[id].buffer;
    if NextPacket(buf).Packet? {
      assert |NextPacket(buf).rest| < |buf|;
    }
  }

  lemma InitialDecreases(v: Variant, s: Session, id: SocketId)
    requires Inv(s) && id in s.conns && Live(s, id) && s.conns[id].phase == AwaitingInitialData
    ensures InitialStep(v, s, id).1 ==>
      Live(InitialStep(v, s, id).0, id) && Measure(InitialStep(v, s, id).0, id) < Measure(s, id)
  {
    if !s.deviceNameReceived && |s.conns[id].buffer| >= DEVICE_NAME_LENGTH {
      NamedDecreases(v, s, id);
    }
  }

  lemma NamedDecreases(v: Variant, s: Session, id: SocketId)
    requires Inv(s) && id in s.conns && Live(s, id) && s.conns[id].phase == AwaitingInitialData
    requires |s.conns[id].buffer| >= DEVICE_NAME_LENGTH
    ensures Live(Deduce(v, Name(s, id)), id) && Measure(Deduce(v, Name(s, id)), id) < Measure(s, id)
  {
    var named := Name(s, id);
    assert Settled(named, Deduce(v, named));
  }

  lemma MetadataDecreases(v: Variant, s: Session, id: SocketId)
    requires Inv(s) && id in s.conns && Live(s, id) && s.conns[id].phase == AwaitingMetadata
    ensures MetadataStep(v, s, id).1 ==>
      Live(MetadataStep(v, s, id).0, id) && Measure(MetadataStep(v, s, id).0, id) < Measure(s, id)
  {
    var c := s.conns[id];
    match Identified(s, id)
    case VideoSocket => IdentifyDecreases(v, s, id, VideoSocket, VIDEO_METADATA_LENGTH,
      [VideoInfo(CODEC_H264, ReadU32(c.buffer, 4), ReadU32(c.buffer, 8))]);
    case AudioSocket => IdentifyDecreases(v, s, id, AudioSocket, AUDIO_METADATA_LENGTH, [AudioInfo(CODEC_AAC)]);
    case ControlSocket => IdentifyDecreases(v, s, id, ControlSocket, 0, []);
    case Untyped =>
  }

  lemma IdentifyDecreases(v: Variant, s: Session, id: SocketId, kind: Kind, n: nat, info: seq<Event>)
    requires Inv(s) && id in s.conns && n <= |s.conns[id].buffer| && kind != Untyped
    requires StreamingStarted !in info
    requires Live(s, id) && s.conns[id].phase == AwaitingMetadata
    ensures Live(Identify(v, s, id, kind, n, info), id)
    ensures Measure(Identify(v, s, id, kind, n, info), id) < Measure(s, id)
  {
    var a := Assign(s, id, kind, n, info);
    var b := NotifyStarted(v, a);
    assert Settled(b, Deduce(v, b));
  }

  /** `processSingleSocket(socket)`: passes run while the last one asked for
      more and the socket is neither destroyed nor in the unknown state. */
  function Process(v: Variant, s: Session, id: SocketId): (r: Session)
    requires Inv(s) && id in s.conns
    ensures Grows(s, r)
    ensures Inv(r) && id in r.conns
    decreases Measure(s, id)
  {
    if !Live(s, id) then s
    else
      var next := Step(v, s, id);
      StepDecreases(v, s, id);
      if next.1 then Process(v, next.0, id) else next.0
  }

  lemma ProcessUnfold(v: Variant, s: Session, id: SocketId)
    requires Inv(s) && id in s.conns && Live(s, id)
    ensures Step(v, s, id).1 ==> Inv(Step(v, s, id).0) && id in Step(v, s, id).0.conns
    ensures Step(v, s, id).1 ==> Measure(Step(v, s, id).0, id) < Measure(s, id)
    ensures Step(v, s, id).1 ==> Process(v, s, id) == Process(v, Step(v, s, id).0, id)
    ensures !Step(v, s, id).1 ==> Process(v, s, id) == Step(v, s, id).0
  {
    StepDecreases(v, s, id);
  }

  /** The count of "Streaming started" messages agrees with the flag. */
  ghost predicate Notified(s: Session)
  {
    Starts(s.sent) == if s.streamingStartedNotified then 1 else 0
  }

  /** However the bytes arrive, "Streaming started" is sent at most once,
      and only in a pass that finds every expected socket identified. */
  lemma StartedOnce(v: Variant, s: Session, id: SocketId)
    requires Inv(s) && id in s.conns && Notified(s)
    ensures Notified(Process(v, s, id)) && Starts(Process(v, s, id).sent) <= 1
    ensures s.sent <= Process(v, s, id).sent
  {
  }

  /** The loop of `processSingleSocket`. */
  method ProcessSingleSocket(v: Variant, s: Session, id: SocketId) returns (r: Session)
    requires Inv(s) && id in s.conns
    ensures r == Process(v, s, id)
  {
    r := s;
    var keepProcessing := true;
    while keepProcessing && Live(r, id)
      invariant Inv(r) && id in r.conns
      invariant keepProcessing ==> Process(v, r, id) == Process(v, s, id)
      invariant !keepProcessing ==> r == Process(v, s, id)
      decreases if keepProcessing then Measure(r, id) + 1 else 0
    {
      var next := Step(v, r, id);
      ProcessUnfold(v, r, id);
      r, keepProcessing := next.0, next.1;
    }
  }

  // ---------------------------------------------------------------------
  // The metadata loop as written

  /** One pass with the metadata handler as written. */
  function StepAsWritten(v: Variant, s: Session, id: SocketId): (r: (Session, bool))
    requires Inv(s) && id in s.conns
  {
    if s.conns[id].phase == AwaitingMetadata then MetadataStepAsWritten(v, s, id) else Step(v, s, id)
  }

  /** As written, a socket awaiting metadata that this pass cannot identify,
      in a session that does not expect a control socket, is passed over
      again and again: the pass changes nothing and asks for another. */
  lemma AsWrittenRepeats(v: Variant, s: Session, id: SocketId)
    requires Inv(s) && id in s.conns && Live(s, id) && s.conns[id].phase == AwaitingMetadata
    requires Identified(s, id) == Untyped && Control !in s.expected && |s.conns[id].buffer| > 0
    requires !s.controlOption
    ensures StepAsWritten(v, s, id) == (s, true)
  {
  }

  /** A video-only session whose socket has received the first byte of the
      12-byte codec header. */
  function PartialVideoHeader(): (s: Session)
    ensures Inv(s) && 0 in s.conns
  {
    var named := NewSession([Video], false, false).(deviceNameReceived := true, socketsConnected := 1,
      unidentified := [0], conns := map[0 := Conn(AwaitingMetadata, Untyped, true, false, [0x68])]);
    named
  }

  /** On that session the loop as written never ends, in both copies,
      while the intended loop stops after one pass and keeps the byte. */
  lemma PartialHeaderSpins(v: Variant)
    ensures StepAsWritten(v, PartialVideoHeader(), 0) == (PartialVideoHeader(), true)
    ensures Live(PartialVideoHeader(), 0)
    ensures Process(v, PartialVideoHeader(), 0) == PartialVideoHeader()
  {
    var s := PartialVideoHeader();
    assert Identified(s, 0) == Untyped;
    AsWrittenRepeats(v, s, 0);
  }
}
