/** The start of a streaming session on the server: the option object
    handed to the device server (built key by key, in JavaScript insertion
    order), the argument list the device server is started with, the
    session id and the TCP port. The monolithic server and the session
    module each have their own rules for the options; the random bytes of
    the session id are a parameter. */
module SessionOptions {
  import opened Wrappers
  import opened Bytes
  import opened Text
  import Demux

  // ---------------------------------------------------------------------
  // Option objects

  /** The option names the servers set. */
  datatype Key =
    | LogLevel | VideoCodec | AudioCodec | MaxSize | MaxFps | VideoBitRate
    | AudioOn | VideoOn | ControlOn | PowerOn | PowerOffOnClose
    | DisplayId | NewDisplay | CaptureOrientation

  /** The name the device server knows the option by. */
  function KeyName(k: Key): string
  {
    match k
    case LogLevel => "log_level"
    case VideoCodec => "video_codec"
    case AudioCodec => "audio_codec"
    case MaxSize => "max_size"
    case MaxFps => "max_fps"
    case VideoBitRate => "video_bit_rate"
    case AudioOn => "audio"
    case VideoOn => "video"
    case ControlOn => "control"
    case PowerOn => "power_on"
    case PowerOffOnClose => "power_off_on_close"
    case DisplayId => "display_id"
    case NewDisplay => "new_display"
    case CaptureOrientation => "capture_orientation"
  }

  /** An option value. Every value the servers store is a string; a value
      is kept here in the form it was made from (`String(n)` of a number,
      `String(b)` of a boolean, or a text) and rendered when it reaches the
      command line. */
  datatype Value = Text(s: string) | Number(n: nat) | Flag(b: bool)

  /** `String(b)` of a boolean. */
  function BoolText(b: bool): (t: string)
    ensures t == "true" <==> b
  {
    if b then "true" else "false"
  }

  /** The string the value is. */
  function Render(v: Value): string
  {
    match v
    case Text(s) => s
    case Number(n) => NatToString(n)
    case Flag(b) => BoolText(b)
  }

  /** Whether the string is truthy (non-empty): a number or a boolean
      rendered as a string never is empty. */
  predicate Truthy(v: Value)
  {
    match v
    case Text(s) => s != ""
    case Number(_) => true
    case Flag(_) => true
  }

  /** A JavaScript object holding options: the keys in insertion order and
      the value of each key, `None` for `undefined`. The servers assign
      each key once, so an assignment appends its key to the order. */
  datatype Options = Options(
    keys: seq<Key>,
    logLevel: Option<Value>, videoCodec: Option<Value>, audioCodec: Option<Value>,
    maxSize: Option<Value>, maxFps: Option<Value>, videoBitRate: Option<Value>,
    audio: Option<Value>, video: Option<Value>, control: Option<Value>,
    powerOn: Option<Value>, powerOffOnClose: Option<Value>,
    displayId: Option<Value>, newDisplay: Option<Value>, captureOrientation: Option<Value>)

  /** `o[key]`. */
  function Get(o: Options, key: Key): Option<Value>
  {
    match key
    case LogLevel => o.logLevel
    case VideoCodec => o.videoCodec
    case AudioCodec => o.audioCodec
    case MaxSize => o.maxSize
    case MaxFps => o.maxFps
    case VideoBitRate => o.videoBitRate
    case AudioOn => o.audio
    case VideoOn => o.video
    case ControlOn => o.control
    case PowerOn => o.powerOn
    case PowerOffOnClose => o.powerOffOnClose
    case DisplayId => o.displayId
    case NewDisplay => o.newDisplay
    case CaptureOrientation => o.captureOrientation
  }

  predicate Distinct(ks: seq<Key>)
  {
    forall i, j | 0 <= i < j < |ks| :: ks[i] != ks[j]
  }

  /** Every key that has a value appears once in the order, and no other
      key appears. */
  predicate WellFormed(o: Options)
  {
    forall k :: multiset(o.keys)[k] == if Get(o, k).Some? then 1 else 0
  }

  /** A well-formed object lists each key once, exactly the keys with a
      value. */
  lemma WellFormedKeys(o: Options)
    requires WellFormed(o)
    ensures Distinct(o.keys)
    ensures forall k :: Get(o, k).Some? <==> k in o.keys
  {
    forall k
      ensures Get(o, k).Some? <==> k in o.keys
    {
      assert k in multiset(o.keys) <==> k in o.keys;
    }
    forall i, j | 0 <= i < j < |o.keys|
      ensures o.keys[i] != o.keys[j]
    {
      CountAt(o.keys, j);
      assert o.keys[..j][i] == o.keys[i];
    }
  }

  /** The count of the key at position `j` splits around that position. */
  lemma CountAt(ks: seq<Key>, j: nat)
    requires j < |ks|
    ensures multiset(ks)[ks[j]] == multiset(ks[..j])[ks[j]] + 1 + multiset(ks[j + 1..])[ks[j]]
  {
    assert ks == ks[..j] + [ks[j]] + ks[j + 1..];
  }

  /** The value of `key`, as a string, is `t`: `o[key] === t`. */
  predicate Is(o: Options, key: Key, t: string)
  {
    Get(o, key).Some? && Render(Get(o, key).value) == t
  }

  /** A boolean option reads `'true'` exactly when the boolean holds. */
  lemma FlagIs(o: Options, key: Key, b: bool)
    requires Get(o, key) == Some(Flag(b))
    ensures Is(o, key, "true") <==> b
    ensures Is(o, key, "false") <==> !b
  {
  }

  /** `BASE_SCRCPY_OPTIONS`: log level `debug` when the server logs at
      DEBUG, `info` otherwise, and the two codecs. */
  function Base(debug: bool): (o: Options)
    ensures o.keys == [LogLevel, VideoCodec, AudioCodec]
  {
    Options([LogLevel, VideoCodec, AudioCodec],
            Some(Text(if debug then "debug" else "info")), Some(Text("h264")), Some(Text("aac")),
            None, None, None, None, None, None, None, None, None, None, None)
  }

  /** `String(x)` for a `parseInt` result `x` when it is a number above 0
      (`None` plays NaN). */
  function Positive(x: Option<int>): (r: Option<Value>)
    ensures r.Some? <==> x.Some? && x.value > 0
    ensures r.Some? ==> r.value == Number(x.value)
  {
    if x.Some? && x.value > 0 then Some(Number(x.value)) else None
  }

  /** A rendered number reads back as the number `parseInt` gave. */
  lemma PositiveRoundTrip(x: Option<int>)
    requires Positive(x).Some?
    ensures ParseInt(Render(Positive(x).value)) == x
  {
    ParseIntOfNat(x.value);
  }

  /** `key=value` when the option is set: `if (o[key]) args.push(...)`. */
  function Arg(o: Options, key: Key): seq<string>
  {
    match Get(o, key)
    case Some(v) => if Truthy(v) then [KeyName(key) + "=" + Render(v)] else []
    case None => []
  }

  /** A template-literal rendering of a possibly missing value. */
  function OrUndefined(v: Option<Value>): string
  {
    if v.Some? then Render(v.value) else "undefined"
  }

  /** The streams whose option reads `'true'`, in the order the device
      connects them; an empty choice is the error `setupScrcpySession`
      throws. */
  function Streams(o: Options): Result<seq<Demux.Stream>>
  {
    Demux.ExpectedSockets(Is(o, VideoOn, "true"), Is(o, AudioOn, "true"), Is(o, ControlOn, "true"))
  }

  // ---------------------------------------------------------------------
  // Assignments both servers make

  /** The key `max_size` adds when it is set. */
  function SizeKeys(maxSize: Option<int>): seq<Key>
  {
    if Positive(maxSize).Some? then [MaxSize] else []
  }

  /** `if (!isNaN(x) && x > 0) o.max_size = String(x)`. */
  method SizeOption(o0: Options, maxSize: Option<int>) returns (o: Options)
    ensures o == o0.(maxSize := Positive(maxSize), keys := o0.keys + SizeKeys(maxSize))
  {
    var size := Positive(maxSize);
    o := o0.(maxSize := size, keys := o0.keys + (if size.Some? then [MaxSize] else []));
  }

  /** The keys `max_fps` and `video_bit_rate` add when they are set. */
  function RateKeys(maxFps: Option<int>, bitrate: Option<int>): seq<Key>
  {
    (if Positive(maxFps).Some? then [MaxFps] else [])
    + (if Positive(bitrate).Some? then [VideoBitRate] else [])
  }

  /** A frame rate and a bit rate are set when they parse above 0. */
  method RateOptions(o0: Options, maxFps: Option<int>, bitrate: Option<int>) returns (o: Options)
    ensures o == o0.(maxFps := Positive(maxFps), videoBitRate := Positive(bitrate),
                     keys := o0.keys + RateKeys(maxFps, bitrate))
  {
    o := o0;
    var fps := Positive(maxFps);
    o := o.(maxFps := fps, keys := o.keys + (if fps.Some? then [MaxFps] else []));
    var rate := Positive(bitrate);
    o := o.(videoBitRate := rate, keys := o.keys + (if rate.Some? then [VideoBitRate] else []));
  }

  /** The keys of the three stream switches, always set. */
  const SwitchKeys: seq<Key> := [AudioOn] + [VideoOn] + [ControlOn]

  /** `o.audio = String(audio); o.video = String(video); o.control =
      String(control)`. */
  method SwitchOptions(o0: Options, audio: bool, video: bool, control: bool) returns (o: Options)
    ensures o == o0.(audio := Some(Flag(audio)), video := Some(Flag(video)), control := Some(Flag(control)),
                     keys := o0.keys + SwitchKeys)
  {
    o := o0.(audio := Some(Flag(audio)), keys := o0.keys + [AudioOn]);
    o := o.(video := Some(Flag(video)), keys := o.keys + [VideoOn]);
    o := o.(control := Some(Flag(control)), keys := o.keys + [ControlOn]);
  }

  // ---------------------------------------------------------------------
  // The monolithic server

  /** The fields of a start request the monolithic server reads: the
      `parseInt` results of the numeric fields, `enableAudio ||
      false`, `video === false || video === 'false'` and `enableControl ||
      false`. */
  datatype LegacyStart = LegacyStart(maxSize: Option<int>, maxFps: Option<int>, bitrate: Option<int>,
                                     enableAudio: bool, videoOff: bool, enableControl: bool)

  /** The keys of the monolithic server's options, in the order it sets
      them. */
  function LegacyKeys(m: LegacyStart): seq<Key>
  {
    [LogLevel, VideoCodec, AudioCodec] + SizeKeys(m.maxSize) + RateKeys(m.maxFps, m.bitrate) + SwitchKeys
  }

  /** `runOptions` of the monolithic server: the base options, the numeric
      ones that parse to a number above 0, then audio, video and control;
      nothing else is set. */
  method LegacyRunOptions(debug: bool, m: LegacyStart) returns (o: Options)
    ensures o.keys == LegacyKeys(m)
    ensures o.maxSize == Positive(m.maxSize)
    ensures o.maxFps == Positive(m.maxFps)
    ensures o.videoBitRate == Positive(m.bitrate)
    ensures o.audio == Some(Flag(m.enableAudio))
    ensures o.video == Some(Flag(!m.videoOff))
    ensures o.control == Some(Flag(m.enableControl))
    ensures SameBase(o, Base(debug))
    ensures o.powerOn == o.powerOffOnClose == o.displayId == o.newDisplay == o.captureOrientation == None
  {
    o := Base(debug);
    o := SizeOption(o, m.maxSize);
    o := RateOptions(o, m.maxFps, m.bitrate);
    o := SwitchOptions(o, m.enableAudio, !m.videoOff, m.enableControl);
  }

  /** The base options are untouched. */
  predicate SameBase(o: Options, base: Options)
  {
    o.logLevel == base.logLevel && o.videoCodec == base.videoCodec && o.audioCodec == base.audioCodec
  }

  /** `SCRCPY_VERSION`. */
  const VERSION: string := "3.2"

  /** The codec arguments of the monolithic server: one per stream whose
      option reads `'true'`. */
  function CodecArgs(o: Options): seq<string>
  {
    (if Is(o, VideoOn, "true") then ["video_codec=" + OrUndefined(Get(o, VideoCodec))] else [])
    + (if Is(o, AudioOn, "true") then ["audio_codec=" + OrUndefined(Get(o, AudioCodec))] else [])
  }

  /** The switch-off arguments of the monolithic server: one per stream
      whose option reads `'false'`. */
  function OffArgs(o: Options): seq<string>
  {
    (if Is(o, VideoOn, "false") then ["video=false"] else [])
    + (if Is(o, AudioOn, "false") then ["audio=false"] else [])
    + (if Is(o, ControlOn, "false") then ["control=false"] else [])
  }

  /** The monolithic server's argument list: version, scid, log level, the
      codecs of the enabled streams, the set numeric options, and a
      `=false` switch per disabled stream. */
  method LegacyServerArgs(scid: string, o: Options) returns (args: seq<string>)
    ensures args == [VERSION, "scid=" + scid, "log_level=" + OrUndefined(Get(o, LogLevel))]
      + CodecArgs(o) + (Arg(o, MaxSize) + Arg(o, MaxFps) + Arg(o, VideoBitRate)) + OffArgs(o)
  {
    var head := [VERSION, "scid=" + scid, "log_level=" + OrUndefined(Get(o, LogLevel))];
    var codecs := (if Is(o, VideoOn, "true") then ["video_codec=" + OrUndefined(Get(o, VideoCodec))] else [])
      + (if Is(o, AudioOn, "true") then ["audio_codec=" + OrUndefined(Get(o, AudioCodec))] else []);
    var numbers := Arg(o, MaxSize) + Arg(o, MaxFps) + Arg(o, VideoBitRate);
    var off := (if Is(o, VideoOn, "false") then ["video=false"] else [])
      + (if Is(o, AudioOn, "false") then ["audio=false"] else [])
      + (if Is(o, ControlOn, "false") then ["control=false"] else []);
    args := head + codecs + numbers + off;
  }

  /** For the options of a start request each stream is either announced
      with its codec or switched off, never both; the device then connects
      exactly the announced streams, and a request with every stream off is
      refused. */
  lemma LegacyStreams(debug: bool, m: LegacyStart, o: Options)
    requires o.video == Some(Flag(!m.videoOff))
    requires o.audio == Some(Flag(m.enableAudio))
    requires o.control == Some(Flag(m.enableControl))
    requires SameBase(o, Base(debug))
    ensures CodecArgs(o) == (if !m.videoOff then ["video_codec=h264"] else [])
      + (if m.enableAudio then ["audio_codec=aac"] else [])
    ensures OffArgs(o) == (if m.videoOff then ["video=false"] else [])
      + (if !m.enableAudio then ["audio=false"] else [])
      + (if !m.enableControl then ["control=false"] else [])
    ensures Streams(o) == Demux.ExpectedSockets(!m.videoOff, m.enableAudio, m.enableControl)
    ensures Streams(o).Err? <==> m.videoOff && !m.enableAudio && !m.enableControl
  {
    FlagIs(o, VideoOn, !m.videoOff);
    FlagIs(o, AudioOn, m.enableAudio);
    FlagIs(o, ControlOn, m.enableControl);
    assert "video_codec=" + "h264" == "video_codec=h264";
    assert "audio_codec=" + "aac" == "audio_codec=aac";
  }

  /** The numeric arguments carry exactly the numbers that parsed above 0,
      each written as the number. */
  lemma LegacyNumbers(m: LegacyStart, o: Options)
    requires o.maxSize == Positive(m.maxSize)
    requires o.maxFps == Positive(m.maxFps)
    requires o.videoBitRate == Positive(m.bitrate)
    ensures Arg(o, MaxSize) == if Positive(m.maxSize).Some? then ["max_size=" + NatToString(m.maxSize.value)] else []
    ensures Arg(o, MaxFps) == if Positive(m.maxFps).Some? then ["max_fps=" + NatToString(m.maxFps.value)] else []
    ensures Arg(o, VideoBitRate) ==
      if Positive(m.bitrate).Some? then ["video_bit_rate=" + NatToString(m.bitrate.value)] else []
  {
    assert KeyName(MaxSize) + "=" == "max_size=";
    assert KeyName(MaxFps) + "=" == "max_fps=";
    assert KeyName(VideoBitRate) + "=" == "video_bit_rate=";
  }

  // ---------------------------------------------------------------------
  // The session module

  /** `displayMode` of a start request. */
  datatype DisplayMode = Overlay | NativeTaskbar | Dex | Virtual | OtherMode

  /** The mode a `displayMode` string names. */
  function ModeOf(s: string): (m: DisplayMode)
    ensures m == Overlay <==> s == "overlay"
    ensures m == NativeTaskbar <==> s == "native_taskbar"
    ensures m == Dex <==> s == "dex"
    ensures m == Virtual <==> s == "virtual"
  {
    if s == "overlay" then Overlay
    else if s == "native_taskbar" then NativeTaskbar
    else if s == "dex" then Dex
    else if s == "virtual" then Virtual
    else OtherMode
  }

  /** The fields of a start request the session module reads. The numeric
      fields are `parseInt` results; `overlayDisplayId` is `String` of the
      field when present; the texts are `""` when absent. */
  datatype StartMessage = StartMessage(
    maxFps: Option<int>, bitrate: Option<int>,
    enableAudio: bool, videoOff: bool, enableControl: bool,
    noPowerOn: bool, powerOffOnClose: bool,
    mode: DisplayMode, overlayDisplayId: Option<string>,
    resolution: string, dpi: string, rotationLock: string)

  /** A virtual display is created unless the resolution or the density is
      `reset`. */
  predicate WantsNewDisplay(msg: StartMessage)
  {
    msg.mode == Virtual && msg.resolution != "reset" && msg.dpi != "reset"
  }

  /** The display the device server mirrors: an overlay display by its id,
      display 0 for the native taskbar, display 2 for DeX, or a new virtual
      display `resolution/dpi`. */
  function DisplayOption(msg: StartMessage): Option<(Key, Value)>
  {
    match msg.mode
    case Overlay =>
      if msg.overlayDisplayId.Some? then Some((DisplayId, Text(msg.overlayDisplayId.value))) else None
    case NativeTaskbar => Some((DisplayId, Text("0")))
    case Dex => Some((DisplayId, Text("2")))
    case Virtual =>
      if WantsNewDisplay(msg) then Some((NewDisplay, Text(msg.resolution + "/" + msg.dpi))) else None
    case OtherMode => None
  }

  /** Whether the capture orientation is locked: not for the native taskbar
      or DeX, and only when a lock was asked for. */
  predicate LocksOrientation(msg: StartMessage)
  {
    msg.mode != NativeTaskbar && msg.mode != Dex && msg.rotationLock != ""
  }

  /** The keys the session module sets, in the order it sets them. */
  function StartKeys(msg: StartMessage): seq<Key>
  {
    [LogLevel, VideoCodec, AudioCodec] + RateKeys(msg.maxFps, msg.bitrate) + SwitchKeys
    + PowerKeys(msg) + DisplayKeys(msg)
  }

  function PowerKeys(msg: StartMessage): seq<Key>
  {
    (if msg.noPowerOn then [PowerOn] else [])
    + (if msg.powerOffOnClose then [PowerOffOnClose] else [])
  }

  function DisplayKeys(msg: StartMessage): seq<Key>
  {
    (if DisplayOption(msg).Some? then [DisplayOption(msg).value.0] else [])
    + (if LocksOrientation(msg) then [CaptureOrientation] else [])
  }

  /** The value the display option gives `key`, if it is that key. */
  function DisplaySlot(msg: StartMessage, key: Key): Option<Value>
  {
    var d := DisplayOption(msg);
    if d.Some? && d.value.0 == key then Some(d.value.1) else None
  }

  /** `runOptions` of the session module: audio is forced off below
      Android 11, and the display and orientation options follow the
      display mode; `max_size` is never set. */
  method StartOptions(debug: bool, msg: StartMessage, androidVersion: int) returns (o: Options)
    ensures o.keys == StartKeys(msg)
    ensures o.maxSize == None
    ensures o.maxFps == Positive(msg.maxFps)
    ensures o.videoBitRate == Positive(msg.bitrate)
    ensures o.audio == Some(Flag(androidVersion >= 11 && msg.enableAudio))
    ensures o.video == Some(Flag(!msg.videoOff))
    ensures o.control == Some(Flag(msg.enableControl))
    ensures o.powerOn == if msg.noPowerOn then Some(Flag(false)) else None
    ensures o.powerOffOnClose == if msg.powerOffOnClose then Some(Flag(true)) else None
    ensures o.displayId == DisplaySlot(msg, DisplayId)
    ensures o.newDisplay == DisplaySlot(msg, NewDisplay)
    ensures o.captureOrientation == if LocksOrientation(msg) then Some(Text(msg.rotationLock)) else None
    ensures SameBase(o, Base(debug))
  {
    o := Base(debug);
    o := RateOptions(o, msg.maxFps, msg.bitrate);
    var audio := if androidVersion < 11 then false else msg.enableAudio;
    o := SwitchOptions(o, audio, !msg.videoOff, msg.enableControl);
    o := PowerOptions(o, msg);
    o := DisplayOptions(o, msg);
  }

  /** `power_on` is set only to turn it off, `power_off_on_close` only to
      turn it on. */
  method PowerOptions(o0: Options, msg: StartMessage) returns (o: Options)
    ensures o == o0.(powerOn := if msg.noPowerOn then Some(Flag(false)) else None,
                     powerOffOnClose := if msg.powerOffOnClose then Some(Flag(true)) else None,
                     keys := o0.keys + PowerKeys(msg))
  {
    o := o0.(powerOn := if msg.noPowerOn then Some(Flag(false)) else None,
             keys := o0.keys + (if msg.noPowerOn then [PowerOn] else []));
    o := o.(powerOffOnClose := if msg.powerOffOnClose then Some(Flag(true)) else None,
            keys := o.keys + (if msg.powerOffOnClose then [PowerOffOnClose] else []));
  }

  /** The display and orientation options of `runOptions`, set on top of
      `o0`. */
  method DisplayOptions(o0: Options, msg: StartMessage) returns (o: Options)
    ensures o == o0.(displayId := DisplaySlot(msg, DisplayId), newDisplay := DisplaySlot(msg, NewDisplay),
                     captureOrientation := if LocksOrientation(msg) then Some(Text(msg.rotationLock)) else None,
                     keys := o0.keys + DisplayKeys(msg))
  {
    o := o0;
    var display := DisplayOption(msg);
    o := o.(displayId := DisplaySlot(msg, DisplayId), newDisplay := DisplaySlot(msg, NewDisplay),
            keys := o.keys + (if display.Some? then [display.value.0] else []));
    var locked := LocksOrientation(msg);
    o := o.(captureOrientation := if locked then Some(Text(msg.rotationLock)) else None,
            keys := o.keys + (if locked then [CaptureOrientation] else []));
  }

  /** The display options of a start request: an overlay with an id names
      that display, the native taskbar display 0 and DeX display 2; the
      virtual mode asks for a new display `resolution/dpi` unless either is
      `reset`; never both options. */
  lemma DisplayMapping(msg: StartMessage, o: Options)
    requires o.displayId == DisplaySlot(msg, DisplayId)
    requires o.newDisplay == DisplaySlot(msg, NewDisplay)
    ensures msg.mode == Overlay && msg.overlayDisplayId.Some? ==> Is(o, DisplayId, msg.overlayDisplayId.value)
    ensures msg.mode == NativeTaskbar ==> Is(o, DisplayId, "0")
    ensures msg.mode == Dex ==> Is(o, DisplayId, "2")
    ensures o.displayId.Some? <==>
      (msg.mode == Overlay && msg.overlayDisplayId.Some?) || msg.mode == NativeTaskbar || msg.mode == Dex
    ensures o.newDisplay.Some? <==> msg.mode == Virtual && msg.resolution != "reset" && msg.dpi != "reset"
    ensures o.newDisplay.Some? ==> Is(o, NewDisplay, msg.resolution + "/" + msg.dpi)
    ensures !(o.displayId.Some? && o.newDisplay.Some?)
  {
  }

  /** The display and orientation keys are in the order exactly when their
      options are set, and `max_size` never is. */
  lemma StartKeyPresence(msg: StartMessage)
    ensures CaptureOrientation in StartKeys(msg) <==> LocksOrientation(msg)
    ensures DisplayId in StartKeys(msg) <==> DisplaySlot(msg, DisplayId).Some?
    ensures NewDisplay in StartKeys(msg) <==> DisplaySlot(msg, NewDisplay).Some?
    ensures MaxSize !in StartKeys(msg)
  {
    var prefix := [LogLevel, VideoCodec, AudioCodec] + RateKeys(msg.maxFps, msg.bitrate) + SwitchKeys + PowerKeys(msg);
    PrefixKeys(msg);
    DisplayKeysPresence(msg);
    assert StartKeys(msg) == prefix + DisplayKeys(msg);
  }

  /** The keys before the display keys are none of them. */
  lemma PrefixKeys(msg: StartMessage)
    ensures forall k | k in [LogLevel, VideoCodec, AudioCodec] + RateKeys(msg.maxFps, msg.bitrate) + SwitchKeys + PowerKeys(msg) ::
      k != CaptureOrientation && k != DisplayId && k != NewDisplay && k != MaxSize
  {
  }

  lemma DisplayKeysPresence(msg: StartMessage)
    ensures CaptureOrientation in DisplayKeys(msg) <==> LocksOrientation(msg)
    ensures DisplayId in DisplayKeys(msg) <==> DisplaySlot(msg, DisplayId).Some?
    ensures NewDisplay in DisplayKeys(msg) <==> DisplaySlot(msg, NewDisplay).Some?
    ensures MaxSize !in DisplayKeys(msg)
  {
  }

  /** `key=value` for each of `keys` that has a value. */
  function Rendered(keys: seq<Key>, o: Options): (r: seq<string>)
    ensures |r| <= |keys|
  {
    if keys == [] then []
    else
      var k := keys[|keys| - 1];
      Rendered(keys[..|keys| - 1], o)
      + (if Get(o, k).Some? then [KeyName(k) + "=" + Render(Get(o, k).value)] else [])
  }

  /** When every key has a value, every key is rendered, in key order. */
  lemma {:induction false} RenderedAll(keys: seq<Key>, o: Options)
    requires forall k | k in keys :: Get(o, k).Some?
    ensures |Rendered(keys, o)| == |keys|
    ensures forall i :: 0 <= i < |keys| ==>
      Rendered(keys, o)[i] == KeyName(keys[i]) + "=" + Render(Get(o, keys[i]).value)
  {
    if keys != [] {
      var init, last := keys[..|keys| - 1], keys[|keys| - 1];
      assert forall k | k in init :: k in keys;
      RenderedAll(init, o);
      RenderedSnoc(keys, o, Rendered(init, o));
    }
  }

  /** The last key, which has a value, is rendered after the others. */
  lemma RenderedSnoc(keys: seq<Key>, o: Options, before: seq<string>)
    requires forall k | k in keys :: Get(o, k).Some?
    requires keys != []
    requires before == Rendered(keys[..|keys| - 1], o) && |before| == |keys| - 1
    requires forall i :: 0 <= i < |keys| - 1 ==>
      before[i] == KeyName(keys[..|keys| - 1][i]) + "=" + Render(Get(o, keys[..|keys| - 1][i]).value)
    ensures |Rendered(keys, o)| == |keys|
    ensures forall i :: 0 <= i < |keys| ==>
      Rendered(keys, o)[i] == KeyName(keys[i]) + "=" + Render(Get(o, keys[i]).value)
  {
    var last := keys[|keys| - 1];
    var r := Rendered(keys, o);
    assert r == before + [KeyName(last) + "=" + Render(Get(o, last).value)];
    forall i | 0 <= i < |keys|
      ensures r[i] == KeyName(keys[i]) + "=" + Render(Get(o, keys[i]).value)
    {
      if i < |keys| - 1 {
        assert r[i] == before[i];
        assert keys[..|keys| - 1][i] == keys[i];
      }
    }
  }

  /** The session module's argument list: version, scid, then every option
      with a value as `key=value`, in the order the keys were first set. */
  method ModularServerArgs(scid: string, o: Options) returns (args: seq<string>)
    ensures args == [VERSION, "scid=" + scid] + Rendered(o.keys, o)
  {
    args := [VERSION, "scid=" + scid];
    var i := 0;
    while i < |o.keys|
      invariant 0 <= i <= |o.keys|
      invariant args == [VERSION, "scid=" + scid] + Rendered(o.keys[..i], o)
    {
      assert o.keys[..i + 1][..i] == o.keys[..i];
      var k := o.keys[i];
      var v := Get(o, k);
      if v.Some? {
        args := args + [KeyName(k) + "=" + Render(v.value)];
      }
      i := i + 1;
    }
    assert o.keys[..i] == o.keys;
  }

  /** For a well-formed object the rendered options are one `key=value` per
      key in key order, so each option reaches the device server exactly
      once, at the position of its key. */
  lemma ModularArgsShape(o: Options)
    requires WellFormed(o)
    ensures |Rendered(o.keys, o)| == |o.keys|
    ensures forall i :: 0 <= i < |o.keys| ==>
      Rendered(o.keys, o)[i] == KeyName(o.keys[i]) + "=" + Render(Get(o, o.keys[i]).value)
    ensures Distinct(o.keys)
    ensures forall k :: Get(o, k).Some? <==> k in o.keys
  {
    WellFormedKeys(o);
    RenderedAll(o.keys, o);
  }

  /** Below Android 11 the session module never asks for audio, so no audio
      stream is expected; the status notice is sent exactly when audio was
      asked for and dropped. */
  lemma OldAndroidNoAudio(o: Options, msg: StartMessage, androidVersion: int)
    requires Get(o, AudioOn) == Some(Flag(androidVersion >= 11 && msg.enableAudio))
    ensures androidVersion < 11 ==> Is(o, AudioOn, "false")
    ensures Is(o, AudioOn, "true") <==> androidVersion >= 11 && msg.enableAudio
    ensures Streams(o).Ok? ==> (Demux.Audio in Streams(o).value <==> androidVersion >= 11 && msg.enableAudio)
  {
    FlagIs(o, AudioOn, androidVersion >= 11 && msg.enableAudio);
  }

  /** The streams the device connects for the session module's options:
      video unless switched off, audio only from Android 11, control when
      asked for. */
  lemma StartStreams(o: Options, msg: StartMessage, androidVersion: int)
    requires o.audio == Some(Flag(androidVersion >= 11 && msg.enableAudio))
    requires o.video == Some(Flag(!msg.videoOff))
    requires o.control == Some(Flag(msg.enableControl))
    ensures Streams(o) == Demux.ExpectedSockets(!msg.videoOff, androidVersion >= 11 && msg.enableAudio, msg.enableControl)
  {
    FlagIs(o, VideoOn, !msg.videoOff);
    FlagIs(o, AudioOn, androidVersion >= 11 && msg.enableAudio);
    FlagIs(o, ControlOn, msg.enableControl);
  }

  /** `androidVersion < 11 && audioEnabled`: whether the client is told
      audio was dropped. */
  function AudioNotice(msg: StartMessage, androidVersion: int): (r: Option<string>)
    ensures r.Some? <==> androidVersion < 11 && msg.enableAudio
  {
    if androidVersion < 11 && msg.enableAudio then Some("Audio disabled (Android < 11)") else None
  }

  // ---------------------------------------------------------------------
  // Session id and port

  function Pow16(n: nat): (p: nat)
    ensures p >= 1
  {
    if n == 0 then 1 else 16 * Pow16(n - 1)
  }

  predicate IsHexDigit(c: char)
  {
    '0' <= c <= '9' || 'a' <= c <= 'f'
  }

  function HexDigitValue(c: char): nat
    requires IsHexDigit(c)
  {
    if c <= '9' then c as int - '0' as int else c as int - 'a' as int + 10
  }

  /** The value of a string of lower-case hex digits. */
  function HexValue(s: string): nat
    requires forall i :: 0 <= i < |s| ==> IsHexDigit(s[i])
  {
    if s == [] then 0 else HexValue(s[..|s| - 1]) * 16 + HexDigitValue(s[|s| - 1])
  }

  /** `HexPad` writes lower-case hex digits whose value is the number. */
  lemma {:induction false} HexPadValue(v: nat, n: nat)
    requires v < Pow16(n)
    ensures forall i :: 0 <= i < n ==> IsHexDigit(HexPad(v, n)[i])
    ensures HexValue(HexPad(v, n)) == v
    decreases n
  {
    if n > 0 {
      var q, d := v / 16, v % 16;
      assert v == q * 16 + d;
      assert q < Pow16(n - 1);
      HexPadValue(q, n - 1);
      var s := HexPad(v, n);
      assert s[..|s| - 1] == HexPad(q, n - 1);
      assert HexDigitValue(HexDigit(d)) == d;
    }
  }

  /** A value below half of 16^n starts with a digit of at most 7. */
  lemma {:induction false} HexPadLead(v: nat, n: nat)
    requires n >= 1 && v < 8 * Pow16(n - 1)
    ensures '0' <= HexPad(v, n)[0] <= '7'
    decreases n
  {
    if n > 1 {
      assert v / 16 < 8 * Pow16(n - 2);
      HexPadLead(v / 16, n - 1);
    }
  }

  /** The session id: the 31 low bits of four random bytes, read big-endian,
      as eight lower-case hex digits. */
  function Scid(random: seq<byte>): (s: string)
    requires |random| == 4
    ensures |s| == 8
  {
    HexPad(BEValue(random) % 0x8000_0000, 8)
  }

  /** The session id is eight hex digits that read back as the random
      value's 31 low bits; its first digit is at most 7. */
  lemma ScidValue(random: seq<byte>)
    requires |random| == 4
    ensures forall i :: 0 <= i < 8 ==> IsHexDigit(Scid(random)[i])
    ensures HexValue(Scid(random)) == BEValue(random) % 0x8000_0000
    ensures Scid(random)[0] <= '7'
  {
    assert Pow16(8) == 0x1_0000_0000 && Pow16(7) == 0x1000_0000;
    HexPadValue(BEValue(random) % 0x8000_0000, 8);
    HexPadLead(BEValue(random) % 0x8000_0000, 8);
  }

  /** Two random values whose 31 low bits differ give different ids. */
  lemma ScidInjective(a: seq<byte>, b: seq<byte>)
    requires |a| == 4 && |b| == 4
    requires BEValue(a) % 0x8000_0000 != BEValue(b) % 0x8000_0000
    ensures Scid(a) != Scid(b)
  {
    ScidValue(a);
    ScidValue(b);
  }

  /** `SERVER_PORT_BASE`. */
  const PORT_BASE: nat := 27183

  /** The port of a new session when `count` sessions exist. */
  function Port(count: nat): (p: nat)
    ensures PORT_BASE <= p < PORT_BASE + 1000
  {
    PORT_BASE + count % 1000
  }

  /** Ports repeat only every thousand sessions. */
  lemma PortsDistinct(c1: nat, c2: nat)
    requires c1 < c2 < c1 + 1000
    ensures Port(c1) != Port(c2)
  {
  }
}
