/** The sidebar of the browser client (src-client/ui/sidebarControls.js):
    the settings a stream starts with, the ADB steps before a start in the
    overlay and native-taskbar modes, the stop with its ADB clean-up, the
    device list and selection, and which controls are enabled. The form's
    field values, the answers to the awaited ADB commands and the ids of
    new commands are parameters; labels and CSS classes are not part of
    this model. */
module Sidebar {
  import opened Wrappers
  import opened Text
  import opened ClientState
  import opened ClientMessages
  import opened StartRequests
  import AdbClient

  const RESET := "reset"
  const DEVICE_TYPE := "device"
  const OVERLAY := "overlay"
  const NATIVE_TASKBAR := "native_taskbar"
  const DEX := "dex"
  const BITRATE_UNIT := 1000000
  const NO_NEW_DISPLAY := "Overlay Mode: Could not find new display ID."
  const OVERLAY_NEEDS_SIZE := "Resolution and DPI must be set for Overlay mode."
  const SELECT_DEVICE := "Please select an ADB device."
  const START_NOT_CONNECTED := "WebSocket not connected. Cannot start."
  const NO_DEVICES := "No ADB devices found"
  const CHOOSE_DEVICE := "-- Select a device --"

  // ---------------------------------------------------------------------
  // `getStreamSettings`
  // ---------------------------------------------------------------------

  /** The values of the sidebar's inputs. */
  datatype Form = Form(
    maxFpsSelect: string,
    customBitrate: string,
    bitrateSelect: string,
    enableAudio: bool,
    enableControl: bool,
    noPowerOn: bool,
    turnScreenOff: bool,
    powerOffOnClose: bool,
    rotationLock: string,
    customResolution: string,
    resolutionSelect: string,
    customDpi: string,
    dpiSelect: string)

  /** `parseInt(v) || 0`. */
  function IntOrZero(v: string): int
  {
    match ParseInt(v) case Some(n) => n case None => 0
  }

  /** The bitrate in bits per second: a positive custom value in Mbps,
      otherwise the selected one; `None` is NaN (an unparsable selection). */
  function Bitrate(custom: string, selected: string): (r: Option<int>)
  {
    var c := ParseInt(Trim(custom));
    if c.Some? && c.value > 0 then Some(c.value * BITRATE_UNIT)
    else match ParseInt(selected)
      case Some(s) => Some(s * BITRATE_UNIT)
      case None => None
  }

  /** `custom.trim() || selected`. */
  function Override(custom: string, selected: string): string
  {
    if Trim(custom) != "" then Trim(custom) else selected
  }

  /** `getStreamSettings()` with display mode `mode`. */
  function StreamSettingsOf(f: Form, mode: string): StreamSettings
  {
    StreamSettings(IntOrZero(f.maxFpsSelect), Bitrate(f.customBitrate, f.bitrateSelect),
                   f.enableAudio, f.enableControl, true, f.noPowerOn, f.turnScreenOff,
                   f.powerOffOnClose, mode, f.rotationLock,
                   Override(f.customResolution, f.resolutionSelect), Override(f.customDpi, f.dpiSelect))
  }

  /** A positive custom bitrate wins over the selection and is scaled from
      Mbps; any bitrate is a whole number of Mbps. */
  lemma BitrateRules(custom: string, selected: string)
    ensures var c := ParseInt(Trim(custom));
      (c.Some? && c.value > 0 ==> Bitrate(custom, selected) == Some(c.value * BITRATE_UNIT))
      && (!(c.Some? && c.value > 0) ==>
            Bitrate(custom, selected) == (if ParseInt(selected).Some? then Some(ParseInt(selected).value * BITRATE_UNIT) else None))
      && (Bitrate(custom, selected).Some? ==> Bitrate(custom, selected).value % BITRATE_UNIT == 0)
  {
    var r := Bitrate(custom, selected);
    if r.Some? {
      var q := r.value / BITRATE_UNIT;
      var c := ParseInt(Trim(custom));
      if c.Some? && c.value > 0 {
        Bytes.DivModUnique(r.value, BITRATE_UNIT, c.value, 0);
      } else {
        Bytes.DivModUnique(r.value, BITRATE_UNIT, ParseInt(selected).value, 0);
      }
    }
  }

  /** A non-blank custom resolution or DPI wins over its selection,
      trimmed; the request always asks for video, in the current mode. */
  lemma StreamSettingsRules(f: Form, mode: string)
    ensures var s := StreamSettingsOf(f, mode);
      s.bitrate == Bitrate(f.customBitrate, f.bitrateSelect)
      && (Trim(f.customResolution) != "" ==> s.resolution == Trim(f.customResolution))
      && (Trim(f.customResolution) == "" ==> s.resolution == f.resolutionSelect)
      && (Trim(f.customDpi) != "" ==> s.dpi == Trim(f.customDpi))
      && (Trim(f.customDpi) == "" ==> s.dpi == f.dpiSelect)
      && s.video && s.displayMode == mode
  {
  }

  // ---------------------------------------------------------------------
  // Overlay mode: the id of the new display
  // ---------------------------------------------------------------------

  /** `updated.filter(id => !initial.includes(id))`. */
  function NewDisplayIds(initial: seq<nat>, updated: seq<nat>): (r: seq<nat>)
    ensures forall id :: id in r <==> id in updated && id !in initial
  {
    if updated == [] then []
    else (if updated[0] in initial then [] else [updated[0]]) + NewDisplayIds(initial, updated[1..])
  }

  /** The overlay's display: the first new id, or the error thrown when
      there is none. */
  function NewDisplayId(initial: seq<nat>, updated: seq<nat>): (r: Result<nat>)
  {
    var added := NewDisplayIds(initial, updated);
    if added == [] then Err(NO_NEW_DISPLAY) else Ok(added[0])
  }

  /** The id chosen is the first id of the updated list that the initial
      list lacks, in the updated list's order; there is an error exactly
      when every updated id was already listed. */
  lemma {:induction false} NewDisplayIdFirst(initial: seq<nat>, updated: seq<nat>)
    ensures NewDisplayId(initial, updated).Err? <==> forall id :: id in updated ==> id in initial
    ensures NewDisplayId(initial, updated).Ok? ==>
      var id := NewDisplayId(initial, updated).value;
      id !in initial &&
      exists i :: 0 <= i < |updated| && updated[i] == id && forall j :: 0 <= j < i ==> updated[j] in initial
  {
    var added := NewDisplayIds(initial, updated);
    if added == [] {
      assert forall id :: id in updated ==> id in added || id in initial;
    } else if updated[0] !in initial {
      assert added[0] == updated[0];
    } else {
      NewDisplayIdFirst(initial, updated[1..]);
      assert added == NewDisplayIds(initial, updated[1..]);
      var id := added[0];
      assert id in added;
      var i :| 0 <= i < |updated[1..]| && updated[1..][i] == id && forall j :: 0 <= j < i ==> updated[1..][j] in initial;
      assert updated[i + 1] == id;
      assert forall j :: 0 <= j < i + 1 ==> updated[j] in initial by {
        forall j | 0 <= j < i + 1 ensures updated[j] in initial {
          if j > 0 { assert updated[j] == updated[1..][j - 1]; }
        }
      }
    }
  }

  // ---------------------------------------------------------------------
  // Native-taskbar mode: the flipped size and the DPI clamp
  // ---------------------------------------------------------------------

  /** `Number(s)` for the texts a size field holds: blank is 0, a digit run
      is its value, and anything else is NaN (`None`). */
  function JsNumber(s: string): Option<nat>
  {
    var t := Trim(s);
    if t == "" then Some(0) else if AllDigits(t) then Some(DigitsValue(t)) else None
  }

  /** A number rendered in a template literal. */
  function NumberText(v: Option<nat>): string
  {
    match v case Some(n) => NatToString(n) case None => "NaN"
  }

  /** `originalHeight` after the flip: `null` when nothing was flipped. */
  datatype Height = NotFlipped | Height(value: Option<nat>)

  /** The flipped resolution and the original height: a non-`reset`
      resolution holding an `x` becomes `<height>x<width>` from its first
      two fields. */
  function Flip(resolution: string): (r: (string, Height))
    ensures r.1.NotFlipped? <==> resolution == RESET || 'x' !in resolution
    ensures r.1.NotFlipped? ==> r.0 == resolution
  {
    if resolution != RESET && 'x' in resolution then
      var parts := Split(resolution, 'x');
      assert |parts| >= 2;
      var w, h := JsNumber(parts[0]), JsNumber(parts[1]);
      (NumberText(h) + "x" + NumberText(w), Height(h))
    else (resolution, NotFlipped)
  }

  lemma TrimDigits(s: string)
    requires DigitRun(s)
    ensures Trim(s) == s
  {
    assert !IsSpace(s[0]) && !IsSpace(s[|s| - 1]);
  }

  lemma JsNumberOfNat(n: nat)
    ensures JsNumber(NatToString(n)) == Some(n)
  {
    TrimDigits(NatToString(n));
    DigitsOfNat(n);
  }

  lemma NoSeparatorInNumber(n: nat)
    ensures 'x' !in NatToString(n)
  {
    var d := NatToString(n);
    assert forall i :: 0 <= i < |d| ==> IsDigit(d[i]) && d[i] != 'x';
  }

  lemma FlipNumbers(a: nat, b: nat)
    ensures Flip(NatToString(a) + "x" + NatToString(b)) == (NatToString(b) + "x" + NatToString(a), Height(Some(b)))
  {
    var s := NatToString(a) + "x" + NatToString(b);
    NoSeparatorInNumber(a);
    NoSeparatorInNumber(b);
    assert s[|NatToString(a)|] == 'x';
    assert s != RESET by {
      assert IsDigit(s[0]);
    }
    SplitCons(NatToString(a), NatToString(b), 'x');
    assert Split(NatToString(b), 'x') == [NatToString(b)];
    JsNumberOfNat(a);
    JsNumberOfNat(b);
  }

  /** A `WxH` size flips to `HxW`, remembering H; flipping that gives the
      size back. */
  lemma FlipSwaps(w: nat, h: nat)
    ensures Flip(NatToString(w) + "x" + NatToString(h)) == (NatToString(h) + "x" + NatToString(w), Height(Some(h)))
    ensures Flip(Flip(NatToString(w) + "x" + NatToString(h)).0).0 == NatToString(w) + "x" + NatToString(h)
  {
    FlipNumbers(w, h);
    FlipNumbers(h, w);
  }

  /** `Math.round(h / 600 * 160)` for a whole height: h·160/600 is never
      half-way between two integers, so the rounding is exact. */
  function Magic(h: nat): nat
  {
    (8 * h + 15) / 30
  }

  /** The magic DPI is the integer nearest to h·160/600, the density at
      which the height is 600 density-independent pixels; 1080 gives 288. */
  lemma MagicNearest(h: nat)
    ensures -300 < 600 * Magic(h) - 160 * h <= 300
    ensures Magic(1080) == 288
  {
    var m := Magic(h);
    assert 30 * m <= 8 * h + 15 < 30 * m + 30;
  }

  /** The DPI after the clamp: a numeric DPI above the magic value of the
      original height is replaced by it. */
  function ClampDpi(dpi: string, originalHeight: Height): string
  {
    if originalHeight.NotFlipped? || dpi == RESET then dpi
    else match ParseInt(dpi)
      case None => dpi
      case Some(d) =>
        match originalHeight.value
        case None => dpi
        case Some(h) => if d > Magic(h) then NatToString(Magic(h)) else dpi
  }

  /** The clamp never raises a DPI: it leaves the text alone, or replaces a
      larger value by the magic one; `reset` and non-numbers are kept. */
  lemma ClampDpiRules(dpi: string, originalHeight: Height)
    ensures var r := ClampDpi(dpi, originalHeight);
      (dpi == RESET || ParseInt(dpi).None? || originalHeight.NotFlipped? ==> r == dpi)
      && (r != dpi ==>
            originalHeight.Height? && originalHeight.value.Some?
            && ParseInt(dpi).Some? && ParseInt(dpi).value > Magic(originalHeight.value.value)
            && ParseInt(r) == Some(Magic(originalHeight.value.value)))
  {
    if ClampDpi(dpi, originalHeight) != dpi {
      ParseIntOfNat(Magic(originalHeight.value.value));
    }
  }

  /** The ADB steps of a native-taskbar start: the size and the density to
      set, each only when it is not `reset`. */
  function WmRequests(resolution: string, dpi: string): (r: seq<AdbRequest>)
    ensures SetWmSize(resolution) in r <==> resolution != RESET
    ensures SetWmDensity(dpi) in r <==> dpi != RESET
    ensures |r| <= 2
  {
    (if resolution != RESET then [SetWmSize(resolution)] else [])
    + (if dpi != RESET then [SetWmDensity(dpi)] else [])
  }

  // ---------------------------------------------------------------------
  // `startStreaming`: the ADB steps before the `start` request
  // ---------------------------------------------------------------------

  /** The answers to the awaited ADB commands, in the order they are sent:
      a display list, the overlay setting, a second display list, the WM
      size and the WM density; `Err` is a rejected command. */
  datatype Answers = Answers(
    initialDisplays: Result<seq<nat>>,
    overlaySet: Result<bool>,
    updatedDisplays: Result<seq<nat>>,
    wmSize: Result<bool>,
    wmDensity: Result<bool>)

  /** The commands a start sends, in order, and the `start` request it
      ends with or the error that aborts it. */
  datatype Prestart = Prestart(requests: seq<AdbRequest>, outcome: Result<ClientMessage>)

  /** The overlay steps: the resolution and DPI must both be set; then the
      display list before and after the overlay gives the new display. */
  function OverlayPrestart(deviceId: string, s: StreamSettings, a: Answers): Prestart
  {
    if s.resolution == RESET || s.dpi == RESET then Prestart([], Err(OVERLAY_NEEDS_SIZE))
    else match a.initialDisplays
      case Err(e) => Prestart([GetDisplayList], Err(e))
      case Ok(initial) =>
        var sent := [GetDisplayList, SetOverlay(s.resolution, s.dpi)];
        match a.overlaySet
        case Err(e) => Prestart(sent, Err(e))
        case Ok(_) =>
          match a.updatedDisplays
          case Err(e) => Prestart(sent + [GetDisplayList], Err(e))
          case Ok(updated) =>
            match NewDisplayId(initial, updated)
            case Err(e) => Prestart(sent + [GetDisplayList], Err(e))
            case Ok(id) => Prestart(sent + [GetDisplayList], Ok(Start(deviceId, s, Some(id))))
  }

  /** The native-taskbar steps: the flipped size and clamped DPI are set
      (those that are not `reset`) and replace the settings' own. */
  function NativePrestart(deviceId: string, s: StreamSettings, a: Answers): Prestart
  {
    var (resolution, height) := Flip(s.resolution);
    var dpi := ClampDpi(s.dpi, height);
    var final := Start(deviceId, s.(resolution := resolution, dpi := dpi), None);
    if resolution != RESET && a.wmSize.Err? then Prestart([SetWmSize(resolution)], Err(a.wmSize.msg))
    else if dpi != RESET && a.wmDensity.Err? then Prestart(WmRequests(resolution, dpi), Err(a.wmDensity.msg))
    else Prestart(WmRequests(resolution, dpi), Ok(final))
  }

  /** The steps for the current display mode; other modes send nothing. */
  function PrestartFor(mode: string, deviceId: string, s: StreamSettings, a: Answers): Prestart
  {
    if mode == OVERLAY then OverlayPrestart(deviceId, s, a)
    else if mode == NATIVE_TASKBAR then NativePrestart(deviceId, s, a)
    else Prestart([], Ok(Start(deviceId, s, None)))
  }

  /** In overlay mode a `reset` size or density fails before any ADB
      command; a successful overlay start names a display that the second
      list has and the first lacks. */
  lemma OverlayPrestartRules(deviceId: string, s: StreamSettings, a: Answers)
    ensures var p := OverlayPrestart(deviceId, s, a);
      (s.resolution == RESET || s.dpi == RESET ==> p == Prestart([], Err(OVERLAY_NEEDS_SIZE)))
      && (p.outcome.Ok? ==>
            a.initialDisplays.Ok? && a.updatedDisplays.Ok?
            && p.requests == [GetDisplayList, SetOverlay(s.resolution, s.dpi), GetDisplayList]
            && p.outcome.value.Start? && p.outcome.value.overlayDisplayId.Some?
            && p.outcome.value.overlayDisplayId.value in a.updatedDisplays.value
            && p.outcome.value.overlayDisplayId.value !in a.initialDisplays.value)
  {
    if OverlayPrestart(deviceId, s, a).outcome.Ok? {
      NewDisplayIdFirst(a.initialDisplays.value, a.updatedDisplays.value);
    }
  }

  /** In native-taskbar mode the request carries the flipped size and the
      clamped DPI, and exactly those of them that are not `reset` were set
      on the device. */
  lemma NativePrestartRules(deviceId: string, s: StreamSettings, a: Answers)
    ensures var p := NativePrestart(deviceId, s, a);
      var (resolution, height) := Flip(s.resolution);
      p.outcome.Ok? ==>
        p.outcome.value == Start(deviceId, s.(resolution := resolution, dpi := ClampDpi(s.dpi, height)), None)
        && p.requests == WmRequests(resolution, ClampDpi(s.dpi, height))
  {
  }

  /** Why a start is refused before anything is sent: no device is
      selected (an alert), a stream runs already, or the socket is not open. */
  datatype Refusal = NoDeviceSelected | AlreadyRunning | NotConnected

  /** What a click on Start does: a refusal, or the state with the stream
      marked running and the ADB steps of the current mode, whose `start`
      request is sent or whose error stops the stream again. */
  datatype StartStep = NotStarted(reason: Refusal) | Launching(state: Globals, prestart: Prestart)

  /** `startStreaming()` with the sidebar showing `f`. */
  function StartStreaming(g: Globals, f: Form, a: Answers): StartStep
  {
    if g.selectedDeviceId.None? || g.selectedDeviceId.value == "" then NotStarted(NoDeviceSelected)
    else if g.isRunning then NotStarted(AlreadyRunning)
    else if !IsOpen(g.ws) then NotStarted(NotConnected)
    else
      var s := StreamSettingsOf(f, g.currentDisplayMode);
      Launching(g.(isRunning := true, controlEnabledAtStart := f.enableControl),
              PrestartFor(g.currentDisplayMode, g.selectedDeviceId.value, s, a))
  }

  /** A start goes ahead exactly when a device is selected, nothing runs
      and the socket is open; it marks the stream running with the control
      setting of the form and changes nothing else; the `start` request it
      sends names the selected device, and in a mode without ADB steps it
      carries the form's settings as they are; a failed ADB step leaves a
      running stream for the stop that follows, which undoes the mode's
      settings exactly in overlay and native-taskbar mode. */
  lemma StartStreamingRules(g: Globals, f: Form, a: Answers)
    ensures var r := StartStreaming(g, f, a);
      (r.Launching? <==> g.selectedDeviceId.Some? && g.selectedDeviceId.value != "" && !g.isRunning && IsOpen(g.ws))
      && (r.Launching? ==>
            r.state == g.(isRunning := true, controlEnabledAtStart := f.enableControl)
            && (r.prestart.outcome.Ok? ==>
                  r.prestart.outcome.value.Start?
                  && r.prestart.outcome.value.deviceId == g.selectedDeviceId.value)
            && (g.currentDisplayMode != OVERLAY && g.currentDisplayMode != NATIVE_TASKBAR ==>
                  r.prestart == Prestart([], Ok(Start(g.selectedDeviceId.value, StreamSettingsOf(f, g.currentDisplayMode), None))))
            && (r.prestart.outcome.Err? ==>
                  StopActs(r.state, false)
                  && (NeedsCleanup(r.state) <==> g.currentDisplayMode == OVERLAY || g.currentDisplayMode == NATIVE_TASKBAR)))
  {
    var r := StartStreaming(g, f, a);
    if r.Launching? {
      var s := StreamSettingsOf(f, g.currentDisplayMode);
      var id := g.selectedDeviceId.value;
      if g.currentDisplayMode == OVERLAY {
        OverlayPrestartRules(id, s, a);
      } else if g.currentDisplayMode == NATIVE_TASKBAR {
        NativePrestartRules(id, s, a);
      }
    }
  }

  // ---------------------------------------------------------------------
  // `stopStreamingAndCleanup`
  // ---------------------------------------------------------------------

  /** Whether the ADB settings of the stopped stream's mode are to be
      undone: the stream was running on a selected device in a mode that
      changed the device. */
  predicate NeedsCleanup(g: Globals)
  {
    g.isRunning && g.selectedDeviceId.Some? && g.selectedDeviceId.value != ""
    && (g.currentDisplayMode == OVERLAY || g.currentDisplayMode == NATIVE_TASKBAR)
  }

  /** The state after a stop, what it sends, and how a clean-up command
      settled at once (it is rejected when it cannot be sent). */
  datatype StopStep = StopStep(state: Globals, sent: seq<Outgoing>, cleanup: Option<Option<AdbClient.Settled>>)

  /** Whether a stop does anything: something runs, a disconnect is asked
      for, or the socket is connecting or open. */
  predicate StopActs(g: Globals, sendDisconnect: bool)
  {
    g.isRunning || sendDisconnect || (g.ws.Socket? && (g.ws.readyState == Connecting || g.ws.readyState == Open))
  }

  /** `stopStreamingAndCleanup(sendDisconnect)`, the clean-up command taking
      the id `commandId` and failing to send with `sendError`. */
  function Stop(g: Globals, sendDisconnect: bool, commandId: string, sendError: Option<string>): StopStep
  {
    if !StopActs(g, sendDisconnect) then StopStep(g, [], None)
    else
      var disconnect := if IsOpen(g.ws) && sendDisconnect then [Json(Disconnect)] else [];
      var stopped := StreamingStopped(g, sendDisconnect);
      if NeedsCleanup(g) then
        var c := AdbClient.SendCommand(stopped, CleanupAdb(g.currentDisplayMode), commandId, sendError);
        StopStep(c.state, disconnect + c.sent, Some(c.settled))
      else StopStep(stopped, disconnect, None)
  }

  /** A stop that acts leaves the client stopped with its stream state
      reset; the disconnect goes out only on an open socket when asked for,
      and the clean-up of the mode is requested exactly when the stream was
      running on a selected device in overlay or native-taskbar mode. */
  lemma StopRules(g: Globals, sendDisconnect: bool, commandId: string, sendError: Option<string>)
    requires StopActs(g, sendDisconnect)
    ensures var r := Stop(g, sendDisconnect, commandId, sendError);
      !r.state.isRunning && r.state.stream == DEFAULT_STREAM && r.state.pointer == DEFAULT_POINTER
      && r.state.ws == g.ws && r.state.selectedDeviceId == g.selectedDeviceId
      && (r.cleanup.Some? <==> NeedsCleanup(g))
      && (Json(Disconnect) in r.sent <==> IsOpen(g.ws) && sendDisconnect)
      && (NeedsCleanup(g) && IsOpen(g.ws) && sendError.None? ==>
            r.cleanup == Some(None)
            && Json(AdbCommand(commandId, g.selectedDeviceId.value, CleanupAdb(g.currentDisplayMode))) in r.sent
            && commandId in r.state.pendingAdbCommands)
  {
    var stopped := StreamingStopped(g, sendDisconnect);
    if NeedsCleanup(g) {
      assert AdbClient.CanSendCommand(stopped) <==> IsOpen(g.ws);
    }
  }

  /** The same, on the client's state. */
  method StopStreamingAndCleanup(g: GlobalState, sendDisconnect: bool, commandId: string, sendError: Option<string>)
    returns (sent: seq<Outgoing>, cleanup: Option<Option<AdbClient.Settled>>)
    modifies g
    ensures StopStep(g.Snap(), sent, cleanup) == Stop(old(g.Snap()), sendDisconnect, commandId, sendError)
  {
    var wasRunning := g.isRunning;
    var previousMode := g.currentDisplayMode;
    var deviceToClean := g.selectedDeviceId;
    sent, cleanup := [], None;
    if !wasRunning && !sendDisconnect && !(g.ws.Socket? && (g.ws.readyState == Connecting || g.ws.readyState == Open)) {
      return;
    }
    if g.ws.Socket? && g.ws.readyState == Open && sendDisconnect {
      sent := [Json(Disconnect)];
    }
    ghost var before := g.Snap();
    g.HandleStreamingStopped(sendDisconnect);
    ghost var stopped := g.Snap();
    assert stopped == StreamingStopped(before, sendDisconnect);
    if wasRunning && deviceToClean.Some? && deviceToClean.value != ""
       && (previousMode == OVERLAY || previousMode == NATIVE_TASKBAR) {
      assert NeedsCleanup(before);
      var settled, more := AdbClient.SendAdbCommandToServer(g, CleanupAdb(previousMode), commandId, sendError);
      assert AdbClient.CommandStep(g.Snap(), settled, more)
        == AdbClient.SendCommand(stopped, CleanupAdb(before.currentDisplayMode), commandId, sendError);
      sent, cleanup := sent + more, Some(settled);
    } else {
      assert !NeedsCleanup(before);
    }
  }

  // ---------------------------------------------------------------------
  // `populateDeviceSelect` and `requestAdbDevices`
  // ---------------------------------------------------------------------

  /** An `<option>` of the device list. */
  datatype Choice = Choice(value: string, text: string, disabled: bool)

  /** The option of a device: devices that are not ready show their state
      and cannot be chosen. */
  function DeviceChoice(d: Device): Choice
  {
    if d.kind != DEVICE_TYPE then Choice(d.id, d.id + " (" + d.kind + ")", true)
    else Choice(d.id, d.id, false)
  }

  function DeviceChoices(devices: seq<Device>): (r: seq<Choice>)
    ensures |r| == |devices|
    ensures forall i :: 0 <= i < |devices| ==> r[i] == DeviceChoice(devices[i])
  {
    if devices == [] then [] else DeviceChoices(devices[..|devices| - 1]) + [DeviceChoice(devices[|devices| - 1])]
  }

  /** The options of the list: a placeholder, then one per device. */
  function Choices(devices: seq<Device>): seq<Choice>
  {
    if devices == [] then [Choice("", NO_DEVICES, false)]
    else [Choice("", CHOOSE_DEVICE, false)] + DeviceChoices(devices)
  }

  /** `devices.some(d => d.id === id && d.type === 'device')`. */
  predicate Ready(devices: seq<Device>, id: string)
  {
    exists d :: d in devices && d.id == id && d.kind == DEVICE_TYPE
  }

  /** `devices.find(d => d.type === 'device')?.id`. */
  function FirstReady(devices: seq<Device>): (r: Option<string>)
    ensures r.Some? ==> exists i :: 0 <= i < |devices| && devices[i].kind == DEVICE_TYPE && devices[i].id == r.value
                          && forall j :: 0 <= j < i ==> devices[j].kind != DEVICE_TYPE
    ensures r.None? <==> forall d :: d in devices ==> d.kind != DEVICE_TYPE
  {
    if devices == [] then None
    else if devices[0].kind == DEVICE_TYPE then Some(devices[0].id)
    else
      var r := FirstReady(devices[1..]);
      if r.Some? then
        var i :| 0 <= i < |devices[1..]| && devices[1..][i].kind == DEVICE_TYPE && devices[1..][i].id == r.value
                 && forall j :: 0 <= j < i ==> devices[1..][j].kind != DEVICE_TYPE;
        assert devices[i + 1] == devices[1..][i];
        assert forall j :: 0 <= j < i + 1 ==> devices[j].kind != DEVICE_TYPE by {
          forall j | 0 <= j < i + 1 ensures devices[j].kind != DEVICE_TYPE {
            if j > 0 { assert devices[j] == devices[1..][j - 1]; }
          }
        }
        r
      else
        assert forall d :: d in devices ==> d == devices[0] || d in devices[1..];
        r
  }

  /** The selection after the list is replaced. */
  function Selection(devices: seq<Device>, previous: Option<string>): Option<string>
  {
    if devices == [] then None
    else if previous.Some? && previous.value != "" && Ready(devices, previous.value) then previous
    else FirstReady(devices)
  }

  /** An empty list selects nothing; a previous selection is kept exactly
      when it is still listed as ready; otherwise the first ready device is
      chosen, and nothing when there is none. Whatever is selected is a
      ready device of the list. */
  lemma SelectionRules(devices: seq<Device>, previous: Option<string>)
    ensures var r := Selection(devices, previous);
      (devices == [] ==> r.None?)
      && (previous.Some? && previous.value != "" && Ready(devices, previous.value) ==> r == previous)
      && (r.Some? ==> Ready(devices, r.value))
      && (r.None? ==> forall d :: d in devices ==> d.kind != DEVICE_TYPE)
      && (r.Some? && r != previous ==>
            exists i :: 0 <= i < |devices| && devices[i].id == r.value && devices[i].kind == DEVICE_TYPE
                        && forall j :: 0 <= j < i ==> devices[j].kind != DEVICE_TYPE)
  {
    var r := Selection(devices, previous);
    if r.Some? && r != previous {
      assert r == FirstReady(devices);
      var i :| 0 <= i < |devices| && devices[i].kind == DEVICE_TYPE && devices[i].id == r.value
               && forall j :: 0 <= j < i ==> devices[j].kind != DEVICE_TYPE;
      assert devices[i] in devices;
    }
    if r.None? && devices != [] {
      assert FirstReady(devices).None?;
    }
  }

  /** The `<select>` element of the device list: its options and its
      value. Its `disabled` flag is the `DeviceList` entry of the `Panel`. */
  class DeviceSelect {
    var choices: seq<Choice>
    var value: string

    constructor ()
      ensures choices == [] && value == ""
    {
      choices, value := [], "";
    }
  }

  /** The options of the devices, built by appending one per device. */
  method BuildChoices(devices: seq<Device>) returns (r: seq<Choice>)
    ensures r == DeviceChoices(devices)
  {
    r := [];
    var i := 0;
    while i < |devices|
      invariant 0 <= i <= |devices|
      invariant r == DeviceChoices(devices[..i])
    {
      assert devices[..i + 1][..i] == devices[..i];
      r := r + [DeviceChoice(devices[i])];
      i := i + 1;
    }
    assert devices[..|devices|] == devices;
  }

  /** `devices.some(d => d.id === id && d.type === 'device')`. */
  method IsReady(devices: seq<Device>, id: string) returns (b: bool)
    ensures b <==> Ready(devices, id)
  {
    var i := 0;
    while i < |devices|
      invariant 0 <= i <= |devices|
      invariant forall j :: 0 <= j < i ==> !(devices[j].id == id && devices[j].kind == DEVICE_TYPE)
    {
      if devices[i].id == id && devices[i].kind == DEVICE_TYPE {
        assert devices[i] in devices;
        return true;
      }
      i := i + 1;
    }
    b := false;
  }

  /** `devices.find(d => d.type === 'device')`: the id of the first ready
      device. */
  method FindReady(devices: seq<Device>) returns (r: Option<string>)
    ensures r == FirstReady(devices)
  {
    var i := 0;
    while i < |devices|
      invariant 0 <= i <= |devices|
      invariant FirstReady(devices) == FirstReady(devices[i..])
    {
      if devices[i].kind == DEVICE_TYPE {
        return Some(devices[i].id);
      }
      assert devices[i..][1..] == devices[i + 1..];
      i := i + 1;
    }
    r := None;
  }

  /** `populateDeviceSelect(devices)`: the options and the selection are
      replaced, the list is disabled exactly when it is empty, and then
      `updateDisplayOptionsState()` sets every control from the new state,
      so the list ends disabled exactly while streaming. `controlChecked`
      is the control checkbox. */
  method PopulateDeviceSelect(g: GlobalState, select: DeviceSelect, panel: Panel, devices: seq<Device>,
                              controlChecked: bool)
    modifies g, select, panel
    ensures g.Snap() == old(g.Snap()).(adbDevices := devices, selectedDeviceId := Selection(devices, old(g.selectedDeviceId)))
    ensures select.choices == Choices(devices)
    ensures devices != [] ==> select.value == (match g.selectedDeviceId case Some(id) => id case None => "")
    ensures forall c :: c in panel.disabled && panel.disabled[c] == !Enabled(c, EnvOf(g.Snap(), controlChecked))
    ensures DeviceList in panel.disabled && (panel.disabled[DeviceList] <==> g.isRunning)
    ensures RefreshButton in panel.disabled && (panel.disabled[RefreshButton] <==> g.isRunning || !IsOpen(g.ws))
    ensures devices == [] ==> StartButton in panel.disabled && panel.disabled[StartButton]
  {
    ReplaceList(g, select, panel, devices);
    var e := EnvOf(g.Snap(), controlChecked);
    UpdateDisplayOptionsState(panel, e);
    ListFlags(panel.disabled, e);
  }

  /** What a panel set by the rules says of the list, Refresh and Start. */
  lemma ListFlags(d: map<Control, bool>, e: Env)
    requires forall c :: c in d && d[c] == !Enabled(c, e)
    ensures DeviceList in d && (d[DeviceList] <==> e.isStreaming)
    ensures RefreshButton in d && (d[RefreshButton] <==> e.isStreaming || !e.wsOpen)
    ensures StartButton in d && (d[StartButton] <==> e.isStreaming || !e.deviceSelected)
  {
    assert d[DeviceList] == !Enabled(DeviceList, e);
    assert d[RefreshButton] == !Enabled(RefreshButton, e);
    assert d[StartButton] == !Enabled(StartButton, e);
  }

  /** The body of `populateDeviceSelect` before its closing
      `updateDisplayOptionsState()`. */
  method ReplaceList(g: GlobalState, select: DeviceSelect, panel: Panel, devices: seq<Device>)
    modifies g, select, panel
    ensures g.Snap() == old(g.Snap()).(adbDevices := devices, selectedDeviceId := Selection(devices, old(g.selectedDeviceId)))
    ensures select.choices == Choices(devices)
    ensures devices != [] ==> select.value == (match g.selectedDeviceId case Some(id) => id case None => "")
    ensures panel.disabled == old(panel.disabled)[DeviceList := devices == []]
  {
    g.adbDevices := devices;
    if |devices| == 0 {
      select.choices := [Choice("", NO_DEVICES, false)];
      panel.disabled := panel.disabled[DeviceList := true];
      g.selectedDeviceId := None;
      return;
    }
    var listed := BuildChoices(devices);
    select.choices := [Choice("", CHOOSE_DEVICE, false)] + listed;
    panel.disabled := panel.disabled[DeviceList := false];
    var chosen := ChooseDevice(devices, g.selectedDeviceId);
    g.selectedDeviceId := chosen;
    select.value := match chosen case Some(id) => id case None => "";
  }

  /** The selection kept or made once the list is not empty. */
  method ChooseDevice(devices: seq<Device>, previous: Option<string>) returns (chosen: Option<string>)
    requires devices != []
    ensures chosen == Selection(devices, previous)
  {
    var valid := false;
    if previous.Some? && previous.value != "" {
      valid := IsReady(devices, previous.value);
    }
    if valid {
      chosen := previous;
    } else {
      chosen := FindReady(devices);
    }
  }

  /** `requestAdbDevices()`: on an open socket the list is asked for and
      Refresh is disabled until the answer; otherwise the list is emptied
      at once and Refresh is enabled again. */
  method RequestAdbDevices(g: GlobalState, select: DeviceSelect, panel: Panel, controlChecked: bool, sendThrows: bool)
    returns (sent: seq<Outgoing>)
    modifies g, select, panel
    ensures IsOpen(old(g.ws)) ==>
      g.Snap() == old(g.Snap()) && sent == (if sendThrows then [] else [Json(GetAdbDevices)])
      && panel.disabled == old(panel.disabled)[RefreshButton := true]
    ensures !IsOpen(old(g.ws)) ==>
      sent == [] && g.Snap() == old(g.Snap()).(adbDevices := [], selectedDeviceId := None)
      && select.choices == Choices([])
      && RefreshButton in panel.disabled && !panel.disabled[RefreshButton]
      && (forall c :: c != RefreshButton ==> c in panel.disabled && panel.disabled[c] == !Enabled(c, EnvOf(g.Snap(), controlChecked)))
      && (panel.disabled[DeviceList] <==> g.isRunning)
  {
    if g.ws.Socket? && g.ws.readyState == Open {
      var _, out := SendWebSocketMessage(g, GetAdbDevices, sendThrows);
      sent := out;
      panel.disabled := panel.disabled[RefreshButton := true];
    } else {
      PopulateDeviceSelect(g, select, panel, [], controlChecked);
      panel.disabled := panel.disabled[RefreshButton := false];
      sent := [];
    }
  }

  /** `updateDisplayOptionsOnStreamStop()`: Stop, the list, Refresh and
      Start are set for a stopped stream, and `updateDisplayOptionsState()`
      then sets every control from the state. */
  method UpdateDisplayOptionsOnStreamStop(g: GlobalState, panel: Panel, controlChecked: bool)
    modifies panel
    ensures forall c :: c in panel.disabled && panel.disabled[c] == !Enabled(c, EnvOf(g.Snap(), controlChecked))
  {
    var noDevice := g.selectedDeviceId.None? || g.selectedDeviceId.value == "";
    panel.disabled := panel.disabled[StopButton := true][DeviceList := false];
    panel.disabled := panel.disabled[RefreshButton := !IsOpen(g.ws)][StartButton := noDevice];
    UpdateDisplayOptionsState(panel, EnvOf(g.Snap(), controlChecked));
  }

  // ---------------------------------------------------------------------
  // `updateDisplayOptionsState`
  // ---------------------------------------------------------------------

  /** The controls whose `disabled` flag the sidebar sets. */
  datatype Control =
    | BitrateSelect | CustomBitrate | MaxFpsSelect | NoPowerOn | EnableAudio | EnableControl
    | TurnScreenOff | PowerOffOnClose | DisplayModeBoxes | ResolutionSelect | CustomResolution
    | DpiSelect | CustomDpi | RotationLock | StartButton | StopButton | DeviceList | RefreshButton

  /** What the enablement depends on. */
  datatype Env = Env(isStreaming: bool, deviceSelected: bool, controlChecked: bool, mode: string, wsOpen: bool)

  function EnvOf(g: Globals, controlChecked: bool): Env
  {
    Env(g.isRunning, g.selectedDeviceId.Some? && g.selectedDeviceId.value != "", controlChecked,
        g.currentDisplayMode, IsOpen(g.ws))
  }

  /** The enablement rules: options need an idle client with a device;
      the screen-off and power-off options need control; size and density
      are off in `dex` and `default`; the rotation lock is off in `dex` and
      `native_taskbar`; Start needs an idle client with a device, Stop a
      stream, the device list an idle client and Refresh an idle client on
      an open socket. */
  function Enabled(c: Control, e: Env): bool
  {
    var idle := !e.isStreaming && e.deviceSelected;
    match c
    case TurnScreenOff => idle && e.controlChecked
    case PowerOffOnClose => idle && e.controlChecked
    case ResolutionSelect => idle && e.mode != DEX && e.mode != DEFAULT_MODE
    case CustomResolution => idle && e.mode != DEX && e.mode != DEFAULT_MODE
    case DpiSelect => idle && e.mode != DEX && e.mode != DEFAULT_MODE
    case CustomDpi => idle && e.mode != DEX && e.mode != DEFAULT_MODE
    case RotationLock => idle && e.mode != DEX && e.mode != NATIVE_TASKBAR
    case StartButton => idle
    case StopButton => e.isStreaming
    case DeviceList => !e.isStreaming
    case RefreshButton => !e.isStreaming && e.wsOpen
    case _ => idle
  }

  /** A group of controls and whether they are enabled (`controlsToUpdate`). */
  datatype Group = Group(controls: seq<Control>, enable: bool)

  function Groups(e: Env): seq<Group>
  {
    var can := !e.isStreaming && e.deviceSelected;
    var sized := can && e.mode != DEX && e.mode != DEFAULT_MODE;
    [Group([BitrateSelect, CustomBitrate], can),
     Group([MaxFpsSelect], can),
     Group([NoPowerOn], can),
     Group([EnableAudio], can),
     Group([EnableControl], can),
     Group([TurnScreenOff], can && e.controlChecked),
     Group([PowerOffOnClose], can && e.controlChecked),
     Group([DisplayModeBoxes], can),
     Group([ResolutionSelect, CustomResolution], sized),
     Group([DpiSelect, CustomDpi], sized),
     Group([RotationLock], can && e.mode != DEX && e.mode != NATIVE_TASKBAR)]
  }

  /** The options disabled again while streaming (`streamDisableConfig`). */
  const STREAM_DISABLE: seq<Control> :=
    [ResolutionSelect, CustomResolution, DpiSelect, CustomDpi, BitrateSelect, CustomBitrate,
     MaxFpsSelect, RotationLock, NoPowerOn, TurnScreenOff, PowerOffOnClose, EnableAudio,
     EnableControl, DisplayModeBoxes]

  /** Every group enables its controls exactly as the rules say. */
  lemma GroupsFollowRules(e: Env, i: nat, c: Control)
    requires i < |Groups(e)| && c in Groups(e)[i].controls
    ensures Groups(e)[i].enable == Enabled(c, e)
  {
    var gs := Groups(e);
    if i == 0 { assert gs[0].controls == [BitrateSelect, CustomBitrate]; }
    else if i == 1 { assert gs[1].controls == [MaxFpsSelect]; }
    else if i == 2 { assert gs[2].controls == [NoPowerOn]; }
    else if i == 3 { assert gs[3].controls == [EnableAudio]; }
    else if i == 4 { assert gs[4].controls == [EnableControl]; }
    else if i == 5 { assert gs[5].controls == [TurnScreenOff]; }
    else if i == 6 { assert gs[6].controls == [PowerOffOnClose]; }
    else if i == 7 { assert gs[7].controls == [DisplayModeBoxes]; }
    else if i == 8 { assert gs[8].controls == [ResolutionSelect, CustomResolution]; }
    else if i == 9 { assert gs[9].controls == [DpiSelect, CustomDpi]; }
    else { assert gs[10].controls == [RotationLock]; }
  }

  /** The four buttons and lists are set on their own. */
  predicate IsButton(c: Control)
  {
    c == StartButton || c == StopButton || c == DeviceList || c == RefreshButton
  }

  /** Every other control lies in some group. */
  lemma GroupsCover(e: Env, c: Control)
    requires !IsButton(c)
    ensures exists i :: 0 <= i < |Groups(e)| && c in Groups(e)[i].controls
  {
    var gs := Groups(e);
    match c
    case BitrateSelect => assert c in gs[0].controls;
    case CustomBitrate => assert c in gs[0].controls;
    case MaxFpsSelect => assert c in gs[1].controls;
    case NoPowerOn => assert c in gs[2].controls;
    case EnableAudio => assert c in gs[3].controls;
    case EnableControl => assert c in gs[4].controls;
    case TurnScreenOff => assert c in gs[5].controls;
    case PowerOffOnClose => assert c in gs[6].controls;
    case DisplayModeBoxes => assert c in gs[7].controls;
    case ResolutionSelect => assert c in gs[8].controls;
    case CustomResolution => assert c in gs[8].controls;
    case DpiSelect => assert c in gs[9].controls;
    case CustomDpi => assert c in gs[9].controls;
    case RotationLock => assert c in gs[10].controls;
  }

  /** While streaming, the controls disabled again are disabled by the
      rules too. */
  lemma StreamDisableAgrees(e: Env, k: nat)
    requires e.isStreaming && k < |STREAM_DISABLE|
    ensures !Enabled(STREAM_DISABLE[k], e)
  {
  }

  /** The rules themselves: streaming disables every option and Start;
      without control the power options are off; size and density are off
      in `dex` and `default`; rotation is off in `dex` and `native_taskbar`. */
  lemma EnablementRules(e: Env)
    ensures e.isStreaming ==> forall c :: c != StopButton && c != RefreshButton && c != DeviceList ==> !Enabled(c, e)
    ensures !e.controlChecked ==> !Enabled(TurnScreenOff, e) && !Enabled(PowerOffOnClose, e)
    ensures e.mode == DEX || e.mode == DEFAULT_MODE ==>
      !Enabled(ResolutionSelect, e) && !Enabled(CustomResolution, e) && !Enabled(DpiSelect, e) && !Enabled(CustomDpi, e)
    ensures e.mode == DEX || e.mode == NATIVE_TASKBAR ==> !Enabled(RotationLock, e)
    ensures Enabled(StartButton, e) <==> !e.isStreaming && e.deviceSelected
  {
  }

  /** The `disabled` flags of the sidebar's controls. */
  class Panel {
    var disabled: map<Control, bool>

    constructor ()
      ensures disabled == map[]
    {
      disabled := map[];
    }
  }

  /** Sets `disabled` of every control of a group. */
  method DisableGroup(panel: Panel, group: Group)
    modifies panel
    ensures forall c :: c in panel.disabled <==> c in old(panel.disabled) || c in group.controls
    ensures forall c :: c in old(panel.disabled) && c !in group.controls ==> panel.disabled[c] == old(panel.disabled)[c]
    ensures forall c :: c in group.controls ==> panel.disabled[c] == !group.enable
  {
    var k := 0;
    while k < |group.controls|
      invariant 0 <= k <= |group.controls|
      invariant forall c :: c in panel.disabled <==> c in old(panel.disabled) || c in group.controls[..k]
      invariant forall c :: c in old(panel.disabled) && c !in group.controls[..k] ==> panel.disabled[c] == old(panel.disabled)[c]
      invariant forall c :: c in group.controls[..k] ==> panel.disabled[c] == !group.enable
    {
      assert group.controls[..k + 1] == group.controls[..k] + [group.controls[k]];
      panel.disabled := panel.disabled[group.controls[k] := !group.enable];
      k := k + 1;
    }
    assert group.controls[..k] == group.controls;
  }

  /** `c` is in none of the first `i` groups. */
  ghost predicate Unwritten(groups: seq<Group>, i: nat, c: Control)
  {
    forall j :: 0 <= j < i && j < |groups| ==> c !in groups[j].controls
  }

  /** The loop over `controlsToUpdate`: every control of a group is set as
      the rules say. */
  method UpdateGroups(panel: Panel, e: Env)
    modifies panel
    ensures forall c :: !IsButton(c) ==> c in panel.disabled && panel.disabled[c] == !Enabled(c, e)
  {
    var groups := Groups(e);
    var i := 0;
    while i < |groups|
      invariant 0 <= i <= |groups|
      invariant forall c :: c in panel.disabled ==> panel.disabled[c] == !Enabled(c, e) || Unwritten(groups, i, c)
      invariant forall c :: !Unwritten(groups, i, c) ==> c in panel.disabled
    {
      ghost var before := panel.disabled;
      DisableGroup(panel, groups[i]);
      forall c | c in panel.disabled
        ensures panel.disabled[c] == !Enabled(c, e) || Unwritten(groups, i + 1, c)
      {
        if c in groups[i].controls {
          GroupsFollowRules(e, i, c);
        } else {
          assert panel.disabled[c] == before[c];
        }
      }
      forall c | !Unwritten(groups, i + 1, c) ensures c in panel.disabled {
        if c !in groups[i].controls {
          assert !Unwritten(groups, i, c);
        }
      }
      i := i + 1;
    }
    forall c | !IsButton(c) ensures c in panel.disabled && panel.disabled[c] == !Enabled(c, e) {
      GroupsCover(e, c);
      assert !Unwritten(groups, i, c);
    }
  }

  /** `updateDisplayOptionsState()`: every control ends up disabled exactly
      when the rules do not enable it. */
  method UpdateDisplayOptionsState(panel: Panel, e: Env)
    modifies panel
    ensures forall c :: c in panel.disabled && panel.disabled[c] == !Enabled(c, e)
  {
    UpdateGroups(panel, e);
    var streaming := e.isStreaming;
    panel.disabled := panel.disabled[StartButton := streaming || !e.deviceSelected];
    panel.disabled := panel.disabled[StopButton := !streaming];
    panel.disabled := panel.disabled[DeviceList := streaming];
    panel.disabled := panel.disabled[RefreshButton := streaming || !e.wsOpen];
    assert forall c :: c in panel.disabled && panel.disabled[c] == !Enabled(c, e);
    if streaming {
      var k := 0;
      while k < |STREAM_DISABLE|
        invariant 0 <= k <= |STREAM_DISABLE|
        invariant forall c :: c in panel.disabled && panel.disabled[c] == !Enabled(c, e)
      {
        StreamDisableAgrees(e, k);
        panel.disabled := panel.disabled[STREAM_DISABLE[k] := true];
        k := k + 1;
      }
    }
  }
}
