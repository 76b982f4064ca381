/** The single-file browser client (src/main.js): its own `state` object,
    the mouse handlers and their button mask, the bounded log, the I-frame
    test, the orientation flip and the guard and reset of a stream start.
    Pointer positions come already scaled to device pixels (an absent one is
    `None`); the log's clock reading is a parameter. */
module LegacyClient {
  import opened Wrappers
  import opened Bytes
  import opened ClientState
  import opened ControlMessages
  import opened Text
  import Input
  import Logger
  import VideoPlayback

  const MAX_LOG_LINES: nat := 50
  const NALU_TYPE_IDR := 5
  const DEFAULT_ASPECT := "9 / 16"

  /** The modelled part of `state`. */
  datatype Legacy = Legacy(
    ws: Socket,
    isRunning: bool,
    controlEnabledAtStart: bool,
    stream: StreamFields,
    checkStateInterval: bool,
    pointer: Pointer,
    dims: Dims)

  /** The `state` object of src/main.js. */
  class LegacyState {
    var ws: Socket
    var isRunning: bool
    var controlEnabledAtStart: bool
    var stream: StreamFields
    var checkStateInterval: bool
    var pointer: Pointer
    var dims: Dims

    function Snap(): Legacy
      reads this
    {
      Legacy(ws, isRunning, controlEnabledAtStart, stream, checkStateInterval, pointer, dims)
    }

    /** `state` as the page loads it. */
    constructor ()
      ensures Snap() == Legacy(NoSocket, false, false, DEFAULT_STREAM, false, DEFAULT_POINTER, DEFAULT_DIMS)
    {
      ws, isRunning, controlEnabledAtStart := NoSocket, false, false;
      stream, checkStateInterval, pointer, dims := DEFAULT_STREAM, false, DEFAULT_POINTER, DEFAULT_DIMS;
    }
  }

  // ---------------------------------------------------------------------
  // `appendLog`
  // ---------------------------------------------------------------------

  /** `logMessages`: the same timestamped, first-in first-out log as the
      modular client's, with room for 50 entries. */
  method NewLog() returns (log: Logger.Log)
    ensures fresh(log) && log.limit == MAX_LOG_LINES && log.entries == [] && log.Valid()
  {
    log := new Logger.Log(MAX_LOG_LINES);
  }

  // ---------------------------------------------------------------------
  // Mouse handlers
  // ---------------------------------------------------------------------

  /** The pointer after a handler and the buffers handed to
      `sendControlMessage`. */
  datatype Step = Step(pointer: Pointer, out: seq<seq<byte>>)

  /** The guard of the down and up handlers. */
  predicate Active(s: Legacy)
  {
    s.isRunning && s.controlEnabledAtStart && s.dims.width != 0 && s.dims.height != 0
  }

  /** `sendMouseEvent(action, buttons, x, y)`: one 32-byte touch message,
      unless the size is unknown or control is off. */
  function SendMouse(s: Legacy, action: int, buttons: int, p: Point): seq<seq<byte>>
  {
    if s.dims.width == 0 || s.dims.height == 0 || !s.controlEnabledAtStart then []
    else [TouchMessage(action, buttons, p.x, p.y, s.dims.width, s.dims.height)]
  }

  /** The message and its guard are those of the modular client. */
  lemma SendMouseAgrees(s: Legacy, g: Globals, action: int, buttons: int, p: Point)
    requires g.dims.width == s.dims.width && g.dims.height == s.dims.height
    requires g.controlEnabledAtStart == s.controlEnabledAtStart
    ensures SendMouse(s, action, buttons, p) == Input.SendMouse(g, action, buttons, p)
  {
  }

  /** `handleMouseDown`: once the guard passes the pointer is down; buttons
      0, 1 and 2 OR in the flags 1, 4 and 2, and DOWN carries the new mask
      when the position is known. No other button changes the mask. */
  function MouseDown(s: Legacy, button: int, coords: Option<Point>): Step
  {
    if !Active(s) then Step(s.pointer, [])
    else
      var p := s.pointer.(isMouseDown := true);
      match Input.UpFlag(button)
      case None => Step(p, [])
      case Some(f) =>
        var q := p.(buttons := Input.SetBit(p.buttons, f));
        match coords
        case None => Step(q, [])
        case Some(c) => Step(q.(last := c), SendMouse(s, ACTION_DOWN, q.buttons, c))
  }

  /** `handleMouseUp`: only a pressed bit is released; UP carries the mask
      before the bit is cleared, at the position or the last one, and the
      pointer is up once the mask is empty. A failed guard changes
      nothing. */
  function MouseUp(s: Legacy, button: int, coords: Option<Point>): Step
  {
    var p := s.pointer;
    if !p.isMouseDown || !Active(s) then Step(p, [])
    else
      match Input.UpFlag(button)
      case None => Step(p, [])
      case Some(f) =>
        if !Input.HasBit(p.buttons, f) then Step(p, [])
        else
          var at := if coords.Some? then coords.value else p.last;
          var cleared := Input.ClearBit(p.buttons, f);
          Step(p.(buttons := cleared, isMouseDown := if cleared == 0 then false else p.isMouseDown),
               SendMouse(s, ACTION_UP, p.buttons, at))
  }

  /** `handleMouseMove`: while pressed, MOVE with the mask to the new
      position. */
  function MouseMove(s: Legacy, coords: Option<Point>): Step
  {
    if !Active(s) || !s.pointer.isMouseDown || coords.None? then Step(s.pointer, [])
    else Step(s.pointer.(last := coords.value), SendMouse(s, ACTION_MOVE, s.pointer.buttons, coords.value))
  }

  /** `handleMouseLeave`: with a button pressed, UP at the last position,
      then nothing is pressed. */
  function MouseLeave(s: Legacy): Step
  {
    var p := s.pointer;
    if !s.isRunning || !s.controlEnabledAtStart || !p.isMouseDown || p.buttons == 0 then Step(p, [])
    else Step(p.(isMouseDown := false, buttons := 0), SendMouse(s, ACTION_UP, p.buttons, p.last))
  }

  /** The down handler: buttons 0, 1 and 2 set the flags 1, 4 and 2 and
      keep the other bits; DOWN carries the new mask; other buttons leave
      the mask alone. The pointer invariant is kept. */
  lemma MouseDownRules(s: Legacy, button: int, coords: Option<Point>)
    requires Input.PointerOk(s.pointer)
    ensures var r := MouseDown(s, button, coords);
      Input.PointerOk(r.pointer)
      && (!Active(s) ==> r == Step(s.pointer, []))
      && (Active(s) ==> r.pointer.isMouseDown)
      && (Active(s) && Input.UpFlag(button).None? ==> r.pointer.buttons == s.pointer.buttons && r.out == [])
      && (Active(s) && Input.UpFlag(button).Some? ==>
            var f := Input.UpFlag(button).value;
            f == (if button == 0 then BUTTON_PRIMARY else if button == 1 then BUTTON_TERTIARY else BUTTON_SECONDARY)
            && Input.HasBit(r.pointer.buttons, f)
            && (forall o :: Input.IsFlag(o) && o != f ==>
                  Input.HasBit(r.pointer.buttons, o) == Input.HasBit(s.pointer.buttons, o))
            && r.out == (if coords.Some? then SendMouse(s, ACTION_DOWN, r.pointer.buttons, coords.value) else []))
  {
    if Active(s) && Input.UpFlag(button).Some? {
      var f := Input.UpFlag(button).value;
      forall o | Input.IsFlag(o) && o != f
        ensures Input.HasBit(Input.SetBit(s.pointer.buttons, f), o) == Input.HasBit(s.pointer.buttons, o)
      {
        Input.BitRules(s.pointer.buttons, f, o);
      }
      Input.BitRules(s.pointer.buttons, f, if f == BUTTON_PRIMARY then BUTTON_TERTIARY else BUTTON_PRIMARY);
    }
  }

  /** The up handler: nothing happens unless the button's bit is pressed;
      then UP carries the mask with the bit still set, the bit is cleared
      and the pointer is up exactly when no bit is left. */
  lemma MouseUpRules(s: Legacy, button: int, coords: Option<Point>)
    requires Input.PointerOk(s.pointer)
    ensures var r := MouseUp(s, button, coords);
      Input.PointerOk(r.pointer) && r.pointer.last == s.pointer.last
      && (var f := Input.UpFlag(button);
          if s.pointer.isMouseDown && Active(s) && f.Some? && Input.HasBit(s.pointer.buttons, f.value) then
            !Input.HasBit(r.pointer.buttons, f.value)
            && (r.pointer.isMouseDown <==> r.pointer.buttons != 0)
            && r.out == SendMouse(s, ACTION_UP, s.pointer.buttons, if coords.Some? then coords.value else s.pointer.last)
          else r == Step(s.pointer, []))
  {
    var f := Input.UpFlag(button);
    if f.Some? {
      Input.BitRules(s.pointer.buttons, f.value, if f.value == BUTTON_PRIMARY then BUTTON_TERTIARY else BUTTON_PRIMARY);
    }
  }

  /** The leave handler ends with nothing pressed, after an UP at the last
      position when a button was held. */
  lemma MouseLeaveRules(s: Legacy)
    ensures var r := MouseLeave(s);
      (s.isRunning && s.controlEnabledAtStart && s.pointer.isMouseDown && s.pointer.buttons != 0 ==>
         !r.pointer.isMouseDown && r.pointer.buttons == 0 && r.pointer.last == s.pointer.last
         && r.out == SendMouse(s, ACTION_UP, s.pointer.buttons, s.pointer.last))
      && (Input.PointerOk(s.pointer) ==> Input.PointerOk(r.pointer))
  {
  }

  /** A click: pressing and releasing one of the three buttons from an idle
      pointer sends DOWN then UP, both with that button's flag alone, and
      leaves the pointer idle again. */
  lemma ClickRoundTrip(s: Legacy, button: int, down: Point, up: Point)
    requires Active(s) && s.pointer.buttons == 0 && !s.pointer.isMouseDown
    requires 0 <= button <= 2
    ensures var d := MouseDown(s, button, Some(down));
      var u := MouseUp(s.(pointer := d.pointer), button, Some(up));
      var f := Input.UpFlag(button).value;
      d.out == SendMouse(s, ACTION_DOWN, f, down)
      && u.out == SendMouse(s, ACTION_UP, f, up)
      && u.pointer == DEFAULT_POINTER.(last := down)
  {
    var f := Input.UpFlag(button).value;
    assert Input.HasBit(0, f) == false;
    assert Input.SetBit(0, f) == f;
    assert Input.HasBit(f, f);
  }

  method SendMouseEvent(st: LegacyState, action: int, buttons: int, p: Point) returns (out: seq<seq<byte>>)
    ensures out == SendMouse(st.Snap(), action, buttons, p)
  {
    if st.dims.width == 0 || st.dims.height == 0 || !st.controlEnabledAtStart {
      return [];
    }
    var buffer := Serialize(TouchValues(action, buttons, p.x, p.y, st.dims.width, st.dims.height), TOUCH_LAYOUT);
    out := [buffer[..]];
  }

  /** The button flag of `event.button`, by the handlers' `switch`. */
  method ButtonFlag(button: int) returns (f: Option<nat>)
    ensures f == Input.UpFlag(button)
  {
    f := None;
    if button == 0 {
      f := Some(BUTTON_PRIMARY);
    } else if button == 1 {
      f := Some(BUTTON_TERTIARY);
    } else if button == 2 {
      f := Some(BUTTON_SECONDARY);
    }
  }

  method HandleMouseDown(st: LegacyState, button: int, coords: Option<Point>) returns (out: seq<seq<byte>>)
    modifies st
    ensures var r := MouseDown(old(st.Snap()), button, coords);
      st.Snap() == old(st.Snap()).(pointer := r.pointer) && out == r.out
  {
    out := [];
    if !st.isRunning || !st.controlEnabledAtStart || st.dims.width == 0 || st.dims.height == 0 {
      return;
    }
    st.pointer := st.pointer.(isMouseDown := true);
    var f := ButtonFlag(button);
    if f.None? {
      return;
    }
    st.pointer := st.pointer.(buttons := Input.SetBit(st.pointer.buttons, f.value));
    if coords.Some? {
      st.pointer := st.pointer.(last := coords.value);
      out := SendMouseEvent(st, ACTION_DOWN, st.pointer.buttons, coords.value);
    }
  }

  method HandleMouseUp(st: LegacyState, button: int, coords: Option<Point>) returns (out: seq<seq<byte>>)
    modifies st
    ensures var r := MouseUp(old(st.Snap()), button, coords);
      st.Snap() == old(st.Snap()).(pointer := r.pointer) && out == r.out
  {
    out := [];
    if !st.pointer.isMouseDown {
      return;
    }
    if !st.isRunning || !st.controlEnabledAtStart || st.dims.width == 0 || st.dims.height == 0 {
      return;
    }
    var f := ButtonFlag(button);
    if f.None? || !Input.HasBit(st.pointer.buttons, f.value) {
      return;
    }
    var at := if coords.Some? then coords.value else st.pointer.last;
    out := SendMouseEvent(st, ACTION_UP, st.pointer.buttons, at);
    st.pointer := st.pointer.(buttons := Input.ClearBit(st.pointer.buttons, f.value));
    if st.pointer.buttons == 0 {
      st.pointer := st.pointer.(isMouseDown := false);
    }
  }

  method HandleMouseMove(st: LegacyState, coords: Option<Point>) returns (out: seq<seq<byte>>)
    modifies st
    ensures var r := MouseMove(old(st.Snap()), coords);
      st.Snap() == old(st.Snap()).(pointer := r.pointer) && out == r.out
  {
    out := [];
    if !st.isRunning || !st.controlEnabledAtStart || st.dims.width == 0 || st.dims.height == 0
       || !st.pointer.isMouseDown || coords.None? {
      return;
    }
    st.pointer := st.pointer.(last := coords.value);
    out := SendMouseEvent(st, ACTION_MOVE, st.pointer.buttons, coords.value);
  }

  method HandleMouseLeave(st: LegacyState) returns (out: seq<seq<byte>>)
    modifies st
    ensures var r := MouseLeave(old(st.Snap()));
      st.Snap() == old(st.Snap()).(pointer := r.pointer) && out == r.out
  {
    out := [];
    if !st.isRunning || !st.controlEnabledAtStart || !st.pointer.isMouseDown || st.pointer.buttons == 0 {
      return;
    }
    out := SendMouseEvent(st, ACTION_UP, st.pointer.buttons, st.pointer.last);
    st.pointer := st.pointer.(isMouseDown := false, buttons := 0);
  }

  // ---------------------------------------------------------------------
  // `isIFrame`
  // ---------------------------------------------------------------------

  /** `isIFrame(frameData)`: the byte after a leading `00 00 00 01` (when
      more follows), else after a leading `00 00 01` (when more follows),
      else the first byte, has NAL unit type 5. */
  function IsIFrame(f: seq<byte>): bool
  {
    if |f| < 1 then false
    else
      var offset :=
        if |f| > 4 && f[0] == 0 && f[1] == 0 && f[2] == 0 && f[3] == 1 then 4
        else if |f| > 3 && f[0] == 0 && f[1] == 0 && f[2] == 1 then 3
        else 0;
      |f| > offset && f[offset] as int % 32 == NALU_TYPE_IDR
  }

  /** Which byte is examined, by the shape of the frame's front. */
  lemma IFrameShape(f: seq<byte>)
    ensures IsIFrame(f) <==>
      if |f| > 4 && f[..4] == [0, 0, 0, 1] then f[4] as int % 32 == 5
      else if |f| > 3 && f[..3] == [0, 0, 1] then f[3] as int % 32 == 5
      else |f| >= 1 && f[0] as int % 32 == 5
  {
    if |f| > 4 {
      assert f[..4] == [0, 0, 0, 1] <==> f[0] == 0 && f[1] == 0 && f[2] == 0 && f[3] == 1;
    }
    if |f| > 3 {
      assert f[..3] == [0, 0, 1] <==> f[0] == 0 && f[1] == 0 && f[2] == 1;
    }
  }

  /** On frames of at least four bytes that begin with a start code the
      two clients agree; a bare IDR header without a start code is an
      I-frame here and not in the modular client. */
  lemma IFrameAgreesWithModular(f: seq<byte>)
    requires |f| >= 4 && f[0] == 0 && f[1] == 0 && (f[2] == 1 || (f[2] == 0 && f[3] == 1))
    ensures IsIFrame(f) == VideoPlayback.IsIFrame(f)
    ensures IsIFrame([5]) && !VideoPlayback.IsIFrame([5])
  {
  }

  // ---------------------------------------------------------------------
  // The orientation flip
  // ---------------------------------------------------------------------

  /** The state after the flip button, and the aspect ratio given to the
      stream area (`None` when it is not touched). */
  datatype FlipStep = FlipStep(state: Legacy, aspect: Option<string>)

  /** Only while running and with both sides known, width and height swap
      and the resolution text follows; otherwise nothing changes. */
  function Flip(s: Legacy): (r: FlipStep)
    ensures !(s.isRunning && s.dims.width > 0 && s.dims.height > 0) ==> r == FlipStep(s, None)
    ensures s.isRunning && s.dims.width > 0 && s.dims.height > 0 ==>
      r.state == s.(dims := Dims(s.dims.height, s.dims.width,
                                 VideoPlayback.ResolutionText(s.dims.height, s.dims.width)))
  {
    if !s.isRunning || !(s.dims.width > 0 && s.dims.height > 0) then FlipStep(s, None)
    else
      var w, h := s.dims.height, s.dims.width;
      FlipStep(s.(dims := Dims(w, h, VideoPlayback.ResolutionText(w, h))),
               Some(if w > 0 && h > 0 then IntToString(w) + " / " + IntToString(h) else DEFAULT_ASPECT))
  }

  /** Flipping twice restores the size, with the resolution text of the
      original size; the aspect ratio set is always `height / width` of the
      size before the flip. */
  lemma FlipTwice(s: Legacy)
    requires s.isRunning && s.dims.width > 0 && s.dims.height > 0
    ensures var once := Flip(s);
      once.aspect == Some(IntToString(s.dims.height) + " / " + IntToString(s.dims.width))
      && Flip(once.state).state == s.(dims := Dims(s.dims.width, s.dims.height,
                                                  VideoPlayback.ResolutionText(s.dims.width, s.dims.height)))
  {
  }

  method FlipOrientation(st: LegacyState) returns (aspect: Option<string>)
    modifies st
    ensures FlipStep(st.Snap(), aspect) == Flip(old(st.Snap()))
  {
    aspect := None;
    if !st.isRunning {
      return;
    }
    if st.dims.width > 0 && st.dims.height > 0 {
      var tempWidth := st.dims.width;
      var w := st.dims.height;
      var h := tempWidth;
      st.dims := Dims(w, h, VideoPlayback.ResolutionText(w, h));
      aspect := Some(if w > 0 && h > 0 then IntToString(w) + " / " + IntToString(h) else DEFAULT_ASPECT);
    }
  }

  // ---------------------------------------------------------------------
  // `startStreaming`
  // ---------------------------------------------------------------------

  /** The state after the start button, and whether the start went ahead
      (a new socket then starts connecting). */
  datatype StartStep = StartStep(state: Legacy, started: bool)

  /** A start is refused while running or while the socket is open;
      otherwise every stream field, the pointer and the size go back to
      their defaults, the control choice is taken from the checkbox, the
      client runs and a new socket is connecting. */
  function Start(s: Legacy, controlChecked: bool): (r: StartStep)
    ensures r.started <==> !s.isRunning && !IsOpen(s.ws)
    ensures !r.started ==> r.state == s
    ensures r.started ==>
      r.state == Legacy(Socket(Connecting), true, controlChecked, DEFAULT_STREAM, false, DEFAULT_POINTER, DEFAULT_DIMS)
  {
    if s.isRunning || (s.ws.Socket? && s.ws.readyState == Open) then StartStep(s, false)
    else StartStep(Legacy(Socket(Connecting), true, controlChecked, DEFAULT_STREAM, false, DEFAULT_POINTER, DEFAULT_DIMS), true)
  }

  /** A start that went ahead cannot start again until the stream stops. */
  lemma StartOnce(s: Legacy, controlChecked: bool, again: bool)
    requires Start(s, controlChecked).started
    ensures var once := Start(s, controlChecked).state;
      !Start(once, again).started && Start(once, again).state == once
  {
  }

  method StartStreaming(st: LegacyState, controlChecked: bool) returns (started: bool)
    modifies st
    ensures StartStep(st.Snap(), started) == Start(old(st.Snap()), controlChecked)
  {
    if st.isRunning || (st.ws.Socket? && st.ws.readyState == Open) {
      return false;
    }
    st.controlEnabledAtStart := controlChecked;
    st.ws, st.stream, st.checkStateInterval := NoSocket, DEFAULT_STREAM, false;
    st.pointer, st.dims, st.isRunning := DEFAULT_POINTER, DEFAULT_DIMS, true;
    st.ws := Socket(Connecting);
    started := true;
  }
}
