/** Pointer input of the modular client (src-client/services/inputService.js):
    mouse, touch and wheel handlers that keep the pressed-button mask in
    `globalState` and turn events into control messages, the mapping from
    page coordinates to device pixels, and the registry of bound
    listeners. The DOM event is reduced to what the handlers look at: where
    it landed, the button, the scaled coordinates and the wheel deltas. */
module Input {
  import opened Wrappers
  import opened Bytes
  import opened ClientState
  import opened ControlMessages

  // ---------------------------------------------------------------------
  // The button mask
  // ---------------------------------------------------------------------

  /** The single-bit flags `AMOTION_EVENT_BUTTON_*`. */
  predicate IsFlag(f: nat) { f == BUTTON_PRIMARY || f == BUTTON_SECONDARY || f == BUTTON_TERTIARY }

  /** `mask & flag` is non-zero. */
  predicate HasBit(mask: nat, f: nat)
    requires IsFlag(f)
  {
    (mask / f) % 2 == 1
  }

  /** `mask | flag`. */
  function SetBit(mask: nat, f: nat): nat
    requires IsFlag(f)
  {
    if HasBit(mask, f) then mask else mask + f
  }

  /** `mask & ~flag`. */
  function ClearBit(mask: nat, f: nat): nat
    requires IsFlag(f)
  {
    if HasBit(mask, f) then mask - f else mask
  }

  /** On a three-bit mask, setting a flag sets that bit and clearing it
      clears it; the other bits are kept and the mask stays below 8. */
  lemma BitRules(mask: nat, f: nat, other: nat)
    requires mask < 8 && IsFlag(f) && IsFlag(other) && f != other
    ensures SetBit(mask, f) < 8 && HasBit(SetBit(mask, f), f)
    ensures ClearBit(mask, f) < 8 && !HasBit(ClearBit(mask, f), f)
    ensures HasBit(SetBit(mask, f), other) == HasBit(mask, other)
    ensures HasBit(ClearBit(mask, f), other) == HasBit(mask, other)
    ensures ClearBit(mask, f) == 0 <==> mask == 0 || mask == f
  {
    assert mask in {0, 1, 2, 3, 4, 5, 6, 7};
  }

  /** The pointer invariant: only the three known bits are ever set, and a
      pressed button means `isMouseDown`. */
  predicate PointerOk(p: Pointer)
  {
    p.buttons < 8 && (p.buttons != 0 ==> p.isMouseDown)
  }

  // ---------------------------------------------------------------------
  // Sending
  // ---------------------------------------------------------------------

  /** Where an event landed: on the rendering element (or inside it), on the
      stream area around it, or anywhere else. */
  datatype Target = OnVideo | OnStreamArea | Elsewhere

  /** The state of the pointer after an event, and the buffers handed to
      `sendControlMessageToServer`. */
  datatype InputStep = InputStep(pointer: Pointer, out: seq<seq<byte>>)

  /** The guard the handlers share. */
  predicate Active(g: Globals)
  {
    g.isRunning && g.controlEnabledAtStart && g.dims.width != 0 && g.dims.height != 0
  }

  /** `sendMouseEvent(action, buttons, x, y)`: one touch message, unless
      the device size is unknown or control is off. */
  function SendMouse(g: Globals, action: int, buttons: int, p: Point): (out: seq<seq<byte>>)
    ensures |out| <= 1
    ensures out != [] <==> g.dims.width != 0 && g.dims.height != 0 && g.controlEnabledAtStart
    ensures out != [] ==> out[0] == TouchMessage(action, buttons, p.x, p.y, g.dims.width, g.dims.height)
  {
    if g.dims.width == 0 || g.dims.height == 0 || !g.controlEnabledAtStart then []
    else [TouchMessage(action, buttons, p.x, p.y, g.dims.width, g.dims.height)]
  }

  /** `sendBackButtonControlInternal`: key down then key up, only while
      running with control. */
  function SendBack(g: Globals): (out: seq<seq<byte>>)
    ensures out == [] || out == [BackMessage(0), BackMessage(1)]
    ensures out != [] <==> g.isRunning && g.controlEnabledAtStart
  {
    if !g.isRunning || !g.controlEnabledAtStart then [] else [BackMessage(0), BackMessage(1)]
  }

  /** The pointer after a guard failure of a release: nothing pressed. */
  function Released(p: Pointer): (r: Pointer)
    ensures !r.isMouseDown && r.buttons == 0 && r.last == p.last
  {
    p.(isMouseDown := false, buttons := 0)
  }

  /** The flag of a release, `None` for buttons other than 0, 1 and 2. */
  function UpFlag(button: int): (f: Option<nat>)
    ensures f.Some? ==> IsFlag(f.value)
  {
    if button == 0 then Some(BUTTON_PRIMARY)
    else if button == 1 then Some(BUTTON_TERTIARY)
    else if button == 2 then Some(BUTTON_SECONDARY)
    else None
  }

  /** A release of `flag` (`handleMouseUp`, `handleTouchEnd` after their
      guards): nothing unless the bit is pressed; otherwise UP carries the
      mask with that bit still set, then the bit is cleared and the pointer
      is up exactly when no bit is left. */
  function Release(g: Globals, f: nat, coords: Option<Point>): (s: InputStep)
    requires IsFlag(f)
    requires PointerOk(g.pointer)
    ensures PointerOk(s.pointer) && s.pointer.last == g.pointer.last
    ensures !HasBit(g.pointer.buttons, f) ==> s == InputStep(g.pointer, [])
    ensures HasBit(g.pointer.buttons, f) ==>
      !HasBit(s.pointer.buttons, f)
      && (s.pointer.isMouseDown <==> s.pointer.buttons != 0)
      && s.out == SendMouse(g, ACTION_UP, g.pointer.buttons,
                            if coords.Some? then coords.value else g.pointer.last)
  {
    var p := g.pointer;
    if !HasBit(p.buttons, f) then InputStep(p, [])
    else
      var at := if coords.Some? then coords.value else p.last;
      var out := SendMouse(g, ACTION_UP, p.buttons, at);
      var cleared := ClearBit(p.buttons, f);
      BitRules(p.buttons, f, if f == BUTTON_PRIMARY then BUTTON_TERTIARY else BUTTON_PRIMARY);
      InputStep(p.(buttons := cleared, isMouseDown := if cleared == 0 then false else p.isMouseDown), out)
  }

  // ---------------------------------------------------------------------
  // The handlers
  // ---------------------------------------------------------------------

  /** `handleMouseDown`: the right button sends Back and leaves nothing
      pressed; the left and middle buttons OR their bit in and send DOWN
      with the new mask; any other button only marks the pointer down. */
  function MouseDown(g: Globals, target: Target, button: int, coords: Option<Point>): (s: InputStep)
    requires PointerOk(g.pointer)
    ensures PointerOk(s.pointer)
    ensures !Active(g) || target == Elsewhere ==> s == InputStep(g.pointer, [])
    ensures Active(g) && target != Elsewhere && button == 2 ==>
      s.out == [BackMessage(0), BackMessage(1)] && !s.pointer.isMouseDown && s.pointer.buttons == 0
    ensures Active(g) && target != Elsewhere && (button == 0 || button == 1) ==>
      var f := if button == 0 then BUTTON_PRIMARY else BUTTON_TERTIARY;
      s.pointer.isMouseDown && HasBit(s.pointer.buttons, f)
      && (coords.Some? ==>
            s.pointer.last == coords.value && s.out == SendMouse(g, ACTION_DOWN, s.pointer.buttons, coords.value))
      && (coords.None? ==> s.out == [])
  {
    var p := g.pointer;
    if !Active(g) || target == Elsewhere then InputStep(p, [])
    else if button == 2 then InputStep(Released(p), SendBack(g))
    else if button != 0 && button != 1 then InputStep(p.(isMouseDown := true), [])
    else
      var f := if button == 0 then BUTTON_PRIMARY else BUTTON_TERTIARY;
      BitRules(p.buttons, f, BUTTON_SECONDARY);
      var down := p.(isMouseDown := true, buttons := SetBit(p.buttons, f));
      match coords
      case None => InputStep(down, [])
      case Some(c) => InputStep(down.(last := c), SendMouse(g, ACTION_DOWN, down.buttons, c))
  }

  /** `handleMouseUp`: a failed guard leaves nothing pressed. */
  function MouseUp(g: Globals, button: int, coords: Option<Point>): (s: InputStep)
    requires PointerOk(g.pointer)
    ensures PointerOk(s.pointer)
    ensures !g.pointer.isMouseDown ==> s == InputStep(g.pointer, [])
    ensures g.pointer.isMouseDown && !Active(g) ==> s == InputStep(Released(g.pointer), [])
    ensures g.pointer.isMouseDown && Active(g) ==>
      s == (if UpFlag(button).None? then InputStep(g.pointer, []) else Release(g, UpFlag(button).value, coords))
  {
    var p := g.pointer;
    if !p.isMouseDown then InputStep(p, [])
    else if !Active(g) then InputStep(Released(p), [])
    else
      match UpFlag(button)
      case None => InputStep(p, [])
      case Some(f) => Release(g, f, coords)
  }

  /** `handleMouseMove` and `handleTouchMove`: while pressed, MOVE with the
      current mask to the new position. */
  function Move(g: Globals, coords: Option<Point>): (s: InputStep)
    ensures s.pointer.isMouseDown == g.pointer.isMouseDown && s.pointer.buttons == g.pointer.buttons
    ensures !Active(g) || !g.pointer.isMouseDown || coords.None? ==> s == InputStep(g.pointer, [])
    ensures Active(g) && g.pointer.isMouseDown && coords.Some? ==>
      s.pointer.last == coords.value && s.out == SendMouse(g, ACTION_MOVE, g.pointer.buttons, coords.value)
  {
    if !Active(g) || !g.pointer.isMouseDown || coords.None? then InputStep(g.pointer, [])
    else InputStep(g.pointer.(last := coords.value), SendMouse(g, ACTION_MOVE, g.pointer.buttons, coords.value))
  }

  /** `handleMouseLeave`: with a button pressed, UP at the pointer (or the
      last position) and the mask is emptied. */
  function MouseLeave(g: Globals, coords: Option<Point>): (s: InputStep)
    ensures s.pointer.last == g.pointer.last
    ensures g.isRunning && g.controlEnabledAtStart && g.pointer.isMouseDown && g.pointer.buttons != 0 ==>
      s.pointer == Released(g.pointer)
      && s.out == SendMouse(g, ACTION_UP, g.pointer.buttons, if coords.Some? then coords.value else g.pointer.last)
    ensures !(g.isRunning && g.controlEnabledAtStart && g.pointer.isMouseDown && g.pointer.buttons != 0) ==>
      s == InputStep(g.pointer, [])
  {
    var p := g.pointer;
    if !g.isRunning || !g.controlEnabledAtStart || !p.isMouseDown || p.buttons == 0 then InputStep(p, [])
    else InputStep(Released(p), SendMouse(g, ACTION_UP, p.buttons, if coords.Some? then coords.value else p.last))
  }

  /** `handleTouchStart`: the primary bit is ORed in, and DOWN goes out
      when the touch maps to the picture. */
  function TouchStart(g: Globals, target: Target, coords: Option<Point>): (s: InputStep)
    requires PointerOk(g.pointer)
    ensures PointerOk(s.pointer)
    ensures !Active(g) || target == Elsewhere ==> s == InputStep(g.pointer, [])
    ensures Active(g) && target != Elsewhere ==>
      s.pointer.isMouseDown && HasBit(s.pointer.buttons, BUTTON_PRIMARY)
      && s.out == (if coords.Some? then SendMouse(g, ACTION_DOWN, s.pointer.buttons, coords.value) else [])
  {
    var p := g.pointer;
    if !Active(g) || target == Elsewhere then InputStep(p, [])
    else
      BitRules(p.buttons, BUTTON_PRIMARY, BUTTON_SECONDARY);
      var down := p.(isMouseDown := true, buttons := SetBit(p.buttons, BUTTON_PRIMARY));
      match coords
      case None => InputStep(down, [])
      case Some(c) => InputStep(down.(last := c), SendMouse(g, ACTION_DOWN, down.buttons, c))
  }

  /** `handleTouchEnd`: a primary release; a failed guard leaves nothing
      pressed. */
  function TouchEnd(g: Globals, coords: Option<Point>): (s: InputStep)
    requires PointerOk(g.pointer)
    ensures PointerOk(s.pointer)
    ensures !g.pointer.isMouseDown ==> s == InputStep(g.pointer, [])
    ensures g.pointer.isMouseDown && !Active(g) ==> s == InputStep(Released(g.pointer), [])
    ensures g.pointer.isMouseDown && Active(g) ==> s == Release(g, BUTTON_PRIMARY, coords)
  {
    var p := g.pointer;
    if !p.isMouseDown then InputStep(p, [])
    else if !Active(g) then InputStep(Released(p), [])
    else Release(g, BUTTON_PRIMARY, coords)
  }

  /** `handleTouchCancel`: nothing pressed afterwards, nothing sent. */
  function TouchCancel(g: Globals): (s: InputStep)
    ensures !s.pointer.isMouseDown && s.out == []
    ensures g.pointer.buttons != 0 && PointerOk(g.pointer) ==> s.pointer.buttons == 0
  {
    if !g.pointer.isMouseDown then InputStep(g.pointer, []) else InputStep(Released(g.pointer), [])
  }

  /** The scroll amount of one axis: a positive delta scrolls by -32767,
      a negative one by +32767. */
  function ScrollAmount(delta: real): (a: int)
    ensures delta == 0.0 <==> a == 0
    ensures delta > 0.0 ==> a == -32767
    ensures delta < 0.0 ==> a == 32767
  {
    if delta == 0.0 then 0 else if delta > 0.0 then -32767 else 32767
  }

  /** `handleWheelEvent`: one scroll message at the pointer (or at the last
      position when the pointer is off the picture and a position is
      known), unless both deltas are zero. The pointer state is kept. */
  function Wheel(g: Globals, target: Target, coords: Option<Point>, deltaX: real, deltaY: real): (out: seq<seq<byte>>)
    ensures |out| <= 1
    ensures out != [] <==>
      Active(g) && g.dims.width > 0 && g.dims.height > 0 && target == OnVideo
      && (coords.Some? || g.pointer.last.x > 0 || g.pointer.last.y > 0)
      && (deltaX != 0.0 || deltaY != 0.0)
    ensures out != [] ==>
      var at := if coords.Some? then coords.value else g.pointer.last;
      out[0] == ScrollMessage(at.x, at.y, g.dims.width, g.dims.height,
                              ScrollAmount(deltaX), ScrollAmount(deltaY), g.pointer.buttons)
  {
    if !Active(g) || g.dims.width <= 0 || g.dims.height <= 0 || target != OnVideo then []
    else if coords.None? && !(g.pointer.last.x > 0 || g.pointer.last.y > 0) then []
    else
      var at := if coords.Some? then coords.value else g.pointer.last;
      var h, v := ScrollAmount(deltaX), ScrollAmount(deltaY);
      if h == 0 && v == 0 then []
      else [ScrollMessage(at.x, at.y, g.dims.width, g.dims.height, h, v, g.pointer.buttons)]
  }

  /** The UP message of a release reads back as an UP carrying the mask
      with the released bit still set. */
  lemma ReleaseSendsPreClearMask(g: Globals, f: nat, coords: Option<Point>)
    requires IsFlag(f) && PointerOk(g.pointer) && HasBit(g.pointer.buttons, f)
    requires Active(g) && 0 < g.dims.width < TWO_16 && 0 < g.dims.height < TWO_16
    requires var at := if coords.Some? then coords.value else g.pointer.last;
      -TWO_32 / 2 <= at.x < TWO_32 / 2 && -TWO_32 / 2 <= at.y < TWO_32 / 2
    ensures var s := Release(g, f, coords);
      var at := if coords.Some? then coords.value else g.pointer.last;
      |s.out| == 1
      && Unpack(s.out[0], TOUCH_LAYOUT)
         == Some(TouchValues(ACTION_UP, g.pointer.buttons, at.x, at.y, g.dims.width, g.dims.height))
  {
    var at := if coords.Some? then coords.value else g.pointer.last;
    TouchMessageRoundTrip(ACTION_UP, g.pointer.buttons, at.x, at.y, g.dims.width, g.dims.height);
  }

  // ---------------------------------------------------------------------
  // `getScaledCoordinates`
  // ---------------------------------------------------------------------

  /** `Math.round`: halves go up. */
  function Round(r: real): int
  {
    (r + 0.5).Floor
  }

  /** `Math.max(0, Math.min(hi, v))`. */
  function Clamp(v: int, hi: int): (c: int)
    ensures hi >= 0 ==> 0 <= c <= hi
    ensures 0 <= v <= hi ==> c == v
  {
    var m := if v < hi then v else hi;
    if m > 0 then m else 0
  }

  /** The client size of the rendering element (`None` when there is no
      element). */
  datatype View = View(clientWidth: real, clientHeight: real)

  /** The picture occupies the whole element, less bars on two sides when
      the element's aspect ratio differs from the device's. `Some(origin,
      extent)` per axis. */
  function Axis(pos: real, client: real, real_: real): Option<(real, real)>
    requires real_ != 0.0
  {
    var bars := (client - real_) / 2.0;
    if pos < bars || pos > bars + real_ then None else Some((pos - bars, real_))
  }

  /** `getScaledCoordinates`: the position over the picture mapped to device
      pixels and clamped to the device size; `null` (`None`) when a size is
      missing or the position lies in the letterbox bars. Sizes and
      positions are exact reals, not IEEE doubles. */
  function ScaledCoordinates(view: Option<View>, deviceWidth: int, deviceHeight: int, x: real, y: real): (r: Option<Point>)
    ensures r.Some? && deviceWidth > 0 ==> 0 <= r.value.x <= deviceWidth
    ensures r.Some? && deviceHeight > 0 ==> 0 <= r.value.y <= deviceHeight
    ensures view.None? || deviceWidth == 0 || deviceHeight == 0 ==> r.None?
  {
    if view.None? || view.value.clientWidth == 0.0 || view.value.clientHeight == 0.0
       || deviceWidth == 0 || deviceHeight == 0 then None
    else
      var cw, ch := view.value.clientWidth, view.value.clientHeight;
      var videoRatio := deviceWidth as real / deviceHeight as real;
      var elementRatio := cw / ch;
      assert videoRatio != 0.0;
      var ax := if elementRatio > videoRatio then Axis(x, cw, ch * videoRatio) else Some((x, cw));
      var ay := if elementRatio < videoRatio then Axis(y, ch, cw / videoRatio) else Some((y, ch));
      if ax.None? || ay.None? then None
      else
        var (px, w) := ax.value;
        var (py, h) := ay.value;
        assert w != 0.0 && h != 0.0;
        Some(Point(Clamp(Round(px * deviceWidth as real / w), deviceWidth),
                   Clamp(Round(py * deviceHeight as real / h), deviceHeight)))
  }

  /** Without bars (same aspect ratio), every position inside the element
      maps to a point. */
  lemma ScaledInsideSameAspect(cw: real, ch: real, deviceWidth: int, deviceHeight: int, x: real, y: real)
    requires cw > 0.0 && ch > 0.0 && deviceWidth > 0 && deviceHeight > 0
    requires cw / ch == deviceWidth as real / deviceHeight as real
    ensures ScaledCoordinates(Some(View(cw, ch)), deviceWidth, deviceHeight, x, y).Some?
  {
  }

  /** A position left of a pillarbox bar's edge has no device point. */
  lemma ScaledNoneInLeftBar(cw: real, ch: real, deviceWidth: int, deviceHeight: int, x: real, y: real)
    requires cw > 0.0 && ch > 0.0 && deviceWidth > 0 && deviceHeight > 0
    requires cw / ch > deviceWidth as real / deviceHeight as real
    requires x < (cw - ch * (deviceWidth as real / deviceHeight as real)) / 2.0
    ensures ScaledCoordinates(Some(View(cw, ch)), deviceWidth, deviceHeight, x, y).None?
  {
  }

  // ---------------------------------------------------------------------
  // The handlers on `globalState`
  // ---------------------------------------------------------------------

  /** `sendMouseEvent`: builds the 32-byte buffer when it is sent. */
  method SendMouseEvent(g: GlobalState, action: int, buttons: int, x: int, y: int) returns (out: seq<seq<byte>>)
    ensures out == SendMouse(g.Snap(), action, buttons, Point(x, y))
  {
    if g.dims.width == 0 || g.dims.height == 0 || !g.controlEnabledAtStart {
      return [];
    }
    var buffer := Serialize(TouchValues(action, buttons, x, y, g.dims.width, g.dims.height), TOUCH_LAYOUT);
    out := [buffer[..]];
  }

  /** `sendBackButtonControlInternal`. */
  method SendBackButton(g: GlobalState) returns (out: seq<seq<byte>>)
    ensures out == SendBack(g.Snap())
  {
    if !g.isRunning || !g.controlEnabledAtStart {
      return [];
    }
    var down := Serialize([TYPE_BACK_OR_SCREEN_ON, 0], BACK_LAYOUT);
    var up := Serialize([TYPE_BACK_OR_SCREEN_ON, 1], BACK_LAYOUT);
    out := [down[..], up[..]];
  }

  predicate ActiveNow(g: GlobalState)
    reads g
  {
    g.isRunning && g.controlEnabledAtStart && g.dims.width != 0 && g.dims.height != 0
  }

  method HandleMouseDown(g: GlobalState, target: Target, button: int, coords: Option<Point>)
    returns (out: seq<seq<byte>>)
    requires PointerOk(g.pointer)
    modifies g
    ensures var s := MouseDown(old(g.Snap()), target, button, coords);
      g.Snap() == old(g.Snap()).(pointer := s.pointer) && out == s.out
  {
    out := [];
    if !ActiveNow(g) || target == Elsewhere {
      return;
    }
    g.pointer := g.pointer.(isMouseDown := true);
    if button == 2 {
      out := SendBackButton(g);
      g.pointer := g.pointer.(isMouseDown := false, buttons := 0);
      return;
    }
    var f := 0;
    if button == 0 {
      f := BUTTON_PRIMARY;
    } else if button == 1 {
      f := BUTTON_TERTIARY;
    } else {
      return;
    }
    g.pointer := g.pointer.(buttons := SetBit(g.pointer.buttons, f));
    if coords.Some? {
      g.pointer := g.pointer.(last := coords.value);
      out := SendMouseEvent(g, ACTION_DOWN, g.pointer.buttons, coords.value.x, coords.value.y);
    }
  }

  /** The shared tail of the release handlers. */
  method ReleaseFlag(g: GlobalState, f: nat, coords: Option<Point>) returns (out: seq<seq<byte>>)
    requires IsFlag(f) && PointerOk(g.pointer)
    modifies g
    ensures var s := Release(old(g.Snap()), f, coords);
      g.Snap() == old(g.Snap()).(pointer := s.pointer) && out == s.out
  {
    out := [];
    if !HasBit(g.pointer.buttons, f) {
      return;
    }
    var at := if coords.Some? then coords.value else g.pointer.last;
    out := SendMouseEvent(g, ACTION_UP, g.pointer.buttons, at.x, at.y);
    g.pointer := g.pointer.(buttons := ClearBit(g.pointer.buttons, f));
    if g.pointer.buttons == 0 {
      g.pointer := g.pointer.(isMouseDown := false);
    }
  }

  method HandleMouseUp(g: GlobalState, button: int, coords: Option<Point>) returns (out: seq<seq<byte>>)
    requires PointerOk(g.pointer)
    modifies g
    ensures var s := MouseUp(old(g.Snap()), button, coords);
      g.Snap() == old(g.Snap()).(pointer := s.pointer) && out == s.out
  {
    out := [];
    if !g.pointer.isMouseDown {
      return;
    }
    if !ActiveNow(g) {
      g.pointer := g.pointer.(isMouseDown := false, buttons := 0);
      return;
    }
    var f := UpFlag(button);
    if f.Some? {
      out := ReleaseFlag(g, f.value, coords);
    }
  }

  method HandleMove(g: GlobalState, coords: Option<Point>) returns (out: seq<seq<byte>>)
    modifies g
    ensures var s := Move(old(g.Snap()), coords);
      g.Snap() == old(g.Snap()).(pointer := s.pointer) && out == s.out
  {
    out := [];
    if !ActiveNow(g) || !g.pointer.isMouseDown || coords.None? {
      return;
    }
    g.pointer := g.pointer.(last := coords.value);
    out := SendMouseEvent(g, ACTION_MOVE, g.pointer.buttons, coords.value.x, coords.value.y);
  }

  method HandleMouseLeave(g: GlobalState, coords: Option<Point>) returns (out: seq<seq<byte>>)
    modifies g
    ensures var s := MouseLeave(old(g.Snap()), coords);
      g.Snap() == old(g.Snap()).(pointer := s.pointer) && out == s.out
  {
    out := [];
    if !g.isRunning || !g.controlEnabledAtStart || !g.pointer.isMouseDown || g.pointer.buttons == 0 {
      return;
    }
    var at := if coords.Some? then coords.value else g.pointer.last;
    out := SendMouseEvent(g, ACTION_UP, g.pointer.buttons, at.x, at.y);
    g.pointer := g.pointer.(isMouseDown := false, buttons := 0);
  }

  method HandleTouchStart(g: GlobalState, target: Target, coords: Option<Point>) returns (out: seq<seq<byte>>)
    requires PointerOk(g.pointer)
    modifies g
    ensures var s := TouchStart(old(g.Snap()), target, coords);
      g.Snap() == old(g.Snap()).(pointer := s.pointer) && out == s.out
  {
    out := [];
    if !ActiveNow(g) || target == Elsewhere {
      return;
    }
    g.pointer := g.pointer.(isMouseDown := true, buttons := SetBit(g.pointer.buttons, BUTTON_PRIMARY));
    if coords.Some? {
      g.pointer := g.pointer.(last := coords.value);
      out := SendMouseEvent(g, ACTION_DOWN, g.pointer.buttons, coords.value.x, coords.value.y);
    }
  }

  method HandleTouchEnd(g: GlobalState, coords: Option<Point>) returns (out: seq<seq<byte>>)
    requires PointerOk(g.pointer)
    modifies g
    ensures var s := TouchEnd(old(g.Snap()), coords);
      g.Snap() == old(g.Snap()).(pointer := s.pointer) && out == s.out
  {
    out := [];
    if !g.pointer.isMouseDown {
      return;
    }
    if !ActiveNow(g) {
      g.pointer := g.pointer.(isMouseDown := false, buttons := 0);
      return;
    }
    out := ReleaseFlag(g, BUTTON_PRIMARY, coords);
  }

  method HandleTouchCancel(g: GlobalState)
    modifies g
    ensures g.Snap() == old(g.Snap()).(pointer := TouchCancel(old(g.Snap())).pointer)
  {
    if g.pointer.isMouseDown {
      g.pointer := g.pointer.(isMouseDown := false, buttons := 0);
    }
  }

  /** `handleWheelEvent`: builds the 21-byte buffer at a running offset. */
  method HandleWheel(g: GlobalState, target: Target, coords: Option<Point>, deltaX: real, deltaY: real)
    returns (out: seq<seq<byte>>)
    ensures out == Wheel(g.Snap(), target, coords, deltaX, deltaY)
  {
    out := [];
    if !ActiveNow(g) || g.dims.width <= 0 || g.dims.height <= 0 || target != OnVideo {
      return;
    }
    var at: Point;
    if coords.Some? {
      at := coords.value;
    } else if g.pointer.last.x > 0 || g.pointer.last.y > 0 {
      at := g.pointer.last;
    } else {
      return;
    }
    var h, v := ScrollAmount(deltaX), ScrollAmount(deltaY);
    if h == 0 && v == 0 {
      return;
    }
    var buffer := Serialize(ScrollValues(at.x, at.y, g.dims.width, g.dims.height, h, v, g.pointer.buttons), SCROLL_LAYOUT);
    out := [buffer[..]];
  }

  // ---------------------------------------------------------------------
  // `bindEvent` and `cleanupInputService`
  // ---------------------------------------------------------------------

  /** The elements listeners are bound to. */
  datatype Element = StreamArea | Document

  /** The handlers of the service. */
  datatype Handler =
    | OnMouseDown | OnMouseMove | OnMouseLeave | OnWheel
    | OnTouchStart | OnTouchMove | OnTouchEnd | OnTouchCancel | OnContextMenu | OnMouseUp

  /** One `addEventListener(type, listener, options)`; `passive` is the
      `{ passive: false }` option. */
  datatype Listener = Listener(eventType: string, handler: Handler, passive: Option<bool>)

  /** A listener as the DOM identifies it: element, type and function. */
  datatype Binding = Binding(element: Element, eventType: string, handler: Handler)

  function BindingOf(e: Element, l: Listener): Binding
  {
    Binding(e, l.eventType, l.handler)
  }

  /** The bindings a registry records. */
  ghost function Recorded(m: map<Element, seq<Listener>>): set<Binding>
  {
    set e, i | e in m && 0 <= i < |m[e]| :: BindingOf(e, m[e][i])
  }

  /** The `eventListeners` map of the service next to the listeners the DOM
      holds. */
  class InputListeners {
    var eventListeners: map<Element, seq<Listener>>
    var attached: set<Binding>

    /** Every recorded listener is attached. */
    ghost predicate Valid()
      reads this
    {
      Recorded(eventListeners) <= attached
    }

    constructor ()
      ensures eventListeners == map[] && attached == {} && Valid()
    {
      eventListeners := map[];
      attached := {};
    }

    /** `bindEvent(element, type, listener, options)`: the listener is
        attached and recorded last in its element's list. */
    method BindEvent(e: Element, l: Listener)
      requires Valid()
      modifies this
      ensures Valid()
      ensures attached == old(attached) + {BindingOf(e, l)}
      ensures eventListeners == old(eventListeners)[e := (if e in old(eventListeners) then old(eventListeners)[e] else []) + [l]]
    {
      attached := attached + {BindingOf(e, l)};
      var list := if e in eventListeners then eventListeners[e] else [];
      eventListeners := eventListeners[e := list + [l]];
      assert Recorded(eventListeners) <= attached by {
        forall b | b in Recorded(eventListeners)
          ensures b in attached
        {
          var e', i :| e' in eventListeners && 0 <= i < |eventListeners[e']| && b == BindingOf(e', eventListeners[e'][i]);
          if e' == e && i == |list| {
          } else if e' == e {
            assert b in Recorded(old(eventListeners));
          } else {
            assert old(eventListeners)[e'] == eventListeners[e'];
            assert b in Recorded(old(eventListeners));
          }
        }
      }
    }

    /** `cleanupInputService`: every recorded listener is removed and the
        map is cleared; listeners bound some other way stay. */
    method Cleanup()
      requires Valid()
      modifies this
      ensures Valid() && eventListeners == map[]
      ensures attached == old(attached) - Recorded(old(eventListeners))
    {
      var rest := eventListeners;
      ghost var removed: set<Binding> := {};
      while rest != map[]
        invariant CleanupInv(old(eventListeners), old(attached), rest, removed)
        decreases |rest.Keys|
      {
        rest, removed := DetachOne(old(eventListeners), old(attached), rest, removed);
      }
      assert removed == Recorded(old(eventListeners)) by {
        assert Recorded(rest) == {};
      }
      eventListeners := map[];
      assert Recorded(eventListeners) == {};
    }

    /** The progress of `Cleanup`: the lists not yet visited are the
        original ones, and exactly the visited bindings are gone. */
    ghost predicate CleanupInv(m0: map<Element, seq<Listener>>, a0: set<Binding>,
                               rest: map<Element, seq<Listener>>, removed: set<Binding>)
      reads this
    {
      && rest.Keys <= m0.Keys
      && (forall e :: e in rest ==> rest[e] == m0[e])
      && Recorded(m0) == removed + Recorded(rest)
      && attached == a0 - removed
    }

    /** One round of `Cleanup`: the listeners of one element are removed. */
    method DetachOne(ghost m0: map<Element, seq<Listener>>, ghost a0: set<Binding>,
                     rest: map<Element, seq<Listener>>, ghost removed: set<Binding>)
      returns (rest': map<Element, seq<Listener>>, ghost removed': set<Binding>)
      requires rest != map[] && CleanupInv(m0, a0, rest, removed)
      modifies this
      ensures CleanupInv(m0, a0, rest', removed') && |rest'.Keys| < |rest.Keys|
      ensures eventListeners == old(eventListeners)
    {
      var e :| e in rest;
      Detach(e, rest[e]);
      removed' := removed + Own(e, rest[e]);
      RecordedRemove(rest, e);
      rest' := rest - {e};
      assert rest'.Keys < rest.Keys;
    }

    /** Removes the listeners `list` of element `e` from the DOM. */
    method Detach(e: Element, list: seq<Listener>)
      modifies this
      ensures attached == old(attached) - Own(e, list) && eventListeners == old(eventListeners)
    {
      var j := 0;
      while j < |list|
        invariant 0 <= j <= |list|
        invariant attached == old(attached) - (set i | 0 <= i < j :: BindingOf(e, list[i]))
        invariant eventListeners == old(eventListeners)
      {
        attached := attached - {BindingOf(e, list[j])};
        j := j + 1;
      }
    }
  }

  /** The bindings of one element's list. */
  ghost function Own(e: Element, list: seq<Listener>): set<Binding>
  {
    set i | 0 <= i < |list| :: BindingOf(e, list[i])
  }

  /** Dropping one element splits the recorded bindings. */
  lemma RecordedRemove(m: map<Element, seq<Listener>>, e: Element)
    requires e in m
    ensures Recorded(m) == Own(e, m[e]) + Recorded(m - {e})
  {
    var own := Own(e, m[e]);
    forall b | b in Recorded(m)
      ensures b in own + Recorded(m - {e})
    {
      var e', i :| e' in m && 0 <= i < |m[e']| && b == BindingOf(e', m[e'][i]);
      if e' != e {
        assert (m - {e})[e'] == m[e'];
      }
    }
    forall b | b in Recorded(m - {e})
      ensures b in Recorded(m)
    {
      var e', i :| e' in m - {e} && 0 <= i < |(m - {e})[e']| && b == BindingOf(e', (m - {e})[e'][i]);
      assert m[e'] == (m - {e})[e'];
    }
  }

  /** `initInputService`: the mouse, wheel, touch and context-menu
      listeners on the stream area (when it exists) and the mouse-up
      listener on the document. */
  method InitInputService(r: InputListeners, hasStreamArea: bool)
    requires r.Valid()
    modifies r
    ensures r.Valid()
    ensures BindingOf(Document, Listener("mouseup", OnMouseUp, None)) in r.attached
    ensures hasStreamArea ==> BindingOf(StreamArea, Listener("wheel", OnWheel, Some(false))) in r.attached
  {
    if hasStreamArea {
      r.BindEvent(StreamArea, Listener("mousedown", OnMouseDown, None));
      r.BindEvent(StreamArea, Listener("mousemove", OnMouseMove, None));
      r.BindEvent(StreamArea, Listener("mouseleave", OnMouseLeave, None));
      r.BindEvent(StreamArea, Listener("wheel", OnWheel, Some(false)));
      r.BindEvent(StreamArea, Listener("touchstart", OnTouchStart, Some(false)));
      r.BindEvent(StreamArea, Listener("touchmove", OnTouchMove, Some(false)));
      r.BindEvent(StreamArea, Listener("touchend", OnTouchEnd, None));
      r.BindEvent(StreamArea, Listener("touchcancel", OnTouchCancel, None));
      r.BindEvent(StreamArea, Listener("contextmenu", OnContextMenu, None));
    }
    r.BindEvent(Document, Listener("mouseup", OnMouseUp, None));
  }
}
