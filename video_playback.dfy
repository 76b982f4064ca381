/** The client's video bookkeeping (src-client/services/videoPlaybackService.js):
    the device size shown for the stream, the I-frame test, the periodic
    trimming of the media buffer and the bounded list of arrival samples.
    The `<video>` element and the converter are observed through parameters
    (buffered range, current time, whether a source buffer exists or is
    updating, whether `remove` throws); the converter's own decoding and
    the DOM class changes beyond the flags returned here are not part of
    this model. */
module VideoPlayback {
  import opened Wrappers
  import opened Bytes
  import opened Text
  import opened ClientState

  const NALU_TYPE_IDR := 5
  const FRAME_CHECK_INTERVAL := 2
  const DEFAULT_FRAMES_PER_SECOND := 30
  /** `inputBytes` is shifted once it holds more than this many samples. */
  const INPUT_BYTES_SHIFT_AT := 200
  const DEFAULT_ASPECT := "9 / 16"
  const RESOLUTION_CHANGED := "Resolution changed to "

  // ---------------------------------------------------------------------
  // `handleVideoInfo`
  // ---------------------------------------------------------------------

  /** The `WxH` text of a device size. */
  function ResolutionText(width: int, height: int): string
  {
    IntToString(width) + "x" + IntToString(height)
  }

  /** The new state and what the page shows: whether the placeholder is
      hidden, whether the video is marked visible, and the stream area's
      aspect ratio. */
  datatype VideoInfo = VideoInfo(state: Globals, placeholderHidden: bool, videoVisible: bool, aspectRatio: string)

  /** `handleVideoInfo(width, height)`: the size and its text are stored;
      the video shows once either side is positive, and the aspect ratio is
      the size's only when both sides are. */
  function ShowVideoInfo(g: Globals, width: int, height: int): (v: VideoInfo)
    ensures v.state == g.(dims := Dims(width, height, ResolutionText(width, height)))
    ensures v.placeholderHidden <==> width > 0 || height > 0
    ensures v.videoVisible == v.placeholderHidden
    ensures width > 0 && height > 0 ==> v.aspectRatio == IntToString(width) + " / " + IntToString(height)
    ensures !(width > 0 && height > 0) ==> v.aspectRatio == DEFAULT_ASPECT
  {
    var shown := width > 0 || height > 0;
    VideoInfo(g.(dims := Dims(width, height, ResolutionText(width, height))), shown, shown,
              if width > 0 && height > 0 then IntToString(width) + " / " + IntToString(height) else DEFAULT_ASPECT)
  }

  /** The text of a non-negative size reads back as the two numbers it was
      made from. */
  lemma ResolutionReadsBack(width: nat, height: nat)
    ensures Number(ResolutionText(width, height)) == Some((width, "x" + NatToString(height)))
    ensures Number(NatToString(height)) == Some((height, ""))
  {
    assert ResolutionText(width, height) == NatToString(width) + ("x" + NatToString(height));
    NumberOf(width, "x" + NatToString(height));
    assert NatToString(height) + "" == NatToString(height);
    NumberOf(height, "");
  }

  /** `stopVideoConverter` ends with `handleVideoInfo(0, 0)`: the size it
      leaves is the one that call stores, and the placeholder shows again. */
  lemma StopShowsPlaceholder(g: Globals)
    ensures ShowVideoInfo(g, 0, 0).state.dims == Dims(0, 0, "0x0")
    ensures !ShowVideoInfo(g, 0, 0).placeholderHidden
    ensures ShowVideoInfo(g, 0, 0).aspectRatio == DEFAULT_ASPECT
  {
    assert NatToString(0) == "0";
  }

  method HandleVideoInfo(g: GlobalState, width: int, height: int)
    returns (placeholderHidden: bool, videoVisible: bool, aspectRatio: string)
    modifies g
    ensures VideoInfo(g.Snap(), placeholderHidden, videoVisible, aspectRatio) == ShowVideoInfo(old(g.Snap()), width, height)
  {
    g.dims := Dims(width, height, IntToString(width) + "x" + IntToString(height));
    if g.dims.width > 0 && g.dims.height > 0 {
      aspectRatio := IntToString(g.dims.width) + " / " + IntToString(g.dims.height);
    } else {
      aspectRatio := DEFAULT_ASPECT;
    }
    placeholderHidden := width > 0 || height > 0;
    videoVisible := width > 0 || height > 0;
  }

  // ---------------------------------------------------------------------
  // `initializeVideoConverter`
  // ---------------------------------------------------------------------

  /** `parseInt(maxFpsSelect.value) || DEFAULT_FRAMES_PER_SECOND`: a value
      that does not parse, or parses to 0, falls back to 30. */
  function ConverterFps(selected: string): (fps: int)
    ensures fps != 0
    ensures ParseInt(selected).Some? && ParseInt(selected).value != 0 ==> fps == ParseInt(selected).value
    ensures ParseInt(selected).None? ==> fps == DEFAULT_FRAMES_PER_SECOND
  {
    match ParseInt(selected)
    case Some(v) => if v != 0 then v else DEFAULT_FRAMES_PER_SECOND
    case None => DEFAULT_FRAMES_PER_SECOND
  }

  /** A rendered positive rate is used as it is. */
  lemma ConverterFpsOfRate(n: nat)
    requires n > 0
    ensures ConverterFps(NatToString(n)) == n
  {
    ParseIntOfNat(n);
  }

  /** The converter is created, the source buffer is the converter's own
      (when it has one) and the size goes back to 0x0. */
  function InitConverter(g: Globals, converterSourceBuffer: bool): (r: Globals)
    ensures r.stream == g.stream.(converter := true, sourceBuffer := converterSourceBuffer)
    ensures r.dims == Dims(0, 0, ResolutionText(0, 0))
    ensures r == g.(stream := r.stream, dims := r.dims)
  {
    ShowVideoInfo(g.(stream := g.stream.(converter := true, sourceBuffer := converterSourceBuffer)), 0, 0).state
  }

  /** `initializeVideoConverter()`; the returned `fps` is what the converter
      is created with. */
  method InitializeVideoConverter(g: GlobalState, selectedFps: string, converterSourceBuffer: bool)
    returns (fps: int)
    modifies g
    ensures fps == ConverterFps(selectedFps)
    ensures g.Snap() == InitConverter(old(g.Snap()), converterSourceBuffer)
  {
    var parsed := ParseInt(selectedFps);
    fps := if parsed.Some? && parsed.value != 0 then parsed.value else DEFAULT_FRAMES_PER_SECOND;
    g.stream := g.stream.(converter := true, sourceBuffer := converterSourceBuffer);
    var _, _, _ := HandleVideoInfo(g, 0, 0);
  }

  // ---------------------------------------------------------------------
  // `isIFrame`
  // ---------------------------------------------------------------------

  /** `isIFrame(frameData)`: the NAL unit after a leading 3- or 4-byte start
      code has type 5 (`& 0x1F` of a byte is its remainder modulo 32). */
  function IsIFrame(f: seq<byte>): bool
  {
    if |f| < 4 then false
    else
      var offset :=
        if f[0] == 0 && f[1] == 0 then
          if f[2] == 1 then 3
          else if |f| > 3 && f[2] == 0 && f[3] == 1 then 4
          else 0
        else 0;
      offset > 0 && |f| > offset && f[offset] as int % 32 == NALU_TYPE_IDR
  }

  /** A frame is an I-frame exactly when it is at least 4 bytes long and
      either `00 00 01` is followed by an IDR header, or `00 00 00 01` is
      followed by one; a frame without a start code at its front never is. */
  lemma IFrameShape(f: seq<byte>)
    ensures IsIFrame(f) <==>
      |f| >= 4 && f[0] == 0 && f[1] == 0 &&
      ((f[2] == 1 && f[3] as int % 32 == 5)
       || (f[2] == 0 && f[3] == 1 && |f| > 4 && f[4] as int % 32 == 5))
  {
  }

  // ---------------------------------------------------------------------
  // `checkForIFrameAndCleanBuffer`
  // ---------------------------------------------------------------------

  /** `IS_SAFARI`, `IS_CHROME` and `IS_MAC`. */
  datatype Browser = Browser(isSafari: bool, isChrome: bool, isMac: bool)

  /** `MAX_BUFFER_CLEAN`, in seconds. */
  function MaxBufferClean(b: Browser): real
  {
    if b.isSafari then 2.0 else if b.isChrome && b.isMac then 1.2 else 0.5
  }

  /** `buffered.start(0)` and `buffered.end(0)` of the `<video>` element. */
  datatype Range = Range(start: real, end: real)

  /** What the check reads from the page: the first buffered range (`None`
      when nothing is buffered), the current time, and whether the
      converter has a source buffer. */
  datatype Playback = Playback(browser: Browser, buffered: Option<Range>, currentTime: real, converterSourceBuffer: bool)

  /** Truncation toward zero. */
  function Trunc(t: real): int
  {
    if t >= 0.0 then t.Floor else -((-t).Floor)
  }

  /** `t | 0`: truncation toward zero, then 32-bit two's-complement wrap. */
  function OrZero(t: real): int
  {
    Signed(TwosComplement(Trunc(t), 4), 4)
  }

  /** Media times below 2^31 seconds lose only their fraction. */
  lemma OrZeroSmall(t: real)
    requires 0.0 <= t < 2147483648.0
    ensures OrZero(t) == t.Floor
  {
    assert Pow256(4) == TWO_32 by { Pow256Values(); }
    assert 0 <= t.Floor < 2147483648;
  }

  /** The frame counter cycles through 0 and 1; `JsRem` is the sign-keeping
      `%` of JavaScript. */
  function CounterStep(c: int): int
  {
    JsRem(c + 1, FRAME_CHECK_INTERVAL)
  }

  /** From any reachable counter value, two frames bring the counter back
      to where it was, and exactly one of the two lets the check go on. */
  lemma CounterAlternates(c: int)
    requires 0 <= c < FRAME_CHECK_INTERVAL
    ensures 0 <= CounterStep(c) < FRAME_CHECK_INTERVAL
    ensures CounterStep(CounterStep(c)) == c
    ensures (CounterStep(c) == 0) != (CounterStep(CounterStep(c)) == 0)
  {
  }

  /** The fields the check reads and writes: `frameCheckCounter`,
      whether `sourceBufferInternal` is set, and the remove markers. */
  datatype Marks = Marks(counter: int, sourceBuffer: bool, removeStart: real, removeEnd: real)

  function MarksOf(g: Globals): Marks
  {
    Marks(g.frameCheckCounter, g.stream.sourceBuffer, g.stream.removeStart, g.stream.removeEnd)
  }

  /** `g` with its marks replaced by `m`. */
  function WithMarks(g: Globals, m: Marks): (r: Globals)
    ensures MarksOf(r) == m
  {
    g.(frameCheckCounter := m.counter,
       stream := g.stream.(sourceBuffer := m.sourceBuffer, removeStart := m.removeStart, removeEnd := m.removeEnd))
  }

  /** The marks after a check and whether a one-shot `updateend` listener
      (`cleanSourceBuffer`) is added. */
  datatype Check = Check(marks: Marks, listens: bool)

  /** The range the check would schedule: the first buffered range with an
      integer end, when that end is not 0 and after its start. */
  function Candidate(p: Playback): Option<Range>
  {
    match p.buffered
    case None => None
    case Some(r) =>
      var end := OrZero(r.end) as real;
      if end != 0.0 && r.start < end then Some(Range(r.start, end)) else None
  }

  /** The new remove markers for a candidate range: a pending range (one
      whose end is not -1) only has its end pushed out; otherwise the
      candidate becomes the range. */
  function Grow(m: Marks, c: Range): (r: Marks)
    ensures r.counter == m.counter && r.sourceBuffer == m.sourceBuffer
    ensures m.removeEnd != -1.0 ==>
      r.removeStart == m.removeStart && r.removeEnd >= m.removeEnd && r.removeEnd >= c.end
      && (r.removeEnd == m.removeEnd || r.removeEnd == c.end)
    ensures m.removeEnd == -1.0 ==> r.removeStart == c.start && r.removeEnd == c.end
  {
    if m.removeEnd != -1.0 then m.(removeEnd := if m.removeEnd >= c.end then m.removeEnd else c.end)
    else m.(removeStart := c.start, removeEnd := c.end)
  }

  /** Whether the buffered media ahead of the current time is long enough
      to be worth trimming. */
  predicate EnoughBuffered(p: Playback)
  {
    p.buffered.Some? && p.buffered.value.end - p.currentTime >= MaxBufferClean(p.browser) * 1.5
  }

  /** The part of the check after the counter let it go on. */
  function Scan(m: Marks, converter: bool, p: Playback, frame: seq<byte>): Check
  {
    if !EnoughBuffered(p) then Check(m, false)
    else
      var m2 := if m.sourceBuffer then m else m.(sourceBuffer := converter && p.converterSourceBuffer);
      if !m2.sourceBuffer || !IsIFrame(frame) then Check(m2, false)
      else match Candidate(p)
        case None => Check(m2, false)
        case Some(c) => Check(Grow(m2, c), true)
  }

  /** `checkForIFrameAndCleanBuffer(frame)` on the marks; `converter` says
      whether a converter exists. */
  function CheckMarks(m: Marks, converter: bool, p: Playback, frame: seq<byte>): Check
  {
    if p.browser.isSafari then Check(m, false)
    else
      var m1 := m.(counter := CounterStep(m.counter));
      if m1.counter != 0 then Check(m1, false) else Scan(m1, converter, p, frame)
  }

  /** What a check does: Safari skips it; otherwise the counter steps and
      the source buffer may be picked up from the converter. The remove
      markers change, and the clean-up is scheduled, only on a counted
      I-frame with enough buffered media, a source buffer and a candidate
      range; a pending range only grows, keeping its start, and the start is
      set only when no range was pending. */
  lemma CheckMarksRules(m: Marks, converter: bool, p: Playback, frame: seq<byte>)
    ensures var r := CheckMarks(m, converter, p, frame);
      (p.browser.isSafari ==> r == Check(m, false))
      && (!p.browser.isSafari ==> r.marks.counter == CounterStep(m.counter))
      && (m.sourceBuffer ==> r.marks.sourceBuffer)
      && (r.marks.sourceBuffer && !m.sourceBuffer ==> converter)
      && (r.listens <==>
            !p.browser.isSafari && CounterStep(m.counter) == 0 && EnoughBuffered(p) && IsIFrame(frame)
            && r.marks.sourceBuffer && Candidate(p).Some?)
      && (!r.listens ==> r.marks.removeStart == m.removeStart && r.marks.removeEnd == m.removeEnd)
      && (r.listens && m.removeEnd == -1.0 ==>
            r.marks.removeStart == Candidate(p).value.start && r.marks.removeEnd == Candidate(p).value.end)
      && (m.removeEnd != -1.0 ==>
            r.marks.removeStart == m.removeStart && r.marks.removeEnd >= m.removeEnd)
  {
  }

  /** The state after the check and whether the clean-up is scheduled. */
  datatype CheckStep = CheckStep(state: Globals, listens: bool)

  /** `checkForIFrameAndCleanBuffer(frame)`: only the marks change. */
  function CheckFrame(g: Globals, p: Playback, frame: seq<byte>): CheckStep
  {
    var c := CheckMarks(MarksOf(g), g.stream.converter, p, frame);
    CheckStep(WithMarks(g, c.marks), c.listens)
  }

  /** The pending-range step of the check, worked on the marks. */
  method ScanFrame(m: Marks, converter: bool, p: Playback, frame: seq<byte>) returns (r: Marks, listens: bool)
    ensures Check(r, listens) == Scan(m, converter, p, frame)
  {
    r, listens := m, false;
    if p.buffered.None? {
      return;
    }
    var buffered := p.buffered.value.end - p.currentTime;
    if buffered < MaxBufferClean(p.browser) * 1.5 {
      return;
    }
    if !r.sourceBuffer {
      r := r.(sourceBuffer := converter && p.converterSourceBuffer);
      if !r.sourceBuffer {
        return;
      }
    }
    if !IsIFrame(frame) {
      return;
    }
    var start := p.buffered.value.start;
    var end := OrZero(p.buffered.value.end) as real;
    if end != 0.0 && start < end {
      if r.removeEnd != -1.0 {
        r := r.(removeEnd := if r.removeEnd >= end then r.removeEnd else end);
      } else {
        r := r.(removeStart := start, removeEnd := end);
      }
      listens := true;
    }
  }

  /** `checkForIFrameAndCleanBuffer(frame)` on the client's state: the
      counter is stepped in place, and the marks the scan computes are
      written back to the state's fields. */
  method CheckForIFrameAndCleanBuffer(g: GlobalState, p: Playback, frame: seq<byte>) returns (listens: bool)
    modifies g
    ensures CheckStep(g.Snap(), listens) == CheckFrame(old(g.Snap()), p, frame)
  {
    listens := false;
    if p.browser.isSafari {
      return;
    }
    g.frameCheckCounter := JsRem(g.frameCheckCounter + 1, FRAME_CHECK_INTERVAL);
    if g.frameCheckCounter != 0 {
      return;
    }
    var m;
    m, listens := ScanFrame(MarksOf(g.Snap()), g.stream.converter, p, frame);
    g.stream := g.stream.(sourceBuffer := m.sourceBuffer, removeStart := m.removeStart, removeEnd := m.removeEnd);
  }

  // ---------------------------------------------------------------------
  // `cleanSourceBuffer`
  // ---------------------------------------------------------------------

  /** The state after a clean-up, the range passed to `remove` (when it is
      called and does not throw), and whether the `updateend` listener is
      added again. */
  datatype CleanStep = CleanStep(state: Globals, removed: Option<Range>, listens: bool)

  /** A range `remove` can be asked for: a start that is not negative and an
      end after it. */
  predicate ValidRange(start: real, end: real) { 0.0 <= start && start < end }

  /** `cleanSourceBuffer()`: `updating` and `removeThrows` describe the
      source buffer. */
  function Clean(g: Globals, updating: bool, removeThrows: bool): (c: CleanStep)
    ensures c.listens <==> c.removed.Some?
    ensures c.removed.Some? <==>
      g.stream.sourceBuffer && !updating && ValidRange(g.stream.removeStart, g.stream.removeEnd) && !removeThrows
    ensures c.removed.Some? ==>
      c.state == g && c.removed.value == Range(g.stream.removeStart, g.stream.removeEnd)
    ensures c.removed.None? ==>
      c.state == g.(stream := g.stream.(removeStart := -1.0, removeEnd := -1.0))
  {
    var s := g.stream;
    var reset := g.(stream := s.(removeStart := -1.0, removeEnd := -1.0));
    if !s.sourceBuffer || updating || s.removeStart < 0.0 || s.removeEnd <= s.removeStart then
      CleanStep(reset, None, false)
    else if removeThrows then CleanStep(reset, None, false)
    else CleanStep(g, Some(Range(s.removeStart, s.removeEnd)), true)
  }

  /** A range scheduled on a stream with none pending is exactly the
      candidate range, and the next clean-up of an idle buffer removes it
      (media times are not negative). */
  lemma ScheduledRangeRemoved(g: Globals, p: Playback, frame: seq<byte>)
    requires g.stream.removeEnd == -1.0
    requires p.buffered.Some? && 0.0 <= p.buffered.value.start
    requires CheckFrame(g, p, frame).listens
    ensures var c := Clean(CheckFrame(g, p, frame).state, false, false);
      c.removed == Candidate(p) && c.listens
  {
    CheckMarksRules(MarksOf(g), g.stream.converter, p, frame);
  }

  /** A failed or refused clean-up leaves no range, and the next one does
      nothing but keep it that way. */
  lemma CleanAfterReset(g: Globals, updating: bool, removeThrows: bool, updating2: bool, throws2: bool)
    requires Clean(g, updating, removeThrows).removed.None?
    ensures var once := Clean(g, updating, removeThrows).state;
      Clean(once, updating2, throws2) == CleanStep(once, None, false)
  {
  }

  method CleanSourceBuffer(g: GlobalState, updating: bool, removeThrows: bool)
    returns (removed: Option<Range>, listens: bool)
    modifies g
    ensures CleanStep(g.Snap(), removed, listens) == Clean(old(g.Snap()), updating, removeThrows)
  {
    if !g.stream.sourceBuffer || updating || g.stream.removeStart < 0.0 || g.stream.removeEnd <= g.stream.removeStart {
      g.stream := g.stream.(removeStart := -1.0, removeEnd := -1.0);
      return None, false;
    }
    if removeThrows {
      g.stream := g.stream.(removeStart := -1.0, removeEnd := -1.0);
      return None, false;
    }
    removed, listens := Some(Range(g.stream.removeStart, g.stream.removeEnd)), true;
  }

  // ---------------------------------------------------------------------
  // `handleVideoData`
  // ---------------------------------------------------------------------

  /** `inputBytes` after a chunk of `size` bytes arrives at `now`. */
  function Sampled(samples: seq<InputSample>, now: int, size: nat): seq<InputSample>
  {
    (if |samples| > INPUT_BYTES_SHIFT_AT then samples[1..] else samples) + [InputSample(now, size)]
  }

  /** The samples stay within 201 entries, the newest last, and only the
      oldest one is ever dropped. */
  lemma SampledBound(samples: seq<InputSample>, now: int, size: nat)
    requires |samples| <= INPUT_BYTES_SHIFT_AT + 1
    ensures var r := Sampled(samples, now, size);
      |r| <= INPUT_BYTES_SHIFT_AT + 1 && r[|r| - 1] == InputSample(now, size)
      && (|samples| <= INPUT_BYTES_SHIFT_AT ==> r == samples + [InputSample(now, size)])
      && (|samples| > INPUT_BYTES_SHIFT_AT ==> r == samples[1..] + [InputSample(now, size)])
  {
  }

  /** The state after a chunk, whether it was handed to the converter and
      whether the clean-up was scheduled. */
  datatype DataStep = DataStep(state: Globals, fed: bool, listens: bool)

  /** `handleVideoData(payload)` at clock reading `now`. */
  function VideoData(g: Globals, p: Playback, payload: seq<byte>, now: int): (d: DataStep)
    ensures d.fed <==> g.stream.converter
    ensures !d.fed ==> d.state == g && !d.listens
    ensures d.fed ==>
      var sampled := g.(stream := g.stream.(inputBytes := Sampled(g.stream.inputBytes, now, |payload|)));
      CheckStep(d.state, d.listens) == CheckFrame(sampled, p, payload)
  {
    if !g.stream.converter then DataStep(g, false, false)
    else
      var sampled := g.(stream := g.stream.(inputBytes := Sampled(g.stream.inputBytes, now, |payload|)));
      var c := CheckFrame(sampled, p, payload);
      DataStep(c.state, true, c.listens)
  }

  /** A chunk keeps `inputBytes` within its bound and records the chunk
      last: the check that follows does not touch the samples. */
  lemma VideoDataBound(g: Globals, p: Playback, payload: seq<byte>, now: int)
    requires |g.stream.inputBytes| <= INPUT_BYTES_SHIFT_AT + 1
    requires g.stream.converter
    ensures var s := VideoData(g, p, payload, now).state.stream.inputBytes;
      |s| <= INPUT_BYTES_SHIFT_AT + 1 && s[|s| - 1] == InputSample(now, |payload|)
  {
    var sampled := g.(stream := g.stream.(inputBytes := Sampled(g.stream.inputBytes, now, |payload|)));
    SampledBound(g.stream.inputBytes, now, |payload|);
  }

  method HandleVideoData(g: GlobalState, p: Playback, payload: seq<byte>, now: int)
    returns (fed: bool, listens: bool)
    modifies g
    ensures DataStep(g.Snap(), fed, listens) == VideoData(old(g.Snap()), p, payload, now)
  {
    if !g.stream.converter {
      return false, false;
    }
    var samples := g.stream.inputBytes;
    if |samples| > INPUT_BYTES_SHIFT_AT {
      samples := samples[1..];
    }
    samples := samples + [InputSample(now, |payload|)];
    g.stream := g.stream.(inputBytes := samples);
    assert g.Snap() == old(g.Snap()).(stream := old(g.stream).(inputBytes := Sampled(old(g.stream.inputBytes), now, |payload|)));
    fed := true;
    listens := CheckForIFrameAndCleanBuffer(g, p, payload);
  }

  // ---------------------------------------------------------------------
  // `updateVideoResolutionInStream`
  // ---------------------------------------------------------------------

  /** The state after a size report and the log line it writes. */
  datatype ResolutionStep = ResolutionStep(state: Globals, logged: Option<string>)

  /** `updateVideoResolutionInStream(width, height)`. */
  function ResolutionUpdate(g: Globals, width: int, height: int): (r: ResolutionStep)
    ensures r.logged.Some? <==> g.isRunning && (width != g.dims.width || height != g.dims.height)
    ensures r.logged.None? ==> r.state == g
    ensures r.logged.Some? ==>
      r.state == ShowVideoInfo(g, width, height).state
      && r.logged.value == RESOLUTION_CHANGED + ResolutionText(width, height)
  {
    if !g.isRunning then ResolutionStep(g, None)
    else if width != g.dims.width || height != g.dims.height then
      ResolutionStep(ShowVideoInfo(g, width, height).state, Some(RESOLUTION_CHANGED + ResolutionText(width, height)))
    else ResolutionStep(g, None)
  }

  /** Reporting the same size twice changes nothing the second time. */
  lemma ResolutionUpdateIdempotent(g: Globals, width: int, height: int)
    ensures var once := ResolutionUpdate(g, width, height).state;
      ResolutionUpdate(once, width, height) == ResolutionStep(once, None)
      && once.dims.width == (if g.isRunning then width else g.dims.width)
  {
  }

  method UpdateVideoResolutionInStream(g: GlobalState, width: int, height: int)
    returns (logged: Option<string>)
    modifies g
    ensures ResolutionStep(g.Snap(), logged) == ResolutionUpdate(old(g.Snap()), width, height)
  {
    logged := None;
    if !g.isRunning {
      return;
    }
    if width != g.dims.width || height != g.dims.height {
      var _, _, _ := HandleVideoInfo(g, width, height);
      logged := Some(RESOLUTION_CHANGED + g.dims.resolution);
    }
  }
}
