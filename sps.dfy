/** The H.264 sequence parameter set parser of the streaming session
    (src-server/scrcpySession.js, `parseSPS`): it strips an Annex B start
    code, checks the NAL unit type, reads the fields of section 7.3.2.1.1 of
    ITU-T H.264 up to the cropping window and computes the displayed frame
    size.

    The parse is specified by functions over the bit string of the RBSP
    that thread the reader position (`Step`), and carried out by methods that
    drive a `Reader` exactly as the source does; each method is proved equal
    to its function. */
module Sps {
  import opened Wrappers
  import opened Bytes
  import opened BitReader

  /** The `profile_idc` values whose SPS carries the chroma format fields. */
  const HIGH_PROFILES: seq<int> := [100, 110, 122, 244, 44, 83, 86, 118, 128, 138, 139, 134, 135]

  datatype ChromaFormat = ChromaFormat(idc: int, separate: bool)

  datatype Frame = Frame(widthMinus1: int, heightMinus1: int, frameMbsOnly: bool)

  datatype Crop = NoCrop | Crop(left: int, right: int, top: int, bottom: int)

  datatype SpsHeader = SpsHeader(chroma: ChromaFormat, frame: Frame, crop: Crop)

  datatype Size = Size(width: int, height: int)

  // ---------------------------------------------------------------------
  // Start code and NAL header

  /** The length of the Annex B start code in front of the NAL unit: 3 for
      00 00 01, 4 for 00 00 00 01, otherwise 0. */
  function StartCodeLength(nalu: seq<byte>): (n: nat)
    ensures n == 3 <==> |nalu| >= 3 && nalu[..3] == [0, 0, 1]
    ensures n == 4 <==> |nalu| >= 4 && nalu[..4] == [0, 0, 0, 1]
    ensures n == 0 || n == 3 || n == 4
  {
    if |nalu| >= 3 && nalu[0] == 0 && nalu[1] == 0 then
      if nalu[2] == 1 then 3
      else if |nalu| >= 4 && nalu[2] == 0 && nalu[3] == 1 then 4
      else 0
    else 0
  }

  /** `nal_unit_type`: the low five bits of the NAL header byte. */
  function NalUnitType(header: byte): (t: int)
    ensures 0 <= t < 32
  {
    header as int % 32
  }

  /** `parseSPS`: the frame size an SPS NAL unit announces, or `None`. */
  function ParseSps(nalu: seq<byte>): (r: Option<Size>)
  {
    if |nalu| < 1 then None
    else
      var rbsp := nalu[StartCodeLength(nalu)..];
      if |rbsp| < 1 then None
      else if NalUnitType(rbsp[0]) != 7 then None
      else
        var h := HeaderStep(BitString(rbsp[1..]), 0);
        if h.val.None? then None else Some(FrameSize(h.val.value))
  }

  // ---------------------------------------------------------------------
  // The field reads, as functions of the bit string and the position

  /** The fields after `profile_idc` up to the cropping window. */
  function HeaderStep(bits: seq<bool>, pos: nat): (r: Step<SpsHeader>)
    requires pos <= |bits|
    ensures r.pos <= |bits|
    ensures r.val.Some? ==> r.val.value.chroma.idc <= 3
    ensures r.val.Some? && r.val.value.chroma.separate ==> r.val.value.chroma.idc == 3
  {
    var profile := ReadBits(bits, pos, 8);
    var p := ReadUE(bits, ReadBits(bits, ReadBits(bits, profile.pos, 8).pos, 8).pos).pos;
    if profile.val.None? then Step(None, p)
    else
      var c := ChromaStep(bits, p, profile.val.value);
      if c.val.None? then Step(None, c.pos)
      else TailStep(bits, c.pos, c.val.value)
  }

  /** From `log2_max_frame_num_minus4` to the end of the cropping window. */
  function TailStep(bits: seq<bool>, pos: nat, chroma: ChromaFormat): (r: Step<SpsHeader>)
    requires pos <= |bits|
    ensures r.pos <= |bits|
    ensures r.val.Some? ==> r.val.value.chroma == chroma
  {
    var q := PocStep(bits, pos);
    if q.val.None? then Step(None, q.pos)
    else
      var f := FrameStep(bits, q.pos);
      if f.val.None? then Step(None, f.pos)
      else
        var cr := CropStep(bits, f.pos);
        if cr.val.None? then Step(None, cr.pos)
        else Step(Some(SpsHeader(chroma, f.val.value, cr.val.value)), cr.pos)
  }

  /** `chroma_format_idc` and `separate_colour_plane_flag` for the high
      profiles (defaults 1 and 0 otherwise), then the bit depths, the
      transform bypass flag and the scaling matrix. */
  function ChromaStep(bits: seq<bool>, pos: nat, profile: int): (r: Step<ChromaFormat>)
    requires pos <= |bits|
    ensures r.pos <= |bits|
    ensures profile !in HIGH_PROFILES ==> r == Step(Some(ChromaFormat(1, false)), pos)
    ensures r.val.Some? ==> r.val.value.idc <= 3
    ensures r.val.Some? && r.val.value.separate ==> r.val.value.idc == 3
  {
    if profile !in HIGH_PROFILES then Step(Some(ChromaFormat(1, false)), pos)
    else
      var c := ReadUE(bits, pos);
      if c.val.None? || c.val.value > 3 then Step(None, c.pos)
      else
        var idc := c.val.value;
        var s := if idc == 3 then ReadBool(bits, c.pos) else Step(Some(false), c.pos);
        if s.val.None? then Step(None, s.pos)
        else
          var m := MatrixStep(bits, s.pos, idc);
          if m.val.None? then Step(None, m.pos)
          else Step(Some(ChromaFormat(idc, s.val.value)), m.pos)
  }

  /** `bit_depth_luma_minus8`, `bit_depth_chroma_minus8`,
      `qpprime_y_zero_transform_bypass_flag` and the scaling matrix. */
  function MatrixStep(bits: seq<bool>, pos: nat, idc: int): (r: Step<()>)
    requires pos <= |bits|
    ensures r.pos <= |bits|
  {
    var p := ReadBool(bits, ReadUE(bits, ReadUE(bits, pos).pos).pos).pos;
    var m := ReadBool(bits, p);
    if m.val.None? then Step(None, m.pos)
    else if !m.val.value then Step(Some(()), m.pos)
    else ScalingLists(bits, m.pos, if idc != 3 then 8 else 12)
  }

  /** The reader after scaling lists 0 to `i - 1`: the loop of the source
      run `i` times, stopping at the first failed read. */
  function ScalingLists(bits: seq<bool>, pos: nat, i: nat): (r: Step<()>)
    requires pos <= |bits|
    ensures r.pos <= |bits|
  {
    if i == 0 then Step(Some(()), pos)
    else
      var s := ScalingLists(bits, pos, i - 1);
      if s.val.None? then s else ListEntry(bits, s.pos, i - 1)
  }

  /** Scaling list `i`: present when its flag reads as one, with 16 entries
      for the first six lists and 64 for the others. */
  function ListEntry(bits: seq<bool>, pos: nat, i: nat): (r: Step<()>)
    requires pos <= |bits|
    ensures r.pos <= |bits|
  {
    var present := ReadBool(bits, pos);
    if present.val == Some(true) then
      var l := ScalingList(bits, present.pos, if i < 6 then 16 else 64);
      Step(if l.val.None? then None else Some(()), l.pos)
    else Step(Some(()), present.pos)
  }

  /** `lastScale` and `nextScale` after entries 0 to `j - 1` of a scaling
      list, stopping at the first failed read. */
  function ScalingList(bits: seq<bool>, pos: nat, j: nat): (r: Step<(int, int)>)
    requires pos <= |bits|
    ensures r.pos <= |bits|
  {
    if j == 0 then Step(Some((8, 8)), pos)
    else
      var s := ScalingList(bits, pos, j - 1);
      if s.val.None? then s else ScaleEntry(bits, s.pos, s.val.value.0, s.val.value.1)
  }

  /** One entry: a `delta_scale` is read while `nextScale` is not zero; the
      result is the new `lastScale` and `nextScale`. */
  function ScaleEntry(bits: seq<bool>, pos: nat, last: int, next: int): (r: Step<(int, int)>)
    requires pos <= |bits|
    ensures r.pos <= |bits|
  {
    if next == 0 then Step(Some((last, next)), pos)
    else
      var delta := ReadSE(bits, pos);
      if delta.val.None? then Step(None, delta.pos)
      else
        var n := JsRem(last + delta.val.value + 256, 256);
        Step(Some((if n == 0 then last else n, n)), delta.pos)
  }

  /** `log2_max_frame_num_minus4` and the picture order count fields. */
  function PocStep(bits: seq<bool>, pos: nat): (r: Step<()>)
    requires pos <= |bits|
    ensures r.pos <= |bits|
  {
    var t := ReadUE(bits, ReadUE(bits, pos).pos);
    if t.val.None? then Step(None, t.pos)
    else if t.val.value == 0 then Step(Some(()), ReadUE(bits, t.pos).pos)
    else if t.val.value == 1 then
      var n := ReadUE(bits, ReadSE(bits, ReadSE(bits, ReadBool(bits, t.pos).pos).pos).pos);
      if n.val.None? then Step(None, n.pos)
      else Step(Some(()), SkipSE(bits, n.pos, NonNegative(n.val.value)))
    else Step(Some(()), t.pos)
  }

  /** The number of passes of a `for (i = 0; i < n; i++)` loop. */
  function NonNegative(n: int): nat { if n > 0 then n else 0 }

  /** The position after `count` signed Exp-Golomb reads whose values are
      discarded (`offset_for_ref_frame`). */
  function SkipSE(bits: seq<bool>, pos: nat, count: nat): (p: nat)
    requires pos <= |bits|
    ensures p <= |bits|
    decreases count
  {
    if count == 0 then pos else ReadSE(bits, SkipSE(bits, pos, count - 1)).pos
  }

  /** `max_num_ref_frames` to `direct_8x8_inference_flag`. */
  function FrameStep(bits: seq<bool>, pos: nat): (r: Step<Frame>)
    requires pos <= |bits|
    ensures r.pos <= |bits|
  {
    var g := ReadBool(bits, ReadUE(bits, pos).pos);
    var w := ReadUE(bits, g.pos);
    var h := ReadUE(bits, w.pos);
    var f := ReadBool(bits, h.pos);
    if w.val.None? || h.val.None? || f.val.None? then Step(None, f.pos)
    else
      var p := if !f.val.value then ReadBool(bits, f.pos).pos else f.pos;
      Step(Some(Frame(w.val.value, h.val.value, f.val.value)), ReadBool(bits, p).pos)
  }

  /** `frame_cropping_flag` and the four offsets. */
  function CropStep(bits: seq<bool>, pos: nat): (r: Step<Crop>)
    requires pos <= |bits|
    ensures r.pos <= |bits|
  {
    var flag := ReadBool(bits, pos);
    if flag.val.None? then Step(None, flag.pos)
    else if !flag.val.value then Step(Some(NoCrop), flag.pos)
    else
      var l := ReadUE(bits, flag.pos);
      var r := ReadUE(bits, l.pos);
      var t := ReadUE(bits, r.pos);
      var b := ReadUE(bits, t.pos);
      if l.val.None? || r.val.None? || t.val.None? || b.val.None? then Step(None, b.pos)
      else Step(Some(Crop(l.val.value, r.val.value, t.val.value, b.val.value)), b.pos)
  }

  // ---------------------------------------------------------------------
  // The frame size

  /** The sub-sampling factors the source uses for the crop units. */
  function SubSampling(chroma: ChromaFormat): (int, int)
  {
    if chroma.separate then (1, 1)
    else if chroma.idc == 1 then (2, 2)
    else if chroma.idc == 2 then (2, 1)
    else (1, 1)
  }

  function FrameMbsFactor(frame: Frame): int
  {
    2 - B(frame.frameMbsOnly)
  }

  /** The displayed size the source computes from the parsed fields. */
  function FrameSize(h: SpsHeader): Size
  {
    var width := (h.frame.widthMinus1 + 1) * 16;
    var height := FrameMbsFactor(h.frame) * (h.frame.heightMinus1 + 1) * 16;
    match h.crop
    case NoCrop => Size(width, height)
    case Crop(l, r, t, b) =>
      var (subWidth, subHeight) := SubSampling(h.chroma);
      Size(width - (l + r) * subWidth, height - (t + b) * subHeight * FrameMbsFactor(h.frame))
  }

  // The reference: equations 7-19 to 7-22 of ITU-T H.264 with
  // `ChromaArrayType` and Table 6-1.

  function ChromaArrayType(chroma: ChromaFormat): int
  {
    if chroma.separate then 0 else chroma.idc
  }

  /** Table 6-1 of ITU-T H.264: SubWidthC and SubHeightC of chroma formats 1 to 3. */
  function SubWidthC(idc: int): int
    requires 1 <= idc <= 3
  {
    if idc == 3 then 1 else 2
  }

  function SubHeightC(idc: int): int
    requires 1 <= idc <= 3
  {
    if idc == 1 then 2 else 1
  }

  function CropUnitX(chroma: ChromaFormat): int
    requires 0 <= ChromaArrayType(chroma) <= 3
  {
    var t := ChromaArrayType(chroma);
    if t == 0 then 1 else SubWidthC(t)
  }

  function CropUnitY(chroma: ChromaFormat, frame: Frame): int
    requires 0 <= ChromaArrayType(chroma) <= 3
  {
    var t := ChromaArrayType(chroma);
    if t == 0 then FrameMbsFactor(frame) else SubHeightC(t) * FrameMbsFactor(frame)
  }

  /** The cropped frame size as the standard defines it. */
  function StandardFrameSize(h: SpsHeader): Size
    requires 0 <= ChromaArrayType(h.chroma) <= 3
  {
    var picWidthInSamples := (h.frame.widthMinus1 + 1) * 16;
    var frameHeightInMbs := FrameMbsFactor(h.frame) * (h.frame.heightMinus1 + 1);
    match h.crop
    case NoCrop => Size(picWidthInSamples, 16 * frameHeightInMbs)
    case Crop(l, r, t, b) =>
      Size(picWidthInSamples - CropUnitX(h.chroma) * (l + r),
           16 * frameHeightInMbs - CropUnitY(h.chroma, h.frame) * (t + b))
  }

  /** For every chroma format of the standard the source's crop units are
      the standard's, so the computed size is the standard's. */
  lemma FrameSizeIsStandard(h: SpsHeader)
    requires 0 <= h.chroma.idc <= 3
    requires h.chroma.separate ==> h.chroma.idc == 3
    ensures FrameSize(h) == StandardFrameSize(h)
  {
    match h.crop
    case NoCrop =>
    case Crop(l, r, t, b) =>
      var (sw, sh) := SubSampling(h.chroma);
      assert sw == CropUnitX(h.chroma);
      assert sh * FrameMbsFactor(h.frame) == CropUnitY(h.chroma, h.frame);
  }

  /** Every SPS that parses has a chroma format the crop computation covers;
      its size is the standard's whenever `chroma_format_idc` is not negative
      (a negative value needs a 31-zero Exp-Golomb prefix, which the reader
      turns into a negative number). */
  lemma ParsedSizeIsStandard(nalu: seq<byte>)
    requires ParseSps(nalu).Some?
    ensures |nalu[StartCodeLength(nalu)..]| >= 1
    ensures var rbsp := nalu[StartCodeLength(nalu)..];
      NalUnitType(rbsp[0]) == 7 &&
      var h := HeaderStep(BitString(rbsp[1..]), 0).val.value;
      ParseSps(nalu) == Some(FrameSize(h)) &&
      (h.chroma.idc >= 0 ==> ParseSps(nalu) == Some(StandardFrameSize(h)))
  {
    var rbsp := nalu[StartCodeLength(nalu)..];
    var h := HeaderStep(BitString(rbsp[1..]), 0).val.value;
    if h.chroma.idc >= 0 {
      FrameSizeIsStandard(h);
    }
  }

  /** A start code in front of the NAL unit does not change the result. */
  lemma StartCodeIgnored(unit: seq<byte>)
    requires |unit| >= 1 && unit[0] != 0
    ensures ParseSps([0, 0, 1] + unit) == ParseSps(unit)
    ensures ParseSps([0, 0, 0, 1] + unit) == ParseSps(unit)
  {
    var s3: seq<byte> := [0, 0, 1] + unit;
    var s4: seq<byte> := [0, 0, 0, 1] + unit;
    assert s3[3..] == unit;
    assert s4[..4] == [0, 0, 0, 1];
    assert s4[4..] == unit;
  }

  /** Only NAL units of type 7 are parsed. */
  lemma OnlyType7(nalu: seq<byte>)
    requires |nalu| >= 1
    requires var rbsp := nalu[StartCodeLength(nalu)..]; rbsp == [] || NalUnitType(rbsp[0]) != 7
    ensures ParseSps(nalu) == None
  {
  }

  /** A failed read ends the loop over the scaling lists. */
  lemma {:induction false} ListsFailurePersists(bits: seq<bool>, pos: nat, j: nat, k: nat)
    requires pos <= |bits| && j <= k
    requires ScalingLists(bits, pos, j).val.None?
    ensures ScalingLists(bits, pos, k) == ScalingLists(bits, pos, j)
    decreases k - j
  {
    if j < k {
      ListsFailurePersists(bits, pos, j, k - 1);
    }
  }

  /** A failed read ends a scaling list. */
  lemma {:induction false} ListFailurePersists(bits: seq<bool>, pos: nat, j: nat, k: nat)
    requires pos <= |bits| && j <= k
    requires ScalingList(bits, pos, j).val.None?
    ensures ScalingList(bits, pos, k) == ScalingList(bits, pos, j)
    decreases k - j
  {
    if j < k {
      ListFailurePersists(bits, pos, j, k - 1);
    }
  }

  /** Once `nextScale` is zero the rest of the list reads nothing. */
  lemma {:induction false} ZeroScaleReadsNothing(bits: seq<bool>, pos: nat, j: nat, k: nat, last: int, p: nat)
    requires pos <= |bits| && j <= k
    requires ScalingList(bits, pos, j) == Step(Some((last, 0)), p)
    ensures ScalingList(bits, pos, k) == Step(Some((last, 0)), p)
    decreases k - j
  {
    if j < k {
      ZeroScaleReadsNothing(bits, pos, j, k - 1, last, p);
    }
  }

  // ---------------------------------------------------------------------
  // The parser as the source runs it, on a `Reader`

  /** `parseSPS` itself. */
  method ParseSpsM(nalu: seq<byte>) returns (r: Option<Size>)
    ensures r == ParseSps(nalu)
  {
    if |nalu| < 1 { return None; }
    var offset := 0;
    if |nalu| >= 3 && nalu[0] == 0 && nalu[1] == 0 {
      if nalu[2] == 1 { offset := 3; }
      else if |nalu| >= 4 && nalu[2] == 0 && nalu[3] == 1 { offset := 4; }
    }
    var rbsp := nalu[offset..];
    if |rbsp| < 1 { return None; }
    if rbsp[0] as int % 32 != 7 { return None; }
    var reader := new Reader(rbsp[1..]);
    var h := HeaderM(reader);
    if h.None? { return None; }
    return Some(FrameSize(h.value));
  }

  method HeaderM(reader: Reader) returns (r: Option<SpsHeader>)
    requires reader.Valid()
    modifies reader
    ensures reader.Valid()
    ensures Step(r, reader.Pos()) == HeaderStep(BitString(reader.buffer), old(reader.Pos()))
  {
    var profile := reader.ReadBitsM(8);
    var _ := reader.ReadBitsM(8);
    var _ := reader.ReadBitsM(8);
    var _ := reader.ReadUEM();
    if profile.None? { return None; }
    var chroma := ChromaM(reader, profile.value);
    if chroma.None? { return None; }
    r := TailM(reader, chroma.value);
  }

  method TailM(reader: Reader, chroma: ChromaFormat) returns (r: Option<SpsHeader>)
    requires reader.Valid()
    modifies reader
    ensures reader.Valid()
    ensures Step(r, reader.Pos()) == TailStep(BitString(reader.buffer), old(reader.Pos()), chroma)
  {
    var poc := PocM(reader);
    if poc.None? { return None; }
    var frame := FrameM(reader);
    if frame.None? { return None; }
    var crop := CropM(reader);
    if crop.None? { return None; }
    return Some(SpsHeader(chroma, frame.value, crop.value));
  }

  method ChromaM(reader: Reader, profile: int) returns (r: Option<ChromaFormat>)
    requires reader.Valid()
    modifies reader
    ensures reader.Valid()
    ensures Step(r, reader.Pos()) == ChromaStep(BitString(reader.buffer), old(reader.Pos()), profile)
  {
    if profile !in HIGH_PROFILES { return Some(ChromaFormat(1, false)); }
    var idc := reader.ReadUEM();
    if idc.None? || idc.value > 3 { return None; }
    var separate := false;
    if idc.value == 3 {
      var s := reader.ReadBoolM();
      if s.None? { return None; }
      separate := s.value;
    }
    var m := MatrixM(reader, idc.value);
    if m.None? { return None; }
    return Some(ChromaFormat(idc.value, separate));
  }

  method MatrixM(reader: Reader, idc: int) returns (r: Option<()>)
    requires reader.Valid()
    modifies reader
    ensures reader.Valid()
    ensures Step(r, reader.Pos()) == MatrixStep(BitString(reader.buffer), old(reader.Pos()), idc)
  {
    var _ := reader.ReadUEM();
    var _ := reader.ReadUEM();
    var _ := reader.ReadBoolM();
    var present := reader.ReadBoolM();
    if present.None? { return None; }
    if !present.value { return Some(()); }
    r := ScalingListsM(reader, if idc != 3 then 8 else 12);
  }

  method ScalingListsM(reader: Reader, limit: nat) returns (r: Option<()>)
    requires reader.Valid()
    modifies reader
    ensures reader.Valid()
    ensures Step(r, reader.Pos()) == ScalingLists(BitString(reader.buffer), old(reader.Pos()), limit)
  {
    ghost var bits := BitString(reader.buffer);
    ghost var start := reader.Pos();
    var i := 0;
    while i < limit
      invariant reader.Valid() && i <= limit
      invariant Step(Some(()), reader.Pos()) == ScalingLists(bits, start, i)
    {
      var e := ListEntryM(reader, i);
      if e.None? {
        ListsFailurePersists(bits, start, i + 1, limit);
        return None;
      }
      i := i + 1;
    }
    return Some(());
  }

  method ListEntryM(reader: Reader, i: nat) returns (r: Option<()>)
    requires reader.Valid()
    modifies reader
    ensures reader.Valid()
    ensures Step(r, reader.Pos()) == ListEntry(BitString(reader.buffer), old(reader.Pos()), i)
  {
    var present := reader.ReadBoolM();
    if present == Some(true) {
      r := ScalingListM(reader, if i < 6 then 16 else 64);
    } else {
      r := Some(());
    }
  }

  method ScalingListM(reader: Reader, size: nat) returns (r: Option<()>)
    requires reader.Valid()
    modifies reader
    ensures reader.Valid()
    ensures var l := ScalingList(BitString(reader.buffer), old(reader.Pos()), size);
      Step(r, reader.Pos()) == Step(if l.val.None? then None else Some(()), l.pos)
  {
    ghost var bits := BitString(reader.buffer);
    ghost var start := reader.Pos();
    var lastScale, nextScale := 8, 8;
    var j := 0;
    while j < size
      invariant reader.Valid() && j <= size
      invariant Step(Some((lastScale, nextScale)), reader.Pos()) == ScalingList(bits, start, j)
    {
      var e := ScaleEntryM(reader, lastScale, nextScale);
      if e.None? {
        ListFailurePersists(bits, start, j + 1, size);
        return None;
      }
      lastScale, nextScale := e.value.0, e.value.1;
      j := j + 1;
    }
    return Some(());
  }

  /** One pass of the `j` loop of a scaling list. */
  method ScaleEntryM(reader: Reader, last: int, next: int) returns (r: Option<(int, int)>)
    requires reader.Valid()
    modifies reader
    ensures reader.Valid()
    ensures Step(r, reader.Pos()) == ScaleEntry(BitString(reader.buffer), old(reader.Pos()), last, next)
  {
    if next == 0 { return Some((last, next)); }
    var delta := reader.ReadSEM();
    if delta.None? { return None; }
    var nextScale := JsRem(last + delta.value + 256, 256);
    return Some((if nextScale == 0 then last else nextScale, nextScale));
  }

  method PocM(reader: Reader) returns (r: Option<()>)
    requires reader.Valid()
    modifies reader
    ensures reader.Valid()
    ensures Step(r, reader.Pos()) == PocStep(BitString(reader.buffer), old(reader.Pos()))
  {
    var _ := reader.ReadUEM();
    var pocType := reader.ReadUEM();
    if pocType.None? { return None; }
    if pocType.value == 0 {
      var _ := reader.ReadUEM();
    } else if pocType.value == 1 {
      var _ := reader.ReadBoolM();
      var _ := reader.ReadSEM();
      var _ := reader.ReadSEM();
      var count := reader.ReadUEM();
      if count.None? { return None; }
      SkipSEM(reader, NonNegative(count.value));
    }
    return Some(());
  }

  /** `for (let i = 0; i < count; i++) reader.readSE();` */
  method SkipSEM(reader: Reader, count: nat)
    requires reader.Valid()
    modifies reader
    ensures reader.Valid()
    ensures reader.Pos() == SkipSE(BitString(reader.buffer), old(reader.Pos()), count)
  {
    ghost var bits := BitString(reader.buffer);
    ghost var start := reader.Pos();
    var i := 0;
    while i < count
      invariant reader.Valid() && i <= count
      invariant reader.Pos() == SkipSE(bits, start, i)
    {
      var _ := reader.ReadSEM();
      i := i + 1;
    }
  }

  method FrameM(reader: Reader) returns (r: Option<Frame>)
    requires reader.Valid()
    modifies reader
    ensures reader.Valid()
    ensures Step(r, reader.Pos()) == FrameStep(BitString(reader.buffer), old(reader.Pos()))
  {
    var _ := reader.ReadUEM();
    var _ := reader.ReadBoolM();
    var w := reader.ReadUEM();
    var h := reader.ReadUEM();
    var f := reader.ReadBoolM();
    if w.None? || h.None? || f.None? { return None; }
    if !f.value {
      var _ := reader.ReadBoolM();
    }
    var _ := reader.ReadBoolM();
    return Some(Frame(w.value, h.value, f.value));
  }

  method CropM(reader: Reader) returns (r: Option<Crop>)
    requires reader.Valid()
    modifies reader
    ensures reader.Valid()
    ensures Step(r, reader.Pos()) == CropStep(BitString(reader.buffer), old(reader.Pos()))
  {
    var flag := reader.ReadBoolM();
    if flag.None? { return None; }
    if !flag.value { return Some(NoCrop); }
    var left := reader.ReadUEM();
    var right := reader.ReadUEM();
    var top := reader.ReadUEM();
    var bottom := reader.ReadUEM();
    if left.None? || right.None? || top.None? || bottom.None? { return None; }
    return Some(Crop(left.value, right.value, top.value, bottom.value));
  }
}
