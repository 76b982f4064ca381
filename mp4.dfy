/** The MP4 writers of the bundled converter (public/main.js, `MP4`) that
    the fragmented stream is built from: a box of ISO/IEC 14496-12 section
    4.2 (a 32-bit big-endian size that counts the whole box, the 4-byte
    type, the payloads one after the other) and the track run box `trun`
    of section 8.8.8, which lists the size of every sample of a
    fragment. */
module Mp4 {
  import opened Wrappers
  import opened Bytes
  import opened TypedArray

  // ---------------------------------------------------------------------
  // `MP4.box`
  // ---------------------------------------------------------------------

  /** The summed length of the payloads. */
  function PayloadSize(ps: seq<seq<byte>>): nat
  {
    if ps == [] then 0 else PayloadSize(ps[..|ps| - 1]) + |ps[|ps| - 1]|
  }

  /** The payloads one after the other. */
  function Concat(ps: seq<seq<byte>>): (r: seq<byte>)
    ensures |r| == PayloadSize(ps)
  {
    if ps == [] then [] else Concat(ps[..|ps| - 1]) + ps[|ps| - 1]
  }

  /** A 32-bit big-endian word as `MP4` writes it: `v >>> 24 & 255`,
      `v >>> 16 & 255`, `v >>> 8 & 255`, `v & 255` (the box size uses `>>`,
      which leaves the same low bytes), each shift by 8 being a division
      by 256. */
  function Word(v: nat): seq<byte>
  {
    [(v / 256 / 256 / 256 % 256) as byte, (v / 256 / 256 % 256) as byte, (v / 256 % 256) as byte, (v % 256) as byte]
  }

  /** The word is the four-byte big-endian encoding. */
  lemma WordIsBE(v: nat)
    ensures Word(v) == BE(v, 4)
  {
  }

  /** A word reads back modulo 2^32, and exactly below 2^32. */
  lemma Word32(v: nat)
    ensures |Word(v)| == 4 && BEValue(Word(v)) == v % TWO_32
    ensures v < TWO_32 ==> BEValue(Word(v)) == v
  {
    WordIsBE(v);
    Pow256Values();
    BERoundTrip(v, 4);
    if v < TWO_32 {
      DivModUnique(v, TWO_32, 0, v);
    }
  }

  /** The bytes of a box: the size (8 for the header, then the payloads)
      as a 32-bit word, which keeps it modulo 2^32, the type, the
      payloads. */
  function BoxOf(type_: seq<byte>, ps: seq<seq<byte>>): seq<byte>
  {
    Word(8 + PayloadSize(ps)) + type_ + Concat(ps)
  }

  /** A box reads back as a box: the size field is its length, the type
      follows it, and the payloads after them. */
  lemma BoxRoundTrip(type_: seq<byte>, ps: seq<seq<byte>>)
    requires |type_| == 4 && 8 + PayloadSize(ps) < TWO_32
    ensures var r := BoxOf(type_, ps);
      |r| == 8 + PayloadSize(ps)
      && BEValue(r[..4]) == |r| && r[4..8] == type_ && r[8..] == Concat(ps)
  {
    var h := Word(8 + PayloadSize(ps));
    Word32(8 + PayloadSize(ps));
    BoxParts(h, type_, Concat(ps));
  }

  lemma BoxParts(h: seq<byte>, type_: seq<byte>, c: seq<byte>)
    requires |h| == 4 && |type_| == 4
    ensures var r := h + type_ + c;
      r[..4] == h && r[4..8] == type_ && r[8..] == c
  {
  }

  /** Each payload sits at 8 plus the lengths of the ones before it. */
  lemma BoxPayloadAt(type_: seq<byte>, ps: seq<seq<byte>>, k: nat)
    requires |type_| == 4 && k < |ps|
    ensures var r := BoxOf(type_, ps);
      var at := 8 + PayloadSize(ps[..k]);
      at + |ps[k]| <= |r| && r[at..at + |ps[k]|] == ps[k]
  {
    var h := Word(8 + PayloadSize(ps));
    Word32(8 + PayloadSize(ps));
    ConcatAt(ps, k);
    var a := PayloadSize(ps[..k]);
    var c := Concat(ps);
    assert (h + type_ + c)[8 + a..8 + a + |ps[k]|] == c[a..a + |ps[k]|];
  }

  /** Payload `k` sits in the concatenation after the ones before it. */
  lemma {:induction false} ConcatAt(ps: seq<seq<byte>>, k: nat)
    requires k < |ps|
    ensures PayloadSize(ps[..k]) + |ps[k]| <= PayloadSize(ps)
    ensures Concat(ps)[PayloadSize(ps[..k])..PayloadSize(ps[..k]) + |ps[k]|] == ps[k]
    decreases |ps|
  {
    var init := ps[..|ps| - 1];
    if k == |ps| - 1 {
      assert ps[..k] == init;
    } else {
      ConcatAt(init, k);
      assert init[..k] == ps[..k] && init[k] == ps[k];
      var a := PayloadSize(ps[..k]);
      assert Concat(ps)[a..a + |ps[k]|] == Concat(init)[a..a + |ps[k]|];
    }
  }

  lemma ConcatSnoc(ps: seq<seq<byte>>, k: nat)
    requires k < |ps|
    ensures Concat(ps[..k + 1]) == Concat(ps[..k]) + ps[k]
    ensures PayloadSize(ps[..k + 1]) == PayloadSize(ps[..k]) + |ps[k]|
  {
    assert ps[..k + 1][..k] == ps[..k];
  }

  /** Setting `x` right after what is filled in extends it by `x`. */
  lemma Placed(a: seq<byte>, at: nat, x: seq<byte>)
    requires at + |x| <= |a|
    ensures Overwrite(a, x, at)[..at + |x|] == a[..at] + x
  {
    var r := Overwrite(a, x, at);
    assert r[..at + |x|] == r[..at] + r[at..at + |x|];
  }

  /** The two header writes of a box. */
  lemma BoxHeader(z: seq<byte>, h: seq<byte>, type_: seq<byte>)
    requires |h| == 4 && |type_| == 4 && 8 <= |z|
    ensures Overwrite(Overwrite(z, h, 0), type_, 4)[..8] == h + type_
  {
    OverwriteAdjacent(z, h, type_, 0);
    Placed(z, 0, h + type_);
  }

  /** The first loop of `MP4.box`: 8 plus the payload lengths. */
  method BoxSize(payload: seq<seq<byte>>) returns (size: nat)
    ensures size == 8 + PayloadSize(payload)
  {
    size := 8;
    var i := 0;
    while i < |payload|
      invariant 0 <= i <= |payload|
      invariant size == 8 + PayloadSize(payload[..i])
    {
      ConcatSnoc(payload, i);
      size := size + |payload[i]|;
      i := i + 1;
    }
    assert payload[..i] == payload;
  }

  /** The second loop of `MP4.box`: each payload set after the one
      before, from 8 on. */
  method SetPayloads(result: array<byte>, payload: seq<seq<byte>>, ghost prefix: seq<byte>)
    requires |prefix| == 8 && 8 + PayloadSize(payload) == result.Length
    requires result[..8] == prefix
    modifies result
    ensures result[..] == prefix + Concat(payload)
  {
    var size := 8;
    var i := 0;
    while i < |payload|
      invariant 0 <= i <= |payload|
      invariant size == 8 + PayloadSize(payload[..i]) <= result.Length == 8 + PayloadSize(payload)
      invariant result[..size] == prefix + Concat(payload[..i])
    {
      SetStep(result[..], payload, i, size, prefix);
      Set(result, payload[i], size);
      size := size + |payload[i]|;
      i := i + 1;
    }
    SetDone(result[..], payload, i, size, prefix);
  }

  /** One step of the second loop of `MP4.box`. */
  lemma SetStep(a: seq<byte>, payload: seq<seq<byte>>, i: nat, size: nat, prefix: seq<byte>)
    requires i < |payload| && |a| == 8 + PayloadSize(payload)
    requires size == 8 + PayloadSize(payload[..i]) <= |a| && a[..size] == prefix + Concat(payload[..i])
    ensures size + |payload[i]| == 8 + PayloadSize(payload[..i + 1]) <= |a|
    ensures Overwrite(a, payload[i], size)[..size + |payload[i]|] == prefix + Concat(payload[..i + 1])
  {
    ConcatSnoc(payload, i);
    ConcatAt(payload, i);
    Placed(a, size, payload[i]);
  }

  /** The second loop of `MP4.box` ends with every payload set. */
  lemma SetDone(a: seq<byte>, payload: seq<seq<byte>>, i: nat, size: nat, prefix: seq<byte>)
    requires i == |payload| && |a| == 8 + PayloadSize(payload)
    requires size == 8 + PayloadSize(payload[..i]) <= |a| && a[..size] == prefix + Concat(payload[..i])
    ensures a == prefix + Concat(payload)
  {
    assert payload[..i] == payload;
    assert a == a[..size];
  }

  /** `MP4.box(type, ...payload)`: the payload lengths are summed, a zeroed
      array of that size is allocated, the size and the type are written
      and each payload is set after the one before. */
  method Box(type_: seq<byte>, payload: seq<seq<byte>>) returns (result: array<byte>)
    requires |type_| == 4
    ensures fresh(result)
    ensures result[..] == BoxOf(type_, payload)
  {
    var total := BoxSize(payload);
    result := new byte[total](_ => 0);
    SetHeader(result, total, type_);
    SetPayloads(result, payload, Word(total) + type_);
  }

  /** The size and the type written at the front of a box. */
  method SetHeader(result: array<byte>, total: nat, type_: seq<byte>)
    requires |type_| == 4 && 8 <= result.Length
    modifies result
    ensures result[..8] == Word(total) + type_
  {
    var header := Word(total);
    Word32(total);
    BoxHeader(result[..], header, type_);
    Set(result, header, 0);
    Set(result, type_, 4);
  }

  // ---------------------------------------------------------------------
  // `MP4.trun`
  // ---------------------------------------------------------------------

  /** The box type "trun". */
  const TRUN: seq<byte> := [116, 114, 117, 110]

  /** The part of a track the run box is written from: whether the
      fragment begins with a key frame and the size of each sample (an
      absent sample list is the empty one). */
  datatype Track = Track(isKeyFrame: bool, sampleSizes: seq<nat>)

  /** Four bytes more for the first sample's flags of a key frame. */
  function AdditionalLen(t: Track): nat
  {
    if t.isKeyFrame then 4 else 0
  }

  function ArrayLen(t: Track): nat
  {
    12 + AdditionalLen(t) + 4 * |t.sampleSizes|
  }

  /** The big-endian 32-bit words of the sample sizes. */
  function SizeWords(sizes: seq<nat>): (r: seq<byte>)
    ensures |r| == 4 * |sizes|
  {
    if sizes == [] then [] else SizeWords(sizes[..|sizes| - 1]) + Word(sizes[|sizes| - 1])
  }

  /** The bytes `trun` writes before the sample sizes: version 0, flags
      0x000205 for a key frame (data offset, first sample flags and sample
      sizes present) and 0x000201 otherwise, the sample count, and the data
      offset, which points past the trun box: `offset + 8 + arraylen`,
      kept modulo 2^32 by `>>>`. */
  function TrunHeader(t: Track, offset: int): seq<byte>
  {
    [0, 0, 2, if t.isKeyFrame then 5 else 1]
      + Word(|t.sampleSizes|) + Word((offset + 8 + ArrayLen(t)) % TWO_32)
  }

  /** What `trun` writes before the sample sizes: the header, then the
      first sample's flags (0) for a key frame. */
  function TrunHead(t: Track, offset: int): seq<byte>
  {
    TrunHeader(t, offset) + (if t.isKeyFrame then [0, 0, 0, 0] else [])
  }

  /** The payload of the run box: the header, the first sample's flags
      for a key frame, then the sample sizes. */
  function TrunPayload(t: Track, offset: int): seq<byte>
  {
    TrunHead(t, offset) + SizeWords(t.sampleSizes)
  }

  /** The payload's length is `arraylen`. */
  lemma TrunPayloadLength(t: Track, offset: int)
    ensures |TrunHeader(t, offset)| == 12
    ensures |TrunHead(t, offset)| == 12 + AdditionalLen(t)
    ensures |TrunPayload(t, offset)| == ArrayLen(t)
  {
  }

  /** The element of `sizes` and the words before it. */
  lemma SizeWordsSnoc(sizes: seq<nat>, i: nat)
    requires i < |sizes|
    ensures SizeWords(sizes[..i + 1]) == SizeWords(sizes[..i]) + Word(sizes[i])
  {
    assert sizes[..i + 1][..i] == sizes[..i];
  }

  /** The body of `trun`: a zeroed array of `arraylen` bytes, the twelve
      header bytes at 0, four zero bytes at 12 for a key frame, and each
      sample size at `12 + additionalLen + 4 * i`. */
  method TrunArray(t: Track, offset: int) returns (buf: array<byte>)
    ensures fresh(buf)
    ensures buf[..] == TrunPayload(t, offset)
  {
    var len := |t.sampleSizes|;
    var additionalLen := if t.isKeyFrame then 4 else 0;
    var arraylen := 12 + additionalLen + 4 * len;
    buf := new byte[arraylen](_ => 0);
    var dataOffset := offset + 8 + arraylen;
    SetTrunHead(buf, t, offset, dataOffset);
    SetSizes(buf, t.sampleSizes, 12 + additionalLen, TrunHead(t, offset));
  }

  /** The header writes of `trun`: the twelve bytes with the data offset
      `dataOffset` taken modulo 2^32, and the first sample's flags. */
  method SetTrunHead(buf: array<byte>, t: Track, offset: int, dataOffset: int)
    requires buf.Length == ArrayLen(t) && dataOffset == offset + 8 + ArrayLen(t)
    modifies buf
    ensures buf[..12 + AdditionalLen(t)] == TrunHead(t, offset)
  {
    var header: seq<byte> := [0, 0, 2, if t.isKeyFrame then 5 else 1]
      + Word(|t.sampleSizes|) + Word(dataOffset % TWO_32);
    assert header == TrunHeader(t, offset);
    TrunPayloadLength(t, offset);
    Placed(buf[..], 0, header);
    Set(buf, header, 0);
    if t.isKeyFrame {
      Placed(buf[..], 12, [0, 0, 0, 0]);
      Set(buf, [0, 0, 0, 0], 12);
    }
  }

  /** The loop of `trun`: sample size `i` as a 32-bit word at `from + 4 *
      i`. */
  method SetSizes(buf: array<byte>, sizes: seq<nat>, from: nat, ghost head: seq<byte>)
    requires |head| == from && buf.Length == from + 4 * |sizes|
    requires buf[..from] == head
    modifies buf
    ensures buf[..] == head + SizeWords(sizes)
  {
    var i, at := 0, from;
    while i < |sizes|
      invariant 0 <= i <= |sizes| && at == from + 4 * i && buf.Length == from + 4 * |sizes|
      invariant buf[..at] == head + SizeWords(sizes[..i])
    {
      var size := sizes[i];
      SizeStep(buf[..], sizes, i, from, at, head);
      Set(buf, Word(size), at);
      i, at := i + 1, at + 4;
    }
    assert sizes[..i] == sizes;
    assert buf[..] == buf[..at];
  }

  /** One step of the loop of `trun`. */
  lemma SizeStep(a: seq<byte>, sizes: seq<nat>, i: nat, from: nat, at: nat, head: seq<byte>)
    requires i < |sizes| && |a| == from + 4 * |sizes| && at == from + 4 * i
    requires a[..at] == head + SizeWords(sizes[..i])
    ensures |Word(sizes[i])| == 4 && at + 4 <= |a|
    ensures Overwrite(a, Word(sizes[i]), at)[..at + 4] == head + SizeWords(sizes[..i + 1])
  {
    var w := Word(sizes[i]);
    SizeWordsSnoc(sizes, i);
    PlacedAfter(a, at, head, SizeWords(sizes[..i]), w, SizeWords(sizes[..i + 1]));
  }

  /** Setting `w` right after `head + prev` extends it to `head + next`
      when `next` is `prev + w`. */
  lemma PlacedAfter(a: seq<byte>, at: nat, head: seq<byte>, prev: seq<byte>, w: seq<byte>, next: seq<byte>)
    requires at + |w| <= |a| && a[..at] == head + prev && next == prev + w
    ensures Overwrite(a, w, at)[..at + |w|] == head + next
  {
    Placed(a, at, w);
    assert head + prev + w == head + next;
  }

  /** `MP4.trun(track, offset)`: the payload in a box of type "trun". */
  method Trun(t: Track, offset: int) returns (result: array<byte>)
    ensures fresh(result)
    ensures result[..] == BoxOf(TRUN, [TrunPayload(t, offset)])
  {
    var buf := TrunArray(t, offset);
    result := Box(TRUN, [buf[..]]);
  }

  // ---------------------------------------------------------------------
  // Reading a run box back (section 8.8.8)
  // ---------------------------------------------------------------------

  /** The fields of a track run box that these flags carry: the version,
      the flags, the sample count, the signed data offset (flag 0x1), the
      first sample's flags (flag 0x4) and the sample sizes (flag 0x200). */
  datatype TrunFields = TrunFields(version: nat, flags: nat, sampleCount: nat,
                                   dataOffset: Option<int>, firstSampleFlags: Option<nat>,
                                   sampleSizes: seq<nat>)

  /** Whether bit `bit` (a power of two) is set in `flags`. */
  predicate FlagSet(flags: nat, bit: nat)
    requires bit > 0
  {
    flags / bit % 2 == 1
  }

  /** `n` big-endian 32-bit words from the start of `s`. */
  function Words(s: seq<byte>, n: nat): seq<nat>
    requires 4 * n <= |s|
  {
    if n == 0 then [] else [BEValue(s[..4])] + Words(s[4..], n - 1)
  }

  /** A reader of the run box payload for the flag combinations in which
      each sample record holds only its size (flags 0x1, 0x4 and 0x200 are
      read and 0x100, 0x400, 0x800 are absent); anything else, or a length
      that does not match the sample count, is `None`. */
  function ParseTrun(p: seq<byte>): Option<TrunFields>
  {
    if |p| < 8 then None
    else
      var flags := BEValue(p[1..4]);
      var count := BEValue(p[4..8]);
      var o1 := 8 + (if FlagSet(flags, 1) then 4 else 0);
      var o2 := o1 + (if FlagSet(flags, 4) then 4 else 0);
      if !FlagSet(flags, 0x200) || FlagSet(flags, 0x100) || FlagSet(flags, 0x400) || FlagSet(flags, 0x800)
         || |p| != o2 + 4 * count
      then None
      else
        Some(TrunFields(p[0] as nat, flags, count,
          if FlagSet(flags, 1) then Some(Signed(BEValue(p[8..12]), 4)) else None,
          if FlagSet(flags, 4) then Some(BEValue(p[o1..o1 + 4])) else None,
          Words(p[o2..], count)))
  }

  /** Each size modulo 2^32. */
  function Low32s(sizes: seq<nat>): (r: seq<nat>)
    ensures |r| == |sizes|
  {
    if sizes == [] then [] else Low32s(sizes[..|sizes| - 1]) + [sizes[|sizes| - 1] % TWO_32]
  }

  /** Sizes below 2^32 are kept as they are. */
  lemma {:induction false} Low32sSmall(sizes: seq<nat>)
    requires forall k :: 0 <= k < |sizes| ==> sizes[k] < TWO_32
    ensures Low32s(sizes) == sizes
    decreases |sizes|
  {
    if sizes != [] {
      Low32sSmall(sizes[..|sizes| - 1]);
    }
  }

  /** The sizes read back are the sizes written, modulo 2^32. */
  lemma {:induction false} WordsOfSizes(sizes: seq<nat>, rest: seq<byte>)
    ensures |SizeWords(sizes) + rest| >= 4 * |sizes|
    ensures Words(SizeWords(sizes) + rest, |sizes|) == Low32s(sizes)
    decreases |sizes|
  {
    if sizes != [] {
      var init, last := sizes[..|sizes| - 1], sizes[|sizes| - 1];
      var w := Word(last);
      Word32(last);
      WordsOfSizes(init, w + rest);
      assert SizeWords(sizes) + rest == SizeWords(init) + (w + rest);
      WordsSnoc(SizeWords(init), |init|, w + rest);
      assert (w + rest)[..4] == w;
    }
  }

  /** The word after `n` words. */
  lemma {:induction false} WordsSnoc(s: seq<byte>, n: nat, rest: seq<byte>)
    requires |s| == 4 * n && |rest| >= 4
    ensures Words(s + rest, n + 1) == Words(s + rest, n) + [BEValue(rest[..4])]
    decreases n
  {
    if n > 0 {
      assert (s + rest)[4..] == s[4..] + rest;
      WordsSnoc(s[4..], n - 1, rest);
      assert (s + rest)[..4] == s[..4];
    } else {
      assert s + rest == rest;
    }
  }

  /** The twelve header bytes: version 0, the flags, the sample count and
      the data offset modulo 2^32. */
  lemma TrunHeaderFields(t: Track, offset: int)
    ensures var h := TrunHeader(t, offset);
      |h| == 12 && h[0] == 0 && h[1..4] == [0, 2, if t.isKeyFrame then 5 else 1]
      && BEValue(h[4..8]) == |t.sampleSizes| % TWO_32
      && BEValue(h[8..12]) == (offset + 8 + ArrayLen(t)) % TWO_32
  {
    var f: seq<byte> := [0, 0, 2, if t.isKeyFrame then 5 else 1];
    HeaderWords(f, |t.sampleSizes|, (offset + 8 + ArrayLen(t)) % TWO_32);
    var h := TrunHeader(t, offset);
    assert h[1..4] == h[..4][1..4];
  }

  /** Four bytes, then two 32-bit words. */
  lemma HeaderWords(f: seq<byte>, n: nat, d: nat)
    requires |f| == 4 && d < TWO_32
    ensures var h := f + Word(n) + Word(d);
      |h| == 12 && h[..4] == f && BEValue(h[4..8]) == n % TWO_32 && BEValue(h[8..12]) == d
  {
    Word32(n);
    Word32(d);
    ThreeParts(f, Word(n), Word(d));
  }

  lemma ThreeParts(f: seq<byte>, a: seq<byte>, b: seq<byte>)
    requires |f| == 4 && |a| == 4 && |b| == 4
    ensures var h := f + a + b;
      |h| == 12 && h[..4] == f && h[4..8] == a && h[8..12] == b
  {
    var h := f + a + b;
    assert h[..4] == f;
    assert h[4..8] == a;
    assert h[8..12] == b;
  }

  /** The payload is the header, the first sample's flags and the words. */
  lemma TrunParts(t: Track, offset: int)
    ensures var p := TrunPayload(t, offset);
      var o2 := 12 + AdditionalLen(t);
      |p| == o2 + 4 * |t.sampleSizes|
      && p[..12] == TrunHeader(t, offset)
      && (t.isKeyFrame ==> p[12..16] == [0, 0, 0, 0])
      && p[o2..] == SizeWords(t.sampleSizes)
  {
    TrunPayloadLength(t, offset);
  }

  /** The run box reads back as written: version 0; flags 0x205 or 0x201;
      the sample count; the data offset `offset + 8 + arraylen` when it
      fits a signed 32-bit field; zero flags for a first sample that is a
      key frame and none otherwise; every sample's size. */
  lemma TrunDecodes(t: Track, offset: int)
    requires |t.sampleSizes| < TWO_32
    requires 0 <= offset + 8 + ArrayLen(t) < TWO_32 / 2
    requires forall k :: 0 <= k < |t.sampleSizes| ==> t.sampleSizes[k] < TWO_32
    ensures ParseTrun(TrunPayload(t, offset)) == Some(TrunFields(
      0, if t.isKeyFrame then 0x205 else 0x201, |t.sampleSizes|,
      Some(offset + 8 + ArrayLen(t)), if t.isKeyFrame then Some(0) else None, t.sampleSizes))
  {
    HeaderShape(t, offset);
    FirstFlagsShape(t, offset);
    SizesShape(t, offset);
    ParseShape(TrunPayload(t, offset), t.isKeyFrame, |t.sampleSizes|, offset + 8 + ArrayLen(t), t.sampleSizes);
  }

  /** The first twelve bytes of the payload read back as version 0, the
      flags, the count and the data offset. */
  lemma HeaderShape(t: Track, offset: int)
    requires |t.sampleSizes| < TWO_32
    requires 0 <= offset + 8 + ArrayLen(t) < TWO_32 / 2
    ensures var p := TrunPayload(t, offset);
      |p| == 12 + AdditionalLen(t) + 4 * |t.sampleSizes|
      && p[0] == 0 && BEValue(p[1..4]) == (if t.isKeyFrame then 0x205 else 0x201)
      && BEValue(p[4..8]) == |t.sampleSizes| && Signed(BEValue(p[8..12]), 4) == offset + 8 + ArrayLen(t)
  {
    var p := TrunPayload(t, offset);
    var h := TrunHeader(t, offset);
    var d := offset + 8 + ArrayLen(t);
    TrunParts(t, offset);
    TrunHeaderFields(t, offset);
    HeaderInPayload(p, h);
    SmallMod(|t.sampleSizes|);
    SmallMod(d);
    FlagsValue(h[1..4], t.isKeyFrame);
    SignedPositive(d);
  }

  /** A key frame's first sample flags read back as 0. */
  lemma FirstFlagsShape(t: Track, offset: int)
    ensures var p := TrunPayload(t, offset);
      t.isKeyFrame ==> |p| >= 16 && BEValue(p[12..16]) == 0
  {
    TrunParts(t, offset);
    if t.isKeyFrame {
      ZeroWord();
    }
  }

  /** The words after the header read back as the sample sizes. */
  lemma SizesShape(t: Track, offset: int)
    requires forall k :: 0 <= k < |t.sampleSizes| ==> t.sampleSizes[k] < TWO_32
    ensures var p := TrunPayload(t, offset);
      |p| >= 12 + AdditionalLen(t) + 4 * |t.sampleSizes|
      && Words(p[12 + AdditionalLen(t)..], |t.sampleSizes|) == t.sampleSizes
  {
    TrunParts(t, offset);
    WordsOfSizes(t.sampleSizes, []);
    assert SizeWords(t.sampleSizes) + [] == SizeWords(t.sampleSizes);
    Low32sSmall(t.sampleSizes);
  }

  /** The fields of a payload that has the run box's layout. */
  lemma ParseShape(p: seq<byte>, key: bool, n: nat, d: int, sizes: seq<nat>)
    requires |p| == 12 + (if key then 4 else 0) + 4 * n
    requires p[0] == 0 && BEValue(p[1..4]) == (if key then 0x205 else 0x201)
    requires BEValue(p[4..8]) == n && Signed(BEValue(p[8..12]), 4) == d
    requires key ==> BEValue(p[12..16]) == 0
    requires Words(p[12 + (if key then 4 else 0)..], n) == sizes
    ensures ParseTrun(p) == Some(TrunFields(
      0, if key then 0x205 else 0x201, n, Some(d), if key then Some(0) else None, sizes))
  {
    FlagBits(key);
  }

  /** The bits of the two flag values `trun` writes. */
  lemma FlagBits(key: bool)
    ensures var f := if key then 0x205 else 0x201;
      FlagSet(f, 1) && FlagSet(f, 0x200) && (FlagSet(f, 4) <==> key)
      && !FlagSet(f, 0x100) && !FlagSet(f, 0x400) && !FlagSet(f, 0x800)
  {
  }

  /** The header sits at the front of the payload. */
  lemma HeaderInPayload(p: seq<byte>, h: seq<byte>)
    requires |h| == 12 && |p| >= 12 && p[..12] == h
    ensures p[0] == h[0] && p[1..4] == h[1..4] && p[4..8] == h[4..8] && p[8..12] == h[8..12]
  {
    assert p[1..4] == p[..12][1..4];
    assert p[4..8] == p[..12][4..8];
    assert p[8..12] == p[..12][8..12];
  }

  lemma ZeroWord()
    ensures BEValue([0, 0, 0, 0]) == 0
  {
    Word32(0);
    assert Word(0) == [0, 0, 0, 0];
  }

  lemma SmallMod(v: int)
    requires 0 <= v < TWO_32
    ensures v % TWO_32 == v
  {
  }

  /** A data offset below 2^31 reads back as itself from the signed
      field. */
  lemma SignedPositive(d: int)
    requires 0 <= d < TWO_32 / 2
    ensures Signed(d, 4) == d
  {
    Pow256Values();
  }

  /** The flags field: 0x205 for a key frame and 0x201 otherwise. */
  lemma FlagsValue(s: seq<byte>, key: bool)
    requires s == [0, 2, if key then 5 else 1]
    ensures BEValue(s) == if key then 0x205 else 0x201
  {
    assert s[..2] == [0, 2] && [0, 2][..1] == [0];
    assert BEValue([0]) == 0;
  }
}
