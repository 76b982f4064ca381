/** The MSB-first bit reader of the server's SPS parser
    (src-server/scrcpySession.js, class BitReader) and the Exp-Golomb codes
    of section 9.1 of ITU-T H.264 that it decodes.

    The reading functions work on the bit string of the buffer
    (`BitString`), most significant bit of byte 0 first; the `Reader` class
    runs the same reads on the bytes, one bit at a time, as the source does. */
module BitReader {
  import opened Bytes
  import opened Wrappers

  const TWO_31: int := 0x8000_0000

  /** `x >> e` for a non-negative `x`. */
  function Shr(x: nat, e: nat): nat
    decreases e
  {
    if e == 0 then x else Shr(x, e - 1) / 2
  }

  /** The bits of a byte, most significant first: bit j is `(b >> (7 - j)) & 1`. */
  function ByteBitString(b: byte): (r: seq<bool>)
    ensures |r| == 8
  {
    seq(8, j requires 0 <= j < 8 => Shr(b as nat, 7 - j) % 2 == 1)
  }

  /** The bits of the buffer, byte after byte (see `BitOfByte`). */
  function BitString(buf: seq<byte>): (r: seq<bool>)
    ensures |r| == 8 * |buf|
  {
    if buf == [] then [] else ByteBitString(buf[0]) + BitString(buf[1..])
  }

  function B(b: bool): nat { if b then 1 else 0 }

  /** The unsigned value of the `n` bits starting at bit `pos`, MSB first. */
  function BitsValue(bits: seq<bool>, pos: nat, n: nat): (v: nat)
    requires pos + n <= |bits|
    decreases n
  {
    if n == 0 then 0 else BitsValue(bits, pos, n - 1) * 2 + B(bits[pos + n - 1])
  }

  function Pow2(n: nat): (p: nat)
    ensures p >= 1
  {
    if n == 0 then 1 else 2 * Pow2(n - 1)
  }

  lemma {:induction false} BitsValueBound(bits: seq<bool>, pos: nat, n: nat)
    requires pos + n <= |bits|
    ensures BitsValue(bits, pos, n) < Pow2(n)
  {
    if n > 0 { BitsValueBound(bits, pos, n - 1); }
  }

  lemma {:induction false} Pow2Monotone(a: nat, b: nat)
    requires a <= b
    ensures Pow2(a) <= Pow2(b)
    decreases b
  {
    if a < b { Pow2Monotone(a, b - 1); }
  }

  lemma Pow2At31()
    ensures Pow2(31) == TWO_31 && Pow2(32) == 2 * TWO_31
  {
    assert Pow2(8) == 256 by {
      assert Pow2(4) == 16 by { assert Pow2(2) == 4; }
    }
    assert Pow2(16) == 65536 by {
      assert Pow2(12) == 4096 by { assert Pow2(10) == 1024; }
    }
    assert Pow2(24) == 0x100_0000 by {
      assert Pow2(20) == 0x10_0000 by { assert Pow2(18) == 0x4_0000; }
    }
    assert Pow2(31) == TWO_31 by {
      assert Pow2(28) == 0x1000_0000 by { assert Pow2(26) == 0x400_0000; }
    }
  }

  lemma Pow2Le31(n: nat)
    requires n <= 31
    ensures Pow2(n) <= TWO_31
    ensures n < 31 ==> 2 * Pow2(n) <= TWO_31
  {
    Pow2Monotone(n, 31);
    if n < 31 { Pow2Monotone(n + 1, 31); }
    Pow2At31();
  }

  lemma Pow2Le32(n: nat)
    requires n <= 32
    ensures Pow2(n) <= 2 * TWO_31
  {
    Pow2Monotone(n, 32);
    Pow2At31();
  }

  /** `result <<= 1; result |= bit` runs on int32: after 32 bits the top bit
      is the sign. */
  function Int32Of(x: nat): (r: int)
    ensures x < 2 * TWO_31 ==> -TWO_31 <= r < TWO_31
    ensures x < TWO_31 ==> r == x
  {
    if x >= TWO_31 then x - 2 * TWO_31 else x
  }

  /** A reader position together with the value a read produced (`None`
      plays JavaScript's `null`). */
  datatype Step<T> = Step(val: Option<T>, pos: nat)

  /** `readBits(n)`: 0 for n = 0, `null` for n > 32 without moving, `null`
      with the position at the end when the data run out, and otherwise the
      next n bits. */
  function ReadBits(bits: seq<bool>, pos: nat, n: nat): (r: Step<int>)
    requires pos <= |bits|
    ensures r.pos <= |bits|
  {
    if n == 0 then Step(Some(0), pos)
    else if n > 32 then Step(None, pos)
    else if pos + n > |bits| then Step(None, |bits|)
    else Step(Some(Int32Of(BitsValue(bits, pos, n))), pos + n)
  }

  /** The outcome of the zero-counting loop of `readUE`. */
  datatype ZeroRun = Stopped(zeros: nat, pos: nat) | TooMany(pos: nat)

  /** `while (this.readBits(1) === 0) { leadingZeroBits++; if (leadingZeroBits > 31) return null; }`:
      each test reads one bit (see `ReadBit`), and the loop also stops when
      `readBits(1)` returns `null` at the end of the data. */
  function CountZeros(bits: seq<bool>, pos: nat, zeros: nat): (r: ZeroRun)
    requires pos <= |bits| && zeros <= 31
    ensures r.pos <= |bits|
    ensures r.Stopped? ==> r.zeros <= 31
    decreases |bits| - pos
  {
    if pos == |bits| then Stopped(zeros, pos)
    else if !bits[pos] then
      if zeros + 1 > 31 then TooMany(pos + 1) else CountZeros(bits, pos + 1, zeros + 1)
    else Stopped(zeros, pos + 1)
  }

  /** One-bit reads: `null` at the end of the data, else the next bit. */
  lemma ReadBit(bits: seq<bool>, pos: nat)
    requires pos <= |bits|
    ensures ReadBits(bits, pos, 1) ==
      if pos == |bits| then Step(None, pos) else Step(Some(B(bits[pos])), pos + 1)
  {
  }

  /** JavaScript `1 << k` for 1 <= k <= 31 (int32, so `1 << 31` is negative). */
  function JsShl1(k: nat): (r: int)
    requires 1 <= k <= 31
  {
    if k == 31 then -TWO_31 else Pow2(k)
  }

  /** `readUE`: unsigned Exp-Golomb ue(v). */
  function ReadUE(bits: seq<bool>, pos: nat): (r: Step<int>)
    requires pos <= |bits|
    ensures r.pos <= |bits|
  {
    match CountZeros(bits, pos, 0)
    case TooMany(p) => Step(None, p)
    case Stopped(z, p) => UESuffix(bits, z, p)
  }

  /** The rest of `readUE` once `z` zeros and the one after them are read:
      0 when there were none, else `(1 << z) - 1` plus the next z bits. */
  function UESuffix(bits: seq<bool>, z: nat, p: nat): (r: Step<int>)
    requires p <= |bits| && z <= 31
    ensures r.pos <= |bits|
  {
    if z == 0 then Step(Some(0), p)
    else
      var s := ReadBits(bits, p, z);
      if s.val.None? then Step(None, s.pos)
      else Step(Some(JsShl1(z) - 1 + s.val.value), s.pos)
  }

  /** The signed mapping of section 9.1.1: odd code numbers are positive. */
  function SignedOfCode(k: int): int
  {
    if k % 2 == 0 then -(k / 2) else (k + 1) / 2
  }

  /** `readSE`: signed Exp-Golomb se(v). */
  function ReadSE(bits: seq<bool>, pos: nat): (r: Step<int>)
    requires pos <= |bits|
    ensures r.pos <= |bits|
  {
    var u := ReadUE(bits, pos);
    if u.val.None? then u else Step(Some(SignedOfCode(u.val.value)), u.pos)
  }

  /** `readBool`. */
  function ReadBool(bits: seq<bool>, pos: nat): (r: Step<bool>)
    requires pos <= |bits|
    ensures r.pos <= |bits|
  {
    var b := ReadBits(bits, pos, 1);
    if b.val.None? then Step(None, b.pos) else Step(Some(b.val.value == 1), b.pos)
  }

  // ---------------------------------------------------------------------
  // Properties of the reader.

  /** A read of 1 to 32 bits advances by exactly that many bits when they
      are there, and yields `null` at the end of the data otherwise. */
  lemma ReadBitsAdvance(bits: seq<bool>, pos: nat, n: nat)
    requires pos <= |bits| && 1 <= n <= 32
    ensures ReadBits(bits, pos, n).val.Some? <==> pos + n <= |bits|
    ensures pos + n <= |bits| ==> ReadBits(bits, pos, n).pos == pos + n
    ensures pos + n > |bits| ==> ReadBits(bits, pos, n).pos == |bits|
  {
  }

  /** Bit 8i + j of the bit string is bit j of byte i, counted from the top:
      `(buffer[bytePosition] >> (7 - bitPosition)) & 1`. */
  lemma {:induction false} BitOfByte(buf: seq<byte>, i: nat, j: nat)
    requires i < |buf| && j < 8
    ensures BitString(buf)[8 * i + j] == (Shr(buf[i] as nat, 7 - j) % 2 == 1)
  {
    if i == 0 {
      assert BitString(buf)[j] == ByteBitString(buf[0])[j];
    } else {
      BitOfByte(buf[1..], i - 1, j);
      assert BitString(buf)[8 * i + j] == BitString(buf[1..])[8 * (i - 1) + j];
    }
  }

  /** Eight bits read at a byte boundary are that byte. */
  lemma ByteAligned(buf: seq<byte>, i: nat)
    requires i < |buf|
    ensures ReadBits(BitString(buf), 8 * i, 8) == Step(Some(buf[i] as int), 8 * i + 8)
  {
    ByteBits(buf, i, 8);
  }

  /** The first m bits of byte i are the byte shifted right by 8 - m. */
  lemma {:induction false} ByteBits(buf: seq<byte>, i: nat, m: nat)
    requires i < |buf| && m <= 8
    ensures BitsValue(BitString(buf), 8 * i, m) == Shr(buf[i] as nat, 8 - m)
  {
    if m == 0 {
      Pow2Byte();
      ShrBound(buf[i] as nat, 8, 0);
    } else {
      ByteBits(buf, i, m - 1);
      BitOfByte(buf, i, m - 1);
      ShrStep(buf[i] as nat, 8 - m);
    }
  }

  lemma Pow2Byte()
    ensures Pow2(8) == 256
  {
    assert Pow2(4) == 16 by { assert Pow2(2) == 4; }
  }

  /** Shifting a value below 2^(n+e) right by e leaves a value below 2^n. */
  lemma {:induction false} ShrBound(x: nat, e: nat, n: nat)
    requires x < Pow2(n + e)
    ensures Shr(x, e) < Pow2(n)
    decreases e
  {
    if e > 0 { ShrBound(x, e - 1, n + 1); }
  }

  /** One more shift drops the lowest bit. */
  lemma ShrStep(x: nat, e: nat)
    ensures Shr(x, e + 1) * 2 + B(Shr(x, e) % 2 == 1) == Shr(x, e)
  {
  }

  /** The code number of a se(v) value (Table 9-3 of ITU-T H.264). */
  function SignedCode(v: int): (k: nat)
    ensures k % 2 == 1 <==> v > 0
  {
    if v > 0 then 2 * v - 1 else -2 * v
  }

  /** The signed mapping inverts the encoding of section 9.1.1. */
  lemma SignedRoundTrip(v: int)
    ensures SignedOfCode(SignedCode(v)) == v
  {
  }

  // ---------------------------------------------------------------------
  // Exp-Golomb code words, as bit strings.

  /** The bits of `v` in `n` binary digits, most significant first. */
  function BinBits(v: nat, n: nat): (r: seq<bool>)
    ensures |r| == n
    decreases v + n
  {
    if n == 0 then [] else BinBits(v / 2, n - 1) + [v % 2 == 1]
  }

  function FloorLog2(v: nat): (k: nat)
    requires v >= 1
    ensures Pow2(k) <= v < Pow2(k + 1)
  {
    if v == 1 then 0 else FloorLog2(v / 2) + 1
  }

  /** The ue(v) code word of section 9.1: `k` zeros, a one, then the `k`
      low bits of codeNum + 1, where k = floor(log2(codeNum + 1)). */
  function UECode(codeNum: nat): (r: seq<bool>)
  {
    var k := FloorLog2(codeNum + 1);
    UEWord(k, codeNum + 1 - Pow2(k))
  }

  /** `k` zeros, a one, and `suffix` in `k` bits. */
  function UEWord(k: nat, suffix: nat): (r: seq<bool>)
    ensures |r| == 2 * k + 1
  {
    Lead(k) + BinBits(suffix, k)
  }

  /** `k` zeros and a one. */
  function Lead(k: nat): (r: seq<bool>)
    ensures |r| == k + 1
  {
    if k == 0 then [true] else [false] + Lead(k - 1)
  }

  /** The bit string holds `w` at position `pos`. */
  predicate HoldsAt(bits: seq<bool>, pos: nat, w: seq<bool>)
    decreases |w|
  {
    pos + |w| <= |bits| && (w != [] ==> bits[pos] == w[0] && HoldsAt(bits, pos + 1, w[1..]))
  }

  /** Holding a + b is holding a, and b right after it. */
  lemma {:induction false} HoldsAtConcat(bits: seq<bool>, pos: nat, a: seq<bool>, b: seq<bool>)
    requires HoldsAt(bits, pos, a + b)
    ensures HoldsAt(bits, pos, a) && HoldsAt(bits, pos + |a|, b)
    decreases |a|
  {
    if a != [] {
      assert (a + b)[0] == a[0];
      assert (a + b)[1..] == a[1..] + b;
      HoldsAtConcat(bits, pos + 1, a[1..], b);
    } else {
      assert a + b == b;
    }
  }

  lemma {:induction false} BinBitsValue(bits: seq<bool>, pos: nat, v: nat, n: nat)
    requires v < Pow2(n) && HoldsAt(bits, pos, BinBits(v, n))
    ensures pos + n <= |bits|
    ensures BitsValue(bits, pos, n) == v
    decreases n
  {
    if n > 0 {
      HoldsAtConcat(bits, pos, BinBits(v / 2, n - 1), [v % 2 == 1]);
      BinBitsValue(bits, pos, v / 2, n - 1);
    }
  }

  lemma {:induction false} ZerosCounted(bits: seq<bool>, pos: nat, zeros: nat, k: nat)
    requires zeros <= k <= 31
    requires HoldsAt(bits, pos, Lead(k - zeros))
    ensures CountZeros(bits, pos, zeros) == Stopped(k, pos + (k - zeros) + 1)
    decreases k - zeros
  {
    if zeros < k {
      assert Lead(k - zeros)[1..] == Lead(k - (zeros + 1));
      ZerosCounted(bits, pos + 1, zeros + 1, k);
    }
  }

  lemma Log2Bound(v: nat)
    requires 1 <= v < TWO_31
    ensures FloorLog2(v) <= 30
  {
    var k := FloorLog2(v);
    if k > 30 {
      Pow2Monotone(31, k);
      Pow2At31();
    }
  }

  /** Decoding a ue(v) code word: `readUE` returns codeNum and advances by
      the length of the code word, for code numbers readable without int32
      overflow (at most 30 leading zeros). */
  lemma UEDecodes(bits: seq<bool>, pos: nat, codeNum: nat)
    requires codeNum + 1 < TWO_31
    requires HoldsAt(bits, pos, UECode(codeNum))
    ensures ReadUE(bits, pos) == Step(Some(codeNum), pos + |UECode(codeNum)|)
  {
    var k := FloorLog2(codeNum + 1);
    Log2Bound(codeNum + 1);
    var suffix := codeNum + 1 - Pow2(k);
    assert Pow2(k + 1) == 2 * Pow2(k);
    UEWordDecodes(bits, pos, k, suffix, codeNum);
  }

  /** Thirty-two zeros in a row make `readUE` give up with `null` once it
      has read them all. */
  lemma UEAt32Zeros(bits: seq<bool>, pos: nat)
    requires pos + 32 <= |bits| && forall i :: pos <= i < pos + 32 ==> !bits[i]
    ensures ReadUE(bits, pos) == Step(None, pos + 32)
  {
    ZerosOverflow(bits, pos, 0);
  }

  lemma {:induction false} ZerosOverflow(bits: seq<bool>, pos: nat, zeros: nat)
    requires zeros <= 31 && pos + 32 - zeros <= |bits|
    requires forall i :: pos <= i < pos + 32 - zeros ==> !bits[i]
    ensures CountZeros(bits, pos, zeros) == TooMany(pos + 32 - zeros)
    decreases 31 - zeros
  {
    if zeros < 31 {
      ZerosOverflow(bits, pos + 1, zeros + 1);
    }
  }

  /** Decoding a se(v) code word returns the value it encodes. */
  lemma SEDecodes(bits: seq<bool>, pos: nat, v: int)
    requires SignedCode(v) + 1 < TWO_31
    requires HoldsAt(bits, pos, UECode(SignedCode(v)))
    ensures ReadSE(bits, pos) == Step(Some(v), pos + |UECode(SignedCode(v))|)
  {
    UEDecodes(bits, pos, SignedCode(v));
    SignedRoundTrip(v);
  }

  lemma UEWordDecodes(bits: seq<bool>, pos: nat, k: nat, suffix: nat, v: nat)
    requires k <= 30 && suffix < Pow2(k) && v == Pow2(k) - 1 + suffix
    requires HoldsAt(bits, pos, UEWord(k, suffix))
    ensures ReadUE(bits, pos) == Step(Some(v), pos + 2 * k + 1)
  {
    UEWordParts(bits, pos, k, suffix);
    ReadUEBits(bits, pos, k);
  }

  /** The parts of a code word in the bit string. */
  lemma UEWordParts(bits: seq<bool>, pos: nat, k: nat, suffix: nat)
    requires suffix < Pow2(k)
    requires HoldsAt(bits, pos, UEWord(k, suffix))
    ensures pos + 2 * k + 1 <= |bits|
    ensures HoldsAt(bits, pos, Lead(k))
    ensures BitsValue(bits, pos + k + 1, k) == suffix
  {
    HoldsAtConcat(bits, pos, Lead(k), BinBits(suffix, k));
    BinBitsValue(bits, pos + k + 1, suffix, k);
  }

  /** `readUE` on k zeros and a one: the value is 2^k - 1 plus the next k
      bits, and the position moves past them. */
  lemma ReadUEBits(bits: seq<bool>, pos: nat, k: nat)
    requires k <= 30 && pos + 2 * k + 1 <= |bits|
    requires HoldsAt(bits, pos, Lead(k))
    ensures ReadUE(bits, pos) == Step(Some(Pow2(k) - 1 + BitsValue(bits, pos + k + 1, k)), pos + 2 * k + 1)
  {
    var p := pos + k + 1;
    ZerosCounted(bits, pos, 0, k);
    assert CountZeros(bits, pos, 0) == Stopped(k, p);
    if k > 0 {
      SuffixValue(bits, k, p);
    }
  }

  /** The suffix of a code word with 1 to 30 leading zeros. */
  lemma SuffixValue(bits: seq<bool>, z: nat, p: nat)
    requires 1 <= z <= 30 && p + z <= |bits|
    ensures UESuffix(bits, z, p) == Step(Some(Pow2(z) - 1 + BitsValue(bits, p, z)), p + z)
  {
    ReadBitsExact(bits, p, z);
  }

  /** Up to 30 bits are read without reaching the int32 sign. */
  lemma ReadBitsExact(bits: seq<bool>, p: nat, n: nat)
    requires 1 <= n <= 30 && p + n <= |bits|
    ensures ReadBits(bits, p, n) == Step(Some(BitsValue(bits, p, n)), p + n)
  {
    BitsValueBound(bits, p, n);
    Pow2Le31(n);
  }

  // ---------------------------------------------------------------------
  // The reader object: the same operations, as the source runs them,
  // advancing `bytePosition`/`bitPosition` one bit at a time.

  class Reader {
    const buffer: seq<byte>
    var bytePosition: nat
    var bitPosition: nat

    ghost predicate Valid()
      reads this
    {
      bitPosition < 8 && bytePosition <= |buffer| && (bytePosition == |buffer| ==> bitPosition == 0)
    }

    /** The reader position in bits. */
    ghost function Pos(): nat
      reads this
    {
      8 * bytePosition + bitPosition
    }

    constructor (data: seq<byte>)
      ensures Valid() && buffer == data && Pos() == 0
    {
      buffer := data;
      bytePosition, bitPosition := 0, 0;
    }

    /** `bitPosition++; if (bitPosition === 8) { bitPosition = 0; bytePosition++; }` */
    method Advance()
      requires Valid() && bytePosition < |buffer|
      modifies this
      ensures Valid() && Pos() == old(Pos()) + 1
    {
      bitPosition := bitPosition + 1;
      if bitPosition == 8 { bitPosition := 0; bytePosition := bytePosition + 1; }
    }

    /** One step of the `readBits` loop: the current bit, then advance. */
    method NextBit() returns (bit: nat)
      requires Valid() && bytePosition < |buffer|
      modifies this
      ensures Valid() && Pos() == old(Pos()) + 1
      ensures bit == B(BitString(buffer)[old(Pos())])
    {
      BitOfByte(buffer, bytePosition, bitPosition);
      bit := Shr(buffer[bytePosition] as nat, 7 - bitPosition) % 2;
      Advance();
    }

    method ReadBitsM(n: nat) returns (r: Option<int>)
      requires Valid()
      modifies this
      ensures Valid()
      ensures Step(r, Pos()) == ReadBits(BitString(buffer), old(Pos()), n)
    {
      if n == 0 { return Some(0); }
      if n > 32 { return None; }
      ghost var start := Pos();
      ghost var bits := BitString(buffer);
      var result := 0;
      var i := 0;
      while i < n
        invariant Valid() && 0 <= i <= n && Pos() == start + i
        invariant start + i <= |bits|
        invariant result == BitsValue(bits, start, i)
      {
        if bytePosition >= |buffer| {
          return None;
        }
        var bit := NextBit();
        result := result * 2 + bit;
        i := i + 1;
      }
      BitsValueBound(bits, start, n);
      Pow2Le32(n);
      r := Some(Int32Of(result));
    }

    method ReadUEM() returns (r: Option<int>)
      requires Valid()
      modifies this
      ensures Valid()
      ensures Step(r, Pos()) == ReadUE(BitString(buffer), old(Pos()))
    {
      ghost var bits := BitString(buffer);
      ghost var start := Pos();
      var leadingZeroBits := 0;
      while true
        invariant Valid() && leadingZeroBits <= 31
        invariant CountZeros(bits, start, 0) == CountZeros(bits, Pos(), leadingZeroBits)
        decreases 32 - leadingZeroBits
      {
        ghost var p := Pos();
        ReadBit(bits, p);
        var b := ReadBitsM(1);
        if b != Some(0) { break; }
        leadingZeroBits := leadingZeroBits + 1;
        if leadingZeroBits > 31 { return None; }
      }
      r := ReadSuffixM(leadingZeroBits);
    }

    /** The tail of `readUE` after `leadingZeroBits` zeros and a one. */
    method ReadSuffixM(leadingZeroBits: nat) returns (r: Option<int>)
      requires Valid() && leadingZeroBits <= 31
      modifies this
      ensures Valid()
      ensures Step(r, Pos()) == UESuffix(BitString(buffer), leadingZeroBits, old(Pos()))
    {
      if leadingZeroBits == 0 { return Some(0); }
      var valueSuffix := ReadBitsM(leadingZeroBits);
      if valueSuffix.None? { return None; }
      return Some(JsShl1(leadingZeroBits) - 1 + valueSuffix.value);
    }

    method ReadSEM() returns (r: Option<int>)
      requires Valid()
      modifies this
      ensures Valid()
      ensures Step(r, Pos()) == ReadSE(BitString(buffer), old(Pos()))
    {
      var codeNum := ReadUEM();
      if codeNum.None? { return None; }
      return Some(SignedOfCode(codeNum.value));
    }

    method ReadBoolM() returns (r: Option<bool>)
      requires Valid()
      modifies this
      ensures Valid()
      ensures Step(r, Pos()) == ReadBool(BitString(buffer), old(Pos()))
    {
      var bit := ReadBitsM(1);
      if bit.None? { return None; }
      return Some(bit.value == 1);
    }
  }
}
