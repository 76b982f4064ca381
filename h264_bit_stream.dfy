/** The bit reader of the bundled h264-converter (`BitStream` in
    public/main.js) and the scaling-list skipper of its SPS parser.

    A read takes the bits of one byte at a time with JavaScript's 32-bit
    operators: the value of a read is the 32-bit pattern `Word`, seen as a
    signed 32-bit number. Reading past the end of the data yields `undefined`,
    which the operators take as 0. The operators are written one bit step at
    a time (`LowBits`, `Shr`, `Doubled`, `Or`), which is what they do to a bit
    pattern. */
module H264BitStream {
  import opened Wrappers
  import opened Bytes
  import opened BitReader
  import opened BitField

  const NO_BYTES := "no bytes available"

  // ---------------------------------------------------------------------
  // JavaScript's 32-bit operators on bit patterns.

  /** `ToUint32`: the 32-bit pattern of an integer. */
  function ToUint32(x: int): (u: nat)
    ensures u < TWO_32
  {
    x % TWO_32
  }

  /** `x & (2^m - 1)`: the lowest `m` bits of `x`. */
  function LowBits(x: nat, m: nat): nat
    decreases m
  {
    if m == 0 then 0 else LowBits(x / 2, m - 1) * 2 + x % 2
  }

  /** `a | b` on two bit patterns. */
  function Or(a: nat, b: nat): nat
    decreases a + b
  {
    if a == 0 then b
    else if b == 0 then a
    else 2 * Or(a / 2, b / 2) + (if a % 2 == 1 || b % 2 == 1 then 1 else 0)
  }

  /** A 32-bit pattern shifted left `m` places, bit 31 falling off each time. */
  function Doubled(u: nat, m: nat): nat
    decreases m
  {
    if m == 0 then u else Doubled(u, m - 1) * 2 % TWO_32
  }

  /** The pattern of `x << n`: the shift count is taken modulo 32. */
  function Shl(x: int, n: nat): (r: nat)
    ensures r < TWO_32
  {
    Doubled(ToUint32(x), n % 32)
  }

  /** The number of bits from bit `offsetBits` to the end of its byte. */
  function ChunkBits(offsetBits: nat): (c: nat)
    ensures 1 <= c <= 8
  {
    8 - offsetBits % 8
  }

  /** Those bits of the byte as a number: `data[offsetBits / 8 | 0] & 255
      >>> offset`, or 0 past the end of the data. */
  function Chunk(data: seq<byte>, offsetBits: nat): nat
  {
    LowBits(ByteAt(data, offsetBits / 8), ChunkBits(offsetBits))
  }

  /** The pattern `getBits(size, offsetBits)` returns: the chunk shifted
      right when it holds more bits than asked for, and otherwise shifted
      left over the bits still to read and ORed with them. */
  function Word(data: seq<byte>, offsetBits: nat, size: nat): nat
    decreases size
  {
    var bits := ChunkBits(offsetBits);
    if bits >= size then Shr(Chunk(data, offsetBits), bits - size)
    else Or(Shl(Chunk(data, offsetBits), size - bits), Word(data, offsetBits + bits, size - bits))
  }

  /** The value of a read of `size` bits from bit `off`, `bits` being the
      bits of `data`: the number those bits make for reads of up to 32 bits
      (`WordField`), and what the 32-bit operators make of them beyond. */
  function ReadValue(bits: seq<bool>, data: seq<byte>, off: nat, size: nat): nat
  {
    if size <= 32 then Field(bits, off, size) else Word(data, off, size)
  }

  /** The count `skipLZ` makes from bit `pos`: the zero bits up to the next
      one bit or the end. */
  function ZeroBits(bits: seq<bool>, pos: nat): (k: nat)
    ensures pos <= |bits| ==> pos + k <= |bits|
    decreases |bits| - pos
  {
    if pos >= |bits| || bits[pos] then 0 else 1 + ZeroBits(bits, pos + 1)
  }

  /** What `readUEG` returns at bit `pos`, and the position it leaves, for
      `bits` the bits of `data`. */
  function UEGOf(bits: seq<bool>, data: seq<byte>, pos: nat): (Result<int>, nat)
  {
    var k := ZeroBits(bits, pos);
    var length := |bits|;
    if pos + k >= length then (Err(NO_BYTES), pos)
    else if length - (pos + k) < k + 1 then (Err(NO_BYTES), pos + k)
    else (Ok(Int32Of(ReadValue(bits, data, pos + k, k + 1)) - 1), pos + 2 * k + 1)
  }

  function ReadUEGAt(data: seq<byte>, pos: nat): (Result<int>, nat)
  {
    UEGOf(BitString(data), data, pos)
  }

  /** The signed value `readEG` makes of a code number `v`: odd codes give
      `(1 + v) >>> 1`, even ones `-1 * (v >>> 1)`. */
  function SignedOf(v: int): int
  {
    if ToUint32(v) % 2 == 1 then ToUint32(1 + v) / 2 else -(ToUint32(v) / 2)
  }

  /** What `readEG` returns at bit `pos`, and the position it leaves. */
  function ReadEGAt(data: seq<byte>, pos: nat): (Result<int>, nat)
  {
    var (r, next) := ReadUEGAt(data, pos);
    (if r.Ok? then Ok(SignedOf(r.value)) else r, next)
  }

  // ---------------------------------------------------------------------
  // The stream.

  class BitStream {
    const data: seq<byte>
    var index: nat

    /** `bitLength`: eight bits per byte. */
    function BitLength(): nat
    {
      8 * |data|
    }

    constructor(data: seq<byte>)
      ensures this.data == data && index == 0
    {
      this.data := data;
      index := 0;
    }

    /** `skipBits(size)`: throws when fewer than `size` bits are left. */
    method SkipBits(size: nat) returns (r: Result<()>)
      modifies this
      ensures BitLength() - old(index) < size ==> r == Err(NO_BYTES) && index == old(index)
      ensures BitLength() - old(index) >= size ==> r == Ok(()) && index == old(index) + size
    {
      if BitLength() - index < size {
        return Err(NO_BYTES);
      }
      index := index + size;
      r := Ok(());
    }

    /** `getBits(size, offsetBits, moveIndex)`: throws when fewer than `size`
        bits are left after the index; otherwise returns the signed 32-bit
        number of `Word` and advances the index by `size` exactly when
        `moveIndex` holds (see `WordField` for what the value is). */
    method GetBits(size: nat, offsetBits: nat, moveIndex: bool) returns (r: Result<int>)
      modifies this
      decreases size
      ensures BitLength() - old(index) < size ==> r == Err(NO_BYTES) && index == old(index)
      ensures BitLength() - old(index) >= size ==>
        r == Ok(Int32Of(Word(data, offsetBits, size)))
        && index == old(index) + (if moveIndex then size else 0)
    {
      if BitLength() - index < size {
        return Err(NO_BYTES);
      }
      var byte := Chunk(data, offsetBits);
      var bits := ChunkBits(offsetBits);
      if bits >= size {
        if moveIndex {
          index := index + size;
        }
        ReadInByte(data, offsetBits, size);
        return Ok(Shr(byte, bits - size));
      }
      if moveIndex {
        index := index + bits;
      }
      var nextSize := size - bits;
      var nextOffset := offsetBits + bits;
      ghost var mid := index;
      assert BitLength() - mid >= nextSize;
      var rest := GetBits(nextSize, nextOffset, moveIndex);
      ReadAcrossBytes(data, offsetBits, size, nextOffset, nextSize, rest);
      r := Ok(Int32Of(Or(Shl(byte, nextSize), ToUint32(rest.value))));
    }

    /** `readBits(size)`: `getBits` at the index, moving it. */
    method ReadBits(size: nat) returns (r: Result<int>)
      modifies this
      ensures BitLength() - old(index) < size ==> r == Err(NO_BYTES) && index == old(index)
      ensures BitLength() - old(index) >= size ==>
        r == Ok(Int32Of(ReadValue(BitString(data), data, old(index), size))) && index == old(index) + size
    {
      r := GetBits(size, index, true);
      ReadValueWord(data, old(index), size);
    }

    /** `skipLZ`: counts the zero bits before the next one bit; the index
        moves past them only when a one bit follows (see `ZeroBitsRules`). */
    method SkipLZ() returns (count: nat)
      modifies this
      ensures count == ZeroBits(BitString(data), old(index))
      ensures index == if old(index) + count < BitLength() then old(index) + count else old(index)
    {
      count := 0;
      while count < BitLength() - index
        invariant index == old(index)
        invariant ZeroBits(BitString(data), index) == count + ZeroBits(BitString(data), index + count)
        decreases BitLength() - index - count
      {
        var bit := GetBits(1, index + count, false);
        ZeroBitsStep(data, index + count);
        if bit.value != 0 {
          index := index + count;
          return;
        }
        count := count + 1;
      }
    }

    /** `skipUEG` (and `skipEG`, the same code): `skipBits(1 + skipLZ())`. */
    method SkipUEG() returns (r: Result<()>)
      modifies this
      ensures r.Ok? == ReadUEGAt(data, old(index)).0.Ok?
      ensures index == ReadUEGAt(data, old(index)).1
    {
      var zeros := SkipLZ();
      r := SkipBits(1 + zeros);
    }

    /** `readUEG`: the zero bits, then as many bits again after the one bit,
        read as one number, minus one (see `UEGValue`). */
    method ReadUEG() returns (r: Result<int>)
      modifies this
      ensures (r, index) == ReadUEGAt(data, old(index))
    {
      var prefix := SkipLZ();
      var v := ReadBits(prefix + 1);
      if v.Err? {
        return Err(v.msg);
      }
      r := Ok(v.value - 1);
    }

    /** `readEG`: a signed Exp-Golomb number (see `SignedOfRules`). */
    method ReadEG() returns (r: Result<int>)
      modifies this
      ensures (r, index) == ReadEGAt(data, old(index))
    {
      var value := ReadUEG();
      if value.Err? {
        return value;
      }
      if ToUint32(value.value) % 2 == 1 {
        r := Ok(ToUint32(1 + value.value) / 2);
      } else {
        r := Ok(-1 * (ToUint32(value.value) / 2));
      }
    }
  }

  // ---------------------------------------------------------------------
  // `H264Parser.skipScalingList`

  /** The result and the index after skipping `count` scaling-list entries
      from bit `pos`, given the last and the next scale so far: an entry
      reads a delta only while the next scale is not zero, and the next
      scale is `(last + delta + 256) % 256` with JavaScript's remainder. */
  function SkipScales(data: seq<byte>, pos: nat, count: nat, last: int, next: int): (Result<()>, nat)
    decreases count
  {
    if count == 0 then (Ok(()), pos)
    else if next == 0 then SkipScales(data, pos, count - 1, last, next)
    else
      var (delta, after) := ReadEGAt(data, pos);
      if delta.Err? then (Err(delta.msg), after)
      else
        var n := JsRem(last + delta.value + 256, 256);
        SkipScales(data, after, count - 1, if n == 0 then last else n, n)
  }

  /** `skipScalingList(decoder, count)`. */
  method SkipScalingList(decoder: BitStream, count: nat) returns (r: Result<()>)
    modifies decoder
    ensures (r, decoder.index) == SkipScales(decoder.data, old(decoder.index), count, 8, 8)
  {
    var lastScale := 8;
    var nextScale := 8;
    var j := 0;
    while j < count
      invariant j <= count
      invariant SkipScales(decoder.data, old(decoder.index), count, 8, 8)
        == SkipScales(decoder.data, decoder.index, count - j, lastScale, nextScale)
    {
      if nextScale != 0 {
        var deltaScale := decoder.ReadEG();
        if deltaScale.Err? {
          return Err(deltaScale.msg);
        }
        nextScale := JsRem(lastScale + deltaScale.value + 256, 256);
      }
      lastScale := if nextScale == 0 then lastScale else nextScale;
      j := j + 1;
    }
    r := Ok(());
  }

  // ---------------------------------------------------------------------
  // Arithmetic of the operators.

  lemma {:induction false} Pow2Add(a: nat, b: nat)
    ensures Pow2(a + b) == Pow2(a) * Pow2(b)
    decreases b
  {
    if b > 0 { Pow2Add(a, b - 1); }
  }

  lemma Pow2Product(a: nat, b: nat)
    requires a + b <= 32
    ensures Pow2(a) * Pow2(b) <= TWO_32
  {
    Pow2Add(a, b);
    Pow2Le32(a + b);
  }

  lemma MulBelow(a: nat, b: nat, p: nat)
    requires a < b && p > 0
    ensures a * p < b * p
  {
  }

  lemma {:induction false} LowBitsLe(x: nat, m: nat)
    ensures LowBits(x, m) <= x
    decreases m
  {
    if m > 0 { LowBitsLe(x / 2, m - 1); }
  }

  lemma {:induction false} ShrLe(x: nat, e: nat)
    ensures Shr(x, e) <= x
    decreases e
  {
    if e > 0 { ShrLe(x, e - 1); }
  }

  /** A chunk, shifted right, is below 2^31. */
  lemma ChunkBelow(data: seq<byte>, offsetBits: nat, e: nat)
    ensures Shr(Chunk(data, offsetBits), e) < TWO_31
  {
    LowBitsLe(ByteAt(data, offsetBits / 8), ChunkBits(offsetBits));
    ShrLe(Chunk(data, offsetBits), e);
  }

  /** OR of a value shifted left by `n` and a value below 2^n is their sum. */
  lemma {:induction false} OrDisjoint(a: nat, b: nat, n: nat)
    requires b < Pow2(n)
    ensures Or(a * Pow2(n), b) == a * Pow2(n) + b
    decreases n
  {
    if n > 0 && a != 0 && b != 0 {
      var h := a * Pow2(n - 1);
      assert a * Pow2(n) == 2 * h;
      OrDisjoint(a, b / 2, n - 1);
    }
  }

  /** OR of two values below 2^n is below 2^n. */
  lemma {:induction false} OrBound(a: nat, b: nat, n: nat)
    requires a < Pow2(n) && b < Pow2(n)
    ensures Or(a, b) < Pow2(n)
    decreases n
  {
    if a != 0 && b != 0 {
      OrBound(a / 2, b / 2, n - 1);
    }
  }

  lemma OrBound32(a: nat, b: nat)
    requires a < TWO_32 && b < TWO_32
    ensures Or(a, b) < TWO_32
  {
    Pow2At31();
    OrBound(a, b, 32);
  }

  /** Shifting left loses nothing while the result stays below 2^32. */
  lemma {:induction false} DoubledExact(u: nat, m: nat)
    requires u * Pow2(m) < TWO_32
    ensures Doubled(u, m) == u * Pow2(m)
    decreases m
  {
    if m > 0 {
      var p := Pow2(m - 1);
      assert u * Pow2(m) == 2 * (u * p);
      DoubledExact(u, m - 1);
      DivModUnique(u * p * 2, TWO_32, 0, u * p * 2);
    }
  }

  /** Shifting a value below 2^c left by n, with c + n at most 32, loses
      nothing. */
  lemma ShlExact(x: nat, c: nat, n: nat)
    requires x < Pow2(c) && 1 <= c && c + n <= 32
    ensures Shl(x, n) == x * Pow2(n)
  {
    Pow2Product(c, n);
    MulBelow(x, Pow2(c), Pow2(n));
    DivModUnique(n, 32, 0, n);
    DivModUnique(x, TWO_32, 0, x);
    DoubledExact(x, n);
  }

  /** Every read is a 32-bit pattern. */
  lemma {:induction false} WordBound(data: seq<byte>, offsetBits: nat, size: nat)
    ensures Word(data, offsetBits, size) < TWO_32
    decreases size
  {
    var bits := ChunkBits(offsetBits);
    WordSteps(data, offsetBits, size);
    if bits >= size {
      ChunkBelow(data, offsetBits, bits - size);
    } else {
      WordBound(data, offsetBits + bits, size - bits);
      OrBound32(Shl(Chunk(data, offsetBits), size - bits), Word(data, offsetBits + bits, size - bits));
    }
  }

  /** A read that stays inside the byte is the chunk shifted right. */
  lemma ReadInByte(data: seq<byte>, off: nat, size: nat)
    requires ChunkBits(off) >= size
    ensures Int32Of(Word(data, off, size)) == Shr(Chunk(data, off), ChunkBits(off) - size)
  {
    ChunkBelow(data, off, ChunkBits(off) - size);
  }

  /** A read that goes past the byte joins the chunk with the signed read
      of the rest, taken back to its 32-bit pattern. */
  lemma ReadAcrossBytes(data: seq<byte>, off: nat, size: nat, nextOff: nat, nextSize: nat, rest: Result<int>)
    requires ChunkBits(off) < size
    requires nextOff == off + ChunkBits(off) && nextSize == size - ChunkBits(off)
    requires rest == Ok(Int32Of(Word(data, nextOff, nextSize)))
    ensures Int32Of(Or(Shl(Chunk(data, off), nextSize), ToUint32(rest.value)))
      == Int32Of(Word(data, off, size))
  {
    var w := Word(data, off + ChunkBits(off), size - ChunkBits(off));
    WordBound(data, off + ChunkBits(off), size - ChunkBits(off));
    Uint32OfInt32(w);
    WordSteps(data, off, size);
  }

  lemma Uint32OfInt32(w: nat)
    requires w < TWO_32
    ensures ToUint32(Int32Of(w)) == w
  {
  }

  // ---------------------------------------------------------------------
  // Reads are the bits of the data.

  /** The lowest `m` bits of a field are the last `m` bits of it. */
  lemma {:induction false} LowBitsField(bits: seq<bool>, pos: nat, c: nat, m: nat)
    requires m <= c
    ensures LowBits(Field(bits, pos, c), m) == Field(bits, pos + c - m, m)
    decreases m
  {
    if m > 0 {
      DivModUnique(Field(bits, pos, c), 2, Field(bits, pos, c - 1), B(BitAt(bits, pos + c - 1)));
      LowBitsField(bits, pos, c - 1, m - 1);
    }
  }

  /** Shifting a field right by `e` drops its last `e` bits. */
  lemma {:induction false} FieldShr(bits: seq<bool>, pos: nat, c: nat, e: nat)
    requires e <= c
    ensures Shr(Field(bits, pos, c), e) == Field(bits, pos, c - e)
    decreases e
  {
    if e > 0 {
      FieldShr(bits, pos, c, e - 1);
      var m := c - e;
      DivModUnique(Field(bits, pos, m + 1), 2, Field(bits, pos, m), B(BitAt(bits, pos + m)));
    }
  }

  /** The chunk at bit `off` is the field of the bits from `off` to the end
      of that byte. */
  lemma ChunkField(data: seq<byte>, off: nat)
    ensures Chunk(data, off) == Field(BitString(data), off, ChunkBits(off))
  {
    var k := off / 8;
    FieldByte(data, k);
    LowBitsField(BitString(data), 8 * k, 8, ChunkBits(off));
  }

  /** `bits` are the bits of `data`, as far as chunks go. */
  ghost predicate ChunksOf(data: seq<byte>, bits: seq<bool>)
  {
    forall off: nat {:trigger Chunk(data, off)} :: Chunk(data, off) == Field(bits, off, ChunkBits(off))
  }

  lemma ChunksOfBitString(data: seq<byte>)
    ensures ChunksOf(data, BitString(data))
  {
    forall off: nat
      ensures Chunk(data, off) == Field(BitString(data), off, ChunkBits(off))
    {
      ChunkField(data, off);
    }
  }

  /** The two ways a read goes. */
  lemma WordSteps(data: seq<byte>, off: nat, size: nat)
    ensures var c := ChunkBits(off);
      Word(data, off, size)
      == if c >= size then Shr(Chunk(data, off), c - size)
         else Or(Shl(Chunk(data, off), size - c), Word(data, off + c, size - c))
  {
  }

  /** A chunk shifted left over the bits after it and ORed with them is
      the number of all those bits. */
  lemma JoinChunk(bits: seq<bool>, off: nat, c: nat, size: nat, chunk: nat, lo: nat)
    requires 1 <= c < size <= 32
    requires chunk == Field(bits, off, c) && lo == Field(bits, off + c, size - c)
    ensures Or(Shl(chunk, size - c), lo) == Field(bits, off, size)
  {
    var n := size - c;
    FieldBound(bits, off + c, n);
    FieldBound(bits, off, c);
    ShlExact(chunk, c, n);
    OrDisjoint(chunk, lo, n);
    FieldJoin(bits, off, c, n, Pow2(n));
  }

  lemma {:induction false} WordFieldOf(data: seq<byte>, bits: seq<bool>, off: nat, size: nat)
    requires ChunksOf(data, bits) && size <= 32
    ensures Word(data, off, size) == Field(bits, off, size)
    decreases size
  {
    assert Chunk(data, off) == Field(bits, off, ChunkBits(off));
    if ChunkBits(off) >= size {
      WordFieldShort(data, bits, off, size);
    } else {
      WordFieldOf(data, bits, off + ChunkBits(off), size - ChunkBits(off));
      WordFieldLong(data, bits, off, size);
    }
  }

  /** A read that ends inside its first byte is the field it covers. */
  lemma WordFieldShort(data: seq<byte>, bits: seq<bool>, off: nat, size: nat)
    requires Chunk(data, off) == Field(bits, off, ChunkBits(off)) && ChunkBits(off) >= size
    ensures Word(data, off, size) == Field(bits, off, size)
  {
    var c := ChunkBits(off);
    WordSteps(data, off, size);
    FieldShr(bits, off, c, c - size);
  }

  /** A read that goes on past its first byte is the field it covers when
      the read of the rest is. */
  lemma WordFieldLong(data: seq<byte>, bits: seq<bool>, off: nat, size: nat)
    requires Chunk(data, off) == Field(bits, off, ChunkBits(off)) && ChunkBits(off) < size <= 32
    requires Word(data, off + ChunkBits(off), size - ChunkBits(off))
      == Field(bits, off + ChunkBits(off), size - ChunkBits(off))
    ensures Word(data, off, size) == Field(bits, off, size)
  {
    var c := ChunkBits(off);
    JoinChunk(bits, off, c, size, Chunk(data, off), Word(data, off + c, size - c));
    WordSteps(data, off, size);
  }

  /** A read of at most 32 bits is the value of those bits, most
      significant first, with zeros past the end of the data. */
  lemma WordField(data: seq<byte>, off: nat, size: nat)
    requires size <= 32
    ensures Word(data, off, size) == Field(BitString(data), off, size)
  {
    ChunksOfBitString(data);
    WordFieldOf(data, BitString(data), off, size);
  }

  /** What a read means: the bits themselves for reads of up to 32 bits. */
  lemma ReadValueWord(data: seq<byte>, off: nat, size: nat)
    ensures ReadValue(BitString(data), data, off, size) == Word(data, off, size)
  {
    if size <= 32 {
      WordField(data, off, size);
    }
  }

  /** One step of `skipLZ`: a one-bit read is the bit itself. */
  lemma ZeroBitsStep(data: seq<byte>, p: nat)
    requires p < 8 * |data|
    ensures var bits := BitString(data);
      var v := Int32Of(Word(data, p, 1));
      (v != 0 ==> ZeroBits(bits, p) == 0)
      && (v == 0 ==> ZeroBits(bits, p) == 1 + ZeroBits(bits, p + 1))
  {
    var bits := BitString(data);
    WordField(data, p, 1);
    assert Field(bits, p, 1) == B(bits[p]) by {
      assert Field(bits, p, 0) == 0;
    }
  }

  lemma {:induction false} ZeroBitsEnd(bits: seq<bool>, pos: nat)
    requires pos <= |bits|
    ensures var k := ZeroBits(bits, pos);
      pos + k < |bits| ==> BitAt(bits, pos + k)
    decreases |bits| - pos
  {
    if pos < |bits| && !bits[pos] {
      ZeroBitsEnd(bits, pos + 1);
    }
  }

  lemma {:induction false} ZeroBitsZeros(bits: seq<bool>, pos: nat)
    requires pos <= |bits|
    ensures forall i | pos <= i < pos + ZeroBits(bits, pos) :: !bits[i]
    decreases |bits| - pos
  {
    if pos < |bits| && !bits[pos] {
      ZeroBitsZeros(bits, pos + 1);
    }
  }

  /** The bits `skipLZ` counts are zero bits of the data, and a one bit or
      the end of the data follows them. */
  lemma ZeroBitsRules(data: seq<byte>, pos: nat)
    requires pos <= 8 * |data|
    ensures var bits := BitString(data);
      var k := ZeroBits(bits, pos);
      pos + k <= |bits|
      && (pos + k < |bits| ==> bits[pos + k])
      && (forall i | pos <= i < pos + k :: !bits[i])
  {
    ZeroBitsEnd(BitString(data), pos);
    ZeroBitsZeros(BitString(data), pos);
  }

  lemma CodeField(bits: seq<bool>, p: nat, k: nat)
    requires BitAt(bits, p)
    ensures Field(bits, p, k + 1) == Pow2(k) + Field(bits, p + 1, k)
  {
    FieldJoin(bits, p, 1, k, Pow2(k));
    assert Field(bits, p, 1) == 1 by {
      assert Field(bits, p, 0) == 0;
    }
  }

  lemma Pow2Top(k: nat)
    ensures k == 31 ==> Pow2(k) == TWO_31
  {
    Pow2At31();
  }

  lemma CodeInt32(p: nat, suffix: nat, k: nat)
    requires suffix < p && k <= 31 && (k < 31 ==> 2 * p <= TWO_31) && (k == 31 ==> p == TWO_31)
    ensures Int32Of(p + suffix) - 1 == p - 1 + suffix - (if k == 31 then TWO_32 else 0)
  {
  }

  /** The one bit and the `k` bits after it, as the signed 32-bit read,
      minus one. */
  lemma CodeValue(bits: seq<bool>, p: nat, k: nat)
    requires k <= 31 && BitAt(bits, p)
    ensures Int32Of(Field(bits, p, k + 1)) - 1
      == Pow2(k) - 1 + Field(bits, p + 1, k) - (if k == 31 then TWO_32 else 0)
  {
    CodeField(bits, p, k);
    FieldBound(bits, p + 1, k);
    Pow2Le31(k);
    Pow2Top(k);
    CodeInt32(Pow2(k), Field(bits, p + 1, k), k);
  }

  lemma UEGValueOf(bits: seq<bool>, data: seq<byte>, pos: nat)
    requires pos <= |bits|
    ensures var k := ZeroBits(bits, pos);
      pos + 2 * k + 1 <= |bits| && k <= 31 ==>
        UEGOf(bits, data, pos)
        == (Ok(Pow2(k) - 1 + Field(bits, pos + k + 1, k) - (if k == 31 then TWO_32 else 0)), pos + 2 * k + 1)
  {
    var k := ZeroBits(bits, pos);
    ZeroBitsEnd(bits, pos);
    if pos + 2 * k + 1 <= |bits| && k <= 31 {
      CodeValue(bits, pos + k, k);
    }
  }

  /** `readUEG` is the Exp-Golomb code number 2^k - 1 + suffix, k being the
      count of leading zeros and the suffix the k bits after the one bit,
      when the code word is all there and k is at most 30. A 31-zero prefix
      puts the one bit in the sign bit of the 32-bit read, so the number
      comes out 2^32 too small. */
  lemma UEGValue(data: seq<byte>, pos: nat)
    requires pos <= 8 * |data|
    ensures var bits := BitString(data);
      var k := ZeroBits(bits, pos);
      pos + 2 * k + 1 <= |bits| && k <= 31 ==>
        ReadUEGAt(data, pos)
        == (Ok(Pow2(k) - 1 + Field(bits, pos + k + 1, k) - (if k == 31 then TWO_32 else 0)), pos + 2 * k + 1)
  {
    UEGValueOf(BitString(data), data, pos);
  }

  /** With no one bit, or fewer than k bits after it, `readUEG` throws. */
  lemma UEGShort(data: seq<byte>, pos: nat)
    ensures var k := ZeroBits(BitString(data), pos);
      pos + 2 * k + 1 > 8 * |data| ==> ReadUEGAt(data, pos).0 == Err(NO_BYTES)
  {
  }

  /** For code numbers that fit, `readEG`'s mapping is the signed mapping
      of section 9.1.1 of ITU-T H.264, so it undoes `SignedCode`. */
  lemma SignedOfRules(v: int)
    requires 0 <= v < TWO_32 - 1
    ensures SignedOf(v) == SignedOfCode(v)
  {
  }

  lemma SignedOfRoundTrip(x: int)
    requires -TWO_31 < x < TWO_31
    ensures SignedOf(SignedCode(x)) == x
  {
    SignedOfRules(SignedCode(x));
  }

  /** Once the next scale is zero the rest of the list reads nothing. */
  lemma {:induction false} ZeroScaleStops(data: seq<byte>, pos: nat, count: nat, last: int)
    ensures SkipScales(data, pos, count, last, 0) == (Ok(()), pos)
    decreases count
  {
    if count > 0 { ZeroScaleStops(data, pos, count - 1, last); }
  }

  /** A first delta of -8 brings the scale to zero, so a list of any
      length reads exactly one signed Exp-Golomb number. */
  lemma FirstZeroStops(data: seq<byte>, pos: nat, count: nat)
    requires count >= 1 && ReadEGAt(data, pos).0 == Ok(-8)
    ensures SkipScales(data, pos, count, 8, 8) == (Ok(()), ReadEGAt(data, pos).1)
  {
    ZeroScaleStops(data, ReadEGAt(data, pos).1, count - 1, 8);
  }
}
