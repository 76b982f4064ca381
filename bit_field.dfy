/** Fixed-width bit fields of a byte buffer, most significant bit first,
    as the AudioSpecificConfig reader and the ADTS header see them. Reading
    past the end of a JavaScript buffer yields `undefined`, which the bitwise
    operators take as 0, so the buffer is followed by zeros without end. */
module BitField {
  import opened Bytes
  import opened BitReader

  /** Bit `i` of a bit string, and `false` past its end. */
  predicate BitAt(bits: seq<bool>, i: nat)
  {
    i < |bits| && bits[i]
  }

  /** Byte `k` of the buffer, and 0 past its end. */
  function ByteAt(buf: seq<byte>, k: nat): nat
  {
    if k < |buf| then buf[k] as nat else 0
  }

  /** The unsigned value of bits `pos` to `pos + n - 1`, zero past the end;
      a buffer's fields are those of its `BitString`. (With the length of
      `bits` in the measure, a field at a constant position is not unrolled
      bit by bit by the verifier.) */
  function Field(bits: seq<bool>, pos: nat, n: nat): nat
    decreases |bits| + n
  {
    if n == 0 then 0 else Field(bits, pos, n - 1) * 2 + B(BitAt(bits, pos + n - 1))
  }

  lemma {:induction false} FieldBound(bits: seq<bool>, pos: nat, n: nat)
    ensures Field(bits, pos, n) < Pow2(n)
    decreases n
  {
    if n > 0 { FieldBound(bits, pos, n - 1); }
  }

  /** A field of a + b bits is its first a bits followed by the next b. */
  lemma {:induction false} FieldSplit(bits: seq<bool>, pos: nat, a: nat, b: nat)
    ensures Field(bits, pos, a + b) == Field(bits, pos, a) * Pow2(b) + Field(bits, pos + a, b)
    decreases b
  {
    if b > 0 {
      var m, i := b - 1, pos + a + b - 1;
      FieldSplit(bits, pos, a, m);
      SplitStep(Field(bits, pos, a + b), Field(bits, pos, a + m), Field(bits, pos, a),
        Field(bits, pos + a, m), Field(bits, pos + a, b), Pow2(m), Pow2(b), B(BitAt(bits, i)));
    }
  }

  lemma SplitStep(whole: int, init: int, x: int, y: int, y': int, p: int, p': int, c: int)
    requires whole == init * 2 + c && init == x * p + y
    requires y' == y * 2 + c && p' == 2 * p
    ensures whole == x * p' + y'
  {
  }

  /** `FieldSplit` with the power of two given by value. */
  lemma FieldJoin(bits: seq<bool>, pos: nat, a: nat, b: nat, p: nat)
    requires p == Pow2(b)
    ensures Field(bits, pos, a + b) == Field(bits, pos, a) * p + Field(bits, pos + a, b)
  {
    FieldSplit(bits, pos, a, b);
  }

  /** The first `n` of the `c` bits at `pos` are the field divided by
      2^(c - n), and the rest is the remainder. */
  lemma FieldTake(bits: seq<bool>, pos: nat, n: nat, c: nat)
    requires n <= c
    ensures Field(bits, pos, c) / Pow2(c - n) == Field(bits, pos, n)
    ensures Field(bits, pos, c) % Pow2(c - n) == Field(bits, pos + n, c - n)
  {
    FieldSplit(bits, pos, n, c - n);
    FieldBound(bits, pos + n, c - n);
    DivModUnique(Field(bits, pos, c), Pow2(c - n), Field(bits, pos, n), Field(bits, pos + n, c - n));
  }

  /** Inside the bit string the field is the value of its bits. */
  lemma {:induction false} FieldInside(bits: seq<bool>, pos: nat, n: nat)
    requires pos + n <= |bits|
    ensures Field(bits, pos, n) == BitsValue(bits, pos, n)
    decreases n
  {
    if n > 0 { FieldInside(bits, pos, n - 1); }
  }

  /** Past the end of the bit string every field is zero. */
  lemma {:induction false} FieldPastEnd(bits: seq<bool>, pos: nat, n: nat)
    requires pos >= |bits|
    ensures Field(bits, pos, n) == 0
    decreases n
  {
    if n > 0 { FieldPastEnd(bits, pos, n - 1); }
  }

  /** Eight bits at a byte boundary are that byte. */
  lemma FieldByte(buf: seq<byte>, k: nat)
    ensures Field(BitString(buf), 8 * k, 8) == ByteAt(buf, k)
  {
    if k < |buf| {
      FieldInside(BitString(buf), 8 * k, 8);
      ByteBits(buf, k, 8);
    } else {
      FieldPastEnd(BitString(buf), 8 * k, 8);
    }
  }

  /** A field inside the eight bits at `pos`, whose value is `v`: bits `j`
      to `j + n - 1` of it, that is `v` modulo `low` = 2^(8 - j), divided by
      `shift` = 2^(8 - j - n). */
  lemma FieldInByte(bits: seq<bool>, pos: nat, j: nat, n: nat, v: nat, low: nat, shift: nat)
    requires j + n <= 8 && Field(bits, pos, 8) == v
    requires low == Pow2(8 - j) && shift == Pow2(8 - j - n)
    ensures Field(bits, pos + j, n) == v % low / shift
  {
    FieldTake(bits, pos, j, 8);
    FieldTake(bits, pos + j, n, 8 - j);
  }

  lemma Pow2Values()
    ensures Pow2(0) == 1 && Pow2(1) == 2 && Pow2(2) == 4 && Pow2(3) == 8
    ensures Pow2(4) == 16 && Pow2(5) == 32 && Pow2(6) == 64 && Pow2(7) == 128
    ensures Pow2(8) == 256 && Pow2(11) == 2048 && Pow2(24) == 0x100_0000
  {
    assert Pow2(8) == 256 by { assert Pow2(6) == 64; }
    assert Pow2(11) == 2048;
    assert Pow2(24) == 0x100_0000 by {
      assert Pow2(16) == 0x1_0000 by { assert Pow2(14) == 0x4000; }
      assert Pow2(20) == 0x10_0000;
    }
  }

  /** Eight more bits multiply the bound by 256. */
  lemma Pow2Plus8(n: nat)
    ensures Pow2(n + 8) == 256 * Pow2(n)
  {
    assert Pow2(n + 4) == 16 * Pow2(n) by {
      assert Pow2(n + 4) == 2 * Pow2(n + 3);
      assert Pow2(n + 3) == 2 * Pow2(n + 2);
      assert Pow2(n + 2) == 2 * Pow2(n + 1);
    }
    assert Pow2(n + 8) == 16 * Pow2(n + 4) by {
      assert Pow2(n + 8) == 2 * Pow2(n + 7);
      assert Pow2(n + 7) == 2 * Pow2(n + 6);
      assert Pow2(n + 6) == 2 * Pow2(n + 5);
    }
  }

  // ---------------------------------------------------------------------
  // Bit strings laid out by concatenation

  /** A word placed after `pre` is held at position |pre|. */
  lemma {:induction false} HoldsAtMiddle(pre: seq<bool>, w: seq<bool>, post: seq<bool>)
    ensures HoldsAt(pre + w + post, |pre|, w)
    decreases |w|
  {
    if w != [] {
      assert (pre + w + post)[|pre|] == w[0];
      assert pre + w + post == (pre + [w[0]]) + w[1..] + post;
      HoldsAtMiddle(pre + [w[0]], w[1..], post);
    }
  }

  lemma HoldsSelf(w: seq<bool>)
    ensures HoldsAt(w, 0, w)
  {
    HoldsAtMiddle([], w, []);
    assert [] + w + [] == w;
  }

  /** The n-bit binary digits of `v`, held at `pos`, read back as `v`. */
  lemma ReadBin(bits: seq<bool>, pos: nat, v: nat, n: nat)
    requires v < Pow2(n) && HoldsAt(bits, pos, BinBits(v, n))
    ensures Field(bits, pos, n) == v
  {
    BinBitsValue(bits, pos, v, n);
    FieldInside(bits, pos, n);
  }

  // ---------------------------------------------------------------------
  // Packing bits into bytes

  /** The byte whose bits, most significant first, are `w`. */
  function ByteOf(w: seq<bool>): byte
    requires |w| == 8
  {
    BitsValueBound(w, 0, 8);
    Pow2Byte();
    BitsValue(w, 0, 8) as byte
  }

  /** Bytes whose bit string is `bits`, eight bits at a time. */
  function Pack(bits: seq<bool>): (r: seq<byte>)
    requires |bits| % 8 == 0
    ensures 8 * |r| == |bits|
    decreases |bits|
  {
    if bits == [] then [] else [ByteOf(bits[..8])] + Pack(bits[8..])
  }

  /** Shifting the value of a bit string right by `e` drops its last `e` bits. */
  lemma {:induction false} ShrValue(w: seq<bool>, e: nat)
    requires e <= |w|
    ensures Shr(BitsValue(w, 0, |w|), e) == BitsValue(w, 0, |w| - e)
    decreases e
  {
    if e > 0 {
      ShrValue(w, e - 1);
      var m := |w| - e;
      DivModUnique(BitsValue(w, 0, m + 1), 2, BitsValue(w, 0, m), B(w[m]));
    }
  }

  lemma ByteOfBits(w: seq<bool>)
    requires |w| == 8
    ensures ByteBitString(ByteOf(w)) == w
  {
    forall j | 0 <= j < 8
      ensures ByteBitString(ByteOf(w))[j] == w[j]
    {
      ShrValue(w, 7 - j);
      LastBit(w, j + 1);
    }
  }

  /** The parity of a bit-string value is its last bit. */
  lemma LastBit(w: seq<bool>, m: nat)
    requires 1 <= m <= |w|
    ensures BitsValue(w, 0, m) % 2 == B(w[m - 1])
  {
    DivModUnique(BitsValue(w, 0, m), 2, BitsValue(w, 0, m - 1), B(w[m - 1]));
  }

  /** Packing keeps every bit. */
  lemma {:induction false} PackBits(bits: seq<bool>)
    requires |bits| % 8 == 0
    ensures BitString(Pack(bits)) == bits
    decreases |bits|
  {
    if bits != [] {
      var p := Pack(bits);
      PackBits(bits[8..]);
      ByteOfBits(bits[..8]);
      assert p[0] == ByteOf(bits[..8]) && p[1..] == Pack(bits[8..]);
      assert bits == bits[..8] + bits[8..];
    }
  }

  /** Packed bits have the fields of the bits themselves. */
  lemma FieldOfPack(bits: seq<bool>, pos: nat, n: nat)
    requires |bits| % 8 == 0
    ensures Field(BitString(Pack(bits)), pos, n) == Field(bits, pos, n)
  {
    PackBits(bits);
  }
}
