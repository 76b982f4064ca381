/** Bytes and the big-endian integer fields that the wire formats use. */
module Bytes {
  newtype byte = x: int | 0 <= x < 256

  const TWO_16: int := 0x1_0000
  const TWO_32: int := 0x1_0000_0000

  /** JavaScript's `%` on integers: the remainder takes the sign of the
      dividend. */
  function JsRem(a: int, d: int): (r: int)
    requires d > 0
    ensures -d < r < d
    ensures a >= 0 ==> r == a % d
    ensures a < 0 ==> r <= 0
  {
    if a >= 0 then a % d else -((-a) % d)
  }

  /** Big-endian encoding of `v` modulo 256^n in exactly `n` bytes, as a
      DataView `setUint*` call writes it. */
  function BE(v: nat, n: nat): (r: seq<byte>)
    decreases n
  {
    if n == 0 then [] else BE(v / 256, n - 1) + [(v % 256) as byte]
  }

  /** The unsigned value of a big-endian byte string. */
  function BEValue(s: seq<byte>): (v: nat)
  {
    if s == [] then 0 else BEValue(s[..|s| - 1]) * 256 + s[|s| - 1] as int
  }

  function Pow256(n: nat): (p: nat)
    ensures p > 0
  {
    if n == 0 then 1 else 256 * Pow256(n - 1)
  }

  lemma Pow256Values()
    ensures Pow256(1) == 256 && Pow256(2) == TWO_16 && Pow256(4) == TWO_32
    ensures Pow256(8) == TWO_32 * TWO_32
  {
    assert Pow256(2) == 256 * Pow256(1);
    assert Pow256(3) == 256 * Pow256(2);
    assert Pow256(4) == 256 * Pow256(3);
    assert Pow256(8) == 256 * Pow256(7);
    assert Pow256(7) == 256 * Pow256(6);
    assert Pow256(6) == 256 * Pow256(5);
    assert Pow256(5) == 256 * Pow256(4);
  }

  /** Quotient and remainder are unique. */
  lemma DivModUnique(v: int, d: int, q: int, r: int)
    requires d > 0 && v == q * d + r && 0 <= r < d
    ensures v / d == q && v % d == r
  {
    var q', r' := v / d, v % d;
    assert (q' - q) * d == r - r';
    if q' > q {
      MulAtLeast(q' - q, d);
    } else if q' < q {
      MulAtLeast(q - q', d);
    }
  }

  lemma MulAtLeast(a: int, d: int)
    requires a >= 1 && d > 0
    ensures a * d >= d
  {
  }

  lemma {:induction false} BELength(v: nat, n: nat)
    ensures |BE(v, n)| == n
  {
    if n > 0 { BELength(v / 256, n - 1); }
  }

  /** Decoding an n-byte big-endian field gives back the value modulo 256^n. */
  lemma {:induction false} BERoundTrip(v: nat, n: nat)
    ensures |BE(v, n)| == n
    ensures BEValue(BE(v, n)) == v % Pow256(n)
  {
    BELength(v, n);
    if n > 0 {
      BERoundTrip(v / 256, n - 1);
      var s := BE(v, n);
      assert s[..|s| - 1] == BE(v / 256, n - 1);
      ModStep(v, Pow256(n - 1));
    }
  }

  lemma ModStep(v: nat, p: nat)
    requires p > 0
    ensures (v / 256 % p) * 256 + v % 256 == v % (256 * p)
  {
    var q, r := v / 256, v % 256;
    var a, b := q / p, q % p;
    assert v == a * (256 * p) + (b * 256 + r) by {
      assert v == 256 * q + r;
      assert q == a * p + b;
      assert 256 * q == 256 * (a * p) + 256 * b;
    }
    assert 0 <= b * 256 + r < 256 * p;
    DivModUnique(v, 256 * p, a, b * 256 + r);
  }

  /** A value below 256^n is decoded exactly. */
  lemma BEExact(v: nat, n: nat)
    requires v < Pow256(n)
    ensures |BE(v, n)| == n && BEValue(BE(v, n)) == v
  {
    BERoundTrip(v, n);
    DivModUnique(v, Pow256(n), 0, v);
  }

  lemma {:induction false} BEValueBound(s: seq<byte>)
    ensures BEValue(s) < Pow256(|s|)
  {
    if s != [] {
      BEValueBound(s[..|s| - 1]);
    }
  }

  /** Two's-complement bit pattern of `v` in `n` bytes; Dafny's `%` is
      Euclidean, so this is exactly what `setInt*` stores. */
  function TwosComplement(v: int, n: nat): (u: nat)
  {
    v % Pow256(n)
  }

  /** The signed reading (`getInt*`) of an n-byte pattern. */
  function Signed(u: nat, n: nat): (v: int)
  {
    if u >= Pow256(n) / 2 then u - Pow256(n) else u
  }

  /** A signed value in range survives two's complement and back. */
  lemma SignedRoundTrip(v: int, n: nat)
    requires n > 0
    requires -(Pow256(n) / 2) <= v < Pow256(n) / 2
    ensures Signed(TwosComplement(v, n), n) == v
  {
    var p := Pow256(n);
    assert p == 256 * Pow256(n - 1);
    if v < 0 {
      DivModUnique(v, p, -1, v + p);
    } else {
      DivModUnique(v, p, 0, v);
    }
  }

  function U16(v: nat): seq<byte> { BE(v, 2) }
  function U32(v: nat): seq<byte> { BE(v, 4) }
  function I16(v: int): seq<byte> { BE(TwosComplement(v, 2), 2) }
  function I32(v: int): seq<byte> { BE(TwosComplement(v, 4), 4) }
  function I64(v: int): seq<byte> { BE(TwosComplement(v, 8), 8) }

  /** `readUInt32BE(off)` of a Node.js Buffer. */
  function ReadU32(s: seq<byte>, off: nat): (v: nat)
    requires off + 4 <= |s|
    ensures v < TWO_32
  {
    BEValueBound(s[off..off + 4]);
    Pow256Values();
    BEValue(s[off..off + 4])
  }
}
