/** An H.264 network abstraction layer unit as the bundled converter
    (public/main.js, `NALU`) holds it: the unit's bytes without a start
    code, the two header fields taken from its first byte, and the
    length-prefixed form the unit takes inside an MP4 sample. */
module NalUnit {
  import opened Bytes
  import opened BitReader
  import opened BitField
  import opened TypedArray

  /** The unit types the converter names. */
  const NDR: nat := 1
  const IDR: nat := 5
  const SEI: nat := 6
  const SPS: nat := 7
  const PPS: nat := 8

  /** `TYPES`: the name of each known unit type. */
  const TYPES: map<nat, string> :=
    map[IDR := "IDR", SEI := "SEI", SPS := "SPS", PPS := "PPS", NDR := "NDR"]

  const UNKNOWN: string := "UNKNOWN"

  datatype Nalu = Nalu(data: seq<byte>)

  /** `nri`: bits 6 and 5 of the first byte (`& 0x60 >> 5`); a unit with no
      bytes reads `undefined`, which the bitwise operators take as 0. */
  function Nri(u: Nalu): nat
  {
    ByteAt(u.data, 0) % 128 / 32
  }

  /** `ntype`: the low five bits of the first byte (`& 0x1F`). */
  function NType(u: Nalu): nat
  {
    ByteAt(u.data, 0) % 32
  }

  /** The two header fields are the `nal_ref_idc` and `nal_unit_type`
      fields of section 7.3.1 of ITU-T H.264: the two bits after the
      `forbidden_zero_bit` and the five bits after them; together with that
      bit they make up the whole first byte. */
  lemma HeaderFields(u: Nalu)
    ensures var bits := BitString(u.data);
      Nri(u) == Field(bits, 1, 2) && NType(u) == Field(bits, 3, 5)
      && ByteAt(u.data, 0) == 128 * Field(bits, 0, 1) + 32 * Nri(u) + NType(u)
      && Nri(u) < 4 && NType(u) < 32
  {
    FieldByte(u.data, 0);
    ByteFields(BitString(u.data), ByteAt(u.data, 0));
  }

  /** The three fields of an eight-bit value `v` at the front of `bits`. */
  lemma ByteFields(bits: seq<bool>, v: nat)
    requires Field(bits, 0, 8) == v < 256
    ensures Field(bits, 0, 1) == v / 128 && Field(bits, 1, 2) == v % 128 / 32
    ensures Field(bits, 3, 5) == v % 32
    ensures v == 128 * Field(bits, 0, 1) + 32 * Field(bits, 1, 2) + Field(bits, 3, 5)
  {
    Pow2Values();
    FieldJoin(bits, 0, 1, 7, 128);
    FieldJoin(bits, 1, 2, 5, 32);
    FieldInByte(bits, 0, 0, 1, v, 256, 128);
    FieldInByte(bits, 0, 1, 2, v, 128, 32);
    FieldInByte(bits, 0, 3, 5, v, 32, 1);
  }

  /** `NALU.type(nalu)`: the name of a known type, `"UNKNOWN"` otherwise. */
  function TypeName(u: Nalu): string
  {
    if NType(u) in TYPES then TYPES[NType(u)] else UNKNOWN
  }

  /** The names: exactly the five known types have a name, and no two of
      them share one. */
  lemma TypeNames(u: Nalu, w: Nalu)
    ensures TypeName(u) != UNKNOWN <==> NType(u) in {NDR, IDR, SEI, SPS, PPS}
    ensures TypeName(u) != UNKNOWN && TypeName(u) == TypeName(w) ==> NType(u) == NType(w)
    ensures NType(u) == SPS ==> TypeName(u) == "SPS"
    ensures NType(u) == PPS ==> TypeName(u) == "PPS"
  {
  }

  /** `isKeyframe`: the unit is an IDR slice. */
  function IsKeyframe(u: Nalu): bool
  {
    NType(u) == IDR
  }

  /** A key frame is exactly a unit named "IDR", and one whose first byte
      ends in the five bits 00101. */
  lemma KeyframeRules(u: Nalu)
    ensures IsKeyframe(u) <==> TypeName(u) == "IDR"
    ensures IsKeyframe(u) <==> Field(BitString(u.data), 3, 5) == 5
  {
    HeaderFields(u);
  }

  /** `getSize`: the unit with its four-byte length. */
  function GetSize(u: Nalu): nat
  {
    4 + |u.data|
  }

  /** The length-prefixed unit: the length as a 32-bit big-endian word
      (`setUint32` keeps it modulo 2^32), then the bytes. */
  function Framed(u: Nalu): seq<byte>
  {
    BE(GetSize(u) - 4, 4) + u.data
  }

  /** Reading the prefix back gives the length, and the rest is the unit:
      the framing is undone by a 4-byte big-endian read. */
  lemma FramedRoundTrip(u: Nalu)
    requires |u.data| < TWO_32
    ensures |Framed(u)| == GetSize(u)
    ensures BEValue(Framed(u)[..4]) == |u.data| && Framed(u)[4..] == u.data
    ensures Nalu(Framed(u)[4..]) == u
  {
    Pow256Values();
    BEExact(|u.data|, 4);
    assert Framed(u)[..4] == BE(|u.data|, 4);
  }

  /** The framed form holds the length modulo 2^32 whatever the length. */
  lemma FramedPrefix(u: Nalu)
    ensures |Framed(u)| == GetSize(u)
    ensures BEValue(Framed(u)[..4]) == |u.data| % TWO_32
  {
    Pow256Values();
    BERoundTrip(|u.data|, 4);
    assert Framed(u)[..4] == BE(|u.data|, 4);
  }

  /** `getData`: a zeroed array of `getSize` bytes, the length written at
      0 and the unit's bytes set at 4. */
  method GetData(u: Nalu) returns (result: array<byte>)
    ensures fresh(result)
    ensures result[..] == Framed(u)
  {
    result := new byte[GetSize(u)](_ => 0);
    BELength(GetSize(u) - 4, 4);
    Set(result, BE(GetSize(u) - 4, 4), 0);
    Set(result, u.data, 4);
    assert result[..] == Framed(u);
  }
}
