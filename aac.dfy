/** The AAC side of the session: `parseAudioSpecificConfig`, which reads the
    AudioSpecificConfig that scrcpy sends as the audio stream's first
    packet, and `createAdtsHeader`, which prefixes every later AAC frame
    with a 7-byte ADTS header (both in src-server/scrcpySession.js and,
    identically, in server.js). The layouts are those of ISO/IEC 14496-3
    section 1.6.2.1 (AudioSpecificConfig) and ISO/IEC 13818-7 section 6.2
    (adts_fixed_header and adts_variable_header). */
module Aac {
  import opened Wrappers
  import opened Bytes
  import opened BitReader
  import opened BitField
  import opened Text

  /** SAMPLE_RATE_MAP: the rate of each sampling frequency index; indices
      13 and 14 are reserved and 15 means the rate follows explicitly, and
      the map holds 0 for all three. */
  const SAMPLE_RATES: seq<nat> :=
    [96000, 88200, 64000, 48000, 44100, 32000, 24000, 22050, 16000, 12000, 11025, 8000, 7350, 0, 0, 0]

  /** A lookup in SAMPLE_RATE_MAP; a missing entry is `undefined`, which the
      parser rejects exactly like 0. */
  function TableRate(index: nat): nat
  {
    if index < |SAMPLE_RATES| then SAMPLE_RATES[index] else 0
  }

  /** PROFILE_MAP: AAC LC (2), SBR (5) and PS (29) to the ADTS profile
      numbers 1, 4 and 28; 0 plays the `undefined` of every other type. */
  function ProfileOf(objectType: nat): nat
  {
    if objectType == 2 then 1
    else if objectType == 5 then 4
    else if objectType == 29 then 28
    else 0
  }

  /** The fields of an AudioSpecificConfig in stream order: audioObjectType
      (5 bits), samplingFrequencyIndex (4 bits), samplingFrequency (24 bits,
      present only when the index is 15, otherwise 0 here) and
      channelConfiguration (4 bits). */
  datatype AscFields = AscFields(objectType: nat, sampleRateIndex: nat, explicitRate: nat, channelConfig: nat)

  /** The metadata object the parser returns. */
  datatype AudioConfig = AudioConfig(profile: nat, sampleRateIndex: nat, sampleRate: nat, channelConfig: nat)

  predicate InRange(f: AscFields)
  {
    f.objectType < 32 && f.sampleRateIndex < 16 && f.explicitRate < 0x100_0000 && f.channelConfig < 16
      && (f.sampleRateIndex != 15 ==> f.explicitRate == 0)
  }

  /** The fields as they sit in the buffer, which is followed by zero bits
      when it is too short (`buffer[offset++]` past the end is `undefined`,
      and `(bits << 8) | undefined` shifts in zeros). */
  function AscLayout(buffer: seq<byte>): (f: AscFields)
    ensures InRange(f)
  {
    var bits := BitString(buffer);
    var index := Field(bits, 5, 4);
    var channelAt := if index == 15 then 33 else 9;
    FieldBound(bits, 0, 5);
    FieldBound(bits, 5, 4);
    FieldBound(bits, 9, 24);
    FieldBound(bits, channelAt, 4);
    Pow2Values();
    AscFields(Field(bits, 0, 5), index, if index == 15 then Field(bits, 9, 24) else 0,
      Field(bits, channelAt, 4))
  }

  /** The checks of `parseAudioSpecificConfig`, in its order, with its
      error messages. */
  function Validate(f: AscFields): Result<AudioConfig>
  {
    var rate := if f.sampleRateIndex == 15 then f.explicitRate else TableRate(f.sampleRateIndex);
    if ProfileOf(f.objectType) == 0 then
      Err("Unsupported AAC object type: " + NatToString(f.objectType))
    else if rate == 0 then
      Err("Unsupported sample rate index: " + NatToString(f.sampleRateIndex))
    else if f.channelConfig < 1 || f.channelConfig > 7 then
      Err("Unsupported channel configuration: " + NatToString(f.channelConfig))
    else
      Ok(AudioConfig(ProfileOf(f.objectType), f.sampleRateIndex, rate, f.channelConfig))
  }

  /** `parseAudioSpecificConfig(buffer)`; a thrown error is `Err`. */
  function ParseAsc(buffer: seq<byte>): Result<AudioConfig>
  {
    Validate(AscLayout(buffer))
  }

  /** A configuration is accepted exactly when the object type is AAC LC,
      SBR or PS, the rate index is one of the thirteen table entries or is
      15 with a nonzero explicit rate, and there are 1 to 7 channels; the
      ADTS profile is then the object type minus one. The failed check
      named in the error is the first one in that order. */
  lemma ValidateOutcome(f: AscFields)
    ensures Validate(f).Ok? <==>
      (f.objectType == 2 || f.objectType == 5 || f.objectType == 29)
      && (f.sampleRateIndex <= 12 || (f.sampleRateIndex == 15 && f.explicitRate > 0))
      && 1 <= f.channelConfig <= 7
    ensures Validate(f).Ok? ==>
      var c := Validate(f).value;
      c.profile == f.objectType - 1 && c.sampleRateIndex == f.sampleRateIndex
      && c.channelConfig == f.channelConfig && c.sampleRate > 0
      && c.sampleRate == (if f.sampleRateIndex == 15 then f.explicitRate else SAMPLE_RATES[f.sampleRateIndex])
    ensures !(f.objectType == 2 || f.objectType == 5 || f.objectType == 29) ==>
      Validate(f) == Err("Unsupported AAC object type: " + NatToString(f.objectType))
    ensures ((f.objectType == 2 || f.objectType == 5 || f.objectType == 29)
      && !(f.sampleRateIndex <= 12 || (f.sampleRateIndex == 15 && f.explicitRate > 0))) ==>
      Validate(f) == Err("Unsupported sample rate index: " + NatToString(f.sampleRateIndex))
  {
  }

  // ---------------------------------------------------------------------
  // Writing an AudioSpecificConfig

  /** The bits of an AudioSpecificConfig with these fields, padded with
      three zero bits to whole bytes. */
  function AscBits(f: AscFields): (bits: seq<bool>)
    ensures |bits| % 8 == 0
  {
    BinBits(f.objectType, 5) + BinBits(f.sampleRateIndex, 4)
      + (if f.sampleRateIndex == 15 then BinBits(f.explicitRate, 24) else [])
      + BinBits(f.channelConfig, 4) + [false, false, false]
  }

  function EncodeAsc(f: AscFields): seq<byte>
  {
    Pack(AscBits(f))
  }

  /** Reading back a written configuration gives its fields. */
  lemma AscLayoutRoundTrip(f: AscFields)
    requires InRange(f)
    ensures AscLayout(EncodeAsc(f)) == f
  {
    var bits := AscBits(f);
    AscBitsFields(f);
    FieldOfPack(bits, 0, 5);
    FieldOfPack(bits, 5, 4);
    FieldOfPack(bits, 9, 24);
    FieldOfPack(bits, 9, 4);
    FieldOfPack(bits, 33, 4);
  }

  /** The fields sit in the written bits where the layout reads them. */
  lemma AscBitsFields(f: AscFields)
    requires InRange(f)
    ensures Field(AscBits(f), 0, 5) == f.objectType && Field(AscBits(f), 5, 4) == f.sampleRateIndex
    ensures f.sampleRateIndex == 15 ==>
      Field(AscBits(f), 9, 24) == f.explicitRate && Field(AscBits(f), 33, 4) == f.channelConfig
    ensures f.sampleRateIndex != 15 ==> Field(AscBits(f), 9, 4) == f.channelConfig
  {
    var t, i, c := BinBits(f.objectType, 5), BinBits(f.sampleRateIndex, 4), BinBits(f.channelConfig, 4);
    if f.sampleRateIndex == 15 {
      ExplicitRateFields(f, t, i, BinBits(f.explicitRate, 24), c);
    } else {
      TableRateFields(f, t, i, c);
    }
  }

  lemma ExplicitRateFields(f: AscFields, t: seq<bool>, i: seq<bool>, r: seq<bool>, c: seq<bool>)
    requires InRange(f) && f.sampleRateIndex == 15
    requires t == BinBits(f.objectType, 5) && i == BinBits(f.sampleRateIndex, 4)
    requires r == BinBits(f.explicitRate, 24) && c == BinBits(f.channelConfig, 4)
    ensures Field(AscBits(f), 0, 5) == f.objectType && Field(AscBits(f), 5, 4) == f.sampleRateIndex
    ensures Field(AscBits(f), 9, 24) == f.explicitRate && Field(AscBits(f), 33, 4) == f.channelConfig
  {
    var bits := AscBits(f);
    assert bits == t + i + r + c + [false, false, false];
    Pow2Values();
    Layout(t, i, r, c, [false, false, false]);
    ReadBin(bits, 0, f.objectType, 5);
    ReadBin(bits, 5, f.sampleRateIndex, 4);
    ReadBin(bits, 9, f.explicitRate, 24);
    ReadBin(bits, 33, f.channelConfig, 4);
  }

  lemma TableRateFields(f: AscFields, t: seq<bool>, i: seq<bool>, c: seq<bool>)
    requires InRange(f) && f.sampleRateIndex != 15
    requires t == BinBits(f.objectType, 5) && i == BinBits(f.sampleRateIndex, 4)
    requires c == BinBits(f.channelConfig, 4)
    ensures Field(AscBits(f), 0, 5) == f.objectType && Field(AscBits(f), 5, 4) == f.sampleRateIndex
    ensures Field(AscBits(f), 9, 4) == f.channelConfig
  {
    var bits := AscBits(f);
    assert bits == t + i + [] + c + [false, false, false];
    Pow2Values();
    Layout(t, i, [], c, [false, false, false]);
    ReadBin(bits, 0, f.objectType, 5);
    ReadBin(bits, 5, f.sampleRateIndex, 4);
    ReadBin(bits, 9, f.channelConfig, 4);
  }

  /** Where each of four words written one after the other is held. */
  lemma Layout(t: seq<bool>, i: seq<bool>, r: seq<bool>, c: seq<bool>, z: seq<bool>)
    ensures HoldsAt(t + i + r + c + z, 0, t) && HoldsAt(t + i + r + c + z, |t|, i)
    ensures HoldsAt(t + i + r + c + z, |t| + |i|, r)
    ensures HoldsAt(t + i + r + c + z, |t| + |i| + |r|, c)
  {
    var bits := t + i + r + c + z;
    HoldsSelf(bits);
    HoldsAtConcat(bits, 0, t + i + r + c, z);
    HoldsAtConcat(bits, 0, t + i + r, c);
    HoldsAtConcat(bits, 0, t + i, r);
    HoldsAtConcat(bits, 0, t, i);
  }

  /** Parsing a written configuration applies the parser's checks to the
      written fields. */
  lemma AscRoundTrip(f: AscFields)
    requires InRange(f)
    ensures ParseAsc(EncodeAsc(f)) == Validate(f)
    ensures Validate(f).Ok? ==> ParseAsc(EncodeAsc(f)).value.sampleRateIndex == f.sampleRateIndex
  {
    AscLayoutRoundTrip(f);
  }

  // ---------------------------------------------------------------------
  // The `readBits` closure

  /** The state of the closure inside `parseAudioSpecificConfig`: `offset`
      counts the bytes taken into `bits`, of which the last `bitCount` are
      not yet returned. */
  class AscReader {
    const buffer: seq<byte>
    ghost const stream: seq<bool>
    var offset: nat
    var bits: nat
    var bitCount: nat

    /** `bits` holds the last `bitCount` bits of the bytes taken. */
    ghost predicate Pending()
      reads this
    {
      stream == BitString(buffer) && bitCount <= 8 * offset
        && bits == Field(stream, 8 * offset - bitCount, bitCount)
    }

    /** Between calls fewer than eight bits are pending. */
    ghost predicate Valid()
      reads this
    {
      Pending() && bitCount < 8
    }

    /** The number of bits returned so far. */
    ghost function Pos(): nat
      reads this
      requires Pending()
    {
      8 * offset - bitCount
    }

    constructor(data: seq<byte>)
      ensures Valid() && buffer == data && stream == BitString(data) && Pos() == 0
    {
      buffer, stream := data, BitString(data);
      offset, bits, bitCount := 0, 0, 0;
    }

    /** `readBits(numBits)`: the next `numBits` bits, most significant first.
        `bits` stays below 2^31 (see `LoadStep`), so the int32 `<<` of the
        source is the multiplication here, `>>` the division and the
        `(1 << n) - 1` mask the remainder. */
    method ReadBits(numBits: nat) returns (result: nat)
      requires Valid() && 1 <= numBits <= 24
      modifies this
      ensures Valid() && Pos() == old(Pos()) + numBits
      ensures result == Field(stream, old(Pos()), numBits)
    {
      ghost var start := Pos();
      while bitCount < numBits
        invariant Pending() && Pos() == start && bitCount < numBits + 8
        decreases numBits - bitCount
      {
        Load();
      }
      result := Take(numBits);
    }

    /** `bits = (bits << 8) | buffer[offset++]; bitCount += 8`. */
    method Load()
      requires Pending() && bitCount < 24
      modifies this
      ensures Pending() && Pos() == old(Pos()) && bitCount == old(bitCount) + 8
    {
      LoadStep(buffer, stream, 8 * offset - bitCount, bitCount, offset);
      bits := bits * 256 + ByteAt(buffer, offset);
      offset := offset + 1;
      bitCount := bitCount + 8;
    }

    /** The last step of `readBits`: the first `numBits` of the pending
        bits are returned and the rest are kept. */
    method Take(numBits: nat) returns (result: nat)
      requires Pending() && numBits <= bitCount < numBits + 8
      modifies this
      ensures Valid() && Pos() == old(Pos()) + numBits
      ensures result == Field(stream, old(Pos()), numBits)
    {
      ghost var start := Pos();
      bitCount := bitCount - numBits;
      TakeStep(stream, start, numBits, bitCount, bits);
      result := bits / Pow2(bitCount) % Pow2(numBits);
      bits := bits % Pow2(bitCount);
    }
  }

  /** `(bits << 8) | buffer[offset]` appends the next byte to the pending
      bits, and stays below 2^31 while fewer than 24 bits are pending. */
  lemma LoadStep(buffer: seq<byte>, stream: seq<bool>, start: nat, count: nat, offset: nat)
    requires stream == BitString(buffer) && start + count == 8 * offset && count < 24
    ensures Field(stream, start, count) * 256 + ByteAt(buffer, offset) == Field(stream, start, count + 8)
    ensures Field(stream, start, count + 8) < TWO_31
  {
    FieldByte(buffer, offset);
    Pow2Byte();
    NextOctet(stream, start, count, ByteAt(buffer, offset));
  }

  lemma NextOctet(stream: seq<bool>, start: nat, count: nat, v: nat)
    requires count < 24 && Field(stream, start + count, 8) == v
    ensures Field(stream, start, count) * 256 + v == Field(stream, start, count + 8)
    ensures Field(stream, start, count + 8) < TWO_31
  {
    FieldSplit(stream, start, count, 8);
    Pow2Byte();
    FieldBound(stream, start, count + 8);
    Pow2Le31(count + 8);
  }

  /** `(bits >> rest) & ((1 << n) - 1)` is the first `n` of `n + rest`
      pending bits and `bits & ((1 << rest) - 1)` the rest. */
  lemma TakeStep(stream: seq<bool>, start: nat, n: nat, rest: nat, bits: nat)
    requires bits == Field(stream, start, n + rest)
    ensures bits / Pow2(rest) % Pow2(n) == Field(stream, start, n)
    ensures bits % Pow2(rest) == Field(stream, start + n, rest)
  {
    FieldTake(stream, start, n, n + rest);
    FieldBound(stream, start, n);
    ModBelow(Field(stream, start, n), Pow2(n));
  }

  lemma ModBelow(v: nat, m: nat)
    requires 0 < m && v < m
    ensures v % m == v
  {
    DivModUnique(v, m, 0, v);
  }

  /** `parseAudioSpecificConfig` as the source runs it, through the closure. */
  method ParseAscM(buffer: seq<byte>) returns (r: Result<AudioConfig>)
    ensures r == ParseAsc(buffer)
  {
    var fields := ReadAscM(buffer);
    r := Validate(fields);
  }

  /** The four `readBits` calls of the parser. */
  method ReadAscM(buffer: seq<byte>) returns (f: AscFields)
    ensures f == AscLayout(buffer)
  {
    var reader := new AscReader(buffer);
    var objectType, sampleRateIndex := ReadHeadM(reader);
    var explicitRate, channelConfig := ReadTailM(reader, sampleRateIndex);
    f := AscFields(objectType, sampleRateIndex, explicitRate, channelConfig);
    LayoutOfFields(buffer, reader.stream, f);
  }

  /** The object type and the sample-rate index, bits 0 to 8. */
  method ReadHeadM(reader: AscReader) returns (objectType: nat, sampleRateIndex: nat)
    requires reader.Valid() && reader.Pos() == 0
    modifies reader
    ensures reader.Valid() && reader.Pos() == 9
    ensures objectType == Field(reader.stream, 0, 5) && sampleRateIndex == Field(reader.stream, 5, 4)
  {
    objectType := reader.ReadBits(5);
    sampleRateIndex := reader.ReadBits(4);
  }

  /** The explicit rate when the index is 15, then the channel configuration. */
  method ReadTailM(reader: AscReader, index: nat) returns (explicitRate: nat, channelConfig: nat)
    requires reader.Valid() && reader.Pos() == 9
    modifies reader
    ensures explicitRate == if index == 15 then Field(reader.stream, 9, 24) else 0
    ensures channelConfig == Field(reader.stream, if index == 15 then 33 else 9, 4)
  {
    explicitRate := 0;
    if index == 15 {
      explicitRate := reader.ReadBits(24);
    }
    channelConfig := reader.ReadBits(4);
  }

  /** The layout is the record of the fields the parser reads. */
  lemma LayoutOfFields(buffer: seq<byte>, s: seq<bool>, f: AscFields)
    requires s == BitString(buffer)
    requires Field(s, 0, 5) == f.objectType && Field(s, 5, 4) == f.sampleRateIndex
    requires f.explicitRate == if f.sampleRateIndex == 15 then Field(s, 9, 24) else 0
    requires f.channelConfig == Field(s, if f.sampleRateIndex == 15 then 33 else 9, 4)
    ensures AscLayout(buffer) == f
  {
  }

  // ---------------------------------------------------------------------
  // ADTS headers

  /** `createAdtsHeader(aacFrameLength, metadata)`. Every written field is
      disjoint from the others once the index is below 16, so each `|` is
      an addition; a `Buffer` element keeps the low 8 bits. The frame length
      is used only below bit 13, where the int32 `>>` and `&` agree with
      division and remainder for any length. */
  function AdtsHeader(aacFrameLength: nat, metadata: AudioConfig): (h: seq<byte>)
    requires metadata.sampleRateIndex < 16
    ensures |h| == 7
  {
    var frameLength := 7 + aacFrameLength;
    var profile, index, channels := metadata.profile, metadata.sampleRateIndex, metadata.channelConfig;
    [0xFF, 0xF9,
     ((profile * 64 + index * 4 + channels / 4 % 2) % 256) as byte,
     (channels % 4 * 64 + frameLength / 2048 % 4) as byte,
     (frameLength / 8 % 256) as byte,
     (frameLength % 8 * 32 + 0x1F) as byte,
     0xFC]
  }

  /** The fields of a 7-byte ADTS header without CRC, in stream order. */
  datatype Adts = Adts(
    syncword: nat, id: nat, layer: nat, protectionAbsent: nat,
    profile: nat, samplingFrequencyIndex: nat, privateBit: nat, channelConfiguration: nat,
    originalCopy: nat, home: nat, copyrightIdBit: nat, copyrightIdStart: nat,
    frameLength: nat, bufferFullness: nat, rawDataBlocks: nat)

  /** Reading the header fields by their widths: 12, 1, 2, 1, 2, 4, 1, 3,
      1, 1, 1, 1, 13, 11 and 2 bits. */
  function DecodeAdts(h: seq<byte>): Adts
  {
    var b := BitString(h);
    Adts(Field(b, 0, 12), Field(b, 12, 1), Field(b, 13, 2), Field(b, 15, 1),
      Field(b, 16, 2), Field(b, 18, 4), Field(b, 22, 1), Field(b, 23, 3),
      Field(b, 26, 1), Field(b, 27, 1), Field(b, 28, 1), Field(b, 29, 1),
      Field(b, 30, 13), Field(b, 43, 11), Field(b, 54, 2))
  }

  /** The written header decodes to the syncword 0xFFF, ID 1, layer 0, no
      CRC, the profile modulo 4, the index, the channel configuration
      modulo 8, the frame length 7 + aacFrameLength modulo 2^13, the
      fullness 0x7FF (variable rate) and one raw data block. */
  lemma AdtsHeaderDecodes(aacFrameLength: nat, metadata: AudioConfig)
    requires metadata.sampleRateIndex < 16
    ensures DecodeAdts(AdtsHeader(aacFrameLength, metadata)) ==
      Adts(0xFFF, 1, 0, 1,
        metadata.profile % 4, metadata.sampleRateIndex, 0, metadata.channelConfig % 8,
        0, 0, 0, 0,
        (7 + aacFrameLength) % 0x2000, 0x7FF, 0)
  {
    var h := AdtsHeader(aacFrameLength, metadata);
    var frameLength := 7 + aacFrameLength;
    Octets(h);
    AdtsFields(BitString(h), metadata.profile, metadata.sampleRateIndex, metadata.channelConfig, frameLength);
  }

  /** The seven bytes of a header as fields of its bit string. */
  lemma Octets(h: seq<byte>)
    requires |h| == 7
    ensures Field(BitString(h), 0, 8) == h[0] as nat && Field(BitString(h), 8, 8) == h[1] as nat
    ensures Field(BitString(h), 16, 8) == h[2] as nat && Field(BitString(h), 24, 8) == h[3] as nat
    ensures Field(BitString(h), 32, 8) == h[4] as nat && Field(BitString(h), 40, 8) == h[5] as nat
    ensures Field(BitString(h), 48, 8) == h[6] as nat
  {
    FieldByte(h, 0);
    FieldByte(h, 1);
    FieldByte(h, 2);
    FieldByte(h, 3);
    FieldByte(h, 4);
    FieldByte(h, 5);
    FieldByte(h, 6);
  }

  /** The header fields, from the seven byte values `createAdtsHeader` writes. */
  lemma AdtsFields(b: seq<bool>, profile: nat, index: nat, channels: nat, frameLength: nat)
    requires index < 16
    requires Field(b, 0, 8) == 0xFF && Field(b, 8, 8) == 0xF9
    requires Field(b, 16, 8) == (profile * 64 + index * 4 + channels / 4 % 2) % 256
    requires Field(b, 24, 8) == channels % 4 * 64 + frameLength / 2048 % 4
    requires Field(b, 32, 8) == frameLength / 8 % 256
    requires Field(b, 40, 8) == frameLength % 8 * 32 + 0x1F && Field(b, 48, 8) == 0xFC
    ensures Field(b, 0, 12) == 0xFFF && Field(b, 12, 1) == 1 && Field(b, 13, 2) == 0
    ensures Field(b, 15, 1) == 1 && Field(b, 16, 2) == profile % 4 && Field(b, 18, 4) == index
    ensures Field(b, 22, 1) == 0 && Field(b, 23, 3) == channels % 8
    ensures Field(b, 26, 1) == 0 && Field(b, 27, 1) == 0 && Field(b, 28, 1) == 0 && Field(b, 29, 1) == 0
    ensures Field(b, 30, 13) == frameLength % 0x2000 && Field(b, 43, 11) == 0x7FF && Field(b, 54, 2) == 0
  {
    SyncBytes(b);
    ProfileByte(b, profile, index, channels / 4 % 2);
    LengthByte(b, channels % 4, frameLength / 2048 % 4);
    TailBytes(b, frameLength % 8);
    ChannelBits(b, channels);
    LengthBits(b, frameLength);
  }

  /** Bytes 0 and 1: the syncword, ID 1, layer 0 and protection_absent 1. */
  lemma SyncBytes(b: seq<bool>)
    requires Field(b, 0, 8) == 0xFF && Field(b, 8, 8) == 0xF9
    ensures Field(b, 0, 12) == 0xFFF && Field(b, 12, 1) == 1 && Field(b, 13, 2) == 0
    ensures Field(b, 15, 1) == 1
  {
    Syncword(b);
    IdBits(b);
  }

  lemma Syncword(b: seq<bool>)
    requires Field(b, 0, 8) == 0xFF && Field(b, 8, 8) == 0xF9
    ensures Field(b, 0, 12) == 0xFFF
  {
    Pow2Values();
    FieldInByte(b, 8, 0, 4, 0xF9, 256, 16);
    FieldJoin(b, 0, 8, 4, 16);
  }

  lemma IdBits(b: seq<bool>)
    requires Field(b, 8, 8) == 0xF9
    ensures Field(b, 12, 1) == 1 && Field(b, 13, 2) == 0 && Field(b, 15, 1) == 1
  {
    Pow2Values();
    FieldInByte(b, 8, 4, 1, 0xF9, 16, 8);
    FieldInByte(b, 8, 5, 2, 0xF9, 8, 2);
    FieldInByte(b, 8, 7, 1, 0xF9, 2, 1);
  }

  /** Byte 2: profile (2 bits), index (4), private bit, channel bit 2. */
  lemma ProfileByte(b: seq<bool>, profile: nat, index: nat, c: nat)
    requires index < 16 && c < 2
    requires Field(b, 16, 8) == (profile * 64 + index * 4 + c) % 256
    ensures Field(b, 16, 2) == profile % 4 && Field(b, 18, 4) == index
    ensures Field(b, 22, 1) == 0 && Field(b, 23, 1) == c
  {
    var v := profile % 4 * 64 + index * 4 + c;
    ProfileOctet(profile, index, c);
    ProfileFields(b, profile % 4, index, c, v);
  }

  /** Only the low two bits of the profile survive the byte. */
  lemma ProfileOctet(profile: nat, index: nat, c: nat)
    requires index < 16 && c < 2
    ensures (profile * 64 + index * 4 + c) % 256 == profile % 4 * 64 + index * 4 + c
  {
    DivModUnique(profile * 64 + index * 4 + c, 256, profile / 4, profile % 4 * 64 + index * 4 + c);
  }

  lemma ProfileFields(b: seq<bool>, p: nat, index: nat, c: nat, v: nat)
    requires p < 4 && index < 16 && c < 2 && v == p * 64 + index * 4 + c
    requires Field(b, 16, 8) == v
    ensures Field(b, 16, 2) == p && Field(b, 18, 4) == index
    ensures Field(b, 22, 1) == 0 && Field(b, 23, 1) == c
  {
    Pow2Values();
    FieldInByte(b, 16, 0, 2, v, 256, 64);
    DivModUnique(v, 256, 0, v);
    DivModUnique(v, 64, p, index * 4 + c);
    FieldInByte(b, 16, 2, 4, v, 64, 4);
    DivModUnique(index * 4 + c, 4, index, c);
    FieldInByte(b, 16, 6, 1, v, 4, 2);
    DivModUnique(v, 4, p * 16 + index, c);
    FieldInByte(b, 16, 7, 1, v, 2, 1);
    DivModUnique(v, 2, p * 32 + index * 2, c);
  }

  /** Byte 3: channel bits 1-0, four zero flags, frame length bits 12-11. */
  lemma LengthByte(b: seq<bool>, low: nat, high: nat)
    requires low < 4 && high < 4
    requires Field(b, 24, 8) == low * 64 + high
    ensures Field(b, 24, 2) == low && Field(b, 26, 1) == 0 && Field(b, 27, 1) == 0
    ensures Field(b, 28, 1) == 0 && Field(b, 29, 1) == 0 && Field(b, 30, 2) == high
  {
    LengthByteEnds(b, low, high);
    LengthByteFlags(b, low, high);
  }

  lemma LengthByteEnds(b: seq<bool>, low: nat, high: nat)
    requires low < 4 && high < 4
    requires Field(b, 24, 8) == low * 64 + high
    ensures Field(b, 24, 2) == low && Field(b, 30, 2) == high
  {
    var v := low * 64 + high;
    Pow2Values();
    DivModUnique(v, 256, 0, v);
    DivModUnique(v, 64, low, high);
    DivModUnique(v, 4, low * 16, high);
    FieldInByte(b, 24, 0, 2, v, 256, 64);
    FieldInByte(b, 24, 6, 2, v, 4, 1);
  }

  lemma LengthByteFlags(b: seq<bool>, low: nat, high: nat)
    requires low < 4 && high < 4
    requires Field(b, 24, 8) == low * 64 + high
    ensures Field(b, 26, 1) == 0 && Field(b, 27, 1) == 0
    ensures Field(b, 28, 1) == 0 && Field(b, 29, 1) == 0
  {
    var v := low * 64 + high;
    Pow2Values();
    DivModUnique(v, 64, low, high);
    DivModUnique(v, 32, low * 2, high);
    DivModUnique(v, 16, low * 4, high);
    DivModUnique(v, 8, low * 8, high);
    FieldInByte(b, 24, 2, 1, v, 64, 32);
    FieldInByte(b, 24, 3, 1, v, 32, 16);
    FieldInByte(b, 24, 4, 1, v, 16, 8);
    FieldInByte(b, 24, 5, 1, v, 8, 4);
  }

  /** Bytes 5 and 6: frame length bits 2-0, then 0x7FF, then 0. */
  lemma TailBytes(b: seq<bool>, low: nat)
    requires low < 8
    requires Field(b, 40, 8) == low * 32 + 0x1F && Field(b, 48, 8) == 0xFC
    ensures Field(b, 40, 3) == low && Field(b, 43, 11) == 0x7FF && Field(b, 54, 2) == 0
  {
    var v := low * 32 + 0x1F;
    Pow2Values();
    DivModUnique(v, 256, 0, v);
    DivModUnique(v, 32, low, 0x1F);
    FieldInByte(b, 40, 0, 3, v, 256, 32);
    Fullness(b, v);
  }

  lemma Fullness(b: seq<bool>, v: nat)
    requires v % 32 == 0x1F && Field(b, 40, 8) == v && Field(b, 48, 8) == 0xFC
    ensures Field(b, 43, 11) == 0x7FF && Field(b, 54, 2) == 0
  {
    Pow2Values();
    FieldInByte(b, 40, 3, 5, v, 32, 1);
    FieldInByte(b, 48, 0, 6, 0xFC, 256, 4);
    FieldInByte(b, 48, 6, 2, 0xFC, 4, 1);
    FieldJoin(b, 43, 5, 6, 64);
  }

  /** The channel configuration spans bytes 2 and 3. */
  lemma ChannelBits(b: seq<bool>, channels: nat)
    requires Field(b, 23, 1) == channels / 4 % 2 && Field(b, 24, 2) == channels % 4
    ensures Field(b, 23, 3) == channels % 8
  {
    Pow2Values();
    FieldJoin(b, 23, 1, 2, 4);
    ChannelArith(channels);
  }

  lemma ChannelArith(channels: nat)
    ensures channels / 4 % 2 * 4 + channels % 4 == channels % 8
  {
    var q := channels / 8;
    var r := channels % 8;
    DivModUnique(channels, 4, q * 2 + r / 4, r % 4);
    DivModUnique(q * 2 + r / 4, 2, q, r / 4);
  }

  /** The frame length spans bytes 3 to 5. */
  lemma LengthBits(b: seq<bool>, frameLength: nat)
    requires Field(b, 30, 2) == frameLength / 2048 % 4
    requires Field(b, 32, 8) == frameLength / 8 % 256 && Field(b, 40, 3) == frameLength % 8
    ensures Field(b, 30, 13) == frameLength % 0x2000
  {
    Pow2Values();
    FieldJoin(b, 32, 8, 3, 8);
    FieldJoin(b, 30, 2, 11, 2048);
    LengthArith(frameLength);
  }

  /** Bits 12-11, 10-3 and 2-0 of a number make up its low 13 bits. */
  lemma LengthArith(n: nat)
    ensures n / 2048 % 4 * 2048 + n / 8 % 256 * 8 + n % 8 == n % 0x2000
  {
    var q, r := n / 0x2000, n % 0x2000;
    var hi, m := r / 2048, r % 2048;
    var mid, lo := m / 8, m % 8;
    DivModUnique(n, 2048, q * 4 + hi, mid * 8 + lo);
    DivModUnique(q * 4 + hi, 4, q, hi);
    DivModUnique(n, 8, q * 1024 + hi * 256 + mid, lo);
    DivModUnique(q * 1024 + hi * 256 + mid, 256, q * 4 + hi, mid);
  }

  /** What a player reads from the header written for a parsed
      configuration: the rate index and the channels come through; of the
      profiles, only AAC LC's 1 fits the 2-bit field, and SBR's 4 and PS's 28
      are written as 0 (AAC Main). */
  lemma AdtsOfParsedConfig(buffer: seq<byte>, aacFrameLength: nat)
    requires ParseAsc(buffer).Ok?
    ensures ParseAsc(buffer).value.sampleRateIndex < 16
    ensures
      var f, h := AscLayout(buffer), DecodeAdts(AdtsHeader(aacFrameLength, ParseAsc(buffer).value));
      h.samplingFrequencyIndex == f.sampleRateIndex && h.channelConfiguration == f.channelConfig
      && h.profile == (if f.objectType == 2 then 1 else 0)
      && h.frameLength == (7 + aacFrameLength) % 0x2000
  {
    ValidateOutcome(AscLayout(buffer));
    AdtsOfConfig(aacFrameLength, ParseAsc(buffer).value);
  }

  lemma AdtsOfConfig(aacFrameLength: nat, c: AudioConfig)
    requires c.sampleRateIndex < 16 && 1 <= c.channelConfig <= 7
    requires c.profile == 1 || c.profile == 4 || c.profile == 28
    ensures
      var h := DecodeAdts(AdtsHeader(aacFrameLength, c));
      h.samplingFrequencyIndex == c.sampleRateIndex && h.channelConfiguration == c.channelConfig
      && h.profile == (if c.profile == 1 then 1 else 0)
      && h.frameLength == (7 + aacFrameLength) % 0x2000
  {
    AdtsHeaderDecodes(aacFrameLength, c);
    ModBelow(c.channelConfig, 8);
    assert c.profile % 4 == (if c.profile == 1 then 1 else 0);
  }
}
