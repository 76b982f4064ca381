/** The binary control messages the browser clients send to the device
    (src-client/services/inputService.js and src/main.js): a message is a
    sequence of big-endian integer fields written into a fixed-size
    `ArrayBuffer` through a DataView. */
module ControlMessages {
  import opened Wrappers
  import opened Bytes

  /** The shape of one DataView write: how many bytes, and whether the
      value is read back signed (`setInt*`) or unsigned (`setUint*`). */
  datatype FieldKind = FieldKind(size: nat, signed: bool)

  const UINT8 := FieldKind(1, false)
  const UINT16 := FieldKind(2, false)
  const UINT32 := FieldKind(4, false)
  const INT16 := FieldKind(2, true)
  const INT32 := FieldKind(4, true)
  const INT64 := FieldKind(8, true)

  /** The bytes a `set*` call stores: the value modulo 256^size, most
      significant byte first (DataView's ToIntN/ToUintN conversions). */
  function FieldBytes(v: int, k: FieldKind): seq<byte>
  {
    BE(TwosComplement(v, k.size), k.size)
  }

  /** The whole message: each field's bytes, in order. */
  function Pack(values: seq<int>, layout: seq<FieldKind>): seq<byte>
    requires |values| == |layout|
  {
    if layout == [] then [] else FieldBytes(values[0], layout[0]) + Pack(values[1..], layout[1..])
  }

  /** The buffer length a layout needs. */
  function PackedSize(layout: seq<FieldKind>): nat
  {
    if layout == [] then 0 else layout[0].size + PackedSize(layout[1..])
  }

  /** The value a reader (`getInt*`/`getUint*`) finds in a field's bytes. */
  function ReadField(s: seq<byte>, k: FieldKind): int
  {
    if k.signed then Signed(BEValue(s), |s|) else BEValue(s)
  }

  /** Reading a message back field by field: `None` when its length does
      not match the layout. */
  function Unpack(s: seq<byte>, layout: seq<FieldKind>): (r: Option<seq<int>>)
    ensures r.Some? ==> |r.value| == |layout|
  {
    if layout == [] then (if s == [] then Some([]) else None)
    else if |s| < layout[0].size then None
    else
      match Unpack(s[layout[0].size..], layout[1..])
      case None => None
      case Some(rest) => Some([ReadField(s[..layout[0].size], layout[0])] + rest)
  }

  /** The value fits its field: a signed field holds -2^(8n-1) ..
      2^(8n-1)-1, an unsigned one 0 .. 2^(8n)-1. */
  predicate Fits(v: int, k: FieldKind)
  {
    if k.signed then k.size > 0 && -(Pow256(k.size) / 2) <= v < Pow256(k.size) / 2
    else 0 <= v < Pow256(k.size)
  }

  predicate AllFit(values: seq<int>, layout: seq<FieldKind>)
    requires |values| == |layout|
  {
    forall i :: 0 <= i < |layout| ==> Fits(values[i], layout[i])
  }

  /** One field written and read back gives its value. */
  lemma FieldRoundTrip(v: int, k: FieldKind)
    requires Fits(v, k)
    ensures |FieldBytes(v, k)| == k.size && ReadField(FieldBytes(v, k), k) == v
  {
    var u := TwosComplement(v, k.size);
    assert u < Pow256(k.size);
    BEExact(u, k.size);
    if k.signed {
      SignedRoundTrip(v, k.size);
    } else {
      assert u == v by { DivModUnique(v, Pow256(k.size), 0, v); }
    }
  }

  /** The message is exactly as long as the layout says. */
  lemma {:induction false} PackLength(values: seq<int>, layout: seq<FieldKind>)
    requires |values| == |layout|
    ensures |Pack(values, layout)| == PackedSize(layout)
  {
    if layout != [] {
      BELength(TwosComplement(values[0], layout[0].size), layout[0].size);
      PackLength(values[1..], layout[1..]);
    }
  }

  /** Round trip: a message whose values fit their fields reads back as
      those values. */
  lemma {:induction false} UnpackPack(values: seq<int>, layout: seq<FieldKind>)
    requires |values| == |layout| && AllFit(values, layout)
    ensures Unpack(Pack(values, layout), layout) == Some(values)
  {
    if layout != [] {
      var head := FieldBytes(values[0], layout[0]);
      var tail := Pack(values[1..], layout[1..]);
      FieldRoundTrip(values[0], layout[0]);
      assert AllFit(values[1..], layout[1..]) by {
        forall i | 0 <= i < |layout[1..]|
          ensures Fits(values[1..][i], layout[1..][i])
        {
          assert Fits(values[i + 1], layout[i + 1]);
        }
      }
      UnpackPack(values[1..], layout[1..]);
      var s := head + tail;
      assert s[layout[0].size..] == tail;
      assert s[..layout[0].size] == head;
      assert values == [values[0]] + values[1..];
    }
  }

  /** Appending a field to the layout appends its bytes to the message. */
  lemma {:induction false} PackSnoc(values: seq<int>, layout: seq<FieldKind>, v: int, k: FieldKind)
    requires |values| == |layout|
    ensures Pack(values + [v], layout + [k]) == Pack(values, layout) + FieldBytes(v, k)
  {
    if layout == [] {
      assert values + [v] == [v] && layout + [k] == [k];
    } else {
      assert (values + [v])[1..] == values[1..] + [v];
      assert (layout + [k])[1..] == layout[1..] + [k];
      PackSnoc(values[1..], layout[1..], v, k);
    }
  }

  /** A prefix of the layout needs no more room than the whole. */
  lemma {:induction false} PackedSizeSnoc(layout: seq<FieldKind>, k: FieldKind)
    ensures PackedSize(layout + [k]) == PackedSize(layout) + k.size
  {
    if layout != [] {
      assert (layout + [k])[1..] == layout[1..] + [k];
      PackedSizeSnoc(layout[1..], k);
    }
  }

  lemma PackedSizePrefix(layout: seq<FieldKind>, i: nat)
    requires i < |layout|
    ensures PackedSize(layout[..i]) + layout[i].size <= PackedSize(layout)
  {
    assert layout[..i + 1] == layout[..i] + [layout[i]];
    PackedSizeSnoc(layout[..i], layout[i]);
    PackedSizeMonotone(layout, i + 1);
  }

  lemma {:induction false} PackedSizeMonotone(layout: seq<FieldKind>, i: nat)
    requires i <= |layout|
    ensures PackedSize(layout[..i]) <= PackedSize(layout)
    decreases |layout| - i
  {
    if i < |layout| {
      PackedSizeMonotone(layout, i + 1);
      assert layout[..i + 1] == layout[..i] + [layout[i]];
      PackedSizeSnoc(layout[..i], layout[i]);
    } else {
      assert layout[..i] == layout;
    }
  }

  /** Allocates the buffer and writes the fields one after the other at a
      running offset, one byte at a time, as the DataView calls do. */
  method Serialize(values: seq<int>, layout: seq<FieldKind>) returns (buf: array<byte>)
    requires |values| == |layout|
    ensures fresh(buf)
    ensures buf[..] == Pack(values, layout)
  {
    buf := new byte[PackedSize(layout)];
    var offset := 0;
    var i := 0;
    while i < |layout|
      invariant 0 <= i <= |layout|
      invariant offset == PackedSize(layout[..i]) <= buf.Length
      invariant buf[..offset] == Pack(values[..i], layout[..i])
    {
      var field := FieldBytes(values[i], layout[i]);
      BELength(TwosComplement(values[i], layout[i].size), layout[i].size);
      PackedSizePrefix(layout, i);
      WriteField(buf, offset, field);
      assert values[..i + 1] == values[..i] + [values[i]];
      assert layout[..i + 1] == layout[..i] + [layout[i]];
      PackSnoc(values[..i], layout[..i], values[i], layout[i]);
      PackedSizeSnoc(layout[..i], layout[i]);
      offset := offset + |field|;
      i := i + 1;
    }
    assert values[..i] == values && layout[..i] == layout;
    PackLength(values, layout);
    assert buf[..] == buf[..offset];
  }

  /** Copies `field` into `buf` at `offset`; the bytes before are kept. */
  method WriteField(buf: array<byte>, offset: nat, field: seq<byte>)
    requires offset + |field| <= buf.Length
    modifies buf
    ensures buf[..offset + |field|] == old(buf[..offset]) + field
  {
    var j := 0;
    while j < |field|
      invariant 0 <= j <= |field|
      invariant buf[..offset + j] == old(buf[..offset]) + field[..j]
    {
      buf[offset + j] := field[j];
      assert buf[..offset + j + 1] == buf[..offset + j] + [field[j]];
      assert field[..j + 1] == field[..j] + [field[j]];
      j := j + 1;
    }
    assert field[..j] == field;
  }

  // ---------------------------------------------------------------------
  // The three messages
  // ---------------------------------------------------------------------

  const TYPE_INJECT_TOUCH_EVENT := 2
  const TYPE_SCROLL := 3
  const TYPE_BACK_OR_SCREEN_ON := 4

  const ACTION_DOWN := 0
  const ACTION_UP := 1
  const ACTION_MOVE := 2

  const BUTTON_PRIMARY := 1
  const BUTTON_SECONDARY := 2
  const BUTTON_TERTIARY := 4

  const POINTER_ID_MOUSE := -1

  /** Touch injection: type, action, pointer id (i64), x and y (i32),
      screen width and height (u16), pressure 0xFFFF (u16 at byte 22), the
      action button written as a u32 0 at byte 24, and the button mask
      (u32 at byte 28). */
  const TOUCH_LAYOUT := [UINT8, UINT8, INT64, INT32, INT32, UINT16, UINT16, UINT16, UINT32, UINT32]

  function TouchValues(action: int, buttons: int, x: int, y: int, width: int, height: int): seq<int>
  {
    [TYPE_INJECT_TOUCH_EVENT, action, POINTER_ID_MOUSE, x, y, width, height, 0xFFFF, 0, buttons]
  }

  /** Scroll: type, x and y (i32), width and height (u16), the horizontal
      and vertical amounts (i16) and the button mask (i32). */
  const SCROLL_LAYOUT := [UINT8, INT32, INT32, UINT16, UINT16, INT16, INT16, INT32]

  function ScrollValues(x: int, y: int, width: int, height: int, h: int, v: int, buttons: int): seq<int>
  {
    [TYPE_SCROLL, x, y, width, height, h, v, buttons]
  }

  /** Back key: type and the key action (0 down, 1 up). */
  const BACK_LAYOUT := [UINT8, UINT8]

  function TouchMessage(action: int, buttons: int, x: int, y: int, width: int, height: int): seq<byte>
  {
    Pack(TouchValues(action, buttons, x, y, width, height), TOUCH_LAYOUT)
  }

  function ScrollMessage(x: int, y: int, width: int, height: int, h: int, v: int, buttons: int): seq<byte>
  {
    Pack(ScrollValues(x, y, width, height, h, v, buttons), SCROLL_LAYOUT)
  }

  function BackMessage(keyAction: int): seq<byte>
  {
    Pack([TYPE_BACK_OR_SCREEN_ON, keyAction], BACK_LAYOUT)
  }

  /** The room fields `i` onwards take (for counting concrete layouts). */
  function SizeFrom(l: seq<FieldKind>, i: nat): nat
    decreases |l| - i
  {
    if i >= |l| then 0 else l[i].size + SizeFrom(l, i + 1)
  }

  lemma {:induction false} SizeFromEnd(l: seq<FieldKind>, i: nat)
    requires i <= |l|
    ensures PackedSize(l[i..]) == SizeFrom(l, i)
    decreases |l| - i
  {
    if i < |l| {
      SizeFromEnd(l, i + 1);
      assert l[i..][1..] == l[i + 1..];
    } else {
      assert l[i..] == [];
    }
  }

  lemma TouchSize()
    ensures PackedSize(TOUCH_LAYOUT) == 32
  {
    var l := TOUCH_LAYOUT;
    SizeFromEnd(l, 0);
    assert SizeFrom(l, 10) == 0;
    assert SizeFrom(l, 9) == 4;
    assert SizeFrom(l, 8) == 8;
    assert SizeFrom(l, 7) == 10;
    assert SizeFrom(l, 6) == 12;
    assert SizeFrom(l, 5) == 14;
    assert SizeFrom(l, 4) == 18;
    assert SizeFrom(l, 3) == 22;
    assert SizeFrom(l, 2) == 30;
    assert SizeFrom(l, 1) == 31;
    assert l[0..] == l;
  }

  lemma ScrollSize()
    ensures PackedSize(SCROLL_LAYOUT) == 21
  {
    var l := SCROLL_LAYOUT;
    SizeFromEnd(l, 0);
    assert SizeFrom(l, 8) == 0;
    assert SizeFrom(l, 7) == 4;
    assert SizeFrom(l, 6) == 6;
    assert SizeFrom(l, 5) == 8;
    assert SizeFrom(l, 4) == 10;
    assert SizeFrom(l, 3) == 12;
    assert SizeFrom(l, 2) == 16;
    assert SizeFrom(l, 1) == 20;
    assert l[0..] == l;
  }

  lemma Pow256Small()
    ensures Pow256(1) == 256 && Pow256(2) == TWO_16 && Pow256(4) == TWO_32
    ensures Pow256(8) == TWO_32 * TWO_32
  {
    Pow256Values();
  }

  /** A touch message is 32 bytes; with an action byte, 32-bit coordinates,
      16-bit sizes and a 32-bit mask it reads back field for field, the
      pointer id as -1 and the pressure as 0xFFFF. */
  lemma TouchMessageRoundTrip(action: int, buttons: int, x: int, y: int, width: int, height: int)
    requires 0 <= action < 256 && 0 <= buttons < TWO_32
    requires -TWO_32 / 2 <= x < TWO_32 / 2 && -TWO_32 / 2 <= y < TWO_32 / 2
    requires 0 <= width < TWO_16 && 0 <= height < TWO_16
    ensures |TouchMessage(action, buttons, x, y, width, height)| == 32
    ensures Unpack(TouchMessage(action, buttons, x, y, width, height), TOUCH_LAYOUT)
      == Some([TYPE_INJECT_TOUCH_EVENT, action, POINTER_ID_MOUSE, x, y, width, height, 0xFFFF, 0, buttons])
  {
    Pow256Small();
    var values := TouchValues(action, buttons, x, y, width, height);
    assert AllFit(values, TOUCH_LAYOUT);
    PackLength(values, TOUCH_LAYOUT);
    UnpackPack(values, TOUCH_LAYOUT);
    TouchSize();
  }

  /** A scroll message is 21 bytes and reads back field for field. */
  lemma ScrollMessageRoundTrip(x: int, y: int, width: int, height: int, h: int, v: int, buttons: int)
    requires -TWO_32 / 2 <= x < TWO_32 / 2 && -TWO_32 / 2 <= y < TWO_32 / 2
    requires 0 <= width < TWO_16 && 0 <= height < TWO_16
    requires -TWO_16 / 2 <= h < TWO_16 / 2 && -TWO_16 / 2 <= v < TWO_16 / 2
    requires -TWO_32 / 2 <= buttons < TWO_32 / 2
    ensures |ScrollMessage(x, y, width, height, h, v, buttons)| == 21
    ensures Unpack(ScrollMessage(x, y, width, height, h, v, buttons), SCROLL_LAYOUT)
      == Some([TYPE_SCROLL, x, y, width, height, h, v, buttons])
  {
    Pow256Small();
    var values := ScrollValues(x, y, width, height, h, v, buttons);
    assert AllFit(values, SCROLL_LAYOUT);
    PackLength(values, SCROLL_LAYOUT);
    UnpackPack(values, SCROLL_LAYOUT);
    ScrollSize();
  }

  /** The back key messages are the two bytes `[4, 0]` and `[4, 1]`. */
  lemma BackMessageBytes()
    ensures BackMessage(0) == [4, 0] && BackMessage(1) == [4, 1]
  {
    ByteField(4);
    ByteField(0);
    ByteField(1);
    PackPair(4, 0, UINT8, UINT8);
    PackPair(4, 1, UINT8, UINT8);
  }

  lemma PackPair(a: int, b: int, ka: FieldKind, kb: FieldKind)
    ensures Pack([a, b], [ka, kb]) == FieldBytes(a, ka) + FieldBytes(b, kb)
  {
    assert [a, b][1..] == [b] && [ka, kb][1..] == [kb];
    assert [b][1..] == [] && [kb][1..] == [];
    assert Pack([b], [kb]) == FieldBytes(b, kb) + Pack([], []);
    assert Pack([a, b], [ka, kb]) == FieldBytes(a, ka) + Pack([b], [kb]);
  }

  /** A one-byte unsigned field is the byte itself. */
  lemma ByteField(v: int)
    requires 0 <= v < 256
    ensures FieldBytes(v, UINT8) == [v as byte]
  {
    Pow256Small();
    assert TwosComplement(v, 1) == v;
    assert BE(v, 1) == BE(v / 256, 0) + [(v % 256) as byte];
  }
}
