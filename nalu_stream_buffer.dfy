/** The Annex B splitter of the bundled converter (public/main.js,
    `VideoStreamBuffer`): chunks of an H.264 byte stream come in, the
    units between start codes go out, and the bytes after the last start
    code wait in `buffer` for the next chunk. A start code is the four
    bytes 00 00 00 01 of Annex B of ITU-T H.264, as the scanner sees them:
    a one byte after exactly three zero bytes it has counted (see
    `StartAt` and `OnlyFourByteCodes`). */
module NaluStreamBuffer {
  import opened Wrappers
  import opened Bytes
  import opened NalUnit

  const START_CODE: seq<byte> := [0, 0, 0, 1]

  /** `subarray(begin, end)` with non-negative bounds: both are cut down to
      the length, and a range that ends before it begins is empty. */
  function Sub(b: seq<byte>, begin: nat, end: nat): (r: seq<byte>)
    ensures begin <= end <= |b| ==> r == b[begin..end]
    ensures end <= begin ==> r == []
  {
    var e := if end < |b| then end else |b|;
    var s := if begin < e then begin else e;
    b[s..e]
  }

  // ---------------------------------------------------------------------
  // The scanner (`nextNalHeader`)
  // ---------------------------------------------------------------------

  /** The number of zero bytes just before position `q` that a scan which
      began at `lo` has counted. */
  function ZeroRun(b: seq<byte>, lo: nat, q: nat): nat
    decreases q
  {
    if q <= lo || q > |b| || b[q - 1] != 0 then 0 else 1 + ZeroRun(b, lo, q - 1)
  }

  /** Where a scan that began at `lo` finds a start code: a one byte after
      exactly three zeros it has counted. */
  predicate StartAt(b: seq<byte>, lo: nat, q: nat)
  {
    q < |b| && b[q] == 1 && ZeroRun(b, lo, q) == 3
  }

  /** Where the scanning loop of one call of the scanner stops, from
      position `i` with `count` zeros counted: at the one byte of a start
      code, or at the end. */
  function Stop(b: seq<byte>, i: nat, count: nat): (j: nat)
    ensures i <= j
    ensures j < |b| ==> b[j] == 1 && i + 3 <= j + count
    decreases |b| - i
  {
    if i >= |b| then i
    else if b[i] == 0 then Stop(b, i + 1, count + 1)
    else if b[i] == 1 && count == 3 then i
    else Stop(b, i + 1, 0)
  }

  /** The scan stops at the first start code from `i` on, and at the end
      when there is none. */
  lemma {:induction false} StopFirst(b: seq<byte>, lo: nat, i: nat, count: nat)
    requires lo <= i
    requires i < |b| ==> count == ZeroRun(b, lo, i)
    ensures var j := Stop(b, i, count);
      (j < |b| ==> StartAt(b, lo, j))
      && (j >= |b| ==> j == if i < |b| then |b| else i)
      && (forall q :: i <= q < j ==> !StartAt(b, lo, q))
    decreases |b| - i
  {
    if i < |b| {
      if b[i] == 0 {
        StopFirst(b, lo, i + 1, count + 1);
      } else if b[i] != 1 || count != 3 {
        StopFirst(b, lo, i + 1, 0);
      }
    }
  }

  /** A start code is a one byte after three zeros, all counted. */
  lemma StartAtCode(b: seq<byte>, lo: nat, q: nat)
    requires StartAt(b, lo, q)
    ensures lo + 3 <= q && b[q - 3..q + 1] == START_CODE
  {
    assert ZeroRun(b, lo, q - 1) == 2;
    assert ZeroRun(b, lo, q - 2) == 1;
  }

  /** After a one byte at `from`, a scan from `from` counts the zeros a
      scan from 3 counts. */
  lemma {:induction false} ZeroRunFrom(b: seq<byte>, from: nat, q: nat)
    requires 3 <= from < q
    requires from == 3 || (from < |b| && b[from] == 1)
    ensures ZeroRun(b, from, q) == ZeroRun(b, 3, q)
    decreases q
  {
    if q <= |b| && b[q - 1] == 0 && q - 1 > from {
      ZeroRunFrom(b, from, q - 1);
    }
  }

  /** A scanner over one buffer: `i` is the position the closure keeps
      between calls; it starts at 3. */
  class HeaderScanner {
    const b: seq<byte>
    var i: nat

    constructor(b: seq<byte>)
      ensures this.b == b && i == 3
    {
      this.b := b;
      i := 3;
    }

    /** One call: the index of the next start code, or `None` at the end.
        The position stays on the one byte of the start code found, and the
        count of zeros begins again at 0. */
    method Next() returns (index: Option<nat>)
      modifies this
      ensures i == Stop(b, old(i), 0)
      ensures index == if i < |b| then Some(i - 3) else None
    {
      var count := 0;
      while i < |b|
        invariant old(i) <= i
        invariant Stop(b, i, count) == Stop(b, old(i), 0)
        decreases |b| - i
      {
        if b[i] == 0 {
          count := count + 1;
        } else if b[i] == 1 && count == 3 {
          return Some(i - 3);
        } else {
          count := 0;
        }
        i := i + 1;
      }
      return None;
    }
  }

  /** The indices of the start codes successive calls return, from
      position `from` on. */
  function Headers(b: seq<byte>, from: nat): (hs: seq<nat>)
    ensures forall h :: h in hs ==> from <= h
    decreases |b| - from
  {
    var j := Stop(b, from, 0);
    if j < |b| then [j - 3] + Headers(b, j) else []
  }

  /** One call from `from`, where a scan from 3 began or a start code
      ended: it stops at the first start code after `from`, which is the
      bytes 00 00 00 01, and after a start code it is at least four bytes
      on. */
  lemma StopFrom(b: seq<byte>, from: nat)
    requires 3 <= from
    requires from == 3 || (from < |b| && b[from] == 1)
    ensures var j := Stop(b, from, 0);
      (j < |b| ==> StartAt(b, 3, j) && from + 3 <= j && b[j - 3..j + 1] == START_CODE)
      && (j < |b| && from < |b| && b[from] == 1 ==> from + 4 <= j)
      && (forall q :: from < q < j ==> !StartAt(b, 3, q))
  {
    var j := Stop(b, from, 0);
    StopFirst(b, from, from, 0);
    forall q | from < q < j
      ensures !StartAt(b, 3, q)
    {
      assert !StartAt(b, from, q);
      ZeroRunFrom(b, from, q);
    }
    if j < |b| {
      StartAtCode(b, from, j);
      ZeroRunFrom(b, from, j);
    }
  }

  /** Start codes `hs` after one at `last`, each at least four bytes after
      the one before and each the bytes 00 00 00 01. */
  predicate Spaced(b: seq<byte>, hs: seq<nat>, last: nat)
    decreases |hs|
  {
    hs == []
    || (last + 4 <= hs[0] && hs[0] + 4 <= |b| && b[hs[0]..hs[0] + 4] == START_CODE
        && Spaced(b, hs[1..], hs[0]))
  }

  /** After a start code whose one byte is at `from`, the calls return
      start codes spaced as `Spaced` says. */
  lemma {:induction false} HeadersSpaced(b: seq<byte>, from: nat)
    requires 3 <= from < |b| && b[from] == 1
    ensures Spaced(b, Headers(b, from), from - 3)
    decreases |b| - from
  {
    var j := Stop(b, from, 0);
    StopFrom(b, from);
    if j < |b| {
      HeadersSpaced(b, j);
      var hs := Headers(b, from);
      assert hs == [j - 3] + Headers(b, j);
      assert hs[1..] == Headers(b, j);
    }
  }

  /** The calls return every start code after `from` and nothing else. */
  lemma {:induction false} HeadersComplete(b: seq<byte>, from: nat)
    requires 3 <= from
    requires from == 3 || (from < |b| && b[from] == 1)
    ensures forall q :: from < q < |b| ==> (StartAt(b, 3, q) <==> q - 3 in Headers(b, from))
    decreases |b| - from
  {
    var j := Stop(b, from, 0);
    StopFrom(b, from);
    if j < |b| {
      HeadersComplete(b, j);
      var hs := Headers(b, from);
      var rest := Headers(b, j);
      assert hs == [j - 3] + rest;
      forall q | from < q < |b|
        ensures StartAt(b, 3, q) <==> q - 3 in hs
      {
        if q > j {
          assert q - 3 in hs <==> q - 3 in rest;
        } else if q < j {
          assert q - 3 !in rest;
        }
      }
    }
  }

  /** What append's scan of a buffer returns: exactly the start codes the
      scanner sees. */
  lemma HeadersExact(b: seq<byte>)
    ensures forall q :: 3 <= q < |b| ==> (StartAt(b, 3, q) <==> q - 3 in Headers(b, 3))
  {
    HeadersComplete(b, 3);
    assert ZeroRun(b, 3, 3) == 0;
  }

  /** Only a one byte after exactly three zeros counts: a shorter code
      00 00 01 and a longer run 00 00 00 00 01 are left inside the unit. */
  lemma OnlyFourByteCodes()
    ensures Headers([0, 0, 0, 1, 9, 0, 0, 1, 9], 3) == []
    ensures Headers([0, 0, 0, 1, 9, 0, 0, 0, 0, 1, 9], 3) == []
    ensures Headers([0, 0, 0, 1, 9, 0, 0, 0, 1, 9], 3) == [5]
  {
  }

  // ---------------------------------------------------------------------
  // The units between start codes
  // ---------------------------------------------------------------------

  /** The units cut out at the start codes `hs`, the previous one at
      `last`: each runs from four bytes after one start code to the next. */
  function Units(b: seq<byte>, hs: seq<nat>, last: nat): seq<Nalu>
    decreases |hs|
  {
    if hs == [] then [] else [Nalu(Sub(b, last + 4, hs[0]))] + Units(b, hs[1..], hs[0])
  }

  /** What is kept: the bytes from the last start code on. */
  function Rest(b: seq<byte>, hs: seq<nat>, last: nat): seq<byte>
    decreases |hs|
  {
    if hs == [] then Sub(b, last, |b|) else Rest(b, hs[1..], hs[0])
  }

  /** The byte stream a run of units stands for: each after a start code. */
  function Join(us: seq<Nalu>): seq<byte>
  {
    if us == [] then [] else START_CODE + us[0].data + Join(us[1..])
  }

  lemma {:induction false} JoinAppend(x: seq<Nalu>, y: seq<Nalu>)
    ensures Join(x + y) == Join(x) + Join(y)
    decreases |x|
  {
    if x == [] {
      assert x + y == y;
    } else {
      assert (x + y)[1..] == x[1..] + y;
      JoinAppend(x[1..], y);
    }
  }

  /** One unit and the rest of the stream after it. */
  lemma JoinStep(b: seq<byte>, last: nat, h: nat, tail: seq<byte>)
    requires last + 4 <= h <= |b| && b[last..last + 4] == START_CODE
    requires tail == b[h..]
    ensures START_CODE + Nalu(Sub(b, last + 4, h)).data + tail == b[last..]
  {
    assert b[last..] == b[last..last + 4] + b[last + 4..h] + b[h..];
  }

  /** Units cut at spaced start codes give the bytes back: start code,
      unit, start code, unit, ..., and the kept rest, which itself begins
      with a start code. */
  lemma {:induction false} UnitsJoin(b: seq<byte>, hs: seq<nat>, last: nat)
    requires last + 4 <= |b| && b[last..last + 4] == START_CODE
    requires Spaced(b, hs, last)
    ensures |Units(b, hs, last)| == |hs|
    ensures Join(Units(b, hs, last)) + Rest(b, hs, last) == b[last..]
    ensures |Rest(b, hs, last)| >= 4 && Rest(b, hs, last)[..4] == START_CODE
    decreases |hs|
  {
    if hs != [] {
      var h := hs[0];
      assert h + 4 <= |b| && b[h..h + 4] == START_CODE && Spaced(b, hs[1..], h);
      UnitsJoin(b, hs[1..], h);
      UnitsCons(b, hs, last);
    } else {
      assert Sub(b, last, |b|) == b[last..];
    }
  }

  /** One unit in front of the ones after it. */
  lemma UnitsCons(b: seq<byte>, hs: seq<nat>, last: nat)
    requires hs != [] && last + 4 <= hs[0] <= |b| && b[last..last + 4] == START_CODE
    requires Join(Units(b, hs[1..], hs[0])) + Rest(b, hs[1..], hs[0]) == b[hs[0]..]
    requires |Units(b, hs[1..], hs[0])| == |hs| - 1
    ensures |Units(b, hs, last)| == |hs|
    ensures Rest(b, hs, last) == Rest(b, hs[1..], hs[0])
    ensures Join(Units(b, hs, last)) + Rest(b, hs, last) == b[last..]
  {
    var h := hs[0];
    var u := Nalu(Sub(b, last + 4, h));
    var us := Units(b, hs[1..], h);
    var r := Rest(b, hs[1..], h);
    assert Units(b, hs, last) == [u] + us;
    JoinStep(b, last, h, Join(us) + r);
    JoinCons(u, us, r, b[last..]);
  }

  /** A unit in front of a run of units adds its start code and bytes. */
  lemma JoinCons(u: Nalu, us: seq<Nalu>, r: seq<byte>, whole: seq<byte>)
    requires START_CODE + u.data + (Join(us) + r) == whole
    ensures Join([u] + us) + r == whole
  {
    assert ([u] + us)[1..] == us;
    assert Join([u] + us) == START_CODE + u.data + Join(us);
  }

  /** The split of a buffer that begins with a start code: the units and
      the kept rest give the buffer back, one unit per start code found. */
  lemma SplitRoundTrip(b: seq<byte>)
    requires |b| >= 4 && b[..4] == START_CODE
    ensures var hs := Headers(b, 3);
      |Units(b, hs, 0)| == |hs|
      && Join(Units(b, hs, 0)) + Rest(b, hs, 0) == b
      && |Rest(b, hs, 0)| >= 4 && Rest(b, hs, 0)[..4] == START_CODE
  {
    HeadersSpaced(b, 3);
    UnitsJoin(b, Headers(b, 3), 0);
  }

  /** One more call of the scanner finds a start code: one more unit. */
  lemma SplitStep(b: seq<byte>, from: nat, last: nat)
    requires Stop(b, from, 0) < |b|
    ensures var h := Stop(b, from, 0) - 3;
      Units(b, Headers(b, from), last) == [Nalu(Sub(b, last + 4, h))] + Units(b, Headers(b, h + 3), h)
      && Rest(b, Headers(b, from), last) == Rest(b, Headers(b, h + 3), h)
  {
    var j := Stop(b, from, 0);
    assert Headers(b, from) == [j - 3] + Headers(b, j);
    assert Headers(b, from)[1..] == Headers(b, j);
  }

  /** The calls are over: no more units, and the rest is kept. */
  lemma SplitEnd(b: seq<byte>, from: nat, last: nat)
    requires Stop(b, from, 0) >= |b|
    ensures Units(b, Headers(b, from), last) == [] && Rest(b, Headers(b, from), last) == Sub(b, last, |b|)
  {
  }

  // ---------------------------------------------------------------------
  // `append`, `mergeBuffer`, `clear`
  // ---------------------------------------------------------------------

  /** A chunk flushes the pending unit when a unit is pending and the chunk
      begins with a start code. */
  predicate Flushes(prev: Option<seq<byte>>, value: seq<byte>)
  {
    prev.Some? && |value| >= 4 && value[3] == 1 && value[2] == 0 && value[1] == 0 && value[0] == 0
  }

  /** `mergeBuffer`: the pending bytes, then the chunk. */
  function Merge(prev: Option<seq<byte>>, value: seq<byte>): seq<byte>
  {
    if prev.None? then value else prev.value + value
  }

  datatype Appended = Appended(units: seq<Nalu>, buffer: seq<byte>)

  /** The buffer `append` scans. */
  function Scanned(prev: Option<seq<byte>>, value: seq<byte>): seq<byte>
  {
    if Flushes(prev, value) then value else Merge(prev, value)
  }

  /** `append(value)`: the flushed pending unit if any, then the units of
      the scanned buffer; the buffer kept is its tail from the last start
      code. */
  function AppendOf(prev: Option<seq<byte>>, value: seq<byte>): Appended
  {
    var flushed := if Flushes(prev, value) then [Nalu(Sub(prev.value, 4, |prev.value|))] else [];
    var b := Scanned(prev, value);
    var hs := Headers(b, 3);
    Appended(flushed + Units(b, hs, 0), Rest(b, hs, 0))
  }

  /** A buffer waiting for more bytes begins with a start code. */
  predicate Pending(buffer: Option<seq<byte>>)
  {
    buffer.None? || (|buffer.value| >= 4 && buffer.value[..4] == START_CODE)
  }

  /** No byte is lost or made up: the units emitted, each after a start
      code, followed by the new buffer, are the old buffer followed by the
      chunk; and the new buffer again begins with a start code. This holds
      when the stream begins with a start code. */
  lemma AppendKeepsStream(prev: Option<seq<byte>>, value: seq<byte>)
    requires Pending(prev)
    requires prev.None? ==> |value| >= 4 && value[..4] == START_CODE
    ensures var a := AppendOf(prev, value);
      Join(a.units) + a.buffer == (if prev.Some? then prev.value else []) + value
      && Pending(Some(a.buffer))
  {
    if Flushes(prev, value) {
      assert prev == Some(prev.value);
      FlushKeepsStream(prev.value, value);
    } else {
      MergeKeepsStream(prev, value);
    }
  }

  lemma MergeKeepsStream(prev: Option<seq<byte>>, value: seq<byte>)
    requires Pending(prev) && !Flushes(prev, value)
    requires prev.None? ==> |value| >= 4 && value[..4] == START_CODE
    ensures var a := AppendOf(prev, value);
      Join(a.units) + a.buffer == Merge(prev, value) && Pending(Some(a.buffer))
  {
    var b := Merge(prev, value);
    if prev.Some? {
      assert b[..4] == prev.value[..4];
    }
    SplitRoundTrip(b);
    var hs := Headers(b, 3);
    assert AppendOf(prev, value) == Appended(Units(b, hs, 0), Rest(b, hs, 0)) by {
      assert [] + Units(b, hs, 0) == Units(b, hs, 0);
    }
  }

  lemma FlushKeepsStream(p: seq<byte>, value: seq<byte>)
    requires |p| >= 4 && p[..4] == START_CODE
    requires Flushes(Some(p), value)
    ensures var a := AppendOf(Some(p), value);
      Join(a.units) + a.buffer == p + value && Pending(Some(a.buffer))
  {
    assert value[..4] == START_CODE;
    SplitRoundTrip(value);
    var flushed := [Nalu(Sub(p, 4, |p|))];
    var us := Units(value, Headers(value, 3), 0);
    JoinAppend(flushed, us);
    assert Join(flushed) == START_CODE + p[4..] by {
      assert flushed[1..] == [];
    }
    assert p == START_CODE + p[4..];
  }

  /** When the chunk begins with a start code, the pending bytes form one
      unit of their own, whether or not they hold a start code inside, and
      the chunk is split as if nothing were pending. */
  lemma FlushEmitsPending(prev: seq<byte>, value: seq<byte>)
    requires |prev| >= 4 && |value| >= 4 && value[..4] == START_CODE
    ensures AppendOf(Some(prev), value) == Appended(
      [Nalu(prev[4..])] + AppendOf(None, value).units, AppendOf(None, value).buffer)
  {
    assert value[0] == 0 && value[1] == 0 && value[2] == 0 && value[3] == 1;
    assert Sub(prev, 4, |prev|) == prev[4..];
    assert Scanned(Some(prev), value) == Scanned(None, value);
  }

  class VideoStreamBuffer {
    var buffer: Option<seq<byte>>

    constructor()
      ensures buffer == None
    {
      buffer := None;
    }

    /** `clear`. */
    method Clear()
      modifies this
      ensures buffer == None
    {
      buffer := None;
    }

    /** `mergeBuffer(value)`: a fresh array with the pending bytes (when
        there are any) and then the chunk; its length is the sum of both. */
    method MergeBuffer(value: seq<byte>) returns (r: array<byte>)
      ensures fresh(r)
      ensures r[..] == Merge(buffer, value)
      ensures r.Length == (if buffer.Some? then |buffer.value| else 0) + |value|
    {
      if buffer.None? {
        r := new byte[|value|](k requires 0 <= k < |value| => value[k]);
        return;
      }
      var pending := buffer.value;
      r := new byte[|pending| + |value|](_ => 0);
      if |pending| > 0 {
        TypedArray.Set(r, pending, 0);
      }
      TypedArray.Set(r, value, |pending|);
      assert r[..] == pending + value;
    }

    /** `append(value)`. */
    method Append(value: seq<byte>) returns (result: seq<Nalu>)
      modifies this
      ensures result == AppendOf(old(buffer), value).units
      ensures buffer == Some(AppendOf(old(buffer), value).buffer)
    {
      result := [];
      var b: seq<byte> := [];
      var flushed := false;
      if buffer.Some? {
        if |value| >= 4 && value[3] == 1 && value[2] == 0 && value[1] == 0 && value[0] == 0 {
          result := result + [Nalu(Sub(buffer.value, 4, |buffer.value|))];
          b := value;
          flushed := true;
        }
      }
      if !flushed {
        var merged := MergeBuffer(value);
        b := merged[..];
      }
      assert b == Scanned(old(buffer), value);
      var units, lastIndex := Scan(b);
      result := result + units;
      buffer := Some(Sub(b, lastIndex, |b|));
    }
  }

  /** The loop of `append` over the scanner's calls: the units it pushes
      and the index of the last start code found (0 when none). */
  method Scan(b: seq<byte>) returns (units: seq<Nalu>, lastIndex: nat)
    ensures units == Units(b, Headers(b, 3), 0)
    ensures Sub(b, lastIndex, |b|) == Rest(b, Headers(b, 3), 0)
  {
    units := [];
    lastIndex := 0;
    var scan := new HeaderScanner(b);
    ghost var total, rest := Units(b, Headers(b, 3), 0), Rest(b, Headers(b, 3), 0);
    while true
      invariant scan.b == b
      invariant units + Units(b, Headers(b, scan.i), lastIndex) == total
      invariant Rest(b, Headers(b, scan.i), lastIndex) == rest
      decreases |b| - scan.i
    {
      ghost var from := scan.i;
      var index := scan.Next();
      if index.None? {
        SplitEnd(b, from, lastIndex);
        break;
      }
      ScanStep(b, from, lastIndex, scan.i, index.value, units, total, rest);
      units := units + [Nalu(Sub(b, lastIndex + 4, index.value))];
      lastIndex := index.value;
    }
  }

  /** The invariants of the loop of `append` after one more start code. */
  lemma ScanStep(b: seq<byte>, from: nat, last: nat, j: nat, h: nat, units: seq<Nalu>,
                 total: seq<Nalu>, rest: seq<byte>)
    requires j == Stop(b, from, 0) < |b| && h == j - 3
    requires units + Units(b, Headers(b, from), last) == total
    requires Rest(b, Headers(b, from), last) == rest
    ensures (units + [Nalu(Sub(b, last + 4, h))]) + Units(b, Headers(b, j), h) == total
    ensures Rest(b, Headers(b, j), h) == rest
  {
    SplitStep(b, from, last);
    assert h + 3 == j;
  }
}
