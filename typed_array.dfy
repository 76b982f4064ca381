/** The `Uint8Array` operations the bundled converter (public/main.js)
    builds its output with: a zero-filled allocation and `set(source,
    offset)`, which copies `source` into the array from `offset` on and
    keeps every other byte. */
module TypedArray {
  import opened Bytes

  /** `new Uint8Array(n)`: `n` zero bytes. */
  function Zeros(n: nat): (r: seq<byte>)
    ensures |r| == n && forall k :: 0 <= k < n ==> r[k] == 0
  {
    seq(n, _ => 0)
  }

  /** What `set(source, offset)` leaves in an array whose contents were
      `a`. */
  function Overwrite(a: seq<byte>, source: seq<byte>, offset: nat): (r: seq<byte>)
    requires offset + |source| <= |a|
    ensures |r| == |a|
    ensures r[offset..offset + |source|] == source
    ensures r[..offset] == a[..offset] && r[offset + |source|..] == a[offset + |source|..]
  {
    a[..offset] + source + a[offset + |source|..]
  }

  /** `a.set(source, offset)`; out of bounds it throws, which no caller here
      can reach. */
  method Set(a: array<byte>, source: seq<byte>, offset: nat)
    requires offset + |source| <= a.Length
    modifies a
    ensures a[..] == Overwrite(old(a[..]), source, offset)
  {
    var j := 0;
    while j < |source|
      invariant 0 <= j <= |source|
      invariant forall k :: 0 <= k < a.Length ==>
        a[k] == if offset <= k < offset + j then source[k - offset] else old(a[k])
    {
      a[offset + j] := source[j];
      j := j + 1;
    }
    assert forall k :: 0 <= k < a.Length ==> a[k] == Overwrite(old(a[..]), source, offset)[k];
  }

  /** Two writes one after the other at adjacent offsets are one write of
      both. */
  lemma OverwriteAdjacent(a: seq<byte>, x: seq<byte>, y: seq<byte>, offset: nat)
    requires offset + |x| + |y| <= |a|
    ensures Overwrite(Overwrite(a, x, offset), y, offset + |x|) == Overwrite(a, x + y, offset)
  {
    var l := Overwrite(Overwrite(a, x, offset), y, offset + |x|);
    var r := Overwrite(a, x + y, offset);
    assert forall k :: 0 <= k < |a| ==> l[k] == r[k];
  }
}
