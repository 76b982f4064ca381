/** The growable receive buffer each device socket owns (`dynamicBuffer`):
    a Node.js `Buffer` of some capacity whose first `length` bytes are the
    bytes received and not yet consumed. */
module DynBuffers {
  import opened Bytes

  /** `1024 * 512`, the capacity a socket starts with and shrinks back to. */
  const INITIAL_CAPACITY: nat := 0x8_0000

  function Max(a: nat, b: nat): nat { if a >= b then a else b }

  /** The capacity `processData` settles on when `needed` bytes must fit. */
  function GrownCapacity(capacity: nat, needed: nat): (c: nat)
    ensures needed <= c && capacity <= c
    ensures c == capacity <==> needed <= capacity
    ensures c != capacity ==> 2 * capacity <= c && needed + 1024 <= c
    ensures c != capacity ==> c == 2 * capacity || c == needed + 1024
  {
    if needed > capacity then Max(capacity * 2, needed + 1024) else capacity
  }

  class DynBuffer {
    var buffer: array<byte>
    var length: nat

    ghost predicate Valid()
      reads this
    {
      length <= buffer.Length
    }

    /** The bytes received and not yet consumed. */
    ghost function Contents(): seq<byte>
      reads this, buffer
      requires Valid()
    {
      buffer[..length]
    }

    /** `{ buffer: Buffer.alloc(1024 * 512), length: 0 }`. */
    constructor()
      ensures Valid() && Contents() == [] && buffer.Length == INITIAL_CAPACITY
      ensures fresh(buffer)
    {
      buffer := new byte[INITIAL_CAPACITY];
      length := 0;
    }

    /** The first half of `processData`: grow the buffer when the new chunk
        does not fit, keeping the pending bytes, then copy the chunk in. */
    method Append(data: seq<byte>)
      requires Valid()
      modifies this, buffer
      ensures Valid() && Contents() == old(Contents()) + data
      ensures buffer.Length == GrownCapacity(old(buffer.Length), old(length) + |data|)
      ensures buffer == old(buffer) || fresh(buffer)
    {
      var needed := length + |data|;
      if needed > buffer.Length {
        var grown := new byte[GrownCapacity(buffer.Length, needed)];
        CopyPrefix(buffer, grown, length);
        buffer := grown;
      }
      WriteAt(buffer, length, data);
      length := length + |data|;
    }

    /** `buffer.copy(buffer, 0, n, length); length -= n`: drop the first
        `n` pending bytes and move the rest to the front. */
    method Consume(n: nat)
      requires Valid() && n <= length
      modifies this, buffer
      ensures Valid() && Contents() == old(Contents())[n..]
      ensures buffer == old(buffer)
    {
      ShiftDown(buffer, n, length);
      length := length - n;
    }

    /** `dynBuffer.length = 0` once a control socket has forwarded it all. */
    method Clear()
      requires Valid()
      modifies this
      ensures Valid() && Contents() == [] && buffer == old(buffer)
    {
      length := 0;
    }

    /** The end of `processData`: an emptied buffer that has grown beyond
        the initial capacity is replaced by a fresh one of that capacity. */
    method Reclaim()
      requires Valid()
      modifies this
      ensures Valid() && Contents() == old(Contents())
      ensures buffer.Length ==
        if old(length) == 0 && old(buffer.Length) > INITIAL_CAPACITY then INITIAL_CAPACITY
        else old(buffer.Length)
      ensures buffer == old(buffer) || fresh(buffer)
    {
      if length == 0 && buffer.Length > INITIAL_CAPACITY {
        buffer := new byte[INITIAL_CAPACITY];
      }
    }
  }

  /** `source.copy(target, 0, 0, n)`. */
  method CopyPrefix(source: array<byte>, target: array<byte>, n: nat)
    requires n <= source.Length && n <= target.Length && source != target
    modifies target
    ensures target[..n] == source[..n]
  {
    var i := 0;
    while i < n
      invariant 0 <= i <= n
      invariant forall k :: 0 <= k < i ==> target[k] == source[k]
    {
      target[i] := source[i];
      i := i + 1;
    }
  }

  /** `data.copy(target, at)`: the bytes before `at` stay. */
  method WriteAt(target: array<byte>, at: nat, data: seq<byte>)
    requires at + |data| <= target.Length
    modifies target
    ensures target[..at] == old(target[..at])
    ensures target[..at + |data|] == old(target[..at]) + data
  {
    var j := 0;
    while j < |data|
      invariant 0 <= j <= |data|
      invariant forall k :: 0 <= k < at ==> target[k] == old(target[k])
      invariant forall k :: 0 <= k < j ==> target[at + k] == data[k]
    {
      target[at + j] := data[j];
      j := j + 1;
    }
  }

  /** `buffer.copy(buffer, 0, n, length)`: bytes `n` to `length - 1` move
      to the front; the copy runs upwards, so no byte is overwritten before
      it is read. */
  method ShiftDown(buffer: array<byte>, n: nat, length: nat)
    requires n <= length <= buffer.Length
    modifies buffer
    ensures buffer[..length - n] == old(buffer[n..length])
  {
    var i := 0;
    while i < length - n
      invariant 0 <= i <= length - n
      invariant forall k :: 0 <= k < i ==> buffer[k] == old(buffer[k + n])
      invariant forall k :: i <= k < buffer.Length ==> buffer[k] == old(buffer[k])
    {
      buffer[i] := buffer[i + n];
      i := i + 1;
    }
  }
}
