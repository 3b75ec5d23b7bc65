/** The in-memory sink: one byte buffer, written at offsets and grown on demand. */
module MemorySink {
  import opened Common

  function Zeros(n: nat): (z: Bytes)
    ensures |z| == n
  {
    seq(n, _ => 0)
  }

  /** The buffer after `write(offset, data)`; a missing buffer is allocated, a short one grown. */
  function Written(buffer: Option<Bytes>, offset: nat, data: Bytes): Bytes {
    var end := offset + |data|;
    var b := if buffer.None? then Zeros(end) else buffer.value;
    Overwrite(if end > |b| then b + Zeros(end - |b|) else b, offset, data)
  }

  class MemorySink {
    var buffer: array?<Byte>

    ghost function Contents(): Option<Bytes> reads this, buffer {
      if buffer == null then None else Some(buffer[..])
    }

    constructor ()
      ensures Contents() == None
    {
      buffer := null;
    }

    method Open(size: nat)
      modifies this
      ensures Contents() == Some(Zeros(size)) && fresh(buffer)
    {
      buffer := new Byte[size](_ => 0);
      assert buffer[..] == Zeros(size);
    }

    method Write(offset: nat, data: Bytes)
      modifies this, buffer
      ensures Contents() == Some(Written(old(Contents()), offset, data))
      ensures buffer == old(buffer) || fresh(buffer)
    {
      var end := offset + |data|;
      if buffer == null {
        buffer := new Byte[end](_ => 0);
        assert buffer[..] == Zeros(end);
      }
      ghost var b := buffer[..];
      if end > buffer.Length {
        var grown := new Byte[end](_ => 0);
        assert grown[..] == Zeros(end);
        Set(grown, 0, buffer[..]);
        buffer := grown;
        assert buffer[..] == b + Zeros(end - |b|);
      }
      Set(buffer, offset, data);
    }

    method Close() returns (bytes: Bytes)
      ensures bytes == if Contents().None? then [] else Contents().value
    {
      if buffer == null {
        return [];
      }
      return buffer[..];
    }

    method Abort()
      modifies this
      ensures Contents() == None
    {
      buffer := null;
    }
  }

  /** A write inside the buffer stores its data and disturbs no range disjoint from it. */
  lemma WriteStoresAndFrames(buffer: Bytes, offset: nat, data: Bytes, lo: nat, hi: nat)
    requires offset + |data| <= |buffer| && lo <= hi <= |buffer|
    requires hi <= offset || offset + |data| <= lo
    ensures var w := Written(Some(buffer), offset, data);
            |w| == |buffer| && w[offset..offset + |data|] == data && w[lo..hi] == buffer[lo..hi]
  {
  }
}
