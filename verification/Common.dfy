/** Types shared by the whole project. */
module Common {
  datatype Option<+T> = None | Some(value: T)

  type Byte = x: int | 0 <= x < 256
  type Bytes = seq<Byte>

  function Min(a: int, b: int): int {
    if a <= b then a else b
  }

  ghost predicate NoDup<T>(s: seq<T>) {
    forall i, j :: 0 <= i < j < |s| ==> s[i] != s[j]
  }

  /** What `Uint8Array.set` leaves behind. */
  function Overwrite(buffer: Bytes, offset: nat, data: Bytes): (r: Bytes)
    requires offset + |data| <= |buffer|
    ensures |r| == |buffer|
  {
    buffer[..offset] + data + buffer[offset + |data|..]
  }

  /** `target.set(data, offset)`. */
  method Set(target: array<Byte>, offset: nat, data: Bytes)
    requires offset + |data| <= target.Length
    modifies target
    ensures target[..] == Overwrite(old(target[..]), offset, data)
  {
    for i := 0 to |data|
      invariant target[..offset] == old(target[..offset])
      invariant target[offset..offset + i] == data[..i]
      invariant target[offset + |data|..] == old(target[offset + |data|..])
    {
      target[offset + i] := data[i];
    }
    assert target[..] == target[..offset] + target[offset..offset + |data|] + target[offset + |data|..];
  }

  lemma Assoc<T>(a: seq<T>, b: seq<T>, c: seq<T>)
    ensures a + (b + c) == (a + b) + c
  {
  }
}
