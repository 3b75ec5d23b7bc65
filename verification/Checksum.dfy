/** The order-independent digest of digests that both ends of a checksummed transfer compute. */
module Checksum {
  import opened Common

  /** SHA-256 is a parameter: any function to 32-byte strings. */
  type HashFn = Bytes -> Bytes

  const DIGEST_BYTES := 32

  ghost predicate IsDigest(h: HashFn) {
    forall b: Bytes :: |h(b)| == DIGEST_BYTES
  }

  lemma {:induction false} LeastExists(keys: set<nat>) returns (m: nat)
    requires keys != {}
    ensures m in keys && forall k :: k in keys ==> m <= k
  {
    var x :| x in keys;
    var rest := keys - {x};
    m := x;
    if rest != {} {
      var least := LeastExists(rest);
      if least < x {
        m := least;
      }
    }
    forall k | k in keys ensures m <= k {
      assert k == x || k in rest;
    }
  }

  function Least(keys: set<nat>): (m: nat)
    requires keys != {}
    ensures m in keys && forall k :: k in keys ==> m <= k
  {
    assert exists m :: m in keys && forall k :: k in keys ==> m <= k by {
      var m := LeastExists(keys);
    }
    var m :| m in keys && forall k :: k in keys ==> m <= k;
    m
  }

  /** The keys in ascending numeric order. */
  function Ascending(keys: set<nat>): (order: seq<nat>)
    ensures forall k :: k in order <==> k in keys
  {
    if keys == {} then []
    else
      var m := Least(keys);
      [m] + Ascending(keys - {m})
  }

  function Joined(digests: map<nat, Bytes>, order: seq<nat>): Bytes
    requires forall k :: k in order ==> k in digests
  {
    if order == [] then [] else digests[order[0]] + Joined(digests, order[1..])
  }

  lemma {:induction false} JoinedSnoc(digests: map<nat, Bytes>, order: seq<nat>, k: nat)
    requires k in digests && forall i :: i in order ==> i in digests
    ensures Joined(digests, order + [k]) == Joined(digests, order) + digests[k]
  {
    if order == [] {
      assert [k][1..] == [];
    } else {
      assert (order + [k])[1..] == order[1..] + [k];
      JoinedSnoc(digests, order[1..], k);
    }
  }

  function HexDigit(n: nat): char
    requires n < 16
  {
    "0123456789abcdef"[n]
  }

  function Hex(b: Bytes): string {
    if b == [] then "" else [HexDigit(b[0] / 16), HexDigit(b[0] % 16)] + Hex(b[1..])
  }

  function Tag(h: HashFn, digests: map<nat, Bytes>): string {
    Hex(h(Joined(digests, Ascending(digests.Keys))))
  }

  class Sha256Digest {
    const h: HashFn
    var digests: map<nat, Bytes>

    ghost predicate Valid() reads this {
      IsDigest(h) && forall k :: k in digests ==> |digests[k]| == DIGEST_BYTES
    }

    constructor (h: HashFn)
      requires IsDigest(h)
      ensures Valid() && this.h == h && digests == map[]
    {
      this.h := h;
      digests := map[];
    }

    method Update(seqNo: nat, bytes: Bytes)
      requires Valid()
      modifies this
      ensures Valid() && digests == old(digests)[seqNo := h(bytes)]
    {
      digests := digests[seqNo := h(bytes)];
    }

    method Finalize() returns (tag: string)
      requires Valid()
      ensures tag == Tag(h, digests)
    {
      var seqs := Ascending(digests.Keys);
      var joined := new Byte[|seqs| * DIGEST_BYTES](_ => 0);
      var offset := 0;
      for i := 0 to |seqs|
        invariant offset == i * DIGEST_BYTES
        invariant joined[..offset] == Joined(digests, seqs[..i])
      {
        Set(joined, offset, digests[seqs[i]]);
        JoinedSnoc(digests, seqs[..i], seqs[i]);
        assert seqs[..i] + [seqs[i]] == seqs[..i + 1];
        offset := offset + DIGEST_BYTES;
      }
      assert seqs[..|seqs|] == seqs;
      assert joined[..offset] == joined[..];
      tag := Hex(h(joined[..]));
    }
  }

  /** Updates of different chunks commute, so the tag does not depend on arrival order. */
  lemma TagIgnoresArrivalOrder(h: HashFn, digests: map<nat, Bytes>, i: nat, a: Bytes, j: nat, b: Bytes)
    requires i != j
    ensures Tag(h, digests[i := h(a)][j := h(b)]) == Tag(h, digests[j := h(b)][i := h(a)])
  {
    assert digests[i := h(a)][j := h(b)] == digests[j := h(b)][i := h(a)];
  }

  // ---- Equal tags force equal contents ----

  /** The digest map of a complete transfer: one digest for every chunk. */
  function DigestsOf(h: HashFn, chunks: seq<Bytes>): map<nat, Bytes> {
    map k: nat | k < |chunks| :: h(chunks[k])
  }

  function JoinedOf(h: HashFn, chunks: seq<Bytes>): Bytes {
    if chunks == [] then [] else h(chunks[0]) + JoinedOf(h, chunks[1..])
  }

  /** The inputs the two ends feed to the hash when they hold `chunks`. */
  ghost function Hashed(h: HashFn, chunks: seq<Bytes>): set<Bytes> {
    (set c | c in chunks) + {JoinedOf(h, chunks)}
  }

  ghost predicate CollisionFree(h: HashFn, inputs: set<Bytes>) {
    forall x, y :: x in inputs && y in inputs && h(x) == h(y) ==> x == y
  }

  lemma {:induction false} AscendingInterval(lo: nat, keys: set<nat>, hi: nat)
    requires lo <= hi && forall k :: k in keys <==> lo <= k < hi
    ensures |Ascending(keys)| == hi - lo
    ensures forall i :: 0 <= i < hi - lo ==> Ascending(keys)[i] == lo + i
    decreases hi - lo
  {
    if lo < hi {
      assert lo in keys;
      LeastIs(keys, lo);
      AscendingInterval(lo + 1, keys - {lo}, hi);
    } else {
      assert keys == {};
    }
  }

  lemma LeastIs(keys: set<nat>, lo: nat)
    requires lo in keys && forall k :: k in keys ==> lo <= k
    ensures Least(keys) == lo
    ensures Ascending(keys) == [lo] + Ascending(keys - {lo})
  {
  }

  lemma {:induction false} JoinedInterval(h: HashFn, digests: map<nat, Bytes>, chunks: seq<Bytes>, lo: nat,
                                          order: seq<nat>)
    requires lo <= |chunks| && |order| == |chunks| - lo
    requires forall i :: 0 <= i < |order| ==> order[i] == lo + i
    requires forall k: nat :: k < |chunks| ==> k in digests && digests[k] == h(chunks[k])
    ensures forall k :: k in order ==> k in digests
    ensures Joined(digests, order) == JoinedOf(h, chunks[lo..])
    decreases |order|
  {
    if order != [] {
      JoinedInterval(h, digests, chunks, lo + 1, order[1..]);
      assert chunks[lo..][1..] == chunks[lo + 1..];
    }
  }

  lemma TagOfComplete(h: HashFn, chunks: seq<Bytes>)
    ensures Tag(h, DigestsOf(h, chunks)) == Hex(h(JoinedOf(h, chunks)))
  {
    var d := DigestsOf(h, chunks);
    AscendingInterval(0, d.Keys, |chunks|);
    JoinedInterval(h, d, chunks, 0, Ascending(d.Keys));
    assert chunks[0..] == chunks;
  }

  lemma {:induction false} HexInjective(a: Bytes, b: Bytes)
    requires Hex(a) == Hex(b)
    ensures a == b
    decreases |a|
  {
    HexLength(a);
    HexLength(b);
    if a != [] {
      var x: int, y: int := a[0], b[0];
      assert Hex(a)[..2] == [HexDigit(x / 16), HexDigit(x % 16)];
      assert Hex(b)[..2] == [HexDigit(y / 16), HexDigit(y % 16)];
      assert Hex(a)[..2][0] == Hex(b)[..2][0] && Hex(a)[..2][1] == Hex(b)[..2][1];
      HexDigitInjective(x / 16, y / 16);
      HexDigitInjective(x % 16, y % 16);
      assert x == y;
      assert Hex(a)[2..] == Hex(a[1..]) && Hex(b)[2..] == Hex(b[1..]);
      HexInjective(a[1..], b[1..]);
    }
  }

  lemma HexDigitInjective(m: nat, n: nat)
    requires m < 16 && n < 16 && HexDigit(m) == HexDigit(n)
    ensures m == n
  {
    var digits := "0123456789abcdef";
    assert forall i, j :: 0 <= i < j < 16 ==> digits[i] != digits[j];
  }

  lemma HexLength(a: Bytes)
    ensures |Hex(a)| == 2 * |a|
  {
  }

  lemma {:induction false} JoinedInjective(h: HashFn, a: seq<Bytes>, b: seq<Bytes>)
    requires IsDigest(h)
    requires forall x, y :: x in a && y in b && h(x) == h(y) ==> x == y
    requires JoinedOf(h, a) == JoinedOf(h, b)
    ensures a == b
    decreases |a|
  {
    if a != [] && b != [] {
      var ja, jb := JoinedOf(h, a), JoinedOf(h, b);
      assert h(a[0]) == ja[..DIGEST_BYTES] && h(b[0]) == jb[..DIGEST_BYTES];
      assert a[0] in a && b[0] in b;
      assert ja[DIGEST_BYTES..] == JoinedOf(h, a[1..]) && jb[DIGEST_BYTES..] == JoinedOf(h, b[1..]);
      JoinedInjective(h, a[1..], b[1..]);
    }
  }

  /** Unless the hash collides on the inputs actually hashed, equal tags mean the same chunks in the same places. */
  lemma EqualTagsForceEqualChunks(h: HashFn, sent: seq<Bytes>, received: seq<Bytes>)
    requires IsDigest(h)
    requires CollisionFree(h, Hashed(h, sent) + Hashed(h, received))
    requires Tag(h, DigestsOf(h, sent)) == Tag(h, DigestsOf(h, received))
    ensures sent == received
  {
    TagOfComplete(h, sent);
    TagOfComplete(h, received);
    HexInjective(h(JoinedOf(h, sent)), h(JoinedOf(h, received)));
    assert JoinedOf(h, sent) in Hashed(h, sent) && JoinedOf(h, received) in Hashed(h, received);
    forall x, y | x in sent && y in received && h(x) == h(y) ensures x == y {
      assert x in Hashed(h, sent) && y in Hashed(h, received);
    }
    JoinedInjective(h, sent, received);
  }
}
