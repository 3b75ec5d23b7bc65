/** What both directions of a transfer share: the state table, the control messages and the chunk arithmetic. */
module TransferBase {
  import opened Common
  import opened Checksum

  datatype TransferState =
    Idle | Offered | Accepted | Active | Paused | Completing | Completed | Failed | Cancelled

  predicate Terminal(s: TransferState) {
    s.Completed? || s.Failed? || s.Cancelled?
  }

  /** The legal-transition table. */
  predicate Legal(from: TransferState, to: TransferState) {
    match from
    case Idle => to.Offered?
    case Offered => to.Accepted?
    case Accepted => to.Active?
    case Active => to.Paused? || to.Completing?
    case Paused => to.Active?
    case Completing => to.Completed?
    case _ => false
  }

  /** Whether `transitionTo(to)` changes the state; failure and cancellation are forced from any non-terminal state. */
  predicate MayMove(from: TransferState, to: TransferState) {
    from != to && !Terminal(from) && (to.Failed? || to.Cancelled? || Legal(from, to))
  }

  /** What `transitionTo(to)` returns: true also when the state is already `to`. */
  predicate Moves(from: TransferState, to: TransferState) {
    from == to || MayMove(from, to)
  }

  datatype Control =
    | Offer
    | Accept(have: set<nat>)
    | Reject
    | ResumeRequest(have: set<nat>)
    | Sent(digest: Option<string>)
    | Complete
    | ChecksumMismatch
    | Cancel
    | Pause
    | Resume

  /** One file and how it is sent. */
  datatype Params = Params(source: Bytes, chunkSize: nat, checksum: bool, resumable: bool, hash: HashFn)

  /** What the offer tells the receiver. */
  datatype Terms = Terms(size: nat, chunkSize: nat, total: nat, checksum: bool, hash: HashFn)

  function TermsOf(p: Params): Terms
    requires Sane(p)
  {
    Terms(|p.source|, p.chunkSize, Total(p), p.checksum, p.hash)
  }

  predicate Sane(p: Params) {
    p.chunkSize >= 1
  }

  /** `ceil(size / chunkSize)` */
  function Total(p: Params): nat
    requires Sane(p)
  {
    (|p.source| + p.chunkSize - 1) / p.chunkSize
  }

  function Offset(p: Params, q: nat): nat {
    q * p.chunkSize
  }

  function Length(p: Params, q: nat): nat
    requires Sane(p) && q < Total(p)
  {
    OffsetInside(p, q);
    Min(p.chunkSize, |p.source| - Offset(p, q))
  }

  /** The bytes the source returns for chunk `q`. */
  function Chunk(p: Params, q: nat): (c: Bytes)
    requires Sane(p) && q < Total(p)
    ensures |c| == Length(p, q)
  {
    OffsetInside(p, q);
    p.source[Offset(p, q)..Offset(p, q) + Length(p, q)]
  }

  function Chunks(p: Params): seq<Bytes>
    requires Sane(p)
  {
    seq(Total(p), q requires 0 <= q < Total(p) => Chunk(p, q))
  }

  /** The tag of the whole file: what an honest sender announces and an honest receiver computes. */
  function FileTag(p: Params): string
    requires Sane(p)
  {
    Tag(p.hash, DigestsOf(p.hash, Chunks(p)))
  }

  lemma OffsetInside(p: Params, q: nat)
    requires Sane(p)
    ensures q < Total(p) <==> Offset(p, q) < |p.source|
  {
    var n, c := |p.source|, p.chunkSize;
    var t := (n + c - 1) / c;
    assert t * c <= n + c - 1 < t * c + c;
    if q < t {
      assert q * c <= (t - 1) * c == t * c - c;
    } else {
      assert q * c >= t * c;
    }
  }

  /** Distinct chunks occupy disjoint ranges, in order. */
  lemma RangesDisjoint(p: Params, q: nat, r: nat)
    requires Sane(p) && q < r < Total(p)
    ensures Offset(p, q) + Length(p, q) <= Offset(p, r)
  {
    assert (q + 1) * p.chunkSize <= r * p.chunkSize;
    assert (q + 1) * p.chunkSize == q * p.chunkSize + p.chunkSize;
  }

  lemma EndInside(p: Params, q: nat)
    requires Sane(p) && q < Total(p)
    ensures Offset(p, q) + Length(p, q) <= |p.source|
  {
    OffsetInside(p, q);
  }

  /** Whether a buffer of the file's size holds chunk `q` in its place. */
  ghost predicate Holds(p: Params, buffer: Bytes, q: nat)
    requires Sane(p)
  {
    q < Total(p) && |buffer| == |p.source| &&
    (EndInside(p, q); buffer[Offset(p, q)..Offset(p, q) + Length(p, q)] == Chunk(p, q))
  }

  /** The chunks cover the file: a buffer holding all of them is the file. */
  lemma AllChunksMakeTheFile(p: Params, buffer: Bytes)
    requires Sane(p) && |buffer| == |p.source|
    requires forall q: nat :: q < Total(p) ==> Holds(p, buffer, q)
    ensures buffer == p.source
  {
    forall b | 0 <= b < |buffer| ensures buffer[b] == p.source[b] {
      var q := b / p.chunkSize;
      assert q * p.chunkSize <= b < q * p.chunkSize + p.chunkSize;
      OffsetInside(p, q);
      EndInside(p, q);
      assert Holds(p, buffer, q);
      var part := buffer[Offset(p, q)..Offset(p, q) + Length(p, q)];
      assert part[b - Offset(p, q)] == Chunk(p, q)[b - Offset(p, q)];
    }
  }
}
