/**
 A sender, a receiver, FIFO control links in both directions and data channels that deliver an in-order prefix of
 what was put on them. A run is any interleaving of the atomic segments of both sides with deliveries, channel
 losses, user actions and time-outs.
 */
module TransferSystem {
  import opened Common
  import opened TransferBase
  import opened Checksum
  import opened MemorySink
  import Framing
  import S = SendSpec
  import R = ReceiveSpec

  // ---- The receiver facing an honest sender ----

  ghost predicate Transferable(p: Params) {
    Sane(p) && Total(p) <= Framing.UINT32
  }

  ghost predicate HonestFrame(p: Params, frame: Bytes)
    requires Sane(p)
  {
    exists q: nat :: q < Total(p) && frame == Framing.Encode(q, Chunk(p, q))
  }

  ghost predicate Pending(chain: seq<R.Job>, q: nat) {
    exists k :: 0 <= k < |chain| && chain[k].seqNo == q
  }

  ghost predicate IntakeOk(p: Params, b: R.Intake)
    requires Sane(p)
  {
    && (forall k :: 0 <= k < |b.decoding| ==> HonestFrame(p, b.decoding[k]))
    && (forall q :: q in b.accepted ==> q < Total(p) && b.accepted[q] == Chunk(p, q))
    && (forall q :: q in b.digests ==> q < Total(p) && b.digests[q] == p.hash(Chunk(p, q)))
    && ChainOk(p, b)
  }

  ghost predicate ChainOk(p: Params, b: R.Intake)
    requires Sane(p)
  {
    && (forall k :: 0 <= k < |b.chain| ==>
          var job := b.chain[k];
          && job.seqNo in b.accepted && job.bytes == b.accepted[job.seqNo]
          && (k > 0 || !p.checksum ==> job.pc == R.Queued)
          && (job.pc == R.Hashed ==> job.seqNo in b.digests))
    && (forall j, k :: 0 <= j < k < |b.chain| ==> b.chain[j].seqNo != b.chain[k].seqNo)
  }

  /** Until the sink is aborted its buffer has the file's size and holds every accepted chunk that is not pending. */
  ghost predicate StoreOk(p: Params, b: R.Intake, sink: R.Sink)
    requires Sane(p)
  {
    sink.buffer.Some? && sink.aborts == 0 ==>
      && sink.buffer.value.Some? && |sink.buffer.value.value| == |p.source|
      && (forall q :: q in b.accepted && !Pending(b.chain, q) ==>
            Holds(p, sink.buffer.value.value, q) && (p.checksum ==> q in b.digests))
  }

  ghost predicate Full(p: Params, accepted: map<nat, Bytes>)
    requires Sane(p)
  {
    forall q: nat :: q < Total(p) ==> q in accepted
  }

  ghost predicate PhaseOk(p: Params, r: R.Receiver)
    requires Sane(p)
  {
    var c := r.ending.completion;
    && (c != R.NotClaimed ==> r.ending.senderDone && Full(p, r.intake.accepted) && r.sink.buffer.Some?)
    && (c.FinalizingDigest? || c.ClosingSink? || c.Settled? ==> r.intake.chain == [])
    && (c.FinalizingDigest? ==> p.checksum && Full(p, r.intake.digests))
    && (c.FinalizingDigest? && r.sink.aborts == 1 ==> r.sink.buffer == Some(None))
    && (c.ClosingSink? ==> c.bytes == p.source || (c.bytes == [] && Terminal(r.st)))
    && (c.ClosingSink? || c.Settled? || r.sink.closes == 0) && r.sink.closes <= 1
    && (c.ClosingSink? || r.ending.result.Some? ==> r.sink.closes == 1)
    && (r.ending.result.Some? ==> c.Settled? && (r.ending.result.value == p.source || r.ending.result.value == []))
    && (r.ending.senderDone ==> r.ending.expected == if p.checksum then Some(FileTag(p)) else None)
  }

  ghost predicate LifeOk(p: Params, r: R.Receiver)
    requires Sane(p)
  {
    && (r.sink.buffer.None? ==>
          r.intake.accepted == map[] && r.intake.decoding == [] && r.intake.chain == [] && !r.sink.finalized
          && r.sink.aborts == 0)
    && (r.st == Idle || r.st == Offered ==> r.sink.buffer.None?)
    && ((r.st == Failed || r.st == Cancelled) && r.sink.buffer.Some? ==> r.sink.finalized)
    && (r.sink.finalized ==> r.sink.aborts == 1 || r.ending.result.Some?)
    && r.sink.aborts <= 1
    && (r.sink.aborts == 1 ==> (r.st == Failed || r.st == Cancelled) && r.sink.finalized)
    && (r.st == Completing ==> r.ending.completion == R.ClosingSink(p.source))
    && (r.st == Completed ==> r.ending.result == Some(p.source))
  }

  /** What a second `accept` during digest finalization leaves behind. */
  ghost predicate SpoiledOk(r: R.Receiver) {
    r.spoiled ==>
      && r.st == Failed && r.sink.buffer == Some(None) && r.sink.aborts == 1
      && (|| r.ending.completion == R.FinalizingDigest
          || r.ending.completion == R.ClosingSink([])
          || r.ending.completion == R.Settled)
      && (r.ending.result.Some? ==> r.ending.result.value == [])
  }

  /** Messages after which the sender is in a terminal state. */
  predicate Killer(m: Control) {
    m.Reject? || m.Cancel? || m.ChecksumMismatch?
  }

  ghost predicate KilledBefore(out: seq<Control>, n: nat) {
    exists j :: 0 <= j < n && j < |out| && Killer(out[j])
  }

  /** A wrong close, or one about to happen, is known to the sender unless it was spoiled. */
  ghost predicate PoisonOk(p: Params, r: R.Receiver, dead: bool) {
    var c := r.ending.completion;
    (c.FinalizingDigest? && Terminal(r.st)) || (c.ClosingSink? && c.bytes != p.source) ==>
      r.spoiled || dead || KilledBefore(r.out, |r.out|)
  }

  ghost predicate CompleteOk(p: Params, r: R.Receiver, dead: bool) {
    forall k :: 0 <= k < |r.out| && r.out[k].Complete? ==>
      r.ending.result.Some? && (r.ending.result.value == p.source || r.spoiled || dead || KilledBefore(r.out, k))
  }

  ghost predicate OutOk(p: Params, r: R.Receiver, dead: bool) {
    && PoisonOk(p, r, dead)
    && CompleteOk(p, r, dead)
    && (forall k :: 0 <= k < |r.out| ==> !r.out[k].ChecksumMismatch?)
  }

  /** `dead` says that the sender is in a terminal state. */
  ghost predicate ReceiverOk(p: Params, r: R.Receiver, dead: bool)
    requires Sane(p)
  {
    && IntakeOk(p, r.intake) && StoreOk(p, r.intake, r.sink)
    && PhaseOk(p, r) && LifeOk(p, r) && SpoiledOk(r) && OutOk(p, r, dead)
  }

  // ---- Steps of the receiver ----

  lemma KilledAppend(out: seq<Control>, m: Control)
    ensures forall n: nat :: n <= |out| && KilledBefore(out, n) ==> KilledBefore(out + [m], n)
    ensures KilledBefore(out, |out|) || Killer(m) ==> KilledBefore(out + [m], |out + [m]|)
  {
    forall n: nat | n <= |out| && KilledBefore(out, n) ensures KilledBefore(out + [m], n) {
      var j :| 0 <= j < n && j < |out| && Killer(out[j]);
      assert (out + [m])[j] == out[j];
    }
    if Killer(m) {
      assert (out + [m])[|out|] == m;
    } else if KilledBefore(out, |out|) {
      var j :| 0 <= j < |out| && Killer(out[j]);
      assert (out + [m])[j] == out[j];
    }
  }

  /** Saying anything but Complete or ChecksumMismatch. */
  lemma SayKeeps(p: Params, r: R.Receiver, m: Control, dead: bool)
    requires Sane(p) && ReceiverOk(p, r, dead) && !m.Complete? && !m.ChecksumMismatch?
    ensures ReceiverOk(p, R.Say(r, m), dead)
    ensures Killer(m) ==> KilledBefore(R.Say(r, m).out, |R.Say(r, m).out|)
  {
    KilledAppend(r.out, m);
  }

  /** Moves to a non-terminal state other than Completing. */
  lemma MoveKeeps(p: Params, r: R.Receiver, next: TransferState, dead: bool)
    requires Sane(p) && ReceiverOk(p, r, dead)
    requires next == Active || next == Paused || (next == Accepted && r.sink.buffer.Some?)
    ensures ReceiverOk(p, R.Enter(r, next), dead)
  {
  }

  /** Failing or cancelling is fine once the sender will know, or when no digest is being finalized. */
  lemma KillKeeps(p: Params, r: R.Receiver, next: TransferState, dead: bool)
    requires Sane(p) && ReceiverOk(p, r, dead)
    requires next == Failed || next == Cancelled
    requires dead || KilledBefore(r.out, |r.out|) || r.ending.completion != R.FinalizingDigest
    ensures ReceiverOk(p, R.Enter(r, next), dead)
  {
  }

  lemma FailNotifyingKeeps(p: Params, r: R.Receiver, dead: bool)
    requires Sane(p) && ReceiverOk(p, r, dead)
    ensures ReceiverOk(p, R.Fail(r, true), dead)
  {
    if !Terminal(r.st) {
      SayKeeps(p, r, Cancel, dead);
      KillKeeps(p, R.Say(r, Cancel), Failed, dead);
      assert R.Fail(r, true) == R.Enter(R.Say(r, Cancel), Failed);
    }
  }

  lemma AcceptKeeps(p: Params, r: R.Receiver, dead: bool)
    requires Sane(p) && ReceiverOk(p, r, dead)
    ensures ReceiverOk(p, R.UserAccept(TermsOf(p), r), dead)
  {
    if r.st == Offered {
      assert r.intake.accepted == map[];
    } else if r.st != Idle && !Terminal(r.st) && r.ending.completion != R.FinalizingDigest {
      KillKeeps(p, r, Failed, dead);
    }
  }

  lemma UserKeeps(p: Params, r: R.Receiver, dead: bool)
    requires Sane(p) && ReceiverOk(p, r, dead)
    ensures ReceiverOk(p, R.UserPause(r), dead) && ReceiverOk(p, R.UserResume(r), dead)
    ensures ReceiverOk(p, R.UserCancel(r), dead) && ReceiverOk(p, R.UserReject(r), dead)
  {
    MoveKeeps(p, r, Paused, dead);
    MoveKeeps(p, r, Active, dead);
    SayKeeps(p, R.Enter(r, Paused), Pause, dead);
    SayKeeps(p, R.Enter(r, Active), Resume, dead);
    SayKeeps(p, r, Cancel, dead);
    KillKeeps(p, R.Say(r, Cancel), Cancelled, dead);
    SayKeeps(p, r, Reject, dead);
    KillKeeps(p, R.Say(r, Reject), Cancelled, dead);
  }

  lemma OpenKeeps(p: Params, r: R.Receiver, dead: bool)
    requires Sane(p) && ReceiverOk(p, r, dead)
    ensures ReceiverOk(p, R.SinkOpened(r), dead) && ReceiverOk(p, R.SinkOpenFails(r), dead)
  {
    var r' := r.(sink := r.sink.(opening := false));
    assert ReceiverOk(p, r', dead);
    MoveKeeps(p, r', Active, dead);
    SayKeeps(p, R.Enter(r', Active), Accept(r.intake.accepted.Keys), dead);
    FailNotifyingKeeps(p, r', dead);
  }

  /** The first `n` numbers. */
  function Below(n: nat): (r: set<nat>)
    ensures |r| == n && forall i: nat :: i in r <==> i < n
  {
    if n == 0 then {}
    else
      var r := Below(n - 1);
      assert n - 1 !in r;
      r + {n - 1}
  }

  lemma AllAcceptedIsFull(p: Params, accepted: map<nat, Bytes>)
    requires Sane(p) && |accepted| >= Total(p) && forall q :: q in accepted ==> q < Total(p)
    ensures Full(p, accepted)
  {
    SubsetSize(accepted.Keys, Below(Total(p)));
  }

  lemma {:induction false} SubsetSize(a: set<nat>, b: set<nat>)
    requires a <= b
    ensures |a| <= |b| && (|a| == |b| ==> a == b)
  {
    if a != {} {
      var x :| x in a;
      SubsetSize(a - {x}, b - {x});
    }
  }

  lemma TryCompleteKeeps(p: Params, r: R.Receiver, dead: bool)
    requires Sane(p) && ReceiverOk(p, r, dead)
    ensures ReceiverOk(p, R.TryComplete(TermsOf(p), r), dead)
  {
    if |r.intake.accepted| >= Total(p) {
      AllAcceptedIsFull(p, r.intake.accepted);
    }
  }

  lemma ControlKeeps(p: Params, r: R.Receiver, m: Control, acceptable: bool, dead: bool)
    requires Sane(p) && ReceiverOk(p, r, dead)
    requires m.Sent? ==> m.digest == if p.checksum then Some(FileTag(p)) else None
    requires m.Cancel? ==> dead
    ensures ReceiverOk(p, R.HandleControl(TermsOf(p), r, m, acceptable), dead)
  {
    if m.Offer? {
      SayKeeps(p, r, Reject, dead);
      SayKeeps(p, r, ResumeRequest(r.intake.accepted.Keys), dead);
    } else if m.Sent? && r.st != Idle && !Terminal(r.st) {
      var r' := r.(ending := r.ending.(senderDone := true, expected := m.digest));
      assert ReceiverOk(p, r', dead);
      TryCompleteKeeps(p, r', dead);
    } else if m.Cancel? {
      KillKeeps(p, r, Cancelled, dead);
    }
  }

  lemma HonestFrameDecodes(p: Params, frame: Bytes) returns (q: nat)
    requires Transferable(p) && HonestFrame(p, frame)
    ensures q < Total(p) && Framing.Decode(frame) == Framing.Frame(q, Chunk(p, q))
    ensures R.FrameFits(TermsOf(p), q, Chunk(p, q))
  {
    q :| q < Total(p) && frame == Framing.Encode(q, Chunk(p, q));
    HonestDecode(p, q);
    ChunkFits(p, q);
  }

  lemma HonestDecode(p: Params, q: nat)
    requires Transferable(p) && q < Total(p)
    ensures Framing.Decode(Framing.Encode(q, Chunk(p, q))) == Framing.Frame(q, Chunk(p, q))
  {
    Framing.SeqSurvivesIff(q, Chunk(p, q));
  }

  lemma ChunkFits(p: Params, q: nat)
    requires Transferable(p) && q < Total(p)
    ensures R.FrameFits(TermsOf(p), q, Chunk(p, q))
  {
    EndInside(p, q);
  }

  lemma PendingAppend(chain: seq<R.Job>, job: R.Job, q: nat)
    ensures Pending(chain + [job], q) <==> Pending(chain, q) || job.seqNo == q
  {
    if Pending(chain, q) {
      var k :| 0 <= k < |chain| && chain[k].seqNo == q;
      assert (chain + [job])[k].seqNo == q;
    }
    if job.seqNo == q {
      assert (chain + [job])[|chain|].seqNo == q;
    }
  }

  lemma AcceptChunkKeeps(p: Params, r: R.Receiver, q: nat, dead: bool)
    requires Sane(p) && ReceiverOk(p, r, dead) && q < Total(p) && q !in r.intake.accepted && r.sink.buffer.Some?
    ensures ReceiverOk(p, r.(intake := R.AcceptChunk(r.intake, q, Chunk(p, q))), dead)
  {
    var b, b' := r.intake, R.AcceptChunk(r.intake, q, Chunk(p, q));
    forall c ensures Pending(b'.chain, c) <==> Pending(b.chain, c) || c == q {
      PendingAppend(b.chain, R.Job(q, Chunk(p, q), R.Queued), c);
    }
    assert r.ending.completion == R.NotClaimed;
  }

  lemma FrameKeeps(p: Params, r: R.Receiver, frame: Bytes, dead: bool)
    requires Sane(p) && ReceiverOk(p, r, dead) && HonestFrame(p, frame)
    ensures ReceiverOk(p, R.FrameArrives(r, frame), dead)
  {
  }

  lemma DecodedKeeps(p: Params, r: R.Receiver, j: nat, dead: bool)
    requires Transferable(p) && ReceiverOk(p, r, dead) && j < |r.intake.decoding|
    ensures ReceiverOk(p, R.FrameDecoded(TermsOf(p), r, j), dead)
  {
    var q := HonestFrameDecodes(p, r.intake.decoding[j]);
    var r' := r.(intake := r.intake.(decoding := R.Without(r.intake.decoding, j)));
    assert ReceiverOk(p, r', dead);
    if q !in r.intake.accepted {
      AcceptChunkKeeps(p, r', q, dead);
      TryCompleteKeeps(p, r'.(intake := R.AcceptChunk(r'.intake, q, Chunk(p, q))), dead);
    }
  }

  // ---- The write chain ----

  lemma PendingTail(chain: seq<R.Job>, q: nat)
    requires chain != []
    ensures Pending(chain, q) <==> chain[0].seqNo == q || Pending(chain[1..], q)
  {
    if Pending(chain, q) && chain[0].seqNo != q {
      var k :| 0 <= k < |chain| && chain[k].seqNo == q;
      assert chain[1..][k - 1].seqNo == q;
    }
    if Pending(chain[1..], q) {
      var k :| 0 <= k < |chain[1..]| && chain[1..][k].seqNo == q;
      assert chain[k + 1].seqNo == q;
    }
  }

  /** Dropping the head is harmless once the sink was aborted. */
  lemma PopKeeps(p: Params, r: R.Receiver, dead: bool)
    requires Sane(p) && ReceiverOk(p, r, dead) && r.intake.chain != [] && r.sink.aborts == 1
    ensures ReceiverOk(p, r.(intake := R.Popped(r.intake)), dead)
  {
  }

  lemma RangesApart(p: Params, q: nat, c: nat)
    requires Sane(p) && q < Total(p) && c < Total(p) && c != q
    ensures Offset(p, c) + Length(p, c) <= Offset(p, q) || Offset(p, q) + Length(p, q) <= Offset(p, c)
  {
    if c < q {
      RangesDisjoint(p, c, q);
    } else {
      RangesDisjoint(p, q, c);
    }
  }

  lemma WriteStoresChunk(p: Params, buffer: Bytes, q: nat)
    requires Sane(p) && |buffer| == |p.source| && q < Total(p)
    ensures Holds(p, Written(Some(buffer), Offset(p, q), Chunk(p, q)), q)
  {
    EndInside(p, q);
    WriteStoresAndFrames(buffer, Offset(p, q), Chunk(p, q), 0, 0);
  }

  lemma WriteKeepsChunk(p: Params, buffer: Bytes, q: nat, c: nat)
    requires Sane(p) && |buffer| == |p.source| && q < Total(p)
    requires c == q || Holds(p, buffer, c)
    ensures Holds(p, Written(Some(buffer), Offset(p, q), Chunk(p, q)), c)
  {
    if c == q {
      WriteStoresChunk(p, buffer, q);
    } else {
      EndInside(p, q);
      EndInside(p, c);
      RangesApart(p, q, c);
      WriteStoresAndFrames(buffer, Offset(p, q), Chunk(p, q), Offset(p, c), Offset(p, c) + Length(p, c));
    }
  }

  lemma StoreKeepsIntake(p: Params, b: R.Intake)
    requires Sane(p) && IntakeOk(p, b) && b.chain != []
    ensures IntakeOk(p, R.Popped(b))
  {
  }

  lemma StoreKeepsStore(p: Params, b: R.Intake, sink: R.Sink)
    requires Sane(p) && IntakeOk(p, b) && StoreOk(p, b, sink) && b.chain != [] && sink.buffer.Some?
    requires p.checksum ==> b.chain[0].pc == R.Hashed
    ensures var job := b.chain[0];
            var written := Written(sink.buffer.value, Offset(p, job.seqNo), job.bytes);
            StoreOk(p, R.Popped(b), sink.(buffer := Some(Some(written))))
  {
    if sink.aborts == 0 {
      var job, buffer := b.chain[0], sink.buffer.value.value;
      var q := job.seqNo;
      EndInside(p, q);
      WriteStoresAndFrames(buffer, Offset(p, q), Chunk(p, q), 0, 0);
      forall c | c in b.accepted && !Pending(b.chain[1..], c)
        ensures Holds(p, Written(Some(buffer), Offset(p, q), job.bytes), c) && (p.checksum ==> c in b.digests)
      {
        PendingTail(b.chain, c);
        WriteKeepsChunk(p, buffer, q, c);
      }
    }
  }

  lemma StoredKeeps(p: Params, r: R.Receiver, dead: bool)
    requires Sane(p) && ReceiverOk(p, r, dead) && r.intake.chain != [] && r.sink.buffer.Some?
    requires p.checksum ==> r.intake.chain[0].pc == R.Hashed
    ensures ReceiverOk(p, R.Stored(TermsOf(p), r), dead)
  {
    StoreKeepsIntake(p, r.intake);
    StoreKeepsStore(p, r.intake, r.sink);
  }

  lemma JobStartsKeeps(p: Params, r: R.Receiver, dead: bool)
    requires Sane(p) && ReceiverOk(p, r, dead)
    ensures ReceiverOk(p, R.JobStarts(TermsOf(p), r), dead)
  {
    var chain := r.intake.chain;
    if chain != [] && chain[0].pc == R.Queued && r.sink.buffer.Some? {
      if Terminal(r.st) {
        PopKeeps(p, r, dead);
      } else if p.checksum {
        HeadMoves(p, r, R.Hashing, dead);
      } else {
        StoredKeeps(p, r, dead);
      }
    }
  }

  function WithHead(b: R.Intake, pc: R.JobPc): R.Intake
    requires b.chain != []
  {
    b.(chain := b.chain[0 := b.chain[0].(pc := pc)])
  }

  lemma HeadMovesStore(p: Params, b: R.Intake, sink: R.Sink, pc: R.JobPc)
    requires Sane(p) && StoreOk(p, b, sink) && b.chain != []
    ensures StoreOk(p, WithHead(b, pc), sink)
  {
    var chain' := WithHead(b, pc).chain;
    assert chain'[1..] == b.chain[1..];
    forall q | !Pending(chain', q) ensures !Pending(b.chain, q) {
      PendingTail(b.chain, q);
      PendingTail(chain', q);
    }
  }

  lemma HeadMovesIntake(p: Params, b: R.Intake, pc: R.JobPc)
    requires Sane(p) && IntakeOk(p, b) && b.chain != [] && p.checksum
    requires pc == R.Hashed ==> b.chain[0].seqNo in b.digests
    ensures IntakeOk(p, WithHead(b, pc))
  {
  }

  lemma HeadMoves(p: Params, r: R.Receiver, pc: R.JobPc, dead: bool)
    requires Sane(p) && ReceiverOk(p, r, dead) && r.intake.chain != [] && p.checksum
    requires pc == R.Hashed ==> r.intake.chain[0].seqNo in r.intake.digests
    ensures ReceiverOk(p, r.(intake := WithHead(r.intake, pc)), dead)
  {
    HeadMovesStore(p, r.intake, r.sink, pc);
    HeadMovesIntake(p, r.intake, pc);
  }

  lemma JobHashedKeeps(p: Params, r: R.Receiver, dead: bool)
    requires Sane(p) && ReceiverOk(p, r, dead)
    ensures ReceiverOk(p, R.JobHashed(TermsOf(p), r), dead)
  {
    var chain := r.intake.chain;
    if chain != [] && chain[0].pc == R.Hashing {
      var job := chain[0];
      var r' := r.(intake := r.intake.(digests := r.intake.digests[job.seqNo := p.hash(job.bytes)]));
      assert ReceiverOk(p, r', dead);
      HeadMoves(p, r', R.Hashed, dead);
    }
  }

  lemma JobWrittenKeeps(p: Params, r: R.Receiver, dead: bool)
    requires Sane(p) && ReceiverOk(p, r, dead)
    ensures ReceiverOk(p, R.JobWritten(TermsOf(p), r), dead)
  {
    if r.intake.chain != [] && r.intake.chain[0].pc == R.Hashed && r.sink.buffer.Some? {
      StoredKeeps(p, r, dead);
    }
  }

  lemma JobFailsKeeps(p: Params, r: R.Receiver, dead: bool)
    requires Sane(p) && ReceiverOk(p, r, dead)
    ensures ReceiverOk(p, R.JobFails(TermsOf(p), r), dead)
  {
    var chain := r.intake.chain;
    if !(chain == [] || (chain[0].pc == R.Queued && (p.checksum || Terminal(r.st)))) {
      var failed := R.Fail(r, true);
      FailNotifyingKeeps(p, r, dead);
      assert failed.sink.aborts == 1 && failed.intake == r.intake;
      PopKeeps(p, failed, dead);
      assert R.JobFails(TermsOf(p), r) == failed.(intake := R.Popped(failed.intake));
    }
  }

  // ---- Completion ----

  /** With every chunk accepted and written, and the sink not aborted, closing it yields the file. */
  lemma DrainedStoreIsTheFile(p: Params, r: R.Receiver)
    requires Sane(p) && StoreOk(p, r.intake, r.sink) && r.sink.buffer.Some? && r.sink.aborts == 0
    requires r.intake.chain == [] && Full(p, r.intake.accepted)
    ensures r.sink.buffer == Some(Some(p.source)) && (p.checksum ==> Full(p, r.intake.digests))
  {
    forall q: nat | q < Total(p)
      ensures Holds(p, r.sink.buffer.value.value, q) && (p.checksum ==> q in r.intake.digests)
    {
      assert q in r.intake.accepted && !Pending([], q);
    }
    AllChunksMakeTheFile(p, r.sink.buffer.value.value);
  }

  lemma WritesDoneKeeps(p: Params, r: R.Receiver, dead: bool)
    requires Sane(p) && ReceiverOk(p, r, dead)
    ensures ReceiverOk(p, R.WritesDone(TermsOf(p), r), dead)
  {
    if r.ending.completion == R.WaitingForWrites && r.intake.chain == [] && !Terminal(r.st) {
      DrainedStoreIsTheFile(p, r);
    }
  }

  /** The tags agree: a mismatch is never reported. */
  lemma HonestDigestMatches(p: Params, r: R.Receiver, dead: bool)
    requires Sane(p) && ReceiverOk(p, r, dead) && r.ending.completion == R.FinalizingDigest
    ensures Some(Tag(p.hash, r.intake.digests)) == r.ending.expected
  {
    assert r.intake.digests == DigestsOf(p.hash, Chunks(p));
  }

  lemma FinalizedKeeps(p: Params, r: R.Receiver, dead: bool)
    requires Sane(p) && ReceiverOk(p, r, dead)
    ensures ReceiverOk(p, R.DigestFinalized(r, Tag(p.hash, r.intake.digests)), dead)
  {
    if r.ending.completion == R.FinalizingDigest {
      HonestDigestMatches(p, r, dead);
      CloseKeeps(p, r, dead);
    }
  }

  lemma CloseKeeps(p: Params, r: R.Receiver, dead: bool)
    requires Sane(p) && ReceiverOk(p, r, dead) && r.ending.completion == R.FinalizingDigest
    ensures ReceiverOk(p, R.CloseSink(r), dead)
  {
    if r.sink.aborts == 0 {
      DrainedStoreIsTheFile(p, r);
    }
  }

  lemma ClosedKeeps(p: Params, r: R.Receiver, dead: bool)
    requires Sane(p) && ReceiverOk(p, r, dead)
    ensures ReceiverOk(p, R.SinkClosed(r), dead)
  {
    if r.ending.completion.ClosingSink? {
      KilledAppend(r.out, Complete);
    }
  }

  lemma FinalizeFailsKeeps(p: Params, r: R.Receiver, dead: bool)
    requires Sane(p) && ReceiverOk(p, r, dead)
    ensures ReceiverOk(p, R.FinalizeFails(r), dead)
  {
  }

  lemma CloseFailsKeeps(p: Params, r: R.Receiver, dead: bool)
    requires Sane(p) && ReceiverOk(p, r, dead)
    ensures ReceiverOk(p, R.SinkCloseFails(r), dead)
  {
    if r.ending.completion.ClosingSink? {
      if Terminal(r.st) {
      } else {
        SayKeeps(p, r, Cancel, dead);
        KillKeeps(p, R.Say(r, Cancel), Failed, dead);
        var failed := R.Enter(R.Say(r, Cancel), Failed);
        assert R.SinkCloseFails(r) == R.At(failed, R.Settled);
      }
    }
  }

  lemma ReceiverKeeps(p: Params, r: R.Receiver, step: R.ReceiverStep, dead: bool)
    requires Transferable(p) && ReceiverOk(p, r, dead)
    requires !step.ControlStep? && !step.FrameStep?
    ensures ReceiverOk(p, R.Apply(TermsOf(p), r, step), dead)
  {
    match step {
      case AcceptStep => AcceptKeeps(p, r, dead);
      case DecodedStep(j) =>
        if j < |r.intake.decoding| {
          DecodedKeeps(p, r, j, dead);
        }
      case OpenedStep => OpenKeeps(p, r, dead);
      case OpenFailsStep => OpenKeeps(p, r, dead);
      case JobStartsStep => JobStartsKeeps(p, r, dead);
      case JobHashedStep => JobHashedKeeps(p, r, dead);
      case JobWrittenStep => JobWrittenKeeps(p, r, dead);
      case JobFailsStep => JobFailsKeeps(p, r, dead);
      case WritesDoneStep => WritesDoneKeeps(p, r, dead);
      case FinalizedStep => FinalizedKeeps(p, r, dead);
      case FinalizeFailsStep => FinalizeFailsKeeps(p, r, dead);
      case ClosedStep => ClosedKeeps(p, r, dead);
      case CloseFailsStep => CloseFailsKeeps(p, r, dead);
      case _ => UserKeeps(p, r, dead);
    }
  }

  // ---- Both sides and the links between them ----

  /** `toR` and `toS` count the control messages delivered so far; `wire` holds each channel's undelivered frames. */
  datatype System = System(s: S.Sender, r: R.Receiver, toR: nat, toS: nat, open: set<nat>, wire: map<nat, seq<Bytes>>)

  function Initial(channels: seq<nat>): System {
    System(S.NewSender(channels), R.NewReceiver(), 0, 0, {}, map[])
  }

  datatype Step =
    | SenderActs(ss: S.SenderStep)
    | ReceiverActs(rs: R.ReceiverStep)
    | ToReceiver(acceptable: bool)
    | ToSender
    | DataArrives(channel: nat)
    | ChannelOpens(channel: nat)
    | ChannelLost(channel: nat)

  function OnWire(wire: map<nat, seq<Bytes>>, channel: nat): seq<Bytes> {
    if channel in wire then wire[channel] else []
  }

  /** The channel a worker sends on. */
  function Lane(s: S.Sender, g: nat, i: nat): nat
    requires S.At(s, g, i)
  {
    var lanes := s.runs[g].lanes;
    if i < |lanes| then lanes[i] else 0
  }

  /** A worker finds its channel open or not when its drain resolves; what it sends goes on that channel. */
  function Drain(p: Params, y: System, g: nat, i: nat): System
    requires Sane(p) && S.At(y.s, g, i)
  {
    var lane := Lane(y.s, g, i);
    var open := lane in y.open;
    var s' := S.Drained(p, y.s, g, i, open);
    if S.Sends(p, y.s, g, i, open)
    then y.(s := s', wire := y.wire[lane := OnWire(y.wire, lane) + [S.FrameOf(p, y.s, g, i)]])
    else y.(s := s')
  }

  function Apply(p: Params, y: System, step: Step): System
    requires Sane(p)
  {
    match step
    case SenderActs(ss) =>
      if ss.ControlStep? || !S.Possible(y.s, ss) then y
      else if ss.DrainedStep? then Drain(p, y, ss.g, ss.i)
      else y.(s := S.Apply(p, y.s, ss))
    case ReceiverActs(rs) =>
      if rs.ControlStep? || rs.FrameStep? then y else y.(r := R.Apply(TermsOf(p), y.r, rs))
    case ToReceiver(acceptable) =>
      if y.toR >= |y.s.out| then y
      else y.(r := R.HandleControl(TermsOf(p), y.r, y.s.out[y.toR], acceptable), toR := y.toR + 1)
    case ToSender =>
      if y.toS >= |y.r.out| then y
      else y.(s := S.HandleControl(p, y.s, y.r.out[y.toS]), toS := y.toS + 1)
    case DataArrives(c) =>
      if OnWire(y.wire, c) == [] then y
      else y.(r := R.FrameArrives(y.r, y.wire[c][0]), wire := y.wire[c := y.wire[c][1..]])
    case ChannelOpens(c) => y.(open := y.open + {c})
    case ChannelLost(c) => y.(open := y.open - {c}, wire := y.wire - {c})
  }

  function Execute(p: Params, y: System, steps: seq<Step>): System
    requires Sane(p)
    decreases |steps|
  {
    if steps == [] then y else Execute(p, Apply(p, y, steps[0]), steps[1..])
  }

  // ---- The invariant of the whole ----

  ghost predicate WireOk(p: Params, wire: map<nat, seq<Bytes>>)
    requires Sane(p)
  {
    forall c, k :: c in wire && 0 <= k < |wire[c]| ==> HonestFrame(p, wire[c][k])
  }

  ghost predicate SystemOk(p: Params, y: System)
    requires Sane(p)
  {
    && S.SenderOk(p, y.s)
    && ReceiverOk(p, y.r, Terminal(y.s.st))
    && WireOk(p, y.wire)
    && y.toS <= |y.r.out|
    && (forall k :: 0 <= k < y.toS && Killer(y.r.out[k]) ==> Terminal(y.s.st))
    && (y.s.st == Completed ==>
          y.r.ending.result.Some? && (y.r.ending.result.value == p.source || y.r.spoiled))
  }

  lemma InitialOk(p: Params, channels: seq<nat>)
    requires Transferable(p) && |channels| >= 1
    ensures SystemOk(p, Initial(channels))
  {
  }

  /** A sender that ends only weakens what the receiver still owes it. */
  lemma DeadWeakens(p: Params, r: R.Receiver, dead: bool, dead': bool)
    requires Sane(p) && ReceiverOk(p, r, dead) && (dead ==> dead')
    ensures ReceiverOk(p, r, dead')
  {
  }

  /** No segment leaves a terminal state, and only an incoming Complete reaches Completed. */
  lemma SenderStates(p: Params, s: S.Sender, ss: S.SenderStep)
    requires Sane(p) && S.Possible(s, ss)
    ensures Terminal(s.st) ==> S.Apply(p, s, ss).st == s.st
    ensures !ss.ControlStep? && S.Apply(p, s, ss).st == Completed ==> s.st == Completed
  {
    if ss.DrainedStep? || ss.ThrowStep? || ss.OpenedStep? || ss.GateStep? || ss.ReadStep? || ss.HashedStep? {
    } else if S.RunEndStep(ss) {
    } else if ss.ControlStep? {
      SenderControlStates(p, s, ss.m);
    }
  }

  lemma SenderControlStates(p: Params, s: S.Sender, m: Control)
    requires Sane(p)
    ensures Terminal(s.st) ==> S.HandleControl(p, s, m).st == s.st
    ensures S.HandleControl(p, s, m).st == Completed ==> s.st == Completed || (m.Complete? && !Terminal(s.st))
    ensures Killer(m) ==> Terminal(S.HandleControl(p, s, m).st)
  {
  }

  /** Messages are never retracted, a result never changes, a spoiled transfer stays spoiled. */
  ghost predicate Later(r: R.Receiver, r': R.Receiver) {
    && r.out <= r'.out
    && (r.spoiled ==> r'.spoiled)
    && (r.ending.result.Some? ==> r'.ending.result == r.ending.result)
  }

  lemma UserLater(t: Terms, r: R.Receiver)
    ensures Later(r, R.UserAccept(t, r)) && Later(r, R.UserReject(r)) && Later(r, R.UserPause(r))
    ensures Later(r, R.UserResume(r)) && Later(r, R.UserCancel(r))
  {
  }

  lemma ArrivalLater(t: Terms, r: R.Receiver, m: Control, acceptable: bool, frame: Bytes)
    ensures Later(r, R.HandleControl(t, r, m, acceptable)) && Later(r, R.FrameArrives(r, frame))
    ensures Later(r, R.SinkOpened(r)) && Later(r, R.SinkOpenFails(r))
  {
  }

  lemma WritingLater(t: Terms, r: R.Receiver)
    ensures Later(r, R.JobStarts(t, r)) && Later(r, R.JobHashed(t, r)) && Later(r, R.JobWritten(t, r))
    ensures Later(r, R.JobFails(t, r))
  {
  }

  lemma ClosingLater(p: Params, r: R.Receiver, local: string, dead: bool)
    requires Sane(p) && ReceiverOk(p, r, dead)
    ensures Later(r, R.WritesDone(TermsOf(p), r)) && Later(r, R.DigestFinalized(r, local))
    ensures Later(r, R.SinkClosed(r)) && Later(r, R.SinkCloseFails(r)) && Later(r, R.FinalizeFails(r))
  {
  }

  lemma ReceiverLater(p: Params, r: R.Receiver, step: R.ReceiverStep, dead: bool)
    requires Sane(p) && ReceiverOk(p, r, dead) && !step.ControlStep? && !step.FrameStep?
    ensures Later(r, R.Apply(TermsOf(p), r, step))
  {
    var t := TermsOf(p);
    match step {
      case DecodedStep(j) =>
      case OpenedStep => ArrivalLater(t, r, Offer, true, []);
      case OpenFailsStep => ArrivalLater(t, r, Offer, true, []);
      case JobStartsStep => WritingLater(t, r);
      case JobHashedStep => WritingLater(t, r);
      case JobWrittenStep => WritingLater(t, r);
      case JobFailsStep => WritingLater(t, r);
      case WritesDoneStep => ClosingLater(p, r, "", dead);
      case FinalizedStep => ClosingLater(p, r, Tag(t.hash, r.intake.digests), dead);
      case ClosedStep => ClosingLater(p, r, "", dead);
      case CloseFailsStep => ClosingLater(p, r, "", dead);
      case FinalizeFailsStep => ClosingLater(p, r, "", dead);
      case _ => UserLater(t, r);
    }
  }

  /** A change of the receiver that the sender has not heard of yet. */
  lemma ReceiverSideKeeps(p: Params, y: System, r': R.Receiver, wire': map<nat, seq<Bytes>>, toR': nat)
    requires Sane(p) && SystemOk(p, y) && ReceiverOk(p, r', Terminal(y.s.st)) && Later(y.r, r') && WireOk(p, wire')
    ensures SystemOk(p, y.(r := r', wire := wire', toR := toR'))
  {
  }

  lemma DrainKeeps(p: Params, y: System, g: nat, i: nat)
    requires Sane(p) && SystemOk(p, y) && S.At(y.s, g, i)
    ensures SystemOk(p, Drain(p, y, g, i))
  {
    var lane := Lane(y.s, g, i);
    var ss := S.DrainedStep(g, i, lane in y.open);
    var y' := Drain(p, y, g, i);
    S.DrainedKeeps(p, y.s, g, i, lane in y.open);
    assert y'.s.st == y.s.st;
    assert WireOk(p, y'.wire);
  }

  lemma SenderSideKeeps(p: Params, y: System, ss: S.SenderStep)
    requires Sane(p) && SystemOk(p, y) && !ss.ControlStep? && S.Possible(y.s, ss)
    ensures SystemOk(p, y.(s := S.Apply(p, y.s, ss)))
  {
    S.SenderKeeps(p, y.s, ss);
    SenderStates(p, y.s, ss);
    DeadWeakens(p, y.r, Terminal(y.s.st), Terminal(S.Apply(p, y.s, ss).st));
  }

  lemma ToSenderKeeps(p: Params, y: System)
    requires Sane(p) && SystemOk(p, y) && y.toS < |y.r.out|
    ensures SystemOk(p, y.(s := S.HandleControl(p, y.s, y.r.out[y.toS]), toS := y.toS + 1))
  {
    var m := y.r.out[y.toS];
    S.ControlStepKeeps(p, y.s, m);
    SenderControlStates(p, y.s, m);
    DeadWeakens(p, y.r, Terminal(y.s.st), Terminal(S.HandleControl(p, y.s, m).st));
  }

  lemma ToReceiverKeeps(p: Params, y: System, acceptable: bool)
    requires Sane(p) && SystemOk(p, y) && y.toR < |y.s.out|
    ensures SystemOk(p, Apply(p, y, ToReceiver(acceptable)))
  {
    var m := y.s.out[y.toR];
    assert S.MessageOk(p, y.s.st, m);
    ControlKeeps(p, y.r, m, acceptable, Terminal(y.s.st));
    ArrivalLater(TermsOf(p), y.r, m, acceptable, []);
    ReceiverSideKeeps(p, y, R.HandleControl(TermsOf(p), y.r, m, acceptable), y.wire, y.toR + 1);
  }

  lemma DataKeeps(p: Params, y: System, c: nat)
    requires Sane(p) && SystemOk(p, y) && OnWire(y.wire, c) != []
    ensures SystemOk(p, Apply(p, y, DataArrives(c)))
  {
    var frame := y.wire[c][0];
    FrameKeeps(p, y.r, frame, Terminal(y.s.st));
    ArrivalLater(TermsOf(p), y.r, Offer, true, frame);
    ReceiverSideKeeps(p, y, R.FrameArrives(y.r, frame), y.wire[c := y.wire[c][1..]], y.toR);
  }

  lemma ReceiverActsKeeps(p: Params, y: System, rs: R.ReceiverStep)
    requires Transferable(p) && SystemOk(p, y) && !rs.ControlStep? && !rs.FrameStep?
    ensures SystemOk(p, y.(r := R.Apply(TermsOf(p), y.r, rs)))
  {
    ReceiverKeeps(p, y.r, rs, Terminal(y.s.st));
    ReceiverLater(p, y.r, rs, Terminal(y.s.st));
    ReceiverSideKeeps(p, y, R.Apply(TermsOf(p), y.r, rs), y.wire, y.toR);
  }

  lemma SystemKeeps(p: Params, y: System, step: Step)
    requires Transferable(p) && SystemOk(p, y)
    ensures SystemOk(p, Apply(p, y, step))
  {
    match step {
      case SenderActs(ss) =>
        if !ss.ControlStep? && S.Possible(y.s, ss) {
          if ss.DrainedStep? {
            DrainKeeps(p, y, ss.g, ss.i);
          } else {
            SenderSideKeeps(p, y, ss);
          }
        }
      case ReceiverActs(rs) =>
        if !rs.ControlStep? && !rs.FrameStep? {
          ReceiverActsKeeps(p, y, rs);
        }
      case ToReceiver(acceptable) =>
        if y.toR < |y.s.out| {
          ToReceiverKeeps(p, y, acceptable);
        }
      case ToSender =>
        if y.toS < |y.r.out| {
          ToSenderKeeps(p, y);
        }
      case DataArrives(c) =>
        if OnWire(y.wire, c) != [] {
          DataKeeps(p, y, c);
        }
      case ChannelOpens(c) =>
      case ChannelLost(c) =>
    }
  }

  lemma {:induction false} ExecuteKeeps(p: Params, y: System, steps: seq<Step>)
    requires Transferable(p) && SystemOk(p, y)
    ensures SystemOk(p, Execute(p, y, steps))
    decreases |steps|
  {
    if steps != [] {
      SystemKeeps(p, y, steps[0]);
      ExecuteKeeps(p, Apply(p, y, steps[0]), steps[1..]);
    }
  }

  // ---- Main results ----

  /** A receiver that reports completion has handed over exactly the file, and its sink was never aborted. */
  lemma ReceiverCompletedHasTheFile(p: Params, channels: seq<nat>, steps: seq<Step>)
    requires Transferable(p) && |channels| >= 1
    requires Execute(p, Initial(channels), steps).r.st == Completed
    ensures var r := Execute(p, Initial(channels), steps).r;
            r.ending.result == Some(p.source) && r.sink.aborts == 0 && r.sink.closes == 1
  {
    InitialOk(p, channels);
    ExecuteKeeps(p, Initial(channels), steps);
  }

  /** Somewhere in the run `accept` is called on a live receiver whose digest is being finalized. */
  ghost predicate AcceptedTooLate(p: Params, y: System, steps: seq<Step>)
    requires Sane(p)
  {
    exists n :: 0 <= n < |steps| && steps[n] == ReceiverActs(R.AcceptStep) && R.InHarmsWay(Execute(p, y, steps[..n]).r)
  }

  lemma StepSpoils(p: Params, y: System, step: Step)
    requires Sane(p)
    ensures Apply(p, y, step).r.spoiled
            <==> y.r.spoiled || (step == ReceiverActs(R.AcceptStep) && R.InHarmsWay(y.r))
  {
    var t := TermsOf(p);
    match step {
      case ReceiverActs(rs) => R.OnlyAcceptSpoils(t, y.r, rs);
      case ToReceiver(acceptable) =>
        if y.toR < |y.s.out| {
          R.OnlyAcceptSpoils(t, y.r, R.ControlStep(y.s.out[y.toR], acceptable));
        }
      case DataArrives(c) =>
        if OnWire(y.wire, c) != [] {
          R.OnlyAcceptSpoils(t, y.r, R.FrameStep(y.wire[c][0]));
        }
      case _ =>
    }
  }

  /** The receiver's `spoiled` flag tells whether that happened. */
  lemma {:induction false} SpoiledIffAcceptedTooLate(p: Params, y: System, steps: seq<Step>)
    requires Sane(p)
    ensures Execute(p, y, steps).r.spoiled <==> y.r.spoiled || AcceptedTooLate(p, y, steps)
    decreases |steps|
  {
    if steps != [] {
      StepSpoils(p, y, steps[0]);
      SpoiledIffAcceptedTooLate(p, Apply(p, y, steps[0]), steps[1..]);
      TooLateFromFirst(p, y, steps);
    }
  }

  lemma TooLateFromFirst(p: Params, y: System, steps: seq<Step>)
    requires Sane(p) && steps != []
    ensures AcceptedTooLate(p, y, steps)
            <==> (steps[0] == ReceiverActs(R.AcceptStep) && R.InHarmsWay(y.r))
                 || AcceptedTooLate(p, Apply(p, y, steps[0]), steps[1..])
  {
    var y', rest := Apply(p, y, steps[0]), steps[1..];
    assert Execute(p, y, steps[..0]) == y;
    forall n | 0 <= n < |rest|
      ensures rest[n] == steps[n + 1] && Execute(p, y', rest[..n]) == Execute(p, y, steps[..n + 1])
    {
      assert steps[..n + 1][0] == steps[0] && steps[..n + 1][1..] == rest[..n];
    }
    if n :| 0 <= n < |steps| && steps[n] == ReceiverActs(R.AcceptStep) && R.InHarmsWay(Execute(p, y, steps[..n]).r) {
      if n > 0 {
        assert rest[n - 1] == ReceiverActs(R.AcceptStep) && R.InHarmsWay(Execute(p, y', rest[..n - 1]).r);
      }
    }
    if n :| 0 <= n < |rest| && rest[n] == ReceiverActs(R.AcceptStep) && R.InHarmsWay(Execute(p, y', rest[..n]).r) {
      assert steps[n + 1] == ReceiverActs(R.AcceptStep) && R.InHarmsWay(Execute(p, y, steps[..n + 1]).r);
    }
  }

  /**
   A sender that reports completion was told so by a receiver that closed its sink; what the sink handed over is the
   file if and only if `accept` was not called again while the digest was being finalized (or the file is empty).
   */
  lemma SenderCompletedHasTheFileIff(p: Params, channels: seq<nat>, steps: seq<Step>)
    requires Transferable(p) && |channels| >= 1
    requires Execute(p, Initial(channels), steps).s.st == Completed
    ensures var r := Execute(p, Initial(channels), steps).r;
            && r.ending.result.Some?
            && (r.spoiled <==> AcceptedTooLate(p, Initial(channels), steps))
            && (r.ending.result.value == p.source
                <==> !AcceptedTooLate(p, Initial(channels), steps) || p.source == [])
  {
    InitialOk(p, channels);
    ExecuteKeeps(p, Initial(channels), steps);
    SpoiledIffAcceptedTooLate(p, Initial(channels), steps);
  }

  /** Honest ends never report a checksum mismatch, in any order of arrival and after any number of resumptions. */
  lemma NoMismatchIsEverReported(p: Params, channels: seq<nat>, steps: seq<Step>)
    requires Transferable(p) && |channels| >= 1
    ensures var y := Execute(p, Initial(channels), steps);
            && ChecksumMismatch !in y.r.out
            && (forall d :: Sent(d) in y.s.out ==> d == if p.checksum then Some(FileTag(p)) else None)
  {
    InitialOk(p, channels);
    ExecuteKeeps(p, Initial(channels), steps);
    var y := Execute(p, Initial(channels), steps);
    forall d | Sent(d) in y.s.out ensures d == if p.checksum then Some(FileTag(p)) else None {
      var k :| 0 <= k < |y.s.out| && y.s.out[k] == Sent(d);
      assert S.MessageOk(p, y.s.st, y.s.out[k]);
    }
  }

  /** The sink is closed at most once and aborted at most once. */
  lemma SinkEndsOnce(p: Params, channels: seq<nat>, steps: seq<Step>)
    requires Transferable(p) && |channels| >= 1
    ensures var sink := Execute(p, Initial(channels), steps).r.sink; sink.closes <= 1 && sink.aborts <= 1
  {
    InitialOk(p, channels);
    ExecuteKeeps(p, Initial(channels), steps);
  }

  // ---- The spoiled run exists ----

  lemma {:induction false} ExecuteSnoc(p: Params, y: System, steps: seq<Step>, step: Step)
    requires Sane(p)
    ensures Execute(p, y, steps + [step]) == Apply(p, Execute(p, y, steps), step)
    decreases |steps|
  {
    if steps == [] {
      assert [step][1..] == [];
    } else {
      assert (steps + [step])[1..] == steps[1..] + [step];
      ExecuteSnoc(p, Apply(p, y, steps[0]), steps[1..], step);
    }
  }

  ghost predicate Reachable(p: Params, channels: seq<nat>, y: System)
    requires Sane(p)
  {
    exists steps :: Execute(p, Initial(channels), steps) == y
  }

  lemma Reach(p: Params, channels: seq<nat>, y: System, step: Step) returns (y': System)
    requires Sane(p) && Reachable(p, channels, y)
    ensures y' == Apply(p, y, step) && Reachable(p, channels, y')
  {
    var steps :| Execute(p, Initial(channels), steps) == y;
    ExecuteSnoc(p, Initial(channels), steps, step);
    y' := Apply(p, y, step);
  }

  /** A one-byte file, sent over one channel with checksums on. */
  function TinyFile(): Params {
    Params([7], 1, true, false, _ => Zeros(DIGEST_BYTES))
  }

  lemma TinyIsTransferable()
    ensures Transferable(TinyFile()) && Total(TinyFile()) == 1 && Chunk(TinyFile(), 0) == [7]
            && Length(TinyFile(), 0) == 1
  {
  }

  function TinyRun(pc: S.WorkerPc, q: nat, digests: map<nat, Bytes>, sent: seq<nat>, phase: S.RunPhase): S.Run {
    S.Run(1, {}, [0], [S.Worker(pc, q)], digests, sent, phase)
  }

  function TinySender(run: S.Run): S.Sender {
    S.Sender(Active, 1, [0], false, false, S.NoTimer, {}, 0, 0, [run], [Offer])
  }

  function TinyReceiver(): R.Receiver {
    R.Receiver(Active, R.Sink(Some(Some(Zeros(1))), false, false, 0, 0), R.Intake([], map[], [], map[], 0, 0),
               R.Ending(false, None, R.NotClaimed, None), [Accept({})], false)
  }

  lemma TinyOffered() returns (y: System)
    ensures Sane(TinyFile()) && Reachable(TinyFile(), [0], y)
    ensures y == System(S.Start(S.NewSender([0])), R.NewReceiver().(st := Offered), 1, 0, {}, map[])
  {
    var p := TinyFile();
    y := Initial([0]);
    assert Execute(p, y, []) == y;
    y := Reach(p, [0], y, SenderActs(S.StartStep));
    y := Reach(p, [0], y, ToReceiver(true));
  }

  lemma TinyAccepted() returns (y: System)
    ensures Sane(TinyFile()) && Reachable(TinyFile(), [0], y)
    ensures y == System(S.Start(S.NewSender([0])), TinyReceiver(), 1, 0, {}, map[])
  {
    y := TinyOffered();
    y := Reach(TinyFile(), [0], y, ReceiverActs(R.AcceptStep));
    assert y.r.intake.accepted.Keys == {};
    y := Reach(TinyFile(), [0], y, ReceiverActs(R.OpenedStep));
  }

  lemma TinyBegun() returns (y: System)
    ensures Sane(TinyFile()) && Reachable(TinyFile(), [0], y)
    ensures y == System(TinySender(TinyRun(S.Opening, 0, map[], [], S.Working)), TinyReceiver(), 1, 1, {}, map[])
  {
    y := TinyAccepted();
    y := Reach(TinyFile(), [0], y, ToSender);
    assert y.s.runs[0].workers == [S.Worker(S.Opening, 0)];
  }

  lemma TinyOpened() returns (y: System)
    ensures Sane(TinyFile()) && Reachable(TinyFile(), [0], y)
    ensures y == System(TinySender(TinyRun(S.AtGate(false), 0, map[], [], S.Working)), TinyReceiver(), 1, 1, {0}, map[])
  {
    TinyIsTransferable();
    y := TinyBegun();
    y := Reach(TinyFile(), [0], y, ChannelOpens(0));
    assert y.open == {0};
    y := Reach(TinyFile(), [0], y, SenderActs(S.OpenedStep(0, 0)));
    assert y.s.runs[0].workers == [S.Worker(S.AtGate(false), 0)];
    assert y.s.runs == [TinyRun(S.AtGate(false), 0, map[], [], S.Working)];
  }

  lemma TinyGated() returns (y: System)
    ensures Sane(TinyFile()) && Reachable(TinyFile(), [0], y)
    ensures y == System(TinySender(TinyRun(S.Reading, 0, map[], [], S.Working)), TinyReceiver(), 1, 1, {0}, map[])
  {
    TinyIsTransferable();
    y := TinyOpened();
    y := Reach(TinyFile(), [0], y, SenderActs(S.GateStep(0, 0)));
    assert y.s.runs[0].workers == [S.Worker(S.Reading, 0)];
    assert y.s.runs == [TinyRun(S.Reading, 0, map[], [], S.Working)];
  }

  lemma TinyRead() returns (y: System)
    ensures Sane(TinyFile()) && Reachable(TinyFile(), [0], y)
    ensures y == System(TinySender(TinyRun(S.Hashing, 0, map[], [], S.Working)), TinyReceiver(), 1, 1, {0}, map[])
  {
    TinyIsTransferable();
    y := TinyGated();
    y := Reach(TinyFile(), [0], y, SenderActs(S.ReadStep(0, 0)));
    assert y.s.runs[0].workers == [S.Worker(S.Hashing, 0)];
    assert y.s.runs == [TinyRun(S.Hashing, 0, map[], [], S.Working)];
  }

  lemma TinyHashed() returns (y: System)
    ensures Sane(TinyFile()) && Reachable(TinyFile(), [0], y)
    ensures y == System(TinySender(TinyRun(S.Draining, 0, map[0 := Zeros(DIGEST_BYTES)], [], S.Working)),
                        TinyReceiver(), 1, 1, {0}, map[])
  {
    TinyIsTransferable();
    y := TinyRead();
    y := Reach(TinyFile(), [0], y, SenderActs(S.HashedStep(0, 0)));
    assert y.s.runs[0].workers == [S.Worker(S.Draining, 0)];
    assert y.s.runs == [TinyRun(S.Draining, 0, map[0 := Zeros(DIGEST_BYTES)], [], S.Working)];
  }

  lemma TinyDrained() returns (y: System)
    ensures Sane(TinyFile()) && Reachable(TinyFile(), [0], y)
    ensures y.s == TinySender(TinyRun(S.Exhausted, 1, map[0 := Zeros(DIGEST_BYTES)], [0], S.Working))
                   .(sentSeqs := {0}, doneChunks := 1, doneBytes := 1)
    ensures y.r == TinyReceiver() && y.toR == 1 && y.toS == 1 && y.wire == map[0 := [Framing.Encode(0, [7])]]
  {
    TinyIsTransferable();
    y := TinyHashed();
    y := Reach(TinyFile(), [0], y, SenderActs(S.DrainedStep(0, 0, true)));
    assert y.s.runs[0].workers == [S.Worker(S.Exhausted, 1)];
    assert y.s.runs[0].sent == [0];
    assert y.s.runs == [TinyRun(S.Exhausted, 1, map[0 := Zeros(DIGEST_BYTES)], [0], S.Working)];
    assert y.wire.Keys == {0} && y.wire[0] == [Framing.Encode(0, [7])];
  }

  lemma TinyDone() returns (y: System)
    ensures Sane(TinyFile()) && Reachable(TinyFile(), [0], y)
    ensures y.s == TinySender(TinyRun(S.Exhausted, 1, map[0 := Zeros(DIGEST_BYTES)], [0], S.Finalizing))
                   .(sentSeqs := {0}, doneChunks := 1, doneBytes := 1)
    ensures y.r == TinyReceiver() && y.toR == 1 && y.toS == 1 && y.wire == map[0 := [Framing.Encode(0, [7])]]
  {
    y := TinyDrained();
    assert S.AllStopped(y.s.runs[0]);
    y := Reach(TinyFile(), [0], y, SenderActs(S.WorkersDoneStep(0)));
    assert y.s.runs == [TinyRun(S.Exhausted, 1, map[0 := Zeros(DIGEST_BYTES)], [0], S.Finalizing)];
  }

  lemma TinySent() returns (y: System)
    ensures Sane(TinyFile()) && Reachable(TinyFile(), [0], y)
    ensures y.s.st == Completing && y.s.out == [Offer, Sent(Some(Tag(TinyFile().hash, map[0 := Zeros(DIGEST_BYTES)])))]
    ensures y.r == TinyReceiver() && y.toR == 1 && y.toS == 1 && y.wire == map[0 := [Framing.Encode(0, [7])]]
  {
    y := TinyDone();
    y := Reach(TinyFile(), [0], y, SenderActs(S.FinalizedStep(0)));
  }

  lemma TinyDecoded() returns (y: System)
    ensures Sane(TinyFile()) && Reachable(TinyFile(), [0], y)
    ensures y.s.st == Completing && y.s.out == [Offer, Sent(Some(Tag(TinyFile().hash, map[0 := Zeros(DIGEST_BYTES)])))]
    ensures y.r == TinyReceiver().(intake := R.Intake([], map[0 := [7]], [R.Job(0, [7], R.Queued)], map[], 1, 1))
    ensures y.toR == 1 && y.toS == 1
  {
    y := TinySent();
    y := Reach(TinyFile(), [0], y, DataArrives(0));
    assert y.r.intake.decoding == [Framing.Encode(0, [7])];
    Framing.DecodeEncode(0, [7]);
    y := Reach(TinyFile(), [0], y, ReceiverActs(R.DecodedStep(0)));
  }

  lemma TinyJobHashed() returns (y: System)
    ensures Sane(TinyFile()) && Reachable(TinyFile(), [0], y)
    ensures y.s.st == Completing && y.s.out == [Offer, Sent(Some(Tag(TinyFile().hash, map[0 := Zeros(DIGEST_BYTES)])))]
    ensures y.r == TinyReceiver().(intake := R.Intake([], map[0 := [7]], [R.Job(0, [7], R.Hashed)],
                                                      map[0 := Zeros(DIGEST_BYTES)], 1, 1))
    ensures y.toR == 1 && y.toS == 1
  {
    y := TinyDecoded();
    y := Reach(TinyFile(), [0], y, ReceiverActs(R.JobStartsStep));
    y := Reach(TinyFile(), [0], y, ReceiverActs(R.JobHashedStep));
    assert y.r.intake.chain == [R.Job(0, [7], R.Hashed)];
  }

  lemma TinyWritten() returns (y: System)
    ensures Sane(TinyFile()) && Reachable(TinyFile(), [0], y)
    ensures y.s.st == Completing && y.s.out == [Offer, Sent(Some(Tag(TinyFile().hash, map[0 := Zeros(DIGEST_BYTES)])))]
    ensures y.r.intake == R.Intake([], map[0 := [7]], [], map[0 := Zeros(DIGEST_BYTES)], 1, 1)
    ensures y.r == TinyReceiver().(intake := y.r.intake, sink := y.r.sink)
    ensures y.r.sink.buffer.Some? && y.r.sink == TinyReceiver().sink.(buffer := y.r.sink.buffer)
    ensures y.toR == 1 && y.toS == 1
  {
    y := TinyJobHashed();
    y := Reach(TinyFile(), [0], y, ReceiverActs(R.JobWrittenStep));
  }

  lemma TinyWaiting() returns (y: System)
    ensures Sane(TinyFile()) && Reachable(TinyFile(), [0], y)
    ensures y.s.st == Completing && y.r.st == Active && y.r.ending.completion == R.WaitingForWrites
    ensures y.toS == |y.r.out| && y.r.intake.chain == []
    ensures !y.r.sink.finalized && y.r.sink.buffer.Some? && y.r.ending.result.None?
    ensures y.r.ending.expected == Some(Tag(TinyFile().hash, y.r.intake.digests))
  {
    TinyIsTransferable();
    y := TinyWritten();
    assert |y.r.intake.accepted| == 1;
    y := Reach(TinyFile(), [0], y, ToReceiver(true));
  }

  lemma TinyFinalizing() returns (y: System)
    ensures Sane(TinyFile()) && Reachable(TinyFile(), [0], y)
    ensures y.s.st == Completing && y.r.st == Active && y.r.ending.completion == R.FinalizingDigest
    ensures y.toS == |y.r.out| && !y.r.sink.finalized && y.r.sink.buffer.Some? && y.r.ending.result.None?
    ensures Some(Tag(TinyFile().hash, y.r.intake.digests)) == y.r.ending.expected
  {
    y := TinyWaiting();
    y := Reach(TinyFile(), [0], y, ReceiverActs(R.WritesDoneStep));
  }

  lemma TinySpoiled() returns (y: System)
    ensures Sane(TinyFile()) && Reachable(TinyFile(), [0], y)
    ensures y.s.st == Completing && y.r.st == Failed && y.r.spoiled && y.toS == |y.r.out|
    ensures y.r.ending.completion == R.ClosingSink([])
  {
    y := TinyFinalizing();
    y := Reach(TinyFile(), [0], y, ReceiverActs(R.AcceptStep));
    y := Reach(TinyFile(), [0], y, ReceiverActs(R.FinalizedStep));
  }

  lemma TinyClosed() returns (y: System)
    ensures Sane(TinyFile()) && Reachable(TinyFile(), [0], y)
    ensures y.s.st == Completing && y.r.st == Failed && y.r.spoiled && y.toS < |y.r.out| && y.r.out[y.toS] == Complete
    ensures y.r.ending.result == Some([])
  {
    y := TinySpoiled();
    y := Reach(TinyFile(), [0], y, ReceiverActs(R.ClosedStep));
  }

  /** Calling `accept` again in that window makes the sender report success while the receiver handed over nothing. */
  lemma SpoiledTransferLosesTheFile() returns (y: System)
    ensures Transferable(TinyFile()) && Reachable(TinyFile(), [0], y)
    ensures y.s.st == Completed && y.r.spoiled && y.r.st == Failed
    ensures y.r.ending.result == Some([]) && TinyFile().source != []
  {
    TinyIsTransferable();
    y := TinyClosed();
    y := Reach(TinyFile(), [0], y, ToSender);
  }
}
