/**
 The receiving side of a transfer. Every function is one atomic segment of the source, from one `await` to the
 next; class ReceiveTransfer (ReceiveTransfers.dfy) performs the same segments on fields.
 */
module ReceiveSpec {
  import opened Common
  import opened TransferBase
  import opened Checksum
  import opened MemorySink
  import Framing

  datatype JobPc = Queued | Hashing | Hashed

  /** One link of the write chain. */
  datatype Job = Job(seqNo: nat, bytes: Bytes, pc: JobPc)

  /** Where `_tryComplete` is suspended once it has claimed the completion. */
  datatype Completion = NotClaimed | WaitingForWrites | FinalizingDigest | ClosingSink(bytes: Bytes) | Settled

  /** The sink: absent until `accept`, then an optional buffer; how often it was closed and aborted is history. */
  datatype Sink = Sink(buffer: Option<Option<Bytes>>, opening: bool, finalized: bool, closes: nat, aborts: nat)

  /** What came in; `accepted` keeps each accepted payload beside its sequence number. */
  datatype Intake = Intake(decoding: seq<Bytes>, accepted: map<nat, Bytes>, chain: seq<Job>, digests: map<nat, Bytes>,
                           doneChunks: nat, doneBytes: nat)

  datatype Ending = Ending(senderDone: bool, expected: Option<string>, completion: Completion, result: Option<Bytes>)

  /**
   `out` is every control message sent so far; `spoiled` records that `accept` was called again while the digest
   was being finalized.
   */
  datatype Receiver = Receiver(st: TransferState, sink: Sink, intake: Intake, ending: Ending, out: seq<Control>,
                               spoiled: bool)

  /** Before the offer arrives there is no transfer: state Idle stands for that. */
  function NewReceiver(): Receiver {
    Receiver(Idle, Sink(None, false, false, 0, 0), Intake([], map[], [], map[], 0, 0),
             Ending(false, None, NotClaimed, None), [], false)
  }

  // ---- Shared pieces ----

  function Say(r: Receiver, m: Control): Receiver {
    r.(out := r.out + [m])
  }

  function Aborted(sink: Sink): Sink {
    if sink.finalized || sink.buffer.None? then sink
    else sink.(finalized := true, buffer := Some(None), aborts := sink.aborts + 1)
  }

  function AbortSink(r: Receiver): Receiver {
    r.(sink := Aborted(r.sink))
  }

  /** `transitionTo`, with the terminal hook. */
  function Enter(r: Receiver, next: TransferState): Receiver {
    if !MayMove(r.st, next) then r
    else if next.Failed? || next.Cancelled? then r.(st := next, sink := Aborted(r.sink))
    else r.(st := next)
  }

  function Fail(r: Receiver, notify: bool): Receiver {
    if Terminal(r.st) then r
    else
      var failed := Enter(r, Failed);
      if notify then Say(failed, Cancel) else failed
  }

  // ---- The application and the sender ----

  function RequestResume(r: Receiver): Receiver {
    if Terminal(r.st) || r.st == Offered || r.sink.buffer.None? then r
    else Say(r, ResumeRequest(r.intake.accepted.Keys))
  }

  /** An offer reaching the manager; `acceptable` is its size limit and checksum policy. */
  function RouteOffer(r: Receiver, acceptable: bool): Receiver {
    if r.st == Idle then
      if acceptable then r.(st := Offered) else Say(r, Reject)
    else if Terminal(r.st) then r
    else RequestResume(r)
  }

  /** A live receiver whose digest is being finalized: the moment at which a second `accept` does harm. */
  predicate InHarmsWay(r: Receiver) {
    r.st != Idle && r.st != Offered && !Terminal(r.st) && r.ending.completion == FinalizingDigest
  }

  function UserAccept(t: Terms, r: Receiver): Receiver {
    if r.st == Idle then r
    else if r.st != Offered then Fail(r.(spoiled := r.spoiled || InHarmsWay(r)), false)
    else Enter(r.(sink := r.sink.(buffer := Some(Some(Zeros(t.size))), opening := true)), Accepted)
  }

  function SinkOpened(r: Receiver): Receiver {
    if !r.sink.opening then r
    else Say(Enter(r.(sink := r.sink.(opening := false)), Active), Accept(r.intake.accepted.Keys))
  }

  function SinkOpenFails(r: Receiver): Receiver {
    if !r.sink.opening then r else Fail(r.(sink := r.sink.(opening := false)), true)
  }

  function UserReject(r: Receiver): Receiver {
    if r.st != Offered then r else Enter(Say(r, Reject), Cancelled)
  }

  function UserPause(r: Receiver): Receiver {
    if r.st != Active then r else Say(Enter(r, Paused), Pause)
  }

  function UserResume(r: Receiver): Receiver {
    if r.st != Paused then r else Say(Enter(r, Active), Resume)
  }

  function UserCancel(r: Receiver): Receiver {
    if Terminal(r.st) || r.st == Idle then r else Enter(Say(r, Cancel), Cancelled)
  }

  function HandleControl(t: Terms, r: Receiver, m: Control, acceptable: bool): Receiver {
    if m.Offer? then RouteOffer(r, acceptable)
    else if r.st == Idle || Terminal(r.st) then r
    else if m.Sent? then TryComplete(t, r.(ending := r.ending.(senderDone := true, expected := m.digest)))
    else if m.Cancel? then Enter(r, Cancelled)
    else r
  }

  // ---- Frames ----

  function FrameArrives(r: Receiver, data: Bytes): Receiver {
    if Terminal(r.st) || r.sink.buffer.None? then r
    else r.(intake := r.intake.(decoding := r.intake.decoding + [data]))
  }

  function Without<T>(s: seq<T>, j: nat): seq<T>
    requires j < |s|
  {
    s[..j] + s[j + 1..]
  }

  predicate FrameFits(t: Terms, seqNo: nat, payload: Bytes) {
    seqNo < t.total && |payload| <= t.chunkSize && seqNo * t.chunkSize + |payload| <= t.size
  }

  function AcceptChunk(intake: Intake, seqNo: nat, payload: Bytes): Intake {
    intake.(accepted := intake.accepted[seqNo := payload], doneChunks := intake.doneChunks + 1,
            doneBytes := intake.doneBytes + |payload|, chain := intake.chain + [Job(seqNo, payload, Queued)])
  }

  /** The rest of `_onMessage` for the `j`-th frame being converted to a buffer. */
  function FrameDecoded(t: Terms, r: Receiver, j: nat): Receiver
    requires j < |r.intake.decoding|
  {
    var frame := Framing.Decode(r.intake.decoding[j]);
    var r := r.(intake := r.intake.(decoding := Without(r.intake.decoding, j)));
    if frame.TooSmall? || !FrameFits(t, frame.seqNo, frame.payload) then Fail(r, true)
    else if frame.seqNo in r.intake.accepted then r
    else TryComplete(t, r.(intake := AcceptChunk(r.intake, frame.seqNo, frame.payload)))
  }

  // ---- The write chain ----

  function Popped(intake: Intake): Intake
    requires intake.chain != []
  {
    intake.(chain := intake.chain[1..])
  }

  function Stored(t: Terms, r: Receiver): Receiver
    requires r.intake.chain != [] && r.sink.buffer.Some?
  {
    var job := r.intake.chain[0];
    r.(sink := r.sink.(buffer := Some(Some(Written(r.sink.buffer.value, job.seqNo * t.chunkSize, job.bytes)))),
       intake := Popped(r.intake))
  }

  function JobStarts(t: Terms, r: Receiver): Receiver {
    var chain := r.intake.chain;
    if chain == [] || chain[0].pc != Queued || r.sink.buffer.None? then r
    else if Terminal(r.st) then r.(intake := Popped(r.intake))
    else if t.checksum then r.(intake := r.intake.(chain := chain[0 := chain[0].(pc := Hashing)]))
    else Stored(t, r)
  }

  function JobHashed(t: Terms, r: Receiver): Receiver {
    var chain := r.intake.chain;
    if chain == [] || chain[0].pc != Hashing then r
    else
      var job := chain[0];
      r.(intake := r.intake.(digests := r.intake.digests[job.seqNo := t.hash(job.bytes)],
                             chain := chain[0 := job.(pc := Hashed)]))
  }

  function JobWritten(t: Terms, r: Receiver): Receiver {
    if r.intake.chain == [] || r.intake.chain[0].pc != Hashed || r.sink.buffer.None? then r else Stored(t, r)
  }

  /** The digest or the sink throws. */
  function JobFails(t: Terms, r: Receiver): Receiver {
    var chain := r.intake.chain;
    if chain == [] || (chain[0].pc == Queued && (t.checksum || Terminal(r.st))) then r
    else AbortSink(Fail(r.(intake := Popped(r.intake)), true))
  }

  // ---- Completion ----

  function At(r: Receiver, completion: Completion): Receiver {
    r.(ending := r.ending.(completion := completion))
  }

  /** `_tryComplete` up to its first `await`. */
  function TryComplete(t: Terms, r: Receiver): Receiver {
    if Terminal(r.st) || r.sink.buffer.None? || !r.ending.senderDone || |r.intake.accepted| < t.total
       || r.ending.completion != NotClaimed
    then r
    else At(r, WaitingForWrites)
  }

  /** From the end of the write chain to the next `await`. */
  function WritesDone(t: Terms, r: Receiver): Receiver {
    if r.ending.completion != WaitingForWrites || r.intake.chain != [] then r
    else if Terminal(r.st) then At(r, Settled)
    else if !t.checksum then CloseSink(r)
    else if r.ending.expected.None? then Mismatch(r)
    else At(r, FinalizingDigest)
  }

  function Mismatch(r: Receiver): Receiver {
    Fail(AbortSink(Say(At(r, Settled), ChecksumMismatch)), false)
  }

  /** After `digest.finalize()` returned `local`: the state is not checked again. */
  function DigestFinalized(r: Receiver, local: string): Receiver {
    if r.ending.completion != FinalizingDigest then r
    else if Some(local) != r.ending.expected then Mismatch(r)
    else CloseSink(r)
  }

  /** `digest.finalize()` rejects: nobody handles it, and the completion stays claimed. */
  function FinalizeFails(r: Receiver): Receiver {
    if r.ending.completion != FinalizingDigest then r else At(r, Settled)
  }

  function CloseSink(r: Receiver): Receiver {
    var bytes := if r.sink.buffer.Some? && r.sink.buffer.value.Some? then r.sink.buffer.value.value else [];
    At(Enter(r.(sink := r.sink.(closes := r.sink.closes + 1)), Completing), ClosingSink(bytes))
  }

  function SinkClosed(r: Receiver): Receiver {
    if !r.ending.completion.ClosingSink? then r
    else
      var ending := r.ending.(result := Some(r.ending.completion.bytes), completion := Settled);
      Enter(Say(r.(ending := ending, sink := r.sink.(finalized := true)), Complete), Completed)
  }

  function SinkCloseFails(r: Receiver): Receiver {
    if !r.ending.completion.ClosingSink? then r else Fail(At(r, Settled), true)
  }

  // ---- Steps ----

  datatype ReceiverStep =
    | AcceptStep
    | RejectStep
    | PauseStep
    | ResumeStep
    | CancelStep
    | ControlStep(m: Control, acceptable: bool)
    | FrameStep(data: Bytes)
    | DecodedStep(j: nat)
    | OpenedStep
    | OpenFailsStep
    | JobStartsStep
    | JobHashedStep
    | JobWrittenStep
    | JobFailsStep
    | WritesDoneStep
    | FinalizedStep
    | FinalizeFailsStep
    | ClosedStep
    | CloseFailsStep

  /** One atomic segment; a segment that cannot run leaves the receiver as it is. */
  function Apply(t: Terms, r: Receiver, step: ReceiverStep): Receiver {
    match step
    case AcceptStep => UserAccept(t, r)
    case RejectStep => UserReject(r)
    case PauseStep => UserPause(r)
    case ResumeStep => UserResume(r)
    case CancelStep => UserCancel(r)
    case ControlStep(m, acceptable) => HandleControl(t, r, m, acceptable)
    case FrameStep(data) => FrameArrives(r, data)
    case DecodedStep(j) => if j < |r.intake.decoding| then FrameDecoded(t, r, j) else r
    case OpenedStep => SinkOpened(r)
    case OpenFailsStep => SinkOpenFails(r)
    case JobStartsStep => JobStarts(t, r)
    case JobHashedStep => JobHashed(t, r)
    case JobWrittenStep => JobWritten(t, r)
    case JobFailsStep => JobFails(t, r)
    case WritesDoneStep => WritesDone(t, r)
    case FinalizedStep => DigestFinalized(r, Tag(t.hash, r.intake.digests))
    case FinalizeFailsStep => FinalizeFails(r)
    case ClosedStep => SinkClosed(r)
    case CloseFailsStep => SinkCloseFails(r)
  }

  function Execute(t: Terms, r: Receiver, steps: seq<ReceiverStep>): Receiver
    decreases |steps|
  {
    if steps == [] then r else Execute(t, Apply(t, r, steps[0]), steps[1..])
  }

  // ---- Accounting, for arbitrary frames ----

  ghost function SumLengths(accepted: map<nat, Bytes>, n: nat): nat {
    if n == 0 then 0 else SumLengths(accepted, n - 1) + if n - 1 in accepted then |accepted[n - 1]| else 0
  }

  ghost predicate Fits(t: Terms, accepted: map<nat, Bytes>) {
    forall q :: q in accepted ==> FrameFits(t, q, accepted[q])
  }

  ghost predicate AccountingOk(t: Terms, b: Intake) {
    && Fits(t, b.accepted)
    && b.doneChunks == |b.accepted|
    && b.doneBytes == SumLengths(b.accepted, t.total)
    && (forall k :: 0 <= k < |b.chain| ==>
          b.chain[k].seqNo in b.accepted && b.chain[k].bytes == b.accepted[b.chain[k].seqNo])
  }

  lemma {:induction false} SumLengthsAdd(accepted: map<nat, Bytes>, q: nat, payload: Bytes, n: nat)
    requires q !in accepted
    ensures SumLengths(accepted[q := payload], n) == SumLengths(accepted, n) + if q < n then |payload| else 0
  {
    if n > 0 {
      SumLengthsAdd(accepted, q, payload, n - 1);
    }
  }

  lemma {:induction false} SumLengthsBound(t: Terms, accepted: map<nat, Bytes>, n: nat)
    requires Fits(t, accepted)
    ensures SumLengths(accepted, n) <= t.size && SumLengths(accepted, n) <= n * t.chunkSize
  {
    if n > 0 {
      SumLengthsBound(t, accepted, n - 1);
      assert n * t.chunkSize == (n - 1) * t.chunkSize + t.chunkSize;
      if n - 1 in accepted {
        assert FrameFits(t, n - 1, accepted[n - 1]);
      }
    }
  }

  /** The books are the same; the chain may have lost its head, or the head moved to its next suspension point. */
  ghost predicate SameBooks(b: Intake, b': Intake) {
    && b'.accepted == b.accepted && b'.doneChunks == b.doneChunks && b'.doneBytes == b.doneBytes
    && (|| b'.chain == b.chain
        || (b.chain != [] && b'.chain == b.chain[1..])
        || (b.chain != [] && b'.chain != [] && b'.chain == b.chain[0 := b.chain[0].(pc := b'.chain[0].pc)]))
  }

  lemma UserKeepsBooks(t: Terms, r: Receiver)
    ensures UserAccept(t, r).intake == UserReject(r).intake == UserPause(r).intake == r.intake
    ensures UserResume(r).intake == UserCancel(r).intake == r.intake
  {
  }

  lemma ArrivalKeepsBooks(t: Terms, r: Receiver, m: Control, acceptable: bool, data: Bytes)
    ensures HandleControl(t, r, m, acceptable).intake == SinkOpened(r).intake == SinkOpenFails(r).intake == r.intake
    ensures SameBooks(r.intake, FrameArrives(r, data).intake)
  {
  }

  lemma WritingKeepsBooks(t: Terms, r: Receiver)
    ensures SameBooks(r.intake, JobStarts(t, r).intake) && SameBooks(r.intake, JobHashed(t, r).intake)
    ensures SameBooks(r.intake, JobWritten(t, r).intake) && SameBooks(r.intake, JobFails(t, r).intake)
  {
  }

  lemma ClosingKeepsBooks(t: Terms, r: Receiver, local: string)
    ensures WritesDone(t, r).intake == DigestFinalized(r, local).intake == r.intake
    ensures SinkClosed(r).intake == SinkCloseFails(r).intake == FinalizeFails(r).intake == r.intake
  {
  }

  lemma AcceptChunkKeepsAccounting(t: Terms, b: Intake, q: nat, payload: Bytes)
    requires AccountingOk(t, b) && q !in b.accepted && FrameFits(t, q, payload)
    ensures AccountingOk(t, AcceptChunk(b, q, payload))
  {
    SumLengthsAdd(b.accepted, q, payload, t.total);
    assert |b.accepted[q := payload]| == |b.accepted| + 1;
  }

  lemma DecodingKeepsAccounting(t: Terms, r: Receiver, j: nat)
    requires AccountingOk(t, r.intake) && j < |r.intake.decoding|
    ensures AccountingOk(t, FrameDecoded(t, r, j).intake)
  {
    var frame := Framing.Decode(r.intake.decoding[j]);
    var b := r.intake.(decoding := Without(r.intake.decoding, j));
    if frame.Frame? && FrameFits(t, frame.seqNo, frame.payload) && frame.seqNo !in b.accepted {
      AcceptChunkKeepsAccounting(t, b, frame.seqNo, frame.payload);
    }
  }

  lemma SameBooksKeepAccounting(t: Terms, b: Intake, b': Intake)
    requires AccountingOk(t, b) && SameBooks(b, b')
    ensures AccountingOk(t, b')
  {
  }

  lemma AccountingStep(t: Terms, r: Receiver, step: ReceiverStep)
    requires AccountingOk(t, r.intake)
    ensures AccountingOk(t, Apply(t, r, step).intake)
  {
    if step.DecodedStep? {
      if step.j < |r.intake.decoding| {
        DecodingKeepsAccounting(t, r, step.j);
      }
    } else {
      match step {
        case ControlStep(m, acceptable) => ArrivalKeepsBooks(t, r, m, acceptable, []);
        case FrameStep(data) => ArrivalKeepsBooks(t, r, Offer, true, data);
        case OpenedStep => ArrivalKeepsBooks(t, r, Offer, true, []);
        case OpenFailsStep => ArrivalKeepsBooks(t, r, Offer, true, []);
        case JobStartsStep => WritingKeepsBooks(t, r);
        case JobHashedStep => WritingKeepsBooks(t, r);
        case JobWrittenStep => WritingKeepsBooks(t, r);
        case JobFailsStep => WritingKeepsBooks(t, r);
        case WritesDoneStep => ClosingKeepsBooks(t, r, "");
        case FinalizedStep => ClosingKeepsBooks(t, r, Tag(t.hash, r.intake.digests));
        case ClosedStep => ClosingKeepsBooks(t, r, "");
        case CloseFailsStep => ClosingKeepsBooks(t, r, "");
        case FinalizeFailsStep => ClosingKeepsBooks(t, r, "");
        case _ => UserKeepsBooks(t, r);
      }
      SameBooksKeepAccounting(t, r.intake, Apply(t, r, step).intake);
    }
  }

  lemma {:induction false} AccountingRun(t: Terms, r: Receiver, steps: seq<ReceiverStep>)
    requires AccountingOk(t, r.intake)
    ensures AccountingOk(t, Execute(t, r, steps).intake)
    decreases |steps|
  {
    if steps != [] {
      AccountingStep(t, r, steps[0]);
      AccountingRun(t, Apply(t, r, steps[0]), steps[1..]);
    }
  }

  lemma {:induction false} SumLengthsEmpty(n: nat)
    ensures SumLengths(map[], n) == 0
  {
    if n > 0 {
      SumLengthsEmpty(n - 1);
    }
  }

  /** Pending writes go to accepted chunks, and accepted chunks to pairwise disjoint ranges inside the file. */
  ghost predicate WritesDisjointInside(t: Terms, b: Intake) {
    && (forall q :: q in b.accepted ==> q < t.total && q * t.chunkSize + |b.accepted[q]| <= t.size)
    && (forall q, q' :: q in b.accepted && q' in b.accepted && q < q' ==>
          q * t.chunkSize + |b.accepted[q]| <= q' * t.chunkSize)
    && (forall k :: 0 <= k < |b.chain| ==>
          b.chain[k].seqNo in b.accepted && b.chain[k].bytes == b.accepted[b.chain[k].seqNo])
  }

  lemma EndBeforeNext(q: nat, q': nat, size: nat, length: nat)
    requires q < q' && length <= size
    ensures q * size + length <= q' * size
  {
    assert (q + 1) * size <= q' * size;
    assert (q + 1) * size == q * size + size;
  }

  /**
   Whatever the peer and the application do: accepted sequence numbers are in range, the counters count distinct
   chunks and their bytes, the bytes never exceed the declared size, and any two accepted chunks are written to
   disjoint ranges inside it.
   */
  lemma AccountingForArbitraryFrames(t: Terms, steps: seq<ReceiverStep>)
    ensures var b := Execute(t, NewReceiver(), steps).intake;
            && b.doneChunks == |b.accepted|
            && b.doneBytes == SumLengths(b.accepted, t.total) <= t.size
            && WritesDisjointInside(t, b)
  {
    var b := Execute(t, NewReceiver(), steps).intake;
    SumLengthsEmpty(t.total);
    AccountingRun(t, NewReceiver(), steps);
    SumLengthsBound(t, b.accepted, t.total);
    forall q, q' | q in b.accepted && q' in b.accepted && q < q'
      ensures q * t.chunkSize + |b.accepted[q]| <= q' * t.chunkSize
    {
      assert FrameFits(t, q, b.accepted[q]);
      EndBeforeNext(q, q', t.chunkSize, |b.accepted[q]|);
    }
    forall q | q in b.accepted ensures q < t.total && q * t.chunkSize + |b.accepted[q]| <= t.size {
      assert FrameFits(t, q, b.accepted[q]);
    }
  }

  lemma StalledStep(t: Terms, r: Receiver, step: ReceiverStep)
    requires r.ending.completion == Settled && r.st != Completed
    ensures var r' := Apply(t, r, step);
            r'.ending.completion == Settled && r'.st != Completed && r'.ending.result == r.ending.result
  {
  }

  lemma {:induction false} StalledRun(t: Terms, r: Receiver, steps: seq<ReceiverStep>)
    requires r.ending.completion == Settled && r.st != Completed
    ensures var r' := Execute(t, r, steps);
            r'.ending.completion == Settled && r'.st != Completed && r'.ending.result == r.ending.result
    decreases |steps|
  {
    if steps != [] {
      StalledStep(t, r, steps[0]);
      StalledRun(t, Apply(t, r, steps[0]), steps[1..]);
    }
  }

  /**
   A receiver whose digest cannot be finalized keeps its state and says nothing, and it never completes, whatever
   follows.
   */
  lemma FailedFinalizeNeverCompletes(t: Terms, r: Receiver, steps: seq<ReceiverStep>)
    requires r.ending.completion == FinalizingDigest && r.st != Completed
    ensures FinalizeFails(r).st == r.st && FinalizeFails(r).out == r.out
    ensures var r' := Execute(t, FinalizeFails(r), steps); r'.st != Completed && r'.ending.result == r.ending.result
  {
    StalledRun(t, FinalizeFails(r), steps);
  }

  /** Nothing but such an `accept` sets the flag. */
  lemma OnlyAcceptSpoils(t: Terms, r: Receiver, step: ReceiverStep)
    ensures Apply(t, r, step).spoiled <==> r.spoiled || (step == AcceptStep && InHarmsWay(r))
  {
  }
}
