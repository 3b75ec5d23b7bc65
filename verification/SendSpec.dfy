/**
 The sending side of a transfer. Every function below is one atomic segment of the source, from one `await` to
 the next; class SendTransfer (SendTransfers.dfy) performs the same segments on fields.
 */
module SendSpec {
  import opened Common
  import opened TransferBase
  import opened Checksum
  import Framing

  datatype ErrorKind = ChannelClosed | OtherError

  /** Where a worker is suspended. */
  datatype WorkerPc = Opening | AtGate(parked: bool) | Reading | Hashing | Draining | Exhausted | Quit | Threw

  datatype Worker = Worker(pc: WorkerPc, seqNo: nat)

  datatype RunPhase = Working | Finalizing | Rejected(kind: ErrorKind) | Ended | Over

  /** One `_run` invocation; `sent` records the chunks it put on the wire, in order. */
  datatype Run = Run(gen: nat, have: set<nat>, lanes: seq<nat>, workers: seq<Worker>,
                     digests: map<nat, Bytes>, sent: seq<nat>, phase: RunPhase)

  datatype OfferTimer = NoTimer | ForOffer | ForReoffer

  /** `out` is every control message sent so far. */
  datatype Sender = Sender(st: TransferState, gen: nat, channels: seq<nat>, interrupted: bool, pendingPause: bool,
                           timer: OfferTimer, sentSeqs: set<nat>, doneChunks: nat, doneBytes: nat,
                           runs: seq<Run>, out: seq<Control>)

  function NewSender(channels: seq<nat>): Sender {
    Sender(Idle, 0, channels, false, false, NoTimer, {}, 0, 0, [], [])
  }

  // ---- Control ----

  function Unparked(w: Worker): Worker {
    if w.pc.AtGate? then w.(pc := AtGate(false)) else w
  }

  /** Releases every worker waiting at the pause gate. */
  function Released(runs: seq<Run>): seq<Run> {
    seq(|runs|, g requires 0 <= g < |runs| =>
      runs[g].(workers := seq(|runs[g].workers|,
          i requires 0 <= i < |runs[g].workers| => Unparked(runs[g].workers[i]))))
  }

  /** `transitionTo`, with the terminal hook. */
  function Enter(s: Sender, next: TransferState): Sender {
    if !MayMove(s.st, next) then s
    else if Terminal(next) then s.(st := next, timer := NoTimer, gen := s.gen + 1, runs := Released(s.runs))
    else s.(st := next)
  }

  function Say(s: Sender, m: Control): Sender {
    s.(out := s.out + [m])
  }

  function Fail(s: Sender, notify: bool): Sender {
    if Terminal(s.st) then s
    else
      var failed := Enter(s, Failed);
      if notify then Say(failed, Cancel) else failed
  }

  function Start(s: Sender): Sender {
    if !Moves(s.st, Offered) then s
    else Say(Enter(s, Offered), Offer).(timer := ForOffer)
  }

  function Reoffer(s: Sender, channels: seq<nat>): Sender {
    if Terminal(s.st) || !s.interrupted then s
    else Say(s.(channels := channels), Offer).(timer := ForReoffer)
  }

  function OfferTimesOut(s: Sender): Sender {
    var waiting := (s.timer == ForOffer && s.st == Offered) || (s.timer == ForReoffer && s.interrupted);
    var s := s.(timer := NoTimer);
    if waiting then Fail(s, true) else s
  }

  predicate PauseApplies(s: Sender) {
    s.st == Accepted || s.st == Active
  }

  function ApplyPause(s: Sender): Sender {
    if s.st == Accepted then s.(pendingPause := true)
    else if s.st == Active then Enter(s, Paused)
    else s
  }

  predicate ResumeApplies(s: Sender) {
    (s.st == Accepted && s.pendingPause) || s.st == Paused
  }

  function ApplyResume(s: Sender): Sender {
    if s.st == Accepted && s.pendingPause then s.(pendingPause := false)
    else if s.st == Paused then Enter(s, Active).(runs := Released(s.runs))
    else s
  }

  function UserPause(s: Sender): Sender {
    if PauseApplies(s) then Say(ApplyPause(s), Pause) else s
  }

  function UserResume(s: Sender): Sender {
    if ResumeApplies(s) then Say(ApplyResume(s), Resume) else s
  }

  function UserCancel(s: Sender): Sender {
    if Terminal(s.st) then s else Enter(Say(s, Cancel), Cancelled)
  }

  function HandleControl(p: Params, s: Sender, m: Control): Sender
    requires Sane(p)
  {
    var s := s.(timer := NoTimer);
    match m
    case Accept(have) => Begin(p, s, have)
    case ResumeRequest(have) => Begin(p, s, have)
    case Reject => Fail(s, false)
    case Complete => Enter(s, Completed)
    case ChecksumMismatch => Fail(s, false)
    case Pause => ApplyPause(s)
    case Resume => ApplyResume(s)
    case Cancel => Enter(s, Cancelled)
    case _ => s
  }

  // ---- Runs ----

  function FreshRun(p: Params, s: Sender, have: set<nat>): Run {
    Run(s.gen, have, s.channels, seq(|s.channels|, i requires 0 <= i < |s.channels| => Worker(Opening, i)), map[], [],
        Working)
  }

  function NextGeneration(s: Sender): Sender {
    s.(gen := s.gen + 1)
  }

  /** `_begin`, and `_run` up to its first `await`. */
  function Begin(p: Params, s: Sender, have: set<nat>): Sender
    requires Sane(p)
  {
    if s.st == Offered then RunUntilAwait(p, NextGeneration(Enter(s, Accepted)), have)
    else if s.st == Paused && s.interrupted then
      RunUntilAwait(p, NextGeneration(ApplyResume(s.(interrupted := false))), have)
    else s
  }

  function RunUntilAwait(p: Params, s: Sender, have: set<nat>): Sender
    requires Sane(p)
  {
    var s := if s.st == Accepted then Enter(s, Active) else s;
    if s.st != Active then s
    else
      var s := if s.pendingPause then Enter(s.(pendingPause := false), Paused) else s;
      s.(runs := s.runs + [FreshRun(p, s, have)])
  }

  predicate Stale(s: Sender, r: Run) {
    Terminal(s.st) || r.gen != s.gen
  }

  predicate AllStopped(r: Run) {
    forall i | 0 <= i < |r.workers| :: r.workers[i].pc.Exhausted? || r.workers[i].pc.Quit?
  }

  /** `_run` after all workers returned. */
  function WorkersDone(p: Params, s: Sender, g: nat): Sender
    requires g < |s.runs|
  {
    var r := s.runs[g];
    if r.phase != Working || !AllStopped(r) then s
    else if Stale(s, r) then Put(s, g, r.(phase := Over))
    else if p.checksum then Put(s, g, r.(phase := Finalizing))
    else Say(Enter(Put(s, g, r.(phase := Ended)), Completing), Sent(None))
  }

  /** `_run` after `digest.finalize()`; staleness is not checked again. */
  function DigestFinalized(p: Params, s: Sender, g: nat): Sender
    requires g < |s.runs|
  {
    var r := s.runs[g];
    if r.phase != Finalizing then s
    else Say(Enter(Put(s, g, r.(phase := Ended)), Completing), Sent(Some(Tag(p.hash, r.digests))))
  }

  /** `digest.finalize()` rejects, and with it the run. */
  function FinalizeFails(s: Sender, g: nat): Sender
    requires g < |s.runs|
  {
    if s.runs[g].phase != Finalizing then s else Put(s, g, s.runs[g].(phase := Rejected(OtherError)))
  }

  /** The rejection handler of `_begin`. */
  function RunRejected(p: Params, s: Sender, g: nat): Sender
    requires g < |s.runs|
  {
    var r := s.runs[g];
    if !r.phase.Rejected? then s
    else
      var s' := Put(s, g, r.(phase := Over));
      if r.gen != s.gen then s'
      else if p.resumable && r.phase.kind.ChannelClosed? && !Terminal(s.st) then
        if s.st == Active then Enter(s', Paused).(interrupted := true) else s'
      else Fail(s', true)
  }

  // ---- Workers ----

  function Put(s: Sender, g: nat, r: Run): Sender
    requires g < |s.runs|
  {
    s.(runs := s.runs[g := r])
  }

  function PutWorker(r: Run, i: nat, w: Worker): Run
    requires i < |r.workers|
  {
    r.(workers := r.workers[i := w])
  }

  predicate At(s: Sender, g: nat, i: nat) {
    g < |s.runs| && i < |s.runs[g].workers|
  }

  /** The loop head for sequence number `q`, up to the pause gate. */
  function LoopHead(p: Params, s: Sender, r: Run, q: nat): Worker
    requires Sane(p)
  {
    if q >= Total(p) then Worker(Exhausted, q)
    else if Stale(s, r) then Worker(Quit, q)
    else Worker(AtGate(s.st == Paused), q)
  }

  function Next(p: Params, s: Sender, r: Run, i: nat): Run
    requires Sane(p) && i < |r.workers|
  {
    PutWorker(r, i, LoopHead(p, s, r, r.workers[i].seqNo + |r.lanes|))
  }

  function WorkerOpened(p: Params, s: Sender, g: nat, i: nat): Sender
    requires Sane(p) && At(s, g, i)
  {
    var r := s.runs[g];
    if r.workers[i].pc != Opening then s
    else Put(s, g, PutWorker(r, i, LoopHead(p, s, r, r.workers[i].seqNo)))
  }

  function GatePassed(p: Params, s: Sender, g: nat, i: nat): Sender
    requires Sane(p) && At(s, g, i)
  {
    var r, w := s.runs[g], s.runs[g].workers[i];
    if w.pc != AtGate(false) then s
    else if Stale(s, r) then Put(s, g, PutWorker(r, i, w.(pc := Quit)))
    else if w.seqNo in r.have && !p.checksum then Put(s, g, Next(p, s, r, i))
    else Put(s, g, PutWorker(r, i, w.(pc := Reading)))
  }

  function ChunkRead(p: Params, s: Sender, g: nat, i: nat): Sender
    requires Sane(p) && At(s, g, i)
  {
    var r, w := s.runs[g], s.runs[g].workers[i];
    if w.pc != Reading then s
    else Put(s, g, PutWorker(r, i, w.(pc := if p.checksum then Hashing else Draining)))
  }

  function ChunkHashed(p: Params, s: Sender, g: nat, i: nat): Sender
    requires Sane(p) && At(s, g, i)
  {
    var r, w := s.runs[g], s.runs[g].workers[i];
    if w.pc != Hashing || w.seqNo >= Total(p) then s
    else
      var r' := r.(digests := r.digests[w.seqNo := p.hash(Chunk(p, w.seqNo))]);
      Put(s, g, if w.seqNo in r.have then Next(p, s, r', i) else PutWorker(r', i, w.(pc := Draining)))
  }

  /** Whether worker `i` of run `g` puts a frame on its channel when `awaitDrain` resolves. */
  predicate Sends(p: Params, s: Sender, g: nat, i: nat, open: bool)
    requires Sane(p) && At(s, g, i)
  {
    var w := s.runs[g].workers[i];
    w.pc == Draining && w.seqNo < Total(p) && !Stale(s, s.runs[g]) && open
  }

  function FrameOf(p: Params, s: Sender, g: nat, i: nat): Bytes
    requires Sane(p) && At(s, g, i) && s.runs[g].workers[i].seqNo < Total(p)
  {
    Framing.Encode(s.runs[g].workers[i].seqNo, Chunk(p, s.runs[g].workers[i].seqNo))
  }

  function Drained(p: Params, s: Sender, g: nat, i: nat, open: bool): Sender
    requires Sane(p) && At(s, g, i)
  {
    var r, w := s.runs[g], s.runs[g].workers[i];
    if w.pc != Draining || w.seqNo >= Total(p) then s
    else if Stale(s, r) then Put(s, g, PutWorker(r, i, w.(pc := Quit)))
    else if !open then WorkerThrows(s, g, i, ChannelClosed)
    else
      var s' := Put(s, g, Next(p, s, r.(sent := r.sent + [w.seqNo]), i));
      if w.seqNo in s.sentSeqs then s'
      else s'.(sentSeqs := s.sentSeqs + {w.seqNo}, doneChunks := s.doneChunks + 1,
               doneBytes := s.doneBytes + Length(p, w.seqNo))
  }

  /** A rejected `await`: the first one rejects the run. */
  function WorkerThrows(s: Sender, g: nat, i: nat, kind: ErrorKind): Sender
    requires At(s, g, i)
  {
    var r := s.runs[g];
    var w := r.workers[i];
    if !(w.pc.Opening? || w.pc.Reading? || w.pc.Hashing? || w.pc.Draining?) then s
    else
      var r' := PutWorker(r, i, w.(pc := Threw));
      Put(s, g, if r.phase == Working then r'.(phase := Rejected(kind)) else r')
  }

  // ---- The invariant ----

  ghost predicate WorkerOk(p: Params, st: TransferState, gen: nat, r: Run, i: nat)
    requires Sane(p) && |r.workers| == |r.lanes| && i < |r.lanes|
  {
    var w := r.workers[i];
    && w.seqNo % |r.lanes| == i
    && (w.pc.Quit? ==> Terminal(st) || gen > r.gen)
    && (w.pc.Exhausted? ==> w.seqNo >= Total(p))
    && (w.pc.AtGate? || w.pc.Reading? || w.pc.Hashing? || w.pc.Draining? ==> w.seqNo < Total(p))
    && (w.pc.Hashing? ==> p.checksum)
    && (w.pc.Draining? || (w.pc.Reading? && !p.checksum) ==> w.seqNo !in r.have)
  }

  /** Chunk `q` has been passed by the worker of its lane and was not already held. */
  ghost predicate SentBy(p: Params, r: Run, q: nat)
    requires Sane(p) && |r.workers| == |r.lanes| >= 1
  {
    q < Total(p) && q !in r.have && q < r.workers[q % |r.lanes|].seqNo
  }

  ghost predicate HashedBy(p: Params, r: Run, q: nat)
    requires Sane(p) && |r.workers| == |r.lanes| >= 1
  {
    var w := r.workers[q % |r.lanes|];
    q < Total(p) && (q < w.seqNo || (q == w.seqNo && w.pc.Draining?))
  }

  ghost predicate RunOk(p: Params, st: TransferState, gen: nat, r: Run)
    requires Sane(p)
  {
    && |r.workers| == |r.lanes| >= 1
    && r.gen <= gen
    && (forall i :: 0 <= i < |r.lanes| ==> WorkerOk(p, st, gen, r, i))
    && NoDup(r.sent)
    && (forall q: nat :: q in r.sent <==> SentBy(p, r, q))
    && (forall q :: q in r.digests ==> q < Total(p) && r.digests[q] == p.hash(Chunk(p, q)))
    && (p.checksum ==> forall q: nat :: HashedBy(p, r, q) ==> q in r.digests)
    && (r.phase.Finalizing? ==> p.checksum)
    && (r.phase.Finalizing? || r.phase.Ended? ==> forall i :: 0 <= i < |r.lanes| ==> r.workers[i].pc.Exhausted?)
  }

  ghost predicate MessageOk(p: Params, st: TransferState, m: Control)
    requires Sane(p)
  {
    match m
    case Sent(d) => d == if p.checksum then Some(FileTag(p)) else None
    case Cancel => Terminal(st)
    case _ => true
  }

  ghost predicate SenderOk(p: Params, s: Sender)
    requires Sane(p)
  {
    && |s.channels| >= 1
    && s.st != Accepted && !s.pendingPause
    && (forall g :: 0 <= g < |s.runs| ==> RunOk(p, s.st, s.gen, s.runs[g]))
    && (forall g, h :: 0 <= g < h < |s.runs| ==> s.runs[g].gen < s.runs[h].gen)
    && (forall k :: 0 <= k < |s.out| ==> MessageOk(p, s.st, s.out[k]))
  }

  // ---- Small steps of the proof ----

  lemma ModStep(q: nat, k: nat)
    requires k >= 1
    ensures (q + k) % k == q % k
  {
    assert q + k == k * (q / k + 1) + q % k;
    ModUnique(q + k, k, q / k + 1, q % k);
  }

  lemma NonzeroMultiple(k: int, x: int)
    requires k >= 1 && x != 0
    ensures k * x >= k || k * x <= -k
  {
    if x >= 1 {
      assert k * x >= k * 1;
    } else {
      assert k * -x >= k * 1;
      assert k * -x == -(k * x);
    }
  }

  lemma ModUnique(n: nat, k: nat, d: nat, m: nat)
    requires k >= 1 && m < k && n == k * d + m
    ensures n % k == m
  {
    assert k * (n / k - d) == m - n % k;
    if n / k != d {
      NonzeroMultiple(k, n / k - d);
    }
  }

  /** Within one stride a lane meets its residue once. */
  lemma OncePerStride(a: nat, b: nat, k: nat)
    requires k >= 1 && a % k == b % k && a <= b < a + k
    ensures a == b
  {
    var e, f := a / k, b / k;
    assert a == k * e + a % k && b == k * f + b % k;
    assert k * (f - e) == k * f - k * e;
    if f != e {
      NonzeroMultiple(k, f - e);
    }
  }

  lemma RunOkMonotone(p: Params, st: TransferState, gen: nat, st': TransferState, gen': nat, r: Run)
    requires Sane(p) && RunOk(p, st, gen, r)
    requires gen <= gen' && (Terminal(st) ==> Terminal(st'))
    ensures RunOk(p, st', gen', r)
  {
    forall i | 0 <= i < |r.lanes| ensures WorkerOk(p, st', gen', r, i) {
      assert WorkerOk(p, st, gen, r, i);
    }
  }

  lemma ReleasedOk(p: Params, st: TransferState, gen: nat, runs: seq<Run>, g: nat)
    requires Sane(p) && g < |runs| && RunOk(p, st, gen, runs[g])
    ensures RunOk(p, st, gen, Released(runs)[g]) && Released(runs)[g].gen == runs[g].gen
    ensures Released(runs)[g].sent == runs[g].sent && Released(runs)[g].phase == runs[g].phase
  {
    var r, r' := runs[g], Released(runs)[g];
    forall i | 0 <= i < |r.lanes| ensures WorkerOk(p, st, gen, r', i) {
      assert WorkerOk(p, st, gen, r, i);
    }
    forall q: nat ensures SentBy(p, r', q) == SentBy(p, r, q) && HashedBy(p, r', q) == HashedBy(p, r, q) {
      assert 0 <= q % |r.lanes| < |r.lanes|;
    }
  }

  /** A control operation may move state and generation forward and append harmless messages. */
  lemma ControlKeeps(p: Params, s: Sender, s': Sender)
    requires Sane(p) && SenderOk(p, s)
    requires s'.runs == s.runs || s'.runs == Released(s.runs)
    requires s.gen <= s'.gen && (Terminal(s.st) ==> Terminal(s'.st)) && s'.st != Accepted && !s'.pendingPause
    requires |s'.channels| >= 1
    requires s.out <= s'.out
    requires forall k :: |s.out| <= k < |s'.out| ==> MessageOk(p, s'.st, s'.out[k])
    ensures SenderOk(p, s')
  {
    forall g | 0 <= g < |s'.runs| ensures RunOk(p, s'.st, s'.gen, s'.runs[g]) && s'.runs[g].gen == s.runs[g].gen {
      RunOkMonotone(p, s.st, s.gen, s'.st, s'.gen, s.runs[g]);
      ReleasedOk(p, s'.st, s'.gen, s.runs, g);
    }
    forall k | 0 <= k < |s'.out| ensures MessageOk(p, s'.st, s'.out[k]) {
      if k < |s.out| {
        assert MessageOk(p, s.st, s.out[k]) && s'.out[k] == s.out[k];
      }
    }
  }

  /** Replacing one run by a good one, everything else in place. */
  lemma PutKeeps(p: Params, s: Sender, g: nat, r: Run)
    requires Sane(p) && SenderOk(p, s) && g < |s.runs|
    requires RunOk(p, s.st, s.gen, r) && r.gen == s.runs[g].gen
    ensures SenderOk(p, Put(s, g, r))
  {
  }

  /** Replacing one worker: the other lanes keep what they had. */
  lemma PutWorkerKeeps(p: Params, st: TransferState, gen: nat, r: Run, i: nat, w: Worker)
    requires Sane(p) && RunOk(p, st, gen, r) && i < |r.workers|
    requires !r.workers[i].pc.Exhausted? && w.seqNo == r.workers[i].seqNo
    requires WorkerOk(p, st, gen, PutWorker(r, i, w), i)
    requires w.pc.Draining? && p.checksum ==> w.seqNo in r.digests
    ensures RunOk(p, st, gen, PutWorker(r, i, w))
  {
    var r' := PutWorker(r, i, w);
    forall j | 0 <= j < |r.lanes| ensures WorkerOk(p, st, gen, r', j) {
      assert WorkerOk(p, st, gen, r, j);
    }
    forall q: nat ensures SentBy(p, r', q) == SentBy(p, r, q) && (p.checksum && HashedBy(p, r', q) ==> q in r.digests) {
      assert 0 <= q % |r.lanes| < |r.lanes|;
      assert p.checksum && HashedBy(p, r, q) ==> q in r.digests;
    }
  }

  /** A worker that is done with its chunk moves on by one stride. */
  lemma NextKeeps(p: Params, s: Sender, r0: Run, r: Run, i: nat)
    requires Sane(p) && RunOk(p, s.st, s.gen, r0) && i < |r0.workers|
    requires var w := r0.workers[i]; !w.pc.Exhausted? && w.seqNo < Total(p)
    requires r == r0.(digests := r.digests, sent := r.sent)
    requires var q := r0.workers[i].seqNo;
             && r.sent == (if q in r0.have then r0.sent else r0.sent + [q])
             && (r.digests == r0.digests || r.digests == r0.digests[q := p.hash(Chunk(p, q))])
             && (p.checksum ==> q in r.digests)
    requires r0.gen <= s.gen
    ensures RunOk(p, s.st, s.gen, Next(p, s, r, i))
  {
    var k, q0, r' := |r.lanes|, r.workers[i].seqNo, Next(p, s, r, i);
    ModStep(q0, k);
    forall j | 0 <= j < k ensures WorkerOk(p, s.st, s.gen, r', j) {
      assert WorkerOk(p, s.st, s.gen, r0, j);
    }
    assert !(q0 in r0.sent) by {
      assert WorkerOk(p, s.st, s.gen, r0, i);
      assert !SentBy(p, r0, q0);
    }
    forall q: nat
      ensures (q in r'.sent <==> SentBy(p, r', q)) && (p.checksum && HashedBy(p, r', q) ==> q in r'.digests)
    {
      assert 0 <= q % k < k;
      assert WorkerOk(p, s.st, s.gen, r0, i);
      assert q in r0.sent <==> SentBy(p, r0, q);
      assert p.checksum && HashedBy(p, r0, q) ==> q in r0.digests;
      if q % k == i && q0 <= q < q0 + k {
        OncePerStride(q0, q, k);
      }
    }
  }

  // ---- Every segment keeps the invariant ----

  datatype SenderStep =
    | StartStep
    | ResumeSendStep(channels: seq<nat>)
    | TimeoutStep
    | PauseStep
    | ResumeStep
    | CancelStep
    | ControlStep(m: Control)
    | OpenedStep(g: nat, i: nat)
    | GateStep(g: nat, i: nat)
    | ReadStep(g: nat, i: nat)
    | HashedStep(g: nat, i: nat)
    | DrainedStep(g: nat, i: nat, open: bool)
    | ThrowStep(g: nat, i: nat, kind: ErrorKind)
    | WorkersDoneStep(g: nat)
    | FinalizedStep(g: nat)
    | FinalizeFailsStep(g: nat)
    | RejectedStep(g: nat)

  predicate UserStep(step: SenderStep) {
    step.StartStep? || step.ResumeSendStep? || step.TimeoutStep? || step.PauseStep? || step.ResumeStep?
    || step.CancelStep?
  }

  predicate RunEndStep(step: SenderStep) {
    step.WorkersDoneStep? || step.FinalizedStep? || step.FinalizeFailsStep? || step.RejectedStep?
  }

  predicate Possible(s: Sender, step: SenderStep) {
    match step
    case ResumeSendStep(channels) => |channels| == |s.channels|
    case OpenedStep(g, i) => At(s, g, i)
    case GateStep(g, i) => At(s, g, i)
    case ReadStep(g, i) => At(s, g, i)
    case HashedStep(g, i) => At(s, g, i)
    case DrainedStep(g, i, _) => At(s, g, i)
    case ThrowStep(g, i, _) => At(s, g, i)
    case WorkersDoneStep(g) => g < |s.runs|
    case FinalizedStep(g) => g < |s.runs|
    case FinalizeFailsStep(g) => g < |s.runs|
    case RejectedStep(g) => g < |s.runs|
    case _ => true
  }

  /** One atomic segment; a segment that cannot run leaves the sender as it is. */
  function Apply(p: Params, s: Sender, step: SenderStep): Sender
    requires Sane(p)
  {
    if !Possible(s, step) then s else
    match step
    case StartStep => Start(s)
    case ResumeSendStep(channels) => Reoffer(s, channels)
    case TimeoutStep => OfferTimesOut(s)
    case PauseStep => UserPause(s)
    case ResumeStep => UserResume(s)
    case CancelStep => UserCancel(s)
    case ControlStep(m) => HandleControl(p, s, m)
    case OpenedStep(g, i) => WorkerOpened(p, s, g, i)
    case GateStep(g, i) => GatePassed(p, s, g, i)
    case ReadStep(g, i) => ChunkRead(p, s, g, i)
    case HashedStep(g, i) => ChunkHashed(p, s, g, i)
    case DrainedStep(g, i, open) => Drained(p, s, g, i, open)
    case ThrowStep(g, i, kind) => WorkerThrows(s, g, i, kind)
    case WorkersDoneStep(g) => WorkersDone(p, s, g)
    case FinalizedStep(g) => DigestFinalized(p, s, g)
    case FinalizeFailsStep(g) => FinalizeFails(s, g)
    case RejectedStep(g) => RunRejected(p, s, g)
  }

  lemma NewSenderOk(p: Params, channels: seq<nat>)
    requires Sane(p) && |channels| >= 1
    ensures SenderOk(p, NewSender(channels))
  {
  }

  lemma FreshRunOk(p: Params, s: Sender, have: set<nat>)
    requires Sane(p) && |s.channels| >= 1
    ensures RunOk(p, s.st, s.gen, FreshRun(p, s, have))
  {
    var r := FreshRun(p, s, have);
    var k := |r.lanes|;
    forall i | 0 <= i < k ensures WorkerOk(p, s.st, s.gen, r, i) {
      ModUnique(i, k, 0, i);
    }
    forall q: nat ensures !SentBy(p, r, q) && !HashedBy(p, r, q) {
      assert q == k * (q / k) + q % k && q / k >= 0;
      assert k * (q / k) >= 0;
    }
  }

  lemma AppendRunKeeps(p: Params, s: Sender, r: Run)
    requires Sane(p) && SenderOk(p, s) && RunOk(p, s.st, s.gen, r)
    requires forall g :: 0 <= g < |s.runs| ==> s.runs[g].gen < r.gen
    ensures SenderOk(p, s.(runs := s.runs + [r]))
  {
  }

  /** The state in which `_begin` starts a run, before the run is added. */
  function Beginning(s: Sender): Sender {
    if s.st == Offered then s.(st := Active, gen := s.gen + 1)
    else s.(interrupted := false, st := Active, runs := Released(s.runs), gen := s.gen + 1)
  }

  lemma BeginKeeps(p: Params, s: Sender, have: set<nat>)
    requires Sane(p) && SenderOk(p, s)
    ensures SenderOk(p, Begin(p, s, have))
  {
    if s.st == Offered || (s.st == Paused && s.interrupted) {
      var base := Beginning(s);
      assert Begin(p, s, have) == base.(runs := base.runs + [FreshRun(p, base, have)]);
      ControlKeeps(p, s, base);
      FreshRunOk(p, base, have);
      forall g | 0 <= g < |base.runs| ensures base.runs[g].gen < base.gen {
        assert RunOk(p, s.st, s.gen, s.runs[g]);
        assert base.runs[g].gen == s.runs[g].gen;
      }
      AppendRunKeeps(p, base, FreshRun(p, base, have));
    }
  }

  /**
   A listener that pauses from inside the announcement of Accepted is the one way a pause can be pending; the run that
   is about to start honours it.
   */
  lemma PauseWhileAcceptingIsHonoured(p: Params, s: Sender, have: set<nat>)
    requires Sane(p) && SenderOk(p, s) && s.st == Offered
    ensures var paused := UserPause(Enter(s, Accepted));
            var s' := RunUntilAwait(p, paused.(gen := s.gen + 1), have);
            && paused.pendingPause && paused.out == s.out + [Pause]
            && s'.st == Paused && !s'.pendingPause && |s'.runs| == |s.runs| + 1 && SenderOk(p, s')
  {
    var paused := UserPause(Enter(s, Accepted));
    var base := s.(st := Paused, gen := s.gen + 1, out := s.out + [Pause]);
    assert RunUntilAwait(p, paused.(gen := s.gen + 1), have) == base.(runs := base.runs + [FreshRun(p, base, have)]);
    ControlKeeps(p, s, base);
    FreshRunOk(p, base, have);
    forall g | 0 <= g < |base.runs| ensures base.runs[g].gen < base.gen {
      assert RunOk(p, s.st, s.gen, s.runs[g]);
    }
    AppendRunKeeps(p, base, FreshRun(p, base, have));
  }

  lemma ControlStepKeeps(p: Params, s: Sender, m: Control)
    requires Sane(p) && SenderOk(p, s)
    ensures SenderOk(p, HandleControl(p, s, m))
  {
    var t := s.(timer := NoTimer);
    ControlKeeps(p, s, t);
    match m {
      case Accept(have) => BeginKeeps(p, t, have);
      case ResumeRequest(have) => BeginKeeps(p, t, have);
      case Reject => ControlKeeps(p, t, Fail(t, false));
      case Complete => ControlKeeps(p, t, Enter(t, Completed));
      case ChecksumMismatch => ControlKeeps(p, t, Fail(t, false));
      case Pause => ControlKeeps(p, t, ApplyPause(t));
      case Resume => ControlKeeps(p, t, ApplyResume(t));
      case Cancel => ControlKeeps(p, t, Enter(t, Cancelled));
      case _ =>
    }
  }

  lemma TimeoutKeeps(p: Params, s: Sender)
    requires Sane(p) && SenderOk(p, s)
    ensures SenderOk(p, OfferTimesOut(s))
  {
    var s' := s.(timer := NoTimer);
    ControlKeeps(p, s, s');
    ControlKeeps(p, s', Fail(s', true));
  }

  lemma UserStepKeeps(p: Params, s: Sender, step: SenderStep)
    requires Sane(p) && SenderOk(p, s) && Possible(s, step)
    requires UserStep(step)
    ensures SenderOk(p, Apply(p, s, step))
  {
    match step {
      case StartStep => ControlKeeps(p, s, Start(s));
      case ResumeSendStep(channels) => ControlKeeps(p, s, Reoffer(s, channels));
      case TimeoutStep => TimeoutKeeps(p, s);
      case PauseStep => ControlKeeps(p, s, UserPause(s));
      case ResumeStep => ControlKeeps(p, s, UserResume(s));
      case CancelStep => ControlKeeps(p, s, UserCancel(s));
    }
  }

  lemma OpenedKeeps(p: Params, s: Sender, g: nat, i: nat)
    requires Sane(p) && SenderOk(p, s) && At(s, g, i)
    ensures SenderOk(p, WorkerOpened(p, s, g, i))
  {
    var r, w := s.runs[g], s.runs[g].workers[i];
    assert RunOk(p, s.st, s.gen, r) && WorkerOk(p, s.st, s.gen, r, i);
    if w.pc == Opening {
      var w' := LoopHead(p, s, r, w.seqNo);
      PutWorkerKeeps(p, s.st, s.gen, r, i, w');
      PutKeeps(p, s, g, PutWorker(r, i, w'));
    }
  }

  lemma GateKeeps(p: Params, s: Sender, g: nat, i: nat)
    requires Sane(p) && SenderOk(p, s) && At(s, g, i)
    ensures SenderOk(p, GatePassed(p, s, g, i))
  {
    var r, w := s.runs[g], s.runs[g].workers[i];
    assert RunOk(p, s.st, s.gen, r) && WorkerOk(p, s.st, s.gen, r, i);
    if w.pc == AtGate(false) {
      if !Stale(s, r) && w.seqNo in r.have && !p.checksum {
        NextKeeps(p, s, r, r, i);
        PutKeeps(p, s, g, Next(p, s, r, i));
      } else {
        var w' := w.(pc := if Stale(s, r) then Quit else Reading);
        PutWorkerKeeps(p, s.st, s.gen, r, i, w');
        PutKeeps(p, s, g, PutWorker(r, i, w'));
      }
    }
  }

  lemma ReadKeeps(p: Params, s: Sender, g: nat, i: nat)
    requires Sane(p) && SenderOk(p, s) && At(s, g, i)
    ensures SenderOk(p, ChunkRead(p, s, g, i))
  {
    var r, w := s.runs[g], s.runs[g].workers[i];
    assert RunOk(p, s.st, s.gen, r) && WorkerOk(p, s.st, s.gen, r, i);
    if w.pc == Reading {
      var w' := w.(pc := if p.checksum then Hashing else Draining);
      PutWorkerKeeps(p, s.st, s.gen, r, i, w');
      PutKeeps(p, s, g, PutWorker(r, i, w'));
    }
  }

  lemma ChunkHashedKeeps(p: Params, s: Sender, g: nat, i: nat)
    requires Sane(p) && SenderOk(p, s) && At(s, g, i)
    ensures SenderOk(p, ChunkHashed(p, s, g, i))
  {
    var r, w := s.runs[g], s.runs[g].workers[i];
    assert RunOk(p, s.st, s.gen, r) && WorkerOk(p, s.st, s.gen, r, i);
    if w.pc == Hashing && w.seqNo < Total(p) {
      var hashed := r.(digests := r.digests[w.seqNo := p.hash(Chunk(p, w.seqNo))]);
      if w.seqNo in r.have {
        NextKeeps(p, s, r, hashed, i);
        PutKeeps(p, s, g, Next(p, s, hashed, i));
      } else {
        HashKeeps(p, s.st, s.gen, r, w.seqNo);
        PutWorkerKeeps(p, s.st, s.gen, hashed, i, w.(pc := Draining));
        PutKeeps(p, s, g, PutWorker(hashed, i, w.(pc := Draining)));
      }
    }
  }

  lemma HashKeeps(p: Params, st: TransferState, gen: nat, r: Run, q: nat)
    requires Sane(p) && RunOk(p, st, gen, r) && q < Total(p)
    ensures RunOk(p, st, gen, r.(digests := r.digests[q := p.hash(Chunk(p, q))]))
  {
    var r' := r.(digests := r.digests[q := p.hash(Chunk(p, q))]);
    forall i | 0 <= i < |r.lanes| ensures WorkerOk(p, st, gen, r', i) {
      assert WorkerOk(p, st, gen, r, i);
    }
    forall c: nat ensures SentBy(p, r', c) == SentBy(p, r, c) && HashedBy(p, r', c) == HashedBy(p, r, c) {
      assert 0 <= c % |r.lanes| < |r.lanes|;
    }
  }

  /** Neither the phase (while workers are unfinished) nor the progress counters are part of a run's accounting. */
  lemma PhaseKeeps(p: Params, st: TransferState, gen: nat, r: Run, phase: RunPhase)
    requires Sane(p) && RunOk(p, st, gen, r)
    requires phase.Finalizing? ==> p.checksum
    requires phase.Finalizing? || phase.Ended? ==> forall i :: 0 <= i < |r.lanes| ==> r.workers[i].pc.Exhausted?
    ensures RunOk(p, st, gen, r.(phase := phase))
  {
    var r' := r.(phase := phase);
    forall i | 0 <= i < |r.lanes| ensures WorkerOk(p, st, gen, r', i) {
      assert WorkerOk(p, st, gen, r, i);
    }
    forall c: nat ensures SentBy(p, r', c) == SentBy(p, r, c) && HashedBy(p, r', c) == HashedBy(p, r, c) {
      assert 0 <= c % |r.lanes| < |r.lanes|;
    }
  }

  lemma DrainedKeeps(p: Params, s: Sender, g: nat, i: nat, open: bool)
    requires Sane(p) && SenderOk(p, s) && At(s, g, i)
    ensures SenderOk(p, Drained(p, s, g, i, open))
  {
    var r, w := s.runs[g], s.runs[g].workers[i];
    var s' := Drained(p, s, g, i, open);
    assert RunOk(p, s.st, s.gen, r) && WorkerOk(p, s.st, s.gen, r, i);
    if w.pc == Draining && w.seqNo < Total(p) {
      if Stale(s, r) {
        PutWorkerKeeps(p, s.st, s.gen, r, i, w.(pc := Quit));
      } else if !open {
        ThrowKeeps(p, s, g, i, ChannelClosed);
      } else {
        assert p.checksum ==> HashedBy(p, r, w.seqNo);
        NextKeeps(p, s, r, r.(sent := r.sent + [w.seqNo]), i);
        PutKeeps(p, s, g, s'.runs[g]);
        ControlKeeps(p, Put(s, g, s'.runs[g]), s');
      }
    }
  }

  lemma ThrowKeeps(p: Params, s: Sender, g: nat, i: nat, kind: ErrorKind)
    requires Sane(p) && SenderOk(p, s) && At(s, g, i)
    ensures SenderOk(p, WorkerThrows(s, g, i, kind))
  {
    var r, s' := s.runs[g], WorkerThrows(s, g, i, kind);
    assert RunOk(p, s.st, s.gen, r) && WorkerOk(p, s.st, s.gen, r, i);
    if s' != s {
      PutWorkerKeeps(p, s.st, s.gen, r, i, r.workers[i].(pc := Threw));
      PhaseKeeps(p, s.st, s.gen, PutWorker(r, i, r.workers[i].(pc := Threw)), s'.runs[g].phase);
      PutKeeps(p, s, g, s'.runs[g]);
    }
  }

  /** A run whose workers are all exhausted has hashed every chunk of the file. */
  lemma ExhaustedHashedAll(p: Params, st: TransferState, gen: nat, r: Run)
    requires Sane(p) && p.checksum && RunOk(p, st, gen, r)
    requires forall i :: 0 <= i < |r.lanes| ==> r.workers[i].pc.Exhausted?
    ensures Tag(p.hash, r.digests) == FileTag(p)
  {
    forall q: nat | q < Total(p) ensures q in r.digests {
      var i := q % |r.lanes|;
      assert WorkerOk(p, st, gen, r, i);
      assert HashedBy(p, r, q);
    }
    assert r.digests == DigestsOf(p.hash, Chunks(p));
  }

  lemma PutPhaseKeeps(p: Params, s: Sender, g: nat, phase: RunPhase)
    requires Sane(p) && SenderOk(p, s) && g < |s.runs|
    requires phase.Finalizing? ==> p.checksum
    requires phase.Finalizing? || phase.Ended? ==>
               forall i :: 0 <= i < |s.runs[g].workers| ==> s.runs[g].workers[i].pc.Exhausted?
    ensures SenderOk(p, Put(s, g, s.runs[g].(phase := phase)))
  {
    assert RunOk(p, s.st, s.gen, s.runs[g]);
    PhaseKeeps(p, s.st, s.gen, s.runs[g], phase);
    PutKeeps(p, s, g, s.runs[g].(phase := phase));
  }

  lemma WorkersDoneKeeps(p: Params, s: Sender, g: nat)
    requires Sane(p) && SenderOk(p, s) && g < |s.runs|
    ensures SenderOk(p, WorkersDone(p, s, g))
  {
    var r := s.runs[g];
    assert RunOk(p, s.st, s.gen, r);
    if r.phase == Working && AllStopped(r) {
      if Stale(s, r) {
        PutPhaseKeeps(p, s, g, Over);
      } else {
        forall i | 0 <= i < |r.lanes| ensures r.workers[i].pc.Exhausted? {
          assert WorkerOk(p, s.st, s.gen, r, i);
        }
        PutPhaseKeeps(p, s, g, if p.checksum then Finalizing else Ended);
        if !p.checksum {
          EndKeeps(p, s, g);
        }
      }
    }
  }

  /** Announcing the end of a run, with the tag the receiver will compare. */
  lemma EndKeeps(p: Params, s: Sender, g: nat)
    requires Sane(p) && SenderOk(p, s) && g < |s.runs| && SenderOk(p, Put(s, g, s.runs[g].(phase := Ended)))
    ensures var ended := Enter(Put(s, g, s.runs[g].(phase := Ended)), Completing);
            SenderOk(p, Say(ended, Sent(if p.checksum then Some(FileTag(p)) else None)))
  {
    var put := Put(s, g, s.runs[g].(phase := Ended));
    ControlKeeps(p, put, Say(Enter(put, Completing), Sent(if p.checksum then Some(FileTag(p)) else None)));
  }

  lemma FinalizedKeeps(p: Params, s: Sender, g: nat)
    requires Sane(p) && SenderOk(p, s) && g < |s.runs|
    ensures SenderOk(p, DigestFinalized(p, s, g))
  {
    var r := s.runs[g];
    assert RunOk(p, s.st, s.gen, r);
    if r.phase == Finalizing {
      ExhaustedHashedAll(p, s.st, s.gen, r);
      PutPhaseKeeps(p, s, g, Ended);
      EndKeeps(p, s, g);
    }
  }

  lemma RejectedKeeps(p: Params, s: Sender, g: nat)
    requires Sane(p) && SenderOk(p, s) && g < |s.runs|
    ensures SenderOk(p, RunRejected(p, s, g))
  {
    if s.runs[g].phase.Rejected? {
      PutPhaseKeeps(p, s, g, Over);
      var put := Put(s, g, s.runs[g].(phase := Over));
      ControlKeeps(p, put, RunRejected(p, s, g));
    }
  }

  lemma SenderKeeps(p: Params, s: Sender, step: SenderStep)
    requires Sane(p) && SenderOk(p, s)
    ensures SenderOk(p, Apply(p, s, step))
  {
    if Possible(s, step) {
      match step {
        case OpenedStep(g, i) => OpenedKeeps(p, s, g, i);
        case GateStep(g, i) => GateKeeps(p, s, g, i);
        case ReadStep(g, i) => ReadKeeps(p, s, g, i);
        case HashedStep(g, i) => ChunkHashedKeeps(p, s, g, i);
        case DrainedStep(g, i, open) => DrainedKeeps(p, s, g, i, open);
        case ThrowStep(g, i, kind) => ThrowKeeps(p, s, g, i, kind);
        case WorkersDoneStep(g) => WorkersDoneKeeps(p, s, g);
        case FinalizedStep(g) => FinalizedKeeps(p, s, g);
        case FinalizeFailsStep(g) =>
          if s.runs[g].phase == Finalizing {
            PutPhaseKeeps(p, s, g, Rejected(OtherError));
          }
        case RejectedStep(g) => RejectedKeeps(p, s, g);
        case ControlStep(m) => ControlStepKeeps(p, s, m);
        case _ => UserStepKeeps(p, s, step);
      }
    }
  }

  // ---- Theorems about runs ----

  function Execute(p: Params, s: Sender, steps: seq<SenderStep>): Sender
    requires Sane(p)
    decreases |steps|
  {
    if steps == [] then s else Execute(p, Apply(p, s, steps[0]), steps[1..])
  }

  lemma {:induction false} ExecuteKeeps(p: Params, s: Sender, steps: seq<SenderStep>)
    requires Sane(p) && SenderOk(p, s)
    ensures SenderOk(p, Execute(p, s, steps))
    decreases |steps|
  {
    if steps != [] {
      SenderKeeps(p, s, steps[0]);
      ExecuteKeeps(p, Apply(p, s, steps[0]), steps[1..]);
    }
  }

  /**
   Whatever happens to a transfer, a run that announced `sent` has put on the wire, itself, every chunk the
   receiver did not report, each once, for any number of channels; with checksums on, the tag announced is always the
   whole file's, resumed runs included.
   */
  lemma EndedRunSentExactlyTheMissing(p: Params, channels: seq<nat>, steps: seq<SenderStep>, g: nat)
    requires Sane(p) && |channels| >= 1
    requires g < |Execute(p, NewSender(channels), steps).runs|
    requires Execute(p, NewSender(channels), steps).runs[g].phase == Ended
    ensures var r := Execute(p, NewSender(channels), steps).runs[g];
            NoDup(r.sent) && forall q: nat :: q in r.sent <==> q < Total(p) && q !in r.have
    ensures forall m :: m in Execute(p, NewSender(channels), steps).out && m.Sent? ==>
              m.digest == if p.checksum then Some(FileTag(p)) else None
  {
    var s := Execute(p, NewSender(channels), steps);
    NewSenderOk(p, channels);
    ExecuteKeeps(p, NewSender(channels), steps);
    var r := s.runs[g];
    assert RunOk(p, s.st, s.gen, r);
    forall m | m in s.out && m.Sent? ensures MessageOk(p, s.st, m) {
      var k :| 0 <= k < |s.out| && s.out[k] == m;
    }
    forall q: nat ensures q in r.sent <==> q < Total(p) && q !in r.have {
      assert WorkerOk(p, s.st, s.gen, r, q % |r.lanes|);
      assert q in r.sent <==> SentBy(p, r, q);
    }
  }

  ghost predicate SameSent(s: Sender, s': Sender) {
    |s.runs| <= |s'.runs| && forall g :: 0 <= g < |s.runs| ==> s'.runs[g].sent == s.runs[g].sent
  }

  /** Anything that leaves the runs alone or releases their gates. */
  lemma GatesSendNothing(s: Sender, s': Sender)
    requires s'.runs == s.runs || s'.runs == Released(s.runs)
    ensures SameSent(s, s')
  {
  }

  lemma BeginSendsNothing(p: Params, s: Sender, have: set<nat>)
    requires Sane(p)
    ensures SameSent(s, Begin(p, s, have))
  {
    if s.st == Paused && s.interrupted {
      GatesSendNothing(s, s.(runs := Released(s.runs)));
    }
  }

  lemma ControlSendsNothing(p: Params, s: Sender, m: Control)
    requires Sane(p)
    ensures SameSent(s, HandleControl(p, s, m))
  {
    var t := s.(timer := NoTimer);
    match m {
      case Accept(have) => BeginSendsNothing(p, t, have);
      case ResumeRequest(have) => BeginSendsNothing(p, t, have);
      case _ => GatesSendNothing(s, HandleControl(p, s, m));
    }
  }

  lemma UserSendsNothing(p: Params, s: Sender, step: SenderStep)
    requires Sane(p) && Possible(s, step)
    requires UserStep(step)
    ensures SameSent(s, Apply(p, s, step))
  {
    GatesSendNothing(s, Apply(p, s, step));
  }

  /** Replacing a run by one that has sent the same. */
  lemma PutSendsNothing(s: Sender, s': Sender, g: nat, r: Run)
    requires g < |s.runs| && r.sent == s.runs[g].sent
    requires s'.runs == Put(s, g, r).runs || s'.runs == Released(Put(s, g, r).runs)
    ensures SameSent(s, s')
  {
  }

  lemma RunEndSendsNothing(p: Params, s: Sender, step: SenderStep)
    requires Sane(p) && Possible(s, step)
    requires RunEndStep(step)
    ensures SameSent(s, Apply(p, s, step))
  {
    var g := step.g;
    var r, s' := s.runs[g], Apply(p, s, step);
    if s' != s {
      match step {
        case WorkersDoneStep(_) =>
          var phase := if Stale(s, r) then Over else if p.checksum then Finalizing else Ended;
          PutSendsNothing(s, s', g, r.(phase := phase));
        case FinalizedStep(_) => PutSendsNothing(s, s', g, r.(phase := Ended));
        case FinalizeFailsStep(_) => PutSendsNothing(s, s', g, r.(phase := Rejected(OtherError)));
        case RejectedStep(_) => PutSendsNothing(s, s', g, r.(phase := Over));
      }
    }
  }

  lemma WorkerSendsOnlyWhenDrained(p: Params, s: Sender, step: SenderStep)
    requires Sane(p) && Possible(s, step)
    requires step.OpenedStep? || step.GateStep? || step.ReadStep? || step.HashedStep? || step.DrainedStep?
             || step.ThrowStep?
    requires step.DrainedStep? ==> !Sends(p, s, step.g, step.i, step.open)
    ensures SameSent(s, Apply(p, s, step))
  {
    var s' := Apply(p, s, step);
    PutSendsNothing(s, s', step.g, s'.runs[step.g]);
  }

  /** Only the newest run of a live transfer can put a frame on the wire. */
  lemma OnlyTheLiveRunSends(p: Params, s: Sender, step: SenderStep)
    requires Sane(p) && SenderOk(p, s)
    ensures var s' := Apply(p, s, step);
            || SameSent(s, s')
            || (&& !Terminal(s.st) && |s'.runs| == |s.runs| >= 1
                && forall g :: 0 <= g < |s.runs| - 1 ==> s'.runs[g] == s.runs[g])
  {
    if Possible(s, step) {
      if step.ControlStep? {
        ControlSendsNothing(p, s, step.m);
      } else if step.DrainedStep? && Sends(p, s, step.g, step.i, step.open) {
        var last := |s.runs| - 1;
        assert RunOk(p, s.st, s.gen, s.runs[last]);
        assert step.g == last;
        var s' := Drained(p, s, step.g, step.i, step.open);
        assert s'.runs == s.runs[step.g := s'.runs[step.g]];
      } else if UserStep(step) {
        UserSendsNothing(p, s, step);
      } else if RunEndStep(step) {
        RunEndSendsNothing(p, s, step);
      } else {
        WorkerSendsOnlyWhenDrained(p, s, step);
      }
    }
  }

  /** A superseded run, and every run of a transfer that ended, is silent from then on. */
  lemma {:induction false} SupersededRunsStaySilent(p: Params, s: Sender, steps: seq<SenderStep>, g: nat)
    requires Sane(p) && SenderOk(p, s) && g < |s.runs|
    requires g < |s.runs| - 1 || Terminal(s.st)
    ensures g < |Execute(p, s, steps).runs| && Execute(p, s, steps).runs[g].sent == s.runs[g].sent
    decreases |steps|
  {
    if steps != [] {
      OnlyTheLiveRunSends(p, s, steps[0]);
      SenderKeeps(p, s, steps[0]);
      SupersededRunsStaySilent(p, Apply(p, s, steps[0]), steps[1..], g);
    }
  }

  /** Once past Idle, `start` changes nothing if and only if the offer is no longer open; otherwise it offers again. */
  lemma StartIsIdempotentIff(s: Sender)
    requires s.st != Idle
    ensures Start(s) == s <==> s.st != Offered
    ensures s.st == Offered ==> Start(s).out == s.out + [Offer]
  {
    if s.st == Offered {
      assert |Start(s).out| == |s.out| + 1;
    }
  }

  lemma StartTwiceOffersTwice(channels: seq<nat>)
    ensures Start(Start(NewSender(channels))).out == [Offer, Offer]
  {
    StartIsIdempotentIff(Start(NewSender(channels)));
  }
}
