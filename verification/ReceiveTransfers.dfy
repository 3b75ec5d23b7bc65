/**
 The receiving transfer as the object it is: it owns a sink and a digest object and updates its fields by the
 segments of module ReceiveSpec.
 */
module ReceiveTransfers {
  import opened Common
  import opened TransferBase
  import opened Checksum
  import opened ReceiveSpec
  import MemorySink
  import Framing

  class ReceiveTransfer {
    const t: Terms
    var st: TransferState
    var sink: MemorySink.MemorySink?
    var digest: Sha256Digest?
    var opening: bool
    var finalized: bool
    var decoding: seq<Bytes>
    var accepted: map<nat, Bytes>
    var chain: seq<Job>
    var doneChunks: nat
    var doneBytes: nat
    var senderDone: bool
    var expected: Option<string>
    var completion: Completion
    var result: Option<Bytes>
    var out: seq<Control>
    ghost var closes: nat
    ghost var aborts: nat
    ghost var spoiled: bool

    ghost function Footprint(): set<object> reads this, sink {
      {this}
      + (if sink == null then {} else if sink.buffer == null then {sink} else {sink, sink.buffer})
      + (if digest == null then {} else {digest})
    }

    ghost predicate Valid() reads this, digest {
      && IsDigest(t.hash)
      && (digest != null ==> digest.Valid() && digest.h == t.hash)
      && (digest != null <==> sink != null && t.checksum)
      && (forall k :: 0 <= k < |chain| && chain[k].pc != Queued ==> digest != null)
      && (completion != NotClaimed ==> sink != null)
      && st != Idle && (st == Offered ==> sink == null)
    }

    ghost function View(): Receiver reads this, Footprint() {
      Receiver(st,
               Sink(if sink == null then None else Some(sink.Contents()), opening, finalized, closes, aborts),
               Intake(decoding, accepted, chain, if digest == null then map[] else digest.digests,
                      doneChunks, doneBytes),
               Ending(senderDone, expected, completion, result),
               out, spoiled)
    }

    constructor (t: Terms)
      requires IsDigest(t.hash)
      ensures Valid() && this.t == t && View() == NewReceiver().(st := Offered)
    {
      this.t := t;
      st, sink, digest, opening, finalized := Offered, null, null, false, false;
      decoding, accepted, chain, doneChunks, doneBytes := [], map[], [], 0, 0;
      senderDone, expected, completion, result, out := false, None, NotClaimed, None, [];
      closes, aborts, spoiled := 0, 0, false;
    }

    method TransitionTo(next: TransferState) returns (moved: bool)
      requires Valid()
      modifies `st, `finalized, `aborts, sink
      ensures Valid() && sink == old(sink) && digest == old(digest) && Footprint() <= old(Footprint())
      ensures moved == Moves(old(st), next) && View() == Enter(old(View()), next)
    {
      if st == next {
        return true;
      }
      var forcedTerminal := next == Failed || next == Cancelled;
      if Terminal(st) || (!forcedTerminal && !Legal(st, next)) {
        return false;
      }
      assert MayMove(st, next);
      SetState(next);
      if Terminal(next) && st != Completed {
        AbortSink();
      }
      return true;
    }

    method SetState(next: TransferState)
      requires Valid() && next != Idle && next != Offered
      modifies `st
      ensures Valid() && st == next && View() == old(View()).(st := next)
    {
      st := next;
    }

    method AbortSink()
      requires Valid()
      modifies `finalized, `aborts, sink
      ensures Valid() && Footprint() <= old(Footprint())
      ensures View() == ReceiveSpec.AbortSink(old(View()))
    {
      if finalized || sink == null {
        return;
      }
      finalized := true;
      sink.Abort();
      aborts := aborts + 1;
    }

    method SendControl(m: Control)
      modifies `out
      ensures out == old(out) + [m]
    {
      out := out + [m];
    }

    method Fail(notify: bool)
      requires Valid()
      modifies `st, `finalized, `aborts, `out, sink
      ensures Valid() && sink == old(sink) && digest == old(digest) && Footprint() <= old(Footprint())
      ensures View() == ReceiveSpec.Fail(old(View()), notify)
    {
      if !Terminal(st) {
        var _ := TransitionTo(Failed);
        if notify {
          SendControl(Control.Cancel);
        }
      }
    }

    method RequestResume()
      requires Valid()
      modifies `out
      ensures Valid() && sink == old(sink) && digest == old(digest)
      ensures View() == ReceiveSpec.RequestResume(old(View()))
    {
      if Terminal(st) || st == Offered || sink == null {
        return;
      }
      SendControl(ResumeRequest(accepted.Keys));
    }

    method Accept(sink: MemorySink.MemorySink)
      requires Valid() && st != Idle
      modifies this, this.sink, sink
      ensures Valid() && (old(st) == Offered ==> this.sink == sink && fresh(sink.buffer))
      ensures View() == UserAccept(t, old(View()))
    {
      if st != Offered {
        AcceptLate();
        return;
      }
      var _ := TransitionTo(Accepted);
      assert View() == old(View()).(st := Accepted);
      OpenSink(sink);
    }

    /** Any second `accept` fails the transfer, silently. */
    method AcceptLate()
      requires Valid() && st != Offered
      modifies `spoiled, `st, `finalized, `aborts, `out, sink
      ensures Valid() && View() == UserAccept(t, old(View()))
    {
      Spoil();
      Fail(false);
    }

    ghost method Spoil()
      requires Valid() && st != Offered
      modifies `spoiled
      ensures Valid() && View() == old(View()).(spoiled := old(View()).spoiled || InHarmsWay(old(View())))
    {
      spoiled := spoiled || (!Terminal(st) && completion == FinalizingDigest);
    }

    method OpenSink(sink: MemorySink.MemorySink)
      requires Valid() && this.sink == null && st == Accepted
      modifies `sink, `digest, `opening, sink
      ensures Valid() && this.sink == sink && fresh(sink.buffer)
      ensures var r := old(View());
              View() == r.(sink := r.sink.(buffer := Some(Some(MemorySink.Zeros(t.size))), opening := true))
    {
      this.sink := sink;
      if t.checksum {
        digest := new Sha256Digest(t.hash);
      }
      sink.Open(t.size);
      opening := true;
    }

    method SinkOpened()
      requires Valid()
      modifies `st, `finalized, `aborts, `out, `opening, sink
      ensures Valid() && View() == ReceiveSpec.SinkOpened(old(View()))
    {
      if !opening {
        return;
      }
      Opened();
      var _ := TransitionTo(Active);
      SendControl(Control.Accept(accepted.Keys));
    }

    method Opened()
      requires Valid()
      modifies `opening
      ensures Valid() && View() == old(View()).(sink := old(View()).sink.(opening := false))
    {
      opening := false;
    }

    method SinkOpenFails()
      requires Valid()
      modifies `st, `finalized, `aborts, `out, `opening, sink
      ensures Valid() && View() == ReceiveSpec.SinkOpenFails(old(View()))
    {
      if opening {
        Opened();
        Fail(true);
      }
    }

    method Reject()
      requires Valid()
      modifies `st, `finalized, `aborts, `out, sink
      ensures Valid() && View() == UserReject(old(View()))
    {
      if st != Offered {
        return;
      }
      SendControl(Control.Reject);
      var _ := TransitionTo(Cancelled);
    }

    method Pause()
      requires Valid()
      modifies `st, `finalized, `aborts, `out, sink
      ensures Valid() && View() == UserPause(old(View()))
    {
      if st == Active {
        var _ := TransitionTo(Paused);
        SendControl(Control.Pause);
      }
    }

    method Resume()
      requires Valid()
      modifies `st, `finalized, `aborts, `out, sink
      ensures Valid() && View() == UserResume(old(View()))
    {
      if st == Paused {
        var _ := TransitionTo(Active);
        SendControl(Control.Resume);
      }
    }

    method Cancel()
      requires Valid() && st != Idle
      modifies `st, `finalized, `aborts, `out, sink
      ensures Valid() && View() == UserCancel(old(View()))
    {
      if Terminal(st) {
        return;
      }
      SendControl(Control.Cancel);
      var _ := TransitionTo(Cancelled);
    }

    /** Routed here by the manager, which drops transfers that ended and answers offers itself. */
    method HandleControl(m: Control)
      requires Valid() && st != Idle && !Terminal(st) && !m.Offer?
      modifies this, sink
      ensures Valid() && View() == ReceiveSpec.HandleControl(t, old(View()), m, true)
    {
      match m {
        case Sent(d) =>
          senderDone := true;
          expected := d;
          TryComplete();
        case Cancel => var _ := TransitionTo(Cancelled);
        case _ =>
      }
    }

    method FrameArrives(data: Bytes)
      requires Valid()
      modifies this
      ensures Valid() && View() == ReceiveSpec.FrameArrives(old(View()), data)
    {
      if Terminal(st) || sink == null {
        return;
      }
      decoding := decoding + [data];
    }

    method FrameDecoded(j: nat)
      requires Valid() && j < |decoding|
      modifies this, sink
      ensures Valid() && View() == ReceiveSpec.FrameDecoded(t, old(View()), j)
    {
      var frame := Framing.Decode(decoding[j]);
      decoding := decoding[..j] + decoding[j + 1..];
      if frame.TooSmall? || !FrameFits(t, frame.seqNo, frame.payload) {
        Fail(true);
      } else if frame.seqNo !in accepted {
        AcceptFrame(frame.seqNo, frame.payload);
      }
    }

    method AcceptFrame(seqNo: nat, payload: Bytes)
      requires Valid()
      modifies this
      ensures Valid()
      ensures View() == ReceiveSpec.TryComplete(t,
                old(View()).(intake := AcceptChunk(old(View()).intake, seqNo, payload)))
    {
      Enqueue(seqNo, payload);
      TryComplete();
    }

    method Enqueue(seqNo: nat, payload: Bytes)
      requires Valid()
      modifies `accepted, `doneChunks, `doneBytes, `chain
      ensures Valid() && View() == old(View()).(intake := AcceptChunk(old(View()).intake, seqNo, payload))
    {
      accepted := accepted[seqNo := payload];
      doneChunks := doneChunks + 1;
      doneBytes := doneBytes + |payload|;
      chain := chain + [Job(seqNo, payload, Queued)];
    }

    method TryComplete()
      requires Valid()
      modifies `completion
      ensures Valid() && View() == ReceiveSpec.TryComplete(t, old(View()))
    {
      if Terminal(st) || sink == null {
        return;
      }
      if !senderDone {
        return;
      }
      if |accepted| < t.total {
        return;
      }
      if completion != NotClaimed {
        return;
      }
      completion := WaitingForWrites;
    }

    // ---- The write chain ----

    method Store()
      requires Valid() && chain != [] && sink != null
      modifies this, sink, sink.buffer
      ensures Valid() && View() == Stored(t, old(View()))
    {
      var job := chain[0];
      sink.Write(job.seqNo * t.chunkSize, job.bytes);
      chain := chain[1..];
    }

    method JobStarts()
      requires Valid() && chain != [] && sink != null
      modifies this, sink, sink.buffer
      ensures Valid() && View() == ReceiveSpec.JobStarts(t, old(View()))
    {
      if chain[0].pc != Queued {
        return;
      }
      if Terminal(st) {
        chain := chain[1..];
      } else if digest != null {
        chain := chain[0 := chain[0].(pc := Hashing)];
      } else {
        Store();
      }
    }

    method JobHashed()
      requires Valid() && chain != [] && digest != null
      modifies this, digest
      ensures Valid() && View() == ReceiveSpec.JobHashed(t, old(View()))
    {
      if chain[0].pc != Hashing {
        return;
      }
      var job := chain[0];
      digest.Update(job.seqNo, job.bytes);
      chain := chain[0 := job.(pc := Hashed)];
    }

    method JobWritten()
      requires Valid() && chain != [] && sink != null
      modifies this, sink, sink.buffer
      ensures Valid() && View() == ReceiveSpec.JobWritten(t, old(View()))
    {
      if chain[0].pc == Hashed {
        Store();
      }
    }

    method Pop()
      requires Valid() && chain != []
      modifies `chain
      ensures Valid() && View() == old(View()).(intake := Popped(old(View()).intake))
    {
      chain := chain[1..];
    }

    method JobFails()
      requires Valid() && chain != [] && sink != null
      modifies `chain, `st, `finalized, `aborts, `out, sink
      ensures Valid() && View() == ReceiveSpec.JobFails(t, old(View()))
    {
      if chain[0].pc == Queued && (digest != null || Terminal(st)) {
        return;
      }
      Pop();
      Fail(true);
      AbortSink();
    }

    // ---- Completion ----

    method WritesDone()
      requires Valid()
      modifies this, sink
      ensures Valid() && View() == ReceiveSpec.WritesDone(t, old(View()))
    {
      if completion != WaitingForWrites || chain != [] {
        return;
      }
      if Terminal(st) {
        completion := Settled;
        return;
      }
      if digest == null {
        CloseSink();
        return;
      }
      if expected == None {
        Mismatch();
        return;
      }
      completion := FinalizingDigest;
    }

    method Mismatch()
      requires Valid() && sink != null
      modifies `st, `finalized, `aborts, `out, `completion, sink
      ensures Valid() && View() == ReceiveSpec.Mismatch(old(View()))
    {
      ReportMismatch();
      AbortSink();
      Fail(false);
    }

    method ReportMismatch()
      requires Valid() && sink != null
      modifies `out, `completion
      ensures Valid() && View() == Say(At(old(View()), Settled), ChecksumMismatch)
    {
      completion := Settled;
      SendControl(ChecksumMismatch);
    }

    method DigestFinalized()
      requires Valid() && digest != null
      modifies this, sink
      ensures Valid() && View() == ReceiveSpec.DigestFinalized(old(View()), Tag(t.hash, old(View()).intake.digests))
    {
      if completion != FinalizingDigest {
        return;
      }
      var local := digest.Finalize();
      if Some(local) != expected {
        Mismatch();
        return;
      }
      CloseSink();
    }

    method FinalizeFails()
      requires Valid()
      modifies `completion
      ensures Valid() && View() == ReceiveSpec.FinalizeFails(old(View()))
    {
      if completion == FinalizingDigest {
        completion := Settled;
      }
    }

    method CloseSink()
      requires Valid() && sink != null
      modifies `st, `finalized, `aborts, `closes, `completion, sink
      ensures Valid() && View() == ReceiveSpec.CloseSink(old(View()))
    {
      var _ := TransitionTo(Completing);
      var bytes := sink.Close();
      closes := closes + 1;
      completion := ClosingSink(bytes);
    }

    method SinkClosed()
      requires Valid()
      modifies this, sink
      ensures Valid() && View() == ReceiveSpec.SinkClosed(old(View()))
    {
      if !completion.ClosingSink? {
        return;
      }
      Settle(completion.bytes);
      var _ := TransitionTo(Completed);
    }

    /** What follows a successful close, up to the last transition. */
    method Settle(bytes: Bytes)
      requires Valid() && sink != null
      modifies `result, `finalized, `completion, `out
      ensures Valid()
      ensures var r := old(View());
              View() == Say(r.(ending := r.ending.(result := Some(bytes), completion := Settled),
                               sink := r.sink.(finalized := true)), Complete)
    {
      result := Some(bytes);
      finalized := true;
      completion := Settled;
      SendControl(Complete);
    }

    method SinkCloseFails()
      requires Valid()
      modifies `st, `finalized, `aborts, `out, `completion, sink
      ensures Valid() && View() == ReceiveSpec.SinkCloseFails(old(View()))
    {
      if completion.ClosingSink? {
        completion := Settled;
        Fail(true);
      }
    }
  }
}
