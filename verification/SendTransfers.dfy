/** The sending transfer as the object it is: fields, updated by the segments of module SendSpec. */
module SendTransfers {
  import opened Common
  import opened TransferBase
  import opened Checksum
  import opened SendSpec
  import Framing

  class SendTransfer {
    const p: Params
    var st: TransferState
    var gen: nat
    var channels: seq<nat>
    var interrupted: bool
    var pendingPause: bool
    var timer: OfferTimer
    var sentSeqs: set<nat>
    var doneChunks: nat
    var doneBytes: nat
    var runs: seq<Run>
    var out: seq<Control>

    function View(): Sender reads this {
      Sender(st, gen, channels, interrupted, pendingPause, timer, sentSeqs, doneChunks, doneBytes, runs, out)
    }

    constructor (p: Params, channels: seq<nat>)
      requires Sane(p)
      ensures this.p == p && View() == NewSender(channels)
    {
      this.p := p;
      st, gen, this.channels, interrupted, pendingPause, timer := Idle, 0, channels, false, false, NoTimer;
      sentSeqs, doneChunks, doneBytes, runs, out := {}, 0, 0, [], [];
    }

    method TransitionTo(next: TransferState) returns (moved: bool)
      modifies `st, `timer, `gen, `runs
      ensures moved == Moves(old(st), next) && View() == Enter(old(View()), next)
    {
      if st == next {
        return true;
      }
      var forcedTerminal := next == Failed || next == Cancelled;
      if Terminal(st) {
        return false;
      }
      if !forcedTerminal && !Legal(st, next) {
        return false;
      }
      st := next;
      if Terminal(next) {
        timer := NoTimer;
        gen := gen + 1;
        ReleaseWaiters();
      }
      return true;
    }

    method ReleaseWaiters()
      modifies `runs
      ensures runs == Released(old(runs))
    {
      var g := 0;
      while g < |runs|
        invariant 0 <= g <= |runs| == |old(runs)|
        invariant forall h :: 0 <= h < |runs| ==> runs[h] == if h < g then Released(old(runs))[h] else old(runs)[h]
      {
        var workers := runs[g].workers;
        for i := 0 to |workers|
          invariant |workers| == |runs[g].workers|
          invariant forall j :: 0 <= j < |workers| ==>
                      workers[j] == if j < i then Unparked(runs[g].workers[j]) else runs[g].workers[j]
        {
          workers := workers[i := Unparked(workers[i])];
        }
        assert workers == Released(old(runs))[g].workers;
        runs := runs[g := runs[g].(workers := workers)];
        g := g + 1;
      }
    }

    method SendControl(m: Control)
      modifies `out
      ensures out == old(out) + [m]
    {
      out := out + [m];
    }

    method Fail(notify: bool)
      modifies `st, `timer, `gen, `runs, `out
      ensures View() == SendSpec.Fail(old(View()), notify)
    {
      if !Terminal(st) {
        var _ := TransitionTo(Failed);
        if notify {
          SendControl(Control.Cancel);
        }
      }
    }

    method Start()
      modifies this
      ensures View() == SendSpec.Start(old(View()))
    {
      var moved := TransitionTo(Offered);
      if !moved {
        return;
      }
      SendControl(Offer);
      if st == Offered {
        timer := ForOffer;
      }
    }

    method Reoffer(channels: seq<nat>)
      modifies this
      ensures View() == SendSpec.Reoffer(old(View()), channels)
    {
      if Terminal(st) || !interrupted {
        return;
      }
      this.channels := channels;
      SendControl(Offer);
      timer := ForReoffer;
    }

    method OfferTimeout()
      modifies this
      ensures View() == OfferTimesOut(old(View()))
    {
      var stillWaiting := (timer == ForOffer && st == Offered) || (timer == ForReoffer && interrupted && !Terminal(st));
      timer := NoTimer;
      if stillWaiting {
        Fail(true);
      }
    }

    method ApplyPause() returns (applied: bool)
      modifies `st, `timer, `gen, `runs, `pendingPause
      ensures applied == PauseApplies(old(View())) && View() == SendSpec.ApplyPause(old(View()))
    {
      if st == Accepted {
        pendingPause := true;
        return true;
      }
      if st != Active {
        return false;
      }
      applied := TransitionTo(Paused);
    }

    method ApplyResume() returns (applied: bool)
      modifies `st, `timer, `gen, `runs, `pendingPause
      ensures applied == ResumeApplies(old(View())) && View() == SendSpec.ApplyResume(old(View()))
    {
      if st == Accepted && pendingPause {
        pendingPause := false;
        return true;
      }
      if st != Paused {
        return false;
      }
      applied := TransitionTo(Active);
      if applied {
        ReleaseWaiters();
      }
    }

    method Pause()
      modifies this
      ensures View() == UserPause(old(View()))
    {
      var applied := ApplyPause();
      if applied {
        SendControl(Control.Pause);
      }
    }

    method Resume()
      modifies this
      ensures View() == UserResume(old(View()))
    {
      var applied := ApplyResume();
      if applied {
        SendControl(Control.Resume);
      }
    }

    method Cancel()
      modifies this
      ensures View() == UserCancel(old(View()))
    {
      if Terminal(st) {
        return;
      }
      SendControl(Control.Cancel);
      var _ := TransitionTo(Cancelled);
    }

    method HandleControl(m: Control)
      requires Sane(p)
      modifies this
      ensures View() == SendSpec.HandleControl(p, old(View()), m)
    {
      timer := NoTimer;
      match m {
        case Accept(have) => Begin(have);
        case ResumeRequest(have) => Begin(have);
        case Reject => Fail(false);
        case Complete => var _ := TransitionTo(Completed);
        case ChecksumMismatch => Fail(false);
        case Pause => var _ := ApplyPause();
        case Resume => var _ := ApplyResume();
        case Cancel => var _ := TransitionTo(Cancelled);
        case _ =>
      }
    }

    method Begin(have: set<nat>)
      requires Sane(p)
      modifies `st, `timer, `gen, `runs, `pendingPause, `interrupted
      ensures View() == SendSpec.Begin(p, old(View()), have)
    {
      if st == Offered {
        var _ := TransitionTo(Accepted);
        StartRun(have);
      } else if st == Paused && interrupted {
        Continue();
        StartRun(have);
      }
    }

    /** An interrupted transfer leaves its pause. */
    method Continue()
      requires st == Paused
      modifies `st, `timer, `gen, `runs, `pendingPause, `interrupted
      ensures View() == SendSpec.ApplyResume(old(View()).(interrupted := false))
    {
      interrupted := false;
      var _ := ApplyResume();
    }

    method StartRun(have: set<nat>)
      requires Sane(p)
      modifies `st, `timer, `gen, `runs, `pendingPause
      ensures View() == SendSpec.RunUntilAwait(p, NextGeneration(old(View())), have)
    {
      gen := gen + 1;
      assert View() == NextGeneration(old(View()));
      RunUntilAwait(have);
    }

    /** `_run`, which executes synchronously up to the `await` on its workers. */
    method RunUntilAwait(have: set<nat>)
      requires Sane(p)
      modifies `st, `timer, `gen, `runs, `pendingPause
      ensures View() == SendSpec.RunUntilAwait(p, old(View()), have)
    {
      if st == Accepted {
        var moved := TransitionTo(Active);
        if !moved {
          return;
        }
      }
      if st != Active {
        return;
      }
      if pendingPause {
        pendingPause := false;
        var _ := TransitionTo(Paused);
      }
      var lanes := channels;
      var workers := seq(|lanes|, i requires 0 <= i < |lanes| => Worker(Opening, i));
      assert workers == FreshRun(p, View(), have).workers;
      runs := runs + [Run(gen, have, lanes, workers, map[], [], Working)];
    }

    method WorkersDone(g: nat)
      requires g < |runs|
      modifies this
      ensures View() == SendSpec.WorkersDone(p, old(View()), g)
    {
      if runs[g].phase != Working || !AllStopped(runs[g]) {
        return;
      }
      if Terminal(st) || runs[g].gen != gen {
        SetPhase(g, Over);
        return;
      }
      if p.checksum {
        SetPhase(g, Finalizing);
        return;
      }
      SetPhase(g, Ended);
      var _ := TransitionTo(Completing);
      SendControl(Sent(None));
    }

    method DigestFinalized(g: nat)
      requires g < |runs|
      modifies this
      ensures View() == SendSpec.DigestFinalized(p, old(View()), g)
    {
      if runs[g].phase != Finalizing {
        return;
      }
      var hex := Tag(p.hash, runs[g].digests);
      SetPhase(g, Ended);
      var _ := TransitionTo(Completing);
      SendControl(Sent(Some(hex)));
    }

    method FinalizeFails(g: nat)
      requires g < |runs|
      modifies this
      ensures View() == SendSpec.FinalizeFails(old(View()), g)
    {
      if runs[g].phase == Finalizing {
        SetPhase(g, Rejected(OtherError));
      }
    }

    method SetPhase(g: nat, phase: RunPhase)
      requires g < |runs|
      modifies `runs
      ensures runs == old(runs)[g := old(runs)[g].(phase := phase)]
    {
      runs := runs[g := runs[g].(phase := phase)];
    }

    method RunRejected(g: nat)
      requires g < |runs|
      modifies this
      ensures View() == SendSpec.RunRejected(p, old(View()), g)
    {
      if !runs[g].phase.Rejected? {
        return;
      }
      var kind := runs[g].phase.kind;
      SetPhase(g, Over);
      if runs[g].gen != gen {
        return;
      }
      if p.resumable && kind == ChannelClosed && !Terminal(st) {
        if st == Active {
          interrupted := TransitionTo(Paused);
        }
        return;
      }
      Fail(true);
    }

    // ---- Segments of `_worker` ----

    method SetWorker(g: nat, i: nat, w: Worker)
      requires At(View(), g, i)
      modifies `runs
      ensures View() == Put(old(View()), g, PutWorker(old(runs)[g], i, w))
    {
      runs := runs[g := runs[g].(workers := runs[g].workers[i := w])];
    }

    /** The loop head for `seqNo`, up to the pause gate. */
    method LoopFrom(g: nat, i: nat, seqNo: nat)
      requires Sane(p) && At(View(), g, i)
      modifies `runs
      ensures var s := old(View()); View() == Put(s, g, PutWorker(s.runs[g], i, LoopHead(p, s, s.runs[g], seqNo)))
    {
      if seqNo >= Total(p) {
        SetWorker(g, i, Worker(Exhausted, seqNo));
      } else if Terminal(st) || runs[g].gen != gen {
        SetWorker(g, i, Worker(Quit, seqNo));
      } else {
        SetWorker(g, i, Worker(AtGate(st == Paused), seqNo));
      }
    }

    method WorkerOpened(g: nat, i: nat)
      requires Sane(p) && At(View(), g, i)
      modifies this
      ensures View() == SendSpec.WorkerOpened(p, old(View()), g, i)
    {
      if runs[g].workers[i].pc == Opening {
        LoopFrom(g, i, runs[g].workers[i].seqNo);
      }
    }

    method GatePassed(g: nat, i: nat)
      requires Sane(p) && At(View(), g, i)
      modifies this
      ensures View() == SendSpec.GatePassed(p, old(View()), g, i)
    {
      var w := runs[g].workers[i];
      if w.pc != AtGate(false) {
        return;
      }
      if Terminal(st) || runs[g].gen != gen {
        SetWorker(g, i, w.(pc := Quit));
        return;
      }
      var need := w.seqNo !in runs[g].have;
      if !need && !p.checksum {
        LoopFrom(g, i, w.seqNo + |runs[g].lanes|);
        return;
      }
      SetWorker(g, i, w.(pc := Reading));
    }

    method ChunkRead(g: nat, i: nat)
      requires Sane(p) && At(View(), g, i)
      modifies this
      ensures View() == SendSpec.ChunkRead(p, old(View()), g, i)
    {
      var w := runs[g].workers[i];
      if w.pc == Reading {
        SetWorker(g, i, w.(pc := if p.checksum then Hashing else Draining));
      }
    }

    method ChunkHashed(g: nat, i: nat)
      requires Sane(p) && At(View(), g, i)
      modifies this
      ensures View() == SendSpec.ChunkHashed(p, old(View()), g, i)
    {
      var w := runs[g].workers[i];
      if w.pc != Hashing || w.seqNo >= Total(p) {
        return;
      }
      runs := runs[g := runs[g].(digests := runs[g].digests[w.seqNo := p.hash(Chunk(p, w.seqNo))])];
      if w.seqNo in runs[g].have {
        LoopFrom(g, i, w.seqNo + |runs[g].lanes|);
      } else {
        SetWorker(g, i, w.(pc := Draining));
      }
    }

    /** After `awaitDrain`: the frame it returns goes on the worker's channel. */
    method Drained(g: nat, i: nat, open: bool) returns (frame: Option<Bytes>)
      requires Sane(p) && At(View(), g, i)
      modifies this
      ensures View() == SendSpec.Drained(p, old(View()), g, i, open)
      ensures frame == if Sends(p, old(View()), g, i, open) then Some(FrameOf(p, old(View()), g, i)) else None
    {
      var w := runs[g].workers[i];
      if w.pc != Draining || w.seqNo >= Total(p) {
        return None;
      }
      if Terminal(st) || runs[g].gen != gen {
        SetWorker(g, i, w.(pc := Quit));
        return None;
      }
      if !open {
        WorkerThrows(g, i, ChannelClosed);
        return None;
      }
      frame := Some(Framing.Encode(w.seqNo, Chunk(p, w.seqNo)));
      runs := runs[g := runs[g].(sent := runs[g].sent + [w.seqNo])];
      if w.seqNo !in sentSeqs {
        sentSeqs := sentSeqs + {w.seqNo};
        doneChunks := doneChunks + 1;
        doneBytes := doneBytes + Length(p, w.seqNo);
      }
      LoopFrom(g, i, w.seqNo + |runs[g].lanes|);
    }

    method WorkerThrows(g: nat, i: nat, kind: ErrorKind)
      requires At(View(), g, i)
      modifies this
      ensures View() == SendSpec.WorkerThrows(old(View()), g, i, kind)
    {
      var w := runs[g].workers[i];
      if !(w.pc.Opening? || w.pc.Reading? || w.pc.Hashing? || w.pc.Draining?) {
        return;
      }
      SetWorker(g, i, w.(pc := Threw));
      if runs[g].phase == Working {
        SetPhase(g, Rejected(kind));
      }
    }
  }
}
