# RTCForge, verified

A Dafny model of the parts of RTCForge whose correctness is a matter of state and order, with proofs about every run
of them. `dafny verify dfyconfig.toml` checks the whole project.

## What is modelled

**File transfer** (`Common`, `Framing`, `Checksum`, `MemorySink`, `TransferBase`, `SendSpec`, `SendTransfers`,
`ReceiveSpec`, `ReceiveTransfers`, `TransferSystem`). Every `await` of the source is a step boundary: a function in
`SendSpec` or `ReceiveSpec` is one segment of code from one `await` to the next, and the classes `SendTransfer` and
`ReceiveTransfer` perform the same segments on fields, each method ending in the state its function names. Sender and
receiver are joined by two FIFO control links and any number of data channels that deliver an in-order prefix and may
drop. How the manager answers an offer, including a repeated one with a request to resume
(packages/sdk/src/filetransfer/FileTransferManager.ts:306-374), is part of the receiver's control handling. Every
interleaving of the segments is a run; the theorems quantify over all of them. The hash is a parameter that returns 32
bytes; where collisions matter, freedom from them is asked only of the inputs actually hashed.

**Gossip membership** (`GossipSpec`, `Gossip`, `GossipLaws`, `GossipCluster`). One member is a class with its table and
seeds. The cluster is a step system over any number of members and a network that keeps everything ever sent and may
deliver any list of it to anybody at any time, which covers loss, duplication, reordering and misdelivery, mixed with
malformed entries.

**SFU cascades** (`CascadePlan`, `CascadeTree`, `CascadeBridge`, `CascadingRouter`, `SfuBridge`, `SfuMedia`,
`SfuCluster`, `SfuSystem`). The planner is the imperative tree builder. Class `Sfu` wires cluster, failure trackers,
tree, router, both bridges and the media plane; its `Valid()` is the agreement of all three copies of links and routes
with the fact that whoever relays, serves viewers or serves a room is registered and has not failed, or was removed while
draining. Every operation keeps it, so it holds after every run.

**Rooms and routing** (`RoomSpec`, `SignalingRoom`, `Roster`, `Reconciler`, `Rendezvous`, `RoomRouting`,
`RateLimiting`).
The signaling room and the SDK's replica of its roster; snapshots turned into callbacks by handlers that may re-enter;
the weighted rendezvous ring they feed; and the sliding-window limiter.

## What the proofs found

- `accept()` called again while the receiver is finalizing its digest fails the transfer and aborts the sink, but the
  suspended completion does not look at the state again: it closes the emptied sink and sends Complete
  (packages/sdk/src/filetransfer/ReceiveTransfer.ts:151-161, 370-396). The sender then reports Completed for a file that
  was lost. `SpoiledTransferLosesTheFile` is such a run and `SenderCompletedHasTheFileIff` says that nothing else can
  spoil a transfer that completes; `SpoiledIffAcceptedTooLate` reads the condition off the run.
- A comment says a pause can arrive between Accepted and Active because that move happens on a later microtask
  (packages/sdk/src/filetransfer/SendTransfer.ts:448-449). It does not: `_run` executes synchronously up to its first
  `await`, so between segments the sender is never Accepted and no pause is pending; both are part of its invariant. The
  one way in is a listener that calls `pause()` from inside the announcement of Accepted
  (packages/sdk/src/filetransfer/Transfer.ts:158), and that pause is honoured (`PauseWhileAcceptingIsHonoured`).
- `start()` is documented as idempotent once past Idle (packages/sdk/src/filetransfer/SendTransfer.ts:200). It is exactly
  when the offer is no longer open; while it is, the offer is sent again, because `transitionTo` answers true for the
  state it is in (`StartIsIdempotentIff`, `StartTwiceOffersTwice`).
- A rejecting `digest.finalize()` fails the sender, but nobody handles it on the receiver, whose completion stays claimed
  for good (packages/sdk/src/filetransfer/ReceiveTransfer.ts:346-370): it says nothing and never completes
  (`FailedFinalizeNeverCompletes`).
- A reconnection whose `room-joined` cannot be sent removes the peer without telling anybody
  (packages/signaling/src/Room.ts:196-199): the others keep it in their rosters. `AgreementKeptIff` gives the exact
  condition and `LostReconnectionHappens` a run.
- The ring is documented to map keys regardless of insertion order; that holds exactly when the highest score is reached
  by one node only (`OrderMattersOnlyForTies`).
- The planner sizes tiers by `viewersPerNode` and seats viewers by each node's own capacity
  (packages/sfu/src/CascadeTree.ts:132, 162). Nodes smaller than the former, as they are by default
  (packages/sfu/src/SfuNode.ts:7, packages/sfu/src/CascadeTree.ts:244), can leave viewers unmet while other nodes stay
  idle. `ShortfallWithIdleNodesIff` says for each request, from the request alone, whether it does, and
  `NeverIdleIffAmple` for which capacities no request does.
- The limiter's bound can fail on a clock that goes back (`ClockGoingBackOverfills`). `SurvivesAnyClockIff` says which
  limiters it never fails for, and `NeverOverfillsIffRoomy` for each run whether it does: exactly when some call is
  accepted although a window that would hold it is full.

## Model

| member | source | states |
|---|---|---|
| `TransferSystem.ReceiverCompletedHasTheFile` | packages/sdk/src/filetransfer/ReceiveTransfer.ts:342-397 | Over every run of both ends (pauses, drops, re-offers, resumes, any interleaving), a receiver in Completed handed over exactly the source bytes, closed its sink once and never aborted it |
| `TransferSystem.SenderCompletedHasTheFileIff` | packages/sdk/src/filetransfer/SendTransfer.ts:254-300 | Over every run, a sender in Completed faces a closed sink, and what that sink returned is the file if and only if the run has no `accept` on a live receiver whose digest is being finalized (or the file is empty) |
| `TransferSystem.SpoiledIffAcceptedTooLate` | packages/sdk/src/filetransfer/ReceiveTransfer.ts:151-161 | The receiver's flag for that is set exactly when some step of the run is such an `accept` |
| `TransferSystem.SpoiledTransferLosesTheFile` | packages/sdk/src/filetransfer/ReceiveTransfer.ts:151-177 | The failing family is not empty: a reachable run in which the sender reports Completed, the receiver Failed, and the sink returned nothing of a one-byte file |
| `TransferSystem.NoMismatchIsEverReported` | packages/sdk/src/filetransfer/ReceiveTransfer.ts:355-383 | Honest ends never exchange a checksum mismatch, whatever the arrival order and however often the transfer is resumed; every tag announced is the tag of the whole file |
| `TransferSystem.SinkEndsOnce` | packages/sdk/src/filetransfer/ReceiveTransfer.ts:320-325 | Over every run the sink is closed at most once and aborted at most once |
| `TransferSystem.SystemKeeps` | packages/sdk/src/filetransfer/SendTransfer.ts:334-445 | Every step of sender, receiver, control link or data channel keeps the joint invariant |
| `TransferSystem.HonestFrameDecodes` | packages/sdk/src/filetransfer/ReceiveTransfer.ts:259-307 | Every frame an honest sender puts on the wire decodes to its own chunk and passes the range checks, for at most 2^32 chunks |
| `TransferBase.AllChunksMakeTheFile` | packages/sdk/src/filetransfer/SendTransfer.ts:420-422 | A buffer that holds every chunk at its offset is the file: chunks cover it without gaps |
| `TransferBase.RangesDisjoint` | packages/sdk/src/filetransfer/SendTransfer.ts:420-421 | Different chunks occupy disjoint ranges in sequence order |
| `SendSpec.EndedRunSentExactlyTheMissing` | packages/sdk/src/filetransfer/SendTransfer.ts:379-445 | A run that announced `sent` put on the wire, itself, exactly the chunks outside `haveChunks`, each once, for any number of channels; every announced digest is the tag of the whole file |
| `SendSpec.OnlyTheLiveRunSends` | packages/sdk/src/filetransfer/SendTransfer.ts:403-435 | A step that sends a frame belongs to the newest run of a transfer that has not ended, and touches no other run |
| `SendSpec.SupersededRunsStaySilent` | packages/sdk/src/filetransfer/SendTransfer.ts:352-368 | From the moment it is superseded or the transfer ends, a run never sends another frame |
| `SendSpec.SenderKeeps` | packages/sdk/src/filetransfer/SendTransfer.ts:334-476 | Every sender step keeps the invariant; in it Accepted is never a resting state and no pause is pending between segments |
| `SendSpec.PauseWhileAcceptingIsHonoured` | packages/sdk/src/filetransfer/SendTransfer.ts:385-390 | A pause made from inside the announcement of Accepted is pending when the run starts and leaves it paused, with the invariant intact |
| `SendSpec.StartIsIdempotentIff` | packages/sdk/src/filetransfer/SendTransfer.ts:198-205 | Once past Idle, `start` changes nothing if and only if the offer is no longer open; while it is open it is sent again |
| `SendSpec.StartTwiceOffersTwice` | packages/sdk/src/filetransfer/SendTransfer.ts:203-205 | The failing case: a second `start` right after the first sends a second offer |
| `ReceiveSpec.FailedFinalizeNeverCompletes` | packages/sdk/src/filetransfer/ReceiveTransfer.ts:346-370 | When finalizing the digest rejects, the receiver keeps its state, says nothing, and never completes, whatever follows |
| `ReceiveSpec.AccountingForArbitraryFrames` | packages/sdk/src/filetransfer/ReceiveTransfer.ts:275-316 | For arbitrary frames and any order of events: accepted numbers lie in range, the counters are their number and their bytes, the bytes never exceed the declared size, and writes go to pairwise disjoint ranges inside it |
| `Framing.EncodeFrame` | packages/sdk/src/filetransfer/framing.ts:21-27 | The filled buffer is the big-endian sequence number modulo 2^32 followed by the payload |
| `Framing.DecodeEncode` | packages/sdk/src/filetransfer/framing.ts:21-57 | Decoding an encoded frame gives the payload and the sequence number modulo 2^32 |
| `Framing.SeqSurvivesIff` | packages/sdk/src/filetransfer/framing.ts:21-57 | A sequence number survives the wire if and only if it is below 2^32 |
| `Framing.EncodeDecode` | packages/sdk/src/filetransfer/framing.ts:47-57 | Every frame long enough to decode is the encoding of what it decodes to |
| `Checksum.Sha256Digest.Finalize` | packages/sdk/src/filetransfer/checksum.ts:39-48 | The loop over ascending sequence numbers yields the tag: the hex form of the hash of the joined chunk digests |
| `Checksum.Sha256Digest.Update` | packages/sdk/src/filetransfer/checksum.ts:29-31 | An update stores the chunk hash under its number and nothing else |
| `Checksum.TagIgnoresArrivalOrder` | packages/sdk/src/filetransfer/checksum.ts:29-48 | Updates of different chunks commute: the tag does not depend on arrival order |
| `Checksum.TagOfComplete` | packages/sdk/src/filetransfer/checksum.ts:39-48 | With one digest for every chunk the tag is the hash of all chunk hashes in file order |
| `Checksum.EqualTagsForceEqualChunks` | packages/sdk/src/filetransfer/checksum.ts:29-48 | Unless the hash collides on the inputs actually hashed, equal tags over [0, total) force equal chunks in equal places |
| `MemorySink.MemorySink.Open` | packages/sdk/src/filetransfer/sink/MemorySink.ts:22-25 | Opening allocates a zeroed buffer of the declared size |
| `MemorySink.MemorySink.Write` | packages/sdk/src/filetransfer/sink/MemorySink.ts:34-43 | Writing overwrites the range, growing a short buffer with zeros |
| `MemorySink.MemorySink.Close` | packages/sdk/src/filetransfer/sink/MemorySink.ts:48-58 | Closing returns the buffer, or no bytes when there is none |
| `MemorySink.MemorySink.Abort` | packages/sdk/src/filetransfer/sink/MemorySink.ts:61-63 | Aborting discards the buffer |
| `MemorySink.WriteStoresAndFrames` | packages/sdk/src/filetransfer/sink/MemorySink.ts:34-43 | A write inside the buffer stores its data and disturbs no disjoint range |
| `SendTransfers.SendTransfer.TransitionTo` | packages/sdk/src/filetransfer/Transfer.ts:149-161 | Moves by the transition table, forcing failure and cancellation from any state that has not ended; releases parked workers on the way out |
| `SendTransfers.SendTransfer.Fail` | packages/sdk/src/filetransfer/Transfer.ts:177-187 | Fails once, with a cancel to the peer when asked |
| `SendTransfers.SendTransfer.Start` | packages/sdk/src/filetransfer/SendTransfer.ts:203-213 | Offers the transfer; a second call while still offered offers again |
| `SendTransfers.SendTransfer.Reoffer` | packages/sdk/src/filetransfer/SendTransfer.ts:133-154 | An interrupted transfer offers itself over fresh channels |
| `SendTransfers.SendTransfer.OfferTimeout` | packages/sdk/src/filetransfer/SendTransfer.ts:218-237 | An unanswered offer or re-offer fails the transfer |
| `SendTransfers.SendTransfer.ApplyPause` | packages/sdk/src/filetransfer/SendTransfer.ts:447-456 | Pauses an active transfer |
| `SendTransfers.SendTransfer.ApplyResume` | packages/sdk/src/filetransfer/SendTransfer.ts:458-471 | Reactivates a paused transfer and releases every parked worker |
| `SendTransfers.SendTransfer.Pause` | packages/sdk/src/filetransfer/SendTransfer.ts:306-310 | A pause that applies is told to the peer |
| `SendTransfers.SendTransfer.Resume` | packages/sdk/src/filetransfer/SendTransfer.ts:316-320 | A resume that applies is told to the peer |
| `SendTransfers.SendTransfer.Cancel` | packages/sdk/src/filetransfer/SendTransfer.ts:328-332 | Cancels once and tells the peer |
| `SendTransfers.SendTransfer.HandleControl` | packages/sdk/src/filetransfer/SendTransfer.ts:254-300 | Each control message has its one effect; any of them stops the offer timer |
| `SendTransfers.SendTransfer.Begin` | packages/sdk/src/filetransfer/SendTransfer.ts:334-369 | An acceptance of a fresh offer, or a resumption of an interrupted transfer, starts a new generation; anything else is ignored |
| `SendTransfers.SendTransfer.RunUntilAwait` | packages/sdk/src/filetransfer/SendTransfer.ts:379-395 | A run starts with one worker per channel |
| `SendTransfers.SendTransfer.WorkersDone` | packages/sdk/src/filetransfer/SendTransfer.ts:396-400 | Only a current run of a live transfer may announce its end |
| `SendTransfers.SendTransfer.DigestFinalized` | packages/sdk/src/filetransfer/SendTransfer.ts:398-400 | After the digest the end is announced without a second check |
| `SendTransfers.SendTransfer.FinalizeFails` | packages/sdk/src/filetransfer/SendTransfer.ts:398 | A rejecting digest rejects the run |
| `SendTransfers.SendTransfer.RunRejected` | packages/sdk/src/filetransfer/SendTransfer.ts:353-377 | A superseded failure is ignored, a dropped channel interrupts a resumable transfer, anything else fails it |
| `SendTransfers.SendTransfer.WorkerOpened` | packages/sdk/src/filetransfer/SendTransfer.ts:410-413 | A worker enters its stride at its channel index |
| `SendTransfers.SendTransfer.GatePassed` | packages/sdk/src/filetransfer/SendTransfer.ts:414-418 | Past the gate a stale worker quits, an unneeded chunk is skipped unless it must be hashed |
| `SendTransfers.SendTransfer.ChunkRead` | packages/sdk/src/filetransfer/SendTransfer.ts:420-422 | A read chunk goes to the digest or straight to the drain |
| `SendTransfers.SendTransfer.ChunkHashed` | packages/sdk/src/filetransfer/SendTransfer.ts:423-424 | A chunk is hashed whether or not the receiver has it |
| `SendTransfers.SendTransfer.Drained` | packages/sdk/src/filetransfer/SendTransfer.ts:426-443 | A frame is sent only by a current worker over an open channel, and counted once |
| `SendTransfers.SendTransfer.WorkerThrows` | packages/sdk/src/filetransfer/SendTransfer.ts:353-367 | The first worker failure rejects its run |
| `ReceiveTransfers.ReceiveTransfer.TransitionTo` | packages/sdk/src/filetransfer/Transfer.ts:149-161 | Moves by the transition table; failing or being cancelled aborts the sink |
| `ReceiveTransfers.ReceiveTransfer.RequestResume` | packages/sdk/src/filetransfer/ReceiveTransfer.ts:104-111 | Reports the chunks already held |
| `ReceiveTransfers.ReceiveTransfer.Accept` | packages/sdk/src/filetransfer/ReceiveTransfer.ts:151-177 | Opens sink and digest for an offered transfer; any later call fails the transfer without telling the peer |
| `ReceiveTransfers.ReceiveTransfer.SinkOpened` | packages/sdk/src/filetransfer/ReceiveTransfer.ts:166-173 | Once open it becomes active and answers with the chunks it holds |
| `ReceiveTransfers.ReceiveTransfer.SinkOpenFails` | packages/sdk/src/filetransfer/ReceiveTransfer.ts:174-176 | A sink that cannot open fails the transfer |
| `ReceiveTransfers.ReceiveTransfer.Reject` | packages/sdk/src/filetransfer/ReceiveTransfer.ts:185-189 | Declines an offer |
| `ReceiveTransfers.ReceiveTransfer.Pause` | packages/sdk/src/filetransfer/ReceiveTransfer.ts:230-235 | Pauses an active transfer and tells the sender |
| `ReceiveTransfers.ReceiveTransfer.Resume` | packages/sdk/src/filetransfer/ReceiveTransfer.ts:241-246 | Resumes a paused transfer and tells the sender |
| `ReceiveTransfers.ReceiveTransfer.Cancel` | packages/sdk/src/filetransfer/ReceiveTransfer.ts:253-257 | Cancels once and tells the sender |
| `ReceiveTransfers.ReceiveTransfer.HandleControl` | packages/sdk/src/filetransfer/ReceiveTransfer.ts:213-224 | `sent` records the digest and tries to complete, `cancel` ends the transfer |
| `ReceiveTransfers.ReceiveTransfer.FrameArrives` | packages/sdk/src/filetransfer/ReceiveTransfer.ts:259-264 | Frames are taken only between accept and the end |
| `ReceiveTransfers.ReceiveTransfer.FrameDecoded` | packages/sdk/src/filetransfer/ReceiveTransfer.ts:264-317 | A malformed or out-of-range frame fails the transfer, a duplicate is dropped, anything else is accepted once and queued |
| `ReceiveTransfers.ReceiveTransfer.TryComplete` | packages/sdk/src/filetransfer/ReceiveTransfer.ts:342-350 | Completion is claimed once, when the sender is done and every chunk is accepted |
| `ReceiveTransfers.ReceiveTransfer.JobStarts` | packages/sdk/src/filetransfer/ReceiveTransfer.ts:330-334 | A queued write is skipped after the end, otherwise hashed or written |
| `ReceiveTransfers.ReceiveTransfer.JobHashed` | packages/sdk/src/filetransfer/ReceiveTransfer.ts:333 | The digest takes the chunk before it is written |
| `ReceiveTransfers.ReceiveTransfer.JobWritten` | packages/sdk/src/filetransfer/ReceiveTransfer.ts:334 | The chunk is written at its offset, without a second check of the state |
| `ReceiveTransfers.ReceiveTransfer.JobFails` | packages/sdk/src/filetransfer/ReceiveTransfer.ts:335-338 | A failing write fails the transfer and aborts the sink |
| `ReceiveTransfers.ReceiveTransfer.WritesDone` | packages/sdk/src/filetransfer/ReceiveTransfer.ts:352-370 | With all writes done a missing digest is a mismatch when one is required |
| `ReceiveTransfers.ReceiveTransfer.DigestFinalized` | packages/sdk/src/filetransfer/ReceiveTransfer.ts:370-385 | Tags are compared and the sink is closed, without a second check of the state |
| `ReceiveTransfers.ReceiveTransfer.FinalizeFails` | packages/sdk/src/filetransfer/ReceiveTransfer.ts:370 | A rejecting digest leaves the completion claimed and nothing else |
| `ReceiveTransfers.ReceiveTransfer.CloseSink` | packages/sdk/src/filetransfer/ReceiveTransfer.ts:385-387 | Closing starts whatever `transitionTo` answered |
| `ReceiveTransfers.ReceiveTransfer.SinkClosed` | packages/sdk/src/filetransfer/ReceiveTransfer.ts:387-396 | The bytes are kept, the sender is told, and the state moves only if it may |
| `ReceiveTransfers.ReceiveTransfer.SinkCloseFails` | packages/sdk/src/filetransfer/ReceiveTransfer.ts:389-392 | A failing close fails the transfer |
| `ReceiveTransfers.ReceiveTransfer.AbortSink` | packages/sdk/src/filetransfer/ReceiveTransfer.ts:321-325 | The sink is aborted at most once |
| `GossipCluster.ClaimsAreBounded` | packages/core/src/Gossip.ts:135-192 | In every reachable cluster, with any loss, duplication and reordering, every record and every entry in flight about X has at most X's own incarnation if alive and at most one more if dead |
| `GossipCluster.OnlyDeathIsRefuted` | packages/core/src/Gossip.ts:293-307 | Whatever a member must refute is a claim of its own death, at its own incarnation or one above |
| `GossipCluster.RefutationsAreCheap` | packages/core/src/Gossip.ts:262-270 | One delivered message raises a member's own incarnation by at most two, however many claims it carries |
| `GossipCluster.TwoTicksRevive` | packages/core/src/Gossip.ts:214-240 | Two ticks of a member that believes itself alive produce an entry that revives it at any other member that stayed as it was meanwhile, whatever that one believed; a time-out of its own in between is not covered |
| `GossipCluster.ApplyKeeps` | packages/core/src/Gossip.ts:135-222 | Every step of the cluster keeps the bound on claims |
| `GossipLaws.RankIsFaithful` | packages/core/src/Gossip.ts:321-331 | The rank orders claims by incarnation, then dead over alive, and tells them apart |
| `GossipLaws.MergeIsMax` | packages/core/src/Gossip.ts:293-352 | Merging moves a non-self record to the maximum of (incarnation, dead over alive) |
| `GossipLaws.MergeAllIsMax` | packages/core/src/Gossip.ts:262-270 | A whole message moves each non-self record to the maximum of what was known and the highest valid claim in it |
| `GossipLaws.MergeAllIgnoresOrderAndDuplicates` | packages/core/src/Gossip.ts:262-270 | Two messages with the same valid entries, in any order and multiplicity, leave the same incarnation and liveness for every other node |
| `GossipLaws.BatchingDoesNotMatter` | packages/core/src/Gossip.ts:262-270 | Two runs of messages with the same entries between them, however batched, repeated, ordered and timed, leave the same incarnation and liveness for every other node |
| `GossipLaws.SameRankSameClaim` | packages/core/src/Gossip.ts:321-331 | Equal ranks are equal incarnations and liveness |
| `GossipLaws.DigestIsJoined` | packages/core/src/Gossip.ts:224-240 | Receiving a digest makes the receiver's view of every third node the join of both views |
| `GossipLaws.ExchangeAgrees` | packages/core/src/Gossip.ts:224-270 | After an exchange both ways two members agree about every third one |
| `GossipLaws.OperationsGrow` | packages/core/src/Gossip.ts:135-192 | Receiving, starting, stopping, registering and deregistering never lower any record |
| `GossipLaws.SweepForgetsOnlyTombstones` | packages/core/src/Gossip.ts:355-374 | The sweep raises records and forgets exactly the expired tombstones of other nodes |
| `GossipLaws.ReceivePublishes` | packages/core/src/Gossip.ts:262-270 | After a message the last published snapshot names exactly the other nodes believed alive |
| `GossipLaws.SweepPublishes` | packages/core/src/Gossip.ts:355-374 | So it does after a sweep |
| `GossipLaws.OperationsPublish` | packages/core/src/Gossip.ts:135-222 | So it does after every other operation |
| `GossipSpec.WireRoundTrip` | packages/core/src/Gossip.ts:278-291 | An entry a member sends is valid at the receiver and read back unchanged |
| `Gossip.GossipMembership.Merge` | packages/core/src/Gossip.ts:293-353 | One wire entry: rejected, refuted, added or merged, and the answer tells whether another node's liveness changed |
| `Gossip.GossipMembership.OnReceive` | packages/core/src/Gossip.ts:262-270 | The loop over a message; watchers are notified when something changed |
| `Gossip.GossipMembership.Sweep` | packages/core/src/Gossip.ts:355-374 | The loop over the table: timeouts, tombstones and seeds, with at most one notification |
| `Gossip.GossipMembership.Start` | packages/core/src/Gossip.ts:135-150 | Revives the member itself and notifies |
| `Gossip.GossipMembership.Stop` | packages/core/src/Gossip.ts:152-163 | Announces its own death once |
| `Gossip.GossipMembership.Register` | packages/core/src/Gossip.ts:165-182 | Re-registers itself or adds a seed |
| `Gossip.GossipMembership.Deregister` | packages/core/src/Gossip.ts:184-192 | Declares a live record dead with a higher incarnation |
| `Gossip.GossipMembership.Tick` | packages/core/src/Gossip.ts:214-222 | Bumps itself, sweeps and gossips the whole table |
| `Gossip.GossipMembership.PickTargets` | packages/core/src/Gossip.ts:242-260 | Distinct addresses, all of them eligible, as many as the fanout allows |
| `CascadePlan.PlanCascadeTree` | packages/sfu/src/CascadeTree.ts:99-175 | The plan is the fanout-ary heap over the origin and a prefix of the pool, links are its edges, no tier is opened needlessly, seats go to leaves within capacity, and served is the minimum of demand and leaf capacity; from distinct ids no node is placed twice; invalid arguments are refused exactly |
| `CascadePlan.BuildTree` | packages/sfu/src/CascadeTree.ts:128-156 | The outer loop: tiers are added until the last one suffices or the pool is empty |
| `CascadePlan.PlaceTier` | packages/sfu/src/CascadeTree.ts:133-152 | One tier fills the frontier's children in order |
| `CascadePlan.PlaceChildren` | packages/sfu/src/CascadeTree.ts:135-149 | One parent takes up to fanout nodes from the front of the pool |
| `CascadePlan.MarkRelays` | packages/sfu/src/CascadeTree.ts:153 | Exactly the frontier nodes that got children become relays, never the origin |
| `CascadePlan.SeatViewers` | packages/sfu/src/CascadeTree.ts:158-164 | Leaves are filled in placement order until nobody is left |
| `CascadePlan.LinksAreParentChildPairs` | packages/sfu/src/CascadeTree.ts:146-147 | A link is in the plan if and only if its end is a child of its start |
| `CascadePlan.FanoutRespected` | packages/sfu/src/CascadeTree.ts:134-151 | No node forwards to more than fanout others |
| `CascadePlan.ShortfallWithIdleNodesIff` | packages/sfu/src/CascadeTree.ts:132-174 | Every plan of a request falls short while nodes are left over if and only if the tier it stops at, a slice of origin and pool that the request determines, seats fewer than the demand |
| `CascadePlan.LeftOverIff` | packages/sfu/src/CascadeTree.ts:132-156 | Nodes are left over if and only if some tier suffices by `viewersPerNode` before all are used; the first such tier is the last of the plan |
| `CascadePlan.NeverIdleIffAmple` | packages/sfu/src/CascadeTree.ts:108-174 | No request over a capacity map ever falls short with nodes left over if and only if every node but the origin seats at least `viewersPerNode` |
| `CascadePlan.ShortfallOnlyWhenExhausted` | packages/sfu/src/CascadeTree.ts:166-174 | With such capacities, unmet viewers mean that every available node was placed |
| `CascadePlan.SmallNodesLeaveOthersIdle` | packages/sfu/src/CascadeTree.ts:132-174 | One smaller node is enough to break it: two of three nodes are placed, they do not suffice, the third stays idle |
| `CascadeTree.CascadeTree.Build` | packages/sfu/src/CascadeTree.ts:298-339 | Plans over the active nodes, stores the plan and moves the links of this room only |
| `CascadeTree.CascadeTree.DetachTree` | packages/sfu/src/CascadeTree.ts:366-376 | Drops the room and all its links |
| `CascadeTree.CascadeTree.OnNodeGone` | packages/sfu/src/CascadeTree.ts:249-268 | Rooms without the node are untouched, rooms rooted at it are dropped, the others are rebuilt without any inactive relay |
| `CascadeTree.CascadeTree.Diff` | packages/sfu/src/CascadeTree.ts:341-352 | Exactly the links that changed are announced, the dropped ones first and each group in plan order, so the bridge ends with the new plan's links |
| `CascadeTree.RepairIsLocal` | packages/sfu/src/CascadeTree.ts:249-268 | Repairing one room leaves the repair of every other room as it was |
| `CascadeBridge.CascadeBridge.OnLinkCreated` | packages/sfu/src/CascadeBridge.ts:69-74 | A created link enters bridge and media plane alike |
| `CascadeBridge.CascadeBridge.OnLinkDropped` | packages/sfu/src/CascadeBridge.ts:76-83 | A dropped link leaves both |
| `CascadeBridge.CascadeBridge.OnTreeDropped` | packages/sfu/src/CascadeBridge.ts:85-87 | A dropped tree leaves no entry behind |
| `CascadeBridge.CascadeBridge.Detach` | packages/sfu/src/CascadeBridge.ts:97-109 | Detaching leaves no link on the media plane |
| `CascadingRouter.CascadingRouter.AttachRoom` | packages/sfu/src/CascadingRouter.ts:126-158 | First attach assigns, later ones add at most one cascade node, repeats change nothing |
| `CascadingRouter.CascadingRouter.DetachRoom` | packages/sfu/src/CascadingRouter.ts:167-178 | The room leaves assignments and cascades |
| `CascadingRouter.CascadingRouter.ReleaseRoom` | packages/sfu/src/CascadingRouter.ts:68-87 | A room whose primary is lost goes with all its cascade nodes and routes |
| `CascadingRouter.CascadingRouter.DropCascade` | packages/sfu/src/CascadingRouter.ts:88-99 | A lost cascade node goes alone |
| `CascadingRouter.CascadingRouter.HandleNodeGone` | packages/sfu/src/CascadingRouter.ts:67-100 | Afterwards the lost node is neither primary nor cascade node anywhere and other rooms are as before |
| `CascadingRouter.Extended` | packages/sfu/src/CascadingRouter.ts:132-145 | Adding a cascade node keeps cascades distinct and different from the primary, and adds exactly one route |
| `CascadingRouter.Dropped` | packages/sfu/src/CascadingRouter.ts:88-99 | Dropping one removes exactly its route |
| `SfuBridge.SfuBridge.OnRoomAssigned` | packages/sfu/src/SfuBridge.ts:59-62 | The primary's route is added |
| `SfuBridge.SfuBridge.OnCascadeCreated` | packages/sfu/src/SfuBridge.ts:64-73 | The cascade node and its route are added |
| `SfuBridge.SfuBridge.OnRoomDetached` | packages/sfu/src/SfuBridge.ts:75-79 | All routes of the room go |
| `SfuBridge.SfuBridge.OnCascadeDropped` | packages/sfu/src/SfuBridge.ts:81-88 | One cascade node and its route go |
| `SfuBridge.SfuBridge.Detach` | packages/sfu/src/SfuBridge.ts:105-127 | Takes down exactly what it set up; when it saw everything the media plane is left empty |
| `SfuMedia.ReferenceSfuMedia.AddRoute` | packages/sfu/src/ReferenceSfuMedia.ts:50-56 | Adds a route once |
| `SfuMedia.ReferenceSfuMedia.RemoveRoute` | packages/sfu/src/ReferenceSfuMedia.ts:58-64 | Removes a room |
| `SfuMedia.ReferenceSfuMedia.RemoveCascadeRoute` | packages/sfu/src/ReferenceSfuMedia.ts:70-75 | Removes one route and an emptied room |
| `SfuMedia.ReferenceSfuMedia.PipeLink` | packages/sfu/src/ReferenceSfuMedia.ts:77-84 | Adds a link once |
| `SfuMedia.ReferenceSfuMedia.UnpipeLink` | packages/sfu/src/ReferenceSfuMedia.ts:86-92 | Removes one link and an emptied room |
| `SfuSystem.Sfu.AddNode` | packages/sfu/src/SfuCluster.ts:124-135 | A new healthy node, replacing one of the same id, keeps every guarantee of the control plane; a new id touches no tree and no room |
| `SfuSystem.Sfu.RemoveNode` | packages/sfu/src/SfuCluster.ts:144-157 | A node that was not draining is repaired away from in every tree and room by each tracker that had not reported it, which is both if it was healthy; one removed while draining keeps what it serves |
| `SfuSystem.Sfu.MarkFailed` | packages/sfu/src/SfuNode.ts:105-115 | Every tree the node took part in is rebuilt over active nodes or dropped with its origin, every room it served is cleared of it, and all others stay as they were |
| `SfuSystem.Sfu.MarkRecovered` | packages/sfu/src/SfuNode.ts:123-128 | A recovered node may be reported again |
| `SfuSystem.Sfu.SetDraining` | packages/sfu/src/SfuNode.ts:172-190 | Draining moves nothing that is already placed |
| `SfuSystem.Sfu.NodeLost` | packages/sfu/src/NodeFailureTracker.ts:40-44 | Both trackers fire once per loss |
| `SfuSystem.Sfu.Build` | packages/sfu/src/CascadeTree.ts:298-339 | The room's tree is for the given origin and demand, planned over the active nodes, and the whole plane stays in agreement |
| `SfuSystem.Sfu.DetachTree` | packages/sfu/src/CascadeTree.ts:366-376 | And after a detach |
| `SfuSystem.Sfu.AttachRoom` | packages/sfu/src/CascadingRouter.ts:126-158 | And after an attach to an active node |
| `SfuSystem.Sfu.DetachRoom` | packages/sfu/src/CascadingRouter.ts:167-178 | And after a room leaves |
| `SfuSystem.Sfu.DetachBridges` | packages/sfu/src/SfuBridge.ts:105-127 | Detaching both bridges leaves the media plane without links and routes |
| `SfuSystem.NoFailedNodeServes` | packages/sfu/src/NodeFailureTracker.ts:30-54 | Under the invariant no registered failed node is a non-origin member of any plan, nor primary or cascade node of any room |
| `SfuSystem.TreesServedAfterLoss` | packages/sfu/src/CascadeTree.ts:249-268 | If every room is repaired after a loss, every relay and edge is still in service |
| `SfuSystem.ServiceKept` | packages/sfu/src/SfuNode.ts:123-128 | A change that takes no node out of service leaves every plan and room served |
| `SfuCluster.SfuCluster.GetActiveNodes` | packages/sfu/src/SfuCluster.ts:110-116 | Distinct ids, exactly those neither failed nor draining |
| `SfuCluster.NodeFailureTracker.Attach` | packages/sfu/src/NodeFailureTracker.ts:46-54 | Listening anew forgets an old report, once |
| `SfuCluster.NodeFailureTracker.FireGone` | packages/sfu/src/NodeFailureTracker.ts:40-44 | Fires if and only if the loss was not reported yet |
| `SfuCluster.NodeFailureTracker.Recovered` | packages/sfu/src/NodeFailureTracker.ts:46-54 | A recovery clears the report of a watched node |
| `Roster.ClientsAgreeWithServer` | packages/signaling/src/Room.ts:146-272 | Over every run without a lost reconnection, folding the SDK room's handling over what was sent to a peer that missed nothing gives exactly the server's peers |
| `Roster.AgreementKeptIff` | packages/signaling/src/Room.ts:146-272 | One operation keeps agreement if and only if it is not a reconnection whose `room-joined` throws, or every other peer had missed a message before it |
| `Roster.LostReconnectionAgreesIff` | packages/signaling/src/Room.ts:184-200 | A rolled-back reconnection keeps agreement if and only if every other peer had missed a message before it |
| `Roster.LostReconnectionHappens` | packages/signaling/src/Room.ts:184-200 | The failing case: a run of three joins after which a peer that missed nothing believes in one that is gone |
| `Roster.RoomLifecycle` | packages/signaling/src/Room.ts:89-94 | Over every run: the peer limit holds, joins minus leaves is the peer count, the room closes at most once and a closed room is empty |
| `Roster.StateMovesForward` | packages/signaling/src/Room.ts:89-94 | Over every run the state only moves forward |
| `Roster.NobodyJoinsAfterClosing` | packages/signaling/src/Room.ts:146-161 | Once a run has closed the room, nothing that follows admits anybody or emits anything |
| `SignalingRoom.SignalingRoom.AddPeer` | packages/signaling/src/Room.ts:146-222 | Admission, the room-joined message, the announcements and the rollback when it cannot be sent |
| `SignalingRoom.SignalingRoom.RemovePeer` | packages/signaling/src/Room.ts:335-352 | Departure, closing of an empty room or announcements to the rest |
| `SignalingRoom.SignalingRoom.KickPeer` | packages/signaling/src/Room.ts:236-249 | The peer is told, removed and reported |
| `SignalingRoom.SignalingRoom.OnDisconnected` | packages/signaling/src/Room.ts:212-216 | Only the connection currently admitted under the id removes it |
| `SignalingRoom.SignalingRoom.ForceClose` | packages/signaling/src/Room.ts:429-443 | An idle room tells everybody, empties and closes |
| `SignalingRoom.SignalingRoom.SendToAll` | packages/signaling/src/Room.ts:320-333 | The fan-out loop reaches every addressee but the excluded one, and one failing send stops nobody else |
| `SignalingRoom.SdkRoom.HandleMessage` | packages/sdk/src/Room.ts:244-278 | Each message has its one effect on the replica |
| `SignalingRoom.SdkRoom.Refresh` | packages/sdk/src/Room.ts:292-302 | A later room-joined replaces the roster |
| `SignalingRoom.SdkRoom.SeedPeers` | packages/sdk/src/Room.ts:310-313 | Self and the listed peers are added |
| `SignalingRoom.SdkRoom.Replay` | packages/sdk/src/Room.ts:244-278 | Handling a log in order gives the fold the roster theorem speaks of |
| `Reconciler.MembershipReconciler.Sync` | packages/core/src/MembershipReconciler.ts:55-75 | However handlers re-enter, the outermost sync ends with the callbacks having told the last snapshot delivered: the given one, or the last report of the handlers that ran; inside a pass it only queues |
| `Reconciler.MembershipReconciler.Watch` | packages/core/src/MembershipReconciler.ts:42-45 | Outermost, nothing is pending afterwards and listeners know exactly the nodes of the last report, this one or the last one a handler made while it ran |
| `Reconciler.MembershipReconciler.Listed` | packages/core/src/MembershipReconciler.ts:46-48 | The first list only adds, is ignored once a watch reported, and is superseded by a watch that reports while it is applied |
| `Reconciler.MembershipReconciler.Apply` | packages/core/src/MembershipReconciler.ts:77-95 | One pass turns what listeners know into the snapshot, or adds the snapshot to it, with no callback that is not called for |
| `Reconciler.AddAndRemoveAlternate` | packages/core/src/MembershipReconciler.ts:77-95 | Between two additions of an id lies its removal, and between two removals its addition |
| `RoomRouting.RoomRouter.OnMembership` | packages/signaling/src/RoomRouter.ts:36-60 | Ring keys and table keys are the snapshot's ids and this node, with each node's latest info and weight |
| `RoomRouting.RoomRouter.OnListed` | packages/signaling/src/RoomRouter.ts:36-51 | The first list leaves every listed node in the table |
| `RoomRouting.RoomRouter.Upsert` | packages/signaling/src/RoomRouter.ts:53-60 | Ring, table and weights stay in step when a node is added or updated |
| `RoomRouting.RoomRouter.OnRemove` | packages/signaling/src/RoomRouter.ts:43-48 | They stay in step when a node goes; this node never does |
| `RoomRouting.RoomRouter.Route` | packages/signaling/src/RoomRouter.ts:62-68 | Every room has an owner: a known node that no known node outscores, local exactly when it is this one |
| `RoomRouting.RoutedIsKnown` | packages/signaling/src/RoomRouter.ts:40-49 | Whatever the callbacks, the table is what they told and always this node besides |
| `Rendezvous.HashRing.Add` | packages/core/src/HashRing.ts:72-85 | A weight that is not positive is refused; a known id keeps its place with its new weight |
| `Rendezvous.HashRing.Remove` | packages/core/src/HashRing.ts:93-95 | The id leaves the ring, and the answer tells whether it was there |
| `Rendezvous.HashRing.Get` | packages/core/src/HashRing.ts:137-148 | The scan for the best score finds the head of the ranking |
| `Rendezvous.HashRing.GetN` | packages/core/src/HashRing.ts:157-165 | The first n ids of the ranking |
| `Rendezvous.SortIsStable` | packages/core/src/HashRing.ts:163 | Sorting gives a descending permutation with ties in insertion order |
| `Rendezvous.BestIsFirst` | packages/core/src/HashRing.ts:137-165 | `get` is the first of `getN`, ties included |
| `Rendezvous.RankingWithout` | packages/core/src/HashRing.ts:93-165 | The ranking over a ring without x is the full ranking with x taken out, ties included |
| `Rendezvous.OnlyKeysOfXMove` | packages/core/src/HashRing.ts:36-39 | Rings that differ only in node x give a key different owners only if one of them is x |
| `Rendezvous.RemovalMovesOnlyOwnKeys` | packages/core/src/HashRing.ts:93-95 | Removing x leaves every key x did not own where it was |
| `Rendezvous.OrderMattersOnlyForTies` | packages/core/src/HashRing.ts:36-39 | The owner is independent of insertion order if and only if no two nodes tie for the highest score |
| `Rendezvous.RingsWithSameWeightsAgree` | packages/core/src/HashRing.ts:137-148 | Two rings with the same ids and weights name the same owner, whatever their history, when one node scores highest |
| `Rendezvous.OwnerScoresHighest` | packages/core/src/HashRing.ts:137-148 | The owner is on the ring and nobody on the ring scores higher |
| `RateLimiting.RateLimiter.Allow` | packages/signaling/src/RateLimiter.ts:23-32 | On a clock that does not go back: accepted if and only if the window ending now holds fewer than the maximum of all calls ever accepted, although expired hits are gone |
| `RateLimiting.NoWindowOverfills` | packages/signaling/src/RateLimiter.ts:23-32 | Over whole runs on such a clock no window of that length holds more than the maximum of accepted calls |
| `RateLimiting.NeverOverfillsIffRoomy` | packages/signaling/src/RateLimiter.ts:23-32 | Whole runs on any clock: no window ever holds more than the maximum if and only if, at each accepted call, no window that would hold it was full |
| `RateLimiting.SurvivesAnyClockIff` | packages/signaling/src/RateLimiter.ts:18-32 | No run on any clock overfills a window if and only if the limit is at most one or the window is empty |
| `RateLimiting.OverfillsOnlyByReturning` | packages/signaling/src/RateLimiter.ts:23-32 | A simpler sign on any clock, sufficient only: if no call is accepted within one window of a hit already discarded, no window overfills |
| `RateLimiting.CallKeepsFaith` | packages/signaling/src/RateLimiter.ts:23-32 | The trimmed buffer decides as the whole history would |
| `RateLimiting.ClockGoingBackOverfills` | packages/signaling/src/RateLimiter.ts:23-32 | On a clock that goes back the bound fails: four calls put three hits into a window of two |

## Left out

- CascadePlan.PlanCascadeTree: keeps a list of nodes where the source keeps a map, so a repeated id in the pool is placed twice instead of collapsing; the cluster never repeats one.
- RateLimiting.RateLimiter.Allow: its own contract speaks of the window bound only while the clock does not go back; runs on other clocks are covered by the lemmas about AcceptedOf.
- Roster.ClientsAgreeWithServer: says nothing of clients that missed a message, nor of roles and metadata.
- Gossip.GossipMembership.PickTargets: which eligible addresses are drawn is left to chance.
- CascadingRouter.CascadingRouter.AttachRoom: the placement strategy is a parameter that returns an active node or none.
- Whether a transfer ever completes: Completing cannot be reached from Paused, so no liveness is claimed.
- Sockets, data channels, timers, files and clocks: environment steps and parameters. Control sends never fail and the control link's queue limit is not modelled.
- A ReceiveTransfer created anew after one with the same id ended, and the manager's parking of early channels.
- SHA-256, the 53-bit string hash and the logarithm behind scores: parameters. Floating-point rounding, NaN and infinite weights.
- Link keys are pairs, which assumes that node ids contain no `>`. Negative viewer counts.
- Room tracking on nodes, drain timing, health-check streaks, load and rebalancing; draining is a flag.
- GossipCluster.TwoTicksRevive: says nothing of a receiver that times the member out between the two ticks.
- Re-attaching a bridge after it was detached, and drivers whose calls fail.
- Handlers that call back into the emitter, except for the reconciler, whose guard is the point. The reconciler's handlers re-enter finitely often, by way of its watch, and do not throw.
- Iteration order of maps in gossip tables, snapshots and fan-outs: sets, so the theorems hold for any order.
- The order of departures when a room is closed by force.
- Idle timers, dispose, relays and presence payloads of rooms; the last published gossip snapshot is compared on ids of other nodes, not on infos or on the member itself.
- Configuration defaults, option parsing, logging, metrics and error texts.
