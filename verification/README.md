# StageForge backend: proofs

This project models the stateful core of the StageForge backend in Dafny and proves what it is relied on for.
`dafny verify dfyconfig.toml` checks all of it.

- **Authorization audit log** (`HashChain`, `AuditDisk`, `AuditRepository`). The disk is an active file, a map of
  segments and a retention anchor, beside a ghost log of every event ever appended. Append, rotate and prune are broken
  into single file-system steps, and a crash may stop them between any two. The digest is a parameter; where a result
  needs it, it is ideal (injective, never the zero hash).
- **DAW sessions** (`DawDocument`, `DawEdits`, `DawMeaning`, `DawMoves`, `DawCommit`, `DawSaved`, `DawSessionStore`,
  `RenderPlan`, with `ClipFades`, `Automation`, `StableSort`). A session denotes, for each frame, the contributions heard there: source
  frame, gain, pan, bus, automation and the ramps of the fade. Edits, plans and saved histories are measured against it.
- **Rendering** (`Resampling`, `Mixing`, `SoundLaws`, `OfflineRender`, `Playback`). Block loops, slices of source files, loops and the
  limiter, against the sound of a single frame. Samples are reals; the square root of the pan law and the quarter sine
  wave of the equal-power fade are arbitrary functions.
- **Rate limiting** (`RateLimiter`, `RateConformance`, `RateWorkload`). Token buckets over reals and a clock that never goes back.
- **Session channel and framing** (`Bytes`, `SessionChannel`, `SessionRuns`, `LocalIpc`). Codec, replay fence, key rotation
  with grace, stream reassembly. The authentication tag is an arbitrary function; in runs, a frame that carries a valid
  tag was sent.
- **Replication and handoff** (`Replication`, `ReplicationFollow`, `ReplicationOverlap`, `HandoffEvidence`,
  `HandoffDecision`). Nodes over a network that loses, repeats and reorders, with a delivery as one step or as two; what a
  standby follows through a failover; evidence intervals and the readiness they justify.
- **Venue patches and punch capture** (`VenuePatch`, `VenueRuns`, `VenueSchedule`, `PunchCapture`). A store that must behave as a stack, and the
  windowing of a block stream.

`Options`, `Numbers` and `Sequences` hold what several modules share.

## Where the code does less than its names suggest

Each of these is proved, with the exact condition under which the stronger reading holds.

- A write cut just short of its newline leaves a record that scans; the next append runs into it, reports success, and the
  disk scans no more (`AuditDisk.UnendedThenWritten`; exactly then: `AuditDisk.EveryBoundaryRecovers`,
  `AuditRepository.StateRepository.Append`).
- Every crash between the rename of a rotation and its prune leaves one segment more, and crashes accumulate
  (`AuditDisk.CrashesAccumulate`). A successful append keeps the number within the one retained exactly if it was within
  it before or the append rotated (`AuditRepository.StateRepository.Append`); the bytes are bounded by the files there are
  (`AuditDisk.FittingBytesBounded`).
- Trimming a clip with an unanchored fade re-anchors the fade (`DawMeaning.TrimRestricts`, `DawMeaning.TrimLevels`).
- Punch capture clamps corrected starts at zero, so blocks before the latency overlap
  (`PunchCapture.EarlyBlocksOverlap`; when that harms a capture: `PunchCapture.RunSelectsWindow`).
- Prebuffer readiness does not compare where the rendered run begins with the target
  (`HandoffDecision.TargetWindowRendered`, `HandoffDecision.ReadyWithUnrenderedTarget`).
- The content hash of rendered blocks may change within a run; readiness compares only the last one
  (`HandoffDecision.PrebufferIsRendered`, `HandoffDecision.ReadyWithMixedContent`).
- The evidence of a live slot does not break when its reports change source, so a ready slot's run may begin with another
  source (`HandoffDecision.LiveTakeoverIsFed`, `HandoffDecision.ReadyWithMixedRun`).
- Two sources that share an epoch and a revision can have an envelope applied twice, and so can a zero and a negative
  revision; nothing else can (`Replication.SharedEpochRepeats`, `Replication.AppliedTwiceExactly`).
- The check of an envelope and its mark are two steps. When two deliveries overlap, any envelope can be applied twice and
  the applied epoch can go back (`ReplicationOverlap.OverlapTwiceExactly`, `ReplicationOverlap.OverlapTakesEpochBack`;
  exactly when the epoch holds: `ReplicationOverlap.EpochHoldsExactly`). Deliveries that do not overlap are as good as
  single steps (`ReplicationOverlap.NonOverlappingIsSerial`).
- A negative revision is accepted in an epoch whose applied revision is zero (`Replication.RevisionDrops`,
  `Replication.RevisionsAdvance`).
- An envelope made from a snapshot without a revision does not pass its own check (`Replication.MadeEnvelopeVerifies`).
- A channel restored from an old checkpoint accepts once more what it accepted since, unless the key epoch has moved past
  what the checkpoint knows (`SessionChannel.RestoredReplays`).
- At a tempo beyond any musical one the next bar can be rounded to time zero, and a commit that waits for it waits for
  ever; every other one is pushed at the first moment that reaches its bar or cue (`VenueSchedule.NeverAtZero`,
  `VenueSchedule.CommitsWhenReached`).
- Validating a committed transaction strands its layer: it and every layer below it stay for good
  (`VenueRuns.RollbackReaches`, `VenueRuns.StrandedForGood`).

## Model

| member | source | states |
|---|---|---|
| HashChain.VerifyHashLinked | backend/persistence.py:141-163 | The verify loop accepts exactly the files whose every non-blank line extends the chain, and reports their record count and head |
| HashChain.JudgeMeans | backend/persistence.py:141-163 | The verdict on a file, read off as a property of the file: intact or not, with its count and head |
| HashChain.JudgeStops | backend/persistence.py:149-162 | A file with one bad line is refused with the count of the records before it, and the error says whether the line could be parsed |
| HashChain.JudgeSuffix | backend/persistence.py:149-162 | What follows a bad line never changes the verdict |
| HashChain.HeadDeterminesSuffix | backend/persistence.py:125-129 | Under an ideal digest, equally many events with one head start from one hash and are the same events |
| HashChain.HeadDeterminesHistory | backend/persistence.py:125-129 | Under an ideal digest the head from zero determines the whole history, its length included |
| HashChain.TamperEvident | backend/persistence.py:141-163 | Two files that verify from zero with one head hold the same events in records that differ at most in what verification does not look at: no insertion, deletion, reorder or edit of an event survives |
| AuditDisk.RescanFindsLog | backend/persistence.py:209-261 | Wherever a disk is recoverable, a full rescan finds the head and the total record count of every event ever appended |
| AuditDisk.RetainedTamperEvident | backend/persistence.py:209-242 | Retained records that verify from the anchor to the log's head are the log's own suffix, and the anchor commits the rest |
| AuditDisk.StepKeepsRecoverable | backend/persistence.py:299-386 | Each single file-system step of write, rotate, anchor commit and unlink, but for a write onto an unended record, keeps pruned prefix, segments and active file together equal to the log |
| AuditDisk.StepScans | backend/persistence.py:299-386 | A step leaves a disk that a rescan accepts exactly when it found one and did not write onto an unended record |
| AuditDisk.EveryBoundaryRecovers | backend/persistence.py:299-386 | After any run of steps stopped at any boundary, the disk scans exactly when no write ran into an unended record, and then with the head and the total count of the events written so far |
| AuditDisk.UnendedThenWritten | backend/persistence.py:372-381 | A two-step run after which the disk does not scan |
| AuditDisk.GluedNeverScans | backend/persistence.py:149-161 | A disk whose last write ran into an unended record is refused |
| AuditDisk.TornNeverScans | backend/persistence.py:374-381 | A partial write that left a broken line is always refused by the next scan |
| AuditDisk.FittingBytesBounded | backend/persistence.py:340-386 | Files that fit hold at most (segments + 1) * rotateBytes bytes, however many segments crashes left |
| AuditDisk.RetainedBytesBounded | backend/persistence.py:340-386 | A compact disk, one with no more segments than are retained, holds at most (retainSegments + 1) * rotateBytes bytes |
| AuditDisk.CrashesAccumulate | backend/persistence.py:340-357 | From an empty directory, n crashes between rename and prune leave n segments, for every n |
| AuditRepository.SegmentPaths | backend/persistence.py:197-207 | The segment numbers on disk, all of them, ascending, or a refusal exactly when something else lies among them |
| AuditRepository.StateRepository.constructor | backend/persistence.py:43-58 | A repository starts on any disk with nothing cached |
| AuditRepository.ScanAudit | backend/persistence.py:209-275 | The scan succeeds exactly on disks that scan; its state matches the disk, its report describes it, and half-deleted pruned files are counted as stale and never read |
| AuditRepository.ScanSegments | backend/persistence.py:217-233 | The segment loop stops only on disks that do not scan, and otherwise has read every live segment, in sequence, along one chain |
| AuditRepository.LiveSuffix | backend/persistence.py:301-304 | Past the stale files, the listed segments are exactly the live ones, in sequence |
| AuditRepository.VerifyOldest | backend/persistence.py:311-332 | Re-verifying the oldest segments yields the anchor that commits exactly them |
| AuditRepository.StateRepository.EnsureState | backend/persistence.py:277-297 | The state used for an append follows the disk, and equals what a rescan computes exactly while the disk scans; otherwise the append is refused and nothing changes |
| AuditRepository.StateRepository.VerifyAudit | backend/persistence.py:392-397 | Verification succeeds exactly on disks that scan, and only then replaces the cached state |
| AuditRepository.StateRepository.PruneSegments | backend/persistence.py:299-338 | Pruning, even when it stops at any step, keeps the disk scanning or not as it was, and recoverable; a complete one leaves the smaller of what there was and what is retained, and no other file among the segments |
| AuditRepository.StateRepository.PruneOldest | backend/persistence.py:311-338 | The stale files and the oldest segments go once an anchor stands for them: exactly the retained number of segments is left, and nothing else |
| AuditRepository.StateRepository.Unlink | backend/persistence.py:304-310 | Unlinking deletes exactly the files it was given, or stops anywhere; no live record is lost either way |
| AuditRepository.StateRepository.CommitOldest | backend/persistence.py:326-335 | Committing the anchor moves the oldest segments into the pruned prefix in one step |
| AuditRepository.StateRepository.Rotate | backend/persistence.py:340-357 | Rotation, even when it stops at any step, keeps the disk scanning or not as it was, and recoverable; it completes only on a disk that scans, with no active file, a fresh matching state, and one segment more or as many as are retained, every file among the segments being one of them |
| AuditRepository.StateRepository.WriteLine | backend/persistence.py:372-381 | A write puts down the line, the line without its newline, a broken part of it, or nothing |
| AuditRepository.StateRepository.MakeRoom | backend/persistence.py:364-371 | Before an append that would overflow the active file, the file is rotated away, and then the files among the segments are the live ones, no more than are retained |
| AuditRepository.StateRepository.AppendRecord | backend/persistence.py:372-386 | The write and the cache update after it, or a cache dropped on failure |
| AuditRepository.StateRepository.Append | backend/persistence.py:359-386 | A successful append keeps the disk scanning exactly when it scanned and the active file ended with a newline or was rotated away; then it writes its event once at the log's head. The cache equals a rescan exactly while the disk scans, refusals are exact, and the disk stays compact. A success leaves no more segments than are retained exactly if there were no more or it rotated; one that rotated leaves no other file |
| AuditRepository.WriteKeepsMatch | backend/persistence.py:382-385 | Updating the cached state after a write gives what a rescan of the new disk would |
| AuditRepository.AppendFollows | backend/persistence.py:382-385 | After any write the cached state follows the disk, and matches a rescan exactly if the disk scanned and ended with a newline |
| AuditRepository.RecordKeepsLog | backend/persistence.py:365-376 | On a disk that ends with a newline the record written, with its newline or without, is the next of the log |
| RateLimiter.RequestRateLimiter.Allow | backend/dev_server.py:125-144 | The decision and the new tables are those of the bucket model, eviction included |
| RateLimiter.RequestRateLimiter.constructor | backend/dev_server.py:115-123 | A limiter starts with a full aggregate bucket and no peers |
| RateLimiter.ServedExactly | backend/dev_server.py:125-144 | A request is served exactly when both buckets hold a token and the peer is known or fewer peers than there are places are short of a full bucket, so that refilled peers never keep a new one out |
| RateLimiter.EvictionInvisible | backend/dev_server.py:130-135 | Evicting full identities changes no peer's effective level, now or later |
| RateLimiter.TableBounded | backend/dev_server.py:130-135 | The peer table never exceeds its bound |
| RateLimiter.RequestMeaning | backend/dev_server.py:125-144 | One request moves only the aggregate level and its own peer's level, each by the token spent and the refill |
| RateLimiter.Conservation | backend/dev_server.py:125-144 | Over any run, what was admitted plus what is left is at most what there was plus the refill, per peer and in aggregate |
| RateLimiter.WindowBound | backend/dev_server.py:113-144 | Any window of any run with a clock that never goes back admits at most burst plus rate times its length, per peer and in aggregate |
| RateConformance.AllServedExactly | backend/dev_server.py:113-144 | A run is admitted in full if and only if every window of it keeps to burst plus rate times its length, in aggregate and for each peer, and every request finds a place in the table |
| RateConformance.FewPeersRoomy | backend/dev_server.py:130-135 | With no more peers than places, every request finds one |
| RateWorkload.SimulateRatePolicy | backend/http_workload.py:37-68 | For every number of ticks no controller is denied, all four counts are known exactly, and the policy passes exactly from tick 100 on |
| RateWorkload.AbuserTurn | backend/http_workload.py:49-53 | How many of the three requests of a tick the abuser gets, from the tokens it has left |
| RateWorkload.ControllersTurn | backend/http_workload.py:54-59 | All four controllers are served on their tick |
| RateWorkload.Refill | backend/http_workload.py:60 | What ten milliseconds give back to the buckets |
| Bytes.PackUnpack | backend/session_channel.py:41-48 | A number that fits a big-endian field is read back from it |
| Bytes.UnpackPack | backend/session_channel.py:50-56 | A field is the packing of the number it holds |
| SessionChannel.UnpackPacked | backend/session_channel.py:41-56 | Every header that fits its fields is read back from its packing |
| SessionChannel.AuthenticatedSessionChannel.constructor | backend/session_channel.py:34-39 | A fresh channel, before any frame |
| SessionChannel.AuthenticatedSessionChannel.Screen | backend/session_channel.py:51-63 | The checks of a frame, in their order |
| SessionChannel.AuthenticatedSessionChannel.Encode | backend/session_channel.py:41-48 | Encoding advances the outbound sequence and produces the frame; a capability out of scope or a payload too large changes nothing, a field that overflows uses up a sequence number |
| SessionChannel.AuthenticatedSessionChannel.Decode | backend/session_channel.py:50-67 | Decoding gives the verdict of the fence checks and moves the fence, or only the reject counter |
| SessionChannel.AuthenticatedSessionChannel.Rotate | backend/session_channel.py:69-72 | A rotation needs a higher epoch, and opens a grace window counted from the last accepted sequence |
| SessionChannel.AuthenticatedSessionChannel.TakeCheckpoint | backend/session_channel.py:74-78 | A checkpoint holds both epochs, both sequences and the grace limit, and is sealed |
| SessionChannel.AuthenticatedSessionChannel.Restore | backend/session_channel.py:80-86 | Only a sealed checkpoint of the same session and capabilities is restored |
| SessionChannel.FrameRoundTrip | backend/session_channel.py:41-67 | What one side encodes its matching peer decodes, and both stay in step |
| SessionChannel.RotatedTakes | backend/session_channel.py:50-72 | After a rotation a well-made frame is accepted exactly when it is newer than the last one accepted and of the new epoch, or of the epoch just left and no further on than the grace |
| SessionChannel.FenceMoves | backend/session_channel.py:50-67 | A refused frame changes the reject counter alone; an accepted one is authentic, permitted, bounded, newer than the last, and of the current epoch or of the previous one inside the grace |
| SessionChannel.ResumedDecidesAlike | backend/session_channel.py:74-86 | A channel restored from a checkpoint accepts and refuses exactly what the original would |
| SessionChannel.ResumedSendsAlike | backend/session_channel.py:74-86 | A channel restored from a checkpoint sends on with the frames and sequence numbers the original would |
| SessionChannel.RestoredReplays | backend/session_channel.py:74-86 | Restored from an old checkpoint, a channel accepts once more a frame accepted since, exactly if the frame's epoch was current at the checkpoint, or previous and within its grace |
| SessionRuns.RunKeeps | backend/session_channel.py:41-72 | Every run of encode, deliver and rotate over a lossy, repeating, reordering network keeps the channel invariant |
| SessionRuns.AcceptedIsSubsequence | backend/session_channel.py:41-72 | Accepted frames are a strictly sequence-increasing subsequence of those sent, all of the current or the previous epoch, with at most the grace count of the previous one after a rotation |
| SessionRuns.GraceInFull | backend/session_channel.py:41-72 | A receiver that rotates ahead of its sender accepts the sender's next frames in order and whole, up to the grace past the last one it accepted, and no further one |
| SessionRuns.InStepAgain | backend/session_channel.py:69-72 | Once the sender has rotated too, the two are in step again |
| SessionRuns.DeliveriesCounted | backend/session_channel.py:50-67 | Over every run each delivery is counted once, as accepted or as rejected |
| SessionRuns.EpochsAdvance | backend/session_channel.py:50-72 | Epochs never go back, and a frame older than a once-previous epoch is never accepted again |
| LocalIpc.PacketRoundTrip | backend/local_ipc.py:19-35 | A packet encodes a frame exactly when it decodes to it |
| LocalIpc.Socket.Recv | backend/local_ipc.py:38-44 | A receive takes some, and at most the wanted, bytes off the front of the stream |
| LocalIpc.Socket.RecvExact | backend/local_ipc.py:38-44 | Exactly the bytes asked for, from however many chunks, or end of stream |
| LocalIpc.Socket.RecvFrame | backend/local_ipc.py:47-50 | The next frame depends on the bytes of the stream only, not on how they were cut |
| LocalIpc.FrameAtFront | backend/local_ipc.py:19-50 | A framed packet in front of anything is received whole, and the rest is left |
| LocalIpc.BrokenPackets | backend/local_ipc.py:25-50 | A packet cut short anywhere or with bytes after it is refused as such, and one cut short on a stream is an end of stream |
| LocalIpc.SizeRefused | backend/local_ipc.py:29-50 | A packet that announces a size out of bounds is refused, whatever follows |
| LocalIpc.MessagesArrive | backend/local_ipc.py:19-50 | The wire form of any list of messages, read frame by frame at the matching peer, gives the messages back in order and leaves nothing over |
| LocalIpc.SendMessages | backend/session_channel.py:41-48 | Encoding and framing the messages in turn puts their wire form out |
| LocalIpc.ReceiveMessages | backend/local_ipc.py:38-50 | Receiving and decoding in turn from a chunked socket gives back exactly what a matching peer sent, in order, however the wire was cut |
| Replication.MadeEnvelopeVerifies | backend/replication.py:18-88 | An envelope verifies under its secret exactly when its snapshot carries a revision |
| Replication.MadeEnvelopeCarries | backend/replication.py:18-42 | An envelope carries what it was made of, with version 2 exactly for telemetry and a signature exactly for a secret |
| Replication.SignatureBindsFields | backend/replication.py:18-88 | Two accepted envelopes with one signature agree on source, position, revision, snapshot and key, and on telemetry from version 2 |
| Replication.ReplicationTracker.SetRole | backend/replication.py:128-137 | A changed role opens a new epoch and restarts the export sequence; the same role changes nothing |
| Replication.ReplicationTracker.PromoteWithEpoch | backend/replication.py:139-146 | Promotion makes the node primary in an epoch past its own and at least the lease's |
| Replication.ReplicationTracker.AdoptEpoch | backend/replication.py:148-155 | Adoption takes a later epoch and never goes back |
| Replication.ReplicationTracker.CanApply | backend/replication.py:178-195 | The checks of an envelope, in their order |
| Replication.ReplicationTracker.ExportState | backend/replication.py:157-176 | Only a primary exports, one sequence further each time |
| Replication.ReplicationTracker.MarkApplied | backend/replication.py:197-204 | A mark makes an envelope the applied position, whatever was applied before, and keeps the epoch at least at its own |
| Replication.ReplicationTracker.ApplyReplica | backend/replication.py:178-204 | A delivery that nothing comes between: an envelope is applied exactly when the check allows, and then becomes the applied position |
| Replication.AcceptedAdvances | backend/replication.py:178-195 | An accepted envelope advances the applied position exactly unless another source of the same epoch offers no higher sequence |
| Replication.SharedEpochRepeats | backend/replication.py:178-195 | A shared epoch in which one envelope is applied twice |
| Replication.AppliedTwiceExactly | backend/replication.py:178-204 | Some run of deliveries of a set of envelopes applies one of them twice, if and only if the set holds two from different sources with one epoch, not negative, and with one revision, or the revisions zero and a negative one |
| Replication.RevisionDrops | backend/replication.py:178-195 | Within an epoch an accepted revision drops exactly when the applied one is zero and the new one negative |
| Replication.ExportsIncrease | backend/replication.py:128-176 | The positions a node exports strictly increase over any run of role changes, promotions and adoptions |
| Replication.AppliedAdvances | backend/replication.py:178-204 | At any node the applied epoch never decreases, whatever the network delivers, if no two deliveries overlap |
| Replication.RevisionsAdvance | backend/replication.py:178-204 | Over any run of deliveries that do not overlap the applied revision never drops within an epoch, exactly if no negative revision is accepted where zero was applied |
| Replication.AppliedComesFromDelivery | backend/replication.py:197-204 | The applied position is always that of an envelope delivered and accepted before |
| Replication.AppliedIncrease | backend/replication.py:178-204 | With one exporter per epoch, and deliveries that do not overlap, applied positions strictly increase and no envelope is applied twice |
| ReplicationFollow.TakenExactly | backend/replication.py:178-204 | A delivery at a standby is applied exactly when it is of a later epoch, or of the same one, onwards from its source and with no lower revision; otherwise nothing changes |
| ReplicationFollow.PrimaryFollowed | backend/replication.py:128-204 | The envelopes of any run of a node, delivered in order at a standby they lead on from, are all applied, if the show's revision never drops within an epoch |
| ReplicationFollow.FreshFollows | backend/replication.py:128-204 | A standby that has applied nothing can follow any node from any of its envelopes on |
| ReplicationFollow.FailoverFollowed | backend/replication.py:128-204 | A standby that follows one primary and then the node promoted after it applies every envelope of both |
| ReplicationFollow.DeposedIgnored | backend/replication.py:188-189 | Nothing that comes of an earlier epoch changes a standby, however much of it comes |
| ReplicationFollow.PromotionOpens | backend/replication.py:139-146 | A promotion opens the least epoch later than the node's own and no earlier than the lease's |
| ReplicationFollow.AdoptionFollows | backend/replication.py:148-155 | An adoption moves to a later epoch and keeps the role, or does nothing |
| ReplicationFollow.RoleChanges | backend/replication.py:128-137 | A node with a new role exports from the first sequence of a new epoch |
| ReplicationOverlap.EpochHoldsExactly | backend/replication.py:178-204 | With check and mark as two steps, the applied epoch never goes back over a run if and only if no mark is for an epoch below the applied one |
| ReplicationOverlap.BackwardsMeansOverlap | backend/replication.py:178-204 | A mark that takes the applied epoch back comes after another mark that came since its own check |
| ReplicationOverlap.NonOverlappingIsSerial | backend/replication.py:178-204 | A run in which nothing is marked between a check and its mark applies what the same envelopes, delivered in single steps, would: all are accepted, and the applied position is the same |
| ReplicationOverlap.OverlapTakesEpochBack | backend/replication.py:178-204 | A run of two overlapping deliveries in which the applied epoch goes from five back to three |
| ReplicationOverlap.OverlapTwiceExactly | backend/replication.py:178-204 | With overlapping deliveries, some run of a set of envelopes applies one twice, if and only if the set holds any whose epoch is not negative |
| HandoffEvidence.MergeShadowReport | backend/handoff.py:111-148 | Merging a report into a source's record, branch by branch |
| HandoffEvidence.MergeLiveReport | backend/handoff.py:150-195 | Merging an observation into a slot's record, branch by branch |
| HandoffEvidence.HandoffExecutionRegistry.ReportShadow | backend/handoff.py:111-148 | A named source's record becomes the merge of its old one and the report; no other record changes |
| HandoffEvidence.HandoffExecutionRegistry.ReportLive | backend/handoff.py:150-195 | A valid slot's record becomes the merge of its old one and the observation; no other record changes |
| HandoffEvidence.HandoffExecutionRegistry.Clear | backend/handoff.py:197-200 | Clearing forgets every record |
| HandoffEvidence.VerifiedMeansRendered | backend/handoff.py:111-148 | Execution-verified means the healthy rendered blocks since the last break tile every instant from contiguousFrom to bufferedUntil, and the frames counted are theirs, repeats too |
| HandoffEvidence.StaysVerifiedExactly | backend/handoff.py:111-148 | A verified run goes on exactly with a healthy block that follows it or lies inside it; any other breaks it, and a rendered one is counted as a break |
| HandoffEvidence.AdjacentRun | backend/handoff.py:111-148 | Healthy blocks that follow one another are one verified run from the first to the last, without a break |
| HandoffEvidence.VerifiedMeansFed | backend/handoff.py:150-195 | The same for a live slot: observed blocks since the last break tile the observed stretch with no sequence skipped, and the frames counted are those of these blocks, repeats too |
| HandoffEvidence.StaysFedExactly | backend/handoff.py:150-195 | A fed run goes on exactly with the next numbered block that follows it, or its last number again inside it; any other breaks it, and an observed one is counted as a break |
| HandoffEvidence.NumberedRun | backend/handoff.py:150-195 | Healthy blocks numbered in turn that follow one another are one fed run without a break |
| HandoffEvidence.UnchangingThroughout | backend/handoff.py:170-180 | A run of reports names one source, or one content, throughout exactly if no two in a row differ |
| HandoffDecision.PolicyInRange | backend/handoff.py:32-43 | Every bounded policy value becomes the nearest value of its range, and the flags are left alone |
| HandoffDecision.TakeoverExactly | backend/handoff.py:231-375 | From what goes in: a standby is ready for the takeover exactly when it hears from the primary and is near it, every active slot is fed, and with outputs running and no slot active a source is required and all are rendered ahead |
| HandoffDecision.LogicExactly | backend/handoff.py:300-329 | When the program could be taken over but for the evidence: near the primary, and with the redundancy and the sources that the policy asks for |
| HandoffDecision.ActionExactly | backend/handoff.py:331-350 | What is recommended, read off the verdict: to wait, to hold, to transfer or to take over, each exactly when it may be |
| HandoffDecision.PrebufferIsRendered | backend/handoff.py:231-375 | Prebuffer-ready means every required source has a fresh gap-free run up to the target plus the required prebuffer, and every instant of it was rendered; the last block is of the declared content, and all are exactly if no two in a row differ |
| HandoffDecision.TargetWindowRendered | backend/handoff.py:271-283 | For an executing source the window from the target on was rendered exactly when its run begins no later than the target |
| HandoffDecision.ReadyWithUnrenderedTarget | backend/handoff.py:271-323 | A state that is prebuffer-ready although the run begins after the target |
| HandoffDecision.ReadyWithMixedContent | backend/handoff.py:127-139 | A prebuffer-ready source whose target instant was rendered from other content than it declares |
| HandoffDecision.LiveTakeoverIsFed | backend/handoff.py:253-313 | Execution-ready means every active slot is duplicated and was fed without gap or skip, freshly, and last by its own source; the whole run is that source's exactly if no two reports in a row change source |
| HandoffDecision.ReadyWithMixedRun | backend/handoff.py:170-180 | An execution-ready slot whose run began with another source |
| VenuePatch.NextBarIsAhead | backend/adaptation.py:305-312 | The bar a commit is scheduled for, rounded to nine digits, is within half a digit of a whole number of bars that is ahead by at most a bar, and is still ahead itself when a bar is half a digit or longer |
| VenuePatch.ShortBarIsNow | backend/adaptation.py:305-312 | At a tempo beyond any musical one the next bar is rounded to the very start |
| VenuePatch.BarOfFour | backend/adaptation.py:306-307 | A bar is four beats of the tempo, and a tempo below one counts as one |
| VenuePatch.CommitPushes | backend/adaptation.py:327-368 | A commit pushes one layer on the stack the scattered copies stand for |
| VenuePatch.RollbackPops | backend/adaptation.py:410-440 | A rollback of the committed active transaction pops exactly its layer and exposes the one below |
| VenuePatch.UncommittedUpdate | backend/adaptation.py:235-275 | Changing a transaction to anything but committed leaves the stack alone |
| VenueRuns.StepKeepsSound | backend/adaptation.py:235-440 | Every step keeps the active layer and the scattered copies one stack |
| VenueRuns.StepStrands | backend/adaptation.py:253-440 | After any step a layer that stays is stranded exactly when it was, or the step validated the committed transaction that owned it |
| VenueRuns.TopPoppable | backend/adaptation.py:410-440 | The layer on top can be rolled back exactly when a transaction that this version can read owns it |
| VenueRuns.ReadableStays | backend/adaptation.py:235-440 | No step of a run changes which transactions this version can read |
| VenueRuns.StrandedWhenValidated | backend/adaptation.py:253-440 | Over any run a layer that stays is stranded at the end exactly when it was at the start or its owner was validated in between |
| VenueRuns.StrandedForGood | backend/adaptation.py:253-440 | Over any run a stranded layer and every layer below it never leave the stack |
| VenueRuns.RollbackReaches | backend/adaptation.py:253-440 | A layer on top that stayed since its commit can be rolled back exactly when its transaction can be read and was not validated since |
| VenueSchedule.CommitsWhenReached | backend/adaptation.py:370-408 | A waiting commit changes nothing until the first moment that reaches its bar or cue, pushes one layer with its own mappings then, and no later moment does more |
| VenueSchedule.NeverAtZero | backend/adaptation.py:376-386 | A commit that waits for a bar at time zero is never made |
| VenueSchedule.CancelledForGood | backend/adaptation.py:410-440 | A waiting commit that this version can read can be cancelled, and then no moment makes it |
| VenueSchedule.ValidExactly | backend/adaptation.py:253-275 | A transaction is valid exactly when its last validation found it open, the plan unchanged since the proposal, and fit to run |
| VenueSchedule.LiveWasValid | backend/adaptation.py:235-408 | Over every run from an empty store each layer was pushed by a transaction found valid before, and holds the mappings of its proposal |
| VenuePatch.VenueAdaptationManager.Load | backend/adaptation.py:161-175 | A manager continues the store a file holds, transactions of newer versions included |
| VenuePatch.VenueAdaptationManager.Propose | backend/adaptation.py:235-251 | A proposal adds one transaction and leaves the stack |
| VenuePatch.VenueAdaptationManager.Validate | backend/adaptation.py:253-275 | Validation rewrites one transaction's status and leaves the stack; one that a newer version wrote is refused |
| VenuePatch.VenueAdaptationManager.CommitLocked | backend/adaptation.py:327-368 | A commit pushes one layer whose patch revision is the new height |
| VenuePatch.VenueAdaptationManager.CommitAll | backend/adaptation.py:376-386 | Committing what is due pushes at most one layer, since at most one transaction is pending |
| VenuePatch.VenueAdaptationManager.ScheduleCommit | backend/adaptation.py:277-325 | Scheduling commits at once or leaves exactly one pending transaction, and refuses while another is pending, or what a newer version wrote |
| VenuePatch.VenueAdaptationManager.Tick | backend/adaptation.py:370-386 | A tick commits what is due at the time, and nothing else |
| VenuePatch.VenueAdaptationManager.TriggerCue | backend/adaptation.py:388-408 | A cue commits what waits for it, and nothing else |
| VenuePatch.VenueAdaptationManager.Rollback | backend/adaptation.py:410-440 | A rollback cancels a pending commit or pops exactly one layer; refused, for what a newer version wrote too, it changes nothing |
| PunchCapture.PunchCaptureGate.constructor | backend/punch_capture.py:19-32 | The window captured for accepted arguments |
| PunchCapture.AcceptedExactly | backend/punch_capture.py:21-27 | The arguments a gate accepts: both ends of a loop or neither, ranges that are not empty, all within their bounds |
| PunchCapture.PunchCaptureGate.Select | backend/punch_capture.py:34-50 | The slices of a block are its corrected frames inside the window, in order, each between the beginning and the end of the pass it names; selected plus discarded is all that was received of this generation |
| PunchCapture.CutAtPasses | backend/punch_capture.py:39-47 | The cutting loop covers the window once, never crosses a pass boundary, and numbers passes below the maximum |
| PunchCapture.SumFrames | backend/punch_capture.py:48 | The selected count is the frames of the slices |
| PunchCapture.BlockSelects | backend/punch_capture.py:34-38 | A block selects at least what is due of it at its corrected place, and just that exactly when its clamp is harmless to the window |
| PunchCapture.RunSelectsWindow | backend/punch_capture.py:34-50 | A run whose own blocks are gap-free selects exactly the corrected frames of the capture window, once and in order, whatever its cuts and the stale blocks between, if and only if every block from before the latency is harmless |
| PunchCapture.SelectRun | backend/punch_capture.py:34-50 | Fed through the gate block by block, a run yields the slices of that selection, and selected plus discarded is every frame received of its own generation |
| PunchCapture.EarlyBlocksOverlap | backend/punch_capture.py:36 | Adjacent blocks stay adjacent after correction exactly when the first does not begin before the latency, or is empty |
| StableSort.SortByIsStableSort | backend/daw_session.py:47 | The sort orders by key, keeps every element and keeps equal keys in their old order |
| Automation.BisectLeft | backend/daw_production.py:46 | The bisection returns the number of points before a frame |
| Automation.PreparedAutomation.Block | backend/daw_production.py:39-56 | The forward-only cursor yields the automation value at every frame of every block, for points unsorted or repeated |
| Automation.AutomationPassesThrough | backend/daw_production.py:31-37 | A lane passes through its points; of several at one frame, through the one given first |
| Automation.LaneIsPiecewiseLinear | backend/daw_production.py:31-37 | A lane is its default before the first point, its last value after the last, and a straight line between two points in a row |
| Automation.AutomationStaysInRange | backend/daw_production.py:31-37 | A lane never leaves the range of its points and its default |
| ClipFades.LevelMeans | backend/clip_fades.py:5-22 | The level is between silence and unity, and is unity exactly between the two ramps |
| ClipFades.FadeShape | backend/clip_fades.py:5-22 | A clip's own fade rises in even steps over the first ramp, falls over the second and is unity between, as it is or through the quarter sine by its curve |
| ClipFades.FadeMirrored | backend/clip_fades.py:5-22 | Fading out is fading in backwards |
| ClipFades.OneRampInForce | backend/clip_fades.py:11-16 | Where both ramps fit the span, one of them alone decides the level |
| Resampling.SliceEqualsWhole | backend/daw_production.py:133-144 | For every rate, start, count and source length, interpolating the bounded slice equals interpolating the whole source |
| Resampling.Resample | backend/daw_production.py:139-144 | The resampling loop, against the interpolation of one frame |
| Resampling.SourceSlice | backend/daw_production.py:133-138 | Both channels of a slice are the whole source at the block's frames |
| Resampling.SampleIsWaveform | backend/daw_production.py:139-144 | A session frame reads the piecewise linear waveform of the source at that frame's own time |
| Resampling.SameRateUnchanged | backend/daw_production.py:139-144 | A source at the session rate is read unchanged, and is silent outside its length |
| DawDocument.NormalizeSession | backend/daw_session.py:11-62 | The nested loops with their sets of seen ids accept exactly the bounded documents with distinct identifiers and legal clips, fades and points, and return their normal form |
| DawDocument.AcceptedExactly | backend/daw_session.py:11-62 | The documents accepted, read off their tracks, clips and points: within the bounds, no id twice, every clip with its fade inside its span, every point in range |
| DawDocument.DistinctByPlace | backend/daw_session.py:21-24 | No clip id twice in the session means no id at two places of it |
| DawDocument.NormalKeeps | backend/daw_session.py:11-62 | Normalizing brings gains and pans to the nearest value in range, points into order and negative frame counts to zero, completes an anchor, and keeps everything else |
| DawDocument.NormalizeClips | backend/daw_session.py:21-36 | The clips of a track are accepted exactly when each is in order, its id is new among all clips before it, and the count stays in bounds |
| DawDocument.NormalizeLane | backend/daw_session.py:37-47 | A lane is accepted exactly when bounded, in range and without repeated ids or frames, and comes out sorted |
| DawDocument.NormalizeIdempotent | backend/daw_session.py:11-62 | A stored document reads back as itself |
| DawDocument.NormalOnlyMovesUnclamped | backend/daw_session.py:11-62 | Normalizing changes nothing exactly in documents already clamped, anchored whole and in order |
| DawEdits.FindClip | backend/daw_session.py:111-116 | The first clip with the id, in track order |
| DawEdits.EditClip | backend/daw_session.py:117-132 | Trim, split, fade and resize, field by field, give the pieces they should or refuse |
| DawEdits.MoveClip | backend/daw_session.py:133-147 | A move re-homes and re-sorts the clip, or refuses a bad start, grid or track |
| DawEdits.MoveGroup | backend/daw_session.py:161-175 | A group move is refused exactly for a bad request, a missing clip or a negative start, and otherwise shifts the group |
| DawEdits.CollectGroup | backend/daw_session.py:169-170 | The clips of the group, and which of the ids were met |
| DawEdits.EarliestStart | backend/daw_session.py:171 | The earliest start in the group |
| DawEdits.Edit | backend/daw_session.py:103-159 | The document any edit makes, or its refusal |
| DawMeaning.SplitKeepsMeaning | backend/daw_session.py:122-128 | Splitting a clip at any inner frame changes nothing heard at any frame, ramps included |
| DawMeaning.TrimRestricts | backend/daw_session.py:117-121 | A trimmed clip plays exactly the kept frames of the clip if and only if its fade is anchored or no ramp loses its end |
| DawMeaning.TrimmedClipAt | backend/daw_session.py:117-121 | What a trimmed clip plays at any frame: nothing where it was cut, and there only the fade can differ from before where it was kept |
| DawMeaning.TrimKeepsTheRest | backend/daw_session.py:117-121 | A trim silences the frames cut off and leaves every other clip heard as it was, for every accepted trim |
| DawMeaning.TrimLevels | backend/clip_fades.py:5-22 | An accepted trim keeps the level of every kept frame if and only if the fade is anchored or no ramp longer than a frame is cut |
| DawMeaning.ResizeIsTrim | backend/daw_session.py:148-157 | A resize is accepted exactly inside the clip, and is the trim that leaves the same frames |
| DawMeaning.ClipPlaysThrough | backend/daw_session.py:68-74 | A clip plays its source from its offset on, frame after frame, through its track's strip, and nothing when muted or outside |
| DawMeaning.FadeSetIsHeard | backend/daw_session.py:129-132 | A set fade is accepted exactly when its ramps fit, opens over the frames asked for and closes over those asked for, and changes nothing else that is heard |
| DawMeaning.HeardExactly | backend/daw_session.py:66-74 | What is heard comes from the clips of tracks that are not muted, and only of solo ones as soon as there is any |
| DawMoves.MoveConserves | backend/daw_session.py:133-147 | A move takes what the clip played off one track and puts the moved clip on the other; the rest of the bag is untouched |
| DawMoves.ShiftedClipAt | backend/daw_session.py:144 | A moved clip plays what it did, that much later, under the automation of its new time |
| DawMoves.SnapNearest | backend/daw_session.py:137 | Snapping finds the nearest grid line, the later of two equally near |
| DawMoves.MoveMadeExactly | backend/daw_session.py:133-143 | A move is made exactly for a clip that is there, a start not before zero, a grid of at most a minute, and a track that is there and takes the kind of source |
| DawMoves.MovedInOrder | backend/daw_session.py:144-147 | A move leaves its clip at the grid line on the track asked for, and that track in order |
| DawMoves.GroupMadeExactly | backend/daw_session.py:161-175 | A group move is made exactly for 2 to 256 different clips that are there, within the bounds of distance and grid, when the earliest stays at or after zero; it leaves every track in order |
| DawMoves.GroupKeepsShape | backend/daw_session.py:161-175 | A group move shifts the whole group, and only it, by one distance that puts its earliest start on the grid line nearest to where it was asked to go, and none below zero |
| DawCommit.EditKeepsClamped | backend/daw_session.py:103-159 | Every edit keeps the normal form and changes nothing but clips |
| DawCommit.SavedIsEdited | backend/daw_session.py:177-179 | What is saved is what the edit made with the next revision; only bounds and identifiers can refuse it |
| DawCommit.TrimAccepted | backend/daw_session.py:31-34 | A trim is saved exactly when it leaves something and an unanchored fade still fits it |
| DawCommit.SplitAccepted | backend/daw_session.py:23-28 | A split is saved exactly when it falls inside the clip, its id is fresh and there is room for one clip more |
| DawSaved.MoveAccepted | backend/daw_session.py:133-147 | A move that the edit makes is always saved |
| DawSaved.GroupMoveAccepted | backend/daw_session.py:161-175 | A group move that the edit makes is always saved |
| DawSaved.FadeAccepted | backend/daw_session.py:129-132 | A fade that the edit sets is always saved |
| DawSessionStore.DawSessionStore.Save | backend/daw_session.py:84-94 | A document is saved exactly when it normalizes and its revision advances |
| DawSessionStore.DawSessionStore.CommitEdit | backend/daw_session.py:177-179 | An edit that cannot be saved changes neither document nor history |
| DawSessionStore.DawSessionStore.EditClips | backend/daw_session.py:103-159 | An edit is saved exactly against the current revision; refused, nothing changes |
| DawSessionStore.DawSessionStore.Restore | backend/daw_session.py:230-237 | Undo and redo are refused exactly when there is nothing to restore |
| DawSessionStore.RestoredStored | backend/daw_session.py:230-237 | A restore never fails to save: what was stored once is stored again, with the next revision |
| DawSessionStore.RestoreMovesCursor | backend/daw_session.py:230-237 | Undo and redo step a cursor over one unchanged list of versions |
| DawSessionStore.CommitAppendsVersion | backend/daw_session.py:177-179 | An edit drops the versions ahead of the cursor, adds its own and keeps the newest hundred behind it |
| DawSessionStore.CursorIsDocument | backend/daw_session.py:230-237 | The document is the version at the cursor |
| DawSessionStore.UndoRedoRestores | backend/daw_session.py:230-237 | Any number of undos and as many redos bring back the document, all but its revision, and both histories |
| DawSessionStore.RunsStayStored | backend/daw_session.py:96-101 | Over every run undo and redo depth together stay at most a hundred and the revision rises by one per success |
| DawSessionStore.ReadingCutsNothing | backend/daw_session.py:96-98 | The cut to a hundred on loading drops no stored entry |
| DawSessionStore.SavedSplitKeepsMeaning | backend/daw_session.py:122-128 | A split that was saved is not heard, and undoing it brings back the document |
| RenderPlan.MakePlan | backend/daw_session.py:64-76 | Planning refuses exactly bad documents and ranges that are empty or over an hour |
| RenderPlan.CollectTracks | backend/daw_session.py:66-74 | The region loops, against the regions of each audible track |
| RenderPlan.PlanMeansSession | backend/daw_session.py:64-76 | A plan plays, at every frame of its range, the same bag of contributions as its session, and nothing outside |
| RenderPlan.PlanIsBounded | backend/daw_session.py:69-75 | Regions come in the order they begin, then of their tracks and clips, inside both the range and their clip |
| Mixing.RegionBlock | backend/daw_playback.py:20-25 | A region's part of a block is its sound frame by frame, and it is silent in the rest of the block |
| Mixing.Block | backend/daw_playback.py:15-26 | A block holds the mix of each of its frames, whatever its start and size |
| Mixing.Accumulate | backend/daw_playback.py:25 | Adding a region's part into the two buffers changes those frames and no others |
| Mixing.SumOfBag | backend/daw_playback.py:19-25 | The mix depends on the bag of contributions only |
| Mixing.MixIsHeard | backend/daw_playback.py:15-26 | Rendering a session's plan sounds at every frame like the session |
| Mixing.SplitIsInaudible | backend/daw_session.py:122-128 | A split changes no frame of any render |
| SoundLaws.HardPan | backend/daw_playback.py:22-25 | Hard left only the left channel sounds, hard right only the right one, and that at full gain |
| SoundLaws.CentrePan | backend/daw_playback.py:22-25 | In the middle both channels are played with one gain |
| SoundLaws.ChannelPower | backend/daw_playback.py:22-25 | Each channel gets the share of the power that the pan gives it |
| SoundLaws.ConstantPower | backend/daw_playback.py:22-25 | The power of a mono source does not depend on its pan |
| SoundLaws.Proportional | backend/daw_playback.py:22-25 | The sound is proportional to the gain, to the automated volume and to the fade's envelope |
| SoundLaws.OthersSilent | backend/daw_playback.py:21 | Only audio files sound |
| OfflineRender.Render | backend/daw_production.py:150-173 | The offline renderer writes the limited mix, independent of its blocks, and the mix before the limiter is that of live blocks |
| OfflineRender.LimitBlock | backend/daw_production.py:168-172 | Sending a block through the limiter continues the limiting of all before it |
| OfflineRender.BlocksJoin | backend/daw_production.py:159-160 | Cutting a stretch into blocks changes no frame |
| OfflineRender.LimitedUnderCeiling | backend/daw_production.py:169-172 | Nothing that comes out is above the ceiling, and the final clip never acts |
| OfflineRender.LimiterTransparent | backend/daw_production.py:169-172 | The limiter leaves a render alone exactly when no frame is above the ceiling |
| OfflineRender.GainRecovers | backend/daw_production.py:169 | While no frame is above the ceiling, what the limiter takes away shrinks by two thousandths a frame |
| OfflineRender.GainSpares | backend/daw_production.py:169 | The limiter never takes more away than the highest frame so far needs |
| OfflineRender.PeakAtCeiling | backend/daw_production.py:169-172 | A frame that makes the gain fall comes out exactly at the ceiling |
| OfflineRender.PeakIsHighest | backend/daw_production.py:169 | The reported peak is that of the highest frame |
| Playback.LoopBlock | backend/daw_playback.py:54-61 | A looped block is the endless looped mix from its position, however short the loop; refused exactly outside it |
| Playback.LoopSteps | backend/daw_playback.py:56-60 | Within a loop frames follow each other, and at its end comes its beginning |
| Playback.SamePlace | backend/daw_playback.py:63-66 | Advancing a position and playing on from it is the same as counting the frames played since the loop began |
| Playback.RunLooped | backend/daw_playback.py:67-86 | Frame k of any looped run is the mix at start + (k mod span) |
| Playback.RunOnce | backend/daw_playback.py:67-86 | A run through the range plays its mix in order and pads only after the end |

## Left out

- Handlers, routing, event streams, server and worker threads: the loops behind them are sequential, except that the check and the mark of a replica may interleave with anything.
- Queue polling in live playback: a run is any number of blocks; when the device asks for them is not modelled.
- Real files: fsync, atomic replacement and directory entries are single steps, and a partial write that breaks a record's text leaves a line that does not parse.
- File signatures: the cached state counts as matching exactly while the disk is unchanged.
- SHA-256, HMAC (section 2 of RFC 2104), key derivation and key sets: ideal functions.
- Restoring a checkpoint is not an action of the channel run theorems; what it lets through again is stated by itself.
- Generated identifiers: a proposal's identifier is new, because the generator is not modelled.
- Venue plans: changes, mappings and receipts are opaque tokens, and a reader version is whether this version can read it.
- Floating-point rounding, dither and quantization of the rendered file: samples are real numbers, and non-finite samples do not occur.
- The value of the limiter ceiling, 10 to the power of -1/20: any ceiling up to one.
- Strings: cleaning, truncation and default names; identifiers are opaque tokens with an order, and 0 is the empty one. Enumerations cannot hold unsupported kinds.
- Which of several refusals normalization reports; only whether it refuses.
- Tempo maps, markers, sends, unknown fields, and the marker and automation edits, which reach the store through the same commit.
- Media hashes and snapshots of source files: a source is an array of samples that does not change during a render.
- `marker_edit`, `automation_edit`, `start_clip`, `OperationCostLimiter`, governance, venue and compatibility checks: they would add only easy members.
- DawDocument.NormalizeSession: leaves out markers, tempo, sends and the cleaning of strings.
- DawDocument.NormalizeIdempotent: speaks of the document without markers, tempo, sends and strings.
- OfflineRender.Render: leaves out dither and quantization of the limited frames.
- OfflineRender.LimitBlock: leaves out dither and quantization, as for Render.
- OfflineRender.LimitedUnderCeiling: speaks of the frames before dither is added.
