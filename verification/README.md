# Remote desktop: a verified model of its state machines

The project models the parts of the remote desktop program where state, arithmetic or
concurrency make correctness hard to see, one module for each component, and proves what
they promise over all inputs, all runs or all interleavings.

| component | files |
|---|---|
| resumable file transfer | `FileXfer.dfy`, `TransferIntegrity.dfy`, `TransferProtocol.dfy` |
| swipe typing | `Polyline.dfy`, `Similarity.dfy`, `SwipeDecoder.dfy` |
| broker, agents and their handover | `Broker.dfy`, `Agent.dfy`, `Handover.dfy` |
| audio resampling, framing, playback | `Audio.dfy` |
| signaling server | `RateLimit.dfy`, `SignalingHub.dfy` |
| touch gestures | `Touch.dfy` |
| frame downscaling | `Downscale.dfy` |
| keyframe detection | `AnnexB.dfy` |
| clipboard sync | `Clipboard.dfy` |
| login throttle | `Throttle.dfy` |

Code that updates state in place is a class whose methods are proved equal to a step
function on values; the theorems are about those step functions and the runs they make.
`dafny verify dfyconfig.toml` checks everything.

## What is assumed

- **File transfer.** The disk maps paths to inodes and inodes to bytes. SHA-256 is a
  function parameter; where a theorem needs it, the digest of the source has no second
  preimage. The source file does not change while it is sent. The results of the system
  calls (creating the directory, looking up, opening, shortening and seeking in the `.part`,
  short reads and writes, renaming, reading the source) are inputs.
- **Broker and agents.** Each arm of the event loop is one atomic step, as the runtime has
  one thread. Fewer than 2^64 - 1 agents connect. Whether capture starts, what lock
  checks answer and whether processes can be created are functions of how often they have
  been asked, so every machine is covered.
- **Reals.** Swipe typing, touch, the token bucket and the fitting of frames are over exact
  reals, the audio position is an exact rational. The Euclidean distance is a parameter
  known only to be non-negative with the right square.
- **Time** is a parameter. The throttle's clock does not go back.
- **Clipboard.** The operating system's clipboard returns what was last set; the hash is a
  function parameter.

## What the proofs found

- Two transfers that are live at once are safe from each other if and only if their names
  do not clash: same `.part`, or one's final name is the other's `.part`
  (`TransferIntegrity.NamesSafeExactly`). The code checks neither.
- After a short write the receiver keeps the transfer and the moved cursor, so a peer that
  sends the chunk again completes a file with bytes too many
  (`TransferIntegrity.ShortWriteBreaks`). Integrity holds exactly if the `.part` is as long
  as the count of bytes written and the offered size is right
  (`TransferIntegrity.CompletedMeansReceived`); the code checks neither.
- The results of shortening and of seeking in the `.part` are ignored. Where they fail, a
  wrong file can complete, also with an honest sender
  (`TransferProtocol.CompletedIsSourceExactly`, `TransferIntegrity.IgnoredShorteningBreaks`,
  `TransferIntegrity.IgnoredSeekBreaks`). Where a write falls short as well, no count of
  bytes tells a right file from a wrong one (`TransferIntegrity.BytesDecide`).
- With `RMD_SESSION_LOCK` set and no session id the agent logs that lock-gating is
  disabled, but the gate stays enabled: every lock waits for 37 checks without a request,
  and every unlock holds an idle inhibitor (`Agent.EnabledWithoutSession`).
- An agent whose capture does not come up stays connected, can become the provider and never
  asks for the lock (`Handover.ProviderNeverLocks`); it is the only case
  (`Handover.DrainedAgents`).
- While there is no provider, geometry polls report the geometry of the last one, whose
  display list alone is cleared (`Broker.GoneGeometryStays`). A new provider is told the
  capturing flag and nothing else of what was ordered before (`Broker.HelloReplays`).
- The resampler's comments speak of interpolating across chunks; its saved sample is never
  read, and the last sample of a chunk is held (`Audio.StreamOutput`,
  `Audio.ValuesDependOnChunks`).
- Two fingers that land in one touch event are timed from the last gesture that began with
  one finger, so a quick two-finger tap can fail to be a right click
  (`Touch.SimultaneousTwoFingerTap`). Soon after a tap in double-tap mode a two-finger tap
  also sends a left click (`Touch.TwoFingerTap`).
- An average over a box whose byte sum reaches 2^32 is wrong, and only such a one
  (`Downscale.ByteIsMean`); a white image of 5000 by 5000 fitted into one pixel is an
  example (`Downscale.WhiteOverflows`).
- The keyframe scan overlooks a start code that begins at the header of another
  (`AnnexB.OverlookedKeyframe`). It is wrong if and only if there are keyframes and each
  follows an odd number of start codes back to back (`AnnexB.WrongExactly`), never on streams
  that follow the syntax (`AnnexB.ScanIsExact`).
- Two clipboards that have settled with text on both differ if and only if the last update
  of the run was sent while another text was on its way to its sender, or the last one on its way was
  refused by a clipboard that held something else (`Clipboard.AgreeExactly`). Contents or
  edits on both sides at once are such runs, and swap the clipboards
  (`Clipboard.ContentsSwapAtStart`, `Clipboard.ConcurrentEditsSwap`).
- Housekeeping by another user's failure forgets a user's count after six idle hours, so
  the next failure does not lock (`Throttle.HousekeepingForgets`). The answers of a whole
  run are those without housekeeping if and only if every failure is counted as a number
  that locks equally long (`Throttle.HousekeepingAgrees`), and forgetting can be brought to
  light if and only if a user fails once forgotten (`Throttle.ForgettingShows`).

## Model

| member | source | states |
|---|---|---|
| FileXfer.TransferIdUnique | crates/session/src/filexfer.rs:134-136 | transfer ids determine the counter, so any two files sent have different ids, also under the same name |
| FileXfer.DecimalReads | crates/session/src/filexfer.rs:134-136 | the counter in an id is written so that reading it as a decimal number gives it back |
| FileXfer.SanitizeIsPlain | crates/session/src/filexfer.rs:466-476 | a sanitized name is non-empty, has no separator, is neither `.` nor `..`, and sanitizing it again changes nothing |
| FileXfer.SanitizeKeepsPlain | crates/session/src/filexfer.rs:466-483 | for every name an offer can carry: folders before the last separator and dots around it go, the rest is kept, and its `.part` is that with `.part` |
| FileXfer.SanitizeDefault | crates/session/src/filexfer.rs:466-476 | the name is `file` by default where only dots follow the last separator |
| FileXfer.EveryName | crates/session/src/filexfer.rs:466-476 | and there is no third case: every string is a folder, dots, and a plain name or nothing |
| FileXfer.PartIsNotFinal | crates/session/src/filexfer.rs:478-483 | a transfer's `.part` is never its own final path |
| FileXfer.HashPrefix | crates/session/src/filexfer.rs:202-218 | however reads fall short, re-hashing a leftover absorbs exactly its first bytes, up to the resume length or the readable part |
| FileXfer.FileTransfers.SendFile | crates/session/src/filexfer.rs:127-158 | a fresh id, untouched shared state, the offer queued and nothing else changed |
| FileXfer.FileTransfers.OnOffer | crates/session/src/filexfer.rs:188-257 | in place, the step that the run theorems are about, for every answer of the file system to looking up, reading, opening, shortening and seeking |
| FileXfer.FileTransfers.OnChunk | crates/session/src/filexfer.rs:259-290 | likewise for a chunk: duplicates ignored, gaps refused, short writes failed |
| FileXfer.FileTransfers.OnComplete | crates/session/src/filexfer.rs:292-317 | likewise for the digest, with the three ways it can fail |
| FileXfer.FileTransfers.OnAck | crates/session/src/filexfer.rs:319-324 | an ack reaches the send thread of its transfer and no other |
| FileXfer.FileTransfers.OnCancel | crates/session/src/filexfer.rs:326-333 | the transfer ends on both tables, its `.part` stays |
| FileXfer.FileTransfers.CancelTransfer | crates/session/src/filexfer.rs:335-342 | the same on our own initiative, telling the peer |
| FileXfer.ChunkTwice | crates/session/src/filexfer.rs:265-271 | a chunk that has been written has no effect at all when it comes again |
| FileXfer.EarlyChunk | crates/session/src/filexfer.rs:265-274 | a chunk that comes too early is refused with an event, and nothing else changes |
| FileXfer.ChunkAnswers | crates/session/src/filexfer.rs:272-290 | a chunk in order is reported with the new count, and acked at the end or when 256 KiB have come since the last ack; a failed write is reported and not acked |
| FileXfer.CancelEnds | crates/session/src/filexfer.rs:326-333 | after a cancellation nothing still on its way for that transfer has an effect; the disk and all other transfers stay |
| TransferIntegrity.OfferAdopts | crates/session/src/filexfer.rs:197-256 | an accepted offer resumes at the leftover's length, cuts off what is beyond the offered size, acks that length and touches no other file; what happens where the disk does not obey is stated too |
| TransferIntegrity.OfferedPaths | crates/session/src/filexfer.rs:188-257 | an accepted offer of a plain name goes to that name with `.part` and will end at that name, whatever folder and dots it comes with |
| TransferIntegrity.ChunkWrites | crates/session/src/filexfer.rs:265-290 | a chunk at the count of bytes written goes to the `.part` at the cursor, as far as the disk takes it, and to no other file |
| TransferIntegrity.CompleteOutcome | crates/session/src/filexfer.rs:292-317 | how a transfer ends: which files exist afterwards, with which bytes, and what is reported, in each of the four cases |
| TransferIntegrity.StepKeepsInv | crates/session/src/filexfer.rs:161-186 | every message from any peer, and every restart, keeps each live `.part` beginning with the bytes absorbed, unless a read, a write or a seek failed |
| TransferIntegrity.RunKeepsInv | crates/session/src/filexfer.rs:161-186 | so does every run whose live transfers do not clash |
| TransferIntegrity.CompletesWhen | crates/session/src/filexfer.rs:292-317 | a transfer is reported complete if and only if its length and digest agree and the rename works |
| TransferIntegrity.CompletedMeansReceived | crates/session/src/filexfer.rs:188-317 | whatever a peer sends, however restarts interleave and whatever I/O fails, short of a failed seek together with a read or write that fell short in the same transfer: a file reported complete against a source's digest is that source if and only if, before the digest came, the offered size was the source's and the `.part` was as long as the count of bytes written |
| TransferIntegrity.ShortWriteBreaks | crates/session/src/filexfer.rs:265-290 | a short write and the same chunk again: the transfer completes with a file that has a byte too many |
| TransferIntegrity.IgnoredShorteningBreaks | crates/session/src/filexfer.rs:233-234 | a leftover that is not shortened: an empty file completes with the byte left over |
| TransferIntegrity.IgnoredSeekBreaks | crates/session/src/filexfer.rs:235-236 | a cursor that is not moved: resuming overwrites the first byte and completes |
| TransferIntegrity.BytesDecide | crates/session/src/filexfer.rs:235-275 | and where a write falls short as well: runs with the same counts, of which one completes right and 255 wrong, by the byte that was left over |
| TransferIntegrity.HasherFollowsFile | crates/session/src/filexfer.rs:197-290 | without I/O faults the rolling hasher has always absorbed exactly the `.part`, which is `written` bytes long |
| TransferIntegrity.ClashBreaks | crates/session/src/filexfer.rs:188-317 | for any two clashing names, in each of the three ways, a fault-free run after which a transfer completes with wrong bytes |
| TransferIntegrity.ClashesWhen | crates/session/src/filexfer.rs:466-483 | plain names clash if and only if they are the same or one is the other with `.part` |
| TransferIntegrity.NamesSafeExactly | crates/session/src/filexfer.rs:188-317 | two interleaved transfers are faithful on every fault-free run if and only if their names do not clash |
| TransferIntegrity.OfferAcksPart | crates/session/src/filexfer.rs:197-256 | offering the same file again is acked at exactly the length of the `.part`, which stays as it is |
| TransferIntegrity.SessionKeepsResumable | crates/session/src/filexfer.rs:188-333 | over any run of sessions with one source the `.part` is a prefix of it |
| TransferIntegrity.PartGrows | crates/session/src/filexfer.rs:188-333 | and it never shrinks |
| TransferProtocol.SendLoop.Turn | crates/session/src/filexfer.rs:381-437 | one trip around the wait or the stream loop, also when the source cannot be sought or read: what is sent and where the cursor goes |
| TransferProtocol.StepKeepsSafe | crates/session/src/filexfer.rs:188-438 | every step of either side keeps the wire in order, the receiver consistent and the file as the offer has placed it, with any fault of either side and any cancellation |
| TransferProtocol.CompletedIsSource | crates/session/src/filexfer.rs:188-438 | in every interleaving, from every leftover, whoever cancels and whatever fails but shortening and seeking in the `.part`: once reported complete, the final file is byte-equal to the source and stays so |
| TransferProtocol.CompletedIsSourceExactly | crates/session/src/filexfer.rs:188-438 | with every fault: that holds if and only if the offer found a file that could be shortened or was no longer than the source, and a cursor that could be moved or had nothing, or everything, to resume |
| TransferProtocol.CancelReachesSender | crates/session/src/filexfer.rs:326-342 | in every run a cancellation by the receiver is never lost: it is on its way back, or the send thread can see it and stop |
| TransferProtocol.CancelReachesReceiver | crates/session/src/filexfer.rs:326-342 | nor is one by the sender: it is on its way, or the receiver has no such transfer and no offer can bring it back |
| TransferProtocol.CancelFreezes | crates/session/src/filexfer.rs:319-342 | a cancelled transfer hears no more acks and stays cancelled |
| TransferProtocol.SilentOnceEnded | crates/session/src/filexfer.rs:381-437 | once the send thread has ended, nothing but a cancellation is ever added to the wire |
| TransferProtocol.InFlight | crates/session/src/filexfer.rs:37-39 | while streaming at most WINDOW + CHUNK - 1 bytes are unacked and the queued chunks are exactly the source between the two cursors |
| TransferProtocol.WindowIsUsed | crates/session/src/filexfer.rs:402-437 | and the window is used: with less than 1 MiB unacked the next trip sends exactly the bytes at the cursor |
| TransferProtocol.StepProgresses | crates/session/src/filexfer.rs:381-437 | every fault-free step keeps the transfer on track and lowers a measure unless it changes nothing |
| TransferProtocol.NeverStuck | crates/session/src/filexfer.rs:394-437 | no deadlock: while the transfer has not ended, some fault-free step changes something |
| TransferProtocol.RunProgresses | crates/session/src/filexfer.rs:355-438 | every state of a fault-free run is one of those, and the steps that change something are bounded |
| TransferProtocol.EveryRunEnds | crates/session/src/filexfer.rs:188-438 | every fault-free run ends within 4 * size + 8 changes: completed if the adopted bytes were a prefix of the source, otherwise failed with the `.part` deleted |
| Polyline.Resample | apps/web-viewer/src/swipe.rs:126-159 | the walk that inserts into the list it walks terminates, never divides by zero and yields the specified samples |
| Polyline.Walk | apps/web-viewer/src/swipe.rs:134-158 | it emits exactly 32 points, each one interval of arc length after the last; padding and truncation never act |
| Polyline.ResampledAt | apps/web-viewer/src/swipe.rs:124-125 | sample k lies k/31 of the length along the input polyline |
| Polyline.ResampledEnds | apps/web-viewer/src/swipe.rs:136-158 | the samples run from the first input point to the last |
| Polyline.ShortIsStart | apps/web-viewer/src/swipe.rs:126-133 | a path with nothing to walk stays at its first point |
| Polyline.DistanceIs | apps/web-viewer/src/swipe.rs:183-185 | the distance is the difference along an axis, and Pythagoras' in between |
| Similarity.Normalize | apps/web-viewer/src/swipe.rs:163-176 | the running box over centred coordinates gives the box of the specification |
| Similarity.NormalizedIsCanonical | apps/web-viewer/src/swipe.rs:161-162 | a normalised path has its centroid at the origin and its longer side exactly 1 |
| Similarity.NormalizedIsSimilar | apps/web-viewer/src/swipe.rs:163-176 | on every path: one positive factor for both axes, the inverse of the longer side or of the cut-off, and the centroid goes to the origin; nothing is mirrored or turned |
| Similarity.MeanIsMean | apps/web-viewer/src/swipe.rs:163-166 | the mean of one number is that number, and parts weigh by their lengths |
| Similarity.SpanIsExtent | apps/web-viewer/src/swipe.rs:167-173 | the longer side is the largest difference of any two points along an axis |
| Similarity.ResampledMapped | apps/web-viewer/src/swipe.rs:126-159 | resampling commutes with translation and uniform scaling |
| Similarity.NormalizedMapped | apps/web-viewer/src/swipe.rs:163-176 | normalisation undoes them |
| SwipeDecoder.Nearest2 | apps/web-viewer/src/swipe.rs:106-122 | two distinct keys, the nearest and the second nearest of all, ties to the lower index |
| SwipeDecoder.NearestUnique | apps/web-viewer/src/swipe.rs:105-106 | that specification fixes both keys |
| SwipeDecoder.Decoder.constructor | apps/web-viewer/src/swipe.rs:29-44 | each bucket holds exactly the ranks of the words with its two letters |
| SwipeDecoder.WordsConcat | apps/web-viewer/src/swipe.rs:29-44 | the word list is read line by line, in order |
| SwipeDecoder.OneLine | apps/web-viewer/src/swipe.rs:29-44 | a line is a word if it has two or more letters and nothing but `a` to `z` |
| SwipeDecoder.BucketHolds | apps/web-viewer/src/swipe.rs:21-25 | a rank is in a bucket if and only if its word has that key |
| SwipeDecoder.Decoder.Candidates | apps/web-viewer/src/swipe.rs:63-69 | the four buckets hold exactly the words with one of the first and one of the last letters |
| SwipeDecoder.SortDedupSorts | apps/web-viewer/src/swipe.rs:73-74 | sorting and removing repetitions gives the same ranks in increasing order |
| SwipeDecoder.SortRanks | apps/web-viewer/src/swipe.rs:90 | a stable sort by score of candidates in rank order ranks them by score and rank |
| SwipeDecoder.Decoder.Decode | apps/web-viewer/src/swipe.rs:51-96 | the answer is the `top` best by score and rank of all dictionary words whose ends are near the gesture's ends, a full scan |
| SwipeDecoder.DecodingUnique | apps/web-viewer/src/swipe.rs:46-50 | the specification fixes the answer |
| SwipeDecoder.MeanIsMean | apps/web-viewer/src/swipe.rs:178-181 | the shape distance of one pair is its distance, and parts weigh by their lengths |
| SwipeDecoder.MeanOfEqual | apps/web-viewer/src/swipe.rs:178-181 | where all pairs are equally far apart it is that distance |
| SwipeDecoder.MeanIsDistance | apps/web-viewer/src/swipe.rs:178-181 | it is never negative, and zero if and only if the shapes are equal |
| SwipeDecoder.ScoreIsLeast | apps/web-viewer/src/swipe.rs:76-89 | a word scores at least 0.12 * rank / count, and exactly that if and only if its shape is the gesture's |
| SwipeDecoder.MatchComesFirst | apps/web-viewer/src/swipe.rs:46-96 | in the answer a candidate whose shape is the gesture's comes behind no word that is less frequent |
| SwipeDecoder.TracedWordComesFirst | apps/web-viewer/src/swipe.rs:46-96 | a gesture through the centres of a word's keys: that word is a candidate and comes behind no less frequent one, so first if no candidate is more frequent |
| SwipeDecoder.NearestMapped | apps/web-viewer/src/swipe.rs:106-122 | the nearest keys do not change when keys and point are moved and scaled together |
| SwipeDecoder.ScoreMapped | apps/web-viewer/src/swipe.rs:76-89 | nor does a word's score |
| SwipeDecoder.DecodingMapped | apps/web-viewer/src/swipe.rs:46-96 | nor does the decoding, as long as no path crosses a cut-off |
| Broker.EventLoop.Turn | crates/session/src/broker.rs:226-333 | each arm of the loop changes the fields as the step that all runs are made of |
| Broker.EventLoop.OnHelloEvent | crates/session/src/broker.rs:257-279 | the newest agent takes over, once, and starts capturing if a viewer watches |
| Broker.EventLoop.OnClosedEvent | crates/session/src/broker.rs:286-296 | the provider's end clears the provider and its displays, another agent's does not |
| Broker.EventLoop.OnVideoFrame | crates/session/src/broker.rs:389-399 | a frame is forwarded if and only if its agent is the provider |
| Broker.StepKeepsInv | crates/session/src/broker.rs:226-333 | every event keeps the numbering of agents, the agreement of `active` and `active_id`, the control queues and the order of the video |
| Broker.RunKeepsInv | crates/session/src/broker.rs:192-336 | so does every run |
| Broker.ControlFollowsViewer | crates/session/src/broker.rs:260-278 | in every run the messages queued to the provider fold to the capturing flag, and waiting agents were sent nothing |
| Broker.ProviderIsNewest | crates/session/src/broker.rs:257-297 | in every run the provider is the agent that introduced itself last, for the first time and while connected, until it closes |
| Broker.CapturingIsViewers | crates/session/src/broker.rs:299-307 | the capturing flag is what the viewer last asked for, also where it asked before there was an agent |
| Broker.VideoInHelloOrder | crates/session/src/broker.rs:389-399 | in every run the video is a concatenation of one block per agent, in the order they took over |
| Broker.OneInterval | crates/session/src/broker.rs:257-297 | an agent that has been the provider and is not never is again, and nothing more is queued to it |
| Broker.GoneForGood | crates/session/src/broker.rs:286-296 | an agent whose connection has closed never becomes the provider, and nothing more is queued to it |
| Broker.OnlyProviderIsSent | crates/session/src/broker.rs:299-330 | over any stretch of any run in which an agent is not the provider, nothing is queued to it |
| Broker.QueueIsOrders | crates/session/src/broker.rs:299-330 | while an agent is the provider its queue grows by exactly the viewer's orders, all of them and in order |
| Broker.HelloReplays | crates/session/src/broker.rs:270-330 | in any run all that a provider is told is the capturing flag and a keyframe request, or nothing, when it takes over, and then the orders given since; never the display or the cursor setting chosen before |
| Broker.ContiguousFrames | crates/session/src/broker.rs:389-399 | what the viewer gets from an agent is one uninterrupted stretch of what that agent sent |
| Broker.EveryFrame | crates/session/src/broker.rs:389-399 | while an agent is the provider every frame it sends is forwarded, in order |
| Broker.NoFrame | crates/session/src/broker.rs:389-399 | and while it is not, none is |
| Broker.DisplaysAreLatest | crates/session/src/broker.rs:254-296 | the list shown is the provider's latest, and empty when there is none |
| Broker.VideoPlane.PollGeometryChanged | crates/session/src/broker.rs:157-165 | a poll answers if the generation moved, and remembers it |
| Broker.PollSeesChanges | crates/session/src/broker.rs:157-165 | a poll answers if and only if the provider changed since the last one, up to 2^64 changes |
| Broker.RectIsOfLastProvider | crates/session/src/broker.rs:257-296 | in every run the shared geometry is the one with which the agent that took over last first introduced itself, whether it is still there or not |
| Broker.GoneGeometryStays | crates/session/src/broker.rs:157-165 | in every run, while there is no provider the next poll answers, with the geometry of the last one |
| Agent.SessionGate.Lock | crates/session/src/agent.rs:180-204 | the machine is as the log of calls says, with a lock call added: nothing if disabled, else one request per six failed checks, at most 6 requests and 37 checks |
| Agent.SessionGate.RequestUnlock | crates/session/src/agent.rs:236-245 | one request per five failed checks, at most 10 requests and 50 checks |
| Agent.SessionGate.Unlock | crates/session/src/agent.rs:209-245 | the same for an unlock call, which holds an inhibitor first and never a second one |
| Agent.SessionGate.ReleaseIdle | crates/session/src/agent.rs:247-253 | the same for a release call, after which no inhibitor process is left |
| Agent.CaptureThread.StartCapture | crates/session/src/agent.rs:416-427 | the same for a start call: no more than 15 attempts, and none after the first success |
| Agent.CaptureThread.Obey | crates/session/src/agent.rs:406-437 | each command makes its calls and no others: unlock and then start, or stop, release and then lock |
| Agent.CaptureThread.Rest | crates/session/src/agent.rs:429-442 | pausing, and ending, make the calls stop, release and lock |
| Agent.PauseOutcome | crates/session/src/agent.rs:429-442 | on every machine, after those calls nothing is captured, no inhibitor is alive, and the last call was to lock |
| Agent.StartOutcome | crates/session/src/agent.rs:406-427 | on every machine a start command unlocks first; capture then runs if and only if it ran before or one of the next 15 attempts succeeds, and no attempt is made after that |
| Agent.SealedMeans | crates/session/src/agent.rs:180-204 | where the last call was to lock: the very last check confirmed it, or 37 checks were of no avail; one request for every six checks that failed, none for a session already locked, and no other effect |
| Agent.UnlockedMeans | crates/session/src/agent.rs:209-245 | after an unlock call: the last check found the session unlocked, or 50 checks and ten requests were of no avail; an inhibitor is held unless the one attempt to start one failed |
| Agent.ReleasedMeans | crates/session/src/agent.rs:247-253 | a release lets go of the inhibitor and does nothing else |
| Agent.DisabledGateIsIdle | crates/session/src/agent.rs:180-253 | a disabled gate never checks, never sends a request and never starts an inhibitor, whatever is asked of it |
| Agent.OneInhibitor | crates/session/src/agent.rs:209-253 | after any calls no inhibitor is alive but the one held |
| Agent.EnabledWithoutSession | crates/session/src/agent.rs:129-146 | a gate enabled without a session sends no request, but each lock waits for 37 checks, each unlock for one, and an unlock holds an inhibitor |
| Handover.AgentStepKeepsInv | crates/session/src/agent.rs:477-507 | every step of an agent keeps its thread heading for what its messages say |
| Handover.StepKeepsInv | crates/session/src/broker.rs:192-336 | so does every step of the broker and of all agents together |
| Handover.RunKeepsInv | crates/session/src/agent.rs:386-511 | and every run |
| Handover.AtMostOneInhibitor | crates/session/src/agent.rs:209-229 | at any moment of any run, on any machine, an agent has at most one inhibitor, and captures or holds one only while it has been told to capture |
| Handover.SettingsFollow | crates/session/src/agent.rs:402-437 | in every run a thread has obeyed, but for what is queued, what its messages say: once drained it shows the display and cursor last asked for |
| Handover.DrainedAgents | crates/session/src/agent.rs:402-507 | once the queues have drained only the provider may capture, and it wants what the viewer wants; all others capture and hold nothing, the superseded have ended, and the last thing they asked for was the lock if and only if their thread came up |
| Handover.ProviderNeverLocks | crates/session/src/agent.rs:390-405 | a run after which the provider, with the viewer waiting, has a capture thread that never came up and has never asked for the lock |
| Handover.UndrainedCanStep | crates/session/src/agent.rs:402-507 | an agent that is not drained can move |
| Handover.DrainingEnds | crates/session/src/agent.rs:402-507 | while the broker is silent the agents can take only as many steps as there is work |
| Audio.LinearResampler.Push | crates/session/src/audio.rs:350-379 | the loop over one chunk is the step that StreamCount and StreamOutput are about |
| Audio.StreamCount | crates/session/src/audio.rs:350-379 | after any chunks exactly ceil(n * out / in) samples are out and the position is in [0, in/out), so the saved sample is never read |
| Audio.CountIgnoresChunks | crates/session/src/audio.rs:350-379 | the count does not depend on how the stream is cut |
| Audio.StreamOutput | crates/session/src/audio.rs:362-376 | output k is the rounded interpolation at k * in/out, held where the sample to its left ends a chunk, for every chunking |
| Audio.OutputIsNearest | crates/session/src/audio.rs:362-376 | output k is the whole number nearest to the mean of its two neighbours in the input, weighted by how near they are |
| Audio.ValuesDependOnChunks | crates/session/src/audio.rs:366-372 | two samples doubled: the value between them is their mean in one chunk and the first of them in two |
| Audio.OutputIsBetween | crates/session/src/audio.rs:373-374 | every output lies between its two neighbours in the input |
| Audio.ClampIdle | crates/session/src/audio.rs:374 | the clamp to 16 bits never acts |
| Audio.RoundNearest | crates/session/src/audio.rs:374 | rounding is to the nearest, halves away from zero |
| Audio.Framer.Chunk | crates/session/src/audio.rs:171-179 | no sample is lost, repeated or moved, and less than a frame is kept back |
| Audio.FramesAreSlices | crates/session/src/audio.rs:173-174 | the frames are the consecutive slices of 960 samples, as many as fit |
| Audio.EncodedFrames | crates/session/src/audio.rs:169-174 | how many frames the encoder gets from n input samples, however they are delivered |
| Audio.Playback.Enqueue | crates/session/src/audio.rs:313-323 | the buffer is the newest 400 ms of everything decoded |
| Audio.Playback.CapIsFourTenths | crates/session/src/audio.rs:317-318 | which are 400 ms of samples, up to the rounding of the rate to whole thousands |
| Audio.Playback.Pull | crates/session/src/audio.rs:224-245 | the device takes samples in order, and silence only when there are none |
| Audio.TrimOnce | crates/session/src/audio.rs:317-322 | trimming after every packet drops exactly what trimming once at the end would |
| RateLimit.FrameLimiter.AllowAt | apps/rendezvous/src/signaling.rs:97-107 | the running bucket decides as the specification over all past frames |
| RateLimit.AdmitsExactly | apps/rendezvous/src/signaling.rs:97-107 | a frame is admitted if and only if every window ending with it stays within burst + rate * length |
| RateLimit.EnvelopeIs | apps/rendezvous/src/signaling.rs:97-107 | a window of no length has the burst, and every second adds the rate |
| RateLimit.BackwardClock | apps/rendezvous/src/signaling.rs:97-107 | a frame at a time before the last one neither gains nor loses tokens |
| RateLimit.WindowBound | apps/rendezvous/src/signaling.rs:57-69 | no window of any run admits more |
| RateLimit.NothingDroppedExactly | apps/rendezvous/src/signaling.rs:57-69 | a sender loses nothing if and only if all its windows stay within the envelope |
| SignalingHub.RegistryIsLatest | apps/rendezvous/src/signaling.rs:184-203 | after any connects and disconnects a device is reached through its latest connection if that has not gone, and otherwise not at all |
| SignalingHub.LateDisconnect | apps/rendezvous/src/signaling.rs:193-203 | a late disconnect does not evict the connection that replaced it |
| SignalingHub.Hub.Register | apps/rendezvous/src/signaling.rs:186-191 | in place, the registration that RegistryIsLatest is about: only this device changes |
| SignalingHub.Hub.Unregister | apps/rendezvous/src/signaling.rs:195-202 | in place, the removal that RegistryIsLatest is about: a connection that has been replaced removes nothing |
| SignalingHub.Hub.RelayTo | apps/rendezvous/src/signaling.rs:210-217 | delivered to the target's connection exactly when it is open and of the same account; otherwise nobody gets anything, and the two errors are told apart as the code does |
| SignalingHub.Hub.JoinRoom | apps/rendezvous/src/signaling.rs:135-156 | in place, the step that RoomIsAPipe and SecondJoins are about; no id exactly when two are there |
| SignalingHub.Hub.RelayRoom | apps/rendezvous/src/signaling.rs:159-168 | the loop over members sends what the step of RoomIsAPipe says |
| SignalingHub.Hub.LeaveRoom | apps/rendezvous/src/signaling.rs:171-182 | in place, the step that OneLeaves is about; no empty room stays behind |
| SignalingHub.StepKeepsInv | apps/rendezvous/src/signaling.rs:135-182 | every step keeps one or two members with different ids in every room, and every connection in at most one |
| SignalingHub.RunKeepsInv | apps/rendezvous/src/signaling.rs:135-182 | so does every run |
| SignalingHub.RoomIsAPipe | apps/rendezvous/src/signaling.rs:158-168 | while both stay, each is sent exactly the other's texts, in order, whatever happens elsewhere and whoever tries to join |
| SignalingHub.SecondJoins | apps/rendezvous/src/signaling.rs:143-153 | when the second joins, both are told |
| SignalingHub.FirstJoins | apps/rendezvous/src/signaling.rs:135-156 | the first to join a code has the room to itself, and nobody is told anything |
| SignalingHub.TwoMeet | apps/rendezvous/src/signaling.rs:135-156 | on a fresh hub two connections that join one code are a pair, and both are told |
| SignalingHub.PairTalks | apps/rendezvous/src/signaling.rs:135-168 | and from then on, while both stay, each is sent exactly the other's texts, whatever else goes on |
| SignalingHub.ThirdIsRefused | apps/rendezvous/src/signaling.rs:135-142 | a third party is turned away without any effect |
| SignalingHub.AloneHearsNothing | apps/rendezvous/src/signaling.rs:159-168 | alone in a room, one talks to nobody |
| SignalingHub.OneLeaves | apps/rendezvous/src/signaling.rs:171-182 | when one leaves the other is told and stays; when the last leaves the room is gone |
| Touch.TouchInput.TouchStart | apps/web-viewer/src/lib.rs:1240-1293 | the handler changes the shared cells as the step that RunKeepsInv is about |
| Touch.TouchInput.TouchMove | apps/web-viewer/src/lib.rs:1323-1413 | likewise, and by the step that the pinch theorems are about |
| Touch.TouchInput.TouchEnd | apps/web-viewer/src/lib.rs:1443-1500 | likewise, and by the step that the tap theorems are about |
| Touch.TouchInput.LongPress | apps/web-viewer/src/lib.rs:1197-1213 | likewise for the timer, which may fire at any time |
| Touch.StepKeepsInv | apps/web-viewer/src/lib.rs:1184-1500 | every event keeps the host's buttons in step with `dragging` |
| Touch.RunKeepsInv | apps/web-viewer/src/lib.rs:1184-1500 | for every sequence of events the left button is pressed and released strictly by turns and is down exactly while dragging, the others are never left down, and positions lie in the unit square |
| Touch.NothingHeldAfterLastLift | apps/web-viewer/src/lib.rs:1452-1475 | once the last finger lifts no button is down |
| Touch.OneFingerTap | apps/web-viewer/src/lib.rs:1476-1500 | one finger down and up is one left click at the cursor, or at the finger while there is none |
| Touch.TapUnlessDragged | apps/web-viewer/src/lib.rs:1381-1500 | one finger that lands, moves and lifts is a left click if and only if it stayed within 8 px of where it landed; otherwise only where the cursor is is sent |
| Touch.LongPressUnlessDragged | apps/web-viewer/src/lib.rs:1184-1215 | when the timer fires the button is pressed if and only if the finger stayed within 8 px, and only then is it still armed |
| Touch.DragReleases | apps/web-viewer/src/lib.rs:1466-1472 | a held button is only moved and then released, once, where the cursor is |
| Touch.DoubleTapPresses | apps/web-viewer/src/lib.rs:1274-1289 | in double-tap mode a finger that lands within 300 ms of a tap presses at once, and one that lands later does not |
| Touch.NoFling | apps/web-viewer/src/lib.rs:1269-1270 | fingers that land or lift do not move the cursor |
| Touch.TimerNeedsFinger | apps/web-viewer/src/lib.rs:1184-1500 | in every run the timer is armed only while a finger is down |
| Touch.TwoFingerTap | apps/web-viewer/src/lib.rs:1476-1500 | two fingers landing one by one are one right click, at the cursor or the finger, if lifted within 300 ms, and otherwise nothing; soon after a tap in double-tap mode a left click comes before it |
| Touch.SimultaneousTwoFingerTap | apps/web-viewer/src/lib.rs:1270-1275 | two fingers landing together are a right click if and only if lifted within 300 ms of the last gesture that began with one |
| Touch.PinchKeepsGrab | apps/web-viewer/src/lib.rs:1335-1380 | however the fingers move, the content first grabbed stays under the point half way between them |
| Touch.PinchFromLanding | apps/web-viewer/src/lib.rs:1257-1268 | a pinch is measured from where the second finger lands, which also ends a long press and a drag |
| Touch.PinchIsNoTap | apps/web-viewer/src/lib.rs:1359 | a pinch is never a click |
| Touch.ThreeFingersOnlyScroll | apps/web-viewer/src/lib.rs:1327-1334 | three fingers are never a click, and do not zoom while two of them are left |
| Touch.NoLurch | apps/web-viewer/src/lib.rs:1445-1449 | after a finger lifts the next pinch starts afresh |
| Touch.ZoomIsNearest | apps/web-viewer/src/lib.rs:1360-1361 | the zoom is the one in [1, 8] nearest to what the fingers ask for |
| Touch.ZoomSnaps | apps/web-viewer/src/lib.rs:1458-1465 | a zoom of nearly 1 becomes exactly 1 with the last lift, any other stays |
| Touch.PinchScales | apps/web-viewer/src/lib.rs:1358-1360 | while unclamped, the zoom is the first one times the ratio of the distances |
| Touch.SwipeScrolls | apps/web-viewer/src/lib.rs:1385-1399 | over any three-finger swipe the scrolling sent adds up to three times the primary finger's displacement, turned to the host |
| Touch.DragMovesCursor | apps/web-viewer/src/lib.rs:1400-1413 | over any one-finger drag that stays on screen the cursor moves by the finger's displacement, and the host is told where it is |
| Touch.PlaceRoundTrip | apps/web-viewer/src/lib.rs:979-994 | in every rotation, drawing the cursor and reading a position back are inverse |
| Touch.PlacedTurns | apps/web-viewer/src/lib.rs:976-994 | unrotated the host's screen fills the video, and each further rotation turns it a quarter clockwise |
| Touch.RotDeltaIsLinearPart | apps/web-viewer/src/lib.rs:1004-1014 | scroll deltas turn as positions do |
| Downscale.FitsTightly | crates/capture/src/linux.rs:190-200 | 1 <= dst <= min(src, cap), one axis at the cap or both unchanged, both axes scaled by one factor up to half a pixel |
| Downscale.NoCap | crates/capture/src/linux.rs:187-193 | without a cap the size is the source's |
| Downscale.FittedIsValid | crates/capture/src/linux.rs:388-400 | a fitted size is one the downscaler accepts |
| Downscale.BinsPartition | crates/capture/src/linux.rs:216-222 | the bins of an axis are consecutive intervals that cover it, none empty, none longer than ceil(src / dst) |
| Downscale.BoxesPartition | crates/capture/src/linux.rs:217-223 | each source pixel lies in the box of exactly the output pixel it is added to |
| Downscale.DownscaleBgra | crates/capture/src/linux.rs:206-241 | every output byte is the 32-bit sum over the count of its pixels, all indices in bounds |
| Downscale.ByteIsMean | crates/capture/src/linux.rs:231-239 | it is the floored mean of its box if and only if the box's sum is below 2^32 |
| Downscale.WhiteOverflows | crates/capture/src/linux.rs:388-400 | a white image of 5000 by 5000 fitted into one pixel: the sum overflows and the pixel does not come out white |
| Downscale.SmallBinsFit | crates/capture/src/linux.rs:214-228 | which holds whenever 255 times the largest box is |
| Downscale.ByteIsBetween | crates/capture/src/linux.rs:202-205 | then it lies between the least and the greatest byte of its box |
| Downscale.SameSizeIsCopy | crates/capture/src/linux.rs:206-241 | an image that is not made smaller comes out as it is, channel by channel, without the padding of its rows |
| AnnexB.ContainsIdr | crates/codec/src/lib.rs:190-217 | on every buffer: true if and only if a start code that is not overlooked carries type 5 |
| AnnexB.UnitTypeIs | crates/codec/src/lib.rs:206-208 | the type is in the low five bits of the header |
| AnnexB.SeenByParity | crates/codec/src/lib.rs:190-217 | the scan sees exactly the start codes that follow an even number of others back to back |
| AnnexB.WrongExactly | crates/codec/src/lib.rs:187-217 | on every buffer: the scan differs from a full search if and only if there are keyframes and each follows an odd number of start codes back to back |
| AnnexB.NothingOverlooked | crates/codec/src/lib.rs:187-217 | so where no start code begins at another's header it is a full search |
| AnnexB.OverlookedKeyframe | crates/codec/src/lib.rs:206-211 | a buffer where it is not |
| AnnexB.StartsAreUnits | crates/codec/src/lib.rs:194-204 | in a stream that follows the syntax every start code carries the header of a unit |
| AnnexB.UnitsAreStarts | crates/codec/src/lib.rs:194-204 | and every unit has its start code |
| AnnexB.ScanIsExact | crates/codec/src/lib.rs:187-217 | on every such stream the scan answers whether some unit has type 5 |
| AnnexB.EncodedIsWellFormed | crates/codec/src/lib.rs:187-217 | emulation prevention (section 7.4.1 of ITU-T H.264) of any payload that does not end in zero gives a unit that ScanIsExact covers |
| Clipboard.SyncThread.Round | crates/session/src/clipboard.rs:64-91 | one round of the loop is any number of the Apply steps and then the Poll step that NoEcho is about |
| Clipboard.StepKeepsInv | crates/session/src/clipboard.rs:64-91 | every step of two peers keeps each update paid for |
| Clipboard.NoEcho | crates/session/src/clipboard.rs:58-91 | on every run each side sends at most one update per edit of its own user, plus one |
| Clipboard.ApplyThenPoll | crates/session/src/clipboard.rs:70-73 | polling after applying sends nothing |
| Clipboard.OnlyTextArrives | crates/session/src/clipboard.rs:66-76 | what is not text, or is refused, has no effect |
| Clipboard.LastTextStays | crates/session/src/clipboard.rs:66-76 | the last text that is taken is what the clipboard holds |
| Clipboard.RunIsNumbered | crates/session/src/clipboard.rs:79-88 | in every run the updates on their way are the last ones sent, numbered one by one |
| Clipboard.RunDecides | crates/session/src/clipboard.rs:58-91 | from any state that a run reaches, what both sides will end with is the same if and only if the last deciding step, an update sent or the last one on its way refused, did not cross with another |
| Clipboard.AgreeExactly | crates/session/src/clipboard.rs:58-91 | on every run of two fresh peers, whoever edits and whatever is refused: when they settle with text on both sides, the hashes agree if and only if the last deciding step did not cross |
| Clipboard.OneSidedSync | crates/session/src/clipboard.rs:64-91 | an instance: from a moment when the right side is clean and nothing is on its way to the left, if only the left user edits, then once the left has sent something they agree whenever they settle, up to hash clashes and clearing |
| Clipboard.OneSidedFromStart | crates/session/src/clipboard.rs:60-91 | from the very start, with nothing to send on the right: they agree whenever they settle, unless the left has never had anything to send either |
| Clipboard.RightContentFirst | crates/session/src/clipboard.rs:60-91 | content on the right at the start that arrives first replaces what is on the left, and they agree |
| Clipboard.CrossingSwaps | crates/session/src/clipboard.rs:64-91 | whatever the two hold, if both send before anything arrives the clipboards are swapped, and the run has crossed unless the hashes are equal |
| Clipboard.ContentsSwapAtStart | crates/session/src/clipboard.rs:60-91 | contents on both sides that are sent at once are swapped, a run that crosses, and stay so until the left sends again |
| Clipboard.ConcurrentEditsSwap | crates/session/src/clipboard.rs:64-91 | edits on both sides at once swap the clipboards, for good, a run that crosses unless the hashes are equal |
| Throttle.LoginThrottle.CheckUser | apps/rendezvous/src/throttle.rs:35-46 | refused exactly while locked, as RetryAfterIsTight and FailuresTakeTime take it |
| Throttle.RetryAfterIsTight | apps/rendezvous/src/throttle.rs:38-43 | waiting as many seconds as a refusal says is enough, and until one second less than that every try is still refused |
| Throttle.LoginThrottle.RecordFailure | apps/rendezvous/src/throttle.rs:49-67 | the failure is counted, the lockout armed past the fifth, idle entries dropped |
| Throttle.LoginThrottle.RecordSuccess | apps/rendezvous/src/throttle.rs:70-72 | the user's entry is gone |
| Throttle.HousekeepingIsInvisible | apps/rendezvous/src/throttle.rs:61-66 | after any run, dropping idle entries drops no locked one and by itself changes no answer then or later |
| Throttle.TablesHold | apps/rendezvous/src/throttle.rs:49-72 | after any run each entry holds the failures since the user's last success or since it was dropped, and without housekeeping all since the last success |
| Throttle.RefusedExactly | apps/rendezvous/src/throttle.rs:35-67 | after any run a user is refused if and only if it failed more than five times and the lock of the last failure still lasts |
| Throttle.HousekeepingAgrees | apps/rendezvous/src/throttle.rs:35-67 | runs with and without housekeeping give everyone the same answers at every moment if and only if at each failure the two counts are equal, or lock for equally long: not at all, or an hour |
| Throttle.ForgettingShows | apps/rendezvous/src/throttle.rs:49-67 | and they do so whichever failure is repeated however often if and only if no user fails once another's failure, six hours or more after its own last, has dropped it |
| Throttle.HousekeepingForgets | apps/rendezvous/src/throttle.rs:61-66 | a run after which they differ: five failures forgotten, so that the sixth does not lock |
| Throttle.EntryTracks | apps/rendezvous/src/throttle.rs:49-67 | while a user neither succeeds nor pauses for six hours, its entry holds the true count, time and lockout, whatever other users do |
| Throttle.FailuresTakeTime | apps/rendezvous/src/throttle.rs:35-67 | a client that honours the answers needs at least the sum of all its backoffs for its failures |
| Throttle.TotalClosedForm | apps/rendezvous/src/throttle.rs:55-60 | which is 4094 + 3600 * (m - 17) seconds for m >= 17 failures |

## Left out

- Cryptography and codecs: Argon2, HMAC, ed25519, H.264, AV1 and Opus appear as parameters or not at all.
- The host, viewer, rendezvous client, identity and pairing modules, the transport and the database.
- TransferIntegrity.CompletedMeansReceived: says nothing of a transfer in which the seek failed with something to resume and a read or write fell short as well, since there the bytes themselves decide (BytesDecide); with an honest sender CompletedIsSourceExactly covers that case.
- `sync_all` on the `.part` is taken to succeed, and one offer's file system calls are one step.
- `mime_for`, progress events of the sender and the parsing of envelopes.
- Trimming of dictionary lines and the value of the embedded word list: the decoder takes any list of lines.
- Floating-point rounding and not-a-number values in all real arithmetic.
- `touchcancel`, attaching the touch handlers twice, and mouse and wheel events.
- Of the encode threads only the framing is modelled; bitrate and keyframe requests end at the encoder.
- Concealment of lost audio packets (`push_packet`) and the down-mixing of channels.
- The socket handlers around the hub: authentication, JSON, keep-alive and the size limit on room codes.
- Wrap-around of the broker's 64-bit agent numbers, the hub's member numbers and the throttle's 32-bit failure count.
- Peer credentials and the socket of the broker: whether a connection is permitted is an input.
- Clipboard.AgreeExactly: clearing the clipboard is not forwarded by the code, so agreement is decided only for text on both sides, and up to a clash of hashes.
- SwipeDecoder.DecodingMapped: paths whose length or extent crosses a cut-off when scaled are excluded, since the code then treats them as points.
- Downscale.FitsTightly: the factor is exact, where the code computes it in floating point.
