# udpcp: the transfer protocol, verified

udpcp copies one file over UDP. The sender announces it (INIT), blasts numbered chunks (DATA),
says DONE, and resends what the receiver reports missing (NACK) until the receiver has saved the
file and says FIN. This project models both endpoints and the wire format in Dafny, joins them by
a network that loses, repeats, reorders and damages datagrams, and proves what the protocol is
for: a completed transfer was saved, a lossy one recovers, and neither end ever leaves the
invariants its fast bookkeeping relies on.

`dafny verify dfyconfig.toml` checks all of it.

## How it is built

Each endpoint exists twice.

- **As code.** `ReceiveState` and `Listener`, `Blast` and `SendSession` are classes with the
  source's fields and loops: a bitmap of 64-bit words with a redundant count, frontier and gap
  clock; a queue with its companion set; buffers filled in place; nested loops over a socket.
- **As a state machine.** `ReceiverMachine.Step` handles one event of the receiver,
  `SenderMachine.Act` and `On` one move of the sender. Their states hold plain sets, lists and
  file contents.

`Listener.ReceiveLoop` and `SendSession.RunPasses` are proved to run the machines, step for step:
same datagrams out, same files on disk, same outcome. Theorems about whole runs are then about
the machines, and about the two machines taking turns (`Network`).

| file | about |
|---|---|
| `Wire`, `Paths`, `InitPacket`, `Text`, `Chunks`, `Nacks` | headers, file names and temp paths, INIT, what is text, chunk geometry and DATA payloads, the NACK path |
| `ChunkSets` | what bitmap, count and frontier stand for |
| `Sockets` | what is read and sent, at either end |
| `Sessions`, `ReceiveState` | one transfer at the receiver: the plain form, and the fields proved against it |
| `ReceiverMachine`, `ReceiveLoop` | the receiver: state machine, and the loops that run it |
| `ReceiverSafety`, `ReceiverSessions`, `ReceiverFiles`, `ReceiverHistory` | what every receiver run keeps |
| `ReceiverAnswers`, `IdleClock`, `NackTiming` | what the receiver does and when, told from the events |
| `SenderMachine`, `SendSession` | the sender: state machine, and the loops that run it |
| `SenderQueue`, `SenderPasses`, `SenderHonesty` | what every sender run keeps |
| `Handshake`, `SenderProgress` | what the sender does and when, told from the replies |
| `Network` | both ends taking turns |
| `EndToEnd`, `Fidelity` | end-to-end safety, and what it needs of the network |
| `Recovery`, `Lingering`, `Blasting`, `Completion` | one round after any loss; a lost FIN; when completion is within reach |
| `DamagedInit`, `ForgedFin`, `FirstAck`, `ClosedWindow`, `TempNames` | exact conditions, and runs in which they fail and with them the claim |

The world outside:

- Rust's fixed-width integers are subset types and `as u16` is written as a remainder. SHA-256 is
  any function to 32-byte digests. Where equal contents are concluded, the theorem names the one
  pair of inputs that must not collide.
- A receiver event is a datagram, a read timeout, an interrupted read or a socket error. It
  carries three clock readings (before the read, on its return, after the handling) and the
  outcome of every system call made while handling it: how many sends succeed, whether a file can
  be created, sized, written, synced, read back and renamed. Theorems
  about all runs hold for any readings; a run that is said to exist has a clock that only moves
  forward (`Elapses`).
- The sender's socket gives replies from a list and is quiet for good when the list is used up. A
  budget says after how many datagrams a send fails. A receiver's run is observed up to the last
  event.
- In `Network` each end hears datagrams that the other sent at some time before, as `Channel`
  lets them through; other hosts may send anything.

## What turned out to be conditional

- **Completion and the INIT.** An INIT's payload is protected by nothing. `DamagedInit` is a run
  with all headers intact in which the sender completes and a wrong file was saved.
  `SaveGoesBack` and `CompletionMeansSaved` give the exact condition. Every file saved for the
  sender goes back to an INIT datagram that arrived and is a copy of the sender's own, possibly
  damaged; the file hashes to what that datagram's hash field says; and, short of a collision, it
  is the source if and only if the field arrived with the source's hash. `CompletionMeansDelivered`
  draws the conclusion for networks that keep INITs intact.
- **Which host the sender follows.** The handshake accepts an ACK from any host, and follows the
  first. For every job and every host but the target, `StrangerCompletes` is a run in which that
  host's ACK and FIN complete the sender while the receiver never heard of it.
  `CompletionCountsExactly`: over a network that forges no FIN, completion means a saved file if
  and only if the first ACK heard was the target's.
- **What the network must keep.** For a completed transfer to have been saved it is enough that
  nothing arrives as a FIN that was not sent as one; for the saved file to go back to the sender's
  INIT, the same of INITs. Intact headers are more than both. `CompletionNeedsGenuineFins` is
  exact: over a network that passes datagrams on and keeps INITs, completion means a save if and
  only if no ACK, and no NACK for any list of the file's chunks, can arrive as a FIN.
- **When the sender comes back.** While a session is open completion stays possible, however late.
  Once a one-shot receiver has saved the file, the sender can still complete if and only if the
  linger window is open or a FIN already sent can still arrive (`CompletionAfterSaveExactly`).
  `WindowCanClose`: every file has a run in which it was saved and the sender never learns of it.
- **Temp files.** A comment in the source says temp files are cleaned up on abandoned receives.
  `StepTempsExact` gives the exact condition: a step breaks the tie between temp files and open
  sessions if and only if sizing a new temp file fails or a DONE saves a file named `*.tmp`.
- **Files named like temp files.** Any path, `*.tmp` or not, holds what was last saved there as
  long as no INIT claims it for its temp file. `StepFilesAsLogged` says exactly what one that does
  leaves: an empty file if sizing fails, no file if the ACK cannot be sent, zeros otherwise.
  `TempNames` has the runs: a temp file left behind, and a saved `f.tmp` lost to an INIT for `f`.
- **INIT agreement** holds if and only if the file is one the sender accepts and its name is one
  plain path component (`InitRoundTrip`, `HandshakeAgreement`).

## Model

| member | source | states |
|---|---|---|
| Wire.BigEndianRoundTrip | src/lib/protocol.rs:172-190 | decoding inverts encoding on every value that fits the width |
| Wire.FromBigEndianFits | src/lib/protocol.rs:180-190 | every byte string of a width is the encoding of its value, which fits |
| Wire.FirstByteWeighsMost | src/lib/protocol.rs:172-190 | the value is the sum of the bytes, the first weighing most |
| Wire.EncodeHeader | src/lib/protocol.rs:172-176 | the first seven bytes of the buffer become the header, the rest stays |
| Wire.HeaderLayout | src/lib/protocol.rs:172-176 | on the wire: the type's number, four bytes of sequence number, two of length, most significant first |
| Wire.TypesExactly | src/lib/protocol.rs:128-139 | the numbers 1 to 7 are INIT, ACK, DATA, DONE, NACK, FIN, FIN-ACK, and no other byte is a type |
| Wire.Frame | src/lib/protocol.rs:202-217 | the datagram is the header's bytes and then the payload, whole |
| Wire.DecodeHeaderExact | src/lib/protocol.rs:178-190 | a header is decoded if and only if the buffer starts with that header's encoding |
| Wire.FramingRoundTrip | src/lib/protocol.rs:192-217 | a framed packet parses back to its type, number and payload, trailing bytes ignored, if and only if the length survives the 16-bit cast |
| Wire.StaleBytesIgnored | src/lib/protocol.rs:192-200 | bytes left in the receive buffer behind a datagram never change what is parsed or read |
| Wire.ParsePacketOf | src/lib/protocol.rs:17-21 | up to the largest payload either end builds, framing is lossless and the datagram fits UDP |
| Wire.NackRoundTrip | src/lib/protocol.rs:238-245 | decoding an encoded list of chunk numbers gives the list back |
| Wire.DecodeNacks | src/lib/protocol.rs:242-245 | as many numbers as announced, but no more than whole groups of four bytes |
| Wire.NackLayout | src/lib/protocol.rs:238-240 | number `i` of the list is bytes `4i` to `4i + 3`, most significant first |
| Chunks.ChunkCountIsDivCeil | src/lib/send.rs:337-347 | counting chunks off one by one gives the rounded-up quotient both ends compute |
| Chunks.ChunkStartsInside | src/lib/recv.rs:190-199 | a chunk number exists if and only if its offset lies inside the file, so `size - offset` never underflows |
| Chunks.ChunksPartitionFile | src/lib/recv.rs:195-199 | each offset of the file lies in exactly one chunk, and no chunk reaches past the end |
| Chunks.ChunksDisjoint | src/lib/recv.rs:195-201 | different chunks occupy separate ranges |
| Chunks.SpliceOneChunk | src/lib/recv.rs:195-201 | writing a chunk sets its bytes and those of no other chunk |
| Chunks.ChunksDetermineFile | src/lib/recv.rs:190-216 | two files of one size that agree chunk by chunk are equal, the empty file and a short last chunk included |
| Chunks.DataPayloadRoundTrip | src/lib/recv.rs:231-239 | the receiver recovers the body the sender wrapped, in both versions, and it fits a datagram |
| Chunks.DataLayout | src/lib/send.rs:180-187 | on the wire: the body, under V2 behind its 32-byte digest |
| Chunks.ChunkSizeExact | src/lib/protocol.rs:256-268 | a chunk size is accepted if and only if it is positive and every chunk of that size, as framed, fits the 65507 bytes of a datagram |
| Chunks.TamperedBodyRefused | src/lib/recv.rs:231-239 | under V2 a payload behind an intact digest is refused or carries the original body, or the two collide |
| InitPacket.ParseInit | src/lib/recv.rs:48-121 | whatever the bytes, an accepted INIT has a legal chunk size, the right chunk count and at most 2^24 chunks |
| InitPacket.ParsesExactly | src/lib/recv.rs:48-121 | which payloads are accepted and how each field is read from them, with the limits as numbers |
| InitPacket.OutputNameExactly | src/lib/recv.rs:85-111 | of the name field, the last path component before the first NUL is used, if and only if all before the NUL is text and the component is neither ".." nor contains a control character |
| Text.Utf8Exactly | src/lib/recv.rs:93-94 | text is exactly what encodes a sequence of Unicode scalar values |
| Text.ControlsExactly | src/lib/recv.rs:106-109 | and has a control character if and only if one of them is U+0000-U+001F or U+007F-U+009F |
| InitPacket.TransferableExactly | src/lib/send.rs:332-347 | both ends accept a transfer if and only if its chunks can be framed and 2^24 of them hold the file |
| Paths.TmpPathNamed | src/lib/recv.rs:138-144 | for every output path the temp file's name is the output file's with `.tmp` behind it, so the two never coincide (`TmpPathBeside` says where it lies) |
| Paths.TmpPathBeside | src/lib/recv.rs:138-144 | the temp file lies in the output file's directory: the same path components up to the last, from the root or not, and then the name with `.tmp` |
| Paths.TmpPathInDir | src/lib/recv.rs:138-144 | byte for byte, for a directory spelled without trailing slashes or dots |
| Paths.PlainTmpPath | src/lib/recv.rs:138-144 | for a plain name it is the name with `.tmp` appended |
| InitPacket.LayOutInit | src/lib/send.rs:123-128 | filling the buffer field by field gives the INIT payload |
| InitPacket.InitFields | src/lib/send.rs:123-128 | every field of the laid-out payload sits where the parser reads it |
| InitPacket.InitLayout | src/lib/send.rs:123-128 | on the wire: version at 0, size at 1, chunk size at 9, hash at 13, name at 45 with a NUL behind it, numbers most significant byte first |
| InitPacket.NameRoundTrip | src/lib/recv.rs:85-111 | the name survives if and only if it is one plain component: UTF-8, no control character, no slash, not empty, "." or ".." |
| Paths.FileName | src/lib/recv.rs:95-98 | the name is slash-free and never empty, "." or ".." |
| Paths.FileNameIsLast | src/lib/recv.rs:95-98 | it is the last path component that is not empty or ".", if that is not ".." |
| InitPacket.InitRoundTrip | src/lib/recv.rs:48-121 | both ends agree on version, size, chunk size, total, hash and name if and only if the sender accepts the file and the name is plain |
| InitPacket.InitRoundTripToPath | src/lib/recv.rs:90-92 | with an explicit output path the name does not matter |
| ChunkSets.SetBitExact | src/lib/recv.rs:185-188 | marking a chunk adds it to the set the bitmap stands for and changes no other bit, spare bits included |
| ChunkSets.RepresentsUnique | src/lib/recv.rs:179-183 | a bitmap stands for one set only |
| ChunkSets.BitmapUnique | src/lib/recv.rs:179-188 | and a set has one bitmap of each length |
| ChunkSets.CountBelowFrontier | src/lib/recv.rs:245-248 | `count < frontier` if and only if a chunk is missing below one that arrived |
| ChunkSets.CountIsTotal | src/lib/recv.rs:241-243 | `count == total` if and only if every chunk arrived |
| ChunkSets.MissingExact | src/lib/recv.rs:250-261 | the report is the strictly increasing list of exactly the absent chunks |
| ChunkSets.MissingBelowFrontier | src/lib/recv.rs:303-310 | up to the frontier it has `frontier - count` entries, and is empty if and only if no gap is open |
| Nacks.NackPacketExact | src/lib/recv.rs:263-276 | one batch, framed, fits a datagram and is read back unchanged |
| Nacks.NackPacketCount | src/lib/recv.rs:263-279 | a list goes out in as few datagrams as possible, one for every 16375 numbers begun |
| Nacks.NackPacketAt | src/lib/recv.rs:263-279 | and each but the last is full, in the order of the list |
| Nacks.NackPipelineRoundTrip | src/lib/recv.rs:263-279 | splitting, encoding, framing, parsing, decoding and joining gives the missing list back |
| Nacks.RequestedUnion | src/lib/send.rs:259-287 | any datagrams, in any order and number, ask for the union of their lists |
| Nacks.NacksSurviveReordering | src/lib/send.rs:259-287 | a complete set of datagrams, reordered or repeated, asks for every missing chunk and no other |
| Sessions.Store | src/lib/recv.rs:190-216 | the plain form of `store` keeps every session valid and its INIT unchanged |
| Sessions.StoreEffect | src/lib/recv.rs:190-216 | a store adds at most its own chunk, loses none, and leaves the bytes of all others; a repeated chunk is not rewritten |
| Sessions.StoreAllChunk | src/lib/recv.rs:190-216 | closed form of any number of stores, chunk by chunk |
| Sessions.OrderIndependence | src/lib/recv.rs:190-216 | two series of arrivals that deliver the same chunk numbers end with the same set and file, whatever the order, repetitions and junk between |
| Sessions.StoreAuthentic | src/lib/recv.rs:224-229 | storing the source's bytes keeps a session authentic |
| Sessions.FullAuthenticIsSource | src/lib/recv.rs:241-243 | once full, an authentic session holds the source |
| Sockets.Socket.SendPacket | src/lib/protocol.rs:202-217 | the header encoded into a buffer, the payload behind it, and one datagram out if the socket lets it |
| ReceiveStates.ReceiveState.constructor | src/lib/recv.rs:151-176 | a new state is valid and stands for a session with no chunks |
| ReceiveStates.ReceiveState.New | src/lib/recv.rs:124-177 | fails without a trace, or leaves an empty temp file when only sizing failed, or opens a fresh session with its temp file at full size |
| ReceiveStates.ReceiveState.IsReceived | src/lib/recv.rs:179-183 | the bit test is membership |
| ReceiveStates.ReceiveState.MarkReceived | src/lib/recv.rs:185-188 | the set gains the chunk |
| ReceiveStates.ReceiveState.RefreshGapClock | src/lib/recv.rs:218-222 | cleared without a gap, kept while one stays open, started otherwise |
| ReceiveStates.ReceiveState.Store | src/lib/recv.rs:190-216 | does what the plain form does, invariants kept; fails only when a chunk must be written and the write fails |
| ReceiveStates.ReceiveState.AcceptData | src/lib/recv.rs:224-239 | the digest check, then the store |
| ReceiveStates.ReceiveState.Full | src/lib/recv.rs:241-243 | holds if and only if every chunk below the total arrived |
| ReceiveStates.ReceiveState.HasOpenGap | src/lib/recv.rs:245-248 | holds if and only if a gap is open |
| ReceiveStates.ReceiveState.CollectMissing | src/lib/recv.rs:250-261 | the list of absent chunks below the bound, or below the total if that is less |
| ReceiveStates.ReceiveState.EmitNacks | src/lib/recv.rs:263-279 | sends the batches in order up to the first failing send, and says whether all went out |
| ReceiveStates.ReceiveState.SendNacks | src/lib/recv.rs:281-288 | reports every missing chunk |
| ReceiveStates.ReceiveState.NackGaps | src/lib/recv.rs:303-310 | reports every chunk missing below the frontier |
| ReceiveStates.ReceiveState.Finalize | src/lib/recv.rs:362-382 | the final path changes only if sync, hash check and rename all succeed; then it holds the temp file |
| ReceiveStates.ReceiveState.Flush | src/lib/recv.rs:356-360 | on any failure only the temp file goes |
| ReceiveStates.ViewFixesFields | src/lib/recv.rs:22-37 | receivers that hold the same chunks of one transfer have the same bitmap, count and frontier |
| ReceiverMachine.Step | src/lib/recv.rs:505-633 | at every head of the loop: a session is open exactly while a sender is locked in, and its temp file holds what was stored |
| ReceiverMachine.StepSession | src/lib/recv.rs:539-595 | nothing but DATA from the locked host changes an open session; a new one starts empty, from an acceptable INIT |
| ReceiveLoops.Listener.AbandonTransfer | src/lib/recv.rs:467-485 | the session, its temp file, sender and round clock go; a one-shot receiver returns the error |
| ReceiveLoops.Listener.OnInit | src/lib/recv.rs:551-578 | opens or not, acknowledges, or abandons when the ACK cannot be sent |
| ReceiveLoops.Listener.OnData | src/lib/recv.rs:579-595 | stores, or abandons on a write error |
| ReceiveLoops.Listener.OnTimeout | src/lib/recv.rs:512-533 | gives up on a silent sender, starts a NACK round when one is due, or waits |
| ReceiveLoops.Listener.OnDone | src/lib/recv.rs:596-630 | reports what is missing, or saves, says FIN and lingers, or abandons |
| ReceiveLoops.Listener.Linger | src/lib/recv.rs:413-446 | answers repeated DONEs until a FIN-ACK, an error or the end of the window |
| ReceiveLoops.Listener.ReceiveLoop | src/lib/recv.rs:487-634 | the loops run the state machine on everything that arrives: same files, same datagrams, same outcome |
| ReceiverSafety.RunSound | src/lib/recv.rs:356-382 | in every run, each saved file has the size and hash recorded for its session (`SaveExplained` ties the record to an INIT that arrived), and a host that was sent a FIN had a file saved |
| ReceiverSafety.RunMeant | src/lib/recv.rs:263-288 | in every run nothing goes out but ACKs, FINs that report the latest save, and NACKs to the locked host for what its session misses |
| ReceiverSafety.RunFins | src/lib/recv.rs:596-630 | in every run, whenever a FIN goes out, the last thing that happened to any transfer is a save for that host: no FIN for an abandoned, unfinished or later session |
| ReceiverSessions.InitOpens | src/lib/recv.rs:551-578 | a listening receiver answers an acceptable INIT with a fresh session and an ACK |
| ReceiverSessions.StrangersIgnored | src/lib/recv.rs:539-543 | a datagram from any other host changes nothing, in a session or while lingering |
| ReceiverSessions.StepKeepsChunks | src/lib/recv.rs:505-633 | while it stays open a session keeps its INIT, its peer and every chunk |
| ReceiverSessions.MissingNeverGrows | src/lib/recv.rs:505-633 | over any run within a session the missing set never grows |
| ReceiverSessions.SavesExactly | src/lib/recv.rs:384-393 | a session is saved if and only if a DONE from its host finds it full and sync, read, hash and rename in order |
| ReceiverSessions.EndsExactly | src/lib/recv.rs:505-633 | the exact condition under which an event ends a session: socket error, silence past the idle timeout, a needed write or send that fails, or a DONE that finds everything there |
| ReceiverSessions.SessionEnds | src/lib/recv.rs:384-485 | it ends in exactly one of two ways: full, hash matched, saved and in linger; or nothing saved, no FIN among what the step sent, only its temp file gone |
| ReceiverAnswers.RepeatedInitAcked | src/lib/recv.rs:551-578 | in an open session every further INIT of its host is answered by another ACK, and changes nothing but the idle clock |
| ReceiverAnswers.ListeningExactly | src/lib/recv.rs:505-578 | a listening receiver opens a session if and only if it hears an acceptable INIT and can create, size and acknowledge; nothing else makes it say anything, and it stops only on a socket error or, one-shot, when that ACK fails |
| ReceiverAnswers.EndsFor | src/lib/recv.rs:467-485 | a session that ends unsaved fails with the reason that applies: a serving receiver listens again, unless it is the socket, and a one-shot receiver returns it |
| ReceiverAnswers.LingerOver | src/lib/recv.rs:620-630 | after the linger a serving receiver listens again, the event past the window included, and a one-shot receiver returns success |
| ReceiverFiles.StepFilesAsLogged | src/lib/recv.rs:138-149 | for every path, temp names included: a step leaves it holding what was last saved there, or what it held before, if and only if no accepted INIT claims it for its temp file, or what that makes of it happens to be the same |
| ReceiverFiles.StepClaims | src/lib/recv.rs:138-149 | what such an INIT makes of the path: empty if sizing fails, gone if the ACK cannot be sent, zeros of the new size otherwise |
| ReceiverFiles.RunFilesAsLogged | src/lib/recv.rs:356-411 | after any run in which no INIT asked for it as a temp file, every path holds the file last saved there, or what it held before |
| ReceiverFiles.NeverAsked | src/lib/recv.rs:138-144 | no INIT can ask for a path that does not end in `.tmp` |
| ReceiverFiles.StepTempsExact | src/lib/recv.rs:138-149 | temp files and open sessions stay in step if and only if the event neither is an acceptable INIT whose temp file cannot be sized, nor a DONE that saves under a temp name |
| ReceiverFiles.RunTempsExact | src/lib/recv.rs:405-411 | with sizing in order and no file named `*.tmp` asked for, no temp file outlives its session |
| TempNames.FailedSizingLeavesTemp | src/lib/recv.rs:146-149 | a first acceptable INIT whose temp file cannot be sized leaves it behind with no session open |
| TempNames.SavedTempNameIsLost | src/lib/recv.rs:138-149 | a serving receiver saves `f.tmp`, then hears an INIT for `f`: what it had saved is gone |
| ReceiverHistory.SessionBegan | src/lib/recv.rs:551-566 | in every run, an open session was opened by an acceptable INIT from its host that arrived, and has been open since |
| ReceiverHistory.SaveExplained | src/lib/recv.rs:356-382 | in every run, each saved file goes back to such an INIT and to a DONE that found the session full and put the file in place, its hash the one that INIT declared |
| ReceiverFiles.RunOneShot | src/lib/recv.rs:620-626 | a one-shot receiver saves at most one file and never touches it again |
| IdleClock.LastHeard | src/lib/recv.rs:539-545 | in every run, while a session is open the idle clock shows when the last datagram came from its host, of whatever kind and parsable or not |
| IdleClock.GivesUpExactly | src/lib/recv.rs:328-343 | a session is dropped for idleness if and only if a read times out at least the idle timeout after that datagram |
| IdleClock.SilenceExactly | src/lib/recv.rs:328-343 | which is to say that no datagram of its host is less than the idle timeout back |
| NackTiming.StepGapClock | src/lib/recv.rs:205-222 | a step that leaves a gap open keeps the clock, or starts it if there was none |
| NackTiming.GapClockExact | src/lib/recv.rs:205-222 | in every reachable state the clock is set if and only if a gap is open, and shows when the current uninterrupted gapped period began |
| NackTiming.RunTimed | src/lib/recv.rs:511-533 | over every run, rounds are recorded in order and each timer round keeps the reissue interval from the session's round before it |
| NackTiming.RoundsApart | src/lib/recv.rs:290-301 | a timer round is at least the reissue interval after every earlier round of its session |
| NackTiming.TimerRoundExact | src/lib/recv.rs:303-354 | a timer round is never empty: it lists exactly the `frontier - count` chunks missing below the frontier |
| NackTiming.TimerRoundJustified | src/lib/recv.rs:328-354 | when one goes out, a gap has been open without interruption for the holdoff, and the last round is the reissue interval back |
| NackTiming.TimerRoundExactly | src/lib/recv.rs:290-354 | in every run, a read that times out while the host is not idle makes a round, if its datagrams can be sent, if and only if a gap has been open for the holdoff and the session's last round is 3000 ms back; otherwise it changes nothing |
| NackTiming.TimeoutIsProductive | src/lib/recv.rs:312-326 | the timeout the loop asks for ends at the first moment at which the tick has something to do, neither later nor, unless it is the shortest possible, earlier |
| NackTiming.TickIsProductive | src/lib/recv.rs:328-354 | and a tick does something exactly from that moment on |
| SenderMachine.Run | src/lib/send.rs:323-417 | every run ends on any finite list of replies, although NACKs refill the queue |
| Handshake.AckStartsBlast | src/lib/send.rs:132-158 | an ACK heard after `k` silences, fewer than the attempts, starts the blast with exactly `k + 1` INITs out |
| Handshake.TimesOutExactly | src/lib/send.rs:132-168 | a run ends in a handshake timeout if and only if every attempt could be sent and neither an ACK nor a socket error came before as many silences; exactly one INIT per attempt is then on the wire |
| SenderQueue.PushAllExact | src/lib/send.rs:64-70 | the queue gains exactly the chunks asked for that exist |
| SenderQueue.PushAllDistinct | src/lib/send.rs:64-70 | it keeps its order and never holds a chunk twice |
| SenderQueue.PushAllDrained | src/lib/send.rs:64-70 | a list of distinct existing chunks enters an empty queue unchanged |
| SenderQueue.PushAllAppend | src/lib/send.rs:96-104 | queueing NACK by NACK is queueing them all at once |
| SenderQueue.FirstOccurrencesExact | src/lib/send.rs:244-247 | removing repetitions keeps the same chunks, each once |
| SenderQueue.DedupAgrees | src/lib/send.rs:244-268 | and makes no difference to the queue |
| SenderQueue.PendingFits | src/lib/send.rs:215-217 | `total_chunks - pending.len()` never underflows |
| SenderQueue.WalkInv | src/lib/send.rs:201-241 | in every reachable state the queue is distinct and in range, progress never falls, never passes the total, and has reached it once all queued was sent |
| SenderQueue.RunIsWalk | src/lib/send.rs:323-417 | every run is a walk of the machine, so what walks keep, runs keep |
| SenderPasses.EverythingOwedIsSent | src/lib/send.rs:201-241 | when the queue runs empty, everything queued at any earlier moment has gone out since, in order, and the DATA sent are exactly the chunks taken from the queue |
| SenderPasses.QueueConserved | src/lib/send.rs:201-241 | conservation: chunks sent and chunks queued are together what they were, then what was added; and every addition was asked for by a NACK the peer sent |
| SenderPasses.WalkAdvances | src/lib/send.rs:170-241 | over any moves the wire and the queue's history only grow, and the DATA that went out are one for each chunk taken from the queue, in order |
| SenderHonesty.WalkHonest | src/lib/send.rs:117-199 | every INIT a sender puts on the wire is its job's own, and every DATA one of its chunks |
| SenderHonesty.DoneSays | src/lib/send.rs:398 | a DONE tells the number of chunks |
| SenderHonesty.DataSays | src/lib/send.rs:170-199 | a DATA tells its chunk's number and brings the bytes of the file from that multiple of the chunk size, under V2 behind their digest |
| SenderPasses.DrainedNackIsAnswered | src/lib/send.rs:72-113 | a chunk asked for in mid-blast goes out after that drain |
| SenderPasses.RunsAreBounded | src/lib/send.rs:387-416 | a run sends at most one INIT per attempt and max(1, passes) DONEs, and gives up only after all of these |
| SenderProgress.DrainsEverySixteenth | src/lib/send.rs:209-236 | within a pass the sender looks at the socket after every sixteenth DATA and after no other |
| SenderProgress.ProgressExactly | src/lib/send.rs:215-218 | the progress reported is the furthest the run has got: no state along it had fewer chunks queued, and some state had as few |
| SenderProgress.EndsExactly | src/lib/send.rs:374-416 | past the handshake the sender completes exactly on a FIN of its peer, and says so with a FIN-ACK if it can; it fails exactly when a send or a read does, or on silence after its last pass |
| SendSessions.ReadChunk | src/lib/protocol.rs:287-299 | over any short reads, fills the buffer with the file's next bytes; fewer only at the end |
| SendSessions.Dedup | src/lib/send.rs:244-247 | keeps the first occurrences, in order |
| SendSessions.Blast.constructor | src/lib/send.rs:41-58 | queue and set start with every chunk, in order |
| SendSessions.Blast.Enqueue | src/lib/send.rs:64-70 | queue and set stay the same chunks, and the queue is the machine's |
| SendSessions.SendSession.SendOne | src/lib/send.rs:170-199 | sends exactly the chunk's bytes of the file, wrapped for the version, under its number |
| SendSessions.SendSession.DrainFeedback | src/lib/send.rs:72-113 | follows the machine until the socket is quiet, a FIN or an error |
| SendSessions.SendSession.SendPending | src/lib/send.rs:201-241 | if it ends drained, queue and set are empty and all that was queued at entry was sent first |
| SendSessions.SendSession.CollectFeedback | src/lib/send.rs:254-292 | returns what every NACK asked for without repetitions, or completion, or failure |
| SendSessions.SendSession.Hail | src/lib/send.rs:123-142 | one more INIT of the machine, laid out and framed, or a failed send |
| SendSessions.SendSession.Handshake | src/lib/send.rs:117-168 | announces up to the attempt limit and follows the first host to acknowledge |
| SendSessions.SendSession.EndPass | src/lib/send.rs:398-415 | a DONE, then completion, the next pass with the missing chunks queued, or giving up |
| SendSessions.SendSession.RunPasses | src/lib/send.rs:368-416 | the loops run the state machine: same datagrams, same outcome |
| SendSessions.RunSend | src/lib/send.rs:323-417 | refuses, before anything is sent, exactly the chunk sizes that do not fit a datagram and the files that 2^24 chunks do not hold; otherwise runs the machine |
| EndToEnd.CompletesOnFin | src/lib/send.rs:91-95 | the sender completes on a FIN from its peer and on nothing else |
| EndToEnd.PlayDoneIsSaved | src/lib/recv.rs:596-622 | in every run over a network that forges no FIN, a sender that follows its target completes only after a file was saved for it |
| ForgedFin.ForgedFinCompletes | src/lib/protocol.rs:128-139 | if an ACK, or a NACK for some of the file's chunks, can arrive as a FIN, every file both ends accept has a run that completes with nothing saved |
| ForgedFin.CompletionNeedsGenuineFins | src/lib/send.rs:91-95 | over a network that passes datagrams on and keeps INITs, every completion on the target means a save if and only if no ACK and no NACK for the file can arrive as a FIN |
| Network.PlayIsRuns | src/lib/send.rs:323-417 | in every play of both ends each end does just its own run, so what runs keep, plays keep |
| EndToEnd.SaveGoesBack | src/lib/recv.rs:48-121 | every file saved for the sender goes back to an INIT that arrived, a copy of the sender's own; it hashes to that datagram's hash field, and short of a collision is the source if and only if the field arrived right |
| EndToEnd.CompletionMeansSaved | src/lib/send.rs:392-416 | end-to-end safety: when a sender that follows its target completes, a file for it was put in place, with the origin and exact condition just said |
| EndToEnd.PlayFilesAsLogged | src/lib/recv.rs:356-411 | in every play, serving or not, each path that no INIT asks for as a temp file holds the file last saved there, or what it held before |
| Network.PlayLocksOn | src/lib/send.rs:150-158 | if only the receiver talks to the sender, the sender follows the receiver |
| EndToEnd.TwoHostsCompletionMeansSaved | src/lib/send.rs:392-416 | between two hosts, completion alone implies the save and its origin |
| FirstAck.PeerSentFirstAck | src/lib/send.rs:150-158 | a sender past its handshake follows the host whose ACK it heard first |
| FirstAck.StrangerCompletes | src/lib/send.rs:150-158 | for every job and every host but the target, a run in which that host completes the sender and the receiver is untouched |
| FirstAck.CompletionCountsExactly | src/lib/send.rs:150-158 | completion implies a saved file if and only if the first ACK came from the target |
| EndToEnd.CompletedFileInPlace | src/lib/recv.rs:362-382 | with a one-shot receiver the completed file is still at its final path |
| Fidelity.AcceptedInitIsJob | src/lib/recv.rs:48-121 | an accepted INIT of the sender carries the sender's fields, even if its length was cut |
| Fidelity.HandshakeAgreement | src/lib/send.rs:117-168 | over the wire, the session opens under the sender's own file name if and only if that is plain |
| Fidelity.PlayOnJob | src/lib/recv.rs:551-566 | with INITs intact, every session and save for the sender is for its file |
| Fidelity.CompletionMeansDelivered | src/lib/send.rs:392-416 | with INITs intact and no forged INIT or FIN, a completed transfer saved the source, or the two files collide |
| Fidelity.StoredChunksAreRight | src/lib/recv.rs:190-239 | with bodies guarded (V1 intact, V2 digest intact) every stored chunk is the source's, or some datagram shows a collision |
| Fidelity.RightChunksPassTheCheck | src/lib/recv.rs:362-371 | and the final hash check then never fails |
| DamagedInit.DamagedInitDefeatsDelivery | src/lib/recv.rs:48-121 | a legal run with intact headers and a damaged INIT payload: the sender completes, the saved file is not the source |
| Recovery.ChunkArrives | src/lib/recv.rs:190-239 | no chunk the sender builds is refused: each is stored or already there |
| Recovery.ChunkGetsThrough | src/lib/recv.rs:190-239 | a chunk brought at any moment is there at the end, whatever else the session survives: timeouts, NACK rounds, strangers, repeated and refused packets |
| Recovery.ChunksArrive | src/lib/recv.rs:190-239 | chunks alone, in any order and number, never end a session and add up to exactly their set |
| Recovery.RunChunk | src/lib/recv.rs:190-239 | over any run a session survives, a chunk is there if it was or some DATA bore it, and a chunk still missing has the bytes it had |
| Recovery.RunOrderIndependence | src/lib/recv.rs:190-239 | two runs of a session that bear the same chunk numbers end with the same chunks and the same bytes, whatever the order, the repetitions and the other events |
| Recovery.DoneFinishes | src/lib/recv.rs:384-393 | a DONE that finds the session full adds exactly one save, of the source, and one FIN |
| Recovery.CompletePassDelivers | src/lib/recv.rs:596-622 | once every missing chunk has arrived the next DONE saves the source and sends its FIN; a loss-free first pass is the case of nothing received before |
| Recovery.DoneAsks | src/lib/recv.rs:281-288 | a DONE that finds chunks missing is answered with NACKs for all of them |
| Recovery.FeedbackCollects | src/lib/send.rs:254-292 | whatever it hears and from whomever, as long as it waits the sender remembers just what every NACK of its peer asks for |
| Recovery.FeedbackQueuesExactly | src/lib/send.rs:404-413 | its next pass starts with exactly those chunks of the file that some NACK of the peer asked for meanwhile |
| Recovery.CollectedNackIsAnswered | src/lib/send.rs:254-292 | a chunk asked for while the sender waits goes out in the next pass |
| Recovery.FeedbackQueuesMissing | src/lib/send.rs:404-413 | if the NACKs for a missing list are among what it heard, in any order and number, every chunk of the list is queued |
| Recovery.FeedbackQueuesOnlyMissing | src/lib/send.rs:404-413 | and if the peer asked for nothing else, nothing else is |
| Recovery.FeedbackInOrder | src/lib/send.rs:404-413 | in order and once each, they leave the queue equal to the missing list |
| Recovery.PassOwesMissing | src/lib/send.rs:404-413 | after a DONE whose NACKs all arrive, whatever else was heard, the next pass owes every missing chunk |
| Recovery.RoundCoversMissing | src/lib/send.rs:392-416 | the DATA of that pass covers every missing chunk |
| Recovery.RoundRecovers | src/lib/send.rs:392-416 | recovery: from any state with the queue drained and any chunks missing, one round whose NACKs and missing DATA arrive, in any order and whatever else either end hears, ends with the last DONE saving the source and sending a FIN |
| Blasting.WalkStanding | src/lib/send.rs:201-241 | in every state past the handshake each chunk is queued or has gone out, and while waiting for feedback a DONE has |
| Blasting.BlastOut | src/lib/send.rs:201-241 | left alone with a working socket the sender empties its queue, whatever it holds |
| Completion.DeliverAll | src/lib/recv.rs:190-239 | chunks on the wire, passed on one by one, add up to exactly their set |
| Completion.RoundIsPossible | src/lib/send.rs:392-416 | whenever chunks are missing and a pass and enough sends are left, a round as in `RoundRecovers` exists, at any time |
| Completion.CompletionStaysPossible | src/lib/send.rs:392-416 | from every reached world with an open session of right chunks and sends left for the queue and a DONE, however much was lost and at any later time, some continuation from that time on completes with the source saved |
| Completion.CompletionAfterSave | src/lib/recv.rs:413-446 | the same at any time within the linger window of a receiver that has saved the file, its FIN lost |
| ClosedWindow.CompletionAfterSaveExactly | src/lib/recv.rs:421-425 | once a one-shot receiver has saved the file, a sender with sends left can complete from a given time on if and only if the window is still open then or a FIN is still due |
| ClosedWindow.WindowCanClose | src/lib/recv.rs:413-446 | every file both ends accept has a run after which it is saved and no continuation from the end of the window on completes the sender |
| Completion.CleanRunCompletes | src/lib/send.rs:323-417 | for every file both ends accept there is a run in which one pass and one DONE complete the sender with the source at the receiver's path; so the safety theorems speak of runs that exist |
| Recovery.FinCompletes | src/lib/send.rs:399-403 | and that FIN completes the sender, in mid-blast or after |
| Lingering.LingersExactly | src/lib/recv.rs:413-446 | the receiver lingers on if and only if the window is open, the read neither timed out nor failed and the peer has not confirmed; it touches nothing meanwhile |
| Lingering.DoneRenews | src/lib/recv.rs:432-441 | until then each DONE of the peer is answered by a FIN and renews the window, and nothing else changes anything |
| Lingering.LostFinRecovers | src/lib/recv.rs:413-446 | a sender whose FIN was lost and whose next DONE comes within the window completes on the FIN it gets, whatever both heard before |

## Left out

- Sockets: address families, resolution, non-blocking toggles and error kinds are events; so is how long the sender waits for a reply.
- Failures of setting a read timeout or reading the socket's own address; they end the receiver like other socket errors.
- SHA-256 itself and the buffered loop that hashes a file.
- Durability: syncing may fail, but a crash is not modelled. Paths are compared as byte strings; links and two spellings of one path are not.
- Errors and concurrent changes while the sender reads its file.
- Signals and the shutdown thread of `run_receive`, the command line, the reporters, `send_delay` and the pause between chunks.
- A datagram too large for UDP: the operating system would refuse it, here the send may succeed. Only an INIT with an enormous name can be one (`Nacks.NackPacketExact`, `Recovery.DataParses`, `Fidelity.HandshakeAgreement`).
- ReceiverFiles.RunTempsExact: one direction over whole runs, since a temp file left behind by a failed sizing may be cleaned up by a later session; for one step `StepTempsExact` is exact.
- Recovery.RoundRecovers: assumes that no event of the round ends the receiver's session and that nothing ends the sender's wait for feedback but quiet; `ReceiverSessions.EndsExactly` says which events do, `Recovery.ChunksArrive` that the chunks never do, and `Completion.RoundIsPossible` that such a round exists.
- ClosedWindow.CompletionAfterSaveExactly: one-shot receivers only, since a serving one can open another session on an old INIT that the network still holds.
- ForgedFin.CompletionNeedsGenuineFins: exact where INITs arrive intact; a damaged INIT can change which chunk numbers the NACKs name, and `EndToEnd.PlayDoneIsSaved` then gives the sufficient half.
- How the sender derives the file's name from its path: the name is a parameter of the job.
- NackTiming.TimeoutIsProductive: says when a round may go out, not that reads time out promptly; a steady stream of other packets can postpone a round.
- Progress without the named datagrams arriving: fairness and probabilities of delivery are not part of this model.
