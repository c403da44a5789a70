# A verified model of rbtrace

A Dafny model of rbtrace: the double-buffered lock-free ring that programs trace into, the
daemon that drains it into a trace file, and `prbt`, which puts the records of the file back
in order. One stream of records passes through four representations (active buffer, pending
buffer, circular file, printed sequence), and the main theorems say that they agree.

N, the number of records in a buffer, and the file size limit are parameters. The record size
E is 56 bytes and the header size H is 512 bytes, as the structures give them.

## What is modelled

| file | contents |
|---|---|
| `wrappers.dfy` | an optional value |
| `records.dfy` | trace entries, their 56-byte image, arrays of records |
| `sequences.dfy` | rotations, suffixes and overwrites of a bounded log; multiples of a page |
| `trace_file.dfy` | an open file, `pwrite`, and the write loop that survives short writes and EINTR |
| `file_header.dfy` | the 512-byte header: fields, packed strings, the reader's view of it |
| `reader.dfy` | the two page loops of `prbt` and its summary |
| `ring.dfy` | the ring with whole `rbtrace` calls as steps: a class over a shared array, and the abstract ring it implements |
| `interleaving.dfy` | the ring with single atomic operations as steps: any number of producers, the daemon and the control operations |
| `ring_corners.dfy` | runs of the step-level ring that show where its guarantees stop |
| `wedged_ring.dfy` | when a ring can never hand out a slot again before the next open, exactly |
| `uninterrupted.dfy` | the two ring models agree on calls that nobody interrupts |
| `tracer.dfy` | the daemon, its control operations and the ring as one state machine |
| `backing.dfy` | the daemon as a class that changes its fields in place, proved to be that machine |
| `turns.dfy` | a daemon turn that nobody interrupts, step by step, agrees with that machine |
| `control.dfy` | the flag machine |
| `bounded_log.dfy` | the data area of a file as a bounded log |
| `accounting.dfy` | where every emitted record is |
| `sessions.dfy` | the invariant of every run from an accepted open to the closing turn |
| `reading_back.dfy` | the closing turn, read-back, and the whole way from `rbtrace` to `prbt` |
| `disk_files.dfy` | the same for the bytes on disk: header bytes and records |
| `corners.dfy` | concrete runs that show where the guarantees of daemon and files stop |
| `layout.dfy` | the division of the shared memory |

A *session* is an accepted open, any sequence of `rbtrace` calls and daemon turns, a close, and
the daemon turn that carries the close out. `ReadingBack.EverySession` and
`ReadingBack.EndToEnd` are the composition: emit, drain at arbitrary moments, close, parse, and
get the log back.

The history in a state (log, retired buffers, stream, told) exists for the proofs only; no
transition reads it.

## Where the code does less than one might expect

Each of these is reached by a concrete run, and the guarantee that it limits is stated as an
if-and-only-if: over runs, over sessions, or step by step.

* A buffer can be started over without being swapped out, discarded or counted. The step that does
  this is a late retry (rbtrace.c:109-119) whose ticket is still the last one drawn, whatever that
  ticket is, or an open while slots are claimed. A run keeps whole buffers if and only if it takes
  no such step (`Interleaving.WholeUnlessWiped`); what the late retry does is
  `RingCorners.LateResetWipes`, and a run with two producers gets there
  (`RingCorners.LateResetReachable`).
* A producer that spins at rbtrace.c:124-128 and then draws N itself neither swaps nor resets. If
  every producer then is on a path without a reset, no slot is claimed again before the next open.
  `WedgedRing.Wedged` is the exact condition: from a reachable state some run without an open
  claims another slot if and only if the ring is not wedged (`WedgedRing.RevivesUnlessWedged`), and
  two producers can wedge it (`WedgedRing.WedgedReachable`).
* If the closing turn finds `ri_flush` above one and a full active buffer, its RBT_LOST record
  swaps once more and the buffer swapped out is never written nor told
  (`ReadingBack.ClosingAccounts`: nothing is missing if and only if this is not the case;
  `Corners.ForgottenBuffer`).
* If the closing turn writes a pending page up to the limit of a wrapped file and then some but
  not N more records, `wrap_pos` is an unaligned end of file and `prbt` prints nothing
  (`ReadingBack.ClosedReads`, `Corners.UnalignedEndOfFile`).
* An accepted open keeps its path if and only if no close is pending (`Control.OpenKeepsPath`,
  `Sessions.SessionPath`, `Corners.LostPathReached`).
* An open that is accepted between the daemon's test of `ri_flush` and its reset sets the counter to
  zero. That takes a pending close, or, once the write is done, a stop policy that has cleared DISK
  (`Interleaving.OpenInWindow`). From then on a producer at ticket N swaps the offsets, and nothing
  else does (`Interleaving.OffsetsMove`). During the write this hands out the buffer being written
  (`RingCorners.ReopenHandsBufferBack`, `RingCorners.HandedBackReachable`). In any case the daemon's
  reset then forgets the buffer just swapped out: it is neither written nor counted. The reset
  forgets a buffer if and only if the counter is positive and the daemon has written another one
  (`Interleaving.ForgetsExactly`, `RingCorners.ForgottenAfterStop`).
* If the successor of a zapped file cannot be opened, DISK stays set without a descriptor, and the
  next pending buffer makes the daemon use a null pointer (`Control.StepFlags`,
  `Control.FailedReopenCrashes`, `Corners.FailedReopenReached`, `Corners.NoFileReached`).

## Model

| member | source | states |
|---|---|---|
| Records.EncodedBytes | include/rbtracedef.h:24-33 | the image byte by byte: a0 to a3 at 0, 8, 16 and 24, seconds and nanoseconds at 32 and 40, low byte first; at 48 a 32-bit word of cpu, thread and trace ID from the low end; then padding |
| Records.DecodeEncode | include/rbtracedef.h:24-33 | an entry is recovered from its 56-byte image, bit fields included |
| Records.LeRoundTrip | include/rbtracedef.h:24-33 | the little-endian image of a number that fits determines it |
| Records.ChopFlatten | prbt.c:299-309 | stepping through an array of records one record size at a time yields the records written |
| Records.FlattenLast | prbt.c:299-309 | the last k records of a stream are its last 56k bytes |
| TraceFiles.PwriteBytes | rbtrace_backing.c:47 | pwrite puts the buffer at the offset, leaves every other byte alone and fills a hole with zeros |
| TraceFiles.PwriteInTwo | rbtrace_backing.c:54-56 | a write continued after a short one is the whole write |
| TraceFiles.Served | rbtrace_backing.c:46-59 | under every schedule of short writes, interruptions and errors: 0 is returned only when all bytes were transferred, and always when nothing but short writes and EINTR happens |
| TraceFiles.FailsAfter | rbtrace_backing.c:46-52 | short writes and EINTR followed by an error before all bytes are out: that very errno is reported, and exactly the bytes of the short writes have been transferred |
| TraceFiles.ServedInFull | rbtrace_backing.c:46-59 | short writes that offer enough bytes before any error transfer all of them |
| TraceFiles.TraceFile.SafePwrite | rbtrace_backing.c:43-60 | terminates; returns 0 or minus the errno, and exactly the bytes transferred by then are in the file, at the offset asked for |
| FileHeader.StrCpy | rbtrace_backing.c:85-91 | after the copy the reader finds the string at that place, and only its bytes and its terminator have changed |
| FileHeader.PutStrings | rbtrace_backing.c:83-91 | for all NUL-free strings that fit, reading at the three stored offsets returns the zone, the name and the description |
| FileHeader.FormatHeader | rbtrace_backing.c:62-92 | the header byte by byte, every field and string offset at its place in the structure; the reader accepts it and recovers every field and string |
| FileHeader.HeaderRead | prbt.c:47-90 | any 512 bytes: the reader refuses a wrong magic string and a revision above 1.0, and otherwise finds each field and string offset at its place in the structure |
| FileHeader.StringMeans | prbt.c:82-90 | a string found at an offset ends at the first terminator; none is found when none follows |
| FileHeader.OnlyWrapPos | prbt.c:47-90 | headers that differ in wrap_pos only are read alike but for wrap_pos |
| FileHeader.SetWrapPos | rbtrace_backing.c:196-200 | moving wrap_pos in the header image changes nothing else that the reader sees |
| FileHeader.LocalTimeShown | prbt.c:73 | a negative zone offset survives its unsigned field: the sum modulo 2^64 is the local time |
| Reader.EachRecordOnce | prbt.c:279-358 | for wrap_pos 0, inside the file, or at its page-aligned end, the output is the data area rotated to wrap_pos, so every stored record is printed once |
| Reader.LoadTracePage | prbt.c:187-204 | reads page page_idx, short at the end of file and nothing past it |
| Reader.PrintPage | prbt.c:338-354 | the records of one page from an offset on, stopping at wrap_pos in the second pass |
| Reader.FirstPass | prbt.c:287-313 | terminates and prints the records from wrap_pos to the end of file, or gives up exactly when wrap_pos lies past the end in a page that the file has begun |
| Reader.SecondPass | prbt.c:326-358 | terminates and adds the records before wrap_pos, each once |
| Reader.ParseTraceFile | prbt.c:251-364 | for every file of whole records with an aligned wrap_pos, the two loops terminate and print the data area rotated to wrap_pos; past the end of file the whole area or nothing |
| Reader.ParsedEnds | prbt.c:131-173 | the first record printed is the one at wrap_pos, the last one the record before it, or the last of the file |
| Reader.PrintTraceSummary | prbt.c:121-185 | start and end are taken from the first and last record that parsing prints, exactly when the file is not empty and wrap_pos is before its end |
| Ring.TracedIsEmit | rbtrace.c:73-190 | the changes a call makes to slot, counters, offsets and entries are one step of the abstract ring: fast path, swap with or without an RBT_LOST record, or discard |
| Ring.SharedRing.constructor | rbtrace_backing.c:389 | in cleared memory ri_slot is 0, so a new ring holds one empty record; its two buffers lie side by side |
| Ring.SharedRing.Rbtrace | rbtrace.c:145-190 | from any slot value, the new slot, counters and offsets; the record is in the slot claimed, and after a swap with losses an RBT_LOST record with their number is in slot 0; between calls with N ≥ 2 it succeeds whatever ri_lost is and performs one step of the abstract ring |
| Ring.SharedRing.Ringwrap | rbtrace.c:145-162 | the index returned is the slot just drawn, inside the active buffer, or none |
| Ring.SharedRing.SwapOrDiscard | rbtrace.c:73-107 | ticket N swaps the buffers when no flush is pending and notes the losses in slot 0, or discards the active buffer |
| Ring.SharedRing.RingwrapSlot | rbtrace.c:65-143 | after a swap or discard a slot is claimed or, with N = 1 and losses, none is; a later ticket draws once more and is counted as lost |
| Backing.ViewCleared | rbtrace_backing.c:187-210 | clearing (ri_slot + 1) or N entries at the buffer's offset clears that buffer and leaves the other as it was |
| Backing.Daemon.constructor | rbtrace_backing.c:389-414 | the daemon's fields in cleared memory are the machine's initial state |
| Backing.Daemon.Trace | rbtrace.c:164-190 | a producer's call is one rbtrace step of the machine |
| Backing.Daemon.WriteHeader | rbtrace_backing.c:94-161 | opens a fresh file with seek at H and wrap_pos 0, or clears OPEN when that fails or a file is open |
| Backing.Daemon.PutBuffer | rbtrace_backing.c:195-213 | the buffer lands at wrap_pos once the file has wrapped, at seek otherwise; both advance by its length |
| Backing.Daemon.WriteBuffer | rbtrace_backing.c:187-213 | the right one of the two buffers is written whole, whatever short writes and EINTR happen; its entries are zero afterwards and every other entry is as before |
| Backing.Daemon.ReachedLimit | rbtrace_backing.c:215-235 | at the limit: nothing while closing, wrap to the head, a new file, or stop, in this order of precedence |
| Backing.Daemon.Settle | rbtrace_backing.c:215-243 | the end-of-file policy, and the header on disk when wrap_pos has moved |
| Backing.Daemon.TakeCounters | rbtrace_backing.c:246-252 | both counters become 0, and the count is ri_lost + (ri_flush - 1)·N, the second term only for ri_flush above 1 |
| Backing.Daemon.DrainCounters | rbtrace_backing.c:245-258 | when ri_lost is positive or ri_flush above 1 the newest entry is an RBT_LOST record with that count as its first argument; otherwise no entry changes |
| Backing.Daemon.WriteData | rbtrace_backing.c:163-259 | the whole write is one write step of the machine; without a file it crashes |
| Backing.Daemon.ThreadIteration | rbtrace_backing.c:288-331 | one turn of the loop is one turn of the machine |
| Backing.Daemon.CtrlOpen | rbtrace_backing.c:476-505 | accepted exactly without OPEN and DISK and for a path below 1024 characters; then the path is taken, OPEN set and the ring emptied; otherwise nothing changes |
| Backing.Daemon.CtrlClose | rbtrace_backing.c:507-521 | accepted only with DISK, which becomes FLUSH and CLOSE |
| Backing.Daemon.CtrlSize | rbtrace_backing.c:523-534 | sets the limit and nothing else |
| Backing.Daemon.CtrlWrap | rbtrace_backing.c:536-551 | refused exactly with ZAP, otherwise WRAP is switched on or off as asked; nothing else changes |
| Backing.Daemon.CtrlZap | rbtrace_backing.c:553-568 | refused exactly with WRAP, otherwise ZAP is switched on or off as asked; nothing else changes |
| Control.WriteFlags | rbtrace_backing.c:215-235 | which flags and descriptor each end-of-file policy leaves |
| Control.StepFlags | rbtrace_backing.c:291-331 | each step keeps "never WRAP with ZAP, never DISK with OPEN or CLOSE, FLUSH iff CLOSE, a descriptor iff DISK or CLOSE" if and only if no zap reopen fails in it; the "already open" branch is unreachable |
| Control.RunFlags | rbtrace_backing.c:476-568 | over every run of control operations, calls and turns in which zap reopens succeed, these flag rules hold and write_data never runs without a file |
| Control.FailedReopenCrashes | rbtrace_backing.c:125-130 | after a failed zap reopen, whatever calls of rbtrace follow, the next turn that finds a pending buffer runs without a file |
| Control.OpenKeepsPath | rbtrace_backing.c:305-316 | the turn after an accepted open leaves its path in place if and only if no close was pending; otherwise the path is empty and the open still stands |
| Control.PathKept | rbtrace_backing.c:291-331 | no call, turn or control operation but an accepted open and a closing turn touches the path; an open that comes while OPEN or DISK is set does not |
| Control.OpenStands | rbtrace_backing.c:481-499 | an accepted open stands with its path whatever is asked before its turn, further opens included |
| Control.AsAsked | rbtrace_backing.c:523-568 | over every run WRAP, ZAP and the limit are what the last accepted operation asked for |
| BoundedLog.WritePage | rbtrace_backing.c:195-213 | overwriting one page at the position keeps the file the latest bytes written, the oldest at wrap_pos |
| BoundedLog.StartOver | rbtrace_backing.c:220-223 | at the limit the head of the file is where the oldest page is |
| BoundedLog.ReadBounded | prbt.c:279-358 | of such a file the reader prints exactly the latest records, in order |
| BoundedLog.ReadEnded | prbt.c:279-358 | after a last partial write the reader prints the latest records, or nothing exactly when that write left an unaligned end |
| Sequences.Capacity | rbtrace_backing.c:216 | the room of a file: a positive whole number of pages, at least the limit, less than one page over it |
| BoundedLog.CapacityLeast | rbtrace_backing.c:216 | no smaller whole number of pages reaches the limit |
| Accounting.TraceAccounts | rbtrace.c:73-117 | a call keeps: the log is whole buffers followed by the active one, disk and pending are these buffers less the overwritten ones, and the counts balance |
| Accounting.WritePendingAccounts | rbtrace_backing.c:187-258 | so does the write of a pending buffer, and it says when its RBT_LOST record causes another swap |
| Accounting.WriteActiveAccounts | rbtrace_backing.c:298-302 | the final write adds the active buffer to the stream and loses at most the buffer pending then |
| Sessions.WritePending | rbtrace_backing.c:187-243 | a page write keeps stream, file contents, position, header and limit in agreement, under each of the four end-of-file policies |
| Sessions.SessionStep | rbtrace_backing.c:291-331 | every call, turn and close keeps the session invariant |
| Sessions.SessionRun | rbtrace_backing.c:291-331 | hence it holds after every run, at whatever moments the daemon runs |
| Sessions.DuringInv | rbtrace_backing.c:291-331 | every state of every session before its closing turn satisfies the session invariant |
| Sessions.SessionPath | rbtrace_backing.c:493 | throughout a session the daemon's path is the one given to the open |
| ReadingBack.CircularFile | rbtrace_backing.c:187-243 | with WRAP, at every moment of every session the file reads as exactly the last min(written, K·N) records in order, K the least number of pages that reaches the limit |
| ReadingBack.UnwrappedFiles | rbtrace_backing.c:213-235 | without a wrap, the files of a session, one after the other, read as everything written, also after the stop policy has closed the file |
| ReadingBack.ZappedFilesFull | rbtrace_backing.c:224-228 | every zapped file before the last holds exactly K pages and has wrap_pos 0 |
| ReadingBack.SizeBound | rbtrace_backing.c:187-243 | before close every file, open or closed by the stop policy, is shorter than max(F, H+1) + page, and its wrap_pos is 0 or H plus whole pages not past the end; the header on disk agrees with the daemon's copy while the file is open |
| ReadingBack.ClosedSizeBound | rbtrace_backing.c:291-317 | after close: shorter than max(F, H+1) + 2 pages, wrap_pos 0 or on a record boundary not past the end |
| ReadingBack.WrapsWhenFull | rbtrace_backing.c:216-223 | a session's file has wrapped if and only if WRAP is set and it has been filled |
| ReadingBack.ClosingAccounts | rbtrace_backing.c:291-317 | after the closing turn every record emitted was written or told as lost, if and only if the turn did not find ri_flush above 1 with a full active buffer; then exactly N are missing |
| ReadingBack.ClosedReads | rbtrace_backing.c:291-317 | what is read after close: the whole stream, its suffix of the stated length, or nothing for an unaligned end |
| ReadingBack.EverySession | rbtrace_backing.c:291-317 | over all sessions: the files read as the stream; once wrapped, as its suffix of at least K·N records; as nothing if and when the last write ends unaligned; and every record emitted was written or told if and only if the closing turn forgets no buffer |
| ReadingBack.EndToEnd | autotest.sh:102-122 | over all sessions in which ri_flush never exceeds 1: the files read as exactly the records given to rbtrace, in order; once wrapped, as the last at least K·N of them; as nothing when the last write of a wrapped file ends unaligned |
| DiskFiles.FileBytes | rbtrace_backing.c:134-139 | the writer's header, moved when the file has wrapped, followed by the data, is read as the file's wrap_pos, ring size and data area |
| DiskFiles.AllStoredPrint | prbt.c:38-94 | bytes that store files are accepted by the header check and printed as these files |
| DiskFiles.BytesEndToEnd | autotest.sh:102-122 | the same end to end for any bytes on disk that store the session's files, such as those of FileBytes: read through the 512 header bytes they print as the records emitted |
| Corners.ForgottenBuffer | rbtrace_backing.c:294-302 | a session whose closing turn forgets a full buffer |
| Corners.UnalignedEndOfFile | prbt.c:291-294 | a session that loses nothing, emits five records, and of which prbt prints none |
| Corners.FailedReopenReached | rbtrace_backing.c:224-228 | a run from the start to a zap reopen that fails |
| Corners.NoFileReached | rbtrace_backing.c:177-181 | it goes on to write_data without a file |
| Corners.LostPathReached | rbtrace_backing.c:305-316 | a run from the start in which an accepted open loses its path |
| Interleaving.StepInv | rbtrace.c:73-162 | every step of any producer, of the daemon and of control, as listed under Modelling decisions, keeps the invariants below |
| Interleaving.ReachableInv | rbtrace.c:73-162 | hence they hold in every state of every run, for any number of producers |
| Interleaving.TicketsUnique | rbtrace.c:109-151 | between two resets of ri_slot the tickets are exactly 0 to ri_slot, each drawn once, so at most one producer draws N |
| Interleaving.ClaimsDistinct | rbtrace.c:109-158 | every slot claimed lies in the buffer its offset selected, and no slot is claimed twice |
| Interleaving.FlushCounts | rbtrace.c:75-101 | between two resets of ri_flush, one producer takes the swap path when it is positive and ri_flush - 1 the discard path |
| Interleaving.OverrunsTold | rbtrace_backing.c:246-255 | buffers told by the daemon's (ri_flush - 1) terms, still counted, or wiped by an open = buffers overwritten + producers about to overwrite one; while no claim has been wiped the same holds for records: the terms times N are exactly the claims overwritten by discards, and N for each such producer |
| Interleaving.WipesClaims | rbtrace.c:109-119 | a step wipes claims if and only if it is a late retry whose ticket is still current or an open while slots are claimed |
| Interleaving.WholeUnlessWiped | rbtrace.c:73-131 | over every run: each claim is in a full retired buffer or in the buffer in use, if and only if no step of the run is a wiping one |
| Interleaving.RetiredBuffersFull | rbtrace.c:73-101 | a buffer is full when it is swapped out or discarded, as long as no claim has been wiped |
| Interleaving.ClaimsConserved | rbtrace.c:109-158 | slots claimed = in retired buffers + wiped + in the active buffer; the buffers are whole if and only if none was wiped |
| Interleaving.LossesConserved | rbtrace.c:89-138 | calls that returned NULL or are about to = losses drained by swaps and by the daemon + wiped by an open + ri_lost |
| Interleaving.BufferOwned | rbtrace_backing.c:191-247 | from the test of ri_flush to its reset, while no open has been accepted, no step swaps the offsets and no claim lies in the buffer taken |
| Interleaving.OffsetsMove | rbtrace_backing.c:191-247 | in this window a step changes the offsets if and only if a producer at ticket N finds ri_flush zero, and it is zero only after an open |
| Interleaving.TakesBuffer | rbtrace_backing.c:187-193 | the flush of a close takes the buffer in which every current claim lies, a pending flush the other one |
| Interleaving.OpenInWindow | rbtrace_backing.c:481-499 | in this window an open is accepted at most once, with DISK clear; before the write is done only while a close is pending |
| Interleaving.SwapsConserved | rbtrace_backing.c:246-247 | buffers swapped out = written when ri_flush was reset + wiped from the counter by an open + forgotten + the one that ri_flush counts now |
| Interleaving.ForgetsExactly | rbtrace_backing.c:247 | a step forgets a buffer if and only if it resets a positive ri_flush after the daemon wrote the active buffer or one that is not the alternate any more; every other reset of a positive counter is by the daemon that wrote that very buffer |
| RingCorners.LateResetWipes | rbtrace.c:109-120 | a late retry, whatever its ticket, resets the slot if and only if its ticket is still current; then all N records of the buffer in use are wiped without swap or count, otherwise nothing changes |
| RingCorners.LateResetReachable | rbtrace.c:109-120 | two producers reach such a reset |
| WedgedRing.WedgedForever | rbtrace.c:123-141 | a wedged ring stays wedged in every run without an open: no slot is claimed and no buffer is retired |
| WedgedRing.RevivesUnlessWedged | rbtrace.c:65-162 | in every reachable state, for any number of producers: some run without an open claims another slot if and only if the ring is not wedged |
| WedgedRing.WedgedReachable | rbtrace.c:123-141 | two producers reach a wedged ring |
| RingCorners.ReopenHandsBufferBack | rbtrace_backing.c:495-497 | an open during the write lets a swap make the buffer being written the active one |
| RingCorners.HandedBackReachable | rbtrace_backing.c:495-497 | one producer, a close and an open reach a daemon that writes the active buffer |
| RingCorners.ForgottenAfterStop | rbtrace_backing.c:231-247 | one producer and an open after the stop policy, with no close, reach a reset that forgets the new session's full buffer |
| Uninterrupted.UninterruptedCall | rbtrace.c:65-190 | in every reachable state, one producer running alone ends with the slot, counters and offsets of the call-atomic model, owning the slot that ri_slot names, or with NULL |
| Turns.OpenAgrees | rbtrace_backing.c:476-505 | the step-level open is accepted exactly when the machine's is, with the same flags, slot and counters |
| Turns.CloseAgrees | rbtrace_backing.c:507-521 | so is the close |
| Turns.OpeningAgrees | rbtrace_backing.c:319-321 | the turn that opens a file, or fails to, leaves the flags, slot and counters of the machine's turn |
| Turns.ClosingComesFirst | rbtrace_backing.c:291-321 | a file is opened exactly when OPEN is set and no close is pending |
| Turns.WritingAgrees | rbtrace_backing.c:323-326 | test, write, stop policy, both counter resets and the RBT_LOST call, one atomic step after the other, leave the flags, slot and counters of the machine's turn |
| Turns.ClosingTurn | rbtrace_backing.c:292-317 | the machine's closing turn is the pending write, the flush of the active buffer and the end of the file |
| Turns.ClosingAgrees | rbtrace_backing.c:292-317 | so do the steps of a closing turn: pending buffer, active buffer, end of the file |
| Layout.CalcShmSize | rbtrace.c:203-227 | the size computed is two control words, one ring_info a ring and two buffers a ring |
| Layout.GlobalsInit | rbtrace.c:246-263 | control words and ring_info table do not overlap and end where the entries begin |
| Layout.InitRings | rbtrace_backing.c:337-348 | a ring's active buffer starts where the alternate one of the ring before it ends, the first at 0; its alternate buffer follows its active one |
| Layout.DaemonInit | rbtrace_backing.c:364-411 | for any table of rings every byte behind the control area lies in exactly one buffer of one ring, up to exactly the size computed, and no other byte does |

## Modelling decisions

* In `interleaving.dfy` there is sequential consistency, and a transition is one atomic operation on a
  field of `ring_info`, except for these, each of which is one transition:
  - rbtrace.c:75-84 when it swaps: count the flush, swap the offsets, reset the slot;
  - a ticket together with the read of `ri_cir_off` that follows it;
  - an open: the flag test, the path, the three stores to slot, flush and lost, and the OPEN flag
    (rbtrace_backing.c:481-499);
  - a close: the flag test and the change of flags (rbtrace_backing.c:511-514);
  - the daemon's test of its flags together with that of `ri_flush` (rbtrace_backing.c:292-295 and
    323-325), and its opening or closing of a file with the change of flags that goes with it.
* The flags are changed by plain read-modify-writes in several processes; lost updates of `ri_flags`
  between them are not modelled.
* The daemon's own RBT_LOST call is made by one of the producers of `interleaving.dfy`.
* In the other modules a call of `rbtrace`, a control operation or a turn of the daemon's loop is
  one step. A semaphore wake or timeout is "a turn may happen now".
* A Turn parameter supplies what the environment decides: whether an open succeeds, and the clock.
* Integers are unbounded, except the 64-bit arguments of a record and the fields of a file header,
  which have their widths.

## Left out

- DiskFiles.BytesEndToEnd: the daemon's own writes of its header at offset 0 are not followed as bytes; FileBytes builds the bytes of a finished file with the same header code.
- I/O errors other than EINTR and short writes: `TraceFiles.TraceFile.SafePwrite` reports them, but the daemon's behaviour after a failed data or header write, and data reaching the disk after the header at a power loss, are not modelled.
- Files that exist already: open does not truncate, so a longer old file keeps its tail; every open here gives a fresh file.
- Backing.Daemon.WriteHeader: in the daemon's files the header is the two fields that drain and reader use; its 512 bytes are built in file_header.dfy and composed with the files in disk_files.dfy. A header write that fails is not modelled.
- Reader.ParseTraceFile: requires whole records and wrap_pos on a record boundary, which every file of a session satisfies; what the original prints of damaged files is not modelled.
- Reader.PrintTraceSummary: a wrap_pos that points into the header is excluded, and gmtime never fails.
- Backing.Daemon.WriteData: a flush of all records is only asked for together with a close, so the case that neither a pending buffer nor a flush exists is excluded, as in the loop that calls it.
- WRAP, ZAP or the limit changed in mid-session: in the flag theorems only; the theorems about file contents fix them for a session.
- Several sessions at once on one ring: an open that comes before the closing turn of the session before is in the flag machine and in interleaving.dfy, not in the theorems about file contents.
- Overflow of the 32-bit counters `ri_slot`, `ri_flush` and `ri_lost` and of the 64-bit file position.
- Torn records: a producer fills its entry in one store once it owns the slot; a buffer written while a producer still fills it is not modelled, nor is weak memory ordering.
- The active buffer during the flush of a close, which producers may still fill: BufferOwned is about the pending one.
- The window inside rbtrace.c:75-84 between the swap and the reset of the slot, and the one between a ticket and the read of `ri_cir_off`.
- A close of a ring whose slot is at N or more: the size of its last write is then larger than a buffer. With whole calls as steps the slot stays below N, so the modules about files never get there.
- Liveness and fairness: the spin at rbtrace.c:124-127 is a bounded wait with no effect in the model.
- Many rings behind one notification cell: one ring, except in layout.dfy.
- Null arguments, the info and traffic-flag operations, trace names, record formats and trace-ID filters, command lines, time formatting.
- Shared memory, semaphores, threads, signals, pid files and the core dump filter.
- The name of a zapped file, which carries the time it was opened: files are numbered in creation order.
