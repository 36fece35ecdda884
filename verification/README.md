# Verified models of the Xilinx wiki software prototypes

This project models five parts of the prototype repository in Dafny 4.11 and proves what they promise.
`dafny verify dfyconfig.toml` checks everything.

**User-space DMA loopback** (`Ring`, `Channel`, `Loopback*`). `tx_thread` and `rx_thread` of dma-proxy-test.c, the
hardware that moves the data, the completion callback of each channel and the SIGINT handler are actors that take
atomic steps. A step of the receiver makes at most one access to shared state. Two kinds of transmitter step make
two: an ioctl with the read of `num_transfers` after it, and the stop test. Nobody can tell, because only the
transmitter writes `num_transfers`, and `stop` stays set once it is. `Exec` is the state after a schedule of actors,
so a statement about `Exec` for every schedule is a statement about every interleaving. Ring sizes T and R, the
increment d (dividing both), the transfer size and the requested count N are symbolic. `LoopbackThreads` has the two
thread functions with their own loops, and lets everybody else take any steps between two accesses; it proves that
they perform an interleaving of the model. The main results are exact:

* a stop handled after c finished transmissions drains cleanly in *every* interleaving if and only if
  c + R = N, or c + T/d - 1 + R/d <= min(N, c + R); in the shipped setting (T = d = 1) that is c + R <= N. So the
  comment on the early stop (dma-proxy-test.c:170-175), which promises a graceful shutdown without transfers left
  in progress, holds only then: a later stop can raise the total after the receiver has stopped restarting
  buffers, and the receiver ends up waiting for a buffer nobody started. The code was kept as it is;
* with verify on and a non-empty transfer, no interleaving that handles a stop at c reports a mismatch if and only if
  c - 1 + T/d <= N or c + R <= N, whether the stop drains or not. Otherwise the transmitter may have skipped a
  restart before the total rises, and the refill formula no longer equals the number of the transfer. With T = d, as
  shipped, the condition always holds, so no stop at all causes a mismatch;
* with verify on and no stop, or one that meets this condition, no interleaving reports a mismatch if and only if the
  transfer size is not zero;
* exactly max(1, N) transfers happen for a requested count N: priming always starts one, so a count of zero or less
  still transfers once.

**DMA proxy driver** (`DmaProxy`, `DmaProxyDriver`, `BufferLayout`, `DriverRefinement`, `DriverRun`,
`DriverStatus`). One channel with
one caller: completions, cookies, the status word, engine completions in order, and callbacks at any later time, also
after the buffer was restarted. `FinishNeverFailsIff` says exactly when FINISH can report an error for a transfer that
is fine. `DriverRun` puts the loopback threads on top of two such channels: the threads, the hardware, the end of each
transfer, each callback and the cookie query of each FINISH take turns in any order. Its results assume that no FINISH
sleeps out its three seconds and that the engine reports no DMA error; FINISH itself is proved for both. `DriverStatus`
says what the status tests of the threads then see. Under the
same hypothesis every run of this system with a fitting stop or none ends, and one without a signal can end only with
all transfers done.

**FSBL image mover** (`FsblHeader`, `FsblImage`, `FsblPartition`, `FsblStale`, `FsblWalk`, `FsblOrder`, `FsblIntact`,
`FsblChecks`, `FsblSound`, `FsblBoot`). The DDR build of `LoadBootImage` and `PartitionMove`, with RAM as a map by address, flash as an arbitrary
function of the offset, decryption, checksum and signature checks as arbitrary functions of the words they see, and
every driver call succeeding or failing arbitrarily. A failure is a fallback, after which nothing more happens.
`FsblBoot` is the code as a class over the global flags, following the control flow of the source; `FsblImage` says
the same by kind of partition.

ValidateHeader (image_mover.c:1075-1106) does not look at PartitionWordLen, and lets an ImageWordLen of 2^30 pass.
PartitionMove copies PartitionWordLen words of a partition to be checked and ImageWordLen words of any other; from a
non-linear device the count has lost its top two bits, because it is shifted to bytes in 32 bits (line 1263). The
checks look at PartitionWordLen words less those two bits (lines 576 and 595). What is then decrypted, programmed or
left at the load address are ImageWordLen words, so where the copy is shorter they end in words of old memory.
`FsblStale` proves, for headers with any lengths: every completed body uses the image as it is on the device if and
only if the image is no longer than the copy, and a checked body uses the start of the words the checks saw if and only
if ImageWordLen is at most PartitionWordLen modulo 2^30. A checked bitstream of 100 words in a partition of 2^30 + 16,
and an unchecked PS partition of 2^30 words of which nothing is copied, are proved to go wrong. No other FSBL result
restricts the lengths.

`FsblChecks` and `FsblSound` say exactly when a partition's body, an iteration, and the part before the loop complete:
the driver calls that have to succeed and the checks that have to hold. `FsblOrder` reads off the headers alone which
partitions a walk serves. A watchdog restart is meant to leave the fabric
alone (lines 379-390), but the PL flag of the bitstream it skips sticks; the fabric stays untouched if and only if no
unmarked partition follows while that bitstream was the last marked one. What the boot has loaded stays in memory
(`FsblIntact`) when no PS partition is loaded over an earlier one; they may overlap the temporary area. The load
address checks (lines 447-466) look at the first byte of a load area only; `StaysInDdrIff` says when a load stays in
DDR.

**IPI trip counters** (`IpiA72`, `IpiR5`, `IpiDevices`). UserTask and ProcessCmd against the A72 interrupt handler
(PLM_2_A72_UNIDIRECT build) and against the R5 main loop, one buffer, register or flag access a step, counters
wrapping at 32 bits. A handler run that no interrupt asked for, and an error callback at the R5, are shown harmless
exactly under a condition on the state they start in. `IpiDevices` has the functions with their own control flow, and
lets the other CPU take any steps between two accesses. The A72 header comment calls the PLM-as-source mode the default
(libmetal-linux-ipi-demo.c:24-32) while the code defines A72_TO_PLM_UNIDIRECTIONAL (line 127); the model has both
directions.

**Si5381 register access** (`Si5381`, `Si5381Driver`). A paged device behind the cached `LastPage` and
`LastSlaveAddr`, against flat 16-bit registers, and the write and readback loops over the register table.

A comment on `IsEmptyHeader` (image_mover.c:1111-1112) describes a weaker test than the code makes; the model
follows the code.

## Model

| member | source | states |
|---|---|---|
| LoopbackStop.StopDrainsIff | linux-user-space-dma/Software/User/dma-proxy-test.c:156-208 | a stop handled at count c leaves rx with no more started than the new total, and every run that cannot go on drained at exactly that total, in every interleaving, if and only if the stop fits |
| LoopbackStop.FittingStopIsClean | linux-user-space-dma/Software/User/dma-proxy-test.c:170-184 | the sufficient half, for any ring sizes and increment |
| LoopbackStop.UnfittingStopIsNotClean | linux-user-space-dma/Software/User/dma-proxy-test.c:170-184 | for every other count there is an interleaving that leaves transfers in progress or a receiver waiting for ever |
| LoopbackStop.ReceiverAhead | linux-user-space-dma/Software/User/dma-proxy-test.c:241-296 | how far the receiver can be when the transmitter decides: all that was sent checked, a whole window started |
| LoopbackStop.ShippedStopCondition | linux-user-space-dma/Software/Common/dma-proxy.h:29-31 | with one transmit buffer and increment one the condition is that the total is not raised |
| LoopbackMismatch.PatternSurvivesStopIff | linux-user-space-dma/Software/User/dma-proxy-test.c:131-264 | with verify on and data to send, no interleaving that handles a stop at count c reports a mismatch if and only if c - 1 + T/d or c + R is at most N |
| LoopbackMismatch.StopCausesMismatch | linux-user-space-dma/Software/User/dma-proxy-test.c:176-192 | at every other count some interleaving sends a buffer refilled with the wrong number, and the receiver reports it |
| LoopbackPattern.LoopbackDeliversPattern | linux-user-space-dma/Software/User/dma-proxy-test.c:189-272 | in every interleaving without a stop, or with one that spares the pattern, the k-th received buffer carries transmission k, first word k and from the first refill every word, and no mismatch is reported |
| LoopbackPattern.OneSlotDeliversPattern | linux-user-space-dma/Software/User/dma-proxy-test.c:131-272 | with one transmit slot, as shipped, no interleaving reports a mismatch, whatever stop is handled |
| LoopbackPattern.StoppedInRange | linux-user-space-dma/Software/User/dma-proxy-test.c:167-179 | a stop is only ever handled at a count from 1 to N - 1, so the conditions cover every stop |
| LoopbackMismatch.PatternNeedsData | linux-user-space-dma/Software/User/dma-proxy-test.c:131-264 | over all interleavings without a stop, or with one that spares the pattern, and all memories, none reports a mismatch if and only if the transfer size is not zero |
| LoopbackMismatch.TransfersKeepToTheirWords | linux-user-space-dma/Software/User/dma-proxy-test.c:131-264 | without verify no buffer is written and nothing is reported, and with it no word past the transfer size is ever touched |
| LoopbackTheorems.RingOrderAndOwnership | linux-user-space-dma/Software/User/dma-proxy-test.c:124-208 | the k-th FINISH names the buffer of the k-th START, k*d mod the ring; buffers are touched and started only while idle; never more than the goal is started |
| LoopbackTheorems.RunsEndDrained | linux-user-space-dma/Software/User/dma-proxy-test.c:124-297 | a run that cannot go on, with a fitting stop or none, has both threads returned after exactly max(1, total) transfers and nothing in progress |
| LoopbackTheorems.ReachableInv | linux-user-space-dma/Software/User/dma-proxy-test.c:116-297 | the window, ring order and goal invariant after every interleaving whose stop, if any, fits |
| LoopbackProgress.StuckIsDrained | linux-user-space-dma/Software/User/dma-proxy-test.c:151-297 | no deadlock: a state in which nothing can move is the clean end |
| LoopbackProgress.StepsDecrease | linux-user-space-dma/Software/User/dma-proxy-test.c:116-297 | termination: every step that moves lowers a well-founded measure, from any state at all |
| LoopbackPattern.FilledBufferCarries | linux-user-space-dma/Software/User/dma-proxy-test.c:131-192 | the priming value and the refill formula both equal the submission index |
| LoopbackSafety.StopKeepsRx | linux-user-space-dma/Software/User/dma-proxy-test.c:176-184 | a fitting change of the total finds the receiver inside both totals at any point of its loop |
| Ring.BufferAtClosedForm | linux-user-space-dma/Software/User/dma-proxy-test.c:206-207 | the advance modulo the ring visits buffer k*d mod the ring size at position k |
| Ring.Flip | linux-user-space-dma/Software/User/dma-proxy-test.c:293-294 | the loop's `+=` and `%=` are one advance of the walk |
| Channel.FinishKeepsOrder | linux-user-space-dma/Software/User/dma-proxy-test.c:243-243 | FINISH of the next buffer keeps starts, finishes and signalled completions in ring order |
| LoopbackThreads.RunTest | linux-user-space-dma/Software/User/dma-proxy-test.c:212-298 | rx_thread, whatever the others do without a signal, receives max(1, N) transfers without a mismatch, or uses up all that the others do and still waits in FINISH, with fewer received unless all is at rest |
| LoopbackThreads.RunTx | linux-user-space-dma/Software/User/dma-proxy-test.c:116-210 | tx_thread returns, or uses up all that the others do and waits in FINISH; the result is an interleaving with exactly what the others did; with a fitting stop the counts stay within the total, and with one that spares the pattern there is no mismatch |
| LoopbackThreads.RunRx | linux-user-space-dma/Software/User/dma-proxy-test.c:212-298 | the same of rx_thread |
| LoopbackThreads.LoopbackTest.FillPattern | linux-user-space-dma/Software/User/dma-proxy-test.c:189-193 | the refill loop writes the pattern of the transfer about to be started |
| LoopbackThreads.LoopbackTest.TxThread | linux-user-space-dma/Software/User/dma-proxy-test.c:116-210 | the whole function with its two loops performs an interleaving of the model with exactly the steps the others took; it ends returned, or waiting in FINISH with nothing of the others left |
| LoopbackThreads.LoopbackTest.TxEarlyStop | linux-user-space-dma/Software/User/dma-proxy-test.c:176-184 | the stop and window tests; the total changes only when the stop is first handled |
| LoopbackThreads.LoopbackTest.RxThread | linux-user-space-dma/Software/User/dma-proxy-test.c:212-298 | the whole function likewise, with its three separate reads of the shared total |
| LoopbackThreads.LoopbackTest.RxFinishXfer | linux-user-space-dma/Software/User/dma-proxy-test.c:243-243 | FINISH gives up only when the others do no more, and takes in all they do meanwhile; what is left to do has gone down when it is woken |
| DriverRun.DriversReportOnlySuccess | linux-user-space-dma/Software/Kernel/dma-proxy.c:283-321 | as long as no FINISH sleeps out its timeout and the engine reports no DMA error: for all turns of threads, hardware, engines, callbacks and cookie queries, with a fitting stop or none, each FINISH of each thread has been reported as PROXY_NO_ERROR, in order and once, except one whose cookie is still to be queried |
| DriverStatus.StatusTestsPass | linux-user-space-dma/Software/User/dma-proxy-test.c:156-249 | under the same hypothesis, whenever a thread has returned from FINISH the status word it looks at is PROXY_NO_ERROR, so neither status test fires |
| DriverStatus.RxWaitShowsBusy | linux-user-space-dma/Software/Kernel/dma-proxy.c:293-298 | while a thread waits in FINISH the status word is PROXY_BUSY |
| DriverRun.PlayIsInterleaving | linux-user-space-dma/Software/User/dma-proxy-test.c:116-297 | what the threads do on the drivers, they do in some interleaving of the loopback model |
| DriverRun.QuietIsDrained | linux-user-space-dma/Software/User/dma-proxy-test.c:124-297 | under the same hypothesis, when nothing on threads or drivers can move, both threads have returned after max(1, total) transfers |
| DriverRun.TurnsDecrease | linux-user-space-dma/Software/User/dma-proxy-test.c:116-297 | termination: every turn that changes anything on threads or drivers lowers a well-founded measure, as long as the stop, if handled, fits |
| DriverRun.DriverRunEnds | linux-user-space-dma/Software/User/dma-proxy-test.c:116-297 | some turns without a signal lead from the start to where nothing changes any more, after exactly max(1, requested) transfers |
| DriverRefinement.StartImplements | linux-user-space-dma/Software/Kernel/dma-proxy.c:226-278 | START of an idle buffer by the driver is START of the channel the threads rely on |
| DriverRefinement.FinishImplements | linux-user-space-dma/Software/Kernel/dma-proxy.c:283-321 | a FINISH of a started buffer, whatever the engine does while it sleeps and before the cookie query: success exactly when woken without a DMA error, timeout exactly when not woken, and then the channel's FINISH has happened among signalled completions |
| DmaProxy.ReportedSuccessIsReal | linux-user-space-dma/Software/Kernel/dma-proxy.c:191-321 | over every run, with exactly the transfers submitted and the FINISHes reported that the ioctls ask for: PROXY_NO_ERROR is written only when the latest transfer of that buffer is finished, late callbacks included |
| DmaProxy.RunDoesAsAsked | linux-user-space-dma/Software/Kernel/dma-proxy.c:438-468 | over every run, START and XFER submit their buffers in order, FINISH and XFER report once each, in order, for the transfer then latest, and the status word is what was last reported |
| DmaProxy.SleepTakesOne | linux-user-space-dma/Software/Kernel/dma-proxy.c:191-202 | completions are counted: each callback adds one, a woken FINISH takes one, a timed-out one none |
| DmaProxy.FinishNeverFailsIff | linux-user-space-dma/Software/Kernel/dma-proxy.c:283-321 | without a DMA error, no engine timing makes FINISH report an error if and only if the buffer's latest transfer is finished already, or its completion is not signalled and no earlier transfer of it still owes its callback |
| DmaProxy.CleanFinish | linux-user-space-dma/Software/Kernel/dma-proxy.c:283-321 | under that condition the status is success, error or timeout exactly for woken, woken with a DMA error, and not woken |
| DmaProxy.RestartNeverFailsIff | linux-user-space-dma/Software/Kernel/dma-proxy.c:226-321 | starting a buffer again is safe if and only if none of its transfers still owes its callback; otherwise a late one makes FINISH report an error for a transfer still running |
| DmaProxy.FinishInParts | linux-user-space-dma/Software/Kernel/dma-proxy.c:293-320 | a woken FINISH is its wait, the count taken, the time before the query, and the status, so these may be separate steps |
| DmaProxy.WakesIff | linux-user-space-dma/Software/Kernel/dma-proxy.c:295-298 | FINISH wakes exactly when some point of the wait finds the completion signalled |
| DmaProxyDriver.ProxyChannel.StartTransfer | linux-user-space-dma/Software/Kernel/dma-proxy.c:226-278 | re-initialises the completion, submits, stores the cookie |
| DmaProxyDriver.ProxyChannel.WaitForTransfer | linux-user-space-dma/Software/Kernel/dma-proxy.c:283-321 | writes the status, success only for a finished latest transfer |
| DmaProxyDriver.ProxyChannel.Ioctl | linux-user-space-dma/Software/Kernel/dma-proxy.c:438-468 | START and XFER submit the buffer, FINISH and XFER report once, with the status written to the buffer; nothing else does either, and an unreadable argument gives -EINVAL without any effect |
| BufferLayout.TransfersAreSeparate | linux-user-space-dma/Software/Kernel/dma-proxy.c:588-615 | transfers up to BUFFER_SIZE are pairwise disjoint, inside the allocation, and touch no status or length word |
| BufferLayout.TransfersAreAligned | linux-user-space-dma/Software/Common/dma-proxy.h:38-45 | every transfer address is aligned as the allocation is |
| BufferLayout.LongerTransfersReachTheStatus | linux-user-space-dma/Software/User/dma-proxy-test.c:357-360 | the length limit is exact |
| BufferLayout.FillDmaHandles | linux-user-space-dma/Software/Kernel/dma-proxy.c:609-615 | the set-up loop computes the addresses, at least one entry apart |
| FsblPartition.PsPartitionLoaded | zynq-7000-tips-tricks/fsbl/image_mover.c:488-636 | one plaintext for all paths and all lengths: a completed PS partition leaves the plaintext of its source words at its load address, decrypted once or not at all, after exactly the requested checks, each of which holds, for linear and other devices alike; the source is the image, or where the copy is shorter, the copy and then old memory |
| FsblPartition.PlPartitionProgrammed | zynq-7000-tips-tricks/fsbl/image_mover.c:555-666 | whatever the lengths, a completed PL partition is passed to the fabric exactly once, after every requested check, each of which holds, from its source words |
| FsblChecks.ProcessCompletesIff | zynq-7000-tips-tricks/fsbl/image_mover.c:476-666 | a body completes if and only if all its driver calls and hooks succeed, the checksum asked for matches, and the signature asked for is authentic with RSA built in |
| FsblSound.StepFallsBackIff | zynq-7000-tips-tricks/fsbl/image_mover.c:329-666 | an iteration falls back if and only if the header is invalid, or the partition is to be processed and lacks mandatory encryption, has a bad load address, or cannot complete |
| FsblSound.ServedAreSound | zynq-7000-tips-tricks/fsbl/image_mover.c:329-666 | at every return of a boot from reset, each partition loaded or programmed has a valid header, is encrypted where that is mandatory, has its load address in DDR if loaded, and passes the checksum and the signature its own attributes ask for |
| FsblSound.WalkHadNoFailure | zynq-7000-tips-tricks/fsbl/image_mover.c:315-673 | a walk that returns has met no failing driver call or hook |
| FsblSound.PrologueCompletesIff | zynq-7000-tips-tricks/fsbl/image_mover.c:215-313 | the boot reaches the loop if and only if the header reads succeed, the count fits, and where RSA is enabled it is built in and the headers are authentic |
| FsblSound.AuthenticatedWords | zynq-7000-tips-tricks/fsbl/image_mover.c:877-915 | the authenticated words lie in flash at the two offsets the boot header keeps, the signature behind the partition header table |
| FsblSound.PrologueWritesTempOnly | zynq-7000-tips-tricks/fsbl/image_mover.c:856-927 | before the loop only the temporary area is written |
| FsblPartition.PsPartitionWrites | zynq-7000-tips-tricks/fsbl/image_mover.c:1201-1324 | loading a PS partition writes exactly the words copied or decrypted, from its load address on, and no other memory |
| FsblPartition.StaysInDdrIff | zynq-7000-tips-tricks/fsbl/image_mover.c:447-466 | a PS partition that passes the load address checks stays inside DDR if and only if the words it writes end by the last byte of DDR |
| FsblPartition.MovePs | zynq-7000-tips-tricks/fsbl/image_mover.c:1234-1305 | PartitionMove leaves a PS partition as plaintext if it is encrypted and not to be checked, and as copied otherwise, for all lengths |
| FsblPartition.MovePl | zynq-7000-tips-tricks/fsbl/image_mover.c:1253-1321 | PartitionMove stages the copy of a bitstream to be checked and programs any other, for all lengths |
| FsblPartition.UnattributedPartition | zynq-7000-tips-tricks/fsbl/image_mover.c:1219-1265 | a partition before any PL or PS one is only checked, and copied to its load address except from a linear device; no other memory changes |
| FsblStale.FabricIsCheckedIff | zynq-7000-tips-tricks/fsbl/image_mover.c:555-652 | a checked bitstream: the fabric gets a prefix of the words that the checks saw if and only if ImageWordLen <= PartitionWordLen modulo 2^30; every word past the copy is what the temporary area held before |
| FsblStale.ApplicationIsCheckedIff | zynq-7000-tips-tricks/fsbl/image_mover.c:555-636 | a checked PS partition: the same for the ciphertext decrypted, or the words left at the load address, with the old words of the load area |
| FsblStale.ImageIsUsedIff | zynq-7000-tips-tricks/fsbl/image_mover.c:1234-1263 | for PL and PS headers with any lengths, checked or not: every completed body on every platform and memory uses the image as it is on the device, if and only if ImageWordLen is at most the word count moved, modulo 2^30 on a non-linear device |
| FsblStale.WrappedPartitionProgramsOldWords | zynq-7000-tips-tricks/fsbl/image_mover.c:1234-1263 | ImageWordLen 100 and PartitionWordLen 2^30 + 16, checked, on a non-linear device: the fabric gets 84 words of old memory |
| FsblStale.WrappedImageLoadsNothing | zynq-7000-tips-tricks/fsbl/image_mover.c:1100-1263 | ImageWordLen 2^30, neither checked nor encrypted, on a non-linear device: no memory changes and the partition counts as loaded |
| FsblStale.AnyLengthsValidate | zynq-7000-tips-tricks/fsbl/image_mover.c:1075-1106 | ValidateHeader admits any other lengths with an ImageWordLen up to the limit |
| FsblIntact.BootReturnsIntact | zynq-7000-tips-tricks/fsbl/image_mover.c:315-673 | at return every partition loaded is intact if no later one of them is loaded over it, the fabric was loaded once for each body completed as PL, in order, and the address is that of the first partition loaded, or 0 |
| FsblOrder.WalkServesInOrder | zynq-7000-tips-tricks/fsbl/image_mover.c:315-671 | a walk that does not fall back has loaded as PS and programmed as PL exactly the partitions the headers call for before the first that ends it, in list order and once each, and reaches the end if and only if none ends it |
| FsblOrder.BootServesInOrder | zynq-7000-tips-tricks/fsbl/image_mover.c:315-671 | the same from reset, with the loads of the fabric in the trace those of the bodies completed as PL |
| FsblOrder.WalkSetsFlags | zynq-7000-tips-tricks/fsbl/image_mover.c:366-398 | the application and bitstream flags at the end say whether a partition marked so was visited and not skipped, or ended the walk |
| FsblOrder.WatchdogSparesFabricIff | zynq-7000-tips-tricks/fsbl/image_mover.c:379-398 | after a watchdog restart the fabric is untouched if and only if no partition the walk visits is unmarked while a skipped bitstream was the last marked one |
| FsblOrder.WatchdogProgramsUnmarked | zynq-7000-tips-tricks/fsbl/image_mover.c:379-398 | a skipped bitstream and then an unmarked partition: the fabric is loaded |
| FsblWalk.ApplicationEndsProgramming | zynq-7000-tips-tricks/fsbl/image_mover.c:366-398 | once the walk has seen an application, the rest of it, whatever the partitions, adds no load of the fabric to the trace |
| FsblWalk.StepKeeps | zynq-7000-tips-tricks/fsbl/image_mover.c:351-474 | the sticky-flag invariant for all headers: PS flag and application flag agree, never PL and PS together, one fabric load for each body completed as PL |
| FsblWalk.NothingIsForgotten | zynq-7000-tips-tricks/fsbl/image_mover.c:315-671 | a walk that reaches the end of the list has loaded every owned PS partition and, unless the watchdog restarted the CPU, programmed every other owned PL one |
| FsblWalk.GoodImageNeverFallsBack | zynq-7000-tips-tricks/fsbl/image_mover.c:329-487 | with working drivers, passing checks, valid headers and PS load addresses in DDR the boot never falls back |
| FsblWalk.SkippedPartitionsAreInvisible | zynq-7000-tips-tricks/fsbl/image_mover.c:351-364 | walking the list equals walking the partitions FSBL owns |
| FsblHeader.OneWordChangeDetected | zynq-7000-tips-tricks/fsbl/image_mover.c:1154-1183 | changing exactly one word of a valid header always invalidates it |
| FsblHeader.TwoWordChangeDetectedIff | zynq-7000-tips-tricks/fsbl/image_mover.c:1161-1176 | two changed words escape exactly when their differences cancel modulo 2^32 |
| FsblHeader.TerminatorPassesChecksum | zynq-7000-tips-tricks/fsbl/image_mover.c:1027-1058 | the end marker itself has a valid checksum |
| FsblHeader.GetPartitionCount | zynq-7000-tips-tricks/fsbl/image_mover.c:1009-1021 | the least index of an end marker, or the table size |
| FsblHeader.IsLastPartition | zynq-7000-tips-tricks/fsbl/image_mover.c:1042-1058 | recognises exactly the end marker |
| FsblHeader.ValidatePartitionHeaderChecksum | zynq-7000-tips-tricks/fsbl/image_mover.c:1154-1183 | accepts exactly headers whose inverted wrapping sum is the last word |
| FsblHeader.ValidateHeader | zynq-7000-tips-tricks/fsbl/image_mover.c:1075-1106 | accepts exactly valid checksums with an admissible image length; the empty test adds nothing |
| FsblBoot.Fsbl.PartitionMove | zynq-7000-tips-tricks/fsbl/image_mover.c:1201-1324 | the flag juggling of the source does what the kind of partition calls for, and asks the PCAP for unequal lengths only when decrypting |
| FsblBoot.Fsbl.CheckAndUnpack | zynq-7000-tips-tricks/fsbl/image_mover.c:555-653 | checks, decryption and fabric load of a checked partition, which completes only if the words it staged pass the checks; if a check fails, memory is untouched and nothing but passed checks has happened |
| FsblBoot.Fsbl.ProcessPartition | zynq-7000-tips-tricks/fsbl/image_mover.c:476-666 | the body of an iteration completes exactly when its calls succeed and its checks hold; whether it does or not, nothing of a checked partition is decrypted or programmed before every check it asks for has passed |
| FsblBoot.Fsbl.LoopBody | zynq-7000-tips-tricks/fsbl/image_mover.c:315-671 | one iteration, with every way to continue, break and fall back |
| FsblBoot.Fsbl.LoadBootImage | zynq-7000-tips-tricks/fsbl/image_mover.c:141-674 | falls back on a failed header read, a bad count, RSA demanded but not built in, or headers that do not authenticate; else walks exactly the headers before the first end marker |
| FsblBoot.Fsbl.GetNAuthImageHeader | zynq-7000-tips-tricks/fsbl/image_mover.c:856-927 | the headers and their signature, moved through the temporary area and authenticated together with the header table |
| FsblBoot.BootFromReset | zynq-7000-tips-tricks/fsbl/image_mover.c:141-674 | a whole boot: memory, handoff address, the partitions loaded and programmed, each valid and passing the checks its header asks for, intact applications if none is loaded over an earlier one, and authenticated headers where RSA is enabled |
| IpiA72.RetransmissionIsHarmless | plm-r5-a72-ipi/plm/user_ipi_demo.c:179-249 | in every interleaving each accepted response is the outstanding request plus one and adds exactly two, however often it was re-sent |
| IpiA72.SendsEveryTenthRun | plm-r5-a72-ipi/plm/user_ipi_demo.c:179-226 | over every interleaving, answered or not, exactly every tenth run of UserTask sends the request |
| IpiA72.RoundTrip | plm-r5-a72-ipi/plm/user_ipi_demo.c:179-249 | a run that sends and is served at once accepts the answer, two further |
| IpiA72.SpuriousStartHarmlessIff | plm-r5-a72-ipi/a72-linux/libmetal-linux-ipi-demo.c:186-220 | a handler run that no interrupt asked for, started in any state of the invariant, is harmless, whatever follows it but another such run, if and only if a request is pending, or the request it reads goes out before the PLM next polls |
| IpiA72.HarmlessIffNoSpuriousHandler | plm-r5-a72-ipi/a72-linux/libmetal-linux-ipi-demo.c:186-220 | every accepted response answers its request in every interleaving if and only if handler runs without a pending interrupt are excluded |
| IpiR5.R5CounterNeverGoesBack | plm-r5-a72-ipi/r5/xilmailbox_example.c:69-129 | the request word is the counter or two less, each command keeps the counter or adds two, and it stays even, under any timing |
| IpiR5.CommandsNeedInterrupts | plm-r5-a72-ipi/r5/xilmailbox_example.c:69-112 | over every timing, errors included, the R5 sends one command unasked and then no more than there were interrupts |
| IpiR5.R5RoundTrip | plm-r5-a72-ipi/r5/xilmailbox_example.c:69-112 | a request written and triggered while the R5 waits comes back two further |
| IpiR5.ErrorHarmlessIff | plm-r5-a72-ipi/r5/xilmailbox_example.c:77-87 | an error callback in any state of the invariant is harmless, whatever follows it but another early one, if and only if the R5 is not waiting or the word in the buffer is the counter or two less; after the first message it always is |
| IpiR5.MonotoneIffNoEarlyError | plm-r5-a72-ipi/r5/xilmailbox_example.c:77-87 | the counter never goes back, in every interleaving, if and only if error callbacks before the first message are excluded |
| IpiDevices.UserModule.ProcessCmd | plm-r5-a72-ipi/plm/user_ipi_demo.c:137-162 | the low byte selects the counter, both it and the response are the payload plus one, an unknown command changes nothing |
| IpiDevices.IpiChannel.SendIpiMsg | plm-r5-a72-ipi/a72-linux/libmetal-linux-ipi-demo.c:141-179 | command and counter are in the request words, the interrupt is raised, and however many polls the PLM takes the reply is the counter sent plus one |
| IpiDevices.A72Messages | plm-r5-a72-ipi/a72-linux/libmetal-linux-ipi-demo.c:329-342 | after n messages, with any delays, both counters are 2n modulo 2^32 |
| IpiDevices.A72Link.UserTask | plm-r5-a72-ipi/plm/user_ipi_demo.c:169-256 | one run counts itself, sends if it is due, and accepts one answer exactly if it has a request out and finds it acknowledged |
| IpiDevices.RunUserTask | plm-r5-a72-ipi/plm/user_ipi_demo.c:169-256 | any number of runs, against exactly the steps the A72 takes: every tenth has sent, and the counter is twice the responses accepted, each answering its request |
| IpiDevices.RunA72Handler | plm-r5-a72-ipi/a72-linux/libmetal-linux-ipi-demo.c:186-220 | the handler against exactly the steps of the PLM: the same, and when the PLM does no more no interrupt is left unserved |
| IpiDevices.RunR5 | plm-r5-a72-ipi/r5/xilmailbox_example.c:69-129 | the main loop takes in all steps of the PLM and the interrupts, without an early error, stops only in one of its two waits, and leaves an even counter at most two ahead of the word sent |
| Si5381.PageCacheRefinesFlat | zcu670-si5381/Si5381A-programming.c:83-155 | any sequence of one-byte accesses to any devices, some refused by the bus, has the registers and results of flat 16-bit addressing |
| Si5381.CoherentIffPageKept | zcu670-si5381/Si5381A-programming.c:95-116 | a successful write keeps the cache right if and only if it does not move the page behind its back |
| Si5381.WriteIsFlat | zcu670-si5381/Si5381A-programming.c:83-132 | a one-byte write hits the full 16-bit address of that device alone, a failed one no register |
| Si5381.ReadIsFlat | zcu670-si5381/Si5381A-programming.c:134-155 | a read returns the full 16-bit register and changes none |
| Si5381.WriteSucceedsIff | zcu670-si5381/Si5381A-programming.c:92-131 | a write succeeds exactly when a device answers and its transfers do, one where the page is cached and two where it is not, and leaves the page cached |
| Si5381.ReadSucceedsIff | zcu670-si5381/Si5381A-programming.c:134-155 | a read is such a write of the register number and one transfer more |
| Si5381.LastWriteWins | zcu670-si5381/Si5381A-programming.c:218-237 | writing a table leaves the last entry of each address and nothing else |
| Si5381Driver.ReadbackAgrees | zcu670-si5381/Si5381A-programming.c:240-255 | middle addresses that are distinct and not rewritten read back as programmed |
| Si5381Driver.I2cPort.WriteTable | zcu670-si5381/Si5381A-programming.c:218-237 | the write loop, and what a bus error leaves behind |
| Si5381Driver.I2cPort.ReadBack | zcu670-si5381/Si5381A-programming.c:240-255 | the readback loop counts exactly the middle registers that do not hold their value |
| Si5381Driver.I2cPort.ProgramSi5381 | zcu670-si5381/Si5381A-programming.c:157-259 | identification by registers 2 and 3, low byte first, programming and readback, which counts exactly the middle entries overwritten by later ones; a failing mux leaves every device alone |

## Left out

- Loopback: FINISH has no timeout in the model. In the driver it gives up after three seconds; the transmitter then prints a message and goes on, and the receiver exits. So a FINISH of a buffer nobody started blocks for ever in the model.
- DriverRun.DriversReportOnlySuccess: assumes that no FINISH sleeps out its timeout and that the engine reports no DMA error, because both depend on real time and hardware; what the driver reports then is in DriverRefinement.FinishImplements.
- Loopback: increments that do not divide the ring sizes, several channels, and threads that fail to start.
- Loopback: C integers do not overflow in the model; RingOrderAndOwnership bounds counter plus in-progress count by the goal, so they do not as long as the total fits an int.
- DmaProxy: failures to prepare or submit a transfer, concurrent ioctls on one channel, cookie wrap-around, and buffer indices out of range, for which the driver gives no guarantee.
- FsblImage: MD5, SHA-256, RSA, PCAP and flash drivers are arbitrary functions; the silicon revision and the eFUSE are one switch, and the RSA_WITHOUT_EFUSES build and the user hooks' effects are not modelled. The offsets and sizes of the headers are symbolic, because image_mover.h is not part of this model.
- FsblImage: the build without DDR and the second-stage loader, which are fixed addresses and one copy loop.
- FsblImage: the sum of a flash offset and the linear base address, and addresses within a transfer, do not wrap; word counts do where they are shifted to bytes. The PCAP transfers any word count it is given.
- FsblHeader.PartHeader: the field order of image_mover.h, which is not part of this model; only that the checksum is the last word.
- FsblIntact.BootReturnsIntact: assumes that no PS partition is loaded over what an earlier one left, because that is what such a load overwrites (FsblPartition.PsPartitionWrites).
- IpiDevices.A72Link.UserTask: the part for the A72; the part for the R5 is the party Periodic of module IpiR5.
- IpiA72: a failing buffer read in the PLM, which would increment whatever was left in the counter.
- Si5381: multi-byte writes, bus-busy waits, the delay after the preamble, and devices whose registers do not keep what is written.
- Device plumbing (probe, mmap, module init), argument parsing, timing and console output: library calls and I/O.
- The zynqmp-ipi-messaging and cache-coherency demos, OP-TEE and other patches, TCL scripts and register tables: data, or members without hard properties.
