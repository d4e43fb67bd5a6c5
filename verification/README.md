# fast_nic_recorder: a verified model

fast_nic_recorder captures packets from a 10-gigabit port into a ring of memory
buckets, lets several processes write the buckets to several disks in parallel,
and has tools that turn the files back into a packet stream.  It ships with the
ixgbe driver it is built on.  This project models the parts of both whose
correctness does not show in any single function, and proves what they promise.

| files | what is modelled |
|---|---|
| `Recorder`, `RecorderSafety`, `RecorderTheorems`, `RecorderLimits`, `RecorderTake`, `RecorderRemark`, `RecorderStop`, `RecorderPass`, `RecorderEnd` | the capture driver and the disk writers as one state machine |
| `Layout`, `Capture`, `Pcap`, `Readers`, `Recording` | a block in memory, how the driver fills it, and the three tools that read a recording |
| `RunReadback` | the files of a concurrent run in the hands of the readers |
| `Eeprom`, `EepromProbe`, `EepromKnown`, `EepromDriver` | burst writing to an EEPROM whose address wraps inside a page, and page size detection |
| `VlanFilter`, `MacFilter` | the VLAN and MAC filter registers as tables of what they mean |
| `Semaphore`, `SemaphoreCalls`, `Mailbox`, `MailboxCalls` | the software/firmware lock and the PF/VF mailbox as state machines |
| `QueueVectors`, `RingMap` | rings to interrupt vectors, rings to registers |
| `FcoeDdp`, `FlowHash` | the FCoE scatter list split, and the Flow Director hashes |
| `Arith`, `Bits` | division with remainder, and C bit masks on naturals |

Concurrent parts are total step functions folded over a schedule.  An action that
is not enabled changes nothing, so a statement about all schedules is a statement
about all interleavings.  Objects that the code updates in place are classes, and
loops are loops with invariants.

Four results deserve a word.

*The ring needs one bucket more than writers; the guard asks for two.*  A writer
frees its bucket before it has copied the data.  The documentation allows 20 writers
for 22 buckets (`README.md:210`) and the configuration reader insists on
`num_writers + 2 <= buckets`.  For every number of writers and of at least as many
buckets, the files that all writers have left behind with an empty first poll are
right in all runs if and only if there is one bucket more than writers
(`OneMoreIsExact`): the refill thread enters the next bucket only after it has stored
the count of the current one (`ixgbe-3.18.7/src/nlsim_pbm.c:128-134`).  So the guard
suffices, and refuses only the single spare bucket that would do (`GuardSuffices`,
`GuardRefuses`).

*The driver publishes a block before it is complete.*  The documentation has the
driver write the buckets one by one (`README.md:274`).  In the code the refill
thread stores the packet count while the last row of the block is still being
received (`ixgbe-3.18.7/src/nlsim_pbm.c:104`).  The model follows the code.  With
nobody late, the file of a writer about to begin will be its block in every
continuation if and only if the block is finished by then (`TakeDecides`); and in
every configuration with room there is a run in which a wrong file goes unnoticed
(`EarlyTakeRun`).  The same thread stores the count again for every later slot of
that row.  While the block is unreleased that changes nothing, and in all runs whose
repeated stores hit unreleased blocks a reported stall is real
(`RepeatChangesNothing`, `StallIsReal`).  When an early writer has released the
bucket, the mark outlives its block: without a stop the bucket's next block is never
written, and its writer reports a stall when it gets there; such a mark can be set
while nobody is late (`RepeatEndsRecording`, `RemarkAlarms`, `RepeatRun`).

*Which timeouts break the software/firmware lock.*  A driver whose SMBI poll runs
out of tries clears both semaphore bits, whoever holds them.  From any state of any
number of drivers that does no harm if and only if no driver has SMBI at that
moment; a failed poll does no harm if and only if the driver was acquiring; and an
acquisition that runs out of tries and clears the bits in its way keeps the books
if and only if those bits had been given up (`TimeoutHarmless`, `FailHarmless`,
`SeizeHarmless`, `ExpireHarmless`).  Every run whose timeouts all strike harmlessly
has the full guarantee.

*The EEPROM page probe is exact only on part of its inputs.*  A long write that
begins with the probe leaves the intended words for all contents if and only if
the chip has the largest page size or the offset is aligned to it (`LazyExactIff`).
With a page size in hand, right or wrong, a write is exact if and only if every page
end inside its chunks ends a burst (`KnownExactIff`).

## Model

| member | source | states |
|---|---|---|
| `RecorderSafety.RunInv` | application_ixgbe/todisk.c:178-256 | for every schedule, the repeated stores of a count included, and while no stop is set: an unreleased block that no writer trails by more than a round keeps its bucket marked and no late writer can free it, sealed files are exact, and while every writer is within a round of the driver complete files are exact and files in progress are prefixes of their blocks |
| `RecorderSafety.FirstPollEmpty` | application_ixgbe/todisk.c:193-209 | a writer that nobody trails and whose first poll finds an empty bucket proves that every writer is within one round of the driver |
| `RecorderTheorems.SealedFilesAreExact` | application_ixgbe/todisk.c:180-256 | in every interleaving without a stop, a file that every writer has left behind with an empty first poll, and whose block was finished when taken, is exactly the captured block, and stays so in every continuation |
| `RecorderLimits.OneMoreIsExact` | application_ixgbe/todisk.c:70-74 | for all writer and bucket counts (writers <= buckets, some data to copy, a quota of at least two blocks), the guarantee above holds over all runs if and only if there is one bucket more than writers |
| `RecorderLimits.GuardSuffices` | application_ixgbe/todisk.c:70-74 | a configuration that passes the guard, which asks for two more, has the guarantee in every run and every continuation |
| `RecorderLimits.ShortRingRun` | application_ixgbe/todisk.c:223-241 | with as many buckets as writers there is a run without a stall that seals a wrong file whose block had been finished in time |
| `RecorderTheorems.EarlyTakeCanSpoil` | ixgbe-3.18.7/src/nlsim_pbm.c:103-105 | whenever a writer begins with a published block that is not finished, four steps later its file can differ from the block in every continuation, with the stop byte clear |
| `RecorderTake.TakeDecides` | application_ixgbe/todisk.c:211-241 | for a writer about to create its file with nobody late: in every continuation without a stop in which nobody is late the file is the block as far as copied, if and only if the block is finished now |
| `RecorderLimits.EarlyTakeRun` | ixgbe-3.18.7/src/nlsim_pbm.c:100-135 | in every configuration with room there is a run from the start in which such a file is sealed and wrong |
| `RecorderRemark.StallIsReal` | application_ixgbe/todisk.c:193-209 | in every run whose repeated stores all hit unreleased blocks, a first poll that finds a full bucket has a reason: the writer's own block is published already, or a block from an earlier round is still unreleased there |
| `RecorderRemark.RepeatChangesNothing` | ixgbe-3.18.7/src/nlsim_pbm.c:101-105 | with every mark honest and nobody late, the repeated store changes nothing if and only if its block is unreleased |
| `RecorderRemark.RepeatEndsRecording` | ixgbe-3.18.7/src/nlsim_pbm.c:101-105 | once a count is stored again over a bucket that an early writer has released, in every continuation without a stop the bucket's next block is not on disk and its writer has not found the bucket empty |
| `RecorderRemark.RemarkAlarms` | application_ixgbe/todisk.c:205-209 | when the writer of that next block reaches its first poll, it sets the stop byte |
| `RecorderRemark.RepeatRun` | ixgbe-3.18.7/src/nlsim_pbm.c:101-105 | every configuration with room has a run into that state in which no writer was late |
| `RecorderStop.WriterPosition` | application_ixgbe/todisk.c:178-179 | in every run a writer stands at file id + blocks * writers, and its bucket is that file modulo the ring |
| `RecorderStop.RunLedger` | application_ixgbe/todisk.c:212-256 | in every run the files on disk are exactly those begun by the writer whose turn they are |
| `RecorderStop.CreatedOnce` | application_ixgbe/todisk.c:212-213 | every run creates each file that is on disk exactly once and no other |
| `RecorderStop.QuotaCoversFiles` | application_ixgbe/todisk.c:253-256 | writers that complete their quota have created the files 0 to writers * max_blocks - 1, each exactly once, and no others |
| `RecorderStop.StopDrains` | application_ixgbe/todisk.c:180-203 | after the stop byte is set, each own turn of a writer that is still running uses up at least one of its remaining steps |
| `RecorderStop.StopEndsEveryWriter` | application_ixgbe/todisk.c:180-254 | after a stop, by whoever set it, every writer leaves after a fixed number of its own turns and creates at most its current file and three more |
| `RecorderStop.UserStopEnds` | application_ixgbe/todisk.c:180-203 | so does a stop by the user, in every run |
| `RecorderPass.PassWrites` | application_ixgbe/todisk.c:193-256 | a writer that finds a filled bucket writes it in a fixed number of its own turns, whatever the others do elsewhere: count, marks and all pieces as they were; then it leaves, if the block is the last, the quota is reached or it raised the alarm, and otherwise moves on by one round |
| `RecorderPass.StopGrantsPasses` | application_ixgbe/todisk.c:180-184 | after a stop a writer still makes every pass the stop allows, three if it has counted none, each writing the bucket it finds to its own file, where the later passes leave it |
| `RecorderPass.LastBlockWritten` | ixgbe-3.18.7/src/nlsim_pbm.c:216-218 | the block the driver was filling when it ended is marked last, and its writer puts it on disk with its count and that mark, and leaves |
| `RecorderPass.StallWritten` | application_ixgbe/todisk.c:205-252 | a writer that finds its bucket full at its first poll before any stop sets the stop byte, writes the bucket with the stall mark, and leaves |
| `RecorderEnd.GivesUp` | application_ixgbe/todisk.c:192-203 | a writer that waits at an empty bucket after a stop goes back to the head of its loop with its 41st poll |
| `RecorderEnd.WaitsOn` | application_ixgbe/todisk.c:192-203 | and not before, however the turns of the others fall |
| `RecorderEnd.EndMark` | ixgbe-3.18.7/src/nlsim_pbm.c:216-218 | in every run the end mark is on the block the driver was filling when it ended, and on no other |
| `RecorderEnd.DriverIsDone` | ixgbe-3.18.7/src/nlsim_pbm.c:216-225 | after that the driver leaves the captured blocks, their counts and the memory alone, in every continuation |
| `Layout.Disjoint` | application_ixgbe/to_libpcap.c:156-175 | the byte windows of two packets of a block never overlap |
| `Capture.Filler.Receive` | ixgbe-3.18.7/src/nlsim_pbm.c:100-121 | storing a packet at its slot's running offset keeps every earlier packet in place and leaves room in stride and table |
| `Capture.RoomForRow` | ixgbe-3.18.7/src/nlsim_ixgbe.h:44-45 | an open block always has room for one more length, and that length lies in the part of the area that goes to disk, before the page with the stop byte |
| `Capture.FillBlock` | ixgbe-3.18.7/src/nlsim_pbm.c:82-138 | from arbitrary old memory, a filled block is well formed, its packets are the received packets in order up to the end of the first row in which some slot begins beyond the byte limit, and it is marked last exactly when the traffic ended and left it open |
| `Pcap.ParseOf` | application_ixgbe/to_libpcap.c:47-64 | a reader of the pcap format gets back exactly the packets from the header and records the tools write, with link type 1 and snap length 65535 |
| `Readers.SkipTo` | application_ixgbe/to_libpcap.c:152-163 | the skip loops leave for each slot the bytes of all its packets before the start |
| `Readers.DumpPacket` | application_ixgbe/to_libpcap.c:142-180 | unfolding a block writes min(count, rest) packets, those from the start on, in order and with their bytes |
| `Readers.Walk` | application_ixgbe/to_libpcap.c:236-280 | the loop over files shows the visible packets up to the count and ends with the right status; its incremental path index is always the file number modulo the writers, where the writer put the file |
| `Recording.VisibleIsSuffix` | application_ixgbe/to_libpcap.c:236-280 | with only the last block marked, what a reader can show from a packet on is the suffix of the concatenated capture, under global numbers |
| `Recording.ToLibpcap` | application_ixgbe/to_libpcap.c:182-280 | parsing the output gives exactly packets start to min(start + count, total) - 1 of the captures, for every start and count |
| `Recording.RoundTrip` | application_ixgbe/to_libpcap.c:182-280 | received packets filled into block after block, stored with their writers and exported come back from the pcap file: exactly those asked for, in order and with their bytes; a tool asked for too much ends normally, unless the traffic ended with the packet that closed a block and so left no mark on disk |
| `Recording.EndsOfRecording` | application_ixgbe/to_libpcap.c:236-280 | how a reader ends, by start, count and the mark of the last block; without a mark, as after a completed quota, asking for too much ends with a file that cannot be opened |
| `Recording.Block2Libpcap` | application_ixgbe/block2libpcap.c:234-281 | starting at a block gives the same packets and status as starting at the number of its first packet; beyond the recording it gives an empty file |
| `Recording.VisibleFromBlock` | application_ixgbe/block2libpcap.c:236-250 | skipping k blocks and skipping the sum of their packet counts are the same |
| `Recording.DumpTool` | application_ixgbe/dump_packet.c:205-251 | each printed packet carries its index in the concatenated capture |
| `RunReadback.Export` | application_ixgbe/todisk.c:178-256 | the sealed files of any concurrent run, whatever happened since, exported by the tool give the wanted packets of the blocks the driver captured |
| `Eeprom.SwapBytes` | ixgbe-3.18.7/src/ixgbe_common.c:1051-1052 | a word is sent with its bytes exchanged: the chip's high byte is the low byte of the word and its low byte the high one |
| `Eeprom.SafeTarget` | ixgbe-3.18.7/src/ixgbe_common.c:1048-1061 | with page size 0 or one that divides the real page, word k of a burst write reaches address offset + k although the chip's address wraps |
| `Eeprom.SafeChunked` | ixgbe-3.18.7/src/ixgbe_common.c:947-990 | chunked writing with such a page size changes exactly the words offset to offset + words - 1 |
| `EepromDriver.Driver.WriteBuffer` | ixgbe-3.18.7/src/ixgbe_common.c:1002-1071 | the nested loops with their shared index send every word once, to the address the chip's wrap rule gives it |
| `EepromDriver.Driver.Write` | ixgbe-3.18.7/src/ixgbe_common.c:947-990 | the errors and their order, nothing changed on error, and the exact contents otherwise |
| `EepromDriver.Driver.Read` | ixgbe-3.18.7/src/ixgbe_common.c:1108-1200 | the errors and the words read |
| `EepromDriver.Driver.WriteThenRead` | ixgbe-3.18.7/src/ixgbe_common.c:947-1200 | a read after a write returns the words written, and nothing outside changed |
| `EepromDriver.Driver.DetectPageSize` | ixgbe-3.18.7/src/ixgbe_common.c:1286-1317 | the marching-data probe sets the page size inferred from the word that survives at the offset |
| `EepromProbe.ProbeReads` | ixgbe-3.18.7/src/ixgbe_common.c:1286-1317 | the survivor of the wrapped marching data is the last one a whole number of pages after the first |
| `EepromProbe.DetectedIff` | ixgbe-3.18.7/src/ixgbe_common.c:1286-1317 | the probe returns the real page size if and only if the offset lies in the first page of a largest page; otherwise it returns a larger multiple |
| `EepromProbe.LazyExact` | ixgbe-3.18.7/src/ixgbe_common.c:965-986 | on the good inputs the probe leaves no trace behind the write |
| `EepromProbe.LazyExactIff` | ixgbe-3.18.7/src/ixgbe_common.c:965-990 | a long first write is exact for all contents if and only if the page is the largest or the offset is aligned to it |
| `EepromKnown.KnownExactIff` | ixgbe-3.18.7/src/ixgbe_common.c:973-1071 | with any page size in hand, a write of any length and offset is exact for all contents if and only if every page end inside its chunks ends a burst |
| `VlanFilter.Card.FindVlvfSlot` | ixgbe-3.18.7/src/ixgbe_common.c:3400-3437 | the slot of the VLAN if there is one, else the first free one, else no space because every slot holds another VLAN |
| `VlanFilter.Card.SetVlvf` | ixgbe-3.18.7/src/ixgbe_common.c:3516-3608 | parameter and no-space errors change nothing; otherwise the pool bits and the slot change, and the VFTA write is withdrawn exactly when pools remain |
| `VlanFilter.Card.SetVfta` | ixgbe-3.18.7/src/ixgbe_common.c:3449-3503 | one call changes the represented map by one subscription; parameter and no-space errors change nothing |
| `VlanFilter.Card.ClearVfta` | ixgbe-3.18.7/src/ixgbe_common.c:3617-3631 | afterwards the registers represent the empty map, whatever they held |
| `VlanFilter.UpdatedRepresents` | ixgbe-3.18.7/src/ixgbe_common.c:3449-3608 | changing one slot keeps one slot per VLAN, a slot in use exactly when it has pools, and VFTA set exactly when some pool subscribes |
| `VlanFilter.FullIff` | ixgbe-3.18.7/src/ixgbe_common.c:3400-3437 | there is no free slot exactly when 63 VLANs other than 0 are subscribed |
| `VlanFilter.OneMeaning` | ixgbe-3.18.7/src/ixgbe_common.c:3449-3608 | the registers determine the map |
| `VlanFilter.LastCallDecides` | ixgbe-3.18.7/src/ixgbe_common.c:3449-3503 | after any sequence of calls a pool is subscribed exactly when its last call for the VLAN turned it on and there was room then |
| `VlanFilter.Replay` | ixgbe-3.18.7/src/ixgbe_common.c:3449-3631 | after clearing and any sequence of calls the registers represent what the calls mean |
| `MacFilter.PackBytes` | ixgbe-3.18.7/src/ixgbe_common.c:3223-3227 | byte k of the address is byte k of the register pair |
| `MacFilter.PackInjective` | ixgbe-3.18.7/src/ixgbe_common.c:3223-3227 | the two register halves identify the address |
| `MacFilter.Card.ClearRar` | ixgbe-3.18.7/src/ixgbe_common.c:2007-2034 | the mutual recursion with the pool removal terminates and leaves the register without address and pools |
| `MacFilter.Card.ClearVmdq` | ixgbe-3.18.7/src/ixgbe_common.c:3279-3319 | removing the last pool of a register above 0 frees it, every other removal leaves the address |
| `MacFilter.Card.RemovePool` | ixgbe-3.18.7/src/ixgbe_common.c:3279-3319 | exactly the named pool, or all, stop listening, other registers are untouched and the table stays consistent |
| `MacFilter.Card.InsertMac` | ixgbe-3.18.7/src/ixgbe_common.c:3215-3271 | with room or a known address the pool listens in one register that holds the address; with every register in use it stores nothing and moves the high water mark past the table, the error return being unreachable |
| `MacFilter.Replay` | ixgbe-3.18.7/src/ixgbe_common.c:3215-3319 | over any sequence of inserts and removals valid registers hold distinct addresses and are valid exactly when a pool listens, up to the first new address on a full table |
| `MacFilter.Serve` | ixgbe-3.18.7/src/ixgbe_common.c:3215-3319 | for a caller that removes by the register an insertion returned, after any sequence of wishes the registers mean the map from address to pools that the wishes mean, up to the first new address on a full table |
| `MacFilter.LastWishDecides` | ixgbe-3.18.7/src/ixgbe_common.c:3215-3319 | a pool listens to an address exactly when the last wish about the two was to join, the default pool on the primary address excepted |
| `Semaphore.RunInv` | ixgbe-3.18.7/src/ixgbe_common.c:2823-2880 | every run in which each timeout strikes harmlessly keeps the lock invariant for any number of drivers and the firmware |
| `Semaphore.Exclusion` | ixgbe-3.18.7/src/ixgbe_common.c:1492-1590 | in every such run at most one agent is between taking and releasing GSSR |
| `Semaphore.NoLostUpdate` | ixgbe-3.18.7/src/ixgbe_common.c:2823-2880 | in every such run a value written back to GSSR is computed from its current value |
| `Semaphore.OneOwner` | ixgbe-3.18.7/src/ixgbe_common.c:2823-2880 | in every such run every resource has at most one owner, its software and firmware bits are never both set, and a bit is set exactly when somebody holds it |
| `Semaphore.TimeoutHarmless` | ixgbe-3.18.7/src/ixgbe_common.c:1513-1533 | from any locked state, a timeout of the SMBI poll keeps exclusion in every continuation if and only if no driver has SMBI |
| `Semaphore.FailHarmless` | ixgbe-3.18.7/src/ixgbe_common.c:1555-1569 | a failed last try or SWESMBI poll keeps exclusion in every continuation if and only if the driver was acquiring, because a release goes on regardless |
| `Semaphore.SeizeHarmless` | ixgbe-3.18.7/src/ixgbe_common.c:2852-2854 | an expired acquisition that clears the bits in its way keeps every bit with its owner if and only if the bits had been given up |
| `Semaphore.ExpireHarmless` | ixgbe-3.18.7/src/ixgbe_common.c:2851-2880 | from its expiry on, with the others standing still and both semaphores free, an acquisition that clears the bits in its way keeps every bit with its owner if and only if they had been given up |
| `Semaphore.ExpireMask` | ixgbe-3.18.7/src/ixgbe_common.c:2852-2854 | the bits an expired acquisition clears are the software and firmware bits of its resources that were set when it last looked |
| `Semaphore.TimeoutBreaksExclusion` | ixgbe-3.18.7/src/ixgbe_common.c:1513-1533 | with two or more drivers a run from the start reaches such a violation |
| `SemaphoreCalls.Acquires` | ixgbe-3.18.7/src/ixgbe_common.c:2836-2848 | a driver that finds both semaphores free and none of the software and firmware bits of its resources set ends its call with exactly these bits added to GSSR, the resources in hand and both semaphores free again |
| `SemaphoreCalls.PollsAgain` | ixgbe-3.18.7/src/ixgbe_common.c:2849-2853 | with one of them set it gives the semaphores back, changes nothing and tries again |
| `SemaphoreCalls.AcquiresIff` | ixgbe-3.18.7/src/ixgbe_common.c:2823-2858 | some number of its own steps ends an acquisition with the resources if and only if they were available |
| `SemaphoreCalls.Releases` | ixgbe-3.18.7/src/ixgbe_common.c:2868-2880 | a release takes exactly its bits out of GSSR and out of what the driver holds |
| `SemaphoreCalls.CallsSettle` | ixgbe-3.18.7/src/ixgbe_common.c:2823-2880 | in every run whose timeouts strike harmlessly, a driver on its way out of a call has what it acquired, set in GSSR, or no longer has what it released |
| `SemaphoreCalls.ExpiresOverTaken` | ixgbe-3.18.7/src/ixgbe_common.c:2851-2854 | in every run, whatever its timeouts, an acquisition that can expire has seen a bit of its resources set in this call |
| `Mailbox.RunLegal` | ixgbe-3.18.7/src/ixgbe_mbx.c:271-540 | every interleaving of PF and VF has a history in which each message is written at once, each read returns as many words as asked for (at most the mailbox) of the buffer at that moment, and each check sees exactly the notifications raised since the last check for them |
| `Mailbox.Exclusion` | ixgbe-3.18.7/src/ixgbe_mbx.c:366-378 | at most one side is past its lock, the cached status never holds an ownership flag, and an idle side holds no lock |
| `Mailbox.ReadsLastMessage` | ixgbe-3.18.7/src/ixgbe_mbx.c:583-676 | a read of n words, no more than the last completed message has, returns its first n words, never a mixture |
| `Mailbox.NeverLost` | ixgbe-3.18.7/src/ixgbe_mbx.c:271-300 | a notification, to either side, is reported by the next check for it, whatever other reads of the register come between |
| `Mailbox.ReportedOnce` | ixgbe-3.18.7/src/ixgbe_mbx.c:289-358 | after a check the same flag is reported again only if it was raised again |
| `MailboxCalls.UpIsDue` | ixgbe-3.18.7/src/ixgbe_mbx.c:389-676 | in every run a notification flag is up if and only if a step of the run owed it (a finished write or read of the PF or of the VF, the end of a reset) and no check since has taken it |
| `MailboxCalls.VfLearns` | ixgbe-3.18.7/src/ixgbe_mbx.c:309-338 | a VF that checks for a message, or an acknowledgement, is told yes if and only if the PF has finished a write, or a read, since the VF last asked |
| `MailboxCalls.VfLearnsReset` | ixgbe-3.18.7/src/ixgbe_mbx.c:347-358 | a check for a reset says yes if and only if one is over since the VF last asked or one is indicated now |
| `MailboxCalls.PfLearns` | ixgbe-3.18.7/src/ixgbe_mbx.c:485-540 | the first access of a PF check finds the flag if and only if the VF has finished a write, or a read, since the PF last cleared it; otherwise the check is over and says no |
| `MailboxCalls.PfCallCompletes` | ixgbe-3.18.7/src/ixgbe_mbx.c:583-676 | a PF call that fits and does not find the VF in possession is completed within seven of its own turns and one for each word, whatever the VF does meanwhile |
| `MailboxCalls.VfCallCompletes` | ixgbe-3.18.7/src/ixgbe_mbx.c:366-451 | the same for a call of the VF |
| `MailboxCalls.PfFinished` | ixgbe-3.18.7/src/ixgbe_mbx.c:612-676 | a finished write of the PF has put the whole message into the buffer and left the rest alone, a finished read returned the words asked for and changed nothing |
| `MailboxCalls.VfFinished` | ixgbe-3.18.7/src/ixgbe_mbx.c:389-451 | the same for the VF |
| `MailboxCalls.PfCallTurnedAway` | ixgbe-3.18.7/src/ixgbe_mbx.c:583-601 | a PF call that finds the VF in possession is over after its second turn and has changed nothing |
| `MailboxCalls.VfCallTurnedAway` | ixgbe-3.18.7/src/ixgbe_mbx.c:366-378 | a VF call that finds the PF in possession is over after its second turn and has changed neither buffer nor pending notifications |
| `QueueVectors.GreedyIsShare` | ixgbe-3.18.7/src/ixgbe_lib.c:1065-1080 | dividing what is left by the vectors left and rounding up gives each vector exactly the size of its residue class |
| `QueueVectors.ClassIsResidue` | ixgbe-3.18.7/src/ixgbe_lib.c:845-1001 | the strided indices of a vector are exactly the rings that are its number modulo the vectors |
| `QueueVectors.AllTaken` | ixgbe-3.18.7/src/ixgbe_lib.c:1065-1080 | after the last vector no ring is left |
| `QueueVectors.Adapter.AllocVector` | ixgbe-3.18.7/src/ixgbe_lib.c:845-1001 | on success the vector owns and lists exactly the strided rings, on failure nothing changed |
| `QueueVectors.Adapter.FreeVector` | ixgbe-3.18.7/src/ixgbe_lib.c:1015-1036 | exactly the rings of the vector lose their pointer |
| `QueueVectors.Adapter.AllocVectors` | ixgbe-3.18.7/src/ixgbe_lib.c:1044-1113 | success exactly when every allocation succeeds; then every ring is with one existing vector and no index beyond is touched, otherwise every ring pointer is cleared |
| `RingMap.AlignIs` | ixgbe-3.18.7/src/ixgbe_lib.c:79-93 | the C mask expression rounds a register index up to the next pool |
| `RingMap.MovedIsReg` | ixgbe-3.18.7/src/ixgbe_lib.c:79-93 | the align-and-step loop puts ring i at (offset + i / tcs) * q + i mod tcs |
| `RingMap.RegistersDistinct` | ixgbe-3.18.7/src/ixgbe_lib.c:76-127 | different rings, FCoE rings included, never share a register and all are below 128 |
| `RingMap.SetQueues` | ixgbe-3.18.7/src/ixgbe_lib.c:369-455 | the chosen layout fits the card if and only if the first pool exists, the counts being taken in 16 bits; it has the most pools that are wanted and fit, then with FCoE the most separate FCoE rings that are wanted and still fit, and FCoE uses those, or the ring of its traffic class if there are none |
| `RingMap.CacheRings` | ixgbe-3.18.7/src/ixgbe_lib.c:76-127 | for every configuration whose first pool exists the computed registers are distinct and in range, and every ring FCoE uses, its own or the shared one, lies in the FCoE traffic class of its pool |
| `FcoeDdp.CutEntry` | ixgbe-3.18.7/src/ixgbe_fcoe.c:206-242 | cutting one scatter entry succeeds exactly when it may be added, and adds its bytes once and in order |
| `FcoeDdp.Setup` | ixgbe-3.18.7/src/ixgbe_fcoe.c:205-260 | the split succeeds exactly on acceptable lists, and then the buffers list the bytes of the scatter list once each and in order, with at most 256 aligned buffers and a last size below 4096; the extra buffer carries no data |
| `FlowHash.SignatureHash` | ixgbe-3.18.7/src/ixgbe_82599.c:1492-1547 | for every pair of keys and every input the combined computation returns the two separately defined hashes side by side and nothing else: bit j of a hash is the parity of what the 32 bits of the key select from the window at bit j of one stream |
| `FlowHash.PerfectHash` | ixgbe-3.18.7/src/ixgbe_82599.c:1620-1693 | the stream is masked in place and its last half dword becomes 13 bits of the hash of the masked stream: every set bit of dwords 1 to 10 turns the hash by the key repeated dword after dword, those of dword 0 by two places half a dword apart |
| `FlowHash.SetBits` | ixgbe-3.18.7/src/ixgbe_82599.c:1464-1481 | the hash is the sum of what its set input bits turn: a bit of the common dword the bits of the key at its place minus j, modulo 32, a bit of the flow dword those at its two places inside the key |
| `FlowHash.StreamHash` | ixgbe-3.18.7/src/ixgbe_82599.c:1640-1655 | the other dwords may be folded into one before they are hashed |
| `FlowHash.BothHashes` | ixgbe-3.18.7/src/ixgbe_82599.c:1650-1692 | the signature computation on the masked first dword and the exclusive or of the others agrees in its low half with the 13 bits the perfect computation stores |
| `FlowHash.WindowLinear` | ixgbe-3.18.7/src/ixgbe_82599.c:1464-1481 | the hash of a difference of inputs is the difference of the hashes |
| `FlowHash.Collide` | ixgbe-3.18.7/src/ixgbe_82599.c:1600-1607 | two flows fall into the same bucket exactly when their difference hashes to zero |
| `FlowHash.HashedOnce` | ixgbe-3.18.7/src/ixgbe_82599.c:1609-1619 | with a mask that hides the hash field, hashing a stream that already carries its hash changes nothing |

## Left out

- The writers and the driver of the recorder are steps on values, not processes with mapped memory; a step joins neighbouring accesses to one bucket (the fields of the header, the read of the last mark and the clearing of the count); file errors, the timestamp field and throughput output are not modelled.
- The recorder model abstracts a block to its count and copied pieces; the bytes inside a block are modelled in `Layout` and `Capture`, with the 4096 slots and the stride the readers fix, and `RunReadback` joins the two through a given reading of the pieces.
- `mmap`, path names, configuration parsing, sleeps and printing.
- The EEPROM model has no clock edges, no acquire or ready failures, and no opcodes other than the address bit of small chips.
- The VLAN model keeps the pool and valid bits of the registers and drops reserved bits; pools are below 64 as on the card.
- `ixgbe_set_vmdq_san_mac`, secondary unicast lists and multicast tables.
- Semaphore resources are the five bits of the 82599; retry counts and delays are not modelled, any poll may time out at any try; the release of both semaphores after a timeout or a failed poll is one step, while a regular release is a read and a write.
- The mailbox of one VF: the bits of the others in the PF's registers, the reset bits VFLRE and RVFU, the polling loops around the checks and the statistics are not modelled.
- The 82598 branch of the ring mapping, and the RSS-only and DCB-only mappings, which add nothing harder.
- NUMA node choice, affinity and interrupt throttling in the vector allocation.
- The DDP context table, locking and DMA mapping around the scatter list split.
- Programming the Flow Director registers and its rule list.
- PHY and SFP identification, link setup, reset sequences, flow control and DCB credit rules.
