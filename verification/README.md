# Proofs about the MORI firmware's update and transfer core

This project models the parts of the firmware in which a mistake costs a cartridge, a chip or a
file, and proves what they promise. It is written in Dafny 4.11; `dafny verify dfyconfig.toml`
checks all of it, and no proof needs more than the default time limit.

## What is modelled

**The AG32 firmware update, end to end.** `BatchFormat` parses the batch file,
`Crc32` is its checksum, `Packing` counts its bytes. `McuDebug` drives the companion chip over
serial wire, the debug module and its system bus; every transfer may fail in any way an oracle
chooses. `DebugModule`, `SystemBus` and `FlashDevice` are the far end: SW-DP and access port
(Arm ADIv5.2, chapter B4), debug module and system bus access (RISC-V External Debug Support
0.13.2, sections 3.9 and 3.12), and a NOR flash controller with its locks, modes and start bit.
`Programmer`, `BatchRun` and `BatchJob` are the update job, `SpiOwnership` the pins it borrows,
and `Recovery` any sequence of jobs and probes. `BatchEffects` says what a batch does to memory
on values alone; the job is proved to refine it. `BatchEncoding` builds batch files, so that the
parser's language is inhabited and a wrong one can be shown.

The device comes in two strengths at once. An unsound controller may leave anything in the cells
it was aimed at, fake its status and ignore keys; safety and soundness are proved against that.
A sound one behaves like NOR flash; completeness is proved against that.

**The handoff between update jobs, USB pass-through and burn tasks** (`Handoff`, `HandoffCalls`):
an interleaving of single accesses to the shared flags and locks by any number of callers.

**The CPLD stream** (`CpldPackets`, `CpldDevice`, `CpldTransport`): packets, checksums and status
polling against a model of the stream engine whose wire may damage bytes.

**The link to the companion MCU** (`McuTransport`), **the settings file** (`Ini` the saver,
`IniReading` the loaders, `SystemSettings` the requests), **UTF-8**
(`Utf8`), **the file list's window** (`FileWindow`) and **SMB favourites, paths and discovery**
(`Smb`).

`Bytes`, `Algebra`, `NorMemory`, `FlashSteps` and `Errors` hold what the others share.

## What was found

Four things that one might expect to hold do not. Each has a proof that it fails, and the exact
condition under which it holds.

1. *A successful update may leave a record erased.* Records may not overlap in bytes, but a
   record without erase in the tail of a sector may be followed by one that erases that sector.
   Every step verifies and the job succeeds, yet the first record is gone
   (`WipedRecord.RecordWiped`). All records are stored at the end exactly when no erase reaches
   back over an earlier record's bytes other than all-ones ones (`BatchEffects.StoredIff`).
2. *The address cache may go stale.* When the write of the address register works and only its
   confirmation is lost, the driver keeps its old cache entry while the target has moved on: of two
   register writes the first fails, the second succeeds, and the second value is in the first
   register (`CacheCoherence.WrongRegister`). Over any run of accesses after opening a session, one
   goes to a wrong register exactly when an earlier address was lost in this way, none has been
   sent successfully since, and the access names the cached register
   (`CacheCoherence.MissesIff`); up to the first lost address every access reaches its own
   (`CacheCoherence.ReachesUntilLost`). A failed data access does no harm.
3. *A start bit already standing defeats the guard.* Before the recovery block is raised, an
   erase writes its mode into the control register and preserves the start bit. If that bit stood
   on entry, this write itself erases, with the block still down and nothing reported: for every
   idle chip in that state there is a job that gets there without a failure
   (`StandingStart.Run`, `StandingStart.EraseUnguarded`). The write is guarded exactly when no
   start bit stood or the block was already up (`Programmer.Programmer.PrepareErase`). The same
   decides whether all destructive writes of a job were guarded, for every job that succeeds or
   reports destructive work and finds no unfinished work without the block
   (`BatchJob.ProgramFile`).
4. *A settings save may report success and lose the update.* There are three ways, each with a
   file on which a request that the firmware's savers do make is lost: a zero in the file ends what
   is written (`SystemSettings.ZeroUpdateLost`); a line too long for the saver still reaches the
   loaders (`SystemSettings.VolumeUpdateLost`); and a line whose new text no longer fits is copied
   unchanged although its key counts as found (`SystemSettings.ScreenUpdateLost`). Exactly when a
   value is read back, on any file and after successful and failed saves, is
   `IniReading.ReadBackIff` for the loaders that take the last line and
   `IniReading.FirstReadBackIff` for the one that stops at the first. On a file without
   zeros, with lines of at most 191 characters and no updated key repeated, the save succeeds and
   everything is read back (`SystemSettings.SettingsReadBack`).

## Model

| member | source | states |
|---|---|---|
| `Crc32.UpdateBitwise` | main/ag32_batch_format.c:19-30 | the masked bit loop computes the defined CRC of the bytes, from any starting register |
| `Crc32.UpdateConcat` | main/ag32_batch_format.c:19-30 | the CRC over two pieces in turn is the CRC of their concatenation, complements included |
| `Crc32.StepInjective` | main/ag32_batch_format.c:24-26 | one bit step loses nothing: two registers with equal successors are equal |
| `Crc32.StepsXor` | main/ag32_batch_format.c:24-26 | any number of bit steps is linear over exclusive or |
| `Crc32.RunInjective` | main/ag32_batch_format.c:19-30 | over fixed data different registers stay different |
| `Crc32.BurstChangesRegister` | main/ag32_batch_format.c:19-30 | equal-length inputs that differ only within four consecutive bytes always end in different registers |
| `Crc32.SealedIffResidue` | main/ag32_batch_format.c:95-97 | a frame carries its right CRC exactly when running over frame and CRC together ends in one fixed residue |
| `Crc32.BurstBreaksSeal` | main/ag32_batch_format.c:95-97 | changing one to four consecutive bytes of a frame anywhere, even across the CRC field, always breaks its CRC |
| `Crc32.ChecksumByTable` | shared/ag32_mcu_protocol.h:115-131 | the two-nibble table form used on the MCU and CPLD links computes the same CRC as the bit loop |
| `Crc32.CheckValue` | main/ag32_batch_format.c:19-30 | the CRC is that of IEEE 802.3: over the digits 1 to 9 it has the published value |
| `BatchFormat.OverlapIsNotDisjoint` | main/ag32_batch_format.c:50-59 | the overlap test is true exactly for ranges that are not apart, in either order |
| `BatchFormat.DecodeRecord` | main/ag32_batch_format.c:76-125 | a header is taken exactly when it is sealed and describes a supported record; the fields returned are those of the header |
| `BatchFormat.NextChecked` | main/ag32_batch_format.c:145-194 | one more record: success extends the chain and every batch that starts like this one; failure means no batch does |
| `BatchFormat.CompletenessProblem` | main/ag32_batch_format.c:197-214 | accepts exactly the record lists that have options and flash, end with the MCU program, and carry run flags on the last record only |
| `BatchFormat.Parse` | main/ag32_batch_format.c:127-222 | succeeds with the manifest of the batch in the file; fails only when no list of records makes the file a batch |
| `BatchFormat.BatchUnique` | main/ag32_batch_format.c:127-222 | a file is a batch in at most one way |
| `BatchFormat.BatchFileSize` | main/ag32_batch_format.c:145-195 | the file is payload bytes plus 256 per record, with no gap and nothing left over |
| `BatchFormat.CorruptHeaderRejected` | main/ag32_batch_format.c:95-97 | damaging one to four consecutive bytes of one header leaves a file that is no batch at all |
| `Packing.DisjointTotal` | main/ag32_batch_format.c:168-175 | disjoint ranges together cover exactly the sum of their sizes |
| `Packing.PackingBound` | main/ag32_batch_format.c:168-194 | flash payloads total at most 1 MiB, so the byte count cannot wrap; all records but the first are flash |
| `BatchJob.CapAdmitsBatches` | main/ag32_batch_programmer.c:412-418 | the programmer's size limit turns away no file that is a batch |
| `BatchEncoding.EncodedIsBatch` | main/ag32_batch_format.c:76-222 | encoding any acceptable plan gives a batch with exactly those records and payloads, and no other reading |
| `BatchEncoding.HeaderFields` | main/ag32_batch_format.c:76-125 | decoding an encoded header gives back the plan, with its seal intact |
| `NorMemory.PatchPadded` | main/ag32_batch_programmer.c:310-320 | padding the last word with ones does not show in the memory |
| `NorMemory.PatchSkipped` | main/ag32_batch_programmer.c:315-320 | a skipped all-ones word would have changed nothing |
| `NorMemory.PaddedDisjoint` | main/ag32_batch_programmer.c:285-332 | word-aligned ranges that share no byte share no padded word either |
| `McuDebug.Link.SwdTransfer` | main/mcu_debug.c:140-198 | gives up exactly after 64 waits; any answer but a wait is that of a single transfer, and only waits are retried |
| `McuDebug.Link.ApSelect` | main/mcu_debug.c:210-221 | on success the bank is selected; whatever fails, the SELECT cache is unknown or right |
| `McuDebug.Link.ApWrite` | main/mcu_debug.c:223-233 | success means the write arrived; an error leaves the target either as before or written, never otherwise |
| `McuDebug.Link.ApRead` | main/mcu_debug.c:235-243 | success returns the register as it was; an error leaves the target as before or after that one read |
| `McuDebug.Link.DmiSetAddress` | main/mcu_debug.c:352-363 | the address register afterwards, from cache and old address; a failed write keeps the cache |
| `McuDebug.Link.DmiWriteRegister` | main/mcu_debug.c:371-375 | with a sound cache success writes exactly the register asked for; the cache stays sound through every outcome, failed data included, except an address that was lost |
| `McuDebug.Link.DmiReadRegister` | main/mcu_debug.c:365-369 | with a sound cache success returns the register asked for, with its side effect; the cache stays sound through every outcome but a lost address |
| `McuDebug.Link.SbWait` | main/mcu_debug.c:397-412 | returns only with the bus idle and the error flags as they are; only time has passed, within a fixed number of transfers |
| `McuDebug.Link.SbFinish` | main/mcu_debug.c:420-427 | success means the bus is idle and free of errors: a bus error is never reported as success |
| `McuDebug.Link.WriteMemory` | main/mcu_debug.c:560-597 | a successful 2- or 4-byte write has changed the bus target exactly as a write of these bytes does, the hart untouched; failure leaves it unchanged or so written; bounded in transfers |
| `McuDebug.Link.ReadMemory` | main/mcu_debug.c:547-585 | a successful read returns the addressed bytes and only reads; on a clean link it always succeeds |
| `McuDebug.Link.WaitDmStatus` | main/mcu_debug.c:377-395 | success means the hart has reached the awaited state; nothing but the hart moves meanwhile; a hart that honours a request within 1000 polls is waited for |
| `McuDebug.Link.Halt` | main/mcu_debug.c:506-517 | success means the hart is halted; after any failure a resume is still possible |
| `McuDebug.Link.Resume` | main/mcu_debug.c:519-532 | success means the hart runs free, with no halt request standing; on an undisturbed link with a hart that answers within the polls it always succeeds |
| `McuDebug.Link.SystemReset` | main/mcu_debug.c:534-545 | success means reset registers and a free hart; memory is as it was either way |
| `McuDebug.Link.SwdConnect` | main/mcu_debug.c:263-330 | success means power-up was requested and acknowledged; on an undisturbed line it succeeds; it ends within a fixed number of transfers and leaves the target behind the port alone |
| `McuDebug.Link.ApPrepareDmi` | main/mcu_debug.c:332-350 | success leaves automatic address increment off and the address cache unknown |
| `McuDebug.Link.SessionBegin` | main/mcu_debug.c:462-493 | the session is open exactly on success, then with sound caches; opening it changes nothing behind the port |
| `CacheCoherence.TarKeptIff` | main/mcu_debug.c:332-350 | the address register stays put over data accesses exactly when automatic increment is off |
| `CacheCoherence.StepAgrees` | main/mcu_debug.c:352-375 | one access leaves cache and target address agreeing unless it loses its address; then they disagree |
| `CacheCoherence.DisagreesIff` | main/mcu_debug.c:352-375 | between accesses a known cache is wrong exactly when an address was lost and none sent since |
| `CacheCoherence.MissesIff` | main/mcu_debug.c:352-375 | an access goes to a wrong register exactly when an earlier address was lost, none has been sent successfully since, and it names the cached register |
| `CacheCoherence.ReachesUntilLost` | main/mcu_debug.c:352-375 | up to the first lost address every access that succeeds did what was asked, at its own register |
| `CacheCoherence.RunAccesses` | main/mcu_debug.c:352-375 | any sequence of driver accesses over any wire is such a run, so the equivalence holds of it |
| `CacheCoherence.RunSession` | main/mcu_debug.c:462-493 | so is any sequence after a session has been opened |
| `CacheCoherence.WrongRegister` | main/mcu_debug.c:223-233 | the driver itself: one garbled confirmation, and a write that succeeds has gone to the wrong register |
| `SystemBus.WriteSequence` | main/mcu_debug.c:414-427 | the three register writes of a bus write perform exactly one access, and none when the address is refused |
| `SystemBus.ReadSequence` | main/mcu_debug.c:414-427 | the register writes of a bus read leave exactly the addressed bytes in the data register |
| `Programmer.Programmer.Get` | main/ag32_batch_programmer.c:96-99 | success returns the addressed word of the target and does only what reading it does |
| `Programmer.Programmer.Put` | main/ag32_batch_programmer.c:101-104 | success means the write was performed, failure that it was or was not; each attempt is on the log with both safety flags of that moment |
| `Programmer.Programmer.WaitReady` | main/ag32_batch_programmer.c:106-125 | success means idle and free of error flags; waiting changes nothing else |
| `Programmer.Programmer.ClearStatus` | main/ag32_batch_programmer.c:127-134 | clears the error flags and no memory cell |
| `Programmer.Programmer.UnlockController` | main/ag32_batch_programmer.c:136-149 | success means the lock bit is down; nothing but lock bits moves |
| `Programmer.Programmer.Unlock` | main/ag32_batch_programmer.c:136-166 | success means the option lock is open as well; nothing but lock bits moves |
| `Programmer.Programmer.SetControlBits` | main/ag32_batch_programmer.c:168-182 | a read-modify-write of the control register: other bits keep their value; success logs exactly this one write, and exposes the target exactly when it carries a start bit with the block down |
| `Programmer.Programmer.EraseOperation` | main/ag32_batch_programmer.c:184-218 | whatever fails, only the one sector, or the option page, may change; block and report go up before the start; a sound device erases exactly that |
| `Programmer.Programmer.PrepareErase` | main/ag32_batch_programmer.c:191-201 | at most what the mode selects may change, and on a sound device with no start bit standing nothing; success leaves the controller in this one mode; success exposes the target exactly when a start bit stood with the block down, and on a sound device that already erases |
| `Programmer.Programmer.StartErase` | main/ag32_batch_programmer.c:202-210 | block and report are up before the start bit is sent; only what the mode selects may change |
| `Programmer.Programmer.FinishErase` | main/ag32_batch_programmer.c:212-217 | no cell moves; on a sound device the start bit is down again |
| `Programmer.Programmer.EraseRange` | main/ag32_batch_programmer.c:220-242 | touches only the sectors that meet the range; a sound device erases exactly those |
| `Programmer.Programmer.ProgramOptionRecord` | main/ag32_batch_programmer.c:250-283 | flash stays; success leaves no programming mode on; a sound device has the payload programmed over the page, skipped half words included |
| `Programmer.Programmer.ProgramFlashRecord` | main/ag32_batch_programmer.c:285-332 | whatever fails, nothing outside the record's own words changes; a sound device has exactly the payload programmed; success counts every byte and leaves no programming mode on |
| `Programmer.Programmer.ProgramOptionHalf` | main/ag32_batch_programmer.c:267-275 | one half word, sent or skipped: on a sound device exactly these two bytes are programmed |
| `Programmer.Programmer.ProgramWord` | main/ag32_batch_programmer.c:310-321 | one word, padded or skipped: on a sound device exactly the remaining bytes are programmed |
| `Programmer.Programmer.ProgramPayload` | main/ag32_batch_programmer.c:302-328 | chunk by chunk, the whole payload is programmed and counted; the control register keeps its mode |
| `Programmer.Programmer.VerifyChunk` | main/ag32_batch_programmer.c:353-367 | success means the target holds exactly this chunk; on a working link failure means it does not |
| `Programmer.Programmer.VerifyRecord` | main/ag32_batch_programmer.c:334-374 | success means the target holds exactly the payload, byte for byte, and counts it; on a working link failure means it does not |
| `StandingStart.EraseUnguarded` | main/ag32_batch_programmer.c:184-206 | with a start bit standing, a job on an undisturbed link and a sound controller reaches its first erase without failure, and before the block or the report goes up the option page is erased |
| `StandingStart.Run` | main/ag32_batch_programmer.c:184-206 | there is such a job for every idle chip of the right kind whose start bit stands |
| `BatchRun.ProcessRecord` | main/ag32_batch_programmer.c:486-520 | success means this record is stored, whatever the device does; nothing outside its sectors and words changed; on a sound device the memory is exactly that of the record's effect |
| `BatchRun.ProcessBatch` | main/ag32_batch_programmer.c:484-521 | success means every record not reached by a later erase is stored and all bytes are counted; on a sound device it succeeds exactly when each record verifies in turn |
| `BatchRun.AllHeld` | main/ag32_batch_programmer.c:484-521 | if no erase reaches back, all records are stored together at the end |
| `BatchEffects.FootprintSpares` | main/ag32_batch_programmer.c:220-242 | disjoint records whose erases stay clear do not disturb each other, padding included |
| `BatchEffects.CellAfter` | main/ag32_batch_programmer.c:220-242 | what each cell of a record holds after all later records: its old value, or ones where one of them erased it |
| `BatchEffects.RetainedIff` | main/ag32_batch_programmer.c:484-521 | a record stored in its turn is stored at the end exactly when every later erase finds only ones to erase in it |
| `BatchEffects.StoredIff` | main/ag32_batch_programmer.c:484-521 | a batch that verified step by step is stored in full exactly when no erase harmed an earlier record |
| `BatchEffects.ErasedRecordRetained` | main/ag32_batch_programmer.c:184-332 | an erasing record is always stored exactly in its turn |
| `BatchEffects.ErasingBatchVerifies` | main/ag32_batch_programmer.c:334-374 | a batch whose records all erase never fails verification on a sound device |
| `BatchEffects.UnerasedRetainedIff` | main/ag32_batch_programmer.c:285-332 | a record without erase verifies exactly when no bit has to go from zero to one |
| `WipedRecord.WipingIsBatch` | main/ag32_batch_format.c:113-118 | the wiping layout is a batch the parser accepts |
| `WipedRecord.RecordWiped` | main/ag32_batch_programmer.c:229-232 | on an erased target every step of it verifies and its second record is not stored at the end |
| `BatchJob.LoadBatch` | main/ag32_batch_programmer.c:407-445 | success hands on the manifest of the image; failure means it could not be loaded or is no batch |
| `BatchJob.Connect` | main/ag32_batch_programmer.c:447-466 | the session is open exactly when a halt was asked for; success means a halted core; failing to take the pins leaves them as they were or blocked |
| `BatchJob.Prepare` | main/ag32_batch_programmer.c:467-482 | success means the expected chip with open locks; no cell moves |
| `BatchJob.FinishUpdate` | main/ag32_batch_programmer.c:523-530 | the block comes down exactly on a successful reset, with the core free |
| `BatchJob.Update` | main/ag32_batch_programmer.c:467-530 | success means the batch is held, counted twice over and the target reset; on a sound device it succeeds exactly when the batch verifies |
| `BatchJob.CleanUp` | main/ag32_batch_programmer.c:532-573 | with the pins taken and the block down, they go back exactly after success, or when nothing destructive began, no recovery was pending and the core was resumed if it was halted, and giving back works; on an undisturbed link the core is resumed; a failed step is reported; an earlier error is kept; a block stays |
| `BatchJob.ProgramFile` | main/ag32_batch_programmer.c:376-573 | over every pattern of failures: success means a delivered batch; the block comes down only on success; the pins, once taken, return exactly after success or an unspoilt failure when giving back works; on a reachable target a failure before anything destructive resumes the core; with the block kept up over unfinished work, the destructive writes of a job all found the block up exactly when no start bit stood unguarded on entry; all are reported if none stood; flash outside the batch is untouched; a clean job succeeds exactly when the batch verifies |
| `BatchJob.DeliveredStores` | main/ag32_batch_programmer.c:376-573 | after success every record reads back as its payload if no erase reached back; programmed, verified and payload bytes agree with the file size |
| `BatchJob.CleanJobStores` | main/ag32_batch_programmer.c:376-573 | a clean job of a batch whose records all erase, none reaching back, succeeds and stores every record |
| `SpiOwnership.SpiOwner.EnterSwdMode` | main/burner/core/burner_spi_swd.inc:2-33 | the lock is held exactly on success; a failed rollback raises the block |
| `SpiOwnership.SpiOwner.LeaveSwdMode` | main/burner/core/burner_spi_swd.inc:35-58 | the pins return exactly when asked for, not blocked and every step works; otherwise they stay and a failure raises the block |
| `Recovery.RunProbe` | main/burner/http/ws_server_http_maintenance.c:286-300 | a probe keeps the target secure; it is refused while recovery is pending and otherwise succeeds exactly when its steps do, with the pins back exactly when giving back works |
| `Recovery.RunJob` | main/ag32_batch_programmer.c:589-623 | one job keeps the target secure whatever fails; success means a delivered batch |
| `Recovery.RunAll` | main/ag32_batch_programmer.c:391-573 | over any sequence of jobs and probes: no destructive write with the block down, a raised block comes down only with a successful job, and after a last successful job its batch is delivered |
| `Recovery.PinsInUse` | main/ag32_batch_programmer.c:532-561 | whenever the pins are in SPI use the target is complete, its core free and no block stands |
| `Handoff.StepInv` | main/usb_msc_tf.c:140-177 | every single step of every caller and task keeps the invariant of flags, locks and owners |
| `Handoff.Exclusive` | main/ag32_batch_programmer.c:637-667 | in every reachable state a job at work excludes burn tasks, installed USB storage and anyone installing or removing it; while nobody switches USB, its flag is up exactly when the driver is installed |
| `HandoffCalls.CallOutcome` | main/ag32_batch_programmer.c:637-667 | however others interleave, a finished call has done what it was made for (job notified, driver installed or removed, burn task created) exactly when none of its own looks found a reason against it |
| `HandoffCalls.JobRuns` | main/ag32_batch_programmer.c:589-623 | the job task wakes only when notified and has run the job before it sleeps again |
| `HandoffCalls.Decides` | main/usb_msc_tf.c:140-177 | one step of an undecided call keeps it undecided, or decides it one way: done, or declined for a reason it saw |
| `Handoff.NoDeadlock` | main/usb_msc_tf.c:140-186 | whenever work is pending someone can move, so the order of the three locks cannot deadlock |
| `Handoff.WorkShrinks` | main/ag32_batch_programmer.c:589-677 | every step other than a new call leaves strictly less to do |
| `Handoff.ComesToRest` | main/burner/core/burner_task.c:240-318 | from every reachable state all calls and tasks can finish, within a computed number of steps |
| `CpldPackets.PacketsPartition` | main/bacon_cpld_transport.c:143-150 | packets cover the stream in order without gap or overlap, keep inside program pages, are whole words on the wide bus, fit the wire buffer and could not carry more |
| `CpldPackets.SentIsAccepted` | main/bacon_cpld_transport.c:168-176 | a packet that arrives as sent is accepted with its payload |
| `CpldPackets.MildDamageCaught` | main/bacon_cpld_transport.c:156-167 | damage of up to four consecutive bytes on the wire never gets a wrong payload accepted |
| `CpldDevice.DescriptorRoundTrip` | shared/bacon_cpld_protocol.h:35-45 | the stream engine reads every valid descriptor back as the request it was made from |
| `CpldDevice.MaskTest` | example/logic/bacon_cpld_stream.v:303-309 | the engine's bit test of a page mask admits exactly the powers of two |
| `CpldTransport.Transport.ModeKey` | main/bacon_cpld_transport.c:24-30 | a key that got through enters or leaves the stream mode; it is always on record as sent |
| `CpldTransport.Transport.ReadStatus` | main/bacon_cpld_transport.c:32-53 | success returns what the engine shows, and only from an engine in its mode without error |
| `CpldTransport.Transport.Enter` | main/bacon_cpld_transport.c:55-66 | success means a fresh engine in its mode, after leaving, release and entry; on a quiet bus it succeeds exactly when the engine is there |
| `CpldTransport.Transport.Probe` | main/bacon_cpld_transport.c:68-78 | the availability cache says present only if an engine answered, and turns to missing only if none is there or the bus said so; the mode is left again; on a quiet bus it is right |
| `CpldTransport.Transport.WaitFlag` | main/bacon_cpld_transport.c:80-99 | success means the awaited flag is up, for the final one that all bytes are completed, and no cancel between the polls; it gives up only after all polls it affords |
| `CpldTransport.Transport.Configure` | main/bacon_cpld_transport.c:137-142 | success means the engine runs, and with mild damage only: runs this very request |
| `CpldTransport.Transport.WritePacket` | main/bacon_cpld_transport.c:168-178 | success means exactly the wire form of this stretch of data went out; with mild damage only, engine and firmware agree on one more packet or the engine has raised an error |
| `CpldTransport.Transport.Receive` | main/bacon_cpld_transport.c:156-167 | success means what came over the bus, behind its lead, passes its CRC; in quiet conditions a receive succeeds |
| `CpldTransport.Transport.ReadPacket` | main/bacon_cpld_transport.c:156-178 | under any damage: success means the bytes copied are those of a packet that passed its CRC, and that packet is the answer the engine gave at this very exchange, as the bus carried it; a failure copies nothing; with mild damage only they are the cartridge's |
| `CpldTransport.Transport.MovePacket` | main/bacon_cpld_transport.c:156-179 | one packet of the size due carries its bytes and passes its check; an incoming one is this exchange's answer |
| `CpldTransport.Transport.NextPacket` | main/bacon_cpld_transport.c:143-179 | one round: readiness, one packet, cancel poll; it is counted exactly when it went through |
| `CpldTransport.Transport.MovePackets` | main/bacon_cpld_transport.c:143-179 | under any damage: the buffer is the payloads of the packets joined, each of which passed its check; incoming ones are the engine's answers in exchanges one after another, with nothing but time between; with mild damage only, engine and firmware agree on all bytes |
| `CpldTransport.Transport.TryTransfer` | main/bacon_cpld_transport.c:101-194 | success with the stream used means the engine completed exactly this size and, under any damage, the data is the payloads of the checked packets joined, incoming ones being answers exchanged in order during this call; with mild damage only all bytes are right; unused means data untouched; every key sequence ends with leaving; no packet of a success was followed by a cancel; on a quiet bus automatic choice uses the stream exactly when the engine is there, then moves all data, and remembers which |
| `McuTransport.Link.CommandInMode` | main/ag32_mcu_transport.c:125-221 | success means a request sent on an idle link and the MCU's sound answer to it, read once announced, with this number and operation and fitting the caller's buffer; on a calm link it succeeds |
| `McuTransport.Link.ReadStatus` | main/ag32_mcu_transport.c:43-60 | success exactly for a status in the known form from an MCU in its mode |
| `McuTransport.Link.WaitReady` | main/ag32_mcu_transport.c:82-123 | success means the last status read was the one waited for, without error; it gives up only after all polls it affords |
| `McuTransport.Link.Negotiate` | main/ag32_mcu_transport.c:223-250 | the mode is left again; without success no capability is claimed; on a calm link exactly what the MCU offers is claimed |
| `McuTransport.Link.TryCommand` | main/ag32_mcu_transport.c:314-364 | unless it opened a stream, the last key sent is the exit key; success means this one command was carried out by an MCU that claims what is required; on a calm link it succeeds exactly when the MCU offers that |
| `McuTransport.Link.TryStream` | main/ag32_mcu_transport.c:366-429 | the last key sent is the exit key on every path; success means one opening command from which the receiver reads this operation, write buffer, address and size, then all bytes moved in order, in blocks without gap or overlap; on a calm link it succeeds exactly when streams and the operation are offered |
| `McuTransport.Link.TryRead` | main/ag32_mcu_transport.c:431-473 | success means the buffer holds exactly what the one command, whose request names this address and size, or the stream delivered; bytes past the request are untouched; on a calm link it succeeds exactly when offered |
| `McuTransport.Link.TryWrite` | main/ag32_mcu_transport.c:475-517 | success means commands whose requests carry exactly the data in order, each at the address of its position, all counted by the MCU; on a calm link it succeeds exactly when offered |
| `McuTransport.Link.TryProgram` | main/ag32_mcu_transport.c:519-541 | success means the whole data went out in one stream opened for this address, size and write buffer; on a calm link it succeeds exactly when offered |
| `McuTransport.Link.NextNumber` | main/ag32_mcu_transport.c:159-162 | command numbers count up, wrap from the largest to one, are never zero and never repeat back to back |
| `McuTransport.DescriptorOpens` | main/ag32_mcu_transport.c:381-384 | the receiver of a stream descriptor reads operation, write buffer, address and size as given |
| `McuTransport.ReadNames` | main/ag32_mcu_transport.c:449-460 | the receiver of a read request reads address and size as given |
| `McuTransport.WriteCarries` | main/ag32_mcu_transport.c:500-505 | the receiver of a write request reads address and bytes as given |
| `McuTransport.CodesDiffer` | shared/ag32_mcu_protocol.h:33-51 | different operations have different codes |
| `McuTransport.UnitsMean` | main/ag32_mcu_transport.c:470-514 | ROM addresses count 16-bit words, all others bytes |
| `McuTransport.CalmExists` | main/ag32_mcu_transport.c:125-221 | calm links exist, whatever the MCU offers |
| `McuTransport.CoversInOrder` | main/ag32_mcu_transport.c:481-514 | consecutive write commands are consecutive on the device, counted in words for ROM |
| `Utf8.DecodeEncode` | main/ui.c:3074-3114 | decoding an encoded scalar value gives it back, whatever follows |
| `Utf8.EncodeDecode` | main/ui.c:2177-2227 | encoding what was decoded from a valid sequence gives its bytes back |
| `Utf8.NextAgrees` | main/ui.c:2177-2227 | the decoder takes a sequence exactly where the length function sees one, and a question mark for one byte elsewhere |
| `Utf8.WellFormedIff` | main/ui.c:2981-3021 | text is accepted exactly when it encodes some list of nonzero scalar values (RFC 3629, section 4) |
| `Utf8.IsValidBuffer` | main/main.c:778-844 | the buffer validator accepts exactly well-formed text |
| `Utf8.IsValidString` | main/ui.c:3055-3072 | the string validator accepts exactly the same text |
| `Utf8.SafeCopy` | main/ui.c:3023-3053 | the destination holds the defined copy, ended by a zero inside its bounds |
| `Utf8.CopyFits` | main/ui.c:3023-3053 | the copy always leaves room for its end mark |
| `Utf8.CopyMeans` | main/ui.c:3023-3053 | the copy is well formed and its code points are a prefix of those of the source, bad bytes read as question marks |
| `Utf8.CopyFull` | main/ui.c:3023-3053 | the copy stops only where the next code point does not fit |
| `Utf8.CopyIdempotent` | main/ui.c:3023-3053 | copying a copy changes nothing |
| `Utf8.CopyWhole` | main/ui.c:3023-3053 | well-formed text that fits is copied unchanged |
| `FileWindow.ScrollFor` | main/ui.c:2958-2979 | the selected row is on screen; the scroll moves only if it was not, and then by whole pages |
| `FileWindow.WrapsAround` | main/ui.c:3880-3884 | the remainder, corrected when negative, is the Euclidean one |
| `FileWindow.FileList.FillWindow` | main/ui.c:3653-3679 | the window is a stretch of the listing with the selection and all visible rows in it |
| `FileWindow.FileList.Scan` | main/ui.c:3681-3790 | after a readable scan window and cache are those of the listing; an unreadable one leaves an empty list |
| `FileWindow.FileList.Ensure` | main/ui.c:3845-3868 | loaded, from the cache or rescanned: the window shows the listing either way, the selection kept; while the host has the card a stale cache is not used |
| `FileWindow.FileList.Move` | main/ui.c:3870-3899 | the selection moves round the listing by the step and stays on screen and loaded |
| `FileWindow.FileList.Current` | main/ui.c:3792-3804 | the current file is the selected entry of the full listing |
| `FileWindow.FileList.VisibleRow` | main/ui.c:3806-3823 | each visible row shows the entry of the full listing at its place, and rows past the end none |
| `FileWindow.MoveAll` | main/ui.c:3870-3899 | any sequence of moves amounts to one move by their sum |
| `Ini.SplitWritten` | main/main.c:958-994 | a written setting is read back as the same key and value, with or without a carriage return |
| `Ini.SplitBlanks` | main/main.c:958-994 | blanks before, between and after key, sign and value do not count |
| `Ini.TextOfLines` | main/main.c:2131-2147 | cutting a text into lines and joining them gives the text back |
| `Ini.LinesOfText` | main/main.c:2131-2147 | joining proper lines and cutting again gives the lines back |
| `Ini.SaveLine` | main/main.c:2149-2212 | one line out: renewed if it fits, copied otherwise; it fails exactly when that has no room |
| `Ini.SaveLines` | main/main.c:2131-2213 | all lines, each by that rule, and the keys seen among them; it fails exactly when they have no room |
| `Ini.AppendMissing` | main/main.c:2228-2274 | the settings no line had are appended in order; it fails exactly when they have no room |
| `Ini.Save` | main/main.c:2124-2284 | succeeds exactly when its text has room, and then writes that text up to its first zero |
| `Ini.RoomyIff` | main/main.c:2124-2284 | a save is complete exactly when the complete text has room |
| `Ini.SavedSays` | main/main.c:2124-2284 | parsing the complete saved text gives the old settings, renewed where asked, then the missing ones |
| `Ini.SlackSuffices` | main/main.c:2124-2125 | the slack always suffices for short updates of keys that are not repeated |
| `Ini.DecimalReads` | main/main.c:1238-1262 | numbers are read back as written and never taken for octal |
| `IniReading.SeenIsRead` | main/main.c:2149-2157 | wherever the saver sees a setting the loaders see the same one |
| `IniReading.CutReads` | main/main.c:647-669 | what is read from the card is read from the lines before the first zero |
| `IniReading.CardReads` | main/main.c:2124-2284 | after a successful save the card holds the lines as they went out and then the appended settings, or the lines up to the first zero; after a failed one the old file |
| `IniReading.ReadBackIff` | main/main.c:1799-1958 | after a successful save an updated value is read back exactly when it was appended in sight, or when the line with the last word on it was renewed or says it already; after a failed save exactly when the last word in the old file says it |
| `IniReading.FirstReadBackIff` | main/main.c:1744-1797 | the same for the language loader, which stops at the first line with the key, after successful and failed saves |
| `IniReading.FileReadBack` | main/main.c:2124-2284 | after a complete save of a tidy file both kinds of loader read every updated key as its new value and every other key as before |
| `SystemSettings.UpdatesFit` | main/main.c:2044-2072 | all seven settings together fit the slack when the language file name is under 64 characters |
| `SystemSettings.ClampedNearest` | main/main.c:2071-2074 | clamping keeps a value in range and takes the nearest one otherwise |
| `SystemSettings.SettingsReadBack` | main/main.c:1744-1958 | after a system save of a tidy file without repeated keys, which succeeds, the loaders read back every requested value, clamped |
| `SystemSettings.ZeroErases` | main/main.c:647-669 | a file that begins with a zero is left empty by every save that succeeds |
| `SystemSettings.ZeroUpdateLost` | main/main.c:647-669 | for every request there is such a file on which the save reports success |
| `SystemSettings.LongLineKept` | main/main.c:2154-2157 | a key on a short and then on a long line: the save succeeds and the loaders still read the long line |
| `SystemSettings.VolumeUpdateLost` | main/main.c:1976-1991 | a request for volume 100 that succeeds and is read back as 50 |
| `SystemSettings.UpdateLost` | main/main.c:2157-2212 | where the slack runs out at the last of n lines with the key, the save succeeds and the old value is read back |
| `SystemSettings.ScreenUpdateLost` | main/main.c:1875-1890 | a request for 1440 minutes, with any Wi-Fi timeout, that succeeds and is read back as 5 |
| `Smb.EveryHostOnce` | main/smb_client.c:379-388 | the discovery order visits each of the hosts 1 to 254 exactly once |
| `Smb.FromBothEnds` | main/smb_client.c:379-388 | after 2k steps exactly the k lowest and the k highest hosts have been visited |
| `Smb.Normalize` | main/smb_client.c:238-289 | succeeds exactly when every piece is valid and the joined path fits, and returns the pieces joined by single slashes |
| `Smb.SegmentsOfJoined` | main/smb_client.c:238-289 | cutting a joined path gives its pieces back |
| `Smb.NormalIsSafe` | main/smb_client.c:230-289 | a normal path fits, has no empty piece, none that stays or climbs, no backslash and no slash at its ends |
| `Smb.NormalIdempotent` | main/smb_client.c:238-289 | normalising twice is normalising once |
| `Smb.FavoriteReads` | main/smb_client.c:137-228 | an encoded favourite decodes to itself, a port or title left out to the standard one |
| `Smb.FavoriteRoundTrip` | main/smb_client.c:137-228 | decoding an encoded favourite gives it back |

## Left out

- GPIO and SPI timing, bit order on the serial wire, RTOS task creation, heap and logging: a bus transfer is one step with an oracle's answer, an allocation a flag.
- Wall-clock deadlines: a wait polls as often as an oracle allows.
- Progress reports, phase names and error texts of the update job.
- The music player's and power supply's part in a job: success or failure of the one call.
- Restarts of the host: the recovery block is a variable in memory, so a restart clears it while the target may be half written; `Recovery` speaks of jobs and probes between two restarts.
- The serial console's laboratory commands in main/serial_debug.c, which can halt the core and hand the pins back outside an update job; `Recovery` does not include them.
- Counters of the update report are natural numbers; by `Packing.PackingBound` they stay far below 32 bits.
- McuDebug.Link.DmiWriteRegister: the contracts built on it promise coherent caches up to the first failure of any kind, which is where the update job stops; `CacheCoherence` has the exact rule.
- HandoffCalls.CallOutcome: the path and task checks that refuse a start before it takes a lock.
- Handoff.Exclusive: excludes burn tasks from update jobs, not from USB storage; the firmware reads that flag before taking its lock and promises no more.
- Handoff.ComesToRest: every caller makes finitely many calls; fairness of the scheduler is not modelled.
- BatchFormat.Parse: says exactly when a file is refused, not which of several reasons is reported.
- CPLD write mode 2 (the BSC2 descriptor), profiling counters and the choice of write profile.
- CpldTransport.Transport.TryTransfer: status answers are taken to arrive intact or not at all; only data and descriptors may be damaged.
- CpldDevice.DescriptorRoundTrip: the engine follows the example logic's checks and effects, not its clock cycles.
- McuTransport.Link.CommandInMode: frame bytes and their checks are one reply that arrives sound or not; the wire layout of request and response headers is not part of this model; that of the request payloads is.
- McuTransport.Link.TryRead: after an error the buffer inside the requested size is unspecified.
- Ini.Save: the branch for a missing or oversized file, which writes a fresh default file, and the card's own failures.
- IniReading.ReadBackIff: a loader's text-to-number conversion is a parameter that may refuse texts; `SystemSettings` asks of it only that it reads decimals, and `ParseDigits` shows one.
- IniReading.FileReadBack: what the loaders make of a file with zeros that no save has written. The language file name is only stored here; no loader of it is part of this model.
- FileWindow.FileList.Scan: directory reading, filtering and sorting; the listing is what they yield. Row numbers are natural numbers, not 16-bit ones.
- Smb.FavoriteRoundTrip: digits only for stored numbers; the text-to-number conversion of other text counts as zero.
- Smb.NormalIdempotent: for output buffers of at most the path limit of 240 bytes, as all callers have.
- LCD, drawing, pages, translations, Wi-Fi, provisioning, NTP, SMB traffic, power telemetry: plumbing or small tables.
