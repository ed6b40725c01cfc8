# Proofs about the Ellipse Workstation 1100

This project models the parts of the Ellipse Workstation 1100 emulator, its ROM and its disk operating
system that have to agree with each other, and proves that they do. Each module follows one component.

* **The floppy drive** (`Floppy`, `FloppyRuns`, `FloppySeeks`, `FloppyPorts`, `FloppyTransfer`, `FloppyDevice`). The
  controller of `emu/floppy.c` is a state machine over values with one function per operation;
  `FloppyDevice.FloppyDrive` is the same drive as an object with in-place buffers, and every method of it is
  tied to its function. All operations keep the invariant `Floppy.Inv`, so every reachable state has it,
  under any interleaving of port accesses, ticks, media changes and resets.
* **Memory, DMA, the machine** (`Memory`, `Dma`, `DmaSchedule`, `DmaProgress`, `Machine`, `MachineDma`,
  `SectorLoad`, `TrackDma`). The address space with its mirrors, the four-channel copy engine, and the machine
  object, whose DMA does between memories what the engine does and moves bytes from the drive's data port to
  RAM, a sector or a whole track at a time.
* **The ELFS file system** (`ChunkTable`, `Elfs`, `ElfsSteps`, `ElfsWriter`, `Dates`). `ElfsWriter.Writer` writes a
  volume in place into the bytes of an image, as `rom/makeelfs.c` does; `Elfs.Volume` says what a well-formed
  volume with given files is.
* **Its two readers** (`Division`, `DiskRead`, `Boot`, `Dos`, `DosFind`, `DosStore`). The boot loader and the
  disk routines of DOS, the lookup of a file by its name and the storing of chunks among them, as methods
  over 16-bit variables that drive the machine through its ports.
* **Writer to reader** (`EndToEnd`). A volume is written, inserted and booted, or brought in under DOS and a
  program launched from it by its name.
* **Smaller components** (`Stack`, `Arrival`, `Processor`, `Names`, `Decimal`, `Checksum`). Call and interrupt
  frames and where calls go, file names, decimal output, the ROM checksum. `Bytes` holds the byte-level vocabulary.

## What the proofs found

* DOS refuses every 960 KB volume the writer makes. The volume check (`rom/dos/fs.asm:206-258`) wants the
  high byte of the highest chunk number plus one to be *less* than the number of chunk-table sectors, and on
  the small disk both are 4. `Dos.SmallDisksAreRefused` states the exact condition; the boot loader has no
  such check and boots from all three sizes.
* The same check accepts a track of $8000 chunks, whose number of sectors is zero in 16 bits; it is the only
  track size it accepts that the sector division cannot divide by (`Dos.AcceptedBlocks`).
* The console prints the name the comparison accepts exactly when an extension that starts blank is blank
  altogether (`Names.PrintsTheComparedName`): the comparison stops at a blank first character, the printer
  goes on. `Names.BlankThenNot` is such an entry. It takes damaged directory data to have one: names typed
  without spaces never make it (`Names.TypedNamesPrintAsFound`), DOS rejects a space in a name
  (`rom/dos/fs.asm:1765-1807`), and the volume writer reads names up to the next space.
* `PHP` followed by `PLP` gives the flags back exactly when some flag is set and the zero flag is not
  (`Stack.SavedFlagsSurvive`): `PLP` updates zero and negative from the byte it pulled.
* The writer and DOS pick the same free chunk exactly when entry 0 of the table is not free
  (`ChunkTable.AllocatorsAgree`): the writer scans from chunk 1, DOS from entry 0. Formatting makes entry 0
  an end mark.
* A seek time can come out negative, because the head can be left at a sector number the medium does not
  have: the sector port may be written while a seek is pending, and the head ends up where that port says.
  `FloppySeeks.NegativeSeeksAreReached` shows runs from power-on that get there, without a change of media.
  `FloppySeeks.SeekOutcome` gives the exact conditions: a read or a plain seek whose time is not above zero
  completes at once and leaves its seek flag set; a write does so only when the time is zero, and with a
  negative time stays busy (`emu/floppy.c:320` compares with zero only). Either way the next tick, of any
  length, ends the seek (`FloppySeeks.NextTickEnds`).
* The error bit of the floppy status port never shows an error (`Floppy.ErrorIsNeverShown`): it is set only
  in the branch for a busy drive, and a busy drive has no error (`emu/floppy.c:166-190`). So neither loader
  notices a bad address or an empty drive. It goes on, DMA fetches the error code 512 times from the data
  port, and success is reported (`DiskRead.SeekAndTransfer`, `Boot.BootLoader.LoadSector`,
  `Dos.Dos.RawLoadSector`). Booting from an empty drive still fails, because two bytes of that error code
  are not the signature of a master block (`Boot.FaultIsNoMaster`, `Boot.BootLoader.BootLoad`).
* The same holds for storing: DOS reports success for a sector that does not exist and for a protected disk,
  and nothing is stored (`DosStore.RawStoreSector`, `rom/dos/fs.asm:147-196`).
* The volume writer packs a date with a six-bit minute where the format (`assets/dosnotes.txt:83-91`) has five
  bits. A date is read back exactly in the first 32 minutes of an hour and before the year 2236
  (`Dates.DatesSurvive`); after that the hour is made odd as well (`Dates.ReadBack`). DOS cuts the minute off
  instead, so the two make the same bytes exactly in the first 32 minutes or in an odd hour
  (`Dates.WriterAgreesWithDos`).
* A drive told to seek where its head already is takes no time on the first side of the disk and 642
  milliseconds on the second (`FloppyPorts.SeekAgain`): the head's track keeps the side as bit 7, and the
  distance is taken to the track without it (`emu/floppy.c:235-283`).
* Writing a DMA channel's control register without the enable bit in the middle of a job leaves its copying bit
  set for good. That is the only way a channel can still be copying after 65536 cycles (`DmaProgress.AllEnd`).
* Where the documentation and the code differ, the model follows the code: the stack bank register selects
  whole banks from $80 on (`emu/io.c:226-245`), and the I/O page of bank 0 starts at $7000
  (`emu/mem.c:74-131`).

## Model

| member | source | states |
|---|---|---|
| `Floppy.SectorOffsetInside` | emu/floppy.c:277-279 | Every (side, track, sector) a seek accepts is a multiple of 512 and lies wholly inside the disk of that medium. |
| `Floppy.SeekTimeBound` | emu/floppy.h:142-160 | The time to reach a track is at most 1277 ms and to reach a sector at most 200 ms, whatever stale sector number the head is left with. |
| `Floppy.SeekDone` | emu/floppy.c:211-237 | Completing a seek keeps the drive invariant, always leaves the busy states, and changes neither disk nor medium. |
| `Floppy.SeekTo` | emu/floppy.c:239-288 | A seek keeps the invariant, ends in the seek or the error state, starts towards a write only on a disk that is not protected, and never touches the disk. |
| `Floppy.Control` | emu/floppy.c:290-346 | Every control byte, in every state, keeps the invariant and leaves disk and medium alone. |
| `Floppy.ReadByte` | emu/floppy.c:348-358 | Reading the data port keeps the invariant (the offset stays below 512) and never changes the disk. |
| `Floppy.WriteByte` | emu/floppy.c:360-369 | Writing the data port keeps the invariant, including when the 512th byte stores the sector. |
| `Floppy.Tick` | emu/floppy.c:440-452 | A tick keeps the invariant and changes neither disk nor medium. |
| `Floppy.ErrorIsNeverShown` | emu/floppy.c:166-190 | In every state bit 6 of the status port is that of the uninitialised byte, and bit 7 shows, unless that byte has it set, whether the drive is busy. |
| `FloppyRuns.Mount` | emu/floppy.c:77-123 | Inserting a disk in any state keeps the invariant; what it does to disk, medium and status is `FloppyRuns.MountInserts`. |
| `FloppyRuns.MountInserts` | emu/floppy.c:77-123 | In every state, inserting a file makes its bytes the start of the disk, up to the largest size; the disk has 12, 16 or 20 sectors as the file has up to 983040, up to 1310720 or more bytes; it is protected if and only if it should be; a drive that is not ready gets the error code for a missing disk; an empty file is no disk. |
| `FloppyRuns.SavedDiskComesBack` | emu/floppy.c:125-141 | The bytes saved of any unprotected disk, inserted in any drive, are recognised as the same medium and are the same disk. |
| `FloppyRuns.Unmount` | emu/floppy.c:143-164 | Ejecting a disk in any state keeps the invariant, removes the medium, clears its image, and gives a drive that is not ready the error code for a missing disk. |
| `FloppyRuns.Reset` | emu/floppy.c:460-473 | A reset in any state keeps the invariant. |
| `FloppyRuns.Run` | emu/floppy.c:384-473 | After any sequence of port reads and writes, ticks, error acknowledgements, media changes and resets the drive satisfies the invariant: busy states have a seek pending, every state but ready and error has a disk, the offset is below 512, and the addressed sector is an aligned one inside the disk. |
| `FloppyRuns.TicksSettle` | emu/floppy.c:440-452 | Ticks end a seek exactly when they sum to its time, however the time is cut up; before that only the remaining time changes. |
| `FloppyRuns.BusyEnds` | emu/floppy.c:211-288 | In every reachable busy state the drive is still busy after some ticks if and only if they fall short of the seek time, and 1494 ms always suffice. |
| `FloppyRuns.StepOnDisk` | emu/floppy.c:360-369 | A port access, tick or reset changes the disk only when it delivers the 512th byte of a write, and then replaces exactly the addressed sector by the bytes received. |
| `FloppyRuns.DiskChangesBySectors` | emu/floppy.c:202-369 | Over every run of port accesses, ticks and resets the disk is the original with whole aligned sectors replaced at the moments a 512th byte was accepted; a write-protected disk never changes. |
| `FloppyRuns.ProtectedFileStays` | emu/floppy.c:77-264 | From any state, after a file is inserted with write protection no run of port accesses, ticks and resets changes a byte of it or its protection. |
| `FloppySeeks.SeekTimeOf` | emu/floppy.c:239-325 | The time of an accepted command, and whether it is waited for: a read or a seek while it is above zero, a write while it is not zero. |
| `FloppySeeks.SeekOutcome` | emu/floppy.c:239-325 | For every aimed drive and accepted command, exact conditions on track, sector, target and command for a negative seek time, for a seek that is over but still flagged, and for a drive that is busy with a negative time. |
| `FloppySeeks.NextTickEnds` | emu/floppy.c:440-452 | A seek whose time is not above zero is ended by the next tick, whatever its length. |
| `FloppySeeks.HeadMovesPastTheEnd` | emu/floppy.c:211-237 | Writing the sector port during a seek leaves the head at a sector the medium does not have. |
| `FloppySeeks.NegativeSeeksAreReached` | emu/floppy.c:290-325 | From power-on, a run ends in a write that is busy with a negative time, and another in a finished read with its seek still flagged. |
| `FloppyPorts.CommandOutcome` | emu/floppy.c:239-346 | A command that is heard fails if and only if the drive is busy or empty, the disk is protected against the write, or there is no such track or sector, and the data port then reads 1, 2, 5 or 3 for the first of these that holds. |
| `FloppyPorts.ErrorsAreSticky` | emu/floppy.c:327-346 | A control byte that does not acknowledge a pending error changes nothing but the interrupt enable. |
| `FloppyPorts.AddressReadsBack` | emu/floppy.c:384-438 | The sector port reads back five bits, the track port all eight, independently; outside a transfer the data port ignores writes and reads 0xFF. |
| `FloppyPorts.StatusTellsMedia` | emu/floppy.c:166-190 | Bits 2 to 4 of the status port are the number of sectors of a track, bit 1 is the write protection, bit 5 the interrupt enable. |
| `FloppyPorts.EjectedRefuses` | emu/floppy.c:143-164 | After an eject in any state every acknowledged command ends with the code for a missing disk, and the image is all zeros. |
| `FloppyPorts.ResetIdles` | emu/floppy.c:460-473 | After a reset in any state the drive is idle without error or interrupts, hears every command, and is not changed by time; disk, medium and addresses are as before. |
| `FloppyPorts.TrackDistance` | emu/floppy.h:142-147 | Two milliseconds and five for each track between, the same in both directions, and nothing to stay. |
| `FloppyPorts.TurnTime` | emu/floppy.h:149-159 | The turn to a sector takes its share of 200 milliseconds, rounded up, going round for a sector the head has passed; one sector takes 17, 13 or 10 milliseconds. |
| `FloppyPorts.HeadArrives` | emu/floppy.c:211-237 | A finished seek leaves the head at the track register's value, side bit included. |
| `FloppyPorts.SeekAgain` | emu/floppy.c:235-283 | Seeking for the place the head is at takes no time on side one and 642 milliseconds on side two. |
| `FloppyTransfer.ReadCommand` | emu/floppy.c:290-309 | A read command on a valid address ends, after any waiting, with the addressed sector in the buffer and the target on the next sector. |
| `FloppyTransfer.ReadCommandFails` | emu/floppy.c:239-288 | On an address the medium does not have, or without a disk, a read command ends in the error state with the code for a failed seek or for no disk. |
| `FloppyTransfer.WriteOneSector` | emu/floppy.c:192-369 | Seek-write, 512 data bytes and waiting replace the addressed sector, nothing else, and leave the drive aimed at the next sector. |
| `FloppyTransfer.ReadOneSector` | emu/floppy.c:192-358 | Seek-read, waiting and 512 reads return the addressed sector, change no byte of the disk, and leave the drive aimed at the next sector. |
| `FloppyTransfer.WriteAllSectors` | emu/floppy.c:192-369 | Writing up to a track of sectors with no register writes in between lands each on its own sector and keeps all others of the track. |
| `FloppyTransfer.ReadAllSectors` | emu/floppy.c:192-358 | Reading n sectors with no register writes in between returns the sectors of the track in order. |
| `FloppyTransfer.TrackRoundTrip` | emu/floppy.c:192-369 | Writing n sectors (at most a track), rewinding and reading n sectors returns the same data in order, for every way of waiting. |
| `TrackDma.ReadTrack` | emu/io.c:76-95 | Seek-read and a fixed-source DMA job, repeated with no drive register written in between, lay the sectors of a track one after the other in RAM. |
| `TrackDma.ReadBackByDma` | emu/floppy.c:192-369 | What was written to a track through the port, at most a whole track, comes back by DMA as the same bytes in order. |
| `FloppyDevice.FloppyDrive.constructor` | emu/floppy.h:75-92 | A new drive object is the powered-on drive. |
| `FloppyDevice.FloppyDrive.FetchSector` | emu/floppy.c:192-200 | Copying a sector to the buffer in place does what the read step of the state machine does. |
| `FloppyDevice.FloppyDrive.StoreSector` | emu/floppy.c:202-209 | Copying the buffer to the disk in place does what the write step does. |
| `FloppyDevice.FloppyDrive.FinishSeek` | emu/floppy.c:211-237 | The in-place completion of a seek is `Floppy.SeekDone`. |
| `FloppyDevice.FloppyDrive.BeginSeek` | emu/floppy.c:239-288 | The in-place seek, with its checks in the source's order, is `Floppy.SeekTo`. |
| `FloppyDevice.FloppyDrive.ControlPort` | emu/floppy.c:327-346 | The in-place control port is `Floppy.Control`. |
| `FloppyDevice.FloppyDrive.In` | emu/floppy.c:384-410 | Reading a port of the object gives the value and the state of the state machine. |
| `FloppyDevice.FloppyDrive.Out` | emu/floppy.c:412-438 | Writing a port of the object gives the state of the state machine. |
| `FloppyDevice.FloppyDrive.StatusByte` | emu/floppy.c:166-190 | The status port of the object, built up bit by bit on an uninitialised byte. |
| `FloppyDevice.FloppyDrive.Elapse` | emu/floppy.c:440-452 | Time passing for the object is a tick of the state machine. |
| `FloppyDevice.FloppyDrive.Insert` | emu/floppy.c:77-123 | Inserting a disk image copies it in place; sectors, protection, contents and status are those of `FloppyRuns.MountInserts`. |
| `FloppyDevice.FloppyDrive.Eject` | emu/floppy.c:143-164 | Ejecting from the object is the eject of the state machine. |
| `FloppyDevice.FloppyDrive.HardReset` | emu/floppy.c:460-473 | Resetting the object is the reset of the state machine. |
| `FloppyDevice.FloppyDrive.AwaitIdle` | rom/dos/boot.asm:147-150 | Polling the status port with ticks of any positive length in between ends, with the drive no longer busy, and never with an error. |
| `Memory.Put` | emu/mem.c:97-131 | A store changes exactly one cell if it is RAM or video RAM, and nothing otherwise. |
| `Memory.MainMemory.ReadTransparent` | emu/mem.c:59-72 | The read that ignores the bank-0 map finds the cell of `Memory.ResolveTransparent`, or names the I/O port. |
| `Memory.MainMemory.Read` | emu/mem.c:74-95 | A processor read finds the cell of `Memory.Resolve`, the stack bank's first kilobyte included, or names the I/O port. |
| `Memory.MainMemory.Write` | emu/mem.c:97-131 | A processor write changes exactly the cell its address resolves to; ROM and open areas ignore it. |
| `Memory.CellOf` | emu/mem.c:59-131 | Which addresses reach RAM, video RAM and I/O, and at which index of RAM or video RAM, in closed form with all mirrors. |
| `Memory.RomCellOf` | emu/mem.c:59-131 | Which addresses reach ROM, and at which byte of it: the upper half of bank 0, and banks $01 to $3F, where the eight banks of ROM repeat; with a stack bank below $40 the first kilobyte of bank 0 too. |
| `Memory.ReadAfterWrite` | emu/mem.c:59-131 | For all addresses outside I/O and every stack bank, a read after a write gives the new value exactly at the aliases of the written address, and the old value everywhere else. |
| `Dma.StartStarts` | emu/io.c:125-171 | Writing the control register with its top bit set starts a job with a full count and keeps or clears the copied counter. |
| `Dma.ControlBytes` | rom/dos/fs.asm:120-189 | The control bytes $94, $98 and $90 start a job with a fixed source, a fixed destination, and neither, with the copied counter at zero. |
| `Dma.RegisterReadBack` | emu/io.c:105-171 | What every register reads after a write to any register: 8 to 15 read as written and independently, the control register keeps its enable and mode bits and may clear the counter and set the copying bit, the others ignore writes. |
| `Dma.CellsOfByte` | emu/io.c:76-95 | The k-th byte of a job goes between the k-th source and destination cells, fixed or advancing with 16-bit wrap. |
| `Dma.AdvanceIsOneMore` | emu/io.c:76-95 | One more cycle moves the registers by one byte and clears the copying bit at the last byte and only there, a count of 0 meaning 65536. |
| `Dma.JobRuns` | emu/io.c:76-95 | A started job with n enabled cycles has moved min(n, length) bytes: the registers are advanced by that much, copying ends after exactly that many cycles, and memory is the byte-by-byte forward copy. |
| `Dma.CopyIsBlockMove` | emu/io.c:76-95 | If no byte is stored where a later byte is loaded, the forward copy equals a block move of the original contents and changes no other cell. |
| `Dma.OverlapExactly` | emu/io.c:76-95 | A job from any bank to a bank of RAM or video RAM, mirrors included, stores where it later loads if and only if both are the same storage and the destination is above the source, around the end of the bank, by less than the length. |
| `Dma.DownwardCopyIsSafe` | emu/io.c:76-95 | Between banks that are the same RAM or video RAM, a job whose destination is not above its source and that does not wrap is such a block move, overlapping or not. |
| `Dma.DisjointCopyIsSafe` | emu/io.c:76-95 | A job to RAM or video RAM from any other storage, or between ranges that do not meet, is such a block move. |
| `DmaSchedule.MergedUnique` | emu/io.c:97-103 | How far each of four non-interfering jobs has come determines the whole memory. |
| `DmaSchedule.LockstepEqualsInTurn` | emu/io.c:76-103 | Any of the four channels in lockstep, started at any cycles and with jobs of any lengths: if all are idle at the end, memory is what running the jobs one after another in any order leaves, provided that no started job's destination meets another started job's source or destination; nothing is asked of channels that are not started. `DmaProgress.LockstepEndsAsInTurn` shows that all are idle 65536 cycles later. |
| `DmaProgress.ChannelProgress` | emu/io.c:76-103 | A started job on any of the four channels, the others in any state, has moved min(n, length) bytes after n cycles, by its registers, and is copying exactly before its length is reached. |
| `DmaProgress.AllEnd` | emu/io.c:76-103 | From any state, a channel that runs stops after exactly as many cycles as its counter says, at most 65536; after that only a channel that was copying while disabled is still copying. |
| `DmaProgress.AllIdleAfter` | emu/io.c:76-171 | Any schedule of cycles and starts, followed by 65536 cycles, has every channel idle. |
| `DmaProgress.LockstepEndsAsInTurn` | emu/io.c:76-171 | Jobs that keep apart, started in any cycles of any schedule, on any of the channels: after 65536 more cycles all channels are idle, and memory is as if the jobs had run one after another in any order. |
| `DmaProgress.StartedEndAsInTurn` | emu/io.c:76-103 | The same for jobs that have already been started. |
| `DmaProgress.FetchesWhatWasStored` | emu/io.c:97-103 | Channels are served in order: in one cycle a channel fetches the byte that a lower-numbered one has just stored. |
| `Machine.CopyByteInMemory` | emu/io.c:76-95 | Between memory cells, the machine's DMA with I/O dispatch is the memory-to-memory engine. |
| `Machine.ChannelPorts` | emu/io.c:218-245 | The sixteen ports from $40, $50, $60 and $70 on are the registers of one channel each, and a write to one is seen in no other channel and no other device. |
| `Machine.StackBankReadsBack` | emu/io.c:226-233 | The stack bank register reads back what it selects, which always has bit 7 set. |
| `Machine.DmaChannel.Out` | emu/io.c:125-171 | Register writes of the channel object. |
| `Machine.DmaChannel.CountByte` | emu/io.c:76-95 | The register updates of a copied byte; the result tells the last byte. |
| `Machine.Machine.InPort` | emu/io.c:198-224 | A port read goes to the drive, a DMA channel, the stack bank or another device, and only the drive may change. |
| `Machine.Machine.OutPort` | emu/io.c:226-245 | A port write goes to the drive, a DMA channel or the stack bank. |
| `Machine.Machine.CopyOne` | emu/io.c:76-95 | One channel's share of a cycle on the machine object, ports included. |
| `Machine.Machine.RunDma` | emu/io.c:97-103 | The method is the machine's cycle, ports included; what such cycles do to every channel is stated by `MachineDma`. |
| `MachineDma.CycleIsEngineCycle` | emu/io.c:76-103 | A cycle of the machine in which no running channel touches a port changes memory and channels as a cycle of the four-channel engine does, and nothing else. |
| `MachineDma.CyclesAreEngineCycles` | emu/e1100.c:70-72 | So do any number of cycles, if every channel that runs keeps to memory until it stops. |
| `MachineDma.JobProgress` | emu/io.c:76-103 | On the machine, a started job on any channel has moved min(n, length) bytes after n cycles while the other channels do theirs. |
| `MachineDma.JobAlone` | emu/io.c:76-103 | If it runs alone, memory is the forward copy of its first min(n, length) bytes. |
| `MachineDma.JobsInTurn` | emu/io.c:76-103 | Jobs that keep apart, started on any channels of the machine: after 65536 cycles memory is as if they had run one after another, and all channels are idle. |
| `MachineDma.FastForward` | emu/emuterm.c:281-286 | The terminal's command that runs DMA for many cycles at once leaves every started job between memories that many bytes further, or finished. |
| `SectorLoad.DmaWords` | rom/dos/boot.asm:128-163 | Word stores to the registers of channel 1 set banks, count, destination and source and nothing else. |
| `SectorLoad.TransferCycle` | emu/io.c:76-95 | One cycle of a sector job takes the next byte of the drive's data port, whatever it is, to the next address in the RAM bank. |
| `SectorLoad.LaidTwice` | rom/dos/boot.asm:165-186 | Two stretches laid one after the other, with wrap within the bank, are one stretch. |
| `SectorLoad.AwaitTransfer` | rom/dos/boot.asm:152-160 | Waiting for the DMA to finish ends with 512 bytes in the RAM bank: the buffer of a drive that has a sector, or the code of one that has an error. |
| `ChunkTable.NoCycle` | rom/makeelfs.c:389-444 | A chain of the table never visits a chunk twice. |
| `ChunkTable.FirstFree` | rom/makeelfs.c:393-405 | The least chunk from a given one on whose entry is free, or 0 if there is none. |
| `ChunkTable.NewChain` | rom/makeelfs.c:389-444 | Allocating without a predecessor adds a new one-chunk chain; the used entries stay a set of disjoint chains and no other chain changes. |
| `ChunkTable.LongerChain` | rom/makeelfs.c:389-444 | Allocating after the tail of a chain appends the chunk to that chain, with the same guarantees. |
| `ChunkTable.ChainUnique` | rom/makeelfs.c:367-387 | A table determines the chain from a chunk, so every reader follows the same one. |
| `ChunkTable.AllocationUsesOne` | rom/dos/fs.asm:2323-2337 | An allocation takes exactly one from the number of free entries. |
| `ChunkTable.AllocationsTakeFromCount` | rom/dos/fs.asm:2379-2402 | Any number k of DOS allocations, one after the other, take k from the number of free entries, or all of them if there are fewer. |
| `ChunkTable.AllocatorsAgree` | rom/dos/fs.asm:2379-2402 | DOS and the volume writer choose the same chunk if and only if entry 0 is not free. |
| `Elfs.MasterWrite` | rom/makeelfs.c:427-438 | A write inside the master block changes no table entry, no chunk and not the boot sector. |
| `Elfs.TableWrite` | rom/makeelfs.c:407-425 | A write of a table entry changes that entry only. |
| `Elfs.ChunkWrite` | rom/makeelfs.c:655-664 | A write inside a chunk changes that chunk only. |
| `ElfsSteps.AllocationStep` | rom/makeelfs.c:389-444 | While a file is being stored, an allocation extends its chain by the first free chunk, keeps the partition into chains and the free-space count, and disturbs no other chunk. |
| `ElfsSteps.PieceStep` | rom/makeelfs.c:655-664 | Writing the next 1024 bytes to the newest chunk stores that piece of the file and keeps the earlier ones. |
| `ElfsSteps.PointerStep` | rom/makeelfs.c:658-661 | Setting the boot pointer changes only the pointer. |
| `ElfsSteps.ListingStep` | rom/makeelfs.c:540-593 | Writing the whole 32-byte entry turns a stored file into a file of the volume, and keeps label, dates and all other entries. |
| `ElfsSteps.EntryFields` | rom/makeelfs.c:566-592 | The 32 bytes of an entry: attributes with the high byte first, name, five zeros, date, size and first chunk. |
| `ElfsSteps.SlotsInUse` | rom/dos/fs.asm:973-977 | On a volume whose files have attributes below $8000, the slots DOS takes for used are exactly the directory's own and the files'. |
| `ElfsSteps.NameTaken` | rom/makeelfs.c:446-486 | A slot of the directory has a name exactly when it is the name of a file or of the directory itself; unused slots match no name. |
| `ElfsSteps.FreeSpaceIsCounted` | rom/dos/fs.asm:2323-2337 | On every volume the writer makes, the free-space field is 1024 times one more than the number of chunks DOS counts as free. |
| `ElfsSteps.SameNextChunk` | rom/dos/fs.asm:2379-2402 | On every volume the writer makes, DOS would allocate the chunk the writer would. |
| `ElfsWriter.Writer.ReduceFreeSpace` | rom/makeelfs.c:427-438 | The byte-by-byte subtraction with manual borrow takes 1024 from the free-space field and changes nothing else. |
| `ElfsWriter.Writer.FindFreeChunk` | rom/makeelfs.c:389-405 | The scan finds the least free chunk from 1 on, or none. |
| `ElfsWriter.Writer.GetNextFreeChunk` | rom/makeelfs.c:389-444 | The allocation fails exactly when no chunk is free and then changes nothing; otherwise it links the least free chunk after the given one, ends the chain there, counts it off, and touches nothing else. |
| `ElfsWriter.Writer.GetNextChunk` | rom/makeelfs.c:367-387 | The successor of a chunk is its table entry, and a chunk number beyond the disk is an error. |
| `ElfsWriter.Writer.WriteMaster` | rom/makeelfs.c:291-350 | The master block describes the volume (signature, medium, geometry, table size, data start), all space free, no boot pointer, with no volume attributes and the given serial number and title. |
| `ElfsWriter.Writer.WriteTable` | rom/makeelfs.c:352-365 | The fresh table has every chunk of the disk free, entry 0 and all entries beyond the disk taken. |
| `ElfsWriter.Writer.Format` | rom/makeelfs.c:675-717 | Formatting never fails and makes an empty volume with the given label, two chunks fewer free than there are, and in chunk 1 a root directory whose first entry is its own, with the given date. |
| `ElfsWriter.Writer.StoreContent` | rom/makeelfs.c:639-668 | Storing a file of any length fails exactly when there are fewer free chunks than it needs; otherwise its bytes are in a chain of exactly that many chunks. |
| `ElfsWriter.Writer.FindName` | rom/makeelfs.c:446-486 | The search finds a name exactly when some slot of the root directory has it. |
| `ElfsWriter.Writer.AddFile` | rom/makeelfs.c:540-673 | Adding a file fails exactly when the disk is too full or the name is taken; otherwise the volume has one more file, its entry has the given attributes, name and date, and the content's size and first chunk, DOS.SYS is pointed to by the master block, and label, other entries and boot sector are kept. |
| `ElfsWriter.Writer.Prepare` | rom/makeelfs.c:719-775 | Writing a whole volume succeeds exactly when no name is used twice and the files' chunks fit; the result is a well-formed volume with the given label and root date and exactly those files, with those attributes, names, dates and contents. |
| `Dates.ReadBack` | rom/makeelfs.c:574-580 | What the format's layout reads from the writer's five bytes: the year without its ninth bit, the minute without its sixth, and an odd hour if the minute had it. |
| `Dates.DatesSurvive` | rom/makeelfs.c:574-580 | A date is read back unchanged if and only if its minute is below 32 and its year before 2236. |
| `Dates.PackedByDos` | rom/dos/fs.asm:1976-2024 | DOS's shifts and byte swaps lay the date out as the format has it, with the minute cut to five bits. |
| `Dates.WriterAgreesWithDos` | rom/makeelfs.c:574-580 | The writer and DOS make the same bytes of a date if and only if its minute is below 32 or its hour odd. |
| `Division.DivisionUnique` | rom/dos/fs.asm:374-398 | A decomposition with a remainder below the divisor is the division. |
| `Division.SplitHalved` | rom/dos/fs.asm:385-395 | One step of the shift-subtract loop keeps the partial division and a 16-bit quotient. |
| `DiskRead.ChunkSectors` | rom/makeelfs.c:441 | A chunk starts where the writer puts it, at an even sector that is not the last. |
| `DiskRead.SectorIsLinear` | emu/floppy.c:244-279 | For all three media, quotient and remainder of a sector number by the sectors per track, with the second side from track register 128 on, address byte offset 512 times that number. |
| `DiskRead.SecondSectorSameTrack` | rom/dos/boot.asm:165-181 | An even sector is never the last of its track. |
| `DiskRead.AimsAtSector` | rom/dos/boot.asm:128-145 | With quotient and remainder in its registers the drive is aimed at exactly the 512 bytes of that sector of the image. |
| `DiskRead.SeekAndTransfer` | rom/dos/boot.asm:146-163 | Seek-read, polling and a DMA job put the addressed sector into RAM; at an address that does not exist they put 512 copies of the drive's error code there, and no failure is seen. |
| `DiskRead.TableSector` | rom/dos/boot.asm:188-212 | An entry of a cached table sector is the entry of the whole table. |
| `DiskRead.StoredContent` | rom/makeelfs.c:639-668 | The chunks of a stored file's chain, one after the other, begin with its content. |
| `Boot.BootLoader.LoadSector` | rom/dos/boot.asm:128-163 | The sector at the loader's track and sector comes to the given address of the bank, or 512 copies of the error code if there is none; success is reported either way, and a drive still in error from an earlier read does as well as a ready one. |
| `Boot.BootLoader.Adjust` | rom/dos/boot.asm:119-127 | Repeated subtraction of the sectors per track ends with quotient in the track and remainder in the sector. |
| `Boot.BootLoader.AdjustLoadSector` | rom/dos/boot.asm:119-163 | For every sector number of the disk, the bytes of that sector of the image arrive. |
| `Boot.BootLoader.LoadChunk` | rom/dos/boot.asm:165-186 | The 1024 bytes of a chunk arrive in bank $81, the second sector without adjusting the track again. |
| `Boot.BootLoader.CacheTableSector` | rom/dos/boot.asm:188-206 | After the cache check the cache holds the wanted sector of the table, read or not, and banks above $80 are unchanged. |
| `Boot.BootLoader.NextChunk` | rom/dos/boot.asm:188-212 | The successor found through the one-sector cache is the entry of the whole table, and the end mark is recognised. |
| `Boot.CachedSuccessor` | rom/dos/boot.asm:188-212 | Whenever the cached index is a real one, looking in the cache equals looking in the table. |
| `Boot.BootLoader.LoadMaster` | rom/dos/boot.asm:49-75 | The master block is accepted exactly when there is a disk and it names a system file, and yields its first chunk and the geometry. |
| `Boot.BootLoader.LoadChain` | rom/dos/boot.asm:76-80 | Following a chain of up to 64 chunks ends, with all their bytes in order from the start of bank $81. |
| `Boot.BootLoader.SignatureCheck` | rom/dos/boot.asm:81-94 | The loaded image is started exactly when it begins with the bytes DOS. |
| `Boot.BootLoader.BootLoad` | rom/dos/boot.asm:34-94 | From every volume whose system file has at most 64 chunks, fragmented or not, bank $81 starts with exactly that file's bytes; booting fails exactly without a disk or without a system file. |
| `Boot.FaultIsNoMaster` | rom/dos/boot.asm:62-67 | What is read from an empty drive is not taken for a master block. |
| `Dos.SmallDisksAreRefused` | rom/dos/fs.asm:206-258 | The volume check accepts a described volume if and only if it is not a 960 KB one. |
| `Dos.AcceptedBlocks` | rom/dos/fs.asm:206-258 | Every master block the check accepts is signed ELFS and has a table with an entry for every chunk and a sector to spare; its track size is one sectors can be divided by if and only if it is not $8000 chunks. |
| `Dos.Dos.ConvSector` | rom/dos/fs.asm:374-398 | For every 16-bit sector number and nonzero divisor the normalise-and-subtract loop ends with the exact quotient and remainder. |
| `Dos.Dos.ConvChunk` | rom/dos/fs.asm:365-398 | The track and sector of a chunk's first sector, from the fields of the master block in RAM. |
| `Dos.Dos.RawLoadSector` | rom/dos/fs.asm:91-145 | The sector at the byte-sized track and sector arrives, or 512 copies of the error code if there is none; no error is reported either way, and a drive still in error from an earlier read does as well as a ready one. |
| `Dos.Dos.VerifyVolume` | rom/dos/fs.asm:206-258 | The chain of tests rejects a master block exactly when one of its fields is unacceptable. |
| `Dos.Dos.LoadTable` | rom/dos/fs.asm:287-318 | Reading the table sectors along track 0 brings the whole chunk table to RAM. |
| `Dos.PagedTable` | rom/dos/fs.asm:287-318 | After a volume has been brought in, the table in RAM is the one on the disk. |
| `Dos.Dos.PageIn` | rom/dos/fs.asm:647-652 | Bringing in a described volume fails exactly on the small disk; otherwise master block and whole table are in RAM. |
| `Dos.Dos.NextChunk` | rom/dos/fs.asm:563-572 | The successor found in RAM is the entry of the table in RAM, whatever has been allocated since it was read. |
| `Dos.Dos.AllocateChunk` | rom/dos/fs.asm:2379-2402 | On any table in RAM the scan ends; it fails, changing nothing, exactly when no entry is free, and otherwise takes the first free one and marks that one entry as an end, ready for the next allocation. |
| `Dos.Dos.CountFree` | rom/dos/fs.asm:2323-2337 | The count is the number of free entries of the table in RAM, entry 0 included, before and after allocations. |
| `Dos.Dos.LoadChunk` | rom/dos/fs.asm:403-417 | The 1024 bytes of a chunk arrive, the second sector on the first one's track. |
| `Dos.Dos.LoadExec` | rom/dos/exec.asm:27-58 | The chunks of a chain arrive in order from $0100 of the program's bank, and the table stays intact. |
| `Dos.Dos.LoadProgram` | rom/dos/exec.asm:90-108 | A file is turned away exactly when it has 65280 bytes or more; otherwise its bytes are at $0100. |
| `DosFind.PageInDirectory` | rom/dos/fs.asm:673-701 | The root directory arrives in RAM, and master block and table stay there. |
| `DosFind.ResolveFile` | rom/dos/fs.asm:963-1012 | For any directory whose names have no nulls, the search ends and finds the first slot in use that has the typed name, or there is none; free slots are passed over. |
| `DosFind.EntryNumbers` | rom/dos/exec.asm:86-98 | Size and first chunk come from the found slot of the directory in RAM. |
| `DosFind.WhoAnswers` | rom/dos/fs.asm:963-998 | On a volume of ordinary files a slot has the typed name exactly when that is the short form of its file's name. |
| `DosFind.PlainNamesAreTyped` | rom/dos/fs.asm:1811-1852 | The names of ordinary files include every name expanded from an upper-case, space-free one. |
| `DosFind.NamesAreUnique` | rom/dos/fs.asm:706-751 | No two files of such a volume answer to the same typed name. |
| `DosStore.StoreCycle` | emu/io.c:76-95 | One cycle of a store takes the next byte of the RAM bank to the drive's data port and changes no memory. |
| `DosStore.AwaitStore` | rom/dos/fs.asm:184-189 | Waiting for the store to finish, however the drive's clock ticks, ends with the 512 bytes in the addressed sector, or with the drive as it was if it has an error. |
| `DosStore.RawStoreSector` | rom/dos/fs.asm:57-196 | If the sector exists and the disk is not protected, exactly that sector becomes the 512 bytes of the bank; otherwise the disk is unchanged. No error is reported either way, and memory stays. |
| `DosStore.StoreLinear` | rom/dos/fs.asm:147-196 | With quotient and remainder of a sector number as track and sector, the bytes of that sector of the image are replaced, unless the disk is protected. |
| `DosStore.StoreChunk` | rom/dos/fs.asm:422-435 | 1024 bytes of the bank replace exactly the chunk's bytes of the image, unless the disk is protected, and then the image stays and the drive has an error. |
| `DosStore.StoreAndReload` | rom/dos/fs.asm:403-435 | On a disk that is not protected, what is stored in a chunk is what is loaded from it; all other chunks, the table and the master block are as they were. |
| `EndToEnd.WriteAndBoot` | rom/makeelfs.c:742-775 | Writing any list of files with a system file of at most 64 chunks, inserting the image and booting leaves bank $81 starting with that file; it fails only if names clash or the disk is too small. |
| `EndToEnd.Launch` | rom/dos/exec.asm:27-108 | Launching by a typed name finds a file exactly when one has that name, and then that one; a file of 65280 bytes or more is turned away, and the bytes of any other are at $0100 of the program's bank. |
| `EndToEnd.WriteAndRun` | rom/dos/exec.asm:27-108 | Writing any list of ordinary files, bringing the image in under DOS and launching a typed name: exactly the files' own names are found, on every disk but the small one, and the file's bytes are at $0100 exactly when it is below the limit. |
| `Stack.PushAdds` | emu/cpu.c:127-143 | A push adds one byte on top and leaves the others, in both modes and with every stack bank that is RAM. |
| `Stack.PullTakes` | emu/cpu.c:154-172 | A pull returns the last byte pushed and leaves the others. |
| `Stack.Entered` | emu/cpu_in.c:58-92 | Each kind of call, indexed JSR included, pushes exactly its frame. |
| `Stack.Left` | emu/cpu_in.c:94-103 | Each return takes exactly its frame off and restores what the frame holds. |
| `Arrival.Arrives` | emu/cpu_in.c:58-872 | Where every kind of call goes, in the bytes memory held before it, in both modes: JSR to its operand, JSL to its 24-bit operand, indexed JSR to the table entry at operand plus index, BRK, COP and interrupts to the word at their vector with interrupts disabled, decimal mode off, the other flags kept and in native mode bank 0; provided that the frame is not pushed over the bytes it has yet to fetch. |
| `Arrival.RomCodeIsClear` | emu/mem.c:97-131 | For code and tables in ROM banks and vectors in ROM that provision always holds. |
| `Arrival.EmulationEntered` | emu/cpu_in.c:58-92 | In emulation mode an interrupt pushes the place after it and the flags, with bit 5 set by BRK only, and no bank. |
| `Arrival.EmulationInterruptReturns` | emu/cpu_in.c:94-103 | In emulation mode RTI from a handler that leaves the stack as it found it goes back there with the flags of the frame, in whatever bank it is then in. |
| `Stack.RunsBalance` | emu/cpu_in.c:822-890 | Every properly nested run of JSR, indexed JSR, JSL, BRK, COP and interrupts that fits the stack, of any depth, ends with the stack pointer, the mode and every byte on the stack as they were. |
| `Stack.CallReturns` | emu/cpu_in.c:58-103 | A properly nested call comes back to the following instruction, an interrupt to the interrupted one, with stack pointer, bank (for JSL and interrupts) and flags (for interrupts) restored. |
| `Stack.BankIsKept` | emu/cpu_in.c:822-890 | A run without long jumps outside far calls and interrupts ends in the bank it began in. |
| `Stack.RoomExactly` | emu/mem.c:74-131 | How many bytes the stack can hold, in both modes and for every stack bank: an exact condition on the stack pointer. |
| `Stack.EmulationStaysInPageOne` | emu/cpu.c:127-172 | In emulation mode no sequence of pushes, pulls, transfers, calls, interrupts and returns, balanced or not, takes the stack pointer out of page 1 or overwrites anything outside it. |
| `Stack.SavedFlagsSurvive` | emu/cpu_in.c:985-1013 | PHP and PLP give the flags back if and only if some flag is set and the zero flag is clear. |
| `Processor.Cpu.constructor` | emu/cpu.c:241-267 | After a reset the processor is in emulation mode, in bank 0 at the word of the reset vector in ROM, with the stack in page 1, interrupts disabled, decimal mode off and 8-bit registers, all other flags kept. |
| `Processor.Cpu.Push8` | emu/cpu.c:127-143 | The in-place push. |
| `Processor.Cpu.Pull8` | emu/cpu.c:154-172 | The in-place pull. |
| `Processor.Cpu.StandardInterrupt` | emu/cpu.c:269-286 | Hardware interrupt entry in both modes: the frame, and the handler at the word at the vector. |
| `Processor.Cpu.Brk` | emu/cpu_in.c:58-76 | BRK in both modes, with the break flag in emulation mode, to the word at its vector. |
| `Processor.Cpu.Cop` | emu/cpu_in.c:78-92 | COP in both modes, to the word at its vector. |
| `Processor.Cpu.Rti` | emu/cpu_in.c:94-103 | RTI; the bank is pulled in native mode only. |
| `Processor.Cpu.Jsr` | emu/cpu_in.c:822-835 | JSR pushes the address of its own last byte and goes to the little-endian word after its opcode, with bank and flags unchanged. |
| `Processor.Cpu.JsrIndexed` | emu/cpu_in.c:837-854 | Indexed JSR pushes the same frame and goes to the word at operand plus index in its bank. |
| `Processor.Cpu.Jsl` | emu/cpu_in.c:856-872 | JSL pushes the bank and the address of its own last byte and goes to its 24-bit operand. |
| `Processor.Cpu.Rts` | emu/cpu_in.c:874-881 | RTS goes to the byte after the pulled address. |
| `Processor.Cpu.Rtl` | emu/cpu_in.c:883-890 | RTL also pulls the bank. |
| `Processor.Cpu.StepCall` | emu/cpu.c:374-387 | Fetching and executing the opcode at any call, in both modes, enters as the nested runs require and goes where the operand, the table or the vector says; at any other opcode only the opcode is fetched. |
| `Processor.Cpu.StepReturn` | emu/cpu.c:374-387 | Fetching and executing the opcode at a return leaves as the nested runs require. |
| `Processor.Cpu.Follow` | emu/cpu.c:374-387 | A processor that goes through a properly nested run, opcode by opcode at every call and return, ends in the state the run describes. |
| `Processor.Cpu.MakeCall` | emu/cpu_in.c:822-890 | A properly nested call made on the processor, if the stack has room for it, comes back with program counter, stack pointer, mode, bank and for interrupts flags as they should be. |
| `Names.Expand` | rom/dos/fs.asm:1811-1852 | The scan rejects exactly the names with more than ten characters before the first dot, more than three after it, or a second dot; otherwise the 14 bytes are stem and extension in upper case, padded. |
| `Names.UpperLetters` | rom/dos/mem.asm:172-178 | The 26 small letters become the capital letters of the same place, and no other character changes. |
| `Names.Compare` | rom/dos/fs.asm:706-751 | The comparison accepts exactly one typed name for an entry: its stem, and unless the extension starts blank a dot and the extension. |
| `Names.Compact` | rom/dos/consolec.asm:807-838 | For every entry the printed name is null-terminated, at most 14 characters, and obeys the three dot rules; for the names directories hold that is stem, dot unless the extension starts blank, extension, all without spaces. |
| `Names.ShownIsPrinted` | rom/dos/consolec.asm:807-838 | For the names directories hold the dot rules come down to the dot before the extension. |
| `Names.PrintsTheComparedName` | rom/dos/consolec.asm:807-838 | The printed name is the accepted name if and only if an extension that starts blank is blank altogether. |
| `Names.UnpaddedPadded` | rom/dos/fs.asm:1811-1852 | Padding and then dropping spaces gives back a space-free name. |
| `Names.ExpandedName` | rom/dos/fs.asm:706-751 | The entry made from an upper-case, space-free name is accepted and printed as that name without a lone final dot. |
| `Names.ShortenedExpands` | rom/dos/fs.asm:1811-1852 | The name without a lone final dot expands to the same 14 bytes. |
| `Names.NamesRoundTrip` | rom/dos/consolec.asm:807-838 | Expanding, comparing, printing and expanding again: only the one name is accepted, and the printed name gives back the identical 14 bytes. |
| `Names.ExpandedDots` | rom/dos/fs.asm:1811-1852 | Every expanded name has its one dot where the printer expects it. |
| `Names.ExpandFindPrintExpand` | rom/dos/consolec.asm:807-838 | The four routines on buffers, one after the other: an upper-case, space-free name is rejected exactly when it is too long; otherwise only its short form is found, that form is what is printed, and expanding the printed text gives the identical 14 bytes. |
| `Names.TypedNamesPrintAsFound` | rom/dos/fs.asm:1765-1852 | A name without spaces never makes an entry whose printed name is not the accepted one. |
| `Names.BlankThenNot` | rom/dos/consolec.asm:807-838 | An entry that is found as "A" and printed as "AX". |
| `Decimal.TableEntry` | rom/dos/console.asm:1174-1181 | The entries of the table, as low and high words, are the powers of ten. |
| `Decimal.SubtractIfFits` | rom/dos/console.asm:460-485 | The two-word subtraction with borrow happens exactly when the number is at least the power of ten. |
| `Decimal.FormIsUnique` | rom/dos/console.asm:448-526 | Two right-aligned decimal forms of the same number and width are equal. |
| `Decimal.BlankZeros` | rom/dos/console.asm:505-526 | Blanking leading zeros keeps the value and leaves at least one digit. |
| `Decimal.Unpack` | rom/dos/console.asm:448-526 | For every 32-bit number the conversion ends with its decimal form right-aligned in ten characters, the early exit included. |
| `Checksum.SumPages` | rom/e1100cs.c:78-91 | The page-by-page loop computes the 16-bit sum of all words but the last. |
| `Checksum.Recompute` | rom/e1100cs.c:55-105 | The tool accepts exactly images of a right size with the signature; an accepted image keeps all but its last word and sums to zero, any other is left alone. |
| `Checksum.MirroredWord` | emu/mem.c:65-66 | A word read through banks $08 to $0F is the word of the ROM. |
| `Checksum.BanksInOrder` | rom/boot.asm:523-540 | Summing column by column over the banks is summing in order. |
| `Checksum.BootCheck` | rom/boot.asm:523-540 | The boot-time loop ends and passes exactly when all words of the ROM sum to zero. |
| `Checksum.RecomputeAndBoot` | rom/e1100cs.c:78-98 | A 512 KB image the tool accepts passes the boot-time check. |

## Left out

- `FloppyDevice.FloppyDrive.Poll`: the status port starts from an uninitialised byte (`emu/floppy.c:168`). When a loader polls it, the two bits of that byte that are looked at are taken to be clear; with other values a poll could end early or report an error that is not there.
- `DosStore.RawStoreSector`: the branch for an error bit in the status port is left out, as the bit never shows.
- `Dos.Dos.RawLoadSector`: the poll before the command, which waits for a drive that is busy, and the poll of the error bit during the transfer, which shows nothing, are left out.
- The second drive's ports, and that inserting a disk in one drive clears the other's memory (`emu/floppy.c:85`). Whether an insertion clears the drive's own memory is a parameter.
- `Stack.RunsBalance`: an instruction that reloads the stack pointer, switches between native and emulation mode or writes the stack bank register does not occur in a nested run.
- `Machine.Machine.InPort`: the readings of all other devices are fixed values; timer, keyboard, video and serial devices are not part of this model. Machine reset through port 0 is not either.
- Delivery of interrupts: the drive's interrupt line and the processor's interrupt timing. A hardware interrupt in `Stack` may happen at any point of a run.
- The loaders are methods over the routine's variables; the processor does not execute their assembly text, and their direct-page variables are fields, not RAM.
- `Processor.Cpu.ReadByte`: a processor read of an I/O address as code or stack has no effect here. Registers A, X, Y, B and D, cycle counts and the abort line are not part of the model.
- `EndToEnd.WriteAndBoot`: images are the full size of their medium. Files of more than 64 chunks would wrap around bank $81 and are not covered by the boot theorem.
- `ElfsWriter.Writer.Prepare`: at most 31 files in the root directory. Subdirectories and directory growth, parsing of the volume description and the choice of a serial number are left out; names, attributes, contents and the five bytes of a date, which `Dates` packs, come as values.
- `Dos.Dos.LoadExec`: chains are well-formed. A table with a cycle, which the writer never makes, would keep either loader in its loop.
- `DosFind.ResolveFile`: paths, subdirectories, wildcards, and keeping a directory chunk from an earlier lookup (with its write-back) are left out; the name is looked up in the root directory, which is read anew. `EndToEnd.Launch` is not told the name of the directory itself, and takes the program's bank as given.
- `Dos.Dos.PageIn`: the write-back of a previously active drive, tables not kept in RAM, and DOS error codes (reduced to a flag) are left out.
- Linking and freeing chunks in DOS, open-file handling and seeking within files; allocation of program banks.
- `DmaSchedule.LockstepEqualsInTurn`: jobs that touch I/O addresses; `Machine` covers those one cycle at a time, and `SectorLoad` the drive's data port.
- DMA registers 4 to 7, whose reads have no defined value (`emu/io.c:105-123`), read as 0. Ticks of negative length. Wildcards in file names. The address error of a job that writes DMA registers.
- `Names.Compare`: directory names hold no null characters.
