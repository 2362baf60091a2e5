# Verified model of a PLC display's firmware

The firmware drives a display panel: it keeps a message archive on NOR flash, talks to a controller and to
other panels over CAN, records trends, lets a user edit numbers digit by digit, and takes flash images over
UDP. This project models those parts in Dafny and proves what they promise over all inputs and whole runs.

How it is built up:

- **Flash.** `NorFlash` has the chip (programming is a bitwise AND, an erase sets a sector to 0xFF) and the
  driver that decides per sector between a direct program and erase-then-program. Both drivers of the
  firmware are one class; `halfWords` selects half-word programming.
- **Archive.** `ArchiveSpec` is the archive as a state machine over values, `ArchiveCodec` the record and
  pointer formats, `ArchiveLayout` how they lie in sectors, `MessageArchive` the code itself as a class over
  the flash driver, every method proved equal to a step of the state machine. `ArchiveRun`,
  `ArchiveReboot` and `ArchiveTheorems` prove the state machine against an unbounded list of records, for
  any clock; only a reboot depends on the times in the page pointers. `ArchiveLasting` proves what lasts
  when a reboot shows stale records, and what a second reboot does.
  The proofs hold for every checksum that meets `ArchiveSpec.Sound`; `Crc` shows that the firmware's does.
- **CAN.** `CanRing` (transmit ring and mailbox pump), `CanRingRuns` (runs with overflow, and a
  byte-by-byte interleaving of producer and consumer), `PlcImage` (the frame decoder), `PlcFrames` (what each
  frame does, in its bytes), `CanCmd` (encoders and variable writes), `DigitalInputs` (change reporting,
  through the ring, to a peer's decoder), `InputCycles` (its cycle of 20 calls).
- **Trends.** `TrendRing` (the 64-point ring and its readers), `TrendList` (list, save and restore),
  `TrendMenus` (sessions of the add, edit and delete menus over both; `Panel` runs them on the list itself).
- **Calendar.** `Calendar`: the decoders and the encoder of 32-bit times, with every 8-, 16- and 32-bit
  truncation written out, against the calendar of section 3.2.1 of ISO 8601:2004. The encoder and a third
  copy of the decoder are in user/cur_time.c, the checksum of `Crc.GetCRC16` is in user/crc.c.
- **Small machines.** `DigitEditor` (the editor of three menus), `MessageScanner`, `FlashLoader`,
  `FlashBytes` (the loader in datagram bytes), `BlockTransfer`.

`Bytes` and `RingIndex` hold shared helpers. In each module a class carries the state the firmware updates
in place; a method's `ensures` ties the new state to a function of the old one, and the lemmas are about
that function.

Seven laws turn out to hold only under a condition, and the condition is proved exact:

- A reboot leaves what a user reads unchanged exactly when there is nothing to read, or boot comes back to
  the current page and the page before it holds no record in the slots behind the log, or boot falls back
  to an earlier page and the log up to there ends with the same 256 records
  (`ArchiveReboot.RebootInvisibleIff`); page, pointer offset and last slot come back exactly when the newest
  page pointer's time is positive and larger than all others, or the log is empty
  (`ArchiveReboot.RebootRestoresIff`). Both conditions fail in practice. A clear erases 30 pages only, so
  one record after a clear can read as 256 after a reboot (`ArchiveTheorems.StaleRecordsReappear`); and with
  the clock set back, the record that opens a new page is lost
  (`ArchiveTheorems.ClockSetBackLosesRecord`), and after one more record the next reboot clears the whole
  archive (`ArchiveLasting.SecondRebootClears`). Stale records never touch the rest: flash layout and every
  read inside the log survive each reboot that finds the newest pointer (`ArchiveLasting.RunKeepsLayout`).
- A full transmit ring hands out its newest packet first (`CanRing.FifoIffRoom`).
- Saved trends come back exactly under a condition on the input numbers, because the boot code corrects
  the second and third trend's input number in the first trend (`TrendList.RestoreAfterSaveIff`). Every
  menu keeps the numbers in range, where nothing is lost (`TrendMenus.TrendsSurviveReboot`).
- A date in the year 2000 does not survive encoding (`Calendar.DecodeEncodeIff`).
- Sender and peer agree on a written bit, of the cluster or the network, exactly when the written byte is 0
  or 1 (`CanCmd.BitAgreesIff`).
- A committed flash block holds only payloads sent for its own address exactly when every subpacket since the
  last subpacket 0 that no later one of its quarter replaced was sent for it; the loader does not compare
  addresses (`FlashLoader.CommitIsOwnIff`, `FlashLoader.MixedBlockCommits`).
- The loader's answer stays inside its 1200-byte buffer exactly unless it reads back more than 1191 bytes in
  programming mode (`FlashLoader.AnswerFitsIff`, `FlashLoader.AnswerOverruns`).

## Model

| member | source | states |
|---|---|---|
| NorFlash.AndBlank | user/zd25flash.c:145-153 | a blank cell takes any programmed value unchanged |
| NorFlash.ProgramInTwo | user/flash.c:68-80 | programming a range half-word by half-word gives the same cells as programming it at once |
| NorFlash.Nor.Program | user/zd25flash.c:80-90 | programming can only clear bits: every cell of the range becomes the AND of old and new, others stay; a programmed cell that was not blank is recorded |
| NorFlash.Nor.EraseSector | user/zd25flash.c:92-101 | an erase blanks exactly one sector and is recorded |
| NorFlash.StepRaisesFrontier | user/zd25flash.c:166-205 | one round of the sector loop turns "sectors below s are finished, the rest untouched" into the same for s + 1 |
| NorFlash.CursorAdvances | user/flash.c:140-153 | position, remaining count and source cursor of the loop always describe exactly the part of the write in the current sector |
| NorFlash.FlashDriver.WriteNoCheck | user/flash.c:68-80 | the unchecked write: AND over the range, the same for both drivers |
| NorFlash.FlashDriver.TargetBlank | user/zd25flash.c:169-173 | the scan decides whether the target half-words are all 0xFFFF |
| NorFlash.FlashDriver.Rewrite | user/zd25flash.c:173-188 | the erase branch leaves the data in its range and 0xFF in the rest of the sector, since the buffer is read again after the erase |
| NorFlash.FlashDriver.WriteInSector | user/flash.c:107-139 | within a sector: in place if the target is blank, else erased and rewritten; no used cell is ever programmed |
| NorFlash.FlashDriver.Write | user/zd25flash.c:155-207 | for any even address and length over any number of sectors: cells of the range hold the data, other cells of a sector with used target cells are 0xFF, all else is unchanged; exactly the sectors with used target cells are erased, once each, in order; no used cell is programmed; the loop ends |
| NorFlash.FlashDriver.WriteAt | user/flash.c:89-157 | the same relative to the base of the mapped flash |
| ArchiveCodec.RecordRoundTrip | user/message_archive.c:231-249 | a stored record checks, reads back field for field, and is never a blank slot |
| ArchiveCodec.PointerRoundTrip | user/message_archive.c:93-102 | a stored page pointer checks and reads back its time and page |
| ArchiveCodec.RecordBytes | user/message_archive.c:231-249 | a stored record byte by byte: time, id, kind, payload length, checksum, payload and zeros |
| ArchiveCodec.PointerBytes | user/message_archive.c:93-102 | a stored pointer byte by byte: time, page, checksum |
| ArchiveCodec.UnusedSlotsFail | user/message_archive.c:130-142 | blank and zeroed slots do not check |
| ArchiveCodec.BlankEntryFails | user/message_archive.c:57-59 | a blank pointer entry does not check |
| ArchiveLayout.RecordWriteIsSlotWrite | user/message_archive.c:251-255 | a record written through the driver changes one slot of one page, or, if that slot was used, blanks the page around it, and touches no other page and no pointer |
| ArchiveLayout.PointerWriteIsEntryWrite | user/message_archive.c:103-107 | the same for an 8-byte pointer in the pointer sector |
| MessageArchive.MessageArchive.CheckRecord | user/message_archive.c:130-142 | the byte-level test decides exactly the record format's check, longer payloads than 6 failing |
| MessageArchive.MessageArchive.ScanPointers | user/message_archive.c:49-84 | the loop finds the last entry, in the prefix that checks, whose time beats all accepted before it and whose page exists |
| MessageArchive.MessageArchive.SearchLastRecord | user/message_archive.c:42-87 | the same from flash; the offset changes only when something is found |
| MessageArchive.MessageArchive.CreateNewPagePtr | user/message_archive.c:89-109 | one pointer written at the offset, wrapping to the sector start after 512, and the offset moved on |
| MessageArchive.MessageArchive.FillSlot | user/message_archive.c:231-249 | field by field, payload cut and zero-padded, checksum last, gives the encoded record in its slot and changes no other byte |
| MessageArchive.MessageArchive.AddRecord | user/message_archive.c:200-260 | from any valid state an add is the archive machine's add: page change, pointer, slot in RAM and flash, cursor |
| MessageArchive.MessageArchive.ClearArchive | user/message_archive.c:315-328 | zeroed RAM page, fresh pointer to page 0, pages 0 to 29 erased and no other |
| MessageArchive.MessageArchive.EraseFirstPages | user/message_archive.c:324-326 | exactly the first 30 data sectors become blank |
| MessageArchive.MessageArchive.CountLeading | user/message_archive.c:155-163 | the number of leading slots that check |
| MessageArchive.MessageArchive.OpenArchive | user/message_archive.c:144-187 | boot depends on flash alone: current page and its predecessor are merged into RAM, or the archive is cleared |
| MessageArchive.MessageArchive.RecordsCount | user/message_archive.c:262-277 | the backward walk over the RAM ring returns the machine's count |
| MessageArchive.MessageArchive.GetRecord | user/message_archive.c:279-313 | the record the given number of slots behind the newest, or nothing if that slot does not check |
| ArchiveRun.GetReadsLog | user/message_archive.c:279-313 | if RAM and cursor hold the newest records of a log, offset k reads the record added k calls before the newest, payload cut to 6 bytes, and nothing beyond the log; k counts modulo 256 |
| ArchiveRun.WalkCounts | user/message_archive.c:266-274 | the backward walk stops at the first slot that does not check, or after 256 |
| ArchiveRun.CountIsLogLength | user/message_archive.c:262-277 | under the same condition the count is the smaller of the log's length and 256 |
| ArchiveRun.PtrsKept | user/message_archive.c:89-109 | at any clock reading the pointer sector stays a non-empty prefix of valid entries that name the latest pages in order, followed by blanks; it starts over when full |
| ArchiveRun.PagesKeptInPage | user/message_archive.c:206-257 | an add within a page lands on a blank slot and keeps every retained record |
| ArchiveRun.PagesKeptOnTurn | user/message_archive.c:208-224 | the first record of a reused page removes exactly that page's old records |
| ArchiveRun.RamKept | user/message_archive.c:231-249 | RAM keeps holding the newest 256 records, one per slot |
| ArchiveReboot.AddKeepsInv | user/message_archive.c:200-260 | an add at any time keeps the whole layout invariant and appends the cut record to the log |
| ArchiveReboot.AddKeepsReads | user/message_archive.c:200-260 | whatever flash and clock hold, what the readers see grows by exactly the added record |
| ArchiveReboot.ClearReadsNothing | user/message_archive.c:315-328 | after a clear the readers see nothing, whatever was there |
| ArchiveReboot.ClearEmptiesIff | user/message_archive.c:315-328 | a clear reaches the empty layout if and only if the pointer sector is blank or used from its first entry, and so is each page it does not erase |
| ArchiveReboot.ClearErases | user/message_archive.c:315-328 | what a clear leaves: 30 blank pages and the others as they were, one pointer for page 0 in front; and the sectors it erases, in order |
| ArchiveReboot.InvIsClearable | user/message_archive.c:315-328 | whatever a run leaves behind meets that condition |
| ArchiveReboot.FoundIsLatest | user/message_archive.c:55-84 | boot finds the first of the pointers with the largest time, and none exactly when all times are 0 |
| ArchiveReboot.SearchFindsNewestIff | user/message_archive.c:55-84 | boot finds the newest page pointer if and only if its time is positive and larger than all others |
| ArchiveReboot.FoundPage | user/message_archive.c:68-75 | which page boot takes, from how many pointers back the latest time is and how many pages there are |
| ArchiveReboot.ReadsAfterReturn | user/message_archive.c:144-183 | when boot comes back to the current page, cursor and page are restored and the readers see the log if and only if the predecessor page shows no record beyond it |
| ArchiveReboot.ReadsAfterFallback | user/message_archive.c:144-187 | otherwise the readers see exactly the log up to the end of the turn boot falls back to, or nothing |
| ArchiveReboot.RebootRestoresIff | user/message_archive.c:144-187 | page, pointer offset and last slot come back if and only if the newest pointer's time is positive and larger than all others, or the log is empty |
| ArchiveReboot.RebootKeepsInvIff | user/message_archive.c:144-187 | the whole invariant survives a reboot if and only if that time is the largest and the predecessor page shows no record beyond the log, or it is not and the log is empty |
| ArchiveReboot.RebootInvisibleIff | user/message_archive.c:144-187 | every read survives a reboot if and only if the log is empty, or boot comes back to the current page and the predecessor page shows no record beyond the log, or the log boot falls back to ends with the same 256 records; the record count then survives too |
| ArchiveReboot.RebootSafeOnceFilled | user/message_archive.c:171-183 | the predecessor page shows no record beyond the log once 256 records were added since the clear, or while it is blank |
| ArchiveReboot.UnsafeRebootShows | user/message_archive.c:171-183 | if it does show one, some offset reads it after the reboot |
| ArchiveTheorems.FirstBoot | user/message_archive.c:184-186 | flash in which the pointer search finds nothing opens as the empty archive |
| ArchiveTheorems.RunKeepsInv | user/message_archive.c:89-328 | every run of adds and clears at any times, and of reboots that meet the exact condition, keeps the flash and RAM layout |
| ArchiveTheorems.ArchiveRefinesLog | user/message_archive.c:144-328 | from first boot, after any such run, count and every read agree with the plain list of records added since the last clear |
| ArchiveTheorems.ClearedArchiveReadsLog | user/message_archive.c:200-328 | the same for adds and clears at any times after a clear, whatever flash holds |
| ArchiveTheorems.AddErasesOnly | user/message_archive.c:207-224 | an add that stays in its page erases nothing; on a page change only a full pointer sector and a used new page are erased |
| ArchiveTheorems.WearBound | user/message_archive.c:89-109 | over n adds at any times after a clear the pointer sector is erased exactly once per 512 page changes, and data sectors exactly once per change to a used page, so at most once per page change |
| ArchiveTheorems.StaleRecordsReappear | user/message_archive.c:324-326 | with all pages full, a clear, one add and a reboot show 256 records |
| ArchiveTheorems.ClockSetBackLosesRecord | user/message_archive.c:68-75 | a page opened at a time not later than the newest pointer is forgotten by a reboot, and its record with it, although no stale record is in the way |
| ArchiveLasting.RunKeepsLayout | user/message_archive.c:89-328 | through every run of adds and clears at any times, and of reboots that find the newest pointer, stale records in the way or not, the flash layout stays and every read inside the log is right; if every data page was a prefix of valid records followed by blanks, every page stays one |
| ArchiveLasting.AddKeepsPrefixes | user/message_archive.c:207-257 | an add keeps every data page a prefix of valid records followed by blanks |
| ArchiveLasting.RebootKeepsKept | user/message_archive.c:144-187 | a reboot that finds the newest pointer keeps layout, cursor and the log's RAM slots, whatever the predecessor page shows |
| ArchiveLasting.SecondRebootClears | user/message_archive.c:89-109 | after a reboot that fell back to an earlier page, the next add writes its pointer over a used entry, and the reboot after that finds no pointer and clears the archive |
| Crc.FirmwareConfigsSound | user/message_archive.c:57-58 | with the firmware's checksum, both page counts (128 and 32) meet every assumption of the archive proofs |
| CanRing.TxStack.constructor | user/can_tx_stack.c:4-12 | all slots empty, both positions 0, for any ring length |
| CanRing.TxStack.Add | user/can_tx_stack.c:14-29 | a packet of at most 8 bytes fills the write slot and moves the position on; a longer one changes nothing |
| CanRing.TxStack.Get | user/can_tx_stack.c:31-55 | a ready slot is handed out and freed; otherwise nothing changes |
| CanRing.TxStack.Pump | user/can.c:104-127 | nothing before the gap time; else packets are taken only on a free mailbox, at most 9, and all taken packets are sent |
| CanRing.AddEnqueues | user/can_tx_stack.c:14-29 | with room, an add appends to the queue the ring holds |
| CanRing.TakeDequeues | user/can_tx_stack.c:31-55 | a take removes the queue's oldest packet, or finds it empty |
| CanRing.FifoIffRoom | user/can_tx_stack.c:14-55 | with a packet waiting, the next one out is still the oldest if and only if the add found room or repeated it |
| CanRing.PumpSendsOldest | user/can.c:109-126 | the pump sends exactly the oldest packets, one per free mailbox seen and at most 9, and the ring keeps the others in order |
| CanRingRuns.NothingTwiceNothingInvented | user/can_tx_stack.c:14-55 | in every sequential run, overflow included, positions stay in range and each delivery is a different accepted packet |
| CanRingRuns.InterleavedFifo | user/can_tx_stack.c:14-55 | in every byte-level interleaving of one producer and one consumer with at most n packets outstanding, the packets handed out are a prefix of those published: complete, in order, once |
| CanRingRuns.NoMoveFaults | user/can_tx_stack.c:22-47 | no such run ever ends in an access out of range |
| PlcImage.PlcNode.DecodeInputsOutputs | user/can.c:172-217 | the loop over packed inputs and outputs sets exactly the entries the mask names, faults before states |
| PlcImage.PlcNode.DecodeBits | user/can.c:222-234 | the loop sets exactly the masked table entries, in both copies |
| PlcImage.PlcNode.DecodeDigitalTypes | user/can.c:267-279 | digital input types and used flags per mask bit |
| PlcImage.PlcNode.DecodeAnalogTypes | user/can.c:254-266 | analog types and used flags per mask bit, including the branch that clears digital types |
| PlcImage.PlcNode.Receive | user/can.c:146-319 | one frame moves the whole image as the decoding function says, for every service and object, and hands an analog value to the trends exactly when the source does |
| PlcImage.PlcNode.ResetData | user/plc_data.c:33-60 | inputs and outputs off, analog raw values and values 0, all four tables zero in both copies, everything else kept |
| PlcImage.PlcNode.InitData | user/plc_data.c:63-68 | the same with all inputs marked unused |
| PlcFrames.PackedInputs | user/can.c:172-198 | in frame bytes: for each of the 14 inputs, a mask bit that names it decides use, and its fault bit before its state bit the level, state and fault; inputs not named stay |
| PlcFrames.PackedOutputs | user/can.c:198-216 | in frame bytes: a mask bit that names output start + i - 129 makes a fault bit Fault, with the state kept, and otherwise the state bit On or Off; outputs not named stay |
| PlcFrames.ClusterBits | user/can.c:218-235 | under any mask, exactly the named cluster bits take the state bits, in both copies, and nothing else changes |
| PlcFrames.NetworkBits | user/can.c:281-299 | the same for the network bits, the index taken modulo 256 after the cluster's base |
| PlcFrames.ClusterRegister | user/can.c:246-251 | exactly the named cluster register takes bytes 2 and 3, low byte first, in both copies |
| PlcFrames.NetworkRegister | user/can.c:300-306 | the same for a network register |
| PlcFrames.AnalogInput | user/can.c:236-245 | exactly the named analog input takes value, tdu, fault and raw value from their bytes, and exactly then the trends get node, number and value |
| PlcFrames.NothingElseIsSampled | user/can.c:157-243 | no other frame gives the trends a sample |
| PlcFrames.DigitalTypes | user/can.c:267-279 | the digital inputs in use are those the mask in bytes 2 and 3 names |
| PlcFrames.AnalogTypes | user/can.c:254-266 | the analog inputs the mask names become voltage inputs in use; for the others the digital type is cleared, as coded |
| PlcFrames.DeviceState | user/can.c:307-315 | application id under number 3, IP state under number 17, else nothing |
| PlcFrames.Heartbeat | user/can.c:158-169 | all link fields after a heartbeat, whether names are asked for or inputs forced, and the link table of cluster 0 |
| PlcFrames.OtherFrames | user/can.c:170-316 | service 0 and objects without a case change nothing |
| PlcFrames.ResetIs | user/plc_data.c:33-68 | field by field what a reset and the initialisation leave |
| CanCmd.Display.WriteVarToPlc | user/menu.c:308-342 | without a link nothing; else the clamped value enters both copies of one entry and one packet is queued; out-of-range indices change no table |
| CanCmd.ClampedIs | user/menu.c:310-311 | the value becomes the nearest within ordered limits; the lower limit wins when they are not ordered |
| CanCmd.WriteStores | user/menu.c:308-342 | per variable kind, exactly the named entry of both copies takes 16 or 8 bits of the clamped value, and a packet is queued, if and only if the link is up and the index is inside that table |
| CanCmd.IdFields | user/can_cmd.c:23-23 | service, node and cluster address come back out of an identifier |
| CanCmd.SendersAre | user/can_cmd.c:20-96 | identifier, service and source node of each encoder: cluster bits speak for the controller, all others for the display |
| CanCmd.PeerGetsBit | user/can_cmd.c:20-45 | decoding a bit frame at a peer sets exactly that entry to zero or one and nothing else |
| CanCmd.PeerGetsReg | user/can_cmd.c:47-71 | decoding a register frame sets exactly that entry to the sender's value and nothing else |
| CanCmd.PeerGetsWrite | user/menu.c:308-342 | for every variable write that sends, the decoder at any peer sets exactly the named entry to the clamped value |
| CanCmd.RegisterIsClampedIff | user/menu.c:310-325 | the register holds the clamped value itself if and only if 16 bits hold the lower limit and one of value and upper limit; it lies within the limits if and only if they are ordered |
| CanCmd.BitAgreesIff | user/menu.c:327-340 | sender and peer hold the same cluster or network bit if and only if the low byte written is 0 or 1 |
| CanCmd.MirrorHolds | user/can.c:171-306 | every run of well-formed frames, local writes and resets keeps the tables equal to the cluster copies, inputs ON exactly when their state is 1, outputs ON exactly when their state is 1 without fault |
| CanCmd.MirrorFromInit | user/plc_data.c:63-68 | initialisation establishes this from any state |
| DigitalInputs.Reporter.UpdateDiData | user/can_task.c:24-55 | one call: changes are collected, on the 20th call the masked frame is queued and the collection emptied; the cycle theorems pin what a sequence of calls does |
| DigitalInputs.Reporter.ForceUpdate | user/can.c:160-164 | every input is marked for the next report, nothing else changes |
| InputCycles.CallsSoFar | user/can_task.c:32-39 | k calls into a cycle, k below 20, the counter is k, nothing has been sent, and the marks are the inputs marked at the start or seen to change |
| InputCycles.TwentyCalls | user/can_task.c:38-54 | for any 20 readings the 20th call sends one report, whose mask names exactly the inputs marked at the start or seen to change and whose state bits are their last readings, or none if there are none; the next cycle starts unmarked |
| InputCycles.TimerCounts | user/can_task.c:38-53 | in any run, only calls move the counter, each by one modulo 20 |
| InputCycles.TwentyTicksFlush | user/can_task.c:24-55 | in every run with 20 calls in it, whatever else happens in between, some call is followed by the peer agreeing, once the ring has drained, with every input |
| DigitalInputs.PackedBit | user/can_task.c:42-46 | bit i of a packed byte is input i |
| DigitalInputs.PeerDoesAsTold | user/can.c:172-197 | the decoder moves an input's state exactly as a report's mask and state bits say, and no other traffic of the sender moves it |
| DigitalInputs.WritesAreQuiet | user/can_cmd.c:20-71 | variable writes are such other traffic |
| DigitalInputs.TickKeeps | user/can_task.c:24-55 | a call keeps "agrees with the peer once the ring has drained, or is marked"; a flush leaves no mark |
| DigitalInputs.DeliverKeeps | user/can.c:146-217 | delivering the oldest packet keeps it too |
| DigitalInputs.ForceGivesInv | user/can.c:160-164 | a forced update marks every input, whatever the peer holds and the ring carries |
| DigitalInputs.StartGivesInv | user/can_task.c:20-22 | with an empty ring, inputs that match the peer or are marked are where the convergence starts |
| DigitalInputs.InputsConverge | user/can_task.c:24-55 | with a peer in any condition, once each input agrees or is marked: in every run of calls, forced updates, other packets and deliveries that stays so; after a flush, which 20 calls are sure to bring, all agree, and with an empty ring the peer shows exactly the inputs |
| TrendRing.TrendBuffer.AddData | user/trend_data.c:106-117 | a sample enters the write position, which wraps and then drags the first position along |
| TrendRing.TrendBuffer.DataCnt | user/menu/draw_trend_menu.c:26-41 | the length of the window up to the first unused point, at most 63 |
| TrendRing.TrendBuffer.Last | user/menu/draw_trend_menu.c:57-71 | the window's newest point (value 0 and time 0 if empty), as the current value and the end time |
| TrendRing.TrendBuffer.Min | user/menu/draw_trend_menu.c:73-87 | the smallest value in the window, 255 if empty |
| TrendRing.TrendBuffer.Max | user/menu/draw_trend_menu.c:89-104 | the largest value in the window, plus 5 where that fits |
| TrendRing.TrendBuffer.BeginTime | user/menu/draw_trend_menu.c:106-112 | the oldest time in the window |
| TrendRing.HistoryHolds | user/trend_data.c:106-117 | after n samples every ring point holds the newest sample that fell on it; the positions and the full flag are functions of n |
| TrendRing.WindowIsRecentIff | user/menu/draw_trend_menu.c:26-41 | after any samples the readers see exactly the last 63, in order, if and only if none of those carries the unused-point time |
| TrendList.TrendStore.constructor | user/trend_data.c:49-104 | boot restores count and limits from the registers, or the defaults, with the corrections as coded |
| TrendList.TrendStore.Add | user/trend_data.c:119-124 | appends to the list in use, or fails on a full list and changes nothing |
| TrendList.TrendStore.Delete | user/trend_data.c:130-139 | removes exactly the numbered trend, moves the later slots up and leaves a fresh trend last; other numbers change nothing |
| TrendList.TrendStore.Save | user/trend_data.c:152-194 | all three slots' limits and the count packed into the registers |
| TrendList.TrendStore.AddFromCan | user/trend_data.c:196-206 | a sample reaches exactly the slots with its node and input number |
| TrendList.SavedWords | user/trend_data.c:152-194 | the registers byte for byte: address and input number, the two minima, the two maxima, per trend |
| TrendList.RestoreAfterSaveIff | user/trend_data.c:67-104 | restore after save returns the count always, and all limits if and only if the first trend's input number is what the last out-of-range input number would correct it to |
| TrendMenus.AddMenuStores | user/menu/add_trend_menu.c:199-281 | whatever keys are pressed, the trend the add menu stores has an input number from 1 to 14 |
| TrendMenus.EditMenuStores | user/menu/edit_trend_menu.c:258-318 | the edit menu keeps all three input numbers in that range |
| TrendMenus.RowsAreLimits | user/menu/edit_trend_menu.c:49-115 | the six menu fields are the six limits in order, there and back, and setting one field sets that limit alone |
| TrendMenus.EditSession | user/menu/edit_trend_menu.c:258-318 | an edit session that types any value in range into any field of any trend: ended with Enter or Left, exactly that member of that trend has exactly that value, and the registers hold it; ended with Exit, nothing changed |
| TrendMenus.AddSession | user/menu/add_trend_menu.c:199-281 | the same for the add menu: Enter and Down append a fresh trend with that value and the defaults, Left and Exit change nothing |
| TrendMenus.Panel.AddSessionOf | user/menu/add_trend_menu.c:199-281 | an add session on the trend list itself, key by key, is the step of the run |
| TrendMenus.Panel.EditSessionOf | user/menu/edit_trend_menu.c:258-318 | so is an edit session |
| TrendMenus.Panel.DeleteSessionOf | user/menu/delete_trend_menu.c:80-101 | so are delete and save |
| TrendMenus.Panel.SampleOf | user/trend_data.c:196-206 | so is a sample |
| TrendMenus.Panel.Restart | user/trend_data.c:49-104 | so is a boot from the registers |
| TrendMenus.EventKeeps | user/menu/delete_trend_menu.c:80-101 | each menu session, sample and reboot keeps the numbers in range and the registers equal to the trends |
| TrendMenus.TrendsSurviveReboot | user/trend_data.c:49-104 | from the default registers, after every run of menu sessions, samples and reboots, a reboot brings back the count and every trend's limits |
| Calendar.SplitDaysIsSplit | user/message_archive.c:394-402 | no 8-bit or 32-bit intermediate of the decoder loses information |
| Calendar.SplitIsDate | user/menu/draw_trend_menu.c:134-142 | century, year, month and day arithmetic inverts the Julian day number on the whole 32-bit time range |
| Calendar.DecodeDenotes | user/message_archive.c:391-405 | every 32-bit time decodes to a valid Gregorian date with Julian day number 2451911 + t/86400, and denotes exactly t |
| Calendar.EncodeDecode | user/message_archive.c:391-405 | the encoder, lines 54 to 76 of user/cur_time.c, undoes the decoder for every 32-bit time |
| Calendar.DecodeEncodeIff | user/menu/draw_trend_menu.c:131-145 | for the clock's years 2000 to 2099, the decoder undoes the encoder, lines 54 to 76 of user/cur_time.c, if and only if the year is not 2000 |
| DigitEditor.Menu.constructor | user/menu/edit_trend_menu.c:49-115 | the menu opens on its first row, first field, first column, showing that row's values |
| DigitEditor.Menu.GetCurParam | user/menu/add_trend_menu.c:106-115 | the first selected field, 0 if none |
| DigitEditor.Menu.PosToRight | user/menu/add_trend_menu.c:117-130 | the cursor moves one column on, or to the next field |
| DigitEditor.Menu.SplitDigits | user/menu/add_trend_menu.c:134-144 | repeated subtraction yields the three decimal digits |
| DigitEditor.Menu.UpdateParamValue | user/menu/set_time_menu.c:133-177 | one digit replaced, the result clamped, stored in the field and the edited structure, the cursor moved; the time menu reads the clock for the other members and sets it to all of them |
| DigitEditor.Menu.Press | user/menu/edit_trend_menu.c:258-318 | one pass of each menu: what the key does, and exactly which keys leave and which store: in the edit menu Enter and Left store and Exit discards, on a key change; in the add menu Down and Enter store unless the list is full |
| DigitEditor.Menu.ShowClock | user/menu/set_time_menu.c:179-201 | the clock reading enters the structure and every field but the selected one |
| DigitEditor.LeavesAndStores | user/menu/add_trend_menu.c:199-281 | the same exit and store conditions of all three menus, over the editor's states |
| DigitEditor.IdleKeys | user/menu/set_time_menu.c:244-283 | a held digit, keys that only leave, and every key of a full list but those change nothing |
| DigitEditor.RightKey | user/menu/edit_trend_menu.c:283-285 | from any legal state Right moves one column on or to the next field's first column, past the last field to the first, and changes no value |
| DigitEditor.UpDownKeys | user/menu/edit_trend_menu.c:275-282 | Up and Down go to the previous and next trend in use, show its six values and limits, and select the first field |
| DigitEditor.BoundsAre | user/menu/set_time_menu.c:43-105 | minimum, maximum and width of every field of the menus |
| DigitEditor.ShowsClock | user/menu/set_time_menu.c:179-201 | every field but the selected one, and the structure, show the reading |
| DigitEditor.ToRightMoves | user/menu/edit_trend_menu.c:128-141 | from a legal state, exactly one field stays selected and the cursor stays inside it |
| DigitEditor.RunStaysLegal | user/menu/add_trend_menu.c:106-173 | over every run of passes, keys and clock readings, in each menu, exactly one field is selected, the cursor is inside it and every value shown or stored is in range |
| DigitEditor.ClampShares | user/menu/add_trend_menu.c:149-150 | clamping towards a range that contains v cannot change leading digits shared with v |
| DigitEditor.TypingEnters | user/menu/set_time_menu.c:133-177 | from any legal state at the start of a field, typing the digits of any value in range stores exactly that value and selects the next field, despite the clamp after each key; a trend's other members stay, and the clock is set to its last reading with that one member replaced |
| DigitEditor.PassesType | user/menu/add_trend_menu.c:106-173 | typing a number digit by digit is a run of passes of the menu, a key up before each key down |
| DigitEditor.SwitchStaysLegal | user/menu/edit_trend_menu.c:275-282 | switching to another trend keeps a legal state legal |
| DigitEditor.MenusOpenIff | user/menu/set_time_menu.c:43-105 | the menus open in a legal state if and only if all values are in range; the add menu always |
| MessageScanner.Scanner.ScanMessages | user/message_scaner.c:19-49 | one scan refreshes every used entry and adds one record per change to a non-zero value, in index order, to the archive |
| MessageScanner.Scanner.ActiveCount | user/message_scaner.c:51-70 | the number of active messages; previous values untouched |
| MessageScanner.Scanner.ByNumber | user/message_scaner.c:72-96 | the num-th active message if there is one, else nothing |
| MessageScanner.ActiveList | user/message_scaner.c:54-94 | the enumeration lists every entry in use whose bit, or kept value, is not 0, exactly once and in index order |
| MessageScanner.ArchivedAreChanges | user/message_scaner.c:19-96 | over any run, the records archived are exactly the scan-to-scan changes to a non-zero value, in order, whatever counts and lookups come between |
| MessageScanner.RunFromConfiguration | user/message_scaner.c:19-49 | the same from the configuration, where all previous values are 0 |
| MessageScanner.ScanExtendsArchive | user/message_scaner.c:30-45 | at any clock readings a scan extends the archive's log by exactly its changes and keeps the archive's invariant |
| MessageScanner.ScanRecordsSay | user/message_scaner.c:30-45 | a scan archives one record per entry that changed to a non-zero value, in index order; each carries the clock read at it and says version, variable type, index high byte first and value |
| MessageScanner.RecordSays | user/message_scaner.c:37-41 | one record byte by byte: id 0, the message's type, and a payload of 1, variable type, index high byte first, value |
| FlashLoader.UdpLoader.Answer | user/udpecho.c:44-140 | every command's effect on mode, buffer and flash, and its answer byte for byte, or that it runs past its buffer |
| FlashLoader.UdpLoader.SwitchMode | user/menu/prog_menu.c:37-44 | a panel key changes the mode and nothing else |
| FlashBytes.UpdatesAreAccepted | user/udpecho.c:52-82 | a datagram is taken if and only if bytes 0 to 3 are a request, bytes 6 and 7 are 0 and 1, the mode is on, the address in bytes 8 to 11 is a multiple of 4096, byte 12 is below 4 and the length is 1037 |
| FlashBytes.UpdatePutsBytes | user/udpecho.c:82-90 | then cell 1024 * byte 12 + i of the block becomes byte 13 + i for every i below 1024, the rest is cleared for byte 12 = 0 and else kept, and for byte 12 = 3 the block is committed at that address; no other datagram changes block or flash |
| FlashBytes.ModeBytes | user/udpecho.c:119-132 | commands 3 and 4 switch the mode, no other datagram does |
| FlashBytes.ModeIsLastSwitch | user/udpecho.c:119-132 | over every run the mode is what the last mode command or panel key set |
| FlashBytes.AnswerBytes | user/udpecho.c:65-132 | every answer byte for byte by command number |
| FlashLoader.AnswerFitsIff | user/udpecho.c:100-117 | the answer stays inside its buffer if and only if it is not a read command in programming mode for more than 1191 bytes |
| FlashLoader.AnswerOverruns | user/udpecho.c:105-113 | in programming mode the 14-byte read command for 65535 bytes makes an answer of 65544 bytes |
| FlashLoader.RepliesAreQuiet | user/udpecho.c:54-64 | an answer repeats id and command, and is itself ignored by a loader that receives it |
| FlashLoader.UdpLoader.Place | user/udpecho.c:83-85 | the copy loops set one quarter, clearing the block first for subpacket 0 |
| FlashLoader.RejectedChangesNothing | user/udpecho.c:79-96 | a packet that is not accepted changes neither block nor flash |
| FlashLoader.RunAssembles | user/udpecho.c:71-97 | over any datagrams and panel switches, buffer and each committed block hold for each quarter the last payload accepted since the last subpacket 0, zeros where none came; a block is committed at the address of its subpacket 3; an answer past its buffer ends the run |
| FlashLoader.OverrunIff | user/udpecho.c:100-117 | a run ends that way if and only if some read command finds programming mode on and asks for more than the answer buffer holds |
| FlashLoader.LoaderAssembles | user/udpecho.c:71-132 | the same from power-on |
| FlashLoader.InOrderImage | user/udpecho.c:83-89 | subpacket 0 first, 3 last and 1, 2 in either order commit the image, whatever came before |
| FlashLoader.SentForIff | user/udpecho.c:82-85 | a block holds only payloads sent for a given address if and only if every subpacket not yet superseded carried it |
| FlashLoader.CommitAt | user/udpecho.c:86-90 | each accepted subpacket 3 makes the commit of its number, at its address, with the block assembled so far, and there are no other commits |
| FlashLoader.CommitIsOwnIff | user/udpecho.c:82-90 | a commit holds only payloads sent for its own address if and only if every subpacket not yet superseded by then carried it |
| FlashLoader.MixedBlockCommits | user/udpecho.c:82-89 | three quarters sent for one address and the last for another are all committed at the last one's |
| BlockTransfer.Bus.SendPadded | user/bt816_spi.c:105-137 | the data, then zeros to the next multiple of 4; nothing for no data |
| BlockTransfer.Bus.Transfer | user/bt816_cmd.c:508-528 | one chip select per block of at most 3840 bytes |
| BlockTransfer.Bus.SendString | user/bt816_cmd.c:904-929 | up to 249 characters before the first zero, then one to four zeros |
| BlockTransfer.BlocksAreLegal | user/bt816_cmd.c:513-527 | every block carries the prefix and 1 to 3840 bytes, a multiple of 4; all but the last carry 3840 |
| BlockTransfer.TransferDelivers | user/bt816_cmd.c:508-528 | behind the prefixes the controller receives exactly the data plus zeros to the next multiple of 4, for every length |
| BlockTransfer.StringReadsBackIff | user/bt816_cmd.c:904-929 | the first 249 characters go out, then one to four zeros; a reader that stops at the first zero gets the string back if and only if it has at most 249 characters |

## Left out

- ArchiveTheorems.ArchiveRefinesLog: reboots happen between completed calls only; power loss inside a call, where the pointer may be written before the first record of its page, is not modelled.
- NorFlash.FlashDriver.Write: the chip never stays busy and never fails, so the error returns and time-outs are absent; one SPI program command may cover up to a whole 4096-byte sector; half-words are byte pairs.
- MessageArchive.MessageArchive.CheckRecord: the source reads past its 16-byte copy when the length byte exceeds 6; here such a record does not check, as the reader at user/message_archive.c:295 also decides.
- MessageArchive.MessageArchive.AddRecord: addresses count from the pointer sector, so the archive's start address in the chip is not part of the model; the variant without external flash (RAM only) is left out.
- Crc.GetCRC16: the two 256-entry tables of user/crc.c are represented by the polynomial they tabulate.
- CanRingRuns.InterleavedFifo: one producer at a time; the display task and the CAN task adding at once is not modelled, and order is claimed only without overflow.
- CanRing.TxStack.Get: the branch for a stored length above 8 (user/can_tx_stack.c:40-45) and the guards for positions outside the ring are unreachable, since add keeps lengths and positions in range, and are absent.
- PlcImage.PlcNode.Receive: frames with an internal address below 16 (cluster bits) or 17 (cluster registers), which index outside the tables, are excluded.
- DigitalInputs.Reporter.UpdateDiData: only the 8 inputs that are reported are kept; the upper byte of the masks stays 0.
- TrendRing.TrendBuffer.Last: the lookups by trend number, which return 0 for a missing trend, are left out.
- DigitEditor.Menu.Press: drawing is left out, and with it pulling the cursor inside its field, where it always is.
- TrendMenus.TrendsSurviveReboot: a menu session is one step; samples that arrive while the edit menu is open, and are lost when it stores its copies, are not modelled.
- FlashLoader.UdpLoader.Answer: the reset timer and the menu shown are left out; the header bytes the source reads unchecked must be there; what the firmware does after an answer has run past its buffer is undefined and not modelled.
- MessageScanner.Scanner.ScanMessages: configured indices lie inside the bit tables, while user/config.c:615-620 stores any 16-bit index.
- MessageScanner.Scanner.ActiveCount: the same indices.
- MessageScanner.Scanner.ByNumber: the same indices.
- Calendar.DecodeDenotes: the formatting of date and time as text is left out.
- BlockTransfer.Bus.SendPadded: the QSPI registers and their ready flags are left out; bytes count in the order they are written.
- Floating-point scaling and trend point positions, drawing, passwords, IP settings, the FatFs glue, peripheral drivers and everything under libraries/ and middlewares/ are outside the model.
