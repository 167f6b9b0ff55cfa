# Verified core of the ZoniStation One CD-ROM, event and memory paths

This project models the parts of the emulator whose correctness is hardest to see by reading, and proves what
they promise. The disc image, RAM and the guest are ordinary values: a sector is 2352 bytes, an image file a
sequence of bytes, the guest a sequence of register writes.

- **Sector codes** (`Gf256`, `Edc`, `CodeTables`, `SectorCodes`, `SectorDistance`). The checksum and the two Reed-Solomon parity
  sets of a CD-ROM sector (sections 14.3 to 14.6 and Annex A of ECMA-130), from the field arithmetic up to the
  generator that writes them in place. The parity equations are defined on their own, and the bytes the table
  trick writes are shown to be the only solution. Both sets together keep valid sectors exactly nine bytes apart.
- **ECM images** (`EcmHeader`, `EcmSector`, `EcmImage`, `EcmContainer`). Random sector reads through an index of
  runs, against decoding the image from front to back, and an encoder for the format, against which reading is
  a round trip.
- **Background reader** (`AsyncReader`). Two threads under one mutex; one critical section is one atomic step,
  and a run is any interleaving.
- **CD-ROM controller** (`CdromModel`, `CdromSafety`, `CdromRuns`, `CdromTiming`, `CdromDrive`, `CdromGuest`,
  `CdromDeeds`, `CdromController`). A state machine whose inputs are guest writes, the passing of time, three
  scheduled events and the reader's steps, with a log of what the drive did. `CdromModel` gives each step as a
  function, `CdromSafety` the invariants, `CdromRuns` the promises over all runs, `CdromTiming` how late events can be
  and when a command waits its own delay, `CdromDrive` exactly how a drive can be left with a seek marked or a
  response awaited for ever. `CdromGuest` says what the commands executed so far ask for, and `CdromDeeds` that the
  drive does it: where reads, plays and seeks go, where each sector goes, what is refused and when all is due.
  `CdromController` is the object whose methods update its fields; performing any inputs takes it through exactly
  that run of the model.
- **Event scheduler and DMA** (`EventQueue`, `GpuDma`, `GpuLists`). Twelve slots on a wrapping 32-bit clock with a
  cached next event, and the CPU's countdown, which makes it dispatch: no event is ever due before the countdown has
  run out, and which handlers a dispatch calls, and in what order, is determined. A linked-list walk cut into slices,
  and which words a list sends; the ordering-table transfer that builds such lists.
- **XA audio** (`AudioFifo`, `XaAudio`, `XaFilter`). The bounded frame queue and both resamplers, whose state crosses
  sectors; every output sample is a weighted sum of the inputs before it.
- **Track map** (`TrackMap`). Layout of a single raw image from its CUE sheet, reads, subchannel Q, patches.
- **Fast paths** (`Debugger`, `FastLoad`). Hash filters against walking the lists; inline RAM loads against the
  full bus load.

Code that updates state in place is a class or works on arrays; its methods are proved equal to functions, and
the properties are lemmas about those functions. The controller's fields are grouped into records (`Ports`,
`Events`, `Head`, `Mode`) instead of standing side by side. Clock values and deadlines are unbounded there and are
reduced to 32 bits where the source takes a difference; in `EventQueue` they are 32 bits wide throughout.

Where the code and its own comments disagree, the model follows the code:

- `ecc_generate` says Mode 1 also needs the address zeroed; `ecm_edc_generate` does not zero it for Mode 1.
- `cdrom_ecm.h` promises constant-time lookup through a table; the code bisects the runs.
- `CDROM_INIT_DELAY` and the Init handler speak of adding a speed change; the speed has already been cleared when
  it is tested, so it is never added (`CdromModel.InitDelay`).
- A seek is said to cost a term in proportion to its distance; beyond 9510 sectors the product leaves 32 bits, and a
  longer seek can be charged less (`CdromDeeds.SeekTimeIsExact`, `CdromDeeds.LongerSeekIsCheaper`).
- `seek_phase` is described as true until the head has arrived. It also stays true where no arrival will
  be reported, so that Pause and GetlocL refuse: after a Reset or a Stop during the seek, after MotorOn, ReadT,
  GetID or ReadTOC during a seek by SeekL or SeekP, and after a first read that fails.
  `CdromDrive.SeekOutlivesTheDrive` shows these are the only ways.
- A pregap is said to belong to the track that follows it; before the first track it is reported as index 01
  (`TrackMap.FirstGapIsNotAPause`), and with both PREGAP and INDEX 00 the silent part may not all be reported
  as a pause (`TrackMap.GapsCountDown` gives the exact condition).
- The command value FFh doubles as "no command": writing it arms the command event with nothing pending, and the
  next command inherits that event (`CdromRuns.FfShortensTheNextDelay`). `CdromTiming.OwnDelayExactly` gives the
  exact condition under which a command waits its own acknowledge delay.
- A watchpoint inside an access is said to be found by two filter tests and the walk behind them; an access that
  reaches the last address has an end that wraps, and the walk then sees no watchpoint
  (`Debugger.WalkSeesTheAccess`).
- A drive that is seeking, pausing or stopping waits for its second response, but another command's response takes
  its place; `CdromDrive.WaitingIsReplaced` says exactly which commands do that.

## Model

| member | source | states |
|---|---|---|
| Gf256.Mul3Inverse | src/cdrom/ecm_edc.c:32-43 | The division the backward table holds inverts multiplication by 3 in GF(2^8)/11Dh, for every byte |
| Gf256.ParityIsTheOnlySolution | src/cdrom/ecm_edc.c:81-97 | Two bytes appended to any data give a line with both syndromes of (x+1)(x+2) zero if and only if they are the parity bytes |
| Gf256.NoShortCycle | src/cdrom/ecm_edc.c:81-97 | The powers of 2 over the 45 positions of the longest line are distinct: no nonzero byte returns after 1 to 44 doublings |
| Gf256.OneErrorChecks | src/cdrom/ecm_edc.c:81-97 | A single differing byte shifts the two syndromes by e and 2^k e for one nonzero e and its distance k from the end |
| Gf256.EqualChecksFarApart | src/cdrom/ecm_edc.c:81-97 | Two different lines of at most 45 bytes with equal syndromes differ in at least three places |
| Gf256.MinimumDistance | src/cdrom/ecm_edc.c:81-97 | Changing one or two bytes of a valid line of at most 45 bytes always breaks one of its equations |
| Edc.FeedByteByTable | src/cdrom/ecm_edc.c:38-52 | One table lookup equals eight steps of bit-serial division by D8018001h, for every checksum and byte |
| Edc.RemainderConcat | src/cdrom/ecm_edc.c:47-52 | Dividing a concatenation continues from the remainder of its first part |
| Edc.BurstDetected | src/cdrom/ecm_edc.c:47-52 | Two inputs of equal length that differ only within four consecutive bytes, so in particular in one byte, never share a checksum |
| Edc.CodeIsTheOnlyTail | src/cdrom/ecm_edc.c:47-59 | Dividing data followed by four bytes leaves zero if and only if those bytes are the data's checksum as written |
| CodeTables.Tables.constructor | src/cdrom/ecm_edc.c:32-43 | The loop fills the forward table with doubling, the backward table with the inverse of multiplication by 3, and the checksum table with eight division steps, for all 256 entries |
| CodeTables.Tables.BackwardDivides | src/cdrom/ecm_edc.c:32-36 | A lookup in the backward table is division by 3 in the field |
| CodeTables.Tables.EdcCompute | src/cdrom/ecm_edc.c:47-52 | The table-driven loop computes the bit-serial checksum for inputs of every length |
| SectorCodes.PlaceInP | src/cdrom/ecm_edc.c:81-92 | Closed form of the P walk: byte k of line m is at m + 86k |
| SectorCodes.PlaceInQ | src/cdrom/ecm_edc.c:81-92 | Closed form of the wrapping Q walk, as a pair index modulo 1118 and a side of the pair |
| SectorCodes.POwner | src/cdrom/ecm_edc.c:81-92 | Each of the 2064 bytes of the P region is on exactly one P line, at exactly one place of it |
| SectorCodes.QOwner | src/cdrom/ecm_edc.c:81-92 | Each of the 2236 bytes of the Q region is on exactly one Q line, at exactly one place of it, although the walk wraps |
| SectorCodes.ParityOfLine | src/cdrom/ecm_edc.c:81-97 | The two bytes written for a line make it valid, and lines already valid keep theirs |
| SectorCodes.ParityValid | src/cdrom/ecm_edc.c:77-98 | After a parity set is written every line of it is valid, and a sector whose lines were valid is unchanged |
| SectorCodes.TwoChangedBytesBreakQ | src/cdrom/ecm_edc.c:113-117 | Changing one or two of bytes 12 to 2351 of a sector with valid Q lines, wherever they are, breaks a Q line |
| SectorDistance.NineBytesApart | src/cdrom/ecm_edc.c:106-121 | Two sectors in which all P and Q lines are valid differ in none of bytes 12 to 2351 or in at least nine, so changing one to eight of them, wherever they are, breaks a line |
| SectorDistance.NineCanBeEnough | src/cdrom/ecm_edc.c:106-121 | Nine is exact: two valid sectors that differ in nine bytes, where three P lines and three Q lines cross |
| SectorDistance.CrossOnce | src/cdrom/ecm_edc.c:81-92 | Two bytes of one P line, its parity included, lie on different Q lines |
| SectorCodes.QKeepsP | src/cdrom/ecm_edc.c:113-117 | Writing Q, which is computed over P, leaves every P line as it was |
| SectorCodes.EccGenerated | src/cdrom/ecm_edc.c:106-121 | After both sets are written all 86 P lines and all 52 Q lines are valid at once, with bytes 12 to 15 taken as zero or not |
| SectorCodes.GeneratedMode1 | src/cdrom/ecm_edc.c:127-134 | Type 1: checksum over 2064 bytes, eight zero bytes, and every parity line valid together |
| SectorCodes.GeneratedMode2 | src/cdrom/ecm_edc.c:136-142 | Type 2: the checksum over its span is right after everything is written, and every parity line is valid with the address zeroed |
| SectorCodes.GeneratedIsTheOnlyValid | src/cdrom/ecm_edc.c:125-150 | Generating gives a sector that satisfies all equations of its type, and a sector satisfies them if and only if generating leaves it unchanged |
| SectorCodes.LineParity | src/cdrom/ecm_edc.c:81-95 | The loop over one line through both tables returns the line's two parity bytes |
| SectorCodes.EccComputeBlock | src/cdrom/ecm_edc.c:77-98 | The in-place loop over all lines leaves the sector with that parity set written and nothing else changed |
| SectorCodes.EccGenerate | src/cdrom/ecm_edc.c:106-121 | P then Q written in place; the address bytes are zeroed for the computation on request and restored |
| SectorCodes.Write | src/cdrom/ecm_edc.c:54-59 | A field is written at its place and nothing else changes |
| SectorCodes.Generate | src/cdrom/ecm_edc.c:125-150 | The whole generator, in place, for every sector content and every type, including types it ignores |
| EcmHeader.ReadTypeCount | src/cdrom/cdrom_ecm.c:42-62 | The byte loop returns the header the recursive reading gives, or nothing at the end of the file |
| EcmHeader.HeaderRoundTrip | src/cdrom/cdrom_ecm.c:42-62 | Every type and every 32-bit number is read back from its encoding, wherever it stands in the file, using exactly its bytes |
| EcmSector.RebuiltIgnoresLba | src/cdrom/cdrom_ecm.c:188-221 | The 2336 emitted bytes of a modelled sector are the same for every absolute address passed in |
| EcmSector.StrippedRoundTrip | src/cdrom/cdrom_ecm.c:188-221 | Stripping a sector whose codes are the generated ones and rebuilding it returns its 2336 bytes, for all three types |
| EcmImage.RunsTile | src/cdrom/cdrom_ecm.c:66-117 | The runs found in any file tile the output from its first byte without gap or overlap |
| EcmImage.ByteIsSequential | src/cdrom/cdrom_ecm.c:223-261 | On an intact image the byte read through the index at any offset is the byte the front-to-back decode has there, and nothing is read past the end |
| EcmImage.EcmDecoder.Push | src/cdrom/cdrom_ecm.c:66-83 | A pushed run starts where the output ended, and the output grows by its length |
| EcmImage.EcmDecoder.ReadBlock | src/cdrom/cdrom_ecm.c:90-117 | One turn of the scan finds the next block, or the end |
| EcmImage.EcmDecoder.BuildRuns | src/cdrom/cdrom_ecm.c:86-124 | The scan records exactly the blocks up to the end marker, tiled, and counts whole sectors |
| EcmImage.EcmDecoder.FindRun | src/cdrom/cdrom_ecm.c:127-137 | Bisection returns the one run that covers an offset if and only if there is one |
| EcmImage.EcmDecoder.DecodeModelled | src/cdrom/cdrom_ecm.c:188-221 | Decodes sector n of a modelled run to its 2336 bytes, or fails when the file is too short |
| EcmImage.EcmDecoder.ReadPiece | src/cdrom/cdrom_ecm.c:231-258 | One piece of the copy: the bytes from an offset to the end of its run, sector or request |
| EcmImage.EcmDecoder.CopySector | src/cdrom/cdrom_ecm.c:223-261 | The piecewise copy terminates and succeeds if and only if the sector is below the total and every byte of it can be decoded |
| EcmImage.EcmDecoder.ReadSector | src/cdrom/cdrom_ecm.c:223-261 | On an intact image every sector s below the total is read, and is bytes 2352s to 2352s+2352 of the sequential decode, whatever absolute address is given |
| EcmImage.SectorIsSlice | src/cdrom/cdrom_ecm.c:223-261 | The bytes read one by one through the index are that slice of the decoded image |
| EcmContainer.RunsOfEncoded | src/cdrom/cdrom_ecm.c:86-117 | Scanning an encoded block list finds one run per block, in order, with its type and count, ending at the marker; the runs are intact and decode to the image |
| EcmContainer.ContainerRoundTrip | src/cdrom/cdrom_ecm.c:86-124 | For every list of literal blocks and modelled sectors, indexing the encoded container and decoding it restores the image |
| AsyncReader.RunsAreSound | src/cdrom/cdrom_disc.c:638-667 | In every interleaving the buffer marked good holds the sector of the address it is tagged with |
| AsyncReader.AnswersAreTrue | src/cdrom/cdrom_disc.c:714-740 | READY carries exactly the wanted address's sector, FAILED means that address cannot be read or shutdown, PENDING leaves a request queued or a read in flight |
| AsyncReader.UnpollUndoesPoll | src/cdrom/cdrom_disc.c:702-712 | With the reader idle, handing a sector back restores the state before the poll that returned it |
| AsyncReader.ReadsSettleWhatIsOwed | src/cdrom/cdrom_disc.c:638-740 | Along every run of an unanswered poller, completed reads plus reads still owed never exceed what was owed at its start |
| AsyncReader.AnsweredAfterThreeReads | src/cdrom/cdrom_disc.c:714-740 | A consumer that keeps polling one address is answered after at most three completed reads, two when it queued the address |
| AsyncReader.ThreeReadsCanBeNeeded | src/cdrom/cdrom_disc.c:714-740 | The bound of three is reached by a concrete run |
| AsyncReader.Reader.RequestSector | src/cdrom/cdrom_disc.c:693-700 | Queueing replaces the request and drops a published sector |
| AsyncReader.Reader.PollSector | src/cdrom/cdrom_disc.c:714-740 | The poll answers and steps as its function says, and fills the caller's buffer exactly on READY |
| AsyncReader.Reader.UnpollSector | src/cdrom/cdrom_disc.c:707-712 | The sector is offered again only while nothing has overtaken it |
| AsyncReader.Reader.TakeRequest | src/cdrom/cdrom_disc.c:642-650 | The thread takes the latest request, if any and not shut down, and is then reading that address |
| AsyncReader.Reader.PublishSector | src/cdrom/cdrom_disc.c:657-664 | The local buffer is published under the address that was taken, good or bad, and the thread is idle |
| CdromSafety.CommandsAreAnswered | src/cdrom/cdrom_commands.c:175-712 | Every command raises exactly one interrupt, save an Init repeated while one is owed, which changes nothing; second responses, drive and reader change only as the relation allows |
| CdromSafety.SecondsAreAnswered | src/cdrom/cdrom_commands.c:718-821 | Every owed second response raises exactly one interrupt and schedules no other |
| CdromSafety.ReadSectorTurns | src/cdrom/cdrom_commands.c:909-1115 | A turn while reading either handles the very sector at the head with the disc's bytes, or waits, holds or fails without touching the log |
| CdromSafety.PlaySectorTurns | src/cdrom/cdrom_commands.c:1126-1256 | A turn while playing keeps the drive armed or stops it, and interrupts at most once |
| CdromRuns.NoLostWakeUp | src/cdrom/cdrom.c:81-180 | In every run a pending command, an owed second response and a playing drive have their event armed, and a reading drive has it armed or an interrupt unacknowledged |
| CdromRuns.AcknowledgeWakesAll | src/cdrom/cdrom.c:426-450 | The acknowledge that clears the flag leaves every owed event armed |
| CdromRuns.SectorsComeInOrder | src/cdrom/cdrom_commands.c:896-1115 | In every run, between two starts of a read sectors are handled in consecutive address order, each once, with the disc's bytes, and at least a sector period apart |
| CdromRuns.ReadsAreStarted | src/cdrom/cdrom_commands.c:69-116 | Going back from any sector handled in a run there are only handled sectors until a start of a read |
| CdromRuns.OnlyDataIsHeld | src/cdrom/cdrom_commands.c:909-944 | With an interrupt pending a due sector is handled at once if and only if it is not for the CPU; a held one changes nothing, and unless a read is queued or under way the next poll gives it again, however the reader thread runs |
| CdromRuns.InterruptsWaitForAcknowledge | src/cdrom/cdrom.c:133-180 | A step raises at most one interrupt and only from a clear flag; otherwise only an acknowledge changes the flag, clearing the bits it names |
| CdromRuns.CommandsGetOneAnswer | src/cdrom/cdrom.c:133-142 | A due command is answered once and frees the command register, the dropped Init keeping the owed deadline |
| CdromRuns.SecondResponsesGetOneAnswer | src/cdrom/cdrom.c:172-180 | A due second response is delivered once and is no longer owed |
| CdromRuns.NeverEarly | src/cdrom/cdrom.c:75-131 | No event is due before the deadline stored when it was scheduled, however often acknowledges re-armed it |
| CdromRuns.RearmedForTheTimeLeft | src/cdrom/cdrom.c:75-79 | Re-arming gives exactly the time left, or the minimum, if and only if the deadline did not pass between 2^31 and 2^32 - 1000 cycles ago |
| CdromRuns.SecondDeadlineHolds | src/cdrom/cdrom.c:100-131 | An owed second response keeps its command and deadline until delivered or replaced by another command's |
| CdromRuns.DeadlineHolds | src/cdrom/cdrom.c:81-98 | A pending command keeps its code and deadline through every run that does not execute it |
| CdromRuns.CommandsWaitTheirDelay | src/cdrom/cdrom.c:356-382 | A command written while its event is idle runs no sooner than its own acknowledge delay after the write |
| CdromRuns.ArmedWhilePending | src/cdrom/cdrom.c:356-382 | In runs without the command value FFh the command event is armed exactly while a command is pending |
| CdromRuns.FfShortensTheNextDelay | src/cdrom/cdrom.c:358-381 | A run in which writing FFh makes the next command run 50000 cycles early |
| CdromTiming.RearmingIsNoSooner | src/cdrom/cdrom.c:75-105 | Arming an event again never brings it forward |
| CdromTiming.TargetsAreBounded | src/cdrom/cdrom.c:75-131 | In every run an armed event is aimed at most at the later of its deadline and 1000 cycles after it was last set, unless that was more than 2^31 cycles past the deadline |
| CdromTiming.NudgesPostpone | src/cdrom/cdrom.c:434-449 | Acknowledges less than 1000 cycles apart hold an overdue second response back for as long as they are written, up to 2^31 cycles |
| CdromTiming.OwnDelayExactly | src/cdrom/cdrom.c:356-382 | In every continuation an accepted command waits its own acknowledge delay, if and only if the command event is idle at the write or aimed no sooner than that delay |
| CdromTiming.OwnDelayByDeadline | src/cdrom/cdrom.c:81-88 | Up to 2^31 cycles past the inherited deadline the same holds with the stored deadline in place of the event's target |
| CdromTiming.PassedDeadlineCanWait | src/cdrom/cdrom.c:75-98 | A run, its event tried again every 1000 cycles behind an interrupt, in which a command inherits a deadline more than 2^31 cycles past and still waits its own delay |
| CdromDrive.SeekOutlivesTheDrive | src/cdrom/cdrom_commands.c:281-390 | From any state in which a marked seek is under way or none is marked, a step leaves one marked that is not under way if and only if, during the seek and with no interrupt pending, a due command event executes Reset or Stop, or while seeking MotorOn, ReadT, GetID or ReadTOC, or a due drive event finds the sector to read has failed |
| CdromDrive.RunsLeaveNoSeek | include/cdrom.h:276-281 | In every run without such an input a marked seek is under way: the drive is reading, playing, or seeking with its response owed |
| CdromDrive.ResetStrandsARead | src/cdrom/cdrom_commands.c:664-670 | A run: ReadN, then Reset before the first sector; the drive is idle and Pause is refused |
| CdromDrive.FailureStrandsARead | src/cdrom/cdrom_commands.c:922-932 | A run: ReadN of a sector that cannot be read; the drive is idle and Pause is refused |
| CdromDrive.StopStrandsARead | src/cdrom/cdrom_commands.c:290-300 | A run: ReadN, then Stop before the first sector, and Pause is refused; then GetID, and the drive is still stopping with nothing owed |
| CdromDrive.IdStrandsASeek | src/cdrom/cdrom_commands.c:654-659 | A run: Setloc, SeekL, then GetID answered in full before the head arrives; the drive is still seeking with nothing owed, and Pause is refused |
| CdromDrive.WaitingIsReplaced | src/cdrom/cdrom_commands.c:281-390 | A waiting drive keeps its own second response owed if and only if no due command event executes MotorOn, ReadT, GetID or ReadTOC, an Init unless it is seeking, or a Pause while it stops |
| CdromDrive.RunsAreAttended | src/cdrom/cdrom_commands.c:145-169 | In every run without such a replacement, a seeking, pausing or stopping drive has the response owed that ends it |
| CdromDrive.ReplacedDriveGoesOnWaiting | src/cdrom/cdrom_commands.c:718-820 | A replacing response that only answers leaves the drive waiting with nothing owed |
| CdromDrive.LateResponsesStopReads | src/cdrom/cdrom_commands.c:747-805 | Delivered over a read accepted since, a second response stops it if and only if it is an Init's, a Stop's, a Pause's or a plain seek's |
| CdromGuest.NamedIsDecoded | src/cdrom/cdrom_commands.c:61-63 | Three parameters name a position in minutes, seconds and frames if and only if they are packed numbers in range, and then only that one |
| CdromGuest.RunsHeed | src/cdrom/cdrom_commands.c:175-712 | In every run the pending Setloc, the seek target, the mode, the filter, the play speed and the speed change owed are what the commands executed so far have asked for |
| CdromDeeds.CommandsDoAsAsked | src/cdrom/cdrom_commands.c:69-143 | In every run a ReadN or ReadS executed starts at the last Setloc not used yet, else where the head is from rest or a pause, else at the next sector; a Play at its track, a Setloc or the next sector; a skip four sectors back; and no other command starts anything |
| CdromDeeds.SetlocIsFollowed | src/cdrom/cdrom_commands.c:72-75 | After a Setloc to m, s, f the next read executed starts at (m * 60 + s) * 75 + f - 150, and a seek is to it, unless another Setloc, start or seek comes between |
| CdromDeeds.FirstSectorOfARead | src/cdrom/cdrom_commands.c:909-1115 | The first sector handled after a start is the one at the address the read started at |
| CdromDeeds.SeeksEndWhereAsked | src/cdrom/cdrom_commands.c:788-806 | A seek that ends leaves the head at the address it was to, the next sector too, and GetlocP's Q is the disc's Q there |
| CdromDeeds.SectorsGoWhereAsked | src/cdrom/cdrom_commands.c:868-881 | By its bytes 15 to 18 and the last Setmode and Setfilter executed: with ADPCM and the filter on a sector goes to the decoder if and only if it is Mode 2 real-time audio of the selected file and channel and not CD-DA, audio of another one raises nothing, every other sector reaches the CPU; the next is due one period of the selected speed later |
| CdromDeeds.PlaysDoAsAsked | src/cdrom/cdrom_commands.c:1126-1256 | In every run a play turn plays the next sector with the disc's bytes and moves on by the speed of Play and Forward, or AutoPause leaves the head one sector before another track's |
| CdromDeeds.AutoPauseIsExact | src/cdrom/cdrom_commands.c:1167-1199 | A ready sector inside the disc stops the play if and only if Setmode asked for AutoPause, it is not the first after a seek and its Q names another track; otherwise it is played |
| CdromDeeds.PlaysComeInOrder | src/cdrom/cdrom_commands.c:1246-1250 | An undisturbed play plays the sector it started at and then every one its speed further on |
| CdromDeeds.CommandsAreRefused | src/cdrom/cdrom_commands.c:175-712 | In every run a due command is refused if and only if it is unknown, needs a missing disc, names no position or track, or asks for a pause or the header when the head's position cannot be told |
| CdromDeeds.SecondsAreDue | src/cdrom/cdrom_commands.c:281-350 | The second responses of MotorOn, GetID, ReadT, ReadTOC, Stop and Pause are due their own times after execution, by what the drive does and the selected speed |
| CdromDeeds.MovesAreDue | src/cdrom/cdrom_commands.c:94-169 | A read's or play's first sector and a seek's end are due after the move of the head, the sector period and the owed speed change |
| CdromDeeds.CommandsAreDue | src/cdrom/cdrom.c:356-382 | A command written while its event is idle takes a copy of the parameters and is due after its acknowledge delay |
| CdromDeeds.SeekTimeIsExact | src/cdrom/cdrom_disc.c:610-632 | A seek is charged in proportion to its distance if and only if it is at most 9510 sectors |
| CdromDeeds.LongerSeekIsCheaper | src/cdrom/cdrom_disc.c:628-630 | A seek of 9511 sectors is charged less than one of 9510 |
| CdromController.Cdrom.constructor | src/cdrom/cdrom.c:186-205 | The object starts in the state every run of the model starts from, for a disc present or absent, with the invariants of all runs |
| CdromController.Cdrom.Perform | src/cdrom/cdrom.c:133-471 | Any input, a guest write, time, a due event or a reader step, takes the object through exactly the step of the model and keeps its invariants |
| CdromController.Cdrom.PerformAll | src/cdrom/cdrom.c:133-471 | From its start the object goes through exactly the run its inputs make, so the run properties are its properties |
| CdromController.Cdrom.StartReading | src/cdrom/cdrom_commands.c:69-116 | Field by field the whole effect of starting a read: which address, whether it counts as a seek, the request replaced, an owed speed change charged once, and the deadline |
| CdromController.Cdrom.StartPlaying | src/cdrom/cdrom_commands.c:118-143 | The whole effect of starting a play, by track number, by Setloc or from the current address, with the cost of moving and of a speed change |
| CdromController.Cdrom.StartSeeking | src/cdrom/cdrom_commands.c:145-169 | The whole effect of starting a seek, its second response due after a time counted from where the head really is |
| CdromController.Cdrom.ExecutePending | src/cdrom/cdrom_commands.c:175-712 | For every command byte, drive state and parameter list, the switch updates the fields exactly to the state the run properties are about, parameters dropped except on the early refusal |
| CdromController.Cdrom.ExecuteSecondResponse | src/cdrom/cdrom_commands.c:718-821 | For every owed command the switch leaves exactly the state the run properties are about, and an unknown one raises nothing |
| CdromController.Cdrom.DriveReadSector | src/cdrom/cdrom_commands.c:909-1115 | Reading a sector leaves exactly the modelled state for every answer of the reader, which may run between the poll and what follows it |
| CdromController.Cdrom.DrivePlaySector | src/cdrom/cdrom_commands.c:1126-1256 | Playing a sector leaves exactly the modelled state: retry, failure, lead-out, AutoPause back onto the old track, report, next request |
| CdromController.Cdrom.CommandEventTick | src/cdrom/cdrom.c:133-142 | The command event re-arms behind an unacknowledged interrupt, does nothing with no command pending, and otherwise executes it: the very step of the run properties |
| CdromController.Cdrom.SecondEventTick | src/cdrom/cdrom.c:172-180 | The second-response event re-arms behind an unacknowledged interrupt and otherwise delivers what is owed: the very step of the run properties |
| CdromController.Cdrom.DriveEventTick | src/cdrom/cdrom.c:144-170 | The drive event, with and without an interrupt pending: the very step of the run properties |
| CdromController.Cdrom.AcceptCommand | src/cdrom/cdrom.c:356-382 | A command write is dropped while one is pending; otherwise it takes a copy of the parameters and arms the event only if it is idle |
| CdromController.Cdrom.AcknowledgeInterrupt | src/cdrom/cdrom.c:426-450 | The acknowledge clears the named bits and, once the flag is clear, re-arms each owed event and no other |
| CdromController.Cdrom.Write8 | src/cdrom/cdrom.c:346-471 | Every register write by offset and index makes the modelled step, all others none |
| EventQueue.ScheduleKeepsLead | src/core/event_scheduler.c:65-83 | Scheduling leaves the anchor ahead of every pending event if and only if no other event comes before it; so it does from a leading anchor, and keeps the CPU countdown within it |
| EventQueue.ScheduleKeepsTime | src/core/event_scheduler.c:65-83 | From any anchor, passed or not, scheduling keeps the countdown from outlasting any pending event if and only if it asks for 1 to 2^31 cycles or the countdown has run out already |
| EventQueue.RunningKeepsTime | src/cpu/cpu_execution.c:227-231 | So does running for any number of cycles, across the wrap of the clock |
| EventQueue.DispatchSetsTime | src/cpu/cpu_execution.c:234-241 | After dispatch and reload the countdown is the distance of the soonest event, or a single cycle, and outlasts no event |
| EventQueue.RunsAreOnTime | src/cpu/cpu_execution.c:227-241 | In every run of scheduling, running, register writes, DMA charges and dispatch no pending event is due while the countdown has not run out |
| EventQueue.EventsComeOnTime | src/cpu/cpu_execution.c:227-241 | From a countdown on time that has not run out, each event is due exactly when the clock has reached its target, across wrap, and by then the countdown has run out |
| EventQueue.BestIsSoonest | src/core/event_scheduler.c:136-151 | The recomputed anchor is the soonest target ahead, or the empty mark when none is less than 2^31 - 1 cycles ahead |
| EventQueue.AnchorCovers | src/core/event_scheduler.c:136-175 | With nothing due, the query for the cycles until the recomputed anchor passes no pending event, and the anchor leads them all if one is less than 2^31 - 1 cycles ahead |
| EventQueue.ApplyTouches | src/core/event_scheduler.c:65-67 | A handler's requests change only the slots they name, which end up pending and not due |
| EventQueue.FiringTracks | src/core/event_scheduler.c:106-114 | Firing a due slot keeps the account of what has fired and what was asked for again |
| EventQueue.Scheduler.Schedule | src/core/event_scheduler.c:65-83 | The whole new state after scheduling: slot, anchor moved if sooner or stale, countdown cut with it |
| EventQueue.Scheduler.RecomputeNext | src/core/event_scheduler.c:136-151 | The scan sets the anchor and nothing else |
| EventQueue.OrderIsDetermined | src/core/event_scheduler.c:89-130 | There is one sequence of handler calls a dispatch can make: exactly the slots pending and due that no earlier call asked for again, in ascending order |
| EventQueue.AskedComesAgain | src/core/event_scheduler.c:106-114 | An event a called handler asks for is pending after the dispatch, exactly as many cycles ahead as asked, unless a later request or call concerns its slot |
| EventQueue.Scheduler.Pass | src/core/event_scheduler.c:94-122 | One pass calls exactly the handlers owed, in ascending order, each making its requests at once, or calls none and finds the anchor |
| EventQueue.Scheduler.DispatchDue | src/core/event_scheduler.c:89-130 | Dispatch terminates with nothing due and the recomputed anchor, having done the calls owed one after another and nothing else |
| EventQueue.Scheduler.FinishInstruction | src/cpu/cpu_execution.c:227-241 | The end of an instruction charges clock and countdown; exactly when the countdown has run out it makes the calls owed and reloads; a countdown on time stays so, and nothing is left due |
| GpuDma.SliceIsWalk | src/core/bus.c:967-1022 | A slice is a piece of the walk: at least one node, at least 64 words unless the list ends and at most 319, and the count is words sent plus links followed |
| GpuDma.SlicesAreWalk | src/core/bus.c:967-1094 | After any number of slices over unchanged RAM the transfer is exactly where one uninterrupted walk is |
| GpuDma.SlicesEndAsWalk | src/core/bus.c:967-1022 | A walk that ends after n nodes is finished by n slices, with the same words and for the same reason |
| GpuDma.TableEntries | src/core/bus.c:1368-1406 | Every entry of a table written downwards links to the one below, the last is the end marker, and none is overwritten |
| GpuDma.TableWalk | src/core/bus.c:967-1022 | Walking such a table visits exactly its n entries in descending order, sends nothing, raises no bus error and stops on the marker |
| GpuDma.Dma.SendPacket | src/core/bus.c:987-996 | A node's words are sent in order up to the edge of RAM |
| GpuDma.Dma.RunSlice | src/core/bus.c:967-1022 | The slice loop sends, counts, ends and records the list address as the slice function says |
| GpuDma.Dma.FillTable | src/core/bus.c:1368-1406 | The table loop writes the table in place and stops with a bus error at the edge of RAM |
| GpuLists.PacketIsWords | src/core/bus.c:987-996 | A node of n words sends exactly the n words of RAM after its header, in order, or those below the limit and then fails |
| GpuLists.ListsAreSent | src/core/bus.c:967-1022 | For every list of packets laid out in RAM as linked nodes the slices send all their words, packet after packet and in order, and end on the marker |
| GpuLists.SendList | src/core/bus.c:967-1094 | The DMA unit, run slice after slice from the first node, appends exactly those words to GP0, without a bus error, and keeps the marker |
| AudioFifo.PackRoundTrip | src/cdrom/cdrom_audio.c:37-50 | A frame of two 16-bit samples survives packing into a word |
| AudioFifo.QueueHoldsTheNewest | src/cdrom/cdrom_audio.c:26-41 | Pushing any frames leaves exactly the newest 9408 of what was held and pushed |
| AudioFifo.QueueIsTheNewest | src/cdrom/cdrom_audio.c:26-52 | However pushes and pops are interleaved, the queue is the newest of what it held and of all frames pushed so far, and never more than 9408 |
| AudioFifo.Balances | src/cdrom/cdrom_audio.c:26-52 | Pushed equals popped plus dropped plus queued, to the width of the counters, through every operation |
| AudioFifo.Fifo.Push | src/cdrom/cdrom_audio.c:26-41 | The ring push drops the oldest frame past the latency limit and keeps the count at most 9408 |
| AudioFifo.Fifo.Pop | src/cdrom/cdrom_audio.c:43-52 | The ring pop returns the oldest frame, or nothing when empty |
| XaAudio.SumFitsInt32 | src/cdrom/cdrom_audio.c:232-238 | Every partial sum of the 18900 Hz interpolation fits 32 bits for every ring content |
| XaAudio.RowsAreSmall | src/cdrom/cdrom_audio.c:190-205 | The weights of each set add up to at most 56030 in absolute value |
| XaAudio.ZigzagInterp | src/cdrom/cdrom_audio.c:224-230 | The loop over the ring computes the clamped weighted sum, newest sample first, each product scaled before it is added |
| XaAudio.ZigzagInterp18 | src/cdrom/cdrom_audio.c:232-238 | The loop computes the clamped sum, oldest sample first and scaled at the end, without leaving 32 bits on the way |
| XaAudio.FedInTwo | src/cdrom/cdrom_audio.c:240-258 | Feeding two runs of frames is feeding their concatenation, in outputs and in state |
| XaAudio.FedCount | src/cdrom/cdrom_audio.c:240-258 | The number of outputs from any step state, and the step left |
| XaAudio.FedFromTheStart | src/cdrom/cdrom_audio.c:240-258 | After k frames 7 * floor(k / 6) frames have been pushed |
| XaAudio.SectorCutsDoNotShow | src/cdrom/cdrom_audio.c:240-258 | However frames at 37800 Hz are cut into sectors, the queue ends with the same newest frames |
| XaAudio.SectorCutsDoNotShow18 | src/cdrom/cdrom_audio.c:265-286 | The same for frames at 18900 Hz |
| XaAudio.Fed18InTwo | src/cdrom/cdrom_audio.c:265-286 | The same independence at 18900 Hz |
| XaAudio.Fed18FromTheStart | src/cdrom/cdrom_audio.c:265-286 | 3 * outputs + credit = 7k + 6 after k frames, the phase counts the outputs modulo 7, and less than one output is owed |
| XaAudio.Resampler.Resample37800 | src/cdrom/cdrom_audio.c:240-258 | The in-place resampler feeds its samples and pushes exactly the outputs |
| XaAudio.Resampler18.Resample18900 | src/cdrom/cdrom_audio.c:265-286 | The same at 18900 Hz |
| XaAudio.Resampler18.Emit | src/cdrom/cdrom_audio.c:274-281 | The inner loop emits a third of the credit, in consecutive phases |
| XaFilter.StereoIsFiltered | src/cdrom/cdrom_audio.c:224-258 | At 37800 Hz output n of a stereo stream is, on each side from that side's samples, the clamped sum of the 29 samples up to the end of batch n / 7, newest first, weighted by set n % 7, silence before the start |
| XaFilter.MonoIsFiltered | src/cdrom/cdrom_audio.c:224-258 | A mono stream is filtered once and comes out on both sides |
| XaFilter.Stereo18IsFiltered | src/cdrom/cdrom_audio.c:232-286 | At 18900 Hz output n comes after the least inputs that earn it and is the clamped sum of the last 25 of its side, oldest first, weighted by set n % 7 |
| XaFilter.Mono18IsFiltered | src/cdrom/cdrom_audio.c:232-286 | The same for a mono stream, on both sides |
| TrackMap.SilenceIsThePregap | src/cdrom/cdrom_disc.c:282-321 | Between two track starts an address is silent if and only if it is one of the last PREGAP addresses, so they number exactly the PREGAP |
| TrackMap.ReadsKeepOrder | src/cdrom/cdrom_disc.c:282-321 | Addresses read from the file map to its sectors one to one and in order |
| TrackMap.EverySectorIsOnDisc | src/cdrom/cdrom_disc.c:207-223 | Every file sector from the first INDEX 01 on has an address, the one its track's shift gives |
| TrackMap.TotalIsTheEnd | src/cdrom/cdrom_disc.c:224-235 | An address read from the file is below the total if and only if the file has its sector |
| TrackMap.ReadsFailPastTheEnd | src/cdrom/cdrom_disc.c:282-321 | A read fails if and only if its address is at or past the total |
| TrackMap.MsfRoundTrip | src/cdrom/cdrom_disc.c:574-585 | Packed positions under 100 minutes decode to the frames they encode |
| TrackMap.GapsCountDown | src/cdrom/cdrom_disc.c:512-594 | All silent addresses before a later track report its index 00 counting down to its start if and only if it has no INDEX 00, or one at least a PREGAP before INDEX 01 |
| TrackMap.FirstGapIsNotAPause | src/cdrom/cdrom_disc.c:556-594 | The silent addresses before the first track report index 01 at relative 0 |
| TrackMap.QTellsTheAddress | src/cdrom/cdrom_disc.c:536-556 | The absolute position is the address and 150 frames; past the end the track is AAh, counting from the end |
| TrackMap.QTellsTheTrack | src/cdrom/cdrom_disc.c:558-594 | Inside a track Q gives its number, index 01, the sector's distance in the file from INDEX 01, and whether it is audio |
| TrackMap.LoadedDisc.constructor | src/cdrom/cdrom_disc.c:207-235 | The layout loop fills the track arrays with each track's start, pause and file position |
| TrackMap.LoadedDisc.FindTrack | src/cdrom/cdrom_disc.c:285-292 | The search returns the track whose span covers the address |
| TrackMap.LoadedDisc.ReadSource | src/cdrom/cdrom_disc.c:285-316 | The loaded arrays give every address the source the track properties are about |
| TrackMap.LoadedDisc.ReadSector | src/cdrom/cdrom_disc.c:282-321 | The read fills the buffer with silence or with that sector of the file, and fails, leaving it alone, where the file has none |
| TrackMap.LoadedDisc.FindPatch | src/cdrom/cdrom_disc.c:486-496 | The binary search finds an address's patch if and only if there is one |
| TrackMap.LoadedDisc.GetSubQ | src/cdrom/cdrom_disc.c:512-594 | Every address gets the Q the pause properties are about: its patch, the lead-out, the pause of the next track, or its own track |
| Debugger.MarkSetsOne | include/debugger.h:56-62 | Marking a hash sets its bit of the 1024 and no other |
| Debugger.ImageIsExact | src/core/debugger.c:21-27 | The rebuilt filter marks exactly the hashes of the list |
| Debugger.BreakFilterIsExact | src/core/debugger.c:71-84 | A breakpoint that walking the list would hit is never answered no by the filter |
| Debugger.WatchFilterIsExact | src/core/debugger.c:196-237 | A watched address the walk would see in an access of 1, 2 or 4 bytes is never missed by both bit tests |
| Debugger.WalkSeesTheAccess | src/core/debugger.c:203-206 | The walk sees whether a watched address lies in the access if and only if the access ends before the last address or holds none |
| Debugger.RemovalForgetsOne | src/core/debugger.c:122-137 | Swap-removal drops one address and keeps every other, each still listed once |
| Debugger.AddressList.RebuildFilter | src/core/debugger.c:21-27 | The rebuild leaves the filter as the list's image |
| Debugger.AddressList.Add | src/core/debugger.c:47-56 | An address is appended unless listed or the list is full, and the filter stays exact |
| Debugger.AddressList.Remove | src/core/debugger.c:58-69 | An address is swap-removed if listed, and the filter stays exact |
| Debugger.AddressList.CheckBreakpoint | src/core/debugger.c:71-84 | The filtered check pauses if and only if walking the list would |
| Debugger.AddressList.CheckWatchpoint | src/core/debugger.c:196-212 | So does the filtered check of an access |
| FastLoad.OffsetFits | include/cpu_mem.h:66-69 | An aligned address in the RAM window never runs past the end of RAM, so the bounds check skipped decides nothing |
| FastLoad.FastLoadIsFullLoad | include/cpu_mem.h:74-110 | Where the fast path applies, value, stall and all other state equal the full load's |
| FastLoad.BytesAreRead | include/cpu_mem.h:88-110 | A load gives a value if and only if RAM holds its bytes, lowest first |
| FastLoad.WordIsHalves | include/cpu_mem.h:88-103 | A word load is made of its two halfword loads |
| FastLoad.LoadsWaitOut | src/core/bus.c:674-683 | A read behind an open DMA window ends with clock and owed stall at the window's end, or takes no time if that has passed, clock and countdown moving together |
| FastLoad.CpuBus.TryLoad | include/cpu_mem.h:74-110 | The inline attempt succeeds exactly when it applies and otherwise changes nothing |
| FastLoad.CpuBus.ChargeLoad | src/core/bus.c:674-701 | The load stall and, while a DMA window is open, the wait for it, on the clock and on the CPU's countdown |
| FastLoad.CpuBus.Load | src/core/bus.c:712-726 | The full load: misaligned accesses fault untouched, otherwise watchpoints are seen, the stall is charged and the value read, in that order |
| FastLoad.CpuBus.CpuLoad | include/cpu_mem.h:112-124 | At every address and in every state the CPU's load does exactly what the full load does |

## Left out

- EcmHeader.ReadHeader: a byte that would be shifted by 32 bits or more, which is undefined in C, reads as no header; no 32-bit number needs one.
- EcmHeader.ReadTypeCount: the same byte ends the loop with no header, where the source's shift is undefined.
- EcmImage.EcmDecoder.BuildRuns: allocation failure and file errors are not modelled; file positions are kept in 32 bits as in the source.
- CdromModel.Step: response bytes, the raw mode byte, volume, the data buffer and its request register, interrupt enable and the status registers are not modelled; whether a command answers or refuses is.
- CdromModel.Initial: a disc is present or absent for the whole run; loading, ejecting, `cdrom_reset` and savestates are left out, as is `ZS1_CD_XA_HOLD`.
- CdromModel.SubQ: only the fields of Q that the drive's decisions depend on; `TrackMap.SubQ` has all of them.
- CdromController.Cdrom.ExecutePending: the bytes a command answers with and the raw mode byte are left out.
- CdromController.Cdrom.ExecuteSecondResponse: the bytes of the response and the raw mode byte are left out.
- CdromController.Cdrom.DriveReadSector: the ring of sector buffers, the latched header bytes and the decoded audio are left out; the sector handled, its bytes and its route are logged.
- CdromController.Cdrom.DrivePlaySector: the samples of a played sector and the bytes of a report are left out; its position, Q, AutoPause and whether it reports are not.
- CdromController.Cdrom.Write8: the volume, interrupt-enable and data-request ports change nothing that is modelled.
- EventQueue.Queue: the CPU's countdown is an unbounded integer, where the source's has 32 bits.
- CdromModel.Due: an event may be dispatched any time after its target, and the promises over runs hold however late it is; the scheduler, whose clock wraps, is never that late.
- EventQueue.Scheduler.Pass: handlers are arbitrary sequences of requests between 1 and 2^31 - 1 cycles ahead that leave the clock alone.
- EventQueue.Scheduler.DispatchDue: the same handlers; one that always asks for now, or that advances the clock, can keep the source's loop going for ever.
- GpuDma.Dma.RunSlice: the block-request branch is left out, as nothing in the source activates it; GP0 is a list of the words it was sent.
- GpuDma.Dma.FillTable: only channel 6; the other channels move words to devices that are not part of this model.
- XaAudio.Resampler.Resample37800: the ADPCM decoding that produces the samples is left out.
- TrackMap.Sheet: one raw image with consecutively numbered tracks and growing INDEX 01 positions; multi-file sheets, ECM tracks and CUE text parsing are left out.
- Debugger.AddressList.CheckBreakpoint: a script that resumes on a break is left out; the three lists share one class, of which only breakpoints use the enabled flags.
- Debugger.AddressList.CheckWatchpoint: a script that resumes on a break is left out.
- FastLoad.CpuBus.Load: reads outside RAM are a function of the address without side effects.
- SWL and SWR merging, stores, instruction fetches, the MDEC slices and the remaining devices would add only easy members.
