/** The CD-ROM drive that waits: when a seek stays marked that nothing will bring to its end, and when a drive
    is left waiting for a second response that will not come. */
module CdromDrive {
  import opened CdromModel
  import opened CdromSafety
  import opened CdromRuns
  import opened Words
  import SectorCodes
  import AsyncReader

  // ---- Seeks that outlive the drive's work ----

  // Whether the second response owed is the one that ends the waiting of a seeking, pausing or stopping
  // drive.
  predicate Ends(d: Drive, second: Byte) {
    match d
    case Seeking => second == SEEKL || second == SEEKP
    case Pausing => second == PAUSE
    case Stopping => second == STOP
    case _ => true
  }

  // The head is on its way to a sector to read or play, or to the target of a seek that will be reported.
  predicate UnderWay(s: State) {
    Active(s.drive) && Ends(s.drive, s.ev.second)
  }

  // The seek is marked as under way, so Pause and GetlocL refuse, but nothing will bring it to its end.
  predicate SeekLeft(s: State) {
    s.head.seekPhase && !UnderWay(s)
  }

  // The commands that leave a seek behind: two stop the drive, four put their own second response in the
  // place of the seek's.
  predicate LeavesSeek(drive: Drive, cmd: Byte) {
    cmd == RESET || cmd == STOP ||
    (drive.Seeking? && (cmd == MOTORON || cmd == READT || cmd == GETID || cmd == READTOC))
  }

  lemma CommandLeaves(disc: Disc, s: State, cmd: Byte)
    requires !SeekLeft(s)
    ensures SeekLeft(AnswerCommand(disc, s, cmd)) <==> s.head.seekPhase && LeavesSeek(s.drive, cmd)
  {
    hide AnswerMove, AnswerSetloc, AnswerSetmode, AnswerGetlocL, AnswerGetTd, AnswerTwice;
    hide Raise, Param, Attended, SeekLeft;
    QueriesKeepDrive(disc, s);
    RaisingLeaves(s, s.motorOn || Param(s, 0) == 0x04, s.mode.(file := Param(s, 0), channel := Param(s, 1)), INT_ACK);
    RaisingLeaves(s, disc.present, s.mode, INT_ACK);
    RaisingLeaves(s, s.motorOn, s.mode, INT_ERROR);
    assert s.(motorOn := s.motorOn) == s && s.(mode := s.mode) == s;
    TwiceLeaves(s, true, MOTORON, SPINUP_DELAY);
    TwiceLeaves(s, s.motorOn, READT, ACK_DELAY);
    TwiceLeaves(s, s.motorOn, GETID, ID_READ_DELAY);
    TwiceLeaves(s, s.motorOn, READTOC, READTOC_DELAY);
    if MovesDrive(cmd) {
      MoveLeaves(disc, s, cmd);
    }
  }

  lemma RaisingLeaves(s: State, motorOn: bool, mode: Mode, cause: Byte)
    ensures SeekLeft(Raise(s.(motorOn := motorOn), cause)) == SeekLeft(Raise(s.(mode := mode), cause)) == SeekLeft(s)
    ensures SeekLeft(Raise(s.(drive := Idle, motorOn := motorOn), cause)) == s.head.seekPhase
  {
    hide Ends;
  }

  lemma TwiceLeaves(s: State, motorOn: bool, cmd: Byte, cycles: nat)
    requires !SeekLeft(s) && cmd != SEEKL && cmd != SEEKP
    ensures SeekLeft(AnswerTwice(s.(motorOn := motorOn), cmd, cycles)) <==> s.head.seekPhase && s.drive.Seeking?
  {
    hide Scheduled;
  }

  // A query changes neither the drive's state, nor what it owes, nor whether a seek is marked.
  predicate SameWork(s: State, t: State) {
    t.drive == s.drive && t.ev == s.ev && t.head.seekPhase == s.head.seekPhase
  }

  lemma SameWorkIsLeft(s: State, t: State)
    requires SameWork(s, t)
    ensures SeekLeft(t) == SeekLeft(s) && Attended(t) == Attended(s)
  {
    hide Ends;
  }

  lemma LocationKeepsWork(s: State)
    ensures SameWork(s, AnswerSetloc(s)) && SameWork(s, AnswerSetmode(s))
  {
    hide ValidMsf, FromBcd, Bit, Param, SpeedOwed;
  }

  lemma QueriesKeepDrive(disc: Disc, s: State)
    ensures SeekLeft(AnswerSetloc(s)) == SeekLeft(AnswerSetmode(s)) == SeekLeft(s)
    ensures SeekLeft(AnswerGetlocL(disc, s)) == SeekLeft(AnswerGetTd(disc, s)) == SeekLeft(s)
    ensures Attended(AnswerSetloc(s)) == Attended(AnswerSetmode(s)) == Attended(s)
    ensures Attended(AnswerGetlocL(disc, s)) == Attended(AnswerGetTd(disc, s)) == Attended(s)
  {
    LocationKeepsWork(s);
    hide AnswerSetloc, AnswerSetmode, FromBcd, Param, IsCdda, IsBcd, SeekLeft, Attended;
    SameWorkIsLeft(s, AnswerSetloc(s));
    SameWorkIsLeft(s, AnswerSetmode(s));
    SameWorkIsLeft(s, AnswerGetlocL(disc, s));
    SameWorkIsLeft(s, AnswerGetTd(disc, s));
  }

  lemma InitLeavesNothing(s: State)
    requires !SeekLeft(s)
    ensures !SeekLeft(AnswerInit(s))
  {
    hide InitDelay, Scheduled, Signed32;
  }

  lemma PauseLeavesNothing(s: State)
    requires !SeekLeft(s)
    ensures !SeekLeft(AnswerPause(s))
  {
    hide PauseDelay, Scheduled;
  }

  lemma StartsLeaveNothing(disc: Disc, s: State, track: Byte, cmd: Byte)
    requires cmd == SEEKL || cmd == SEEKP
    ensures !SeekLeft(BeginReading(s)) && !SeekLeft(BeginPlaying(disc, s, track))
    ensures !SeekLeft(BeginSeeking(s, cmd, false, false))
  {
    hide BeginReading, BeginPlaying, SeekDelay, SeekTarget, Scheduled;
    ReadingIsUnderWay(s);
    PlayingIsUnderWay(disc, s, track);
  }

  lemma SkipsLeaveNothing(s: State)
    requires !SeekLeft(s)
    ensures !SeekLeft(AnswerForward(s)) && !SeekLeft(AnswerBackward(s))
  {
    hide Faster, Rewound, Ends;
  }

  lemma StopLeavesTheSeek(s: State)
    ensures SeekLeft(AnswerStop(s)) <==> s.head.seekPhase
  {
    hide StopDelay, Scheduled;
  }

  lemma MoveLeaves(disc: Disc, s: State, cmd: Byte)
    requires !SeekLeft(s) && MovesDrive(cmd)
    ensures SeekLeft(AnswerMove(disc, s, cmd)) <==> s.head.seekPhase && cmd == STOP
  {
    hide BeginReading, BeginPlaying, BeginSeeking, AnswerStop, AnswerForward, AnswerBackward, AnswerInit, AnswerPause;
    hide Raise, SeekLeft, Param;
    InitLeavesNothing(s);
    PauseLeavesNothing(s);
    StartsLeaveNothing(disc, Raise(s, INT_ACK), Param(s, 0), if cmd == SEEKL then SEEKL else SEEKP);
    StopLeavesTheSeek(s);
    SkipsLeaveNothing(s);
  }

  lemma CommandTickLeaves(disc: Disc, s: State)
    requires !SeekLeft(s)
    ensures SeekLeft(CommandTick(disc, s)) <==>
            s.head.seekPhase && s.io.flag == INT_NONE && LeavesSeek(s.drive, s.ev.pending)
  {
    hide AnswerCommand, Rearmed, NeedsDisc, LeavesSeek;
    var t := s.(ev := s.ev.(command := s.ev.command.(armed := false), cmdGuard := false));
    if s.io.flag == INT_NONE && s.ev.pending != NONE {
      var u := SetParams(t.(ev := t.ev.(pending := NONE)), s.ev.pendingParams);
      CommandLeaves(disc, u, s.ev.pending);
    }
    LeavingNeedsNoDisc(s.drive, s.ev.pending);
  }

  lemma LeavingNeedsNoDisc(drive: Drive, cmd: Byte)
    ensures LeavesSeek(drive, cmd) ==> !NeedsDisc(cmd) && cmd != NONE
  {
  }

  lemma CompleteSeekLeavesNothing(disc: Disc, s: State)
    ensures !SeekLeft(CompleteSeek(disc, s))
  {
    hide BeginReading, BeginPlaying, Arrive;
    ArrivedSeekIsOver(disc, s);
    ReadingIsUnderWay(Arrive(disc, s).(readAfterSeek := false));
    PlayingIsUnderWay(disc, Arrive(disc, s).(playAfterSeek := false), 0);
  }

  lemma RaisingKeepsWork(s: State, cause: Byte)
    ensures SameWork(s, Raise(s, cause))
  {
  }

  lemma RestEndsTheSeek(s: State)
    ensures Rest(s).drive.Idle? && !Rest(s).head.seekPhase
  {
  }

  // What delivering a second response does to the drive's work, by the command that owed it.
  lemma ExecutionByCommand(disc: Disc, s: State)
    ensures var t, cmd := ExecuteSecond(disc, s), s.ev.second;
            if cmd == INIT || cmd == STOP || cmd == PAUSE then t.drive.Idle? && !t.head.seekPhase
            else if cmd == SEEKL || cmd == SEEKP then t == CompleteSeek(disc, Taken(s))
            else SameWork(Taken(s), t)
  {
    hide CompleteSeek, StandardMode, Raise, Rest;
    var t := Taken(s);
    RaisingKeepsWork(t, if disc.present then INT_COMPLETE else INT_ERROR);
    RaisingKeepsWork(t, INT_COMPLETE);
    var reset := t.(mode := StandardMode(t.mode), motorOn := disc.present);
    var stopped := t.(motorOn := false);
    RestEndsTheSeek(reset);
    RestEndsTheSeek(stopped);
    RestEndsTheSeek(t);
    RaisingKeepsWork(Rest(reset), INT_COMPLETE);
    RaisingKeepsWork(Rest(stopped), INT_COMPLETE);
    RaisingKeepsWork(Rest(t), INT_COMPLETE);
  }

  lemma ExecutionLeavesNothing(disc: Disc, s: State)
    requires !SeekLeft(s)
    ensures !SeekLeft(ExecuteSecond(disc, s))
  {
    hide CompleteSeek, ExecuteSecond;
    ExecutionByCommand(disc, s);
    CompleteSeekLeavesNothing(disc, Taken(s));
  }

  lemma SecondTickLeavesNothing(disc: Disc, s: State)
    requires !SeekLeft(s)
    ensures !SeekLeft(SecondTick(disc, s))
  {
    hide ExecuteSecond, Rearmed, Ends;
    ExecutionLeavesNothing(disc, s.(ev := s.ev.(answer := s.ev.answer.(armed := false), secondGuard := false)));
  }

  lemma ArrivedSeekIsOver(disc: Disc, s: State)
    ensures !Arrive(disc, s).head.seekPhase && Arrive(disc, s).drive.Idle?
  {
  }

  lemma ReadingIsUnderWay(s: State)
    ensures BeginReading(s).drive.Reading?
  {
  }

  lemma PlayingIsUnderWay(disc: Disc, s: State, track: Byte)
    ensures BeginPlaying(disc, s, track).drive.Playing?
  {
  }

  lemma DriveTickLeaves(disc: Disc, s: State, between: seq<AsyncReader.Action>)
    requires !SeekLeft(s)
    ensures SeekLeft(DriveTick(disc, s, between)) <==>
            s.head.seekPhase && s.io.flag == INT_NONE && s.drive.Reading? &&
            AsyncReader.Answer(s.reader, s.head.current).Failed?
  {
    hide Between, RouteOf, IsCdda, QAt, NextLba, ReportDue, Before, Scheduled, PlaySector;
    hide AsyncReader.AfterPoll, AsyncReader.AfterUnpoll, AsyncReader.AfterQueue;
    if s.drive.Playing? {
      PlayingTurn(disc, s.(ev := s.ev.(drive := s.ev.drive.(armed := false))), between);
    }
  }

  lemma PlayOnKeepsDrive(s: State, q: SubQ, raw: SectorCodes.Sector)
    ensures var t := PlayOn(s, q, raw);
            t.drive == s.drive && t.ev.second == s.ev.second && !t.head.seekPhase
  {
    hide ReportDue, Scheduled, AsyncReader.AfterQueue;
  }

  // A turn of a playing drive leaves it playing or at rest, with no seek marked unless it waits.
  lemma PlayingTurn(disc: Disc, s: State, between: seq<AsyncReader.Action>)
    requires s.drive.Playing?
    ensures var t := PlaySector(disc, s, between);
            (t.drive.Playing? || (t.drive.Idle? && !t.head.seekPhase)) && t.ev.second == s.ev.second
  {
    hide Between, Before, Scheduled, AsyncReader.AfterPoll, AsyncReader.Answer, PlayOn, QAt;
    var a := AsyncReader.Answer(s.reader, s.head.current);
    if a.Ready? {
      PlayOnKeepsDrive(Polled(disc, s, between), QAt(disc, s.lastQ, s.head.current), a.sector);
    }
  }

  lemma WriteKeepsSeek(s: State, offset: nat, value: Byte)
    ensures SeekLeft(Write(s, offset, value)) == SeekLeft(s)
  {
    hide Cleared, Bit, RearmedIf, ScheduledOnce, AckDelay, Ends;
  }

  // Whether an input, taken during a seek, leaves its mark behind.
  predicate Abandons(s: State, i: Input) {
    && s.head.seekPhase && s.io.flag == INT_NONE
    && ((i.CommandEvent? && Due(s.ev.command, s.now) && LeavesSeek(s.drive, s.ev.pending)) ||
        (i.DriveEvent? && Due(s.ev.drive, s.now) && s.drive.Reading? &&
         AsyncReader.Answer(s.reader, s.head.current).Failed?))
  }

  /** A seek is marked on a drive that will not bring it to its end if and only if, with no interrupt
      pending, a due command event executes Reset or Stop during the seek, or MotorOn, ReadT, GetID or ReadTOC
      during one by SeekL or SeekP, or a due drive event finds that the first sector cannot be read. */
  lemma SeekOutlivesTheDrive(disc: Disc, s: State, i: Input)
    requires !SeekLeft(s)
    ensures SeekLeft(Step(disc, s, i)) <==> Abandons(s, i)
  {
    hide CommandTick, SecondTick, DriveTick, Write, Between, LeavesSeek, Ends;
    CommandTickLeaves(disc, s);
    SecondTickLeavesNothing(disc, s);
    match i
    case GuestWrite(offset, value) => WriteKeepsSeek(s, offset, value);
    case DriveEvent(between) => DriveTickLeaves(disc, s, between);
    case _ =>
  }

  /** So in every run without such an input, Pause and GetlocL are refused for a seek only while the head is
      on its way. */
  lemma {:induction false} RunsLeaveNoSeek(disc: Disc, run: seq<Input>)
    requires forall n :: 0 <= n < |run| ==> !Abandons(Run(disc, run[..n]), run[n])
    ensures !SeekLeft(Run(disc, run))
  {
    hide Step, Abandons, SeekLeft;
    if run == [] {
      NoSeekAtFirst(disc);
    } else {
      var n := |run| - 1;
      forall m | 0 <= m < n
        ensures !Abandons(Run(disc, run[..n][..m]), run[..n][m])
      {
        assert run[..n][..m] == run[..m];
      }
      RunsLeaveNoSeek(disc, run[..n]);
      SeekOutlivesTheDrive(disc, Run(disc, run[..n]), run[n]);
    }
  }

  lemma NoSeekAtFirst(disc: Disc)
    ensures !SeekLeft(Initial(disc))
  {
  }

  // ---- Runs that leave a seek behind ----

  // The guest acknowledges whatever interrupt there is, and selects the command port again.
  const ACKNOWLEDGE: seq<Input> := [GuestWrite(0, 1), GuestWrite(3, 0x1F), GuestWrite(0, 0)]

  // The guest writes a command, which is executed when its acknowledge delay is over.
  function Issue(cmd: Byte): seq<Input> {
    [GuestWrite(1, cmd), Elapse(ACK_DELAY), CommandEvent]
  }

  function Free(s: State): State {
    Rearm(s.(io := s.io.(index := 0, flag := INT_NONE)))
  }

  lemma AllCleared(flag: Byte)
    requires flag < 32
    ensures Cleared(flag, 0x1F) == INT_NONE && !Bit(0x1F, 0x40)
  {
  }

  lemma Acknowledged(disc: Disc, run: seq<Input>)
    requires Run(disc, run).io.flag < 32
    ensures Run(disc, run + ACKNOWLEDGE) == Free(Run(disc, run))
  {
    hide Cleared, Bit, RearmedIf, Run;
    AllCleared(Run(disc, run).io.flag);
    var r1 := run + [GuestWrite(0, 1)];
    var r2 := r1 + [GuestWrite(3, 0x1F)];
    assert run + ACKNOWLEDGE == r2 + [GuestWrite(0, 0)];
    OneMoreInput(disc, run, GuestWrite(0, 1));
    OneMoreInput(disc, r1, GuestWrite(3, 0x1F));
    OneMoreInput(disc, r2, GuestWrite(0, 0));
  }

  // The controller takes commands, and answers them after the usual delay.
  predicate Listens(s: State) {
    s.io.index == 0 && s.io.flag == INT_NONE && s.ev.pending == NONE && !s.ev.cmdGuard && s.motorOn
  }

  // The state in which a command written at s is executed.
  function Executing(s: State): State {
    s.(now := s.now + ACK_DELAY,
       ev := s.ev.(pendingParams := s.io.params, command := Scheduled(s.now, ACK_DELAY).(armed := false)))
  }

  lemma Issued(disc: Disc, run: seq<Input>, cmd: Byte)
    requires disc.present && Listens(Run(disc, run)) && cmd != INIT && cmd != READTOC && cmd != NONE
    ensures Run(disc, run + Issue(cmd)) == SetParams(AnswerCommand(disc, Executing(Run(disc, run)), cmd), [])
  {
    hide AnswerCommand, Run;
    var s := Run(disc, run);
    var r1 := run + [GuestWrite(1, cmd)];
    var r2 := r1 + [Elapse(ACK_DELAY)];
    assert run + Issue(cmd) == r2 + [CommandEvent];
    OneMoreInput(disc, run, GuestWrite(1, cmd));
    OneMoreInput(disc, r1, Elapse(ACK_DELAY));
    OneMoreInput(disc, r2, CommandEvent);
    assert SetParams(Executing(s), s.io.params) == Executing(s);
  }

  const READ: seq<Input> := Issue(READN)

  // A read from the start, acknowledged.
  lemma ReadIsUnderWay(disc: Disc)
    requires disc.present
    ensures var s := Run(disc, READ + ACKNOWLEDGE);
            && Listens(s) && s.io.params == [] && s.now == ACK_DELAY
            && s.drive.Reading? && s.head.seekPhase && s.head.current == 0 && s.ev.second == NONE
            && s.ev.drive == Scheduled(ACK_DELAY, SECTOR_TIME)
            && s.reader == AsyncReader.INITIAL.(hasRequest := true)
  {
    hide SeekTicks, IsBcd;
    assert [] + Issue(READN) == READ;
    Issued(disc, [], READN);
    Acknowledged(disc, READ);
  }

  // A Pause given now is refused.
  predicate PauseRefused(disc: Disc, s: State) {
    SeekLeft(s) && AnswerCommand(disc, s, PAUSE).io.flag == INT_ERROR
  }

  lemma LeftSeekRefusesPause(disc: Disc, s: State)
    requires SeekLeft(s)
    ensures PauseRefused(disc, s)
  {
  }

  /** A read followed by a Reset before its first sector leaves its seek marked on an idle drive. */
  lemma ResetStrandsARead(disc: Disc)
    requires disc.present
    ensures var s := Run(disc, READ + ACKNOWLEDGE + Issue(RESET));
            s.drive.Idle? && PauseRefused(disc, s)
  {
    hide Run;
    ReadIsUnderWay(disc);
    Issued(disc, READ + ACKNOWLEDGE, RESET);
  }

  lemma BetweenOne(disc: Disc, r: AsyncReader.State, a: AsyncReader.Action)
    requires a.Take? || a.Publish?
    ensures Between(disc, r, [a]) == AsyncReader.Step(disc.read, r, a)
  {
    assert [a][..0] == [];
  }

  lemma ReadHasFailed(disc: Disc, s: State, scratch: SectorCodes.Sector)
    requires disc.present && disc.read(0).None? && s.reader == AsyncReader.INITIAL.(hasRequest := true)
    ensures var t := Step(disc, Step(disc, s, ReaderStep(AsyncReader.Take)), ReaderStep(AsyncReader.Publish(scratch)));
            t == s.(reader := t.reader) && AsyncReader.Answer(t.reader, 0).Failed?
  {
    hide Between;
    var t := Step(disc, s, ReaderStep(AsyncReader.Take));
    BetweenOne(disc, s.reader, AsyncReader.Take);
    BetweenOne(disc, t.reader, AsyncReader.Publish(scratch));
  }

  /** So does a read whose first sector cannot be read. */
  lemma FailureStrandsARead(disc: Disc, scratch: SectorCodes.Sector)
    requires disc.present && disc.read(0).None?
    ensures var s := Run(disc, READ + ACKNOWLEDGE +
                               [ReaderStep(AsyncReader.Take)] + [ReaderStep(AsyncReader.Publish(scratch))] +
                               [Elapse(SECTOR_TIME)] + [DriveEvent([])]);
            s.drive.Idle? && PauseRefused(disc, s)
  {
    hide PauseRefused, Between, AsyncReader.Answer, Run;
    ReadIsUnderWay(disc);
    var r0 := READ + ACKNOWLEDGE;
    var r1 := r0 + [ReaderStep(AsyncReader.Take)];
    var r2 := r1 + [ReaderStep(AsyncReader.Publish(scratch))];
    var r3 := r2 + [Elapse(SECTOR_TIME)];
    OneMoreInput(disc, r0, ReaderStep(AsyncReader.Take));
    OneMoreInput(disc, r1, ReaderStep(AsyncReader.Publish(scratch)));
    ReadHasFailed(disc, Run(disc, r0), scratch);
    OneMoreInput(disc, r2, Elapse(SECTOR_TIME));
    OneMoreInput(disc, r3, DriveEvent([]));
    LeftSeekRefusesPause(disc, Run(disc, r3 + [DriveEvent([])]));
  }

  // GetID, through both its responses.
  const IDENTIFY := Issue(GETID) + ACKNOWLEDGE + [Elapse(ID_READ_DELAY), SecondEvent]

  lemma IdIsAnswered(disc: Disc, run: seq<Input>)
    requires disc.present && Listens(Run(disc, run))
    ensures var s := Run(disc, run);
            var t := Run(disc, run + IDENTIFY);
            && t.now == s.now + ACK_DELAY + ID_READ_DELAY
            && t.drive == s.drive && t.head == s.head && t.ev.second == NONE
  {
    hide Run;
    var r1 := run + Issue(GETID);
    var r2 := r1 + ACKNOWLEDGE;
    var r3 := r2 + [Elapse(ID_READ_DELAY)];
    assert run + IDENTIFY == r3 + [SecondEvent];
    Issued(disc, run, GETID);
    Acknowledged(disc, r1);
    OneMoreInput(disc, r2, Elapse(ID_READ_DELAY));
    OneMoreInput(disc, r3, SecondEvent);
  }

  /** A Stop before the first sector leaves the seek marked as well, and when a GetID then takes the place
      of its second response, the drive goes on stopping for ever with the seek marked. */
  lemma StopStrandsARead(disc: Disc)
    requires disc.present
    ensures var stopped := READ + ACKNOWLEDGE + Issue(STOP);
            var s := Run(disc, stopped);
            var t := Run(disc, stopped + ACKNOWLEDGE + IDENTIFY);
            && s.drive.Stopping? && s.ev.second == STOP && PauseRefused(disc, s)
            && t.drive.Stopping? && t.ev.second == NONE && PauseRefused(disc, t)
  {
    hide Run;
    ReadIsUnderWay(disc);
    var stopped := READ + ACKNOWLEDGE + Issue(STOP);
    Issued(disc, READ + ACKNOWLEDGE, STOP);
    Acknowledged(disc, stopped);
    IdIsAnswered(disc, stopped + ACKNOWLEDGE);
  }

  // Setloc to the first sector of the second minute.
  const LOCATED: seq<Input> := [GuestWrite(2, 1), GuestWrite(2, 0), GuestWrite(2, 0)]

  lemma ParamsAreWritten(disc: Disc)
    requires disc.present
    ensures var s := Run(disc, LOCATED);
            Listens(s) && s.head == Head(0, 0, 0, 0, false, false, 0) && s.io.params == [1, 0, 0]
  {
    var r0: seq<Input> := [GuestWrite(2, 1)];
    var r1 := r0 + [GuestWrite(2, 0)];
    OneMoreInput(disc, [], GuestWrite(2, 1));
    OneMoreInput(disc, r0, GuestWrite(2, 0));
    OneMoreInput(disc, r1, GuestWrite(2, 0));
    assert [] + [GuestWrite(2, 1)] == r0 && r1 + [GuestWrite(2, 0)] == LOCATED;
  }

  lemma HeadIsSentAway(disc: Disc)
    requires disc.present
    ensures var s := Run(disc, LOCATED + Issue(SETLOC) + ACKNOWLEDGE);
            Listens(s) && s.head == Head(0, 0, 0, 4350, true, false, 0)
  {
    hide Run;
    ParamsAreWritten(disc);
    Issued(disc, LOCATED, SETLOC);
    Acknowledged(disc, LOCATED + Issue(SETLOC));
  }

  /** A GetID during a seek by SeekL, long before the head arrives, leaves the drive seeking for ever. */
  lemma IdStrandsASeek(disc: Disc)
    requires disc.present
    ensures var seeking := LOCATED + Issue(SETLOC) + ACKNOWLEDGE + Issue(SEEKL);
            var s := Run(disc, seeking);
            var t := Run(disc, seeking + ACKNOWLEDGE + IDENTIFY);
            && UnderWay(s) && s.drive.Seeking? && t.now < s.ev.answer.target
            && t.drive.Seeking? && t.ev.second == NONE && PauseRefused(disc, t)
  {
    hide Run;
    HeadIsSentAway(disc);
    var seeking := LOCATED + Issue(SETLOC) + ACKNOWLEDGE + Issue(SEEKL);
    Issued(disc, LOCATED + Issue(SETLOC) + ACKNOWLEDGE, SEEKL);
    Acknowledged(disc, seeking);
    IdIsAnswered(disc, seeking + ACKNOWLEDGE);
  }

  // ---- Drives that wait for a second response ----

  predicate Waits(d: Drive) {
    d.Seeking? || d.Pausing? || d.Stopping?
  }

  // A waiting drive still has its own response owed, and a seeking one has its seek marked.
  predicate Attended(s: State) {
    Ends(s.drive, s.ev.second) && (s.drive.Seeking? ==> s.head.seekPhase)
  }

  // The commands whose response replaces the one a waiting drive needs, without stopping its work.
  predicate Replaces(s: State, cmd: Byte) {
    Waits(s.drive) &&
    (cmd == MOTORON || cmd == READT || cmd == GETID || cmd == READTOC || (cmd == INIT && !s.drive.Seeking?) ||
     (cmd == PAUSE && s.drive.Stopping? && !s.head.seekPhase))
  }

  lemma RaisingAttends(s: State, motorOn: bool, mode: Mode, cause: Byte)
    ensures Attended(Raise(s.(motorOn := motorOn), cause)) == Attended(Raise(s.(mode := mode), cause)) == Attended(s)
    ensures Attended(Raise(s.(drive := Idle, motorOn := motorOn), cause))
  {
    hide Ends;
    assert Ends(Idle, s.ev.second) by { IdleWaitsForNothing(s.ev.second); }
  }

  lemma IdleWaitsForNothing(second: Byte)
    ensures Ends(Idle, second)
  {
  }

  lemma TwiceAttends(s: State, motorOn: bool, cmd: Byte, cycles: nat)
    requires Attended(s)
    ensures Attended(AnswerTwice(s.(motorOn := motorOn), cmd, cycles)) <==> Ends(s.drive, cmd)
  {
    hide Ends, Scheduled;
  }

  lemma CommandReplaces(disc: Disc, s: State, cmd: Byte)
    requires Attended(s)
    ensures Attended(AnswerCommand(disc, s, cmd)) <==> !Replaces(s, cmd)
  {
    hide AnswerMove, AnswerSetloc, AnswerSetmode, AnswerGetlocL, AnswerGetTd, AnswerTwice;
    hide Raise, Param, Attended, SeekLeft;
    QueriesKeepDrive(disc, s);
    RaisingAttends(s, s.motorOn || Param(s, 0) == 0x04, s.mode.(file := Param(s, 0), channel := Param(s, 1)), INT_ACK);
    RaisingAttends(s, disc.present, s.mode, INT_ACK);
    RaisingAttends(s, s.motorOn, s.mode, INT_ERROR);
    assert s.(motorOn := s.motorOn) == s && s.(mode := s.mode) == s;
    TwiceAttends(s, true, MOTORON, SPINUP_DELAY);
    TwiceAttends(s, s.motorOn, READT, ACK_DELAY);
    TwiceAttends(s, s.motorOn, GETID, ID_READ_DELAY);
    TwiceAttends(s, s.motorOn, READTOC, READTOC_DELAY);
    if MovesDrive(cmd) {
      MoveReplaces(disc, s, cmd);
    }
  }

  lemma InitReplaces(s: State)
    requires Attended(s)
    ensures Attended(AnswerInit(s)) <==> !Replaces(s, INIT)
  {
    hide InitDelay, Scheduled, Signed32;
  }

  lemma PauseReplaces(s: State)
    requires Attended(s)
    ensures Attended(AnswerPause(s)) <==> !Replaces(s, PAUSE)
  {
    hide PauseDelay, Scheduled;
  }

  lemma StartsAttend(disc: Disc, s: State, track: Byte, cmd: Byte)
    requires cmd == SEEKL || cmd == SEEKP
    ensures Attended(BeginReading(s)) && Attended(BeginPlaying(disc, s, track))
    ensures Attended(BeginSeeking(s, cmd, false, false))
  {
    hide ReadDelay, ReadTarget, ReadMoves, PlayDelay, PlayTarget, SeekDelay, SeekTarget, Scheduled;
    ReadingIsUnderWay(s);
    PlayingIsUnderWay(disc, s, track);
  }

  lemma SkipsAttend(s: State)
    requires Attended(s)
    ensures Attended(AnswerForward(s)) && Attended(AnswerBackward(s))
  {
    hide Faster, Rewound;
  }

  lemma StopAttends(s: State)
    ensures Attended(AnswerStop(s))
  {
    hide StopDelay, Scheduled;
  }

  lemma MoveReplaces(disc: Disc, s: State, cmd: Byte)
    requires Attended(s) && MovesDrive(cmd)
    ensures Attended(AnswerMove(disc, s, cmd)) <==> !Replaces(s, cmd)
  {
    hide BeginReading, BeginPlaying, BeginSeeking, AnswerStop, AnswerForward, AnswerBackward, AnswerInit, AnswerPause,
      Raise, Attended, Param;
    InitReplaces(s);
    PauseReplaces(s);
    StartsAttend(disc, Raise(s, INT_ACK), Param(s, 0), if cmd == SEEKL then SEEKL else SEEKP);
    StopAttends(s);
    SkipsAttend(s);
  }

  lemma CommandTickReplaces(disc: Disc, s: State)
    requires Attended(s)
    ensures Attended(CommandTick(disc, s)) <==> !(s.io.flag == INT_NONE && Replaces(s, s.ev.pending))
  {
    hide AnswerCommand, Rearmed, Ends;
    var t := s.(ev := s.ev.(command := s.ev.command.(armed := false), cmdGuard := false));
    if s.io.flag == INT_NONE && s.ev.pending != NONE {
      var u := SetParams(t.(ev := t.ev.(pending := NONE)), s.ev.pendingParams);
      CommandReplaces(disc, u, s.ev.pending);
    }
  }

  lemma SeekEnds(disc: Disc, s: State)
    ensures !Waits(CompleteSeek(disc, s).drive)
  {
    hide BeginReading, BeginPlaying, Arrive;
    ArrivedSeekIsOver(disc, s);
    ReadingIsUnderWay(Arrive(disc, s).(readAfterSeek := false));
    PlayingIsUnderWay(disc, Arrive(disc, s).(playAfterSeek := false), 0);
  }

  lemma NotWaiting(s: State)
    requires !Waits(s.drive)
    ensures Attended(s)
  {
  }

  lemma WaitingIsEnded(d: Drive, second: Byte)
    requires Waits(d) && Ends(d, second)
    ensures second == SEEKL || second == SEEKP || second == PAUSE || second == STOP
  {
  }

  // The response a waiting drive has owed ends its waiting.
  lemma ExecutionAttends(disc: Disc, s: State)
    requires Attended(s)
    ensures Attended(ExecuteSecond(disc, s))
  {
    hide CompleteSeek, ExecuteSecond;
    ExecutionByCommand(disc, s);
    SeekEnds(disc, Taken(s));
    if Waits(s.drive) {
      WaitingIsEnded(s.drive, s.ev.second);
    }
    NotWaiting(ExecuteSecond(disc, s));
  }

  lemma SecondTickAttends(disc: Disc, s: State)
    requires Attended(s)
    ensures Attended(SecondTick(disc, s))
  {
    hide ExecuteSecond, Rearmed, Ends;
    ExecutionAttends(disc, s.(ev := s.ev.(answer := s.ev.answer.(armed := false), secondGuard := false)));
  }

  lemma DriveTickAttends(disc: Disc, s: State, between: seq<AsyncReader.Action>)
    requires Attended(s)
    ensures Attended(DriveTick(disc, s, between))
  {
    hide Between, RouteOf, IsCdda, QAt, NextLba, Scheduled, AsyncReader.AfterPoll, AsyncReader.AfterUnpoll,
      AsyncReader.AfterQueue, PlaySector;
    if s.drive.Playing? {
      PlayingTurn(disc, s.(ev := s.ev.(drive := s.ev.drive.(armed := false))), between);
    }
  }

  lemma WriteAttends(s: State, offset: nat, value: Byte)
    ensures Attended(Write(s, offset, value)) == Attended(s)
  {
    hide Cleared, Bit, RearmedIf, ScheduledOnce, AckDelay, Ends;
  }

  /** A seeking, pausing or stopping drive keeps its own second response owed exactly until a due command
      event executes, with no interrupt pending, one of the commands that replace it. */
  lemma WaitingIsReplaced(disc: Disc, s: State, i: Input)
    requires Attended(s)
    ensures Attended(Step(disc, s, i)) <==>
            !(i.CommandEvent? && Due(s.ev.command, s.now) && s.io.flag == INT_NONE && Replaces(s, s.ev.pending))
  {
    hide CommandTick, SecondTick, DriveTick, Write, Between, Ends, Replaces;
    CommandTickReplaces(disc, s);
    SecondTickAttends(disc, s);
    match i
    case GuestWrite(offset, value) => WriteAttends(s, offset, value);
    case DriveEvent(between) => DriveTickAttends(disc, s, between);
    case _ =>
  }

  /** Runs start attended, and stay so while no waiting drive's response is replaced. */
  lemma {:induction false} RunsAreAttended(disc: Disc, run: seq<Input>)
    requires forall n :: 0 <= n < |run| && run[n].CommandEvent? ==>
               !Replaces(Run(disc, run[..n]), Run(disc, run[..n]).ev.pending)
    ensures Attended(Run(disc, run))
  {
    hide Step, Replaces;
    if run != [] {
      var n := |run| - 1;
      forall m | 0 <= m < n && run[..n][m].CommandEvent?
        ensures !Replaces(Run(disc, run[..n][..m]), Run(disc, run[..n][..m]).ev.pending)
      {
        assert run[..n][..m] == run[..m];
      }
      RunsAreAttended(disc, run[..n]);
      WaitingIsReplaced(disc, Run(disc, run[..n]), run[n]);
    }
  }

  /** A response that only answers leaves a waiting drive as it is, with nothing owed any more: after SeekL
      and then GetID the drive goes on seeking. */
  lemma ReplacedDriveGoesOnWaiting(disc: Disc, s: State)
    requires Due(s.ev.answer, s.now) && s.io.flag == INT_NONE
    requires s.ev.second == GETID || s.ev.second == MOTORON || s.ev.second == READT || s.ev.second == READTOC
    ensures var t := Step(disc, s, SecondEvent);
            t.drive == s.drive && t.ev.second == NONE
  {
  }

  /** A second response belongs to its command, not to what the drive does meanwhile: delivered over a read
      that was accepted since, it stops the read exactly when it is an Init's, a Stop's, a Pause's or a
      plain seek's. */
  lemma LateResponsesStopReads(disc: Disc, s: State)
    requires s.drive.Reading? && Due(s.ev.answer, s.now) && s.io.flag == INT_NONE
    ensures Step(disc, s, SecondEvent).drive.Idle? <==>
            || s.ev.second == INIT || s.ev.second == STOP || s.ev.second == PAUSE
            || ((s.ev.second == SEEKL || s.ev.second == SEEKP) && !s.readAfterSeek && !s.playAfterSeek)
  {
    hide BeginReading, BeginPlaying, StandardMode, Arrive;
    var t := s.(ev := s.ev.(answer := s.ev.answer.(armed := false), secondGuard := false));
    var arrived := Arrive(disc, Taken(t));
    ArrivedSeekIsOver(disc, Taken(t));
    ReadingIsUnderWay(arrived.(readAfterSeek := false));
    PlayingIsUnderWay(disc, arrived.(playAfterSeek := false), 0);
  }
}
