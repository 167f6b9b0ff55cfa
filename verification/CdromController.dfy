/** The CD-ROM controller object: its fields, updated in place by register writes and event ticks, each
    method proved to make the step CdromModel gives for it. */
module CdromController {
  import opened CdromModel
  import opened Words
  import CdromSafety
  import CdromRuns
  import SectorCodes
  import AsyncReader

  function DelayOfRead(m: Mode, locationChanged: bool, from: nat, to: nat): nat {
    Period(m) + if locationChanged then SeekTicks(from, to) else 0
  }

  lemma ReadDelayIs(s: State, lba: nat)
    ensures ReadDelay(s, lba) == DelayOfRead(s.mode, ReadMoves(s.head), s.head.at, lba) + s.head.speedOwed
  {
    hide SeekTicks;
  }

  lemma PlayDelayIs(s: State, lba: nat)
    ensures PlayDelay(s, lba) ==
            (if lba != s.head.current then SEEK_CHANGE_DELAY else Period(s.mode)) + s.head.speedOwed
  {
  }

  lemma StartsSane(disc: Disc)
    ensures CdromSafety.Woken(Initial(disc)) && CdromSafety.Steady(disc, Initial(disc))
  {
    CdromRuns.RunsAreSteady(disc, []);
  }

  class Cdrom {
    var now: nat
    var io: Ports
    var ev: Events
    var drive: Drive
    var motorOn: bool
    var readAfterSeek: bool
    var playAfterSeek: bool
    var head: Head
    var cddaSpeed: nat
    var mode: Mode
    var headerValid: bool
    var lastQ: SubQ
    const reader: AsyncReader.Reader
    ghost var log: seq<Entry>

    ghost predicate Valid() {
      reader.Valid()
    }

    ghost function Now(): State
      requires Valid()
      reads this, reader, reader.sector
    {
      State(now, io, ev, drive, motorOn, readAfterSeek, playAfterSeek, head, cddaSpeed, mode, headerValid, lastQ,
            reader.Now(), log)
    }

    // What every run keeps: nothing pending without its event armed, no event early, the reader's buffer
    // true of the disc, and the sectors handled so far in order.
    ghost predicate Sane(disc: Disc)
      requires Valid()
      reads this, reader, reader.sector
    {
      CdromSafety.Woken(Now()) && CdromSafety.Steady(disc, Now())
    }

    constructor (disc: Disc)
      ensures Valid() && fresh(reader) && fresh(reader.sector) && Now() == Initial(disc)
      ensures Sane(disc)
    {
      now := 0;
      io := Ports(0, INT_NONE, [], 0);
      ev := Events(NONE, [], NONE, false, false, UNARMED, UNARMED, UNARMED);
      drive, motorOn, readAfterSeek, playAfterSeek := Idle, disc.present, false, false;
      head := Head(0, 0, 0, 0, false, false, 0);
      cddaSpeed := 0;
      mode := Mode(false, false, false, 0, 0, false, false);
      headerValid := false;
      lastQ := if disc.present then disc.subq(0) else SubQ(0, 0);
      log := [];
      reader := new AsyncReader.Reader();
      new;
      StartsSane(disc);
    }

    // ---- Events and interrupts ----

    method RearmCommandEvent()
      requires Valid()
      modifies this`ev
      ensures Now() == RearmCommand(old(Now()))
    {
      ev := ev.(cmdGuard := true);
      ev := ev.(command := Rearmed(ev.command, now));
    }

    method RearmSecondResponse()
      requires Valid()
      modifies this`ev
      ensures Now() == RearmSecond(old(Now()))
    {
      ev := ev.(secondGuard := true);
      ev := ev.(answer := Rearmed(ev.answer, now));
    }

    method ScheduleCommandEvent(cycles: nat)
      requires Valid()
      modifies this`ev
      ensures Now() == ScheduleCommand(old(Now()), cycles)
    {
      if ev.cmdGuard {
        return;
      }
      ev := ev.(cmdGuard := true);
      ev := ev.(command := Scheduled(now, cycles));
    }

    method ScheduleSecondResponse(cmd: Byte, cycles: nat)
      requires Valid()
      modifies this`ev
      ensures Now() == ScheduleSecond(old(Now()), cmd, cycles)
    {
      ev := ev.(second := cmd);
      ev := ev.(secondGuard := true);
      ev := ev.(answer := Scheduled(now, cycles));
    }

    method ScheduleDriveEvent(cycles: nat)
      requires Valid()
      modifies this`ev
      ensures Now() == ScheduleDrive(old(Now()), cycles)
    {
      ev := ev.(drive := Scheduled(now, cycles));
    }

    method Send(cause: Byte)
      requires Valid()
      modifies this`io
      ensures Now() == Raise(old(Now()), cause)
    {
      io := io.(flag := cause);
      io := io.(irqs := io.irqs + 1);
    }

    // ---- Starting a read, a play or a seek ----

    method TakeReadTarget() returns (locationChanged: bool)
      requires Valid()
      modifies this`head
      ensures head == old(head).(current := ReadTarget(old(Now())), setlocPending := false)
      ensures locationChanged <==> old(head.setlocPending && head.setloc != head.current)
    {
      locationChanged := false;
      if head.setlocPending {
        locationChanged := head.setloc != head.current;
        head := head.(current := head.setloc, setlocPending := false);
      } else if drive == Idle || drive == Pausing {
        head := head.(current := head.at);
      }
    }

    method StartReading()
      requires Valid()
      modifies this, reader
      ensures Now() == BeginReading(old(Now()))
    {
      hide ReadDelay, ReadTarget, AsyncReader.AfterQueue, Scheduled;
      ghost var s := Now();
      var speed := head.speedOwed;
      var from := head.at;
      var locationChanged := TakeReadTarget();
      head := head.(seekPhase := head.seekPhase || locationChanged || drive != Reading, speedOwed := 0);
      drive := Reading;
      reader.RequestSector(head.current);
      var delay := DelayOfRead(mode, locationChanged, from, head.current) + speed;
      assert delay == ReadDelay(s, head.current) by { ReadDelayIs(s, head.current); }
      log := log + [Started(head.current, now)];
      ScheduleDriveEvent(delay);
    }

    method TakePlayTarget(disc: Disc, trackParam: Byte) returns (locationChanged: bool)
      requires Valid()
      modifies this`head
      ensures head == old(head).(current := PlayTarget(disc, old(Now()), trackParam), setlocPending := false)
      ensures locationChanged <==> head.current != old(head.current)
    {
      locationChanged := false;
      if trackParam > 0 && disc.lastTrack > 0 {
        var t: nat := trackParam;
        if t > disc.lastTrack {
          t := disc.lastTrack;
        }
        locationChanged := disc.startLba(t) != head.current;
        head := head.(current := disc.startLba(t), setlocPending := false);
      } else if head.setlocPending {
        locationChanged := head.setloc != head.current;
        head := head.(current := head.setloc, setlocPending := false);
      }
    }

    method EnterPlay(locationChanged: bool)
      requires Valid()
      modifies this`head, this`drive, this`cddaSpeed, this`log
      ensures head == old(head).(seekPhase := old(head.seekPhase) || locationChanged || old(drive) != Playing,
                                 speedOwed := 0)
      ensures drive == Playing && cddaSpeed == 1 && log == old(log) + [PlayStarted(head.current, now)]
    {
      head := head.(seekPhase := head.seekPhase || locationChanged || drive != Playing, speedOwed := 0);
      drive := Playing;
      cddaSpeed := 1;
      log := log + [PlayStarted(head.current, now)];
    }

    method StartPlaying(disc: Disc, trackParam: Byte)
      requires Valid()
      modifies this, reader
      ensures Now() == BeginPlaying(disc, old(Now()), trackParam)
    {
      hide PlayDelay, PlayTarget, AsyncReader.AfterQueue, Scheduled;
      ghost var s := Now();
      var speed := head.speedOwed;
      var locationChanged := TakePlayTarget(disc, trackParam);
      EnterPlay(locationChanged);
      reader.RequestSector(head.current);
      var delay := (if locationChanged then SEEK_CHANGE_DELAY else Period(mode)) + speed;
      assert delay == PlayDelay(s, head.current) by { PlayDelayIs(s, head.current); }
      ScheduleDriveEvent(delay);
    }

    method StartSeeking(cmd: Byte, readAfter: bool, playAfter: bool)
      requires Valid()
      modifies this
      ensures Now() == BeginSeeking(old(Now()), cmd, readAfter, playAfter)
    {
      hide SeekDelay, SeekTarget, Scheduled;
      readAfterSeek := readAfter;
      playAfterSeek := playAfter;
      var delay := SeekDelay(head, SeekTarget(head));
      head := head.(target := SeekTarget(head), setlocPending := false, seekPhase := true, speedOwed := 0);
      drive := Seeking;
      ScheduleSecondResponse(cmd, delay);
    }

    // ---- First responses ----

    method Setloc()
      requires Valid()
      modifies this
      ensures Now() == AnswerSetloc(old(Now()))
    {
      hide ValidMsf, FromBcd;
      var mm, ss, ff := PeekParam(0), PeekParam(1), PeekParam(2);
      if !ValidMsf(mm, ss, ff) {
        Send(INT_ERROR);
      } else {
        head := head.(setloc := ((FromBcd(mm) * 60 + FromBcd(ss)) * 75 + FromBcd(ff) - 150) % TWO_32);
        head := head.(setlocPending := true);
        Send(INT_ACK);
      }
    }

    function PeekParam(i: nat): Byte
      reads this
    {
      if i < |io.params| then io.params[i] else 0
    }

    method Forward()
      requires Valid()
      modifies this
      ensures Now() == AnswerForward(old(Now()))
    {
      if drive == Playing {
        cddaSpeed := if cddaSpeed < 4 then cddaSpeed * 2 else 4;
      }
      Send(INT_ACK);
    }

    method Backward()
      requires Valid()
      modifies this, reader
      ensures Now() == AnswerBackward(old(Now()))
    {
      if drive == Playing {
        if head.current > 4 {
          head := head.(current := head.current - 4);
        } else {
          head := head.(current := 0);
        }
        reader.RequestSector(head.current);
        log := log + [Skipped(head.current, now)];
      }
      Send(INT_ACK);
    }

    method Stop()
      requires Valid()
      modifies this
      ensures Now() == AnswerStop(old(Now()))
    {
      var stopDelay := STOP_IDLE_DELAY;
      if motorOn && drive != Idle {
        stopDelay := if mode.double then STOP_2X_DELAY else STOP_1X_DELAY;
      }
      drive := Stopping;
      Send(INT_ACK);
      ScheduleSecondResponse(STOP, stopDelay);
    }

    method StartPause()
      requires Valid()
      modifies this
      ensures Now() == BeginPause(old(Now()))
    {
      hide Scheduled;
      Send(INT_ACK);
      var pauseDelay := PAUSE_IDLE_DELAY;
      if drive != Idle {
        pauseDelay := if mode.double then PAUSE_2X_DELAY else PAUSE_1X_DELAY;
      }
      assert pauseDelay == PauseDelay(drive, mode.double);
      hide PauseDelay;
      if drive == Reading || drive == Playing {
        drive := Pausing;
      }
      ScheduleSecondResponse(PAUSE, pauseDelay);
    }

    method Pause()
      requires Valid()
      modifies this
      ensures Now() == AnswerPause(old(Now()))
    {
      hide BeginPause, Raise;
      if head.seekPhase {
        Send(INT_ERROR);
      } else {
        StartPause();
      }
    }

    method EnterStandby()
      requires Valid()
      modifies this`mode, this`head, this`drive, this`readAfterSeek, this`playAfterSeek, this`motorOn
      ensures Now() == Standby(old(Now())) && head.at == old(head.at)
    {
      hide StandardMode, Parked, Active;
      mode := StandardMode(mode);
      head := head.(seekPhase := head.seekPhase && !Active(drive));
      drive := Parked(drive);
      readAfterSeek := false;
      playAfterSeek := false;
      motorOn := true;
    }

    method StartInit()
      requires Valid()
      modifies this
      ensures Now() == BeginInit(old(Now()))
    {
      hide InitDelay, Standby;
      EnterStandby();
      Send(INT_ACK);
      ScheduleSecondResponse(INIT, InitDelay(head.at));
    }

    method Init()
      requires Valid()
      modifies this
      ensures Now() == AnswerInit(old(Now()))
    {
      hide InitOwed, BeginInit;
      if InitOwed(ev, now) {
        return;
      }
      StartInit();
    }

    method Setmode()
      requires Valid()
      modifies this
      ensures Now() == AnswerSetmode(old(Now()))
    {
      hide Bit;
      var m := PeekParam(0);
      var newDoubleSpeed := Bit(m, 0x80);
      if newDoubleSpeed != mode.double {
        head := head.(speedOwed := if newDoubleSpeed then SPEED_UP_DELAY else SPEED_DOWN_DELAY);
      }
      mode := mode.(double := newDoubleSpeed, adpcm := Bit(m, 0x40), filter := Bit(m, 0x08),
                    report := Bit(m, 0x04), autoPause := Bit(m, 0x02));
      Send(INT_ACK);
    }

    method GetlocL(disc: Disc)
      requires Valid()
      modifies this
      ensures Now() == AnswerGetlocL(disc, old(Now()))
    {
      if head.seekPhase {
        Send(INT_ERROR);
      } else if IsCdda(disc, head.at) {
        Send(INT_ERROR);
      } else if headerValid && motorOn {
        Send(INT_ACK);
      } else {
        Send(INT_ERROR);
      }
    }

    method GetTd(disc: Disc)
      requires Valid()
      modifies this
      ensures Now() == AnswerGetTd(disc, old(Now()))
    {
      hide IsBcd, FromBcd;
      var track := PeekParam(0);
      if !IsBcd(track) || FromBcd(track) > disc.lastTrack {
        Send(INT_ERROR);
      } else {
        Send(INT_ACK);
      }
    }

    method SendTwice(cmd: Byte, cycles: nat)
      requires Valid()
      modifies this
      ensures Now() == AnswerTwice(old(Now()), cmd, cycles)
    {
      Send(INT_ACK);
      ScheduleSecondResponse(cmd, cycles);
    }

    method DispatchMove(disc: Disc, cmd: Byte)
      requires Valid() && MovesDrive(cmd)
      modifies this, reader
      ensures Now() == AnswerMove(disc, old(Now()), cmd)
    {
      hide BeginPlaying, AnswerForward, AnswerBackward, BeginReading, AnswerStop, AnswerPause, AnswerInit, BeginSeeking,
        Raise;
      if cmd == PLAY {
        var trackParam := PeekParam(0);
        Send(INT_ACK);
        StartPlaying(disc, trackParam);
      } else if cmd == FORWARD {
        Forward();
      } else if cmd == BACKWARD {
        Backward();
      } else if cmd == READN || cmd == READS {
        Send(INT_ACK);
        StartReading();
      } else if cmd == STOP {
        Stop();
      } else if cmd == PAUSE {
        Pause();
      } else if cmd == INIT {
        Init();
      } else {
        Send(INT_ACK);
        StartSeeking(cmd, false, false);
      }
    }

    method DispatchCommand(disc: Disc, cmd: Byte)
      requires Valid()
      modifies this, reader
      ensures Now() == AnswerCommand(disc, old(Now()), cmd)
    {
      hide AnswerMove, MovesDrive, AnswerSetloc, AnswerTwice, AnswerSetmode, AnswerGetlocL, AnswerGetTd, Raise;
      if OnlyAnswers(cmd) {
        Send(INT_ACK);
      } else if MovesDrive(cmd) {
        DispatchMove(disc, cmd);
      } else if cmd == SETLOC {
        Setloc();
      } else if cmd == MOTORON {
        motorOn := true;
        SendTwice(cmd, SPINUP_DELAY);
      } else if cmd == SETFILTER {
        mode := mode.(file := PeekParam(0), channel := PeekParam(1));
        Send(INT_ACK);
      } else if cmd == SETMODE {
        Setmode();
      } else if cmd == GETLOCL {
        GetlocL(disc);
      } else if cmd == READT {
        SendTwice(cmd, ACK_DELAY);
      } else if cmd == GETTD {
        GetTd(disc);
      } else if cmd == TEST {
        if PeekParam(0) == 0x04 {
          motorOn := true;
        }
        Send(INT_ACK);
      } else if cmd == GETID {
        SendTwice(cmd, ID_READ_DELAY);
      } else if cmd == RESET {
        drive := Idle;
        motorOn := disc.present;
        Send(INT_ACK);
      } else if cmd == READTOC {
        SendTwice(cmd, READTOC_DELAY);
      } else {
        Send(INT_ERROR);
      }
    }

    method ExecutePending(disc: Disc)
      requires Valid()
      modifies this, reader
      ensures Now() == ExecuteCommand(disc, old(Now()))
    {
      hide AnswerCommand, Raise, NeedsDisc;
      var cmd := ev.pending;
      ev := ev.(pending := NONE);
      io := io.(params := ev.pendingParams);
      if !disc.present && NeedsDisc(cmd) {
        Send(INT_ERROR);
        return;
      }
      DispatchCommand(disc, cmd);
      label answered:
      io := io.(params := []);
      assert Now() == SetParams(old@answered(Now()), []);
    }

    // ---- Second responses ----

    method PlaceHead(disc: Disc)
      requires Valid()
      modifies this`head, this`drive, this`lastQ, this`io, this`log
      ensures Now() == Arrive(disc, old(Now()))
    {
      head := head.(current := head.target, at := head.target, seekPhase := false);
      drive := Idle;
      lastQ := disc.subq(head.current);
      log := log + [Arrived(head.current, now)];
      Send(INT_COMPLETE);
    }

    method FinishSeek(disc: Disc)
      requires Valid()
      modifies this, reader
      ensures Now() == CompleteSeek(disc, old(Now()))
    {
      hide BeginReading, BeginPlaying, Arrive;
      PlaceHead(disc);
      if readAfterSeek {
        readAfterSeek := false;
        StartReading();
      } else if playAfterSeek {
        playAfterSeek := false;
        StartPlaying(disc, 0);
      }
    }

    method ComeToRest()
      requires Valid()
      modifies this`drive, this`head
      ensures Now() == Rest(old(Now()))
    {
      drive := Idle;
      head := head.(seekPhase := false);
    }

    method ExecuteSecondResponse(disc: Disc)
      requires Valid()
      modifies this, reader
      ensures Now() == ExecuteSecond(disc, old(Now()))
    {
      hide CompleteSeek, Raise, StandardMode, Rest;
      var cmd := ev.second;
      ev := ev.(second := NONE);
      if cmd == GETID {
        Send(if disc.present then INT_COMPLETE else INT_ERROR);
      } else if cmd == INIT {
        motorOn := disc.present;
        mode := StandardMode(mode);
        ComeToRest();
        Send(INT_COMPLETE);
      } else if cmd == STOP {
        motorOn := false;
        ComeToRest();
        Send(INT_COMPLETE);
      } else if cmd == PAUSE {
        ComeToRest();
        Send(INT_COMPLETE);
      } else if cmd == SEEKL || cmd == SEEKP {
        FinishSeek(disc);
      } else if cmd == MOTORON || cmd == READT || cmd == READTOC {
        Send(INT_COMPLETE);
      }
    }

    // ---- The drive ----

    // The reader thread's steps while the mutex is free.
    method LetReaderRun(disc: Disc, steps: seq<AsyncReader.Action>)
      requires Valid()
      modifies reader, reader.sector
      ensures reader.Now() == Between(disc, old(reader.Now()), steps)
    {
      ghost var r := reader.Now();
      var i := 0;
      while i < |steps|
        invariant 0 <= i <= |steps| && Valid()
        invariant reader.Now() == Between(disc, r, steps[..i])
      {
        assert steps[..i + 1][..i] == steps[..i];
        reader.Run(disc.read, steps[i]);
        i := i + 1;
      }
      assert steps[..i] == steps;
    }

    method PassSector(disc: Disc, raw: SectorCodes.Sector, route: Route)
      requires Valid()
      modifies this, reader
      ensures Now() == Handle(disc, old(Now()), raw, route)
    {
      hide NextLba, QAt, AsyncReader.AfterQueue, Scheduled;
      log := log + [Handled(head.current, now, route, raw)];
      lastQ := QAt(disc, lastQ, head.current);
      head := head.(seekPhase := false, at := head.current, current := NextLba(head.current));
      reader.RequestSector(head.current);
      ScheduleDriveEvent(Period(mode));
    }

    method DriveReadSector(disc: Disc, intPending: bool, between: seq<AsyncReader.Action>)
      requires Valid()
      modifies this, reader, reader.sector
      ensures Now() == ReadSector(disc, old(Now()), intPending, between)
    {
      hide Handle, Between, RouteOf, IsCdda, Raise, Scheduled;
      hide AsyncReader.AfterPoll, AsyncReader.AfterUnpoll, AsyncReader.Answer;
      var raw := new bv8[2352];
      var st := reader.PollSector(raw, head.current);
      LetReaderRun(disc, between);
      match st
      case Pending =>
        ScheduleDriveEvent(READ_RETRY_DELAY);
      case Failed =>
        if !intPending {
          drive := Idle;
          Send(INT_ERROR);
        }
      case Ready(_) =>
        var route := RouteOf(raw[..], IsCdda(disc, head.current), mode);
        if route == ToCpu && intPending {
          reader.UnpollSector(head.current);
        } else {
          PassSector(disc, raw[..], route);
          if route == ToCpu {
            headerValid := true;
            Send(INT_DATA_READY);
          }
        }
    }

    method PlayAndMoveOn(q: SubQ, raw: SectorCodes.Sector)
      requires Valid()
      modifies this, reader
      ensures Now() == PlayOn(old(Now()), q, raw)
    {
      hide ReportDue, AsyncReader.AfterQueue, Scheduled;
      lastQ := q;
      log := log + [Played(head.current, now, cddaSpeed, raw)];
      var next := (head.current + cddaSpeed) % TWO_32;
      head := head.(seekPhase := false, at := head.current, current := next);
      reader.RequestSector(next);
      ScheduleDriveEvent(Period(mode));
      if mode.report && ReportDue(q) {
        Send(INT_DATA_READY);
      }
    }

    method PauseAtTrack()
      requires Valid()
      modifies this`drive, this`head, this`log, this`io
      ensures var s, back := old(Now()), Before(old(head.current));
              Now() == Raise(s.(drive := Idle, head := s.head.(seekPhase := false, current := back, at := back),
                                log := s.log + [AutoPaused(back, s.now)]),
                             INT_DATA_END)
    {
      hide Before;
      drive := Idle;
      head := head.(seekPhase := false, current := Before(head.current), at := Before(head.current));
      log := log + [AutoPaused(head.current, now)];
      Send(INT_DATA_END);
    }

    method DrivePlaySector(disc: Disc, between: seq<AsyncReader.Action>)
      requires Valid()
      modifies this, reader, reader.sector
      ensures Now() == PlaySector(disc, old(Now()), between)
    {
      hide PlayOn, Between, QAt, Before, Raise, Rest, Scheduled;
      hide AsyncReader.AfterPoll, AsyncReader.Answer;
      var raw := new bv8[2352];
      var st := reader.PollSector(raw, head.current);
      LetReaderRun(disc, between);
      if st == AsyncReader.Pending {
        ScheduleDriveEvent(READ_RETRY_DELAY);
        return;
      }
      if st == AsyncReader.Failed {
        ComeToRest();
        return;
      }
      var q := QAt(disc, lastQ, head.current);
      if head.current >= disc.totalSectors {
        ComeToRest();
        Send(INT_DATA_END);
      } else if mode.autoPause && !head.seekPhase && q.track != lastQ.track {
        PauseAtTrack();
      } else {
        PlayAndMoveOn(q, raw[..]);
      }
    }

    // ---- Event ticks ----

    method CommandEventTick(disc: Disc)
      requires Valid()
      modifies this, reader
      ensures Now() == CommandTick(disc, old(Now()))
    {
      hide ExecuteCommand, Rearmed;
      ev := ev.(command := ev.command.(armed := false), cmdGuard := false);
      if io.flag != INT_NONE {
        RearmCommandEvent();
        return;
      }
      if ev.pending == NONE {
        return;
      }
      ExecutePending(disc);
    }

    method SecondEventTick(disc: Disc)
      requires Valid()
      modifies this, reader
      ensures Now() == SecondTick(disc, old(Now()))
    {
      hide ExecuteSecond, Rearmed;
      ev := ev.(answer := ev.answer.(armed := false), secondGuard := false);
      if io.flag != INT_NONE {
        RearmSecondResponse();
        return;
      }
      ExecuteSecondResponse(disc);
    }

    method DriveEventTick(disc: Disc, between: seq<AsyncReader.Action>)
      requires Valid()
      modifies this, reader, reader.sector
      ensures Now() == DriveTick(disc, old(Now()), between)
    {
      hide ReadSector, PlaySector, Scheduled;
      ev := ev.(drive := ev.drive.(armed := false));
      if io.flag != INT_NONE {
        if drive == Playing {
          ScheduleDriveEvent(MIN_INT_DELAY);
        } else if drive == Reading {
          DriveReadSector(disc, true, between);
        }
      } else if drive == Reading {
        DriveReadSector(disc, false, between);
      } else if drive == Playing {
        DrivePlaySector(disc, between);
      }
    }

    // ---- Register writes ----

    method AcceptCommand(cmd: Byte)
      requires Valid()
      modifies this`ev
      ensures Now() == WriteCommand(old(Now()), cmd)
    {
      hide ScheduledOnce;
      if ev.pending != NONE {
        return;
      }
      ev := ev.(pending := cmd, pendingParams := io.params);
      var ack := ACK_DELAY;
      if cmd == INIT || cmd == READTOC {
        ack := ACK_DELAY_INIT;
      } else if !motorOn {
        ack := ACK_DELAY_STOPPED;
      }
      ScheduleCommandEvent(ack);
    }

    method AcknowledgeInterrupt(value: Byte)
      requires Valid()
      modifies this`io, this`ev
      ensures Now() == Acknowledge(old(Now()), value)
    {
      hide Cleared, Bit, Rearmed;
      io := io.(flag := Cleared(io.flag, value));
      if Bit(value, 0x40) {
        io := io.(params := []);
      }
      if io.flag == INT_NONE {
        if ev.second != NONE {
          RearmSecondResponse();
        }
        if drive == Reading {
          ev := ev.(drive := Rearmed(ev.drive, now));
        }
        if ev.pending != NONE {
          RearmCommandEvent();
        }
      }
    }

    method Write8(offset: nat, value: Byte)
      requires Valid()
      modifies this
      ensures Now() == Write(old(Now()), offset, value)
    {
      hide WriteCommand, Acknowledge;
      if offset == 0 {
        io := io.(index := value % 4);
      } else if offset == 1 && io.index == 0 {
        AcceptCommand(value);
      } else if offset == 2 && io.index == 0 {
        if |io.params| < 16 {
          io := io.(params := io.params + [value]);
        }
      } else if offset == 3 && io.index == 1 {
        AcknowledgeInterrupt(value);
      }
    }

    // ---- The object as a whole ----

    /** Whatever happens next, a guest write, an event, time or a step of the reader thread, the object makes
        exactly the step of the model: events only when due, the reader only with a disc. So it keeps what
        every run keeps. */
    method Perform(disc: Disc, i: Input)
      requires Valid() && Sane(disc)
      modifies this, reader, reader.sector
      ensures Valid() && Now() == Step(disc, old(Now()), i) && Sane(disc)
    {
      hide CommandTick, SecondTick, DriveTick, Write, Between;
      hide CdromSafety.Woken, CdromSafety.Steady;
      CdromRuns.StepKeeps(disc, Now(), i);
      match i
      case GuestWrite(offset, value) =>
        Write8(offset, value);
      case Elapse(cycles) =>
        now := now + cycles;
      case CommandEvent =>
        if Due(ev.command, now) {
          CommandEventTick(disc);
        }
      case SecondEvent =>
        if Due(ev.answer, now) {
          SecondEventTick(disc);
        }
      case DriveEvent(between) =>
        if Due(ev.drive, now) {
          DriveEventTick(disc, between);
        }
      case ReaderStep(action) =>
        if disc.present {
          LetReaderRun(disc, [action]);
        }
    }

    /** From the start, the object goes through exactly the run its inputs make, so every promise about runs
        is a promise about the object. */
    method PerformAll(disc: Disc, run: seq<Input>)
      requires Valid() && Now() == Initial(disc)
      modifies this, reader, reader.sector
      ensures Valid() && Now() == Run(disc, run) && Sane(disc)
    {
      hide Step;
      hide CdromSafety.Woken, CdromSafety.Steady;
      StartsSane(disc);
      for n := 0 to |run|
        invariant Valid() && Now() == Run(disc, run[..n]) && Sane(disc)
      {
        assert run[..n + 1][..n] == run[..n];
        Perform(disc, run[n]);
      }
      assert run[..|run|] == run;
    }
  }
}
