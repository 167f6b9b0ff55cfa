/** What every run of the CD-ROM controller keeps: wake-ups, interrupts and deadlines. */
module CdromSafety {
  import opened CdromModel
  import opened Words
  import opened Wrappers
  import SectorCodes
  import AsyncReader

  // The longest delay anything is scheduled for: an Init, with a full seek back to the start.
  const LONGEST := 60_000_000

  // ---- What answering may change ----

  ghost predicate Fresh(t: Timer, now: nat) {
    t.armed && t.target == t.deadline && now <= t.deadline <= now + LONGEST
  }

  ghost predicate SameAnswer(e: Events, f: Events) {
    f.second == e.second && f.secondGuard == e.secondGuard && f.answer == e.answer
  }

  // The commands that owe a second response.
  predicate Owing(cmd: Byte) {
    cmd == GETID || cmd == INIT || cmd == STOP || cmd == PAUSE || cmd == SEEKL || cmd == SEEKP || cmd == MOTORON ||
    cmd == READT || cmd == READTOC
  }

  ghost predicate NewAnswer(e: Events, now: nat) {
    Owing(e.second) && e.secondGuard && Fresh(e.answer, now)
  }

  // The address the drive is at after this entry.
  function NextOf(e: Entry): nat {
    match e
    case Handled(lba, _, _, _) => NextLba(lba)
    case Played(lba, _, speed, _) => (lba + speed) % TWO_32
    case _ => e.lba
  }

  // The sector the drive is to fetch next, after all it has done.
  function Coming(log: seq<Entry>): nat {
    if log == [] then 0 else NextOf(log[|log| - 1])
  }

  // Whether an entry says where the head physically is.
  predicate Places(e: Entry) {
    e.Handled? || e.Played? || e.Arrived? || e.AutoPaused?
  }

  // Where the head is: on the last sector handled or played, at the end of a seek, or where AutoPause left it.
  function Position(log: seq<Entry>): nat {
    if log == [] then 0
    else if Places(log[|log| - 1]) then log[|log| - 1].lba
    else Position(log[..|log| - 1])
  }

  // The subchannel Q the drive last took from the disc, which a patched sector leaves standing.
  function LastQ(disc: Disc, log: seq<Entry>): SubQ {
    if log == [] then if disc.present then disc.subq(0) else SubQ(0, 0)
    else
      var before := LastQ(disc, log[..|log| - 1]);
      var e := log[|log| - 1];
      if e.Arrived? then disc.subq(e.lba)
      else if e.Handled? || e.Played? then QAt(disc, before, e.lba)
      else before
  }

  // The log says where the head is, what comes next, and which Q was read.
  ghost predicate Placed(disc: Disc, s: State) {
    s.head.current == Coming(s.log) && s.head.at == Position(s.log) && s.lastQ == LastQ(disc, s.log)
  }

  // Entries that a turn of the drive makes.
  predicate ByTurn(e: Entry) {
    e.Handled? || e.Played? || e.AutoPaused?
  }

  ghost predicate Grows(log: seq<Entry>, longer: seq<Entry>) {
    log <= longer && forall k :: |log| <= k < |longer| ==> !ByTurn(longer[k])
  }

  ghost predicate StartsReading(s: State, t: State) {
    && t.drive.Reading? && Fresh(t.ev.drive, s.now) && s.now + SECTOR_TIME_2X <= t.ev.drive.deadline
    && t.log != [] && t.log[|t.log| - 1] == Started(t.head.current, s.now)
  }

  ghost predicate StartsPlaying(s: State, t: State) {
    && t.drive.Playing? && Fresh(t.ev.drive, s.now)
    && t.log != [] && t.log[|t.log| - 1] == PlayStarted(t.head.current, s.now)
  }

  // The drive is left as it is, or stopped, or skips back while it plays.
  ghost predicate KeepsDriving(s: State, t: State) {
    && t.ev.drive == s.ev.drive
    && (t.drive.Playing? ==> s.drive.Playing? && (t.log == s.log || (t.log != [] && t.log[|t.log| - 1].Skipped?)))
    && (t.drive.Reading? ==> s.drive.Reading? && t.log == s.log)
  }

  ghost predicate DrivesOn(disc: Disc, s: State, t: State) {
    && (AsyncReader.Sound(disc.read, s.reader) ==> AsyncReader.Sound(disc.read, t.reader))
    && (s.head.speedOwed <= SPEED_DOWN_DELAY ==> t.head.speedOwed <= SPEED_DOWN_DELAY)
    && Grows(s.log, t.log) && (Placed(disc, s) ==> Placed(disc, t))
    && (KeepsDriving(s, t) || StartsReading(s, t) || StartsPlaying(s, t))
  }

  // What one more entry does to the three readings of the log.
  lemma OneMoreEntry(disc: Disc, log: seq<Entry>, e: Entry)
    ensures Coming(log + [e]) == NextOf(e)
    ensures Position(log + [e]) == if Places(e) then e.lba else Position(log)
    ensures LastQ(disc, log + [e]) ==
            if e.Arrived? then disc.subq(e.lba)
            else if e.Handled? || e.Played? then QAt(disc, LastQ(disc, log), e.lba)
            else LastQ(disc, log)
  {
    assert (log + [e])[..|log|] == log;
  }

  // The rest of what an answer leaves alone.
  ghost predicate SameCommand(s: State, t: State) {
    && t.now == s.now
    && t.ev.pending == s.ev.pending && t.ev.cmdGuard == s.ev.cmdGuard && t.ev.command == s.ev.command
  }

  ghost predicate Raised(s: State, t: State) {
    t.io.irqs == s.io.irqs + 1 && 1 <= t.io.flag <= 5
  }

  ghost predicate Responds(disc: Disc, s: State, t: State) {
    && SameCommand(s, t)
    && (SameAnswer(s.ev, t.ev) || NewAnswer(t.ev, s.now))
    && DrivesOn(disc, s, t)
  }

  lemma ReadingResponds(disc: Disc, s: State)
    requires s.head.speedOwed <= SPEED_DOWN_DELAY
    ensures var t := BeginReading(s);
            Responds(disc, s, t) && SameAnswer(s.ev, t.ev) && t.io == s.io
  {
    hide SeekTicks, ReadTarget, LastQ, Position, Coming;
    OneMoreEntry(disc, s.log, Started(ReadTarget(s), s.now));
  }

  lemma PlayingResponds(disc: Disc, s: State, track: Byte)
    requires s.head.speedOwed <= SPEED_DOWN_DELAY
    ensures var t := BeginPlaying(disc, s, track);
            Responds(disc, s, t) && SameAnswer(s.ev, t.ev) && t.io == s.io
  {
    hide PlayTarget, LastQ, Position, Coming;
    OneMoreEntry(disc, s.log, PlayStarted(PlayTarget(disc, s, track), s.now));
  }

  lemma SeekingResponds(disc: Disc, s: State, cmd: Byte)
    requires s.head.speedOwed <= SPEED_DOWN_DELAY && Owing(cmd)
    ensures var t := BeginSeeking(s, cmd, false, false);
            Responds(disc, s, t) && t.io == s.io
  {
    hide SeekTicks;
  }

  lemma InitResponds(disc: Disc, s: State)
    ensures var t := AnswerInit(s);
            Responds(disc, s, t) && if InitOwed(s.ev, s.now) then t == s else Raised(s, t)
  {
    hide SeekTicks, InitOwed;
  }

  ghost predicate Answered(disc: Disc, s: State, t: State) {
    Responds(disc, s, t) && Raised(s, t)
  }

  lemma RaisingAnswers(disc: Disc, s: State, cause: Byte)
    requires 1 <= cause <= 5
    ensures Answered(disc, s, Raise(s, cause)) && SameAnswer(s.ev, Raise(s, cause).ev)
  {
  }

  lemma SetlocAnswers(disc: Disc, s: State)
    ensures Answered(disc, s, AnswerSetloc(s))
  {
    hide ValidMsf, FromBcd, Param;
  }

  lemma ForwardAnswers(disc: Disc, s: State)
    ensures Answered(disc, s, AnswerForward(s))
  {
    hide Faster, LastQ, Position, Coming, NextOf;
  }

  lemma BackwardAnswers(disc: Disc, s: State)
    ensures Answered(disc, s, AnswerBackward(s))
  {
    hide Rewound, LastQ, Position, Coming;
    if s.drive.Playing? {
      OneMoreEntry(disc, s.log, Skipped(Rewound(s.head.current), s.now));
      assert !AnswerBackward(s).drive.Reading?;
    }
  }

  lemma StopAnswers(disc: Disc, s: State)
    ensures Answered(disc, s, AnswerStop(s))
  {
    assert KeepsDriving(s, AnswerStop(s));
  }

  lemma PauseAnswers(disc: Disc, s: State)
    ensures Answered(disc, s, AnswerPause(s))
  {
    if !s.head.seekPhase {
      assert KeepsDriving(s, AnswerPause(s));
    }
  }

  lemma SettingsAnswer(disc: Disc, s: State)
    ensures Answered(disc, s, AnswerSetmode(s))
    ensures Answered(disc, s, Raise(s.(mode := s.mode.(file := Param(s, 0), channel := Param(s, 1))), INT_ACK))
  {
    hide Bit, Param;
  }

  lemma QueriesAnswer(disc: Disc, s: State)
    ensures Answered(disc, s, AnswerGetlocL(disc, s)) && Answered(disc, s, AnswerGetTd(disc, s))
  {
    hide IsCdda, IsBcd, FromBcd, Param;
  }

  lemma TwiceAnswers(disc: Disc, s: State, motorOn: bool, cmd: Byte, cycles: nat)
    requires Owing(cmd) && cycles <= LONGEST
    ensures Answered(disc, s, AnswerTwice(s.(motorOn := motorOn), cmd, cycles))
  {
  }

  lemma MotorAnswers(disc: Disc, s: State, motorOn: bool)
    ensures Answered(disc, s, Raise(s.(motorOn := motorOn), INT_ACK))
    ensures Answered(disc, s, Raise(s.(drive := Idle, motorOn := motorOn), INT_ACK))
  {
  }

  lemma StartsAnswer(disc: Disc, s: State, track: Byte, cmd: Byte)
    requires s.head.speedOwed <= SPEED_DOWN_DELAY && Owing(cmd)
    ensures Answered(disc, s, BeginReading(Raise(s, INT_ACK)))
    ensures Answered(disc, s, BeginPlaying(disc, Raise(s, INT_ACK), track))
    ensures Answered(disc, s, BeginSeeking(Raise(s, INT_ACK), cmd, false, false))
  {
    hide BeginReading, BeginPlaying, BeginSeeking;
    var raised := Raise(s, INT_ACK);
    ReadingResponds(disc, raised);
    PlayingResponds(disc, raised, track);
    SeekingResponds(disc, raised, cmd);
  }

  /** Every command is answered with exactly one interrupt, save an Init repeated while one is owed,
      which is dropped without any effect. */
  lemma CommandsAreAnswered(disc: Disc, s: State, cmd: Byte)
    requires s.head.speedOwed <= SPEED_DOWN_DELAY
    ensures var t := AnswerCommand(disc, s, cmd);
            Responds(disc, s, t) && if cmd == INIT && InitOwed(s.ev, s.now) then t == s else Raised(s, t)
  {
    hide BeginReading, BeginPlaying, BeginSeeking, AnswerInit, AnswerSetloc, AnswerForward, AnswerBackward, AnswerStop,
      AnswerPause, AnswerSetmode, AnswerGetlocL, AnswerGetTd, AnswerTwice, Raise, InitOwed, Param, Responds, Raised;
    RaisingAnswers(disc, s, INT_ACK);
    RaisingAnswers(disc, s, INT_ERROR);
    SetlocAnswers(disc, s);
    ForwardAnswers(disc, s);
    BackwardAnswers(disc, s);
    StopAnswers(disc, s);
    PauseAnswers(disc, s);
    SettingsAnswer(disc, s);
    QueriesAnswer(disc, s);
    InitResponds(disc, s);
    MotorAnswers(disc, s, s.motorOn || Param(s, 0) == 0x04);
    MotorAnswers(disc, s, disc.present);
    StartsAnswer(disc, s, Param(s, 0), if cmd == SEEKL then SEEKL else SEEKP);
    TwiceAnswers(disc, s, true, MOTORON, SPINUP_DELAY);
    TwiceAnswers(disc, s, s.motorOn, READT, ACK_DELAY);
    TwiceAnswers(disc, s, s.motorOn, GETID, ID_READ_DELAY);
    TwiceAnswers(disc, s, s.motorOn, READTOC, READTOC_DELAY);
    assert s.(motorOn := s.motorOn) == s;
  }

  // ---- Second responses ----

  function Taken(s: State): State {
    s.(ev := s.ev.(second := NONE))
  }

  lemma SeekCompletes(disc: Disc, s: State)
    requires s.head.speedOwed <= SPEED_DOWN_DELAY
    ensures Answered(disc, s, CompleteSeek(disc, s)) && SameAnswer(s.ev, CompleteSeek(disc, s).ev)
  {
    hide BeginReading, BeginPlaying, LastQ, Position, Coming;
    OneMoreEntry(disc, s.log, Arrived(s.head.target, s.now));
    var t := Arrive(disc, s);
    if s.readAfterSeek {
      ReadingResponds(disc, t.(readAfterSeek := false));
    } else if s.playAfterSeek {
      PlayingResponds(disc, t.(playAfterSeek := false), 0);
    } else {
      assert KeepsDriving(s, t);
    }
  }

  lemma RestAnswers(disc: Disc, s: State, mode: Mode, motorOn: bool)
    ensures var t := Raise(Rest(s.(mode := mode, motorOn := motorOn)), INT_COMPLETE);
            Answered(disc, s, t) && SameAnswer(s.ev, t.ev)
  {
    assert KeepsDriving(s, Rest(s.(mode := mode, motorOn := motorOn)));
  }

  /** Every owed second response is delivered with exactly one interrupt. */
  lemma SecondsAreAnswered(disc: Disc, s: State)
    requires s.head.speedOwed <= SPEED_DOWN_DELAY && Owing(s.ev.second)
    ensures var t := ExecuteSecond(disc, s);
            Answered(disc, Taken(s), t) && SameAnswer(Taken(s).ev, t.ev)
  {
    hide Raise, Rest, CompleteSeek, Answered;
    var t := Taken(s);
    RaisingAnswers(disc, t, INT_COMPLETE);
    RaisingAnswers(disc, t, INT_ERROR);
    RestAnswers(disc, t, StandardMode(t.mode), disc.present);
    RestAnswers(disc, t, t.mode, false);
    RestAnswers(disc, t, t.mode, t.motorOn);
    SeekCompletes(disc, t);
    assert t.(mode := t.mode, motorOn := false) == t.(motorOn := false);
    assert t.(mode := t.mode, motorOn := t.motorOn) == t;
  }

  // ---- The drive ----

  lemma {:induction false} BetweenIsSound(disc: Disc, r: AsyncReader.State, steps: seq<AsyncReader.Action>)
    requires AsyncReader.Sound(disc.read, r)
    ensures AsyncReader.Sound(disc.read, Between(disc, r, steps))
  {
    if steps != [] {
      BetweenIsSound(disc, r, steps[..|steps| - 1]);
    }
  }

  // A sector is handled: it is the one the head was at, with the bytes the disc has there.
  ghost predicate Handles(disc: Disc, s: State, t: State) {
    && |t.log| == |s.log| + 1 && t.log[..|s.log|] == s.log
    && var e := t.log[|s.log|];
    && e.Handled? && e.lba == s.head.current && e.at == s.now && disc.read(e.lba) == Some(e.bytes)
    && t.head.current == NextLba(e.lba) && t.head.at == e.lba && t.lastQ == QAt(disc, s.lastQ, e.lba)
    && t.drive.Reading?
    && Fresh(t.ev.drive, s.now) && s.now + SECTOR_TIME_2X <= t.ev.drive.deadline
    && if e.route.ToCpu? then s.io.flag == INT_NONE && Raised(s, t) && t.io.flag == INT_DATA_READY else t.io == s.io
  }

  ghost predicate SamePlace(s: State, t: State) {
    t.head.current == s.head.current && t.head.at == s.head.at && t.lastQ == s.lastQ
  }

  // The sector is not there yet, is held for an acknowledge, or could not be read.
  ghost predicate WaitsOrFails(s: State, t: State) {
    && t.log == s.log && SamePlace(s, t)
    && if t.drive.Reading? then
         && t.io == s.io
         && if s.io.flag == INT_NONE || t.ev.drive.armed then Fresh(t.ev.drive, s.now) else t.ev.drive == s.ev.drive
       else s.io.flag == INT_NONE && Raised(s, t) && t.drive.Idle? && t.ev.drive == s.ev.drive
  }

  // A sector is played: the one the head was at, inside the disc, with the bytes the disc has there.
  ghost predicate PlaysSector(disc: Disc, s: State, t: State) {
    && |t.log| == |s.log| + 1 && t.log[..|s.log|] == s.log
    && var e := t.log[|s.log|];
    && e.Played? && e.lba == s.head.current && e.at == s.now && e.speed == s.cddaSpeed
    && e.lba < disc.totalSectors && disc.read(e.lba) == Some(e.bytes)
    && t.head.current == NextOf(e) && t.head.at == e.lba && t.lastQ == QAt(disc, s.lastQ, e.lba)
    && t.drive.Playing?
  }

  // AutoPause: the track has changed, and the head goes back to the end of the old one.
  ghost predicate PausesItself(disc: Disc, s: State, t: State) {
    && t.log == s.log + [AutoPaused(Before(s.head.current), s.now)]
    && s.mode.autoPause && QAt(disc, s.lastQ, s.head.current).track != s.lastQ.track
    && t.head.current == t.head.at == Before(s.head.current) && t.lastQ == s.lastQ
    && t.drive.Idle? && Raised(s, t) && t.io.flag == INT_DATA_END
  }

  ghost predicate PlayMoves(disc: Disc, s: State, t: State) {
    (t.log == s.log && SamePlace(s, t)) || PlaysSector(disc, s, t) || PausesItself(disc, s, t)
  }

  ghost predicate Plays(disc: Disc, s: State, t: State) {
    && !t.drive.Reading? && PlayMoves(disc, s, t)
    && (Fresh(t.ev.drive, s.now) || (t.ev.drive == s.ev.drive && !t.drive.Playing?))
    && (t.io == s.io || (s.io.flag == INT_NONE && Raised(s, t)))
  }

  ghost predicate Turns(disc: Disc, s: State, t: State) {
    && SameCommand(s, t) && SameAnswer(s.ev, t.ev) && t.head.speedOwed == s.head.speedOwed
    && AsyncReader.Sound(disc.read, t.reader)
    && if s.drive.Reading? then Handles(disc, s, t) || WaitsOrFails(s, t) else Plays(disc, s, t)
  }

  function Polled(disc: Disc, s: State, between: seq<AsyncReader.Action>): State {
    s.(reader := Between(disc, AsyncReader.AfterPoll(s.reader, s.head.current), between))
  }

  lemma PollIsSound(disc: Disc, s: State, between: seq<AsyncReader.Action>)
    requires AsyncReader.Sound(disc.read, s.reader)
    ensures AsyncReader.Sound(disc.read, Polled(disc, s, between).reader)
    ensures AsyncReader.Sound(disc.read, AsyncReader.AfterUnpoll(Polled(disc, s, between).reader, s.head.current))
    ensures var a := AsyncReader.Answer(s.reader, s.head.current);
            a.Ready? ==> disc.read(s.head.current) == Some(a.sector)
  {
    BetweenIsSound(disc, AsyncReader.AfterPoll(s.reader, s.head.current), between);
  }

  lemma HandleHandles(disc: Disc, s: State, raw: SectorCodes.Sector, route: Route)
    requires s.drive.Reading? && disc.read(s.head.current) == Some(raw)
    requires AsyncReader.Sound(disc.read, s.reader)
    ensures var t := Handle(disc, s, raw, route);
            if route.ToCpu?
            then s.io.flag == INT_NONE ==> Turns(disc, s, Raise(t.(headerValid := true), INT_DATA_READY))
            else Turns(disc, s, t)
  {
    hide NextLba;
  }

  lemma ReadWaits(disc: Disc, s: State)
    requires s.drive.Reading? && !s.ev.drive.armed && AsyncReader.Sound(disc.read, s.reader)
    ensures Turns(disc, s, ScheduleDrive(s, READ_RETRY_DELAY))
    ensures s.io.flag == INT_NONE ==> Turns(disc, s, Raise(s.(drive := Idle), INT_ERROR))
  {
  }

  lemma ReadHolds(disc: Disc, s: State, reader: AsyncReader.State)
    requires s.drive.Reading? && !s.ev.drive.armed && AsyncReader.Sound(disc.read, reader)
    requires s.io.flag != INT_NONE
    ensures Turns(disc, s, s.(reader := reader))
  {
  }

  lemma ReadSectorTurns(disc: Disc, s: State, between: seq<AsyncReader.Action>)
    requires s.drive.Reading? && !s.ev.drive.armed && AsyncReader.Sound(disc.read, s.reader)
    ensures Turns(disc, Polled(disc, s, between), ReadSector(disc, s, s.io.flag != INT_NONE, between))
  {
    hide Between, RouteOf, IsCdda, Handle, AsyncReader.AfterPoll, AsyncReader.AfterUnpoll, AsyncReader.Sound,
      AsyncReader.Answer, Raise, ScheduleDrive, Turns;
    PollIsSound(disc, s, between);
    var t := Polled(disc, s, between);
    ReadWaits(disc, t);
    if s.io.flag != INT_NONE {
      ReadHolds(disc, t, t.reader);
      ReadHolds(disc, t, AsyncReader.AfterUnpoll(t.reader, s.head.current));
    }
    assert t.(reader := t.reader) == t;
    match AsyncReader.Answer(s.reader, s.head.current)
    case Ready(raw) => HandleHandles(disc, t, raw, RouteOf(raw, IsCdda(disc, s.head.current), s.mode));
    case _ =>
  }

  lemma PlayOnTurns(disc: Disc, s: State, raw: SectorCodes.Sector)
    requires s.drive.Playing? && s.io.flag == INT_NONE && AsyncReader.Sound(disc.read, s.reader)
    requires s.head.current < disc.totalSectors && disc.read(s.head.current) == Some(raw)
    ensures Turns(disc, s, PlayOn(s, QAt(disc, s.lastQ, s.head.current), raw))
  {
    hide ReportDue, QAt;
    var t := PlayOn(s, QAt(disc, s.lastQ, s.head.current), raw);
    assert PlaysSector(disc, s, t);
    assert t.io == s.io || Raised(s, t);
  }

  lemma PlayEnds(disc: Disc, s: State, head: Head)
    requires s.drive.Playing? && s.io.flag == INT_NONE && AsyncReader.Sound(disc.read, s.reader)
    requires head.speedOwed == s.head.speedOwed && head.current == s.head.current && head.at == s.head.at
    ensures Turns(disc, s, s.(drive := Idle, head := head))
    ensures Turns(disc, s, Raise(s.(drive := Idle, head := head), INT_DATA_END))
    ensures Turns(disc, s, ScheduleDrive(s, READ_RETRY_DELAY))
  {
  }

  lemma PausingTurns(disc: Disc, s: State)
    requires s.drive.Playing? && s.io.flag == INT_NONE && AsyncReader.Sound(disc.read, s.reader)
    requires s.mode.autoPause && QAt(disc, s.lastQ, s.head.current).track != s.lastQ.track
    ensures var back := Before(s.head.current);
            Turns(disc, s, Raise(s.(drive := Idle, head := s.head.(seekPhase := false, current := back, at := back),
                                    log := s.log + [AutoPaused(back, s.now)]),
                                 INT_DATA_END))
  {
    hide QAt, Before;
  }

  lemma PlaySectorTurns(disc: Disc, s: State, between: seq<AsyncReader.Action>)
    requires s.drive.Playing? && s.io.flag == INT_NONE && AsyncReader.Sound(disc.read, s.reader)
    ensures Turns(disc, Polled(disc, s, between), PlaySector(disc, s, between))
  {
    hide Between, ReportDue, AsyncReader.AfterPoll, AsyncReader.Answer, AsyncReader.Sound, PlayOn, Raise, ScheduleDrive,
      Turns, QAt, Before;
    PollIsSound(disc, s, between);
    var t := Polled(disc, s, between);
    var lba := s.head.current;
    PlayEnds(disc, t, s.head.(seekPhase := false));
    if AsyncReader.Answer(s.reader, lba).Ready? {
      if t.mode.autoPause && QAt(disc, s.lastQ, lba).track != s.lastQ.track {
        PausingTurns(disc, t);
      }
      if lba < disc.totalSectors {
        PlayOnTurns(disc, t, AsyncReader.Answer(s.reader, lba).sector);
      }
    }
  }

  // ---- Whole steps ----

  ghost predicate Timely(t: Timer, now: nat) {
    t.deadline <= now + LONGEST && (t.armed ==> t.deadline <= t.target)
  }

  predicate OfRead(e: Entry) {
    e.Started? || e.Handled?
  }

  predicate OfPlay(e: Entry) {
    e.PlayStarted? || e.Played? || e.Skipped?
  }

  // A handled sector continues the read of the entry before it, a sector period later or more.
  ghost predicate Continues(disc: Disc, before: Entry, e: Entry) {
    && OfRead(before) && e.Handled? && e.lba == NextOf(before) && disc.read(e.lba) == Some(e.bytes)
    && before.at + SECTOR_TIME_2X <= e.at
  }

  // A played sector continues the play of the entry before it, inside the disc.
  ghost predicate PlaysOn(disc: Disc, before: Entry, e: Entry) {
    && OfPlay(before) && e.Played? && e.lba == NextOf(before) && e.lba < disc.totalSectors
    && disc.read(e.lba) == Some(e.bytes)
  }

  // A play stops itself where the next sector's Q names another track than the last one read.
  ghost predicate StopsAtTrack(disc: Disc, before: Entry, q: SubQ, e: Entry) {
    && OfPlay(before) && e.AutoPaused? && e.lba == Before(NextOf(before))
    && QAt(disc, q, NextOf(before)).track != q.track
  }

  ghost predicate Follows(disc: Disc, log: seq<Entry>, e: Entry) {
    ByTurn(e) ==>
      && log != []
      && var before := log[|log| - 1];
         Continues(disc, before, e) || PlaysOn(disc, before, e) || StopsAtTrack(disc, before, LastQ(disc, log), e)
  }

  ghost predicate InOrder(disc: Disc, log: seq<Entry>) {
    forall i :: 0 <= i < |log| ==> Follows(disc, log[..i], log[i])
  }

  ghost predicate AtHead(disc: Disc, s: State) {
    && Placed(disc, s)
    && (s.drive.Reading? ==>
          && s.log != [] && OfRead(s.log[|s.log| - 1])
          && s.log[|s.log| - 1].at + SECTOR_TIME_2X <= s.ev.drive.deadline)
    && (s.drive.Playing? ==> s.log != [] && OfPlay(s.log[|s.log| - 1]))
  }

  ghost predicate CommandsWoken(e: Events) {
    && e.cmdGuard == e.command.armed
    && e.secondGuard == e.answer.armed
    && (e.pending != NONE ==> e.command.armed)
    && (e.second != NONE ==> e.answer.armed && Owing(e.second))
  }

  ghost predicate Woken(s: State) {
    && CommandsWoken(s.ev)
    && (s.drive.Playing? ==> s.ev.drive.armed)
    && (s.drive.Reading? ==> s.ev.drive.armed || s.io.flag != INT_NONE)
  }

  ghost predicate Steady(disc: Disc, s: State) {
    && s.io.flag <= 5
    && s.head.speedOwed <= SPEED_DOWN_DELAY
    && Timely(s.ev.command, s.now) && Timely(s.ev.answer, s.now) && Timely(s.ev.drive, s.now)
    && AsyncReader.Sound(disc.read, s.reader)
    && InOrder(disc, s.log) && AtHead(disc, s)
  }

  lemma RearmedIsTimely(t: Timer, now: nat)
    requires Timely(t, now)
    ensures Timely(Rearmed(t, now), now)
  {
  }

  lemma RespondingKeeps(disc: Disc, s: State, t: State)
    requires Woken(s) && Steady(disc, s) && Responds(disc, s, t) && (t.io == s.io || Raised(s, t))
    ensures Woken(t) && Steady(disc, t)
  {
    hide NextLba, InOrder, Placed, Grows;
    GrowsInOrder(disc, s.log, t.log);
  }

  // Steadiness does not depend on which events are armed, so long as none is armed too early.
  lemma SteadyParts(disc: Disc, s: State, t: State)
    requires Steady(disc, s)
    requires t.now == s.now && t.drive == s.drive && t.head == s.head && t.reader == s.reader && t.log == s.log
    requires t.lastQ == s.lastQ && t.io.flag <= 5
    requires SameOrRearmed(s.ev.command, t.ev.command, s.now) && SameOrRearmed(s.ev.answer, t.ev.answer, s.now)
    requires SameOrRearmed(s.ev.drive, t.ev.drive, s.now)
    ensures Steady(disc, t)
  {
    hide InOrder, NextOf;
    RearmedIsTimely(s.ev.command, s.now);
    RearmedIsTimely(s.ev.answer, s.now);
    RearmedIsTimely(s.ev.drive, s.now);
  }

  predicate SameOrRearmed(t: Timer, u: Timer, now: nat) {
    u == t || u == t.(armed := false) || u == Rearmed(t, now)
  }

  lemma ExecutionKeeps(disc: Disc, s: State, cmd: Byte)
    requires Woken(s) && Steady(disc, s)
    ensures Woken(AnswerCommand(disc, s, cmd)) && Steady(disc, AnswerCommand(disc, s, cmd))
    ensures Woken(Raise(s, INT_ERROR)) && Steady(disc, Raise(s, INT_ERROR))
  {
    hide AnswerCommand, Responds, InOrder, AtHead, Woken;
    CommandsAreAnswered(disc, s, cmd);
    RespondingKeeps(disc, s, AnswerCommand(disc, s, cmd));
    RaisingAnswers(disc, s, INT_ERROR);
    RespondingKeeps(disc, s, Raise(s, INT_ERROR));
  }

  lemma CommandTickKeeps(disc: Disc, s: State)
    requires Woken(s) && Steady(disc, s)
    ensures Woken(CommandTick(disc, s)) && Steady(disc, CommandTick(disc, s))
  {
    hide AnswerCommand, NeedsDisc, DelayLeft, Raise, InOrder, AtHead, Timely, AsyncReader.Sound;
    var t := s.(ev := s.ev.(command := s.ev.command.(armed := false), cmdGuard := false));
    SteadyParts(disc, s, t);
    if s.io.flag != INT_NONE {
      SteadyParts(disc, s, RearmCommand(t));
    } else if s.ev.pending != NONE {
      var u := SetParams(t.(ev := t.ev.(pending := NONE)), s.ev.pendingParams);
      SteadyParts(disc, s, u);
      ExecutionKeeps(disc, u, s.ev.pending);
      SteadyParts(disc, AnswerCommand(disc, u, s.ev.pending), SetParams(AnswerCommand(disc, u, s.ev.pending), []));
    }
  }

  lemma SecondTickKeeps(disc: Disc, s: State)
    requires Woken(s) && Steady(disc, s)
    ensures Woken(SecondTick(disc, s)) && Steady(disc, SecondTick(disc, s))
  {
    hide DelayLeft, ExecuteSecond, InOrder, AtHead;
    var t := s.(ev := s.ev.(answer := s.ev.answer.(armed := false), secondGuard := false));
    if s.io.flag != INT_NONE {
      SteadyParts(disc, s, RearmSecond(t));
    } else {
      SteadyParts(disc, s, Taken(t));
      if s.ev.second != NONE {
        SecondsAreAnswered(disc, t);
        RespondingKeeps(disc, Taken(t), ExecuteSecond(disc, t));
      } else {
        NothingOwed(disc, t);
      }
    }
  }

  lemma NothingOwed(disc: Disc, s: State)
    requires s.ev.second == NONE
    ensures ExecuteSecond(disc, s) == Taken(s)
  {
  }

  lemma OneMoreInOrder(disc: Disc, log: seq<Entry>, e: Entry)
    requires InOrder(disc, log) && Follows(disc, log, e)
    ensures InOrder(disc, log + [e])
  {
    hide Follows;
    forall i | 0 <= i < |log + [e]|
      ensures Follows(disc, (log + [e])[..i], (log + [e])[i])
    {
      assert (log + [e])[..i] == log[..i];
      if i == |log| {
        assert log[..i] == log;
      }
    }
  }

  lemma GrowsInOrder(disc: Disc, log: seq<Entry>, longer: seq<Entry>)
    requires InOrder(disc, log) && Grows(log, longer)
    ensures InOrder(disc, longer)
  {
    hide Continues, PlaysOn, StopsAtTrack;
    forall i | 0 <= i < |longer|
      ensures Follows(disc, longer[..i], longer[i])
    {
      if i < |log| {
        assert longer[..i] == log[..i] && longer[i] == log[i];
      }
    }
  }

  // What a turn of the drive keeps, its event having come due.
  lemma TurningKeeps(disc: Disc, s: State, t: State)
    requires CommandsWoken(s.ev) && Steady(disc, s) && s.ev.drive.deadline <= s.now
    requires s.drive.Reading? || s.drive.Playing?
    requires Turns(disc, s, t)
    ensures Woken(t) && Steady(disc, t)
  {
    TurningKeepsOrder(disc, s, t);
    hide InOrder, LastQ, Position, Coming, NextLba, QAt, Placed;
  }

  lemma TurningKeepsOrder(disc: Disc, s: State, t: State)
    requires s.drive.Reading? || s.drive.Playing?
    requires InOrder(disc, s.log) && AtHead(disc, s) && s.ev.drive.deadline <= s.now
    requires Turns(disc, s, t)
    ensures InOrder(disc, t.log) && Placed(disc, t)
  {
    hide InOrder, LastQ, Position, NextLba, QAt, Raised, AsyncReader.Sound, Fresh;
    if t.log != s.log {
      var e := t.log[|s.log|];
      assert t.log == s.log + [e];
      OneMoreEntry(disc, s.log, e);
      OneMoreInOrder(disc, s.log, e);
    }
  }

  lemma DriveTickKeeps(disc: Disc, s: State, between: seq<AsyncReader.Action>)
    requires Woken(s) && Steady(disc, s) && Due(s.ev.drive, s.now)
    ensures Woken(DriveTick(disc, s, between)) && Steady(disc, DriveTick(disc, s, between))
  {
    hide ReadSector, PlaySector, InOrder, AtHead, Between, AsyncReader.AfterPoll, AsyncReader.Sound, Turns, DelayLeft,
      Rearmed;
    var t := s.(ev := s.ev.(drive := s.ev.drive.(armed := false)));
    SteadyParts(disc, s, t);
    if s.drive.Reading? {
      PolledIsSteady(disc, t, between);
      ReadSectorTurns(disc, t, between);
      TurningKeeps(disc, Polled(disc, t, between), ReadSector(disc, t, s.io.flag != INT_NONE, between));
    } else if s.drive.Playing? && s.io.flag == INT_NONE {
      PolledIsSteady(disc, t, between);
      PlaySectorTurns(disc, t, between);
      TurningKeeps(disc, Polled(disc, t, between), PlaySector(disc, t, between));
    } else if s.drive.Playing? {
      SteadyParts(disc, t, t);
      RescheduledDrive(disc, t);
    }
  }

  lemma PolledIsSteady(disc: Disc, s: State, between: seq<AsyncReader.Action>)
    requires Steady(disc, s)
    ensures Steady(disc, Polled(disc, s, between))
  {
    PollIsSound(disc, s, between);
  }

  lemma RescheduledDrive(disc: Disc, s: State)
    requires Steady(disc, s) && s.drive.Playing?
    ensures Steady(disc, ScheduleDrive(s, MIN_INT_DELAY))
  {
  }

  lemma WriteKeeps(disc: Disc, s: State, offset: nat, value: Byte)
    requires Woken(s) && Steady(disc, s)
    ensures Woken(Write(s, offset, value)) && Steady(disc, Write(s, offset, value))
  {
    hide WriteCommand, Acknowledge, InOrder, AtHead, Timely, AsyncReader.Sound;
    WriteCommandKeeps(disc, s, value);
    AcknowledgeKeeps(disc, s, value);
    if offset == 0 {
      SteadyParts(disc, s, s.(io := s.io.(index := value % 4)));
    } else if offset == 2 {
      SteadyParts(disc, s, PushParam(s, value));
    }
  }

  lemma WriteCommandKeeps(disc: Disc, s: State, cmd: Byte)
    requires Woken(s) && Steady(disc, s)
    ensures Woken(WriteCommand(s, cmd)) && Steady(disc, WriteCommand(s, cmd))
  {
    hide InOrder, AsyncReader.Sound, NextOf;
  }

  lemma ClearedIsPart(flag: Byte, value: Byte)
    requires flag <= 5
    ensures Cleared(flag, value) <= flag
  {
  }

  lemma AcknowledgeKeeps(disc: Disc, s: State, value: Byte)
    requires Woken(s) && Steady(disc, s)
    ensures Woken(Acknowledge(s, value)) && Steady(disc, Acknowledge(s, value))
  {
    hide Cleared, Bit, InOrder, AtHead, Timely, AsyncReader.Sound, DelayLeft, Owing;
    ClearedIsPart(s.io.flag, value);
    SteadyParts(disc, s, Acknowledge(s, value));
  }
}
