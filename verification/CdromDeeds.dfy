/** What the drive does with the disc, said of the guest's commands and the log alone: where reads, plays and seeks go,
    where sectors go, which commands are refused, and when everything is due. */
module CdromDeeds {
  import opened CdromGuest
  import opened CdromModel
  import opened CdromSafety
  import opened CdromRuns
  import opened Words
  import opened Wrappers
  import SectorCodes
  import AsyncReader

  // ---- What each step does with the disc ----

  // The state a command is executed in.
  function Prepared(s: State): State {
    SetParams(s.(ev := s.ev.(command := s.ev.command.(armed := false), cmdGuard := false, pending := NONE)),
              s.ev.pendingParams)
  }

  lemma ExecutedIs(disc: Disc, s: State, i: Input)
    requires Executed(disc, s, i).Some?
    ensures Step(disc, s, i) == SetParams(AnswerCommand(disc, Prepared(s), Executed(disc, s, i).value.code), [])
  {
    hide AnswerCommand, NeedsDisc;
  }

  // Where a read starts: at a Setloc not used yet; otherwise a drive at rest or pausing starts again at the
  // sector the head is on, and any other goes on with the sector that is next.
  function ReadFrom(w: Wishes, drive: Drive, log: seq<Entry>): nat {
    if w.setloc.Some? then w.setloc.value
    else if drive.Idle? || drive.Pausing? then Position(log)
    else Coming(log)
  }

  // Where a play starts: at the track asked for, or the last one; without a track at a Setloc not used yet,
  // or else at the next sector.
  function PlayFrom(disc: Disc, w: Wishes, log: seq<Entry>, track: Byte): nat {
    if track != 0 && disc.lastTrack > 0 then disc.startLba(if track < disc.lastTrack then track else disc.lastTrack)
    else if w.setloc.Some? then w.setloc.value
    else Coming(log)
  }

  // The entry a command makes in the log.
  function Noted(disc: Disc, w: Wishes, s: State, c: Command): seq<Entry> {
    if c.code == READN || c.code == READS then [Started(ReadFrom(w, s.drive, s.log), s.now)]
    else if c.code == PLAY then [PlayStarted(PlayFrom(disc, w, s.log, At(c.params, 0)), s.now)]
    else if c.code == BACKWARD && s.drive.Playing? then
      [Skipped(if Coming(s.log) > 4 then Coming(s.log) - 4 else 0, s.now)]
    else []
  }

  lemma StartsAreNoted(disc: Disc, s: State, w: Wishes, track: Byte)
    requires Heeds(s, w) && Placed(disc, s)
    ensures var t := BeginReading(s);
            t.log == s.log + [Started(ReadFrom(w, s.drive, s.log), s.now)] && t.drive.Reading?
    ensures var t := BeginPlaying(disc, s, track);
            t.log == s.log + [PlayStarted(PlayFrom(disc, w, s.log, track), s.now)] && t.drive.Playing?
  {
    hide ReadDelay, ReadMoves, PlayDelay, Scheduled, AsyncReader.AfterQueue, Coming, Position, ModeOf, LastQ;
  }

  lemma SkipsAreNoted(disc: Disc, s: State, w: Wishes)
    requires Placed(disc, s)
    ensures AnswerBackward(s).log == s.log + Noted(disc, w, s, Command(BACKWARD, []))
    ensures AnswerForward(s).log == s.log
  {
    hide AsyncReader.AfterQueue, Coming, Position, LastQ;
  }

  lemma StopsAreSilent(s: State, cmd: Byte)
    ensures AnswerStop(s).log == AnswerPause(s).log == AnswerInit(s).log == s.log
    ensures BeginSeeking(s, cmd, false, false).log == s.log
  {
    hide StopDelay, PauseDelay, InitDelay, SeekDelay, Scheduled, Paused, Parked, Active, InitOwed, SeekTarget;
  }

  lemma QueriesAreSilent(disc: Disc, s: State, cmd: Byte)
    requires !MovesDrive(cmd)
    ensures AnswerCommand(disc, s, cmd).log == s.log
  {
    hide ValidMsf, FromBcd, Bit, Param, SpeedOwed, IsCdda, IsBcd, Scheduled;
  }

  lemma MovesAreNoted(disc: Disc, s: State, w: Wishes, cmd: Byte)
    requires Heeds(s, w) && Placed(disc, s) && MovesDrive(cmd)
    ensures AnswerMove(disc, s, cmd).log == s.log + Noted(disc, w, s, Command(cmd, s.io.params))
  {
    hide BeginReading, BeginPlaying, BeginSeeking, AnswerStop, AnswerPause, AnswerForward, AnswerBackward, AnswerInit;
    hide ReadFrom, PlayFrom;
    var raised := Raise(s, INT_ACK);
    UntouchedHeeds(s, raised, w);
    StartsAreNoted(disc, raised, w, Param(s, 0));
    SkipsAreNoted(disc, s, w);
    StopsAreSilent(s, cmd);
    StopsAreSilent(raised, cmd);
  }

  lemma CommandsAreNoted(disc: Disc, s: State, w: Wishes, cmd: Byte)
    requires Heeds(s, w) && Placed(disc, s)
    ensures AnswerCommand(disc, s, cmd).log == s.log + Noted(disc, w, s, Command(cmd, s.io.params))
  {
    if MovesDrive(cmd) {
      hide AnswerMove, Noted, OnlyAnswers;
      MovesAreNoted(disc, s, w, cmd);
      MovesAreNoQueries(cmd);
    } else {
      QueriesAreSilent(disc, s, cmd);
    }
  }

  /** Every command executed in a run does with the disc what the guest asked for, and no more: a ReadN or
      ReadS starts at the position of the last Setloc not used yet, and otherwise where the head is or what
      comes next; a Play starts at its track; a skip back goes back four sectors; no other command starts or
      moves anything at once. */
  lemma {:induction false} CommandsDoAsAsked(disc: Disc, run: seq<Input>, i: Input)
    requires Executed(disc, Run(disc, run), i).Some?
    ensures var s := Run(disc, run);
            Step(disc, s, i).log == s.log + Noted(disc, Wished(disc, run), s, Executed(disc, s, i).value)
  {
    hide Run, Wished, AnswerCommand, Noted, NeedsDisc, Heeds, Placed, InOrder, Woken;
    var s, w := Run(disc, run), Wished(disc, run);
    RunsHeed(disc, run);
    RunsAreSteady(disc, run);
    ExecutedIs(disc, s, i);
    PreparedIsSame(disc, s, w);
    CommandsAreNoted(disc, Prepared(s), w, s.ev.pending);
    NotedDepends(disc, w, s, Prepared(s), Command(s.ev.pending, s.ev.pendingParams));
  }

  lemma PreparedIsSame(disc: Disc, s: State, w: Wishes)
    requires Heeds(s, w) && Placed(disc, s)
    ensures Heeds(Prepared(s), w) && Placed(disc, Prepared(s))
    ensures Prepared(s).drive == s.drive && Prepared(s).log == s.log && Prepared(s).now == s.now
    ensures Prepared(s).io.params == s.ev.pendingParams
  {
    hide Coming, Position, LastQ, ModeOf;
  }

  lemma NotedDepends(disc: Disc, w: Wishes, s: State, t: State, c: Command)
    requires t.drive == s.drive && t.log == s.log && t.now == s.now
    ensures Noted(disc, w, s, c) == Noted(disc, w, t, c)
  {
  }

  // ---- From a Setloc to the first sector ----

  // The commands that set or use up a Setloc.
  predicate Relocates(code: Byte) {
    code == SETLOC || code == READN || code == READS || code == PLAY || code == SEEKL || code == SEEKP
  }

  // No such command is executed in the inputs after `run`.
  ghost predicate StaysPut(disc: Disc, run: seq<Input>, after: seq<Input>) {
    forall n :: 0 <= n < |after| ==>
      var c := Executed(disc, Run(disc, run + after[..n]), after[n]);
      c.Some? ==> !Relocates(c.value.code)
  }

  lemma {:induction false} WishStays(disc: Disc, run: seq<Input>, after: seq<Input>)
    requires StaysPut(disc, run, after)
    ensures var w, v := Wished(disc, run), Wished(disc, run + after);
            v.setloc == w.setloc && v.sought == w.sought
  {
    hide Executed, Run, InitOwed;
    if after == [] {
      assert run + after == run;
    } else {
      var n := |after| - 1;
      forall m | 0 <= m < n
        ensures var c := Executed(disc, Run(disc, run + after[..n][..m]), after[..n][m]);
                c.Some? ==> !Relocates(c.value.code)
      {
        assert after[..n][..m] == after[..m];
      }
      WishStays(disc, run, after[..n]);
      assert (run + after)[..|run + after| - 1] == run + after[..n];
      assert (run + after)[|run + after| - 1] == after[n];
      var c := Executed(disc, Run(disc, run + after[..n]), after[n]);
      assert c.Some? ==> !Relocates(c.value.code);
    }
  }

  lemma OneMoreWish(disc: Disc, run: seq<Input>, i: Input)
    ensures Wished(disc, run + [i]) == AfterInput(disc, Wished(disc, run), Run(disc, run), i)
  {
    assert (run + [i])[..|run|] == run;
  }

  /** After a Setloc to m minutes, s seconds and f frames is executed, the next ReadN or ReadS executed starts
      at address (m * 60 + s) * 75 + f - 150, whatever the drive was doing, unless another Setloc, a start or
      a seek comes between; and a seek instead is to that address. */
  lemma {:induction false} SetlocIsFollowed(
    disc: Disc, run: seq<Input>, i: Input, params: seq<Byte>, m: nat, s: nat, f: nat, between: seq<Input>, j: Input)
    requires Executed(disc, Run(disc, run), i) == Some(Command(SETLOC, params)) && Names(params, m, s, f)
    requires StaysPut(disc, run + [i], between)
    ensures var t := Run(disc, run + [i] + between);
            var c := Executed(disc, t, j);
            && (c.Some? && (c.value.code == READN || c.value.code == READS) ==>
                  Step(disc, t, j).log == t.log + [Started(((m * 60 + s) * 75 + f - 150) % TWO_32, t.now)])
            && (c.Some? && (c.value.code == SEEKL || c.value.code == SEEKP) ==>
                  Wished(disc, run + [i] + between + [j]).sought == ((m * 60 + s) * 75 + f - 150) % TWO_32)
  {
    hide Run, Wished, Executed, Names, Named, InitOwed, Coming, Position;
    OneMoreWish(disc, run, i);
    NamedIs(params, m, s, f);
    WishStays(disc, run + [i], between);
    var before := run + [i] + between;
    OneMoreWish(disc, before, j);
    if Executed(disc, Run(disc, before), j).Some? {
      CommandsDoAsAsked(disc, before, j);
    }
  }

  /** The first sector handled after a read was started is the one it was started at. */
  lemma {:induction false} FirstSectorOfARead(disc: Disc, run: seq<Input>, i: nat)
    requires var log := Run(disc, run).log;
             i + 1 < |log| && log[i].Started? && log[i + 1].Handled?
    ensures var log := Run(disc, run).log;
            log[i + 1].lba == log[i].lba && disc.read(log[i].lba) == Some(log[i + 1].bytes)
  {
    hide Run;
    SectorsComeInOrder(disc, run, i, i + 1);
  }

  // ---- Seeks ----

  /** A SeekL or SeekP that ends leaves the head at the address it was to: there GetlocP's position is read,
      and there a read or a play without a new Setloc starts. */
  lemma {:induction false} SeeksEndWhereAsked(disc: Disc, run: seq<Input>, i: Input)
    requires Delivered(Run(disc, run), i) == SEEKL || Delivered(Run(disc, run), i) == SEEKP
    ensures var s, w := Run(disc, run), Wished(disc, run);
            var t := Step(disc, s, i);
            && t.log == s.log + [Arrived(w.sought, s.now)] && t.drive.Idle?
            && Position(t.log) == Coming(t.log) == w.sought && t.lastQ == LastQ(disc, t.log) == disc.subq(w.sought)
            && Wished(disc, run + [i]) == w
  {
    hide Run, Wished, Woken, InOrder, ModeOf, NeedsDisc, LastQ, Position, Coming;
    var s, w := Run(disc, run), Wished(disc, run);
    RunsHeed(disc, run);
    OneMoreWish(disc, run, i);
    OneMoreEntry(disc, s.log, Arrived(w.sought, s.now));
  }

  // ---- Sectors ----

  // Mode 2, with the audio and the real-time bit of the submode set.
  predicate RealTimeAudio(raw: SectorCodes.Sector) {
    raw[15] == 2 && (raw[18] >> 2) & 1 == 1 && (raw[18] >> 6) & 1 == 1
  }

  lemma AudioBits(b: bv8)
    ensures b & 0x44 == 0x44 <==> (b >> 2) & 1 == 1 && (b >> 6) & 1 == 1
  {
  }

  // Where a sector belongs, by its own bytes and what the guest has selected.
  predicate Selected(raw: SectorCodes.Sector, w: Wishes) {
    raw[16] as int == w.file && raw[17] as int == w.channel
  }

  lemma RouteIsBits(raw: SectorCodes.Sector, cdda: bool, m: Mode, w: Wishes)
    requires m == ModeOf(w.mode, w.file, w.channel)
    ensures var route := RouteOf(raw, cdda, m);
            var audio := RealTimeAudio(raw) && !cdda;
            var adpcm, filter := Bit(w.mode, 0x40), Bit(w.mode, 0x08);
            && (route.ToAdpcm? <==> adpcm && audio && (filter ==> Selected(raw, w)))
            && (route.Discarded? <==> filter && audio && !(adpcm && Selected(raw, w)))
  {
    hide Bit;
    AudioBits(raw[18]);
  }

  lemma CommandTickGrows(disc: Disc, s: State)
    requires s.head.speedOwed <= SPEED_DOWN_DELAY
    ensures Grows(s.log, CommandTick(disc, s).log)
  {
    hide AnswerCommand, DelayLeft, NewAnswer, Grows, Placed;
    GrowsByNone(s.log);
    var t := s.(ev := s.ev.(command := s.ev.command.(armed := false), cmdGuard := false));
    if s.io.flag == INT_NONE && s.ev.pending != NONE {
      var u := SetParams(t.(ev := t.ev.(pending := NONE)), s.ev.pendingParams);
      CommandsAreAnswered(disc, u, s.ev.pending);
    }
  }

  lemma SecondTickGrows(disc: Disc, s: State)
    requires s.head.speedOwed <= SPEED_DOWN_DELAY && (s.ev.second != NONE ==> Owing(s.ev.second))
    ensures Grows(s.log, SecondTick(disc, s).log)
  {
    hide ExecuteSecond, DelayLeft, NewAnswer, Grows, Placed;
    GrowsByNone(s.log);
    var t := s.(ev := s.ev.(answer := s.ev.answer.(armed := false), secondGuard := false));
    if s.io.flag == INT_NONE {
      if s.ev.second != NONE {
        SecondsAreAnswered(disc, t);
      } else {
        NothingOwed(disc, t);
      }
    }
  }

  lemma GrowsByNone(log: seq<Entry>)
    ensures Grows(log, log)
  {
  }

  lemma WriteIsSilent(s: State, offset: nat, value: Byte)
    ensures Write(s, offset, value).log == s.log
  {
    hide Cleared, Bit, RearmedIf, ScheduledOnce, AckDelay;
  }

  lemma TurnsByDrive(disc: Disc, s: State, between: seq<AsyncReader.Action>)
    requires AsyncReader.Sound(disc.read, s.reader)
    requires var t := DriveTick(disc, s, between);
             |s.log| < |t.log| && ByTurn(t.log[|t.log| - 1])
    ensures var t := DriveTick(disc, s, between);
            var e := t.log[|t.log| - 1];
            if e.Handled? then s.drive.Reading? else s.drive.Playing? && s.io.flag == INT_NONE
  {
    hide ReadSector, PlaySector, Between, AsyncReader.AfterPoll, AsyncReader.Sound;
    var t := s.(ev := s.ev.(drive := s.ev.drive.(armed := false)));
    if s.drive.Reading? {
      ReadSectorTurns(disc, t, between);
    } else if s.drive.Playing? && s.io.flag == INT_NONE {
      PlaySectorTurns(disc, t, between);
    }
  }

  // Only a due drive event handles or plays sectors, or pauses by itself.
  lemma OnlyTurnsHandle(disc: Disc, s: State, i: Input)
    requires Woken(s) && Steady(disc, s)
    requires var t := Step(disc, s, i);
             |s.log| < |t.log| && ByTurn(t.log[|t.log| - 1])
    ensures i.DriveEvent? && Due(s.ev.drive, s.now)
    ensures var t := Step(disc, s, i);
            if t.log[|t.log| - 1].Handled? then s.drive.Reading? else s.drive.Playing? && s.io.flag == INT_NONE
  {
    hide CommandTick, SecondTick, DriveTick, Write, Between, InOrder, AtHead, Timely, AsyncReader.Sound;
    CommandTickGrows(disc, s);
    SecondTickGrows(disc, s);
    match i
    case GuestWrite(offset, value) => WriteIsSilent(s, offset, value);
    case DriveEvent(between) => if Due(s.ev.drive, s.now) { TurnsByDrive(disc, s, between); }
    case _ =>
  }

  ghost predicate Routed(disc: Disc, s: State, t: State) {
    && |t.log| == |s.log| + 1 && t.log[..|s.log|] == s.log && t.log[|s.log|].Handled?
    && var e := t.log[|s.log|];
       && e.lba == s.head.current && e.route == RouteOf(e.bytes, IsCdda(disc, e.lba), s.mode)
       && (if e.route.ToCpu? then t.io.irqs == s.io.irqs + 1 else t.io == s.io)
       && t.ev.drive == Scheduled(s.now, Period(s.mode))
  }

  lemma HandlingRoutes(disc: Disc, s: State, raw: SectorCodes.Sector)
    ensures var route := RouteOf(raw, IsCdda(disc, s.head.current), s.mode);
            var t := Handle(disc, s, raw, route);
            Routed(disc, s, if route.ToCpu? then Raise(t.(headerValid := true), INT_DATA_READY) else t)
  {
    hide RouteOf, IsCdda, QAt, NextLba, Period, Scheduled, AsyncReader.AfterQueue;
  }

  lemma HandledAsRouted(disc: Disc, s: State, between: seq<AsyncReader.Action>)
    requires s.drive.Reading?
    ensures var t := DriveTick(disc, s, between);
            t.log == s.log || Routed(disc, s, t)
  {
    hide Between, RouteOf, IsCdda, Handle, Period, Scheduled, Raise, Routed;
    hide AsyncReader.AfterPoll, AsyncReader.AfterUnpoll, AsyncReader.Answer;
    var t := Polled(disc, s.(ev := s.ev.(drive := s.ev.drive.(armed := false))), between);
    var a := AsyncReader.Answer(s.reader, s.head.current);
    if a.Ready? {
      HandlingRoutes(disc, t, a.sector);
      RoutedDepends(disc, s, t, DriveTick(disc, s, between));
    } else {
      RaisingKeepsLog(t.(drive := Idle), INT_ERROR);
    }
  }

  lemma RaisingKeepsLog(s: State, cause: Byte)
    ensures Raise(s, cause).log == s.log
  {
  }

  lemma RoutedDepends(disc: Disc, s: State, u: State, t: State)
    requires u.log == s.log && u.head == s.head && u.mode == s.mode && u.io == s.io && u.now == s.now
    ensures Routed(disc, u, t) == Routed(disc, s, t)
  {
    hide RouteOf, IsCdda, Period, Scheduled;
  }

  // A sector handled between s and t went where the guest asked. With ADPCM and the filter on, it went to the
  // decoder if and only if it is real-time audio of a Mode 2 sector, not of a CD-DA track, with the file and
  // channel selected, and such audio of another one raised nothing. Any other sector reached the CPU, with an
  // interrupt; and with ADPCM and the filter off, all do. The next one is due a period later.
  ghost predicate WentWhereAsked(disc: Disc, w: Wishes, s: State, t: State, e: Entry)
    requires e.Handled?
  {
    var audio := RealTimeAudio(e.bytes) && !IsCdda(disc, e.lba);
    var adpcm, filter := Bit(w.mode, 0x40), Bit(w.mode, 0x08);
    && (adpcm && filter ==> (e.route.ToAdpcm? <==> audio && Selected(e.bytes, w)))
    && (filter && audio && !Selected(e.bytes, w) ==> t.io == s.io)
    && (adpcm && !filter ==> (e.route.ToAdpcm? <==> audio))
    && (!adpcm ==> !e.route.ToAdpcm?)
    && (!audio ==> e.route.ToCpu?)
    && (!adpcm && !filter ==> e.route.ToCpu?)
    && t.io.irqs == s.io.irqs + (if e.route.ToCpu? then 1 else 0)
    && t.ev.drive.deadline == s.now + (if Bit(w.mode, 0x80) then 225792 else 451584)
  }

  /** In every run each sector handled is the one that is next, and goes where the guest asked with the last
      Setmode and Setfilter executed. */
  lemma {:induction false} SectorsGoWhereAsked(disc: Disc, run: seq<Input>, i: Input)
    requires var t := Step(disc, Run(disc, run), i);
             |Run(disc, run).log| < |t.log| && t.log[|t.log| - 1].Handled?
    ensures var s := Run(disc, run);
            var t := Step(disc, s, i);
            var e := t.log[|t.log| - 1];
            t.log == s.log + [e] && e.lba == Coming(s.log) && WentWhereAsked(disc, Wished(disc, run), s, t, e)
  {
    hide Run, Wished, Heeds, Woken, InOrder, Step, Coming, Position, LastQ, IsCdda, AsyncReader.Sound;
    hide DriveTick, Routed, WentWhereAsked;
    var s, w := Run(disc, run), Wished(disc, run);
    RunsHeed(disc, run);
    RunsAreSteady(disc, run);
    OnlyTurnsHandle(disc, s, i);
    HandledAsRouted(disc, s, i.between);
    StepIsTurn(disc, s, i);
    RoutingIsAsked(disc, s, w, Step(disc, s, i));
  }

  lemma StepIsTurn(disc: Disc, s: State, i: Input)
    requires i.DriveEvent? && Due(s.ev.drive, s.now)
    ensures Step(disc, s, i) == DriveTick(disc, s, i.between)
  {
    hide DriveTick;
  }

  lemma RoutingIsAsked(disc: Disc, s: State, w: Wishes, t: State)
    requires Heeds(s, w) && Routed(disc, s, t)
    ensures |t.log| == |s.log| + 1 && t.log[|s.log|].Handled? && t.log == s.log + [t.log[|s.log|]]
    ensures t.log[|s.log|].lba == s.head.current && WentWhereAsked(disc, w, s, t, t.log[|s.log|])
  {
    hide Heeds, RouteOf, RealTimeAudio, Selected, IsCdda, Bit, Period, ModeOf;
    WishedMode(s, w);
    var e := t.log[|s.log|];
    RouteIsBits(e.bytes, IsCdda(disc, e.lba), s.mode, w);
  }

  lemma WishedMode(s: State, w: Wishes)
    requires Heeds(s, w)
    ensures s.mode == ModeOf(w.mode, w.file, w.channel) && s.mode.double == Bit(w.mode, 0x80)
    ensures Period(s.mode) == if Bit(w.mode, 0x80) then 225792 else 451584
  {
    hide Bit;
  }

  // ---- Plays ----

  // A turn of a play between s and t: the next sector was played, at the speed asked for, with the disc's bytes;
  // or AutoPause, asked for, found another track there and left the head one sector before it.
  ghost predicate PlayedAsAsked(disc: Disc, w: Wishes, s: State, t: State, e: Entry) {
    && t.log == s.log + [e]
    && var lba := Coming(s.log);
       if e.Played? then
         && e.lba == lba < disc.totalSectors && disc.read(lba) == Some(e.bytes) && e.speed == w.speed
         && t.drive.Playing? && Coming(t.log) == (lba + w.speed) % TWO_32
       else
         && e == AutoPaused(if lba > 0 then lba - 1 else 0, s.now)
         && Bit(w.mode, 0x02) && QAt(disc, LastQ(disc, s.log), lba).track != LastQ(disc, s.log).track
         && t.drive.Idle? && Position(t.log) == Coming(t.log) == e.lba && Raised(s, t)
  }

  lemma PlayingIsAsked(disc: Disc, s: State, w: Wishes, t: State)
    requires Heeds(s, w) && Placed(disc, s) && PlayMoves(disc, s, t) && |s.log| < |t.log|
    ensures PlayedAsAsked(disc, w, s, t, t.log[|t.log| - 1])
  {
    hide LastQ, Position, QAt;
    var e := t.log[|t.log| - 1];
    assert t.log == s.log + [e];
    OneMoreEntry(disc, s.log, e);
  }

  /** In every run what a play does on its turns is what the guest asked for: it plays the next sector, and moves
      on by the speed that Play and the Forwards since have set, or pauses at the end of its track. */
  lemma {:induction false} PlaysDoAsAsked(disc: Disc, run: seq<Input>, i: Input)
    requires var t := Step(disc, Run(disc, run), i);
             && |Run(disc, run).log| < |t.log|
             && (t.log[|t.log| - 1].Played? || t.log[|t.log| - 1].AutoPaused?)
    ensures var s := Run(disc, run);
            var t := Step(disc, s, i);
            PlayedAsAsked(disc, Wished(disc, run), s, t, t.log[|t.log| - 1])
  {
    hide Run, Wished, Heeds, Woken, InOrder, Step, Placed, PlayMoves, PlayedAsAsked, DriveTick;
    var s, w := Run(disc, run), Wished(disc, run);
    RunsHeed(disc, run);
    RunsAreSteady(disc, run);
    OnlyTurnsHandle(disc, s, i);
    StepIsTurn(disc, s, i);
    TurnIsPlay(disc, s, i.between);
    PlayingIsAsked(disc, s, w, Step(disc, s, i));
  }

  lemma TurnIsPlay(disc: Disc, s: State, between: seq<AsyncReader.Action>)
    requires s.drive.Playing? && s.io.flag == INT_NONE && AsyncReader.Sound(disc.read, s.reader)
    ensures PlayMoves(disc, s, DriveTick(disc, s, between))
  {
    hide PlaySector, Between, AsyncReader.AfterPoll, AsyncReader.Sound, QAt;
    var t := s.(ev := s.ev.(drive := s.ev.drive.(armed := false)));
    PlaySectorTurns(disc, t, between);
  }

  /** With AutoPause off, or while the track stays the same, a sector of a play that the reader has ready is
      played; with it on, one of another track stops the play, but for the first after a seek. */
  lemma {:induction false} AutoPauseIsExact(disc: Disc, run: seq<Input>, between: seq<AsyncReader.Action>)
    requires var s := Run(disc, run);
             && s.drive.Playing? && Due(s.ev.drive, s.now) && s.io.flag == INT_NONE
             && AsyncReader.Answer(s.reader, Coming(s.log)).Ready? && Coming(s.log) < disc.totalSectors
    ensures var s, w := Run(disc, run), Wished(disc, run);
            var t := Step(disc, s, DriveEvent(between));
            && |t.log| == |s.log| + 1
            && (t.log[|s.log|].AutoPaused? <==>
                  Bit(w.mode, 0x02) && !s.head.seekPhase
                  && QAt(disc, LastQ(disc, s.log), Coming(s.log)).track != LastQ(disc, s.log).track)
            && (!t.log[|s.log|].AutoPaused? ==> t.log[|s.log|].Played?)
  {
    hide Run, Wished, Woken, InOrder, Step, Coming, Position, LastQ, QAt, AsyncReader.Answer, AsyncReader.Sound, Bit;
    var s, w := Run(disc, run), Wished(disc, run);
    RunsHeed(disc, run);
    RunsAreSteady(disc, run);
    StepIsTurn(disc, s, DriveEvent(between));
    PlayTurnLogs(disc, s, between);
  }

  lemma PlayTurnLogs(disc: Disc, s: State, between: seq<AsyncReader.Action>)
    requires s.drive.Playing? && s.io.flag == INT_NONE && s.head.current < disc.totalSectors
    requires AsyncReader.Answer(s.reader, s.head.current).Ready?
    ensures var t := DriveTick(disc, s, between);
            var stops := s.mode.autoPause && !s.head.seekPhase
                         && QAt(disc, s.lastQ, s.head.current).track != s.lastQ.track;
            && |t.log| == |s.log| + 1
            && (if stops then t.log[|s.log|].AutoPaused? else t.log[|s.log|].Played?)
  {
    hide Between, QAt, Before, ReportDue, Scheduled;
    hide AsyncReader.AfterPoll, AsyncReader.AfterQueue, AsyncReader.Answer;
  }

  // From entry i on, a play goes on undisturbed at one speed.
  ghost predicate OnePlay(log: seq<Entry>, i: nat, j: nat, speed: nat)
    requires i < j < |log|
  {
    (log[i].PlayStarted? || log[i].Skipped?) && forall k :: i < k <= j ==> log[k].Played? && log[k].speed == speed
  }

  lemma PlayContinues(disc: Disc, log: seq<Entry>, j: nat)
    requires InOrder(disc, log) && 0 < j < |log| && log[j].Played?
    ensures log[j].lba == NextOf(log[j - 1])
  {
    hide LastQ, QAt;
    assert Follows(disc, log[..j], log[j]);
  }

  lemma {:induction false} OrderedPlay(disc: Disc, log: seq<Entry>, i: nat, j: nat, speed: nat)
    requires InOrder(disc, log) && i < j < |log| && OnePlay(log, i, j, speed)
    ensures log[j].lba == if j == i + 1 then log[i].lba else (log[i].lba + speed * (j - i - 1)) % TWO_32
    decreases j
  {
    hide InOrder;
    PlayContinues(disc, log, j);
    if i + 1 < j {
      OrderedPlay(disc, log, i, j - 1, speed);
      SpeedAdds(log[i].lba, speed, j - i - 2);
    }
  }

  /** A play that goes on undisturbed plays the sector it started at, and then every one `speed` further on. */
  lemma {:induction false} PlaysComeInOrder(disc: Disc, run: seq<Input>, i: nat, j: nat, speed: nat)
    requires i < j < |Run(disc, run).log| && OnePlay(Run(disc, run).log, i, j, speed)
    ensures var log := Run(disc, run).log;
            log[j].lba == if j == i + 1 then log[i].lba else (log[i].lba + speed * (j - i - 1)) % TWO_32
  {
    hide Run, Woken, InOrder, OnePlay;
    RunsAreSteady(disc, run);
    OrderedPlay(disc, Run(disc, run).log, i, j, speed);
  }

  lemma SpeedAdds(lba: nat, speed: nat, n: nat)
    ensures ((lba + speed * n) % TWO_32 + speed) % TWO_32 == (lba + speed * (n + 1)) % TWO_32
  {
    assert lba + speed * (n + 1) == lba + speed * n + speed;
    RemainderAdds(lba + speed * n, speed);
  }

  lemma RemainderAdds(a: nat, b: nat)
    ensures (a % TWO_32 + b) % TWO_32 == (a + b) % TWO_32
  {
  }

  // ---- Refusals ----

  // The commands the controller knows.
  predicate Known(code: Byte) {
    OnlyAnswers(code) || MovesDrive(code) ||
    code == SETLOC || code == MOTORON || code == SETFILTER || code == SETMODE || code == GETLOCL || code == READT ||
    code == GETTD || code == TEST || code == GETID || code == RESET || code == READTOC
  }

  // The parameters name a track of the disc, in packed decimal.
  ghost predicate NamesTrack(disc: Disc, params: seq<Byte>) {
    exists n: nat :: n < 100 && n <= disc.lastTrack && At(params, 0) == ToBcd(n)
  }

  // The position of the head cannot be given: during a seek, on a CD-DA track, before any data sector, or with the
  // motor off.
  predicate NoHeader(disc: Disc, s: State) {
    s.head.seekPhase || IsCdda(disc, Position(s.log)) || !s.headerValid || !s.motorOn
  }

  ghost predicate Refusable(disc: Disc, s: State, c: Command) {
    || !Known(c.code)
    || (!disc.present && NeedsDisc(c.code))
    || (c.code == SETLOC && Named(c.params).None?)
    || (c.code == PAUSE && s.head.seekPhase)
    || (c.code == GETLOCL && NoHeader(disc, s))
    || (c.code == GETTD && !NamesTrack(disc, c.params))
  }

  lemma TrackIsNamed(disc: Disc, params: seq<Byte>)
    ensures NamesTrack(disc, params) <==> IsBcd(At(params, 0)) && FromBcd(At(params, 0)) <= disc.lastTrack
  {
    var v := At(params, 0);
    if IsBcd(v) {
      BcdOfDigits(v);
    }
    if NamesTrack(disc, params) {
      var n: nat :| n < 100 && n <= disc.lastTrack && v == ToBcd(n);
      DigitsOfBcd(n);
    }
  }

  lemma MovesAreRefused(disc: Disc, s: State, cmd: Byte)
    requires s.io.flag == INT_NONE && MovesDrive(cmd)
    ensures AnswerMove(disc, s, cmd).io.flag == INT_ERROR <==> cmd == PAUSE && s.head.seekPhase
  {
    hide BeginReading, BeginPlaying, InitOwed, Standby, InitDelay, StopDelay, PauseDelay, SeekDelay, SeekTarget;
    hide Scheduled;
    StartsAreSilent(disc, Raise(s, INT_ACK), Param(s, 0));
  }

  lemma QueriesAreRefused(disc: Disc, s: State)
    requires Placed(disc, s)
    ensures AnswerSetloc(s).io.flag == INT_ERROR <==> Named(s.io.params).None?
    ensures AnswerGetlocL(disc, s).io.flag == INT_ERROR <==> NoHeader(disc, s)
    ensures AnswerGetTd(disc, s).io.flag == INT_ERROR <==> !NamesTrack(disc, s.io.params)
  {
    NamedIsDecoded(s.io.params);
    TrackIsNamed(disc, s.io.params);
    hide ValidMsf, FromBcd, IsBcd, IsCdda, Coming, Position, LastQ, NamesTrack, Named;
  }

  // Commands that are never refused, save for want of a disc.
  predicate Obliging(cmd: Byte) {
    cmd == MOTORON || cmd == SETFILTER || cmd == SETMODE || cmd == READT || cmd == TEST || cmd == GETID ||
    cmd == RESET || cmd == READTOC
  }

  lemma ObligingAreAnswered(disc: Disc, s: State, cmd: Byte)
    requires Obliging(cmd)
    ensures AnswerCommand(disc, s, cmd).io.flag == INT_ACK
  {
    hide AnswerMove, AnswerSetloc, AnswerGetlocL, AnswerGetTd, Bit, Param, SpeedOwed, Scheduled;
  }

  lemma UnknownAreRefused(disc: Disc, s: State, cmd: Byte)
    requires !Known(cmd)
    ensures AnswerCommand(disc, s, cmd).io.flag == INT_ERROR
  {
    hide AnswerMove, AnswerSetloc, AnswerSetmode, AnswerGetlocL, AnswerGetTd, AnswerTwice, Param;
  }

  lemma OthersAreRefused(disc: Disc, s: State, cmd: Byte)
    requires Placed(disc, s) && !MovesDrive(cmd) && !OnlyAnswers(cmd)
    ensures AnswerCommand(disc, s, cmd).io.flag == INT_ERROR <==>
            || !Known(cmd) || (cmd == SETLOC && Named(s.io.params).None?)
            || (cmd == GETLOCL && NoHeader(disc, s)) || (cmd == GETTD && !NamesTrack(disc, s.io.params))
  {
    QueriesAreRefused(disc, s);
    hide AnswerMove, AnswerSetloc, AnswerSetmode, AnswerGetlocL, AnswerGetTd, AnswerTwice, Raise, Param;
    hide NamesTrack, Named, NoHeader, MovesDrive, OnlyAnswers, Placed;
    if !Known(cmd) {
      UnknownAreRefused(disc, s, cmd);
      hide AnswerCommand;
    } else if Obliging(cmd) {
      ObligingAreAnswered(disc, s, cmd);
      hide AnswerCommand;
    }
  }

  lemma RefusedByCommand(disc: Disc, s: State, cmd: Byte)
    requires Placed(disc, s) && s.io.flag == INT_NONE && (disc.present || !NeedsDisc(cmd))
    ensures AnswerCommand(disc, s, cmd).io.flag == INT_ERROR <==> Refusable(disc, s, Command(cmd, s.io.params))
  {
    if MovesDrive(cmd) {
      MovesAreRefused(disc, s, cmd);
      MovesAreNoQueries(cmd);
      hide AnswerMove, NamesTrack, Named, NoHeader, OnlyAnswers, NeedsDisc, Placed;
    } else if OnlyAnswers(cmd) {
      hide NamesTrack, Named, NoHeader, NeedsDisc, Placed;
    } else {
      OthersAreRefused(disc, s, cmd);
      hide AnswerCommand, NamesTrack, Named, NoHeader, NeedsDisc, Known, Placed;
    }
  }

  lemma StartsAreSilent(disc: Disc, s: State, track: Byte)
    ensures BeginReading(s).io == s.io && BeginPlaying(disc, s, track).io == s.io
  {
    hide ReadDelay, ReadMoves, ReadTarget, PlayDelay, PlayTarget, Scheduled, AsyncReader.AfterQueue;
  }

  /** In every run a due command is refused exactly for the reasons listed: the controller does not know it, there is
      no disc for it, a Setloc or a GetTD does not name a position or a track, or a Pause or a GetlocL comes when
      the head's position cannot be told. */
  lemma {:induction false} CommandsAreRefused(disc: Disc, run: seq<Input>)
    requires var s := Run(disc, run);
             Due(s.ev.command, s.now) && s.ev.pending != NONE && s.io.flag == INT_NONE
    ensures var s := Run(disc, run);
            Step(disc, s, CommandEvent).io.flag == INT_ERROR <==>
            Refusable(disc, s, Command(s.ev.pending, s.ev.pendingParams))
  {
    hide Run, Woken, InOrder, AnswerCommand, Refusable, Coming, LastQ, Position;
    var s := Run(disc, run);
    RunsAreSteady(disc, run);
    var u, c := Prepared(s), Command(s.ev.pending, s.ev.pendingParams);
    if disc.present || !NeedsDisc(s.ev.pending) {
      ExecutedIs(disc, s, CommandEvent);
      RefusedByCommand(disc, u, s.ev.pending);
      RefusableDepends(disc, s, u, c);
    } else {
      NoDiscIsRefused(disc, s, c);
    }
  }

  lemma RefusableDepends(disc: Disc, s: State, t: State, c: Command)
    requires t.head == s.head && t.log == s.log && t.headerValid == s.headerValid && t.motorOn == s.motorOn
    ensures Refusable(disc, s, c) == Refusable(disc, t, c)
  {
    hide Known, NeedsDisc, Named, NamesTrack, IsCdda, Position;
  }

  lemma NoDiscIsRefused(disc: Disc, s: State, c: Command)
    requires !disc.present && NeedsDisc(c.code)
    ensures Refusable(disc, s, c)
  {
    hide NeedsDisc;
  }

  // ---- Second responses ----

  // How long after its execution a command's second response is due: for Stop and Pause by what the drive does and
  // the speed Setmode asked for.
  function SecondDelay(s: State, w: Wishes, code: Byte): Option<nat> {
    if code == MOTORON then Some(28224000)
    else if code == GETID then Some(18944)
    else if code == READT then Some(50401)
    else if code == READTOC then Some(20321280)
    else if code == STOP then
      Some(if !s.motorOn || s.drive.Idle? then 7547 else if Bit(w.mode, 0x80) then 25845878 else 13863114)
    else if code == PAUSE && !s.head.seekPhase then
      Some(if s.drive.Idle? then 7000 else if Bit(w.mode, 0x80) then 1097107 else 2168860)
    else None
  }

  lemma SecondsByCommand(disc: Disc, s: State, w: Wishes, cmd: Byte)
    requires Heeds(s, w) && SecondDelay(s, w, cmd).Some?
    ensures var t := AnswerCommand(disc, s, cmd);
            t.ev.second == cmd && t.ev.answer == Scheduled(s.now, SecondDelay(s, w, cmd).value)
  {
    hide Bit, Param;
    assert s.mode.double == Bit(w.mode, 0x80);
    hide AnswerInit, BeginReading, BeginPlaying, BeginSeeking, AnswerForward, AnswerBackward;
    hide AnswerSetloc, AnswerSetmode;
    hide AnswerGetlocL, AnswerGetTd, OnlyAnswers, ModeOf, Heeds;
    OwingOnlyTwice(cmd);
  }

  lemma OwingOnlyTwice(cmd: Byte)
    ensures cmd == MOTORON || cmd == GETID || cmd == READT || cmd == READTOC || cmd == STOP || cmd == PAUSE ==>
              !OnlyAnswers(cmd)
  {
  }

  /** In every run the second response of MotorOn, GetID, ReadT, ReadTOC, Stop and Pause is due its own time after the
      command is executed. */
  lemma {:induction false} SecondsAreDue(disc: Disc, run: seq<Input>, i: Input)
    requires var c := Executed(disc, Run(disc, run), i);
             c.Some? && SecondDelay(Run(disc, run), Wished(disc, run), c.value.code).Some?
    ensures var s, w := Run(disc, run), Wished(disc, run);
            var t := Step(disc, s, i);
            && t.ev.second == s.ev.pending && t.ev.answer.armed
            && t.ev.answer.deadline == s.now + SecondDelay(s, w, s.ev.pending).value
  {
    hide Run, Wished, AnswerCommand, NeedsDisc, Heeds, Coming, Position, LastQ, Woken, InOrder, SecondDelay;
    var s, w := Run(disc, run), Wished(disc, run);
    RunsHeed(disc, run);
    RunsAreSteady(disc, run);
    ExecutedIs(disc, s, i);
    PreparedIsSame(disc, s, w);
    DelayDepends(s, Prepared(s), w, s.ev.pending);
    SecondsByCommand(disc, Prepared(s), w, s.ev.pending);
  }

  lemma DelayDepends(s: State, t: State, w: Wishes, code: Byte)
    requires t.drive == s.drive && t.head == s.head && t.motorOn == s.motorOn
    ensures SecondDelay(t, w, code) == SecondDelay(s, w, code)
  {
    hide Bit;
  }

  // ---- When a start, a seek or a command is due ----

  // How long a command that moves the drive takes: the sector period of the speed asked for, or the move of the
  // head, and what a change of speed still costs.
  function MoveDelay(disc: Disc, w: Wishes, log: seq<Entry>, c: Command): nat {
    var period := if Bit(w.mode, 0x80) then 225792 else 451584;
    if c.code == READN || c.code == READS then
      var moves := w.setloc.Some? && w.setloc.value != Coming(log);
      period + w.owed + if moves then SeekTicks(Position(log), w.setloc.value) else 0
    else if c.code == PLAY then
      w.owed + if PlayFrom(disc, w, log, At(c.params, 0)) != Coming(log) then 13547520 else period
    else
      var to := if w.setloc.Some? then w.setloc.value else w.sought;
      w.owed + SeekTicks(Position(log), to)
  }

  lemma StartsAreTimed(disc: Disc, s: State, w: Wishes, cmd: Byte)
    requires Heeds(s, w) && Placed(disc, s)
    ensures var d := MoveDelay(disc, w, s.log, Command(READN, s.io.params));
            BeginReading(s).ev.drive == Scheduled(s.now, d)
    ensures var d := MoveDelay(disc, w, s.log, Command(PLAY, s.io.params));
            BeginPlaying(disc, s, At(s.io.params, 0)).ev.drive == Scheduled(s.now, d)
    ensures cmd == SEEKL || cmd == SEEKP ==>
              var d := MoveDelay(disc, w, s.log, Command(cmd, s.io.params));
              BeginSeeking(s, cmd, false, false).ev.answer == Scheduled(s.now, d)
  {
    hide AsyncReader.AfterQueue, Coming, Position, LastQ, Bit;
    WishedMode(s, w);
    hide ModeOf, Heeds;
    assert Period(s.mode) == if Bit(w.mode, 0x80) then 225792 else 451584;
  }

  /** In every run an executed read or play is due its first sector, and a seek its end, when the head has had the
      time to move and the disc to change its speed. */
  lemma {:induction false} MovesAreDue(disc: Disc, run: seq<Input>, i: Input)
    requires var c := Executed(disc, Run(disc, run), i);
             c.Some? && Relocates(c.value.code) && c.value.code != SETLOC
    ensures var s, w := Run(disc, run), Wished(disc, run);
            var c := Executed(disc, s, i).value;
            var t := Step(disc, s, i);
            if c.code == SEEKL || c.code == SEEKP
            then t.ev.second == c.code && t.ev.answer.deadline == s.now + MoveDelay(disc, w, s.log, c)
            else t.ev.drive.deadline == s.now + MoveDelay(disc, w, s.log, c)
  {
    hide Run, Wished, AnswerCommand, NeedsDisc, Heeds, Coming, Position, LastQ, Woken, InOrder, MoveDelay;
    var s, w := Run(disc, run), Wished(disc, run);
    RunsHeed(disc, run);
    RunsAreSteady(disc, run);
    ExecutedIs(disc, s, i);
    PreparedIsSame(disc, s, w);
    MoveByCommand(disc, Prepared(s), w, s.ev.pending);
    var t := AnswerCommand(disc, Prepared(s), s.ev.pending);
    assert SetParams(t, []).ev == t.ev;
  }

  lemma MoveByCommand(disc: Disc, s: State, w: Wishes, cmd: Byte)
    requires Heeds(s, w) && Placed(disc, s) && Relocates(cmd) && cmd != SETLOC
    ensures var t := AnswerCommand(disc, s, cmd);
            var due := s.now + MoveDelay(disc, w, s.log, Command(cmd, s.io.params));
            if cmd == SEEKL || cmd == SEEKP then t.ev.second == cmd && t.ev.answer.deadline == due
            else t.ev.drive.deadline == due
  {
    var raised := Raise(s, INT_ACK);
    UntouchedHeeds(s, raised, w);
    StartsAreTimed(disc, raised, w, cmd);
    MoversAreMoves(cmd);
    ReadsAlike(disc, w, s.log, cmd, s.io.params);
    SeeksOwe(raised, cmd);
    hide BeginReading, BeginPlaying, BeginSeeking, MoveDelay, OnlyAnswers, MovesDrive, Heeds, Placed, ModeOf;
    hide AnswerForward, AnswerBackward, AnswerStop, AnswerPause, AnswerInit;
  }

  lemma SeeksOwe(s: State, cmd: Byte)
    ensures BeginSeeking(s, cmd, false, false).ev.second == cmd
  {
    hide SeekDelay, SeekTarget, Scheduled;
  }

  lemma MoversAreMoves(cmd: Byte)
    requires Relocates(cmd) && cmd != SETLOC
    ensures MovesDrive(cmd) && !OnlyAnswers(cmd)
  {
  }

  lemma ReadsAlike(disc: Disc, w: Wishes, log: seq<Entry>, cmd: Byte, params: seq<Byte>)
    ensures cmd == READS ==>
              MoveDelay(disc, w, log, Command(cmd, params)) == MoveDelay(disc, w, log, Command(READN, params))
  {
    hide Coming, Position, Bit;
  }

  /** A command written while the command event is idle is due after the acknowledge delay: the longer one of Init and
      ReadTOC, or the shorter one of a stopped motor. */
  lemma {:induction false} CommandsAreDue(disc: Disc, run: seq<Input>, cmd: Byte)
    requires var s := Run(disc, run);
             s.io.index == 0 && s.ev.pending == NONE && !s.ev.cmdGuard && cmd != NONE
    ensures var s := Run(disc, run);
            var t := Step(disc, s, GuestWrite(1, cmd));
            && t.ev.pending == cmd && t.ev.pendingParams == s.io.params
            && t.ev.command.armed && t.ev.command.deadline ==
               s.now + if cmd == INIT || cmd == READTOC then 81102 else if s.motorOn then 50401 else 23796
  {
    hide Run;
  }

  // What a seek costs by its distance: step by step while that is cheaper, and otherwise a coarse seek with a term in
  // proportion, up to 60 sector times.
  function Proportional(dist: nat): nat {
    var extra := dist * 451584 / 1000;
    var coarse := 1806336 + if extra < 27095040 then extra else 27095040;
    if dist * 234700 < coarse then dist * 234700 else coarse
  }

  /** A seek is charged in proportion to its distance exactly up to 9510 sectors: beyond, the term leaves 32 bits. */
  lemma SeekTimeIsExact(from: nat, to: nat)
    requires from != to
    ensures var dist := if from < to then to - from else from - to;
            SeekTicks(from, to) == Proportional(dist) <==> dist <= 9510
  {
    var dist := if from < to then to - from else from - to;
    if dist <= 9510 {
      assert dist * 451584 % TWO_32 == dist * 451584;
    } else {
      assert dist * 451584 / 1000 >= 4295015;
      assert dist * 451584 % TWO_32 / 1000 <= 4294967;
    }
  }

  // So a longer seek can be charged less.
  lemma LongerSeekIsCheaper()
    ensures SeekTicks(0, 9511) < SeekTicks(0, 9510)
  {
  }
}
