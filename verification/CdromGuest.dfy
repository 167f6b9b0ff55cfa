/** The CD-ROM controller as the guest sees it: what the commands executed so far ask for, and that the controller's
    state always says the same. */
module CdromGuest {
  import opened CdromModel
  import opened CdromSafety
  import opened CdromRuns
  import opened Words
  import opened Wrappers
  import SectorCodes
  import AsyncReader

  // ---- What a step executes ----

  datatype Command = Command(code: Byte, params: seq<Byte>)

  // The command an input makes the controller execute, if any. Some are refused for want of a disc.
  function Executed(disc: Disc, s: State, i: Input): Option<Command> {
    if i.CommandEvent? && Due(s.ev.command, s.now) && s.io.flag == INT_NONE && s.ev.pending != NONE &&
       (disc.present || !NeedsDisc(s.ev.pending))
    then Some(Command(s.ev.pending, s.ev.pendingParams))
    else None
  }

  // The command whose second response an input delivers.
  function Delivered(s: State, i: Input): Byte {
    if i.SecondEvent? && Due(s.ev.answer, s.now) && s.io.flag == INT_NONE then s.ev.second else NONE
  }

  // ---- What the commands ask for ----

  function At(params: seq<Byte>, i: nat): Byte {
    if i < |params| then params[i] else 0
  }

  // The parameters name a position of m minutes, s seconds and f frames.
  ghost predicate Names(params: seq<Byte>, m: nat, s: nat, f: nat) {
    m < 100 && s < 60 && f < 75 && At(params, 0) == ToBcd(m) && At(params, 1) == ToBcd(s) && At(params, 2) == ToBcd(f)
  }

  // Positions count from two seconds before the first address.
  function Address(m: nat, s: nat, f: nat): nat {
    ((m * 60 + s) * 75 + f - 150) % TWO_32
  }

  ghost function Named(params: seq<Byte>): Option<nat> {
    if m: nat, s: nat, f: nat :| Names(params, m, s, f) then Some(Address(m, s, f)) else None
  }

  // A Setloc not used yet, where the last seek goes, the last Setfilter, the last Setmode, the speed of the play,
  // and the time a change of the disc's speed still costs.
  datatype Wishes = Wishes(
    setloc: Option<nat>, sought: nat, file: Byte, channel: Byte, mode: Byte, speed: nat, owed: nat)

  const NO_WISHES := Wishes(None, 0, 0, 0, 0, 0, 0)

  // Setmode can change the speed of the disc, which costs 600 ms up and 700 ms down.
  function SpeedCost(was: Byte, mode: Byte, owed: nat): nat {
    if Bit(mode, 0x80) == Bit(was, 0x80) then owed else if Bit(mode, 0x80) then 20321280 else 23708160
  }

  ghost function AfterCommand(w: Wishes, c: Command, playing: bool, initOwed: bool): Wishes {
    if c.code == SETLOC then if Named(c.params).Some? then w.(setloc := Named(c.params)) else w
    else if c.code == READN || c.code == READS then w.(setloc := None, owed := 0)
    else if c.code == PLAY then w.(setloc := None, speed := 1, owed := 0)
    else if c.code == SEEKL || c.code == SEEKP then
      w.(setloc := None, sought := if w.setloc.Some? then w.setloc.value else w.sought, owed := 0)
    else if c.code == FORWARD && playing then w.(speed := if w.speed < 4 then 2 * w.speed else 4)
    else if c.code == SETFILTER then w.(file := At(c.params, 0), channel := At(c.params, 1))
    else if c.code == SETMODE then w.(mode := At(c.params, 0), owed := SpeedCost(w.mode, At(c.params, 0), w.owed))
    else if c.code == INIT && !initOwed then w.(mode := 0)
    else w
  }

  ghost function AfterInput(disc: Disc, w: Wishes, s: State, i: Input): Wishes {
    match Executed(disc, s, i)
    case Some(c) => AfterCommand(w, c, s.drive.Playing?, InitOwed(s.ev, s.now))
    case None => if Delivered(s, i) == INIT then w.(mode := 0) else w
  }

  // What the guest has asked for in the course of a run.
  ghost function Wished(disc: Disc, run: seq<Input>): Wishes {
    if run == [] then NO_WISHES
    else AfterInput(disc, Wished(disc, run[..|run| - 1]), Run(disc, run[..|run| - 1]), run[|run| - 1])
  }

  // ---- The controller heeds it ----

  // The settings of a Setmode, and the selection of a Setfilter.
  function ModeOf(mode: Byte, file: Byte, channel: Byte): Mode {
    Mode(Bit(mode, 0x80), Bit(mode, 0x40), Bit(mode, 0x08), file, channel, Bit(mode, 0x04), Bit(mode, 0x02))
  }

  ghost predicate Heeds(s: State, w: Wishes) {
    && s.head.setlocPending == w.setloc.Some? && (w.setloc.Some? ==> s.head.setloc == w.setloc.value)
    && s.head.target == w.sought && s.mode == ModeOf(w.mode, w.file, w.channel) && s.cddaSpeed == w.speed
    && s.head.speedOwed == w.owed && !s.readAfterSeek && !s.playAfterSeek
  }

  // None of what was asked for changes.
  predicate Untouched(s: State, t: State) {
    && t.head.setlocPending == s.head.setlocPending && t.head.setloc == s.head.setloc && t.head.target == s.head.target
    && t.head.speedOwed == s.head.speedOwed && t.mode == s.mode && t.cddaSpeed == s.cddaSpeed
    && t.readAfterSeek == s.readAfterSeek && t.playAfterSeek == s.playAfterSeek
  }

  lemma UntouchedHeeds(s: State, t: State, w: Wishes)
    requires Heeds(s, w) && Untouched(s, t)
    ensures Heeds(t, w)
  {
    hide ModeOf;
  }

  lemma BcdOfDigits(v: Byte)
    requires IsBcd(v)
    ensures FromBcd(v) < 100 && ToBcd(FromBcd(v)) == v
    ensures v < 0x60 ==> FromBcd(v) < 60
    ensures v < 0x75 ==> FromBcd(v) < 75
  {
    var tens, ones := v / 16, v % 16;
    assert (tens * 10 + ones) / 10 == tens && (tens * 10 + ones) % 10 == ones;
    PackedDigits(FromBcd(v));
    hide ToBcd;
  }

  lemma DigitsOfBcd(n: nat)
    requires n < 100
    ensures IsBcd(ToBcd(n)) && FromBcd(ToBcd(n)) == n
    ensures n < 60 ==> ToBcd(n) < 0x60
    ensures n < 75 ==> ToBcd(n) < 0x75
  {
    BcdRoundTrip(n);
    PackedDigits(n);
    NibblesApart(n / 10, n % 10);
    hide ToBcd, FromBcd;
  }

  // Parameters name a position exactly when they are three packed numbers in range, and then only one.
  lemma NamedIsDecoded(params: seq<Byte>)
    ensures var a, b, c := At(params, 0), At(params, 1), At(params, 2);
            Named(params) == if ValidMsf(a, b, c) then Some(Address(FromBcd(a), FromBcd(b), FromBcd(c))) else None
  {
    var a, b, c := At(params, 0), At(params, 1), At(params, 2);
    forall m: nat, s: nat, f: nat | Names(params, m, s, f)
      ensures ValidMsf(a, b, c) && m == FromBcd(a) && s == FromBcd(b) && f == FromBcd(c)
    {
      DigitsOfBcd(m);
      DigitsOfBcd(s);
      DigitsOfBcd(f);
      hide ToBcd, FromBcd, IsBcd;
    }
    if ValidMsf(a, b, c) {
      BcdOfDigits(a);
      BcdOfDigits(b);
      BcdOfDigits(c);
      hide ToBcd, FromBcd, IsBcd;
      assert Names(params, FromBcd(a), FromBcd(b), FromBcd(c));
    }
  }

  // Each set of parameters names the one position it was packed from.
  lemma NamedIs(params: seq<Byte>, m: nat, s: nat, f: nat)
    requires Names(params, m, s, f)
    ensures Named(params) == Some(Address(m, s, f))
  {
    NamedIsDecoded(params);
    DigitsOfBcd(m);
    DigitsOfBcd(s);
    DigitsOfBcd(f);
    hide ToBcd, FromBcd, IsBcd;
  }

  // ---- Every step heeds it ----

  lemma SetlocHeeds(s: State, w: Wishes)
    requires Heeds(s, w)
    ensures Heeds(AnswerSetloc(s), AfterCommand(w, Command(SETLOC, s.io.params), false, false))
  {
    NamedIsDecoded(s.io.params);
    hide ValidMsf, FromBcd, ModeOf, Named;
  }

  lemma SetmodeHeeds(s: State, w: Wishes)
    requires Heeds(s, w)
    ensures var m := At(s.io.params, 0);
            Heeds(AnswerSetmode(s), w.(mode := m, owed := SpeedCost(w.mode, m, w.owed)))
    ensures var t := Raise(s.(mode := s.mode.(file := Param(s, 0), channel := Param(s, 1))), INT_ACK);
            Heeds(t, w.(file := At(s.io.params, 0), channel := At(s.io.params, 1)))
  {
    hide Bit;
  }

  lemma StartsHeed(disc: Disc, s: State, w: Wishes, track: Byte, cmd: Byte)
    requires Heeds(s, w)
    ensures Heeds(BeginReading(s), w.(setloc := None, owed := 0))
    ensures Heeds(BeginPlaying(disc, s, track), w.(setloc := None, speed := 1, owed := 0))
    ensures Heeds(BeginSeeking(s, cmd, false, false),
                  w.(setloc := None, sought := if w.setloc.Some? then w.setloc.value else w.sought, owed := 0))
  {
    hide ModeOf, ReadDelay, ReadTarget, ReadMoves, PlayDelay, PlayTarget, SeekDelay, Scheduled, AsyncReader.AfterQueue;
  }

  lemma SkipsHeed(s: State, w: Wishes)
    requires Heeds(s, w)
    ensures Heeds(AnswerForward(s), AfterCommand(w, Command(FORWARD, s.io.params), s.drive.Playing?, false))
    ensures Untouched(s, AnswerBackward(s))
  {
    hide ModeOf, Rewound, AsyncReader.AfterQueue;
  }

  lemma StopsAreUntouched(s: State)
    ensures Untouched(s, AnswerStop(s)) && Untouched(s, AnswerPause(s))
  {
    hide StopDelay, PauseDelay, Scheduled, Paused;
  }

  lemma InitHeeds(s: State, w: Wishes)
    requires Heeds(s, w)
    ensures Heeds(AnswerInit(s), if InitOwed(s.ev, s.now) then w else w.(mode := 0))
  {
    hide InitDelay, Scheduled, InitOwed, Parked, Active;
    NoBits();
  }

  lemma NoBits()
    ensures !Bit(0, 0x80) && !Bit(0, 0x40) && !Bit(0, 0x08) && !Bit(0, 0x04) && !Bit(0, 0x02)
  {
  }

  lemma AnswersAreUntouched(disc: Disc, s: State, cmd: Byte, cycles: nat, motorOn: bool, cause: Byte)
    ensures Untouched(s, AnswerTwice(s.(motorOn := motorOn), cmd, cycles))
    ensures Untouched(s, Raise(s.(motorOn := motorOn), cause))
    ensures Untouched(s, Raise(s.(drive := Idle, motorOn := motorOn), cause))
    ensures Untouched(s, AnswerGetlocL(disc, s)) && Untouched(s, AnswerGetTd(disc, s))
  {
    hide Scheduled, IsCdda, IsBcd, FromBcd, Param;
  }

  lemma MovesHeed(disc: Disc, s: State, w: Wishes, cmd: Byte)
    requires Heeds(s, w) && MovesDrive(cmd)
    ensures Heeds(AnswerMove(disc, s, cmd),
                  AfterCommand(w, Command(cmd, s.io.params), s.drive.Playing?, InitOwed(s.ev, s.now)))
  {
    hide BeginReading, BeginPlaying, BeginSeeking, AnswerStop, AnswerPause, AnswerForward, AnswerBackward, AnswerInit;
    hide Raise, InitOwed, Heeds, Untouched, Param, Named;
    var raised := Raise(s, INT_ACK);
    RaisingIsUntouched(s, INT_ACK);
    UntouchedHeeds(s, raised, w);
    StartsHeed(disc, raised, w, Param(s, 0), cmd);
    SkipsHeed(s, w);
    StopsAreUntouched(s);
    UntouchedHeeds(s, AnswerBackward(s), w);
    if cmd == STOP {
      UntouchedHeeds(s, AnswerStop(s), w);
    } else if cmd == PAUSE {
      UntouchedHeeds(s, AnswerPause(s), w);
    }
    InitHeeds(s, w);
  }

  lemma RaisingIsUntouched(s: State, cause: Byte)
    ensures Untouched(s, Raise(s, cause)) && Raise(s, cause).io.params == s.io.params
  {
  }

  lemma CommandsHeed(disc: Disc, s: State, w: Wishes, cmd: Byte)
    requires Heeds(s, w)
    ensures Heeds(AnswerCommand(disc, s, cmd),
                  AfterCommand(w, Command(cmd, s.io.params), s.drive.Playing?, InitOwed(s.ev, s.now)))
  {
    if MovesDrive(cmd) {
      hide AnswerMove, AfterCommand, Heeds, OnlyAnswers;
      MovesHeed(disc, s, w, cmd);
      MovesAreNoQueries(cmd);
    } else if cmd == SETLOC || cmd == SETMODE || cmd == SETFILTER {
      hide AnswerSetloc, AnswerSetmode, Heeds, Raise, Param;
      SetlocHeeds(s, w);
      SetmodeHeeds(s, w);
    } else {
      QueriesHeed(disc, s, w, cmd);
    }
  }

  lemma MovesAreNoQueries(cmd: Byte)
    requires MovesDrive(cmd)
    ensures !OnlyAnswers(cmd)
  {
  }

  lemma QueriesHeed(disc: Disc, s: State, w: Wishes, cmd: Byte)
    requires Heeds(s, w) && !MovesDrive(cmd) && cmd != SETLOC && cmd != SETMODE && cmd != SETFILTER
    ensures Heeds(AnswerCommand(disc, s, cmd), w)
    ensures AfterCommand(w, Command(cmd, s.io.params), s.drive.Playing?, InitOwed(s.ev, s.now)) == w
  {
    hide AnswerTwice, Raise, AnswerGetlocL, AnswerGetTd, InitOwed, Untouched, Heeds, Param, Named;
    AnswersAreUntouched(disc, s, MOTORON, SPINUP_DELAY, true, INT_ACK);
    AnswersAreUntouched(disc, s, READT, ACK_DELAY, s.motorOn, INT_ACK);
    AnswersAreUntouched(disc, s, GETID, ID_READ_DELAY, s.motorOn, INT_ERROR);
    AnswersAreUntouched(disc, s, READTOC, READTOC_DELAY, s.motorOn, INT_ACK);
    AnswersAreUntouched(disc, s, RESET, ACK_DELAY, disc.present, INT_ACK);
    AnswersAreUntouched(disc, s, TEST, ACK_DELAY, s.motorOn || Param(s, 0) == 0x04, INT_ACK);
    assert s.(motorOn := s.motorOn) == s;
    assert Untouched(s, AnswerCommand(disc, s, cmd));
    hide AnswerCommand;
    UntouchedHeeds(s, AnswerCommand(disc, s, cmd), w);
  }

  lemma CommandTickHeeds(disc: Disc, s: State, w: Wishes)
    requires Heeds(s, w)
    ensures var t := CommandTick(disc, s);
            if s.io.flag == INT_NONE && s.ev.pending != NONE && (disc.present || !NeedsDisc(s.ev.pending))
            then Heeds(t, AfterCommand(w, Command(s.ev.pending, s.ev.pendingParams), s.drive.Playing?,
                                       InitOwed(s.ev, s.now)))
            else Heeds(t, w)
  {
    hide AnswerCommand, Rearmed, NeedsDisc, AfterCommand, ModeOf;
    var t := s.(ev := s.ev.(command := s.ev.command.(armed := false), cmdGuard := false));
    if s.io.flag == INT_NONE && s.ev.pending != NONE {
      var u := SetParams(t.(ev := t.ev.(pending := NONE)), s.ev.pendingParams);
      assert Untouched(s, u) && InitOwed(u.ev, u.now) == InitOwed(s.ev, s.now);
      hide InitOwed;
      UntouchedHeeds(s, u, w);
      CommandsHeed(disc, u, w, s.ev.pending);
    }
  }

  lemma ExecutionHeeds(disc: Disc, s: State, w: Wishes)
    requires Heeds(s, w)
    ensures Heeds(ExecuteSecond(disc, s), if s.ev.second == INIT then w.(mode := 0) else w)
  {
    hide Bit;
    NoBits();
  }

  lemma SecondTickHeeds(disc: Disc, s: State, w: Wishes)
    requires Heeds(s, w)
    ensures Heeds(SecondTick(disc, s), if s.io.flag == INT_NONE && s.ev.second == INIT then w.(mode := 0) else w)
  {
    hide ExecuteSecond, Rearmed, ModeOf;
    var t := s.(ev := s.ev.(answer := s.ev.answer.(armed := false), secondGuard := false));
    UntouchedHeeds(s, t, w);
    ExecutionHeeds(disc, t, w);
  }

  lemma HandlingIsUntouched(disc: Disc, s: State, raw: SectorCodes.Sector, route: Route)
    ensures Untouched(s, Handle(disc, s, raw, route))
    ensures Untouched(s, Raise(Handle(disc, s, raw, route).(headerValid := true), INT_DATA_READY))
  {
    hide QAt, NextLba, Scheduled, AsyncReader.AfterQueue;
  }

  lemma ReadIsUntouched(disc: Disc, s: State, intPending: bool, between: seq<AsyncReader.Action>)
    ensures Untouched(s, ReadSector(disc, s, intPending, between))
  {
    hide Between, RouteOf, IsCdda, Handle, Scheduled;
    hide AsyncReader.AfterPoll, AsyncReader.AfterUnpoll, AsyncReader.Answer;
    var a := AsyncReader.Answer(s.reader, s.head.current);
    if a.Ready? {
      var route := RouteOf(a.sector, IsCdda(disc, s.head.current), s.mode);
      HandlingIsUntouched(disc, Polled(disc, s, between), a.sector, route);
    }
  }

  lemma PlayOnIsUntouched(s: State, q: SubQ, raw: SectorCodes.Sector)
    ensures Untouched(s, PlayOn(s, q, raw))
  {
    hide ReportDue, Scheduled, AsyncReader.AfterQueue;
  }

  lemma PlayIsUntouched(disc: Disc, s: State, between: seq<AsyncReader.Action>)
    ensures Untouched(s, PlaySector(disc, s, between))
  {
    hide Between, QAt, Before, PlayOn, Scheduled, AsyncReader.AfterPoll, AsyncReader.Answer;
    var a := AsyncReader.Answer(s.reader, s.head.current);
    if a.Ready? {
      PlayOnIsUntouched(Polled(disc, s, between), QAt(disc, s.lastQ, s.head.current), a.sector);
    }
  }

  lemma DriveTickIsUntouched(disc: Disc, s: State, between: seq<AsyncReader.Action>)
    ensures Untouched(s, DriveTick(disc, s, between))
  {
    hide ReadSector, PlaySector, Scheduled;
    var t := s.(ev := s.ev.(drive := s.ev.drive.(armed := false)));
    ReadIsUntouched(disc, t, s.io.flag != INT_NONE, between);
    PlayIsUntouched(disc, t, between);
  }

  lemma WriteIsUntouched(s: State, offset: nat, value: Byte)
    ensures Untouched(s, Write(s, offset, value))
  {
    hide Cleared, Bit, RearmedIf, ScheduledOnce, AckDelay;
  }

  lemma StepHeeds(disc: Disc, s: State, w: Wishes, i: Input)
    requires Heeds(s, w)
    ensures Heeds(Step(disc, s, i), AfterInput(disc, w, s, i))
  {
    hide CommandTick, SecondTick, DriveTick, Write, Between, AfterCommand, InitOwed, NeedsDisc, Heeds, Untouched;
    CommandTickHeeds(disc, s, w);
    SecondTickHeeds(disc, s, w);
    match i
    case GuestWrite(offset, value) =>
      WriteIsUntouched(s, offset, value);
      UntouchedHeeds(s, Write(s, offset, value), w);
    case DriveEvent(between) =>
      DriveTickIsUntouched(disc, s, between);
      UntouchedHeeds(s, DriveTick(disc, s, between), w);
    case Elapse(cycles) =>
      ClockIsUntouched(s, cycles, s.reader);
      UntouchedHeeds(s, s.(now := s.now + cycles), w);
    case ReaderStep(action) =>
      ClockIsUntouched(s, 0, Between(disc, s.reader, [action]));
      UntouchedHeeds(s, s.(reader := Between(disc, s.reader, [action])), w);
    case _ =>
  }

  lemma ClockIsUntouched(s: State, cycles: nat, reader: AsyncReader.State)
    ensures Untouched(s, s.(now := s.now + cycles)) && Untouched(s, s.(reader := reader))
  {
  }

  lemma {:induction false} RunsHeed(disc: Disc, run: seq<Input>)
    ensures Heeds(Run(disc, run), Wished(disc, run))
  {
    hide Step, AfterInput, Heeds;
    if run == [] {
      FirstHeeds(disc);
    } else {
      RunsHeed(disc, run[..|run| - 1]);
      StepHeeds(disc, Run(disc, run[..|run| - 1]), Wished(disc, run[..|run| - 1]), run[|run| - 1]);
    }
  }

  lemma FirstHeeds(disc: Disc)
    ensures Heeds(Initial(disc), NO_WISHES)
  {
    NoBits();
  }
}
