/** The CD-ROM controller as a state machine: guest register writes, the three scheduled events and
    the background reader's steps, each as one function from state to state. */
module CdromModel {
  import opened SectorCodes
  import opened Words
  import AsyncReader

  // ---- Delays, in CPU cycles ----

  const SECTOR_TIME := 451584
  const SECTOR_TIME_2X := 225792
  const ACK_DELAY := 50401
  const ACK_DELAY_STOPPED := 23796
  const ACK_DELAY_INIT := 81102
  const ID_READ_DELAY := 18944
  const INIT_DELAY := 4100000
  const SEEK_FAST_DELAY := 30000
  const SEEK_DELAY := SECTOR_TIME * 4
  const SEEK_FINE_PER_LBA := 234700
  const SEEK_CHANGE_DELAY := SECTOR_TIME * 30
  const SPINUP_DELAY := SECTOR_TIME * 125 / 2
  const STOP_IDLE_DELAY := 7547
  const STOP_1X_DELAY := 13863114
  const STOP_2X_DELAY := 25845878
  const PAUSE_IDLE_DELAY := 7000
  const PAUSE_1X_DELAY := 2168860
  const PAUSE_2X_DELAY := 1097107
  const SPEED_UP_DELAY := 20321280
  const SPEED_DOWN_DELAY := 23708160
  const READTOC_DELAY := SECTOR_TIME * 180 / 4
  const READ_RETRY_DELAY := SECTOR_TIME / 64
  const MIN_INT_DELAY := 1000

  // ---- Interrupt causes and command codes ----

  const INT_NONE: Byte := 0
  const INT_DATA_READY: Byte := 1
  const INT_COMPLETE: Byte := 2
  const INT_ACK: Byte := 3
  const INT_DATA_END: Byte := 4
  const INT_ERROR: Byte := 5

  const SYNC: Byte := 0x00
  const GETSTAT: Byte := 0x01
  const SETLOC: Byte := 0x02
  const PLAY: Byte := 0x03
  const FORWARD: Byte := 0x04
  const BACKWARD: Byte := 0x05
  const READN: Byte := 0x06
  const MOTORON: Byte := 0x07
  const STOP: Byte := 0x08
  const PAUSE: Byte := 0x09
  const INIT: Byte := 0x0A
  const MUTE: Byte := 0x0B
  const DEMUTE: Byte := 0x0C
  const SETFILTER: Byte := 0x0D
  const SETMODE: Byte := 0x0E
  const GETPARAM: Byte := 0x0F
  const GETLOCL: Byte := 0x10
  const GETLOCP: Byte := 0x11
  const READT: Byte := 0x12
  const GETTN: Byte := 0x13
  const GETTD: Byte := 0x14
  const SEEKL: Byte := 0x15
  const SEEKP: Byte := 0x16
  const TEST: Byte := 0x19
  const GETID: Byte := 0x1A
  const READS: Byte := 0x1B
  const RESET: Byte := 0x1C
  const GETQ: Byte := 0x1D
  const READTOC: Byte := 0x1E
  const NONE: Byte := 0xFF

  // ---- Data ----

  // The part of subchannel Q that the drive's own decisions depend on, in packed BCD.
  datatype SubQ = SubQ(track: Byte, absFf: Byte)

  // What the controller sees of the disc in the tray.
  datatype Disc = Disc(
    present: bool, read: AsyncReader.Disc, lastTrack: nat, startLba: nat -> nat, isCdda: nat -> bool,
    totalSectors: nat, sbiCovers: nat -> bool, subq: nat -> SubQ)

  // One slot of the event queue, and the cycle its event is really due at. The source keeps the low
  // 32 bits of both; only differences below are taken, and those are reduced to 32 bits.
  datatype Timer = Timer(armed: bool, target: nat, deadline: nat)

  datatype Drive = Idle | Seeking | Reading | Playing | Pausing | Stopping

  datatype Route = ToCpu | ToAdpcm | Discarded

  // What the drive did with the disc, oldest first: reads started and sectors handled, plays started,
  // sectors played at a speed and skips backward, ends of seeks, and stops by AutoPause, with the bytes the
  // sectors carried; `at` is the clock.
  datatype Entry =
    | Started(lba: nat, at: nat)
    | Handled(lba: nat, at: nat, route: Route, bytes: Sector)
    | PlayStarted(lba: nat, at: nat)
    | Played(lba: nat, at: nat, speed: nat, bytes: Sector)
    | Skipped(lba: nat, at: nat)
    | Arrived(lba: nat, at: nat)
    | AutoPaused(lba: nat, at: nat)

  // The register side: the index register, the interrupt flag, the parameter FIFO, and how many
  // interrupts were raised.
  datatype Ports = Ports(index: Byte, flag: Byte, params: seq<Byte>, irqs: nat)

  // The command waiting for its first response, the one owing a second, and the three events with the
  // guards the first two carry.
  datatype Events = Events(
    pending: Byte, pendingParams: seq<Byte>, second: Byte, cmdGuard: bool, secondGuard: bool,
    command: Timer, answer: Timer, drive: Timer)

  // The pickup: `current` is the sector to fetch next, `at` the last one transferred.
  datatype Head = Head(
    current: nat, at: nat, target: nat, setloc: nat, setlocPending: bool, seekPhase: bool, speedOwed: nat)

  datatype Mode = Mode(
    double: bool, adpcm: bool, filter: bool, file: Byte, channel: Byte, report: bool, autoPause: bool)

  datatype State = State(
    now: nat, io: Ports, ev: Events, drive: Drive, motorOn: bool, readAfterSeek: bool, playAfterSeek: bool,
    head: Head, cddaSpeed: nat, mode: Mode, headerValid: bool, lastQ: SubQ, reader: AsyncReader.State,
    log: seq<Entry>)

  const UNARMED := Timer(false, 0, 0)

  // cdrom_init, then a disc put in the tray when there is one.
  function Initial(disc: Disc): State {
    State(0, Ports(0, INT_NONE, [], 0), Events(NONE, [], NONE, false, false, UNARMED, UNARMED, UNARMED),
          Idle, disc.present, false, false, Head(0, 0, 0, 0, false, false, 0), 0,
          Mode(false, false, false, 0, 0, false, false), false,
          if disc.present then disc.subq(0) else SubQ(0, 0), AsyncReader.INITIAL, [])
  }

  // ---- Timers ----

  function DelayLeft(deadline: nat, now: nat): nat {
    var left := Signed32(deadline - now);
    if left > MIN_INT_DELAY then left else MIN_INT_DELAY
  }

  function Scheduled(now: nat, cycles: nat): Timer {
    Timer(true, now + cycles, now + cycles)
  }

  function Rearmed(t: Timer, now: nat): Timer {
    t.(armed := true, target := now + DelayLeft(t.deadline, now))
  }

  function RearmedIf(owed: bool, t: Timer, now: nat): Timer {
    if owed then Rearmed(t, now) else t
  }

  function RearmCommand(s: State): State {
    s.(ev := s.ev.(cmdGuard := true, command := Rearmed(s.ev.command, s.now)))
  }

  function RearmSecond(s: State): State {
    s.(ev := s.ev.(secondGuard := true, answer := Rearmed(s.ev.answer, s.now)))
  }

  function ScheduledOnce(guard: bool, t: Timer, now: nat, cycles: nat): Timer {
    if guard then t else Scheduled(now, cycles)
  }

  function ScheduleCommand(s: State, cycles: nat): State {
    s.(ev := s.ev.(cmdGuard := true, command := ScheduledOnce(s.ev.cmdGuard, s.ev.command, s.now, cycles)))
  }

  function ScheduleSecond(s: State, cmd: Byte, cycles: nat): State {
    s.(ev := s.ev.(second := cmd, secondGuard := true, answer := Scheduled(s.now, cycles)))
  }

  function ScheduleDrive(s: State, cycles: nat): State {
    s.(ev := s.ev.(drive := Scheduled(s.now, cycles)))
  }

  // ---- Interrupts ----

  function Raise(s: State, cause: Byte): State {
    s.(io := s.io.(flag := cause, irqs := s.io.irqs + 1))
  }

  // ---- Starting a read, a play or a seek ----

  function NextLba(lba: nat): nat {
    (lba + 1) % TWO_32
  }

  function SeekTicks(from: nat, to: nat): (ticks: nat)
    ensures ticks <= SEEK_DELAY + SECTOR_TIME * 60
  {
    if from == to then SEEK_FAST_DELAY
    else
      var dist := if from > to then from - to else to - from;
      var fine := dist * SEEK_FINE_PER_LBA;
      var extra := dist * SECTOR_TIME % TWO_32 / 1000;
      var cap := SECTOR_TIME * 60;
      var coarse := SEEK_DELAY + if extra < cap then extra else cap;
      if fine < coarse then fine else coarse
  }

  function Period(m: Mode): nat {
    if m.double then SECTOR_TIME_2X else SECTOR_TIME
  }

  function ReadTarget(s: State): nat {
    if s.head.setlocPending then s.head.setloc
    else if s.drive.Idle? || s.drive.Pausing? then s.head.at
    else s.head.current
  }

  predicate ReadMoves(h: Head) {
    h.setlocPending && h.setloc != h.current
  }

  function ReadDelay(s: State, lba: nat): nat {
    Period(s.mode) + (if ReadMoves(s.head) then SeekTicks(s.head.at, lba) else 0) + s.head.speedOwed
  }

  function BeginReading(s: State): State {
    var lba := ReadTarget(s);
    ScheduleDrive(
      s.(head := s.head.(current := lba, setlocPending := false, speedOwed := 0,
                         seekPhase := s.head.seekPhase || ReadMoves(s.head) || !s.drive.Reading?),
         drive := Reading, reader := AsyncReader.AfterQueue(s.reader, lba), log := s.log + [Started(lba, s.now)]),
      ReadDelay(s, lba))
  }

  function PlayTarget(disc: Disc, s: State, track: Byte): nat {
    if track != 0 && disc.lastTrack > 0 then disc.startLba(if track > disc.lastTrack then disc.lastTrack else track)
    else if s.head.setlocPending then s.head.setloc
    else s.head.current
  }

  function PlayDelay(s: State, lba: nat): nat {
    (if lba != s.head.current then SEEK_CHANGE_DELAY else Period(s.mode)) + s.head.speedOwed
  }

  function BeginPlaying(disc: Disc, s: State, track: Byte): State {
    var lba := PlayTarget(disc, s, track);
    ScheduleDrive(
      s.(head := s.head.(current := lba, setlocPending := false, speedOwed := 0,
                         seekPhase := s.head.seekPhase || lba != s.head.current || !s.drive.Playing?),
         drive := Playing, cddaSpeed := 1, reader := AsyncReader.AfterQueue(s.reader, lba),
         log := s.log + [PlayStarted(lba, s.now)]),
      PlayDelay(s, lba))
  }

  function SeekTarget(h: Head): nat {
    if h.setlocPending then h.setloc else h.target
  }

  function SeekDelay(h: Head, target: nat): nat {
    (if target == h.at then SEEK_FAST_DELAY else SeekTicks(h.at, target)) + h.speedOwed
  }

  function BeginSeeking(s: State, cmd: Byte, readAfter: bool, playAfter: bool): State {
    var target := SeekTarget(s.head);
    ScheduleSecond(
      s.(readAfterSeek := readAfter, playAfterSeek := playAfter, drive := Seeking,
         head := s.head.(target := target, setlocPending := false, seekPhase := true, speedOwed := 0)),
      cmd, SeekDelay(s.head, target))
  }

  // ---- First responses ----

  function Param(s: State, i: nat): Byte {
    if i < |s.io.params| then s.io.params[i] else 0
  }

  predicate IsBcd(v: Byte) {
    v % 16 <= 9 && v / 16 <= 9
  }

  // Whether v has the bit of weight w set.
  predicate Bit(v: Byte, w: nat)
    requires w > 0
  {
    v / w % 2 == 1
  }

  predicate ValidMsf(mm: Byte, ss: Byte, ff: Byte) {
    IsBcd(mm) && IsBcd(ss) && IsBcd(ff) && ss < 0x60 && ff < 0x75
  }

  predicate NeedsDisc(cmd: Byte) {
    cmd == SETLOC || cmd == PLAY || cmd == READN || cmd == READS || cmd == SEEKL || cmd == SEEKP
  }

  // Commands that only answer.
  predicate OnlyAnswers(cmd: Byte) {
    cmd == GETSTAT || cmd == MUTE || cmd == DEMUTE || cmd == GETPARAM || cmd == GETLOCP || cmd == GETTN || cmd == GETQ
  }

  function AnswerSetloc(s: State): State {
    if !ValidMsf(Param(s, 0), Param(s, 1), Param(s, 2)) then Raise(s, INT_ERROR)
    else
      var frames := (FromBcd(Param(s, 0)) * 60 + FromBcd(Param(s, 1))) * 75 + FromBcd(Param(s, 2));
      Raise(s.(head := s.head.(setloc := (frames - 150) % TWO_32, setlocPending := true)), INT_ACK)
  }

  function Faster(speed: nat): nat {
    if speed < 4 then speed * 2 else 4
  }

  function AnswerForward(s: State): State {
    if s.drive.Playing? then Raise(s.(cddaSpeed := Faster(s.cddaSpeed)), INT_ACK) else Raise(s, INT_ACK)
  }

  function Rewound(lba: nat): nat {
    if lba > 4 then lba - 4 else 0
  }

  function AnswerBackward(s: State): State {
    if !s.drive.Playing? then Raise(s, INT_ACK)
    else
      var lba := Rewound(s.head.current);
      Raise(s.(head := s.head.(current := lba), reader := AsyncReader.AfterQueue(s.reader, lba),
               log := s.log + [Skipped(lba, s.now)]),
            INT_ACK)
  }

  function StopDelay(motorOn: bool, drive: Drive, double: bool): nat {
    if !motorOn || drive.Idle? then STOP_IDLE_DELAY else if double then STOP_2X_DELAY else STOP_1X_DELAY
  }

  function AnswerStop(s: State): State {
    ScheduleSecond(Raise(s.(drive := Stopping), INT_ACK), STOP, StopDelay(s.motorOn, s.drive, s.mode.double))
  }

  function PauseDelay(drive: Drive, double: bool): nat {
    if drive.Idle? then PAUSE_IDLE_DELAY else if double then PAUSE_2X_DELAY else PAUSE_1X_DELAY
  }

  function Paused(drive: Drive): Drive {
    if drive.Reading? || drive.Playing? then Pausing else drive
  }

  function BeginPause(s: State): State {
    ScheduleSecond(Raise(s.(drive := Paused(s.drive)), INT_ACK), PAUSE, PauseDelay(s.drive, s.mode.double))
  }

  function AnswerPause(s: State): State {
    if s.head.seekPhase then Raise(s, INT_ERROR) else BeginPause(s)
  }

  // An Init whose second response is still to come.
  predicate InitOwed(e: Events, now: nat) {
    e.secondGuard && e.second == INIT && Signed32(e.answer.deadline - now) > 0
  }

  function StandardMode(m: Mode): Mode {
    m.(double := false, adpcm := false, filter := false, report := false, autoPause := false)
  }

  predicate Active(drive: Drive) {
    drive.Reading? || drive.Playing? || drive.Seeking?
  }

  function Parked(drive: Drive): Drive {
    if Active(drive) then Idle else drive
  }

  // The source also adds the cost of a speed change here, but has cleared the speed by then.
  function InitDelay(at: nat): nat {
    INIT_DELAY + if at != 0 then SeekTicks(at, 0) else 0
  }

  // Everything stopped, in the standard mode.
  function Standby(s: State): State {
    s.(mode := StandardMode(s.mode), drive := Parked(s.drive),
       head := s.head.(seekPhase := s.head.seekPhase && !Active(s.drive)),
       readAfterSeek := false, playAfterSeek := false, motorOn := true)
  }

  function BeginInit(s: State): State {
    ScheduleSecond(Raise(Standby(s), INT_ACK), INIT, InitDelay(s.head.at))
  }

  function AnswerInit(s: State): State {
    if InitOwed(s.ev, s.now) then s else BeginInit(s)
  }

  function SpeedOwed(was: bool, double: bool, owed: nat): nat {
    if double == was then owed else if double then SPEED_UP_DELAY else SPEED_DOWN_DELAY
  }

  function AnswerSetmode(s: State): State {
    var m := Param(s, 0);
    var double := Bit(m, 0x80);
    Raise(s.(head := s.head.(speedOwed := SpeedOwed(s.mode.double, double, s.head.speedOwed)),
             mode := s.mode.(double := double, adpcm := Bit(m, 0x40), filter := Bit(m, 0x08),
                             report := Bit(m, 0x04), autoPause := Bit(m, 0x02))),
          INT_ACK)
  }

  predicate IsCdda(disc: Disc, lba: nat) {
    disc.present && disc.isCdda(lba)
  }

  function AnswerGetlocL(disc: Disc, s: State): State {
    if s.head.seekPhase || IsCdda(disc, s.head.at) || !s.headerValid || !s.motorOn
    then Raise(s, INT_ERROR)
    else Raise(s, INT_ACK)
  }

  function AnswerGetTd(disc: Disc, s: State): State {
    var track := Param(s, 0);
    if !IsBcd(track) || FromBcd(track) > disc.lastTrack then Raise(s, INT_ERROR) else Raise(s, INT_ACK)
  }

  // An acknowledge with a second response to follow.
  function AnswerTwice(s: State, cmd: Byte, cycles: nat): State {
    ScheduleSecond(Raise(s, INT_ACK), cmd, cycles)
  }

  predicate MovesDrive(cmd: Byte) {
    cmd == PLAY || cmd == FORWARD || cmd == BACKWARD || cmd == READN || cmd == READS || cmd == STOP || cmd == PAUSE ||
    cmd == INIT || cmd == SEEKL || cmd == SEEKP
  }

  function AnswerMove(disc: Disc, s: State, cmd: Byte): State
    requires MovesDrive(cmd)
  {
    if cmd == PLAY then BeginPlaying(disc, Raise(s, INT_ACK), Param(s, 0))
    else if cmd == FORWARD then AnswerForward(s)
    else if cmd == BACKWARD then AnswerBackward(s)
    else if cmd == STOP then AnswerStop(s)
    else if cmd == PAUSE then AnswerPause(s)
    else if cmd == INIT then AnswerInit(s)
    else if cmd == SEEKL || cmd == SEEKP then BeginSeeking(Raise(s, INT_ACK), cmd, false, false)
    else BeginReading(Raise(s, INT_ACK))
  }

  function AnswerCommand(disc: Disc, s: State, cmd: Byte): State {
    if OnlyAnswers(cmd) then Raise(s, INT_ACK)
    else if MovesDrive(cmd) then AnswerMove(disc, s, cmd)
    else if cmd == SETLOC then AnswerSetloc(s)
    else if cmd == MOTORON then AnswerTwice(s.(motorOn := true), cmd, SPINUP_DELAY)
    else if cmd == SETFILTER then
      Raise(s.(mode := s.mode.(file := Param(s, 0), channel := Param(s, 1))), INT_ACK)
    else if cmd == SETMODE then AnswerSetmode(s)
    else if cmd == GETLOCL then AnswerGetlocL(disc, s)
    else if cmd == READT then AnswerTwice(s, cmd, ACK_DELAY)
    else if cmd == GETTD then AnswerGetTd(disc, s)
    else if cmd == TEST then Raise(s.(motorOn := s.motorOn || Param(s, 0) == 0x04), INT_ACK)
    else if cmd == GETID then AnswerTwice(s, cmd, ID_READ_DELAY)
    else if cmd == RESET then Raise(s.(drive := Idle, motorOn := disc.present), INT_ACK)
    else if cmd == READTOC then AnswerTwice(s, cmd, READTOC_DELAY)
    else Raise(s, INT_ERROR)
  }

  function SetParams(s: State, params: seq<Byte>): State {
    s.(io := s.io.(params := params))
  }

  // The refusal for want of a disc returns before the parameters are dropped.
  function ExecuteCommand(disc: Disc, s: State): State {
    var t := SetParams(s.(ev := s.ev.(pending := NONE)), s.ev.pendingParams);
    if !disc.present && NeedsDisc(s.ev.pending) then Raise(t, INT_ERROR)
    else SetParams(AnswerCommand(disc, t, s.ev.pending), [])
  }

  // ---- Second responses ----

  // The head has arrived where it was sent.
  function Arrive(disc: Disc, s: State): State {
    var lba := s.head.target;
    Raise(s.(head := s.head.(current := lba, at := lba, seekPhase := false), drive := Idle, lastQ := disc.subq(lba),
             log := s.log + [Arrived(lba, s.now)]),
          INT_COMPLETE)
  }

  function CompleteSeek(disc: Disc, s: State): State {
    if s.readAfterSeek then BeginReading(Arrive(disc, s).(readAfterSeek := false))
    else if s.playAfterSeek then BeginPlaying(disc, Arrive(disc, s).(playAfterSeek := false), 0)
    else Arrive(disc, s)
  }

  // The drive at rest, its seek over.
  function Rest(s: State): State {
    s.(drive := Idle, head := s.head.(seekPhase := false))
  }

  function ExecuteSecond(disc: Disc, s: State): State {
    var cmd := s.ev.second;
    var t := s.(ev := s.ev.(second := NONE));
    if cmd == GETID then Raise(t, if disc.present then INT_COMPLETE else INT_ERROR)
    else if cmd == INIT then Raise(Rest(t.(mode := StandardMode(t.mode), motorOn := disc.present)), INT_COMPLETE)
    else if cmd == STOP then Raise(Rest(t.(motorOn := false)), INT_COMPLETE)
    else if cmd == PAUSE then Raise(Rest(t), INT_COMPLETE)
    else if cmd == SEEKL || cmd == SEEKP then CompleteSeek(disc, t)
    else if cmd == MOTORON || cmd == READT || cmd == READTOC then Raise(t, INT_COMPLETE)
    else t
  }

  // ---- The drive ----

  function RouteOf(raw: Sector, cdda: bool, m: Mode): Route {
    var audio := !cdda && raw[15] == 2 && raw[18] & 0x44 == 0x44;
    var selected := raw[16] as int == m.file && raw[17] as int == m.channel;
    if audio && m.adpcm && (!m.filter || selected) then ToAdpcm
    else if audio && m.filter then Discarded
    else ToCpu
  }

  // A sector with patched subchannel data leaves the last Q standing.
  function QAt(disc: Disc, last: SubQ, lba: nat): SubQ {
    if disc.sbiCovers(lba) then last else disc.subq(lba)
  }

  // The sector read leaves the head: it is logged, the drive moves on and asks for the next one.
  function Handle(disc: Disc, s: State, raw: Sector, route: Route): State {
    var lba := s.head.current;
    ScheduleDrive(
      s.(head := s.head.(seekPhase := false, at := lba, current := NextLba(lba)),
         lastQ := QAt(disc, s.lastQ, lba),
         reader := AsyncReader.AfterQueue(s.reader, NextLba(lba)),
         log := s.log + [Handled(lba, s.now, route, raw)]),
      Period(s.mode))
  }

  // Between two critical sections of the emulation thread the reader thread may run.
  function Between(disc: Disc, r: AsyncReader.State, steps: seq<AsyncReader.Action>): AsyncReader.State {
    if steps == [] then r
    else
      var before := Between(disc, r, steps[..|steps| - 1]);
      var a := steps[|steps| - 1];
      if a.Take? || a.Publish? then AsyncReader.Step(disc.read, before, a) else before
  }

  function ReadSector(disc: Disc, s: State, intPending: bool, between: seq<AsyncReader.Action>): State {
    var lba := s.head.current;
    var t := s.(reader := Between(disc, AsyncReader.AfterPoll(s.reader, lba), between));
    match AsyncReader.Answer(s.reader, lba)
    case Pending => ScheduleDrive(t, READ_RETRY_DELAY)
    case Failed => if intPending then t else Raise(t.(drive := Idle), INT_ERROR)
    case Ready(raw) =>
      var route := RouteOf(raw, IsCdda(disc, lba), s.mode);
      if route.ToCpu? && intPending then t.(reader := AsyncReader.AfterUnpoll(t.reader, lba))
      else if route.ToCpu? then Raise(Handle(disc, t, raw, route).(headerValid := true), INT_DATA_READY)
      else Handle(disc, t, raw, route)
  }

  // Reports are sent on every tenth frame.
  predicate ReportDue(q: SubQ) {
    q.absFf == 0x00 || q.absFf == 0x20 || q.absFf == 0x40 || q.absFf == 0x60 ||
    q.absFf == 0x10 || q.absFf == 0x30 || q.absFf == 0x50 || q.absFf == 0x70
  }

  function Before(lba: nat): nat {
    if lba > 0 then lba - 1 else 0
  }

  // The sector is played, and the drive moves on by the play speed.
  function PlayOn(s: State, q: SubQ, raw: Sector): State {
    var lba := s.head.current;
    var next := (lba + s.cddaSpeed) % TWO_32;
    var t := ScheduleDrive(
      s.(lastQ := q, head := s.head.(seekPhase := false, at := lba, current := next),
         reader := AsyncReader.AfterQueue(s.reader, next), log := s.log + [Played(lba, s.now, s.cddaSpeed, raw)]),
      Period(s.mode));
    if s.mode.report && ReportDue(q) then Raise(t, INT_DATA_READY) else t
  }

  function PlaySector(disc: Disc, s: State, between: seq<AsyncReader.Action>): State {
    var lba := s.head.current;
    var t := s.(reader := Between(disc, AsyncReader.AfterPoll(s.reader, lba), between));
    match AsyncReader.Answer(s.reader, lba)
    case Pending => ScheduleDrive(t, READ_RETRY_DELAY)
    case Failed => Rest(t)
    case Ready(raw) =>
      var q := QAt(disc, s.lastQ, lba);
      if lba >= disc.totalSectors then Raise(Rest(t), INT_DATA_END)
      else if s.mode.autoPause && !s.head.seekPhase && q.track != s.lastQ.track then
        var back := Before(lba);
        Raise(t.(drive := Idle, head := s.head.(seekPhase := false, current := back, at := back),
                 log := s.log + [AutoPaused(back, s.now)]),
              INT_DATA_END)
      else PlayOn(t, q, raw)
  }

  // ---- The events ----

  predicate Due(t: Timer, now: nat) {
    t.armed && t.target <= now
  }

  function CommandTick(disc: Disc, s: State): State {
    var t := s.(ev := s.ev.(command := s.ev.command.(armed := false), cmdGuard := false));
    if s.io.flag != INT_NONE then RearmCommand(t)
    else if s.ev.pending == NONE then t
    else ExecuteCommand(disc, t)
  }

  function SecondTick(disc: Disc, s: State): State {
    var t := s.(ev := s.ev.(answer := s.ev.answer.(armed := false), secondGuard := false));
    if s.io.flag != INT_NONE then RearmSecond(t) else ExecuteSecond(disc, t)
  }

  function DriveTick(disc: Disc, s: State, between: seq<AsyncReader.Action>): State {
    var t := s.(ev := s.ev.(drive := s.ev.drive.(armed := false)));
    if s.drive.Reading? then ReadSector(disc, t, s.io.flag != INT_NONE, between)
    else if !s.drive.Playing? then t
    else if s.io.flag != INT_NONE then ScheduleDrive(t, MIN_INT_DELAY)
    else PlaySector(disc, t, between)
  }

  // ---- Register writes ----

  function AckDelay(motorOn: bool, cmd: Byte): nat {
    if cmd == INIT || cmd == READTOC then ACK_DELAY_INIT
    else if !motorOn then ACK_DELAY_STOPPED
    else ACK_DELAY
  }

  function WriteCommand(s: State, cmd: Byte): State {
    if s.ev.pending != NONE then s
    else
      ScheduleCommand(s.(ev := s.ev.(pending := cmd, pendingParams := s.io.params)), AckDelay(s.motorOn, cmd))
  }

  function PushParam(s: State, v: Byte): State {
    if |s.io.params| < 16 then SetParams(s, s.io.params + [v]) else s
  }

  function Kept(flag: Byte, value: Byte, w: nat): nat
    requires w > 0
  {
    if Bit(flag, w) && !Bit(value, w) then w else 0
  }

  // The flag with the low five bits that are set in value cleared.
  function Cleared(flag: Byte, value: Byte): Byte {
    flag / 32 * 32 + Kept(flag, value, 16) + Kept(flag, value, 8) + Kept(flag, value, 4) + Kept(flag, value, 2)
    + Kept(flag, value, 1)
  }

  // What the last acknowledge does: every event that is owed is armed again.
  function Rearm(s: State): State {
    var ev := s.ev;
    s.(ev := ev.(
      secondGuard := ev.secondGuard || ev.second != NONE,
      answer := RearmedIf(ev.second != NONE, ev.answer, s.now),
      drive := RearmedIf(s.drive.Reading?, ev.drive, s.now),
      cmdGuard := ev.cmdGuard || ev.pending != NONE,
      command := RearmedIf(ev.pending != NONE, ev.command, s.now)))
  }

  function Acknowledge(s: State, value: Byte): State {
    var flag := Cleared(s.io.flag, value);
    var t := s.(io := s.io.(flag := flag, params := if Bit(value, 0x40) then [] else s.io.params));
    if flag == INT_NONE then Rearm(t) else t
  }

  function Write(s: State, offset: nat, value: Byte): State {
    if offset == 0 then s.(io := s.io.(index := value % 4))
    else if offset == 1 && s.io.index == 0 then WriteCommand(s, value)
    else if offset == 2 && s.io.index == 0 then PushParam(s, value)
    else if offset == 3 && s.io.index == 1 then Acknowledge(s, value)
    else s
  }

  // ---- Runs ----

  // A tick is dispatched only when its event is due; the reader thread exists once there is a disc.
  datatype Input =
    | GuestWrite(offset: nat, value: Byte)
    | Elapse(cycles: nat)
    | CommandEvent
    | SecondEvent
    | DriveEvent(between: seq<AsyncReader.Action>)
    | ReaderStep(action: AsyncReader.Action)

  function Step(disc: Disc, s: State, i: Input): State {
    match i
    case GuestWrite(offset, value) => Write(s, offset, value)
    case Elapse(cycles) => s.(now := s.now + cycles)
    case CommandEvent => if Due(s.ev.command, s.now) then CommandTick(disc, s) else s
    case SecondEvent => if Due(s.ev.answer, s.now) then SecondTick(disc, s) else s
    case DriveEvent(between) => if Due(s.ev.drive, s.now) then DriveTick(disc, s, between) else s
    case ReaderStep(action) => if disc.present then s.(reader := Between(disc, s.reader, [action])) else s
  }

  function Run(disc: Disc, run: seq<Input>): State {
    if run == [] then Initial(disc) else Step(disc, Run(disc, run[..|run| - 1]), run[|run| - 1])
  }
}
