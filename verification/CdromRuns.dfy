/** The CD-ROM controller's promises over whole runs: whatever is owed keeps its event armed, interrupts
    are not overwritten or early, and sectors are handled one by one in disc order. */
module CdromRuns {
  import opened CdromModel
  import opened CdromSafety
  import opened Words
  import opened Wrappers
  import AsyncReader

  lemma {:induction false} RunsAreSteady(disc: Disc, run: seq<Input>)
    ensures Woken(Run(disc, run)) && Steady(disc, Run(disc, run))
  {
    if run != [] {
      RunsAreSteady(disc, run[..|run| - 1]);
      StepKeeps(disc, Run(disc, run[..|run| - 1]), run[|run| - 1]);
    }
  }

  lemma StepKeeps(disc: Disc, s: State, i: Input)
    requires Woken(s) && Steady(disc, s)
    ensures Woken(Step(disc, s, i)) && Steady(disc, Step(disc, s, i))
  {
    hide CommandTick, SecondTick, DriveTick, Write, InOrder, Between, AsyncReader.Sound;
    match i
    case GuestWrite(offset, value) => WriteKeeps(disc, s, offset, value);
    case Elapse(cycles) =>
    case CommandEvent => CommandTickKeeps(disc, s);
    case SecondEvent => SecondTickKeeps(disc, s);
    case DriveEvent(between) => if Due(s.ev.drive, s.now) { DriveTickKeeps(disc, s, between); }
    case ReaderStep(action) => BetweenIsSound(disc, s.reader, [action]);
  }

  // ---- Wake-ups ----

  /** No armed event is lost while something waits for it: whatever the guest writes and whenever events
      and reads happen, a pending command, an owed second response and a playing drive each have their event
      armed, and a reading drive has its event armed unless an unacknowledged interrupt will re-arm it. What
      is owed can still be replaced: CdromDrive says exactly when a waiting drive loses its response. */
  lemma {:induction false} NoLostWakeUp(disc: Disc, run: seq<Input>)
    ensures var s := Run(disc, run);
            && (s.ev.pending != NONE ==> s.ev.command.armed)
            && (s.ev.second != NONE ==> s.ev.answer.armed)
            && (s.drive.Playing? ==> s.ev.drive.armed)
            && (s.drive.Reading? ==> s.ev.drive.armed || s.io.flag != INT_NONE)
  {
    RunsAreSteady(disc, run);
  }

  /** The acknowledge that clears the flag leaves everything that is owed armed again. */
  lemma {:induction false} AcknowledgeWakesAll(disc: Disc, run: seq<Input>, value: Byte)
    requires Run(disc, run).io.index == 1 && Cleared(Run(disc, run).io.flag, value) == INT_NONE
    ensures var s := Step(disc, Run(disc, run), GuestWrite(3, value));
            && s.io.flag == INT_NONE
            && (s.ev.pending != NONE ==> s.ev.command.armed)
            && (s.ev.second != NONE ==> s.ev.answer.armed)
            && (s.drive.Reading? || s.drive.Playing? ==> s.ev.drive.armed)
  {
    hide Rearmed, Cleared, Bit;
    RunsAreSteady(disc, run);
    AcknowledgeKeeps(disc, Run(disc, run), value);
  }

  // ---- Sectors ----

  ghost predicate OneRead(log: seq<Entry>, i: nat, j: nat)
    requires i <= j < |log|
  {
    forall k :: i < k <= j ==> log[k].Handled?
  }

  // The address n sectors after lba.
  function SectorsOn(lba: nat, n: nat): nat {
    if n == 0 then lba else (lba + n) % TWO_32
  }

  lemma OneSectorOn(lba: nat, n: nat)
    ensures NextLba(SectorsOn(lba, n)) == SectorsOn(lba, n + 1)
  {
  }

  lemma {:induction false} OrderedLog(disc: Disc, log: seq<Entry>, i: nat, j: nat)
    requires InOrder(disc, log) && i < j < |log| && OneRead(log, i, j)
    ensures OfRead(log[i]) && log[j].lba == SectorsOn(NextOf(log[i]), j - i - 1)
    ensures disc.read(log[j].lba) == Some(log[j].bytes)
    ensures log[i].at + (j - i) * SECTOR_TIME_2X <= log[j].at
  {
    hide SectorsOn, NextLba;
    assert Follows(disc, log[..j], log[j]);
    if i < j - 1 {
      OrderedLog(disc, log, i, j - 1);
      OneSectorOn(NextOf(log[i]), j - i - 2);
    } else {
      assert SectorsOn(NextOf(log[i]), 0) == NextOf(log[i]) by { NoSectorOn(NextOf(log[i])); }
    }
  }

  lemma NoSectorOn(lba: nat)
    ensures SectorsOn(lba, 0) == lba
  {
  }

  /** Between two starts of a read, sectors are handled in strictly consecutive order, each once, with
      the bytes the disc has at its address, and never sooner than a sector period after the one
      before: whatever the guest acknowledges, and however often data is held back. */
  lemma {:induction false} SectorsComeInOrder(disc: Disc, run: seq<Input>, i: nat, j: nat)
    requires i < j < |Run(disc, run).log| && OneRead(Run(disc, run).log, i, j)
    ensures var log := Run(disc, run).log;
            && OfRead(log[i]) && log[j].lba == SectorsOn(NextOf(log[i]), j - i - 1)
            && disc.read(log[j].lba) == Some(log[j].bytes)
            && log[i].at + (j - i) * SECTOR_TIME_2X <= log[j].at
  {
    hide InOrder, Run, OneRead, Woken;
    RunsAreSteady(disc, run);
    OrderedLog(disc, Run(disc, run).log, i, j);
  }

  lemma {:induction false} ReadBegan(disc: Disc, log: seq<Entry>, j: nat) returns (i: nat)
    requires InOrder(disc, log) && j < |log| && log[j].Handled?
    ensures i < j && log[i].Started? && OneRead(log, i, j)
  {
    assert Follows(disc, log[..j], log[j]);
    i := j - 1;
    if log[i].Handled? {
      i := ReadBegan(disc, log, j - 1);
    }
  }

  /** Every sector handled belongs to a read that was started: going back from it, there is nothing but
      handled sectors until the start. */
  lemma {:induction false} ReadsAreStarted(disc: Disc, run: seq<Input>, j: nat)
    requires var log := Run(disc, run).log;
             j < |log| && log[j].Handled?
    ensures var log := Run(disc, run).log;
            exists i :: 0 <= i < j && log[i].Started? && OneRead(log, i, j)
  {
    hide Run, Woken, InOrder, OneRead;
    RunsAreSteady(disc, run);
    var i := ReadBegan(disc, Run(disc, run).log, j);
  }

  lemma {:induction false} IdleReaderRests(disc: Disc, r: AsyncReader.State, steps: seq<AsyncReader.Action>)
    requires !r.busy && !r.hasRequest
    ensures Between(disc, r, steps) == r
  {
    if steps != [] {
      IdleReaderRests(disc, r, steps[..|steps| - 1]);
    }
  }

  /** With an interrupt unacknowledged, a due sector is handled at once unless it is for the CPU. Then
      it stays at the head: nothing is logged and, unless a read is queued or under way, the next poll
      gives the same sector again, however often the reader thread runs during the turn. */
  lemma OnlyDataIsHeld(disc: Disc, run: seq<Input>, between: seq<AsyncReader.Action>)
    requires var s := Run(disc, run);
             && s.drive.Reading? && Due(s.ev.drive, s.now)
             && AsyncReader.Answer(s.reader, s.head.current).Ready?
    ensures var s := Run(disc, run);
            var t := Step(disc, s, DriveEvent(between));
            var raw := AsyncReader.Answer(s.reader, s.head.current).sector;
            var route := RouteOf(raw, IsCdda(disc, s.head.current), s.mode);
            if route.ToCpu? && s.io.flag != INT_NONE then
              && t.log == s.log && t.head == s.head && t.io == s.io
              && (!s.reader.busy && !s.reader.hasRequest ==> t.reader == s.reader)
            else
              t.log == s.log + [Handled(s.head.current, s.now, route, raw)]
  {
    hide Run, RouteOf, IsCdda, NextLba, Between;
    var s := Run(disc, run);
    var polled := AsyncReader.AfterPoll(s.reader, s.head.current);
    if !s.reader.busy && !s.reader.hasRequest {
      IdleReaderRests(disc, polled, between);
      AsyncReader.UnpollUndoesPoll(s.reader, s.head.current);
    }
  }

  // ---- Interrupts ----

  ghost predicate RaisedOrKept(s: State, t: State) {
    if t.io.irqs == s.io.irqs then t.io.flag == s.io.flag else s.io.flag == INT_NONE && Raised(s, t)
  }

  lemma CommandTickRaises(disc: Disc, s: State)
    requires s.head.speedOwed <= SPEED_DOWN_DELAY
    ensures var t := CommandTick(disc, s);
            && RaisedOrKept(s, t)
            && (s.io.flag == INT_NONE && s.ev.pending != NONE ==>
                  t.ev.pending == NONE &&
                  if s.ev.pending == INIT && InitOwed(s.ev, s.now) then t.io.flag == INT_NONE && SameAnswer(s.ev, t.ev)
                  else Raised(s, t))
            && (t.ev.pending != s.ev.pending ==> s.io.flag == INT_NONE)
  {
    hide AnswerCommand, DelayLeft, DrivesOn, NewAnswer;
    var t := s.(ev := s.ev.(command := s.ev.command.(armed := false), cmdGuard := false));
    if s.io.flag == INT_NONE && s.ev.pending != NONE {
      var u := SetParams(t.(ev := t.ev.(pending := NONE)), s.ev.pendingParams);
      CommandsAreAnswered(disc, u, s.ev.pending);
    }
  }

  lemma SecondTickRaises(disc: Disc, s: State)
    requires s.head.speedOwed <= SPEED_DOWN_DELAY && (s.ev.second != NONE ==> Owing(s.ev.second))
    ensures var t := SecondTick(disc, s);
            && RaisedOrKept(s, t)
            && (s.io.flag == INT_NONE && s.ev.second != NONE ==> t.ev.second == NONE && Raised(s, t))
  {
    hide ExecuteSecond, DelayLeft, DrivesOn, NewAnswer;
    var t := s.(ev := s.ev.(answer := s.ev.answer.(armed := false), secondGuard := false));
    if s.io.flag == INT_NONE {
      if s.ev.second != NONE {
        SecondsAreAnswered(disc, t);
      } else {
        NothingOwed(disc, t);
      }
    }
  }

  lemma DriveTickRaises(disc: Disc, s: State, between: seq<AsyncReader.Action>)
    requires AsyncReader.Sound(disc.read, s.reader)
    ensures RaisedOrKept(s, DriveTick(disc, s, between))
  {
    hide ReadSector, PlaySector, Between, AsyncReader.AfterPoll, AsyncReader.Sound;
    var t := s.(ev := s.ev.(drive := s.ev.drive.(armed := false)));
    if s.drive.Reading? {
      ReadSectorTurns(disc, t, between);
    } else if s.drive.Playing? && s.io.flag == INT_NONE {
      PlaySectorTurns(disc, t, between);
    }
  }

  /** No cause is overwritten before the guest has acknowledged it. A step raises an interrupt only from
      a clear flag, and at most one; otherwise it leaves the flag alone, save an acknowledge, which only
      clears the bits it names. */
  lemma {:induction false} InterruptsWaitForAcknowledge(disc: Disc, run: seq<Input>, i: Input)
    ensures var s := Run(disc, run);
            var t := Step(disc, s, i);
            if t.io.irqs != s.io.irqs then s.io.flag == INT_NONE && Raised(s, t) && !i.GuestWrite?
            else t.io.flag == s.io.flag ||
                 (i.GuestWrite? && i.offset == 3 && s.io.index == 1 && t.io.flag == Cleared(s.io.flag, i.value))
  {
    hide CommandTick, SecondTick, DriveTick, InOrder, AtHead, Between, AsyncReader.Sound, Timely, Acknowledge, Cleared,
      WriteCommand;
    RunsAreSteady(disc, run);
    var s := Run(disc, run);
    CommandTickRaises(disc, s);
    SecondTickRaises(disc, s);
    WritingIsSilent(s, if i.GuestWrite? then i.value else 0);
    if i.DriveEvent? {
      DriveTickRaises(disc, s, i.between);
    }
  }

  lemma WritingIsSilent(s: State, value: Byte)
    ensures WriteCommand(s, value).io == s.io
    ensures var t := Acknowledge(s, value);
            t.io.irqs == s.io.irqs && t.io.flag == Cleared(s.io.flag, value)
  {
    hide DelayLeft, Cleared, Bit;
  }

  /** A due command is answered with exactly one interrupt, and leaves the command register free; the
      one exception is an Init repeated while one is owed, which is dropped and changes neither the
      interrupt nor the deadline that is owed. */
  lemma {:induction false} CommandsGetOneAnswer(disc: Disc, run: seq<Input>)
    requires var s := Run(disc, run);
             Due(s.ev.command, s.now) && s.ev.pending != NONE && s.io.flag == INT_NONE
    ensures var s := Run(disc, run);
            var t := Step(disc, s, CommandEvent);
            && t.ev.pending == NONE
            && if s.ev.pending == INIT && InitOwed(s.ev, s.now) then t.io.flag == INT_NONE && SameAnswer(s.ev, t.ev)
               else Raised(s, t)
  {
    hide CommandTick, InOrder, AtHead, AsyncReader.Sound, Timely, InitOwed;
    RunsAreSteady(disc, run);
    CommandTickRaises(disc, Run(disc, run));
  }

  /** An owed second response that comes due is delivered with exactly one interrupt. */
  lemma {:induction false} SecondResponsesGetOneAnswer(disc: Disc, run: seq<Input>)
    requires var s := Run(disc, run);
             Due(s.ev.answer, s.now) && s.ev.second != NONE && s.io.flag == INT_NONE
    ensures var s := Run(disc, run);
            var t := Step(disc, s, SecondEvent);
            t.ev.second == NONE && Raised(s, t)
  {
    hide SecondTick, InOrder, AtHead, AsyncReader.Sound, Timely;
    RunsAreSteady(disc, run);
    SecondTickRaises(disc, Run(disc, run));
  }

  // ---- Deadlines ----

  /** Nothing is delivered before the deadline stored when it was scheduled, however often the event was
      armed again by acknowledges in between. */
  lemma {:induction false} NeverEarly(disc: Disc, run: seq<Input>)
    ensures var s := Run(disc, run);
            && (Due(s.ev.command, s.now) ==> s.ev.command.deadline <= s.now)
            && (Due(s.ev.answer, s.now) ==> s.ev.answer.deadline <= s.now)
            && (Due(s.ev.drive, s.now) ==> s.ev.drive.deadline <= s.now)
  {
    hide InOrder, AtHead, AsyncReader.Sound, Run;
    RunsAreSteady(disc, run);
  }

  /** Arming an event again gives it what is left of its deadline, or the minimum when that is sooner:
      exactly unless the deadline passed between 2^31 and 2^32 - 1000 cycles ago (to the turn of the
      clock), when the difference reads as time to come. */
  lemma RearmedForTheTimeLeft(t: Timer, now: nat)
    requires t.deadline <= now + LONGEST
    ensures var late := (now - t.deadline) % TWO_32;
            var left := if t.deadline > now + MIN_INT_DELAY then t.deadline else now + MIN_INT_DELAY;
            Rearmed(t, now).target == left <==>
              (t.deadline > now || late <= TWO_31 || late >= TWO_32 - MIN_INT_DELAY)
  {
    var late := (now - t.deadline) % TWO_32;
    if t.deadline <= now {
      Negated(now - t.deadline);
    }
  }

  lemma Negated(d: nat)
    ensures (0 - d) % TWO_32 == if d % TWO_32 == 0 then 0 else TWO_32 - d % TWO_32
  {
    var q := d / TWO_32;
    var r := d % TWO_32;
    assert d == q * TWO_32 + r;
    if r != 0 {
      assert 0 - d == (0 - q - 1) * TWO_32 + (TWO_32 - r);
    } else {
      assert 0 - d == (0 - q) * TWO_32;
    }
  }

  lemma CommandTickAnswers(disc: Disc, s: State)
    requires s.head.speedOwed <= SPEED_DOWN_DELAY
    ensures SameAnswer(s.ev, CommandTick(disc, s).ev) || NewAnswer(CommandTick(disc, s).ev, s.now)
  {
    hide AnswerCommand, DelayLeft, DrivesOn, Owing, Fresh;
    var t := s.(ev := s.ev.(command := s.ev.command.(armed := false), cmdGuard := false));
    if s.io.flag == INT_NONE && s.ev.pending != NONE {
      var u := SetParams(t.(ev := t.ev.(pending := NONE)), s.ev.pendingParams);
      CommandsAreAnswered(disc, u, s.ev.pending);
    }
  }

  lemma DriveTickKeepsAnswer(disc: Disc, s: State, between: seq<AsyncReader.Action>)
    requires AsyncReader.Sound(disc.read, s.reader)
    ensures SameAnswer(s.ev, DriveTick(disc, s, between).ev)
  {
    hide ReadSector, PlaySector, Between, AsyncReader.AfterPoll, AsyncReader.Sound;
    var t := s.(ev := s.ev.(drive := s.ev.drive.(armed := false)));
    if s.drive.Reading? {
      ReadSectorTurns(disc, t, between);
    } else if s.drive.Playing? && s.io.flag == INT_NONE {
      PlaySectorTurns(disc, t, between);
    }
  }

  lemma WriteKeepsAnswer(s: State, offset: nat, value: Byte)
    ensures var t := Write(s, offset, value);
            t.ev.second == s.ev.second && t.ev.answer.deadline == s.ev.answer.deadline
  {
    hide Cleared, Bit, DelayLeft, AckDelay;
  }

  /** An owed second response keeps its command and its deadline until it is delivered, unless another
      command replaces it with one of its own. */
  lemma {:induction false} SecondDeadlineHolds(disc: Disc, run: seq<Input>, i: Input)
    requires Step(disc, Run(disc, run), i).ev.second != NONE
    ensures var s := Run(disc, run);
            var t := Step(disc, s, i);
            || (t.ev.second == s.ev.second && t.ev.answer.deadline == s.ev.answer.deadline)
            || (i.CommandEvent? && NewAnswer(t.ev, s.now))
  {
    hide CommandTick, SecondTick, DriveTick, Write, Between, InOrder, AtHead, AsyncReader.Sound, Timely, Owing;
    RunsAreSteady(disc, run);
    var s := Run(disc, run);
    CommandTickAnswers(disc, s);
    SecondTickRaises(disc, s);
    SecondTickRearms(disc, s);
    match i
    case GuestWrite(offset, value) => WriteKeepsAnswer(s, offset, value);
    case DriveEvent(between) => DriveTickKeepsAnswer(disc, s, between);
    case _ =>
  }

  lemma SecondTickRearms(disc: Disc, s: State)
    requires s.head.speedOwed <= SPEED_DOWN_DELAY
    ensures var t := SecondTick(disc, s);
            if s.io.flag != INT_NONE then t.ev.second == s.ev.second && t.ev.answer.deadline == s.ev.answer.deadline
            else s.ev.second == NONE ==> t.ev.second == NONE
  {
    hide ExecuteSecond, DelayLeft;
    var t := s.(ev := s.ev.(answer := s.ev.answer.(armed := false), secondGuard := false));
    if s.io.flag == INT_NONE && s.ev.second == NONE {
      NothingOwed(disc, t);
    }
  }

  // The command register stays taken through the inputs that follow `run`.
  ghost predicate KeepsCommand(disc: Disc, run: seq<Input>, after: seq<Input>) {
    forall n :: 0 <= n <= |after| ==> Run(disc, run + after[..n]).ev.pending != NONE
  }

  lemma StepKeepsDeadline(disc: Disc, s: State, i: Input)
    requires Woken(s) && Steady(disc, s) && s.ev.pending != NONE && Step(disc, s, i).ev.pending != NONE
    ensures var t := Step(disc, s, i);
            t.ev.pending == s.ev.pending && t.ev.command.deadline == s.ev.command.deadline
  {
    hide CommandTick, SecondTick, DriveTick, Between, InOrder, AtHead, AsyncReader.Sound, Write;
    CommandTickWaits(disc, s);
    SecondTickKeepsCommand(disc, s);
    match i
    case GuestWrite(offset, value) => WriteWaits(s, offset, value);
    case DriveEvent(between) => DriveTickKeepsCommand(disc, s, between);
    case _ =>
  }

  lemma CommandTickWaits(disc: Disc, s: State)
    requires s.head.speedOwed <= SPEED_DOWN_DELAY && s.ev.pending != NONE
    ensures var t := CommandTick(disc, s);
            t.ev.pending != NONE ==> t.ev.pending == s.ev.pending && t.ev.command.deadline == s.ev.command.deadline
  {
    hide ExecuteCommand, DelayLeft, InitOwed;
    CommandTickRaises(disc, s);
  }

  lemma WriteWaits(s: State, offset: nat, value: Byte)
    requires s.ev.pending != NONE
    ensures var t := Write(s, offset, value);
            t.ev.pending == s.ev.pending && t.ev.command.deadline == s.ev.command.deadline
  {
    hide Cleared, Bit, DelayLeft, AckDelay;
  }

  lemma SecondTickKeepsCommand(disc: Disc, s: State)
    requires s.head.speedOwed <= SPEED_DOWN_DELAY && (s.ev.second != NONE ==> Owing(s.ev.second))
    ensures SameCommand(s, SecondTick(disc, s))
  {
    hide ExecuteSecond, DelayLeft, DrivesOn;
    var t := s.(ev := s.ev.(answer := s.ev.answer.(armed := false), secondGuard := false));
    if s.io.flag == INT_NONE {
      if s.ev.second != NONE {
        SecondsAreAnswered(disc, t);
      } else {
        NothingOwed(disc, t);
      }
    }
  }

  lemma DriveTickKeepsCommand(disc: Disc, s: State, between: seq<AsyncReader.Action>)
    requires AsyncReader.Sound(disc.read, s.reader)
    ensures SameCommand(s, DriveTick(disc, s, between))
  {
    hide ReadSector, PlaySector, Between, AsyncReader.AfterPoll, AsyncReader.Sound;
    var t := s.(ev := s.ev.(drive := s.ev.drive.(armed := false)));
    if s.drive.Reading? {
      ReadSectorTurns(disc, t, between);
    } else if s.drive.Playing? && s.io.flag == INT_NONE {
      PlaySectorTurns(disc, t, between);
    }
  }

  lemma {:induction false} DeadlineHolds(disc: Disc, run: seq<Input>, after: seq<Input>)
    requires KeepsCommand(disc, run, after)
    ensures var s := Run(disc, run);
            var t := Run(disc, run + after);
            t.ev.pending == s.ev.pending && t.ev.command.deadline == s.ev.command.deadline
  {
    hide Step;
    if after == [] {
      assert run + after == run;
    } else {
      var n := |after| - 1;
      var before := run + after[..n];
      forall m | 0 <= m <= n
        ensures Run(disc, run + after[..n][..m]).ev.pending != NONE
      {
        assert after[..n][..m] == after[..m];
      }
      DeadlineHolds(disc, run, after[..n]);
      assert (run + after)[..|run + after| - 1] == before && after[..|after|] == after;
      assert Run(disc, before).ev.pending != NONE && Run(disc, run + after).ev.pending != NONE;
      RunsAreSteady(disc, before);
      StepKeepsDeadline(disc, Run(disc, before), after[n]);
    }
  }

  /** A command written while no command event is armed runs no sooner than its own acknowledge delay
      after the write, whatever happens in between. */
  lemma {:induction false} CommandsWaitTheirDelay(disc: Disc, run: seq<Input>, cmd: Byte, after: seq<Input>)
    requires var s := Run(disc, run);
             s.io.index == 0 && s.ev.pending == NONE && !s.ev.cmdGuard && cmd != NONE
    requires KeepsCommand(disc, run + [GuestWrite(1, cmd)], after)
    ensures var s := Run(disc, run);
            var t := Run(disc, run + [GuestWrite(1, cmd)] + after);
            Due(t.ev.command, t.now) ==> t.ev.pending == cmd && s.now + AckDelay(s.motorOn, cmd) <= t.now
  {
    hide Steady, Woken, AckDelay;
    var written := run + [GuestWrite(1, cmd)];
    assert written[..|written| - 1] == run;
    DeadlineHolds(disc, written, after);
    NeverEarly(disc, written + after);
  }

  predicate WritesFf(i: Input) {
    i == GuestWrite(1, NONE)
  }

  lemma StepKeepsGuard(disc: Disc, s: State, i: Input)
    requires Woken(s) && Steady(disc, s) && (s.ev.cmdGuard <==> s.ev.pending != NONE) && !WritesFf(i)
    ensures var t := Step(disc, s, i);
            t.ev.cmdGuard <==> t.ev.pending != NONE
  {
    hide SecondTick, DriveTick, Between, InOrder, AtHead, AsyncReader.Sound, CommandTick, Acknowledge, Timely,
      AckDelay, Scheduled;
    CommandTickKeeps(disc, s);
    CommandTickRaises(disc, s);
    SecondTickKeepsCommand(disc, s);
    match i
    case GuestWrite(offset, value) => AcknowledgeKeepsGuard(s, value);
    case DriveEvent(between) => DriveTickKeepsCommand(disc, s, between);
    case CommandEvent => if Due(s.ev.command, s.now) { CommandTickFrees(disc, s); }
    case _ =>
  }

  lemma AcknowledgeKeepsGuard(s: State, value: Byte)
    ensures var t := Acknowledge(s, value);
            && t.ev.pending == s.ev.pending
            && (t.ev.cmdGuard == s.ev.cmdGuard || (s.ev.pending != NONE && t.ev.cmdGuard))
  {
    hide Cleared, Bit, DelayLeft;
  }

  lemma CommandTickFrees(disc: Disc, s: State)
    requires s.head.speedOwed <= SPEED_DOWN_DELAY && s.ev.pending != NONE
    ensures var t := CommandTick(disc, s);
            t.ev.cmdGuard <==> t.ev.pending != NONE
  {
    hide AnswerCommand, DelayLeft, DrivesOn, NewAnswer;
    var t := s.(ev := s.ev.(command := s.ev.command.(armed := false), cmdGuard := false));
    var u := SetParams(t.(ev := t.ev.(pending := NONE)), s.ev.pendingParams);
    CommandsAreAnswered(disc, u, s.ev.pending);
  }

  /** Unless the guest writes FFh as a command, the command event is armed exactly while a command is
      pending: so every accepted command waits its own delay. */
  lemma {:induction false} ArmedWhilePending(disc: Disc, run: seq<Input>)
    requires forall i :: 0 <= i < |run| ==> !WritesFf(run[i])
    ensures var s := Run(disc, run);
            (s.ev.cmdGuard <==> s.ev.pending != NONE) && (s.ev.command.armed <==> s.ev.pending != NONE)
  {
    hide Step;
    RunsAreSteady(disc, run);
    if run != [] {
      ArmedWhilePending(disc, run[..|run| - 1]);
      RunsAreSteady(disc, run[..|run| - 1]);
      StepKeepsGuard(disc, Run(disc, run[..|run| - 1]), run[|run| - 1]);
    }
  }

  lemma OneMoreInput(disc: Disc, run: seq<Input>, i: Input)
    ensures Run(disc, run + [i]) == Step(disc, Run(disc, run), i)
  {
    assert (run + [i])[..|run|] == run;
  }

  /** Writing FFh, which is also how the source marks an empty command register, arms the event with
      nothing pending; a command that follows inherits that deadline and runs 50000 cycles early. */
  lemma FfShortensTheNextDelay(disc: Disc)
    requires disc.present
    ensures var written := [GuestWrite(1, NONE), Elapse(50000)];
            var s := Run(disc, written);
            var t := Run(disc, written + [GuestWrite(1, GETSTAT)] + [Elapse(401)]);
            && s.io.index == 0 && s.ev.pending == NONE && s.ev.cmdGuard
            && Due(t.ev.command, t.now) && t.ev.pending == GETSTAT
            && t.now + 50000 == s.now + AckDelay(s.motorOn, GETSTAT)
  {
    var r0 := [GuestWrite(1, NONE)];
    var r1 := [GuestWrite(1, NONE), Elapse(50000)];
    var r2 := r1 + [GuestWrite(1, GETSTAT)];
    assert [] + [GuestWrite(1, NONE)] == r0 && r0 + [Elapse(50000)] == r1;
    OneMoreInput(disc, [], GuestWrite(1, NONE));
    OneMoreInput(disc, r0, Elapse(50000));
    OneMoreInput(disc, r1, GuestWrite(1, GETSTAT));
    OneMoreInput(disc, r2, Elapse(401));
  }
}
