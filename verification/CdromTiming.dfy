/** How late the CD-ROM controller's events can be, and exactly when a command waits its own delay. */
module CdromTiming {
  import opened CdromModel
  import opened CdromSafety
  import opened CdromRuns
  import opened Words
  import AsyncReader

  // ---- Where a re-armed event is aimed ----

  // An armed event is aimed at most the minimum ahead, or at its deadline to the turn of the clock.
  ghost predicate Aimed(t: Timer, now: nat) {
    t.armed ==>
      || t.target <= now + MIN_INT_DELAY
      || ((t.target - t.deadline) % TWO_32 == 0 && t.target < now + TWO_31)
  }

  lemma SignedIsCongruent(difference: int)
    ensures -TWO_31 <= Signed32(difference) < TWO_31 && (Signed32(difference) - difference) % TWO_32 == 0
  {
    var q := difference / TWO_32;
    assert difference % TWO_32 == difference - q * TWO_32;
    WholeTurn(-q);
    WholeTurn(-q - 1);
  }

  lemma WholeTurn(q: int)
    ensures q * TWO_32 % TWO_32 == 0
  {
  }

  lemma SignedIsUnique(a: int, b: int)
    requires (a - b) % TWO_32 == 0 && -TWO_31 <= a < TWO_31
    ensures Signed32(b) == a
  {
    SignedIsCongruent(b);
    var c := Signed32(b);
    var x, y := (a - b) / TWO_32, (c - b) / TWO_32;
    assert a - b == x * TWO_32 && c - b == y * TWO_32;
  }

  lemma RearmedIsAimed(t: Timer, now: nat)
    ensures Aimed(Rearmed(t, now), now)
  {
    hide Signed32;
    SignedIsCongruent(t.deadline - now);
  }

  lemma FreshIsAimed(t: Timer, now: nat)
    requires Fresh(t, now)
    ensures Aimed(t, now)
  {
  }

  /** Arming an event again never brings it forward. */
  lemma RearmingIsNoSooner(t: Timer, now: nat)
    requires t.armed && Aimed(t, now)
    ensures t.target <= Rearmed(t, now).target
  {
    hide Signed32;
    if now + MIN_INT_DELAY < t.target {
      SignedIsUnique(t.target - now, t.deadline - now);
    }
  }

  // How a step may leave an event: as it was, taken, or armed again.
  ghost predicate Moves(t: Timer, u: Timer, now: nat) {
    !u.armed || u == t || u == Rearmed(t, now)
  }

  lemma MovingKeepsAim(t: Timer, u: Timer, now: nat)
    requires Aimed(t, now) && (Moves(t, u, now) || Fresh(u, now))
    ensures Aimed(u, now)
  {
    hide Rearmed;
    RearmedIsAimed(t, now);
    if Fresh(u, now) {
      FreshIsAimed(u, now);
    }
  }

  ghost predicate EventsMove(e: Events, f: Events, now: nat) {
    && (Moves(e.command, f.command, now) || Fresh(f.command, now))
    && (Moves(e.answer, f.answer, now) || Fresh(f.answer, now))
    && (Moves(e.drive, f.drive, now) || Fresh(f.drive, now))
  }

  lemma CommandTickMoves(disc: Disc, s: State)
    requires s.head.speedOwed <= SPEED_DOWN_DELAY
    ensures var t := CommandTick(disc, s);
            EventsMove(s.ev, t.ev, s.now) && Moves(s.ev.command, t.ev.command, s.now)
  {
    hide AnswerCommand, DelayLeft, Owing, Fresh, NeedsDisc;
    var t := s.(ev := s.ev.(command := s.ev.command.(armed := false), cmdGuard := false));
    if s.io.flag == INT_NONE && s.ev.pending != NONE {
      var u := SetParams(t.(ev := t.ev.(pending := NONE)), s.ev.pendingParams);
      CommandsAreAnswered(disc, u, s.ev.pending);
    }
  }

  lemma SecondTickMoves(disc: Disc, s: State)
    requires s.head.speedOwed <= SPEED_DOWN_DELAY && (s.ev.second != NONE ==> Owing(s.ev.second))
    ensures var t := SecondTick(disc, s);
            EventsMove(s.ev, t.ev, s.now) && t.ev.command == s.ev.command
  {
    hide ExecuteSecond, DelayLeft, Owing, Fresh;
    var t := s.(ev := s.ev.(answer := s.ev.answer.(armed := false), secondGuard := false));
    if s.io.flag == INT_NONE {
      if s.ev.second != NONE {
        SecondsAreAnswered(disc, t);
      } else {
        NothingOwed(disc, t);
      }
    }
  }

  lemma DriveTickMoves(disc: Disc, s: State, between: seq<AsyncReader.Action>)
    requires AsyncReader.Sound(disc.read, s.reader)
    ensures var t := DriveTick(disc, s, between);
            EventsMove(s.ev, t.ev, s.now) && t.ev.command == s.ev.command
  {
    hide ReadSector, PlaySector, Between, AsyncReader.AfterPoll, AsyncReader.Sound;
    var t := s.(ev := s.ev.(drive := s.ev.drive.(armed := false)));
    if s.drive.Reading? {
      ReadSectorTurns(disc, t, between);
    } else if s.drive.Playing? && s.io.flag == INT_NONE {
      PlaySectorTurns(disc, t, between);
    }
  }

  lemma WriteMoves(s: State, offset: nat, value: Byte)
    ensures var t := Write(s, offset, value);
            && EventsMove(s.ev, t.ev, s.now)
            && (s.ev.pending != NONE ==> Moves(s.ev.command, t.ev.command, s.now))
  {
    hide Cleared, Bit, Rearmed;
    AckDelayIsShort(s.motorOn, value);
    hide AckDelay;
  }

  lemma AckDelayIsShort(motorOn: bool, cmd: Byte)
    ensures MIN_INT_DELAY < AckDelay(motorOn, cmd) <= LONGEST
  {
  }

  lemma StepMoves(disc: Disc, s: State, i: Input)
    requires Woken(s) && Steady(disc, s)
    ensures var t := Step(disc, s, i);
            && EventsMove(s.ev, t.ev, s.now) && s.now <= t.now
            && (s.ev.pending != NONE ==> Moves(s.ev.command, t.ev.command, s.now))
  {
    hide CommandTick, SecondTick, DriveTick, Write, Between, InOrder, AtHead, Timely, AsyncReader.Sound, Rearmed, Fresh;
    CommandTickMoves(disc, s);
    SecondTickMoves(disc, s);
    NowStays(disc, s);
    match i
    case GuestWrite(offset, value) =>
      WriteMoves(s, offset, value);
      WriteTakesNoTime(s, offset, value);
    case DriveEvent(between) =>
      DriveTickMoves(disc, s, between);
      DriveTickKeepsCommand(disc, s, between);
    case _ =>
  }

  lemma NowStays(disc: Disc, s: State)
    requires s.head.speedOwed <= SPEED_DOWN_DELAY && (s.ev.second != NONE ==> Owing(s.ev.second))
    ensures CommandTick(disc, s).now == s.now && SecondTick(disc, s).now == s.now
  {
    hide AnswerCommand, DelayLeft, NeedsDisc, SecondTick, DrivesOn, NewAnswer;
    SecondTickKeepsCommand(disc, s);
    var t := s.(ev := s.ev.(command := s.ev.command.(armed := false), cmdGuard := false));
    if s.io.flag == INT_NONE && s.ev.pending != NONE {
      var u := SetParams(t.(ev := t.ev.(pending := NONE)), s.ev.pendingParams);
      CommandsAreAnswered(disc, u, s.ev.pending);
    }
  }

  lemma WriteTakesNoTime(s: State, offset: nat, value: Byte)
    ensures Write(s, offset, value).now == s.now
  {
    hide Cleared, Bit, RearmedIf, ScheduledOnce, AckDelay;
  }

  lemma {:induction false} RunsAreAimed(disc: Disc, run: seq<Input>)
    ensures var s := Run(disc, run);
            Aimed(s.ev.command, s.now) && Aimed(s.ev.answer, s.now) && Aimed(s.ev.drive, s.now)
  {
    hide Step, Woken, Steady;
    if run != [] {
      var s, i := Run(disc, run[..|run| - 1]), run[|run| - 1];
      RunsAreAimed(disc, run[..|run| - 1]);
      RunsAreSteady(disc, run[..|run| - 1]);
      StepMoves(disc, s, i);
      MovingKeepsAim(s.ev.command, Step(disc, s, i).ev.command, s.now);
      MovingKeepsAim(s.ev.answer, Step(disc, s, i).ev.answer, s.now);
      MovingKeepsAim(s.ev.drive, Step(disc, s, i).ev.drive, s.now);
    }
  }

  // ---- No later than the last re-arming asks ----

  datatype Slot = CommandSlot | AnswerSlot | DriveSlot

  function TimerOf(s: State, slot: Slot): Timer {
    match slot
    case CommandSlot => s.ev.command
    case AnswerSlot => s.ev.answer
    case DriveSlot => s.ev.drive
  }

  // When the slot was last scheduled, armed again or taken.
  function LastSet(disc: Disc, run: seq<Input>, slot: Slot): nat {
    if run == [] then 0
    else
      var init := run[..|run| - 1];
      if TimerOf(Run(disc, run), slot) == TimerOf(Run(disc, init), slot) then LastSet(disc, init, slot)
      else Run(disc, init).now
  }

  function LaterOf(a: int, b: int): int {
    if a < b then b else a
  }

  lemma AimedBound(t: Timer, now: nat)
    requires Aimed(t, now) && t.armed && now <= t.deadline + TWO_31
    ensures t.target <= LaterOf(t.deadline, now + MIN_INT_DELAY)
  {
    var turns := (t.target - t.deadline) / TWO_32;
    assert (t.target - t.deadline) % TWO_32 == 0 ==> t.target - t.deadline == turns * TWO_32;
  }

  lemma StepAimsNow(disc: Disc, s: State, i: Input, slot: Slot)
    requires Woken(s) && Steady(disc, s) && Aimed(TimerOf(s, slot), s.now)
    ensures var u := TimerOf(Step(disc, s, i), slot);
            Aimed(u, s.now)
  {
    hide Step, Woken, Steady, Aimed;
    StepMoves(disc, s, i);
    MovingKeepsAim(TimerOf(s, slot), TimerOf(Step(disc, s, i), slot), s.now);
  }

  /** In every run an armed event is aimed at most at the later of its deadline and the minimum after it
      was last set, unless it was set more than 2^31 cycles after that deadline. */
  lemma {:induction false} TargetsAreBounded(disc: Disc, run: seq<Input>, slot: Slot)
    requires var t := TimerOf(Run(disc, run), slot);
             t.armed && LastSet(disc, run, slot) <= t.deadline + TWO_31
    ensures var t := TimerOf(Run(disc, run), slot);
            t.target <= LaterOf(t.deadline, LastSet(disc, run, slot) + MIN_INT_DELAY)
  {
    hide Step, Aimed, LaterOf;
    if run == [] {
    } else {
      var init := run[..|run| - 1];
      var s := Run(disc, init);
      var t := TimerOf(Run(disc, run), slot);
      if t == TimerOf(s, slot) {
        TargetsAreBounded(disc, init, slot);
      } else {
        RunsAreSteady(disc, init);
        RunsAreAimed(disc, init);
        StepAimsNow(disc, s, run[|run| - 1], slot);
        AimedBound(t, s.now);
      }
    }
  }

  // n times: time passes, but less than the minimum, and the guest acknowledges nothing at all.
  function Nudges(n: nat): seq<Input> {
    if n == 0 then [] else Nudges(n - 1) + [Elapse(MIN_INT_DELAY - 1)] + [GuestWrite(3, 0)]
  }

  // A second response is overdue, nothing blocks it, and the acknowledge port is selected.
  ghost predicate Overdue(s: State, start: State, waited: nat) {
    && s.now == start.now + waited && s.io.index == 1 && s.io.flag == INT_NONE
    && s.ev.second == start.ev.second && s.ev.second != NONE
    && s.ev.answer.armed && s.ev.answer.deadline == start.ev.answer.deadline
    && start.ev.answer.deadline <= start.now
  }

  lemma OverdueRearmed(t: Timer, now: nat)
    requires t.deadline <= now <= t.deadline + TWO_31
    ensures Rearmed(t, now) == Timer(true, now + MIN_INT_DELAY, t.deadline)
  {
    hide Signed32;
    SignedIsCongruent(t.deadline - now);
    SignedIsUnique(t.deadline - now, t.deadline - now);
  }

  lemma NothingCleared(value: Byte)
    ensures Cleared(INT_NONE, value) == INT_NONE
  {
  }

  lemma OneNudge(disc: Disc, s: State, start: State, waited: nat)
    requires Overdue(s, start, waited) && waited + 999 <= TWO_31 - (start.now - start.ev.answer.deadline)
    ensures var t := Step(disc, Step(disc, s, Elapse(999)), GuestWrite(3, 0));
            Overdue(t, start, waited + 999) && t.ev.answer.target == t.now + MIN_INT_DELAY
  {
    hide Cleared, Bit, Rearmed;
    OverdueRearmed(s.ev.answer, s.now + 999);
    NothingCleared(0);
  }

  /** Acknowledges closer together than the minimum hold an overdue second response back for as long as
      the guest keeps writing them, up to 2^31 cycles past its deadline: after each it is aimed a whole
      minimum ahead, beyond the next. */
  lemma {:induction false} NudgesPostpone(disc: Disc, run: seq<Input>, n: nat)
    requires var s := Run(disc, run);
             Overdue(s, s, 0) && 999 * n <= TWO_31 - (s.now - s.ev.answer.deadline)
    ensures var s := Run(disc, run);
            var t := Run(disc, run + Nudges(n));
            Overdue(t, s, 999 * n) && (n > 0 ==> t.ev.answer.target == t.now + MIN_INT_DELAY)
  {
    hide Step, Overdue;
    if n == 0 {
      assert run + Nudges(0) == run;
    } else {
      NudgesPostpone(disc, run, n - 1);
      var before := run + Nudges(n - 1);
      assert run + Nudges(n) == (before + [Elapse(999)]) + [GuestWrite(3, 0)];
      OneMoreInput(disc, before, Elapse(999));
      OneMoreInput(disc, before + [Elapse(999)], GuestWrite(3, 0));
      OneNudge(disc, Run(disc, before), Run(disc, run), 999 * (n - 1));
    }
  }

  // ---- Exactly when a command waits its own delay ----

  lemma {:induction false} TargetHolds(disc: Disc, run: seq<Input>, after: seq<Input>)
    requires KeepsCommand(disc, run, after)
    ensures Run(disc, run).ev.command.target <= Run(disc, run + after).ev.command.target
  {
    hide Step, Rearmed, Aimed;
    if after == [] {
      assert run + after == run;
    } else {
      var n := |after| - 1;
      var before := run + after[..n];
      forall m | 0 <= m <= n
        ensures Run(disc, run + after[..n][..m]).ev.pending != NONE
      {
        assert after[..n][..m] == after[..m];
      }
      TargetHolds(disc, run, after[..n]);
      assert (run + after)[..|run + after| - 1] == before && after[..|after|] == after;
      var s, t := Run(disc, before), Run(disc, run + after);
      assert s.ev.pending != NONE && t.ev.pending != NONE;
      RunsAreSteady(disc, before);
      RunsAreSteady(disc, run + after);
      RunsAreAimed(disc, before);
      StepMoves(disc, s, after[n]);
      RearmingIsNoSooner(s.ev.command, s.now);
    }
  }

  // A command written now never runs sooner than its own acknowledge delay, whatever follows.
  ghost predicate KeepsOwnDelay(disc: Disc, run: seq<Input>, cmd: Byte) {
    forall after: seq<Input> :: KeepsCommand(disc, run + [GuestWrite(1, cmd)], after) ==>
      var s := Run(disc, run);
      var t := Run(disc, run + [GuestWrite(1, cmd)] + after);
      Due(t.ev.command, t.now) ==> s.now + AckDelay(s.motorOn, cmd) <= t.now
  }

  lemma WrittenCommand(disc: Disc, run: seq<Input>, cmd: Byte)
    requires var s := Run(disc, run);
             s.io.index == 0 && s.ev.pending == NONE && cmd != NONE
    ensures var s := Run(disc, run);
            var t := Run(disc, run + [GuestWrite(1, cmd)]);
            && t.now == s.now && t.ev.pending == cmd
            && t.ev.command == if s.ev.cmdGuard then s.ev.command else Scheduled(s.now, AckDelay(s.motorOn, cmd))
  {
    hide AckDelay;
    OneMoreInput(disc, run, GuestWrite(1, cmd));
  }

  /** An accepted command keeps its own acknowledge delay, in every continuation, exactly when the command
      event is idle at the write or is aimed no sooner than that delay. */
  lemma OwnDelayExactly(disc: Disc, run: seq<Input>, cmd: Byte)
    requires var s := Run(disc, run);
             s.io.index == 0 && s.ev.pending == NONE && cmd != NONE
    ensures var s := Run(disc, run);
            KeepsOwnDelay(disc, run, cmd) <==>
            (!s.ev.cmdGuard || s.now + AckDelay(s.motorOn, cmd) <= s.ev.command.target)
  {
    hide AckDelay, Step;
    var s := Run(disc, run);
    var written := run + [GuestWrite(1, cmd)];
    WrittenCommand(disc, run, cmd);
    var own := s.now + AckDelay(s.motorOn, cmd);
    if !s.ev.cmdGuard || own <= s.ev.command.target {
      forall after: seq<Input> | KeepsCommand(disc, written, after)
        ensures var t := Run(disc, written + after);
                Due(t.ev.command, t.now) ==> own <= t.now
      {
        TargetHolds(disc, written, after);
      }
    } else {
      EarlyContinuation(disc, run, cmd);
    }
  }

  lemma EarlyContinuation(disc: Disc, run: seq<Input>, cmd: Byte)
    requires var s := Run(disc, run);
             && s.io.index == 0 && s.ev.pending == NONE && cmd != NONE
             && s.ev.cmdGuard && s.ev.command.target < s.now + AckDelay(s.motorOn, cmd)
    ensures !KeepsOwnDelay(disc, run, cmd)
  {
    var s := Run(disc, run);
    var written := run + [GuestWrite(1, cmd)];
    WrittenCommand(disc, run, cmd);
    AckDelayIsShort(s.motorOn, cmd);
    hide AckDelay;
    RunsAreSteady(disc, run);
    var wait := if s.ev.command.target > s.now then s.ev.command.target - s.now else 0;
    var after := [Elapse(wait)];
    OneMoreInput(disc, written, Elapse(wait));
    assert KeepsCommand(disc, written, after) by {
      assert after[..0] == [] && after[..1] == after && written + [] == written;
    }
    assert Due(Run(disc, written + after).ev.command, Run(disc, written + after).now);
  }

  /** Within 2^31 cycles of the deadline a write inherits, the stored deadline decides as well. */
  lemma OwnDelayByDeadline(disc: Disc, run: seq<Input>, cmd: Byte)
    requires var s := Run(disc, run);
             s.io.index == 0 && s.ev.pending == NONE && cmd != NONE && s.now <= s.ev.command.deadline + TWO_31
    ensures var s := Run(disc, run);
            KeepsOwnDelay(disc, run, cmd) <==>
            (!s.ev.cmdGuard || s.now + AckDelay(s.motorOn, cmd) <= s.ev.command.deadline)
  {
    hide KeepsOwnDelay, Run, InOrder, AtHead, AsyncReader.Sound;
    var s := Run(disc, run);
    OwnDelayExactly(disc, run, cmd);
    AckDelayIsShort(s.motorOn, cmd);
    hide AckDelay;
    RunsAreSteady(disc, run);
    RunsAreAimed(disc, run);
    if s.ev.cmdGuard {
      AimedBound(s.ev.command, s.now);
    }
  }

  // n times: the command event comes due and finds the interrupt still unacknowledged.
  function Retries(n: nat): seq<Input> {
    if n == 0 then [] else Retries(n - 1) + [Elapse(MIN_INT_DELAY)] + [CommandEvent]
  }

  // GetStat is answered but not acknowledged, and FFh written; its event comes due at once.
  const BLOCKED: seq<Input> :=
    [GuestWrite(1, GETSTAT), Elapse(ACK_DELAY), CommandEvent, GuestWrite(1, NONE), Elapse(ACK_DELAY), CommandEvent]

  // The event of the FFh has been tried again for a while behind the interrupt.
  ghost predicate Blocked(s: State, waited: nat) {
    && s.now == 2 * ACK_DELAY + waited && s.io.index == 0 && s.io.flag == INT_ACK && s.motorOn
    && s.ev.pending == NONE && s.ev.cmdGuard
    && s.ev.command.armed && s.ev.command.deadline == 2 * ACK_DELAY
  }

  lemma FfIsBlocked(disc: Disc)
    requires disc.present
    ensures var s := Run(disc, BLOCKED);
            Blocked(s, 0) && s.ev.command.target == s.now + MIN_INT_DELAY
  {
    var r1: seq<Input> := [GuestWrite(1, GETSTAT)];
    var r2 := r1 + [Elapse(ACK_DELAY)];
    var r3 := r2 + [CommandEvent];
    var r4 := r3 + [GuestWrite(1, NONE)];
    var r5 := r4 + [Elapse(ACK_DELAY)];
    assert [] + [GuestWrite(1, GETSTAT)] == r1 && r5 + [CommandEvent] == BLOCKED;
    OneMoreInput(disc, [], GuestWrite(1, GETSTAT));
    OneMoreInput(disc, r1, Elapse(ACK_DELAY));
    OneMoreInput(disc, r2, CommandEvent);
    OneMoreInput(disc, r3, GuestWrite(1, NONE));
    OneMoreInput(disc, r4, Elapse(ACK_DELAY));
    OneMoreInput(disc, r5, CommandEvent);
  }

  lemma OneRetry(disc: Disc, s: State, waited: nat)
    requires Blocked(s, waited) && s.ev.command.target == s.now + MIN_INT_DELAY
    ensures var t := Step(disc, Step(disc, s, Elapse(MIN_INT_DELAY)), CommandEvent);
            Blocked(t, waited + MIN_INT_DELAY) && t.ev.command == Rearmed(s.ev.command, t.now)
  {
    hide DelayLeft, ExecuteCommand;
  }

  lemma {:induction false} RetriesGoOn(disc: Disc, n: nat)
    requires disc.present && 1000 * n <= TWO_31
    ensures var s := Run(disc, BLOCKED + Retries(n));
            Blocked(s, 1000 * n) && s.ev.command.target == s.now + MIN_INT_DELAY
  {
    hide Step, Rearmed, Run;
    if n == 0 {
      assert BLOCKED + Retries(0) == BLOCKED;
      FfIsBlocked(disc);
    } else {
      RetriesGoOn(disc, n - 1);
      OneMoreRetry(disc, n - 1);
      OverdueRearmed(Run(disc, BLOCKED + Retries(n - 1)).ev.command, 2 * ACK_DELAY + 1000 * n);
    }
  }

  lemma OneMoreRetry(disc: Disc, n: nat)
    requires var s := Run(disc, BLOCKED + Retries(n));
             Blocked(s, 1000 * n) && s.ev.command.target == s.now + MIN_INT_DELAY
    ensures var s := Run(disc, BLOCKED + Retries(n));
            var t := Run(disc, BLOCKED + Retries(n + 1));
            Blocked(t, 1000 * (n + 1)) && t.ev.command == Rearmed(s.ev.command, t.now)
  {
    hide Step, Run;
    var before := BLOCKED + Retries(n);
    assert BLOCKED + Retries(n + 1) == (before + [Elapse(MIN_INT_DELAY)]) + [CommandEvent];
    OneMoreInput(disc, before, Elapse(MIN_INT_DELAY));
    OneMoreInput(disc, before + [Elapse(MIN_INT_DELAY)], CommandEvent);
    OneRetry(disc, Run(disc, before), 1000 * n);
  }

  /** Later than that the deadline alone does not decide. FFh is written behind an interrupt that is never
      acknowledged, and its event, tried again every 1000 cycles, finds the deadline more than 2^31 cycles
      past at last: the time left has wrapped, and the event is aimed a whole turn of the clock after the
      deadline. A command written then inherits a deadline long past and still waits its own delay. */
  lemma PassedDeadlineCanWait(disc: Disc)
    requires disc.present
    ensures var run := BLOCKED + Retries(2147484);
            var s := Run(disc, run);
            && s.io.index == 0 && s.ev.pending == NONE && s.ev.cmdGuard
            && s.ev.command.deadline < s.now + AckDelay(s.motorOn, GETSTAT)
            && s.ev.command.target == s.ev.command.deadline + TWO_32
            && KeepsOwnDelay(disc, run, GETSTAT)
  {
    hide KeepsOwnDelay, Run, Retries;
    RetriesGoOn(disc, 2147483);
    OneMoreRetry(disc, 2147483);
    OwnDelayExactly(disc, BLOCKED + Retries(2147484), GETSTAT);
  }
}
