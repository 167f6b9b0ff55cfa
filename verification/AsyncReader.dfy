/** The background sector reader: one consumer and one reader thread sharing a single-sector buffer
    under a mutex. Every critical section is one atomic step; a run is any interleaving of them. */
module AsyncReader {
  import opened SectorCodes
  import opened Wrappers

  // What reading each address of the disc gives.
  type Disc = nat -> Option<Sector>

  // The shared fields, and the address the reader thread holds while a read is in flight.
  datatype State = State(
    requested: nat, hasRequest: bool, sectorReady: bool, shutdown: bool,
    readyLba: nat, readOk: bool, busy: bool, sector: Sector, inFlight: nat)

  datatype Status = Pending | Ready(sector: Sector) | Failed

  // Queue, Poll, Unpoll and Shutdown are the consumer's calls. Take and Publish are the reader's two
  // critical sections; `scratch` is what the local buffer is left with when the read fails.
  datatype Action =
    | Queue(lba: nat)
    | Poll(lba: nat)
    | Unpoll(lba: nat)
    | Shutdown
    | Take
    | Publish(scratch: Sector)

  const INITIAL := State(0, false, false, false, 0, false, false, seq(2352, _ => 0), 0)

  // ---- The critical sections ----

  function AfterQueue(s: State, lba: nat): State {
    s.(requested := lba, hasRequest := true, sectorReady := false)
  }

  function Answer(s: State, want: nat): Status {
    if s.shutdown then Failed
    else if s.sectorReady && s.readyLba == want then
      if s.readOk then Ready(s.sector) else Failed
    else Pending
  }

  function AfterPoll(s: State, want: nat): State {
    if s.shutdown then s
    else if s.sectorReady && s.readyLba == want then s.(sectorReady := false)
    else if s.busy || s.hasRequest then s.(sectorReady := false)
    else s.(sectorReady := false, requested := want, hasRequest := true)
  }

  function AfterUnpoll(s: State, lba: nat): State {
    if !s.shutdown && !s.hasRequest && !s.busy && s.readOk && s.readyLba == lba
    then s.(sectorReady := true) else s
  }

  // The reader thread waits while there is no request, and leaves its loop on shutdown.
  function AfterTake(s: State): State {
    if s.busy || !s.hasRequest || s.shutdown then s
    else s.(hasRequest := false, busy := true, inFlight := s.requested)
  }

  function AfterPublish(disc: Disc, s: State, scratch: Sector): State {
    if !s.busy then s
    else
      var read := disc(s.inFlight);
      s.(sector := if read.Some? then read.value else scratch,
         readyLba := s.inFlight, readOk := read.Some?, sectorReady := true, busy := false)
  }

  function Step(disc: Disc, s: State, a: Action): State {
    match a
    case Queue(lba) => AfterQueue(s, lba)
    case Poll(lba) => AfterPoll(s, lba)
    case Unpoll(lba) => AfterUnpoll(s, lba)
    case Shutdown => s.(shutdown := true)
    case Take => AfterTake(s)
    case Publish(scratch) => AfterPublish(disc, s, scratch)
  }

  function Run(disc: Disc, s: State, run: seq<Action>): State {
    if run == [] then s else Step(disc, Run(disc, s, run[..|run| - 1]), run[|run| - 1])
  }

  // ---- Answers are true of the disc ----

  ghost predicate Sound(disc: Disc, s: State) {
    && (s.readOk ==> disc(s.readyLba) == Some(s.sector))
    && (s.sectorReady && !s.readOk ==> disc(s.readyLba) == None)
  }

  lemma {:induction false} RunsAreSound(disc: Disc, run: seq<Action>)
    ensures Sound(disc, Run(disc, INITIAL, run))
  {
    if run != [] {
      RunsAreSound(disc, run[..|run| - 1]);
    }
  }

  /** In every interleaving, an answer carries exactly the wanted sector, a failure means the wanted
      address cannot be read (or the reader was shut down), and no answer leaves a read under way. */
  lemma {:induction false} AnswersAreTrue(disc: Disc, run: seq<Action>, want: nat)
    ensures var s := Run(disc, INITIAL, run);
            match Answer(s, want)
            case Ready(sector) => disc(want) == Some(sector)
            case Failed => s.shutdown || disc(want) == None
            case Pending => var t := AfterPoll(s, want); t.hasRequest || t.busy
  {
    RunsAreSound(disc, run);
  }

  /** Handing a sector back undoes the poll that returned it, so the next poll returns it again. */
  lemma UnpollUndoesPoll(s: State, want: nat)
    requires Answer(s, want).Ready? && !s.busy && !s.hasRequest
    ensures AfterUnpoll(AfterPoll(s, want), want) == s
  {
  }

  // ---- Every poller is answered ----

  // Actions of a consumer that polls one address and queues nothing, between steps of the reader.
  predicate KeepsPolling(a: Action, want: nat) {
    a.Take? || a.Publish? || a.Unpoll? || a == Poll(want)
  }

  // A run from s in which no poll has been answered yet.
  predicate Unanswered(disc: Disc, s: State, run: seq<Action>, want: nat) {
    run == [] ||
    var n := |run| - 1;
    && Unanswered(disc, s, run[..n], want)
    && KeepsPolling(run[n], want)
    && (run[n].Poll? ==> Answer(Run(disc, s, run[..n]), want) == Pending)
  }

  // Reads completed in a run.
  function Reads(disc: Disc, s: State, run: seq<Action>): nat {
    if run == [] then 0
    else
      var n := |run| - 1;
      Reads(disc, s, run[..n]) + if run[n].Publish? && Run(disc, s, run[..n]).busy then 1 else 0
  }

  // Reads still to complete before a poll of `want` is answered.
  function Owed(s: State, want: nat): nat {
    if s.hasRequest then (if s.busy then 2 else 1) + if s.requested == want then 0 else 1
    else if s.busy then 1 + if s.inFlight == want then 0 else 1
    else if s.sectorReady && s.readyLba == want then 0
    else 1
  }

  lemma {:induction false} ReadsSettleWhatIsOwed(disc: Disc, s: State, run: seq<Action>, want: nat)
    requires !s.shutdown && Unanswered(disc, s, run, want)
    ensures !Run(disc, s, run).shutdown
    ensures Reads(disc, s, run) + Owed(Run(disc, s, run), want) <= Owed(s, want)
  {
    if run != [] {
      ReadsSettleWhatIsOwed(disc, s, run[..|run| - 1], want);
    }
  }

  /** Whatever was requested before, a consumer that keeps polling one address is answered after at
      most three completed reads, and after at most two when it queued that address first. */
  lemma {:induction false} AnsweredAfterThreeReads(disc: Disc, s: State, run: seq<Action>, want: nat)
    requires !s.shutdown && Unanswered(disc, s, run, want)
    ensures Reads(disc, s, run) <= 3
    ensures Reads(disc, s, run) == 3 ==> Answer(Run(disc, s, run), want) != Pending
    ensures s.hasRequest && s.requested == want ==> Reads(disc, s, run) <= 2
    ensures s.hasRequest && s.requested == want && Reads(disc, s, run) == 2 ==>
              Answer(Run(disc, s, run), want) != Pending
  {
    ReadsSettleWhatIsOwed(disc, s, run, want);
  }

  lemma OneMore(disc: Disc, s: State, run: seq<Action>, a: Action, want: nat)
    ensures Run(disc, s, run + [a]) == Step(disc, Run(disc, s, run), a)
    ensures Unanswered(disc, s, run, want) && KeepsPolling(a, want) ==>
              (a.Poll? ==> Answer(Run(disc, s, run), want) == Pending) ==>
                Unanswered(disc, s, run + [a], want)
    ensures Reads(disc, s, run + [a]) ==
            Reads(disc, s, run) + if a.Publish? && Run(disc, s, run).busy then 1 else 0
  {
    assert (run + [a])[..|run|] == run;
  }

  /** The bound of three is reached: from one stale read in flight with one stale request behind it,
      two reads complete and the poll that follows is still not answered. */
  lemma ThreeReadsCanBeNeeded(disc: Disc, scratch: Sector)
    ensures var s := Run(disc, INITIAL, [Queue(1), Take, Queue(2)]);
            exists run :: Unanswered(disc, s, run, 3) && Reads(disc, s, run) == 2 &&
                          Answer(Run(disc, s, run), 3) == Pending
  {
    OneMore(disc, INITIAL, [], Queue(1), 3);
    OneMore(disc, INITIAL, [Queue(1)], Take, 3);
    OneMore(disc, INITIAL, [Queue(1), Take], Queue(2), 3);
    assert [Queue(1)] + [Take] == [Queue(1), Take] && [Queue(1), Take] + [Queue(2)] == [Queue(1), Take, Queue(2)];
    var s := Run(disc, INITIAL, [Queue(1), Take, Queue(2)]);
    assert s == INITIAL.(requested := 2, hasRequest := true, busy := true, inFlight := 1);
    var run := [];
    OneMore(disc, s, run, Publish(scratch), 3);
    run := run + [Publish(scratch)];
    OneMore(disc, s, run, Take, 3);
    run := run + [Take];
    OneMore(disc, s, run, Publish(scratch), 3);
    run := run + [Publish(scratch)];
    OneMore(disc, s, run, Poll(3), 3);
    run := run + [Poll(3)];
    assert Answer(Run(disc, s, run), 3) == Pending;
  }

  // ---- The shared object ----

  class Reader {
    var requested: nat
    var hasRequest: bool
    var sectorReady: bool
    var shutdown: bool
    var readyLba: nat
    var readOk: bool
    var busy: bool
    const sector: array<bv8>
    var inFlight: nat

    ghost predicate Valid() {
      sector.Length == 2352
    }

    ghost function Now(): State
      requires Valid()
      reads this, sector
    {
      State(requested, hasRequest, sectorReady, shutdown, readyLba, readOk, busy, sector[..], inFlight)
    }

    constructor ()
      ensures Valid() && fresh(sector) && Now() == INITIAL
    {
      requested, hasRequest, sectorReady, shutdown := 0, false, false, false;
      readyLba, readOk, busy, inFlight := 0, false, false, 0;
      sector := new bv8[2352](_ => 0);
    }

    method RequestSector(lba: nat)
      requires Valid()
      modifies this
      ensures Now() == AfterQueue(old(Now()), lba)
    {
      requested := lba;
      hasRequest := true;
      sectorReady := false;
    }

    method PollSector(outSector: array<bv8>, want: nat) returns (status: Status)
      requires Valid() && outSector.Length == 2352 && outSector != sector
      modifies this, outSector
      ensures Now() == AfterPoll(old(Now()), want)
      ensures status == Answer(old(Now()), want)
      ensures outSector[..] == if status.Ready? then status.sector else old(outSector[..])
    {
      if shutdown {
        return Failed;
      }
      if sectorReady {
        if readyLba == want {
          status := Failed;
          if readOk {
            forall i | 0 <= i < 2352 {
              outSector[i] := sector[i];
            }
            assert outSector[..] == sector[..];
            status := Ready(outSector[..]);
          }
          sectorReady := false;
          return;
        }
        sectorReady := false;
      }
      if !busy && !hasRequest {
        requested := want;
        hasRequest := true;
      }
      return Pending;
    }

    method UnpollSector(lba: nat)
      requires Valid()
      modifies this
      ensures Now() == AfterUnpoll(old(Now()), lba)
    {
      if !shutdown && !hasRequest && !busy && readOk && readyLba == lba {
        sectorReady := true;
      }
    }

    method TakeRequest()
      requires Valid() && !busy
      modifies this
      ensures Now() == AfterTake(old(Now()))
    {
      if hasRequest && !shutdown {
        inFlight := requested;
        hasRequest := false;
        busy := true;
      }
    }

    // tmp is the reader thread's local buffer, filled with the mutex released.
    method PublishSector(disc: Disc, tmp: array<bv8>, ok: bool)
      requires Valid() && busy && tmp.Length == 2352 && tmp != sector
      requires ok == disc(inFlight).Some? && (ok ==> tmp[..] == disc(inFlight).value)
      modifies this, sector
      ensures Now() == AfterPublish(disc, old(Now()), old(tmp[..]))
    {
      forall i | 0 <= i < 2352 {
        sector[i] := tmp[i];
      }
      assert sector[..] == tmp[..];
      readyLba := inFlight;
      readOk := ok;
      sectorReady := true;
      busy := false;
    }

    // One turn of the reader thread; an action that is not its next one leaves it where it is.
    method Run(disc: Disc, a: Action)
      requires Valid()
      modifies this, sector
      ensures Now() == if a.Take? || a.Publish? then Step(disc, old(Now()), a) else old(Now())
    {
      if a.Take? && !busy {
        TakeRequest();
      } else if a.Publish? && busy {
        var tmp := new bv8[2352];
        var read := disc(inFlight);
        var bytes := if read.Some? then read.value else a.scratch;
        forall i | 0 <= i < 2352 {
          tmp[i] := bytes[i];
        }
        assert tmp[..] == bytes;
        PublishSector(disc, tmp, read.Some?);
        assert AfterPublish(disc, old(Now()), bytes) == AfterPublish(disc, old(Now()), a.scratch);
      }
    }
  }
}
