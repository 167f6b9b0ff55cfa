/** The event scheduler: twelve slots on a clock that wraps at 32 bits, a cached time of the next event,
    and the CPU's countdown to it, all kept right by scheduling, by running and by dispatch. */
module EventQueue {
  import opened Words

  const SLOTS := 12

  // What next holds when nothing is pending.
  const NEVER: Word := TWO_32 - 1

  function Plus(a: int, b: int): Word {
    (a + b) % TWO_32
  }

  function Minus(a: int, b: int): Word {
    (a - b) % TWO_32
  }

  // The signed reading of the 32-bit difference a - b.
  function Diff(a: Word, b: Word): int {
    Signed32(a - b)
  }

  type Targets = t: seq<Word> | |t| == SLOTS witness seq(SLOTS, _ => 0)

  datatype Queue = Queue(clock: Word, pending: set<nat>, target: Targets, next: Word, downcount: int) {
    ghost predicate Valid() {
      forall e :: e in pending ==> e < SLOTS
    }

    // Whether a target is due: reached, or passed by less than half the clock's range.
    predicate Due(t: Word) {
      Diff(clock, t) >= 0
    }

    predicate Stale() {
      Diff(next, clock) <= 0
    }

    // What the source answers when asked how long the next event is away.
    function CyclesUntilNext(): nat {
      if next == NEVER then 1
      else if Due(next) then 0
      else Minus(next, clock)
    }

    function Distance(t: Word): nat {
      if Due(t) then 0 else Minus(t, clock)
    }

    // The answer never passes a pending event.
    ghost predicate Covers() {
      forall e :: e in pending && e < SLOTS ==> CyclesUntilNext() <= Distance(target[e])
    }

    // The anchor has not been passed, and no pending event comes before it.
    ghost predicate Leads() {
      !Stale() && forall e :: e in pending && e < SLOTS ==> Diff(next, clock) <= Distance(target[e])
    }

    // The CPU's countdown, at the end of which it dispatches, runs out no later than any pending event
    // comes due, and than the anchor is reached.
    ghost predicate OnTime() {
      && (forall e :: e in pending && e < SLOTS ==> downcount <= Distance(target[e]))
      && downcount <= (if Stale() then 1 else Diff(next, clock))
    }
  }

  // ---- Scheduling ----

  predicate Sooner(q: Queue, t: Word) {
    Diff(q.next, t) > 0 || q.Stale()
  }

  function NextWith(q: Queue, t: Word): Word {
    if Sooner(q, t) then t else q.next
  }

  // A sooner anchor also cuts the CPU's countdown short.
  function DowncountWith(q: Queue, t: Word): int {
    var until := Diff(t, q.clock);
    if Sooner(q, t) && 0 < until < q.downcount then until else q.downcount
  }

  function Scheduled(q: Queue, e: nat, cycles: nat): Queue
    requires e < SLOTS
  {
    var t := Plus(q.clock, cycles);
    Queue(q.clock, q.pending + {e}, q.target[e := t], NextWith(q, t), DowncountWith(q, t))
  }

  lemma PlusAhead(clock: Word, cycles: nat)
    requires 0 < cycles < TWO_31
    ensures var t := Plus(clock, cycles);
            Minus(t, clock) == cycles && Diff(t, clock) == cycles && Diff(clock, t) == 0 - cycles
  {
    var t := Plus(clock, cycles);
    if clock + cycles < TWO_32 {
      assert t == clock + cycles;
    } else {
      assert t == clock + cycles - TWO_32;
    }
  }

  lemma DiffOfNext(next: Word, clock: Word, cycles: nat)
    requires Diff(next, clock) > 0 && cycles <= TWO_31
    ensures Diff(next, Plus(clock, cycles)) == Diff(next, clock) - cycles
    ensures Minus(next, clock) == Diff(next, clock) && Diff(clock, next) == 0 - Diff(next, clock)
  {
    var turn := if next < clock then 1 else 0;
    var ahead := next - clock + turn * TWO_32;
    assert Minus(next, clock) == ahead;
    assert 0 < ahead < TWO_31;
    var turns := if clock + cycles < TWO_32 then 0 else 1;
    assert Plus(clock, cycles) == clock + cycles - turns * TWO_32;
    SignedIs(next - Plus(clock, cycles), ahead - cycles, turns - turn);
    SignedIs(clock - next, 0 - ahead, turn);
  }

  lemma SignedIs(a: int, b: int, turns: int)
    requires a == b + turns * TWO_32 && -TWO_31 <= b < TWO_31
    ensures Signed32(a) == b
  {
    SameTurn(a, b, turns);
  }

  lemma LeadingCovers(q: Queue)
    requires q.Leads()
    ensures q.Covers()
  {
    DiffOfNext(q.next, q.clock, 1);
  }

  // How far ahead the anchor is once an event has been scheduled.
  function AnchorAhead(q: Queue, cycles: nat): int {
    if q.Stale() || cycles < Diff(q.next, q.clock) then cycles else Diff(q.next, q.clock)
  }

  /** Scheduling leaves the anchor ahead of every pending event exactly when no other pending event comes
      before it; so it always does from an anchor that leads already, and then the CPU's countdown does not
      run past the anchor either. */
  lemma ScheduleKeepsLead(q: Queue, e: nat, cycles: nat)
    requires q.Valid() && e < SLOTS && 0 < cycles < TWO_31
    ensures var s := Scheduled(q, e, cycles);
            && (s.Leads() <==>
                  forall f :: f in q.pending && f != e ==> AnchorAhead(q, cycles) <= q.Distance(q.target[f]))
            && (q.Leads() ==> s.Leads() && s.Covers())
            && (q.Leads() && q.downcount <= Diff(q.next, q.clock) ==> s.downcount <= Diff(s.next, s.clock))
  {
    var s := Scheduled(q, e, cycles);
    PlusAhead(q.clock, cycles);
    assert s.Distance(s.target[e]) == cycles;
    forall f | f in q.pending && f != e
      ensures f in s.pending && s.Distance(s.target[f]) == q.Distance(q.target[f])
    {
    }
    if !q.Stale() {
      DiffOfNext(q.next, q.clock, cycles);
    }
    assert Diff(s.next, s.clock) == AnchorAhead(q, cycles);
    if s.Leads() {
      LeadingCovers(s);
    }
  }

  // A target `cycles` ahead of the clock, read as a signed difference.
  lemma TargetAhead(clock: Word, cycles: Word)
    ensures var t := Plus(clock, cycles);
            && Minus(t, clock) == cycles
            && Diff(t, clock) == (if cycles < TWO_31 then cycles else cycles - TWO_32)
            && (Diff(clock, t) >= 0 <==> cycles == 0 || TWO_31 < cycles)
  {
    if clock + cycles < TWO_32 {
      assert Plus(clock, cycles) == clock + cycles;
    } else {
      assert Plus(clock, cycles) == clock + cycles - TWO_32;
    }
  }

  /** Scheduling, from any anchor, keeps the countdown on time exactly when the event is asked for at least
      a cycle and at most half the clock's range ahead, or the countdown has run out already. */
  lemma ScheduleKeepsTime(q: Queue, e: nat, cycles: Word)
    requires q.Valid() && e < SLOTS && q.OnTime()
    ensures Scheduled(q, e, cycles).OnTime() <==> 0 < cycles <= TWO_31 || q.downcount <= 0
  {
    var s := Scheduled(q, e, cycles);
    TargetAhead(q.clock, cycles);
    if !q.Stale() && cycles <= TWO_31 {
      DiffOfNext(q.next, q.clock, cycles);
    }
    hide Plus, Minus, Diff;
    assert s.Distance(s.target[e]) == if 0 < cycles <= TWO_31 then cycles else 0;
    forall f | f in q.pending && f != e
      ensures f in s.pending && s.Distance(s.target[f]) == q.Distance(q.target[f])
    {
    }
  }

  // ---- The anchor ----

  // The soonest target ahead among the first n slots, and how far ahead it is.
  function Best(q: Queue, n: nat): (Word, int)
    requires n <= SLOTS
  {
    if n == 0 then (NEVER, TWO_31 - 1)
    else
      var best := Best(q, n - 1);
      var ahead := Diff(q.target[n - 1], q.clock);
      if n - 1 in q.pending && 0 < ahead < best.1 then (q.target[n - 1], ahead) else best
  }

  function Anchor(q: Queue): Word {
    Best(q, SLOTS).0
  }

  lemma {:induction false} BestIsSoonest(q: Queue, n: nat)
    requires n <= SLOTS
    ensures var (t, ahead) := Best(q, n);
            && 0 < ahead <= TWO_31 - 1
            && (forall e :: e in q.pending && e < n && 0 < Diff(q.target[e], q.clock) ==>
                  ahead <= Diff(q.target[e], q.clock))
            && if ahead < TWO_31 - 1
               then exists e :: e in q.pending && e < n && q.target[e] == t && Diff(t, q.clock) == ahead
               else t == NEVER
  {
    if n > 0 {
      BestIsSoonest(q, n - 1);
      var before := Best(q, n - 1);
      if Best(q, n) != before {
        assert n - 1 in q.pending && q.target[n - 1] == Best(q, n).0;
      }
    }
  }

  /** With nothing due, the recomputed anchor covers every pending event; and it leads them all if one is
      less than 2^31 - 1 cycles ahead. */
  lemma AnchorCovers(q: Queue)
    requires q.Valid() && forall e :: e in q.pending ==> e < SLOTS && !q.Due(q.target[e])
    ensures var s := q.(next := Anchor(q));
            && s.Covers()
            && ((exists e :: e in q.pending && 0 < Diff(q.target[e], q.clock) < TWO_31 - 1) ==> s.Leads())
  {
    BestIsSoonest(q, SLOTS);
    var s := q.(next := Anchor(q));
    forall e | e in q.pending
      ensures e < SLOTS
      ensures q.Distance(q.target[e]) == if Diff(q.target[e], q.clock) > 0 then Diff(q.target[e], q.clock) else TWO_31
    {
      AheadOrHalfway(q, q.target[e]);
    }
    if exists e :: e in q.pending && 0 < Diff(q.target[e], q.clock) < TWO_31 - 1 {
      LeadingCovers(s);
    }
  }

  // ---- The CPU's countdown ----

  // The CPU runs for a while: the clock and its countdown move together.
  function Advanced(q: Queue, cycles: nat): Queue {
    q.(clock := Plus(q.clock, cycles), downcount := q.downcount - cycles)
  }

  // How far a target ahead of the clock is once the CPU has run.
  lemma Shifted(clock: Word, cycles: nat, t: Word)
    ensures Minus(t, Plus(clock, cycles)) == (Minus(t, clock) - cycles) % TWO_32
    ensures Minus(Plus(clock, cycles), t) == (cycles - Minus(t, clock)) % TWO_32
  {
    var later := Plus(clock, cycles);
    var turns := (clock + cycles) / TWO_32;
    assert later == clock + cycles - turns * TWO_32;
    var turn := if t < clock then 1 else 0;
    assert Minus(t, clock) == t - clock + turn * TWO_32;
    SameTurn(t - later, Minus(t, clock) - cycles, turns - turn);
    SameTurn(later - t, cycles - Minus(t, clock), turn - turns);
  }

  // Up to half the clock's range past it, the signed difference tells whether a target has been reached.
  lemma Reached(clock: Word, cycles: nat, t: Word)
    requires Minus(t, clock) <= TWO_31 && cycles < Minus(t, clock) + TWO_31
    ensures Diff(Plus(clock, cycles), t) == cycles - Minus(t, clock)
  {
    var turns := (clock + cycles) / TWO_32;
    var turn := if t < clock then 1 else 0;
    assert Minus(t, clock) == t - clock + turn * TWO_32;
    SignedIs(Plus(clock, cycles) - t, cycles - Minus(t, clock), turn - turns);
  }

  lemma SameTurn(a: int, b: int, turns: int)
    requires a == b + turns * TWO_32
    ensures a % TWO_32 == b % TWO_32
  {
  }

  // A target that is not due yet is at most half the clock's range ahead.
  lemma NotDueIsAhead(q: Queue, t: Word)
    requires !q.Due(t)
    ensures 0 < Minus(t, q.clock) <= TWO_31
  {
  }

  /** Running keeps the countdown on time, however long the CPU runs. */
  lemma RunningKeepsTime(q: Queue, cycles: nat)
    requires q.OnTime()
    ensures Advanced(q, cycles).OnTime()
  {
    hide Plus, Minus, Signed32;
    var s := Advanced(q, cycles);
    forall e | e in s.pending && e < SLOTS
      ensures s.downcount <= s.Distance(s.target[e])
    {
      RunningNears(q, cycles, q.target[e]);
    }
    RunningToAnchor(q, cycles);
  }

  lemma RunningNears(q: Queue, cycles: nat, t: Word)
    ensures q.Distance(t) - cycles <= Advanced(q, cycles).Distance(t)
  {
    hide Plus;
    Shifted(q.clock, cycles, t);
    if !q.Due(t) && cycles <= Minus(t, q.clock) {
      NotDueIsAhead(q, t);
    }
  }

  lemma RunningToAnchor(q: Queue, cycles: nat)
    requires q.downcount <= if q.Stale() then 1 else Diff(q.next, q.clock)
    ensures var s := Advanced(q, cycles);
            s.downcount <= if s.Stale() then 1 else Diff(s.next, s.clock)
  {
    hide Plus;
    Shifted(q.clock, cycles, q.next);
  }

  /** While the countdown has not run out, no pending event is due; and once the CPU has run on, each is due
      exactly when the clock has reached its target, the countdown having run out by then. */
  lemma EventsComeOnTime(q: Queue, cycles: nat, e: nat)
    requires q.OnTime() && q.downcount > 0 && e in q.pending && e < SLOTS
    requires cycles < q.Distance(q.target[e]) + TWO_31
    ensures var s := Advanced(q, cycles);
            && !q.Due(q.target[e])
            && (s.Due(s.target[e]) <==> q.Distance(q.target[e]) <= cycles)
            && (s.Due(s.target[e]) ==> s.downcount <= 0)
  {
    NotDueIsAhead(q, q.target[e]);
    Reached(q.clock, cycles, q.target[e]);
    hide Plus, Minus, Diff;
  }

  // What the CPU's countdown starts from after dispatch.
  function Reload(q: Queue): int {
    if q.next != NEVER && Diff(q.next, q.clock) > 0 then Diff(q.next, q.clock) else 1
  }

  // Dispatch at q has left s: nothing is due, the anchor is the recomputed one, and the countdown is set.
  ghost predicate Dispatched(q: Queue, s: Queue) {
    && s.Valid() && s.clock == q.clock && s.next == Anchor(s) && s.downcount == Reload(s)
    && forall e :: e in s.pending && e < SLOTS ==> !s.Due(s.target[e])
  }

  /** After dispatch the countdown is on time: it is the distance of the soonest event, or a single cycle. */
  lemma DispatchSetsTime(q: Queue, s: Queue)
    requires Dispatched(q, s)
    ensures s.OnTime() && s.downcount > 0
    ensures s.downcount == 1 ||
            exists e :: e in s.pending && e < SLOTS && s.target[e] == s.next && s.downcount == s.Distance(s.target[e])
  {
    BestIsSoonest(s, SLOTS);
    forall e | e in s.pending && e < SLOTS
      ensures s.downcount <= s.Distance(s.target[e])
    {
      AheadOrHalfway(s, s.target[e]);
    }
    if s.downcount != 1 {
      var e :| e in s.pending && e < SLOTS && s.target[e] == s.next && Diff(s.next, s.clock) == s.downcount;
      AheadOrHalfway(s, s.target[e]);
    }
  }

  lemma AheadOrHalfway(q: Queue, t: Word)
    requires !q.Due(t)
    ensures q.Distance(t) == if Diff(t, q.clock) > 0 then Diff(t, q.clock) else TWO_31
  {
  }

  // ---- Runs ----

  // What happens to the queue and the countdown: the CPU runs, an event is scheduled, an interrupt register
  // is written, a DMA transfer charges the countdown alone, and dispatch, which comes only when the
  // countdown has run out.
  datatype Move =
    | Runs(cycles: nat)
    | Schedules(event: nat, cycles: nat)
    | WritesInterrupts
    | Charges(ticks: nat)
    | Dispatches

  ghost predicate Makes(q: Queue, s: Queue, m: Move) {
    match m
    case Runs(cycles) => s == Advanced(q, cycles)
    case Schedules(event, cycles) => event < SLOTS && 0 < cycles <= TWO_31 && s == Scheduled(q, event, cycles)
    case WritesInterrupts => s == q.(downcount := 0)
    case Charges(ticks) => s == q.(downcount := q.downcount - ticks)
    case Dispatches => q.downcount <= 0 && Dispatched(q, s)
  }

  ghost predicate IsRun(qs: seq<Queue>, moves: seq<Move>) {
    && |qs| == |moves| + 1
    && qs[0].pending == {} && qs[0].downcount <= 1
    && forall n :: 0 <= n < |moves| ==> Makes(qs[n], qs[n + 1], moves[n])
  }

  lemma CuttingKeepsTime(q: Queue, downcount: int)
    requires q.OnTime() && (downcount <= 0 || downcount <= q.downcount)
    ensures q.(downcount := downcount).OnTime()
  {
    var s := q.(downcount := downcount);
    forall e | e in s.pending && e < SLOTS
      ensures s.downcount <= s.Distance(s.target[e])
    {
      assert s.Distance(s.target[e]) == q.Distance(q.target[e]);
    }
  }

  /** In every run the countdown is on time, so that no pending event is ever due before it has run out. */
  lemma {:induction false} RunsAreOnTime(qs: seq<Queue>, moves: seq<Move>)
    requires IsRun(qs, moves)
    ensures var q := qs[|moves|];
            && q.Valid() && q.OnTime()
            && (q.downcount > 0 ==> forall e :: e in q.pending && e < SLOTS ==> !q.Due(q.target[e]))
  {
    hide Scheduled, Advanced, Dispatched, Diff;
    var n := |moves|;
    if n == 0 {
      FirstIsOnTime(qs[0]);
    } else {
      assert IsRun(qs[..n], moves[..n - 1]);
      RunsAreOnTime(qs[..n], moves[..n - 1]);
      MoveKeepsTime(qs[n - 1], qs[n], moves[n - 1]);
    }
  }

  lemma FirstIsOnTime(q: Queue)
    requires q.pending == {} && q.downcount <= 1
    ensures q.Valid() && q.OnTime()
  {
  }

  lemma MoveKeepsTime(q: Queue, s: Queue, m: Move)
    requires q.Valid() && q.OnTime() && Makes(q, s, m)
    ensures s.Valid() && s.OnTime()
  {
    hide Diff, Queue.OnTime, NextWith, DowncountWith, Plus, Reload, Anchor;
    match m
    case Runs(cycles) => RunningKeepsTime(q, cycles);
    case Schedules(event, cycles) => ScheduleKeepsTime(q, event, cycles);
    case WritesInterrupts => CuttingKeepsTime(q, 0);
    case Charges(ticks) => CuttingKeepsTime(q, q.downcount - ticks);
    case Dispatches => DispatchSetsTime(q, s);
  }

  // ---- Handlers ----

  datatype Request = Request(event: nat, cycles: nat)

  // What a handler schedules, by the number of handler calls before it and its event.
  type Handlers = (nat, nat) -> seq<Request>

  ghost predicate Ahead(rs: seq<Request>) {
    forall i :: 0 <= i < |rs| ==> rs[i].event < SLOTS && 0 < rs[i].cycles < TWO_31
  }

  // Handlers schedule at least one cycle ahead, and within reach of a signed difference.
  ghost predicate AllAhead(h: Handlers) {
    forall n, e :: Ahead(h(n, e))
  }

  function Apply(q: Queue, rs: seq<Request>): Queue
    requires forall i :: 0 <= i < |rs| ==> rs[i].event < SLOTS
  {
    if rs == [] then q
    else Scheduled(Apply(q, rs[..|rs| - 1]), rs[|rs| - 1].event, rs[|rs| - 1].cycles)
  }

  function Asked(rs: seq<Request>): set<nat> {
    set r | r in rs :: r.event
  }

  // Only the slots asked for differ, and they are pending and not due.
  ghost predicate Touched(q: Queue, s: Queue, asked: set<nat>) {
    && s.Valid() && s.clock == q.clock
    && s.pending == q.pending + asked
    && (forall e :: e in asked ==> e < SLOTS && !q.Due(s.target[e]))
    && (forall e :: 0 <= e < SLOTS && e !in asked ==> s.target[e] == q.target[e])
  }

  lemma ScheduledTouches(q: Queue, e: nat, cycles: nat)
    requires q.Valid() && e < SLOTS && 0 < cycles < TWO_31
    ensures Touched(q, Scheduled(q, e, cycles), {e})
  {
    hide NextWith, DowncountWith, Diff;
    PlusAhead(q.clock, cycles);
    assert Diff(Plus(q.clock, cycles), q.clock) > 0 && Diff(q.clock, Plus(q.clock, cycles)) < 0;
  }

  lemma TouchedTwice(q: Queue, r: Queue, s: Queue, a: set<nat>, b: set<nat>)
    requires Touched(q, r, a) && Touched(r, s, b)
    ensures Touched(q, s, a + b)
  {
    hide Diff;
  }

  lemma {:induction false} ApplyTouches(q: Queue, rs: seq<Request>)
    requires q.Valid() && Ahead(rs)
    ensures Touched(q, Apply(q, rs), Asked(rs))
  {
    hide Scheduled, Diff;
    if rs == [] {
    } else {
      var init, last := rs[..|rs| - 1], rs[|rs| - 1];
      ApplyTouches(q, init);
      ScheduledTouches(Apply(q, init), last.event, last.cycles);
      assert rs == init + [last];
      assert Asked(rs) == Asked(init) + {last.event};
      TouchedTwice(q, Apply(q, init), Apply(q, rs), Asked(init), {last.event});
    }
  }

  // ---- Dispatch ----

  // A dispatch under way from q: which slots have fired, and which have been asked for again.
  ghost predicate Tracks(q: Queue, s: Queue, fired: set<nat>, asked: set<nat>) {
    && s.Valid() && s.clock == q.clock
    && (forall e :: e in fired ==> e in q.pending && e < SLOTS && q.Due(q.target[e]))
    && (forall e :: e in asked ==> e in s.pending && e < SLOTS && !s.Due(s.target[e]))
    && (forall e :: 0 <= e < SLOTS && e !in asked ==>
          (e in s.pending <==> e in q.pending && e !in fired) && s.target[e] == q.target[e])
  }

  // Nothing before slot i is left due, and what is due was pending when the pass began.
  ghost predicate PassedTo(s: Queue, snapshot: set<nat>, i: nat) {
    && (forall e :: e in snapshot && i <= e ==> e in s.pending)
    && (forall e :: e in s.pending && e < SLOTS && s.Due(s.target[e]) ==> i <= e && e in snapshot)
  }

  function Fired(s: Queue, e: nat, rs: seq<Request>): Queue
    requires forall i :: 0 <= i < |rs| ==> rs[i].event < SLOTS
  {
    Apply(s.(pending := s.pending - {e}), rs)
  }

  lemma FiringTracks(q: Queue, s: Queue, fired: set<nat>, asked: set<nat>, snapshot: set<nat>, i: nat, rs: seq<Request>)
    requires Tracks(q, s, fired, asked) && PassedTo(s, snapshot, i) && Ahead(rs)
    requires i < SLOTS && i in snapshot && s.Due(s.target[i])
    ensures Tracks(q, Fired(s, i, rs), fired + {i}, asked + Asked(rs)) && i !in fired
    ensures PassedTo(Fired(s, i, rs), snapshot, i + 1)
  {
    hide Apply, Diff;
    var r := s.(pending := s.pending - {i});
    ApplyTouches(r, rs);
    var f := Fired(s, i, rs);
    assert i !in asked;
    forall e | e in asked + Asked(rs)
      ensures e in f.pending && e < SLOTS && !f.Due(f.target[e])
    {
    }
  }

  // ---- The calls of a dispatch ----

  // The slots named in a sequence of calls.
  function Slots(order: seq<nat>): set<nat> {
    set e | e in order
  }

  // What the calls in `order` ask for, each handler knowing how many were called before it.
  ghost function AskedAll(h: Handlers, order: seq<nat>): set<nat> {
    if order == [] then {}
    else
      var n := |order| - 1;
      AskedAll(h, order[..n]) + Asked(h(n, order[n]))
  }

  // What the calls do, one after another: each takes its slot from those pending and makes its requests.
  ghost function FiredAll(q: Queue, h: Handlers, order: seq<nat>): Queue
    requires AllAhead(h)
  {
    if order == [] then q
    else
      var n := |order| - 1;
      assert Ahead(h(n, order[n]));
      Fired(FiredAll(q, h, order[..n]), order[n], h(n, order[n]))
  }

  // Slot e is to be called: it was pending and due, and no call of a slot before it asked for it again.
  ghost predicate Owed(q: Queue, h: Handlers, order: seq<nat>, e: nat) {
    && e in q.pending && e < SLOTS && q.Due(q.target[e])
    && forall n :: 0 <= n < |order| && order[n] < e ==> e !in Asked(h(n, order[n]))
  }

  // The calls so far are exactly those owed among the slots before `upTo`, in ascending order.
  ghost predicate Exactly(q: Queue, h: Handlers, order: seq<nat>, upTo: nat) {
    && (forall i, j :: 0 <= i < j < |order| ==> order[i] < order[j])
    && (forall e :: e in order ==> e < upTo)
    && (forall e: nat :: e < upTo ==> (e in order <==> Owed(q, h, order, e)))
  }

  lemma {:induction false} AskedByCall(h: Handlers, order: seq<nat>, e: nat)
    ensures e in AskedAll(h, order) <==> exists n :: 0 <= n < |order| && e in Asked(h(n, order[n]))
  {
    if order != [] {
      var m := |order| - 1;
      AskedByCall(h, order[..m], e);
      assert forall n :: 0 <= n < m ==> order[..m][n] == order[n];
    }
  }

  lemma OneMoreCall(q: Queue, h: Handlers, order: seq<nat>, e: nat)
    requires AllAhead(h)
    ensures Slots(order + [e]) == Slots(order) + {e}
    ensures AskedAll(h, order + [e]) == AskedAll(h, order) + Asked(h(|order|, e))
    ensures Ahead(h(|order|, e)) && FiredAll(q, h, order + [e]) == Fired(FiredAll(q, h, order), e, h(|order|, e))
  {
    assert (order + [e])[..|order|] == order;
    assert Ahead(h(|order|, e));
    assert forall f :: f in order + [e] <==> f in order || f == e;
  }

  lemma NoCalls(q: Queue, h: Handlers)
    requires AllAhead(h)
    ensures Slots([]) == {} == AskedAll(h, []) && FiredAll(q, h, []) == q && Exactly(q, h, [], 0)
  {
    assert Slots([]) == {};
  }

  lemma CallIsOwed(q: Queue, s: Queue, h: Handlers, order: seq<nat>, e: nat)
    requires Tracks(q, s, Slots(order), AskedAll(h, order)) && Exactly(q, h, order, e)
    requires e in q.pending && e < SLOTS && s.Due(s.target[e])
    ensures Exactly(q, h, order + [e], e + 1)
  {
    hide Diff;
    AskedByCall(h, order, e);
    var longer := order + [e];
    assert forall n :: 0 <= n < |order| ==> longer[n] == order[n] && order[n] in order;
    assert Owed(q, h, longer, e);
    forall f: nat | f < e + 1
      ensures f in longer <==> Owed(q, h, longer, f)
    {
      if f < e {
        LaterCallIsNothing(q, h, order, e, f);
      } else {
        assert longer[|order|] == e;
      }
    }
  }

  lemma LaterCallIsNothing(q: Queue, h: Handlers, order: seq<nat>, e: nat, f: nat)
    requires f < e
    ensures Owed(q, h, order + [e], f) <==> Owed(q, h, order, f)
    ensures f in order + [e] <==> f in order
  {
    hide Queue.Due;
    var longer := order + [e];
    assert forall n :: 0 <= n < |order| ==> longer[n] == order[n];
  }

  lemma NoCallIsOwed(q: Queue, s: Queue, h: Handlers, order: seq<nat>, e: nat)
    requires Tracks(q, s, Slots(order), AskedAll(h, order)) && Exactly(q, h, order, e)
    requires e < SLOTS && !(e in q.pending && s.Due(s.target[e]))
    ensures Exactly(q, h, order, e + 1)
  {
    hide Diff;
    AskedByCall(h, order, e);
    if e in AskedAll(h, order) {
      var n :| 0 <= n < |order| && e in Asked(h(n, order[n]));
      assert order[n] in order;
    }
    assert !Owed(q, h, order, e);
    assert e !in order;
  }

  /** The calls a dispatch owes are determined: there is only one sequence of them. */
  lemma {:induction false} OrderIsDetermined(q: Queue, h: Handlers, a: seq<nat>, b: seq<nat>)
    requires Exactly(q, h, a, SLOTS) && Exactly(q, h, b, SLOTS)
    ensures a == b
  {
    hide Diff;
    OrderIsPrefix(q, h, a, b, |a|);
    OrderIsPrefix(q, h, b, a, |b|);
  }

  lemma {:induction false} OrderIsPrefix(q: Queue, h: Handlers, a: seq<nat>, b: seq<nat>, n: nat)
    requires Exactly(q, h, a, SLOTS) && Exactly(q, h, b, SLOTS) && n <= |a|
    ensures n <= |b| && a[..n] == b[..n]
  {
    hide Queue.Due;
    if n > 0 {
      OrderIsPrefix(q, h, a, b, n - 1);
      NextOfBoth(q, h, a, b, n - 1);
    }
  }

  lemma NextOfBoth(q: Queue, h: Handlers, a: seq<nat>, b: seq<nat>, n: nat)
    requires Exactly(q, h, a, SLOTS) && Exactly(q, h, b, SLOTS) && n < |a| && n <= |b| && a[..n] == b[..n]
    ensures n < |b| && a[n] == b[n]
  {
    assert forall m :: 0 <= m < n ==> a[m] == a[..n][m] == b[..n][m] == b[m];
    NextIsNoLater(q, h, a, b, n);
    NextIsNoLater(q, h, b, a, n);
  }

  lemma NextIsNoLater(q: Queue, h: Handlers, a: seq<nat>, b: seq<nat>, n: nat)
    requires Exactly(q, h, a, SLOTS) && Exactly(q, h, b, SLOTS) && n < |a| && n <= |b|
    requires forall m :: 0 <= m < n ==> a[m] == b[m]
    ensures n < |b| && b[n] <= a[n]
  {
    hide Queue.Due;
    var e := a[n];
    if n == |b| || e < b[n] {
      assert e in a && Owed(q, h, a, e);
      assert Owed(q, h, b, e);
      var m :| 0 <= m < |b| && b[m] == e;
      assert false;
    }
  }

  // Of the requests for one slot the last decides.
  lemma {:induction false} LastRequestDecides(q: Queue, rs: seq<Request>, i: nat)
    requires q.Valid() && Ahead(rs) && i < |rs|
    requires forall k :: i < k < |rs| ==> rs[k].event != rs[i].event
    ensures var s := Apply(q, rs);
            rs[i].event in s.pending && s.target[rs[i].event] == Plus(q.clock, rs[i].cycles) && s.clock == q.clock
  {
    var n := |rs| - 1;
    ApplyTouches(q, rs[..n]);
    hide NextWith, DowncountWith, Diff, Plus;
    if i < n {
      LastRequestDecides(q, rs[..n], i);
    }
  }

  lemma {:induction false} CallsKeepClock(q: Queue, h: Handlers, order: seq<nat>)
    requires AllAhead(h) && q.Valid()
    ensures FiredAll(q, h, order).Valid() && FiredAll(q, h, order).clock == q.clock
  {
    if order != [] {
      var n := |order| - 1;
      CallsKeepClock(q, h, order[..n]);
      var s := FiredAll(q, h, order[..n]);
      assert Ahead(h(n, order[n]));
      ApplyTouches(s.(pending := s.pending - {order[n]}), h(n, order[n]));
    }
  }

  /** An event that a handler asks for, its own in particular, comes again: after the dispatch it is pending and as many
      cycles ahead as was asked, unless a later request of the same handler or a later handler concerns its slot. */
  lemma {:induction false} AskedComesAgain(q: Queue, h: Handlers, order: seq<nat>, n: nat, i: nat)
    requires AllAhead(h) && q.Valid() && n < |order| && i < |h(n, order[n])|
    requires var rs := h(n, order[n]);
             && (forall k :: i < k < |rs| ==> rs[k].event != rs[i].event)
             && forall m :: n < m < |order| ==> order[m] != rs[i].event && rs[i].event !in Asked(h(m, order[m]))
    ensures var r := h(n, order[n])[i];
            var s := FiredAll(q, h, order);
            r.event < SLOTS && r.event in s.pending && Minus(s.target[r.event], s.clock) == r.cycles
  {
    var m := |order| - 1;
    var rs := h(n, order[n]);
    assert Ahead(rs) && Ahead(h(m, order[m]));
    CallsKeepClock(q, h, order[..m]);
    CallsKeepClock(q, h, order);
    var s := FiredAll(q, h, order[..m]);
    var u := s.(pending := s.pending - {order[m]});
    ApplyTouches(u, h(m, order[m]));
    PlusAhead(q.clock, rs[i].cycles);
    hide Apply, Diff, Plus, Minus;
    if n == m {
      LastRequestDecides(u, rs, i);
    } else {
      AskedComesAgain(q, h, order[..m], n, i);
    }
  }

  class Scheduler {
    var clock: Word
    var pending: set<nat>
    const target: array<Word>
    var next: Word
    var downcount: int

    ghost predicate Valid()
      reads this
    {
      target.Length == SLOTS && forall e :: e in pending ==> e < SLOTS
    }

    ghost function Now(): (q: Queue)
      requires Valid()
      reads this, target
      ensures q.Valid()
    {
      Queue(clock, pending, target[..], next, downcount)
    }

    method Schedule(event: nat, cycles: nat)
      requires Valid() && event < SLOTS
      modifies this, target
      ensures Valid() && Now() == Scheduled(old(Now()), event, cycles)
    {
      pending := pending + {event};
      target[event] := Plus(clock, cycles);
      var dTarget := Diff(next, target[event]);
      var dStale := Diff(next, clock);
      if dTarget > 0 || dStale <= 0 {
        next := target[event];
        var cyclesUntil := Diff(next, clock);
        if 0 < cyclesUntil < downcount {
          downcount := cyclesUntil;
        }
      }
    }

    method RecomputeNext()
      requires Valid()
      modifies this`next
      ensures Valid() && Now() == old(Now()).(next := Anchor(old(Now())))
    {
      ghost var q := Now();
      var soonest, bestDelta := NEVER, TWO_31 - 1;
      for event := 0 to SLOTS
        invariant Valid() && Now() == q && (soonest, bestDelta) == Best(q, event)
      {
        if event in pending {
          var delta := Diff(target[event], clock);
          if 0 < delta < bestDelta {
            soonest, bestDelta := target[event], delta;
          }
        }
      }
      next := soonest;
    }

    method RunHandler(rs: seq<Request>)
      requires Valid() && Ahead(rs)
      modifies this, target
      ensures Valid() && Now() == Apply(old(Now()), rs)
    {
      for i := 0 to |rs|
        invariant Valid() && Now() == Apply(old(Now()), rs[..i])
      {
        assert rs[..i + 1][..i] == rs[..i];
        Schedule(rs[i].event, rs[i].cycles);
      }
      assert rs[..|rs|] == rs;
    }

    method Fire(event: nat, rs: seq<Request>)
      requires Valid() && Ahead(rs)
      modifies this, target
      ensures Valid() && Now() == Fired(old(Now()), event, rs)
    {
      pending := pending - {event};
      RunHandler(rs);
    }

    // One pass over the slots that were pending when it began. Only the first pass calls anything.
    method Pass(h: Handlers, ghost q: Queue, calls0: nat, ghost order0: seq<nat>)
      returns (anyFired: bool, soonest: Word, calls: nat, ghost order: seq<nat>)
      requires Valid() && AllAhead(h) && calls0 == |order0|
      requires Now() == FiredAll(q, h, order0) && Tracks(q, Now(), Slots(order0), AskedAll(h, order0))
      requires if order0 == [] then Now() == q else PassedTo(Now(), {}, SLOTS) && Exactly(q, h, order0, SLOTS)
      modifies this, target
      ensures Valid() && calls == |order| && PassedTo(Now(), {}, SLOTS)
      ensures Now() == FiredAll(q, h, order) && Tracks(q, Now(), Slots(order), AskedAll(h, order))
      ensures Exactly(q, h, order, SLOTS)
      ensures if anyFired then order != [] && !PassedTo(old(Now()), {}, SLOTS)
              else Now() == old(Now()) && order == order0 && soonest == Anchor(Now())
    {
      hide Best, Fired, FiredAll, Diff, Tracks, PassedTo, Ahead, AllAhead, Slots, AskedAll, Exactly;
      var snapshot := pending;
      ghost var start := Now();
      var bestDelta;
      calls, order, anyFired := calls0, order0, false;
      soonest, bestDelta := NEVER, TWO_31 - 1;
      BestOfNone(start);
      PassBegins(start);
      NoCalls(q, h);
      var event := 0;
      while event < SLOTS
        invariant event <= SLOTS && Valid() && calls == |order|
        invariant Now() == FiredAll(q, h, order) && Tracks(q, Now(), Slots(order), AskedAll(h, order))
        invariant PassedTo(Now(), snapshot, event)
        invariant if order0 == [] then Exactly(q, h, order, event) else order == order0 && !anyFired
        invariant if anyFired then order != [] && !PassedTo(start, {}, SLOTS)
                  else Now() == start && order == order0 && (soonest, bestDelta) == Best(start, event)
      {
        ghost var s := Now();
        var t := target[event];
        if event in snapshot && Diff(clock, t) >= 0 {
          if !anyFired {
            DueNotPassed(start, snapshot, event);
          }
          OneMoreCall(q, h, order, event);
          FiringTracks(q, s, Slots(order), AskedAll(h, order), snapshot, event, h(calls, event));
          CallIsOwed(q, s, h, order, event);
          Fire(event, h(calls, event));
          order, calls := order + [event], calls + 1;
          anyFired := true;
        } else {
          NotDueNow(s, snapshot, event);
          if order0 == [] {
            NoCallIsOwed(q, s, h, order, event);
          }
          if !anyFired {
            BestOfMore(start, event);
          }
          if event in snapshot {
            var delta := Diff(t, clock);
            if 0 < delta < bestDelta {
              soonest, bestDelta := t, delta;
            }
          }
        }
        event := event + 1;
      }
      PassEnds(Now(), snapshot);
      AnchorIs(start);
    }

    /** After dispatch nothing is due and the anchor is the recomputed one. In between the handlers in `order` were
        called, one after another, and nothing else was done: exactly the slots that were pending and due and that no
        earlier call asked for again, each once, in ascending order. */
    method DispatchDue(h: Handlers) returns (calls: nat, ghost order: seq<nat>)
      requires Valid() && AllAhead(h)
      modifies this, target
      ensures Valid() && next == Anchor(Now()) && Now().Covers()
      ensures forall e :: e in pending ==> !Now().Due(target[e])
      ensures Now() == FiredAll(old(Now()), h, order).(next := next) && Exactly(old(Now()), h, order, SLOTS)
      ensures calls == |order| && Tracks(old(Now()), Now(), Slots(order), AskedAll(h, order))
    {
      hide Diff, Anchor, FiredAll, Fired, AllAhead, Slots, AskedAll, Exactly;
      ghost var q := Now();
      calls, order := 0, [];
      NoCalls(q, h);
      ghost var first := true;
      while true
        invariant Valid() && calls == |order|
        invariant Now() == FiredAll(q, h, order) && Tracks(q, Now(), Slots(order), AskedAll(h, order))
        invariant if first then order == [] && Now() == q
                  else order != [] && PassedTo(Now(), {}, SLOTS) && Exactly(q, h, order, SLOTS)
        decreases first
      {
        var anyFired, soonest;
        anyFired, soonest, calls, order := Pass(h, q, calls, order);
        if !anyFired {
          ghost var s := Now();
          next := soonest;
          AnchorIgnores(s, soonest, downcount);
          AnchorCovers(s);
          return;
        }
        first := false;
      }
    }

    // The clock advances within an instruction, and the countdown with it.
    method Advance(cycles: nat)
      requires Valid()
      modifies this`clock, this`downcount
      ensures Valid() && Now() == Advanced(old(Now()), cycles)
    {
      clock := Plus(clock, cycles);
      downcount := downcount - cycles;
    }

    /** The end of an instruction: it costs a cycle and its stalls, and when the countdown has run out, the handlers
        of everything due are called and the countdown is set anew. A countdown that was on time still is, and has not
        run out, so nothing is left due. */
    method FinishInstruction(stall: nat, h: Handlers) returns (ghost order: seq<nat>)
      requires Valid() && AllAhead(h)
      modifies this, target
      ensures Valid()
      ensures var q := Advanced(old(Now()), 1 + stall);
              if q.downcount > 0 then Now() == q && order == []
              else
                && Dispatched(q, Now()) && Exactly(q, h, order, SLOTS)
                && Now() == FiredAll(q, h, order).(next := next, downcount := downcount)
      ensures old(Now().OnTime()) ==> Now().OnTime() && downcount > 0
      ensures old(Now().OnTime()) ==> forall e :: e in pending ==> !Now().Due(target[e])
    {
      hide Diff, Plus, Anchor, Best, Queue.OnTime, FiredAll, Fired, AllAhead, Slots, AskedAll, Exactly;
      ghost var start := Now();
      if start.OnTime() {
        RunningKeepsTime(start, 1 + stall);
      }
      Advance(1 + stall);
      ghost var q := Now();
      order := [];
      if downcount <= 0 {
        var calls;
        calls, order := DispatchDue(h);
        ghost var s := Now();
        var until := Diff(next, clock);
        downcount := if next != NEVER && until > 0 then until else 1;
        AnchorIgnores(s, next, downcount);
        DispatchSetsTime(q, Now());
      } else if q.OnTime() {
        RunningIsEarly(q);
      }
    }
  }

  lemma RunningIsEarly(q: Queue)
    requires q.OnTime() && q.downcount > 0
    ensures forall e :: e in q.pending && e < SLOTS ==> !q.Due(q.target[e])
  {
  }

  lemma PassBegins(s: Queue)
    requires s.Valid()
    ensures PassedTo(s, s.pending, 0)
  {
  }

  lemma PassEnds(s: Queue, snapshot: set<nat>)
    requires PassedTo(s, snapshot, SLOTS)
    ensures PassedTo(s, {}, SLOTS)
  {
  }

  lemma NotDueNow(s: Queue, snapshot: set<nat>, i: nat)
    requires PassedTo(s, snapshot, i) && i < SLOTS && !(i in snapshot && s.Due(s.target[i]))
    ensures PassedTo(s, snapshot, i + 1)
  {
  }

  lemma DueNotPassed(s: Queue, snapshot: set<nat>, i: nat)
    requires PassedTo(s, snapshot, i) && i in snapshot && i < SLOTS && s.Due(s.target[i])
    ensures !PassedTo(s, {}, SLOTS)
  {
  }

  lemma AnchorIs(q: Queue)
    ensures Anchor(q) == Best(q, SLOTS).0
  {
  }

  lemma BestOfNone(q: Queue)
    ensures Best(q, 0) == (NEVER, TWO_31 - 1)
  {
  }

  lemma BestOfMore(q: Queue, n: nat)
    requires n < SLOTS
    ensures var best := Best(q, n);
            var ahead := Diff(q.target[n], q.clock);
            Best(q, n + 1) == if n in q.pending && 0 < ahead < best.1 then (q.target[n], ahead) else best
  {
  }

  lemma {:induction false} BestIgnores(q: Queue, next: Word, downcount: int, n: nat)
    requires n <= SLOTS
    ensures Best(q.(next := next, downcount := downcount), n) == Best(q, n)
  {
    if n > 0 {
      BestIgnores(q, next, downcount, n - 1);
    }
  }

  lemma AnchorIgnores(q: Queue, next: Word, downcount: int)
    ensures Anchor(q.(next := next, downcount := downcount)) == Anchor(q)
  {
    BestIgnores(q, next, downcount, SLOTS);
  }
}
