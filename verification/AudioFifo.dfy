/** The bounded queue of decoded audio frames between the CD drive and the sound chip. */
module AudioFifo {
  import opened Words

  type Sample = x: int | -32768 <= x < 32768

  datatype Frame = Frame(left: Sample, right: Sample)

  const CAPACITY := 44100 * 4
  const MAX_LATENCY := 2352 * 4

  // ---- Frames as words: left in the low half, right in the high half ----

  function Unsigned(x: Sample): nat {
    if x < 0 then x + 65536 else x
  }

  function Signed(u: nat): Sample
    requires u < 65536
  {
    if u < 32768 then u else u - 65536
  }

  function Pack(f: Frame): Word {
    Unsigned(f.left) + Unsigned(f.right) * 65536
  }

  function Unpack(w: Word): Frame {
    Frame(Signed(w % 65536), Signed(w / 65536))
  }

  lemma PackRoundTrip(f: Frame)
    ensures Unpack(Pack(f)) == f
  {
    var l, r := Unsigned(f.left), Unsigned(f.right);
    assert (l + r * 65536) % 65536 == l && (l + r * 65536) / 65536 == r;
  }

  // ---- What pushing does to the frames in the queue ----

  function Pushed(queue: seq<Frame>, f: Frame): seq<Frame> {
    (if |queue| >= MAX_LATENCY then queue[1..] else queue) + [f]
  }

  function PushedAll(queue: seq<Frame>, frames: seq<Frame>): seq<Frame> {
    if frames == [] then queue else Pushed(PushedAll(queue, frames[..|frames| - 1]), frames[|frames| - 1])
  }

  // The last n of a sequence, or all of it when it is shorter.
  function Newest(s: seq<Frame>, n: nat): seq<Frame> {
    if |s| <= n then s else s[|s| - n..]
  }

  lemma PushedNewest(s: seq<Frame>, f: Frame)
    ensures Pushed(Newest(s, MAX_LATENCY), f) == Newest(s + [f], MAX_LATENCY)
  {
  }

  /** Pushing any number of frames leaves the newest of what the queue held and what was pushed. */
  lemma {:induction false} QueueHoldsTheNewest(queue: seq<Frame>, frames: seq<Frame>)
    requires |queue| <= MAX_LATENCY
    ensures PushedAll(queue, frames) == Newest(queue + frames, MAX_LATENCY)
  {
    if frames == [] {
      assert queue + frames == queue;
    } else {
      var init := frames[..|frames| - 1];
      hide Pushed, Newest;
      QueueHoldsTheNewest(queue, init);
      PushedNewest(queue + init, frames[|frames| - 1]);
      assert queue + frames == (queue + init) + [frames[|frames| - 1]];
    }
  }

  lemma {:induction false} PushedInTwo(queue: seq<Frame>, first: seq<Frame>, rest: seq<Frame>)
    ensures PushedAll(queue, first + rest) == PushedAll(PushedAll(queue, first), rest)
  {
    if rest == [] {
      assert first + rest == first;
    } else {
      var init := rest[..|rest| - 1];
      PushedInTwo(queue, first, init);
      assert (first + rest)[..|first + rest| - 1] == first + init;
    }
  }

  // What the drive and the sound chip do with the queue.
  datatype Turn = Push(f: Frame) | Pop

  function Popped(queue: seq<Frame>): seq<Frame> {
    if queue == [] then [] else queue[1..]
  }

  function After(queue: seq<Frame>, turns: seq<Turn>): seq<Frame> {
    if turns == [] then queue
    else
      var before := After(queue, turns[..|turns| - 1]);
      match turns[|turns| - 1]
      case Push(f) => Pushed(before, f)
      case Pop => Popped(before)
  }

  // All frames pushed in some turns, oldest first.
  function Offered(turns: seq<Turn>): seq<Frame> {
    if turns == [] then []
    else
      var before := Offered(turns[..|turns| - 1]);
      match turns[|turns| - 1]
      case Push(f) => before + [f]
      case Pop => before
  }

  /** However pushes and pops are interleaved, the queue holds the newest of what it held and of all frames
      pushed so far, and never more than the latency limit. */
  lemma {:induction false} QueueIsTheNewest(queue: seq<Frame>, turns: seq<Turn>)
    requires |queue| <= MAX_LATENCY
    ensures var q := After(queue, turns);
            |q| <= MAX_LATENCY && q == Newest(queue + Offered(turns), |q|)
  {
    if turns == [] {
      assert queue + Offered(turns) == queue;
    } else {
      var n := |turns| - 1;
      QueueIsTheNewest(queue, turns[..n]);
      var all := queue + Offered(turns[..n]);
      NewestAfterTurn(all, After(queue, turns[..n]), turns[n]);
      if turns[n].Push? {
        assert queue + Offered(turns) == all + [turns[n].f];
      }
    }
  }

  lemma NewestAfterTurn(all: seq<Frame>, q: seq<Frame>, turn: Turn)
    requires |q| <= MAX_LATENCY && q == Newest(all, |q|)
    ensures turn.Push? ==> Pushed(q, turn.f) == Newest(all + [turn.f], |Pushed(q, turn.f)|)
    ensures turn.Pop? ==> Popped(q) == Newest(all, |Popped(q)|)
  {
  }

  // The counters are 32 bits wide.
  function Incremented(n: Word): Word {
    (n + 1) % TWO_32
  }

  // What is pushed is popped, dropped or still queued, to the width of the counters.
  predicate Balanced(pushed: Word, popped: Word, dropped: Word, count: nat) {
    pushed == (popped + dropped + count) % TWO_32
  }

  lemma IncrementedSum(n: Word, rest: nat)
    ensures (Incremented(n) + rest) % TWO_32 == (n + rest + 1) % TWO_32
  {
    if n + 1 == TWO_32 {
      assert n + rest + 1 == TWO_32 + rest;
    }
  }

  lemma IncrementedRest(total: nat)
    ensures Incremented(total % TWO_32) == (total + 1) % TWO_32
  {
  }

  lemma Balances(pushed: Word, popped: Word, dropped: Word, count: nat)
    requires Balanced(pushed, popped, dropped, count)
    ensures Balanced(Incremented(pushed), popped, dropped, count + 1)
    ensures count > 0 ==> Balanced(pushed, Incremented(popped), dropped, count - 1)
    ensures count > 0 ==> Balanced(pushed, popped, Incremented(dropped), count - 1)
  {
    hide Incremented;
    IncrementedRest(popped + dropped + count);
    if count > 0 {
      IncrementedSum(popped, dropped + count - 1);
      IncrementedSum(dropped, popped + count - 1);
    }
  }

  // ---- The ring ----

  type Ring = s: seq<Word> | |s| == CAPACITY witness seq(CAPACITY, _ => 0)

  function Slot(head: nat, i: nat): nat {
    if head + i < CAPACITY then head + i else head + i - CAPACITY
  }

  function Contents(data: Ring, head: nat, count: nat): (s: seq<Frame>)
    requires head < CAPACITY && count <= CAPACITY
    ensures |s| == count
  {
    seq(count, i requires 0 <= i < count => Unpack(data[Slot(head, i)]))
  }

  lemma WithoutOldest(data: Ring, head: nat, count: nat)
    requires head < CAPACITY && 0 < count <= CAPACITY
    ensures Slot(head, 1) == (head + 1) % CAPACITY && Slot(Slot(head, 1), count - 1) == Slot(head, count)
    ensures Contents(data, head, count) == [Unpack(data[head])] + Contents(data, Slot(head, 1), count - 1)
  {
    hide Unpack;
    assert forall i :: 0 <= i < count - 1 ==> Slot(Slot(head, 1), i) == Slot(head, i + 1);
  }

  lemma WithNewest(data: Ring, head: nat, count: nat, f: Frame)
    requires head < CAPACITY && count < CAPACITY
    ensures Slot(head, count + 1) == (Slot(head, count) + 1) % CAPACITY
    ensures Contents(data[Slot(head, count) := Pack(f)], head, count + 1) == Contents(data, head, count) + [f]
  {
    hide Unpack, Pack;
    PackRoundTrip(f);
    assert forall i :: 0 <= i < count ==> Slot(head, i) != Slot(head, count);
  }

  class Fifo {
    const data: array<Word>
    var totalPushed: Word
    var totalPopped: Word
    var totalDropped: Word
    var head: nat
    var tail: nat
    var count: nat

    ghost predicate Valid()
      reads this
    {
      && data.Length == CAPACITY
      && head < CAPACITY && count <= MAX_LATENCY && tail == Slot(head, count)
      && Balanced(totalPushed, totalPopped, totalDropped, count)
    }

    ghost function Frames(): (s: seq<Frame>)
      requires Valid()
      reads this, data
      ensures |s| == count
    {
      Contents(data[..], head, count)
    }

    constructor ()
      ensures Valid() && fresh(data) && Frames() == []
      ensures totalPushed == totalPopped == totalDropped == 0
    {
      data := new Word[CAPACITY](_ => 0);
      totalPushed, totalPopped, totalDropped, head, tail, count := 0, 0, 0, 0, 0, 0;
    }

    method DropOldest()
      requires Valid() && count > 0
      modifies this`head, this`count, this`totalDropped
      ensures Valid() && Frames() == old(Frames())[1..]
    {
      hide Contents, Slot, Balanced, Incremented;
      WithoutOldest(data[..], head, count);
      Balances(totalPushed, totalPopped, totalDropped, count);
      head := (head + 1) % CAPACITY;
      count := count - 1;
      totalDropped := Incremented(totalDropped);
    }

    method Append(f: Frame)
      requires Valid() && count < MAX_LATENCY
      modifies this`tail, this`count, this`totalPushed, data
      ensures Valid() && Frames() == old(Frames()) + [f] && totalPushed == Incremented(old(totalPushed))
    {
      hide Contents, Balanced, Incremented, Pack;
      WithNewest(data[..], head, count, f);
      Balances(totalPushed, totalPopped, totalDropped, count);
      totalPushed := Incremented(totalPushed);
      ghost var before := data[..];
      data[tail] := Pack(f);
      assert data[..] == before[tail := Pack(f)];
      tail := (tail + 1) % CAPACITY;
      count := count + 1;
    }

    /** A push past the latency limit drops the oldest frame; every push keeps the new one. */
    method Push(f: Frame)
      requires Valid()
      modifies this, data
      ensures Valid() && Frames() == Pushed(old(Frames()), f)
      ensures totalPushed == Incremented(old(totalPushed)) && totalPopped == old(totalPopped)
    {
      hide Contents, Slot, Balanced, Incremented;
      if count >= CAPACITY {
        // The source drops the frame here; the latency limit keeps the queue from ever being this full.
        assert false;
      }
      if count >= MAX_LATENCY {
        DropOldest();
      }
      Append(f);
    }

    method Pop() returns (popped: bool, f: Frame)
      requires Valid()
      modifies this`head, this`count, this`totalPopped
      ensures Valid() && popped == (old(Frames()) != [])
      ensures Frames() == Popped(old(Frames()))
      ensures if popped then old(Frames()) == [f] + Frames() && totalPopped == Incremented(old(totalPopped))
              else Frames() == [] && totalPopped == old(totalPopped)
    {
      hide Contents, Slot, Balanced, Incremented, Unpack;
      if count == 0 {
        return false, Frame(0, 0);
      }
      WithoutOldest(data[..], head, count);
      Balances(totalPushed, totalPopped, totalDropped, count);
      totalPopped := Incremented(totalPopped);
      f := Unpack(data[head]);
      head := (head + 1) % CAPACITY;
      count := count - 1;
      popped := true;
    }
  }
}
