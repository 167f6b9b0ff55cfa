/** The debugger's breakpoint and watchpoint lists, and the hash filters that answer most checks without
    walking them. */
module Debugger {
  import opened Words

  const CAPACITY := 16
  const FILTER_WORDS := 32

  type Filter = f: seq<bv32> | |f| == FILTER_WORDS witness seq(FILTER_WORDS, _ => 0)

  // ---- The hash of an address, and its bit in a filter ----

  // Multiplicative hash of the word address, folded to ten bits.
  function Hash(addr: Word): (h: nat)
    ensures h < 1024
  {
    addr / 4 * 2654435761 % TWO_32 / 0x40_0000
  }

  // A bit number as a shift amount.
  function Low(h: nat): bv8 {
    (h % 32) as bv8
  }

  lemma ByteHolds(i: nat)
    requires i < 32
    ensures (i as bv8) as nat == i && (i as bv8) < 32
  {
  }

  lemma LowFacts(h: nat)
    ensures Low(h) as nat == h % 32 && Low(h) < 32
  {
    ByteHolds(h % 32);
  }

  function Shifted(x: bv8): bv32
    requires x < 32
  {
    1 << x
  }

  function Bit(h: nat): bv32 {
    LowFacts(h);
    Shifted(Low(h))
  }

  predicate Meet(a: bv32, b: bv32) {
    a & b != 0
  }

  predicate Has(word: bv32, h: nat) {
    Meet(word, Bit(h))
  }

  function With(word: bv32, h: nat): bv32 {
    word | Bit(h)
  }

  predicate Marked(f: Filter, h: nat)
    requires h < 1024
  {
    Has(f[h / 32], h)
  }

  // The source's filter test.
  predicate Test(f: Filter, addr: Word) {
    Marked(f, Hash(addr))
  }

  function Mark(f: Filter, h: nat): Filter
    requires h < 1024
  {
    f[h / 32 := With(f[h / 32], h)]
  }

  lemma ShiftedOnes(x: bv8, y: bv8)
    requires x < 32 && y < 32
    ensures Meet(Shifted(x), Shifted(y)) <==> x == y
  {
  }

  lemma OneBit(g: nat, h: nat)
    ensures Meet(Bit(g), Bit(h)) <==> g % 32 == h % 32
  {
    hide Low, Shifted, Meet;
    LowFacts(g);
    LowFacts(h);
    ShiftedOnes(Low(g), Low(h));
  }

  lemma AndOfOr(word: bv32, b: bv32, c: bv32)
    ensures (word | b) & c != 0 <==> word & c != 0 || b & c != 0
  {
  }

  lemma OrMeets(word: bv32, b: bv32, c: bv32)
    ensures Meet(word | b, c) <==> Meet(word, c) || Meet(b, c)
  {
    AndOfOr(word, b, c);
  }

  lemma HasWith(word: bv32, h: nat, g: nat)
    ensures Has(With(word, h), g) <==> Has(word, g) || g % 32 == h % 32
  {
    hide Bit, Meet;
    OneBit(h, g);
    OrMeets(word, Bit(h), Bit(g));
  }

  // Setting the bit of one hash value sets that bit and no other.
  lemma MarkSetsOne(f: Filter, h: nat, g: nat)
    requires h < 1024 && g < 1024
    ensures Marked(Mark(f, h), g) <==> Marked(f, g) || g == h
  {
    hide Has, With;
    HasWith(f[h / 32], h, g);
    assert g == g / 32 * 32 + g % 32 && h == h / 32 * 32 + h % 32;
  }

  // The source's rebuild of a filter, over the first n addresses of a list.
  function Image(addrs: seq<Word>): Filter {
    if addrs == [] then seq(FILTER_WORDS, _ => 0 as bv32)
    else Mark(Image(addrs[..|addrs| - 1]), Hash(addrs[|addrs| - 1]))
  }

  lemma ZeroHasNone(h: nat)
    ensures !Has(0, h)
  {
  }

  lemma NothingMarked(h: nat)
    requires h < 1024
    ensures !Marked(seq(FILTER_WORDS, _ => 0 as bv32), h)
  {
    assert seq(FILTER_WORDS, _ => 0 as bv32)[h / 32] == 0;
    ZeroHasNone(h);
  }

  /** A filter is the hash image of its list: exactly the hashes of the list's addresses are marked. */
  lemma {:induction false} ImageIsExact(addrs: seq<Word>, h: nat)
    requires h < 1024
    ensures Marked(Image(addrs), h) <==> exists i :: 0 <= i < |addrs| && Hash(addrs[i]) == h
  {
    hide Hash, Marked, Mark;
    if addrs == [] {
      NothingMarked(h);
    } else {
      var n := |addrs| - 1;
      ImageIsExact(addrs[..n], h);
      MarkSetsOne(Image(addrs[..n]), Hash(addrs[n]), h);
      if Marked(Image(addrs[..n]), h) {
        var i :| 0 <= i < n && Hash(addrs[..n][i]) == h;
        assert Hash(addrs[i]) == h;
      }
      if i :| 0 <= i < |addrs| && Hash(addrs[i]) == h && i < n {
        assert Hash(addrs[..n][i]) == h;
      }
    }
  }

  // ---- The checks ----

  datatype Entry = Entry(addr: Word, enabled: bool)

  function Addrs(list: seq<Entry>): (a: seq<Word>)
    ensures |a| == |list|
  {
    seq(|list|, i requires 0 <= i < |list| => list[i].addr)
  }

  // What walking the whole breakpoint list answers.
  predicate BreaksAt(list: seq<Entry>, pc: Word) {
    exists i :: 0 <= i < |list| && list[i].enabled && list[i].addr == pc
  }

  // Whether an access of `size` bytes at addr reaches wp. The end wraps at 32 bits, as in the source.
  predicate Reaches(addr: Word, size: nat, wp: Word) {
    addr <= wp < (addr + size) % TWO_32
  }

  // What walking the whole watchpoint list answers.
  predicate Watched(list: seq<Entry>, addr: Word, size: nat) {
    exists i :: 0 <= i < |list| && Reaches(addr, size, list[i].addr)
  }

  /** Answering "no" from the filter loses no breakpoint. */
  lemma {:induction false} BreakFilterIsExact(list: seq<Entry>, pc: Word)
    ensures BreaksAt(list, pc) ==> Test(Image(Addrs(list)), pc)
  {
    hide Hash, Marked, Image;
    ImageIsExact(Addrs(list), Hash(pc));
    if BreaksAt(list, pc) {
      var i :| 0 <= i < |list| && list[i].enabled && list[i].addr == pc;
      assert Hash(Addrs(list)[i]) == Hash(pc);
    }
  }

  function LastByte(addr: Word, size: nat): Word {
    (addr + size - 1) % TWO_32
  }

  lemma ReachedHash(addr: Word, size: nat, wp: Word)
    requires (size == 1 || size == 2 || size == 4) && Reaches(addr, size, wp)
    ensures Hash(wp) == Hash(addr) || Hash(wp) == Hash(LastByte(addr, size))
  {
    assert wp / 4 == addr / 4 || wp / 4 == LastByte(addr, size) / 4;
  }

  // The source's early way out of a watchpoint check.
  predicate Missed(f: Filter, addr: Word, size: nat) {
    !Test(f, addr) && !Test(f, LastByte(addr, size))
  }

  /** Two bit tests decide a miss exactly: a watched address inside the access lies in the word of its
      first byte or of its last. */
  lemma {:induction false} WatchFilterIsExact(list: seq<Entry>, addr: Word, size: nat)
    requires size == 1 || size == 2 || size == 4
    ensures Watched(list, addr, size) ==> !Missed(Image(Addrs(list)), addr, size)
  {
    hide Hash, Marked, Image, Reaches;
    if Watched(list, addr, size) {
      var i :| 0 <= i < |list| && Reaches(addr, size, list[i].addr);
      ReachedHash(addr, size, list[i].addr);
      ImageIsExact(Addrs(list), Hash(addr));
      ImageIsExact(Addrs(list), Hash(LastByte(addr, size)));
      assert Hash(Addrs(list)[i]) == Hash(list[i].addr);
    }
  }

  // Whether a watched address lies in an access, counted without wrapping.
  predicate Touched(list: seq<Entry>, addr: Word, size: nat) {
    exists i :: 0 <= i < |list| && addr <= list[i].addr < addr + size
  }

  lemma ReachesUnlessItWraps(addr: Word, size: nat, wp: Word)
    requires size <= 4
    ensures Reaches(addr, size, wp) <==> addr <= wp < addr + size && addr + size < TWO_32
  {
  }

  /** Walking the list answers whether a watched address lies in the access if and only if the access ends
      before the last address, or holds no watched address: where its end wraps, none is seen. */
  lemma WalkSeesTheAccess(list: seq<Entry>, addr: Word, size: nat)
    requires size == 1 || size == 2 || size == 4
    ensures (Watched(list, addr, size) <==> Touched(list, addr, size)) <==>
            addr + size < TWO_32 || !Touched(list, addr, size)
  {
    hide Reaches;
    forall i | 0 <= i < |list|
      ensures Reaches(addr, size, list[i].addr) <==> addr <= list[i].addr < addr + size && addr + size < TWO_32
    {
      ReachesUnlessItWraps(addr, size, list[i].addr);
    }
  }

  // ---- The lists ----

  ghost predicate Distinct(list: seq<Entry>) {
    forall i, j :: 0 <= i < j < |list| ==> list[i].addr != list[j].addr
  }

  // Removal puts the last entry in the place of the removed one.
  function RemovedAt(list: seq<Entry>, i: nat): seq<Entry>
    requires i < |list|
  {
    list[i := list[|list| - 1]][..|list| - 1]
  }

  /** Removing an entry forgets its address and keeps every other one, each still listed once. */
  lemma RemovalForgetsOne(list: seq<Entry>, i: nat, e: Entry)
    requires Distinct(list) && i < |list|
    ensures Distinct(RemovedAt(list, i))
    ensures e in RemovedAt(list, i) <==> e in list && e.addr != list[i].addr
  {
    var r, last := RemovedAt(list, i), |list| - 1;
    if e in list && e.addr != list[i].addr {
      var k :| 0 <= k < |list| && list[k] == e;
      assert if k == last then r[i] == e else r[k] == e;
    }
  }

  // One of the debugger's three lists. Only breakpoints are ever disabled.
  class AddressList {
    const addrs: array<Word>
    const enabled: array<bool>
    const filter: array<bv32>
    var count: nat

    ghost predicate Shaped()
      reads this
    {
      && addrs.Length == CAPACITY && enabled.Length == CAPACITY && filter.Length == FILTER_WORDS
      && addrs as object != enabled && addrs as object != filter && enabled as object != filter
      && count <= CAPACITY
    }

    ghost predicate Valid()
      reads this, addrs, enabled, filter
    {
      && Shaped()
      && Distinct(List())
      && filter[..] == Image(Addrs(List()))
    }

    ghost function List(): (list: seq<Entry>)
      requires Shaped()
      reads this, addrs, enabled
      ensures |list| == count
      ensures forall i :: 0 <= i < count ==> list[i] == Entry(addrs[i], enabled[i])
    {
      seq(count, i requires 0 <= i < count reads this, addrs, enabled requires Shaped() => Entry(addrs[i], enabled[i]))
    }

    constructor ()
      ensures Valid() && List() == [] && fresh(addrs) && fresh(enabled) && fresh(filter)
    {
      addrs := new Word[CAPACITY](_ => 0);
      enabled := new bool[CAPACITY](_ => true);
      filter := new bv32[FILTER_WORDS](_ => 0);
      count := 0;
      new;
      assert filter[..] == seq(FILTER_WORDS, _ => 0 as bv32);
    }

    method RebuildFilter()
      requires Shaped()
      modifies filter
      ensures List() == old(List()) && filter[..] == Image(Addrs(List()))
    {
      hide Hash, With;
      forall i | 0 <= i < FILTER_WORDS {
        filter[i] := 0;
      }
      assert filter[..] == seq(FILTER_WORDS, _ => 0 as bv32);
      ghost var all := Addrs(List());
      for i := 0 to count
        invariant filter[..] == Image(all[..i])
      {
        var h := Hash(addrs[i]);
        assert all[..i + 1][..i] == all[..i];
        filter[h / 32] := With(filter[h / 32], h);
      }
      assert all[..count] == all;
    }

    method Find(addr: Word) returns (i: nat)
      requires Valid()
      ensures i <= count && (i < count ==> List()[i].addr == addr)
      ensures i == count ==> forall k :: 0 <= k < count ==> List()[k].addr != addr
    {
      i := 0;
      while i < count
        invariant i <= count
        invariant forall k :: 0 <= k < i ==> List()[k].addr != addr
      {
        if addrs[i] == addr {
          return;
        }
        i := i + 1;
      }
    }

    /** An address is listed once, at the end, unless it is there already or the list is full. */
    method Add(addr: Word) returns (ok: bool)
      requires Valid()
      modifies this, addrs, enabled, filter
      ensures Valid()
      ensures ok == (addr in Addrs(old(List())) || |old(List())| < CAPACITY)
      ensures List() == if addr in Addrs(old(List())) || !ok then old(List()) else old(List()) + [Entry(addr, true)]
    {
      hide Image;
      ghost var before := List();
      var i := Find(addr);
      if i < count {
        assert Addrs(before)[i] == addr;
        return true;
      }
      assert List() == before;
      assert forall k :: 0 <= k < |before| ==> before[k].addr != addr && Addrs(before)[k] == before[k].addr;
      if count >= CAPACITY {
        return false;
      }
      addrs[count] := addr;
      enabled[count] := true;
      count := count + 1;
      assert List() == before + [Entry(addr, true)];
      RebuildFilter();
      ok := true;
    }

    method Remove(addr: Word) returns (ok: bool)
      requires Valid()
      modifies this, addrs, enabled, filter
      ensures Valid() && ok == (addr in Addrs(old(List())))
      ensures var was := old(List());
              if ok then exists i :: 0 <= i < |was| && was[i].addr == addr && List() == RemovedAt(was, i)
              else List() == was
    {
      hide Image;
      ghost var before := List();
      var i := Find(addr);
      if i == count {
        return false;
      }
      assert Addrs(before)[i] == addr;
      RemovalForgetsOne(before, i, before[i]);
      var last := count - 1;
      count := last;
      addrs[i] := addrs[last];
      enabled[i] := enabled[last];
      assert List() == RemovedAt(before, i);
      RebuildFilter();
      ok := true;
    }

    /** The filtered check pauses exactly when walking the list would. */
    method CheckBreakpoint(paused: bool, pc: Word) returns (nowPaused: bool)
      requires Valid()
      ensures nowPaused == (paused || BreaksAt(List(), pc))
    {
      hide Image, Hash, Marked;
      BreakFilterIsExact(List(), pc);
      if paused {
        return true;
      }
      if !Test(filter[..], pc) {
        return false;
      }
      for i := 0 to count
        invariant forall k :: 0 <= k < i ==> !(List()[k].enabled && List()[k].addr == pc)
      {
        if enabled[i] && addrs[i] == pc {
          assert List()[i].enabled && List()[i].addr == pc;
          return true;
        }
      }
      return false;
    }

    /** So does the filtered check of an access. */
    method CheckWatchpoint(paused: bool, addr: Word, size: nat) returns (nowPaused: bool)
      requires Valid() && (size == 1 || size == 2 || size == 4)
      ensures nowPaused == (paused || Watched(List(), addr, size))
    {
      hide Image, Hash, Marked, LastByte;
      WatchFilterIsExact(List(), addr, size);
      if paused {
        return true;
      }
      if !Test(filter[..], addr) && !Test(filter[..], LastByte(addr, size)) {
        return false;
      }
      for i := 0 to count
        invariant forall k :: 0 <= k < i ==> !Reaches(addr, size, List()[k].addr)
      {
        if Reaches(addr, size, addrs[i]) {
          assert Reaches(addr, size, List()[i].addr);
          return true;
        }
      }
      return false;
    }
  }
}
