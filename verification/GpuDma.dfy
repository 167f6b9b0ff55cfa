/** DMA of a linked list to the GPU, cut into slices, and the ordering-table transfer that builds such
    lists. */
module GpuDma {
  import opened Words

  const RAM_WORDS := 0x80000
  const RAM_SIZE := 0x200000
  // RAM as DMA sees it, mirrored across the first 8 MB.
  const DMA_RAM_LIMIT := 0x800000
  const DMA_SLICE_WORDS := 64
  const END_MARKER := 0xFFFFFF

  type Ram = r: seq<Word> | |r| == RAM_WORDS witness seq(RAM_WORDS, _ => 0)

  function Slot(addr: nat): (i: nat)
    ensures i < RAM_WORDS
  {
    addr % RAM_SIZE / 4
  }

  function Load(ram: Ram, addr: nat): Word {
    ram[Slot(addr)]
  }

  // The source's mask with 00FFFFFCh.
  function Masked(addr: int): nat {
    addr % 0x1000000 / 4 * 4
  }

  // ---- One uninterrupted walk ----

  datatype End = Marker | BusError

  // Where a walk stands: at the node to visit next, or ended. `kept` is the link that ended it, unless
  // the walk ran out of RAM before it reached one.
  datatype Status = At(addr: nat) | Ended(end: End, kept: int)

  const NOTHING_KEPT := -1

  datatype Progress = Progress(sent: seq<Word>, status: Status)

  // The n words after addr, and whether they all lie in RAM.
  function Packet(ram: Ram, addr: nat, n: nat): (p: (seq<Word>, bool))
    ensures |p.0| <= n
    decreases n
  {
    if n == 0 then ([], true)
    else
      var a := Masked(addr + 4);
      if a >= DMA_RAM_LIMIT then ([], false)
      else
        var rest := Packet(ram, a, n - 1);
        ([Load(ram, a)] + rest.0, rest.1)
  }

  function Count(header: Word): nat {
    header / 0x1000000
  }

  function Link(header: Word): nat {
    header % 0x1000000
  }

  function Follow(link: nat): Status {
    if link == END_MARKER then Ended(Marker, link)
    else if Masked(link) >= DMA_RAM_LIMIT then Ended(BusError, link)
    else At(Masked(link))
  }

  // The node at addr: what it sends, and where it leads.
  function Visit(ram: Ram, addr: nat): Progress {
    if addr >= DMA_RAM_LIMIT then Progress([], Ended(BusError, NOTHING_KEPT))
    else
      var header := Load(ram, addr);
      var (words, whole) := Packet(ram, addr, Count(header));
      Progress(words, if whole then Follow(Link(header)) else Ended(BusError, NOTHING_KEPT))
  }

  // The walk after n nodes, or fewer if it has ended.
  function Walk(ram: Ram, addr: nat, n: nat): Progress {
    if n == 0 then Progress([], At(addr))
    else
      var p := Walk(ram, addr, n - 1);
      if p.status.Ended? then p
      else
        var v := Visit(ram, p.status.addr);
        Progress(p.sent + v.sent, v.status)
  }

  // ---- Slices ----

  // What a slice does from addr on once it has moved `words` words: visit nodes until it has moved a
  // slice's worth. Going on to another node counts as a word.
  function Slice(ram: Ram, addr: nat, words: nat): (s: (Progress, nat))
    decreases DMA_SLICE_WORDS - words
  {
    if words >= DMA_SLICE_WORDS then (Progress([], At(addr)), words)
    else
      var v := Visit(ram, addr);
      if v.status.Ended? then (v, words + |v.sent|)
      else
        var (p, w) := Slice(ram, v.status.addr, words + |v.sent| + 1);
        (Progress(v.sent + p.sent, p.status), w)
  }

  // The transfer after k slices.
  function Slices(ram: Ram, addr: nat, k: nat): Progress {
    if k == 0 then Progress([], At(addr))
    else
      var p := Slices(ram, addr, k - 1);
      if p.status.Ended? then p
      else
        var s := Slice(ram, p.status.addr, 0).0;
        Progress(p.sent + s.sent, s.status)
  }

  lemma SliceUnfolds(ram: Ram, addr: nat, words: nat)
    ensures words >= DMA_SLICE_WORDS ==> Slice(ram, addr, words) == (Progress([], At(addr)), words)
    ensures words < DMA_SLICE_WORDS ==>
              var v := Visit(ram, addr);
              if v.status.Ended? then Slice(ram, addr, words) == (v, words + |v.sent|)
              else
                var (p, w) := Slice(ram, v.status.addr, words + |v.sent| + 1);
                Slice(ram, addr, words) == (Progress(v.sent + p.sent, p.status), w)
  {
    hide Visit;
  }

  // How many nodes a slice visits.
  function Nodes(ram: Ram, addr: nat, words: nat): nat
    decreases DMA_SLICE_WORDS - words
  {
    if words >= DMA_SLICE_WORDS then 0
    else
      var v := Visit(ram, addr);
      if v.status.Ended? then 1 else 1 + Nodes(ram, v.status.addr, words + |v.sent| + 1)
  }

  lemma VisitSendsAtMost255(ram: Ram, addr: nat)
    ensures |Visit(ram, addr).sent| <= 255
  {
    if addr < DMA_RAM_LIMIT {
      assert Count(Load(ram, addr)) <= 255;
    }
  }

  // A walk splits at any node it reaches.
  lemma {:induction false} WalkSplits(ram: Ram, addr: nat, m: nat, n: nat)
    requires Walk(ram, addr, m).status.At?
    ensures var p := Walk(ram, addr, m);
            var q := Walk(ram, p.status.addr, n);
            Walk(ram, addr, m + n) == Progress(p.sent + q.sent, q.status)
  {
    hide Visit;
    var p := Walk(ram, addr, m);
    if n == 0 {
      assert p.sent + [] == p.sent;
    } else {
      WalkSplits(ram, addr, m, n - 1);
      var q := Walk(ram, p.status.addr, n - 1);
      if q.status.At? {
        var v := Visit(ram, q.status.addr);
        assert (p.sent + q.sent) + v.sent == p.sent + (q.sent + v.sent);
      }
    }
  }

  lemma WalkNone(ram: Ram, addr: nat)
    ensures Walk(ram, addr, 0) == Progress([], At(addr))
  {
  }

  lemma WalkOne(ram: Ram, addr: nat)
    ensures Walk(ram, addr, 1) == Visit(ram, addr)
  {
    var v := Visit(ram, addr);
    assert Walk(ram, addr, 0) == Progress([], At(addr));
    assert [] + v.sent == v.sent;
  }

  lemma {:induction false} WalkStaysEnded(ram: Ram, addr: nat, m: nat, n: nat)
    requires Walk(ram, addr, m).status.Ended? && m <= n
    ensures Walk(ram, addr, n) == Walk(ram, addr, m)
  {
    hide Visit;
    if m < n {
      WalkStaysEnded(ram, addr, m, n - 1);
    }
  }

  /** A slice is a piece of the walk: it visits at least one node, moves at least 64 words unless the walk ends and
      at most 319, and what it counts is the words it sends and the links it follows. */
  lemma {:induction false} SliceIsWalk(ram: Ram, addr: nat, words: nat)
    ensures Slice(ram, addr, words).0 == Walk(ram, addr, Nodes(ram, addr, words))
    ensures words < DMA_SLICE_WORDS ==> 1 <= Nodes(ram, addr, words) && Slice(ram, addr, words).1 <= 319
    ensures Slice(ram, addr, words).0.status.At? ==> 64 <= Slice(ram, addr, words).1
    ensures var (p, w) := Slice(ram, addr, words);
            w == words + |p.sent| + Nodes(ram, addr, words) - if p.status.Ended? then 1 else 0
    decreases DMA_SLICE_WORDS - words
  {
    hide Visit, Walk;
    WalkNone(ram, addr);
    if words < DMA_SLICE_WORDS {
      var v := Visit(ram, addr);
      VisitSendsAtMost255(ram, addr);
      WalkOne(ram, addr);
      if v.status.At? {
        SliceIsWalk(ram, v.status.addr, words + |v.sent| + 1);
        WalkSplits(ram, addr, 1, Nodes(ram, v.status.addr, words + |v.sent| + 1));
      }
    }
  }

  // How many nodes k slices visit.
  function AllNodes(ram: Ram, addr: nat, k: nat): nat {
    if k == 0 then 0
    else
      var p := Slices(ram, addr, k - 1);
      AllNodes(ram, addr, k - 1) + if p.status.Ended? then 0 else Nodes(ram, p.status.addr, 0)
  }

  /** After any number of slices over unchanged RAM, the transfer is exactly where one uninterrupted walk
      is: the same words sent in the same order, the same node to visit next, or the same end. Every
      slice gets at least one node further. */
  lemma {:induction false} SlicesAreWalk(ram: Ram, addr: nat, k: nat)
    ensures Slices(ram, addr, k) == Walk(ram, addr, AllNodes(ram, addr, k))
    ensures Slices(ram, addr, k).status.At? ==> k <= AllNodes(ram, addr, k)
  {
    hide Walk, Slice, Nodes, Visit;
    if k == 0 {
      WalkNone(ram, addr);
    } else {
      SlicesAreWalk(ram, addr, k - 1);
      var p := Slices(ram, addr, k - 1);
      if p.status.Ended? {
      } else {
        SliceIsWalk(ram, p.status.addr, 0);
        WalkSplits(ram, addr, AllNodes(ram, addr, k - 1), Nodes(ram, p.status.addr, 0));
      }
    }
  }

  /** A walk that ends after n nodes is finished by at most n slices, having sent the same words and ended
      for the same reason. */
  lemma {:induction false} SlicesEndAsWalk(ram: Ram, addr: nat, n: nat)
    requires Walk(ram, addr, n).status.Ended?
    ensures Slices(ram, addr, n) == Walk(ram, addr, n)
  {
    SlicesAreWalk(ram, addr, n);
    var m := AllNodes(ram, addr, n);
    if m < n {
      WalkStaysEnded(ram, addr, m, n);
    } else {
      WalkStaysEnded(ram, addr, n, m);
    }
  }

  // ---- Ordering tables ----

  // The table transfer after i of its n words, from `base` on by `step`: RAM, and whether it is still
  // within RAM. Only the low 24 bits of the running address count.
  function Table(ram: Ram, base: int, step: int, n: nat, i: nat): (Ram, bool) {
    if i == 0 then (ram, true)
    else
      var (before, fits) := Table(ram, base, step, n, i - 1);
      var addr := base + step * (i - 1);
      if !fits || Masked(addr) >= DMA_RAM_LIMIT then (before, false)
      else (before[Slot(Masked(addr)) := Entry(addr, i == n)], true)
  }

  // The last word is the end marker, every other one links to the address below.
  function Entry(addr: int, last: bool): Word {
    if last then END_MARKER else Masked(addr - 4)
  }

  lemma SlotsDiffer(a: nat, b: nat)
    requires a % 4 == 0 && b % 4 == 0 && a < b < a + RAM_SIZE
    ensures Slot(a) != Slot(b)
  {
    var x, y := a / 4, b / 4;
    assert a == 4 * x && b == 4 * y;
    QuarterOfRest(x);
    QuarterOfRest(y);
    assert x < y < x + RAM_WORDS;
    SameRest(x, y);
  }

  lemma QuarterOfRest(x: nat)
    ensures 4 * x % RAM_SIZE / 4 == x % RAM_WORDS
  {
    var q, r := x / RAM_WORDS, x % RAM_WORDS;
    assert 4 * x == q * RAM_SIZE + 4 * r;
    assert 4 * x % RAM_SIZE == 4 * r;
  }

  lemma SameRest(x: nat, y: nat)
    requires x < y < x + RAM_WORDS
    ensures x % RAM_WORDS != y % RAM_WORDS
  {
    assert y - x == (y / RAM_WORDS - x / RAM_WORDS) * RAM_WORDS + (y % RAM_WORDS - x % RAM_WORDS);
  }

  // The address of entry j of a table built downwards from base.
  function EntryAt(base: nat, j: nat): int {
    base - 4 * j
  }

  ghost predicate Fits(base: nat, n: nat) {
    base % 4 == 0 && base < DMA_RAM_LIMIT && 0 < n && 4 * n <= RAM_SIZE && 4 * (n - 1) <= base
  }

  lemma MaskedEntry(base: nat, n: nat, j: nat)
    requires Fits(base, n) && j < n
    ensures 0 <= EntryAt(base, j) < DMA_RAM_LIMIT && EntryAt(base, j) % 4 == 0
    ensures Masked(EntryAt(base, j)) == EntryAt(base, j)
  {
    var a := EntryAt(base, j);
    assert a == 4 * (base / 4 - j);
  }

  lemma {:induction false} TableEntries(ram: Ram, base: nat, n: nat, i: nat, j: nat)
    requires Fits(base, n) && j < i <= n
    ensures Table(ram, base, -4, n, i).1
    ensures EntryAt(base, j) >= 0
    ensures Load(Table(ram, base, -4, n, i).0, EntryAt(base, j)) == Entry(EntryAt(base, j), j == n - 1)
  {
    hide Slot, Masked, Entry;
    MaskedEntry(base, n, i - 1);
    MaskedEntry(base, n, j);
    assert base + -4 * (i - 1) == EntryAt(base, i - 1);
    if j < i - 1 {
      TableEntries(ram, base, n, i - 1, j);
      SlotsDiffer(EntryAt(base, i - 1), EntryAt(base, j));
    } else if i > 1 {
      TableEntries(ram, base, n, i - 1, 0);
    }
  }

  /** Walking a table that was written downwards visits exactly its n entries, in descending address order,
      sends nothing to the GPU, and stops on the end marker without a bus error. */
  lemma {:induction false} TableWalk(ram: Ram, base: nat, n: nat, m: nat)
    requires Fits(base, n) && m <= n
    ensures m < n ==> EntryAt(base, m) >= 0
    ensures Walk(Table(ram, base, -4, n, n).0, base, m) ==
            Progress([], if m < n then At(EntryAt(base, m)) else Ended(Marker, END_MARKER))
  {
    var table := Table(ram, base, -4, n, n).0;
    if m == 0 {
      WalkNone(table, base);
    } else {
      TableWalk(ram, base, n, m - 1);
      TableEntries(ram, base, n, n, m - 1);
      MaskedEntry(base, n, m - 1);
      if m < n {
        MaskedEntry(base, n, m);
      }
      EntryVisit(table, base, n, m - 1);
      ghost var nothing: seq<Word> := [];
      assert nothing + nothing == nothing;
    }
  }

  lemma EntryVisit(ram: Ram, base: nat, n: nat, j: nat)
    requires Fits(base, n) && j < n
    requires EntryAt(base, j) >= 0 && Load(ram, EntryAt(base, j)) == Entry(EntryAt(base, j), j == n - 1)
    ensures j < n - 1 ==> EntryAt(base, j + 1) >= 0
    ensures Visit(ram, EntryAt(base, j)) ==
            Progress([], if j < n - 1 then At(EntryAt(base, j + 1)) else Ended(Marker, END_MARKER))
  {
    hide Slot, Load;
    MaskedEntry(base, n, j);
    if j < n - 1 {
      MaskedEntry(base, n, j + 1);
      assert EntryAt(base, j) - 4 == EntryAt(base, j + 1);
    }
  }

  // ---- The DMA unit ----

  // The list address kept after a slice: the next node, or the link that ended the list.
  function AddressAfter(s: Status, before: nat): nat {
    match s
    case At(a) => a
    case Ended(_, kept) => if kept < 0 then before else kept
  }

  class Dma {
    var llActive: bool
    var llAddr: nat
    var busError: bool
    // Every word GP0 was sent.
    var gp0: seq<Word>
    const ram: array<Word>

    ghost predicate Valid() {
      ram.Length == RAM_WORDS
    }

    constructor ()
      ensures Valid() && fresh(ram) && !llActive && !busError && gp0 == []
    {
      llActive, llAddr, busError, gp0 := false, 0, false, [];
      ram := new Word[RAM_WORDS](_ => 0);
    }

    method Start(base: nat)
      requires Valid()
      modifies this`llActive, this`llAddr
      ensures llActive && llAddr == Masked(base)
    {
      llAddr := Masked(base);
      llActive := true;
    }

    method SendPacket(start: nat, n: nat) returns (whole: bool)
      requires Valid()
      modifies this`gp0
      ensures gp0 == old(gp0) + Packet(ram[..], start, n).0 && whole == Packet(ram[..], start, n).1
    {
      hide Masked, Load, Slot;
      ghost var sent: seq<Word> := [];
      ghost var all := Packet(ram[..], start, n);
      assert sent + all.0 == all.0;
      var addr: nat := start;
      var i := 0;
      while i < n
        invariant i <= n && gp0 == old(gp0) + sent
        invariant all == (sent + Packet(ram[..], addr, n - i).0, Packet(ram[..], addr, n - i).1)
      {
        addr := Masked(addr + 4);
        if addr >= DMA_RAM_LIMIT {
          return false;
        }
        ghost var word := Load(ram[..], addr);
        assert word == ram[Slot(addr)] by { LoadIs(ram[..], addr); }
        gp0 := gp0 + [ram[Slot(addr)]];
        ghost var rest := Packet(ram[..], addr, n - i - 1);
        assert sent + ([word] + rest.0) == (sent + [word]) + rest.0;
        sent := sent + [word];
        i := i + 1;
      }
      whole := true;
    }

    method VisitNode(addr: nat) returns (status: Status)
      requires Valid()
      modifies this`gp0
      ensures gp0 == old(gp0) + Visit(ram[..], addr).sent && status == Visit(ram[..], addr).status
    {
      hide Packet, Masked, Load, Slot;
      if addr >= DMA_RAM_LIMIT {
        return Ended(BusError, NOTHING_KEPT);
      }
      assert ram[Slot(addr)] == Load(ram[..], addr) by { LoadIs(ram[..], addr); }
      var header := ram[Slot(addr)];
      var whole := SendPacket(addr, Count(header));
      if !whole {
        return Ended(BusError, NOTHING_KEPT);
      }
      var rawNext := Link(header);
      if rawNext == END_MARKER {
        return Ended(Marker, rawNext);
      }
      if Masked(rawNext) >= DMA_RAM_LIMIT {
        return Ended(BusError, rawNext);
      }
      return At(Masked(rawNext));
    }

    /** One slice: it goes exactly as far as Slice says from where the last one stopped, and moves at most
        319 words. */
    method RunSlice() returns (done: bool, words: nat)
      requires Valid()
      modifies this
      ensures !old(llActive) ==>
                done && words == 0 && gp0 == old(gp0) && busError == old(busError) && llAddr == old(llAddr) && !llActive
      ensures old(llActive) ==>
                var (p, w) := Slice(ram[..], old(llAddr), 0);
                gp0 == old(gp0) + p.sent && words == w && w <= 319
                && done == p.status.Ended? && llActive == p.status.At?
                && busError == (old(busError) || (done && p.status.end.BusError?))
                && llAddr == AddressAfter(p.status, old(llAddr))
    {
      hide Walk, Visit, Nodes, Slice;
      words, done := 0, true;
      if !llActive {
        return;
      }
      SliceIsWalk(ram[..], llAddr, 0);
      ghost var start := llAddr;
      ghost var sent: seq<Word> := [];
      ghost var all := Slice(ram[..], start, 0);
      assert sent + all.0.sent == all.0.sent;
      var addr: nat := llAddr;
      while words < DMA_SLICE_WORDS
        invariant llActive && llAddr == start && busError == old(busError) && gp0 == old(gp0) + sent
        invariant var (p, w) := Slice(ram[..], addr, words);
                  all == (Progress(sent + p.sent, p.status), w)
        decreases DMA_SLICE_WORDS - words
      {
        SliceUnfolds(ram[..], addr, words);
        ghost var v := Visit(ram[..], addr);
        var before := |gp0|;
        var status := VisitNode(addr);
        words := words + |gp0| - before;
        if status.Ended? {
          llAddr := AddressAfter(status, llAddr);
          busError := busError || status.end == BusError;
          llActive := false;
          return;
        }
        addr := status.addr;
        words := words + 1;
        ghost var p := Slice(ram[..], addr, words).0;
        assert (sent + v.sent) + p.sent == sent + (v.sent + p.sent);
        sent := sent + v.sent;
      }
      SliceUnfolds(ram[..], addr, words);
      llAddr := addr;
      done := false;
    }

    /** The table transfer of n words by `step`; it stops with a bus error where it would leave RAM. */
    method FillTable(base: nat, step: int, n: nat) returns (moved: nat)
      requires Valid() && (step == 4 || step == -4)
      modifies this`busError, ram
      ensures moved <= n && ram[..] == Table(old(ram[..]), Masked(base), step, n, n).0
      ensures busError == (old(busError) || !Table(old(ram[..]), Masked(base), step, n, n).1)
      ensures moved == n <==> Table(old(ram[..]), Masked(base), step, n, n).1
    {
      hide Masked, Slot, Entry;
      ghost var before := ram[..];
      ghost var first := Masked(base);
      var addr: int := Masked(base);
      moved := 0;
      while moved < n
        invariant moved <= n && addr == first + step * moved
        invariant busError == old(busError)
        invariant (ram[..], true) == Table(before, first, step, n, moved)
      {
        var cur := Masked(addr);
        if cur >= DMA_RAM_LIMIT {
          busError := true;
          assert !Table(before, first, step, n, moved + 1).1;
          TableStays(before, first, step, n, moved + 1, n);
          return;
        }
        ram[Slot(cur)] := Entry(addr, moved == n - 1);
        addr := addr + step;
        moved := moved + 1;
      }
    }
  }

  lemma {:induction false} TableStays(ram: Ram, base: int, step: int, n: nat, i: nat, j: nat)
    requires i <= j && !Table(ram, base, step, n, i).1
    ensures Table(ram, base, step, n, j) == (Table(ram, base, step, n, i).0, false)
  {
    if i < j {
      TableStays(ram, base, step, n, i, j - 1);
    }
  }

  lemma LoadIs(ram: Ram, addr: nat)
    ensures Load(ram, addr) == ram[Slot(addr)]
  {
  }
}
