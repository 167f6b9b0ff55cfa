/** The CPU's inline loads from main RAM, against the bus load they stand in for. */
module FastLoad {
  import opened Words
  import Debugger

  const RAM_SIZE := 0x200000
  // RAM is mirrored four times below this physical address.
  const RAM_WINDOW_END := 0x800000

  type Ram = r: seq<Byte> | |r| == RAM_SIZE witness seq(RAM_SIZE, _ => 0)

  // What a load can read or change: RAM, the read watchpoints and the pause they cause, the stall owed, and
  // the busy window of a DMA transfer.
  datatype Bus = Bus(
    ram: Ram, watch: seq<Debugger.Entry>, paused: bool, stall: Word, loadStall: nat,
    windowOpen: bool, windowEnd: Word, clock: Word, downcount: int)

  datatype Outcome = AddressError | Loaded(value: nat)

  // Counters are 32 bits wide.
  function Sum(a: Word, b: nat): Word {
    (a + b) % TWO_32
  }

  predicate Width(size: nat) {
    size == 1 || size == 2 || size == 4
  }

  // KSEG0 drops the top bit of an address, KSEG1 the top three.
  function Physical(addr: Word): Word {
    var segment := addr / 0x2000_0000;
    if segment == 4 then addr % 0x8000_0000
    else if segment == 5 then addr % 0x2000_0000
    else addr
  }

  // Little-endian bytes.
  function Little(ram: Ram, off: nat, size: nat): nat
    requires off + size <= RAM_SIZE
  {
    if size == 0 then 0 else Little(ram, off, size - 1) + ram[off + size - 1] * Weight(size - 1)
  }

  function Weight(i: nat): nat {
    if i == 0 then 1 else if i == 1 then 0x100 else if i == 2 then 0x1_0000 else 0x100_0000
  }

  // The bytes of a value of `size` bytes lie at off, the lowest first.
  predicate StoredAt(ram: Ram, off: nat, value: Word, size: nat)
    requires Width(size) && off + size <= RAM_SIZE
  {
    && ram[off] == value % 0x100
    && (size >= 2 ==> ram[off + 1] == value / 0x100 % 0x100)
    && (size == 4 ==> ram[off + 2] == value / 0x1_0000 % 0x100 && ram[off + 3] == value / 0x100_0000)
  }

  /** Reading bytes gives exactly the value they are the bytes of. */
  lemma BytesAreRead(ram: Ram, off: nat, value: Word, size: nat)
    requires Width(size) && off + size <= RAM_SIZE
    requires if size == 4 then true else if size == 2 then value < 0x1_0000 else value < 0x100
    ensures Little(ram, off, size) == value <==> StoredAt(ram, off, value, size)
  {
    LittleIs(ram, off, size);
    hide Little, Weight;
    BytesOf(value);
    if Little(ram, off, size) == value {
      BytesOf(ram[off]);
      TopBytes(ram[off], if size >= 2 then ram[off + 1] else 0, if size == 4 then ram[off + 2] else 0,
               if size == 4 then ram[off + 3] else 0);
    }
  }

  lemma LittleIs(ram: Ram, off: nat, size: nat)
    requires Width(size) && off + size <= RAM_SIZE
    ensures size == 1 ==> Little(ram, off, size) == ram[off]
    ensures size == 2 ==> Little(ram, off, size) == ram[off] as int + ram[off + 1] as int * 0x100
    ensures size == 4 ==>
              Little(ram, off, size) ==
              ram[off] as int + ram[off + 1] as int * 0x100 + ram[off + 2] as int * 0x1_0000
              + ram[off + 3] as int * 0x100_0000
  {
    assert Little(ram, off, 1) == ram[off];
    if size >= 2 {
      assert Little(ram, off, 2) == ram[off] as int + ram[off + 1] as int * 0x100;
    }
    if size == 4 {
      assert Little(ram, off, 3) == Little(ram, off, 2) + ram[off + 2] as int * 0x1_0000;
    }
  }

  lemma BytesOf(value: Word)
    ensures value == value % 0x100 + 0x100 * (value / 0x100 % 0x100) + 0x1_0000 * (value / 0x1_0000 % 0x100)
                     + 0x100_0000 * (value / 0x100_0000)
    ensures value < 0x1_0000 ==>
              value / 0x1_0000 == 0 && value / 0x100_0000 == 0 && value / 0x100 % 0x100 == value / 0x100
  {
  }

  lemma TopBytes(a: nat, b: nat, c: nat, d: nat)
    requires a < 0x100 && b < 0x100 && c < 0x100
    ensures var v := a + b * 0x100 + c * 0x1_0000 + d * 0x100_0000;
            v % 0x100 == a && v / 0x100 % 0x100 == b && v / 0x1_0000 % 0x100 == c && v / 0x100_0000 == d
  {
    var v := a + b * 0x100 + c * 0x1_0000 + d * 0x100_0000;
    var high := c + d * 0x100;
    assert v / 0x100 == b + high * 0x100;
    assert v / 0x1_0000 == high;
    assert v / 0x100_0000 == d;
  }

  /** A word is its two halfwords, the lower one first. */
  lemma WordIsHalves(ram: Ram, off: nat)
    requires off + 4 <= RAM_SIZE
    ensures Little(ram, off, 4) == Little(ram, off, 2) + 0x1_0000 * Little(ram, off + 2, 2)
  {
    LittleIs(ram, off, 4);
    LittleIs(ram, off, 2);
    LittleIs(ram, off + 2, 2);
  }

  // ---- The full load ----

  // RAM's own load refuses what would run past its end.
  function RamLoad(ram: Ram, off: nat, size: nat): nat {
    if off + size > RAM_SIZE then 0 else Little(ram, off, size)
  }

  predicate WaitsForDma(phys: Word) {
    phys < RAM_WINDOW_END || 0x1F80_1000 <= phys < 0x1F80_2000
  }

  // How long a read waits: what is left of the window, or nothing.
  function Wait(clock: Word, stall: Word, windowEnd: Word): nat {
    var left := Signed32(windowEnd - (clock + stall));
    if left > 0 then left else 0
  }

  function Stalled(b: Bus): Bus {
    b.(stall := Sum(b.stall, b.loadStall))
  }

  // Time passes, and the CPU's countdown to the next event with it.
  function Delayed(b: Bus, cycles: nat): Bus {
    b.(clock := Sum(b.clock, cycles), downcount := b.downcount - cycles)
  }

  // A read of RAM or of the I/O ports waits for an open DMA window to close.
  function Waited(b: Bus, phys: Word): Bus {
    if b.windowOpen && WaitsForDma(phys)
    then Delayed(b, Wait(b.clock, b.stall, b.windowEnd)).(windowOpen := false)
    else b
  }

  function Charged(b: Bus, phys: Word): Bus {
    if phys < RAM_WINDOW_END then Waited(Stalled(b), phys) else Waited(b, phys)
  }

  function ValueAt(ram: Ram, elsewhere: Word -> nat, addr: Word, size: nat): nat {
    var phys := Physical(addr);
    if phys < RAM_WINDOW_END then RamLoad(ram, phys % RAM_SIZE, size) else elsewhere(addr)
  }

  // The debugger sees the access.
  function Seen(b: Bus, addr: Word, size: nat): Bus {
    b.(paused := b.paused || Debugger.Watched(b.watch, addr, size))
  }

  function FullLoad(b: Bus, elsewhere: Word -> nat, addr: Word, size: nat): (Outcome, Bus)
    requires Width(size)
  {
    if addr % size != 0 then (AddressError, b)
    else
      (Loaded(ValueAt(b.ram, elsewhere, addr, size)), Charged(Seen(b, addr, size), Physical(addr)))
  }

  /** A read of RAM or of the I/O ports behind an open DMA window takes exactly until the window has closed: not at
      all if it has, and otherwise the clock with the stall owed is then at its end. Clock and countdown move
      together. */
  lemma LoadsWaitOut(b: Bus, phys: Word)
    requires b.windowOpen && WaitsForDma(phys)
    ensures var left := Signed32(b.windowEnd - (b.clock + b.stall));
            var t := Waited(b, phys);
            && !t.windowOpen && t.stall == b.stall
            && (left <= 0 ==> t.clock == b.clock && t.downcount == b.downcount)
            && (left > 0 ==> (t.clock + t.stall) % TWO_32 == b.windowEnd && b.downcount - t.downcount == left)
  {
    var difference := b.windowEnd - (b.clock + b.stall);
    var left := Signed32(difference);
    if left > 0 {
      var turns := difference / TWO_32;
      assert difference == left + turns * TWO_32;
      var carried := (b.clock + left) / TWO_32;
      assert Sum(b.clock, left) == b.clock + left - carried * TWO_32;
      assert Sum(b.clock, left) + b.stall == b.windowEnd + (0 - turns - carried) * TWO_32;
    }
  }

  // ---- The fast load ----

  predicate FastOk(b: Bus, addr: Word, size: nat)
    requires Width(size)
  {
    addr % size == 0 && b.watch == [] && !b.windowOpen && Physical(addr) < RAM_WINDOW_END
  }

  lemma PhysicalIs(addr: Word)
    ensures Physical(addr) == addr || Physical(addr) == addr - 0x8000_0000 || Physical(addr) == addr - 0xA000_0000
  {
  }

  lemma OffsetIs(phys: nat) returns (mirror: nat)
    requires phys < RAM_WINDOW_END
    ensures phys % RAM_SIZE == phys - mirror * RAM_SIZE
  {
    mirror := phys / RAM_SIZE;
  }

  // An offset in step with an aligned address leaves room for the access.
  lemma AlignedFits(addr: nat, segment: nat, mirror: nat, size: nat)
    requires Width(size) && addr % size == 0
    requires 0 <= addr - segment * 0x2000_0000 - mirror * RAM_SIZE < RAM_SIZE
    ensures addr - segment * 0x2000_0000 - mirror * RAM_SIZE + size <= RAM_SIZE
  {
    if size == 4 {
      assert addr == 4 * (addr / 4);
    } else if size == 2 {
      assert addr == 2 * (addr / 2);
    }
  }

  lemma OffsetFits(addr: Word, size: nat)
    requires Width(size) && addr % size == 0 && Physical(addr) < RAM_WINDOW_END
    ensures Physical(addr) % RAM_SIZE + size <= RAM_SIZE
  {
    hide Physical;
    PhysicalIs(addr);
    var mirror := OffsetIs(Physical(addr));
    if Physical(addr) == addr {
      AlignedFits(addr, 0, mirror, size);
    } else if Physical(addr) == addr - 0x8000_0000 {
      AlignedFits(addr, 4, mirror, size);
    } else {
      AlignedFits(addr, 5, mirror, size);
    }
  }

  /** Wherever the fast path applies it gives the value, the stall and everything else the full load
      gives: the checks it skips decide nothing there. */
  lemma FastLoadIsFullLoad(b: Bus, elsewhere: Word -> nat, addr: Word, size: nat)
    requires Width(size) && FastOk(b, addr, size)
    ensures Physical(addr) % RAM_SIZE + size <= RAM_SIZE
    ensures FullLoad(b, elsewhere, addr, size) == (Loaded(Little(b.ram, Physical(addr) % RAM_SIZE, size)), Stalled(b))
  {
    OffsetFits(addr, size);
    assert !Debugger.Watched(b.watch, addr, size);
    assert b.(paused := b.paused) == b;
  }

  class CpuBus {
    const ram: array<Byte>
    const watchpoints: Debugger.AddressList
    var paused: bool
    var memStallCycles: Word
    const loadStall: nat
    var windowOpen: bool
    var windowEnd: Word
    var cycleCounter: Word
    var downcount: int

    ghost predicate Valid()
      reads this, watchpoints, watchpoints.addrs, watchpoints.enabled, watchpoints.filter
    {
      ram.Length == RAM_SIZE && watchpoints.Valid()
    }

    ghost function Now(): Bus
      requires Valid()
      reads this, ram, watchpoints, watchpoints.addrs, watchpoints.enabled, watchpoints.filter
    {
      Bus(ram[..], watchpoints.List(), paused, memStallCycles, loadStall, windowOpen, windowEnd, cycleCounter,
          downcount)
    }

    constructor (readWatchpoints: Debugger.AddressList, stall: nat)
      requires readWatchpoints.Valid()
      ensures Valid() && fresh(ram) && watchpoints == readWatchpoints && loadStall == stall
      ensures !paused && !windowOpen && memStallCycles == 0
    {
      ram := new Byte[RAM_SIZE](_ => 0);
      watchpoints, loadStall := readWatchpoints, stall;
      paused, windowOpen, windowEnd, memStallCycles, cycleCounter, downcount := false, false, 0, 0, 0, 0;
    }

    method ReadBytes(off: nat, size: nat) returns (value: nat)
      requires Valid() && Width(size) && off + size <= RAM_SIZE
      ensures value == Little(ram[..], off, size)
    {
      hide Weight;
      value := 0;
      for i := 0 to size
        invariant value == Little(ram[..], off, i)
      {
        value := value + ram[off + i] * Weight(i);
      }
    }

    method TryLoad(addr: Word, size: nat) returns (ok: bool, value: nat)
      requires Valid() && Width(size)
      modifies this`memStallCycles
      ensures Valid() && ok == FastOk(old(Now()), addr, size)
      ensures if ok then Physical(addr) % RAM_SIZE + size <= RAM_SIZE && Now() == Stalled(old(Now()))
                         && value == Little(ram[..], Physical(addr) % RAM_SIZE, size)
              else Now() == old(Now())
    {
      hide Little, Physical;
      value := 0;
      var phys := Physical(addr);
      ok := addr % size == 0 && watchpoints.count == 0 && !windowOpen && phys < RAM_WINDOW_END;
      if ok {
        OffsetFits(addr, size);
        memStallCycles := Sum(memStallCycles, loadStall);
        value := ReadBytes(phys % RAM_SIZE, size);
      }
    }

    method ChargeLoad(phys: Word)
      requires Valid()
      modifies this`memStallCycles, this`windowOpen, this`cycleCounter, this`downcount
      ensures Valid() && Now() == Charged(old(Now()), phys)
    {
      hide Wait, Sum;
      if phys < RAM_WINDOW_END {
        memStallCycles := Sum(memStallCycles, loadStall);
      }
      if windowOpen {
        if WaitsForDma(phys) {
          var wait := Wait(cycleCounter, memStallCycles, windowEnd);
          cycleCounter := Sum(cycleCounter, wait);
          downcount := downcount - wait;
          windowOpen := false;
        }
      }
    }

    method SeeLoad(addr: Word, size: nat)
      requires Valid() && Width(size)
      modifies this`paused
      ensures Valid() && Now() == Seen(old(Now()), addr, size)
    {
      hide Debugger.Watched;
      paused := watchpoints.CheckWatchpoint(paused, addr, size);
    }

    method ReadValue(elsewhere: Word -> nat, addr: Word, size: nat) returns (value: nat)
      requires Valid() && Width(size)
      ensures value == ValueAt(ram[..], elsewhere, addr, size)
    {
      hide Little, Physical;
      var phys := Physical(addr);
      if phys >= RAM_WINDOW_END {
        return elsewhere(addr);
      }
      var off := phys % RAM_SIZE;
      if off + size > RAM_SIZE {
        return 0;
      }
      value := ReadBytes(off, size);
    }

    method Load(elsewhere: Word -> nat, addr: Word, size: nat) returns (out: Outcome)
      requires Valid() && Width(size)
      modifies this`paused, this`memStallCycles, this`windowOpen, this`cycleCounter, this`downcount
      ensures Valid() && (out, Now()) == FullLoad(old(Now()), elsewhere, addr, size)
    {
      hide ValueAt, Physical, Charged, Seen;
      if addr % size != 0 {
        return AddressError;
      }
      SeeLoad(addr, size);
      ChargeLoad(Physical(addr));
      var value := ReadValue(elsewhere, addr, size);
      return Loaded(value);
    }

    /** The CPU's load: the fast path where it applies, the full load elsewhere, and in every case just what
        the full load would have done. */
    method CpuLoad(elsewhere: Word -> nat, addr: Word, size: nat) returns (out: Outcome)
      requires Valid() && Width(size)
      modifies this`paused, this`memStallCycles, this`windowOpen, this`cycleCounter, this`downcount
      ensures Valid() && (out, Now()) == FullLoad(old(Now()), elsewhere, addr, size)
    {
      hide FullLoad, Little, Physical, Stalled;
      ghost var b := Now();
      var ok, value := TryLoad(addr, size);
      if ok {
        FastLoadIsFullLoad(b, elsewhere, addr, size);
        return Loaded(value);
      }
      out := Load(elsewhere, addr, size);
    }
  }
}
