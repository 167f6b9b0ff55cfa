/** Which words a linked list in RAM sends to the GPU: each node its own, in order, and a whole list the
    concatenation of its packets, however the transfer is cut into slices. */
module GpuLists {
  import opened GpuDma
  import opened Words

  // The word of RAM at an aligned address, RAM being mirrored.
  function WordAt(ram: Ram, addr: nat): Word {
    ram[addr / 4 % 0x80000]
  }

  // The n words after addr.
  function WordsAfter(ram: Ram, addr: nat, n: nat): (s: seq<Word>)
    ensures |s| == n
  {
    seq(n, k requires 0 <= k < n => ram[(addr / 4 + 1 + k) % 0x80000])
  }

  lemma LoadIsWord(ram: Ram, addr: nat)
    requires addr % 4 == 0
    ensures Load(ram, addr) == WordAt(ram, addr)
  {
    assert addr == 4 * (addr / 4);
    QuarterOfRest(addr / 4);
  }

  lemma NextIsUnmasked(addr: nat)
    requires addr % 4 == 0 && addr < DMA_RAM_LIMIT
    ensures Masked(addr + 4) == addr + 4
  {
  }

  // How many of the n words after addr lie below the limit.
  function Below(addr: nat, n: nat): nat
    requires addr < DMA_RAM_LIMIT
  {
    if addr + 4 * n < DMA_RAM_LIMIT then n else (DMA_RAM_LIMIT - 1 - addr) / 4
  }

  /** The words a node sends are the ones that follow its header in RAM, in order, each from its own place: all n,
      if they lie below the limit; otherwise those that do, and then the transfer has failed. */
  lemma {:induction false} PacketIsWords(ram: Ram, addr: nat, n: nat)
    requires addr % 4 == 0 && addr < DMA_RAM_LIMIT
    ensures Packet(ram, addr, n) == (WordsAfter(ram, addr, Below(addr, n)), addr + 4 * n < DMA_RAM_LIMIT)
    decreases n
  {
    if n > 0 {
      NextIsUnmasked(addr);
      if addr + 4 < DMA_RAM_LIMIT {
        PacketIsWords(ram, addr + 4, n - 1);
        LoadIsWord(ram, addr + 4);
        assert WordsAfter(ram, addr, Below(addr, n)) ==
               [WordAt(ram, addr + 4)] + WordsAfter(ram, addr + 4, Below(addr + 4, n - 1));
      }
    }
  }

  // ---- Lists of packets ----

  datatype Node = Node(addr: nat, words: seq<Word>)

  function AllWords(nodes: seq<Node>): seq<Word> {
    if nodes == [] then [] else AllWords(nodes[..|nodes| - 1]) + nodes[|nodes| - 1].words
  }

  // A node lies in RAM: its header counts its words, which follow it, and links to the next node or is the marker.
  ghost predicate Lies(ram: Ram, node: Node, next: nat) {
    var header := WordAt(ram, node.addr);
    && node.addr % 4 == 0 && node.addr + 4 * |node.words| < DMA_RAM_LIMIT
    && header / 0x1000000 == |node.words|
    && (forall k :: 0 <= k < |node.words| ==> node.words[k] == WordAt(ram, node.addr + 4 * (k + 1)))
    && (if next == END_MARKER then header % 0x1000000 == END_MARKER
        else header % 0x1000000 / 4 * 4 == next && header % 0x1000000 != END_MARKER)
  }

  // Where node j leads.
  function After(nodes: seq<Node>, j: nat): nat {
    if j + 1 < |nodes| then nodes[j + 1].addr else END_MARKER
  }

  ghost predicate LaidOut(ram: Ram, nodes: seq<Node>) {
    nodes != [] && forall j :: 0 <= j < |nodes| ==> Lies(ram, nodes[j], After(nodes, j))
  }

  lemma NodeIsVisited(ram: Ram, node: Node, next: nat)
    requires Lies(ram, node, next) && (next == END_MARKER || next < DMA_RAM_LIMIT)
    ensures Visit(ram, node.addr) ==
            Progress(node.words, if next == END_MARKER then Ended(Marker, END_MARKER) else At(next))
  {
    var n := |node.words|;
    LoadIsWord(ram, node.addr);
    PacketIsWords(ram, node.addr, n);
    var sent := WordsAfter(ram, node.addr, n);
    forall k | 0 <= k < n
      ensures sent[k] == node.words[k]
    {
      assert (node.addr + 4 * (k + 1)) / 4 == node.addr / 4 + 1 + k;
    }
    assert sent == node.words;
  }

  lemma {:induction false} ListIsWalked(ram: Ram, nodes: seq<Node>, m: nat)
    requires LaidOut(ram, nodes) && m <= |nodes|
    ensures Walk(ram, nodes[0].addr, m) ==
            Progress(AllWords(nodes[..m]), if m < |nodes| then At(nodes[m].addr) else Ended(Marker, END_MARKER))
  {
    hide Visit, Lies;
    if m == 0 {
      WalkNone(ram, nodes[0].addr);
    } else {
      ListIsWalked(ram, nodes, m - 1);
      assert Lies(ram, nodes[m - 1], After(nodes, m - 1));
      if m < |nodes| {
        NodeIsBelow(ram, nodes[m], After(nodes, m));
      }
      NodeIsVisited(ram, nodes[m - 1], After(nodes, m - 1));
      assert nodes[..m][..m - 1] == nodes[..m - 1];
    }
  }

  lemma NodeIsBelow(ram: Ram, node: Node, next: nat)
    requires Lies(ram, node, next)
    ensures node.addr < DMA_RAM_LIMIT
  {
  }

  /** Whatever list of packets is laid out in RAM as linked nodes, the transfer from its first node sends exactly the
      packets' words in order and ends on the marker, in at most as many slices as there are nodes. */
  lemma {:induction false} ListsAreSent(ram: Ram, nodes: seq<Node>)
    requires LaidOut(ram, nodes)
    ensures Slices(ram, nodes[0].addr, |nodes|) == Progress(AllWords(nodes), Ended(Marker, END_MARKER))
  {
    hide Walk, Slices;
    ListIsWalked(ram, nodes, |nodes|);
    assert nodes[..|nodes|] == nodes;
    SlicesEndAsWalk(ram, nodes[0].addr, |nodes|);
  }

  lemma AddressIs(s: Status, before: nat)
    ensures AddressAfter(s, before) == if s.At? then s.addr else if s.kept >= 0 then s.kept else before
  {
  }

  /** The DMA unit, run slice after slice over an unchanged list from its start. */
  method SendList(dma: Dma, ghost nodes: seq<Node>, slices: nat)
    requires dma.Valid() && LaidOut(dma.ram[..], nodes) && dma.llActive && dma.llAddr == nodes[0].addr
    requires slices == |nodes|
    modifies dma
    ensures dma.gp0 == old(dma.gp0) + AllWords(nodes) && !dma.llActive && dma.busError == old(dma.busError)
    ensures dma.llAddr == END_MARKER && dma.Valid()
  {
    hide Slice, LaidOut, AddressAfter;
    ghost var ram := dma.ram[..];
    ghost var first := dma.llAddr;
    var k := 0;
    while k < slices
      invariant k <= slices && dma.Valid() && dma.ram[..] == ram
      invariant var p := Slices(ram, first, k);
                && dma.gp0 == old(dma.gp0) + p.sent && dma.llActive == p.status.At?
                && (p.status.At? ==> dma.llAddr == p.status.addr && dma.busError == old(dma.busError))
                && (p.status.Ended? ==>
                      && dma.busError == (old(dma.busError) || p.status.end.BusError?)
                      && (p.status.kept >= 0 ==> dma.llAddr == p.status.kept))
    {
      ghost var p := Slices(ram, first, k);
      var done, words := dma.RunSlice();
      if p.status.At? {
        ghost var s := Slice(ram, p.status.addr, 0).0;
        assert (old(dma.gp0) + p.sent) + s.sent == old(dma.gp0) + (p.sent + s.sent);
        assert Slices(ram, first, k + 1) == Progress(p.sent + s.sent, s.status);
        AddressIs(s.status, p.status.addr);
      }
      k := k + 1;
    }
    ListsAreSent(ram, nodes);
  }
}
