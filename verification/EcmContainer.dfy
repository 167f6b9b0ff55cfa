/** Writing an ECM image, and reading it back: the index built from an encoded image decodes to the
    image that was encoded. */
module EcmContainer {
  import opened EcmHeader
  import opened EcmSector
  import opened EcmImage
  import opened Words
  import opened Wrappers
  import opened SectorCodes

  datatype Block =
    | Literal(data: seq<bv8>)
    | Sectors(kind: nat, sectors: seq<Sector>)
  {
    function Count(): nat {
      if Literal? then |data| else |sectors|
    }

    function Kind(): nat {
      if Literal? then 0 else kind
    }

    // The block can be written: it is not empty, its lengths fit the format's 32 bits, and every
    // sector in it is one whose codes can be left out.
    predicate Encodable() {
      && 0 < Count() < TWO_32
      && (Sectors? ==> 1 <= kind <= 3 && |sectors| * PAYLOAD < TWO_32)
      && (Sectors? ==> forall s :: s in sectors ==> Modellable(kind, s))
    }
  }

  function StrippedAll(kind: nat, sectors: seq<Sector>): seq<bv8>
    requires 1 <= kind <= 3
  {
    if sectors == [] then []
    else StrippedAll(kind, sectors[..|sectors| - 1]) + Stripped(kind, sectors[|sectors| - 1])
  }

  lemma {:induction false} StrippedLength(kind: nat, sectors: seq<Sector>)
    requires 1 <= kind <= 3
    ensures |StrippedAll(kind, sectors)| == CompSize(kind) * |sectors|
  {
    hide CompSize, Stripped;
    if sectors != [] {
      var n := |sectors| - 1;
      StrippedLength(kind, sectors[..n]);
      assert CompSize(kind) * (n + 1) == CompSize(kind) * n + CompSize(kind);
    }
  }

  function Body(b: Block): seq<bv8>
    requires b.Encodable()
  {
    if b.Literal? then b.data else StrippedAll(b.kind, b.sectors)
  }

  function EncodedBlock(b: Block): seq<bv8>
    requires b.Encodable()
  {
    HeaderBytes(b.Kind(), b.Count() - 1) + Body(b)
  }

  predicate AllEncodable(blocks: seq<Block>) {
    forall b :: b in blocks ==> b.Encodable()
  }

  function EncodedBlocks(blocks: seq<Block>): seq<bv8>
    requires AllEncodable(blocks)
  {
    if blocks == [] then [] else EncodedBlock(blocks[0]) + EncodedBlocks(blocks[1..])
  }

  const MAGIC: seq<bv8> := [0x45, 0x43, 0x4D, 0x00]

  // The whole container: magic, blocks, end marker, and whatever the writer puts after it.
  function Container(blocks: seq<Block>, tail: seq<bv8>): seq<bv8>
    requires AllEncodable(blocks)
  {
    MAGIC + EncodedBlocks(blocks) + HeaderBytes(0, END_MARKER) + tail
  }

  // The image bytes of sectors: each without its sync and header, which a literal block carries.
  function PayloadImage(sectors: seq<Sector>): seq<bv8> {
    if sectors == [] then [] else PayloadImage(sectors[..|sectors| - 1]) + sectors[|sectors| - 1][16..]
  }

  function BlockImage(b: Block): seq<bv8> {
    if b.Literal? then b.data else PayloadImage(b.sectors)
  }

  function Image(blocks: seq<Block>): seq<bv8> {
    if blocks == [] then [] else BlockImage(blocks[0]) + Image(blocks[1..])
  }

  lemma LastSectorOfStripped(before: seq<bv8>, kind: nat, sectors: seq<Sector>, after: seq<bv8>)
    requires 1 <= kind <= 3 && sectors != [] && forall s :: s in sectors ==> Modellable(kind, s)
    ensures SectorAt(before + StrippedAll(kind, sectors) + after, kind, |before|, |sectors| - 1)
         == Some(sectors[|sectors| - 1][16..])
  {
    hide Stripped, Modellable, Payload, CompSize;
    var n := |sectors| - 1;
    var last, rest := sectors[n], sectors[..n];
    assert last in sectors;
    StrippedRoundTrip(kind, last);
    StrippedLength(kind, rest);
    var head := before + StrippedAll(kind, rest);
    assert before + StrippedAll(kind, sectors) + after == head + Stripped(kind, last) + after;
    assert (head + Stripped(kind, last) + after)[|head|..|head| + CompSize(kind)] == Stripped(kind, last);
  }

  lemma {:induction false} PayloadsOfStripped(before: seq<bv8>, kind: nat, sectors: seq<Sector>, after: seq<bv8>)
    requires 1 <= kind <= 3 && forall s :: s in sectors ==> Modellable(kind, s)
    ensures |StrippedAll(kind, sectors)| == CompSize(kind) * |sectors|
    ensures Payloads(before + StrippedAll(kind, sectors) + after, kind, |before|, |sectors|) == PayloadImage(sectors)
    decreases |sectors|
  {
    hide Stripped, Modellable, SectorAt, CompSize;
    StrippedLength(kind, sectors);
    if sectors != [] {
      var n := |sectors| - 1;
      var rest := sectors[..n];
      LastSectorOfStripped(before, kind, sectors, after);
      PayloadsOfStripped(before, kind, rest, Stripped(kind, sectors[n]) + after);
      assert before + StrippedAll(kind, sectors) + after
          == before + StrippedAll(kind, rest) + (Stripped(kind, sectors[n]) + after);
    }
  }

  // The run a block is read back as, when its body starts at filePos and its output at out.
  function RunOf(b: Block, filePos: nat, out: nat): Run {
    Run(out, OutLen(b.Kind(), b.Count()), filePos, b.Count(), b.Kind())
  }

  lemma RunOfBlock(before: seq<bv8>, b: Block, after: seq<bv8>, out: nat)
    requires b.Encodable()
    ensures Intact(before + Body(b) + after, RunOf(b, |before|, out))
    ensures RunOutput(before + Body(b) + after, RunOf(b, |before|, out)) == BlockImage(b)
  {
    hide CompSize, Payloads, StrippedAll;
    var file := before + Body(b) + after;
    if b.Literal? {
      assert file[|before|..|before| + |b.data|] == b.data;
    } else {
      PayloadsOfStripped(before, b.kind, b.sectors, after);
    }
  }

  lemma BodyLength(b: Block)
    requires b.Encodable()
    ensures |Body(b)| == FileLen(b.Kind(), b.Count())
  {
    hide CompSize, StrippedAll;
    if b.Sectors? {
      StrippedLength(b.kind, b.sectors);
    }
  }

  lemma NextBlockOfHeader(file: seq<bv8>, pos: nat, out: nat, kind: nat, raw: nat, bytes: nat)
    requires kind < 4 && raw != END_MARKER && ReadHeader(file, pos) == Header(kind, raw, bytes) && pos + bytes < TWO_32
    ensures NextBlock(file, pos, out) ==
            Some((Run(out, OutLen(kind, raw + 1), pos + bytes, raw + 1, kind), pos + bytes + FileLen(kind, raw + 1)))
  {
    hide ReadHeader, OutLen, FileLen;
  }

  // The reader finds the block it was given, and goes on right after it.
  lemma NextBlockOfEncoded(before: seq<bv8>, b: Block, after: seq<bv8>, out: nat)
    requires b.Encodable() && |before + EncodedBlock(b)| < TWO_32
    ensures var body := |before| + |HeaderBytes(b.Kind(), b.Count() - 1)|;
            NextBlock(before + EncodedBlock(b) + after, |before|, out) ==
              Some((RunOf(b, body, out), |before + EncodedBlock(b)|))
  {
    hide Body, FileLen, OutLen, ReadHeader, HeaderBytes, NextBlock;
    var header := HeaderBytes(b.Kind(), b.Count() - 1);
    var file := before + EncodedBlock(b) + after;
    assert file == before + header + (Body(b) + after);
    HeaderRoundTrip(before, b.Kind(), b.Count() - 1, Body(b) + after);
    BodyLength(b);
    NextBlockOfHeader(file, |before|, out, b.Kind(), b.Count() - 1, |header|);
  }

  lemma {:induction false} DecodedConcat(file: seq<bv8>, r: Run, runs: seq<Run>)
    requires AllIntact(file, [r] + runs)
    ensures Intact(file, r) && AllIntact(file, runs)
    ensures Decoded(file, [r] + runs) == RunOutput(file, r) + Decoded(file, runs)
    decreases |runs|
  {
    hide Intact, RunOutput;
    var all := [r] + runs;
    assert all[0] == r;
    forall i | 0 <= i < |runs|
      ensures Intact(file, runs[i])
    {
      assert all[i + 1] == runs[i];
    }
    if runs == [] {
      assert all[..0] == [] && Decoded(file, []) == [];
    } else {
      var n := |runs| - 1;
      assert all[..n + 1] == [r] + runs[..n];
      DecodedConcat(file, r, runs[..n]);
    }
  }

  lemma {:induction false} RunsOfEncoded(before: seq<bv8>, blocks: seq<Block>, tail: seq<bv8>, out: nat)
    requires AllEncodable(blocks) && |before + EncodedBlocks(blocks)| < TWO_32
    ensures var file := before + EncodedBlocks(blocks) + HeaderBytes(0, END_MARKER) + tail;
            var runs := RunsFrom(file, |before|, out);
            && |runs| == |blocks| && AllIntact(file, runs) && Decoded(file, runs) == Image(blocks)
            && forall i :: 0 <= i < |runs| ==> runs[i].kind == blocks[i].Kind() && runs[i].count == blocks[i].Count()
    decreases |blocks|
  {
    hide Intact, RunOutput, NextBlock, EncodedBlock, BlockImage, HeaderBytes;
    var end := HeaderBytes(0, END_MARKER) + tail;
    var file := before + EncodedBlocks(blocks) + HeaderBytes(0, END_MARKER) + tail;
    if blocks == [] {
      assert file == before + HeaderBytes(0, END_MARKER) + tail;
      EndOfBlocks(before, tail, out);
    } else {
      var b, rest := blocks[0], blocks[1..];
      assert b in blocks;
      var after := EncodedBlocks(rest) + end;
      assert file == before + EncodedBlock(b) + after;
      var before' := before + EncodedBlock(b);
      assert |before'| <= |before + EncodedBlocks(blocks)|;
      NextBlockOfEncoded(before, b, after, out);
      var body := |before| + |HeaderBytes(b.Kind(), b.Count() - 1)|;
      var r := RunOf(b, body, out);
      BlockInFile(before, b, after, out);
      assert file == before' + EncodedBlocks(rest) + HeaderBytes(0, END_MARKER) + tail;
      assert before + EncodedBlocks(blocks) == before' + EncodedBlocks(rest);
      RunsOfEncoded(before', rest, tail, out + r.outLen);
      var more := RunsFrom(file, |before'|, out + r.outLen);
      assert AllIntact(file, [r] + more);
      DecodedConcat(file, r, more);
    }
  }

  lemma BlockInFile(before: seq<bv8>, b: Block, after: seq<bv8>, out: nat)
    requires b.Encodable()
    ensures var file := before + EncodedBlock(b) + after;
            var r := RunOf(b, |before| + |HeaderBytes(b.Kind(), b.Count() - 1)|, out);
            Intact(file, r) && RunOutput(file, r) == BlockImage(b)
  {
    hide Intact, RunOutput, Body, HeaderBytes;
    var head := before + HeaderBytes(b.Kind(), b.Count() - 1);
    assert before + EncodedBlock(b) + after == head + Body(b) + after;
    RunOfBlock(head, b, after, out);
  }

  lemma EndOfBlocks(before: seq<bv8>, tail: seq<bv8>, out: nat)
    ensures RunsFrom(before + HeaderBytes(0, END_MARKER) + tail, |before|, out) == []
  {
    hide ReadHeader, HeaderBytes;
    HeaderRoundTrip(before, 0, END_MARKER, tail);
  }

  /** Whatever literal blocks and modelled sectors are written, in any order, indexing the container
      and decoding it from front to back gives the image back, and the runs tile it. */
  lemma {:induction false} ContainerRoundTrip(blocks: seq<Block>, tail: seq<bv8>)
    requires AllEncodable(blocks) && |MAGIC + EncodedBlocks(blocks)| < TWO_32
    ensures var file := Container(blocks, tail);
            var runs := RunsFrom(file, HEADER_SIZE, 0);
            Tiled(runs) && AllIntact(file, runs) && Decoded(file, runs) == Image(blocks)
  {
    RunsOfEncoded(MAGIC, blocks, tail, 0);
    RunsTile(Container(blocks, tail), HEADER_SIZE, []);
    assert [] + RunsFrom(Container(blocks, tail), HEADER_SIZE, 0) == RunsFrom(Container(blocks, tail), HEADER_SIZE, 0);
  }
}
