/** ECM disc images: the index of runs over the decoded bytes, random sector reads through it, and
    their agreement with decoding the whole image from front to back. */
module EcmImage {
  import opened EcmHeader
  import opened EcmSector
  import opened SectorCodes
  import opened Words
  import opened Wrappers
  import CodeTables

  // A run of decoded bytes: literal bytes (type 0) or modelled sectors (types 1 to 3).
  datatype Run = Run(outStart: nat, outLen: nat, filePos: nat, count: nat, kind: nat) {
    predicate Covers(off: nat) {
      outStart <= off < outStart + outLen
    }
  }

  const END_MARKER := TWO_32 - 1
  const HEADER_SIZE := 4

  // Decoded length of a block, in the 32 bits the source keeps it in.
  function OutLen(kind: nat, count: nat): nat {
    if kind == 0 then count else count * PAYLOAD % TWO_32
  }

  function FileLen(kind: nat, count: nat): nat
    requires kind < 4
  {
    if kind == 0 then count else CompSize(kind) * count
  }

  // The block at pos, as a run producing output from `out` on, and where the next block starts.
  function NextBlock(file: seq<bv8>, pos: nat, out: nat): (b: Option<(Run, nat)>)
    ensures b.Some? ==> pos < |file| && pos < b.value.1 && b.value.0.kind < 4 && b.value.0.outStart == out
  {
    match ReadHeader(file, pos)
    case NoHeader => None
    case Header(kind, raw, bytes) =>
      if raw == END_MARKER then None
      else
        var count := raw + 1;
        Some((Run(out, OutLen(kind, count), (pos + bytes) % TWO_32, count, kind), pos + bytes + FileLen(kind, count)))
  }

  // The runs of the blocks from pos on.
  function RunsFrom(file: seq<bv8>, pos: nat, out: nat): seq<Run>
    decreases |file| - pos
  {
    match NextBlock(file, pos, out)
    case None => []
    case Some((r, next)) => [r] + RunsFrom(file, next, out + r.outLen)
  }

  function End(runs: seq<Run>): nat {
    if runs == [] then 0 else runs[|runs| - 1].outStart + runs[|runs| - 1].outLen
  }

  // The runs tile the output: each starts where the one before it ends.
  predicate Tiled(runs: seq<Run>) {
    && (runs != [] ==> runs[0].outStart == 0)
    && (forall i :: 0 <= i < |runs| ==> runs[i].kind < 4)
    && forall i :: 0 < i < |runs| ==> runs[i].outStart == End(runs[..i])
  }

  lemma {:induction false} RunsInOrder(runs: seq<Run>, i: nat, j: nat)
    requires Tiled(runs) && i < j < |runs|
    ensures runs[i].outStart + runs[i].outLen <= runs[j].outStart
  {
    assert runs[j].outStart == End(runs[..j]);
    if i < j - 1 {
      RunsInOrder(runs, i, j - 1);
    }
  }

  // ---- Decoding one byte through the index ----

  // The payload of sector `index` of a modelled run, when the file holds all that is kept of it.
  function SectorAt(file: seq<bv8>, kind: nat, filePos: nat, index: nat): (p: Option<seq<bv8>>)
    requires 1 <= kind <= 3
    ensures p.Some? ==> |p.value| == PAYLOAD
  {
    var at := filePos + CompSize(kind) * index;
    if at + CompSize(kind) <= |file| then Some(Payload(kind, file[at..at + CompSize(kind)])) else None
  }

  // Byte o of a run, when the file holds what it is decoded from.
  function RunByte(file: seq<bv8>, r: Run, o: nat): Option<bv8>
    requires r.kind < 4
  {
    if r.kind == 0 then
      if r.filePos + o < |file| then Some(file[r.filePos + o]) else None
    else
      match SectorAt(file, r.kind, r.filePos, o / PAYLOAD)
      case None => None
      case Some(p) => Some(p[o % PAYLOAD])
  }

  function ByteAt(file: seq<bv8>, runs: seq<Run>, off: nat): Option<bv8>
    requires forall i :: 0 <= i < |runs| ==> runs[i].kind < 4
  {
    if runs == [] then None
    else
      var last := runs[|runs| - 1];
      if last.Covers(off) then RunByte(file, last, off - last.outStart)
      else ByteAt(file, runs[..|runs| - 1], off)
  }

  lemma {:induction false} ByteOfRun(file: seq<bv8>, runs: seq<Run>, off: nat, i: nat)
    requires Tiled(runs) && i < |runs| && runs[i].Covers(off)
    ensures ByteAt(file, runs, off) == RunByte(file, runs[i], off - runs[i].outStart)
  {
    hide RunByte;
    var n := |runs| - 1;
    if i < n {
      RunsInOrder(runs, i, n);
      TiledPrefix(runs, n);
      ByteOfRun(file, runs[..n], off, i);
    }
  }

  lemma TiledPrefix(runs: seq<Run>, n: nat)
    requires Tiled(runs) && n <= |runs|
    ensures Tiled(runs[..n])
  {
    forall i | 0 < i < n
      ensures runs[..n][i].outStart == End(runs[..n][..i])
    {
      assert runs[..n][..i] == runs[..i];
    }
  }

  lemma {:induction false} ByteOutside(file: seq<bv8>, runs: seq<Run>, off: nat)
    requires forall i :: 0 <= i < |runs| ==> runs[i].kind < 4 && !runs[i].Covers(off)
    ensures ByteAt(file, runs, off) == None
  {
    if runs != [] {
      ByteOutside(file, runs[..|runs| - 1], off);
    }
  }

  // ---- Decoding the whole image from front to back ----

  // The payloads of the first n sectors of a modelled run.
  function Payloads(file: seq<bv8>, kind: nat, filePos: nat, n: nat): (p: seq<bv8>)
    requires 1 <= kind <= 3 && filePos + CompSize(kind) * n <= |file|
    ensures |p| == PAYLOAD * n
  {
    if n == 0 then []
    else
      SectorInFile(file, kind, filePos, n);
      Payloads(file, kind, filePos, n - 1) + SectorAt(file, kind, filePos, n - 1).value
  }

  lemma SectorInFile(file: seq<bv8>, kind: nat, filePos: nat, n: nat)
    requires 1 <= kind <= 3 && n > 0 && filePos + CompSize(kind) * n <= |file|
    ensures filePos + CompSize(kind) * (n - 1) <= |file|
    ensures SectorAt(file, kind, filePos, n - 1).Some?
  {
    hide Payload, CompSize;
    assert CompSize(kind) * n == CompSize(kind) * (n - 1) + CompSize(kind);
  }

  // Everything the run decodes from is in the file, and its length was not cut to 32 bits.
  predicate Intact(file: seq<bv8>, r: Run) {
    && r.kind < 4
    && r.filePos + FileLen(r.kind, r.count) <= |file|
    && r.outLen == if r.kind == 0 then r.count else r.count * PAYLOAD
  }

  predicate AllIntact(file: seq<bv8>, runs: seq<Run>) {
    forall i :: 0 <= i < |runs| ==> Intact(file, runs[i])
  }

  function RunOutput(file: seq<bv8>, r: Run): (p: seq<bv8>)
    requires Intact(file, r)
    ensures |p| == r.outLen
  {
    if r.kind == 0 then file[r.filePos..r.filePos + r.count]
    else Payloads(file, r.kind, r.filePos, r.count)
  }

  function Decoded(file: seq<bv8>, runs: seq<Run>): seq<bv8>
    requires AllIntact(file, runs)
  {
    if runs == [] then []
    else Decoded(file, runs[..|runs| - 1]) + RunOutput(file, runs[|runs| - 1])
  }

  lemma {:induction false} PayloadsByte(file: seq<bv8>, kind: nat, filePos: nat, n: nat, o: nat)
    requires 1 <= kind <= 3 && filePos + CompSize(kind) * n <= |file| && o < PAYLOAD * n
    ensures var p := SectorAt(file, kind, filePos, o / PAYLOAD);
            p.Some? && Payloads(file, kind, filePos, n)[o] == p.value[o % PAYLOAD]
  {
    hide SectorAt, CompSize;
    SectorInFile(file, kind, filePos, n);
    if o < PAYLOAD * (n - 1) {
      PayloadsByte(file, kind, filePos, n - 1, o);
    } else {
      assert o / PAYLOAD == n - 1 && o % PAYLOAD == o - PAYLOAD * (n - 1);
    }
  }

  lemma RunOutputByte(file: seq<bv8>, r: Run, o: nat)
    requires Intact(file, r) && o < r.outLen
    ensures RunByte(file, r, o) == Some(RunOutput(file, r)[o])
  {
    hide SectorAt, CompSize, Payloads;
    if r.kind != 0 {
      PayloadsByte(file, r.kind, r.filePos, r.count, o);
    }
  }

  /** Each byte read through the index is the byte the front-to-back decode has at that offset. */
  lemma {:induction false} ByteIsSequential(file: seq<bv8>, runs: seq<Run>, off: nat)
    requires Tiled(runs) && AllIntact(file, runs)
    ensures |Decoded(file, runs)| == End(runs)
    ensures off < End(runs) ==> ByteAt(file, runs, off) == Some(Decoded(file, runs)[off])
    ensures off >= End(runs) ==> ByteAt(file, runs, off) == None
    decreases |runs|
  {
    hide RunByte, RunOutput;
    if runs != [] {
      var n := |runs| - 1;
      var last := runs[n];
      TiledPrefix(runs, n);
      ByteIsSequential(file, runs[..n], off);
      assert last.outStart == End(runs[..n]);
      if last.Covers(off) {
        RunOutputByte(file, last, off - last.outStart);
      }
    }
  }

  /** The runs the builder finds tile the output from its first byte. */
  lemma {:induction false} RunsTile(file: seq<bv8>, pos: nat, before: seq<Run>)
    requires Tiled(before)
    ensures Tiled(before + RunsFrom(file, pos, End(before)))
    decreases |file| - pos
  {
    hide NextBlock;
    match NextBlock(file, pos, End(before))
    case None =>
      assert before + [] == before;
    case Some((r, next)) =>
      TiledPush(before, r);
      RunsTile(file, next, before + [r]);
      var rest := RunsFrom(file, next, End(before + [r]));
      assert before + ([r] + rest) == (before + [r]) + rest;
  }

  lemma TiledPush(runs: seq<Run>, r: Run)
    requires Tiled(runs) && r.outStart == End(runs) && r.kind < 4
    ensures Tiled(runs + [r])
  {
    var all := runs + [r];
    forall i | 0 < i < |all|
      ensures all[i].outStart == End(all[..i])
    {
      assert all[..i] == runs[..i];
      if i == |runs| {
        assert all[..i] == runs;
      }
    }
  }

  lemma NoRunsYet(file: seq<bv8>)
    ensures Tiled([]) && End([]) == 0
    ensures [] + RunsFrom(file, HEADER_SIZE, 0) == RunsFrom(file, HEADER_SIZE, 0)
  {}

  lemma NextRun(file: seq<bv8>, pos: nat, out: nat, before: seq<Run>)
    ensures before + RunsFrom(file, pos, out) ==
      match NextBlock(file, pos, out)
      case None => before
      case Some((r, next)) => before + [r] + RunsFrom(file, next, out + r.outLen)
  {
    hide NextBlock;
    match NextBlock(file, pos, out)
    case None =>
      assert before + [] == before;
    case Some((r, next)) =>
      var rest := RunsFrom(file, next, out + r.outLen);
      assert before + ([r] + rest) == before + [r] + rest;
  }

  lemma BaseIsWritten(kind: nat, c: seq<bv8>, lba: nat)
    requires 1 <= kind <= 3 && |c| == CompSize(kind)
    ensures Base(kind, c, lba) ==
      var s := Put(Zeros(2352), 0, SYNC);
      if kind == 1 then Put(Put(Put(s, 0x0C, c[..3]), 0x0F, [1]), 0x10, c[3..])
      else Put(Put(Put(Put(Put(s, 0x0C, Msf(lba)), 0x0F, [2]), 0x10, c[..4]), 0x14, c[..4]), 0x18, c[4..])
  {
    hide Msf, Zeros, Put;
    PutNext([], SYNC, 2352);
    var s := SYNC + Zeros(2340);
    if kind == 1 {
      PutNext(SYNC, c[..3], 2340);
      PutNext(SYNC + c[..3], [1], 2337);
      PutNext(SYNC + c[..3] + [1], c[3..], 2336);
    } else {
      var head := SYNC + Msf(lba) + [2];
      PutNext(SYNC, Msf(lba), 2340);
      PutNext(SYNC + Msf(lba), [2], 2337);
      PutNext(head, c[..4], 2336);
      PutNext(head + c[..4], c[..4], 2332);
      PutNext(head + c[..4] + c[..4], c[4..], 2328);
    }
  }

  lemma PutNext(head: seq<bv8>, bytes: seq<bv8>, n: nat)
    requires |head| + n == 2352 && |bytes| <= n
    ensures Put(head + Zeros(n), |head|, bytes) == head + bytes + Zeros(n - |bytes|)
    ensures head == [] ==> head + Zeros(n) == Zeros(n) && head + bytes == bytes
  {}

  // ---- The decoder ----

  class EcmDecoder {
    const file: seq<bv8>
    const tables: CodeTables.Tables
    var runs: seq<Run>
    var outBytes: nat
    var totalSectors: nat

    ghost predicate Valid()
      reads this, tables, tables.forward, tables.backward, tables.edc
    {
      && tables.Ready()
      && Tiled(runs)
      && outBytes == End(runs)
      && totalSectors == outBytes / 2352 % TWO_32
    }

    constructor (file: seq<bv8>)
      ensures this.file == file && Valid() && fresh(tables) && fresh(tables.forward) && fresh(tables.backward)
      ensures runs == []
    {
      this.file := file;
      tables := new CodeTables.Tables();
      runs, outBytes, totalSectors := [], 0, 0;
    }

    method Push(kind: nat, filePos: nat, count: nat, outLen: nat)
      requires kind < 4 && Tiled(runs) && outBytes == End(runs)
      modifies this
      ensures runs == old(runs) + [Run(old(outBytes), outLen, filePos, count, kind)]
      ensures Tiled(runs) && outBytes == End(runs) && outBytes == old(outBytes) + outLen
    {
      TiledPush(runs, Run(outBytes, outLen, filePos, count, kind));
      runs := runs + [Run(outBytes, outLen, filePos, count, kind)];
      outBytes := outBytes + outLen;
    }

    method ReadBlock(pos: nat) returns (b: Option<(Run, nat)>)
      ensures b == NextBlock(file, pos, outBytes)
    {
      var h := ReadTypeCount(file, pos);
      if h.NoHeader? || h.raw == END_MARKER {
        return None;
      }
      var count := h.raw + 1;
      return Some((Run(outBytes, OutLen(h.kind, count), (pos + h.bytes) % TWO_32, count, h.kind),
                   pos + h.bytes + FileLen(h.kind, count)));
    }

    method BuildRuns() returns (ok: bool)
      requires Valid() && runs == []
      modifies this
      ensures Valid()
      ensures runs == RunsFrom(file, HEADER_SIZE, 0)
      ensures ok <==> totalSectors > 0
    {
      hide NextBlock, RunsFrom, End, Tiled;
      NoRunsYet(file);
      var pos := HEADER_SIZE;
      while true
        invariant Tiled(runs) && outBytes == End(runs)
        invariant runs + RunsFrom(file, pos, outBytes) == RunsFrom(file, HEADER_SIZE, 0)
        decreases |file| - pos
      {
        var b := ReadBlock(pos);
        NextRun(file, pos, outBytes, runs);
        if b.None? {
          break;
        }
        var (r, next) := b.value;
        Push(r.kind, r.filePos, r.count, r.outLen);
        pos := next;
      }
      totalSectors := outBytes / 2352 % TWO_32;
      ok := totalSectors > 0;
    }

    // The run covering an output offset, by bisection.
    method FindRun(off: nat) returns (found: Option<Run>)
      requires Tiled(runs)
      ensures found.Some? ==> found.value in runs && found.value.Covers(off)
      ensures found.None? ==> forall r :: r in runs ==> !r.Covers(off)
    {
      var lo, hi := 0, |runs|;
      while lo < hi
        invariant 0 <= lo <= hi <= |runs|
        invariant forall i :: 0 <= i < lo ==> runs[i].outStart + runs[i].outLen <= off
        invariant forall i :: hi <= i < |runs| ==> off < runs[i].outStart
      {
        var mid := lo + (hi - lo) / 2;
        var r := runs[mid];
        if off < r.outStart {
          forall i | mid < i < hi
            ensures off < runs[i].outStart
          {
            RunsInOrder(runs, mid, i);
          }
          hi := mid;
        } else if off >= r.outStart + r.outLen {
          forall i | lo <= i < mid
            ensures runs[i].outStart + runs[i].outLen <= off
          {
            RunsInOrder(runs, i, mid);
          }
          lo := mid + 1;
        } else {
          return Some(r);
        }
      }
      return None;
    }

    method FillBase(s: array<bv8>, kind: nat, c: seq<bv8>, lba: nat)
      requires s.Length == 2352 && 1 <= kind <= 3 && |c| == CompSize(kind)
      requires s[..] == Zeros(2352)
      modifies s
      ensures s[..] == Base(kind, c, lba)
    {
      hide Put, Base;
      BaseIsWritten(kind, c, lba);
      Write(s, 0, SYNC);
      if kind == 1 {
        Write(s, 0x0C, c[..3]);
        Write(s, 0x0F, [1]);
        Write(s, 0x10, c[3..]);
      } else {
        Write(s, 0x0C, Msf(lba));
        Write(s, 0x0F, [2]);
        Write(s, 0x10, c[..4]);
        Write(s, 0x14, c[..4]);
        Write(s, 0x18, c[4..]);
      }
    }

    // Rebuild one sector of a modelled run, or nothing when the file is too short for it.
    method DecodeModelled(r: Run, index: nat, lba: nat) returns (sector: array?<bv8>)
      requires 1 <= r.kind <= 3 && tables.Ready()
      ensures sector == null <==> SectorAt(file, r.kind, r.filePos, index).None?
      ensures sector != null ==> fresh(sector) && sector.Length == 2352
      ensures sector != null ==> Some(sector[16..]) == SectorAt(file, r.kind, r.filePos, index)
    {
      hide Base, Generated, CodeTables.Tables.Ready;
      var size := CompSize(r.kind);
      var at := r.filePos + size * index;
      if at + size > |file| {
        return null;
      }
      var c := file[at..at + size];
      var s := new bv8[2352](_ => 0);
      FillBase(s, r.kind, c, lba);
      Generate(tables, s, r.kind);
      RebuiltIgnoresLba(r.kind, c, lba);
      assert s[16..] == s[..][16..];
      return s;
    }

    // Copies one piece of a run: literal bytes, or part of one rebuilt sector.
    method ReadPiece(r: Run, outOff: nat, relSector: nat, absLba: nat, limit: nat) returns (piece: Option<seq<bv8>>)
      requires tables.Ready() && r.kind < 4 && r.Covers(outOff) && 0 < limit
      ensures piece.Some? ==> 0 < |piece.value| <= limit && outOff + |piece.value| <= r.outStart + r.outLen
      ensures piece.Some? ==> forall k :: 0 <= k < |piece.value| ==>
                RunByte(file, r, outOff - r.outStart + k) == Some(piece.value[k])
      ensures piece.None? ==>
                exists o :: outOff <= o < outOff + limit && r.Covers(o) && RunByte(file, r, o - r.outStart) == None
    {
      hide SectorAt;
      var inRun := outOff - r.outStart;
      var chunk := r.outLen - inRun;
      if chunk > limit {
        chunk := limit;
      }
      if r.kind == 0 {
        var at := r.filePos + inRun;
        if at + chunk > |file| {
          assert r.Covers(outOff + chunk - 1) && RunByte(file, r, outOff + chunk - 1 - r.outStart) == None;
          return None;
        }
        return Some(file[at..at + chunk]);
      }
      var index := inRun / PAYLOAD;
      var off := inRun % PAYLOAD;
      if chunk > PAYLOAD - off {
        chunk := PAYLOAD - off;
      }
      var secOut := r.outStart + index * PAYLOAD;
      var secLba := (absLba + secOut / 2352 - relSector) % TWO_32;
      var sector := DecodeModelled(r, index, secLba);
      if sector == null {
        assert r.Covers(outOff) && RunByte(file, r, outOff - r.outStart) == None;
        return None;
      }
      piece := Some(sector[16 + off..16 + off + chunk]);
      forall k | 0 <= k < chunk
        ensures RunByte(file, r, inRun + k) == Some(piece.value[k])
      {
        assert (inRun + k) / PAYLOAD == index && (inRun + k) % PAYLOAD == off + k;
        assert sector[16..][off + k] == piece.value[k];
      }
    }

    method CopyPiece(out: array<bv8>, at: nat, bytes: seq<bv8>)
      requires out.Length == 2352 && at + |bytes| <= 2352
      modifies out
      ensures out[..] == old(out[..at]) + bytes + old(out[at + |bytes|..])
    {
      forall k | 0 <= k < |bytes| {
        out[at + k] := bytes[k];
      }
    }

    method CopySector(relSector: nat, absLba: nat, out: array<bv8>) returns (ok: bool)
      requires Valid() && out.Length == 2352
      requires out != tables.forward && out != tables.backward
      modifies out
      ensures ok <==> (relSector < totalSectors
                       && forall i :: 2352 * relSector <= i < 2352 * relSector + 2352 ==> ByteAt(file, runs, i).Some?)
      ensures ok ==> forall i :: 2352 * relSector <= i < 2352 * relSector + 2352 ==>
                ByteAt(file, runs, i) == Some(out[i - 2352 * relSector])
    {
      hide RunByte, ByteAt, Tiled, Copied, CodeTables.Tables.Ready;
      RunKinds(runs);
      if relSector >= totalSectors {
        return false;
      }
      var from := 2352 * relSector;
      var remaining: nat := 2352;
      NoneCopied(file, runs, from, out[..]);
      while remaining > 0
        invariant remaining <= 2352
        invariant tables.Ready()
        invariant Copied(file, runs, from, out[..], 2352 - remaining)
      {
        var outOff := from + 2352 - remaining;
        var run := FindRun(outOff);
        if run.None? {
          ByteOutside(file, runs, outOff);
          return false;
        }
        var piece := ReadPiece(run.value, outOff, relSector, absLba, remaining);
        BytesOfRun(file, runs, run.value);
        if piece.None? {
          ghost var o :| outOff <= o < outOff + remaining && run.value.Covers(o)
            && RunByte(file, run.value, o - run.value.outStart) == None;
          assert ByteAt(file, runs, o) == None;
          return false;
        }
        var chunk := |piece.value|;
        label before:
        CopyPiece(out, 2352 - remaining, piece.value);
        CopiedMore(file, runs, from, old@before(out[..]), 2352 - remaining, run.value, piece.value);
        remaining := remaining - chunk;
      }
      AllCopied(file, runs, from, out[..]);
      ok := true;
    }

    /** On an intact image every sector below the total is read, and what is read is that sector of
        the front-to-back decode, whatever absolute address the caller gives. */
    method ReadSector(relSector: nat, absLba: nat, out: array<bv8>) returns (ok: bool)
      requires Valid() && out.Length == 2352
      requires out != tables.forward && out != tables.backward
      modifies out
      ensures ok ==> relSector < totalSectors
      ensures AllIntact(file, runs) && relSector < totalSectors ==> ok
      ensures ok && AllIntact(file, runs) ==> 2352 * relSector + 2352 <= |Decoded(file, runs)|
      ensures ok && AllIntact(file, runs) ==> out[..] == Decoded(file, runs)[2352 * relSector..2352 * relSector + 2352]
    {
      hide ByteAt, Tiled, AllIntact, Decoded, CodeTables.Tables.Ready;
      RunKinds(runs);
      ok := CopySector(relSector, absLba, out);
      if AllIntact(file, runs) && relSector < totalSectors {
        assert totalSectors <= outBytes / 2352;
        SectorIsSlice(file, runs, relSector);
        ghost var from := 2352 * relSector;
        ghost var slice := Decoded(file, runs)[from..from + 2352];
        forall k | 0 <= k < 2352
          ensures out[k] == slice[k]
        {
          assert ByteAt(file, runs, from + k) == Some(out[from + k - from]);
        }
      }
    }
  }

  lemma RunKinds(runs: seq<Run>)
    requires Tiled(runs)
    ensures forall i :: 0 <= i < |runs| ==> runs[i].kind < 4
  {}

  // The first n bytes of s are the decoded bytes from `from` on.
  ghost predicate Copied(file: seq<bv8>, runs: seq<Run>, from: nat, s: seq<bv8>, n: nat)
    requires forall i :: 0 <= i < |runs| ==> runs[i].kind < 4
  {
    n <= |s| && forall i: nat :: from <= i < from + n ==> ByteAt(file, runs, i) == Some(s[i - from])
  }

  lemma NoneCopied(file: seq<bv8>, runs: seq<Run>, from: nat, s: seq<bv8>)
    requires forall i :: 0 <= i < |runs| ==> runs[i].kind < 4
    ensures Copied(file, runs, from, s, 0)
  {}

  lemma AllCopied(file: seq<bv8>, runs: seq<Run>, from: nat, s: seq<bv8>)
    requires forall i :: 0 <= i < |runs| ==> runs[i].kind < 4
    requires Copied(file, runs, from, s, 2352)
    ensures |s| >= 2352 && forall i: nat :: from <= i < from + 2352 ==> ByteAt(file, runs, i) == Some(s[i - from])
  {}

  lemma CopiedMore(file: seq<bv8>, runs: seq<Run>, from: nat, s: seq<bv8>, n: nat, r: Run, piece: seq<bv8>)
    requires Tiled(runs) && r in runs && r.kind < 4
    requires Copied(file, runs, from, s, n) && n + |piece| <= |s|
    requires r.outStart <= from + n && from + n + |piece| <= r.outStart + r.outLen
    requires forall k :: 0 <= k < |piece| ==> RunByte(file, r, from + n - r.outStart + k) == Some(piece[k])
    ensures Copied(file, runs, from, s[..n] + piece + s[n + |piece|..], n + |piece|)
  {
    hide RunByte, ByteAt;
    RunKinds(runs);
    BytesOfRun(file, runs, r);
    var t := s[..n] + piece + s[n + |piece|..];
    forall i: nat | from <= i < from + n + |piece|
      ensures ByteAt(file, runs, i) == Some(t[i - from])
    {
      if i >= from + n {
        assert r.Covers(i);
        assert RunByte(file, r, from + n - r.outStart + (i - from - n)) == Some(piece[i - from - n]);
      }
    }
  }

  lemma BytesOfRun(file: seq<bv8>, runs: seq<Run>, r: Run)
    requires Tiled(runs) && r in runs && r.kind < 4
    ensures forall off: nat :: r.Covers(off) ==> ByteAt(file, runs, off) == RunByte(file, r, off - r.outStart)
  {
    hide RunByte, ByteAt;
    var i :| 0 <= i < |runs| && runs[i] == r;
    forall off: nat | r.Covers(off)
      ensures ByteAt(file, runs, off) == RunByte(file, r, off - r.outStart)
    {
      ByteOfRun(file, runs, off, i);
    }
  }

  /** A sector read that succeeds returns that sector of the front-to-back decode, and on an intact
      image every sector below the total is read. */
  lemma {:induction false} SectorIsSlice(file: seq<bv8>, runs: seq<Run>, relSector: nat)
    requires Tiled(runs) && AllIntact(file, runs) && 2352 * relSector + 2352 <= End(runs)
    ensures |Decoded(file, runs)| == End(runs)
    ensures var from := 2352 * relSector;
            var sector := Decoded(file, runs)[from..from + 2352];
            forall i :: from <= i < from + 2352 ==> ByteAt(file, runs, i) == Some(sector[i - from])
  {
    hide ByteAt, Decoded;
    ByteIsSequential(file, runs, 0);
    var from := 2352 * relSector;
    var sector := Decoded(file, runs)[from..from + 2352];
    forall i | from <= i < from + 2352
      ensures ByteAt(file, runs, i) == Some(sector[i - from])
    {
      ByteIsSequential(file, runs, i);
    }
  }
}
