/** The error codes of a raw 2352-byte sector: which bytes each parity line runs through, and the
    generator that writes the checksum and both parity sets in place. */
module SectorCodes {
  import opened Gf256
  import opened CodeTables
  import Edc

  type Sector = s: seq<bv8> | |s| == 2352 witness seq(2352, _ => 0)

  // Byte 12, the first byte the parity covers.
  const COVERED := 0x0C

  // How the lines of one parity set walk through their region.
  datatype Layout = Layout(majors: nat, minors: nat, majorMult: nat, minorInc: nat, dest: nat) {
    function Size(): nat {
      majors * minors
    }

    function Start(major: nat): nat {
      (major / 2) * majorMult + major % 2
    }

    predicate Fits() {
      && (forall major: nat :: major < majors ==> Start(major) < Size())
      && minorInc <= Size()
      && COVERED + Size() <= dest
      && dest + 2 * majors <= 2352
    }
  }

  const P := Layout(86, 24, 2, 86, 0x81C)
  const Q := Layout(52, 43, 86, 88, 0x8C8)

  // Where in its region a line's byte number `minor` lies.
  function Place(l: Layout, major: nat, minor: nat): (i: nat)
    requires l.Fits() && major < l.majors
    ensures i < l.Size()
  {
    if minor == 0 then l.Start(major)
    else
      var next := Place(l, major, minor - 1) + l.minorInc;
      if next >= l.Size() then next - l.Size() else next
  }

  // The data bytes of a line, in order.
  function Data(s: Sector, l: Layout, major: nat): (d: seq<bv8>)
    requires l.Fits() && major < l.majors
    ensures |d| == l.minors
  {
    seq(l.minors, k requires 0 <= k < l.minors => s[COVERED + Place(l, major, k)])
  }

  // The whole line: its data bytes, then its two parity bytes.
  function Line(s: Sector, l: Layout, major: nat): seq<bv8>
    requires l.Fits() && major < l.majors
  {
    Data(s, l, major) + [s[l.dest + major], s[l.dest + l.majors + major]]
  }

  predicate LinesValid(s: Sector, l: Layout)
    requires l.Fits()
  {
    forall major: nat :: major < l.majors ==> Codeword(Line(s, l, major))
  }

  // The sector with the parity bytes of one set computed from its other bytes.
  function WithParity(s: Sector, l: Layout): Sector
    requires l.Fits()
  {
    seq(2352, i requires 0 <= i < 2352 =>
      if l.dest <= i < l.dest + l.majors then Parity(Data(s, l, i - l.dest)).0
      else if l.dest + l.majors <= i < l.dest + 2 * l.majors then Parity(Data(s, l, i - l.dest - l.majors)).1
      else s[i])
  }

  lemma LayoutsFit()
    ensures P.Fits() && Q.Fits()
  {}

  lemma SameData(s: Sector, t: Sector, l: Layout, major: nat)
    requires l.Fits() && major < l.majors
    requires s[COVERED..COVERED + l.Size()] == t[COVERED..COVERED + l.Size()]
    ensures Data(s, l, major) == Data(t, l, major)
  {
    forall k | 0 <= k < l.minors
      ensures Data(s, l, major)[k] == Data(t, l, major)[k]
    {
      var i := Place(l, major, k);
      assert s[COVERED..COVERED + l.Size()][i] == t[COVERED..COVERED + l.Size()][i];
    }
  }

  lemma ParityOfLine(s: Sector, l: Layout, major: nat)
    requires l.Fits() && major < l.majors
    ensures Codeword(Line(WithParity(s, l), l, major))
    ensures Codeword(Line(s, l, major)) ==>
              && WithParity(s, l)[l.dest + major] == s[l.dest + major]
              && WithParity(s, l)[l.dest + l.majors + major] == s[l.dest + l.majors + major]
  {
    hide Codeword, Parity, Place, Layout.Start;
    var t := WithParity(s, l);
    var d := Data(s, l, major);
    assert s[COVERED..COVERED + l.Size()] == t[COVERED..COVERED + l.Size()];
    SameData(s, t, l, major);
    ParityIsTheOnlySolution(d, t[l.dest + major], t[l.dest + l.majors + major]);
    ParityIsTheOnlySolution(d, s[l.dest + major], s[l.dest + l.majors + major]);
  }

  /** Computing a parity set makes every line of it valid, and changes nothing when every line is
      valid already: the parity bytes are the only ones that satisfy both equations of each line. */
  lemma ParityValid(s: Sector, l: Layout)
    requires l.Fits()
    ensures LinesValid(WithParity(s, l), l)
    ensures LinesValid(s, l) ==> WithParity(s, l) == s
  {
    hide Codeword, Parity, Place, Line, Layout.Start;
    forall major: nat | major < l.majors
      ensures Codeword(Line(WithParity(s, l), l, major))
    {
      ParityOfLine(s, l, major);
    }
    if LinesValid(s, l) {
      forall i | 0 <= i < 2352
        ensures WithParity(s, l)[i] == s[i]
      {
        if l.dest <= i < l.dest + 2 * l.majors {
          var major := if i < l.dest + l.majors then i - l.dest else i - l.dest - l.majors;
          assert Codeword(Line(s, l, major));
          ParityOfLine(s, l, major);
        }
      }
    }
  }

  // ---- The lines of each set tile its region ----

  lemma {:induction false} PlaceInP(major: nat, minor: nat)
    requires P.Fits() && major < 86 && minor < 24
    ensures Place(P, major, minor) == major + 86 * minor
  {
    if minor > 0 {
      PlaceInP(major, minor - 1);
    }
  }

  // A Q place is a pair of bytes, found modulo the 1118 = 26 * 43 pairs, and a side of the pair.
  function PairInQ(column: nat, minor: nat): nat {
    (43 * column + 44 * minor) % 1118
  }

  lemma {:induction false} PlaceInQ(major: nat, minor: nat)
    requires Q.Fits() && major < 52
    ensures Place(Q, major, minor) == 2 * PairInQ(major / 2, minor) + major % 2
  {
    hide PairInQ;
    PairInQStart(major / 2);
    if minor > 0 {
      PlaceInQ(major, minor - 1);
      PairInQStep(major / 2, minor - 1);
    }
  }

  lemma PairInQStart(column: nat)
    requires column < 26
    ensures PairInQ(column, 0) == 43 * column
  {}

  lemma PairInQStep(column: nat, minor: nat)
    ensures var next := PairInQ(column, minor) + 44;
            PairInQ(column, minor + 1) == if next >= 1118 then next - 1118 else next
  {
    RemainderStep(43 * column + 44 * minor);
  }

  lemma RemainderStep(x: nat)
    ensures (x + 44) % 1118 == if x % 1118 + 44 >= 1118 then x % 1118 + 44 - 1118 else x % 1118 + 44
  {}

  lemma PairInQInjective(c: nat, m: nat, d: nat, n: nat)
    requires c < 26 && d < 26 && m < 43 && n < 43 && PairInQ(c, m) == PairInQ(d, n)
    ensures c == d && m == n
  {
    var x, y := (43 * c + 44 * m) / 1118, (43 * d + 44 * n) / 1118;
    assert 43 * (c + m - d - n - 26 * (x - y)) == n - m;
    assert c - d == 26 * (x - y);
  }

  lemma PairInQSurjective(w: nat) returns (c: nat, m: nat)
    requires w < 1118
    ensures c < 26 && m < 43 && PairInQ(c, m) == w
  {
    var n := w / 43;
    m := w % 43;
    c := (n - m) % 26;
    var q := (n - m) / 26;
    assert c == n - m - 26 * q;
    assert 43 * c + 44 * m == w - 1118 * q;
    WholeTurns(w, q);
  }

  lemma WholeTurns(w: nat, q: int)
    requires w < 1118
    ensures (w - 1118 * q) % 1118 == w
  {
  }

  /** Every byte of the P region, 2064 bytes, is on exactly one P line, at one place of it. */
  lemma POwner(i: nat) returns (major: nat, minor: nat)
    requires P.Fits() && i < P.Size()
    ensures major < P.majors && minor < P.minors && Place(P, major, minor) == i
    ensures forall a: nat, m: nat | a < P.majors && m < P.minors && Place(P, a, m) == i :: a == major && m == minor
  {
    major, minor := i % 86, i / 86;
    PlaceInP(major, minor);
    forall a: nat, m: nat | a < P.majors && m < P.minors && Place(P, a, m) == i
      ensures a == major && m == minor
    {
      PlaceInP(a, m);
    }
  }

  /** Every byte of the Q region, the 2064 bytes and the P parity after them, is on exactly one Q
      line, at one place of it, although the Q walk wraps around the region. */
  lemma QOwner(i: nat) returns (major: nat, minor: nat)
    requires Q.Fits() && i < Q.Size()
    ensures major < Q.majors && minor < Q.minors && Place(Q, major, minor) == i
    ensures forall a: nat, m: nat | a < Q.majors && m < Q.minors && Place(Q, a, m) == i :: a == major && m == minor
  {
    var c, n := PairInQSurjective(i / 2);
    major, minor := 2 * c + i % 2, n;
    PlaceInQ(major, minor);
    forall a: nat, m: nat | a < Q.majors && m < Q.minors && Place(Q, a, m) == i
      ensures a == major && m == minor
    {
      PlaceInQ(a, m);
      PairInQInjective(a / 2, m, c, n);
    }
  }

  // The sector byte a line holds at position k.
  function ByteOfLine(l: Layout, major: nat, k: nat): (i: nat)
    requires l.Fits() && major < l.majors && k < l.minors + 2
    ensures i < 2352
  {
    if k < l.minors then COVERED + Place(l, major, k)
    else if k == l.minors then l.dest + major
    else l.dest + l.majors + major
  }

  lemma LineByte(s: Sector, l: Layout, major: nat, k: nat)
    requires l.Fits() && major < l.majors && k < l.minors + 2
    ensures |Line(s, l, major)| == l.minors + 2
    ensures Line(s, l, major)[k] == s[ByteOfLine(l, major, k)]
  {}

  // The Q line through a sector byte.
  lemma LineThrough(i: nat) returns (major: nat, k: nat)
    requires Q.Fits() && COVERED <= i < 2352
    ensures major < Q.majors && k < Q.minors + 2 && ByteOfLine(Q, major, k) == i
  {
    if i < Q.dest {
      major, k := QOwner(i - COVERED);
    } else if i < Q.dest + Q.majors {
      major, k := i - Q.dest, Q.minors;
    } else {
      major, k := i - Q.dest - Q.majors, Q.minors + 1;
    }
  }

  // A sector byte is at most once on a given Q line.
  lemma AtMostOnce(i: nat, major: nat) returns (p: int)
    requires Q.Fits() && COVERED <= i < 2352 && major < Q.majors
    ensures forall k: nat :: k < Q.minors + 2 && k != p ==> ByteOfLine(Q, major, k) != i
  {
    if i < Q.dest {
      var m;
      m, p := QOwner(i - COVERED);
    } else {
      p := if i < Q.dest + Q.majors then Q.minors else Q.minors + 1;
    }
  }

  /** In a sector whose Q lines are valid, changing one or two of the bytes 12 to 2351, wherever
      they are, always breaks a Q line. */
  lemma TwoChangedBytesBreakQ(s: Sector, t: Sector, x: nat, y: nat)
    requires Q.Fits() && LinesValid(s, Q)
    requires COVERED <= x < 2352 && COVERED <= y < 2352
    requires s != t && forall i :: 0 <= i < 2352 && i != x && i != y ==> s[i] == t[i]
    ensures !LinesValid(t, Q)
  {
    hide Codeword, Place, Layout.Start;
    var z := if s[x] != t[x] then x else y;
    assert s[z] != t[z];
    var major, k := LineThrough(z);
    var p := AtMostOnce(x, major);
    var q := AtMostOnce(y, major);
    var u, v := Line(s, Q, major), Line(t, Q, major);
    LineByte(s, Q, major, k);
    LineByte(t, Q, major, k);
    forall j | 0 <= j < Q.minors + 2 && j != p && j != q
      ensures u[j] == v[j]
    {
      LineByte(s, Q, major, j);
      LineByte(t, Q, major, j);
    }
    DistanceAtMostTwo(u, v, p, q);
    MinimumDistance(u, v);
  }

  // ---- Generating all the codes of a sector ----

  function Put(s: Sector, at: nat, bytes: seq<bv8>): Sector
    requires at + |bytes| <= 2352
  {
    s[..at] + bytes + s[at + |bytes|..]
  }

  const ZEROS := [0 as bv8, 0, 0, 0]

  // The sector with its address field, bytes 12 to 15, zero.
  function Unaddressed(s: Sector): Sector {
    Put(s, 12, ZEROS)
  }

  function WithEcc(s: Sector): Sector {
    LayoutsFit();
    WithParity(WithParity(s, P), Q)
  }

  predicate EccValid(s: Sector) {
    LayoutsFit();
    LinesValid(s, P) && LinesValid(s, Q)
  }

  // What the generator leaves in the sector, by type: 1 is Mode 1, 2 and 3 are the two forms of Mode 2.
  function Generated(s: Sector, kind: int): Sector {
    match kind
    case 1 => WithEcc(Put(Put(s, 0x810, Edc.Bytes(Edc.Code(s[..0x810]))), 0x814, ZEROS + ZEROS))
    case 2 =>
      var checked := Put(s, 0x818, Edc.Bytes(Edc.Code(s[0x10..0x818])));
      Put(WithEcc(Unaddressed(checked)), 12, s[12..16])
    case 3 => Put(s, 0x92C, Edc.Bytes(Edc.Code(s[0x10..0x92C])))
    case _ => s
  }

  // The equations ECMA-130 asks of a sector of each type.
  predicate Valid(s: Sector, kind: int) {
    match kind
    case 1 => Edc.Code(s[..0x814]) == 0 && s[0x814..0x81C] == ZEROS + ZEROS && EccValid(s)
    case 2 => Edc.Code(s[0x10..0x81C]) == 0 && EccValid(Unaddressed(s))
    case 3 => Edc.Code(s[0x10..0x930]) == 0
    case _ => true
  }

  // Q is computed after P and from it, but leaves every P line as it was.
  lemma QKeepsP(s: Sector)
    requires P.Fits() && Q.Fits() && LinesValid(s, P)
    ensures LinesValid(WithParity(s, Q), P)
  {
    hide Codeword, Parity, Place, Data;
    var t := WithParity(s, Q);
    forall major: nat | major < P.majors
      ensures Line(t, P, major) == Line(s, P, major)
    {
      assert t[COVERED..COVERED + P.Size()] == s[COVERED..COVERED + P.Size()];
      SameData(s, t, P, major);
    }
  }

  lemma EccGenerated(s: Sector)
    ensures EccValid(WithEcc(s))
    ensures EccValid(s) ==> WithEcc(s) == s
    ensures WithEcc(s)[..0x81C] == s[..0x81C]
  {
    hide Codeword, Parity, Place, Data, Line, LinesValid;
    LayoutsFit();
    var t := WithParity(s, P);
    ParityValid(s, P);
    ParityValid(t, Q);
    QKeepsP(t);
  }

  lemma CheckedField(s: Sector, from: nat, to: nat)
    requires from <= to && to + 4 <= 2352
    ensures var t := Put(s, to, Edc.Bytes(Edc.Code(s[from..to])));
            Edc.Code(t[from..to + 4]) == 0
    ensures Edc.Code(s[from..to + 4]) == 0 ==> Put(s, to, Edc.Bytes(Edc.Code(s[from..to]))) == s
  {
    hide Edc.Code, Edc.Bytes;
    var tail := Edc.Bytes(Edc.Code(s[from..to]));
    assert Put(s, to, tail)[from..to + 4] == s[from..to] + tail;
    assert s[from..to + 4] == s[from..to] + s[to..to + 4];
    Edc.CodeIsTheOnlyTail(s[from..to], tail);
    Edc.CodeIsTheOnlyTail(s[from..to], s[to..to + 4]);
  }

  lemma GeneratedMode1(s: Sector)
    ensures Valid(Generated(s, 1), 1)
    ensures Valid(s, 1) ==> Generated(s, 1) == s
  {
    hide Edc.Code, Edc.Bytes, WithEcc, EccValid;
    CheckedField(s, 0, 0x810);
    var checked := Put(s, 0x810, Edc.Bytes(Edc.Code(s[..0x810])));
    var t := Put(checked, 0x814, ZEROS + ZEROS);
    EccGenerated(t);
    var g := WithEcc(t);
    assert g[..0x814] == g[..0x81C][..0x814] == checked[..0x814];
    assert g[0x814..0x81C] == g[..0x81C][0x814..] == ZEROS + ZEROS;
    assert s[0x814..0x81C] == ZEROS + ZEROS ==> Put(s, 0x814, ZEROS + ZEROS) == s;
    assert s[..0x810] == s[0..0x810] && s[..0x814] == s[0..0x814] && checked[..0x814] == checked[0..0x814];
  }

  lemma GeneratedMode2(s: Sector)
    ensures Valid(Generated(s, 2), 2)
    ensures Valid(s, 2) ==> Generated(s, 2) == s
  {
    hide Edc.Code, Edc.Bytes, WithEcc, EccValid;
    CheckedField(s, 0x10, 0x818);
    var checked := Put(s, 0x818, Edc.Bytes(Edc.Code(s[0x10..0x818])));
    var t := Unaddressed(checked);
    EccGenerated(t);
    var e := WithEcc(t);
    var g := Put(e, 12, s[12..16]);
    assert e[12..16] == e[..0x81C][12..16] == ZEROS;
    assert Unaddressed(g) == e;
    assert g[0x10..0x81C] == e[..0x81C][0x10..] == checked[0x10..0x81C];
  }

  /** Generating the codes of a sector satisfies every equation of its type at once, and a sector
      that satisfies them is left exactly as it is: the generated codes are the only valid ones. */
  lemma GeneratedIsTheOnlyValid(s: Sector, kind: int)
    ensures Valid(Generated(s, kind), kind)
    ensures Valid(s, kind) <==> Generated(s, kind) == s
  {
    match kind {
      case 1 => GeneratedMode1(s);
      case 2 => GeneratedMode2(s);
      case 3 => CheckedField(s, 0x10, 0x92C);
      case _ =>
    }
  }

  // ---- The generator, in place ----

  ghost predicate Separate(tables: Tables, sector: array<bv8>) {
    sector != tables.forward && sector != tables.backward && sector.Length == 2352
  }

  // One line's two accumulators, run over its data bytes.
  method LineParity(tables: Tables, sector: array<bv8>, l: Layout, major: nat) returns (p: bv8, q: bv8)
    requires tables.Ready() && Separate(tables, sector) && l.Fits() && major < l.majors
    ensures (p, q) == Parity(Data(sector[..], l, major))
  {
    hide Mul2, Mul3, Div3, Add, At, Layout.Fits, Data;
    ghost var d := Data(sector[..], l, major);
    FitsBounds(l);
    var size := l.majors * l.minors;
    var index := (major / 2) * l.majorMult + major % 2;
    var a: bv8, b: bv8 := 0, 0;
    ZeroFacts();
    for minor := 0 to l.minors
      invariant index == Place(l, major, minor)
      invariant a == Mul2(Eval2(d[..minor])) && b == Sum(d[..minor])
    {
      var temp := sector[COVERED + index];
      DataByte(sector[..], l, major, minor);
      assert d[..minor + 1] == d[..minor] + [temp];
      ChecksOfPush(d[..minor], temp);
      index := index + l.minorInc;
      if index >= size {
        index := index - size;
      }
      a := Add(a, temp);
      b := Add(b, temp);
      a := tables.forward[At(a)];
    }
    assert d[..l.minors] == d;
    tables.BackwardDivides(Add(tables.forward[At(a)], b));
    p := tables.backward[At(Add(tables.forward[At(a)], b))];
    q := Add(p, b);
  }

  lemma ZeroFacts()
    ensures Mul2(0) == 0
  {}

  lemma FitsBounds(l: Layout)
    requires l.Fits()
    ensures COVERED + l.Size() <= l.dest && l.dest + 2 * l.majors <= 2352
  {}

  lemma DataByte(s: Sector, l: Layout, major: nat, k: nat)
    requires l.Fits() && major < l.majors && k < l.minors
    ensures Data(s, l, major)[k] == s[COVERED + Place(l, major, k)]
  {}

  // t is s with the parity of the first n lines in place.
  ghost predicate LinesDone(t: Sector, s: Sector, l: Layout, n: nat)
    requires l.Fits() && n <= l.majors
  {
    forall i :: 0 <= i < 2352 ==>
      t[i] == if l.dest <= i < l.dest + n || l.dest + l.majors <= i < l.dest + l.majors + n
              then WithParity(s, l)[i] else s[i]
  }

  lemma LineDone(t: Sector, s: Sector, l: Layout, n: nat)
    requires l.Fits() && n < l.majors && LinesDone(t, s, l, n)
    ensures Data(t, l, n) == Data(s, l, n)
    ensures var (p, q) := Parity(Data(s, l, n));
            LinesDone(t[l.dest + n := p][l.dest + l.majors + n := q], s, l, n + 1)
  {
    hide Parity, Data;
    assert t[COVERED..COVERED + l.Size()] == s[COVERED..COVERED + l.Size()];
    SameData(s, t, l, n);
  }

  lemma AllLinesDone(t: Sector, s: Sector, l: Layout)
    requires l.Fits() && LinesDone(t, s, l, l.majors)
    ensures t == WithParity(s, l)
  {
    hide Parity, Data;
  }

  method EccComputeBlock(tables: Tables, sector: array<bv8>, l: Layout)
    requires tables.Ready() && Separate(tables, sector) && l.Fits()
    modifies sector
    ensures sector[..] == WithParity(old(sector[..]), l)
  {
    hide Parity, Data, WithParity, LinesDone, Layout.Fits;
    FitsBounds(l);
    NoLinesDone(sector[..], l);
    for major := 0 to l.majors
      invariant LinesDone(sector[..], old(sector[..]), l, major)
    {
      LineDone(sector[..], old(sector[..]), l, major);
      var p, q := LineParity(tables, sector, l, major);
      sector[l.dest + major] := p;
      sector[l.dest + l.majors + major] := q;
    }
    AllLinesDone(sector[..], old(sector[..]), l);
  }

  lemma NoLinesDone(s: Sector, l: Layout)
    requires l.Fits()
    ensures LinesDone(s, s, l, 0)
  {}

  method EccGenerate(tables: Tables, sector: array<bv8>, zeroAddress: bool)
    requires tables.Ready() && Separate(tables, sector)
    modifies sector
    ensures sector[..] == if zeroAddress then Put(WithEcc(Unaddressed(old(sector[..]))), 12, old(sector[12..16]))
                          else WithEcc(old(sector[..]))
  {
    hide WithParity;
    LayoutsFit();
    var saved := sector[12..16];
    if zeroAddress {
      Write(sector, 12, ZEROS);
    }
    EccComputeBlock(tables, sector, P);
    EccComputeBlock(tables, sector, Q);
    if zeroAddress {
      Write(sector, 12, saved);
    }
  }

  method Write(sector: array<bv8>, at: nat, bytes: seq<bv8>)
    requires sector.Length == 2352 && at + |bytes| <= 2352
    modifies sector
    ensures sector[..] == Put(old(sector[..]), at, bytes)
  {
    forall i | 0 <= i < |bytes| {
      sector[at + i] := bytes[i];
    }
  }

  method Generate(tables: Tables, sector: array<bv8>, kind: int)
    requires tables.Ready() && Separate(tables, sector)
    modifies sector
    ensures sector[..] == Generated(old(sector[..]), kind)
  {
    hide WithEcc, Edc.Code, Edc.Bytes;
    ghost var s := sector[..];
    if kind == 1 {
      var e := tables.EdcCompute(sector, 0, 0x810);
      assert s[..0x810] == s[0..0x810];
      Write(sector, 0x810, Edc.Bytes(e));
      Write(sector, 0x814, ZEROS + ZEROS);
      EccGenerate(tables, sector, false);
    } else if kind == 2 {
      var e := tables.EdcCompute(sector, 0x10, 0x808);
      Write(sector, 0x818, Edc.Bytes(e));
      assert sector[12..16] == s[12..16];
      EccGenerate(tables, sector, true);
    } else if kind == 3 {
      var e := tables.EdcCompute(sector, 0x10, 0x91C);
      Write(sector, 0x92C, Edc.Bytes(e));
    }
  }
}
