/** Modelled sectors of an ECM image: what the container keeps of a sector, and how the decoder
    rebuilds the rest of it. */
module EcmSector {
  import opened SectorCodes
  import opened EcmHeader
  import opened Words
  import Edc

  // Output bytes of one modelled sector: all but its sync and header.
  const PAYLOAD := 2336

  // File bytes of one modelled sector, by type.
  function CompSize(kind: nat): (n: nat)
    requires 1 <= kind <= 3
  {
    if kind == 1 then 0x803 else if kind == 2 then 0x804 else 0x918
  }

  const SYNC := [0 as bv8, 0xFF, 0xFF, 0xFF, 0xFF, 0xFF, 0xFF, 0xFF, 0xFF, 0xFF, 0xFF, 0]

  // The address field the decoder rebuilds for a Mode 2 sector, in 32-bit arithmetic.
  function Msf(lba: nat): (b: seq<bv8>)
    ensures |b| == 3
  {
    var frames := (lba + 150) % TWO_32;
    [ToByte(ToBcd(frames / 75 / 60 % 256)), ToByte(ToBcd(frames / 75 % 60)), ToByte(ToBcd(frames % 75))]
  }

  function Zeros(n: nat): (b: seq<bv8>)
    ensures |b| == n
  {
    seq(n, _ => 0)
  }

  // The sector before its codes are generated, from the bytes c the file holds for it.
  function Base(kind: nat, c: seq<bv8>, lba: nat): Sector
    requires 1 <= kind <= 3 && |c| == CompSize(kind)
  {
    if kind == 1 then SYNC + c[..3] + [1] + c[3..] + Zeros(288)
    else SYNC + Msf(lba) + [2] + c[..4] + c[..4] + c[4..] + Zeros(2352 - 20 - |c|)
  }

  function Rebuilt(kind: nat, c: seq<bv8>, lba: nat): Sector
    requires 1 <= kind <= 3 && |c| == CompSize(kind)
  {
    Generated(Base(kind, c, lba), kind)
  }

  // The bytes the sector contributes to the image. The address does not matter: see RebuiltIgnoresLba.
  function Payload(kind: nat, c: seq<bv8>): (p: seq<bv8>)
    requires 1 <= kind <= 3 && |c| == CompSize(kind)
    ensures |p| == PAYLOAD
  {
    Rebuilt(kind, c, 0)[16..]
  }

  lemma ParityByteDepends(s: Sector, t: Sector, l: Layout, i: nat)
    requires l.Fits() && s[COVERED..l.dest] == t[COVERED..l.dest]
    requires COVERED <= i < l.dest + 2 * l.majors
    ensures WithParity(s, l)[i] == WithParity(t, l)[i]
  {
    hide Data, Gf256.Parity, Layout.Start;
    if i < l.dest {
      assert s[COVERED..l.dest][i - COVERED] == t[COVERED..l.dest][i - COVERED];
    } else {
      var major := if i < l.dest + l.majors then i - l.dest else i - l.dest - l.majors;
      assert s[COVERED..COVERED + l.Size()] == s[COVERED..l.dest][..l.Size()];
      assert t[COVERED..COVERED + l.Size()] == t[COVERED..l.dest][..l.Size()];
      SameData(s, t, l, major);
    }
  }

  lemma WithParityDepends(s: Sector, t: Sector, l: Layout)
    requires l.Fits() && s[COVERED..l.dest] == t[COVERED..l.dest]
    ensures WithParity(s, l)[COVERED..l.dest + 2 * l.majors] == WithParity(t, l)[COVERED..l.dest + 2 * l.majors]
  {
    hide WithParity, Layout.Start;
    forall i | COVERED <= i < l.dest + 2 * l.majors
      ensures WithParity(s, l)[i] == WithParity(t, l)[i]
    {
      ParityByteDepends(s, t, l, i);
    }
  }

  // Both parity sets depend only on bytes 12 to 2075.
  lemma EccDepends(s: Sector, t: Sector)
    requires s[12..0x81C] == t[12..0x81C]
    ensures WithEcc(s)[12..] == WithEcc(t)[12..]
  {
    hide WithParity;
    LayoutsFit();
    WithParityDepends(s, t, P);
    WithParityDepends(WithParity(s, P), WithParity(t, P), Q);
  }

  lemma BaseIgnoresLba(kind: nat, c: seq<bv8>, lba: nat)
    requires 2 <= kind <= 3 && |c| == CompSize(kind)
    ensures Base(kind, c, lba)[16..] == Base(kind, c, 0)[16..]
  {
    hide Msf, Zeros;
    assert (SYNC + Msf(lba) + [2])[16..] == (SYNC + Msf(0) + [2])[16..] == [];
  }

  /** Nothing the decoder emits of a Mode 2 sector depends on the address it was given: neither the
      checksum nor the parity lets the rebuilt address into the 2336 bytes after the header. */
  lemma RebuiltIgnoresLba(kind: nat, c: seq<bv8>, lba: nat)
    requires 1 <= kind <= 3 && |c| == CompSize(kind)
    ensures Rebuilt(kind, c, lba)[16..] == Payload(kind, c)
  {
    hide Generated, Msf;
    if kind != 1 {
      BaseIgnoresLba(kind, c, lba);
      hide Base;
      GeneratedIgnoresHeader(Base(kind, c, lba), Base(kind, c, 0), kind);
    }
  }

  lemma GeneratedIgnoresHeader(s: Sector, t: Sector, kind: nat)
    requires 2 <= kind <= 3 && s[16..] == t[16..]
    ensures Generated(s, kind)[16..] == Generated(t, kind)[16..]
  {
    hide Edc.Code, Edc.Bytes, WithEcc;
    if kind == 2 {
      assert s[0x10..0x818] == s[16..][..0x808] == t[0x10..0x818];
      var e := Edc.Bytes(Edc.Code(s[0x10..0x818]));
      var u, v := Put(s, 0x818, e), Put(t, 0x818, e);
      assert u[16..] == s[16..][..0x808] + e + s[16..][0x80C..] == v[16..];
      assert Unaddressed(u)[12..] == ZEROS + u[16..] == Unaddressed(v)[12..];
      assert Unaddressed(u)[12..0x81C] == Unaddressed(u)[12..][..0x810] == Unaddressed(v)[12..0x81C];
      EccDepends(Unaddressed(u), Unaddressed(v));
      assert Generated(s, 2)[16..] == WithEcc(Unaddressed(u))[12..][4..];
      assert Generated(t, 2)[16..] == WithEcc(Unaddressed(v))[12..][4..];
    } else {
      assert s[0x10..0x92C] == s[16..][..0x91C] == t[0x10..0x92C];
      var e := Edc.Bytes(Edc.Code(s[0x10..0x92C]));
      assert Put(s, 0x92C, e)[16..] == s[16..][..0x91C] + e + s[16..][0x920..];
      assert Put(t, 0x92C, e)[16..] == t[16..][..0x91C] + e + t[16..][0x920..];
    }
  }

  // ---- What the container keeps of a sector ----

  // The sector is of the given type, and its codes are the ones the generator computes.
  predicate Modellable(kind: nat, s: Sector) {
    && 1 <= kind <= 3
    && (kind == 1 ==> s[..12] == SYNC && s[15] == 1)
    && (kind != 1 ==> s[0x10..0x14] == s[0x14..0x18])
    && Generated(s, kind) == s
  }

  function Stripped(kind: nat, s: Sector): (c: seq<bv8>)
    requires 1 <= kind <= 3
    ensures |c| == CompSize(kind)
  {
    if kind == 1 then s[12..15] + s[0x10..0x810]
    else if kind == 2 then s[0x10..0x14] + s[0x18..0x818]
    else s[0x10..0x14] + s[0x18..0x92C]
  }

  lemma StrippedMode1(s: Sector)
    requires Modellable(1, s)
    ensures Payload(1, Stripped(1, s)) == s[16..]
  {
    hide Edc.Code, Edc.Bytes, WithEcc;
    var b := Base(1, Stripped(1, s), 0);
    assert b[..0x810] == s[..0x810];
    var e := Edc.Bytes(Edc.Code(s[..0x810]));
    var u := Put(Put(b, 0x810, e), 0x814, ZEROS + ZEROS);
    var v := Put(Put(s, 0x810, e), 0x814, ZEROS + ZEROS);
    assert u[..0x81C] == b[..0x810] + e + (ZEROS + ZEROS);
    assert v[..0x81C] == s[..0x810] + e + (ZEROS + ZEROS);
    assert u[12..0x81C] == u[..0x81C][12..] == v[12..0x81C];
    EccDepends(u, v);
    assert WithEcc(u)[16..] == WithEcc(u)[12..][4..];
    assert WithEcc(v)[16..] == WithEcc(v)[12..][4..];
  }

  lemma BaseOfStripped(kind: nat, s: Sector)
    requires 2 <= kind <= 3 && Modellable(kind, s)
    ensures var to := if kind == 2 then 0x818 else 0x92C;
            Base(kind, Stripped(kind, s), 0)[0x10..to] == s[0x10..to]
  {
    hide Generated;
    var c := Stripped(kind, s);
    var to := if kind == 2 then 0x818 else 0x92C;
    var head := SYNC + Msf(0) + [2];
    assert Base(kind, c, 0) == head + (c[..4] + c[..4] + c[4..]) + Zeros(2352 - 20 - |c|);
    assert c[..4] == s[0x10..0x14] && c[4..] == s[0x18..to];
    assert s[0x10..to] == s[0x10..0x14] + s[0x14..0x18] + s[0x18..to];
  }

  lemma CoveredBytes(s: Sector, e: seq<bv8>)
    requires |e| == 4
    ensures Unaddressed(Put(s, 0x818, e))[12..0x81C] == ZEROS + s[0x10..0x818] + e
  {
    var t := Put(s, 0x818, e);
    assert t[16..0x81C] == s[0x10..0x818] + e;
    assert Unaddressed(t)[12..0x81C] == ZEROS + t[16..0x81C];
  }

  lemma StrippedMode2Form1(s: Sector)
    requires Modellable(2, s)
    ensures Payload(2, Stripped(2, s)) == s[16..]
  {
    hide Edc.Code, Edc.Bytes, WithEcc;
    var b := Base(2, Stripped(2, s), 0);
    BaseOfStripped(2, s);
    var e := Edc.Bytes(Edc.Code(s[0x10..0x818]));
    var u, v := Unaddressed(Put(b, 0x818, e)), Unaddressed(Put(s, 0x818, e));
    CoveredBytes(b, e);
    CoveredBytes(s, e);
    EccDepends(u, v);
    assert Generated(b, 2)[16..] == WithEcc(u)[12..][4..];
    assert Generated(s, 2)[16..] == WithEcc(v)[12..][4..];
  }

  lemma CheckedTail(s: Sector, e: seq<bv8>)
    requires |e| == 4
    ensures Put(s, 0x92C, e)[16..] == s[0x10..0x92C] + e
  {
  }

  lemma StrippedMode2Form2(s: Sector)
    requires Modellable(3, s)
    ensures Payload(3, Stripped(3, s)) == s[16..]
  {
    hide Edc.Code, Edc.Bytes, Base, Stripped, Put;
    var b := Base(3, Stripped(3, s), 0);
    BaseOfStripped(3, s);
    var e := Edc.Bytes(Edc.Code(s[0x10..0x92C]));
    CheckedTail(b, e);
    CheckedTail(s, e);
  }

  /** A sector whose codes are the generated ones is rebuilt, header aside, from the bytes the
      container keeps of it. */
  lemma StrippedRoundTrip(kind: nat, s: Sector)
    requires Modellable(kind, s)
    ensures Payload(kind, Stripped(kind, s)) == s[16..]
  {
    match kind {
      case 1 => StrippedMode1(s);
      case 2 => StrippedMode2Form1(s);
      case 3 => StrippedMode2Form2(s);
    }
  }
}
