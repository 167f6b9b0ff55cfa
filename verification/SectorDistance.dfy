/** The two parity sets of a sector together: how far apart two sectors are that satisfy both. */
module SectorDistance {
  import opened Gf256
  import opened SectorCodes

  // The covered bytes, 12 to 2351, at which two sectors differ.
  ghost function Differing(s: Sector, t: Sector): set<nat> {
    set i: nat | COVERED <= i < 2352 && s[i] != t[i]
  }

  // ---- One line ----

  // Two codewords that are not equal differ in three places.
  lemma ThreePlaces(u: seq<bv8>, v: seq<bv8>) returns (a: nat, b: nat, c: nat)
    requires |u| == |v| <= 45 && Codeword(u) && Codeword(v) && u != v
    ensures a < |u| && b < |u| && c < |u| && a != b && a != c && b != c
    ensures u[a] != v[a] && u[b] != v[b] && u[c] != v[c]
  {
    hide Codeword, Distance;
    a :| a < |u| && u[a] != v[a];
    if forall k: nat :: k < |u| && k != a ==> u[k] == v[k] {
      DistanceAtMostTwo(u, v, a, a);
      MinimumDistance(u, v);
      assert false;
    }
    b :| b < |u| && b != a && u[b] != v[b];
    if forall k: nat :: k < |u| && k != a && k != b ==> u[k] == v[k] {
      DistanceAtMostTwo(u, v, a, b);
      MinimumDistance(u, v);
      assert false;
    }
    c :| c < |u| && c != a && c != b && u[c] != v[c];
  }

  // Two sectors in which a line is valid differ on it in three places if they differ on it at all.
  lemma ThreeOnLine(s: Sector, t: Sector, l: Layout, major: nat, k: nat) returns (a: nat, b: nat, c: nat)
    requires l.Fits() && major < l.majors && k < l.minors + 2 <= 45
    requires Codeword(Line(s, l, major)) && Codeword(Line(t, l, major))
    requires s[ByteOfLine(l, major, k)] != t[ByteOfLine(l, major, k)]
    ensures a < l.minors + 2 && b < l.minors + 2 && c < l.minors + 2 && a != b && a != c && b != c
    ensures s[ByteOfLine(l, major, a)] != t[ByteOfLine(l, major, a)]
    ensures s[ByteOfLine(l, major, b)] != t[ByteOfLine(l, major, b)]
    ensures s[ByteOfLine(l, major, c)] != t[ByteOfLine(l, major, c)]
  {
    hide Codeword, Line, ByteOfLine, Layout.Start;
    LineByte(s, l, major, k);
    LineByte(t, l, major, k);
    a, b, c := ThreePlaces(Line(s, l, major), Line(t, l, major));
    forall j | j == a || j == b || j == c
      ensures s[ByteOfLine(l, major, j)] != t[ByteOfLine(l, major, j)]
    {
      LineByte(s, l, major, j);
      LineByte(t, l, major, j);
    }
  }

  // ---- Where the lines of the two sets cross ----

  // A P line runs straight on into its two parity bytes.
  lemma ByteOfP(major: nat, k: nat)
    requires P.Fits() && major < 86 && k < 26
    ensures ByteOfLine(P, major, k) == COVERED + major + 86 * k
  {
    hide Place;
    if k < 24 {
      PlaceInP(major, k);
    }
  }

  // A byte of a Q line before its parity, seen from the P line through it.
  lemma ByteOfQ(major: nat, k: nat)
    requires Q.Fits() && major < 52 && k < 43
    ensures ByteOfLine(Q, major, k) == COVERED + 2 * PairInQ(major / 2, k) + major % 2
  {
    hide Place;
    PlaceInQ(major, k);
  }

  // P line m crosses every Q line at its byte number m / 2.
  lemma CrossedAt(m: nat, k: nat, major: nat, n: nat)
    requires P.Fits() && Q.Fits() && m < 86 && k < 26 && major < 52 && n < 43
    requires ByteOfLine(P, m, k) == ByteOfLine(Q, major, n)
    ensures n == m / 2
  {
    hide ByteOfLine;
    ByteOfP(m, k);
    ByteOfQ(major, n);
    PairRemainder(major / 2, n, m / 2, k);
  }

  lemma PairRemainder(column: nat, n: nat, half: nat, k: nat)
    requires n < 43 && half < 43 && PairInQ(column, n) == half + 43 * k
    ensures n == half
  {
    var turns := (43 * column + 44 * n) / 1118;
    assert n - half == 43 * (k + 26 * turns - column - n);
  }

  lemma QLinesApart(a: nat, k: nat, b: nat, n: nat)
    requires Q.Fits() && a < 52 && k < 45 && b < 52 && n < 45
    requires ByteOfLine(Q, a, k) == ByteOfLine(Q, b, n)
    ensures a == b && k == n
  {
    hide Place, Layout.Start;
    if k < 43 && n < 43 {
      PlaceInQ(a, k);
      PlaceInQ(b, n);
      hide PairInQ;
      PairInQInjective(a / 2, k, b / 2, n);
    }
  }

  // ---- Nine bytes ----

  // The three bytes of one Q line at which two sectors differ.
  ghost predicate ThreeOfLine(s: Sector, t: Sector, major: nat, three: set<nat>)
    requires Q.Fits() && major < 52
  {
    && |three| == 3 && three <= Differing(s, t)
    && forall i :: i in three ==> exists k: nat :: k < 45 && i == ByteOfLine(Q, major, k)
  }

  lemma ThreeBytes(s: Sector, t: Sector, major: nat, k: nat) returns (three: set<nat>)
    requires Q.Fits() && LinesValid(s, Q) && LinesValid(t, Q) && major < 52 && k < 45
    requires s[ByteOfLine(Q, major, k)] != t[ByteOfLine(Q, major, k)]
    ensures ThreeOfLine(s, t, major, three)
  {
    hide Codeword, Line, Place, Layout.Start;
    var a, b, c := ThreeOnLine(s, t, Q, major, k);
    hide ByteOfLine;
    var x, y, z := ByteOfLine(Q, major, a), ByteOfLine(Q, major, b), ByteOfLine(Q, major, c);
    if x == y {
      QLinesApart(major, a, major, b);
    }
    if x == z {
      QLinesApart(major, a, major, c);
    }
    if y == z {
      QLinesApart(major, b, major, c);
    }
    three := {x, y, z};
    IsCovered(major, a);
    IsCovered(major, b);
    IsCovered(major, c);
  }

  lemma IsCovered(major: nat, k: nat)
    requires Q.Fits() && major < 52 && k < 45
    ensures COVERED <= ByteOfLine(Q, major, k) < 2352
  {
    hide Place, Layout.Start;
  }

  lemma LinesDisjoint(s: Sector, t: Sector, a: nat, b: nat, x: set<nat>, y: set<nat>)
    requires Q.Fits() && a < 52 && b < 52 && a != b && ThreeOfLine(s, t, a, x) && ThreeOfLine(s, t, b, y)
    ensures x !! y
  {
    hide ByteOfLine;
    if i :| i in x && i in y {
      var k: nat :| k < 45 && i == ByteOfLine(Q, a, k);
      var n: nat :| n < 45 && i == ByteOfLine(Q, b, n);
      QLinesApart(a, k, b, n);
    }
  }

  lemma {:induction false} SubsetIsSmaller(a: set<nat>, b: set<nat>)
    requires a <= b
    ensures |a| <= |b|
  {
    if a != {} {
      var x :| x in a;
      SubsetIsSmaller(a - {x}, b - {x});
    }
  }

  // The Q line through a byte of a P line.
  lemma QThroughP(m: nat, k: nat) returns (major: nat, n: nat)
    requires P.Fits() && Q.Fits() && m < 86 && k < 26
    ensures major < 52 && n < 43 && ByteOfLine(Q, major, n) == ByteOfLine(P, m, k)
  {
    hide Place, Layout.Start;
    ByteOfP(m, k);
    major, n := LineThrough(ByteOfLine(P, m, k));
  }

  // Sectors that differ on a P line differ in three bytes of each of three Q lines.
  lemma NineFromP(s: Sector, t: Sector, m: nat, k: nat)
    requires EccValid(s) && EccValid(t) && P.Fits() && Q.Fits() && m < 86 && k < 26
    requires s[ByteOfLine(P, m, k)] != t[ByteOfLine(P, m, k)]
    ensures |Differing(s, t)| >= 9
  {
    hide Codeword, Line, ByteOfLine, Place, Layout.Start, Differing, Layout.Fits;
    var k1, k2, k3 := ThreeOnLine(s, t, P, m, k);
    var q1, n1 := QThroughP(m, k1);
    var q2, n2 := QThroughP(m, k2);
    var q3, n3 := QThroughP(m, k3);
    CrossOnce(m, k1, q1, n1, k2, q2, n2);
    CrossOnce(m, k1, q1, n1, k3, q3, n3);
    CrossOnce(m, k2, q2, n2, k3, q3, n3);
    var x := ThreeBytes(s, t, q1, n1);
    var y := ThreeBytes(s, t, q2, n2);
    var z := ThreeBytes(s, t, q3, n3);
    LinesDisjoint(s, t, q1, q2, x, y);
    LinesDisjoint(s, t, q1, q3, x, z);
    LinesDisjoint(s, t, q2, q3, y, z);
    assert |x + y + z| == 9;
    SubsetIsSmaller(x + y + z, Differing(s, t));
  }

  // Two bytes of one P line are on different Q lines.
  lemma CrossOnce(m: nat, j: nat, a: nat, u: nat, k: nat, b: nat, v: nat)
    requires P.Fits() && Q.Fits() && m < 86 && j < 26 && k < 26 && j != k && a < 52 && b < 52 && u < 43 && v < 43
    requires ByteOfLine(P, m, j) == ByteOfLine(Q, a, u) && ByteOfLine(P, m, k) == ByteOfLine(Q, b, v)
    ensures a != b
  {
    hide ByteOfLine;
    CrossedAt(m, j, a, u);
    CrossedAt(m, k, b, v);
    ByteOfP(m, j);
    ByteOfP(m, k);
  }

  /** Two sectors in which every P line and every Q line is valid differ in none of the bytes 12 to 2351, or
      in at least nine of them: changing one to eight, wherever they are, always breaks a line. */
  lemma NineBytesApart(s: Sector, t: Sector)
    requires EccValid(s) && EccValid(t)
    ensures Differing(s, t) == {} || |Differing(s, t)| >= 9
  {
    hide Codeword, Line, ByteOfLine, Place, Layout.Start, Layout.Fits;
    LayoutsFit();
    if z :| z in Differing(s, t) {
      var major, k := LineThrough(z);
      var a, b, c := ThreeOnLine(s, t, Q, major, k);
      var n := if a < 43 then a else if b < 43 then b else c;
      var m, j := PThroughQ(major, n);
      NineFromP(s, t, m, j);
    }
  }

  // The P line through a byte of a Q line before its parity.
  lemma PThroughQ(major: nat, n: nat) returns (m: nat, k: nat)
    requires P.Fits() && Q.Fits() && major < 52 && n < 43
    ensures m < 86 && k < 26 && ByteOfLine(P, m, k) == ByteOfLine(Q, major, n)
  {
    var i := Place(Q, major, n);
    hide Place;
    m, k := i % 86, i / 86;
    ByteOfP(m, k);
  }

  // ---- Nine can be enough ----

  lemma {:induction false} ZeroChecks(u: seq<bv8>)
    requires forall k :: 0 <= k < |u| ==> u[k] == 0
    ensures Sum(u) == 0 && Eval2(u) == 0
  {
    if u != [] {
      ZeroChecks(u[..|u| - 1]);
    }
  }

  predicate Cancels(p: bv8, q: bv8, r: bv8) {
    Add(Add(p, q), r) == 0 && Add(Mul2(Add(Mul2(p), q)), r) == 0
  }

  lemma CancelledChecks(u: seq<bv8>)
    requires |u| >= 3 && Cancels(u[|u| - 3], u[|u| - 2], u[|u| - 1])
    requires forall k :: 0 <= k < |u| - 3 ==> u[k] == 0
    ensures Codeword(u)
  {
    hide Add, Mul2;
    var n := |u| - 3;
    ZeroChecks(u[..n]);
    ChecksOfPush(u[..n], u[n]);
    ChecksOfPush(u[..n + 1], u[n + 1]);
    ChecksOfPush(u[..n + 2], u[n + 2]);
    assert u[..n] + [u[n]] == u[..n + 1] && u[..n + 1] + [u[n + 1]] == u[..n + 2];
    assert u[..n + 2] + [u[n + 2]] == u;
    hide Sum, Eval2;
    NothingAdded(u[n]);
  }

  lemma NothingAdded(x: bv8)
    ensures Add(0, x) == x && Add(x, 0) == x && Mul2(0) == 0
  {
  }

  // Three neighbouring bytes that cancel in both checks, and zeros around them, make a codeword.
  lemma {:induction false} SparseCodeword(u: seq<bv8>, at: nat)
    requires at + 3 <= |u| && Cancels(u[at], u[at + 1], u[at + 2])
    requires forall k :: 0 <= k < |u| && !(at <= k < at + 3) ==> u[k] == 0
    ensures Codeword(u)
  {
    hide Add, Mul2, Cancels;
    var n := |u| - 1;
    if n > at + 2 {
      SparseCodeword(u[..n], at);
      NothingAdded(0);
    } else {
      CancelledChecks(u);
    }
  }

  // The products of 3, 5 and 6, the coefficients of (x + 1)(x + 2) up to a factor, with one another.
  const PRODUCTS: seq<seq<bv8>> := [[5, 15, 10], [15, 17, 30], [10, 30, 20]]

  function ProductAt(n: nat, c: int): bv8 {
    if n < 3 && 0 <= c < 3 then PRODUCTS[n][c] else 0
  }

  // What a byte number of the covered region holds, by the P line through it and its place there.
  function NineAt(m: nat, k: nat): bv8 {
    if m % 2 == 0 then ProductAt(m / 2, k - m / 2) else 0
  }

  // A sector of zeros but for nine bytes, where three P lines and three Q lines cross.
  function NineBytes(): Sector {
    seq(2352, i requires 0 <= i < 2352 =>
      if COVERED <= i < 0x8C8 then NineAt((i - COVERED) % 86, (i - COVERED) / 86) else 0)
  }

  lemma NineOnP(m: nat, k: nat)
    requires P.Fits() && m < 86 && k < 26
    ensures NineBytes()[ByteOfLine(P, m, k)] == NineAt(m, k)
  {
    hide ByteOfLine, NineAt;
    ByteOfP(m, k);
    assert (m + 86 * k) % 86 == m && (m + 86 * k) / 86 == k;
  }

  lemma NineOnQ(major: nat, n: nat)
    requires P.Fits() && Q.Fits() && major < 52 && n < 45
    ensures NineBytes()[ByteOfLine(Q, major, n)] == if major % 2 == 0 then ProductAt(n, major / 2) else 0
  {
    hide ByteOfLine, ProductAt;
    if n < 43 {
      var m, k := PThroughQ(major, n);
      CrossedAt(m, k, major, n);
      NineOnP(m, k);
      CrossedColumn(m, k, major, n);
    } else {
      ParityOfQ(major, n);
      NoProduct(n, major / 2);
    }
  }

  lemma NoProduct(n: nat, c: int)
    requires n >= 3 || c < 0 || c >= 3
    ensures ProductAt(n, c) == 0
  {
  }

  lemma ParityOfQ(major: nat, n: nat)
    requires Q.Fits() && major < 52 && 43 <= n < 45
    ensures 0x8C8 <= ByteOfLine(Q, major, n)
  {
  }

  // The column of the Q line that crosses P line m at its byte k: k columns on from the byte's own number.
  lemma CrossedColumn(m: nat, k: nat, major: nat, n: nat)
    requires P.Fits() && Q.Fits() && m < 86 && k < 26 && major < 52 && n < 43 && n == m / 2
    requires ByteOfLine(P, m, k) == ByteOfLine(Q, major, n)
    ensures m % 2 == major % 2
    ensures ProductAt(n, k - n) == ProductAt(n, major / 2)
  {
    hide ByteOfLine, ProductAt;
    ByteOfP(m, k);
    ByteOfQ(major, n);
    var c := major / 2;
    var turns := (43 * c + 44 * n) / 1118;
    assert PairInQ(c, n) == n + 43 * k;
    assert c + n == k + 26 * turns;
    if turns != 0 && n < 3 {
      NoProduct(n, k - n);
      NoProduct(n, c);
    } else if n >= 3 {
      NoProduct(n, k - n);
      NoProduct(n, c);
    }
  }

  lemma RowsCancel(n: nat)
    requires n < 3
    ensures Cancels(ProductAt(n, 0), ProductAt(n, 1), ProductAt(n, 2))
    ensures Cancels(ProductAt(0, n), ProductAt(1, n), ProductAt(2, n))
  {
    assert n == 0 || n == 1 || n == 2;
  }

  lemma NineIsOnP(m: nat)
    requires P.Fits() && m < 86
    ensures Codeword(Line(NineBytes(), P, m))
  {
    hide Codeword, Line, ByteOfLine, Layout.Start, NineBytes, Cancels, PRODUCTS;
    var u := Line(NineBytes(), P, m);
    LineByte(NineBytes(), P, m, 0);
    forall k: nat | k < 26
      ensures u[k] == NineAt(m, k)
    {
      LineByte(NineBytes(), P, m, k);
      NineOnP(m, k);
    }
    if m % 2 == 0 && m < 6 {
      RowsCancel(m / 2);
      SparseCodeword(u, m / 2);
    } else {
      ZeroIsCodeword(u);
    }
  }

  lemma NineIsOnQ(major: nat)
    requires P.Fits() && Q.Fits() && major < 52
    ensures Codeword(Line(NineBytes(), Q, major))
  {
    hide Codeword, Line, ByteOfLine, Layout.Start, NineBytes, Cancels, PRODUCTS;
    var u := Line(NineBytes(), Q, major);
    LineByte(NineBytes(), Q, major, 0);
    forall k: nat | k < 45
      ensures u[k] == if major % 2 == 0 then ProductAt(k, major / 2) else 0
    {
      LineByte(NineBytes(), Q, major, k);
      NineOnQ(major, k);
    }
    if major % 2 == 0 && major < 6 {
      RowsCancel(major / 2);
      SparseCodeword(u, 0);
    } else {
      ZeroIsCodeword(u);
    }
  }

  lemma ZeroIsCodeword(u: seq<bv8>)
    requires forall k :: 0 <= k < |u| ==> u[k] == 0
    ensures Codeword(u)
  {
    ZeroChecks(u);
  }

  /** Nine is exact: a sector of zeros and one with nine bytes that are not zero are both valid. */
  lemma NineCanBeEnough(zeros: Sector)
    requires forall i :: 0 <= i < 2352 ==> zeros[i] == 0
    ensures EccValid(zeros) && EccValid(NineBytes()) && |Differing(zeros, NineBytes())| == 9
  {
    hide Codeword, Line, ByteOfLine, NineBytes, Layout.Start;
    LayoutsFit();
    ZerosAreValid(zeros, P);
    ZerosAreValid(zeros, Q);
    forall m: nat | m < P.majors
      ensures Codeword(Line(NineBytes(), P, m))
    {
      NineIsOnP(m);
    }
    forall m: nat | m < Q.majors
      ensures Codeword(Line(NineBytes(), Q, m))
    {
      NineIsOnQ(m);
    }
    assert Differing(zeros, NineBytes()) == {12, 98, 184, 100, 186, 272, 188, 274, 360} by {
      forall i: nat | COVERED <= i < 2352
        ensures i in Differing(zeros, NineBytes()) <==> i in {12, 98, 184, 100, 186, 272, 188, 274, 360}
      {
        WhereNineBytesAre(i);
      }
    }
  }

  lemma ZerosAreValid(zeros: Sector, l: Layout)
    requires l.Fits() && forall i :: 0 <= i < 2352 ==> zeros[i] == 0
    ensures LinesValid(zeros, l)
  {
    hide Codeword;
    forall major: nat | major < l.majors
      ensures Codeword(Line(zeros, l, major))
    {
      ZeroIsCodeword(Line(zeros, l, major));
    }
  }

  lemma WhereNineBytesAre(i: nat)
    requires COVERED <= i < 2352
    ensures NineBytes()[i] != 0 <==> i in {12, 98, 184, 100, 186, 272, 188, 274, 360}
  {
    hide PRODUCTS, ProductAt;
    var m, k := (i - COVERED) % 86, (i - COVERED) / 86;
    assert i == COVERED + m + 86 * k;
    var n, c := m / 2, k - m / 2;
    ProductIsZero(n, c);
    assert NineBytes()[i] == if i < 0x8C8 then NineAt(m, k) else 0;
    hide NineBytes;
    if m % 2 == 0 && n < 3 && 0 <= c < 3 {
      assert i == 12 + 88 * n + 86 * c;
      assert n == 0 || n == 1 || n == 2;
      assert c == 0 || c == 1 || c == 2;
    }
  }

  lemma ProductIsZero(n: nat, c: int)
    ensures ProductAt(n, c) != 0 <==> n < 3 && 0 <= c < 3
  {
  }
}
