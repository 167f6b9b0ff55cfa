/** Arithmetic of GF(2^8) with the field polynomial x^8 + x^4 + x^3 + x^2 + 1 (11Dh), and the
    two-check Reed-Solomon code with generator (x + 1)(x + 2) from which ECMA-130, Annex A,
    builds both parity sets of a CD-ROM sector. */
module Gf256 {

  function Add(x: bv8, y: bv8): bv8 {
    x ^ y
  }

  function Mul2(x: bv8): bv8 {
    (x << 1) ^ (if x & 0x80 != 0 then 0x1D else 0)
  }

  function Mul3(x: bv8): bv8 {
    Add(x, Mul2(x))
  }

  // y times F4h = 80h + 40h + 20h + 10h + 04h, the inverse of 3.
  function Div3(y: bv8): bv8 {
    var y4 := Mul2(Mul2(y));
    var y16 := Mul2(Mul2(y4));
    var y32 := Mul2(y16);
    var y64 := Mul2(y32);
    Mul2(y64) ^ y64 ^ y32 ^ y16 ^ y4
  }

  lemma Mul2Linear(a: bv8, b: bv8)
    ensures Mul2(Add(a, b)) == Add(Mul2(a), Mul2(b))
  {
    assert (a ^ b) << 1 == (a << 1) ^ (b << 1);
    assert (a ^ b) & 0x80 == (a & 0x80) ^ (b & 0x80);
    if a & 0x80 != 0 { if b & 0x80 != 0 {} else {} } else { if b & 0x80 != 0 {} else {} }
  }

  lemma Mul2Injective(a: bv8, b: bv8)
    requires Mul2(a) == Mul2(b)
    ensures a == b
  {}

  // Multiplying by 3 is a permutation of the field, and Div3 is its inverse.
  lemma Mul3Inverse(y: bv8)
    ensures Mul3(Div3(y)) == y
  {}

  lemma Mul3Injective(x: bv8, y: bv8)
    requires Mul3(x) == Mul3(y)
    ensures x == y
  {}

  // 2^k times x.
  function Scale(k: nat, x: bv8): bv8 {
    if k == 0 then x else Mul2(Scale(k - 1, x))
  }

  // The first check of a line: the plain sum of its bytes.
  function Sum(line: seq<bv8>): bv8 {
    if line == [] then 0 else Add(Sum(line[..|line| - 1]), line[|line| - 1])
  }

  // The second check: the line as a polynomial, first byte leading, evaluated at 2.
  function Eval2(line: seq<bv8>): bv8 {
    if line == [] then 0 else Add(Mul2(Eval2(line[..|line| - 1])), line[|line| - 1])
  }

  // Both roots of (x + 1)(x + 2) are roots of the line.
  predicate Codeword(line: seq<bv8>) {
    Sum(line) == 0 && Eval2(line) == 0
  }

  lemma {:induction false} ChecksOfPush(line: seq<bv8>, x: bv8)
    ensures Sum(line + [x]) == Add(Sum(line), x)
    ensures Eval2(line + [x]) == Add(Mul2(Eval2(line)), x)
  {
    hide Add, Mul2;
    assert (line + [x])[..|line + [x]| - 1] == line;
  }

  // The two parity bytes of a line of data bytes.
  function Parity(data: seq<bv8>): (bv8, bv8) {
    var p := Div3(Add(Mul2(Mul2(Eval2(data))), Sum(data)));
    (p, Add(p, Sum(data)))
  }

  /** Appending the two parity bytes makes a codeword, and no other two bytes do. */
  lemma ParityIsTheOnlySolution(data: seq<bv8>, p: bv8, q: bv8)
    ensures Codeword(data + [p, q]) <==> (p, q) == Parity(data)
  {
    hide Add, Mul2, Div3, Sum, Eval2;
    var s, e := Sum(data), Eval2(data);
    ChecksOfPush(data, p);
    ChecksOfPush(data + [p], q);
    assert data + [p] + [q] == data + [p, q];
    Mul2Linear(Mul2(e), p);
    TwoEquations(Mul2(Mul2(e)), Mul2(p), s, p, q);
    var c := Add(Mul2(Mul2(e)), s);
    Mul3Inverse(c);
    if Mul3(p) == c {
      Mul3Injective(p, Div3(c));
    }
  }

  lemma TwoEquations(m: bv8, p2: bv8, s: bv8, p: bv8, q: bv8)
    ensures Add(Add(s, p), q) == 0 && Add(Add(m, p2), q) == 0
       <==> Add(p, p2) == Add(m, s) && q == Add(p, s)
  {
    hide Add;
    ZeroSum(Add(s, p), q);
    ZeroSum(Add(m, p2), q);
    Exchange(m, p2, p, s);
  }

  lemma ZeroSum(a: bv8, b: bv8)
    ensures Add(a, b) == 0 <==> a == b
    ensures Add(a, b) == Add(b, a)
  {}

  lemma AddTwice(a: bv8, b: bv8)
    ensures Add(Add(a, b), b) == a
  {
  }

  lemma MoveOver(a: bv8, b: bv8, c: bv8)
    ensures Add(a, b) == c <==> a == Add(c, b)
  {
    hide Add;
    AddTwice(a, b);
    AddTwice(c, b);
  }

  lemma Exchange(m: bv8, p2: bv8, p: bv8, s: bv8)
    ensures Add(m, p2) == Add(p, s) <==> Add(p, p2) == Add(m, s)
    ensures Add(p, s) == Add(s, p)
  {
    hide Add;
    MoveOver(m, p2, Add(p, s));
    Swap(p, s, p2);
    MoveOver(m, s, Add(p, p2));
    ZeroSum(p, s);
  }

  // In how many places two lines of one length differ.
  function Distance(u: seq<bv8>, v: seq<bv8>): nat
    requires |u| == |v|
  {
    if u == [] then 0
    else Distance(u[..|u| - 1], v[..|v| - 1]) + (if u[|u| - 1] == v[|v| - 1] then 0 else 1)
  }

  lemma {:induction false} NoDistance(u: seq<bv8>, v: seq<bv8>)
    requires |u| == |v| && Distance(u, v) == 0
    ensures u == v
  {
    if u != [] {
      NoDistance(u[..|u| - 1], v[..|v| - 1]);
      assert u == u[..|u| - 1] + [u[|u| - 1]];
      assert v == v[..|v| - 1] + [v[|v| - 1]];
    }
  }

  // Lines that differ in one place only differ in both checks by a multiple of one error byte.
  lemma {:induction false} OneErrorChecks(u: seq<bv8>, v: seq<bv8>) returns (k: nat, e: bv8)
    requires |u| == |v| && Distance(u, v) == 1
    ensures e != 0 && k < |u|
    ensures Sum(u) == Add(Sum(v), e) && Eval2(u) == Add(Eval2(v), Scale(k, e))
  {
    hide Add, Mul2;
    var n := |u| - 1;
    if u[n] == v[n] {
      k, e := OneErrorChecks(u[..n], v[..n]);
      Mul2Linear(Eval2(v[..n]), Scale(k, e));
      Swap(Sum(v[..n]), e, u[n]);
      Swap(Mul2(Eval2(v[..n])), Scale(k + 1, e), u[n]);
      k := k + 1;
    } else {
      NoDistance(u[..n], v[..n]);
      k, e := 0, Add(u[n], v[n]);
      Split(Sum(v[..n]), u[n], v[n]);
      Split(Mul2(Eval2(v[..n])), u[n], v[n]);
    }
  }

  lemma Swap(a: bv8, b: bv8, c: bv8)
    ensures Add(Add(a, b), c) == Add(Add(a, c), b)
  {
  }

  lemma Split(a: bv8, b: bv8, c: bv8)
    ensures Add(a, b) == Add(Add(a, c), Add(b, c))
    ensures b != c ==> Add(b, c) != 0
  {
  }

  function Mul16(x: bv8): bv8 {
    Mul2(Mul2(Mul2(Mul2(x))))
  }

  // One to four doublings of y give x.
  predicate Hits(y: bv8, x: bv8) {
    Mul2(y) == x || Mul2(Mul2(y)) == x || Mul2(Mul2(Mul2(y))) == x || Mul16(y) == x
  }

  lemma NoHit0To3(x: bv8)
    requires x != 0
    ensures !Hits(x, x) && !Hits(Mul16(x), x)
    ensures !Hits(Mul16(Mul16(x)), x) && !Hits(Mul16(Mul16(Mul16(x))), x)
  {}

  lemma NoHit4To5(x: bv8)
    requires x != 0
    ensures var y := Mul16(Mul16(Mul16(Mul16(x))));
            !Hits(y, x) && !Hits(Mul16(y), x)
  {}

  lemma NoHit6To7(x: bv8)
    requires x != 0
    ensures var y := Mul16(Mul16(Mul16(Mul16(Mul16(Mul16(x))))));
            !Hits(y, x) && !Hits(Mul16(y), x)
  {}

  lemma NoHit8(x: bv8)
    requires x != 0
    ensures !Hits(Mul16(Mul16(Mul16(Mul16(Mul16(Mul16(Mul16(Mul16(x)))))))), x)
  {}

  lemma NoHit9(x: bv8)
    requires x != 0
    ensures !Hits(Mul16(Mul16(Mul16(Mul16(Mul16(Mul16(Mul16(Mul16(Mul16(x))))))))), x)
  {}

  lemma NoHit10(x: bv8)
    requires x != 0
    ensures !Hits(Mul16(Mul16(Mul16(Mul16(Mul16(Mul16(Mul16(Mul16(Mul16(Mul16(x)))))))))), x)
  {}

  function Scale16(a: nat, x: bv8): bv8 {
    if a == 0 then x else Mul16(Scale16(a - 1, x))
  }

  lemma NoHit(a: nat, x: bv8)
    requires a <= 10 && x != 0
    ensures !Hits(Scale16(a, x), x)
  {
    hide Mul16, Hits;
    NoHit0To3(x);
    NoHit4To5(x);
    NoHit6To7(x);
    NoHit8(x);
    NoHit9(x);
    NoHit10(x);
    assert Scale16(1, x) == Mul16(x);
    assert Scale16(2, x) == Mul16(Scale16(1, x));
    assert Scale16(4, x) == Mul16(Mul16(Scale16(2, x)));
    assert Scale16(6, x) == Mul16(Mul16(Scale16(4, x)));
    assert Scale16(8, x) == Mul16(Mul16(Scale16(6, x)));
    assert Scale16(10, x) == Mul16(Mul16(Scale16(8, x)));
  }

  lemma {:induction false} ScaleIn16s(a: nat, x: bv8)
    ensures Scale(4 * a, x) == Scale16(a, x)
  {
    hide Mul2;
    if a > 0 {
      ScaleIn16s(a - 1, x);
      var k := 4 * (a - 1);
      assert Scale(k + 2, x) == Mul2(Scale(k + 1, x));
      assert Scale(k + 4, x) == Mul2(Scale(k + 3, x));
    }
  }

  /** The powers of 2 over the 45 positions of the longest line are distinct: doubling a nonzero
      byte 1 to 44 times never gives it back. */
  lemma NoShortCycle(k: nat, x: bv8)
    requires 1 <= k <= 44 && x != 0
    ensures Scale(k, x) != x
  {
    hide Mul2;
    var a := (k - 1) / 4;
    NoHit(a, x);
    ScaleIn16s(a, x);
    assert Scale(4 * a + 2, x) == Mul2(Scale(4 * a + 1, x));
    assert Scale(4 * a + 4, x) == Mul2(Scale(4 * a + 3, x));
  }

  lemma Cancel(a: bv8, b: bv8, c: bv8)
    ensures Add(a, b) == Add(a, c) ==> b == c
    ensures Add(b, a) == Add(c, a) ==> b == c
  {}

  lemma ErrorIsDifference(a: bv8, e: bv8, x: bv8, y: bv8)
    requires Add(Add(a, e), x) == Add(a, y)
    ensures e == Add(x, y)
  {
    assert (a ^ e) ^ x == a ^ y ==> e == x ^ y;
  }

  // Lines with equal checks that are not equal differ in at least three bytes.
  lemma {:induction false} EqualChecksFarApart(u: seq<bv8>, v: seq<bv8>)
    requires |u| == |v| <= 45 && u != v
    requires Sum(u) == Sum(v) && Eval2(u) == Eval2(v)
    ensures Distance(u, v) >= 3
  {
    hide Add, Mul2;
    var n := |u| - 1;
    var u', v' := u[..n], v[..n];
    assert u == u' + [u[n]] && v == v' + [v[n]];
    if u[n] == v[n] {
      Cancel(u[n], Sum(u'), Sum(v'));
      Cancel(u[n], Mul2(Eval2(u')), Mul2(Eval2(v')));
      Mul2Injective(Eval2(u'), Eval2(v'));
      EqualChecksFarApart(u', v');
    } else if Distance(u', v') == 0 {
      NoDistance(u', v');
      Cancel(Sum(u'), u[n], v[n]);
      assert false;
    } else if Distance(u', v') == 1 {
      var k, e := OneErrorChecks(u', v');
      Mul2Linear(Eval2(v'), Scale(k, e));
      ErrorIsDifference(Sum(v'), e, u[n], v[n]);
      ErrorIsDifference(Mul2(Eval2(v')), Scale(k + 1, e), u[n], v[n]);
      NoShortCycle(k + 1, e);
      assert false;
    }
  }

  /** Two different codewords of at most 45 bytes differ in at least three bytes, so changing one
      or two bytes of a codeword always breaks one of its two equations. */
  lemma MinimumDistance(u: seq<bv8>, v: seq<bv8>)
    requires |u| == |v| <= 45 && Codeword(u) && u != v && Distance(u, v) <= 2
    ensures !Codeword(v)
  {
    if Codeword(v) {
      EqualChecksFarApart(u, v);
    }
  }

  lemma {:induction false} DistanceAtMostTwo(u: seq<bv8>, v: seq<bv8>, p: int, q: int)
    requires |u| == |v|
    requires forall k :: 0 <= k < |u| && k != p && k != q ==> u[k] == v[k]
    ensures Distance(u, v) <= (if 0 <= p < |u| then 1 else 0) + (if 0 <= q < |u| && q != p then 1 else 0)
  {
    if u != [] {
      DistanceAtMostTwo(u[..|u| - 1], v[..|v| - 1], p, q);
    }
  }
}
