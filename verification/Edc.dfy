/** The error detection code of a CD-ROM sector (ECMA-130, section 14.3): bit-serial division by
    the reflected polynomial D8018001h, least significant bit of each byte first. */
module Edc {

  function Xor(a: bv32, b: bv32): bv32 {
    a ^ b
  }

  function Half(e: bv32): bv32 {
    e >> 1
  }

  predicate Odd(e: bv32) {
    e & 1 != 0
  }

  function Polynomial(odd: bool): bv32 {
    if odd then 0xD8018001 else 0
  }

  // One bit of division: the bit that falls out selects the polynomial.
  function Step(e: bv32): bv32 {
    Xor(Half(e), Polynomial(Odd(e)))
  }

  function Step8(e: bv32): bv32 {
    Step(Step(Step(Step(Step(Step(Step(Step(e))))))))
  }

  function FeedBit(e: bv32, bit: bool): bv32 {
    Step(e ^ (if bit then 1 else 0))
  }

  function FeedByte(e: bv32, b: bv8): bv32 {
    var e := FeedBit(FeedBit(e, b & 0x01 != 0), b & 0x02 != 0);
    var e := FeedBit(FeedBit(e, b & 0x04 != 0), b & 0x08 != 0);
    var e := FeedBit(FeedBit(e, b & 0x10 != 0), b & 0x20 != 0);
    FeedBit(FeedBit(e, b & 0x40 != 0), b & 0x80 != 0)
  }

  // The remainder after the bytes of s, starting from the remainder e.
  function Remainder(e: bv32, s: seq<bv8>): bv32
    decreases |s|
  {
    if s == [] then e else Remainder(FeedByte(e, s[0]), s[1..])
  }

  function Code(s: seq<bv8>): bv32 {
    Remainder(0, s)
  }

  // The four bytes of a code, in the order the sector stores them.
  function Bytes(e: bv32): (b: seq<bv8>)
    ensures |b| == 4
  {
    [(e & 0xFF) as bv8, ((e >> 8) & 0xFF) as bv8, ((e >> 16) & 0xFF) as bv8, ((e >> 24) & 0xFF) as bv8]
  }

  // ---- One step is linear and invertible ----

  lemma HalfXor(a: bv32, b: bv32)
    ensures Half(Xor(a, b)) == Xor(Half(a), Half(b))
  {
  }

  lemma OddXor(a: bv32, b: bv32)
    ensures Odd(Xor(a, b)) <==> Odd(a) != Odd(b)
  {
  }

  lemma PolynomialXor(a: bool, b: bool)
    ensures Xor(Polynomial(a), Polynomial(b)) == Polynomial(a != b)
  {
  }

  lemma XorAssociates(a: bv32, b: bv32, c: bv32)
    ensures Xor(Xor(a, b), c) == Xor(a, Xor(b, c))
  {
  }

  lemma XorCommutes(a: bv32, b: bv32)
    ensures Xor(a, b) == Xor(b, a)
  {
  }

  lemma XorExchange(a: bv32, b: bv32, c: bv32, d: bv32)
    ensures Xor(Xor(a, b), Xor(c, d)) == Xor(Xor(a, c), Xor(b, d))
  {
    hide Xor;
    XorAssociates(a, b, Xor(c, d));
    XorAssociates(b, c, d);
    XorCommutes(b, c);
    XorAssociates(c, b, d);
    XorAssociates(a, c, Xor(b, d));
  }

  lemma StepXor(a: bv32, b: bv32)
    ensures Step(Xor(a, b)) == Xor(Step(a), Step(b))
  {
    hide Xor, Half, Odd, Polynomial;
    HalfXor(a, b);
    OddXor(a, b);
    PolynomialXor(Odd(a), Odd(b));
    XorExchange(Half(a), Polynomial(Odd(a)), Half(b), Polynomial(Odd(b)));
  }

  // n steps in a row.
  function Steps(n: nat, e: bv32): bv32 {
    if n == 0 then e else Steps(n - 1, Step(e))
  }

  lemma {:induction false} StepsXor(n: nat, a: bv32, b: bv32)
    ensures Steps(n, Xor(a, b)) == Xor(Steps(n, a), Steps(n, b))
  {
    hide Step, Xor;
    if n > 0 {
      StepXor(a, b);
      StepsXor(n - 1, Step(a), Step(b));
    }
  }

  lemma StepInjective(a: bv32, b: bv32)
    requires Step(a) == Step(b)
    ensures a == b
  {}

  lemma {:induction false} StepsInjective(n: nat, a: bv32, b: bv32)
    requires Steps(n, a) == Steps(n, b)
    ensures a == b
  {
    hide Step;
    if n > 0 {
      StepsInjective(n - 1, Step(a), Step(b));
      StepInjective(a, b);
    }
  }

  lemma {:induction false} StepsAdd(m: nat, n: nat, e: bv32)
    ensures Steps(m + n, e) == Steps(n, Steps(m, e))
  {
    hide Step;
    if m > 0 {
      StepsAdd(m - 1, n, Step(e));
    }
  }

  lemma StepsOf8(e: bv32)
    ensures Steps(8, e) == Step8(e)
  {
    hide Step;
    var e4 := Step(Step(Step(Step(e))));
    var e8 := Step(Step(Step(Step(e4))));
    assert Steps(1, Step(Step(Step(e4)))) == e8;
    assert Steps(3, Step(e4)) == Steps(2, Step(Step(e4)));
    assert Steps(5, Step(Step(Step(e)))) == Steps(4, e4);
    assert Steps(7, Step(e)) == Steps(6, Step(Step(e)));
  }

  // ---- A byte at a time ----

  lemma StepTakesLowBit(e: bv32, w: bv32)
    ensures Step(e ^ w) == FeedBit(e, w & 1 != 0) ^ (w >> 1)
  {}

  lemma StepFeeds(e: bv32, w: bv32)
    ensures Step(Xor(e, w)) == Xor(FeedBit(e, w & 1 != 0), w >> 1)
  {
    hide Step, FeedBit;
    StepTakesLowBit(e, w);
  }

  lemma BitsOfByte(b: bv8)
    ensures var w := b as bv32;
      && (w & 1 != 0 <==> b & 0x01 != 0) && ((w >> 1) & 1 != 0 <==> b & 0x02 != 0)
      && ((w >> 2) & 1 != 0 <==> b & 0x04 != 0) && ((w >> 3) & 1 != 0 <==> b & 0x08 != 0)
      && ((w >> 4) & 1 != 0 <==> b & 0x10 != 0) && ((w >> 5) & 1 != 0 <==> b & 0x20 != 0)
      && ((w >> 6) & 1 != 0 <==> b & 0x40 != 0) && ((w >> 7) & 1 != 0 <==> b & 0x80 != 0)
  {}

  lemma ShiftsOfByte(w: bv32)
    requires w & 0xFF == w
    ensures (w >> 1) >> 1 == w >> 2 && (w >> 2) >> 1 == w >> 3 && (w >> 3) >> 1 == w >> 4
    ensures (w >> 4) >> 1 == w >> 5 && (w >> 5) >> 1 == w >> 6 && (w >> 6) >> 1 == w >> 7 && (w >> 7) >> 1 == 0
  {}

  lemma XorZero(e: bv32)
    ensures Xor(e, 0) == e
  {}

  lemma FeedByteIsStep8(e: bv32, b: bv8)
    ensures FeedByte(e, b) == Step8(Xor(e, b as bv32))
  {
    var w := b as bv32;
    BitsOfByte(b);
    assert w & 0xFF == w;
    ShiftsOfByte(w);
    hide Step, Xor, FeedBit;
    StepFeeds(e, w);
    var e1 := FeedBit(e, b & 0x01 != 0);
    StepFeeds(e1, w >> 1);
    var e2 := FeedBit(e1, b & 0x02 != 0);
    StepFeeds(e2, w >> 2);
    var e3 := FeedBit(e2, b & 0x04 != 0);
    StepFeeds(e3, w >> 3);
    var e4 := FeedBit(e3, b & 0x08 != 0);
    StepFeeds(e4, w >> 4);
    var e5 := FeedBit(e4, b & 0x10 != 0);
    StepFeeds(e5, w >> 5);
    var e6 := FeedBit(e5, b & 0x20 != 0);
    StepFeeds(e6, w >> 6);
    var e7 := FeedBit(e6, b & 0x40 != 0);
    StepFeeds(e7, w >> 7);
    XorZero(FeedBit(e7, b & 0x80 != 0));
  }

  lemma Step8Xor(a: bv32, b: bv32)
    ensures Step8(Xor(a, b)) == Xor(Step8(a), Step8(b))
  {
    hide Step, Xor;
    StepsOf8(Xor(a, b));
    StepsOf8(a);
    StepsOf8(b);
    StepsXor(8, a, b);
  }

  lemma StepOfEven(e: bv32)
    requires !Odd(e)
    ensures Step(e) == Half(e)
  {
  }

  // Four halvings at a time.
  lemma HalvedFour(e: bv32)
    requires e & 0xF == 0
    ensures !Odd(e) && !Odd(Half(e)) && !Odd(Half(Half(e))) && !Odd(Half(Half(Half(e))))
    ensures Half(Half(Half(Half(e)))) == e >> 4
  {
  }

  lemma ShiftedFour(e: bv32)
    requires e & 0xFF == 0
    ensures e & 0xF == 0 && (e >> 4) & 0xF == 0 && (e >> 4) >> 4 == e >> 8
  {
  }

  lemma Step4Shifts(e: bv32)
    requires e & 0xF == 0
    ensures Step(Step(Step(Step(e)))) == e >> 4
  {
    HalvedFour(e);
    hide Step, Half, Odd;
    StepOfEven(e);
    StepOfEven(Half(e));
    StepOfEven(Half(Half(e)));
    StepOfEven(Half(Half(Half(e))));
  }

  // With a low byte of zero, eight steps only shift.
  lemma Step8Shifts(e: bv32)
    requires e & 0xFF == 0
    ensures Step8(e) == e >> 8
  {
    hide Step;
    ShiftedFour(e);
    Step4Shifts(e);
    Step4Shifts(e >> 4);
  }

  lemma LowByteDecides(e: bv32)
    ensures Step8(e) == Xor(e >> 8, Step8(e & 0xFF))
  {
    var high, low := e & 0xFFFFFF00, e & 0xFF;
    HighAndLow(e);
    hide Step8, Xor;
    Step8Xor(high, low);
    Step8Shifts(high);
  }

  lemma HighAndLow(e: bv32)
    ensures Xor(e & 0xFFFFFF00, e & 0xFF) == e
    ensures (e & 0xFFFFFF00) & 0xFF == 0 && (e & 0xFFFFFF00) >> 8 == e >> 8
  {
  }

  lemma HighBytesUntouched(e: bv32, w: bv32)
    requires w & 0xFF == w
    ensures Xor(e, w) >> 8 == e >> 8
  {}

  // The low byte of the remainder after adding the next input byte.
  function TableIndex(e: bv32, b: bv8): bv8 {
    ((e ^ (b as bv32)) & 0xFF) as bv8
  }

  lemma TableIndexIsLowByte(e: bv32, b: bv8)
    ensures TableIndex(e, b) as bv32 == Xor(e, b as bv32) & 0xFF
  {}

  /** One table lookup divides by eight bits at once. */
  lemma FeedByteByTable(e: bv32, b: bv8)
    ensures FeedByte(e, b) == Xor(e >> 8, Step8(TableIndex(e, b) as bv32))
  {
    hide Step8, FeedByte, Xor, TableIndex;
    FeedByteIsStep8(e, b);
    ByteFits(b);
    HighBytesUntouched(e, b as bv32);
    LowByteDecides(Xor(e, b as bv32));
    TableIndexIsLowByte(e, b);
  }

  lemma ByteFits(b: bv8)
    ensures (b as bv32) & 0xFF == b as bv32
  {}

  // ---- The whole input ----

  lemma {:induction false} RemainderConcat(e: bv32, s: seq<bv8>, t: seq<bv8>)
    ensures Remainder(e, s + t) == Remainder(Remainder(e, s), t)
    decreases |s|
  {
    hide FeedByte;
    if s == [] {
      assert s + t == t;
    } else {
      assert (s + t)[1..] == s[1..] + t;
      RemainderConcat(FeedByte(e, s[0]), s[1..], t);
    }
  }

  function Push(b: bv8, x: bv32): bv32 {
    Xor(b as bv32, x << 8)
  }

  // The bytes of a window of at most four bytes as one little-endian word.
  function Word(w: seq<bv8>): bv32
    requires |w| <= 4
  {
    if w == [] then 0 else Push(w[0], Word(w[1..]))
  }

  lemma {:induction false} WordFits(w: seq<bv8>)
    requires |w| <= 4
    ensures |w| <= 3 ==> Word(w) & 0xFF00_0000 == 0
    ensures |w| <= 2 ==> Word(w) & 0xFFFF_0000 == 0
    ensures |w| <= 1 ==> Word(w) & 0xFFFF_FF00 == 0
  {
    if w != [] {
      WordFits(w[1..]);
    }
  }

  lemma ShiftedWordPasses(x: bv32)
    requires x & 0xFF00_0000 == 0
    ensures Step8(x << 8) == x
  {}

  // Feeding a window is feeding its word, shifted in 8 bits per byte.
  lemma {:induction false} RemainderOfWindow(e: bv32, w: seq<bv8>)
    requires |w| <= 4
    ensures Remainder(e, w) == Steps(8 * |w|, Xor(e, Word(w)))
    decreases |w|
  {
    hide Step, Step8, FeedByte, Xor;
    if w == [] {
      XorZero(e);
    } else {
      var x, high := Xor(e, w[0] as bv32), Word(w[1..]);
      FeedByteIsStep8(e, w[0]);
      RemainderOfWindow(FeedByte(e, w[0]), w[1..]);
      WordFits(w[1..]);
      ShiftedWordPasses(high);
      StepsXor(8, x, high << 8);
      StepsOf8(x);
      StepsOf8(high << 8);
      XorAssociates(e, w[0] as bv32, high << 8);
      StepsAdd(8, 8 * (|w| - 1), Xor(x, high << 8));
    }
  }

  lemma {:induction false} WordInjective(v: seq<bv8>, w: seq<bv8>)
    requires |v| == |w| <= 4 && Word(v) == Word(w)
    ensures v == w
    decreases |v|
  {
    hide Push;
    if v != [] {
      WordFits(v[1..]);
      WordFits(w[1..]);
      WordParts(v[0], Word(v[1..]), w[0], Word(w[1..]));
      WordInjective(v[1..], w[1..]);
    }
  }

  lemma WordParts(a: bv8, x: bv32, b: bv8, y: bv32)
    requires x & 0xFF00_0000 == 0 && y & 0xFF00_0000 == 0
    requires Push(a, x) == Push(b, y)
    ensures a == b && x == y
  {}

  lemma XorCancels(e: bv32, a: bv32, b: bv32)
    requires Xor(e, a) == Xor(e, b)
    ensures a == b
  {}

  lemma {:induction false} RemainderInjective(d: bv32, e: bv32, s: seq<bv8>)
    requires Remainder(d, s) == Remainder(e, s)
    ensures d == e
    decreases |s|
  {
    hide Step8, FeedByte, Xor;
    if s != [] {
      RemainderInjective(FeedByte(d, s[0]), FeedByte(e, s[0]), s[1..]);
      FeedByteIsStep8(d, s[0]);
      FeedByteIsStep8(e, s[0]);
      StepsOf8(Xor(d, s[0] as bv32));
      StepsOf8(Xor(e, s[0] as bv32));
      StepsInjective(8, Xor(d, s[0] as bv32), Xor(e, s[0] as bv32));
      XorCommutes(d, s[0] as bv32);
      XorCommutes(e, s[0] as bv32);
      XorCancels(s[0] as bv32, d, e);
    }
  }

  /** Two inputs that differ only inside a window of at most four bytes never share a code. */
  lemma BurstDetected(before: seq<bv8>, v: seq<bv8>, w: seq<bv8>, after: seq<bv8>)
    requires |v| == |w| <= 4 && v != w
    ensures Code(before + v + after) != Code(before + w + after)
  {
    hide Step, Xor, FeedByte;
    var e := Code(before);
    RemainderConcat(0, before, v);
    RemainderConcat(0, before, w);
    RemainderConcat(0, before + v, after);
    RemainderConcat(0, before + w, after);
    if Code(before + v + after) == Code(before + w + after) {
      RemainderInjective(Remainder(e, v), Remainder(e, w), after);
      RemainderOfWindow(e, v);
      RemainderOfWindow(e, w);
      StepsInjective(8 * |v|, Xor(e, Word(v)), Xor(e, Word(w)));
      XorCancels(e, Word(v), Word(w));
      WordInjective(v, w);
      assert false;
    }
  }

  lemma WordOfBytes(e: bv32)
    ensures Word(Bytes(e)) == e
  {
    hide Push;
    var b := Bytes(e);
    BytesAssemble(e, b[0], b[1], b[2], b[3]);
    assert b[3..] == [b[3]] && b[2..][1..] == b[3..] && b[1..][1..] == b[2..];
    assert Word(b[3..]) == Push(b[3], 0);
    assert Word(b[1..]) == Push(b[1], Push(b[2], Word(b[3..])));
  }

  lemma BytesAssemble(e: bv32, b0: bv8, b1: bv8, b2: bv8, b3: bv8)
    requires [b0, b1, b2, b3] == Bytes(e)
    ensures Push(b0, Push(b1, Push(b2, Push(b3, 0)))) == e
  {}

  lemma StepsOfZero(n: nat)
    ensures Steps(n, 0) == 0
  {}

  lemma XorSelf(a: bv32)
    ensures Xor(a, a) == 0
  {}

  /** Dividing the data followed by four bytes leaves nothing exactly when those bytes are the
      code of the data. */
  lemma CodeIsTheOnlyTail(data: seq<bv8>, tail: seq<bv8>)
    requires |tail| == 4
    ensures Code(data + tail) == 0 <==> tail == Bytes(Code(data))
  {
    hide Step, Xor, FeedByte;
    var e := Code(data);
    RemainderConcat(0, data, tail);
    RemainderOfWindow(e, tail);
    WordOfBytes(e);
    XorSelf(e);
    StepsOfZero(32);
    if Code(data + tail) == 0 {
      StepsInjective(32, Xor(e, Word(tail)), Xor(e, e));
      XorCancels(e, Word(tail), e);
      WordInjective(tail, Bytes(e));
    }
  }
}
