/** The three lookup tables of the sector codes, and the checksum loop that reads one of them. */
module CodeTables {
  import opened Gf256
  import Edc

  // A byte as a table index.
  function At(x: bv8): (i: nat)
    ensures i < 256
  {
    x as nat
  }

  lemma AtFacts(x: bv8)
    ensures At(x) as bv8 == x
  {}

  lemma AtInverse(i: nat)
    requires i < 256
    ensures At(i as bv8) == i
  {}

  ghost predicate ForwardUpTo(t: seq<bv8>, n: nat) {
    |t| == 256 && forall x: bv8 :: At(x) < n ==> t[At(x)] == Mul2(x)
  }

  ghost predicate BackwardUpTo(t: seq<bv8>, n: nat) {
    |t| == 256 && forall x: bv8 :: At(x) < n ==> t[At(Mul3(x))] == x
  }

  ghost predicate EdcUpTo(t: seq<bv32>, n: nat) {
    |t| == 256 && forall x: bv8 :: At(x) < n ==> t[At(x)] == Edc.Step8(x as bv32)
  }

  lemma ForwardStep(t: seq<bv8>, x: bv8)
    requires ForwardUpTo(t, At(x))
    ensures ForwardUpTo(t[At(x) := Mul2(x)], At(x) + 1)
  {
    hide Mul2, At;
    forall y: bv8 | At(y) < At(x) + 1
      ensures t[At(x) := Mul2(x)][At(y)] == Mul2(y)
    {
      AtFacts(x);
      AtFacts(y);
    }
  }

  lemma BackwardStep(t: seq<bv8>, x: bv8)
    requires BackwardUpTo(t, At(x))
    ensures BackwardUpTo(t[At(Mul3(x)) := x], At(x) + 1)
  {
    hide Mul3, At;
    forall y: bv8 | At(y) < At(x) + 1
      ensures t[At(Mul3(x)) := x][At(Mul3(y))] == y
    {
      AtFacts(x);
      AtFacts(y);
      AtFacts(Mul3(x));
      AtFacts(Mul3(y));
      if Mul3(y) == Mul3(x) {
        Mul3Injective(y, x);
      }
    }
  }

  lemma EdcStep(t: seq<bv32>, x: bv8)
    requires EdcUpTo(t, At(x))
    ensures EdcUpTo(t[At(x) := Edc.Step8(x as bv32)], At(x) + 1)
  {
    hide Edc.Step8, At;
    forall y: bv8 | At(y) < At(x) + 1
      ensures t[At(x) := Edc.Step8(x as bv32)][At(y)] == Edc.Step8(y as bv32)
    {
      AtFacts(x);
      AtFacts(y);
    }
  }

  class Tables {
    const forward: array<bv8>
    const backward: array<bv8>
    const edc: array<bv32>

    ghost predicate Ready()
      reads this, forward, backward, edc
    {
      ForwardUpTo(forward[..], 256) && BackwardUpTo(backward[..], 256) && EdcUpTo(edc[..], 256)
    }

    constructor ()
      ensures Ready()
      ensures fresh(forward) && fresh(backward) && fresh(edc)
    {
      forward := new bv8[256];
      backward := new bv8[256];
      edc := new bv32[256];
      new;
      hide Mul2, Mul3, At, Edc.Step8, Edc.Step;
      var i := 0;
      while i < 256
        invariant 0 <= i <= 256
        invariant ForwardUpTo(forward[..], i)
        invariant BackwardUpTo(backward[..], i)
        invariant EdcUpTo(edc[..], i)
      {
        var x := i as bv8;
        AtInverse(i);
        var j := Mul2(x);
        ForwardStep(forward[..], x);
        BackwardStep(backward[..], x);
        EdcStep(edc[..], x);
        forward[At(x)] := j;
        backward[At(Add(x, j))] := x;
        var e := x as bv32;
        for k := 0 to 8
          invariant Edc.Steps(8 - k, e) == Edc.Steps(8, x as bv32)
        {
          e := Edc.Step(e);
        }
        Edc.StepsOf8(x as bv32);
        edc[At(x)] := e;
        i := i + 1;
      }
    }

    // The backward table divides by 3.
    lemma BackwardDivides(y: bv8)
      requires Ready()
      ensures backward[At(y)] == Div3(y)
    {
      hide Mul3, Div3, At;
      Mul3Inverse(y);
      assert At(Div3(y)) < 256;
    }

    // The checksum of size bytes from one place in the array.
    method EdcCompute(src: array<bv8>, from: nat, size: nat) returns (e: bv32)
      requires Ready() && from + size <= src.Length
      ensures e == Edc.Code(src[from..from + size])
    {
      hide At, Edc.Step8, Edc.FeedByte, Edc.Xor;
      e := 0;
      for i := 0 to size
        invariant e == Edc.Code(src[from..from + i])
      {
        var b := src[from + i];
        assert src[from..from + i + 1] == src[from..from + i] + [b];
        Edc.RemainderConcat(0, src[from..from + i], [b]);
        e := EdcFeed(e, b);
      }
    }

    function EdcFeed(e: bv32, b: bv8): (r: bv32)
      reads this, forward, backward, edc
      requires Ready()
      ensures r == Edc.FeedByte(e, b)
    {
      hide At, Edc.Step8, Edc.FeedByte, Edc.Xor, Edc.TableIndex;
      Edc.FeedByteByTable(e, b);
      Edc.Xor(e >> 8, edc[At(Edc.TableIndex(e, b))])
    }
  }
}
