/** What the two resamplers compute, said of their inputs and outputs alone: every output sample is a weighted sum
    of the inputs before it, as filters with seven sets of weights. */
module XaFilter {
  import opened AudioFifo
  import opened XaAudio

  // ---- Filters over the inputs ----

  // Of the first k inputs the one i places before the last, silence before the start.
  function Back(xs: seq<Sample>, k: nat, i: nat): Sample
    requires k <= |xs|
  {
    if i < k then xs[k - 1 - i] else 0
  }

  // The newest input has the first weight, and each product is scaled down before it is added.
  function Weighted(xs: seq<Sample>, k: nat, row: seq<int>, n: nat): int
    requires k <= |xs| && n <= |row|
  {
    if n == 0 then 0 else Weighted(xs, k, row, n - 1) + Back(xs, k, n - 1) * row[n - 1] / 32768
  }

  // The oldest of 25 inputs has the first weight, and the sum is scaled down.
  function Weighted18(xs: seq<Sample>, k: nat, row: seq<int>, n: nat): int
    requires k <= |xs| && n <= |row| == 25
  {
    if n == 0 then 0 else Weighted18(xs, k, row, n - 1) + Back(xs, k, 25 - n) * row[n - 1]
  }

  function Filtered(xs: seq<Sample>, k: nat, j: nat): Sample
    requires k <= |xs| && j < 7
  {
    Clamp(Weighted(xs, k, Row(j), 29))
  }

  function Filtered18(xs: seq<Sample>, k: nat, j: nat): Sample
    requires k <= |xs| && j < 7
  {
    Clamp(Weighted18(xs, k, Row18(j), 25) / 32768)
  }

  // Only the first k inputs matter.
  lemma {:induction false} FilterDepends(xs: seq<Sample>, ys: seq<Sample>, k: nat, row: seq<int>, n: nat)
    requires k <= |xs| && k <= |ys| && xs[..k] == ys[..k] && n <= |row|
    ensures Weighted(xs, k, row, n) == Weighted(ys, k, row, n)
    ensures |row| == 25 ==> Weighted18(xs, k, row, n) == Weighted18(ys, k, row, n)
  {
    if n > 0 {
      FilterDepends(xs, ys, k, row, n - 1);
      BackDepends(xs, ys, k, n - 1);
      if |row| == 25 {
        BackDepends(xs, ys, k, 25 - n);
      }
    }
  }

  lemma BackDepends(xs: seq<Sample>, ys: seq<Sample>, k: nat, i: nat)
    requires k <= |xs| && k <= |ys| && xs[..k] == ys[..k]
    ensures Back(xs, k, i) == Back(ys, k, i)
  {
    if i < k {
      assert xs[k - 1 - i] == xs[..k][k - 1 - i] == ys[..k][k - 1 - i];
    }
  }

  // ---- The ring holds the last inputs ----

  function RingBack(ring: Window, p: nat, i: nat): Sample
    requires p < RING && i < RING
  {
    ring[(p + RING - 1 - i) % RING]
  }

  ghost predicate Mirrors(ring: Window, p: nat, xs: seq<Sample>) {
    p == |xs| % RING && forall i: nat :: i < RING ==> RingBack(ring, p, i) == Back(xs, |xs|, i)
  }

  lemma WrittenMirrors(ring: Window, p: nat, xs: seq<Sample>, x: Sample)
    requires Mirrors(ring, p, xs)
    ensures Mirrors(ring[p := x], (p + 1) % RING, xs + [x])
  {
    var q, written := (p + 1) % RING, ring[p := x];
    OneMoreOf32(|xs|);
    forall i: nat | i < RING
      ensures RingBack(written, q, i) == Back(xs + [x], |xs| + 1, i)
    {
      PlaceBack(p, i);
      if i > 0 {
        assert RingBack(ring, p, i - 1) == Back(xs, |xs|, i - 1);
      }
    }
  }

  lemma OneMoreOf32(n: nat)
    ensures (n % RING + 1) % RING == (n + 1) % RING
  {
  }

  lemma PlaceBack(p: nat, i: nat)
    requires p < RING && i < RING
    ensures ((p + 1) % RING + RING - 1 - i) % RING == (p + RING - i) % RING
    ensures (p + RING - i) % RING == p <==> i == 0
  {
  }

  lemma {:induction false} SumIsWeighted(ring: Window, p: nat, xs: seq<Sample>, row: seq<int>, n: nat)
    requires p < RING && Mirrors(ring, p, xs) && n <= |row| <= RING - 1
    ensures Sum(ring, row, p, n) == Weighted(xs, |xs|, row, n)
  {
    if n > 0 {
      SumIsWeighted(ring, p, xs, row, n - 1);
      assert RingBack(ring, p, n - 1) == Back(xs, |xs|, n - 1);
    }
  }

  lemma {:induction false} Sum18IsWeighted(ring: Window, p: nat, xs: seq<Sample>, row: seq<int>, n: nat)
    requires p < RING && Mirrors(ring, p, xs) && n <= |row| == 25
    ensures Sum18(ring, row, p, n) == Weighted18(xs, |xs|, row, n)
  {
    if n > 0 {
      Sum18IsWeighted(ring, p, xs, row, n - 1);
      assert RingBack(ring, p, 25 - n) == Back(xs, |xs|, 25 - n);
    }
  }

  // ---- 37800 Hz ----

  function Lefts(frames: seq<Frame>): (xs: seq<Sample>)
    ensures |xs| == |frames|
  {
    seq(|frames|, i requires 0 <= i < |frames| => frames[i].left)
  }

  function Rights(frames: seq<Frame>): (xs: seq<Sample>)
    ensures |xs| == |frames|
  {
    seq(|frames|, i requires 0 <= i < |frames| => frames[i].right)
  }

  // Output n: set n % 7 of weights, over all inputs up to the end of six of them.
  function Output(xs: seq<Sample>, n: nat): Sample
    requires 6 * (n / 7 + 1) <= |xs|
  {
    Filtered(xs, 6 * (n / 7 + 1), n % 7)
  }

  function Outputs(left: seq<Sample>, right: seq<Sample>): (outs: seq<Frame>)
    requires |left| == |right|
    ensures |outs| == 7 * (|left| / 6)
  {
    seq(7 * (|left| / 6), n requires 0 <= n < 7 * (|left| / 6) => Frame(Output(left, n), Output(right, n)))
  }

  lemma OneMoreFrame(frames: seq<Frame>, f: Frame)
    ensures Lefts(frames + [f]) == Lefts(frames) + [f.left] && Rights(frames + [f]) == Rights(frames) + [f.right]
  {
  }

  ghost predicate Follows(z: Zig, left: seq<Sample>, right: seq<Sample>) {
    |left| == |right| && Mirrors(z.left, z.p, left) && Mirrors(z.right, z.p, right) && z.step == 6 - |left| % 6
  }

  lemma OutputDepends(xs: seq<Sample>, x: Sample, n: nat)
    requires 6 * (n / 7 + 1) <= |xs|
    ensures Output(xs + [x], n) == Output(xs, n)
  {
    var k := 6 * (n / 7 + 1);
    assert (xs + [x])[..k] == xs[..k];
    FilterDepends(xs, xs + [x], k, Row(n % 7), 29);
  }

  // The seven outputs at the end of a batch of six.
  function Batch(left: seq<Sample>, right: seq<Sample>): (outs: seq<Frame>)
    requires |left| == |right|
    ensures |outs| == 7
  {
    seq(7, j requires 0 <= j < 7 => Frame(Filtered(left, |left|, j), Filtered(right, |right|, j)))
  }

  // What one more pair of inputs adds to the outputs.
  lemma OneMorePair(left: seq<Sample>, right: seq<Sample>, l: Sample, r: Sample)
    requires |left| == |right|
    ensures var m := |left| + 1;
            Outputs(left + [l], right + [r]) ==
            Outputs(left, right) +
            (if m % 6 == 0 then Batch(left + [l], right + [r]) else [])
  {
    hide Output, Filtered;
    var m := |left| + 1;
    var before, all := Outputs(left, right), Outputs(left + [l], right + [r]);
    OneMoreOfSix(|left|);
    forall n | 0 <= n < |before|
      ensures all[n] == before[n]
    {
      OutputDepends(left, l, n);
      OutputDepends(right, r, n);
    }
    if m % 6 == 0 {
      forall j: nat | j < 7
        ensures all[|before| + j] == Frame(Filtered(left + [l], m, j), Filtered(right + [r], m, j))
      {
        assert (|before| + j) / 7 == |left| / 6 && (|before| + j) % 7 == j;
        OutputIs(left + [l], |before| + j, m, j);
        OutputIs(right + [r], |before| + j, m, j);
      }
    }
  }

  lemma OutputIs(xs: seq<Sample>, n: nat, k: nat, j: nat)
    requires k == 6 * (n / 7 + 1) <= |xs| && j == n % 7
    ensures Output(xs, n) == Filtered(xs, k, j)
  {
  }

  lemma FeedFollows(z: Zig, left: seq<Sample>, right: seq<Sample>, f: Frame, stereo: bool)
    requires z.Valid() && Follows(z, left, right)
    requires !stereo ==> left == right && f.left == f.right
    ensures var (y, outs) := Feed(z, f, stereo);
            && Follows(y, left + [f.left], right + [f.right])
            && Outputs(left + [f.left], right + [f.right]) == Outputs(left, right) + outs
  {
    hide Filtered, Interp, Mirrors, Outputs;
    var l, r := left + [f.left], right + [f.right];
    WrittenMirrors(z.left, z.p, left, f.left);
    WrittenMirrors(z.right, z.p, right, f.right);
    OneMorePair(left, right, f.left, f.right);
    OneMoreOfSix(|left|);
    var y := Feed(z, f, stereo).0;
    forall j: nat | j < 7
      ensures Interp(y.left, j, y.p) == Filtered(l, |l|, j) && Interp(y.right, j, y.p) == Filtered(r, |r|, j)
    {
      InterpIsFiltered(y.left, y.p, l, j);
      InterpIsFiltered(y.right, y.p, r, j);
    }
  }

  lemma InterpIsFiltered(ring: Window, p: nat, xs: seq<Sample>, j: nat)
    requires p < RING && Mirrors(ring, p, xs) && j < 7
    ensures Interp(ring, j, p) == Filtered(xs, |xs|, j)
  {
    hide Row;
    SumIsWeighted(ring, p, xs, Row(j), 29);
  }

  lemma {:induction false} FedFollows(frames: seq<Frame>, stereo: bool)
    requires !stereo ==> Lefts(frames) == Rights(frames)
    ensures var (z, outs) := Fed(ZIG, frames, stereo);
            Follows(z, Lefts(frames), Rights(frames)) && outs == Outputs(Lefts(frames), Rights(frames))
  {
    hide Feed, Outputs, Mirrors;
    if frames == [] {
      StartFollows();
    } else {
      var init, f := frames[..|frames| - 1], frames[|frames| - 1];
      assert frames == init + [f];
      OneMoreFrame(init, f);
      if !stereo {
        assert Lefts(init) == Lefts(frames)[..|init|] == Rights(frames)[..|init|] == Rights(init);
        assert f.left == Lefts(frames)[|init|] == Rights(frames)[|init|] == f.right;
      }
      FedFollows(init, stereo);
      FeedFollows(Fed(ZIG, init, stereo).0, Lefts(init), Rights(init), f, stereo);
    }
  }

  lemma StartFollows()
    ensures Follows(ZIG, [], []) && Outputs([], []) == []
  {
  }

  // The samples of one side of an interleaved chunk.
  function Side(samples: seq<Sample>, n: nat, side: nat): (xs: seq<Sample>)
    requires side < 2 && 2 * n <= |samples|
    ensures |xs| == n
  {
    seq(n, i requires 0 <= i < n => samples[2 * i + side])
  }

  /** From the start, the left outputs of a stereo stream are those of its left samples, the right ones those of its
      right samples: output n is the clamped sum of the 29 samples up to the end of its batch of six, weighted by set
      n % 7, newest first. */
  lemma StereoIsFiltered(samples: seq<Sample>, n: nat)
    requires 2 * n <= |samples|
    ensures Fed(ZIG, FramesOf(samples, n, true), true).1 == Outputs(Side(samples, n, 0), Side(samples, n, 1))
  {
    var frames := FramesOf(samples, n, true);
    assert Lefts(frames) == Side(samples, n, 0) && Rights(frames) == Side(samples, n, 1);
    FedFollows(frames, true);
  }

  /** A mono stream is filtered once, and comes out on both sides. */
  lemma MonoIsFiltered(samples: seq<Sample>, n: nat)
    requires n <= |samples|
    ensures Fed(ZIG, FramesOf(samples, n, false), false).1 == Outputs(samples[..n], samples[..n])
  {
    var frames := FramesOf(samples, n, false);
    assert Lefts(frames) == samples[..n] == Rights(frames);
    FedFollows(frames, false);
  }

  // ---- 18900 Hz ----

  // How many outputs k inputs have given.
  function Count18(k: nat): nat {
    if k == 0 then 0 else (7 * k + 6) / 3
  }

  // After how many inputs output n comes.
  function Inputs18(n: nat): (k: nat)
    ensures 1 <= k
  {
    if n < 2 then 1 else (3 * n + 3) / 7
  }

  // Output n: set n % 7 of weights, over all inputs so far.
  function Output18(xs: seq<Sample>, n: nat): Sample
    requires n < Count18(|xs|)
  {
    InputsAreThere(n, |xs|);
    Filtered18(xs, Inputs18(n), n % 7)
  }

  lemma InputsAreThere(n: nat, k: nat)
    ensures n < Count18(k) <==> Inputs18(n) <= k
  {
  }

  function Outputs18(left: seq<Sample>, right: seq<Sample>): (outs: seq<Frame>)
    requires |left| == |right|
    ensures |outs| == Count18(|left|)
  {
    seq(Count18(|left|), n requires 0 <= n < Count18(|left|) => Frame(Output18(left, n), Output18(right, n)))
  }

  ghost predicate Follows18(z: Zig18, left: seq<Sample>, right: seq<Sample>) {
    && |left| == |right| && Mirrors(z.left, z.p, left) && Mirrors(z.right, z.p, right)
    && z.credit == (if left == [] then 6 else (7 * |left| + 6) % 3) && z.phase == Count18(|left|) % 7
  }

  lemma CreditOf(k: nat)
    ensures var credit := if k == 0 then 6 else (7 * k + 6) % 3;
            && (credit + 7) % 3 == (7 * (k + 1) + 6) % 3 && Count18(k + 1) == Count18(k) + (credit + 7) / 3
  {
  }

  lemma Output18Depends(xs: seq<Sample>, x: Sample, n: nat)
    requires n < Count18(|xs|)
    ensures n < Count18(|xs| + 1) && Output18(xs + [x], n) == Output18(xs, n)
  {
    var k := Inputs18(n);
    InputsAreThere(n, |xs|);
    InputsAreThere(n, |xs| + 1);
    assert (xs + [x])[..k] == xs[..k];
    FilterDepends(xs, xs + [x], k, Row18(n % 7), 25);
  }

  // The outputs of one more pair of inputs.
  function New18(left: seq<Sample>, right: seq<Sample>, k: nat, first: nat, n: nat): (outs: seq<Frame>)
    requires k <= |left| == |right|
    ensures |outs| == n
  {
    seq(n, i requires 0 <= i < n => Frame(Filtered18(left, k, (first + i) % 7), Filtered18(right, k, (first + i) % 7)))
  }

  lemma OneMorePair18(left: seq<Sample>, right: seq<Sample>, l: Sample, r: Sample)
    requires |left| == |right|
    ensures var m, c := |left| + 1, Count18(|left|);
            Count18(m) >= c
            && Outputs18(left + [l], right + [r]) ==
               Outputs18(left, right) + New18(left + [l], right + [r], m, c, Count18(m) - c)
  {
    hide Output18, Filtered18;
    var m, c := |left| + 1, Count18(|left|);
    var before, all := Outputs18(left, right), Outputs18(left + [l], right + [r]);
    CreditOf(|left|);
    forall n: nat | n < c
      ensures all[n] == before[n]
    {
      Output18Depends(left, l, n);
      Output18Depends(right, r, n);
    }
    forall n: nat | c <= n < Count18(m)
      ensures all[n] == New18(left + [l], right + [r], m, c, Count18(m) - c)[n - c]
    {
      InputsAreThere(n, |left|);
      InputsAreThere(n, m);
      Output18Is(left + [l], n);
      Output18Is(right + [r], n);
    }
  }

  lemma Output18Is(xs: seq<Sample>, n: nat)
    requires n < Count18(|xs|)
    ensures Inputs18(n) <= |xs| && Output18(xs, n) == Filtered18(xs, Inputs18(n), n % 7)
  {
    InputsAreThere(n, |xs|);
  }

  lemma Interp18IsFiltered(ring: Window, p: nat, xs: seq<Sample>, j: nat)
    requires p < RING && Mirrors(ring, p, xs) && j < 7
    ensures Interp18(ring, j, p) == Filtered18(xs, |xs|, j)
  {
    hide Row18;
    Sum18IsWeighted(ring, p, xs, Row18(j), 25);
  }

  lemma OutsAreNew(
    left: Window, right: Window, p: nat, l: seq<Sample>, r: seq<Sample>, first: nat, stereo: bool, n: nat)
    requires p < RING && |l| == |r| && Mirrors(left, p, l) && Mirrors(right, p, r) && (!stereo ==> l == r)
    ensures Outs18(left, right, p, first % 7, stereo, n) == New18(l, r, |l|, first, n)
  {
    hide Filtered18, Interp18, Mirrors;
    forall i: nat | i < n
      ensures Outs18(left, right, p, first % 7, stereo, n)[i] == New18(l, r, |l|, first, n)[i]
    {
      PhaseAdds(first, i);
      var j := (first + i) % 7;
      assert Outs18(left, right, p, first % 7, stereo, n)[i] == Out18(left, right, j, p, stereo);
      Interp18IsFiltered(left, p, l, j);
      Interp18IsFiltered(right, p, r, j);
    }
  }

  lemma Feed18Follows(z: Zig18, left: seq<Sample>, right: seq<Sample>, f: Frame, stereo: bool)
    requires z.Valid() && Follows18(z, left, right)
    requires !stereo ==> left == right && f.left == f.right
    ensures var (y, outs) := Feed18(z, f, stereo);
            && Follows18(y, left + [f.left], right + [f.right])
            && Outputs18(left + [f.left], right + [f.right]) == Outputs18(left, right) + outs
  {
    hide Filtered18, Interp18, Mirrors, Outputs18, Outs18, New18;
    var l, r := left + [f.left], right + [f.right];
    WrittenMirrors(z.left, z.p, left, f.left);
    WrittenMirrors(z.right, z.p, right, f.right);
    OneMorePair18(left, right, f.left, f.right);
    CreditOf(|left|);
    var c, n := Count18(|left|), (z.credit + 7) / 3;
    PhaseAdds(c, n);
    hide Count18;
    var y := Feed18(z, f, stereo).0;
    OutsAreNew(y.left, y.right, y.p, l, r, c, stereo, n);
  }

  lemma {:induction false} Fed18Follows(frames: seq<Frame>, stereo: bool)
    requires !stereo ==> Lefts(frames) == Rights(frames)
    ensures var (z, outs) := Fed18(ZIG18, frames, stereo);
            Follows18(z, Lefts(frames), Rights(frames)) && outs == Outputs18(Lefts(frames), Rights(frames))
  {
    hide Feed18, Outputs18, Mirrors;
    if frames == [] {
      Start18Follows();
    } else {
      var init, f := frames[..|frames| - 1], frames[|frames| - 1];
      assert frames == init + [f];
      OneMoreFrame(init, f);
      if !stereo {
        assert Lefts(init) == Lefts(frames)[..|init|] == Rights(frames)[..|init|] == Rights(init);
        assert f.left == Lefts(frames)[|init|] == Rights(frames)[|init|] == f.right;
      }
      Fed18Follows(init, stereo);
      Feed18Follows(Fed18(ZIG18, init, stereo).0, Lefts(init), Rights(init), f, stereo);
    }
  }

  lemma Start18Follows()
    ensures Follows18(ZIG18, [], []) && Outputs18([], []) == []
  {
  }

  /** At 18900 Hz output n comes after the least number of inputs that gives 7 outputs for 3 of them, and is the clamped
      sum of the last 25, weighted by set n % 7, oldest first; the left ones from the left samples and the right ones
      from the right. */
  lemma Stereo18IsFiltered(samples: seq<Sample>, n: nat)
    requires 2 * n <= |samples|
    ensures Fed18(ZIG18, FramesOf(samples, n, true), true).1 == Outputs18(Side(samples, n, 0), Side(samples, n, 1))
  {
    var frames := FramesOf(samples, n, true);
    assert Lefts(frames) == Side(samples, n, 0) && Rights(frames) == Side(samples, n, 1);
    Fed18Follows(frames, true);
  }

  lemma Mono18IsFiltered(samples: seq<Sample>, n: nat)
    requires n <= |samples|
    ensures Fed18(ZIG18, FramesOf(samples, n, false), false).1 == Outputs18(samples[..n], samples[..n])
  {
    var frames := FramesOf(samples, n, false);
    assert Lefts(frames) == samples[..n] == Rights(frames);
    Fed18Follows(frames, false);
  }
}
