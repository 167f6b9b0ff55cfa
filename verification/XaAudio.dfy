/** Resampling of XA-ADPCM audio to 44100 Hz: seven outputs for every six inputs at 37800 Hz, and seven
    for every three at 18900 Hz, across sector boundaries. */
module XaAudio {
  import opened AudioFifo

  const RING := 32

  type Window = r: seq<Sample> | |r| == RING witness seq(RING, _ => 0)

  // The seven sets of 29 weights for 37800 Hz.
  function Row(j: nat): (row: seq<int>)
    requires j < 7
    ensures |row| == 29
  {
    match j
    case 0 =>
      [0, 0, 0, 0, 0, -2, 10, -34, 65, -84, 52, 9, -266, 1024, -2680, 9036, 26516, -6016, 3021, -1571,
       848, -365, 107, 10, -16, 17, -8, 3, -1]
    case 1 =>
      [0, 0, 0, -2, 0, 3, -19, 60, -75, 162, -227, 306, -67, -615, 3229, 29883, -4532, 2488, -1471, 882,
       -424, 166, -27, 5, 6, -8, 3, -1, 0]
    case 2 =>
      [0, 0, -1, 3, -2, -5, 31, -74, 179, -402, 689, -926, 1272, -1446, 31033, -1446, 1272, -926, 689,
       -402, 179, -74, 31, -5, -2, 3, -1, 0, 0]
    case 3 =>
      [0, -1, 3, -8, 6, 5, -27, 166, -424, 882, -1471, 2488, -4532, 29883, 3229, -615, -67, 306, -227,
       162, -75, 60, -19, 3, 0, -2, 0, 0, 0]
    case 4 =>
      [-1, 3, -8, 17, -16, 10, 107, -365, 848, -1571, 3021, -6016, 26516, 9036, -2680, 1024, -266, 9, 52,
       -84, 65, -34, 10, -1, 0, 1, 0, 0, 0]
    case 5 =>
      [2, -8, 16, -35, 43, 26, -235, 635, -1352, 2810, -5882, 21472, 15367, -4681, 2062, -839, 347, -68,
       -23, 70, -35, 17, -5, 0, 0, 0, 0, 0, 0]
    case _ =>
      [-5, 17, -35, 70, -23, -68, 347, -839, 2062, -4681, 15367, 21472, -5882, 2810, -1352, 635, -235, 26,
       43, -35, 16, -8, 2, 0, 0, 0, 0, 0, 0]
  }

  // The seven sets of 25 weights for 18900 Hz.
  function Row18(j: nat): (row: seq<int>)
    requires j < 7
    ensures |row| == 25
  {
    match j
    case 0 =>
      [0, -5, 17, -35, 70, -23, -68, 347, -839, 2062, -4681, 15367, 21472, -5882, 2810, -1352, 635, -235,
       26, 43, -35, 16, -8, 2, 0]
    case 1 =>
      [0, -2, 10, -34, 65, -84, 52, 9, -266, 1024, -2680, 9036, 26516, -6016, 3021, -1571, 848, -365, 107,
       10, -16, 17, -8, 3, -1]
    case 2 =>
      [-2, 0, 3, -19, 60, -75, 162, -227, 306, -67, -615, 3229, 29883, -4532, 2488, -1471, 882, -424, 166,
       -27, 5, 6, -8, 3, -1]
    case 3 =>
      [-1, 3, -2, -5, 31, -74, 179, -402, 689, -926, 1272, -1446, 31033, -1446, 1272, -926, 689, -402,
       179, -74, 31, -5, -2, 3, -1]
    case 4 =>
      [-1, 3, -8, 6, 5, -27, 166, -424, 882, -1471, 2488, -4532, 29883, 3229, -615, -67, 306, -227, 162,
       -75, 60, -19, 3, 0, -2]
    case 5 =>
      [-1, 3, -8, 17, -16, 10, 107, -365, 848, -1571, 3021, -6016, 26516, 9036, -2680, 1024, -266, 9, 52,
       -84, 65, -34, 10, -2, 0]
    case _ =>
      [0, 2, -8, 16, -35, 43, 26, -235, 635, -1352, 2810, -5882, 21472, 15367, -4681, 2062, -839, 347,
       -68, -23, 70, -35, 17, -5, 0]
  }

  function Clamp(v: int): Sample {
    if v > 32767 then 32767 else if v < -32768 then -32768 else v
  }

  // ---- Interpolation ----

  // Each product is scaled down before it is added; the last sample written has the first weight.
  function Sum(ring: Window, row: seq<int>, p: nat, n: nat): int
    requires n <= |row| <= RING - 1 && p < RING
  {
    if n == 0 then 0 else Sum(ring, row, p, n - 1) + ring[(p + RING - n) % RING] * row[n - 1] / 32768
  }

  function Interp(ring: Window, j: nat, p: nat): Sample
    requires j < 7 && p < RING
  {
    Clamp(Sum(ring, Row(j), p, 29))
  }

  // Here the products are added at full width, oldest sample first.
  function Sum18(ring: Window, row: seq<int>, p: nat, n: nat): int
    requires n <= |row| == 25 && p < RING
  {
    if n == 0 then 0 else Sum18(ring, row, p, n - 1) + ring[(p + RING - 25 + n - 1) % RING] * row[n - 1]
  }

  function Interp18(ring: Window, j: nat, p: nat): Sample
    requires j < 7 && p < RING
  {
    Clamp(Sum18(ring, Row18(j), p, 25) / 32768)
  }

  function Abs(x: int): nat {
    if x < 0 then -x else x
  }

  function AbsSum(row: seq<int>, n: nat): nat
    requires n <= |row|
  {
    if n == 0 then 0 else AbsSum(row, n - 1) + Abs(row[n - 1])
  }

  lemma AbsSumOf25(row: seq<int>)
    requires |row| == 25
    ensures AbsSum(row, 25) ==
            Abs(row[0]) + Abs(row[1]) + Abs(row[2]) + Abs(row[3]) + Abs(row[4]) + Abs(row[5]) + Abs(row[6]) +
            Abs(row[7]) + Abs(row[8]) + Abs(row[9]) + Abs(row[10]) + Abs(row[11]) + Abs(row[12]) + Abs(row[13]) +
            Abs(row[14]) + Abs(row[15]) + Abs(row[16]) + Abs(row[17]) + Abs(row[18]) + Abs(row[19]) + Abs(row[20]) +
            Abs(row[21]) + Abs(row[22]) + Abs(row[23]) + Abs(row[24])
  {
    hide Abs;
    AbsSumOf5(row, 0);
    AbsSumOf5(row, 5);
    AbsSumOf5(row, 10);
    AbsSumOf5(row, 15);
    AbsSumOf5(row, 20);
    assert AbsSum(row, 0) == 0;
  }

  lemma AbsSumOf5(row: seq<int>, k: nat)
    requires k + 5 <= |row|
    ensures AbsSum(row, k + 5) ==
            AbsSum(row, k) + Abs(row[k]) + Abs(row[k + 1]) + Abs(row[k + 2]) + Abs(row[k + 3]) + Abs(row[k + 4])
  {
    hide Abs;
    assert AbsSum(row, k + 2) == AbsSum(row, k) + Abs(row[k]) + Abs(row[k + 1]);
    assert AbsSum(row, k + 4) == AbsSum(row, k + 2) + Abs(row[k + 2]) + Abs(row[k + 3]);
  }

  // The largest row adds up to 56030.
  lemma RowsAreSmall(j: nat)
    requires j < 7
    ensures AbsSum(Row18(j), 25) <= 56030
  {
    hide AbsSum;
    AbsSumOf25(Row18(j));
    match j
    case 0 =>
    case 1 =>
    case 2 =>
    case 3 =>
    case 4 =>
    case 5 =>
    case _ =>
  }

  lemma ProductGrows(a: int, b: int, w: nat)
    requires a <= b
    ensures a * w <= b * w
  {
  }

  lemma ProductIsSmall(x: Sample, w: int)
    ensures Abs(x * w) <= 32768 * Abs(w)
  {
    if w >= 0 {
      ProductGrows(-32768, x, w);
      ProductGrows(x, 32768, w);
    } else {
      ProductGrows(-32768, x, -w);
      ProductGrows(x, 32768, -w);
      assert x * w == 0 - x * -w;
    }
  }

  lemma {:induction false} SumIsSmall(ring: Window, row: seq<int>, p: nat, n: nat)
    requires n <= |row| == 25 && p < RING
    ensures Abs(Sum18(ring, row, p, n)) <= 32768 * AbsSum(row, n) && AbsSum(row, n) <= AbsSum(row, 25)
    decreases n
  {
    AbsSumGrows(row, n, 25);
    if n > 0 {
      SumIsSmall(ring, row, p, n - 1);
      ProductIsSmall(ring[(p + RING - 25 + n - 1) % RING], row[n - 1]);
    }
  }

  lemma {:induction false} AbsSumGrows(row: seq<int>, m: nat, n: nat)
    requires m <= n <= |row|
    ensures AbsSum(row, m) <= AbsSum(row, n)
  {
    if m < n {
      AbsSumGrows(row, m, n - 1);
    }
  }

  /** Every partial sum of the 18900 Hz interpolation fits in 32 bits, whatever the ring holds. */
  lemma SumFitsInt32(ring: Window, j: nat, p: nat, n: nat)
    requires j < 7 && p < RING && n <= 25
    ensures -0x8000_0000 <= Sum18(ring, Row18(j), p, n) < 0x8000_0000
  {
    hide Row18, Sum18, AbsSum;
    RowsAreSmall(j);
    SumIsSmall(ring, Row18(j), p, n);
  }

  // ---- 37800 Hz: seven outputs every sixth input ----

  datatype Zig = Zig(left: Window, right: Window, p: nat, step: nat) {
    predicate Valid() {
      p < RING && 1 <= step <= 6
    }
  }

  // The frame one set of weights gives, the same on both sides unless the input is stereo.
  function Out(left: Window, right: Window, j: nat, p: nat, stereo: bool): Frame
    requires j < 7 && p < RING
  {
    Frame(Interp(left, j, p), if stereo then Interp(right, j, p) else Interp(left, j, p))
  }

  function Outs(left: Window, right: Window, p: nat, stereo: bool, n: nat): (outs: seq<Frame>)
    requires n <= 7 && p < RING
    ensures |outs| == n
  {
    seq(n, j requires 0 <= j < n => Out(left, right, j, p, stereo))
  }

  function Feed(z: Zig, f: Frame, stereo: bool): (r: (Zig, seq<Frame>))
    requires z.Valid()
    ensures r.0.Valid()
  {
    var left, right, p := z.left[z.p := f.left], z.right[z.p := f.right], (z.p + 1) % RING;
    if z.step == 1 then (Zig(left, right, p, 6), Outs(left, right, p, stereo, 7))
    else (Zig(left, right, p, z.step - 1), [])
  }

  function Fed(z: Zig, frames: seq<Frame>, stereo: bool): (r: (Zig, seq<Frame>))
    requires z.Valid()
    ensures r.0.Valid()
  {
    if frames == [] then (z, [])
    else
      var before := Fed(z, frames[..|frames| - 1], stereo);
      var last := Feed(before.0, frames[|frames| - 1], stereo);
      (last.0, before.1 + last.1)
  }

  /** Feeding two runs of frames, as two sectors do, is feeding them as one. */
  lemma {:induction false} FedInTwo(z: Zig, first: seq<Frame>, rest: seq<Frame>, stereo: bool)
    requires z.Valid()
    ensures var a := Fed(z, first, stereo);
            var b := Fed(a.0, rest, stereo);
            Fed(z, first + rest, stereo) == (b.0, a.1 + b.1)
  {
    hide Feed;
    if rest == [] {
      assert first + rest == first;
      assert Fed(z, first, stereo).1 + [] == Fed(z, first, stereo).1;
    } else {
      var init := rest[..|rest| - 1];
      FedInTwo(z, first, init, stereo);
      assert (first + rest)[..|first + rest| - 1] == first + init;
      var a := Fed(z, first, stereo);
      var b := Fed(a.0, init, stereo);
      var last := Feed(b.0, rest[|rest| - 1], stereo);
      assert (a.1 + b.1) + last.1 == a.1 + (b.1 + last.1);
    }
  }

  lemma {:induction false} FedCount(z: Zig, frames: seq<Frame>, stereo: bool)
    requires z.Valid()
    ensures var (r, outs) := Fed(z, frames, stereo);
            |outs| == 7 * ((6 - z.step + |frames|) / 6) && r.step == 6 - (6 - z.step + |frames|) % 6
  {
    if frames != [] {
      var n := |frames| - 1;
      FedCount(z, frames[..n], stereo);
      OneMoreOfSix(6 - z.step + n);
    }
  }

  lemma OneMoreOfSix(k: nat)
    ensures if k % 6 == 5 then (k + 1) / 6 == k / 6 + 1 && (k + 1) % 6 == 0
            else (k + 1) / 6 == k / 6 && (k + 1) % 6 == k % 6 + 1
  {
  }

  const ZIG := Zig(seq(RING, _ => 0), seq(RING, _ => 0), 0, 6)

  /** After k frames, in however many sectors, 7 * floor(k / 6) frames have been pushed. */
  lemma FedFromTheStart(frames: seq<Frame>, stereo: bool)
    ensures |Fed(ZIG, frames, stereo).1| == 7 * (|frames| / 6)
  {
    FedCount(ZIG, frames, stereo);
  }

  /** However the frames are cut into sectors, the queue ends up with the same frames: the newest of what
      it held and of everything resampled. */
  lemma {:induction false} SectorCutsDoNotShow(
      queue: seq<Frame>, z: Zig, first: seq<Frame>, rest: seq<Frame>, stereo: bool)
    requires z.Valid() && |queue| <= MAX_LATENCY
    ensures var a := Fed(z, first, stereo);
            var all := Fed(z, first + rest, stereo).1;
            && PushedAll(PushedAll(queue, a.1), Fed(a.0, rest, stereo).1) == PushedAll(queue, all)
            && PushedAll(queue, all) == Newest(queue + all, MAX_LATENCY)
  {
    hide Feed;
    FedInTwo(z, first, rest, stereo);
    var a := Fed(z, first, stereo);
    PushedInTwo(queue, a.1, Fed(a.0, rest, stereo).1);
    QueueHoldsTheNewest(queue, Fed(z, first + rest, stereo).1);
  }

  // ---- 18900 Hz: an output for every 3 of the credit that each input adds 7 to ----

  datatype Zig18 = Zig18(left: Window, right: Window, p: nat, credit: nat, phase: nat) {
    predicate Valid() {
      p < RING && phase < 7 && credit < 256
    }
  }

  function Out18(left: Window, right: Window, j: nat, p: nat, stereo: bool): Frame
    requires j < 7 && p < RING
  {
    Frame(Interp18(left, j, p), if stereo then Interp18(right, j, p) else Interp18(left, j, p))
  }

  // The outputs of n consecutive phases.
  function Outs18(left: Window, right: Window, p: nat, phase: nat, stereo: bool, n: nat): (outs: seq<Frame>)
    requires p < RING
    ensures |outs| == n
  {
    seq(n, i requires 0 <= i < n => Out18(left, right, (phase + i) % 7, p, stereo))
  }

  function Feed18(z: Zig18, f: Frame, stereo: bool): (r: (Zig18, seq<Frame>))
    requires z.Valid()
    ensures r.0.Valid()
  {
    var left, right, p := z.left[z.p := f.left], z.right[z.p := f.right], (z.p + 1) % RING;
    var n := (z.credit + 7) / 3;
    (Zig18(left, right, p, (z.credit + 7) % 3, (z.phase + n) % 7), Outs18(left, right, p, z.phase, stereo, n))
  }

  function Fed18(z: Zig18, frames: seq<Frame>, stereo: bool): (r: (Zig18, seq<Frame>))
    requires z.Valid()
    ensures r.0.Valid()
  {
    if frames == [] then (z, [])
    else
      var before := Fed18(z, frames[..|frames| - 1], stereo);
      var last := Feed18(before.0, frames[|frames| - 1], stereo);
      (last.0, before.1 + last.1)
  }

  /** At 18900 Hz too, two sectors' frames may be fed as one. */
  lemma {:induction false} Fed18InTwo(z: Zig18, first: seq<Frame>, rest: seq<Frame>, stereo: bool)
    requires z.Valid()
    ensures var a := Fed18(z, first, stereo);
            var b := Fed18(a.0, rest, stereo);
            Fed18(z, first + rest, stereo) == (b.0, a.1 + b.1)
  {
    hide Feed18;
    if rest == [] {
      assert first + rest == first;
      assert Fed18(z, first, stereo).1 + [] == Fed18(z, first, stereo).1;
    } else {
      var init := rest[..|rest| - 1];
      Fed18InTwo(z, first, init, stereo);
      assert (first + rest)[..|first + rest| - 1] == first + init;
      var a := Fed18(z, first, stereo);
      var b := Fed18(a.0, init, stereo);
      var last := Feed18(b.0, rest[|rest| - 1], stereo);
      assert (a.1 + b.1) + last.1 == a.1 + (b.1 + last.1);
    }
  }

  const ZIG18 := Zig18(seq(RING, _ => 0), seq(RING, _ => 0), 0, 6, 0)

  /** The 7:3 ratio is exact: after k frames, three times the outputs and the credit left make 7k and the
      initial 6, and the phase counts the outputs. */
  lemma {:induction false} Fed18FromTheStart(frames: seq<Frame>, stereo: bool)
    ensures var (z, outs) := Fed18(ZIG18, frames, stereo);
            3 * |outs| + z.credit == 7 * |frames| + 6 && z.phase == |outs| % 7
            && (frames != [] ==> z.credit < 3)
  {
    if frames != [] {
      var n := |frames| - 1;
      Fed18FromTheStart(frames[..n], stereo);
      var z, outs := Fed18(ZIG18, frames[..n], stereo).0, |Fed18(ZIG18, frames[..n], stereo).1|;
      PhaseAdds(outs, (z.credit + 7) / 3);
      assert frames[..n] != frames;
    }
  }

  /** At 18900 Hz the cuts into sectors do not show either. */
  lemma {:induction false} SectorCutsDoNotShow18(
      queue: seq<Frame>, z: Zig18, first: seq<Frame>, rest: seq<Frame>, stereo: bool)
    requires z.Valid() && |queue| <= MAX_LATENCY
    ensures var a := Fed18(z, first, stereo);
            var all := Fed18(z, first + rest, stereo).1;
            && PushedAll(PushedAll(queue, a.1), Fed18(a.0, rest, stereo).1) == PushedAll(queue, all)
            && PushedAll(queue, all) == Newest(queue + all, MAX_LATENCY)
  {
    hide Feed18;
    Fed18InTwo(z, first, rest, stereo);
    var a := Fed18(z, first, stereo);
    PushedInTwo(queue, a.1, Fed18(a.0, rest, stereo).1);
    QueueHoldsTheNewest(queue, Fed18(z, first + rest, stereo).1);
  }

  lemma PhaseAdds(a: nat, b: nat)
    ensures (a % 7 + b) % 7 == (a + b) % 7
  {
    var q, r := a / 7, a % 7;
    assert a + b == 7 * q + (r + b);
  }

  // ---- The resampler ----

  // Frame i of a decoded chunk: interleaved samples, or one sample for both sides.
  function FrameAt(samples: seq<Sample>, i: nat, stereo: bool): Frame
    requires if stereo then 2 * i + 1 < |samples| else i < |samples|
  {
    if stereo then Frame(samples[2 * i], samples[2 * i + 1]) else Frame(samples[i], samples[i])
  }

  predicate Holds(samples: seq<Sample>, n: nat, stereo: bool) {
    if stereo then 2 * n <= |samples| else n <= |samples|
  }

  function FramesOf(samples: seq<Sample>, n: nat, stereo: bool): (frames: seq<Frame>)
    requires Holds(samples, n, stereo)
    ensures |frames| == n
  {
    seq(n, i requires 0 <= i < n => FrameAt(samples, i, stereo))
  }

  method ZigzagInterp(ring: array<Sample>, j: nat, p: nat) returns (s: Sample)
    requires ring.Length == RING && j < 7 && p < RING
    ensures s == Interp(ring[..], j, p)
  {
    hide Row;
    var row := Row(j);
    var sum := 0;
    for i := 0 to 29
      invariant sum == Sum(ring[..], row, p, i)
    {
      assert (p + 31 - i) % RING == (p + RING - (i + 1)) % RING;
      sum := sum + ring[(p + 31 - i) % RING] * row[i] / 32768;
    }
    s := Clamp(sum);
  }

  method ZigzagInterp18(ring: array<Sample>, j: nat, p: nat) returns (s: Sample)
    requires ring.Length == RING && j < 7 && p < RING
    ensures s == Interp18(ring[..], j, p)
  {
    hide Row18;
    var row := Row18(j);
    var sum := 0;
    for i := 0 to 25
      invariant sum == Sum18(ring[..], row, p, i)
      invariant -0x8000_0000 <= sum < 0x8000_0000
    {
      SumFitsInt32(ring[..], j, p, i + 1);
      sum := sum + ring[(p + RING - 25 + i) % RING] * row[i];
    }
    s := Clamp(sum / 32768);
  }

  class Resampler {
    const left: array<Sample>
    const right: array<Sample>
    var ringP: nat
    var sixstep: nat

    ghost predicate Valid()
      reads this
    {
      left.Length == RING && right.Length == RING && left != right && ringP < RING && 1 <= sixstep <= 6
    }

    ghost function Now(): (z: Zig)
      requires Valid()
      reads this, left, right
      ensures z.Valid()
    {
      Zig(left[..], right[..], ringP, sixstep)
    }

    constructor ()
      ensures Valid() && fresh(left) && fresh(right) && Now() == ZIG
    {
      left := new Sample[RING](_ => 0);
      right := new Sample[RING](_ => 0);
      ringP, sixstep := 0, 6;
    }

    // The queue's storage is not one of the rings.
    ghost predicate Apart(fifo: Fifo) {
      fifo.data as object != left && fifo.data as object != right
    }

    method PushOuts(fifo: Fifo, p: nat, stereo: bool)
      requires Valid() && fifo.Valid() && Apart(fifo) && p < RING
      modifies fifo, fifo.data
      ensures fifo.Valid()
      ensures fifo.Frames() == PushedAll(old(fifo.Frames()), Outs(left[..], right[..], p, stereo, 7))
      ensures left[..] == old(left[..]) && right[..] == old(right[..])
    {
      hide Interp, Pushed;
      ghost var queue := fifo.Frames();
      for j := 0 to 7
        invariant fifo.Valid() && left[..] == old(left[..]) && right[..] == old(right[..])
        invariant fifo.Frames() == PushedAll(queue, Outs(left[..], right[..], p, stereo, j))
      {
        var l := ZigzagInterp(left, j, p);
        var r := l;
        if stereo {
          r := ZigzagInterp(right, j, p);
        }
        ghost var outs := Outs(left[..], right[..], p, stereo, j);
        assert Outs(left[..], right[..], p, stereo, j + 1) == outs + [Frame(l, r)];
        PushedOneMore(queue, outs, Frame(l, r));
        fifo.Push(Frame(l, r));
      }
    }

    method FeedFrame(fifo: Fifo, f: Frame, p: nat, step: nat, stereo: bool) returns (p': nat, step': nat)
      requires Valid() && fifo.Valid() && Apart(fifo) && p < RING && 1 <= step <= 6
      modifies left, right, fifo, fifo.data
      ensures Valid() && fifo.Valid()
      ensures var (z, outs) := Feed(Zig(old(left[..]), old(right[..]), p, step), f, stereo);
              Zig(left[..], right[..], p', step') == z && fifo.Frames() == PushedAll(old(fifo.Frames()), outs)
    {
      hide Outs;
      PushedNone(fifo.Frames());
      left[p] := f.left;
      right[p] := f.right;
      p' := (p + 1) % RING;
      step' := step - 1;
      if step' == 0 {
        step' := 6;
        PushOuts(fifo, p', stereo);
      }
    }

    /** One chunk of decoded samples goes through the rings, its outputs into the queue. */
    method Resample37800(fifo: Fifo, samples: seq<Sample>, n: nat, stereo: bool)
      requires Valid() && fifo.Valid() && Apart(fifo) && Holds(samples, n, stereo)
      modifies this, left, right, fifo, fifo.data
      ensures Valid() && fifo.Valid()
      ensures var (z, outs) := Fed(old(Now()), FramesOf(samples, n, stereo), stereo);
              Now() == z && fifo.Frames() == PushedAll(old(fifo.Frames()), outs)
    {
      hide Feed, FrameAt, PushedAll;
      ghost var z := Now();
      ghost var queue := fifo.Frames();
      ghost var frames := FramesOf(samples, n, stereo);
      PushedNone(queue);
      var p: nat := ringP;
      var step: nat := sixstep;
      for i := 0 to n
        invariant Valid() && fifo.Valid() && p < RING && 1 <= step <= 6
        invariant Zig(left[..], right[..], p, step) == Fed(z, frames[..i], stereo).0
        invariant fifo.Frames() == PushedAll(queue, Fed(z, frames[..i], stereo).1)
      {
        ghost var before := Fed(z, frames[..i], stereo);
        assert frames[..i + 1][..i] == frames[..i] && frames[i] == FrameAt(samples, i, stereo);
        p, step := FeedFrame(fifo, FrameAt(samples, i, stereo), p, step, stereo);
        PushedInTwo(queue, before.1, Feed(before.0, frames[i], stereo).1);
      }
      assert frames[..n] == frames;
      ringP, sixstep := p, step;
    }
  }

  lemma PushedNone(queue: seq<Frame>)
    ensures PushedAll(queue, []) == queue
  {
  }

  lemma PushedOneMore(queue: seq<Frame>, frames: seq<Frame>, f: Frame)
    ensures PushedAll(queue, frames + [f]) == Pushed(PushedAll(queue, frames), f)
  {
    assert (frames + [f])[..|frames|] == frames;
  }

  lemma Outs18None(left: Window, right: Window, p: nat, phase: nat, stereo: bool)
    requires p < RING
    ensures Outs18(left, right, p, phase, stereo, 0) == []
  {
  }

  lemma Outs18More(left: Window, right: Window, p: nat, phase: nat, stereo: bool, n: nat)
    requires p < RING
    ensures Outs18(left, right, p, phase, stereo, n + 1) ==
            Outs18(left, right, p, phase, stereo, n) + [Out18(left, right, (phase + n) % 7, p, stereo)]
  {
    hide Out18;
  }

  class Resampler18 {
    const left: array<Sample>
    const right: array<Sample>
    var ringP: nat
    var sixstep18: nat
    var phase18: nat

    ghost predicate Valid()
      reads this
    {
      left.Length == RING && right.Length == RING && left != right && ringP < RING && sixstep18 < 256 && phase18 < 7
    }

    ghost function Now(): (z: Zig18)
      requires Valid()
      reads this, left, right
      ensures z.Valid()
    {
      Zig18(left[..], right[..], ringP, sixstep18, phase18)
    }

    constructor ()
      ensures Valid() && fresh(left) && fresh(right) && Now() == ZIG18
    {
      left := new Sample[RING](_ => 0);
      right := new Sample[RING](_ => 0);
      ringP, sixstep18, phase18 := 0, 6, 0;
    }

    ghost predicate Apart(fifo: Fifo) {
      fifo.data as object != left && fifo.data as object != right
    }

    // Emit while the credit lasts.
    method Emit(fifo: Fifo, p: nat, credit0: nat, phase0: nat, stereo: bool) returns (credit: nat, phase: nat)
      requires Valid() && fifo.Valid() && Apart(fifo) && p < RING && phase0 < 7
      modifies fifo, fifo.data
      ensures fifo.Valid() && credit == credit0 % 3 && phase == (phase0 + credit0 / 3) % 7
      ensures fifo.Frames() ==
              PushedAll(old(fifo.Frames()), Outs18(left[..], right[..], p, phase0, stereo, credit0 / 3))
      ensures left[..] == old(left[..]) && right[..] == old(right[..])
    {
      hide Interp18, Pushed, Outs18;
      ghost var queue := fifo.Frames();
      ghost var n := 0;
      Outs18None(left[..], right[..], p, phase0, stereo);
      PushedNone(queue);
      credit, phase := credit0, phase0;
      while credit >= 3
        invariant fifo.Valid() && left[..] == old(left[..]) && right[..] == old(right[..])
        invariant credit0 == credit + 3 * n && phase == (phase0 + n) % 7
        invariant fifo.Frames() == PushedAll(queue, Outs18(left[..], right[..], p, phase0, stereo, n))
      {
        credit := credit - 3;
        var l := ZigzagInterp18(left, phase, p);
        var r := l;
        if stereo {
          r := ZigzagInterp18(right, phase, p);
        }
        ghost var outs := Outs18(left[..], right[..], p, phase0, stereo, n);
        Outs18More(left[..], right[..], p, phase0, stereo, n);
        PushedOneMore(queue, outs, Frame(l, r));
        fifo.Push(Frame(l, r));
        PhaseAdds(phase0 + n, 1);
        phase := (phase + 1) % 7;
        n := n + 1;
      }
      assert credit0 / 3 == n && credit0 % 3 == credit;
    }

    method FeedFrame(fifo: Fifo, f: Frame, p: nat, credit: nat, phase: nat, stereo: bool)
      returns (p': nat, credit': nat, phase': nat)
      requires Valid() && fifo.Valid() && Apart(fifo) && p < RING && credit < 256 && phase < 7
      modifies left, right, fifo, fifo.data
      ensures Valid() && fifo.Valid()
      ensures var (z, outs) := Feed18(Zig18(old(left[..]), old(right[..]), p, credit, phase), f, stereo);
              && Zig18(left[..], right[..], p', credit', phase') == z
              && fifo.Frames() == PushedAll(old(fifo.Frames()), outs)
    {
      hide Outs18;
      left[p] := f.left;
      right[p] := f.right;
      p' := (p + 1) % RING;
      credit', phase' := Emit(fifo, p', credit + 7, phase, stereo);
    }

    /** One chunk of decoded samples at 18900 Hz. */
    method Resample18900(fifo: Fifo, samples: seq<Sample>, n: nat, stereo: bool)
      requires Valid() && fifo.Valid() && Apart(fifo) && Holds(samples, n, stereo)
      modifies this, left, right, fifo, fifo.data
      ensures Valid() && fifo.Valid()
      ensures var (z, outs) := Fed18(old(Now()), FramesOf(samples, n, stereo), stereo);
              Now() == z && fifo.Frames() == PushedAll(old(fifo.Frames()), outs)
    {
      hide Feed18, FrameAt, PushedAll;
      ghost var z := Now();
      ghost var queue := fifo.Frames();
      ghost var frames := FramesOf(samples, n, stereo);
      PushedNone(queue);
      var p: nat := ringP;
      var credit: nat := sixstep18;
      var phase: nat := phase18;
      for i := 0 to n
        invariant Valid() && fifo.Valid() && p < RING && credit < 256 && phase < 7
        invariant Zig18(left[..], right[..], p, credit, phase) == Fed18(z, frames[..i], stereo).0
        invariant fifo.Frames() == PushedAll(queue, Fed18(z, frames[..i], stereo).1)
      {
        ghost var before := Fed18(z, frames[..i], stereo);
        assert frames[..i + 1][..i] == frames[..i] && frames[i] == FrameAt(samples, i, stereo);
        p, credit, phase := FeedFrame(fifo, FrameAt(samples, i, stereo), p, credit, phase, stereo);
        PushedInTwo(queue, before.1, Feed18(before.0, frames[i], stereo).1);
      }
      assert frames[..n] == frames;
      ringP, sixstep18, phase18 := p, credit, phase;
    }
  }
}
