/** Where the sectors of a single raw disc image lie on the disc: the track layout of a CUE sheet, sector
    reads through it, and the position that subchannel Q reports. */
module TrackMap {
  import opened Words
  import opened Wrappers
  import SectorCodes

  // A TRACK of the sheet: its INDEX 01 and INDEX 00 in the file (0 when absent), and its PREGAP length,
  // all in sectors.
  datatype Cue = Cue(index01: nat, index00: nat, pregap: nat, audio: bool)

  // Tracks are numbered from `first`; positions grow, and the file reaches the last of them.
  datatype Sheet = Sheet(first: nat, cues: seq<Cue>, fileSectors: nat) {
    ghost predicate Valid() {
      && 1 <= first && cues != [] && first + |cues| <= 100
      && (forall i, j :: 0 <= i < j < |cues| ==> cues[i].index01 < cues[j].index01)
      && cues[|cues| - 1].index01 <= fileSectors
    }
  }

  // ---- Layout ----

  // How far track i is shifted along the disc by the gaps up to it, which take no room in the file.
  function Shift(cues: seq<Cue>, i: nat): nat
    requires i < |cues|
  {
    cues[i].pregap + if i == 0 then 0 else Shift(cues, i - 1)
  }

  function Start(cues: seq<Cue>, i: nat): nat
    requires i < |cues|
  {
    cues[i].index01 + Shift(cues, i)
  }

  // Where track i's pause begins on the disc, 0 when it has none.
  function PauseStart(cues: seq<Cue>, i: nat): nat
    requires i < |cues|
  {
    if cues[i].index00 != 0 then cues[i].index00 + Shift(cues, i)
    else if cues[i].pregap != 0 then Start(cues, i) - cues[i].pregap
    else 0
  }

  function Total(s: Sheet): nat
    requires s.cues != []
  {
    s.fileSectors + Shift(s.cues, |s.cues| - 1)
  }

  // The first track, from i on, that is the last or is followed by a track starting past lba.
  function TrackFrom(cues: seq<Cue>, lba: nat, i: nat): (t: nat)
    requires i < |cues|
    ensures i <= t < |cues| && (t + 1 < |cues| ==> lba < Start(cues, t + 1))
    ensures i < t ==> Start(cues, t) <= lba
    decreases |cues| - i
  {
    if i + 1 == |cues| || Start(cues, i + 1) > lba then i else TrackFrom(cues, lba, i + 1)
  }

  function TrackAt(cues: seq<Cue>, lba: nat): (t: nat)
    requires cues != []
    ensures t < |cues|
  {
    TrackFrom(cues, lba, 0)
  }

  // ---- Reading ----

  function Silent(): SectorCodes.Sector {
    seq(2352, _ => 0)
  }

  // What a read of an address gives: zeroes, or a sector of the file.
  datatype Source = Silence | InFile(sector: nat)

  function SourceAt(cues: seq<Cue>, lba: nat): Source
    requires cues != []
  {
    var t := TrackAt(cues, lba);
    if lba < Start(cues, t) then Silence
    else
      var rel := lba - Start(cues, t);
      if t + 1 < |cues| && cues[t].index01 < cues[t + 1].index01 && rel >= cues[t + 1].index01 - cues[t].index01
      then Silence
      else InFile(cues[t].index01 + rel)
  }

  lemma {:induction false} StartsGrow(s: Sheet, i: nat, j: nat)
    requires s.Valid() && i <= j < |s.cues|
    ensures Shift(s.cues, i) <= Shift(s.cues, j) && (i < j ==> Start(s.cues, i) < Start(s.cues, j))
    ensures i < j ==> Start(s.cues, i) + s.cues[j].pregap < Start(s.cues, j)
  {
    if i < j {
      StartsGrow(s, i, j - 1);
    }
  }

  lemma TrackIsCovering(s: Sheet, lba: nat, t: nat)
    requires s.Valid() && t < |s.cues| && (t == 0 || Start(s.cues, t) <= lba)
    requires t + 1 == |s.cues| || lba < Start(s.cues, t + 1)
    ensures TrackAt(s.cues, lba) == t
  {
    var u := TrackAt(s.cues, lba);
    if u < t {
      StartsGrow(s, u + 1, t);
    } else if t < u {
      StartsGrow(s, t + 1, u);
    }
  }

  /** An address between the starts of two tracks is silent exactly in the last PREGAP addresses before
      the later one, so the silent addresses before a later track number exactly its PREGAP. */
  lemma SilenceIsThePregap(s: Sheet, i: nat, lba: nat)
    requires s.Valid() && 0 < i < |s.cues|
    requires Start(s.cues, i - 1) <= lba < Start(s.cues, i)
    ensures SourceAt(s.cues, lba).Silence? <==> Start(s.cues, i) - s.cues[i].pregap <= lba
  {
    TrackIsCovering(s, lba, i - 1);
  }

  /** Addresses that are read from the file map onto it one to one and in order. */
  lemma ReadsKeepOrder(s: Sheet, a: nat, b: nat)
    requires s.Valid() && SourceAt(s.cues, a).InFile? && SourceAt(s.cues, b).InFile?
    ensures a < b <==> SourceAt(s.cues, a).sector < SourceAt(s.cues, b).sector
  {
    if a < b {
      ReadsGrow(s, a, b);
    } else if b < a {
      ReadsGrow(s, b, a);
    }
  }

  lemma ReadsGrow(s: Sheet, a: nat, b: nat)
    requires s.Valid() && SourceAt(s.cues, a).InFile? && SourceAt(s.cues, b).InFile? && a < b
    ensures SourceAt(s.cues, a).sector < SourceAt(s.cues, b).sector
  {
    var t, u := TrackAt(s.cues, a), TrackAt(s.cues, b);
    if u < t {
      StartsGrow(s, u + 1, t);
    } else if t < u {
      assert s.cues[t].index01 < s.cues[t + 1].index01;
      assert SourceAt(s.cues, a).sector < s.cues[t + 1].index01;
      assert t + 1 == u || s.cues[t + 1].index01 < s.cues[u].index01;
    }
  }

  /** Every sector of the file from the first INDEX 01 on is found at an address of the disc, the one its
      track's shift gives. */
  lemma EverySectorIsOnDisc(s: Sheet, t: nat, n: nat)
    requires s.Valid() && t < |s.cues| && s.cues[t].index01 <= n && (t + 1 < |s.cues| ==> n < s.cues[t + 1].index01)
    ensures SourceAt(s.cues, n + Shift(s.cues, t)) == InFile(n)
  {
    TrackIsCovering(s, n + Shift(s.cues, t), t);
  }

  /** The total counts exactly the addresses before the end of the file: an address read from the file is
      below the total exactly when the file has its sector. */
  lemma TotalIsTheEnd(s: Sheet, lba: nat)
    requires s.Valid() && SourceAt(s.cues, lba).InFile?
    ensures lba < Total(s) <==> SourceAt(s.cues, lba).sector < s.fileSectors
  {
    var t := TrackAt(s.cues, lba);
    if t + 1 < |s.cues| {
      StartsGrow(s, t + 1, |s.cues| - 1);
      assert s.cues[t].index01 < s.cues[t + 1].index01;
      assert t + 1 == |s.cues| - 1 || s.cues[t + 1].index01 < s.cues[|s.cues| - 1].index01;
    }
  }

  // A sector of the image as it is read: zeroes in a gap, nothing past the end of the file.
  function ReadAt(s: Sheet, image: seq<SectorCodes.Sector>, lba: nat): Option<SectorCodes.Sector>
    requires s.cues != []
  {
    match SourceAt(s.cues, lba)
    case Silence => Some(Silent())
    case InFile(n) => if n < |image| then Some(image[n]) else None
  }

  /** A read fails exactly past the end of the disc, the total the layout computes. */
  lemma ReadsFailPastTheEnd(s: Sheet, image: seq<SectorCodes.Sector>, lba: nat)
    requires s.Valid() && |image| == s.fileSectors
    ensures ReadAt(s, image, lba).None? <==> Total(s) <= lba
  {
    var t := TrackAt(s.cues, lba);
    if SourceAt(s.cues, lba).InFile? {
      TotalIsTheEnd(s, lba);
    } else if lba >= Start(s.cues, t) {
      StartsGrow(s, t + 1, |s.cues| - 1);
    } else {
      StartsGrow(s, t, |s.cues| - 1);
    }
  }

  // ---- Subchannel Q ----

  // The ten bytes of Q, all but the first and the reserved one in packed BCD.
  datatype SubQ = SubQ(controlAdr: nat, track: nat, index: nat, rel: Msf, reserved: nat, abs: Msf)

  datatype Msf = Msf(mm: nat, ss: nat, ff: nat)

  datatype Patch = Patch(lba: nat, q: SubQ)

  const LEAD_IN := 150
  const LEAD_OUT_TRACK := 0xAA

  // Computed in bytes, as the source does.
  function ToMsf(frames: nat): Msf {
    Msf(ToBcd(frames / 75 / 60), ToBcd(frames / 75 % 60), ToBcd(frames % 75))
  }

  function FromMsf(m: Msf): nat {
    (FromBcd(m.mm) * 60 + FromBcd(m.ss)) * 75 + FromBcd(m.ff)
  }

  /** Positions of up to 100 minutes survive their packed form. */
  lemma MsfRoundTrip(frames: nat)
    requires frames < 100 * 60 * 75
    ensures FromMsf(ToMsf(frames)) == frames
  {
    hide ToBcd, FromBcd;
    BcdRoundTrip(frames / 75 / 60);
    BcdRoundTrip(frames / 75 % 60);
    BcdRoundTrip(frames % 75);
    var seconds := frames / 75;
    assert seconds / 60 * 60 + seconds % 60 == seconds;
  }

  function Control(audio: bool): nat {
    if audio then 0x01 else 0x41
  }

  // Whether lba lies in the pause before track t.
  predicate InPause(cues: seq<Cue>, t: nat, lba: nat)
    requires t < |cues|
  {
    PauseStart(cues, t) != 0 && PauseStart(cues, t) <= lba < Start(cues, t)
  }

  // Q of an address that no patch covers.
  function PlainQ(s: Sheet, lba: nat): SubQ
    requires s.cues != []
  {
    var abs := ToMsf(lba + LEAD_IN);
    if Total(s) != 0 && lba >= Total(s) then SubQ(0x41, LEAD_OUT_TRACK, 1, ToMsf(lba - Total(s)), 0, abs)
    else
      var t := TrackAt(s.cues, lba);
      if t + 1 < |s.cues| && InPause(s.cues, t + 1, lba) then
        SubQ(Control(s.cues[t + 1].audio), ToBcd(s.first + t + 1), 0, ToMsf(Start(s.cues, t + 1) - lba), 0, abs)
      else
        var rel := if lba >= Start(s.cues, t) then lba - Start(s.cues, t) else 0;
        SubQ(Control(s.cues[t].audio), ToBcd(s.first + t), 1, ToMsf(rel), 0, abs)
  }

  predicate Ascending(patches: seq<Patch>) {
    forall i, j :: 0 <= i < j < |patches| ==> patches[i].lba < patches[j].lba
  }

  function PatchFrom(patches: seq<Patch>, lba: nat): Option<SubQ> {
    if patches == [] then None
    else if patches[0].lba == lba then Some(patches[0].q)
    else PatchFrom(patches[1..], lba)
  }

  function Q(s: Sheet, patches: seq<Patch>, lba: nat): SubQ
    requires s.cues != []
  {
    match PatchFrom(patches, lba)
    case Some(q) => q
    case None => PlainQ(s, lba)
  }

  // Q says: in the pause of track t, so many sectors before its start.
  predicate CountsDown(s: Sheet, t: nat, lba: nat)
    requires t < |s.cues| && s.cues != [] && lba < Start(s.cues, t)
  {
    var q := PlainQ(s, lba);
    q.index == 0 && q.track == ToBcd(s.first + t) && q.rel == ToMsf(Start(s.cues, t) - lba)
  }

  lemma BeforeTheEnd(s: Sheet, t: nat)
    requires s.Valid() && t < |s.cues|
    ensures Start(s.cues, t) <= Total(s)
  {
    StartsGrow(s, t, |s.cues| - 1);
  }

  lemma GapQ(s: Sheet, t: nat, lba: nat)
    requires s.Valid() && 0 < t < |s.cues| && Start(s.cues, t - 1) <= lba < Start(s.cues, t)
    ensures CountsDown(s, t, lba) <==> InPause(s.cues, t, lba)
  {
    hide ToMsf, ToBcd, Start, Shift, PauseStart, InPause;
    BeforeTheEnd(s, t);
    TrackIsCovering(s, lba, t - 1);
  }

  ghost predicate GapCountsDown(s: Sheet, t: nat)
    requires s.cues != [] && t < |s.cues|
  {
    forall lba: nat {:trigger CountsDown(s, t, lba)} ::
      Start(s.cues, t) - s.cues[t].pregap <= lba < Start(s.cues, t) ==> CountsDown(s, t, lba)
  }

  /** The silent addresses before a later track are all reported as its pause, index 00 and counting down
      to its start, exactly when the sheet gives no INDEX 00 for it, or one at least a PREGAP before its
      INDEX 01. */
  lemma GapsCountDown(s: Sheet, t: nat)
    requires s.Valid() && 0 < t < |s.cues| && s.cues[t].pregap > 0
    ensures GapCountsDown(s, t) <==>
            (s.cues[t].index00 == 0 || s.cues[t].index00 + s.cues[t].pregap <= s.cues[t].index01)
  {
    StartsGrow(s, t - 1, t);
    var first := Start(s.cues, t) - s.cues[t].pregap;
    forall lba: nat | first <= lba < Start(s.cues, t)
      ensures CountsDown(s, t, lba) <==> InPause(s.cues, t, lba)
    {
      GapQ(s, t, lba);
    }
    if GapCountsDown(s, t) {
      assert CountsDown(s, t, first);
    }
  }

  /** The pause before the first track is not reported as one: its addresses answer index 01, at 0. */
  lemma FirstGapIsNotAPause(s: Sheet, lba: nat)
    requires s.Valid() && lba < Start(s.cues, 0)
    requires |s.cues| > 1 && s.cues[1].index00 != 0 ==> s.cues[0].index01 <= s.cues[1].index00
    ensures SourceAt(s.cues, lba) == Silence
    ensures PlainQ(s, lba).index == 1 && PlainQ(s, lba).track == ToBcd(s.first) && PlainQ(s, lba).rel == ToMsf(0)
  {
    hide ToMsf, ToBcd;
    BeforeTheEnd(s, 0);
    if |s.cues| > 1 {
      StartsGrow(s, 0, 1);
    }
    TrackIsCovering(s, lba, 0);
  }

  /** Q tells the address: its absolute position, 150 frames on, up to 100 minutes. Past the end of the disc it
      names the lead-out, and counts from there. */
  lemma QTellsTheAddress(s: Sheet, lba: nat)
    requires s.Valid() && lba + 150 < 100 * 60 * 75
    ensures FromMsf(PlainQ(s, lba).abs) == lba + 150
    ensures 0 < Total(s) <= lba ==>
              PlainQ(s, lba).track == 0xAA && PlainQ(s, lba).index == 1 && FromMsf(PlainQ(s, lba).rel) == lba - Total(s)
  {
    hide ToMsf, FromMsf, ToBcd, Total, Start, InPause;
    MsfRoundTrip(lba + 150);
    if Total(s) <= lba {
      MsfRoundTrip(lba - Total(s));
    }
  }

  // Sector n of the file belongs to track t, and is not part of what the sheet gives as the next track's pause.
  predicate InsideTrack(s: Sheet, t: nat, n: nat)
    requires t < |s.cues|
  {
    && s.cues[t].index01 <= n < s.fileSectors
    && (t + 1 < |s.cues| ==>
          && n < s.cues[t + 1].index01
          && !(s.cues[t + 1].index00 != 0 && s.cues[t + 1].index00 + s.cues[t + 1].pregap <= n))
  }

  lemma InsideIsNoPause(s: Sheet, t: nat, n: nat)
    requires s.Valid() && t < |s.cues| && InsideTrack(s, t, n)
    ensures var lba := n + Shift(s.cues, t);
            && Start(s.cues, t) <= lba && lba - Start(s.cues, t) == n - s.cues[t].index01
            && (t + 1 < |s.cues| ==> !InPause(s.cues, t + 1, lba))
  {
    if t + 1 < |s.cues| {
      assert Shift(s.cues, t + 1) == s.cues[t + 1].pregap + Shift(s.cues, t);
    }
  }

  lemma InsideIsCovered(s: Sheet, t: nat, n: nat)
    requires s.Valid() && t < |s.cues| && InsideTrack(s, t, n)
    ensures var lba := n + Shift(s.cues, t);
            TrackAt(s.cues, lba) == t && lba < Total(s) && SourceAt(s.cues, lba) == InFile(n)
  {
    var lba := n + Shift(s.cues, t);
    EverySectorIsOnDisc(s, t, n);
    TotalIsTheEnd(s, lba);
    if t + 1 < |s.cues| {
      StartsGrow(s, t, t + 1);
    }
    hide SourceAt, Total;
    TrackIsCovering(s, lba, t);
  }

  lemma InsideQ(s: Sheet, t: nat, n: nat)
    requires s.Valid() && t < |s.cues| && InsideTrack(s, t, n)
    ensures var lba := n + Shift(s.cues, t);
            PlainQ(s, lba) ==
            SubQ(Control(s.cues[t].audio), ToBcd(s.first + t), 1, ToMsf(n - s.cues[t].index01), 0, ToMsf(lba + LEAD_IN))
  {
    hide ToMsf, ToBcd, InPause, Start, Shift, Total, TrackAt, SourceAt, InsideTrack;
    InsideIsNoPause(s, t, n);
    InsideIsCovered(s, t, n);
  }

  /** Inside a track Q names the track, index 01, and the sector's distance in the file from the track's INDEX 01,
      whatever gaps the disc has before it; and says whether it is audio. */
  lemma QTellsTheTrack(s: Sheet, t: nat, n: nat)
    requires s.Valid() && t < |s.cues| && InsideTrack(s, t, n) && n < 100 * 60 * 75
    ensures var lba := n + Shift(s.cues, t);
            var q := PlainQ(s, lba);
            && SourceAt(s.cues, lba) == InFile(n)
            && FromBcd(q.track) == s.first + t && q.index == 1 && FromMsf(q.rel) == n - s.cues[t].index01
            && q.controlAdr == if s.cues[t].audio then 0x01 else 0x41
  {
    hide ToMsf, FromMsf, ToBcd, FromBcd, PlainQ, SourceAt;
    EverySectorIsOnDisc(s, t, n);
    InsideQ(s, t, n);
    MsfRoundTrip(n - s.cues[t].index01);
    BcdRoundTrip(s.first + t);
  }

  // ---- The loaded disc ----

  lemma {:induction false} PatchFromFinds(patches: seq<Patch>, lba: nat, i: nat)
    requires Ascending(patches) && i < |patches| && patches[i].lba == lba
    ensures PatchFrom(patches, lba) == Some(patches[i].q)
    decreases |patches|
  {
    if i > 0 {
      PatchFromFinds(patches[1..], lba, i - 1);
    }
  }

  lemma {:induction false} PatchFromMisses(patches: seq<Patch>, lba: nat)
    requires forall i :: 0 <= i < |patches| ==> patches[i].lba != lba
    ensures PatchFrom(patches, lba) == None
    decreases |patches|
  {
    if patches != [] {
      PatchFromMisses(patches[1..], lba);
    }
  }

  // The running shift of the layout loop, before track i.
  function ShiftBefore(cues: seq<Cue>, i: nat): nat
    requires i <= |cues|
  {
    if i == 0 then 0 else Shift(cues, i - 1)
  }

  lemma ShiftsAtEnds(s: Sheet)
    requires s.cues != []
    ensures ShiftBefore(s.cues, 0) == 0 && Total(s) == s.fileSectors + ShiftBefore(s.cues, |s.cues|)
  {
  }

  lemma LayoutOf(cues: seq<Cue>, i: nat)
    requires i < |cues|
    ensures var shift := ShiftBefore(cues, i) + cues[i].pregap;
            && shift == ShiftBefore(cues, i + 1)
            && Start(cues, i) == cues[i].index01 + shift
            && PauseStart(cues, i) == if cues[i].index00 != 0 then cues[i].index00 + shift
                                      else if cues[i].pregap != 0 then cues[i].index01 + shift - cues[i].pregap
                                      else 0
  {
  }

  class LoadedDisc {
    const first: nat
    const count: nat
    const totalSectors: nat
    const startLba: array<nat>
    const pregapLba: array<nat>
    const fileSector: array<nat>
    const isAudio: array<bool>
    const patches: seq<Patch>

    // The arrays hold the layout of the sheet.
    ghost predicate Holds(s: Sheet)
      reads startLba, pregapLba, fileSector, isAudio
    {
      && s.Valid() && Ascending(patches)
      && first == s.first && count == |s.cues| && totalSectors == Total(s)
      && startLba.Length == pregapLba.Length == fileSector.Length == isAudio.Length == count
      && forall i :: 0 <= i < count ==>
           && startLba[i] == Start(s.cues, i) && pregapLba[i] == PauseStart(s.cues, i)
           && fileSector[i] == s.cues[i].index01 && isAudio[i] == s.cues[i].audio
    }

    constructor (s: Sheet, sbi: seq<Patch>)
      requires s.Valid() && Ascending(sbi)
      ensures Holds(s) && patches == sbi
    {
      hide Start, PauseStart, ShiftBefore, Ascending, Total, Shift;
      var n := |s.cues|;
      assert ShiftBefore(s.cues, 0) == 0 && Total(s) == s.fileSectors + ShiftBefore(s.cues, n) by {
        ShiftsAtEnds(s);
      }
      var starts, pauses, sectors := new nat[n](_ => 0), new nat[n](_ => 0), new nat[n](_ => 0);
      var audio := new bool[n](_ => false);
      var shift := 0;
      for i := 0 to n
        invariant shift == ShiftBefore(s.cues, i)
        invariant forall k :: 0 <= k < i ==> starts[k] == Start(s.cues, k)
        invariant forall k :: 0 <= k < i ==> pauses[k] == PauseStart(s.cues, k)
        invariant forall k :: 0 <= k < i ==> sectors[k] == s.cues[k].index01
        invariant forall k :: 0 <= k < i ==> audio[k] == s.cues[k].audio
      {
        LayoutOf(s.cues, i);
        var cue := s.cues[i];
        shift := shift + cue.pregap;
        starts[i] := cue.index01 + shift;
        pauses[i] := if cue.index00 != 0 then cue.index00 + shift
                     else if cue.pregap != 0 then cue.index01 + shift - cue.pregap
                     else 0;
        sectors[i] := cue.index01;
        audio[i] := cue.audio;
      }
      first, count, totalSectors := s.first, n, s.fileSectors + shift;
      startLba, pregapLba, fileSector, isAudio, patches := starts, pauses, sectors, audio, sbi;
    }

    method FindTrack(ghost s: Sheet, lba: nat) returns (t: nat)
      requires Holds(s)
      ensures t == TrackAt(s.cues, lba)
    {
      t := 0;
      while t + 1 < count && startLba[t + 1] <= lba
        invariant t < count && TrackAt(s.cues, lba) == TrackFrom(s.cues, lba, t)
      {
        t := t + 1;
      }
    }

    method ReadSource(ghost s: Sheet, lba: nat) returns (source: Source)
      requires Holds(s)
      ensures source == SourceAt(s.cues, lba)
    {
      hide Start, TrackFrom, PauseStart;
      var t := FindTrack(s, lba);
      if lba < startLba[t] {
        return Silence;
      }
      var rel := lba - startLba[t];
      if t + 1 < count {
        var thisOff, nextOff := fileSector[t], fileSector[t + 1];
        if nextOff > thisOff && rel >= nextOff - thisOff {
          return Silence;
        }
      }
      return InFile(fileSector[t] + rel);
    }

    method ReadSector(ghost s: Sheet, image: seq<SectorCodes.Sector>, lba: nat, out: array<bv8>) returns (ok: bool)
      requires Holds(s) && out.Length == 2352
      requires out as object != startLba && out as object != pregapLba && out as object != fileSector
      requires out as object != isAudio
      modifies out
      ensures ok == ReadAt(s, image, lba).Some?
      ensures out[..] == if ok then ReadAt(s, image, lba).value else old(out[..])
    {
      hide Start, TrackFrom, PauseStart, SourceAt;
      var source := ReadSource(s, lba);
      if source.InFile? && source.sector >= |image| {
        return false;
      }
      var bytes := if source.Silence? then Silent() else image[source.sector];
      forall i | 0 <= i < 2352 {
        out[i] := bytes[i];
      }
      assert out[..] == bytes;
      ok := true;
    }

    /** The binary search finds the patch of an address exactly when there is one. */
    method FindPatch(ghost s: Sheet, lba: nat) returns (q: Option<SubQ>)
      requires Holds(s)
      ensures q == PatchFrom(patches, lba)
    {
      q := None;
      if |patches| > 0 {
        var lo, hi := 0, |patches| - 1;
        while lo <= hi
          invariant lo <= |patches| && 0 <= hi < |patches|
          invariant forall i :: 0 <= i < |patches| && patches[i].lba == lba ==> lo <= i <= hi
          decreases hi + 1 - lo
        {
          var mid := lo + (hi - lo) / 2;
          if patches[mid].lba == lba {
            PatchFromFinds(patches, lba, mid);
            return Some(patches[mid].q);
          }
          if patches[mid].lba < lba {
            lo := mid + 1;
          } else {
            if mid == 0 {
              break;
            }
            hi := mid - 1;
          }
        }
      }
      PatchFromMisses(patches, lba);
    }

    method GetSubQ(ghost s: Sheet, lba: nat) returns (q: SubQ)
      requires Holds(s)
      ensures q == Q(s, patches, lba)
    {
      hide Start, TrackFrom, PauseStart, ToMsf, ToBcd, Total;
      var patch := FindPatch(s, lba);
      if patch.Some? {
        return patch.value;
      }
      var abs := ToMsf(lba + LEAD_IN);
      if totalSectors != 0 && lba >= totalSectors {
        return SubQ(0x41, LEAD_OUT_TRACK, 1, ToMsf(lba - totalSectors), 0, abs);
      }
      var t := FindTrack(s, lba);
      var inPregap := false;
      if t + 1 < count && pregapLba[t + 1] != 0 && pregapLba[t + 1] <= lba < startLba[t + 1] {
        t := t + 1;
        inPregap := true;
      }
      var rel := if inPregap then startLba[t] - lba else if lba >= startLba[t] then lba - startLba[t] else 0;
      return SubQ(Control(isAudio[t]), ToBcd(first + t), if inPregap then 0 else 1, ToMsf(rel), 0, abs);
    }
  }
}
