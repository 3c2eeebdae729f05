/** When the client transmits over a whole run of its main loop: the times are counted from the bases the run itself
    computes, which its corrections move. */
module ClientTiming {
  import opened Arithmetic
  import opened ClientAlignment
  import opened ClientTurns
  import opened Slots
  import opened TransmitTiming

  function TimingOf(c: Config, advance: int): Timing { Timing(c.slots, c.Samples(), advance) }

  /** The time of slot `s` of frame `e` when it is taken from the queue in frame `j`. */
  function DrainTime(c: Config, h: seq<Turn>, advance: int, j: nat, e: nat, s: nat): int
    requires j < |h|
  {
    Base(c, h[j]) + (e - j) * c.FrameSamples() + s * c.Samples() - advance
  }

  /** It is what the code computes, as long as the times fit 64 bits. */
  lemma DrainTimeIsComputed(c: Config, h: seq<Turn>, advance: int, j: nat, e: nat, s: nat)
    requires j < |h|
    requires Fits(Base(c, h[j]) + (e - j) * c.FrameSamples()) && Fits(DrainTime(c, h, advance, j, e, s))
    ensures var t := TimingOf(c, advance);
      t.SlotTime(t.FrameTime(Base(c, h[j]), e, j), s) == DrainTime(c, h, advance, j, e, s)
  {
    var t, f := TimingOf(c, advance), c.FrameSamples();
    var start := Base(c, h[j]) - j * f;
    assert t.FrameSamples() == f;
    assert (e - j) * f == e * f - j * f;
    hide Timing.SlotTime, Timing.FrameTime;
    TimeDoesNotDependOnDrain(t, start, e, s, j);
  }

  // ----- how the bases move -----

  /** The offsets found after frame `j`, up to frame `j'`. */
  function Corrections(c: Config, h: seq<Turn>, j: nat, j': nat): int
    requires j <= j' < |h|
    decreases j'
  {
    if j == j' then 0
    else Corrections(c, h, j, j' - 1) + if Found(h[j']) then Offset(c, h[j']) else 0
  }

  /** How far the base of frame `j'` is from whole frames after that of frame `j`. */
  function Move(c: Config, h: seq<Turn>, j: nat, j': nat): int
    requires j <= j' < |h|
  {
    h[j'].adjust - h[j].adjust + Corrections(c, h, j, j')
  }

  ghost predicate AllFull(c: Config, h: seq<Turn>)
    requires 0 < c.slots
  {
    forall k: nat | k < |h| :: Full(c, h[k])
  }

  lemma {:induction false} BasesMove(c: Config, h: seq<Turn>, j: nat, j': nat)
    requires c.Valid() && IsRun(c, h) && AllFull(c, h) && j <= j' < |h|
    ensures Base(c, h[j']) == Base(c, h[j]) + (j' - j) * c.FrameSamples() + Move(c, h, j, j')
    decreases j'
  {
    hide IsRun, Config.FrameSamples, Config.RestSamples;
    if j < j' {
      BasesMove(c, h, j, j' - 1);
      RunStep(c, h, j' - 1);
      FrameIsSlots(c);
      assert Full(c, h[j' - 1]);
      assert (j' - j) * c.FrameSamples() == (j' - 1 - j) * c.FrameSamples() + c.FrameSamples();
    }
  }

  /** From one beacon found to the next, a frame's base is whole frames after the start the beacon gave, plus the
      correction still to be made: the frame after an early find transmits that much late. */
  lemma BaseAfterResync(c: Config, h: seq<Turn>, k: nat, j: nat)
    requires c.Valid() && IsRun(c, h) && AllFull(c, h) && k <= j < |h| && Found(h[k]) && !CanRepeat(c)
    requires forall i: nat | k < i <= j :: !Found(h[i])
    ensures Base(c, h[j]) == FrameStart(c, h[k]) + (j - k) * c.FrameSamples() + h[j].adjust
    ensures h[j].adjust == if j == k + 1 && Offset(c, h[k]) < 0 then -Offset(c, h[k]) else 0
  {
    hide IsRun;
    BasesMove(c, h, k, j);
    NoCorrections(c, h, k, j);
    NothingPending(c, h, k);
    if j > k {
      RunStep(c, h, j - 1);
      assert j > k + 1 ==> !Found(h[j - 1]);
    }
  }

  lemma {:induction false} NoCorrections(c: Config, h: seq<Turn>, j: nat, j': nat)
    requires j <= j' < |h| && forall i: nat | j < i <= j' :: !Found(h[i])
    ensures Corrections(c, h, j, j') == 0
    decreases j'
  {
    if j < j' {
      NoCorrections(c, h, j, j' - 1);
    }
  }

  lemma NothingPending(c: Config, h: seq<Turn>, k: nat)
    requires c.Valid() && IsRun(c, h) && k < |h| && Found(h[k]) && !CanRepeat(c)
    ensures h[k].adjust == 0
  {
    PendingIff(c, h, k);
    if k > 0 {
      NoConsecutiveFinds(c, h, k - 1);
    }
  }

  // ----- when the draining frame does not matter -----

  /** A slot is sent at the same time from two draining frames if and only if the base has not moved between them. */
  lemma DrainDoesNotMatterIff(c: Config, h: seq<Turn>, advance: int, j: nat, j': nat, e: nat, s: nat)
    requires c.Valid() && IsRun(c, h) && AllFull(c, h) && j <= j' < |h|
    ensures DrainTime(c, h, advance, j, e, s) == DrainTime(c, h, advance, j', e, s) <==> Move(c, h, j, j') == 0
  {
    hide IsRun, Config.FrameSamples;
    BasesMove(c, h, j, j');
    assert (j' - j) * c.FrameSamples() == (e - j) * c.FrameSamples() - (e - j') * c.FrameSamples();
  }

  /** Until the next beacon found, a slot is sent at the time the beacon gives it, unless it is drained in the frame
      after an early find. */
  lemma OnTimeIff(c: Config, h: seq<Turn>, advance: int, k: nat, j: nat, e: nat, s: nat)
    requires c.Valid() && IsRun(c, h) && AllFull(c, h) && k <= j < |h| && Found(h[k]) && !CanRepeat(c)
    requires forall i: nat | k < i <= j :: !Found(h[i])
    ensures DrainTime(c, h, advance, j, e, s) ==
            FrameStart(c, h[k]) + (e - k) * c.FrameSamples() + s * c.Samples() - advance <==>
            !(j == k + 1 && Offset(c, h[k]) < 0)
  {
    hide IsRun, Config.FrameSamples;
    BaseAfterResync(c, h, k, j);
    assert (j - k) * c.FrameSamples() == (e - k) * c.FrameSamples() - (e - j) * c.FrameSamples();
  }

  // ----- when transmissions overlap -----

  /** Of two transmissions with the run's own bases, the later slot is clear of the earlier one if and only if the move
      of the base between their draining frames leaves it the slots between them, or overtakes them all. */
  lemma RunTransmissionsDisjointIff(c: Config, h: seq<Turn>, advance: int, j: nat, e: nat, s: nat, j': nat, e': nat, s': nat)
    requires c.Valid() && IsRun(c, h) && AllFull(c, h) && j <= j' < |h| && s < c.slots && s' < c.slots
    requires SlotNumber(TimingOf(c, advance), e, s) < SlotNumber(TimingOf(c, advance), e', s')
    ensures var gap := SlotNumber(TimingOf(c, advance), e', s') - SlotNumber(TimingOf(c, advance), e, s);
      Disjoint(DrainTime(c, h, advance, j, e, s), DrainTime(c, h, advance, j', e', s'), c.Samples()) <==>
      -Move(c, h, j, j') <= (gap - 1) * c.Samples() || (gap + 1) * c.Samples() <= -Move(c, h, j, j')
  {
    hide IsRun;
    var t := TimingOf(c, advance);
    BasesMove(c, h, j, j');
    TimesByNumber(c, h, advance, j, e, s);
    TimesByNumber(c, h, advance, j', e', s');
    var n, n' := SlotNumber(t, e, s), SlotNumber(t, e', s');
    assert n' * c.Samples() == n * c.Samples() + (n' - n) * c.Samples();
    assert (n' - n - 1) * c.Samples() == (n' - n) * c.Samples() - c.Samples();
    assert (n' - n + 1) * c.Samples() == (n' - n) * c.Samples() + c.Samples();
    assert (j' - j) * c.FrameSamples() == j' * c.FrameSamples() - j * c.FrameSamples();
  }

  lemma TimesByNumber(c: Config, h: seq<Turn>, advance: int, j: nat, e: nat, s: nat)
    requires j < |h|
    ensures DrainTime(c, h, advance, j, e, s) ==
            Base(c, h[j]) - j * c.FrameSamples() - advance + SlotNumber(TimingOf(c, advance), e, s) * c.Samples()
  {
    assert (e - j) * c.FrameSamples() == e * c.FrameSamples() - j * c.FrameSamples();
    assert e * (c.slots * c.Samples()) == e * c.slots * c.Samples();
  }

  // ----- a steady beacon -----

  /** Every beacon found says that frame `k` starts `k` frames after `start`. */
  ghost predicate Steady(c: Config, h: seq<Turn>, start: int) {
    forall k: nat | k < |h| && Found(h[k]) :: FrameStart(c, h[k]) == start + k * c.FrameSamples()
  }

  lemma {:induction false} SteadyBase(c: Config, h: seq<Turn>, start: int, k: nat, j: nat)
    requires c.Valid() && IsRun(c, h) && AllFull(c, h) && Steady(c, h, start) && !CanRepeat(c)
    requires k <= j < |h| && Found(h[k])
    ensures Base(c, h[j]) == start + j * c.FrameSamples() + h[j].adjust
    decreases j
  {
    hide IsRun, AllFull;
    if Found(h[j]) {
      NothingPending(c, h, j);
    } else {
      SteadyBase(c, h, start, k, j - 1);
      BasesMove(c, h, j - 1, j);
      assert j * c.FrameSamples() == (j - 1) * c.FrameSamples() + c.FrameSamples();
      assert Corrections(c, h, j - 1, j) == 0;
    }
  }

  /** With a steady beacon no two transmissions of a client overlap, over the whole run from the first beacon found:
      the `a`th of frame `e`, drained in frame `j`, and the `b`th of frame `e'`, drained in frame `j'`.  Frames are
      drained in order, and the client does not transmit in slot 0, where the beacon is. */
  lemma SteadyTransmissionsDisjoint(c: Config, h: seq<Turn>, advance: int, start: int, k: nat, frame: string,
                                    pilots: seq<nat>, uplink: seq<nat>, channels: nat,
                                    j: nat, e: nat, a: nat, j': nat, e': nat, b: nat)
    requires c.Valid() && IsRun(c, h) && AllFull(c, h) && Steady(c, h, start) && !CanRepeat(c) && k < |h| && Found(h[k])
    requires IsSlots(frame, 'P', pilots) && IsSlots(frame, 'U', uplink) && channels <= |pilots| && |frame| == c.slots
    requires frame[0] != 'P' && frame[0] != 'U'
    requires k <= j <= j' < |h| && e <= e' && (e == e' ==> j == j')
    requires var slots := SentSlots(pilots, uplink, channels); a < |slots| && b < |slots|
    requires (e, a) != (e', b)
    ensures var slots := SentSlots(pilots, uplink, channels);
      Disjoint(DrainTime(c, h, advance, j, e, slots[a]), DrainTime(c, h, advance, j', e', slots[b]), c.Samples())
  {
    hide IsRun, AllFull, Steady, IsSlots, DrainTime;
    var slots, t := SentSlots(pilots, uplink, channels), TimingOf(c, advance);
    var s, s' := slots[a], slots[b];
    SlotSent(frame, pilots, uplink, channels, a);
    SlotSent(frame, pilots, uplink, channels, b);
    SteadyBase(c, h, start, k, j);
    SteadyBase(c, h, start, k, j');
    BasesMove(c, h, j, j');
    assert Move(c, h, j, j') == h[j'].adjust - h[j].adjust by {
      assert (j' - j) * c.FrameSamples() == j' * c.FrameSamples() - j * c.FrameSamples();
    }
    AdjustBound(c, h, j);
    if e < e' {
      FramesApart(c.slots, e, s, e', s');
      MulMonotone(1, SlotNumber(t, e', s') - SlotNumber(t, e, s) - 1, c.Samples());
      RunTransmissionsDisjointIff(c, h, advance, j, e, s, j', e', s');
    } else {
      if a < b {
        SentSlotsDistinct(frame, pilots, uplink, channels, a, b);
      } else {
        SentSlotsDistinct(frame, pilots, uplink, channels, b, a);
      }
      if s < s' {
        MulMonotone(0, s' - s - 1, c.Samples());
        RunTransmissionsDisjointIff(c, h, advance, j, e, s, j', e, s');
      } else {
        MulMonotone(0, s - s' - 1, c.Samples());
        RunTransmissionsDisjointIff(c, h, advance, j, e, s', j, e, s);
      }
    }
  }

  lemma SlotSent(frame: string, pilots: seq<nat>, uplink: seq<nat>, channels: nat, a: nat)
    requires IsSlots(frame, 'P', pilots) && IsSlots(frame, 'U', uplink) && channels <= |pilots| && 0 < |frame|
    requires frame[0] != 'P' && frame[0] != 'U' && a < |SentSlots(pilots, uplink, channels)|
    ensures 0 < SentSlots(pilots, uplink, channels)[a] < |frame|
  {
  }

  /** Slots of different frames, neither of them slot 0, have at least one slot between them. */
  lemma FramesApart(slots: nat, e: nat, s: nat, e': nat, s': nat)
    requires e < e' && 0 < s < slots && 0 < s' < slots
    ensures e' * slots + s' - (e * slots + s) >= 2
  {
    MulMonotone(e + 1, e', slots);
  }

  lemma AdjustBound(c: Config, h: seq<Turn>, j: nat)
    requires c.Valid() && IsRun(c, h) && j < |h|
    ensures h[j].adjust <= c.BeaconEnd() <= c.Samples()
  {
    assert TurnOk(c, h[j], j);
  }
}
