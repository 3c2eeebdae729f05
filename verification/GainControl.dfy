/** The receiver's automatic gain control: the state machine, and the loop that feeds it a frame of 20 samples. */
module GainControl {

  const TARGET_RSSI: real := -15.0
  const MAX_GAIN: int := 64
  const MIN_GAIN: int := 0
  const NUM_SAMP_THRESH: nat := 16
  const NUM_SAMP_ABOVE_THRESH: nat := 3
  const RSSI_SAT_THRESH: real := -6.0
  const MAX_NUM_SAT_ADJUST: nat := 3
  const MAX_NUM_FINE_ADJUST: nat := 3
  const FRAME_SAMPLES: nat := 20

  datatype State = Idle | MeasPwrWait | SatDet | Wait

  datatype Agc = Agc(state: State, enabled: bool, satSamples: nat, detected: bool, good: bool,
                     stage: nat, fine: nat, cumulative: int, gain: int)

  /** What a sample leads to; in the code, `Raised` is an exception. */
  datatype Outcome = Next(agc: Agc) | Raised

  // ----- the machine -----

  function Clamped(gain: int): int {
    if gain < MIN_GAIN then MIN_GAIN else if gain > MAX_GAIN then MAX_GAIN else gain
  }

  /** The gain drop of each stage; a later stage is invalid and drops nothing. */
  function Drop(stage: nat): int {
    if stage == 0 then 20 else if stage <= 2 then 10 else 0
  }

  function Truncated(x: real): int {
    if x >= 0.0 then x.Floor else -((-x).Floor)
  }

  function Adjusted(a: Agc, step: int): Agc {
    a.(cumulative := a.cumulative + step, gain := Clamped(MAX_GAIN - (a.cumulative + step)))
  }

  /** Leaving the wait state, which the machine does at once after entering it. */
  function GainDone(a: Agc): Agc {
    if a.state != Wait then a
    else if a.stage < MAX_NUM_SAT_ADJUST then a.(state := SatDet)
    else a.(state := MeasPwrWait)
  }

  function FullReset(a: Agc): Agc {
    Agc(a.state, false, 0, false, false, 0, 0, 0, a.gain)
  }

  /** How far the fine adjustment moves for a negative reading. */
  function FineStep(rssi: real): int { Truncated(-TARGET_RSSI + rssi) }

  function NewSample(a: Agc, rssi: real): Outcome {
    match a.state
    case Idle => Next(if a.enabled then a.(state := SatDet) else a)
    case SatDet =>
      if a.detected then
        var b := Adjusted(a.(detected := false), Drop(a.stage));
        Next(GainDone(b.(state := Wait, stage := a.stage + 1)))
      else if a.good then Next(a.(detected := false, state := MeasPwrWait))
      else Next(a)
    case MeasPwrWait =>
      if a.fine >= MAX_NUM_FINE_ADJUST then Next(FullReset(a.(state := Idle)))
      else if rssi >= 0.0 then Raised
      else
        var b := Adjusted(a.(stage := MAX_NUM_SAT_ADJUST), FineStep(rssi));
        Next(GainDone(b.(state := Wait, fine := a.fine + 1)))
    case Wait => Raised
  }

  // ----- the driver -----

  /** The bookkeeping before sample `i` of a frame reaches the machine. */
  function Counted(a: Agc, i: nat, rssi: real): Agc {
    var n := if rssi > RSSI_SAT_THRESH then a.satSamples + 1 else a.satSamples;
    var b := if n >= NUM_SAMP_ABOVE_THRESH then a.(satSamples := 0, detected := true) else a.(satSamples := n);
    if i == NUM_SAMP_THRESH - 1 then b.(good := true) else b
  }

  function Fed(a: Agc, i: nat, rssi: real): Outcome { NewSample(Counted(a, i, rssi), rssi) }

  function FrameStart(a: Agc): Agc { a.(satSamples := 0, detected := false, good := false, enabled := true) }

  /** The machine as an object, and the loop over the samples of a frame. */
  class AutomaticGainControl {
    var state: State
    var enabled: bool
    var satSamples: nat
    var detected: bool
    var good: bool
    var stage: nat
    var fine: nat
    var cumulative: int
    var gain: int

    ghost function View(): Agc
      reads this
    {
      Agc(state, enabled, satSamples, detected, good, stage, fine, cumulative, gain)
    }

    constructor ()
      ensures View() == Agc(Idle, false, 0, false, false, 0, 0, 0, 65)
    {
      state, enabled, satSamples, detected, good := Idle, false, 0, false, false;
      stage, fine, cumulative, gain := 0, 0, 0, 65;
    }

    method SetGain(step: int)
      modifies this`cumulative, this`gain
      ensures View() == Adjusted(old(View()), step)
    {
      cumulative := cumulative + step;
      var adjusted := MAX_GAIN - cumulative;
      if adjusted < MIN_GAIN {
        adjusted := MIN_GAIN;
      }
      if adjusted > MAX_GAIN {
        adjusted := MAX_GAIN;
      }
      gain := adjusted;
    }

    method TriggerGainDone()
      modifies this`state
      ensures View() == GainDone(old(View()))
    {
      if state == Wait {
        state := if stage < MAX_NUM_SAT_ADJUST then SatDet else MeasPwrWait;
      }
    }

    method TriggerNewSample(rssi: real) returns (ok: bool)
      modifies this
      ensures ok <==> NewSample(old(View()), rssi).Next?
      ensures ok ==> View() == NewSample(old(View()), rssi).agc
    {
      hide Adjusted, Drop, FineStep;
      ok := true;
      match state {
        case Idle =>
          if enabled { state := SatDet; }
        case SatDet =>
          if detected {
            detected := false;
            SetGain(Drop(stage));
            state := Wait;
            stage := stage + 1;
            TriggerGainDone();
          } else if good {
            detected := false;
            state := MeasPwrWait;
          }
        case MeasPwrWait =>
          if fine < MAX_NUM_FINE_ADJUST {
            stage := MAX_NUM_SAT_ADJUST;
            if rssi >= 0.0 {
              return false;
            }
            SetGain(FineStep(rssi));
            state := Wait;
            fine := fine + 1;
            TriggerGainDone();
          } else {
            state := Idle;
            enabled, satSamples, stage, good, detected, fine, cumulative := false, 0, 0, false, false, 0, 0;
          }
        case Wait =>
          ok := false;
      }
    }

    /** Counts saturated samples and sets the flags the machine's conditions read. */
    method CountSample(i: nat, rssi: real)
      modifies this`satSamples, this`detected, this`good
      ensures View() == Counted(old(View()), i, rssi)
    {
      if rssi > RSSI_SAT_THRESH {
        satSamples := satSamples + 1;
      }
      if satSamples >= NUM_SAMP_ABOVE_THRESH {
        detected, satSamples := true, 0;
      }
      if i == NUM_SAMP_THRESH - 1 {
        good := true;
      }
    }

    /** Feeds the samples of one frame to the machine. */
    method Frame(rssi: seq<real>) returns (ok: bool)
      requires |rssi| == FRAME_SAMPLES
      modifies this
      ensures ok <==> Run(FrameStart(old(View())), rssi).Next?
      ensures ok ==> View() == Run(FrameStart(old(View())), rssi).agc
    {
      hide NewSample, Counted;
      satSamples, detected, good, enabled := 0, false, false, true;
      ghost var start := View();
      for i := 0 to FRAME_SAMPLES
        invariant Run(start, rssi[..i]) == Next(View())
      {
        ghost var before := View();
        RunStep(start, rssi, i);
        CountSample(i, rssi[i]);
        ok := TriggerNewSample(rssi[i]);
        if !ok {
          RaisedStays(start, rssi, i + 1);
          return;
        }
      }
      assert rssi[..FRAME_SAMPLES] == rssi;
      ok := true;
    }
  }

  // ----- runs -----

  /** After the samples of a frame, or its first part. */
  function Run(a: Agc, rssi: seq<real>): Outcome
    decreases |rssi|
  {
    if rssi == [] then Next(a)
    else
      match Run(a, rssi[..|rssi| - 1])
      case Next(b) => Fed(b, |rssi| - 1, rssi[|rssi| - 1])
      case Raised => Raised
  }

  lemma RunStep(a: Agc, rssi: seq<real>, i: nat)
    requires i < |rssi|
    ensures Run(a, rssi[..i]).Next? ==> Run(a, rssi[..i + 1]) == Fed(Run(a, rssi[..i]).agc, i, rssi[i])
    ensures Run(a, rssi[..i]).Raised? ==> Run(a, rssi[..i + 1]).Raised?
    ensures TuneCount(a, rssi[..i + 1]) == TuneCount(a, rssi[..i]) +
      if Run(a, rssi[..i]).Next? && Tunes(Run(a, rssi[..i]).agc, i, rssi[i]) then 1 else 0
    ensures DropCount(a, rssi[..i + 1]) == DropCount(a, rssi[..i]) +
      if Run(a, rssi[..i]).Next? && Drops(Run(a, rssi[..i]).agc, i, rssi[i]) then 1 else 0
  {
    hide Fed, Tunes, Drops;
    assert rssi[..i + 1][..i] == rssi[..i];
  }

  lemma {:induction false} RaisedStays(a: Agc, rssi: seq<real>, k: nat)
    requires k <= |rssi| && Run(a, rssi[..k]).Raised?
    ensures Run(a, rssi).Raised?
    decreases |rssi| - k
  {
    if k == |rssi| {
      assert rssi[..k] == rssi;
    } else {
      assert rssi[..k + 1][..k] == rssi[..k];
      RaisedStays(a, rssi, k + 1);
    }
  }

  /** Whether a sample makes the machine drop the gain for saturation. */
  predicate Drops(a: Agc, i: nat, rssi: real) {
    a.state == SatDet && Counted(a, i, rssi).detected
  }

  predicate Tunes(a: Agc, i: nat, rssi: real) {
    a.state == MeasPwrWait && a.fine < MAX_NUM_FINE_ADJUST && rssi < 0.0
  }

  function DropCount(a: Agc, rssi: seq<real>): nat
    decreases |rssi|
  {
    if rssi == [] then 0
    else
      var n, before := |rssi| - 1, Run(a, rssi[..|rssi| - 1]);
      DropCount(a, rssi[..n]) + if before.Next? && Drops(before.agc, n, rssi[n]) then 1 else 0
  }

  function TuneCount(a: Agc, rssi: seq<real>): nat
    decreases |rssi|
  {
    if rssi == [] then 0
    else
      var n, before := |rssi| - 1, Run(a, rssi[..|rssi| - 1]);
      TuneCount(a, rssi[..n]) + if before.Next? && Tunes(before.agc, n, rssi[n]) then 1 else 0
  }

  /** What holds between samples: the wait state has been left, and the counters fit the state. */
  predicate Inv(a: Agc) {
    && a.state != Wait
    && (a.state == Idle ==> a.stage == 0 && a.fine == 0 && a.cumulative == 0)
    && (a.state == SatDet ==>
          a.stage < MAX_NUM_SAT_ADJUST && a.fine == 0 &&
          a.cumulative == (if a.stage == 0 then 0 else if a.stage == 1 then 20 else 30))
    && (a.state == MeasPwrWait ==> a.stage <= MAX_NUM_SAT_ADJUST && a.fine <= MAX_NUM_FINE_ADJUST)
  }

  predicate IsSaturated(rssi: real) { rssi > RSSI_SAT_THRESH }

  lemma CountedKeeps(a: Agc, i: nat, rssi: real)
    ensures var b, n := Counted(a, i, rssi), a.satSamples + if IsSaturated(rssi) then 1 else 0;
      && b == a.(satSamples := b.satSamples, detected := b.detected, good := b.good)
      && b.satSamples == (if n >= NUM_SAMP_ABOVE_THRESH then 0 else n)
      && (b.detected <==> a.detected || n >= NUM_SAMP_ABOVE_THRESH)
      && (b.good <==> a.good || i == NUM_SAMP_THRESH - 1)
  {
  }

  /** Every sample keeps the invariant; it raises exactly when a fine adjustment meets a reading that is not negative. */
  lemma SampleKeeps(a: Agc, i: nat, rssi: real)
    requires Inv(a)
    ensures Fed(a, i, rssi).Raised? <==> a.state == MeasPwrWait && a.fine < MAX_NUM_FINE_ADJUST && rssi >= 0.0
    ensures Fed(a, i, rssi).Next? ==> Inv(Fed(a, i, rssi).agc)
  {
    hide FineStep, Clamped, Counted;
    CountedKeeps(a, i, rssi);
  }

  /** A drop is one of the three valid ones, and the gain it applies is in range. */
  lemma DropIsValid(a: Agc, i: nat, rssi: real)
    requires Inv(a) && Drops(a, i, rssi)
    ensures Fed(a, i, rssi).Next?
    ensures Fed(a, i, rssi).agc.cumulative == a.cumulative + if a.stage == 0 then 20 else 10
    ensures MIN_GAIN <= Fed(a, i, rssi).agc.gain == MAX_GAIN - Fed(a, i, rssi).agc.cumulative
  {
    hide Counted;
    CountedKeeps(a, i, rssi);
  }

  /** A fine adjustment brings the gain closer to the target, within its range. */
  lemma TuneIsInRange(a: Agc, i: nat, rssi: real)
    requires Inv(a) && Tunes(a, i, rssi)
    ensures Fed(a, i, rssi).Next?
    ensures Fed(a, i, rssi).agc.cumulative == a.cumulative + FineStep(rssi)
    ensures MIN_GAIN <= Fed(a, i, rssi).agc.gain <= MAX_GAIN
    ensures MIN_GAIN <= MAX_GAIN - a.cumulative <= MAX_GAIN ==>
      (rssi > TARGET_RSSI ==> Fed(a, i, rssi).agc.gain <= MAX_GAIN - a.cumulative) &&
      (rssi < TARGET_RSSI ==> Fed(a, i, rssi).agc.gain >= MAX_GAIN - a.cumulative)
  {
    hide Counted, FineStep;
    CountedKeeps(a, i, rssi);
    FineStepSign(rssi);
  }

  lemma FineStepSign(rssi: real)
    ensures rssi > TARGET_RSSI ==> FineStep(rssi) >= 0
    ensures rssi < TARGET_RSSI ==> FineStep(rssi) <= 0
  {
  }

  /** What a sample with a negative reading does to the counters. */
  lemma SampleEffect(a: Agc, i: nat, rssi: real)
    requires Inv(a) && rssi < 0.0
    ensures Fed(a, i, rssi).Next? && Inv(Fed(a, i, rssi).agc)
    ensures var b := Fed(a, i, rssi).agc;
      && (b.state == Idle <==> (a.state == Idle && !a.enabled) || (a.state == MeasPwrWait && a.fine == MAX_NUM_FINE_ADJUST))
      && (b.state == Idle ==> !b.enabled && !Tunes(a, i, rssi) && !Drops(a, i, rssi))
      && (b.state != Idle ==>
            b.fine == a.fine + (if Tunes(a, i, rssi) then 1 else 0) &&
            b.stage >= a.stage + if Drops(a, i, rssi) then 1 else 0)
      && (!Tunes(a, i, rssi) && !Drops(a, i, rssi) ==> b.gain == a.gain)
  {
    hide FineStep, Clamped, Counted;
    CountedKeeps(a, i, rssi);
  }

  ghost predicate Negative(rssi: seq<real>) { forall k: nat | k < |rssi| :: rssi[k] < 0.0 }

  lemma {:induction false} RunKeeps(a: Agc, rssi: seq<real>)
    requires Inv(a) && Negative(rssi)
    ensures Run(a, rssi).Next? && Inv(Run(a, rssi).agc)
    decreases |rssi|
  {
    if rssi != [] {
      RunKeeps(a, rssi[..|rssi| - 1]);
      SampleKeeps(Run(a, rssi[..|rssi| - 1]).agc, |rssi| - 1, rssi[|rssi| - 1]);
    }
  }

  /** The state after the first `k` samples. */
  function At(a: Agc, rssi: seq<real>, k: nat): (b: Agc)
    requires Inv(a) && Negative(rssi) && k <= |rssi|
    ensures Inv(b) && Run(a, rssi[..k]) == Next(b)
  {
    RunKeeps(a, rssi[..k]);
    Run(a, rssi[..k]).agc
  }

  lemma AtStep(a: Agc, rssi: seq<real>, k: nat)
    requires Inv(a) && Negative(rssi) && k < |rssi|
    ensures At(a, rssi, 0) == a
    ensures Fed(At(a, rssi, k), k, rssi[k]) == Next(At(a, rssi, k + 1))
    ensures TuneCount(a, rssi[..k + 1]) == TuneCount(a, rssi[..k]) + if Tunes(At(a, rssi, k), k, rssi[k]) then 1 else 0
    ensures DropCount(a, rssi[..k + 1]) == DropCount(a, rssi[..k]) + if Drops(At(a, rssi, k), k, rssi[k]) then 1 else 0
  {
    hide Fed, Tunes, Drops, Inv;
    RunStep(a, rssi, k);
    assert rssi[..0] == [];
  }

  lemma {:induction false} CountsSoFar(a: Agc, rssi: seq<real>, k: nat)
    requires Inv(a) && Negative(rssi) && a.state == Idle && k <= |rssi|
    requires forall j: nat | 0 < j <= k :: At(a, rssi, j).state != Idle
    ensures TuneCount(a, rssi[..k]) == At(a, rssi, k).fine && DropCount(a, rssi[..k]) <= At(a, rssi, k).stage
    decreases k
  {
    hide At, TuneCount, DropCount, Fed, Tunes, Drops;
    if k > 0 {
      CountsSoFar(a, rssi, k - 1);
      AtStep(a, rssi, k - 1);
      SampleEffect(At(a, rssi, k - 1), k - 1, rssi[k - 1]);
    } else {
      NothingYet(a, rssi);
    }
  }

  lemma NothingYet(a: Agc, rssi: seq<real>)
    requires Inv(a) && Negative(rssi)
    ensures At(a, rssi, 0) == a && TuneCount(a, rssi[..0]) == 0 && DropCount(a, rssi[..0]) == 0
  {
    assert rssi[..0] == [];
  }

  /** From leaving the idle state to coming back to it, the machine makes at most three drops and exactly three fine
      adjustments. */
  lemma IdleToIdle(a: Agc, rssi: seq<real>)
    requires Inv(a) && Negative(rssi) && a.state == Idle && |rssi| >= 2
    requires forall j: nat | 0 < j < |rssi| :: At(a, rssi, j).state != Idle
    requires At(a, rssi, |rssi|).state == Idle
    ensures DropCount(a, rssi) <= MAX_NUM_SAT_ADJUST && TuneCount(a, rssi) == MAX_NUM_FINE_ADJUST
  {
    hide At, TuneCount, DropCount, Fed, Tunes, Drops;
    var n := |rssi| - 1;
    CountsSoFar(a, rssi, n);
    AtStep(a, rssi, n);
    SampleEffect(At(a, rssi, n), n, rssi[n]);
    assert rssi[..n + 1] == rssi;
  }

  // ----- one frame of the driver -----

  /** How far a frame that started in the idle state has come after its samples before `i`. */
  predicate FrameProgress(a: Agc, i: nat, tuned: nat) {
    match a.state
    case Idle => !a.enabled && tuned == MAX_NUM_FINE_ADJUST
    case SatDet =>
      i <= NUM_SAMP_THRESH && tuned == 0 && !a.detected && (a.good <==> i == NUM_SAMP_THRESH) &&
      (a.good ==> a.satSamples == 0)
    case MeasPwrWait => tuned == a.fine && a.fine + NUM_SAMP_THRESH + 1 >= i
    case Wait => false
  }

  lemma FirstSample(a: Agc, rssi: real)
    requires Inv(a) && a.state == Idle && rssi < 0.0
    ensures Fed(FrameStart(a), 0, rssi).Next? && FrameProgress(Fed(FrameStart(a), 0, rssi).agc, 1, 0)
    ensures !Tunes(FrameStart(a), 0, rssi)
  {
  }

  lemma LaterSample(a: Agc, i: nat, rssi: real, tuned: nat)
    requires Inv(a) && 0 < i && rssi < 0.0 && FrameProgress(a, i, tuned)
    ensures Fed(a, i, rssi).Next?
    ensures FrameProgress(Fed(a, i, rssi).agc, i + 1, tuned + if Tunes(a, i, rssi) then 1 else 0)
  {
    hide FineStep, Clamped, Counted, IsSaturated;
    CountedKeeps(a, i, rssi);
  }

  lemma {:induction false} FrameProgresses(a: Agc, rssi: seq<real>, i: nat)
    requires Inv(a) && a.state == Idle && Negative(rssi) && 0 < i <= |rssi|
    ensures Inv(FrameStart(a)) && FrameProgress(At(FrameStart(a), rssi, i), i, TuneCount(FrameStart(a), rssi[..i]))
    decreases i
  {
    hide At, TuneCount, Fed, Tunes, FrameProgress;
    var start := FrameStart(a);
    AtStep(start, rssi, i - 1);
    if i > 1 {
      FrameProgresses(a, rssi, i - 1);
      LaterSample(At(start, rssi, i - 1), i - 1, rssi[i - 1], TuneCount(start, rssi[..i - 1]));
    } else {
      NothingYet(start, rssi);
      FirstSample(a, rssi[0]);
    }
  }

  /** A frame of 20 negative readings that starts in the idle state makes all three fine adjustments; it ends idle and
      disabled, or with the return to idle still to come. */
  lemma IdleFrameCompletes(a: Agc, rssi: seq<real>)
    requires Inv(a) && a.state == Idle && Negative(rssi) && |rssi| == FRAME_SAMPLES
    ensures TuneCount(FrameStart(a), rssi) == MAX_NUM_FINE_ADJUST
    ensures Run(FrameStart(a), rssi).Next?
    ensures BetweenFrames(Run(FrameStart(a), rssi).agc)
  {
    hide TuneCount;
    FrameProgresses(a, rssi, FRAME_SAMPLES);
    assert rssi[..FRAME_SAMPLES] == rssi;
    assert At(FrameStart(a), rssi, FRAME_SAMPLES) == Run(FrameStart(a), rssi).agc;
  }

  /** How a frame can end. */
  predicate BetweenFrames(a: Agc) {
    Inv(a) && (a.state == Idle || (a.state == MeasPwrWait && a.fine == MAX_NUM_FINE_ADJUST))
  }

  lemma {:induction false} DisabledFrameIdles(a: Agc, rssi: seq<real>)
    requires BetweenFrames(a) && a.state == MeasPwrWait && Negative(rssi) && rssi != []
    ensures Run(FrameStart(a), rssi).Next?
    ensures var b := Run(FrameStart(a), rssi).agc; b.state == Idle && !b.enabled && Inv(b)
    ensures TuneCount(FrameStart(a), rssi) == 0 && DropCount(FrameStart(a), rssi) == 0
    decreases |rssi|
  {
    hide Fed, Tunes, Drops;
    var start, n := FrameStart(a), |rssi| - 1;
    assert rssi[..n + 1] == rssi;
    RunStep(start, rssi, n);
    if n == 0 {
      assert rssi[..0] == [];
      SampleEffect(start, 0, rssi[0]);
    } else {
      DisabledFrameIdles(a, rssi[..n]);
      SampleEffect(Run(start, rssi[..n]).agc, n, rssi[n]);
    }
  }

  /** A frame adjusts the gain if and only if it starts in the idle state.  If the frame before ended with the return
      to idle still to come, its first sample disables the control, and the frame adjusts nothing at all. */
  lemma FrameAdjustsIff(a: Agc, rssi: seq<real>)
    requires BetweenFrames(a) && Negative(rssi) && |rssi| == FRAME_SAMPLES
    ensures TuneCount(FrameStart(a), rssi) == if a.state == Idle then MAX_NUM_FINE_ADJUST else 0
    ensures a.state != Idle ==> DropCount(FrameStart(a), rssi) == 0
    ensures Run(FrameStart(a), rssi).Next? && BetweenFrames(Run(FrameStart(a), rssi).agc)
  {
    if a.state == Idle {
      IdleFrameCompletes(a, rssi);
    } else {
      DisabledFrameIdles(a, rssi);
    }
  }

  /** The samples after the saturation stage. */
  lemma Tail(a: Agc, rssi: seq<real>, k: nat)
    requires Inv(a) && a.state == Idle && Negative(rssi) && NUM_SAMP_THRESH <= k < |rssi|
    ensures Inv(FrameStart(a))
    ensures var b, n := At(FrameStart(a), rssi, k), At(FrameStart(a), rssi, k + 1);
      && (b.state == Idle ==> n.state == Idle)
      && (b.state == SatDet ==> n.state == MeasPwrWait && n.fine == 0)
      && (b.state == MeasPwrWait ==>
            if b.fine == MAX_NUM_FINE_ADJUST then n.state == Idle else n.state == MeasPwrWait && n.fine == b.fine + 1)
  {
    hide At, TuneCount, FineStep, Clamped, Counted, IsSaturated;
    FrameProgresses(a, rssi, k);
    AtStep(FrameStart(a), rssi, k);
    CountedKeeps(At(FrameStart(a), rssi, k), k, rssi[k]);
  }

  /** The return to idle is still to come exactly when sample 15, the last of the saturation stage, left the machine
      in that stage. */
  lemma PendingByState(a: Agc, rssi: seq<real>)
    requires Inv(a) && a.state == Idle && Negative(rssi) && |rssi| == FRAME_SAMPLES
    ensures Run(FrameStart(a), rssi).Next?
    ensures Run(FrameStart(a), rssi).agc.state == MeasPwrWait <==>
            At(FrameStart(a), rssi, NUM_SAMP_THRESH).state == SatDet
  {
    hide At, TuneCount, Fed;
    FrameProgresses(a, rssi, NUM_SAMP_THRESH);
    Tail(a, rssi, NUM_SAMP_THRESH);
    Tail(a, rssi, NUM_SAMP_THRESH + 1);
    Tail(a, rssi, NUM_SAMP_THRESH + 2);
    Tail(a, rssi, NUM_SAMP_THRESH + 3);
    assert rssi[..FRAME_SAMPLES] == rssi;
  }

  // ----- the condition on the readings -----

  /** How many of the readings are saturated. */
  function Saturated(rssi: seq<real>): nat
    decreases |rssi|
  {
    if rssi == [] then 0
    else Saturated(rssi[..|rssi| - 1]) + if IsSaturated(rssi[|rssi| - 1]) then 1 else 0
  }

  lemma SaturatedStep(rssi: seq<real>, k: nat)
    requires k < |rssi|
    ensures Saturated(rssi[..k + 1]) == Saturated(rssi[..k]) + if IsSaturated(rssi[k]) then 1 else 0
  {
    assert rssi[..k + 1][..k] == rssi[..k];
  }

  /** While the machine counts saturated readings it makes one drop for three of them, and it leaves the saturation
      stage early only after nine. */
  predicate CountsByThree(a: Agc, saturated: nat) {
    if a.state == SatDet then
      saturated == NUM_SAMP_ABOVE_THRESH * a.stage + a.satSamples && a.satSamples < NUM_SAMP_ABOVE_THRESH
    else saturated >= NUM_SAMP_ABOVE_THRESH * MAX_NUM_SAT_ADJUST
  }

  /** The last sample of the saturation stage leaves it open exactly when it completes the first or second three. */
  predicate ThreeJustCompleted(saturated: nat, rssi: real) {
    IsSaturated(rssi) && (saturated == NUM_SAMP_ABOVE_THRESH || saturated == 2 * NUM_SAMP_ABOVE_THRESH)
  }

  lemma CountingSample(a: Agc, i: nat, rssi: real, saturated: nat, tuned: nat)
    requires Inv(a) && 0 < i < NUM_SAMP_THRESH && rssi < 0.0 && FrameProgress(a, i, tuned) && CountsByThree(a, saturated)
    ensures Fed(a, i, rssi).Next?
    ensures var n := saturated + if IsSaturated(rssi) then 1 else 0;
      && (i + 1 < NUM_SAMP_THRESH ==> CountsByThree(Fed(a, i, rssi).agc, n))
      && (i + 1 == NUM_SAMP_THRESH ==> (Fed(a, i, rssi).agc.state == SatDet <==> ThreeJustCompleted(n, rssi)))
  {
    hide FineStep, Clamped, Counted, IsSaturated;
    CountedKeeps(a, i, rssi);
  }

  lemma {:induction false} SaturationStage(a: Agc, rssi: seq<real>, k: nat)
    requires Inv(a) && a.state == Idle && Negative(rssi) && 0 < k < NUM_SAMP_THRESH <= |rssi|
    ensures Inv(FrameStart(a)) && CountsByThree(At(FrameStart(a), rssi, k), Saturated(rssi[..k]))
    decreases k
  {
    hide At, TuneCount, FineStep, Clamped, Saturated, Fed, Tunes, FrameProgress, CountsByThree;
    var start := FrameStart(a);
    AtStep(start, rssi, k - 1);
    SaturatedStep(rssi, k - 1);
    if k > 1 {
      FrameProgresses(a, rssi, k - 1);
      SaturationStage(a, rssi, k - 1);
      CountingSample(At(start, rssi, k - 1), k - 1, rssi[k - 1], Saturated(rssi[..k - 1]), TuneCount(start, rssi[..k - 1]));
    } else {
      NothingYet(start, rssi);
      FirstCounted(a, rssi[0]);
      assert Saturated(rssi[..0]) == 0 by { NoneSaturated(rssi); }
    }
  }

  lemma NoneSaturated(rssi: seq<real>)
    ensures Saturated(rssi[..0]) == 0
  {
  }

  lemma FirstCounted(a: Agc, rssi: real)
    requires Inv(a) && a.state == Idle && rssi < 0.0
    ensures Fed(FrameStart(a), 0, rssi).Next?
    ensures CountsByThree(Fed(FrameStart(a), 0, rssi).agc, if IsSaturated(rssi) then 1 else 0)
  {
  }

  /** The return to idle is still to come at the end of a frame if and only if reading 15 is saturated and is the third
      or the sixth saturated one of readings 0 to 15. */
  lemma ReturnPendingIff(a: Agc, rssi: seq<real>)
    requires Inv(a) && a.state == Idle && Negative(rssi) && |rssi| == FRAME_SAMPLES
    ensures Run(FrameStart(a), rssi).Next?
    ensures Run(FrameStart(a), rssi).agc.state == MeasPwrWait <==>
            rssi[15] > -6.0 && (Saturated(rssi[..16]) == 3 || Saturated(rssi[..16]) == 6)
  {
    hide At, TuneCount, Fed, Saturated, FrameProgress, CountsByThree;
    var start, k := FrameStart(a), NUM_SAMP_THRESH - 1;
    SaturationStage(a, rssi, k);
    FrameProgresses(a, rssi, k);
    CountingSample(At(start, rssi, k), k, rssi[k], Saturated(rssi[..k]), TuneCount(start, rssi[..k]));
    AtStep(start, rssi, k);
    SaturatedStep(rssi, k);
    PendingByState(a, rssi);
  }

  /** Of two frames the second makes its three fine adjustments, or none and no drop either, as the readings of the
      first decide. */
  lemma NextFrameLostIff(a: Agc, rssi: seq<real>, next: seq<real>)
    requires Inv(a) && a.state == Idle && Negative(rssi) && |rssi| == FRAME_SAMPLES
    requires Negative(next) && |next| == FRAME_SAMPLES
    ensures Run(FrameStart(a), rssi).Next?
    ensures var b, lost := Run(FrameStart(a), rssi).agc,
                           rssi[15] > -6.0 && (Saturated(rssi[..16]) == 3 || Saturated(rssi[..16]) == 6);
      && TuneCount(FrameStart(b), next) == (if lost then 0 else MAX_NUM_FINE_ADJUST)
      && (lost ==> DropCount(FrameStart(b), next) == 0)
  {
    hide TuneCount, DropCount, Saturated, Run;
    ReturnPendingIff(a, rssi);
    IdleFrameCompletes(a, rssi);
    FrameAdjustsIff(Run(FrameStart(a), rssi).agc, next);
  }

  /** Quiet but for samples 13, 14 and 15, which are saturated. */
  function LateSaturation(): seq<real> {
    seq(FRAME_SAMPLES, i => if 13 <= i <= 15 then -1.0 else -20.0)
  }

  lemma {:induction false} LateSaturationCount(k: nat)
    requires k <= 16
    ensures Saturated(LateSaturation()[..k]) == if k <= 13 then 0 else k - 13
    decreases k
  {
    hide Saturated;
    if k > 0 {
      LateSaturationCount(k - 1);
      SaturatedStep(LateSaturation(), k - 1);
    } else {
      NoneSaturated(LateSaturation());
    }
  }

  /** Such a frame makes the whole next frame pass without any adjustment. */
  lemma LateSaturationLosesNextFrame(a: Agc, next: seq<real>)
    requires Inv(a) && a.state == Idle && Negative(next) && |next| == FRAME_SAMPLES
    ensures Run(FrameStart(a), LateSaturation()).Next?
    ensures var b := Run(FrameStart(a), LateSaturation()).agc;
      TuneCount(FrameStart(b), next) == 0 && DropCount(FrameStart(b), next) == 0
  {
    hide TuneCount, DropCount, Saturated, Run;
    LateSaturationCount(16);
    NextFrameLostIff(a, LateSaturation(), next);
  }

  // ----- how far the gain moves -----

  /** `d` is the whole number of units that a negative reading is away from -15, the part after the point left out. */
  ghost predicate IsStep(d: int, rssi: real) {
    if rssi >= -15.0 then 0.0 <= d as real <= 15.0 + rssi < d as real + 1.0
    else d as real - 1.0 < 15.0 + rssi <= d as real <= 0.0
  }

  /** `gain` is `x`, or the bound of the range from 0 to 64 that `x` is beyond. */
  ghost predicate IsInRange(gain: int, x: int) {
    (0 <= x <= 64 ==> gain == x) && (x < 0 ==> gain == 0) && (x > 64 ==> gain == 64)
  }

  lemma StepIsWhole(rssi: real)
    ensures IsStep(FineStep(rssi), rssi)
  {
  }

  lemma ClampedInRange(x: int)
    ensures IsInRange(Clamped(x), x)
  {
  }

  /** A fine adjustment takes the whole units that the reading is above the target off the gain, or adds those it is
      below. */
  lemma TuneMovesBy(a: Agc, i: nat, rssi: real)
    requires Inv(a) && Tunes(a, i, rssi)
    ensures Fed(a, i, rssi).Next?
    ensures IsStep(Fed(a, i, rssi).agc.cumulative - a.cumulative, rssi)
    ensures IsInRange(Fed(a, i, rssi).agc.gain, 64 - Fed(a, i, rssi).agc.cumulative)
  {
    hide Counted, FineStep, Clamped, IsSaturated, IsStep, IsInRange;
    CountedKeeps(a, i, rssi);
    StepIsWhole(rssi);
    ClampedInRange(64 - Fed(a, i, rssi).agc.cumulative);
  }

  /** A frame of equal readings. */
  function Constant(rssi: real): seq<real> { seq(FRAME_SAMPLES, i => rssi) }

  /** Where the machine is after `k` samples of a frame of equal readings, none of them saturated. */
  ghost predicate ConstantProgress(b: Agc, k: nat, step: int) {
    if k < NUM_SAMP_THRESH then
      b.state == SatDet && !b.detected && !b.good && b.satSamples == 0 && b.stage == 0
    else if k < FRAME_SAMPLES then
      && b.state == MeasPwrWait && b.fine == k - NUM_SAMP_THRESH && b.cumulative == b.fine * step
      && (b.fine > 0 ==> b.gain == Clamped(64 - b.cumulative))
    else b.state == Idle && b.gain == Clamped(64 - 3 * step)
  }

  lemma ConstantSample(a: Agc, k: nat, rssi: real)
    requires Inv(a) && rssi <= -6.0 && 0 < k < FRAME_SAMPLES && ConstantProgress(a, k, FineStep(rssi))
    ensures Fed(a, k, rssi).Next? && ConstantProgress(Fed(a, k, rssi).agc, k + 1, FineStep(rssi))
  {
    hide Counted, FineStep, Clamped;
    CountedKeeps(a, k, rssi);
    assert (a.fine + 1) * FineStep(rssi) == a.fine * FineStep(rssi) + FineStep(rssi);
  }

  lemma ConstantStart(a: Agc, rssi: real)
    requires Inv(a) && a.state == Idle && rssi <= -6.0
    ensures Fed(FrameStart(a), 0, rssi).Next? && ConstantProgress(Fed(FrameStart(a), 0, rssi).agc, 1, FineStep(rssi))
  {
    hide FineStep;
  }

  lemma {:induction false} ConstantProgresses(a: Agc, rssi: real, k: nat)
    requires Inv(a) && a.state == Idle && rssi <= -6.0 && 0 < k <= FRAME_SAMPLES
    ensures Negative(Constant(rssi)) && Inv(FrameStart(a))
    ensures ConstantProgress(At(FrameStart(a), Constant(rssi), k), k, FineStep(rssi))
    decreases k
  {
    hide At, TuneCount, DropCount, Fed, FineStep, ConstantProgress;
    var start, frame := FrameStart(a), Constant(rssi);
    AtStep(start, frame, k - 1);
    if k > 1 {
      ConstantProgresses(a, rssi, k - 1);
      ConstantSample(At(start, frame, k - 1), k - 1, rssi);
    } else {
      NothingYet(start, frame);
      ConstantStart(a, rssi);
    }
  }

  lemma ConstantGain(b: Agc, j: nat, step: int)
    requires 1 <= j <= 4 && ConstantProgress(b, 16 + j, step)
    ensures j <= 3 ==> b.gain == Clamped(64 - j * step)
    ensures j == 4 ==> b.state == Idle && b.gain == Clamped(64 - 3 * step)
  {
    hide Clamped;
  }

  /** A frame of equal readings that are not saturated moves the gain from its maximum by one step, by two and by three
      with its samples 16, 17 and 18, and leaves it there. */
  lemma ConstantFrameGain(a: Agc, rssi: real, j: nat) returns (d: int)
    requires Inv(a) && a.state == Idle && rssi <= -6.0 && 1 <= j <= 3
    ensures IsStep(d, rssi)
    ensures Negative(Constant(rssi)) && Inv(FrameStart(a))
    ensures IsInRange(At(FrameStart(a), Constant(rssi), 16 + j).gain, 64 - j * d)
    ensures Run(FrameStart(a), Constant(rssi)).Next? && Run(FrameStart(a), Constant(rssi)).agc.state == Idle
    ensures IsInRange(Run(FrameStart(a), Constant(rssi)).agc.gain, 64 - 3 * d)
  {
    hide At, FineStep, Clamped, IsStep, IsInRange, ConstantProgress, Fed, Negative, Inv;
    d := FineStep(rssi);
    StepIsWhole(rssi);
    ConstantProgresses(a, rssi, 16 + j);
    ConstantGain(At(FrameStart(a), Constant(rssi), 16 + j), j, d);
    ConstantProgresses(a, rssi, FRAME_SAMPLES);
    ConstantGain(At(FrameStart(a), Constant(rssi), FRAME_SAMPLES), 4, d);
    ClampedInRange(64 - j * d);
    ClampedInRange(64 - 3 * d);
    assert Constant(rssi)[..FRAME_SAMPLES] == Constant(rssi);
  }

  /** Twenty readings of -10 take the gain to 59, 54 and 49. */
  lemma FiveTooLoud(a: Agc)
    requires Inv(a) && a.state == Idle
    ensures Negative(Constant(-10.0)) && Inv(FrameStart(a))
    ensures At(FrameStart(a), Constant(-10.0), 17).gain == 59
    ensures At(FrameStart(a), Constant(-10.0), 18).gain == 54
    ensures At(FrameStart(a), Constant(-10.0), 19).gain == 49
  {
    hide At;
    var _ := ConstantFrameGain(a, -10.0, 1);
    var _ := ConstantFrameGain(a, -10.0, 2);
    var _ := ConstantFrameGain(a, -10.0, 3);
  }
}
