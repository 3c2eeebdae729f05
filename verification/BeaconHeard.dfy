/** What the beacon detector is for: a beacon that is sent, the sequence twice in a row, is found at its end. */
module BeaconHeard {
  import opened Simd
  import opened Correlators
  import opened BeaconDetector

  /** The window holds the sequence from `p` on. */
  ghost predicate HoldsSequence(f: seq<Complex>, g: seq<Complex>, p: nat) {
    p + |g| <= |f| && forall k: nat | k < |g| :: f[p + k] == g[k]
  }

  /** The energy of the first `n` samples of the sequence. */
  function Power(g: seq<Complex>, n: nat): (e: real)
    requires n <= |g|
    ensures e >= 0.0
  {
    if n == 0 then 0.0 else g[n - 1].re * g[n - 1].re + g[n - 1].im * g[n - 1].im + Power(g, n - 1)
  }

  lemma WithItself(a: Complex)
    ensures Product(a, a, true) == Complex(a.re * a.re + a.im * a.im, 0.0)
  {
  }

  lemma {:induction false} SequenceSum(f: seq<Complex>, g: seq<Complex>, p: nat, n: nat)
    requires HoldsSequence(f, g, p) && n <= |g|
    ensures CorrSum(f, g, p + |g| - 1, n) == Complex(Power(g, n), 0.0)
    decreases n
  {
    hide Product;
    if n > 0 {
      SequenceSum(f, g, p, n - 1);
      assert Sample(f, p + |g| - 1 + n - |g|) == g[n - 1];
      WithItself(g[n - 1]);
    }
  }

  /** Where the sequence ends, the correlation is its energy. */
  lemma CorrelationAtEnd(f: seq<Complex>, g: seq<Complex>, p: nat)
    requires 0 < |g| && HoldsSequence(f, g, p)
    ensures WindowCorr(f, g, p + |g| - 1) == Complex(Power(g, |g|), 0.0)
  {
    SequenceSum(f, g, p, |g|);
  }

  lemma RealMagnitude(e: real)
    ensures Abs2(Complex(e, 0.0)) == Times(e, e)
    ensures Mul(Complex(e, 0.0), Complex(e, 0.0)) == Complex(Times(e, e), 0.0)
  {
  }

  /** At the end of a beacon there is a peak if and only if the scaled fourth power of the sequence's energy exceeds the
      correlation energy since the first copy ended, which is the square of that energy at that end and the side lobes
      after it. */
  lemma BeaconEndIsPeakIff(f: seq<Complex>, g: seq<Complex>, scale: real, p: nat)
    requires 0 < |g| && HoldsSequence(f, g, p) && HoldsSequence(f, g, p + |g|)
    ensures var e := Power(g, |g|);
      IsPeak(f, g, scale, p + 2 * |g| - 1) <==>
      Times(scale, Times(Times(e, e), Times(e, e))) > Times(e, e) + Energy(f, g, p + |g|, p + 2 * |g| - 1)
  {
    hide WindowCorr, Abs2, Mul, Times, Power, HoldsSequence;
    var e, first := Power(g, |g|), p + |g| - 1;
    CorrelationAtEnd(f, g, p);
    CorrelationAtEnd(f, g, p + |g|);
    RealMagnitude(e);
    RealMagnitude(Times(e, e));
    EnergyFromStart(f, g, first, first + |g|);
    var end := p + 2 * |g| - 1;
    assert end - |g| == first && end == p + |g| + |g| - 1 && first + 1 == p + |g|;
    assert WindowCorr(f, g, end) == WindowCorr(f, g, end - |g|) == Complex(e, 0.0);
  }

  lemma {:induction false} EnergyFromStart(f: seq<Complex>, g: seq<Complex>, lo: int, hi: int)
    requires lo < hi
    ensures Energy(f, g, lo, hi) == Abs2(WindowCorr(f, g, lo)) + Energy(f, g, lo + 1, hi)
    decreases hi - lo
  {
    hide Abs2, WindowCorr;
    if lo + 1 < hi {
      EnergyFromStart(f, g, lo, hi - 1);
    }
  }

  /** A beacon strong enough for its side lobes is not missed: something is found, no later than its end. */
  lemma BeaconIsHeard(f: seq<Complex>, g: seq<Complex>, scale: real, p: nat, r: int)
    requires 0 < |g| && HoldsSequence(f, g, p) && HoldsSequence(f, g, p + |g|) && IsFirstPeak(f, g, scale, r)
    requires var e := Power(g, |g|);
      Times(scale, Times(Times(e, e), Times(e, e))) > Times(e, e) + Energy(f, g, p + |g|, p + 2 * |g| - 1)
    ensures |g| <= r <= p + 2 * |g| - 1
  {
    hide IsPeak, HoldsSequence;
    BeaconEndIsPeakIff(f, g, scale, p);
    FirstPeakIsInside(f, g, scale, r);
  }
}
