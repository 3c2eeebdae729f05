/** Beacon detection: the vectorised pipeline against the direct definition of a beacon peak. */
module BeaconDetector {
  import opened Arithmetic
  import opened Simd
  import opened ComplexVectors
  import opened Correlators

  /** The correlation with the sequence inside the window, nothing outside it. */
  function WindowCorr(f: seq<Complex>, g: seq<Complex>, i: int): Complex {
    if 0 <= i < |f| then Correlation(f, g, i) else Zero
  }

  /** The correlation energy at positions `lo` up to, not including, `hi`. */
  function Energy(f: seq<Complex>, g: seq<Complex>, lo: int, hi: int): (e: real)
    ensures e >= 0.0
    decreases hi - lo
  {
    if hi <= lo then 0.0 else Energy(f, g, lo, hi - 1) + Abs2(WindowCorr(f, g, hi - 1))
  }

  /** The two repetitions of the sequence both end where they should: the scaled product of the
      correlation and its copy one sequence earlier exceeds the energy of the last sequence length. */
  predicate IsPeak(f: seq<Complex>, g: seq<Complex>, scale: real, i: int) {
    Times(scale, Abs2(Mul(WindowCorr(f, g, i), WindowCorr(f, g, i - |g|)))) > Energy(f, g, i - |g|, i)
  }

  /** `r` is the first peak, or -1 when there is none anywhere. */
  ghost predicate IsFirstPeak(f: seq<Complex>, g: seq<Complex>, scale: real, r: int) {
    && (forall i | 0 <= i && (r < 0 || i < r) :: !IsPeak(f, g, scale, i))
    && (r == -1 || (0 <= r && IsPeak(f, g, scale, r)))
  }

  lemma ZeroProduct(x: Complex)
    ensures Abs2(Mul(x, Zero)) == 0.0 && Abs2(Mul(Zero, x)) == 0.0
  {
  }

  lemma ZeroMagnitude()
    ensures Abs2(Zero) == 0.0
  {
  }

  /** A peak lies in the window, at least one sequence after its start. */
  lemma PeakIsInside(f: seq<Complex>, g: seq<Complex>, scale: real, i: int)
    requires IsPeak(f, g, scale, i)
    ensures |g| <= i < |f|
  {
    hide Correlation, Mul, Abs2, Energy;
    if i - |g| < 0 {
      ZeroProduct(WindowCorr(f, g, i));
    } else if i >= |f| {
      ZeroProduct(WindowCorr(f, g, i - |g|));
    }
  }

  /** Whether the delayed copy is conjugated makes no difference to the magnitude. */
  lemma ConjugateDoesNotMatter(a: Complex, b: Complex, conj: bool)
    ensures Abs2(Product(a, b, conj)) == Abs2(Mul(a, b))
  {
    ProductMagnitude(a, b, conj);
    ProductMagnitude(a, b, false);
  }

  ghost predicate AreOnes(ones: seq<real>, n: nat) {
    |ones| == n && forall k | 0 <= k < n :: ones[k] == 1.0
  }

  function Ones(n: nat): (ones: seq<real>)
    ensures |ones| == n && AreOnes(ones, n)
  {
    seq(n, _ => 1.0)
  }

  ghost predicate IsMagnitude(abs2: seq<real>, f: seq<Complex>, g: seq<Complex>) {
    |f| <= |abs2| && forall m | 0 <= m < |abs2| :: abs2[m] == Abs2(WindowCorr(f, g, m))
  }

  lemma MagnitudeSample(f: seq<Complex>, g: seq<Complex>, abs2: seq<real>, m: int)
    requires IsMagnitude(abs2, f, g) && m < |abs2|
    ensures RealSample(abs2, m) == Abs2(WindowCorr(f, g, m))
  {
    hide Correlation, Abs2;
    if m < 0 {
      ZeroMagnitude();
    }
  }

  lemma WindowSumUnfolds(abs2: seq<real>, ones: seq<real>, i: int, n: nat, m: int)
    requires 0 < n <= |ones| && m == i - |ones| + n - 1
    ensures WindowSum(abs2, ones, i, n) == Times(RealSample(abs2, m), ones[n - 1]) + WindowSum(abs2, ones, i, n - 1)
  {
    hide RealSample, Times;
  }

  lemma EnergyUnfolds(f: seq<Complex>, g: seq<Complex>, lo: int, m: int)
    requires lo <= m
    ensures Energy(f, g, lo, m + 1) == Energy(f, g, lo, m) + Abs2(WindowCorr(f, g, m))
  {
    hide Abs2, WindowCorr;
  }

  lemma {:induction false} WindowIsEnergy(f: seq<Complex>, g: seq<Complex>, abs2: seq<real>, ones: seq<real>, i: int, n: nat)
    requires AreOnes(ones, |g|) && n <= |g|
    requires IsMagnitude(abs2, f, g) && i <= |abs2|
    ensures WindowSum(abs2, ones, i, n) == Energy(f, g, i - |g|, i - |g| + n)
    decreases n
  {
    hide IsMagnitude, Times, Abs2, WindowCorr, RealSample;
    if n > 0 {
      var m := i - |g| + n - 1;
      WindowIsEnergy(f, g, abs2, ones, i, n - 1);
      WindowSumUnfolds(abs2, ones, i, n, m);
      EnergyUnfolds(f, g, i - |g|, m);
      MagnitudeSample(f, g, abs2, m);
      TimesSign(RealSample(abs2, m), 0.0);
    }
  }

  /** A padded window and a sequence of whole registers give the threshold correlator a length it can load. */
  lemma OutputLength(p: nat, l: nat)
    requires 0 < p && p % 64 == 0 && l % 8 == 0
    ensures p % 4 == 0 && (p + l - 1) % 8 == 7 && l < p + l - 1
  {
    var q, r := p / 64, l / 8;
    assert p == 64 * q && l == 8 * r;
    DivModUnique(p, 4, 16 * q, 0);
    DivModUnique(p + l - 1, 8, 8 * q + r - 1, 7);
  }

  lemma CorrelationLength(out: seq<Complex>, f: seq<Complex>, g: seq<Complex>)
    requires IsCorrelation(out, f, g)
    ensures |out| == |f| + |g| - 1
  {
  }

  lemma Abs2Length(out: seq<real>, f: seq<Complex>)
    requires IsAbs2(out, f)
    ensures |out| == |f|
  {
  }

  ghost predicate TestsForPeak(f: seq<Complex>, g: seq<Complex>, scale: real, corr2: seq<real>, thresh: seq<real>) {
    && |f| <= |corr2| == |thresh|
    && forall i | 0 <= i < |corr2| :: IsPeak(f, g, scale, i) <==> Times(scale, corr2[i]) > thresh[i]
  }

  /** The pipeline up to the comparison: squared products, and the thresholds they are held against. */
  method Measure(rawSamples: seq<Complex>, matchSamples: seq<Complex>, ghost corrScale: real, conj: bool)
    returns (goldCorr2: seq<real>, thresh: seq<real>)
    requires 0 < |rawSamples| && |rawSamples| % 64 == 0
    requires 0 < |matchSamples| && |matchSamples| % 8 == 0
    ensures TestsForPeak(rawSamples, matchSamples, corrScale, goldCorr2, thresh)
  {
    hide AreOnes, TestsForPeak, IsCorrelation, IsDelayedProduct, IsAbs2, IsWindowSums;
    var seqLen := |matchSamples|;
    var consts1 := Ones(seqLen);
    OutputLength(|rawSamples|, seqLen);
    var goldCorr := CorrelateAvx(rawSamples, matchSamples);
    CorrelationLength(goldCorr, rawSamples, matchSamples);
    var goldAutoCorr := AutoCorrMultAvx(goldCorr, seqLen, conj);
    goldCorr2 := Abs2Avx(goldAutoCorr);
    var corrAbs := Abs2Avx(goldCorr);
    Abs2Length(corrAbs, goldCorr);
    thresh := CorrelateAvxS(corrAbs, consts1);
    ThresholdsFindPeaks(rawSamples, matchSamples, corrScale, conj, goldCorr, goldAutoCorr, goldCorr2, consts1, corrAbs,
                        thresh);
  }

  /** The detector returns the first peak of the window. */
  method FindBeaconAvx(rawSamples: seq<Complex>, matchSamples: seq<Complex>, corrScale: real, conj: bool)
    returns (r: int)
    requires 0 < |rawSamples| && |rawSamples| % 64 == 0
    requires 0 < |matchSamples| && |matchSamples| % 8 == 0
    ensures IsFirstPeak(rawSamples, matchSamples, corrScale, r)
  {
    hide IsPeak, Times, IsFirstPeak;
    var goldCorr2, thresh := Measure(rawSamples, matchSamples, corrScale, conj);
    r := FirstAbove(goldCorr2, thresh, corrScale);
    FirstAboveIsFirstPeak(rawSamples, matchSamples, corrScale, goldCorr2, thresh, r);
  }

  lemma FirstAboveIsFirstPeak(f: seq<Complex>, g: seq<Complex>, scale: real, corr2: seq<real>, thresh: seq<real>, r: int)
    requires TestsForPeak(f, g, scale, corr2, thresh) && -1 <= r < |corr2|
    requires r != -1 ==> Times(scale, corr2[r]) > thresh[r]
    requires forall i | 0 <= i < |corr2| && (r == -1 || i < r) :: Times(scale, corr2[i]) <= thresh[i]
    ensures IsFirstPeak(f, g, scale, r)
  {
    hide IsPeak, Times;
    forall i | 0 <= i && (r < 0 || i < r) ensures !IsPeak(f, g, scale, i) {
      if IsPeak(f, g, scale, i) {
        PeakIsInside(f, g, scale, i);
      }
    }
  }

  /** Whatever the detector returns, other than -1, is a place where the sequence has already been heard. */
  lemma FirstPeakIsInside(f: seq<Complex>, g: seq<Complex>, scale: real, r: int)
    requires IsFirstPeak(f, g, scale, r)
    ensures r == -1 || |g| <= r < |f|
  {
    if r != -1 {
      PeakIsInside(f, g, scale, r);
    }
  }

  /** Queues every position above its threshold and takes the first, or -1 from an empty queue. */
  method FirstAbove(corr2: seq<real>, thresh: seq<real>, corrScale: real) returns (r: int)
    requires |corr2| == |thresh|
    ensures -1 <= r < |corr2|
    ensures r != -1 ==> Times(corrScale, corr2[r]) > thresh[r]
    ensures forall i | 0 <= i < |corr2| && (r == -1 || i < r) :: Times(corrScale, corr2[i]) <= thresh[i]
  {
    hide Times;
    var validPeaks: seq<int> := [];
    for i := 0 to |corr2|
      invariant forall a | 0 <= a < |validPeaks| ::
        0 <= validPeaks[a] < i && Times(corrScale, corr2[validPeaks[a]]) > thresh[validPeaks[a]]
      invariant forall j | 0 <= j < i && Times(corrScale, corr2[j]) > thresh[j] :: j in validPeaks
      invariant forall a, b | 0 <= a < b < |validPeaks| :: validPeaks[a] < validPeaks[b]
    {
      if Times(corrScale, corr2[i]) > thresh[i] {
        validPeaks := validPeaks + [i];
      }
    }
    if validPeaks == [] {
      validPeaks := [-1];
    }
    r := validPeaks[0];
  }

  lemma ThresholdIsPeak(f: seq<Complex>, g: seq<Complex>, scale: real, conj: bool, corr: seq<Complex>,
                        abs2: seq<real>, ones: seq<real>, i: nat)
    requires 0 < |g| && |corr| == |f| + |g| - 1 == |abs2| && i < |corr|
    requires IsMagnitude(abs2, f, g)
    requires forall m | 0 <= m < |corr| :: corr[m] == WindowCorr(f, g, m)
    requires AreOnes(ones, |g|)
    ensures IsPeak(f, g, scale, i) <==>
      Times(scale, Abs2(Product(corr[i], Delayed(corr, |g|, i), conj))) > WindowSum(abs2, ones, i, |g|)
  {
    hide Correlation, Abs2, Mul, Product, Times, Energy, WindowSum, IsMagnitude;
    assert Delayed(corr, |g|, i) == WindowCorr(f, g, i - |g|);
    WindowIsEnergy(f, g, abs2, ones, i, |g|);
    ConjugateDoesNotMatter(corr[i], Delayed(corr, |g|, i), conj);
  }

  /** The stages of the pipeline together test every position for a peak. */
  lemma ThresholdsFindPeaks(f: seq<Complex>, g: seq<Complex>, scale: real, conj: bool, corr: seq<Complex>,
                            auto: seq<Complex>, corr2: seq<real>, ones: seq<real>, abs2: seq<real>, thresh: seq<real>)
    requires 0 < |g| && IsCorrelation(corr, f, g)
    requires IsDelayedProduct(auto, corr, |g|, conj) && IsAbs2(corr2, auto)
    requires AreOnes(ones, |g|)
    requires IsAbs2(abs2, corr) && IsWindowSums(thresh, abs2, ones)
    ensures TestsForPeak(f, g, scale, corr2, thresh)
  {
    hide Correlation, Abs2, Product, Times, WindowSum, IsPeak, Delayed;
    assert forall m | 0 <= m < |corr| :: corr[m] == WindowCorr(f, g, m);
    assert IsMagnitude(abs2, f, g);
    forall i | 0 <= i < |corr2| ensures IsPeak(f, g, scale, i) <==> Times(scale, corr2[i]) > thresh[i] {
      ThresholdIsPeak(f, g, scale, conj, corr, abs2, ones, i);
    }
  }

  // ----- the detector on raw samples -----

  const SHORT_MAX := 32767.0

  function PaddedWindow(checkWindow: nat): nat { (checkWindow / 64 + 1) * 64 }

  /** Raw 16-bit samples as fractions of full scale, followed by silence. */
  function SyncCompare(raw: seq<(int, int)>): (f: seq<Complex>)
    ensures |f| == PaddedWindow(|raw|) > |raw|
  {
    seq(PaddedWindow(|raw|), i requires 0 <= i =>
      if i < |raw| then Complex(raw[i].0 as real / SHORT_MAX, raw[i].1 as real / SHORT_MAX) else Zero)
  }

  /** `f` is the raw samples, I in the real and Q in the imaginary part, with 32767 for full scale; then silence up to the
      next multiple of 64, at least one sample of it. */
  ghost predicate IsSyncCompare(f: seq<Complex>, raw: seq<(int, int)>) {
    && |f| % 64 == 0 && |raw| < |f| <= |raw| + 64
    && (forall i | 0 <= i < |raw| ::
          Times(f[i].re, 32767.0) == raw[i].0 as real && Times(f[i].im, 32767.0) == raw[i].1 as real)
    && (forall i | |raw| <= i < |f| :: f[i] == Complex(0.0, 0.0))
  }

  /** Only one vector is. */
  lemma SyncCompareUnique(f: seq<Complex>, raw: seq<(int, int)>)
    ensures IsSyncCompare(f, raw) <==> f == SyncCompare(raw)
  {
    var g := SyncCompare(raw);
    assert IsSyncCompare(g, raw);
    if IsSyncCompare(f, raw) {
      assert |f| == |g|;
      forall i | 0 <= i < |f| ensures f[i] == g[i] {
        if i < |raw| {
          ScaledUnique(f[i].re, raw[i].0 as real);
          ScaledUnique(f[i].im, raw[i].1 as real);
        }
      }
    }
  }

  lemma ScaledUnique(x: real, y: real)
    requires Times(x, 32767.0) == y
    ensures x == y / 32767.0
  {
  }

  /** For any window length, the detector finds the first peak of the samples followed by silence. */
  method FindBeaconRaw(raw: seq<(int, int)>, matchSamples: seq<Complex>, corrScale: real, conj: bool)
    returns (r: int)
    requires 0 < |matchSamples| && |matchSamples| % 8 == 0
    ensures forall f | IsSyncCompare(f, raw) :: IsFirstPeak(f, matchSamples, corrScale, r)
    ensures IsSyncCompare(SyncCompare(raw), raw)
  {
    var padded := PaddedWindow(|raw|);
    var syncCompare := new Complex[padded](_ => Zero);
    for i := 0 to |raw|
      invariant forall k | 0 <= k < i :: syncCompare[k] == SyncCompare(raw)[k]
      invariant forall k | i <= k < padded :: syncCompare[k] == Zero
    {
      syncCompare[i] := Complex(raw[i].0 as real / SHORT_MAX, raw[i].1 as real / SHORT_MAX);
    }
    assert syncCompare[..] == SyncCompare(raw);
    forall f ensures IsSyncCompare(f, raw) <==> f == SyncCompare(raw) {
      SyncCompareUnique(f, raw);
    }
    r := FindBeaconAvx(syncCompare[..], matchSamples, corrScale, conj);
  }
}
