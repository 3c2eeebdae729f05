/** The two vectorised correlators of the beacon detector, against the sums they stand for. */
module Correlators {
  import opened Arithmetic
  import opened Simd
  import opened ComplexVectors

  /** A signal that is silent outside its recorded samples. */
  function Sample(f: seq<Complex>, m: int): Complex {
    if 0 <= m < |f| then f[m] else Zero
  }

  /** The first `n` terms of the correlation of `f` with `g` at output `i`. */
  function CorrSum(f: seq<Complex>, g: seq<Complex>, i: int, n: nat): Complex
    requires n <= |g|
  {
    if n == 0 then Zero
    else Add(Product(Sample(f, i + n - |g|), g[n - 1], true), CorrSum(f, g, i, n - 1))
  }

  /** Output `i` of the correlation: f[i - |g| + 1 ..= i] against the conjugate of g. */
  function Correlation(f: seq<Complex>, g: seq<Complex>, i: int): Complex {
    CorrSum(f, g, i, |g|)
  }

  // ----- loads of the complex correlator -----

  /** Where the load of step `b`, term `j` ends, counted in floats. */
  function ComplexLoadEnd(b: nat, j: nat): nat { 8 * b + 2 * j + 8 }

  /** Every load of the complex correlator lies inside its padded input of `p + l - 1` numbers. */
  ghost predicate ComplexLoadsFit(p: nat, l: nat) {
    forall b: nat, j: nat | 8 * b < 2 * (p - 1) && j < l :: ComplexLoadEnd(b, j) <= 2 * (p + l - 1)
  }

  /** The loads fit exactly for these lengths; for a multiple of four the last one ends on the last float. */
  lemma ComplexLoadsFitIff(p: nat, l: nat)
    requires 2 <= p && 0 < l
    ensures ComplexLoadsFit(p, l) <==> p % 4 == 0 || p % 4 == 1
    ensures p % 4 == 0 ==> exists b: nat, j: nat :: 8 * b < 2 * (p - 1) && j < l && ComplexLoadEnd(b, j) == 2 * (p + l - 1)
  {
    var b: nat, j: nat := (p - 2) / 4, l - 1;
    assert 8 * b < 2 * (p - 1) && j < l;
    assert ComplexLoadsFit(p, l) ==> ComplexLoadEnd(b, j) <= 2 * (p + l - 1);
  }

  lemma SequenceLane(i: real, q: real, k: nat)
    requires k < 4
    ensures Lane(PermutePs(ShufflePs(Broadcast(i), Broadcast(q), 0x0), 0xd8), k) == Complex(i, q)
  {
  }

  /** The input is `f` behind `|g| - 1` silent samples, so reading it at `m` reads `f` that much earlier. */
  ghost predicate IsPadded(input: seq<Complex>, f: seq<Complex>, l: nat) {
    && |input| == |f| + l - 1
    && forall m | 0 <= m < |input| :: input[m] == Sample(f, m - l + 1)
  }

  /** The accumulator holds the first `n` terms of outputs `i` to `i + 3`. */
  ghost predicate Accumulated(accm: M256, f: seq<Complex>, g: seq<Complex>, i: nat, n: nat)
    requires n <= |g|
  {
    forall k | 0 <= k < 4 :: Lane(accm, k) == CorrSum(f, g, i + k, n)
  }

  lemma NothingAccumulated(f: seq<Complex>, g: seq<Complex>, i: nat)
    ensures Accumulated(SetZero(), f, g, i, 0)
  {
    forall k | 0 <= k < 4 ensures Lane(SetZero(), k) == CorrSum(f, g, i + k, 0) {
    }
  }

  lemma AccumulateLane(input: seq<Complex>, f: seq<Complex>, g: seq<Complex>, c: M256, accm: M256, i: nat, j: nat, k: nat)
    requires j < |g| && k < 4 && IsPadded(input, f, |g|) && i + j + 4 <= |input|
    requires Lane(c, k) == g[j] && Lane(accm, k) == CorrSum(f, g, i + k, j)
    ensures Lane(AddPs(ComplexCf32Mult(Load(Floats(input), 2 * (i + j)), c, true), accm), k) == CorrSum(f, g, i + k, j + 1)
  {
    hide ComplexCf32Mult, Product, Load, Floats;
    var data := Load(Floats(input), 2 * (i + j));
    Cf32MultLanes(data, c, true, k);
    LoadedLane(input, i + j, k);
    assert input[i + j + k] == Sample(f, i + k + (j + 1) - |g|);
  }

  lemma AccumulateTerm(input: seq<Complex>, f: seq<Complex>, g: seq<Complex>, c: M256, accm: M256, i: nat, j: nat)
    requires j < |g| && IsPadded(input, f, |g|) && i + j + 4 <= |input|
    requires (forall k | 0 <= k < 4 :: Lane(c, k) == g[j]) && Accumulated(accm, f, g, i, j)
    ensures Accumulated(AddPs(ComplexCf32Mult(Load(Floats(input), 2 * (i + j)), c, true), accm), f, g, i, j + 1)
  {
    hide ComplexCf32Mult, Load, Floats, AddPs, CorrSum;
    var sum := AddPs(ComplexCf32Mult(Load(Floats(input), 2 * (i + j)), c, true), accm);
    forall k | 0 <= k < 4 ensures Lane(sum, k) == CorrSum(f, g, i + k, j + 1) {
      assert Lane(c, k) == g[j] && Lane(accm, k) == CorrSum(f, g, i + k, j);
      AccumulateLane(input, f, g, c, accm, i, j, k);
    }
  }

  /** Outputs 0 up to `n` are the correlation sums. */
  ghost predicate CorrelatedUpTo(a: seq<real>, f: seq<Complex>, g: seq<Complex>, n: nat)
    requires 2 * n <= |a|
  {
    forall i | 0 <= i < n :: Complex(a[2 * i], a[2 * i + 1]) == Correlation(f, g, i)
  }

  ghost predicate SilentFrom(a: seq<real>, from: nat) {
    forall i | from <= i < |a| :: a[i] == 0.0
  }

  lemma CorrelatedBlock(a: seq<real>, f: seq<Complex>, g: seq<Complex>, n: nat, accm: M256)
    requires 2 * n + 8 <= |a| && CorrelatedUpTo(a, f, g, n) && SilentFrom(a, 2 * n)
    requires Accumulated(accm, f, g, n, |g|)
    ensures CorrelatedUpTo(Stored(a, 2 * n, accm), f, g, n + 4)
    ensures SilentFrom(Stored(a, 2 * n, accm), 2 * n + 8)
  {
    hide CorrSum;
    var s := Stored(a, 2 * n, accm);
    forall i | 0 <= i < n + 4 ensures Complex(s[2 * i], s[2 * i + 1]) == Correlation(f, g, i) {
      if i >= n {
        assert Lane(accm, i - n) == CorrSum(f, g, n + (i - n), |g|);
      }
    }
  }

  method PadFront(f: seq<Complex>, l: nat) returns (input: seq<Complex>)
    requires 0 < l
    ensures IsPadded(input, f, l)
  {
    var in_ := new Complex[|f| + l - 1](_ => Zero);
    for i := l - 1 to in_.Length
      invariant forall m | 0 <= m < i :: in_[m] == Sample(f, m - l + 1)
      invariant forall m | i <= m < in_.Length :: in_[m] == Zero
    {
      in_[i] := f[i - l + 1];
    }
    input := in_[..];
  }

  /** One register per number of the sequence, holding it four times over. */
  method BroadcastSequence(g: seq<Complex>) returns (seqSamp: seq<M256>)
    ensures |seqSamp| == |g|
    ensures forall j, k | 0 <= j < |g| && 0 <= k < 4 :: Lane(seqSamp[j], k) == g[j]
  {
    hide PermutePs, ShufflePs, Broadcast, Lane;
    var in1 := Floats(g);
    seqSamp := [];
    for i := 0 to |g|
      invariant |seqSamp| == i
      invariant forall j, k | 0 <= j < i && 0 <= k < 4 :: Lane(seqSamp[j], k) == g[j]
    {
      var samp := ShufflePs(Broadcast(in1[i * 2]), Broadcast(in1[i * 2 + 1]), 0x0);
      seqSamp := seqSamp + [PermutePs(samp, 0xd8)];
      forall k | 0 <= k < 4 ensures Lane(seqSamp[i], k) == g[i] {
        SequenceLane(in1[i * 2], in1[i * 2 + 1], k);
      }
    }
  }

  /** Correlation sums at the positions of `f`, silence in the `|g| - 1` places after it. */
  ghost predicate IsCorrelation(out: seq<Complex>, f: seq<Complex>, g: seq<Complex>) {
    && 0 < |g| && |out| == |f| + |g| - 1
    && (forall i | 0 <= i < |f| :: out[i] == Correlation(f, g, i))
    && (forall i | |f| <= i < |out| :: out[i] == Zero)
  }

  /** Correlates `f` with the conjugate of `g`.  The outputs at and beyond `|f|` are never computed. */
  method CorrelateAvx(f: seq<Complex>, g: seq<Complex>) returns (out: seq<Complex>)
    requires 0 < |g| && 0 < |f| && |f| % 4 == 0
    ensures IsCorrelation(out, f, g)
  {
    hide ComplexCf32Mult, Stored, Load, AddPs, Floats, Lane, Accumulated, Correlation, CorrelatedUpTo, SilentFrom, IsPadded;
    var length1 := |g|;
    var input := PadFront(f, length1);
    var length := |input|;
    var in0 := Floats(input);
    var outf := new real[2 * length](_ => 0.0);
    var seqSamp := BroadcastSequence(g);
    NothingCorrelated(outf[..], f, g);
    PaddedLength(input, f, length1);

    var i := 0;
    ghost var blocks, done := |f| / 4, 0;
    assert |f| == 4 * blocks;
    ghost var b := 0;
    while i < 2 * (length - length1)
      invariant i == 2 * done && done == 4 * b && b <= blocks
      invariant CorrelatedUpTo(outf[..], f, g, done) && SilentFrom(outf[..], i)
    {
      var accm := SetZero();
      NothingAccumulated(f, g, done);
      ghost var before := outf[..];
      for j := 0 to length1
        modifies {}
        invariant outf[..] == before && Accumulated(accm, f, g, done, j)
      {
        AccumulateTerm(input, f, g, seqSamp[j], accm, done, j);
        accm := AddPs(ComplexCf32Mult(Load(in0, i + j * 2), seqSamp[j], true), accm);
      }
      CorrelatedBlock(outf[..], f, g, done, accm);
      Store(outf, i, accm);
      i, done, b := i + AVX_PACKED_SP, done + 4, b + 1;
    }
    AllCorrelated(outf[..], f, g);
    out := Complexes(outf[..]);
  }

  lemma PaddedLength(input: seq<Complex>, f: seq<Complex>, l: nat)
    requires IsPadded(input, f, l)
    ensures |input| == |f| + l - 1
  {
  }

  lemma NothingCorrelated(a: seq<real>, f: seq<Complex>, g: seq<Complex>)
    requires forall i | 0 <= i < |a| :: a[i] == 0.0
    ensures CorrelatedUpTo(a, f, g, 0) && SilentFrom(a, 0)
  {
  }

  lemma AllCorrelated(a: seq<real>, f: seq<Complex>, g: seq<Complex>)
    requires 2 * |f| <= |a| && |a| % 2 == 0 && CorrelatedUpTo(a, f, g, |f|) && SilentFrom(a, 2 * |f|)
    ensures forall i | 0 <= i < |f| :: Complexes(a)[i] == Correlation(f, g, i)
    ensures forall i | |f| <= i < |a| / 2 :: Complexes(a)[i] == Zero
  {
    hide Correlation;
    forall i | 0 <= i < |f| ensures Complexes(a)[i] == Correlation(f, g, i) {
      assert Complexes(a)[i] == Complex(a[2 * i], a[2 * i + 1]);
    }
  }

  // ----- the real correlator of the threshold -----

  /** The first `n` terms of the windowed sum at output `i`: f[i - |g|] up to f[i - 1], weighted by g. */
  function WindowSum(f: seq<real>, g: seq<real>, i: int, n: nat): real
    requires n <= |g|
  {
    if n == 0 then 0.0
    else Times(RealSample(f, i + n - 1 - |g|), g[n - 1]) + WindowSum(f, g, i, n - 1)
  }

  function RealSample(f: seq<real>, m: int): real {
    if 0 <= m < |f| then f[m] else 0.0
  }

  function Padding(n: nat): nat { AVX_PACKED_SP - n % AVX_PACKED_SP }

  function RealLoadEnd(b: nat, j: nat): nat { 8 * b + j + 8 }

  /** Every load of the real correlator lies inside its input of `n + l` floats. */
  ghost predicate RealLoadsFit(n: nat, l: nat) {
    forall b: nat, j: nat | 8 * b < n + Padding(n) - 1 && j < l :: RealLoadEnd(b, j) <= n + l
  }

  lemma RealLoadsFitIff(n: nat, l: nat)
    requires 0 < l
    ensures RealLoadsFit(n, l) <==> n % 8 == 7
    ensures n % 8 == 7 ==> exists b: nat, j: nat :: 8 * b < n + Padding(n) - 1 && j < l && RealLoadEnd(b, j) == n + l
  {
    var b: nat, j: nat := (n + Padding(n)) / 8 - 1, l - 1;
    assert 8 * b == n + Padding(n) - 8 && j < l;
    assert RealLoadsFit(n, l) ==> RealLoadEnd(b, j) <= n + l;
  }

  ghost predicate WindowAccumulated(accm: M256, f: seq<real>, g: seq<real>, i: nat, n: nat)
    requires n <= |g|
  {
    forall k | 0 <= k < 8 :: accm[k] == WindowSum(f, g, i + k, n)
  }

  lemma WindowTerm(input: seq<real>, f: seq<real>, g: seq<real>, accm: M256, i: nat, j: nat)
    requires j < |g| && i + j + 8 <= |input| && WindowAccumulated(accm, f, g, i, j)
    requires |input| == |f| + |g| && forall m | 0 <= m < |input| :: input[m] == RealSample(f, m - |g|)
    ensures WindowAccumulated(AddPs(MulPs(Load(input, i + j), Broadcast(g[j])), accm), f, g, i, j + 1)
  {
    hide Times;
    var sum := AddPs(MulPs(Load(input, i + j), Broadcast(g[j])), accm);
    forall k | 0 <= k < 8 ensures sum[k] == WindowSum(f, g, i + k, j + 1) {
      assert input[i + j + k] == RealSample(f, i + k + j - |g|);
    }
  }

  method PadFrontReal(f: seq<real>, l: nat) returns (input: seq<real>)
    ensures |input| == |f| + l && forall m | 0 <= m < |input| :: input[m] == RealSample(f, m - l)
  {
    var in_ := new real[|f| + l](_ => 0.0);
    for i := l to in_.Length
      invariant forall m | 0 <= m < i :: in_[m] == RealSample(f, m - l)
    {
      in_[i] := f[i - l];
    }
    input := in_[..];
  }

  ghost predicate WindowedUpTo(a: seq<real>, f: seq<real>, g: seq<real>, n: nat)
    requires n <= |a|
  {
    forall i | 0 <= i < n :: a[i] == WindowSum(f, g, i, |g|)
  }

  lemma WindowedBlock(a: seq<real>, f: seq<real>, g: seq<real>, n: nat, accm: M256)
    requires n + 8 <= |a| && WindowedUpTo(a, f, g, n) && WindowAccumulated(accm, f, g, n, |g|)
    ensures WindowedUpTo(Stored(a, n, accm), f, g, n + 8)
  {
    hide WindowSum;
    var s := Stored(a, n, accm);
    forall i | 0 <= i < n + 8 ensures s[i] == WindowSum(f, g, i, |g|) {
      if i >= n {
        assert accm[i - n] == WindowSum(f, g, n + (i - n), |g|);
      }
    }
  }

  ghost predicate IsWindowSums(out: seq<real>, f: seq<real>, g: seq<real>) {
    |out| == |f| && forall i | 0 <= i < |f| :: out[i] == WindowSum(f, g, i, |g|)
  }

  /** The weighted sum of the `|g|` values before each position. */
  method CorrelateAvxS(f: seq<real>, g: seq<real>) returns (out: seq<real>)
    requires |g| < |f| && |f| % AVX_PACKED_SP == 7
    ensures IsWindowSums(out, f, g)
  {
    hide Stored, Load, WindowSum, AddPs, MulPs, Broadcast;
    var input := PadFrontReal(f, |g|);
    var seqSamp: seq<M256> := [];
    for i := 0 to |g|
      invariant |seqSamp| == i && forall j | 0 <= j < i :: seqSamp[j] == Broadcast(g[j])
    {
      seqSamp := seqSamp + [Broadcast(g[i])];
    }
    var outf := new real[|f| + Padding(|f|)](_ => 0.0);
    var i := 0;
    ghost var blocks, b := |f| / AVX_PACKED_SP + 1, 0;
    DivMod(|f|, AVX_PACKED_SP);
    while i < outf.Length - 1
      invariant outf.Length == 8 * blocks && i == 8 * b && b <= blocks
      invariant WindowedUpTo(outf[..], f, g, i)
    {
      var accm := SetZero();
      assert WindowAccumulated(accm, f, g, i, 0) by { NoWindow(f, g, i); }
      for j := 0 to |g|
        modifies {}
        invariant WindowAccumulated(accm, f, g, i, j)
      {
        WindowTerm(input, f, g, accm, i, j);
        accm := AddPs(MulPs(Load(input, i + j), seqSamp[j]), accm);
      }
      WindowedBlock(outf[..], f, g, i, accm);
      Store(outf, i, accm);
      i, b := i + AVX_PACKED_SP, b + 1;
    }
    out := outf[..][..|f|];
  }

  lemma NoWindow(f: seq<real>, g: seq<real>, i: nat)
    ensures WindowAccumulated(SetZero(), f, g, i, 0)
  {
    forall k | 0 <= k < 8 ensures SetZero()[k] == WindowSum(f, g, i + k, 0) {
    }
  }
}
