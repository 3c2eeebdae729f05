/** Element-wise complex products and squared magnitudes, eight floats at a time. */
module ComplexVectors {
  import opened Arithmetic
  import opened Common
  import opened Simd

  /** Signs that negate the imaginary parts (for a conjugate product) or the real parts. */
  function Negations(conj: bool): M256 {
    if conj then [1.0, -1.0, 1.0, -1.0, 1.0, -1.0, 1.0, -1.0]
    else [-1.0, 1.0, -1.0, 1.0, -1.0, 1.0, -1.0, 1.0]
  }

  /** Multiplies four complex numbers by four others, or by their conjugates. */
  function ComplexCf32Mult(data1: M256, data2: M256, conj: bool): M256 {
    var prod0 := MulPs(data1, data2);
    var swapped := PermutePs(MulPs(data2, Negations(conj)), 0xb1);
    var prod1 := MulPs(data1, swapped);
    var res := if conj then HaddPs(prod0, prod1) else HsubPs(prod0, prod1);
    PermutePs(res, 0xd8)
  }

  function Signed(x: real, positive: bool): real { if positive then x else -x }

  lemma SwappedLane(b: M256, conj: bool, k: nat)
    requires k < 4
    ensures var s := PermutePs(MulPs(b, Negations(conj)), 0xb1);
      s[2 * k] == Signed(b[2 * k + 1], !conj) && s[2 * k + 1] == Signed(b[2 * k], conj)
  {
    hide Times;
    TimesSign(b[2 * k], 0.0);
    TimesSign(b[2 * k + 1], 0.0);
  }

  lemma Cf32MultLanes(a: M256, b: M256, conj: bool, k: nat)
    requires k < 4
    ensures Lane(ComplexCf32Mult(a, b, conj), k) == Product(Lane(a, k), Lane(b, k), conj)
  {
    hide Times;
    SwappedLane(b, conj, k);
    TimesSign(a[2 * k], b[2 * k + 1]);
    TimesSign(a[2 * k + 1], b[2 * k]);
    TimesSign(a[2 * k + 1], b[2 * k + 1]);
  }

  ghost predicate ProductsUpTo(a: seq<real>, f: seq<Complex>, g: seq<Complex>, conj: bool, n: nat)
    requires 2 * n <= |a| && n <= |f| && n <= |g|
  {
    forall j | 0 <= j < n :: Complex(a[2 * j], a[2 * j + 1]) == Product(f[j], g[j], conj)
  }

  lemma ProductLane(f: seq<Complex>, g: seq<Complex>, conj: bool, n: nat, k: nat)
    requires n + 4 <= |f| && n + 4 <= |g| && k < 4
    ensures Lane(ComplexCf32Mult(Load(Floats(f), 2 * n), Load(Floats(g), 2 * n), conj), k) ==
      Product(f[n + k], g[n + k], conj)
  {
    hide Product, ComplexCf32Mult, Load, Floats, Lane;
    Cf32MultLanes(Load(Floats(f), 2 * n), Load(Floats(g), 2 * n), conj, k);
    LoadedLane(f, n, k);
    LoadedLane(g, n, k);
  }

  lemma ProductBlock(a: seq<real>, f: seq<Complex>, g: seq<Complex>, conj: bool, n: nat)
    requires 2 * n + 8 <= |a| && n + 4 <= |f| && n + 4 <= |g| && ProductsUpTo(a, f, g, conj, n)
    ensures var r := ComplexCf32Mult(Load(Floats(f), 2 * n), Load(Floats(g), 2 * n), conj);
      ProductsUpTo(Stored(a, 2 * n, r), f, g, conj, n + 4)
  {
    hide Product, ComplexCf32Mult, Load, Floats;
    var r := ComplexCf32Mult(Load(Floats(f), 2 * n), Load(Floats(g), 2 * n), conj);
    var s := Stored(a, 2 * n, r);
    StoredLanes(a, n, r);
    hide Stored, Lane;
    forall j | 0 <= j < n + 4 ensures Complex(s[2 * j], s[2 * j + 1]) == Product(f[j], g[j], conj) {
      if j >= n {
        ProductLane(f, g, conj, n, j - n);
      }
    }
  }

  lemma StoredLanes(a: seq<real>, n: nat, r: M256)
    requires 2 * n + 8 <= |a|
    ensures forall j | 0 <= j < n :: Stored(a, 2 * n, r)[2 * j] == a[2 * j] && Stored(a, 2 * n, r)[2 * j + 1] == a[2 * j + 1]
    ensures forall j | n <= j < n + 4 ::
      Complex(Stored(a, 2 * n, r)[2 * j], Stored(a, 2 * n, r)[2 * j + 1]) == Lane(r, j - n)
  {
  }

  /** For every length, tail included, the result is the element-wise product. */
  method ComplexMultAvx(f: seq<Complex>, g: seq<Complex>, conj: bool) returns (out: seq<Complex>)
    ensures |out| == Min(|f|, |g|)
    ensures forall i | 0 <= i < |out| :: out[i] == Product(f[i], g[i], conj)
  {
    hide ComplexCf32Mult, Product, Stored, Load, Floats, ProductsUpTo;
    NoProducts(f, g, conj);
    var n := Min(|f|, |g|);
    var resLen := 2 * n;
    var in0, in1 := Floats(f), Floats(g);
    var outf := new real[resLen](_ => 0.0);
    var rem := resLen - resLen % AVX_PACKED_SP;
    var i := 0;
    ghost var blocks, b := resLen / AVX_PACKED_SP, 0;
    DivMod(resLen, AVX_PACKED_SP);
    while i < rem
      invariant rem == 8 * blocks && i == 8 * b && b <= blocks
      invariant ProductsUpTo(outf[..], f, g, conj, 4 * b)
    {
      ProductBlock(outf[..], f, g, conj, 4 * b);
      Store(outf, i, ComplexCf32Mult(Load(in0, i), Load(in1, i), conj));
      i, b := i + AVX_PACKED_SP, b + 1;
    }
    i := rem;
    ghost var done := 4 * blocks;
    while i < resLen
      invariant rem <= i <= resLen && i == 2 * done
      invariant ProductsUpTo(outf[..], f, g, conj, done)
    {
      var p := Product(f[i / 2], g[i / 2], conj);
      NextProduct(outf[..], f, g, conj, done);
      ghost var before := outf[..];
      outf[i], outf[i + 1] := p.re, p.im;
      assert outf[..] == before[2 * done := p.re][2 * done + 1 := p.im];
      i, done := i + 2, done + 1;
    }
    out := Complexes(outf[..]);
    AllProducts(outf[..], f, g, conj, n);
  }

  lemma NoProducts(f: seq<Complex>, g: seq<Complex>, conj: bool)
    ensures forall a: seq<real> :: ProductsUpTo(a, f, g, conj, 0)
  {
  }

  lemma NextProduct(a: seq<real>, f: seq<Complex>, g: seq<Complex>, conj: bool, n: nat)
    requires 2 * n + 2 <= |a| && n < |f| && n < |g| && ProductsUpTo(a, f, g, conj, n)
    ensures var p := Product(f[n], g[n], conj);
      ProductsUpTo(a[2 * n := p.re][2 * n + 1 := p.im], f, g, conj, n + 1)
  {
    hide Product;
  }

  lemma AllProducts(a: seq<real>, f: seq<Complex>, g: seq<Complex>, conj: bool, n: nat)
    requires |a| == 2 * n && n <= |f| && n <= |g| && ProductsUpTo(a, f, g, conj, n)
    ensures forall i | 0 <= i < n :: Complexes(a)[i] == Product(f[i], g[i], conj)
  {
    hide Product;
    forall i | 0 <= i < n ensures Complexes(a)[i] == Product(f[i], g[i], conj) {
      assert Complexes(a)[i] == Complex(a[2 * i], a[2 * i + 1]);
    }
  }

  /** The vector `dly` places later: silent at first. */
  function Delayed(f: seq<Complex>, dly: nat, i: nat): Complex
    requires i < |f|
  {
    if i < dly then Zero else f[i - dly]
  }

  ghost predicate IsDelayedProduct(out: seq<Complex>, f: seq<Complex>, dly: nat, conj: bool) {
    |out| == |f| && forall i | 0 <= i < |out| :: out[i] == Product(f[i], Delayed(f, dly, i), conj)
  }

  /** The vector times its copy delayed by `dly`: the first `dly` results are zero. */
  method AutoCorrMultAvx(f: seq<Complex>, dly: nat, conj: bool) returns (out: seq<Complex>)
    requires dly <= |f|
    ensures IsDelayedProduct(out, f, dly, conj)
  {
    var g := seq(dly, _ => Zero) + f[..|f| - dly];
    out := ComplexMultAvx(f, g, conj);
  }

  /** Squares of sixteen floats, added in pairs and put back in order. */
  function Abs2Block(data1: M256, data2: M256): M256 {
    PermuteVar(HaddPs(MulPs(data1, data1), MulPs(data2, data2)), [0, 1, 4, 5, 2, 3, 6, 7])
  }

  lemma Abs2Lanes(data1: M256, data2: M256, k: nat)
    requires k < 8
    ensures Abs2Block(data1, data2)[k] == Abs2(if k < 4 then Lane(data1, k) else Lane(data2, k - 4))
  {
    hide Times;
  }

  ghost predicate IsAbs2(out: seq<real>, f: seq<Complex>) {
    |out| == |f| && forall i | 0 <= i < |f| :: out[i] == Abs2(f[i])
  }

  ghost predicate Abs2UpTo(a: seq<real>, f: seq<Complex>, n: nat)
    requires n <= |a| && n <= |f|
  {
    forall j | 0 <= j < n :: a[j] == Abs2(f[j])
  }

  lemma Abs2Step(a: seq<real>, f: seq<Complex>, n: nat)
    requires n + 8 <= |a| && n + 8 <= |f| && Abs2UpTo(a, f, n)
    ensures Abs2UpTo(Stored(a, n, Abs2Block(Load(Floats(f), 2 * n), Load(Floats(f), 2 * n + 8))), f, n + 8)
  {
    hide Abs2, Abs2Block, Load, Floats;
    var x, y := Load(Floats(f), 2 * n), Load(Floats(f), 2 * n + 8);
    var s := Stored(a, n, Abs2Block(x, y));
    forall j | 0 <= j < n + 8 ensures s[j] == Abs2(f[j]) {
      if j >= n {
        Abs2Lanes(x, y, j - n);
        if j - n < 4 {
          LoadedLane(f, n, j - n);
        } else {
          LoadedLane(f, n + 4, j - n - 4);
        }
      }
    }
  }

  /** For every length, tail included, the result is the element-wise squared magnitude. */
  method Abs2Avx(f: seq<Complex>) returns (out: seq<real>)
    ensures IsAbs2(out, f)
  {
    hide Abs2Block, Times, Stored, Load, Floats;
    var length := 2 * |f|;
    var in_ := Floats(f);
    var outf := new real[|f|](_ => 0.0);
    var rem := length - length % (2 * AVX_PACKED_SP);
    var i := 0;
    ghost var blocks, b := length / (2 * AVX_PACKED_SP), 0;
    DivMod(length, 2 * AVX_PACKED_SP);
    while i < rem
      invariant rem == 16 * blocks && i == 16 * b && b <= blocks
      invariant Abs2UpTo(outf[..], f, 8 * b)
    {
      Abs2Step(outf[..], f, 8 * b);
      Store(outf, i / 2, Abs2Block(Load(in_, i), Load(in_, i + AVX_PACKED_SP)));
      i, b := i + 2 * AVX_PACKED_SP, b + 1;
    }
    i := rem;
    ghost var done := 8 * blocks;
    while i < length
      invariant rem <= i <= length && i == 2 * done
      invariant Abs2UpTo(outf[..], f, done)
    {
      outf[i / 2] := Times(in_[i], in_[i]) + Times(in_[i + 1], in_[i + 1]);
      i, done := i + 2, done + 1;
    }
    out := outf[..];
  }
}
