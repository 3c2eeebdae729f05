/** Complex numbers over the reals, and the 256-bit single-precision register operations that the
    vector code uses, with floats idealised to reals. */
module Simd {

  datatype Complex = Complex(re: real, im: real)

  const Zero := Complex(0.0, 0.0)

  /** Multiplication by name, so that proofs about where a product goes can leave it unexpanded. */
  function Times(x: real, y: real): real { x * y }

  lemma TimesSign(x: real, y: real)
    ensures Times(x, -y) == -Times(x, y) && Times(-x, y) == -Times(x, y)
    ensures Times(x, 1.0) == x && Times(x, -1.0) == -x
  {
  }

  function Add(a: Complex, b: Complex): Complex { Complex(a.re + b.re, a.im + b.im) }

  function Mul(a: Complex, b: Complex): Complex {
    Complex(Times(a.re, b.re) - Times(a.im, b.im), Times(a.re, b.im) + Times(a.im, b.re))
  }

  function Conj(a: Complex): Complex { Complex(a.re, -a.im) }

  function Abs2(a: Complex): (m: real)
    ensures m >= 0.0
  {
    Times(a.re, a.re) + Times(a.im, a.im)
  }

  /** The product that the vector code is asked for: `a` times `b`, or times the conjugate of `b`. */
  function Product(a: Complex, b: Complex, conj: bool): Complex {
    Mul(a, if conj then Conj(b) else b)
  }

  lemma ProductMagnitude(a: Complex, b: Complex, conj: bool)
    ensures Abs2(Product(a, b, conj)) == Abs2(a) * Abs2(b)
  {
    var p := Product(a, b, conj);
    var x, y, u, v := a.re, a.im, b.re, b.im;
    assert (x * u) * (x * u) == (x * x) * (u * u);
    assert (x * v) * (x * v) == (x * x) * (v * v);
    assert (y * u) * (y * u) == (y * y) * (u * u);
    assert (y * v) * (y * v) == (y * y) * (v * v);
    assert (x * u) * (y * v) == (x * v) * (y * u);
  }

  // ----- registers -----

  type M256 = r: seq<real> | |r| == 8 witness [0.0, 0.0, 0.0, 0.0, 0.0, 0.0, 0.0, 0.0]

  const AVX_PACKED_SP := 8

  function Load(a: seq<real>, i: nat): M256
    requires i + 8 <= |a|
  {
    a[i..i + 8]
  }

  /** An array's contents after eight floats have been stored at `i`. */
  function Stored(a: seq<real>, i: nat, r: M256): (s: seq<real>)
    requires i + 8 <= |a|
    ensures |s| == |a|
  {
    a[..i] + r + a[i + 8..]
  }

  method Store(a: array<real>, i: nat, r: M256)
    requires i + 8 <= a.Length
    modifies a
    ensures a[..] == Stored(old(a[..]), i, r)
  {
    for k := 0 to 8
      invariant forall j | 0 <= j < k :: a[i + j] == r[j]
      invariant forall j | 0 <= j < a.Length && !(i <= j < i + k) :: a[j] == old(a[j])
    {
      a[i + k] := r[k];
    }
    assert forall j | i <= j < i + 8 :: a[j] == r[j - i] by {
      forall j | i <= j < i + 8 ensures a[j] == r[j - i] {
        assert a[i + (j - i)] == r[j - i];
      }
    }
  }

  function SetZero(): M256 { [0.0, 0.0, 0.0, 0.0, 0.0, 0.0, 0.0, 0.0] }

  function Broadcast(x: real): M256 { [x, x, x, x, x, x, x, x] }

  function MulPs(a: M256, b: M256): M256 {
    [Times(a[0], b[0]), Times(a[1], b[1]), Times(a[2], b[2]), Times(a[3], b[3]),
     Times(a[4], b[4]), Times(a[5], b[5]), Times(a[6], b[6]), Times(a[7], b[7])]
  }

  function AddPs(a: M256, b: M256): M256 {
    [a[0] + b[0], a[1] + b[1], a[2] + b[2], a[3] + b[3], a[4] + b[4], a[5] + b[5], a[6] + b[6], a[7] + b[7]]
  }

  /** Horizontal sums of adjacent pairs, per 128-bit half: two from `a`, then two from `b`. */
  function HaddPs(a: M256, b: M256): M256 {
    [a[0] + a[1], a[2] + a[3], b[0] + b[1], b[2] + b[3], a[4] + a[5], a[6] + a[7], b[4] + b[5], b[6] + b[7]]
  }

  function HsubPs(a: M256, b: M256): M256 {
    [a[0] - a[1], a[2] - a[3], b[0] - b[1], b[2] - b[3], a[4] - a[5], a[6] - a[7], b[4] - b[5], b[6] - b[7]]
  }

  /** Control byte `c` picks, in each 128-bit half, four lanes by its four two-bit fields. */
  function PermutePs(a: M256, c: nat): M256 {
    var p0, p1, p2, p3 := c % 4, c / 4 % 4, c / 16 % 4, c / 64 % 4;
    [a[p0], a[p1], a[p2], a[p3], a[4 + p0], a[4 + p1], a[4 + p2], a[4 + p3]]
  }

  /** In each half, the two low fields pick from `a` and the two high fields from `b`. */
  function ShufflePs(a: M256, b: M256, c: nat): M256 {
    var p0, p1, p2, p3 := c % 4, c / 4 % 4, c / 16 % 4, c / 64 % 4;
    [a[p0], a[p1], b[p2], b[p3], a[4 + p0], a[4 + p1], b[4 + p2], b[4 + p3]]
  }

  function PermuteVar(a: M256, index: seq<nat>): M256
    requires |index| == 8 && forall k | 0 <= k < 8 :: index[k] < 8
  {
    [a[index[0]], a[index[1]], a[index[2]], a[index[3]], a[index[4]], a[index[5]], a[index[6]], a[index[7]]]
  }

  /** The `k`th complex number of a register. */
  function Lane(r: M256, k: nat): Complex
    requires k < 4
  {
    Complex(r[2 * k], r[2 * k + 1])
  }

  // ----- complex vectors seen as float arrays -----

  function Floats(f: seq<Complex>): (a: seq<real>)
    ensures |a| == 2 * |f|
    ensures forall i | 0 <= i < |f| :: a[2 * i] == f[i].re && a[2 * i + 1] == f[i].im
  {
    if f == [] then [] else [f[0].re, f[0].im] + Floats(f[1..])
  }

  function Complexes(a: seq<real>): (f: seq<Complex>)
    requires |a| % 2 == 0
    ensures |f| == |a| / 2
    ensures forall i | 0 <= i < |f| :: f[i] == Complex(a[2 * i], a[2 * i + 1])
  {
    seq(|a| / 2, i requires 0 <= i < |a| / 2 => Complex(a[2 * i], a[2 * i + 1]))
  }

  lemma LaneOfLoad(a: seq<real>, i: nat, k: nat)
    requires i + 8 <= |a| && k < 4
    ensures Lane(Load(a, i), k) == Complex(a[i + 2 * k], a[i + 2 * k + 1])
  {
  }

  lemma LoadedLane(f: seq<Complex>, i: nat, k: nat)
    requires i + 4 <= |f| && k < 4
    ensures Lane(Load(Floats(f), 2 * i), k) == f[i + k]
  {
    hide Floats;
    var a := Floats(f);
    assert a[2 * (i + k)] == f[i + k].re && a[2 * (i + k) + 1] == f[i + k].im;
    LaneOfLoad(a, 2 * i, k);
  }
}
