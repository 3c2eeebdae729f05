/** Sixteen-bit complex products: eight numbers to a 256-bit register, each a 32-bit lane with the real
    part in the low half and the imaginary part in the high half.  Everything here is exact. */
module ComplexInt16 {
  import opened Arithmetic
  import opened Common

  // ----- sixteen-bit two's complement -----

  function Digit0(x: bv16): bv4 { (x & 0xF) as bv4 }
  function Digit1(x: bv16): bv4 { ((x >> 4) & 0xF) as bv4 }
  function Digit2(x: bv16): bv4 { ((x >> 8) & 0xF) as bv4 }
  function Digit3(x: bv16): bv4 { (x >> 12) as bv4 }

  /** The unsigned value of a 16-bit word, read off its hexadecimal digits. */
  function Unsigned(x: bv16): nat {
    Digit0(x) as nat + 16 * Digit1(x) as nat + 256 * Digit2(x) as nat + 4096 * Digit3(x) as nat
  }

  /** The signed value of a 16-bit word. */
  function Signed(x: bv16): int {
    if Unsigned(x) < 32768 then Unsigned(x) else Unsigned(x) - 65536
  }

  lemma DigitFacts(n: bv4)
    ensures (!n) as nat == 15 - n as nat
    ensures (n + 1) as nat == if n == 15 then 0 else n as nat + 1
  {
  }

  lemma ComplementDigits(x: bv16)
    ensures Digit0(!x) == !Digit0(x) && Digit1(!x) == !Digit1(x)
    ensures Digit2(!x) == !Digit2(x) && Digit3(!x) == !Digit3(x)
  {
  }

  lemma Complement(x: bv16)
    ensures Unsigned(!x) == 65535 - Unsigned(x)
  {
    ComplementDigits(x);
    hide Digit0, Digit1, Digit2, Digit3;
    DigitFacts(Digit0(x));
    DigitFacts(Digit1(x));
    DigitFacts(Digit2(x));
    DigitFacts(Digit3(x));
  }

  lemma CarryDigits(y: bv16)
    ensures Digit0(y + 1) == Digit0(y) + 1
    ensures Digit1(y + 1) == if Digit0(y) == 15 then Digit1(y) + 1 else Digit1(y)
    ensures Digit2(y + 1) == if Digit0(y) == 15 && Digit1(y) == 15 then Digit2(y) + 1 else Digit2(y)
    ensures Digit3(y + 1) ==
      if Digit0(y) == 15 && Digit1(y) == 15 && Digit2(y) == 15 then Digit3(y) + 1 else Digit3(y)
    ensures y == 0xFFFF <==> Digit0(y) == 15 && Digit1(y) == 15 && Digit2(y) == 15 && Digit3(y) == 15
  {
  }

  lemma Increment(y: bv16)
    ensures Unsigned(y + 1) == if y == 0xFFFF then 0 else Unsigned(y) + 1
  {
    CarryDigits(y);
    hide Digit0, Digit1, Digit2, Digit3;
    DigitFacts(Digit0(y));
    DigitFacts(Digit1(y));
    DigitFacts(Digit2(y));
    DigitFacts(Digit3(y));
  }

  lemma NamedWords(x: bv16)
    ensures Unsigned(x) < 65536
    ensures Unsigned(x) == 0 <==> x == 0
    ensures Unsigned(x) == 32768 <==> x == 0x8000
  {
    NamedDigits(x);
    hide Digit0, Digit1, Digit2, Digit3;
    DigitRange(Digit0(x));
    DigitRange(Digit1(x));
    DigitRange(Digit2(x));
    DigitRange(Digit3(x));
  }

  lemma DigitRange(n: bv4)
    ensures n as nat <= 15 && (n as nat == 0 <==> n == 0) && (n as nat == 8 <==> n == 8)
  {
  }

  lemma NamedDigits(x: bv16)
    ensures x == 0 <==> Digit0(x) == 0 && Digit1(x) == 0 && Digit2(x) == 0 && Digit3(x) == 0
    ensures x == 0x8000 <==> Digit0(x) == 0 && Digit1(x) == 0 && Digit2(x) == 0 && Digit3(x) == 8
  {
  }

  /** Complement-and-add-one negates every value except the most negative, which it leaves alone. */
  lemma NegateWord(q: bv16)
    ensures Signed(!q + 1) == if q == 0x8000 then Signed(q) else -Signed(q)
    ensures Signed(q) == -32768 <==> q == 0x8000
  {
    hide Unsigned;
    Complement(q);
    Increment(!q);
    NamedWords(q);
  }

  /** The 16-bit word that a 32-bit result leaves after an arithmetic shift by 15 and a 16-bit mask, or
      a shift and a narrowing cast. */
  function Shifted(x: int): (r: nat)
    ensures r < 65536
  {
    x / 32768 % 65536
  }

  /** Read as a signed word, what is left is the product of two fractions of 32768, rounded down, if that fits. */
  lemma ShiftedRoundsDown(x: int)
    requires -0x4000_0000 <= x < 0x4000_0000
    ensures var word := if Shifted(x) < 32768 then Shifted(x) else Shifted(x) - 65536;
      word * 32768 <= x < (word + 1) * 32768
  {
  }

  /** A 32-bit register cannot hold 2^31; it wraps to -2^31. */
  function Wrap32(x: int): int {
    (x + 0x8000_0000) % 0x1_0000_0000 - 0x8000_0000
  }

  /** Wrapping at 32 bits is not seen after the shift and mask. */
  lemma WrapUnseen(x: int)
    ensures Shifted(Wrap32(x)) == Shifted(x)
  {
    var k := (x + 0x8000_0000) / 0x1_0000_0000;
    assert Wrap32(x) == x - k * 0x1_0000_0000;
    assert Wrap32(x) / 32768 == x / 32768 - k * 131072;
    ModShift(x / 32768, 2 * k);
  }

  lemma ModShift(a: int, k: int)
    ensures (a - k * 65536) % 65536 == a % 65536
  {
  }

  // ----- one lane of the vector code -----

  datatype Sample = Sample(i: bv16, q: bv16)

  function Word(s: Sample): bv32 { (s.q as bv32 << 16) | s.i as bv32 }

  function Low(w: bv32): bv16 { (w & 0xFFFF) as bv16 }

  function High(w: bv32): bv16 { (w >> 16) as bv16 }

  /** Exclusive-or with neg0, then a 32-bit addition of neg1. */
  function NegateHigh(w: bv32): bv32 { (w ^ 0xFFFF0000) + 0x00010000 }

  /** Both 0xb1 shuffles together swap the halves of every lane. */
  function SwapHalves(w: bv32): bv32 { (w << 16) | (w >> 16) }

  /** Multiply-add of signed halves, kept to 32 bits. */
  function Madd(a: bv32, b: bv32): int {
    Wrap32(Signed(Low(a)) * Signed(Low(b)) + Signed(High(a)) * Signed(High(b)))
  }

  /** The product in one lane: real part in the low half of the result, imaginary part in the high half. */
  function LaneMult(data1: bv32, data2: bv32, conj: bool): (nat, nat) {
    var temp0 := NegateHigh(data2);
    var temp1 := SwapHalves(if conj then temp0 else data2);
    var re := Madd(data1, if conj then data2 else temp0);
    var im := Madd(data1, temp1);
    (Shifted(re), Shifted(im))
  }

  function ScalarRe(i0: int, i1: int, q0: int, q1: int, conj: bool): int {
    i0 * i1 + (if conj then q0 else -q0) * q1
  }

  function ScalarIm(i0: int, i1: int, q0: int, q1: int, conj: bool): int {
    i1 * q0 + (if conj then -i0 else i0) * q1
  }

  /** The scalar tail: 32-bit products and sums, shifted and narrowed. */
  function ScalarMult(f: Sample, g: Sample, conj: bool): (nat, nat) {
    var i0, i1, q0, q1 := Signed(f.i), Signed(g.i), Signed(f.q), Signed(g.q);
    (Shifted(Wrap32(ScalarRe(i0, i1, q0, q1, conj))), Shifted(Wrap32(ScalarIm(i0, i1, q0, q1, conj))))
  }

  lemma ScalarSums(i0: int, i1: int, q0: int, q1: int)
    ensures ScalarRe(i0, i1, q0, q1, true) == i0 * i1 + q0 * q1
    ensures ScalarIm(i0, i1, q0, q1, true) == i0 * -q1 + q0 * i1
    ensures ScalarRe(i0, i1, q0, q1, false) == i0 * i1 + q0 * -q1
    ensures ScalarIm(i0, i1, q0, q1, false) == i0 * q1 + q0 * i1
  {
  }

  lemma WordHalves(s: Sample)
    ensures Low(Word(s)) == s.i && High(Word(s)) == s.q
  {
  }

  lemma NegateHighHalves(w: bv32)
    ensures Low(NegateHigh(w)) == Low(w) && High(NegateHigh(w)) == !High(w) + 1
  {
  }

  lemma SwapHalvesHalves(w: bv32)
    ensures Low(SwapHalves(w)) == High(w) && High(SwapHalves(w)) == Low(w)
  {
  }

  /** What 16-bit negation makes of the second factor's imaginary part. */
  function Negated(q: bv16): int { if q == 0x8000 then Signed(q) else -Signed(q) }

  lemma LaneMultValue(f: Sample, g: Sample, conj: bool)
    ensures var i0, i1, q0, q1 := Signed(f.i), Signed(g.i), Signed(f.q), Signed(g.q);
      LaneMult(Word(f), Word(g), conj) ==
        if conj then (Shifted(i0 * i1 + q0 * q1), Shifted(i0 * Negated(g.q) + q0 * i1))
        else (Shifted(i0 * i1 + q0 * Negated(g.q)), Shifted(i0 * q1 + q0 * i1))
  {
    hide Word, Low, High, NegateHigh, SwapHalves, Signed, Shifted, Wrap32;
    var i0, i1, q0, q1 := Signed(f.i), Signed(g.i), Signed(f.q), Signed(g.q);
    WordHalves(f);
    WordHalves(g);
    NegateHighHalves(Word(g));
    SwapHalvesHalves(NegateHigh(Word(g)));
    SwapHalvesHalves(Word(g));
    NegateWord(g.q);
    WrapUnseen(i0 * i1 + q0 * q1);
    WrapUnseen(i0 * Negated(g.q) + q0 * i1);
    WrapUnseen(i0 * i1 + q0 * Negated(g.q));
    WrapUnseen(i0 * q1 + q0 * i1);
  }

  lemma ScalarMultValue(f: Sample, g: Sample, conj: bool)
    ensures var i0, i1, q0, q1 := Signed(f.i), Signed(g.i), Signed(f.q), Signed(g.q);
      ScalarMult(f, g, conj) ==
        if conj then (Shifted(i0 * i1 + q0 * q1), Shifted(i0 * -q1 + q0 * i1))
        else (Shifted(i0 * i1 + q0 * -q1), Shifted(i0 * q1 + q0 * i1))
  {
    hide Signed, Shifted, Wrap32;
    var i0, i1, q0, q1 := Signed(f.i), Signed(g.i), Signed(f.q), Signed(g.q);
    hide ScalarRe, ScalarIm;
    ScalarSums(i0, i1, q0, q1);
    WrapUnseen(ScalarRe(i0, i1, q0, q1, conj));
    WrapUnseen(ScalarIm(i0, i1, q0, q1, conj));
  }

  /** Two values 65536 * d apart leave the same word exactly when d is a multiple of 32768. */
  lemma ShiftedApart(x: int, d: int)
    ensures Shifted(x + 65536 * d) == Shifted(x) <==> d % 32768 == 0
  {
    assert (x + 65536 * d) / 32768 == x / 32768 + 2 * d;
  }

  lemma SignedRange(x: bv16)
    ensures -32768 <= Signed(x) <= 32767
  {
    hide Unsigned;
    NamedWords(x);
  }

  /** The component that multiplies the negated imaginary part. */
  function Exposed(f: Sample, conj: bool): bv16 { if conj then f.i else f.q }

  /** The vector lane and the scalar tail agree bit for bit exactly when the second factor's imaginary
      part is not -32768, or the component it multiplies is 0 or -32768. */
  lemma LaneMatchesScalarIff(f: Sample, g: Sample, conj: bool)
    ensures LaneMult(Word(f), Word(g), conj) == ScalarMult(f, g, conj) <==>
      g.q != 0x8000 || Signed(Exposed(f, conj)) in {0, -32768}
  {
    hide Word, Signed, Shifted, LaneMult, ScalarMult;
    SignedRange(Exposed(f, conj));
    LaneMultValue(f, g, conj);
    ScalarMultValue(f, g, conj);
    NegateWord(g.q);
    if g.q == 0x8000 {
      var i0, i1, q0 := Signed(f.i), Signed(g.i), Signed(f.q);
      if conj {
        ShiftedApart(i0 * -32768 + q0 * i1, i0);
      } else {
        ShiftedApart(i0 * i1 + q0 * -32768, q0);
      }
    }
  }

  /** The promised case: no component is -32768. */
  lemma LaneMatchesScalar(f: Sample, g: Sample, conj: bool)
    requires f.i != 0x8000 && f.q != 0x8000 && g.i != 0x8000 && g.q != 0x8000
    ensures LaneMult(Word(f), Word(g), conj) == ScalarMult(f, g, conj)
  {
    LaneMatchesScalarIff(f, g, conj);
  }

  // ----- whole vectors -----

  const AVX_PACKED_CS := 8

  /** Eight samples loaded as the lanes of a register. */
  function Load(f: seq<Sample>, i: nat): (r: seq<bv32>)
    requires i + AVX_PACKED_CS <= |f|
    ensures |r| == AVX_PACKED_CS
  {
    seq(AVX_PACKED_CS, k requires 0 <= k < AVX_PACKED_CS => Word(f[i + k]))
  }

  function RegisterMult(a: seq<bv32>, b: seq<bv32>, conj: bool): (r: seq<(nat, nat)>)
    requires |a| == |b| == AVX_PACKED_CS
    ensures |r| == AVX_PACKED_CS
  {
    seq(AVX_PACKED_CS, k requires 0 <= k < AVX_PACKED_CS => LaneMult(a[k], b[k], conj))
  }

  /** The element-wise product of every length: full registers first, then the scalar tail.  An element
      equals the scalar product unless it is in a full register and meets the exceptional case. */
  method ComplexMultAvx(f: seq<Sample>, g: seq<Sample>, conj: bool) returns (out: seq<(nat, nat)>)
    ensures |out| == Min(|f|, |g|)
    ensures forall i | 0 <= i < |out| / AVX_PACKED_CS * AVX_PACKED_CS :: out[i] == LaneMult(Word(f[i]), Word(g[i]), conj)
    ensures forall i | 0 <= i < |out| :: out[i] == ScalarMult(f[i], g[i], conj) <==>
      |out| / AVX_PACKED_CS * AVX_PACKED_CS <= i || g[i].q != 0x8000 || Signed(Exposed(f[i], conj)) in {0, -32768}
  {
    hide LaneMult, ScalarMult, Signed, Word;
    var resLen := Min(|f|, |g|);
    var outf := new (nat, nat)[resLen](_ => (0, 0));
    var vecSize := resLen / AVX_PACKED_CS;
    for v := 0 to vecSize
      invariant forall i | 0 <= i < v * AVX_PACKED_CS :: outf[i] == LaneMult(Word(f[i]), Word(g[i]), conj)
    {
      var res := RegisterMult(Load(f, v * AVX_PACKED_CS), Load(g, v * AVX_PACKED_CS), conj);
      forall k | 0 <= k < AVX_PACKED_CS {
        outf[v * AVX_PACKED_CS + k] := res[k];
      }
      forall i | v * AVX_PACKED_CS <= i < (v + 1) * AVX_PACKED_CS
        ensures outf[i] == LaneMult(Word(f[i]), Word(g[i]), conj)
      {
        assert outf[v * AVX_PACKED_CS + (i - v * AVX_PACKED_CS)] == res[i - v * AVX_PACKED_CS];
      }
    }
    for i := vecSize * AVX_PACKED_CS to resLen
      invariant forall j | 0 <= j < vecSize * AVX_PACKED_CS :: outf[j] == LaneMult(Word(f[j]), Word(g[j]), conj)
      invariant forall j | vecSize * AVX_PACKED_CS <= j < i :: outf[j] == ScalarMult(f[j], g[j], conj)
    {
      outf[i] := ScalarMult(f[i], g[i], conj);
    }
    out := outf[..];
    forall i | 0 <= i < vecSize * AVX_PACKED_CS
      ensures out[i] == ScalarMult(f[i], g[i], conj) <==> g[i].q != 0x8000 || Signed(Exposed(f[i], conj)) in {0, -32768}
    {
      LaneMatchesScalarIff(f[i], g[i], conj);
    }
  }

  /** The multiply-add of a lane with itself is the squared magnitude, except that 2^31 wraps. */
  lemma LaneAbs2Iff(f: Sample)
    ensures var i, q := Signed(f.i), Signed(f.q);
      Madd(Word(f), Word(f)) == i * i + q * q <==> !(f.i == 0x8000 && f.q == 0x8000)
  {
    hide Word, Low, High, Signed;
    WordHalves(f);
    SquareBound(f.i);
    SquareBound(f.q);
    var s := Signed(f.i) * Signed(f.i) + Signed(f.q) * Signed(f.q);
    if s < 0x8000_0000 {
      assert (s + 0x8000_0000) % 0x1_0000_0000 == s + 0x8000_0000;
    }
  }

  /** The squared magnitude as a mathematical integer. */
  function Magnitude(f: Sample): int { Signed(f.i) * Signed(f.i) + Signed(f.q) * Signed(f.q) }

  /** Squared magnitudes for every length, tail included: exact, except for the one sample whose magnitude is 2^31. */
  method Abs2Avx(f: seq<Sample>) returns (out: seq<int>)
    ensures |out| == |f|
    ensures forall i | 0 <= i < |f| :: out[i] == Wrap32(Magnitude(f[i]))
    ensures forall i | 0 <= i < |f| :: out[i] == Magnitude(f[i]) <==> !(f[i].i == 0x8000 && f[i].q == 0x8000)
  {
    hide Madd, Wrap32, Word, Signed, Magnitude;
    var outf := new int[|f|](_ => 0);
    var vecSize := |f| / AVX_PACKED_CS;
    for v := 0 to vecSize
      invariant forall i | 0 <= i < v * AVX_PACKED_CS :: outf[i] == Madd(Word(f[i]), Word(f[i]))
    {
      var data := Load(f, v * AVX_PACKED_CS);
      forall k | 0 <= k < AVX_PACKED_CS {
        outf[v * AVX_PACKED_CS + k] := Madd(data[k], data[k]);
      }
      forall i | v * AVX_PACKED_CS <= i < (v + 1) * AVX_PACKED_CS ensures outf[i] == Madd(Word(f[i]), Word(f[i])) {
        var k := i - v * AVX_PACKED_CS;
        assert outf[v * AVX_PACKED_CS + k] == Madd(data[k], data[k]);
      }
    }
    forall i | 0 <= i < |f| ensures Madd(Word(f[i]), Word(f[i])) == Wrap32(Magnitude(f[i])) {
      MaddSelf(f[i]);
    }
    for i := vecSize * AVX_PACKED_CS to |f|
      invariant forall j | 0 <= j < i :: outf[j] == Wrap32(Magnitude(f[j]))
    {
      MagnitudeSum(f[i]);
      outf[i] := Wrap32(Signed(f[i].i) * Signed(f[i].i) + Signed(f[i].q) * Signed(f[i].q));
    }
    out := outf[..];
    forall i | 0 <= i < |f| ensures out[i] == Magnitude(f[i]) <==> !(f[i].i == 0x8000 && f[i].q == 0x8000) {
      MaddSelf(f[i]);
      MagnitudeSum(f[i]);
      LaneAbs2Iff(f[i]);
    }
  }

  lemma MagnitudeSum(f: Sample)
    ensures Magnitude(f) == Signed(f.i) * Signed(f.i) + Signed(f.q) * Signed(f.q)
  {
    hide Signed;
  }

  lemma MaddSelf(f: Sample)
    ensures Madd(Word(f), Word(f)) == Wrap32(Magnitude(f))
  {
    hide Word, Low, High, Signed, Wrap32;
    WordHalves(f);
  }

  lemma SquareBound(x: bv16)
    ensures 0 <= Signed(x) * Signed(x) <= 0x4000_0000
    ensures Signed(x) * Signed(x) == 0x4000_0000 <==> x == 0x8000
  {
    SignedRange(x);
    NegateWord(x);
    hide Signed;
    var v := Signed(x);
    if v < 0 {
      assert v * v == -v * -v;
      if v > -32768 {
        SmallerSquare(-v);
      }
    } else {
      SmallerSquare(v);
    }
  }

  lemma SmallerSquare(v: nat)
    requires v <= 32767
    ensures v * v <= 32767 * 32767
  {
    MulMonotone(v, 32767, v);
  }
}
