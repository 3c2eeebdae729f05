/** The hysteresis peak detector: maxima and minima that differ from their neighbours by more than `delta`. */
module PeakDet {

  type Point = (real, real)

  datatype Result = Tables(maxtab: seq<Point>, mintab: seq<Point>) | BadInput

  /** The detector alternates between looking for a maximum and for a minimum.  A switch is the index of the extreme
      that was recorded and the index at which it was. */
  datatype Switch = Switch(peak: nat, at: nat)

  /** The even switches record maxima. */
  predicate Maximum(k: nat) { k % 2 == 0 }

  lemma MaximaAlternate(k: nat)
    ensures Maximum(0) && (Maximum(k + 1) <==> !Maximum(k)) && Maximum(2 * k) && !Maximum(2 * k + 1)
  {
  }

  /** The signal, turned upside down while a minimum is looked for. */
  function Y(v: seq<real>, max: bool, i: nat): real
    requires i < |v|
  {
    if max then v[i] else -v[i]
  }

  /** Where the search for the `k`th extreme begins. */
  function Begin(switches: seq<Switch>, k: nat): nat
    requires k <= |switches|
  {
    if k == 0 then 0 else switches[k - 1].at
  }

  predicate FallsLittle(v: seq<real>, delta: real, max: bool, i: nat, j: nat)
    requires i < |v| && j < |v|
  {
    Y(v, max, j) >= Y(v, max, i) - delta
  }

  /** From `from` to before `to` the signal never falls by more than `delta`. */
  ghost predicate NoFall(v: seq<real>, delta: real, max: bool, from: nat, to: nat)
    requires to <= |v|
  {
    forall i: nat, j: nat | from <= i <= j < to :: FallsLittle(v, delta, max, i, j)
  }

  /** `peak` is the first largest sample from `from` to before `to`. */
  ghost predicate IsTop(v: seq<real>, max: bool, from: nat, to: nat, peak: nat)
    requires to <= |v|
  {
    && from <= peak < to
    && (forall j: nat | from <= j < to :: Y(v, max, j) <= Y(v, max, peak))
    && (forall j: nat | from <= j < peak :: Y(v, max, j) < Y(v, max, peak))
  }

  /** The switch happens at the first sample more than `delta` below the top so far. */
  ghost predicate IsSwitch(v: seq<real>, delta: real, max: bool, begin: nat, s: Switch) {
    && s.at < |v|
    && IsTop(v, max, begin, s.at, s.peak)
    && NoFall(v, delta, max, begin, s.at)
    && Y(v, max, s.at) < Y(v, max, s.peak) - delta
  }

  ghost predicate AreSwitches(v: seq<real>, delta: real, switches: seq<Switch>) {
    forall k: nat | k < |switches| :: IsSwitch(v, delta, Maximum(k), Begin(switches, k), switches[k])
  }

  /** All switches, to the end of the signal. */
  ghost predicate Segments(v: seq<real>, delta: real, switches: seq<Switch>) {
    && AreSwitches(v, delta, switches)
    && Begin(switches, |switches|) <= |v|
    && NoFall(v, delta, Maximum(|switches|), Begin(switches, |switches|), |v|)
  }

  /** The tables hold the maxima, the even switches, and the minima, the odd ones. */
  ghost predicate InTables(v: seq<real>, x: seq<real>, switches: seq<Switch>, maxtab: seq<Point>, mintab: seq<Point>) {
    && |x| == |v|
    && (forall k: nat | k < |switches| :: switches[k].peak < |v|)
    && |maxtab| == (|switches| + 1) / 2 && |mintab| == |switches| / 2
    && (forall j: nat | j < |maxtab| :: maxtab[j] == (x[switches[2 * j].peak], v[switches[2 * j].peak]))
    && (forall j: nat | j < |mintab| :: mintab[j] == (x[switches[2 * j + 1].peak], v[switches[2 * j + 1].peak]))
  }

  lemma TopGrows(v: seq<real>, delta: real, max: bool, from: nat, i: nat, peak: nat)
    requires i < |v| && delta > 0.0 && NoFall(v, delta, max, from, i)
    requires if from < i then IsTop(v, max, from, i, peak) else from == i
    ensures var top := if from == i || Y(v, max, i) > Y(v, max, peak) then i else peak;
      IsTop(v, max, from, i + 1, top) && (Y(v, max, i) >= Y(v, max, top) - delta ==> NoFall(v, delta, max, from, i + 1))
  {
  }

  lemma TopFalls(v: seq<real>, delta: real, max: bool, from: nat, i: nat, peak: nat)
    requires i < |v| && delta > 0.0 && NoFall(v, delta, max, from, i) && IsTop(v, max, from, i + 1, peak)
    requires Y(v, max, i) < Y(v, max, peak) - delta
    ensures IsSwitch(v, delta, max, from, Switch(peak, i))
    ensures NoFall(v, delta, !max, i, i + 1) && IsTop(v, !max, i, i + 1, i)
  {
  }

  lemma SwitchAppended(v: seq<real>, delta: real, switches: seq<Switch>, s: Switch)
    requires AreSwitches(v, delta, switches)
    requires IsSwitch(v, delta, Maximum(|switches|), Begin(switches, |switches|), s)
    ensures AreSwitches(v, delta, switches + [s])
  {
    hide IsSwitch, Maximum;
    var switches' := switches + [s];
    forall k: nat | k < |switches'| ensures IsSwitch(v, delta, Maximum(k), Begin(switches', k), switches'[k]) {
      assert Begin(switches', k) == Begin(switches, k);
    }
  }

  /** Since `begin`, the extreme looked for is `value` at `pos`, sample number `top`, and was not far enough left. */
  ghost predicate Tracks(v: seq<real>, x: seq<real>, delta: real, max: bool, begin: nat, i: nat, top: nat, value: real,
                         pos: real)
  {
    && i <= |v| == |x|
    && NoFall(v, delta, max, begin, i) && IsTop(v, max, begin, i, top)
    && value == v[top] && pos == x[top]
  }

  /** Whether the search for a maximum, or minimum, ends at a sample. */
  predicate FarEnough(max: bool, sample: real, value: real, delta: real) {
    if max then sample < value - delta else sample > value + delta
  }

  predicate Better(max: bool, sample: real, value: real) { if max then sample > value else sample < value }

  lemma SampleTracked(v: seq<real>, x: seq<real>, delta: real, max: bool, begin: nat, i: nat, top: nat, value: real,
                      pos: real, top': nat, value': real, pos': real)
    requires i < |v| == |x| && delta > 0.0
    requires if i == 0 then begin == 0 else Tracks(v, x, delta, max, begin, i, top, value, pos)
    requires if i == 0 || Better(max, v[i], value) then top' == i && value' == v[i] && pos' == x[i]
             else top' == top && value' == value && pos' == pos
    ensures FarEnough(max, v[i], value', delta) ==>
      IsSwitch(v, delta, max, begin, Switch(top', i)) && top' < |v| && value' == v[top'] && pos' == x[top'] &&
      Tracks(v, x, delta, !max, i, i + 1, i, v[i], x[i])
    ensures !FarEnough(max, v[i], value', delta) ==> Tracks(v, x, delta, max, begin, i + 1, top', value', pos')
  {
    TopGrows(v, delta, max, begin, i, top);
    if FarEnough(max, v[i], value', delta) {
      TopFalls(v, delta, max, begin, i, top');
    }
  }

  method Detect(v: seq<real>, delta: real, x: seq<real>) returns (r: Result, ghost switches: seq<Switch>)
    ensures r.BadInput? <==> |v| != |x| || delta <= 0.0
    ensures r.Tables? ==> Segments(v, delta, switches) && InTables(v, x, switches, r.maxtab, r.mintab)
  {
    hide Tracks, Recorded, AreSwitches, IsSwitch, Maximum, InTables, Segments, Y, NoFall, IsTop, FallsLittle;
    switches := [];
    if |v| != |x| || delta <= 0.0 {
      return BadInput, [];
    }
    var maxtab: seq<Point>, mintab: seq<Point> := [], [];
    var mn, mx, mnpos, mxpos := 0.0, 0.0, 0.0, 0.0;
    var lookForMax := true;
    ghost var begin: nat, top: nat := 0, 0;
    Nothing(v, delta, x);
    for i := 0 to |v|
      invariant Recorded(v, x, delta, switches, maxtab, mintab)
      invariant lookForMax <==> Maximum(|switches|)
      invariant begin == Begin(switches, |switches|) && (i == 0 ==> switches == [])
      invariant i > 0 && lookForMax ==> Tracks(v, x, delta, true, begin, i, top, mx, mxpos)
      invariant i > 0 && !lookForMax ==> Tracks(v, x, delta, false, begin, i, top, mn, mnpos)
    {
      var sample := v[i];
      ghost var top0, mx0, mxpos0, mn0, mnpos0 := top, mx, mxpos, mn, mnpos;
      if i == 0 || sample > mx {
        mx, mxpos := sample, x[i];
      }
      if i == 0 || sample < mn {
        mn, mnpos := sample, x[i];
      }
      MaximaAlternate(|switches|);
      if lookForMax {
        top := if i == 0 || sample > mx0 then i else top;
        SampleTracked(v, x, delta, true, begin, i, top0, mx0, mxpos0, top, mx, mxpos);
        if sample < mx - delta {
          SwitchRecorded(v, x, delta, switches, maxtab, mintab, Switch(top, i));
          maxtab := maxtab + [(mxpos, mx)];
          mn, mnpos := sample, x[i];
          lookForMax := false;
          switches, begin, top := switches + [Switch(top, i)], i, i;
        }
      } else {
        top := if i == 0 || sample < mn0 then i else top;
        SampleTracked(v, x, delta, false, begin, i, top0, mn0, mnpos0, top, mn, mnpos);
        if sample > mn + delta {
          SwitchRecorded(v, x, delta, switches, maxtab, mintab, Switch(top, i));
          mintab := mintab + [(mnpos, mn)];
          mx, mxpos := sample, x[i];
          lookForMax := true;
          switches, begin, top := switches + [Switch(top, i)], i, i;
        }
      }
    }
    SearchEnds(v, x, delta, switches, maxtab, mintab, top, if lookForMax then mx else mn,
               if lookForMax then mxpos else mnpos);
    r := Tables(maxtab, mintab);
  }

  lemma SearchEnds(v: seq<real>, x: seq<real>, delta: real, switches: seq<Switch>, maxtab: seq<Point>, mintab: seq<Point>,
                   top: nat, value: real, pos: real)
    requires Recorded(v, x, delta, switches, maxtab, mintab) && if |v| == 0 then switches == [] else
      Tracks(v, x, delta, Maximum(|switches|), Begin(switches, |switches|), |v|, top, value, pos)
    ensures Segments(v, delta, switches) && InTables(v, x, switches, maxtab, mintab)
  {
  }

  lemma Nothing(v: seq<real>, delta: real, x: seq<real>)
    ensures AreSwitches(v, delta, []) && NoFall(v, delta, true, 0, 0) && Maximum(0)
    ensures |v| == |x| ==> Recorded(v, x, delta, [], [], [])
  {
  }

  /** The switches so far are right, and the tables hold them. */
  ghost predicate Recorded(v: seq<real>, x: seq<real>, delta: real, switches: seq<Switch>, maxtab: seq<Point>,
                           mintab: seq<Point>)
  {
    AreSwitches(v, delta, switches) && InTables(v, x, switches, maxtab, mintab)
  }

  lemma TablesGrow(v: seq<real>, x: seq<real>, switches: seq<Switch>, maxtab: seq<Point>, mintab: seq<Point>, s: Switch)
    requires InTables(v, x, switches, maxtab, mintab) && s.peak < |v|
    ensures Maximum(|switches|) ==> InTables(v, x, switches + [s], maxtab + [(x[s.peak], v[s.peak])], mintab)
    ensures !Maximum(|switches|) ==> InTables(v, x, switches + [s], maxtab, mintab + [(x[s.peak], v[s.peak])])
  {
  }

  lemma SwitchRecorded(v: seq<real>, x: seq<real>, delta: real, switches: seq<Switch>, maxtab: seq<Point>,
                       mintab: seq<Point>, s: Switch)
    requires Recorded(v, x, delta, switches, maxtab, mintab) && s.peak < |v| == |x|
    requires IsSwitch(v, delta, Maximum(|switches|), Begin(switches, |switches|), s)
    ensures Maximum(|switches|) ==> Recorded(v, x, delta, switches + [s], maxtab + [(x[s.peak], v[s.peak])], mintab)
    ensures !Maximum(|switches|) ==> Recorded(v, x, delta, switches + [s], maxtab, mintab + [(x[s.peak], v[s.peak])])
  {
    hide AreSwitches, IsSwitch, Maximum, InTables;
    SwitchAppended(v, delta, switches, s);
    TablesGrow(v, x, switches, maxtab, mintab, s);
  }

  // ----- what the switches mean -----

  /** Extremes alternate in position, a switch between each and the next, and neighbours differ by more than delta. */
  lemma ExtremesAlternate(v: seq<real>, delta: real, switches: seq<Switch>, k: nat)
    requires delta > 0.0 && AreSwitches(v, delta, switches) && k + 1 < |switches|
    ensures switches[k].peak < switches[k].at <= switches[k + 1].peak < |v|
    ensures Y(v, Maximum(k), switches[k].peak) - Y(v, Maximum(k), switches[k + 1].peak) > delta
  {
    hide Maximum, NoFall;
    MaximaAlternate(k);
    assert IsSwitch(v, delta, Maximum(k), Begin(switches, k), switches[k]);
    assert IsSwitch(v, delta, Maximum(k + 1), Begin(switches, k + 1), switches[k + 1]);
    assert Y(v, Maximum(k + 1), switches[k].at) <= Y(v, Maximum(k + 1), switches[k + 1].peak);
  }

  /** The tables: maxima and minima alternate in position starting with a maximum, each maximum exceeds the minima
      before and after it by more than delta, and there are as many minima as maxima, or one less. */
  lemma TablesAlternate(v: seq<real>, delta: real, x: seq<real>, switches: seq<Switch>, maxtab: seq<Point>,
                        mintab: seq<Point>, j: nat)
    requires delta > 0.0 && Segments(v, delta, switches) && InTables(v, x, switches, maxtab, mintab)
    requires forall a: nat, b: nat | a < b < |x| :: x[a] < x[b]
    ensures |mintab| <= |maxtab| <= |mintab| + 1
    ensures j < |mintab| ==> maxtab[j].0 < mintab[j].0 && maxtab[j].1 - mintab[j].1 > delta
    ensures j + 1 < |maxtab| ==> mintab[j].0 < maxtab[j + 1].0 && maxtab[j + 1].1 - mintab[j].1 > delta
  {
    hide AreSwitches, NoFall, Maximum;
    MaximaAlternate(j);
    if j < |mintab| {
      ExtremesAlternate(v, delta, switches, 2 * j);
    }
    if j + 1 < |maxtab| {
      ExtremesAlternate(v, delta, switches, 2 * j + 1);
    }
  }

  lemma SwitchUnique(v: seq<real>, delta: real, max: bool, begin: nat, a: Switch, b: Switch)
    requires IsSwitch(v, delta, max, begin, a) && IsSwitch(v, delta, max, begin, b)
    ensures a == b
  {
    SwitchNotBefore(v, delta, max, begin, a, b);
    SwitchNotBefore(v, delta, max, begin, b, a);
  }

  lemma SwitchNotBefore(v: seq<real>, delta: real, max: bool, begin: nat, a: Switch, b: Switch)
    requires IsSwitch(v, delta, max, begin, a) && IsSwitch(v, delta, max, begin, b)
    ensures a.at >= b.at
  {
    assert !FallsLittle(v, delta, max, a.peak, a.at);
  }

  lemma {:induction false} SegmentsPrefix(v: seq<real>, delta: real, a: seq<Switch>, b: seq<Switch>, k: nat)
    requires Segments(v, delta, a) && Segments(v, delta, b) && k <= |a|
    ensures k <= |b| && forall j: nat | j < k :: a[j] == b[j]
    decreases k
  {
    hide Maximum, IsSwitch, NoFall;
    if k > 0 {
      SegmentsPrefix(v, delta, a, b, k - 1);
      assert IsSwitch(v, delta, Maximum(k - 1), Begin(a, k - 1), a[k - 1]);
      if k <= |b| {
        assert IsSwitch(v, delta, Maximum(k - 1), Begin(b, k - 1), b[k - 1]);
        SwitchUnique(v, delta, Maximum(k - 1), Begin(a, k - 1), a[k - 1], b[k - 1]);
      } else {
        SwitchFalls(v, delta, Maximum(k - 1), Begin(a, k - 1), a[k - 1]);
      }
    }
  }

  lemma SwitchFalls(v: seq<real>, delta: real, max: bool, begin: nat, s: Switch)
    requires IsSwitch(v, delta, max, begin, s)
    ensures !NoFall(v, delta, max, begin, |v|)
  {
    assert !FallsLittle(v, delta, max, s.peak, s.at);
  }

  /** The definition leaves no choice: the switches, and so the tables, are determined by the signal. */
  lemma SegmentsUnique(v: seq<real>, delta: real, a: seq<Switch>, b: seq<Switch>)
    requires Segments(v, delta, a) && Segments(v, delta, b)
    ensures a == b
  {
    hide Segments;
    SegmentsPrefix(v, delta, a, b, |a|);
    SegmentsPrefix(v, delta, b, a, |b|);
  }

  /** The extremes on either side of the `k`th, as far as they are known. */
  function ExtremeBefore(switches: seq<Switch>, k: nat): nat
    requires k < |switches|
  {
    if k == 0 then 0 else switches[k - 1].peak
  }

  function ExtremeAfter(switches: seq<Switch>, k: nat): nat
    requires k < |switches|
  {
    if k + 1 < |switches| then switches[k + 1].peak else switches[k].at
  }

  /** A recorded maximum is the largest sample from the minimum before it to the minimum after it, and a recorded minimum
      the smallest between its maxima. */
  lemma ExtremeIsLargest(v: seq<real>, delta: real, switches: seq<Switch>, k: nat, j: nat)
    requires delta > 0.0 && AreSwitches(v, delta, switches) && k < |switches|
    requires ExtremeBefore(switches, k) <= j <= ExtremeAfter(switches, k)
    ensures switches[k].peak < |v| && j < |v|
    ensures if k % 2 == 0 then v[j] <= v[switches[k].peak] else v[j] >= v[switches[k].peak]
  {
    hide IsSwitch, Y, Maximum;
    var s, max := switches[k], Maximum(k);
    MaximaAlternate(k);
    assert IsSwitch(v, delta, max, Begin(switches, k), s);
    SwitchInside(v, delta, max, Begin(switches, k), s);
    if k > 0 {
      MaximaAlternate(k - 1);
      assert IsSwitch(v, delta, Maximum(k - 1), Begin(switches, k - 1), switches[k - 1]);
    }
    if k + 1 < |switches| {
      assert IsSwitch(v, delta, Maximum(k + 1), Begin(switches, k + 1), switches[k + 1]);
      SwitchInside(v, delta, !max, s.at, switches[k + 1]);
      NeverFell(v, delta, !max, s.at, switches[k + 1]);
    } else {
      NothingFalls(v, delta, !max, s.at);
    }
    if j < Begin(switches, k) {
      LowerBefore(v, delta, max, Begin(switches, k - 1), switches[k - 1], s, j);
    } else if j < s.at {
      LowerMeanwhile(v, delta, max, Begin(switches, k), s, j);
    } else {
      LowerAfter(v, delta, max, Begin(switches, k), s, if k + 1 < |switches| then switches[k + 1].at else s.at + 1, j);
    }
    UpsideDown(v, max, j);
    UpsideDown(v, max, s.peak);
    assert max <==> k % 2 == 0 by { MaximumIsEven(k); }
  }

  lemma MaximumIsEven(k: nat)
    ensures Maximum(k) <==> k % 2 == 0
  {
  }

  lemma UpsideDown(v: seq<real>, max: bool, i: nat)
    requires i < |v|
    ensures Y(v, max, i) == (if max then v[i] else -v[i]) && Y(v, !max, i) == -Y(v, max, i)
  {
  }

  lemma SwitchInside(v: seq<real>, delta: real, max: bool, begin: nat, s: Switch)
    requires IsSwitch(v, delta, max, begin, s)
    ensures begin <= s.peak < s.at < |v|
  {
    hide NoFall, Y;
  }

  lemma NeverFell(v: seq<real>, delta: real, max: bool, begin: nat, s: Switch)
    requires IsSwitch(v, delta, max, begin, s)
    ensures s.at <= |v| && NoFall(v, delta, max, begin, s.at)
  {
  }

  lemma NothingFalls(v: seq<real>, delta: real, max: bool, i: nat)
    requires delta > 0.0 && i < |v|
    ensures NoFall(v, delta, max, i, i + 1)
  {
  }

  /** After the extreme before, and before the search for this one. */
  lemma LowerBefore(v: seq<real>, delta: real, max: bool, begin: nat, before: Switch, s: Switch, j: nat)
    requires IsSwitch(v, delta, !max, begin, before) && IsSwitch(v, delta, max, before.at, s)
    requires before.peak <= j < before.at
    ensures Y(v, max, j) <= Y(v, max, s.peak)
  {
    assert FallsLittle(v, delta, !max, before.peak, j);
    assert Y(v, max, before.at) <= Y(v, max, s.peak);
  }

  lemma LowerMeanwhile(v: seq<real>, delta: real, max: bool, begin: nat, s: Switch, j: nat)
    requires IsSwitch(v, delta, max, begin, s) && begin <= j < s.at
    ensures Y(v, max, j) <= Y(v, max, s.peak)
  {
    hide NoFall, Y;
  }

  /** From the switch on, in the search for the next extreme that lasts up to `to`. */
  lemma LowerAfter(v: seq<real>, delta: real, max: bool, begin: nat, s: Switch, to: nat, j: nat)
    requires delta > 0.0 && IsSwitch(v, delta, max, begin, s) && s.at <= j < to <= |v|
    requires NoFall(v, delta, !max, s.at, to)
    ensures Y(v, max, j) <= Y(v, max, s.peak)
  {
    assert FallsLittle(v, delta, !max, s.at, j);
  }
}
