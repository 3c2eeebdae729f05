/** Peak detection with a minimum distance between peaks.  Samples are reals, so there is no NaN. */
module DetectPeaks {
  import opened Common

  datatype Edge = NoEdge | Rising | Falling | Both

  datatype Params = Params(minHeight: Option<real>, minDistance: int, threshold: real, edge: Edge, keepSameHeight: bool,
                           valley: bool)

  function Signal(p: Params, x: seq<real>): (y: seq<real>)
    ensures |y| == |x|
  {
    if p.valley then seq(|x|, i requires 0 <= i < |x| => -x[i]) else x
  }

  // ----- candidates -----

  predicate RisingEdge(x: seq<real>, i: nat) requires 0 < i < |x| - 1 { x[i + 1] <= x[i] && x[i] > x[i - 1] }

  predicate FallingEdge(x: seq<real>, i: nat) requires 0 < i < |x| - 1 { x[i + 1] < x[i] && x[i] >= x[i - 1] }

  /** A local maximum by the chosen edges, high enough, and above both neighbours by the threshold. */
  predicate IsCandidate(p: Params, x: seq<real>, i: nat) {
    && 0 < i < |x| - 1
    && (match p.edge
        case NoEdge => RisingEdge(x, i) && FallingEdge(x, i)
        case Rising => RisingEdge(x, i)
        case Falling => FallingEdge(x, i)
        case Both => RisingEdge(x, i) || FallingEdge(x, i))
    && (p.minHeight.None? || x[i] >= p.minHeight.value)
    && (p.threshold > 0.0 ==> x[i] - x[i - 1] >= p.threshold && x[i] - x[i + 1] >= p.threshold)
  }

  /** The candidates below `n`. */
  function Candidates(p: Params, x: seq<real>, n: nat): (s: seq<nat>)
    ensures Increasing(s) && forall k: nat | k < |s| :: s[k] < n
    ensures forall i: nat :: i in s <==> i < n && IsCandidate(p, x, i)
    decreases n
  {
    if n == 0 then []
    else Candidates(p, x, n - 1) + if IsCandidate(p, x, n - 1) then [n - 1] else []
  }

  // ----- suppression -----

  /** `order` lists candidates with the highest first; ties may be in any order, as an unstable sort leaves them. */
  ghost predicate ByHeight(x: seq<real>, order: seq<nat>) {
    && (forall k: nat | k < |order| :: order[k] < |x|)
    && (forall j: nat, k: nat | j < k < |order| :: order[j] != order[k])
    && (forall j: nat, k: nat | j < k < |order| :: x[order[j]] >= x[order[k]])
  }

  predicate Near(p: Params, a: int, b: int) { a - p.minDistance <= b <= a + p.minDistance }

  /** The peak at `a` suppresses the one at `b`. */
  predicate Suppresses(p: Params, x: seq<real>, a: nat, b: nat)
    requires a < |x| && b < |x|
  {
    a != b && Near(p, a, b) && (p.keepSameHeight ==> x[a] > x[b])
  }

  /** The reference: a candidate is kept if no kept candidate before it in the order suppresses it. */
  ghost predicate Kept(p: Params, x: seq<real>, order: seq<nat>, k: nat)
    requires ByHeight(x, order) && k < |order|
    decreases k
  {
    forall j: nat | j < k && Kept(p, x, order, j) :: !Suppresses(p, x, order[j], order[k])
  }

  lemma KeptDoNotSuppress(p: Params, x: seq<real>, order: seq<nat>, j: nat, k: nat)
    requires ByHeight(x, order) && j < |order| && k < |order|
    requires Kept(p, x, order, j) && Kept(p, x, order, k)
    ensures !Suppresses(p, x, order[j], order[k])
  {
    if j < k {
      assert !Suppresses(p, x, order[j], order[k]);
    } else if k < j {
      assert !Suppresses(p, x, order[k], order[j]);
    }
  }

  /** One of the first `i` candidates is kept and suppresses candidate `k`, which comes after it. */
  ghost predicate DeletedBy(p: Params, x: seq<real>, order: seq<nat>, k: nat, i: nat)
    requires ByHeight(x, order) && k < |order|
  {
    exists j: nat :: j < k && j < i && Kept(p, x, order, j) && Suppresses(p, x, order[j], order[k])
  }

  lemma DeletedStep(p: Params, x: seq<real>, order: seq<nat>, k: nat, i: nat)
    requires ByHeight(x, order) && k < |order| && i < |order|
    ensures Kept(p, x, order, i) ==> (DeletedBy(p, x, order, k, i + 1) <==>
              k != i && (DeletedBy(p, x, order, k, i) || Suppresses(p, x, order[i], order[k])))
    ensures !Kept(p, x, order, i) ==> (DeletedBy(p, x, order, k, i + 1) <==> DeletedBy(p, x, order, k, i))
    ensures Kept(p, x, order, i) <==> !DeletedBy(p, x, order, i, i)
  {
    hide Suppresses;
    if Kept(p, x, order, i) && k != i {
      if k < i && Suppresses(p, x, order[i], order[k]) {
        if Kept(p, x, order, k) {
          KeptDoNotSuppress(p, x, order, i, k);
        }
        assert DeletedBy(p, x, order, k, i);
      }
      if i < k && Suppresses(p, x, order[i], order[k]) {
        assert DeletedBy(p, x, order, k, i + 1);
      }
    }
  }

  lemma NothingDeleted(p: Params, x: seq<real>, order: seq<nat>, k: nat)
    requires ByHeight(x, order) && k < |order|
    ensures !DeletedBy(p, x, order, k, 0)
    ensures DeletedBy(p, x, order, k, |order|) <==> !Kept(p, x, order, k)
  {
  }

  /** The loop over the mask.  A kept peak is never deleted later, and each deletion is by a kept peak. */
  method Suppress(p: Params, x: seq<real>, order: seq<nat>) returns (deleted: array<bool>)
    requires ByHeight(x, order)
    ensures fresh(deleted) && deleted.Length == |order|
    ensures forall k: nat | k < |order| :: deleted[k] <==> !Kept(p, x, order, k)
  {
    hide Suppresses, DeletedBy, Kept, ByHeight;
    InRange(x, order);
    deleted := new bool[|order|](_ => false);
    forall k: nat | k < |order|
      ensures !DeletedBy(p, x, order, k, 0) && (DeletedBy(p, x, order, k, |order|) <==> !Kept(p, x, order, k))
    {
      NothingDeleted(p, x, order, k);
    }
    for i := 0 to |order|
      invariant forall k: nat | k < |order| :: deleted[k] <==> DeletedBy(p, x, order, k, i)
    {
      forall k: nat | k < |order|
        ensures Kept(p, x, order, i) ==> (DeletedBy(p, x, order, k, i + 1) <==>
                  k != i && (DeletedBy(p, x, order, k, i) || Suppresses(p, x, order[i], order[k])))
        ensures !Kept(p, x, order, i) ==> (DeletedBy(p, x, order, k, i + 1) <==> DeletedBy(p, x, order, k, i))
        ensures Kept(p, x, order, i) <==> !DeletedBy(p, x, order, i, i)
      {
        DeletedStep(p, x, order, k, i);
      }
      if !deleted[i] {
        forall k | 0 <= k < |order| {
          deleted[k] := k != i && (deleted[k] || Suppresses(p, x, order[i], order[k]));
        }
      }
    }
  }

  lemma InRange(x: seq<real>, order: seq<nat>)
    requires ByHeight(x, order)
    ensures forall k: nat | k < |order| :: order[k] < |x|
  {
  }

  /** The sorted positions of the peaks that were not deleted. */
  method SortKept(order: seq<nat>, deleted: array<bool>, n: nat) returns (ind: seq<nat>)
    requires deleted.Length == |order| && forall k: nat | k < |order| :: order[k] < n
    ensures Increasing(ind)
    ensures forall i: nat :: i in ind <==> exists k: nat :: k < |order| && order[k] == i && !deleted[k]
  {
    ind := [];
    for i := 0 to n
      invariant Increasing(ind) && forall k: nat | k < |ind| :: ind[k] < i
      invariant forall j: nat :: j in ind <==> j < i && exists k: nat :: k < |order| && order[k] == j && !deleted[k]
    {
      var found := false;
      for k := 0 to |order|
        invariant found <==> exists m: nat :: m < k && order[m] == i && !deleted[m]
      {
        if order[k] == i && !deleted[k] {
          found := true;
        }
      }
      if found {
        ind := ind + [i];
      }
    }
  }

  /** Peaks are further apart than the minimum distance; if peaks of the same height are kept, only those may be nearer. */
  ghost predicate Apart(p: Params, x: seq<real>, ind: seq<nat>)
    requires forall i: nat | i in ind :: i < |x|
  {
    forall a: nat, b: nat | a in ind && b in ind && a < b <= a + p.minDistance :: p.keepSameHeight && x[a] == x[b]
  }

  /** A peak that is at least as high stands near sample `i`; if peaks of the same height are kept, a higher one. */
  ghost predicate Outdone(p: Params, x: seq<real>, ind: seq<nat>, i: nat)
    requires i < |x| && forall a: nat | a in ind :: a < |x|
  {
    exists a: nat :: a in ind && i - p.minDistance <= a <= i + p.minDistance && x[a] >= x[i] &&
                     (p.keepSameHeight ==> x[a] > x[i])
  }

  /** What the detector promises about its result, given the signal `x`. */
  ghost predicate IsSelection(p: Params, x: seq<real>, ind: seq<nat>) {
    && Increasing(ind)
    && (forall i: nat | i in ind :: IsCandidate(p, x, i))
    && (p.minDistance > 1 ==> Apart(p, x, ind))
    && forall i: nat | IsCandidate(p, x, i) && i !in ind :: p.minDistance > 1 && Outdone(p, x, ind, i)
  }

  /** `ind` is what is kept of `order`. */
  ghost predicate IsKept(p: Params, x: seq<real>, order: seq<nat>, ind: seq<nat>)
    requires ByHeight(x, order)
  {
    forall i: nat :: i in ind <==> exists k: nat :: k < |order| && order[k] == i && Kept(p, x, order, k)
  }

  lemma KeptAreApart(p: Params, x: seq<real>, order: seq<nat>, ind: seq<nat>)
    requires ByHeight(x, order) && IsKept(p, x, order, ind)
    ensures forall i: nat | i in ind :: i < |x| && i in order
    ensures Apart(p, x, ind)
  {
    hide Kept;
    forall a: nat, b: nat | a in ind && b in ind && a < b <= a + p.minDistance
      ensures p.keepSameHeight && x[a] == x[b]
    {
      var j: nat :| j < |order| && order[j] == a && Kept(p, x, order, j);
      var k: nat :| k < |order| && order[k] == b && Kept(p, x, order, k);
      KeptDoNotSuppress(p, x, order, j, k);
      KeptDoNotSuppress(p, x, order, k, j);
    }
  }

  lemma DroppedAreOutdone(p: Params, x: seq<real>, order: seq<nat>, ind: seq<nat>, i: nat)
    requires ByHeight(x, order) && IsKept(p, x, order, ind) && i in order && i !in ind
    requires forall a: nat | a in ind :: a < |x|
    ensures Outdone(p, x, ind, i)
  {
    var k: nat :| k < |order| && order[k] == i;
    var j: nat :| j < k && Kept(p, x, order, j) && Suppresses(p, x, order[j], order[k]);
    assert order[j] in ind;
  }

  lemma KeptAreSelection(p: Params, x: seq<real>, order: seq<nat>, ind: seq<nat>)
    requires ByHeight(x, order) && p.minDistance > 1 && Increasing(ind) && IsKept(p, x, order, ind)
    requires forall i: nat :: i in order <==> IsCandidate(p, x, i)
    ensures IsSelection(p, x, ind)
  {
    hide IsKept, Apart, Outdone, ByHeight;
    KeptAreApart(p, x, order, ind);
    forall i: nat | IsCandidate(p, x, i) && i !in ind ensures Outdone(p, x, ind, i) {
      DroppedAreOutdone(p, x, order, ind, i);
    }
  }

  /** The whole detector; `order` is what sorting the candidates by height gives. */
  method Detect(p: Params, signal: seq<real>, order: seq<nat>) returns (ind: seq<nat>)
    requires ByHeight(Signal(p, signal), order)
    requires forall i: nat :: i in order <==> IsCandidate(p, Signal(p, signal), i)
    ensures IsSelection(p, Signal(p, signal), ind)
  {
    if |signal| < 3 {
      return [];
    }
    var x := Signal(p, signal);
    ind := Candidates(p, x, |x|);
    if ind != [] && p.minDistance > 1 {
      var deleted := Suppress(p, x, order);
      ind := SortKept(order, deleted, |x|);
      KeptAreSelection(p, x, order, ind);
    }
  }

  // ----- what is detected -----

  /** On a flat top from `a` to `b` the rising edge gives its first sample, the falling edge its last, both give both,
      and with no edge asked for only a top of one sample counts. */
  lemma FlatTop(p: Params, x: seq<real>, a: nat, b: nat, i: nat)
    requires p.minHeight.None? && p.threshold <= 0.0
    requires 0 < a <= i <= b < |x| - 1 && x[a - 1] < x[a] && x[b + 1] < x[b]
    requires forall k: nat | a <= k <= b :: x[k] == x[a]
    ensures IsCandidate(p, x, i) <==>
      match p.edge
      case NoEdge => a == b
      case Rising => i == a
      case Falling => i == b
      case Both => i == a || i == b
  {
    assert a < i ==> x[i - 1] == x[a];
    assert i < b ==> x[i + 1] == x[a];
  }

  /** A minimum height and a threshold only take candidates away: those too low, and those not far enough above one of
      their neighbours. */
  lemma FiltersOnlyRemove(p: Params, x: seq<real>, i: nat)
    ensures IsCandidate(p, x, i) <==>
      && IsCandidate(p.(minHeight := None, threshold := 0.0), x, i)
      && (p.minHeight.Some? ==> x[i] >= p.minHeight.value)
      && (p.threshold > 0.0 ==> x[i - 1] <= x[i] - p.threshold && x[i + 1] <= x[i] - p.threshold)
  {
  }

  /** Looking for valleys finds samples that are nowhere above their neighbours and at most as high as the height given,
      turned upside down; looking for peaks the other way round. */
  lemma ValleysAreLow(p: Params, x: seq<real>, i: nat)
    requires IsCandidate(p, Signal(p, x), i)
    ensures 0 < i < |x| - 1
    ensures if p.valley then x[i] <= x[i - 1] && x[i] <= x[i + 1] else x[i] >= x[i - 1] && x[i] >= x[i + 1]
    ensures x[i] != x[i - 1] || x[i] != x[i + 1]
    ensures p.minHeight.Some? ==> if p.valley then x[i] <= -p.minHeight.value else x[i] >= p.minHeight.value
  {
  }
}
