/** How the base station's radios are split over receive threads, and how a global radio number is turned into
    a cell and a radio of that cell. */
module WorkSplitting {
  import opened Arithmetic
  import opened Common

  /** Thread 0 serves the reference radio alone in reference calibration; otherwise the threads take ranges. */
  datatype Split = Split(radios: nat, threads: nat, calibration: bool, ref: nat) {
    predicate Valid() { 0 < threads && (calibration ==> threads == 2 && ref < radios) }

    /** Where the range of thread `t` starts. */
    function Start(t: nat): nat requires 0 < threads { t * radios / threads }
  }

  method RadiosOfThread(s: Split, tid: nat) returns (ids: seq<nat>)
    requires s.Valid() && tid < s.threads
    ensures Increasing(ids)
    ensures forall r: nat :: r in ids <==> Serves(s, tid, r)
    ensures s.calibration ==> if tid == 0 then ids == [s.ref] else s.ref !in ids
  {
    ids := [];
    if s.calibration {
      if tid == 0 {
        ids := [s.ref];
      } else {
        for it := 0 to s.radios
          invariant Increasing(ids)
          invariant forall k: nat | k < |ids| :: ids[k] < it
          invariant forall r: nat :: r in ids <==> r < it && r != s.ref
        {
          if it != s.ref {
            ids := ids + [it];
          }
        }
      }
    } else {
      var start, end := s.Start(tid), s.Start(tid + 1);
      StartsGrow(s, tid);
      var it := start;
      while it < end
        invariant start <= it <= end && |ids| == it - start
        invariant forall k: nat | k < |ids| :: ids[k] == start + k
      {
        ids := ids + [it];
        it := it + 1;
      }
      forall r: nat ensures r in ids <==> start <= r < end {
        if start <= r < end {
          assert ids[r - start] == r;
        }
      }
    }
  }

  predicate Serves(s: Split, tid: nat, r: nat)
    requires s.Valid()
  {
    if s.calibration then r < s.radios && (r == s.ref <==> tid == 0) else s.Start(tid) <= r < s.Start(tid + 1)
  }

  /** Consecutive ranges, none longer than another by more than one. */
  lemma StartsGrow(s: Split, t: nat)
    requires 0 < s.threads
    ensures s.Start(0) == 0 && s.Start(s.threads) == s.radios
    ensures s.radios / s.threads <= s.Start(t + 1) - s.Start(t) <= s.radios / s.threads + 1
  {
    DivModUnique(s.threads * s.radios, s.threads, s.radios, 0);
    DivModUnique(0, s.threads, 0, 0);
    assert (t + 1) * s.radios == t * s.radios + s.radios;
    QuotientOfSum(t * s.radios, s.radios, s.threads);
  }

  lemma {:induction false} StartsOrdered(s: Split, t: nat, u: nat)
    requires 0 < s.threads && t <= u
    ensures s.Start(t) <= s.Start(u)
    decreases u - t
  {
    if t < u {
      StartsOrdered(s, t, u - 1);
      StartsGrow(s, u - 1);
    }
  }

  lemma {:induction false} SomeRange(s: Split, r: nat, k: nat) returns (t: nat)
    requires 0 < s.threads && r < s.Start(k)
    ensures t < k && s.Start(t) <= r < s.Start(t + 1)
    decreases k
  {
    StartsGrow(s, 0);
    if k > 0 && s.Start(k - 1) > r {
      t := SomeRange(s, r, k - 1);
    } else {
      t := k - 1;
    }
  }

  /** Every radio is served by exactly one thread. */
  lemma OneThreadServes(s: Split, r: nat) returns (t: nat)
    requires s.Valid() && r < s.radios
    ensures t < s.threads && Serves(s, t, r)
    ensures forall u: nat | u < s.threads && Serves(s, u, r) :: u == t
  {
    if s.calibration {
      t := if r == s.ref then 0 else 1;
    } else {
      StartsGrow(s, 0);
      t := SomeRange(s, r, s.threads);
      forall u: nat | u < s.threads && Serves(s, u, r) ensures u == t {
        if u < t {
          StartsOrdered(s, u + 1, t);
        } else if t < u {
          StartsOrdered(s, t + 1, u);
        }
      }
    }
  }

  // ----- cells -----

  function Sum(sizes: seq<nat>, k: nat): nat
    requires k <= |sizes|
    decreases k
  {
    if k == 0 then 0 else Sum(sizes, k - 1) + sizes[k - 1]
  }

  ghost predicate IsPrefixSums(sizes: seq<nat>, agg: seq<nat>) {
    |agg| == |sizes| + 1 && forall k: nat | k < |agg| :: agg[k] == Sum(sizes, k)
  }

  method PrefixSums(sizes: seq<nat>) returns (agg: seq<nat>)
    ensures IsPrefixSums(sizes, agg)
  {
    agg := [0];
    for i := 0 to |sizes|
      invariant |agg| == i + 1 && forall k: nat | k < |agg| :: agg[k] == Sum(sizes, k)
    {
      agg := agg + [agg[i] + sizes[i]];
    }
  }

  lemma {:induction false} SumGrows(sizes: seq<nat>, j: nat, k: nat)
    requires j <= k <= |sizes|
    ensures Sum(sizes, j) <= Sum(sizes, k)
    decreases k - j
  {
    if j < k {
      SumGrows(sizes, j, k - 1);
    }
  }

  /** The receive loop's search.  Empty cells are skipped. */
  method FindCell(sizes: seq<nat>, agg: seq<nat>, it: nat) returns (cell: nat)
    requires IsPrefixSums(sizes, agg) && it < Sum(sizes, |sizes|)
    ensures cell < |sizes| && Sum(sizes, cell) <= it < Sum(sizes, cell) + sizes[cell]
    ensures forall c: nat | c < |sizes| && Sum(sizes, c) <= it < Sum(sizes, c) + sizes[c] :: c == cell
  {
    var i := 0;
    while it >= agg[i]
      invariant i <= |sizes| && forall k: nat | k < i :: agg[k] <= it
      decreases |sizes| - i
    {
      i := i + 1;
    }
    cell := i - 1;
    forall c: nat | c < |sizes| && Sum(sizes, c) <= it < Sum(sizes, c) + sizes[c] ensures c == cell {
      DecodeUnique(sizes, cell, it - Sum(sizes, cell), c, it - Sum(sizes, c));
    }
  }

  /** A cell and a radio of it have a global number of their own. */
  lemma DecodeUnique(sizes: seq<nat>, c: nat, r: nat, c': nat, r': nat)
    requires c < |sizes| && r < sizes[c] && c' < |sizes| && r' < sizes[c']
    requires Sum(sizes, c) + r == Sum(sizes, c') + r'
    ensures c == c' && r == r'
  {
    if c < c' {
      SumGrows(sizes, c + 1, c');
    } else if c' < c {
      SumGrows(sizes, c' + 1, c);
    }
  }
}
