/** Recovering the chains of boards from which board triggers which. */
module FindArrays {
  import opened Common

  /** `triggered[i]` lists, in increasing order, the boards that board `i` triggers. */
  predicate Observed(triggered: seq<seq<nat>>) {
    forall i: nat | i < |triggered| ::
      Increasing(triggered[i]) && forall k: nat | k < |triggered[i]| :: triggered[i][k] < |triggered|
  }

  /** The boards form disjoint chains: board `i` is at `place[i]` in chain `chain[i]`, and triggers itself and all that
      comes after it. */
  predicate AreChains(triggered: seq<seq<nat>>, chain: seq<nat>, place: seq<nat>) {
    && Observed(triggered) && |chain| == |place| == |triggered|
    && (forall i: nat, j: nat | i < |chain| && j < |chain| && chain[i] == chain[j] && place[i] == place[j] :: i == j)
    && (forall i: nat, j: nat | i < |chain| && j < |chain| ::
          j in triggered[i] <==> chain[j] == chain[i] && place[i] <= place[j])
  }

  ghost predicate IsHead(chain: seq<nat>, place: seq<nat>, i: nat)
    requires i < |chain| == |place|
  {
    forall j: nat | j < |chain| && chain[j] == chain[i] :: place[i] <= place[j]
  }

  /** Some other board triggers `j`. */
  predicate Downstream(triggered: seq<seq<nat>>, j: nat) {
    exists i: nat :: i < |triggered| && i != j && j in triggered[i]
  }

  method MarkHeads(triggered: seq<seq<nat>>) returns (head: array<bool>)
    requires Observed(triggered)
    ensures head.Length == |triggered| && fresh(head)
    ensures forall j: nat | j < |triggered| :: head[j] <==> !Downstream(triggered, j)
  {
    head := new bool[|triggered|](_ => true);
    for i := 0 to |triggered|
      invariant forall j: nat | j < |triggered| :: head[j] <==> !exists h: nat :: h < i && h != j && j in triggered[h]
    {
      ghost var before := head[..];
      for k := 0 to |triggered[i]|
        invariant forall j: nat | j < |triggered| :: head[j] <==> before[j] && !(i != j && j in triggered[i][..k])
      {
        var j := triggered[i][k];
        if j != i {
          head[j] := false;
        }
      }
      assert triggered[i][..|triggered[i]|] == triggered[i];
    }
  }

  /** The boards marked are exactly the heads of the chains. */
  lemma MarkedAreHeads(triggered: seq<seq<nat>>, chain: seq<nat>, place: seq<nat>, j: nat)
    requires AreChains(triggered, chain, place) && j < |chain|
    ensures !Downstream(triggered, j) <==> IsHead(chain, place, j)
  {
    if !IsHead(chain, place, j) {
      var i: nat :| i < |chain| && chain[i] == chain[j] && place[i] < place[j];
      assert j in triggered[i] && i != j;
    } else {
      forall i: nat | i < |triggered| && i != j ensures j !in triggered[i] {
        assert chain[i] == chain[j] ==> place[j] <= place[i] && place[j] != place[i];
      }
    }
  }

  lemma {:induction false} HeadOf(chain: seq<nat>, place: seq<nat>, b: nat) returns (h: nat)
    requires |chain| == |place| && b < |chain|
    ensures h < |chain| && chain[h] == chain[b] && IsHead(chain, place, h)
    decreases place[b]
  {
    if IsHead(chain, place, b) {
      h := b;
    } else {
      var j: nat :| j < |chain| && chain[j] == chain[b] && place[j] < place[b];
      h := HeadOf(chain, place, j);
    }
  }

  // ----- ordering a chain -----

  /** The sort key: boards that trigger more come first, and of two equal ones the one with the larger number. */
  predicate Precedes(triggered: seq<seq<nat>>, a: nat, b: nat)
    requires a < |triggered| && b < |triggered|
  {
    |triggered[a]| > |triggered[b]| || (|triggered[a]| == |triggered[b]| && a >= b)
  }

  predicate Sorted(triggered: seq<seq<nat>>, s: seq<nat>) {
    && (forall k: nat | k < |s| :: s[k] < |triggered|)
    && forall j: nat, k: nat | j < k < |s| :: Precedes(triggered, s[j], s[k])
  }

  method Insert(triggered: seq<seq<nat>>, s: seq<nat>, b: nat) returns (t: seq<nat>)
    requires Sorted(triggered, s) && b < |triggered|
    ensures Sorted(triggered, t) && multiset(t) == multiset(s) + multiset{b}
  {
    hide Precedes;
    var k := 0;
    while k < |s| && Precedes(triggered, s[k], b)
      invariant k <= |s| && forall j: nat | j < k :: Precedes(triggered, s[j], b)
    {
      k := k + 1;
    }
    t := s[..k] + [b] + s[k..];
    PlacedInOrder(triggered, s, b, k);
    PlacedOnce(s, b, k);
  }

  lemma PlacedOnce(s: seq<nat>, b: nat, k: nat)
    requires k <= |s|
    ensures multiset(s[..k] + [b] + s[k..]) == multiset(s) + multiset{b}
  {
    assert s == s[..k] + s[k..];
  }

  lemma PlacedInOrder(triggered: seq<seq<nat>>, s: seq<nat>, b: nat, k: nat)
    requires Sorted(triggered, s) && b < |triggered| && k <= |s|
    requires forall j: nat | j < k :: Precedes(triggered, s[j], b)
    requires k < |s| ==> !Precedes(triggered, s[k], b)
    ensures Sorted(triggered, s[..k] + [b] + s[k..])
  {
    var t := s[..k] + [b] + s[k..];
    forall j: nat | j < |t| ensures t[j] == if j < k then s[j] else if j == k then b else s[j - 1] {
    }
    forall j: nat, l: nat | j < l < |t| ensures Precedes(triggered, t[j], t[l]) {
      if j == k {
        assert Precedes(triggered, b, s[k]);
      }
    }
  }

  method SortBoards(triggered: seq<seq<nat>>, boards: seq<nat>) returns (s: seq<nat>)
    requires forall k: nat | k < |boards| :: boards[k] < |triggered|
    ensures Sorted(triggered, s) && multiset(s) == multiset(boards)
  {
    s := [];
    for k := 0 to |boards|
      invariant Sorted(triggered, s) && multiset(s) == multiset(boards[..k])
    {
      s := Insert(triggered, s, boards[k]);
      assert boards[..k + 1] == boards[..k] + [boards[k]];
    }
    assert boards[..|boards|] == boards;
  }

  ghost function Elements(s: seq<nat>): set<nat> { set i: nat | i in s }

  lemma {:induction false} Distinct(s: seq<nat>)
    requires Increasing(s)
    ensures |Elements(s)| == |s|
    decreases |s|
  {
    if s == [] {
      assert Elements(s) == {};
    } else {
      var n := |s| - 1;
      Distinct(s[..n]);
      assert s == s[..n] + [s[n]];
      assert Elements(s) == Elements(s[..n]) + {s[n]};
      assert s[n] !in s[..n];
    }
  }

  lemma SmallerSet(a: set<nat>, b: set<nat>, x: nat)
    requires a <= b && x in b && x !in a
    ensures |a| < |b|
  {
    assert |b| == |a| + |b - a|;
    assert x in b - a;
  }

  /** Nearer the head of a chain a board triggers more. */
  lemma NearerTriggersMore(triggered: seq<seq<nat>>, chain: seq<nat>, place: seq<nat>, a: nat, b: nat)
    requires AreChains(triggered, chain, place) && a < |chain| && b < |chain|
    requires chain[a] == chain[b] && place[a] < place[b]
    ensures |triggered[a]| > |triggered[b]|
  {
    Distinct(triggered[a]);
    Distinct(triggered[b]);
    forall i: nat | i in triggered[b] ensures i in triggered[a] {
      var k: nat :| k < |triggered[b]| && triggered[b][k] == i;
      assert i < |chain| && chain[i] == chain[b] && place[b] <= place[i];
    }
    SmallerSet(Elements(triggered[b]), Elements(triggered[a]), a);
  }

  /** The boards of the chain of head `h`, in the order of their places. */
  ghost predicate IsChainInOrder(chain: seq<nat>, place: seq<nat>, h: nat, s: seq<nat>)
    requires h < |chain| == |place|
  {
    && (forall b: nat :: b in s <==> b < |chain| && chain[b] == chain[h])
    && (forall k: nat | k < |s| :: s[k] < |chain|)
    && forall j: nat, k: nat | j < k < |s| :: place[s[j]] < place[s[k]]
  }

  lemma SortedNoRepeats(triggered: seq<seq<nat>>, boards: seq<nat>, s: seq<nat>, j: nat, k: nat)
    requires Increasing(boards) && multiset(s) == multiset(boards) && j < k < |s|
    ensures s[j] != s[k]
  {
    if s[j] == s[k] {
      var b := s[j];
      assert s == s[..j] + [b] + s[j + 1..k] + [b] + s[k + 1..];
      assert multiset(s)[b] >= 2;
      OnceInIncreasing(boards, b);
    }
  }

  lemma {:induction false} OnceInIncreasing(s: seq<nat>, b: nat)
    requires Increasing(s)
    ensures multiset(s)[b] <= 1
    decreases |s|
  {
    if s != [] {
      var n := |s| - 1;
      OnceInIncreasing(s[..n], b);
      assert s == s[..n] + [s[n]];
      assert s[n] !in s[..n];
    }
  }

  /** Sorting what a head triggers by how much they trigger lists its chain in order. */
  lemma SortedIsOrdered(triggered: seq<seq<nat>>, chain: seq<nat>, place: seq<nat>, h: nat, s: seq<nat>)
    requires AreChains(triggered, chain, place) && h < |chain| && IsHead(chain, place, h)
    requires Sorted(triggered, s) && multiset(s) == multiset(triggered[h])
    ensures IsChainInOrder(chain, place, h, s)
  {
    forall b: nat ensures b in s <==> b < |chain| && chain[b] == chain[h] {
      assert b in s <==> b in multiset(s);
      assert b in triggered[h] <==> b in multiset(triggered[h]);
    }
    forall j: nat, k: nat | j < k < |s| ensures place[s[j]] < place[s[k]] {
      SortedNoRepeats(triggered, triggered[h], s, j, k);
      assert s[j] in s && s[k] in s;
      if place[s[k]] < place[s[j]] {
        NearerTriggersMore(triggered, chain, place, s[k], s[j]);
      }
    }
  }

  /** The line for board `i`: for a head all it triggers, sorted; for any other board nothing. */
  predicate IsLine(triggered: seq<seq<nat>>, i: nat, line: seq<nat>)
    requires i < |triggered|
  {
    if Downstream(triggered, i) then line == []
    else Sorted(triggered, line) && multiset(line) == multiset(triggered[i])
  }

  /** In a line boards that trigger more come first, and of boards that trigger as many the one with the larger number. */
  lemma LineIsSorted(triggered: seq<seq<nat>>, i: nat, line: seq<nat>, j: nat, k: nat)
    requires i < |triggered| && IsLine(triggered, i, line) && j < k < |line|
    ensures line[j] < |triggered| && line[k] < |triggered|
    ensures |triggered[line[j]]| >= |triggered[line[k]]|
    ensures |triggered[line[j]]| == |triggered[line[k]]| ==> line[j] >= line[k]
  {
    assert Precedes(triggered, line[j], line[k]);
  }

  /** What is printed: for each head its chain, for every other board nothing. */
  method OrderChains(triggered: seq<seq<nat>>) returns (printed: seq<seq<nat>>)
    requires Observed(triggered)
    ensures |printed| == |triggered|
    ensures forall i: nat | i < |triggered| :: IsLine(triggered, i, printed[i])
  {
    var head := MarkHeads(triggered);
    printed := [];
    for i := 0 to |triggered|
      modifies {}
      invariant |printed| == i
      invariant forall j: nat | j < i :: IsLine(triggered, j, printed[j])
    {
      var ordered: seq<nat> := [];
      if head[i] {
        ordered := SortBoards(triggered, triggered[i]);
      }
      printed := printed + [ordered];
    }
  }

  ghost predicate Lists(printed: seq<seq<nat>>, i: nat, k: nat, b: nat) {
    i < |printed| && k < |printed[i]| && printed[i][k] == b
  }

  /** Every board is printed exactly once, in the line of its chain, and each line lists its chain from head to tail. */
  lemma EveryBoardOnce(triggered: seq<seq<nat>>, chain: seq<nat>, place: seq<nat>, printed: seq<seq<nat>>, b: nat)
    returns (i: nat, k: nat)
    requires AreChains(triggered, chain, place) && |printed| == |triggered| && b < |chain|
    requires forall i: nat | i < |triggered| :: IsLine(triggered, i, printed[i])
    ensures Lists(printed, i, k, b) && IsHead(chain, place, i) && IsChainInOrder(chain, place, i, printed[i])
    ensures forall i': nat, k': nat | Lists(printed, i', k', b) :: i' == i && k' == k
  {
    i := HeadOf(chain, place, b);
    MarkedAreHeads(triggered, chain, place, i);
    SortedIsOrdered(triggered, chain, place, i, printed[i]);
    assert b in printed[i];
    k :| k < |printed[i]| && printed[i][k] == b;
    forall i': nat, k': nat | Lists(printed, i', k', b) ensures i' == i && k' == k {
      MarkedAreHeads(triggered, chain, place, i');
      SortedIsOrdered(triggered, chain, place, i', printed[i']);
      assert b in printed[i'];
      assert place[i] <= place[i'] && place[i'] <= place[i];
    }
  }
}
