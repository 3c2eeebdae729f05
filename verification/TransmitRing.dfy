/** A ring that is written in serial order: item `n` goes to cell `n` modulo its size. */
module TransmitRing {
  import opened Arithmetic

  /** The last of the first `total` items that went to the cell of item `n`. */
  function Latest(n: nat, total: nat, size: nat): (m: nat)
    requires 0 < size && n < total
    ensures n <= m < total <= m + size && m % size == n % size
    ensures m == n <==> total <= n + size
    ensures m == n || n + size <= m
    decreases total - n
  {
    if total <= n + size then n
    else
      ModPeriod(n, size);
      Latest(n + size, total, size)
  }

  /** It is the only one of the last `size` items there. */
  lemma LatestUnique(n: nat, m: nat, total: nat, size: nat)
    requires 0 < size && n < total && m < total <= m + size && m % size == n % size
    ensures m == Latest(n, total, size)
  {
    var l := Latest(n, total, size);
    if m < l {
      ModDiffers(m, l, size);
    } else if l < m {
      ModDiffers(l, m, size);
    }
  }

  /** Of `total` items written, the last `|cells|` are in their cells. */
  ghost predicate Holds<T(!new)>(cells: seq<T>, total: nat, item: nat -> T)
    requires 0 < |cells|
  {
    forall n: nat | n < total <= n + |cells| :: cells[n % |cells|] == item(n)
  }

  lemma HoldsOn<T(!new)>(cells: seq<T>, total: nat, item: nat -> T)
    requires 0 < |cells| && Holds(cells, total, item)
    ensures Holds(cells[total % |cells| := item(total)], total + 1, item)
  {
    var cells' := cells[total % |cells| := item(total)];
    forall n: nat | n < total + 1 <= n + |cells'| ensures cells'[n % |cells'|] == item(n) {
      if n < total {
        ModDiffers(n, total, |cells|);
      }
    }
  }

  /** What a cell holds at any time: the item that went there last. */
  lemma CellHoldsLatest<T(!new)>(cells: seq<T>, total: nat, item: nat -> T, n: nat)
    requires 0 < |cells| && Holds(cells, total, item) && n < total
    ensures cells[n % |cells|] == item(Latest(n, total, |cells|))
  {
    var m := Latest(n, total, |cells|);
    assert cells[m % |cells|] == item(m);
  }
}
