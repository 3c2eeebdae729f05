/** Small facts about products, quotients and remainders that the other modules share. */
module Arithmetic {

  lemma MulMonotone(a: int, b: int, n: nat)
    requires a <= b
    ensures a * n <= b * n
  {
  }

  /** Quotient and remainder are the only way to write `a` as `r + q * n` with `r < n`. */
  lemma DivModUnique(a: nat, n: nat, q: nat, r: nat)
    requires 0 < n && r < n && a == r + q * n
    ensures a / n == q && a % n == r
  {
    var d := a / n - q;
    assert a == a / n * n + a % n;
    assert d * n == r - a % n by {
      assert d * n == a / n * n - q * n;
    }
    if d >= 1 {
      MulMonotone(1, d, n);
    } else if d <= -1 {
      MulMonotone(d, -1, n);
    }
  }

  lemma QuotientAtLeast(a: nat, n: nat, m: nat)
    requires 0 < n
    ensures a / n >= m <==> a >= m * n
  {
    DivMod(a, n);
    if a / n >= m {
      MulMonotone(m, a / n, n);
    } else {
      MulMonotone(a / n + 1, m, n);
    }
  }

  lemma DivMod(a: nat, n: nat)
    requires 0 < n
    ensures a == a % n + a / n * n && 0 <= a % n < n
  {
  }

  lemma QuotientOfParts(n: nat, c: nat, q: nat, q': nat, r: nat, r': nat)
    requires r < n && r' < n && c == r + r' + (q * n + q' * n)
    ensures q + q' <= c / n <= q + q' + 1
  {
    assert q * n + q' * n == (q + q') * n;
    if r + r' < n {
      DivModUnique(c, n, q + q', r + r');
    } else {
      assert (q + q' + 1) * n == (q + q') * n + n;
      DivModUnique(c, n, q + q' + 1, r + r' - n);
    }
  }

  lemma QuotientOfSum(a: nat, b: nat, n: nat)
    requires 0 < n
    ensures a / n + b / n <= (a + b) / n <= a / n + b / n + 1
  {
    DivMod(a, n);
    DivMod(b, n);
    QuotientOfParts(n, a + b, a / n, b / n, a % n, b % n);
  }

  /** A position that is `p` past a multiple of `k`, below a multiple `n` of `k`, leaves room for `k - p` more. */
  lemma RoomLeft(n: nat, k: nat, cursor: nat, p: nat)
    requires 0 < k && n % k == 0 && cursor < n && cursor % k == p
    ensures cursor + k - p <= n
  {
    var q, m := cursor / k, n / k;
    assert q * k + p == cursor && m * k == n;
    if m <= q {
      MulMonotone(m, q, k);
    } else {
      MulMonotone(q + 1, m, k);
    }
  }

  lemma CyclicNext(n: nat, cursor: nat)
    requires cursor < n
    ensures (cursor + 1) % n == if cursor + 1 == n then 0 else cursor + 1
  {
    if cursor + 1 == n {
      DivModUnique(n, n, 1, 0);
    } else {
      DivModUnique(cursor + 1, n, 0, cursor + 1);
    }
  }

  lemma NextInGroup(k: nat, cursor: nat, p: nat)
    requires 0 < k && cursor % k == p
    ensures (cursor + 1) % k == if p + 1 < k then p + 1 else 0
  {
    var q := cursor / k;
    assert cursor == p + q * k;
    if p + 1 < k {
      DivModUnique(cursor + 1, k, q, p + 1);
    } else {
      assert cursor + 1 == 0 + (q + 1) * k;
      DivModUnique(cursor + 1, k, q + 1, 0);
    }
  }

  /** A cyclic cursor over a whole number of groups of `k` advances within its group, then to the next. */
  lemma CursorAdvances(n: nat, k: nat, cursor: nat, next: nat, p: nat)
    requires 0 < k && n % k == 0 && cursor < n && cursor % k == p && next == (cursor + 1) % n
    ensures next < n
    ensures next % k == if p + 1 < k then p + 1 else 0
    ensures p + 1 < k ==> next == cursor + 1
  {
    RoomLeft(n, k, cursor, p);
    CyclicNext(n, cursor);
    NextInGroup(k, cursor, p);
  }

  /** Adding one before or after taking the remainder is the same. */
  lemma NextMod(a: nat, n: nat)
    requires 0 < n
    ensures (a % n + 1) % n == (a + 1) % n
  {
    DivMod(a, n);
    NextModParts(a, n, a / n, a % n);
  }

  lemma NextModParts(a: nat, n: nat, q: nat, r: nat)
    requires r < n && a == r + q * n
    ensures (r + 1) % n == (a + 1) % n
  {
    assert (q + 1) * n == q * n + n;
    CyclicNext(n, r);
    if r + 1 == n {
      DivModUnique(a + 1, n, q + 1, 0);
    } else {
      DivModUnique(a + 1, n, q, r + 1);
    }
  }

  /** Numbers less than `n` apart have different remainders, numbers `n` apart the same. */
  lemma ModDiffers(a: nat, b: nat, n: nat)
    requires 0 < n && a < b < a + n
    ensures a % n != b % n
  {
    DivMod(a, n);
    ModDiffersParts(a, b, n, a / n, a % n);
  }

  lemma ModDiffersParts(a: nat, b: nat, n: nat, q: nat, r: nat)
    requires r < n && a == r + q * n && a < b < a + n
    ensures b % n != r
  {
    var d := b - a;
    assert (q + 1) * n == q * n + n;
    if r + d < n {
      DivModUnique(b, n, q, r + d);
    } else {
      DivModUnique(b, n, q + 1, r + d - n);
    }
  }

  lemma ModPeriod(a: nat, n: nat)
    requires 0 < n
    ensures (a + n) % n == a % n
  {
    DivMod(a, n);
    ModPeriodParts(a, n, a / n, a % n);
  }

  lemma ModPeriodParts(a: nat, n: nat, q: nat, r: nat)
    requires r < n && a == r + q * n
    ensures (a + n) % n == r
  {
    assert (q + 1) * n == q * n + n;
    DivModUnique(a + n, n, q + 1, r);
  }
}
