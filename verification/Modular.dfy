/** The circular index i modulo n, as a recursion that takes off one lap at a
    time.  `WrapIsMod` identifies it with the `%` of the source. */
module Modular {

  function Wrap(i: nat, n: nat): (r: nat)
    requires n > 0
    ensures r < n
  {
    if i < n then i else Wrap(i - n, n)
  }

  lemma {:induction false} WrapIsMod(i: nat, n: nat)
    requires n > 0
    ensures Wrap(i, n) == i % n
  {
    if i >= n {
      WrapIsMod(i - n, n);
      var q, m := (i - n) / n, (i - n) % n;
      assert i == (q + 1) * n + m;
      DivModUnique(i, q + 1, m, n);
    }
  }

  /** The number of laps taken off. */
  function Quot(i: nat, n: nat): (q: nat)
    requires n > 0
  {
    if i < n then 0 else 1 + Quot(i - n, n)
  }

  lemma {:induction false} QuotIsDiv(i: nat, n: nat)
    requires n > 0
    ensures Quot(i, n) == i / n
  {
    if i >= n {
      QuotIsDiv(i - n, n);
      var q, m := (i - n) / n, (i - n) % n;
      assert i == (q + 1) * n + m;
      DivModUnique(i, q + 1, m, n);
    } else {
      DivModUnique(i, 0, i, n);
    }
  }

  lemma {:induction false} QuotWrap(i: nat, n: nat)
    requires n > 0
    ensures i == Quot(i, n) * n + Wrap(i, n)
  {
    if i >= n {
      QuotWrap(i - n, n);
      assert (1 + Quot(i - n, n)) * n == n + Quot(i - n, n) * n;
    }
  }

  method DivMod(i: nat, n: nat) returns (q: nat, m: nat)
    requires n > 0
    ensures q == Quot(i, n) && m == Wrap(i, n)
  {
    QuotIsDiv(i, n);
    WrapIsMod(i, n);
    q, m := i / n, i % n;
  }

  lemma {:induction false} DivModUnique(a: nat, q: nat, m: nat, n: nat)
    requires n > 0 && m < n && a == q * n + m
    ensures a / n == q && a % n == m
  {
    var q', m' := a / n, a % n;
    if q > q' {
      MulMonotone(q' + 1, q, n);
    } else if q < q' {
      MulMonotone(q + 1, q', n);
    }
  }

  lemma {:induction false} MulMonotone(a: nat, b: nat, n: nat)
    requires a <= b
    ensures a * n <= b * n
  {
  }

  /** Walking k cells, at most one lap, from the cell of a. */
  lemma {:induction false} WrapStep(a: nat, k: nat, n: nat)
    requires n > 0 && k <= n
    ensures Wrap(a + k, n) == if Wrap(a, n) + k < n then Wrap(a, n) + k else Wrap(a, n) + k - n
  {
    if a >= n {
      WrapStep(a - n, k, n);
      assert a + k - n == (a - n) + k;
    }
  }

  lemma {:induction false} WrapAdd(a: nat, k: nat, n: nat)
    requires n > 0
    ensures Wrap(Wrap(a, n) + k, n) == Wrap(a + k, n)
  {
    if a >= n {
      WrapAdd(a - n, k, n);
      assert a + k - n == (a - n) + k;
    }
  }
}
