/** Index arithmetic on a ring of `n` slides: `(i - 1 + n) % n` and
    `(i + 1) % n`. Both operands are non-negative, so JavaScript's `%` and
    Dafny's agree. */
module Cyclic {

  function Prev(i: nat, n: nat): (r: nat)
    requires n > 0
    ensures r < n
    ensures 0 < i < n ==> r == i - 1
    ensures i == 0 ==> r == n - 1
  {
    (i - 1 + n) % n
  }

  function Next(i: nat, n: nat): (r: nat)
    requires n > 0
    ensures r < n
    ensures i + 1 < n ==> r == i + 1
    ensures i + 1 == n ==> r == 0
  {
    (i + 1) % n
  }

  /** Stepping back undoes stepping forward, and the other way round. */
  lemma PrevNextInverse(i: nat, n: nat)
    requires i < n
    ensures Prev(Next(i, n), n) == i
    ensures Next(Prev(i, n), n) == i
  {
  }

  /** On a ring of three or more, a slide and its two neighbours are three
      different slides. */
  lemma NeighboursDistinct(i: nat, n: nat)
    requires i < n && n >= 3
    ensures Prev(i, n) != i && Next(i, n) != i && Prev(i, n) != Next(i, n)
  {
  }

  /** Adding one after reducing is reducing after adding one. */
  lemma ModStep(a: nat, n: nat)
    requires n > 0
    ensures ((a % n) + 1) % n == (a + 1) % n
  {
    var q, m := a / n, a % n;
    assert a == q * n + m;
    if m + 1 < n {
      ModUnique(a + 1, n, q, m + 1);
    } else {
      assert a + 1 == (q + 1) * n;
      ModUnique(a + 1, n, q + 1, 0);
    }
  }

  /** The remainder is the one `m` in [0, n) with x = q * n + m. */
  lemma ModUnique(x: int, n: int, q: int, m: int)
    requires n > 0 && 0 <= m < n && x == q * n + m
    ensures x % n == m
  {
    var q', m' := x / n, x % n;
    assert x == q' * n + m';
    assert (q - q') * n == q * n - q' * n;
    if q - q' >= 1 {
      MulAtLeast(q - q', n);
    } else if q' - q >= 1 {
      MulAtLeast(q' - q, n);
    }
  }

  lemma MulAtLeast(a: int, n: int)
    requires a >= 1 && n > 0
    ensures a * n >= n
  {
    assert a * n == (a - 1) * n + n;
  }
}
