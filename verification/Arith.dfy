/** Rounding up to a multiple, with the few facts about division the other modules use. */
module Arith {

  /** ALIGN(n, m) */
  function AlignUp(n: nat, m: nat): (r: nat)
    requires m > 0
    ensures n <= r < n + m && r % m == 0
  {
    RoundedDown(n + m - 1, m);
    (n + m - 1) / m * m
  }

  lemma AlignUpZero(n: nat, m: nat)
    requires m > 0
    ensures AlignUp(n, m) == 0 <==> n == 0
  {
    if n == 0 {
      ModUnique(m - 1, m, 0, m - 1);
    }
  }

  lemma RoundedDown(n: nat, m: nat)
    requires m > 0
    ensures n / m * m <= n < n / m * m + m && (n / m * m) % m == 0
  {
    assert n == n / m * m + n % m;
    MulMod(n / m, m);
  }

  lemma {:induction false} MulMod(k: nat, m: nat)
    requires m > 0
    ensures (k * m) % m == 0
  {
    if k > 0 {
      MulMod(k - 1, m);
      assert k * m == (k - 1) * m + m;
      AddMod((k - 1) * m, m);
    }
  }

  lemma MulGap(i: nat, j: nat, m: nat)
    requires i < j
    ensures i * m + m <= j * m
  {
    assert j * m == i * m + (j - i) * m;
    assert (j - i) * m == m + (j - i - 1) * m;
  }

  lemma ModUnique(a: nat, m: nat, q: nat, r: nat)
    requires m > 0 && a == q * m + r && r < m
    ensures a / m == q && a % m == r
  {
    var q' := a / m;
    QuotientAndRest(a, m);
    if q < q' {
      MulGap(q, q', m);
    } else if q' < q {
      MulGap(q', q, m);
    }
  }

  lemma QuotientAndRest(a: nat, m: nat)
    requires m > 0
    ensures a / m * m <= a < a / m * m + m && a % m == a - a / m * m
  {
  }

  lemma AddMod(a: nat, m: nat)
    requires m > 0
    ensures (a + m) % m == a % m && (a + m) / m == a / m + 1
  {
    QuotientAndRest(a, m);
    assert (a / m + 1) * m == a / m * m + m;
    ModUnique(a + m, m, a / m + 1, a - a / m * m);
  }

  /** Nothing between two consecutive multiples. */
  lemma AlignedBelow(n: nat, k: nat, m: nat)
    requires m > 0 && n <= k && k % m == 0
    ensures AlignUp(n, m) <= k
  {
    var a := AlignUp(n, m);
    QuotientAndRest(a, m);
    QuotientAndRest(k, m);
    if k < a {
      if k / m < a / m {
        MulGap(k / m, a / m, m);
      } else if a / m < k / m {
        MulGap(a / m, k / m, m);
      }
    }
  }
}
