/** Division with rounding up, and the facts about it the chunking code rests on. */
module Arithmetic {

  function DivCeil(n: nat, k: nat): nat
    requires k > 0
  {
    (n + k - 1) / k
  }

  lemma DivisionBounds(n: nat, k: nat)
    requires k > 0
    ensures n / k * k <= n < n / k * k + k
  {
  }

  lemma MultiplesGrow(a: nat, b: nat, k: nat)
    requires a <= b
    ensures a * k <= b * k
  {
  }

  /** Rounding up is the least multiple that reaches. */
  lemma DivCeilReaches(n: nat, k: nat, c: nat)
    requires k > 0
    ensures DivCeil(n, k) <= c <==> n <= c * k
  {
    var q := DivCeil(n, k);
    DivisionBounds(n + k - 1, k);
    if q <= c {
      MultiplesGrow(q, c, k);
    } else {
      MultiplesGrow(c + 1, q, k);
    }
  }

  /** Rounding up overshoots exactly when there is a remainder. */
  lemma DivCeilExact(n: nat, k: nat)
    requires k > 0
    ensures n < k * DivCeil(n, k) <==> n % k != 0
  {
    var (q, r) := (n / k, n % k);
    DivisionIs(n, k);
    if r == 0 {
      DivModIs(q, k - 1, k);
    } else {
      NextMultiple(q, k);
      DivModIs(q + 1, r - 1, k);
    }
  }

  /** Rounding down is the greatest multiple that fits. */
  lemma DivisionReaches(n: nat, k: nat, c: nat)
    requires k > 0
    ensures n / k < c <==> n < c * k
  {
    DivisionBounds(n, k);
    if n / k < c {
      MultiplesGrow(n / k + 1, c, k);
    } else {
      MultiplesGrow(c, n / k, k);
    }
  }

  lemma DivModIs(q: nat, r: nat, k: nat)
    requires r < k
    ensures (q * k + r) / k == q && (q * k + r) % k == r
  {
    DivisionBounds(q * k + r, k);
    var p := (q * k + r) / k;
    if p < q {
      MultiplesGrow(p + 1, q, k);
    } else if p > q {
      MultiplesGrow(q + 1, p, k);
    }
  }

  /** What is missing to the next multiple. */
  function Missing(n: nat, k: nat): (r: nat)
    requires k > 0
    ensures 0 < r <= k
  {
    k - n % k
  }

  /** How many whole `k` are in `n`. */
  function Whole(n: nat, k: nat): nat
    requires k > 0
  {
    n / k
  }

  /** Adding no more than what is missing. */
  lemma WholeStep(n: nat, k: nat, more: nat)
    requires k > 0 && more <= Missing(n, k)
    ensures if more == Missing(n, k) then Whole(n + more, k) == Whole(n, k) + 1 && Missing(n + more, k) == k
            else Whole(n + more, k) == Whole(n, k) && Missing(n + more, k) == Missing(n, k) - more
    ensures more == Missing(n, k) ==> Whole(n + more, k) * k == n + more
  {
    DivisionIs(n, k);
    StepFrom(n / k, n % k, k, more);
  }

  lemma StepFrom(q: nat, r: nat, k: nat, more: nat)
    requires r < k && more <= k - r
    ensures if more == k - r then (q * k + r + more) / k == q + 1 && (q * k + r + more) % k == 0
            && (q + 1) * k == q * k + r + more
            else (q * k + r + more) / k == q && (q * k + r + more) % k == r + more
  {
    NextMultiple(q, k);
    if more == k - r {
      DivModIs(q + 1, 0, k);
    } else {
      DivModIs(q, r + more, k);
    }
  }

  lemma NextMultiple(q: nat, k: nat)
    ensures (q + 1) * k == q * k + k
  {
  }

  lemma WholeGrows(a: nat, b: nat, k: nat)
    requires k > 0 && a <= b
    ensures Whole(a, k) <= Whole(b, k)
  {
    DivisionBounds(a, k);
    DivisionReaches(b, k, a / k);
  }

  lemma WholeFits(n: nat, k: nat, c: nat)
    requires k > 0
    ensures c <= Whole(n, k) <==> c * k <= n
  {
    DivisionReaches(n, k, c);
  }

  lemma DivisionIs(n: nat, k: nat)
    requires k > 0
    ensures n == n / k * k + n % k
  {
  }

  /** Dividing twice is dividing by the product. */
  lemma DivideTwice(n: nat, a: nat, b: nat)
    requires a > 0 && b > 0
    ensures a * b > 0 && n / a / b == n / (a * b)
  {
    var (m, low) := (n / a, n % a);
    var (q, r) := (m / b, m % b);
    DivisionIs(n, a);
    DivisionIs(m, b);
    Rearranged(a, b, q, r, low);
    DivModIs(q, a * r + low, a * b);
  }

  lemma Rearranged(a: nat, b: nat, q: nat, r: nat, low: nat)
    requires r < b && low < a
    ensures a * r + low < a * b && (q * b + r) * a + low == q * (a * b) + (a * r + low)
  {
    assert a * r <= a * (b - 1);
  }
}
