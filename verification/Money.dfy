/** Rounding of amounts (pkg/money/rounding.go:18-41).

    The source computes with decimals of any number of places. Here an amount of money is a
    fraction of integers, n/d cents with d positive, so that nothing is lost before the
    source itself rounds. */
module Money {
  import opened Prelude

  /** How far, in units of 1/d, the integer q is from n/d. */
  function Distance(n: int, d: int, q: int): int {
    Abs(q * d - n)
  }

  function Abs(x: int): int {
    if x < 0 then -x else x
  }

  /** q is n/d rounded to an integer: no integer is closer, and of two equally close ones it is
      the one further from zero. */
  ghost predicate Nearest(n: int, d: int, q: int) {
    forall p {:trigger Distance(n, d, p)} ::
      Distance(n, d, q) < Distance(n, d, p) || (Distance(n, d, q) == Distance(n, d, p) && Abs(p) <= Abs(q))
  }

  /** Rounding is always possible, in one way: this is decimal.Round. */
  ghost function RoundDiv(n: int, d: int): (q: int)
    requires d > 0
    ensures Nearest(n, d, q)
  {
    RoundingExists(n, d);
    var q :| Nearest(n, d, q);
    q
  }

  /** The same in terms of the remainder: it is at most half of d, and half only away from zero. */
  predicate Within(n: int, d: int, q: int) {
    && (n >= 0 ==> -d < 2 * (q * d - n) <= d)
    && (n < 0 ==> -d <= 2 * (q * d - n) < d)
  }

  lemma WithinIsNearest(n: int, d: int, q: int)
    requires d > 0 && Within(n, d, q)
    ensures Nearest(n, d, q)
  {
    forall p
      ensures Distance(n, d, q) < Distance(n, d, p) || (Distance(n, d, q) == Distance(n, d, p) && Abs(p) <= Abs(q))
    {
      if p < q {
        Apart(p, q, d);
        SignOfQuotient(n, d, q);
      } else if q < p {
        Apart(q, p, d);
        SignOfQuotient(n, d, q);
      }
    }
  }

  lemma SignOfQuotient(n: int, d: int, q: int)
    requires d > 0 && Within(n, d, q)
    ensures n >= 0 ==> q >= 0
    ensures n <= 0 ==> q <= 0
  {
  }

  lemma RoundingExists(n: int, d: int)
    requires d > 0
    ensures exists q :: Nearest(n, d, q)
  {
    var m := if n >= 0 then n else -n;
    var q, r := (2 * m + d) / (2 * d), (2 * m + d) % (2 * d);
    assert q * (2 * d) == 2 * (q * d);
    WithinIsNearest(n, d, if n >= 0 then q else -q);
  }

  lemma RoundDivWithin(n: int, d: int)
    requires d > 0
    ensures Within(n, d, RoundDiv(n, d))
  {
    NearestIsWithin(n, d, RoundDiv(n, d));
  }

  lemma NearestIsWithin(n: int, d: int, q: int)
    requires d > 0 && Nearest(n, d, q)
    ensures Within(n, d, q)
  {
    Distributes(q, -1, d);
    Distributes(q, 1, d);
    assert Distance(n, d, q) <= Distance(n, d, q - 1) && Distance(n, d, q) <= Distance(n, d, q + 1);
    if q >= 1 {
      Apart(0, q, d);
    } else if q <= -1 {
      Apart(q, 0, d);
    }
  }

  lemma Distributes(q: int, k: int, d: int)
    ensures (q + k) * d == q * d + k * d
  {
  }

  /** Halfway between two integers, rounding goes away from zero. */
  lemma TiesGoAwayFromZero(n: int, d: int, k: int)
    requires d > 0 && k >= 0 && 2 * n == 2 * (k * d) + d
    ensures RoundDiv(n, d) == k + 1 && RoundDiv(-n, d) == -(k + 1)
  {
    Distributes(k, 1, d);
    RoundDivUnique(n, d, k + 1);
    RoundDivUnique(-n, d, -(k + 1));
  }

  /** n/d cents snapped to 10 cents: first to whole cents, then to the nearest ten. */
  ghost function Round10(n: int, d: int): int
    requires d > 0
  {
    10 * RoundDiv(RoundDiv(n, d), 10)
  }

  predicate OnGrid(cents: int) {
    cents % 10 == 0
  }

  // ---------------------------------------------------------------------------
  // Rounding, computed
  // ---------------------------------------------------------------------------

  method Round(n: int, d: int) returns (q: int)
    requires d > 0
    ensures q == RoundDiv(n, d)
  {
    var m := if n >= 0 then n else -n;
    q := (2 * m + d) / (2 * d);
    ghost var r := (2 * m + d) % (2 * d);
    assert q * (2 * d) == 2 * (q * d);
    if n < 0 {
      q := -q;
    }
    RoundDivUnique(n, d, q);
  }

  lemma LastDigitDecides(cents: int)
    requires cents >= 0
    ensures 10 * RoundDiv(cents, 10) == cents - cents % 10 + if cents % 10 <= 4 then 0 else 10
  {
    RoundDivUnique(cents, 10, cents / 10 + if cents % 10 <= 4 then 0 else 1);
  }

  /** Branching on the last digit snaps to the nearest multiple of ten. */
  method SnapLastDigit(whole: int) returns (cents: int)
    ensures cents == 10 * RoundDiv(whole, 10)
  {
    cents := whole;
    var negative := cents < 0;
    if negative {
      cents := -cents;
    }
    LastDigitDecides(cents);
    var last := cents % 10;
    if last == 0 {
      // on the grid
    } else if last <= 4 {
      cents := cents - last;
    } else {
      cents := cents + 10 - last;
    }
    if negative {
      RoundDivOdd(whole, 10);
      cents := -cents;
    }
  }

  method RoundToNearest10Cents(n: int, d: int) returns (cents: int)
    requires d > 0
    ensures cents == Round10(n, d)
  {
    cents := Round(n, d);
    cents := SnapLastDigit(cents);
  }

  // ---------------------------------------------------------------------------
  // Laws of rounding
  // ---------------------------------------------------------------------------

  /** Multiplying by a positive number keeps integers at least that far apart. */
  lemma Apart(p: int, q: int, d: int)
    requires d > 0 && p < q
    ensures p * d + d <= q * d
  {
    var more := q - p - 1;
    NonNegativeProduct(more, d);
    Distributes(p + 1, more, d);
    Distributes(p, 1, d);
  }

  lemma NonNegativeProduct(a: int, b: int)
    requires a >= 0 && b >= 0
    ensures a * b >= 0
  {
  }

  lemma RoundDivUnique(n: int, d: int, q: int)
    requires d > 0 && Within(n, d, q)
    ensures RoundDiv(n, d) == q
  {
    RoundDivWithin(n, d);
    OneIsWithin(n, d, RoundDiv(n, d), q);
  }

  lemma OneIsWithin(n: int, d: int, p: int, q: int)
    requires d > 0 && Within(n, d, p) && Within(n, d, q)
    ensures p == q
  {
    if p < q {
      Apart(p, q, d);
    } else if q < p {
      Apart(q, p, d);
    }
  }

  lemma RoundDivOdd(n: int, d: int)
    requires d > 0
    ensures RoundDiv(-n, d) == -RoundDiv(n, d)
  {
    assert Within(-n, d, -RoundDiv(n, d)) by {
      RoundDivWithin(n, d);
      if n == 0 {
        OneIsWithin(0, d, RoundDiv(0, d), 0);
      } else {
        MirrorIsWithin(n, d, RoundDiv(n, d));
      }
    }
    RoundDivUnique(-n, d, -RoundDiv(n, d));
  }

  lemma MirrorIsWithin(n: int, d: int, q: int)
    requires d > 0 && n != 0 && Within(n, d, q)
    ensures Within(-n, d, -q)
  {
  }

  lemma RoundDivMonotone(n: int, m: int, d: int)
    requires d > 0 && n <= m
    ensures RoundDiv(n, d) <= RoundDiv(m, d)
  {
    RoundDivWithin(n, d);
    RoundDivWithin(m, d);
    WithinIsMonotone(n, m, d, RoundDiv(n, d), RoundDiv(m, d));
  }

  lemma WithinIsMonotone(n: int, m: int, d: int, p: int, q: int)
    requires d > 0 && n <= m && Within(n, d, p) && Within(m, d, q)
    ensures p <= q
  {
    if q < p {
      Apart(q, p, d);
    }
  }

  lemma RoundDivExact(q: int, d: int)
    requires d > 0
    ensures RoundDiv(q * d, d) == q
  {
    RoundDivUnique(q * d, d, q);
  }

  /** Whole units may be added before or after rounding, among non-negative values. */
  lemma RoundDivShift(n: int, d: int, k: int)
    requires d > 0 && n >= 0 && n + k * d >= 0
    ensures RoundDiv(n + k * d, d) == RoundDiv(n, d) + k
  {
    RoundDivWithin(n, d);
    ShiftIsWithin(n, d, k, RoundDiv(n, d));
    RoundDivUnique(n + k * d, d, RoundDiv(n, d) + k);
  }

  lemma ShiftIsWithin(n: int, d: int, k: int, q: int)
    requires d > 0 && n >= 0 && n + k * d >= 0 && Within(n, d, q)
    ensures Within(n + k * d, d, q + k)
  {
  }

  lemma RoundDivSign(n: int, d: int)
    requires d > 0
    ensures n >= 0 ==> RoundDiv(n, d) >= 0
  {
    RoundDivExact(0, d);
    if n >= 0 {
      RoundDivMonotone(0, n, d);
    }
  }

  /** Snapping an amount that is on the grid changes nothing; so snapping is idempotent. */
  lemma Round10Fixes(k: int, d: int)
    requires d > 0 && OnGrid(k)
    ensures Round10(k * d, d) == k
  {
    RoundDivExact(k, d);
    RoundDivExact(k / 10, 10);
  }

  lemma Round10Odd(n: int, d: int)
    requires d > 0
    ensures Round10(-n, d) == -Round10(n, d)
  {
    RoundDivOdd(n, d);
    RoundDivOdd(RoundDiv(n, d), 10);
  }

  lemma Round10NonNegative(n: int, d: int)
    requires d > 0 && n >= 0
    ensures Round10(n, d) >= 0
  {
    RoundDivSign(n, d);
    RoundDivSign(RoundDiv(n, d), 10);
  }

  lemma Round10Monotone(n: int, m: int, d: int)
    requires d > 0 && n <= m
    ensures Round10(n, d) <= Round10(m, d)
  {
    RoundDivMonotone(n, m, d);
    RoundDivMonotone(RoundDiv(n, d), RoundDiv(m, d), 10);
  }

  lemma GridShift(cents: int, k: int)
    requires cents >= 0 && OnGrid(k) && cents + k >= 0
    ensures RoundDiv(cents + k, 10) * 10 == RoundDiv(cents, 10) * 10 + k
  {
    var tens := k / 10;
    assert tens * 10 == k;
    RoundDivShift(cents, 10, tens);
  }

  /** Multiples of ten cents may be added before or after snapping, among non-negative values. */
  lemma Round10Shift(n: int, d: int, k: int)
    requires d > 0 && n >= 0 && OnGrid(k) && n + k * d >= 0
    ensures Round10(n + k * d, d) == Round10(n, d) + k
  {
    var cents := RoundDiv(n, d);
    assert RoundDiv(n + k * d, d) == cents + k && cents >= 0 && cents + k >= 0 by {
      RoundDivShift(n, d, k);
      RoundDivSign(n, d);
      RoundDivSign(n + k * d, d);
    }
    assert RoundDiv(cents + k, 10) * 10 == RoundDiv(cents, 10) * 10 + k by {
      GridShift(cents, k);
    }
  }

  lemma FewTimes(k: int, d: int)
    requires d > 0 && -5 <= k <= 5
    ensures -5 * d <= k * d <= 5 * d
  {
    if k < 5 {
      Apart(k, 5, d);
    }
    if -5 < k {
      Apart(-5, k, d);
    }
  }

  lemma TwoRoundings(n: int, d: int, c: int, r: int)
    requires d > 0 && -d <= 2 * (c * d - n) <= d && -5 <= r - c <= 5
    ensures -11 * d <= 2 * (r * d - n) <= 11 * d
  {
    Distributes(c, r - c, d);
    FewTimes(r - c, d);
  }

  /** Snapping rounds twice: 4.5 cents become five and then ten, what is less becomes nothing. */
  lemma SnapsTwice(n: int, d: int)
    requires d > 0 && 0 <= n
    ensures 9 * d <= 2 * n < 29 * d <==> Round10(n, d) == 10
    ensures 2 * n < 9 * d <==> Round10(n, d) == 0
  {
    RoundDivWithin(n, d);
    var cents := RoundDiv(n, d);
    LastDigitDecides(cents) by {
      RoundDivSign(n, d);
    }
    SnapsCents(cents, n, d);
  }

  lemma SnapsCents(cents: int, n: int, d: int)
    requires d > 0 && cents >= 0 && Within(n, d, cents) && n >= 0
    ensures 9 * d <= 2 * n < 29 * d <==> 5 <= cents <= 14
    ensures 2 * n < 9 * d <==> cents <= 4
  {
    if cents <= 4 {
      FewTimes(cents, d);
    } else {
      if 5 < cents {
        Apart(5, cents, d);
      }
      if cents < 14 {
        Apart(cents, 14, d);
      } else if 14 < cents {
        Apart(14, cents, d);
      }
    }
  }

  /** Snapping moves an amount by at most 5.5 cents, and one of whole cents by at most 5. */
  lemma Round10Near(n: int, d: int)
    requires d > 0
    ensures -11 * d <= 2 * (Round10(n, d) * d - n) <= 11 * d
  {
    RoundDivWithin(n, d);
    RoundDivWithin(RoundDiv(n, d), 10);
    TwoRoundings(n, d, RoundDiv(n, d), Round10(n, d));
  }

  lemma Round10NearCents(k: int, d: int)
    requires d > 0
    ensures -5 <= Round10(k * d, d) - k <= 5
  {
    RoundDivExact(k, d);
    RoundDivWithin(k, 10);
  }
}
