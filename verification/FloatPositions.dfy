/** The evenly spaced positions as ordering/position.go computes them, in float64: every
    result is rounded, by some correctly rounding function, to nearby representable
    numbers, and integers up to 2^53 are exact. */
module FloatPositions {
  import opened ExecutionPolicy
  import opened BlockPositions

  const EXACT: nat := 0x20_0000_0000_0000

  /** Up to here the products of a slot are exact. */
  const MAX_BLOCKS: nat := 0x80_0000

  /** All that is used of rounding to nearest: integers are exact, and between 2^-53 and
      2^53 the relative error is at most 2^-53. */
  ghost predicate IsRounding(round: real -> real) {
    && (forall k: nat :: k <= EXACT ==> ExactAt(round, k))
    && (forall x: real :: InRange(x) ==> Near(round(x), x))
  }

  predicate InRange(x: real) {
    1.0 <= (EXACT as real) * x && x <= EXACT as real
  }

  predicate ExactAt(round: real -> real, k: nat) {
    round(k as real) == k as real
  }

  predicate Near(r: real, x: real) {
    (EXACT as real) * (r - x) <= x && (EXACT as real) * (x - r) <= x
  }

  lemma RoundsExactly(round: real -> real, k: nat)
    requires IsRounding(round) && k <= EXACT
    ensures round(k as real) == k as real
  {
    assert ExactAt(round, k);
  }

  lemma RealMonotone(a: real, b: real, c: real)
    requires a <= b && c >= 0.0
    ensures a * c <= b * c
  {
  }

  lemma RealCancel(a: real, b: real, c: real)
    requires a * c == b * c && c > 0.0
    ensures a == b
  {
  }

  lemma RealStrict(a: real, b: real, c: real)
    requires a * c < b * c && c > 0.0
    ensures a < b
  {
    if b <= a { RealMonotone(b, a, c); }
  }

  lemma Grows(a: real, b: real, c: real)
    requires a < b && c > 0.0
    ensures a * c < b * c
  {
  }

  lemma RoundsNear(round: real -> real, x: real)
    requires IsRounding(round) && 1.0 <= x <= 100.0
    ensures x - 0.001 <= round(x) <= x + 0.001
  {
    assert InRange(x);
    assert Near(round(x), x);
  }

  // ---- fewer than 25 blocks: one letter each ----

  /** float64(maxChar-minChar) / float64(n+1), and the (i+1)-th multiple of it. */
  function Step(round: real -> real, total: nat): real {
    round(25.0 / (total + 1) as real)
  }

  function Multiple(round: real -> real, step: real, index: nat): real {
    round(step * (index + 1) as real)
  }

  function Point(round: real -> real, index: nat, total: nat): real {
    Multiple(round, Step(round, total), index)
  }

  lemma Quotient(a: real, d: real)
    requires d > 0.0
    ensures a / d * d == a
  {
  }

  lemma ExactStep(t: real, exact: real)
    requires 1.0 < t <= 23.0 && exact * (t + 1.0) == 25.0
    ensures 1.04 < exact < 25.0 && (exact + 0.001) * t <= 25.0
  {
    RealStrict(1.04, exact, t + 1.0);
    RealStrict(exact, 25.0, t + 1.0);
    assert (exact + 0.001) * t == exact * (t + 1.0) - exact + 0.001 * t;
  }

  /** For every total but the one whose step is the exact 1. */
  lemma StepBounds(round: real -> real, total: nat)
    requires IsRounding(round) && 1 < total < 24
    ensures 1.03 <= Step(round, total) && Step(round, total) * (total as real) <= 25.1
  {
    var t, exact := total as real, 25.0 / (total + 1) as real;
    assert (total + 1) as real == t + 1.0;
    Quotient(25.0, t + 1.0);
    ExactStep(t, exact);
    RoundsNear(round, exact);
    RealMonotone(round(exact), exact + 0.001, t);
  }

  lemma UnitStep(round: real -> real)
    requires IsRounding(round)
    ensures Step(round, 24) == 1.0
  {
    assert 25.0 / 25.0 == 1.0;
    RoundsExactly(round, 1);
  }

  lemma Multiples(step: real, i: nat, j: nat, total: nat)
    requires i < j < total && 1.03 <= step && step * (total as real) <= 25.1
    ensures 1.0 <= step * ((i + 1) as real)
    ensures step * ((i + 1) as real) + 1.03 <= step * ((j + 1) as real) <= 25.1
  {
    var x, y := (i + 1) as real, (j + 1) as real;
    RealMonotone(1.0, x, step);
    RealMonotone(x + 1.0, y, step);
    RealMonotone(y, total as real, step);
    assert (x + 1.0) * step == step * x + step && y * step == step * y;
  }

  /** Letters apart by one or more, so different after truncation. */
  predicate Apart(a: real, b: real) {
    0.0 <= a && a + 1.0 <= b < 26.0
  }

  lemma MultiplesAscend(round: real -> real, step: real, i: nat, j: nat, total: nat)
    requires IsRounding(round) && i < j < total && 1.03 <= step && step * (total as real) <= 25.1
    ensures Apart(Multiple(round, step, i), Multiple(round, step, j))
  {
    Multiples(step, i, j, total);
    RoundsNear(round, step * (i + 1) as real);
    RoundsNear(round, step * (j + 1) as real);
  }

  lemma UnitPoints(round: real -> real, i: nat, j: nat)
    requires IsRounding(round) && i < j < 24
    ensures Point(round, i, 24) == (i + 1) as real && Point(round, j, 24) == (j + 1) as real
    ensures (i + 1) as real + 1.0 <= (j + 1) as real < 26.0
  {
    UnitStep(round);
    RoundsExactly(round, i + 1);
    RoundsExactly(round, j + 1);
  }

  lemma PointsAscend(round: real -> real, i: nat, j: nat, total: nat)
    requires IsRounding(round) && 1 < total < 25 && i < j < total
    ensures Apart(Point(round, i, total), Point(round, j, total))
  {
    if total == 24 {
      UnitPoints(round, i, j);
    } else {
      StepBounds(round, total);
      MultiplesAscend(round, Step(round, total), i, j, total);
    }
  }

  // ---- 25 blocks and more: base-26 slots ----

  /** float64(index+1) * float64(capacity-2) / float64(total+1). */
  function Slot(round: real -> real, index: nat, total: nat, span: nat): real {
    round(round(((index + 1) * span) as real) / (total + 1) as real)
  }

  /** Rounding never carries a quotient across an integer: the float64 slot is the exact one. */
  lemma SlotIsExact(round: real -> real, index: nat, total: nat, span: nat)
    requires IsRounding(round) && index < total <= MAX_BLOCKS && span <= 26 * (total + 2)
    ensures Slot(round, index, total, span).Floor == Spread(index, total, span)
  {
    var n, d := (index + 1) * span, total + 1;
    ProductIsExact(index, total, span);
    RoundsExactly(round, n);
    var k, r := DivMod(n, d);
    QuotientFloor(round, n, d, k, r);
  }

  lemma ProductIsExact(index: nat, total: nat, span: nat)
    requires index < total <= MAX_BLOCKS && span <= 26 * (total + 2)
    ensures (index + 1) * span * 4 <= EXACT && (index + 1) * span <= total * span
  {
    MulMonotone(index + 1, total, span);
    MulMonotone(total, MAX_BLOCKS, span);
    assert MAX_BLOCKS * span * 4 <= EXACT;
  }

  lemma QuotientFloor(round: real -> real, n: nat, d: nat, k: nat, r: nat)
    requires IsRounding(round) && 0 < d <= EXACT && n * 2 <= EXACT && n == k * d + r && r < d
    ensures round(n as real / d as real).Floor == k
  {
    Quotient(n as real, d as real);
    if r == 0 {
      WholeQuotient(round, n, d, k, n as real / d as real);
    } else {
      PartialQuotient(round, n, d, k, r, n as real / d as real);
    }
  }

  lemma DivMod(n: nat, d: nat) returns (k: nat, r: nat)
    requires d > 0
    ensures k == n / d && n == k * d + r && r < d
  {
    k, r := n / d, n % d;
  }

  lemma WholeQuotient(round: real -> real, n: nat, d: nat, k: nat, q: real)
    requires IsRounding(round) && 0 < d && n <= EXACT && n == k * d && q * (d as real) == n as real
    ensures round(q) == k as real
  {
    assert (k as real) * (d as real) == (k * d) as real;
    RealCancel(q, k as real, d as real);
    MulMonotone(1, d, k);
    RoundsExactly(round, k);
  }

  lemma PartialQuotient(round: real -> real, n: nat, d: nat, k: nat, r: nat, q: real)
    requires IsRounding(round) && 0 < r < d <= EXACT && n * 2 <= EXACT
    requires n == k * d + r && q * (d as real) == n as real
    ensures round(q).Floor == k
  {
    QuotientApart(n, d, k, r, q);
    QuotientInRange(q, n as real, d as real, EXACT as real);
    assert InRange(q);
    assert Near(round(q), q);
    NearStaysApart(round(q), q, n, d, k);
  }

  lemma QuotientInRange(q: real, n: real, D: real, E: real)
    requires q * D == n && 1.0 <= n && 1.0 <= D <= E
    ensures 1.0 <= E * q && q <= n
  {
    RealStrict(0.0, q, D);
    RealMonotone(D, E, q);
    RealMonotone(1.0, D, q);
  }

  /** A quotient that is not an integer is at least 1/d away from both neighbours. */
  lemma QuotientApart(n: nat, d: nat, k: nat, r: nat, q: real)
    requires 0 < r < d && n == k * d + r && q * (d as real) == n as real
    ensures (q - k as real) * (d as real) >= 1.0 && ((k + 1) as real - q) * (d as real) >= 1.0
  {
    assert (k as real) * (d as real) == (k * d) as real;
    assert (q - k as real) * (d as real) == (n - k * d) as real;
    assert ((k + 1) as real - q) * (d as real) == (k * d + d - n) as real;
  }

  lemma Half(a: real, e: real, b: real)
    requires e > 0.0 && e * a <= b && 2.0 * b <= e
    ensures a <= 0.5
  {
    if a > 0.5 { Grows(0.5, a, e); }
  }

  /** An error of at most 2^-53 of a quotient below 2^52 / d is at most half of 1/d. */
  lemma ErrorBelowHalf(error: real, q: real, D: real, n: real, E: real)
    requires E > 0.0 && D >= 0.0 && E * error <= q && q * D == n && 2.0 * n <= E
    ensures error * D <= 0.5
  {
    RealMonotone(E * error, q, D);
    assert E * error * D == E * (error * D);
    Half(error * D, E, n);
  }

  lemma NearStaysApart(r: real, q: real, n: nat, d: nat, k: nat)
    requires Near(r, q) && 0 < d && q * (d as real) == n as real && n * 2 <= EXACT
    requires (q - k as real) * (d as real) >= 1.0 && ((k + 1) as real - q) * (d as real) >= 1.0
    ensures r.Floor == k
  {
    ErrorBelowHalf(r - q, q, d as real, n as real, EXACT as real);
    ErrorBelowHalf(q - r, q, d as real, n as real, EXACT as real);
    LessError(r - q, (k + 1) as real - q, d as real);
    LessError(q - r, q - k as real, d as real);
  }

  lemma LessError(error: real, distance: real, D: real)
    requires D > 0.0 && error * D <= 0.5 && distance * D >= 1.0
    ensures error < distance
  {
    RealStrict(error, distance, D);
  }

  // ---- the positions ----

  /** The generated position, where its number is in range; up to MAX_BLOCKS it always is. */
  function FloatPosition(round: real -> real, index: nat, total: nat): string
    requires index < total
    requires total == 1 || total >= ALPHABET - 1 || 0.0 <= Point(round, index, total) < 26.0
    requires total >= ALPHABET - 1 ==> Slot(round, index, total, Power(Width(total, 1)) - 2) >= 0.0
  {
    if total == 1 then "n"
    else if total < ALPHABET - 1 then [Letter(Point(round, index, total).Floor)]
    else
      var width := Width(total, 1);
      Base26(1 + Slot(round, index, total, Power(width) - 2).Floor, width)
  }

  /** With correct rounding, up to MAX_BLOCKS positions are letters and slots in range and
      strictly ascending; from 25 on they are the exact ones. */
  lemma FloatPositionsAscend(round: real -> real, n: nat, i: nat, j: nat)
    requires IsRounding(round) && i < j < n <= MAX_BLOCKS
    ensures n < ALPHABET - 1 ==> 0.0 <= Point(round, i, n) < 26.0 && 0.0 <= Point(round, j, n) < 26.0
    ensures n >= ALPHABET - 1 ==>
      var span := Power(Width(n, 1)) - 2; Slot(round, i, n, span) >= 0.0 && Slot(round, j, n, span) >= 0.0
    ensures Less(FloatPosition(round, i, n), FloatPosition(round, j, n))
    ensures n >= ALPHABET - 1 ==>
      FloatPosition(round, i, n) == EvenPosition(i, n) && FloatPosition(round, j, n) == EvenPosition(j, n)
  {
    if n < ALPHABET - 1 {
      PointsAscend(round, i, j, n);
      LetterAscends(Point(round, i, n).Floor, Point(round, j, n).Floor);
    } else {
      var span := Power(Width(n, 1)) - 2;
      SlotIsExact(round, i, n, span);
      SlotIsExact(round, j, n, span);
      EvenPositionsAscend(n, i, j);
    }
  }
}
