/** Position strings: their order, and the evenly spaced ones a rebalance assigns
    (ordering/position.go, with exact arithmetic in place of float64). */
module BlockPositions {
  import opened ExecutionPolicy
  import opened Sequences

  /** Byte order, the order the rows come back in. */
  predicate Less(a: string, b: string) {
    b != "" && (a == "" || a[0] < b[0] || (a[0] == b[0] && Less(a[1..], b[1..])))
  }

  lemma {:induction false} LessIsTotal(a: string, b: string)
    ensures Less(a, b) || a == b || Less(b, a)
    ensures !(Less(a, b) && Less(b, a))
    ensures !Less(a, a)
  {
    if a != "" && b != "" {
      LessIsTotal(a[1..], b[1..]);
    }
    if a != "" {
      LessIsTotal(a[1..], a[1..]);
    }
    if a != "" && b != "" && a[0] == b[0] && a[1..] == b[1..] {
      assert a == [a[0]] + a[1..] && b == [b[0]] + b[1..];
    }
  }

  lemma {:induction false} LessIsTransitive(a: string, b: string, c: string)
    requires Less(a, b) && Less(b, c)
    ensures Less(a, c)
  {
    if a != "" && a[0] == b[0] && b[0] == c[0] {
      LessIsTransitive(a[1..], b[1..], c[1..]);
    }
  }

  lemma {:induction false} LessExtends(a: string, b: string, x: string, y: string)
    requires |a| == |b| && (Less(a, b) || (a == b && Less(x, y)))
    ensures Less(a + x, b + y)
  {
    if a == "" {
      assert a + x == x && b + y == y;
    } else {
      assert (a + x)[1..] == a[1..] + x && (b + y)[1..] == b[1..] + y;
      if a[0] == b[0] {
        LessExtends(a[1..], b[1..], x, y);
      }
    }
  }

  lemma {:induction false} LessIsLex(a: string, b: string)
    ensures Less(a, b) <==> LexBelow(a, b)
  {
    if a == "" || b == "" || a[0] != b[0] {
      assert Less(a, b) ==> LexBelowAt(a, b, 0);
      forall k: nat | LexBelowAt(a, b, k) ensures k == 0 { PrefixHeads(a, b, k); }
    } else {
      LessIsLex(a[1..], b[1..]);
      LexBelowTail(a, b);
    }
  }

  // ---- evenly spaced positions ----

  const ALPHABET: nat := 26

  function Letter(k: nat): char
    requires k < ALPHABET
  {
    'a' + (k as char)
  }

  /** A number written in base 26 with a fixed number of letters. */
  function Base26(slot: nat, digits: nat): (s: string)
    ensures |s| == digits
  {
    if digits == 0 then "" else Base26(slot / ALPHABET, digits - 1) + [Letter(slot % ALPHABET)]
  }

  function Power(digits: nat): nat {
    if digits == 0 then 1 else ALPHABET * Power(digits - 1)
  }

  lemma {:induction false} Base26Ascends(a: nat, b: nat, digits: nat)
    requires a < b < Power(digits)
    ensures Less(Base26(a, digits), Base26(b, digits))
  {
    if digits > 0 {
      var x, y := [Letter(a % ALPHABET)], [Letter(b % ALPHABET)];
      if a / ALPHABET < b / ALPHABET {
        Base26Ascends(a / ALPHABET, b / ALPHABET, digits - 1);
      }
      LessExtends(Base26(a / ALPHABET, digits - 1), Base26(b / ALPHABET, digits - 1), x, y);
    }
  }

  /** The least width whose capacity leaves room at both ends. */
  function Width(total: nat, digits: nat): (width: nat)
    requires digits > 0
    ensures total + 2 <= Power(width) && width >= digits
    ensures width == digits || Power(width - 1) < total + 2
    decreases total + 2 - Power(digits)
  {
    if Power(digits) >= total + 2 then digits
    else
      PowerGrows(digits);
      Width(total, digits + 1)
  }

  lemma {:induction false} PowerGrows(digits: nat)
    ensures 0 < Power(digits) < Power(digits + 1)
  {
    if digits > 0 {
      PowerGrows(digits - 1);
    }
  }

  /** The (index + 1)-th of total evenly spaced points strictly inside 0 .. span. */
  function Spread(index: nat, total: nat, span: nat): nat {
    (index + 1) * span / (total + 1)
  }

  lemma StepUp(m: nat, n: nat, d: nat)
    requires d > 0 && m + d <= n
    ensures m / d < n / d
  {
    QuotientBound(m / d, d, m);
    OneMore(m / d, d);
    QuotientBound(m / d + 1, d, n);
  }

  /** With a span of exactly total the points are the indices themselves. */
  lemma SpreadIdentity(i: nat, total: nat)
    requires i < total
    ensures Spread(i, total, total) == i
  {
    var n, d := (i + 1) * total, total + 1;
    assert n == i * d + (total - i);
    OneMore(i, d);
    QuotientBound(i, d, n);
    QuotientBound(i + 1, d, n);
  }

  lemma SpreadSteps(i: nat, j: nat, span: nat, d: nat)
    requires i < j && d <= span
    ensures (i + 1) * span + d <= (j + 1) * span
  {
    OneMore(i + 1, span);
    MulMonotone(i + 2, j + 1, span);
  }

  lemma SpreadAscends(i: nat, j: nat, total: nat, span: nat)
    requires i < j < total && total <= span
    ensures Spread(i, total, span) < Spread(j, total, span)
  {
    if span == total {
      SpreadIdentity(i, total);
      SpreadIdentity(j, total);
    } else {
      SpreadSteps(i, j, span, total + 1);
      StepUp((i + 1) * span, (j + 1) * span, total + 1);
    }
  }

  lemma SpreadBelow(index: nat, total: nat, span: nat)
    requires index < total
    ensures Spread(index, total, span) <= span
  {
    MulMonotone(index + 1, total + 1, span);
    OneMore(span, total + 1);
    QuotientBound(span + 1, total + 1, (index + 1) * span);
  }

  function EvenPosition(index: nat, total: nat): string
    requires index < total
  {
    if total == 1 then "n"
    else if total < ALPHABET - 1 then
      SpreadBelow(index, total, ALPHABET - 1);
      [Letter(Spread(index, total, ALPHABET - 1))]
    else
      var width := Width(total, 1);
      Base26(1 + Spread(index, total, Power(width) - 2), width)
  }

  function GenerateEvenPositions(n: nat): (positions: seq<string>)
    ensures |positions| == n
  {
    seq(n, i requires 0 <= i < n => EvenPosition(i, n))
  }

  /** However many there are, the generated positions are strictly ascending. */
  lemma EvenPositionsAscend(n: nat, i: nat, j: nat)
    requires i < j < n
    ensures Less(EvenPosition(i, n), EvenPosition(j, n))
  {
    if n < ALPHABET - 1 {
      var span := ALPHABET - 1;
      SpreadAscends(i, j, n, span);
      SpreadBelow(j, n, span);
      LetterAscends(Spread(i, n, span), Spread(j, n, span));
    } else {
      WidePositionsAscend(n, i, j, Width(n, 1));
    }
  }

  lemma LetterAscends(a: nat, b: nat)
    requires a < b < ALPHABET
    ensures Less([Letter(a)], [Letter(b)])
  {
  }

  lemma WidePositionsAscend(n: nat, i: nat, j: nat, width: nat)
    requires i < j < n && n + 2 <= Power(width)
    ensures Less(Base26(1 + Spread(i, n, Power(width) - 2), width), Base26(1 + Spread(j, n, Power(width) - 2), width))
  {
    var span := Power(width) - 2;
    SpreadAscends(i, j, n, span);
    SpreadBelow(j, n, span);
    Base26Ascends(1 + Spread(i, n, span), 1 + Spread(j, n, span), width);
  }

  /** The number a string of letters stands for in base 26. */
  function Base26Value(s: string): int {
    if s == "" then 0 else 26 * Base26Value(s[..|s| - 1]) + (s[|s| - 1] as int - 'a' as int)
  }

  lemma {:induction false} ValueOfBase26(slot: nat, digits: nat)
    requires slot < Power(digits)
    ensures Base26Value(Base26(slot, digits)) == slot
    ensures forall k :: 0 <= k < digits ==> 'a' <= Base26(slot, digits)[k] <= 'z'
  {
    if digits > 0 {
      var front := Base26(slot / ALPHABET, digits - 1);
      assert Base26(slot, digits)[..digits - 1] == front;
      ValueOfBase26(slot / ALPHABET, digits - 1);
    }
  }

  /** 26 to a power, and the greatest number of that many letters. */
  lemma {:induction false} PowerIs(digits: nat, s: string)
    requires |s| == digits && forall k :: 0 <= k < digits ==> s[k] == 'z'
    ensures Power(0) == 1 && (digits > 0 ==> Power(digits) == 26 * Power(digits - 1))
    ensures Base26Value(s) == Power(digits) - 1
  {
    if digits > 0 {
      PowerIs(digits - 1, s[..digits - 1]);
    }
  }

  /** Where the positions are: up to 24 of them are letters from 'b' to 'y', and more are
      numbers in base 26, all of one width, the least that leaves the first and the last
      number of it free. Their values are spread evenly, rounded down. */
  lemma EvenPositionsAre(n: nat, i: nat)
    requires i < n
    ensures n == 1 ==> EvenPosition(i, n) == "n"
    ensures 1 < n <= 24 ==>
      |EvenPosition(i, n)| == 1 && Base26Value(EvenPosition(i, n)) == 25 * (i + 1) / (n + 1)
      && 1 <= Base26Value(EvenPosition(i, n)) <= 24
    ensures n > 24 ==> var w := |EvenPosition(i, n)|;
      && w > 0 && n + 2 <= Power(w) && (w > 1 ==> Power(w - 1) < n + 2)
      && Base26Value(EvenPosition(i, n)) == 1 + (i + 1) * (Power(w) - 2) / (n + 1)
      && 1 <= Base26Value(EvenPosition(i, n)) <= Power(w) - 2
    ensures forall k :: 0 <= k < |EvenPosition(i, n)| ==> 'a' <= EvenPosition(i, n)[k] <= 'z'
  {
    if 1 < n <= 24 {
      FewPositionsAre(n, i);
    } else if n > 24 {
      var slot := ManyPositionsAre(n, i, Width(n, 1));
    }
  }

  lemma FewPositionsAre(n: nat, i: nat)
    requires i < n && 1 < n <= 24
    ensures 1 <= Spread(i, n, 25) <= 24 && Spread(i, n, 25) == 25 * (i + 1) / (n + 1)
    ensures EvenPosition(i, n) == [Letter(Spread(i, n, 25))]
    ensures Base26Value(EvenPosition(i, n)) == Spread(i, n, 25)
  {
    SpreadInside(i, n, 25);
    var s := [Letter(Spread(i, n, 25))];
    assert s[..0] == "";
  }

  lemma ManyPositionsAre(n: nat, i: nat, width: nat) returns (slot: nat)
    requires i < n && n > 24 && width == Width(n, 1)
    ensures slot == Spread(i, n, Power(width) - 2) && |EvenPosition(i, n)| == width
    ensures Base26Value(EvenPosition(i, n)) == 1 + slot <= Power(width) - 2
    ensures forall k :: 0 <= k < width ==> 'a' <= EvenPosition(i, n)[k] <= 'z'
  {
    slot := WidePosition(n, i, width);
    SlotValue(EvenPosition(i, n), slot, Power(width) - 2, width);
  }

  lemma WidePosition(n: nat, i: nat, width: nat) returns (slot: nat)
    requires i < n && n > 24 && width == Width(n, 1)
    ensures slot == Spread(i, n, Power(width) - 2) < Power(width) - 2
    ensures EvenPosition(i, n) == Base26(1 + slot, width)
  {
    slot := Spread(i, n, Power(width) - 2);
    SpreadInside(i, n, Power(width) - 2);
  }

  lemma SlotValue(position: string, slot: nat, span: nat, width: nat)
    requires slot < span == Power(width) - 2 && position == Base26(1 + slot, width)
    ensures Base26Value(position) == 1 + slot <= span
    ensures forall k :: 0 <= k < width ==> 'a' <= position[k] <= 'z'
  {
    ValueOfBase26(1 + slot, width);
  }

  /** An evenly spread point lies inside: below the span, and above 0 if there is room. */
  lemma SpreadInside(i: nat, total: nat, span: nat)
    requires i < total && span >= 1
    ensures Spread(i, total, span) <= span - 1
    ensures span > total ==> Spread(i, total, span) >= 1
  {
    MulMonotone(i + 1, total, span);
    OneMore(total, span);
    QuotientBound(span, total + 1, (i + 1) * span);
    if span > total {
      MulMonotone(1, i + 1, span);
      QuotientBound(1, total + 1, (i + 1) * span);
    }
  }

  predicate Ascending(positions: seq<string>) {
    forall i, j :: 0 <= i < j < |positions| ==> Less(positions[i], positions[j])
  }

  lemma GeneratedAscend(n: nat)
    ensures Ascending(GenerateEvenPositions(n))
  {
    forall i, j | 0 <= i < j < n ensures Less(GenerateEvenPositions(n)[i], GenerateEvenPositions(n)[j]) {
      EvenPositionsAscend(n, i, j);
    }
  }

  predicate NeedsRebalancing(positions: set<string>, threshold: nat) {
    exists p :: p in positions && |p| > threshold
  }
}
