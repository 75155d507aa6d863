/** Exact arithmetic standing in for the floating point of numpy and pandas:
    rounding to the nearest integer with ties to even (np.round, Python round)
    and percentages kept as integers in hundredths of a percent. */
module Numeric {

  /** The nearest integer to x; a tie goes to the even neighbour. */
  function RoundHalfEven(x: real): (r: int)
    ensures x - 0.5 <= r as real <= x + 0.5
    ensures (r as real - x == 0.5 || x - r as real == 0.5) ==> r % 2 == 0
  {
    var f := x.Floor;
    if x - f as real < 0.5 then f
    else if x - f as real > 0.5 then f + 1
    else if f % 2 == 0 then f else f + 1
  }

  lemma RoundOfInteger(k: int)
    ensures RoundHalfEven(k as real) == k
  {
  }

  /** Rounding never reverses the order of two values. */
  lemma RoundMonotone(x: real, y: real)
    requires x <= y
    ensures RoundHalfEven(x) <= RoundHalfEven(y)
  {
  }

  /** A value at most an integer c rounds to at most c. */
  lemma RoundAtMost(x: real, c: int)
    requires x <= c as real
    ensures RoundHalfEven(x) <= c
  {
    RoundMonotone(x, c as real);
    RoundOfInteger(c);
  }

  /** A non-negative value rounds to a non-negative integer. */
  lemma RoundAtLeastZero(x: real)
    requires 0.0 <= x
    ensures 0 <= RoundHalfEven(x)
  {
    RoundMonotone(0.0, x);
    RoundOfInteger(0);
  }

  /** a * k computed by repeated addition. Being recursive, it is unfolded only where a
      proof asks for it, which keeps products out of the proofs about rounding. */
  function Scale(a: int, k: real): real
    decreases if a >= 0 then a else -a
  {
    if a == 0 then 0.0 else if a > 0 then Scale(a - 1, k) + k else Scale(a + 1, k) - k
  }

  /** A non-negative count scaled by a fraction k in [0, 1] lies between 0 and the count. */
  lemma {:induction false} ScaleBetween(a: int, k: real)
    requires 0 <= a && 0.0 <= k
    ensures 0.0 <= Scale(a, k)
    ensures k <= 1.0 ==> Scale(a, k) <= a as real
    decreases a
  {
    if a > 0 {
      ScaleBetween(a - 1, k);
    }
  }

  /** Scaling by x / 10000 is scaling by x, then dividing by 10000. */
  lemma {:induction false} ScaleTenThousandth(a: int, x: real)
    ensures Scale(a, x / 10000.0) == Scale(a, x) / 10000.0
    decreases if a >= 0 then a else -a
  {
    if a > 0 {
      ScaleTenThousandth(a - 1, x);
    } else if a < 0 {
      ScaleTenThousandth(a + 1, x);
    }
  }

  /** Scaling by an integer is integer multiplication. */
  lemma {:induction false} ScaleOfInteger(a: int, b: int)
    ensures Scale(a, b as real) == (a * b) as real
    decreases if a >= 0 then a else -a
  {
    if a > 0 {
      ScaleOfInteger(a - 1, b);
      assert (a - 1) * b + b == a * b;
    } else if a < 0 {
      ScaleOfInteger(a + 1, b);
      assert (a + 1) * b - b == a * b;
    }
  }

  lemma {:induction false} ScaleIsProduct(a: int, k: real)
    ensures Scale(a, k) == a as real * k
    decreases if a >= 0 then a else -a
  {
    if a > 0 {
      ScaleIsProduct(a - 1, k);
    } else if a < 0 {
      ScaleIsProduct(a + 1, k);
    }
  }

  /** Floor division with remainder, by repeated subtraction: num == q * den + m with 0 <= m < den. */
  function DivMod(num: int, den: int): (r: (int, int))
    requires den > 0
    ensures num == r.0 * den + r.1 && 0 <= r.1 < den
    decreases if num >= 0 then num else den - num
  {
    if 0 <= num < den then (0, num)
    else if num >= den then
      var qm := DivMod(num - den, den);
      (qm.0 + 1, qm.1)
    else
      var qm := DivMod(num + den, den);
      (qm.0 - 1, qm.1)
  }

  /** The integer q rounded from num / den (den > 0), ties to even. */
  function RoundQuotient(num: int, den: int): int
    requires den > 0
  {
    var qm := DivMod(num, den);
    var q, m := qm.0, qm.1;
    if 2 * m < den then q
    else if 2 * m > den then q + 1
    else if q % 2 == 0 then q else q + 1
  }

  lemma QuotientSplit(num: int, den: int)
    requires den > 0
    ensures num as real / den as real == (num / den) as real + (num % den) as real / den as real
  {
    var q, m := num / den, num % den;
    var d := den as real;
    assert num == q * den + m;
    assert num as real == q as real * d + m as real;
    assert (q as real * d + m as real) / d == q as real + m as real / d;
  }
  lemma ScaleStrict(a: real, b: real, d: real)
    requires d > 0.0
    ensures a < b <==> a * d < b * d
  {
    assert b * d - a * d == (b - a) * d;
  }

  lemma BelowHalf(f: real, x: real, d: real)
    requires d > 0.0 && f * d == x
    ensures f < 0.5 <==> 2.0 * x < d
  {
    ScaleStrict(f, 0.5, d);
    assert f < 0.5 <==> f * d < 0.5 * d;
    assert f * d < 0.5 * d <==> x < 0.5 * d;
  }

  lemma AboveHalf(f: real, x: real, d: real)
    requires d > 0.0 && f * d == x
    ensures f > 0.5 <==> 2.0 * x > d
  {
    ScaleStrict(0.5, f, d);
    assert 0.5 < f <==> 0.5 * d < f * d;
    assert 0.5 * d < f * d <==> 0.5 * d < x;
  }

  lemma BelowOne(f: real, x: real, d: real)
    requires d > 0.0 && f * d == x
    ensures f < 1.0 <==> x < d
  {
    ScaleStrict(f, 1.0, d);
    assert f < 1.0 <==> f * d < 1.0 * d;
  }

  lemma AtLeastZero(f: real, x: real, d: real)
    requires d > 0.0 && f * d == x
    ensures 0.0 <= f <==> 0.0 <= x
  {
    ScaleStrict(f, 0.0, d);
    assert f < 0.0 <==> f * d < 0.0 * d;
  }

  lemma FractionBounds(m: int, den: int)
    requires den > 0 && 0 <= m < den
    ensures 0.0 <= m as real / den as real < 1.0
    ensures 2 * m < den <==> m as real / den as real < 0.5
    ensures 2 * m > den <==> m as real / den as real > 0.5
  {
    var f, x, d := m as real / den as real, m as real, den as real;
    assert f * d == x;
    BelowHalf(f, x, d);
    AboveHalf(f, x, d);
    BelowOne(f, x, d);
    AtLeastZero(f, x, d);
  }

  /** DivMod is Dafny's own division for a positive divisor. */
  lemma DivModIsDivision(num: int, den: int)
    requires den > 0
    ensures DivMod(num, den) == (num / den, num % den)
  {
    DivUnique(num, den, DivMod(num, den).0, DivMod(num, den).1);
  }

  /** Integer rounding of a quotient agrees with rounding the exact rational quotient. */
  lemma RoundQuotientExact(num: int, den: int)
    requires den > 0
    ensures RoundQuotient(num, den) == RoundHalfEven(num as real / den as real)
  {
    DivModIsDivision(num, den);
    var q, m := num / den, num % den;
    var x := num as real / den as real;
    QuotientSplit(num, den);
    FractionBounds(m, den);
    assert x.Floor == q;
  }

  lemma DivUnique(num: int, den: int, q: int, m: int)
    requires den > 0 && num == q * den + m && 0 <= m < den
    ensures num / den == q && num % den == m
  {
    var q', m' := num / den, num % den;
    var t := q - q';
    assert t * den == m' - m;
  }

  /** part / whole * 100 rounded to two decimals, as np.round(., 2) does,
      given in hundredths of a percent (10000 stands for 100.00 %). */
  function Pct(part: int, whole: int): int
    requires whole != 0
  {
    if whole > 0 then RoundQuotient(part * 10000, whole) else RoundQuotient(-part * 10000, -whole)
  }

  /** The percentage is the exact share rounded to hundredths of a percent. */
  lemma PctExact(part: int, whole: int)
    requires whole != 0
    ensures Pct(part, whole) == RoundHalfEven(part as real * 10000.0 / whole as real)
  {
    var x := part as real * 10000.0 / whole as real;
    if whole > 0 {
      RoundQuotientExact(part * 10000, whole);
      assert (part * 10000) as real / whole as real == x;
    } else {
      var n, d := -part * 10000, -whole;
      RoundQuotientExact(n, d);
      NegatedQuotient(part as real * 10000.0, whole as real);
      assert n as real / d as real == x;
    }
  }

  lemma NegatedQuotient(a: real, b: real)
    requires b != 0.0
    ensures (-a) / (-b) == a / b
  {
  }

  lemma PctOfWhole(whole: int)
    requires whole != 0
    ensures Pct(whole, whole) == 10000
  {
    if whole > 0 {
      DivModIsDivision(whole * 10000, whole);
      DivUnique(whole * 10000, whole, 10000, 0);
    } else {
      DivModIsDivision(-whole * 10000, -whole);
      DivUnique(-whole * 10000, -whole, 10000, 0);
    }
  }

  /** A larger part of the same positive whole never has a smaller percentage. */
  lemma PctMonotone(a: int, b: int, whole: int)
    requires 0 < whole && a <= b
    ensures Pct(a, whole) <= Pct(b, whole)
  {
    var w := whole as real;
    assert a as real * 10000.0 / w <= b as real * 10000.0 / w by {
      assert (b as real * 10000.0 - a as real * 10000.0) / w >= 0.0;
    }
    PctExact(a, whole);
    PctExact(b, whole);
    RoundMonotone(a as real * 10000.0 / w, b as real * 10000.0 / w);
  }

  /** w * (t / w) == t. */
  lemma ScaleOfQuotient(w: int, t: real)
    requires w != 0
    ensures Scale(w, t / w as real) == t
  {
    ScaleIsProduct(w, t / w as real);
  }
}
