/**
 * Exact decimal numbers, standing in for the Python floats and `decimal.Decimal`
 * values of the trading bot: truncating quantization (`Decimal.quantize` with
 * `ROUND_DOWN`), the exponent `Decimal(str(float))` gives a filter's step, and
 * `float()` of the decimal text the exchange sends.
 */
module Decimals {
  import opened Wrappers

  /** The number mant / 10^scale. */
  datatype Decimal = Decimal(mant: int, scale: nat)

  const Zero := Decimal(0, 0)

  /**
   * Python's default decimal context keeps 28 digits; `quantize` raises
   * InvalidOperation when its result's coefficient would need more.
   */
  const CoefficientLimit: int := 10_000_000_000_000_000_000_000_000_000

  function Pow10(n: nat): (r: nat)
    ensures r >= 1
  {
    if n == 0 then 1 else 10 * Pow10(n - 1)
  }

  lemma {:induction false} Pow10Add(a: nat, b: nat)
    ensures Pow10(a + b) == Pow10(a) * Pow10(b)
  {
    if a > 0 {
      Pow10Add(a - 1, b);
      assert Pow10(a + b) == 10 * Pow10(a - 1 + b);
      assert 10 * (Pow10(a - 1) * Pow10(b)) == (10 * Pow10(a - 1)) * Pow10(b);
    }
  }

  lemma MulAssoc(x: int, y: int, z: int)
    ensures x * (y * z) == (x * y) * z
  {
  }

  /** Multiplying by p and dividing by it again gives back k, with nothing left over. */
  lemma MulDivCancel(k: int, p: int)
    requires p > 0
    ensures (p * k) / p == k && (p * k) % p == 0
  {
    var m := p * k;
    var k' := m / p;
    var r := m % p;
    DivMod(m, p);
    assert (k - k') * p == r by {
      assert m == k' * p + r;
      assert k * p == m;
    }
    MulOrder(k - k', 1, p);
    MulOrder(-1, k - k', p);
  }

  lemma DivMod(m: int, p: int)
    requires p > 0
    ensures m == (m / p) * p + m % p && 0 <= m % p < p
  {
  }

  lemma MulPositive(x: int, p: int)
    requires x > 0 && p > 0
    ensures x * p > 0
  {
  }

  lemma SignOfProduct(x: int, p: int)
    requires p > 0
    ensures x >= 0 ==> x * p >= 0
    ensures x <= 0 ==> x * p <= 0
  {
    if x > 0 {
      MulPositive(x, p);
    } else if x < 0 {
      MulPositive(-x, p);
      assert x * p == -((-x) * p);
    }
  }

  lemma MulOrder(x: int, y: int, p: int)
    requires p > 0
    ensures x < y <==> x * p < y * p
    ensures x == y <==> x * p == y * p
  {
    if x < y {
      MulPositive(y - x, p);
      assert y * p - x * p == (y - x) * p;
    } else if y < x {
      MulPositive(x - y, p);
      assert x * p - y * p == (x - y) * p;
    }
  }

  /** The value of d counted in units of 10^-s. */
  function At(d: Decimal, s: nat): int
    requires d.scale <= s
  {
    d.mant * Pow10(s - d.scale)
  }

  function MaxScale(a: Decimal, b: Decimal): nat
  {
    if a.scale <= b.scale then b.scale else a.scale
  }

  /** Python's `a < b` on the numbers the two decimals denote. */
  predicate Less(a: Decimal, b: Decimal)
  {
    At(a, MaxScale(a, b)) < At(b, MaxScale(a, b))
  }

  predicate LessEq(a: Decimal, b: Decimal)
  {
    At(a, MaxScale(a, b)) <= At(b, MaxScale(a, b))
  }

  predicate SameValue(a: Decimal, b: Decimal)
  {
    At(a, MaxScale(a, b)) == At(b, MaxScale(a, b))
  }

  predicate IsPositive(d: Decimal)
  {
    d.mant > 0
  }

  predicate IsNonNegative(d: Decimal)
  {
    d.mant >= 0
  }

  lemma AtRescale(d: Decimal, s: nat, k: nat)
    requires d.scale <= s
    ensures At(d, s + k) == At(d, s) * Pow10(k)
  {
    Pow10Add(s - d.scale, k);
    assert s + k - d.scale == (s - d.scale) + k;
    MulAssoc(d.mant, Pow10(s - d.scale), Pow10(k));
  }

  /** Comparisons may be made at any scale fine enough for both operands. */
  lemma CompareAt(a: Decimal, b: Decimal, s: nat)
    requires a.scale <= s && b.scale <= s
    ensures Less(a, b) <==> At(a, s) < At(b, s)
    ensures LessEq(a, b) <==> At(a, s) <= At(b, s)
    ensures SameValue(a, b) <==> At(a, s) == At(b, s)
  {
    var m := MaxScale(a, b);
    AtRescale(a, m, s - m);
    AtRescale(b, m, s - m);
    MulOrder(At(a, m), At(b, m), Pow10(s - m));
  }

  function Finest(a: Decimal, b: Decimal, c: Decimal): (s: nat)
    ensures a.scale <= s && b.scale <= s && c.scale <= s
  {
    var m := MaxScale(a, b);
    if m <= c.scale then c.scale else m
  }

  lemma NotLessIsLessEq(a: Decimal, b: Decimal)
    ensures !Less(a, b) <==> LessEq(b, a)
  {
    CompareAt(a, b, MaxScale(a, b));
    CompareAt(b, a, MaxScale(a, b));
  }

  lemma LessEqTransitive(a: Decimal, b: Decimal, c: Decimal)
    requires LessEq(a, b) && LessEq(b, c)
    ensures LessEq(a, c)
  {
    var s := Finest(a, b, c);
    CompareAt(a, b, s);
    CompareAt(b, c, s);
    CompareAt(a, c, s);
  }

  /** Decimals of the same value compare alike. */
  lemma SameValueCompares(a: Decimal, b: Decimal, c: Decimal)
    requires SameValue(a, b)
    ensures LessEq(a, c) <==> LessEq(b, c)
    ensures LessEq(c, a) <==> LessEq(c, b)
    ensures Less(a, c) <==> Less(b, c)
    ensures Less(c, a) <==> Less(c, b)
  {
    var s := Finest(a, b, c);
    CompareAt(a, b, s);
    CompareAt(a, c, s);
    CompareAt(b, c, s);
    CompareAt(c, a, s);
    CompareAt(c, b, s);
  }

  /** A decimal not below a non-negative one is non-negative. */
  lemma NonNegativeAbove(lo: Decimal, d: Decimal)
    requires IsNonNegative(lo) && LessEq(lo, d)
    ensures IsNonNegative(d)
  {
    var s := MaxScale(lo, d);
    SignOfProduct(lo.mant, Pow10(s - lo.scale));
    if d.mant < 0 {
      MulPositive(-d.mant, Pow10(s - d.scale));
    }
  }

  /** Division rounding toward zero (Python's ROUND_DOWN); Dafny's `/` floors for a positive divisor. */
  function TruncDiv(m: int, p: nat): int
    requires p > 0
  {
    if m >= 0 then m / p else -((-m) / p)
  }

  /** For m >= 0: m / p >= 0 and m - (m / p) * p lies in [0, p). */
  lemma FloorDivBounds(m: int, p: int)
    requires m >= 0 && p > 0
    ensures m / p >= 0 && 0 <= m - (m / p) * p < p
  {
    DivMod(m, p);
    MulOrder(m / p, 0, p);
  }

  lemma TruncDivBounds(m: int, p: int)
    requires p > 0
    ensures m >= 0 ==> TruncDiv(m, p) >= 0 && 0 <= m - TruncDiv(m, p) * p < p
    ensures m <= 0 ==> TruncDiv(m, p) <= 0 && 0 <= TruncDiv(m, p) * p - m < p
  {
    if m >= 0 {
      FloorDivBounds(m, p);
    } else {
      var n := -m;
      FloorDivBounds(n, p);
      var k := n / p;
      assert TruncDiv(m, p) == -k;
      assert (-k) * p == -(k * p);
    }
  }

  lemma ExactTruncDiv(m: int, p: int)
    requires p > 0 && m % p == 0
    ensures TruncDiv(m, p) * p == m
  {
    DivMod(m, p);
    if m < 0 {
      var k := m / p;
      assert -m == (-k) * p;
      MulDivCancel(-k, p);
      assert p * (-k) == -m;
    }
  }

  function Abs(x: int): nat
  {
    if x >= 0 then x else -x
  }

  /** Truncation toward zero stays below a positive limit exactly when the dividend is below limit * p. */
  lemma TruncDivBelow(m: int, p: int, limit: int)
    requires p > 0 && limit > 0
    ensures Abs(TruncDiv(m, p)) < limit <==> Abs(m) < limit * p
  {
    var n := Abs(m);
    assert Abs(TruncDiv(m, p)) == n / p;
    FloorDivBounds(n, p);
    var k := n / p;
    if k < limit {
      MulOrder(k + 1, limit + 1, p);
      if k + 1 < limit {
        MulOrder(k + 1, limit, p);
      }
      assert (k + 1) * p == k * p + p;
    } else {
      MulOrder(limit, k + 1, p);
      if limit < k {
        MulOrder(limit, k, p);
      }
    }
  }

  /** The coefficient `quantize` produces: d cut (or padded) to s fractional digits. */
  function QuantizedCoefficient(d: Decimal, s: nat): int
  {
    if d.scale <= s then At(d, s) else TruncDiv(d.mant, Pow10(d.scale - s))
  }

  /** Scaling both sides of a comparison by the same positive factor. */
  lemma ScaledBelow(x: int, y: int, p: int, q: int)
    requires p > 0 && q > 0
    ensures x * p < y <==> x * (p * q) < y * q
  {
    MulAssoc(x, p, q);
    MulOrder(x * p, y, q);
  }

  /** The coefficient fits the limit exactly when |d| * 10^s is below it. */
  lemma CoefficientFits(d: Decimal, s: nat, limit: int)
    requires limit > 0
    ensures Abs(QuantizedCoefficient(d, s)) < limit <==> Abs(d.mant) * Pow10(s) < limit * Pow10(d.scale)
  {
    if d.scale <= s {
      PaddedCoefficientFits(d.mant, d.scale, s, limit);
    } else {
      CutCoefficientFits(d.mant, d.scale, s, limit);
    }
  }

  lemma PaddedCoefficientFits(m: int, e: nat, s: nat, limit: int)
    requires e <= s && limit > 0
    ensures Abs(m * Pow10(s - e)) < limit <==> Abs(m) * Pow10(s) < limit * Pow10(e)
  {
    var p, q := Pow10(s - e), Pow10(e);
    assert Abs(m * p) == Abs(m) * p by {
      SignOfProduct(m, p);
      assert (-m) * p == -(m * p);
    }
    Pow10Add(s - e, e);
    assert s - e + e == s;
    ScaledBelow(Abs(m), limit, p, q);
  }

  lemma CutCoefficientFits(m: int, e: nat, s: nat, limit: int)
    requires s < e && limit > 0
    ensures Abs(TruncDiv(m, Pow10(e - s))) < limit <==> Abs(m) * Pow10(s) < limit * Pow10(e)
  {
    var p, q := Pow10(e - s), Pow10(s);
    TruncDivBelow(m, p, limit);
    Pow10Add(e - s, s);
    assert e - s + s == e;
    MulAssoc(limit, p, q);
    MulOrder(Abs(m), limit * p, q);
  }

  /**
   * `Decimal(d).quantize(Decimal(1).scaleb(-s), rounding=ROUND_DOWN)`: d cut
   * to s fractional digits (padded when it has fewer), or None where Python
   * raises InvalidOperation because the coefficient exceeds 28 digits, which
   * is exactly when |d| * 10^s reaches 10^28.
   */
  function Quantize(d: Decimal, s: nat): (r: Option<Decimal>)
    ensures r.Some? <==> Abs(d.mant) * Pow10(s) < CoefficientLimit * Pow10(d.scale)
    ensures r.Some? ==> r.value.scale == s
  {
    CoefficientFits(d, s, CoefficientLimit);
    var c := QuantizedCoefficient(d, s);
    if -CoefficientLimit < c < CoefficientLimit then Some(Decimal(c, s)) else None
  }

  /** d has no significant digit beyond the s-th fractional place. */
  predicate OnGrid(d: Decimal, s: nat)
  {
    d.scale <= s || d.mant % Pow10(d.scale - s) == 0
  }

  /**
   * Quantizing truncates toward zero: the result has exactly s fractional
   * digits, never exceeds the input in magnitude, and is less than one unit
   * of the s-th place away from it.
   */
  lemma QuantizeTruncates(d: Decimal, s: nat)
    requires Quantize(d, s).Some?
    ensures var q := Quantize(d, s).value;
      var S := if d.scale <= s then s else d.scale;
      && q.scale == s
      && (IsNonNegative(d) ==> IsNonNegative(q) && 0 <= At(d, S) - At(q, S) < Pow10(S - s))
      && (d.mant <= 0 ==> q.mant <= 0 && 0 <= At(q, S) - At(d, S) < Pow10(S - s))
  {
    var q := Quantize(d, s).value;
    if d.scale > s {
      var p := Pow10(d.scale - s);
      assert At(d, d.scale) == d.mant;
      assert At(q, d.scale) == q.mant * p;
      assert q.mant == TruncDiv(d.mant, p);
      TruncDivBounds(d.mant, p);
    } else {
      assert At(q, s) == q.mant;
      SignOfProduct(d.mant, Pow10(s - d.scale));
    }
  }

  /**
   * For a non-negative input, the quantized value is the greatest number with
   * s fractional digits that does not exceed the input (rounding down to the
   * 10^-s grid).
   */
  lemma QuantizeIsGreatestBelow(d: Decimal, s: nat, x: Decimal)
    requires Quantize(d, s).Some? && IsNonNegative(d)
    requires x.scale == s && LessEq(x, d)
    ensures LessEq(x, Quantize(d, s).value)
  {
    var q := Quantize(d, s).value;
    QuantizeTruncates(d, s);
    var S := if d.scale <= s then s else d.scale;
    var p := Pow10(S - s);
    CompareAt(x, d, S);
    var xs, qs := At(x, S), At(q, S);
    assert xs < qs + p;
    assert xs == x.mant * p && qs == q.mant * p;
    assert x.mant * p < (q.mant + 1) * p by {
      assert (q.mant + 1) * p == q.mant * p + p;
    }
    MulOrder(x.mant, q.mant + 1, p);
    CompareAt(x, q, s);
  }

  /** A value already on the 10^-s grid passes through quantization unchanged. */
  lemma QuantizeKeepsGridValue(d: Decimal, s: nat)
    requires Quantize(d, s).Some? && OnGrid(d, s)
    ensures SameValue(Quantize(d, s).value, d)
  {
    var q := Quantize(d, s).value;
    if d.scale > s {
      var p := Pow10(d.scale - s);
      ExactTruncDiv(d.mant, p);
      assert At(q, d.scale) == q.mant * p;
      assert At(d, d.scale) == d.mant;
      CompareAt(q, d, d.scale);
    } else {
      assert At(q, s) == q.mant;
      CompareAt(q, d, s);
    }
  }

  /** Quantizing twice to the same number of digits changes nothing. */
  lemma QuantizeIdempotent(d: Decimal, s: nat)
    requires Quantize(d, s).Some?
    ensures Quantize(Quantize(d, s).value, s) == Quantize(d, s)
  {
    var q := Quantize(d, s).value;
    assert At(q, s) == q.mant;
  }

  /** Count of fractional digits left once trailing zeros of mant are dropped. */
  function SignificantScale(mant: int, scale: nat): (k: nat)
    ensures k <= scale
    decreases scale
  {
    if scale > 0 && mant % 10 == 0 then SignificantScale(mant / 10, scale - 1) else scale
  }

  /**
   * The exponent of `Decimal(str(float(d)))`, which the bot quantizes to:
   * Python prints a float with its significant fractional digits, and an
   * integral float as "n.0", so an integral step still keeps one decimal.
   */
  function ReprScale(d: Decimal): (k: nat)
    ensures k >= 1
  {
    var k := SignificantScale(d.mant, d.scale);
    if k == 0 then 1 else k
  }

  /** A power-of-ten step 10^-k (k >= 1), written with any number of trailing zeros, quantizes to k digits. */
  lemma {:induction false} ReprScaleOfPowerOfTen(j: nat, k: nat)
    requires k >= 1
    ensures ReprScale(Decimal(Pow10(j), k + j)) == k
  {
    PowerOfTenSignificantScale(j, k);
  }

  lemma {:induction false} PowerOfTenSignificantScale(j: nat, k: nat)
    ensures SignificantScale(Pow10(j), k + j) == k
  {
    if j > 0 {
      assert Pow10(j) % 10 == 0 && Pow10(j) / 10 == Pow10(j - 1);
      PowerOfTenSignificantScale(j - 1, k);
      assert k + j - 1 == k + (j - 1);
    } else {
      assert Pow10(0) % 10 == 1;
    }
  }

  /** An integral step (1, 5, 10, ...) yields one fractional digit, not zero: str(1.0) is "1.0". */
  lemma {:induction false} ReprScaleOfIntegral(d: Decimal)
    requires d.mant % Pow10(d.scale) == 0
    ensures ReprScale(d) == 1
  {
    IntegralSignificantScale(d.mant, d.scale);
  }

  lemma {:induction false} IntegralSignificantScale(m: int, s: nat)
    requires m % Pow10(s) == 0
    ensures SignificantScale(m, s) == 0
    decreases s
  {
    if s > 0 {
      DropTrailingZero(m, s);
      IntegralSignificantScale(m / 10, s - 1);
    }
  }

  /** A multiple of 10^s (s > 0) ends in a zero, and dropping it leaves a multiple of 10^(s-1). */
  lemma DropTrailingZero(m: int, s: nat)
    requires s > 0 && m % Pow10(s) == 0
    ensures m % 10 == 0 && (m / 10) % Pow10(s - 1) == 0
  {
    var p, p1 := Pow10(s), Pow10(s - 1);
    DivMod(m, p);
    var t := m / p;
    var u := p1 * t;
    assert m == t * p;
    assert p == 10 * p1;
    MulAssoc(10, p1, t);
    assert m == 10 * u;
    MulDivCancel(u, 10);
    MulDivCancel(t, p1);
  }

  /** A multiple of 10^s (s > 0) is also a multiple of 10^(s-1). */
  lemma CoarserMultiple(m: int, s: nat)
    requires s > 0 && m % Pow10(s) == 0
    ensures m % Pow10(s - 1) == 0
  {
    var p, p1 := Pow10(s), Pow10(s - 1);
    DivMod(m, p);
    var t := m / p;
    assert m == t * p;
    assert p == 10 * p1;
    MulAssoc(t, 10, p1);
    MulDivCancel(t * 10, p1);
    assert p1 * (t * 10) == m;
  }

  /** Ten times a multiple of 10^s is a multiple of 10^(s+1). */
  lemma AppendTrailingZero(m: int, s: nat)
    requires m % 10 == 0 && (m / 10) % Pow10(s) == 0
    ensures m % Pow10(s + 1) == 0
  {
    var p := Pow10(s);
    DivMod(m, 10);
    DivMod(m / 10, p);
    var t := (m / 10) / p;
    assert m == 10 * (t * p);
    MulAssoc(10, t, p);
    assert Pow10(s + 1) == 10 * p;
    MulAssoc(t, 10, p);
    MulDivCancel(t, Pow10(s + 1));
    assert Pow10(s + 1) * t == m;
  }

  /** Dropping the trailing zeros leaves a multiple: mant is divisible by 10^(scale - SignificantScale). */
  lemma {:induction false} SignificantScaleDivides(m: int, sc: nat)
    ensures m % Pow10(sc - SignificantScale(m, sc)) == 0
    decreases sc
  {
    var k := SignificantScale(m, sc);
    if sc > 0 && m % 10 == 0 {
      SignificantScaleDivides(m / 10, sc - 1);
      assert sc - 1 - k + 1 == sc - k;
      AppendTrailingZero(m, sc - 1 - k);
    } else {
      assert Pow10(0) == 1;
    }
  }

  /** No more zeros can be dropped: mant is not divisible by 10^(scale - j) for any j below SignificantScale. */
  lemma {:induction false} SignificantScaleIsLeast(m: int, sc: nat, j: nat)
    requires j < SignificantScale(m, sc)
    ensures m % Pow10(sc - j) != 0
    decreases sc
  {
    if sc > 0 && m % 10 == 0 {
      SignificantScaleIsLeast(m / 10, sc - 1, j);
    }
    if m % Pow10(sc - j) == 0 {
      DropTrailingZero(m, sc - j);
    }
  }

  /**
   * The step's exponent is the coarsest one (of at least one digit) on whose
   * grid the step lies: the step has no digit beyond ReprScale(step) places,
   * and every coarser scale from 1 up would cut a digit of it.
   */
  lemma ReprScaleIsCoarsest(d: Decimal)
    ensures OnGrid(d, ReprScale(d))
    ensures forall j :: 1 <= j < ReprScale(d) ==> !OnGrid(d, j)
  {
    var k := SignificantScale(d.mant, d.scale);
    SignificantScaleDivides(d.mant, d.scale);
    if k == 0 && d.scale > 1 {
      CoarserMultiple(d.mant, d.scale);
    }
    forall j | 1 <= j < ReprScale(d)
      ensures !OnGrid(d, j)
    {
      SignificantScaleIsLeast(d.mant, d.scale, j);
    }
  }

  // ---------------------------------------------------------------------
  // Decimal text: Python's float() on the strings the exchange sends.

  predicate IsDigit(c: char)
  {
    '0' <= c <= '9'
  }

  predicate AllDigits(s: string)
  {
    forall i :: 0 <= i < |s| ==> IsDigit(s[i])
  }

  /** The number a digit string denotes (meaningful when AllDigits holds). */
  function DigitsValue(s: string): int
  {
    if |s| == 0 then 0 else 10 * DigitsValue(s[..|s| - 1]) + (s[|s| - 1] as int - '0' as int)
  }

  /** Index of the first '.' in s, or |s| when there is none. */
  function PointIndex(s: string): (i: nat)
    ensures i <= |s|
    ensures forall j :: 0 <= j < i ==> s[j] != '.'
    ensures i < |s| ==> s[i] == '.'
  {
    if |s| == 0 then 0
    else if s[0] == '.' then 0
    else 1 + PointIndex(s[1..])
  }

  function ParseUnsigned(s: string): Option<Decimal>
  {
    var p := PointIndex(s);
    var whole := s[..p];
    var frac := if p < |s| then s[p + 1..] else "";
    if AllDigits(whole) && AllDigits(frac) && |whole| + |frac| > 0
    then Some(Decimal(DigitsValue(whole + frac), |frac|))
    else None
  }

  /**
   * Python's float() on a plain decimal literal: an optional sign, digits,
   * an optional point with more digits, at least one digit in all.
   */
  function ParseDecimal(s: string): (r: Option<Decimal>)
    ensures s == "" || s == "-" || s == "+" || s == "." ==> r.None?
    ensures |s| > 0 && AllDigits(s) ==> r == Some(Decimal(DigitsValue(s), 0))
  {
    if |s| > 0 && (s[0] == '-' || s[0] == '+') then
      match ParseUnsigned(s[1..])
      case None => None
      case Some(d) => Some(if s[0] == '-' then Decimal(-d.mant, d.scale) else d)
    else if |s| > 0 && AllDigits(s) then
      PointIndexOfDigits(s);
      assert s[..|s|] == s && s[..|s|] + "" == s;
      ParseUnsigned(s)
    else
      ParseUnsigned(s)
  }

  function DigitChar(n: nat): char
    requires n < 10
  {
    ('0' as int + n) as char
  }

  /** Decimal digits of n, without leading zeros ("0" for zero). */
  function NatDigits(n: nat): (s: string)
    ensures AllDigits(s) && |s| >= 1
    decreases n
  {
    if n < 10 then [DigitChar(n)] else NatDigits(n / 10) + [DigitChar(n % 10)]
  }

  function Zeros(k: nat): (s: string)
    ensures |s| == k && AllDigits(s)
  {
    if k == 0 then "" else "0" + Zeros(k - 1)
  }

  /** The digits of n padded with leading zeros to at least width characters. */
  function Padded(n: nat, width: nat): (s: string)
    ensures AllDigits(s) && |s| >= width && |s| >= 1
  {
    var ds := NatDigits(n);
    if |ds| < width then Zeros(width - |ds|) + ds else ds
  }

  /** Digits of n with a point placed before the last s of them (padding with zeros as needed). */
  function PointedDigits(n: nat, s: nat): (body: string)
    ensures |body| > 0 && IsDigit(body[0])
  {
    var ds := Padded(n, s + 1);
    if s == 0 then ds else ds[..|ds| - s] + "." + ds[|ds| - s..]
  }

  /** Canonical text of d: sign, at least one integer digit, exactly d.scale fractional digits. */
  function Show(d: Decimal): string
  {
    if d.mant < 0 then "-" + PointedDigits(-d.mant, d.scale) else PointedDigits(d.mant, d.scale)
  }

  lemma {:induction false} DigitsValueAppend(a: string, b: string)
    ensures DigitsValue(a + b) == DigitsValue(a) * Pow10(|b|) + DigitsValue(b)
    decreases |b|
  {
    if |b| == 0 {
      assert a + b == a;
    } else {
      var b' := b[..|b| - 1];
      DropLastOfAppend(a, b);
      DigitsValueAppend(a, b');
      var last := b[|b| - 1] as int - '0' as int;
      var va, vb', p := DigitsValue(a), DigitsValue(b'), Pow10(|b'|);
      assert DigitsValue(a + b) == 10 * DigitsValue(a + b') + last;
      assert DigitsValue(b) == 10 * vb' + last;
      assert Pow10(|b|) == 10 * p;
      ShiftDigit(va, vb', p, last);
    }
  }

  lemma DropLastOfAppend(a: string, b: string)
    requires |b| > 0
    ensures (a + b)[..|a + b| - 1] == a + b[..|b| - 1]
    ensures (a + b)[|a + b| - 1] == b[|b| - 1]
  {
  }

  lemma ShiftDigit(va: int, vb: int, p: int, last: int)
    ensures 10 * (va * p + vb) + last == va * (10 * p) + (10 * vb + last)
  {
    MulAssoc(va, 10, p);
    MulAssoc(10, va, p);
  }

  lemma {:induction false} NatDigitsValue(n: nat)
    ensures DigitsValue(NatDigits(n)) == n
    decreases n
  {
    if n >= 10 {
      NatDigitsValue(n / 10);
      var s := NatDigits(n);
      assert s[..|s| - 1] == NatDigits(n / 10);
    }
  }

  lemma {:induction false} ZerosValue(k: nat)
    ensures DigitsValue(Zeros(k)) == 0
  {
    if k > 0 {
      DigitsValueAppend("0", Zeros(k - 1));
      ZerosValue(k - 1);
      assert DigitsValue("0") == 0 by {
        assert "0"[..0] == "";
      }
    }
  }

  lemma {:induction false} PaddedValue(n: nat, width: nat)
    ensures DigitsValue(Padded(n, width)) == n
  {
    var ds := NatDigits(n);
    NatDigitsValue(n);
    if |ds| < width {
      ZerosPrefixValue(width - |ds|, ds);
    }
  }

  /** Leading zeros do not change the value of a digit string. */
  lemma ZerosPrefixValue(k: nat, ds: string)
    ensures DigitsValue(Zeros(k) + ds) == DigitsValue(ds)
  {
    var z := Zeros(k);
    ZerosValue(k);
    DigitsValueAppend(z, ds);
    var zv, p := DigitsValue(z), Pow10(|ds|);
    assert zv * p == 0;
  }

  lemma PointIndexOfDigits(s: string)
    requires AllDigits(s)
    ensures PointIndex(s) == |s|
  {
    assert forall j :: 0 <= j < |s| ==> s[j] != '.';
  }

  lemma PointIndexAfterDigits(whole: string, frac: string)
    requires AllDigits(whole)
    ensures PointIndex(whole + "." + frac) == |whole|
  {
    var body := whole + "." + frac;
    assert forall j :: 0 <= j < |whole| ==> body[j] == whole[j] && body[j] != '.';
    assert body[|whole|] == '.';
  }

  lemma {:induction false} UnsignedShowParses(n: nat, s: nat)
    ensures ParseUnsigned(PointedDigits(n, s)) == Some(Decimal(n, s))
  {
    if s == 0 {
      IntegerShowParses(n);
    } else {
      FractionShowParses(n, s);
    }
  }

  lemma IntegerShowParses(n: nat)
    ensures ParseUnsigned(PointedDigits(n, 0)) == Some(Decimal(n, 0))
  {
    var ds := Padded(n, 1);
    PaddedValue(n, 1);
    assert PointedDigits(n, 0) == ds;
    IntegerDigitsParse(ds);
  }

  lemma FractionShowParses(n: nat, s: nat)
    requires s > 0
    ensures ParseUnsigned(PointedDigits(n, s)) == Some(Decimal(n, s))
  {
    var ds := Padded(n, s + 1);
    PaddedValue(n, s + 1);
    assert PointedDigits(n, s) == ds[..|ds| - s] + "." + ds[|ds| - s..];
    FractionDigitsParse(ds, s);
  }

  lemma IntegerDigitsParse(ds: string)
    requires AllDigits(ds) && |ds| > 0
    ensures ParseUnsigned(ds) == Some(Decimal(DigitsValue(ds), 0))
  {
    PointIndexOfDigits(ds);
    assert ds[..|ds|] == ds;
    assert ds + "" == ds;
  }

  lemma FractionDigitsParse(ds: string, s: nat)
    requires AllDigits(ds) && 0 < s < |ds|
    ensures ParseUnsigned(ds[..|ds| - s] + "." + ds[|ds| - s..]) == Some(Decimal(DigitsValue(ds), s))
  {
    var whole := ds[..|ds| - s];
    var frac := ds[|ds| - s..];
    SplitDigits(ds, s);
    var body := whole + "." + frac;
    PointIndexAfterDigits(whole, frac);
    PointedParts(whole, frac);
  }

  lemma SplitDigits(ds: string, s: nat)
    requires AllDigits(ds) && s <= |ds|
    ensures AllDigits(ds[..|ds| - s]) && AllDigits(ds[|ds| - s..])
    ensures ds[..|ds| - s] + ds[|ds| - s..] == ds
    ensures |ds[|ds| - s..]| == s
  {
  }

  lemma PointedParts(whole: string, frac: string)
    ensures (whole + "." + frac)[..|whole|] == whole
    ensures (whole + "." + frac)[|whole| + 1..] == frac
  {
  }

  /** Round trip: the canonical text of any decimal parses back to that decimal. */
  lemma {:induction false} ParseShow(d: Decimal)
    ensures ParseDecimal(Show(d)) == Some(d)
  {
    var n: nat := if d.mant < 0 then -d.mant else d.mant;
    var body := PointedDigits(n, d.scale);
    UnsignedShowParses(n, d.scale);
    if d.mant < 0 {
      SignedParse(body, Decimal(n, d.scale));
    } else {
      assert Show(d) == body;
    }
  }

  lemma SignedParse(body: string, d: Decimal)
    requires ParseUnsigned(body) == Some(d)
    ensures ParseDecimal("-" + body) == Some(Decimal(-d.mant, d.scale))
  {
    assert ("-" + body)[1..] == body;
  }
}
