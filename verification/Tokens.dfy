/**
 Amounts in storage and display units. Decimals follow the default arithmetic context:
 28 significant digits, half-even rounding.
 */
module Tokens {
  import opened Schema

  /** A coefficient of the context has at most 28 digits. */
  const LIMIT: nat := 10_000_000_000_000_000_000_000_000_000

  // ----- Shifting by powers of ten -----

  /** c * 10^k */
  function Scale(c: nat, k: nat): (r: nat)
    ensures r >= c
  {
    if k == 0 then c else 10 * Scale(c, k - 1)
  }

  /** c / 10^k, rounded down */
  function Drop(c: nat, k: nat): (r: nat)
    ensures r <= c
  {
    if k == 0 then c else Drop(c / 10, k - 1)
  }

  lemma {:induction false} ScaleAdd(c: nat, a: nat, b: nat)
    ensures Scale(Scale(c, a), b) == Scale(c, a + b)
  {
    if b > 0 {
      ScaleAdd(c, a, b - 1);
    }
  }

  lemma {:induction false} ScaleInjective(x: nat, y: nat, k: nat)
    ensures Scale(x, k) == Scale(y, k) <==> x == y
  {
    if k > 0 {
      ScaleInjective(x, y, k - 1);
    }
  }

  lemma {:induction false} DropScale(c: nat, k: nat)
    ensures Drop(Scale(c, k), k) == c
  {
    if k > 0 {
      DropScale(c, k - 1);
    }
  }

  lemma {:induction false} ScaleDrop(c: nat, k: nat)
    ensures Scale(Drop(c, k), k) <= c
  {
    if k > 0 {
      ScaleDrop(c / 10, k - 1);
    }
  }

  // ----- Decimals -----

  /** The number coef * 10^exp, with its sign. */
  datatype Decimal = Decimal(neg: bool, coef: nat, exp: int)

  function Signed(neg: bool, n: nat): int {
    if neg then 0 - n else n
  }

  function Abs(v: int): nat {
    if v < 0 then 0 - v else v
  }

  /** c / 10^k to the nearest integer, ties to even. */
  function HalfEven(c: nat, k: nat): (q: nat)
    ensures Scale(Drop(c, k), k) == c ==> q == Drop(c, k)
    ensures q == Drop(c, k) || q == Drop(c, k) + 1
  {
    var q, r := Drop(c, k), c - Scale(Drop(c, k), k);
    if 2 * r > Scale(1, k) || (2 * r == Scale(1, k) && q % 2 == 1) then q + 1 else q
  }

  /** How many trailing digits have to go for at most 28 digits to remain. */
  function Excess(c: nat): (k: nat)
    ensures Drop(c, k) < LIMIT
  {
    if c < LIMIT then 0 else 1 + Excess(c / 10)
  }

  /** Round to the context's precision. */
  function Fix(x: Decimal): Decimal {
    var k := Excess(x.coef);
    var q := HalfEven(x.coef, k);
    if q >= LIMIT then Decimal(x.neg, q / 10, x.exp + k + 1) else Decimal(x.neg, q, x.exp + k)
  }

  /** c * 10^z == n */
  predicate Same(c: nat, z: int, n: nat) {
    if z >= 0 then Scale(c, z) == n else c == Scale(n, -z)
  }

  /** Apart from its sign, x is exactly n / 10^s. */
  predicate Denotes(x: Decimal, n: nat, s: nat) {
    Same(x.coef, x.exp + s, n)
  }

  /** At most 28 digits, not counting trailing zeros. */
  ghost predicate Representable(n: nat) {
    exists m: nat, j: nat :: n == Scale(m, j) && m < LIMIT
  }

  // ----- Conversion -----

  /** Storage units to display units: divide by 10^decimals; zero has no sign. */
  function Convert(decimals: nat, v: int): Decimal {
    if v == 0 then Decimal(false, 0, 0) else Fix(Decimal(v < 0, Abs(v), 0 - decimals))
  }

  /** The multiple of 10^-p nearest to x, ties to even, as a number of such units without its sign. */
  function Rescale(x: Decimal, p: nat): nat {
    if x.exp + p >= 0 then Scale(x.coef, x.exp + p) else HalfEven(x.coef, -(x.exp + p))
  }

  /** The nearest integer, ties to even. */
  function RoundToInt(x: Decimal): int {
    Signed(x.neg, Rescale(x, 0))
  }

  /** Display units to storage units: multiply by 10^decimals and round. */
  function Deconvert(decimals: nat, x: Decimal): int {
    RoundToInt(Fix(Decimal(x.neg, Scale(x.coef, decimals), x.exp)))
  }

  // ----- Rounding -----

  lemma {:induction false} ScaleSum(x: nat, y: nat, k: nat)
    ensures Scale(x + y, k) == Scale(x, k) + Scale(y, k)
  {
    if k > 0 {
      ScaleSum(x, y, k - 1);
    }
  }

  lemma {:induction false} DropIsFloor(c: nat, k: nat)
    ensures Scale(Drop(c, k), k) <= c < Scale(Drop(c, k), k) + Scale(1, k)
  {
    if k > 0 {
      DropIsFloor(c / 10, k - 1);
    }
  }

  /** m units of 10^k are within half a unit of c, and exactly half a unit only if m is even. */
  predicate Nearest(m: nat, c: nat, k: nat) {
    var d := Abs(Scale(m, k) - c);
    2 * d < Scale(1, k) || (2 * d == Scale(1, k) && m % 2 == 0)
  }

  lemma ApartByAUnit(m: nat, q: nat, k: nat)
    requires m < q
    ensures Scale(m, k) + Scale(1, k) <= Scale(q, k)
    ensures Scale(m, k) + Scale(1, k) == Scale(q, k) ==> q == m + 1
  {
    ScaleSum(m, 1, k);
    ScaleSum(m + 1, q - m - 1, k);
    assert Scale(q, k) == Scale(m + 1, k) + Scale(q - m - 1, k);
  }

  /** Rounding gives the one nearest number of units, ties going to the even one. */
  lemma HalfEvenIsNearest(c: nat, k: nat, m: nat)
    ensures Nearest(m, c, k) <==> m == HalfEven(c, k)
  {
    var d, q := Drop(c, k), HalfEven(c, k);
    DropIsFloor(c, k);
    ScaleSum(d, 1, k);
    assert Nearest(q, c, k);
    if m < q {
      ApartByAUnit(m, q, k);
    } else if q < m {
      ApartByAUnit(q, m, k);
    }
  }

  /** Printing and rounding to p places takes the nearest multiple of 10^-p, ties to even; more places than x has change nothing. */
  lemma RescaleIsNearest(x: Decimal, p: nat, m: nat)
    ensures m == Rescale(x, p) <==>
      if x.exp + p >= 0 then Denotes(x, m, p) else Nearest(m, x.coef, -(x.exp + p))
  {
    if x.exp + p < 0 {
      HalfEvenIsNearest(x.coef, -(x.exp + p), m);
    }
  }

  lemma {:induction false} ExcessIsLeast(c: nat)
    ensures var k := Excess(c); Drop(c, k) < LIMIT && (k > 0 ==> Drop(c, k - 1) >= LIMIT)
  {
    if c >= LIMIT {
      ExcessIsLeast(c / 10);
    }
  }

  /** The context drops no more digits than it has to, and rounds what it keeps to the nearest, ties to even. */
  lemma FixIsNearest(x: Decimal)
    ensures var k, y := Excess(x.coef), Fix(x);
      && y.neg == x.neg && y.coef < LIMIT && y.exp >= x.exp + k
      && Nearest(Scale(y.coef, y.exp - x.exp - k), x.coef, k)
      && (k > 0 ==> Drop(x.coef, k - 1) >= LIMIT)
      && (k == 0 ==> y == x)
  {
    var k := Excess(x.coef);
    ExcessIsLeast(x.coef);
    HalfEvenIsNearest(x.coef, k, HalfEven(x.coef, k));
    assert k == 0 ==> HalfEven(x.coef, k) == x.coef && x.coef < LIMIT;
    hide Nearest, Drop, HalfEven, Excess;
    if HalfEven(x.coef, k) >= LIMIT {
      assert Scale(LIMIT / 10, 1) == LIMIT;
    }
  }

  /** The display value keeps the sign and drops no more digits of the amount than it has to, rounding to the nearest, ties to even. */
  lemma ConvertIsNearest(decimals: nat, v: int)
    requires v != 0
    ensures var k, y := Excess(Abs(v)), Convert(decimals, v);
      && y.neg == (v < 0) && y.coef < LIMIT && y.exp + decimals >= k
      && Nearest(Scale(y.coef, y.exp + decimals - k), Abs(v), k)
      && (k > 0 ==> Drop(Abs(v), k - 1) >= LIMIT)
  {
    FixIsNearest(Decimal(v < 0, Abs(v), 0 - decimals));
  }

  /** A display value of few enough digits converts to the nearest number of storage units, ties to even. */
  lemma DeconvertIsNearest(decimals: nat, x: Decimal)
    requires Scale(x.coef, decimals) < LIMIT
    ensures var m := Abs(Deconvert(decimals, x));
      && Deconvert(decimals, x) == Signed(x.neg, m)
      && if x.exp >= 0 then m == Scale(x.coef, decimals + x.exp) else Nearest(m, Scale(x.coef, decimals), -x.exp)
  {
    var y := Decimal(x.neg, Scale(x.coef, decimals), x.exp);
    FixIsNearest(y);
    RescaleIsNearest(y, 0, Rescale(y, 0));
    if x.exp >= 0 {
      ScaleAdd(x.coef, decimals, x.exp);
    }
  }

  // ----- Exactness -----

  lemma {:induction false} ExcessOfMultiple(c: nat, m: nat, t: nat)
    requires c == Scale(m, t) && m < LIMIT
    ensures Scale(Drop(c, Excess(c)), Excess(c)) == c
    decreases t
  {
    if c >= LIMIT {
      ExcessOfMultiple(c / 10, m, t - 1);
    }
  }

  /** Rounding to the context keeps a coefficient with enough trailing zeros exactly. */
  lemma FixOfMultiple(x: Decimal, m: nat, t: nat)
    requires x.coef == Scale(m, t) && m < LIMIT
    ensures var k := Excess(x.coef);
      Fix(x) == Decimal(x.neg, Drop(x.coef, k), x.exp + k) && Scale(Drop(x.coef, k), k) == x.coef
  {
    ExcessOfMultiple(x.coef, m, t);
  }

  /** Dividing the coefficient by 10^k and raising the exponent by k changes nothing. */
  lemma ShiftSame(q: nat, k: nat, z: int, n: nat)
    ensures Same(Scale(q, k), z, n) <==> Same(q, z + k, n)
  {
    hide Scale;
    if z >= 0 {
      ScaleAdd(q, k, z);
    } else if z + k >= 0 {
      ScaleAdd(q, z + k, -z);
      ScaleInjective(Scale(q, z + k), n, -z);
    } else {
      ScaleAdd(n, -(z + k), k);
      ScaleInjective(q, Scale(n, -(z + k)), k);
    }
  }

  lemma ShiftDenotes(neg: bool, e: int, q: nat, k: nat, n: nat, s: nat)
    ensures Denotes(Decimal(neg, Scale(q, k), e), n, s) <==> Denotes(Decimal(neg, q, e + k), n, s)
  {
    ShiftSame(q, k, e + s, n);
  }

  /** A decimal that is a representable integer has a coefficient with enough trailing zeros. */
  lemma CoefOfInteger(x: Decimal, n: nat) returns (m: nat, t: nat)
    requires Denotes(x, n, 0) && Representable(n)
    ensures x.coef == Scale(m, t) && m < LIMIT
  {
    var m0: nat, j: nat :| n == Scale(m0, j) && m0 < LIMIT;
    if x.exp < 0 {
      ScaleAdd(m0, j, -x.exp);
      m, t := m0, j - x.exp;
    } else if x.exp <= j {
      m, t := m0, j - x.exp;
      ScaleAdd(m0, t, x.exp);
      ScaleInjective(x.coef, Scale(m0, t), x.exp);
    } else {
      m, t := x.coef, 0;
      ScaleAdd(x.coef, x.exp - j, j);
      ScaleInjective(Scale(x.coef, x.exp - j), m0, j);
    }
  }

  lemma RescaleExact(x: Decimal, n: nat, p: nat)
    requires Denotes(x, n, p)
    ensures Rescale(x, p) == n
  {
    if x.exp + p < 0 {
      DropScale(n, -(x.exp + p));
    }
  }

  /** Any decimal that is exactly n / 10^decimals converts back to n. */
  lemma DeconvertExact(decimals: nat, x: Decimal, n: nat)
    requires Denotes(x, n, decimals) && Representable(n)
    ensures Deconvert(decimals, x) == Signed(x.neg, n)
  {
    var y := Decimal(x.neg, Scale(x.coef, decimals), x.exp);
    ShiftSame(x.coef, decimals, x.exp, n);
    var m, t := CoefOfInteger(y, n);
    FixOfMultiple(y, m, t);
    ShiftDenotes(y.neg, y.exp, Drop(y.coef, Excess(y.coef)), Excess(y.coef), n, 0);
    RescaleExact(Fix(y), n, 0);
  }

  lemma ConvertExact(decimals: nat, v: int)
    requires Representable(Abs(v))
    ensures Denotes(Convert(decimals, v), Abs(v), decimals)
    ensures Convert(decimals, v).neg == (v < 0)
  {
    if v == 0 {
      ScaleZero(decimals);
    } else {
      var x := Decimal(v < 0, Abs(v), 0 - decimals);
      var m: nat, j: nat :| Abs(v) == Scale(m, j) && m < LIMIT;
      FixOfMultiple(x, m, j);
      ShiftDenotes(x.neg, x.exp, Drop(x.coef, Excess(x.coef)), Excess(x.coef), Abs(v), decimals);
    }
  }

  lemma {:induction false} ScaleZero(k: nat)
    ensures Scale(0, k) == 0
  {
    if k > 0 {
      ScaleZero(k - 1);
    }
  }

  /** A decimal of the context, rounded to any place, has at most 28 digits, not counting trailing zeros. */
  lemma RescaleIsRepresentable(x: Decimal, p: nat)
    requires x.coef < LIMIT
    ensures Representable(Rescale(x, p))
  {
    var n := Rescale(x, p);
    if x.exp + p < 0 {
      assert n == Scale(n, 0);
      assert LIMIT == Scale(LIMIT / 10, 1);
    }
  }

  lemma DeconvertIsRepresentable(decimals: nat, x: Decimal)
    ensures Representable(Abs(Deconvert(decimals, x)))
  {
    RescaleIsRepresentable(Fix(Decimal(x.neg, Scale(x.coef, decimals), x.exp)), 0);
  }

  /** Converting to display units and back is the identity exactly on the amounts the context can represent. */
  lemma ConversionRoundTrip(decimals: nat, v: int)
    ensures Deconvert(decimals, Convert(decimals, v)) == v <==> Representable(Abs(v))
  {
    if Representable(Abs(v)) {
      ConvertExact(decimals, v);
      DeconvertExact(decimals, Convert(decimals, v), Abs(v));
    }
    DeconvertIsRepresentable(decimals, Convert(decimals, v));
  }

  /** Every amount of at most 28 digits, and so every u64, makes the round trip. */
  lemma ShortAmountsRoundTrip(decimals: nat, v: int)
    requires Abs(v) < LIMIT
    ensures Deconvert(decimals, Convert(decimals, v)) == v
  {
    assert Abs(v) == Scale(Abs(v), 0);
    ConversionRoundTrip(decimals, v);
  }

  /** Beyond 28 digits a last digit that is set is lost. */
  lemma LongAmountLosesADigit(decimals: nat)
    ensures Deconvert(decimals, Convert(decimals, LIMIT + 1)) != LIMIT + 1
  {
    forall m: nat, j: nat | m < LIMIT
      ensures Scale(m, j) != LIMIT + 1
    {
      assert j > 0 ==> Scale(m, j) == 10 * Scale(m, j - 1);
    }
    ConversionRoundTrip(decimals, LIMIT + 1);
  }

  // ----- Text -----

  predicate IsDigit(c: char) {
    '0' <= c <= '9'
  }

  predicate AllDigits(s: string) {
    forall i :: 0 <= i < |s| ==> IsDigit(s[i])
  }

  function DigitChar(d: nat): (c: char)
    requires d < 10
    ensures IsDigit(c)
  {
    '0' + d as char
  }

  /** Exactly p digits of n, least significant last, with leading zeros. */
  function Padded(n: nat, p: nat): (s: string)
    ensures |s| == p && AllDigits(s)
  {
    if p == 0 then "" else Padded(n / 10, p - 1) + [DigitChar(n % 10)]
  }

  /** n in decimal, with no leading zero but for zero itself. */
  function Digits(n: nat): (s: string)
    ensures s != "" && AllDigits(s) && (s[0] == '0' ==> n == 0) && (n == 0 ==> s == "0")
  {
    if n < 10 then [DigitChar(n)] else Digits(n / 10) + [DigitChar(n % 10)]
  }

  /** The number a string of digits stands for. */
  function ReadDigits(s: string): nat
    requires AllDigits(s)
  {
    if s == "" then 0 else 10 * ReadDigits(s[..|s| - 1]) + (s[|s| - 1] as int - '0' as int)
  }

  /** Where c first occurs, or the length of s. */
  function IndexOf(s: string, c: char): (k: nat)
    ensures k <= |s| && c !in s[..k] && (k < |s| ==> s[k] == c)
  {
    if s == "" || s[0] == c then 0 else 1 + IndexOf(s[1..], c)
  }

  /** n / 10^p with p digits after the point, and no point for p = 0. */
  function FixedPoint(neg: bool, n: nat, p: nat): string {
    (if neg then "-" else "") + Digits(Drop(n, p)) + if p == 0 then "" else "." + Padded(n, p)
  }

  /** What stands before and after the point. */
  function Parts(t: string): (string, string) {
    var k := IndexOf(t, '.');
    (t[..k], if k < |t| then t[k + 1..] else "")
  }

  /** A decimal's text without an exponent: an optional minus, digits, an optional fraction. */
  function ReadDecimal(s: string): Option<Decimal> {
    var neg := s != "" && s[0] == '-';
    var (whole, fraction) := Parts(if neg then s[1..] else s);
    var digits := whole + fraction;
    if digits != "" && AllDigits(digits)
    then Some(Decimal(neg, ReadDigits(digits), 0 - |fraction|))
    else None
  }

  lemma {:induction false} ReadOfDigits(n: nat)
    ensures ReadDigits(Digits(n)) == n
  {
    if n >= 10 {
      ReadOfDigits(n / 10);
      assert Digits(n)[..|Digits(n)| - 1] == Digits(n / 10);
    }
  }

  /** Reading on over p padded digits appends the low p digits of n. */
  lemma {:induction false} ReadOfPadded(s: string, n: nat, p: nat)
    requires AllDigits(s)
    ensures ReadDigits(s + Padded(n, p)) == Scale(ReadDigits(s), p) + n - Scale(Drop(n, p), p)
  {
    var t := s + Padded(n, p);
    if p == 0 {
      assert t == s;
    } else {
      ReadOfPadded(s, n / 10, p - 1);
      assert t[..|t| - 1] == s + Padded(n / 10, p - 1);
    }
  }

  lemma {:induction false} IndexOfFirst(a: string, c: char, b: string)
    requires c !in a
    ensures IndexOf(a + [c] + b, c) == |a|
  {
    if a != "" {
      IndexOfFirst(a[1..], c, b);
      assert (a + [c] + b)[1..] == a[1..] + [c] + b;
    }
  }

  lemma PartsOfFixedPoint(whole: string, fraction: string)
    requires AllDigits(whole) && AllDigits(fraction)
    ensures Parts(whole + if fraction == "" then "" else "." + fraction) == (whole, fraction)
  {
    hide IndexOf;
    var t := whole + if fraction == "" then "" else "." + fraction;
    if fraction == "" {
      assert t == whole;
      assert IndexOf(t, '.') < |t| ==> IsDigit(t[IndexOf(t, '.')]);
    } else {
      assert t == whole + ['.'] + fraction;
      IndexOfFirst(whole, '.', fraction);
    }
  }

  /** What is printed is read back exactly. */
  lemma FixedPointRoundTrip(neg: bool, n: nat, p: nat)
    ensures ReadDecimal(FixedPoint(neg, n, p)) == Some(Decimal(neg, n, 0 - p))
  {
    hide Padded, Digits, ReadDigits, Scale, Drop, IndexOf, Parts;
    var whole, fraction := Digits(Drop(n, p)), Padded(n, p);
    var t := whole + if fraction == "" then "" else "." + fraction;
    PartsOfFixedPoint(whole, fraction);
    assert t[0] == whole[0] && IsDigit(whole[0]);
    if neg {
      assert FixedPoint(neg, n, p) == "-" + t && ("-" + t)[1..] == t;
    } else {
      assert FixedPoint(neg, n, p) == t;
    }
    ReadOfDigits(Drop(n, p));
    ReadOfPadded(whole, n, p);
    assert AllDigits(whole + fraction);
  }

  // ----- Formatting -----

  function TrailingZeros(c: nat): (k: nat)
    requires c > 0
    ensures Scale(Drop(c, k), k) == c && Drop(c, k) % 10 != 0
  {
    if c % 10 != 0 then 0 else 1 + TrailingZeros(c / 10)
  }

  /** The exponent once trailing zeros are stripped. */
  function NormalExponent(x: Decimal): int {
    if x.coef == 0 then 0 else x.exp + TrailingZeros(x.coef)
  }

  /** How many digits follow the point. */
  function Precision(decimals: nat, suggested: nat, extra: bool, v: int): nat {
    var needed := 0 - NormalExponent(Convert(decimals, v));
    if extra && needed > suggested then needed else suggested
  }

  function Printed(decimals: nat, p: nat, v: int): string {
    var x := Convert(decimals, v);
    FixedPoint(x.neg, Rescale(x, p), p)
  }

  function Format(decimals: nat, suggested: nat, code: string, extra: bool, v: int): string {
    Printed(decimals, Precision(decimals, suggested, extra, v), v) + " " + code
  }

  /** The storage amount that the number at the front of a formatted amount is read as. */
  function ReadAmount(decimals: nat, s: string): Option<int> {
    match ReadDecimal(s[..IndexOf(s, ' ')])
    case Some(x) => Some(Deconvert(decimals, x))
    case None => None
  }

  /** No digit is set beyond p places after the point. */
  predicate Fits(decimals: nat, p: nat, n: nat) {
    p < decimals ==> Scale(Drop(n, decimals - p), decimals - p) == n
  }

  /** Moving the unit by 10^g on both sides changes nothing. */
  lemma SameUnits(c: nat, z: int, m: nat, g: nat)
    ensures Same(c, z + g, Scale(m, g)) <==> Same(c, z, m)
  {
    hide Scale;
    if z >= 0 {
      ScaleAdd(c, z, g);
      ScaleInjective(Scale(c, z), m, g);
    } else if z + g >= 0 {
      ScaleAdd(m, -z, z + g);
      ScaleInjective(c, Scale(m, -z), z + g);
    } else {
      ScaleAdd(m, g, -(z + g));
    }
  }

  lemma DenotesUnits(x: Decimal, m: nat, p: nat, g: nat)
    ensures Denotes(x, Scale(m, g), p + g) <==> Denotes(x, m, p)
  {
    hide Scale;
    SameUnits(x.coef, x.exp + p, m, g);
    assert x.exp + p + g == x.exp + (p + g);
  }

  lemma DenotesOne(x: Decimal, m: nat, n: nat, s: nat)
    requires Denotes(x, m, s) && Denotes(x, n, s)
    ensures m == n
  {
    RescaleExact(x, m, s);
    RescaleExact(x, n, s);
  }

  /** x is a whole number of units of 10^-p exactly when p reaches its last set digit. */
  lemma WholeIffPrecise(x: Decimal, p: nat)
    ensures (exists m: nat :: Denotes(x, m, p)) <==> p >= 0 - NormalExponent(x)
  {
    hide Drop, TrailingZeros;
    if x.coef == 0 {
      ScaleZero(if x.exp + p >= 0 then x.exp + p else -(x.exp + p));
      assert Denotes(x, 0, p);
    } else {
      var k := TrailingZeros(x.coef);
      var y := Decimal(x.neg, Drop(x.coef, k), x.exp + k);
      forall m: nat
        ensures Denotes(x, m, p) <==> Denotes(y, m, p)
      {
        ShiftDenotes(x.neg, x.exp, y.coef, k, m, p);
      }
      if y.exp + p >= 0 {
        assert Denotes(y, Scale(y.coef, y.exp + p), p);
      }
    }
  }

  lemma WholeIffFits(decimals: nat, p: nat, n: nat, x: Decimal)
    requires Denotes(x, n, decimals)
    ensures Fits(decimals, p, n) <==> exists m: nat :: Denotes(x, m, p)
  {
    hide Denotes, Scale, Drop;
    if p >= decimals {
      DenotesUnits(x, n, decimals, p - decimals);
    } else {
      var g := decimals - p;
      DenotesUnits(x, Drop(n, g), p, g);
      forall m: nat | Denotes(x, m, p)
        ensures Fits(decimals, p, n)
      {
        DenotesUnits(x, m, p, g);
        DenotesOne(x, n, Scale(m, g), decimals);
        DropScale(m, g);
      }
    }
  }

  /** Nothing is set beyond p places exactly when p reaches the last set digit of the display value. */
  lemma FitsIffPrecise(decimals: nat, p: nat, v: int)
    requires Representable(Abs(v))
    ensures Fits(decimals, p, Abs(v)) <==> p >= 0 - NormalExponent(Convert(decimals, v))
  {
    hide Convert, Representable, NormalExponent, Denotes, Fits;
    ConvertExact(decimals, v);
    WholeIffFits(decimals, p, Abs(v), Convert(decimals, v));
    WholeIffPrecise(Convert(decimals, v), p);
  }

  lemma RepresentableScale(n: nat, g: nat)
    requires Representable(n)
    ensures Representable(Scale(n, g))
  {
    var m: nat, j: nat :| n == Scale(m, j) && m < LIMIT;
    ScaleAdd(m, j, g);
  }

  /** Rounded to p places and read back, a display value gives the amount exactly when nothing was beyond them. */
  lemma RoundedRoundTrip(decimals: nat, p: nat, x: Decimal, n: nat)
    requires Denotes(x, n, decimals) && Representable(n) && x.coef < LIMIT
    ensures Deconvert(decimals, Decimal(x.neg, Rescale(x, p), 0 - p)) == Signed(x.neg, n) <==> Fits(decimals, p, n)
  {
    hide Deconvert, Representable, Scale, Drop, Rescale;
    var u := Rescale(x, p);
    var y := Decimal(x.neg, u, 0 - p);
    if p >= decimals {
      DenotesUnits(x, n, decimals, p - decimals);
      RescaleExact(x, Scale(n, p - decimals), p);
      ZeroShift(n);
      ZeroShift(u);
      DeconvertExact(decimals, y, n);
    } else {
      var g := decimals - p;
      RescaleIsRepresentable(x, p);
      RepresentableScale(u, g);
      DeconvertExact(decimals, y, Scale(u, g));
      DropScale(u, g);
      DenotesUnits(x, Drop(n, g), p, g);
      if Fits(decimals, p, n) {
        RescaleExact(x, Drop(n, g), p);
      }
    }
  }

  lemma ZeroShift(n: nat)
    ensures Scale(n, 0) == n
  {
  }

  /** Without the extra precision the suggested places are printed; with it, the fewest from there on that lose nothing. */
  lemma PrecisionIsLeast(decimals: nat, suggested: nat, extra: bool, v: int)
    ensures !extra ==> Precision(decimals, suggested, extra, v) == suggested
    ensures extra && Representable(Abs(v)) ==>
      var p := Precision(decimals, suggested, extra, v);
      suggested <= p && Fits(decimals, p, Abs(v)) && forall q :: suggested <= q < p ==> !Fits(decimals, q, Abs(v))
  {
    hide Representable, Fits, NormalExponent, Convert;
    if extra && Representable(Abs(v)) {
      forall q: nat
        ensures Fits(decimals, q, Abs(v)) <==> q >= 0 - NormalExponent(Convert(decimals, v))
      {
        FitsIffPrecise(decimals, q, v);
      }
    }
  }

  /**
   A formatted amount reads back as itself exactly when the context can represent it and,
   without the extra precision, nothing is set beyond the suggested places.
   */
  lemma FormatRoundTrip(decimals: nat, suggested: nat, code: string, extra: bool, v: int)
    ensures ReadAmount(decimals, Format(decimals, suggested, code, extra, v)) == Some(v) <==>
      Representable(Abs(v)) && (extra || Fits(decimals, suggested, Abs(v)))
    ensures var s := Format(decimals, suggested, code, extra, v); IndexOf(s, ' ') < |s| && s[IndexOf(s, ' ') + 1..] == code
    ensures var s, x, p := Format(decimals, suggested, code, extra, v), Convert(decimals, v), Precision(decimals, suggested, extra, v);
      ReadDecimal(s[..IndexOf(s, ' ')]) == Some(Decimal(x.neg, Rescale(x, p), 0 - p))
  {
    hide Convert, Deconvert, FixedPoint, ReadDecimal, Representable, Fits, NormalExponent, Rescale, IndexOf;
    var x := Convert(decimals, v);
    var p: int := Precision(decimals, suggested, extra, v);
    var number := Printed(decimals, p, v);
    FixedPointRoundTrip(x.neg, Rescale(x, p), p);
    NoSpace(x.neg, Rescale(x, p), p);
    IndexOfFirst(number, ' ', code);
    assert Format(decimals, suggested, code, extra, v) == number + [' '] + code;
    assert (number + [' '] + code)[..|number|] == number;
    assert (number + [' '] + code)[|number| + 1..] == code;
    DeconvertIsRepresentable(decimals, Decimal(x.neg, Rescale(x, p), 0 - p));
    if Representable(Abs(v)) {
      ConvertExact(decimals, v);
      ConvertInContext(decimals, v);
      RoundedRoundTrip(decimals, p, x, Abs(v));
      FitsIffPrecise(decimals, p, v);
    }
  }

  lemma ConvertInContext(decimals: nat, v: int)
    ensures Convert(decimals, v).coef < LIMIT
  {
  }

  lemma NoSpace(neg: bool, n: nat, p: nat)
    ensures ' ' !in FixedPoint(neg, n, p)
  {
    assert AllDigits(Digits(Drop(n, p))) && AllDigits(Padded(n, p));
  }
}
