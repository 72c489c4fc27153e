/** Money: rounding to the nearest cent, reading a bank's printed amount (app/utils/money.ts), and
    what binary floating point does to both under the standard rounding-error model of
    IEEE 754-2019, section 4.3.1. */
module Money {
  import opened Text
  import opened Numerals

  /** `Number.EPSILON`, 2^-52. */
  const EPSILON: real := 1.0 / 4503599627370496.0

  // ---- Rounding to cents, over exact reals

  /** The whole number of cents `round2` settles on. */
  function Cents(n: real): int
  {
    ((n + EPSILON) * 100.0 + 0.5).Floor
  }

  function Round2(n: real): real
  {
    Cents(n) as real / 100.0
  }

  lemma CentsShift(n: real, k: int)
    ensures Cents(n + k as real / 100.0) == Cents(n) + k
  {
    assert (n + k as real / 100.0 + EPSILON) * 100.0 + 0.5 == (n + EPSILON) * 100.0 + 0.5 + k as real;
  }

  lemma CentsOfWhole(k: int)
    ensures Cents(k as real / 100.0) == k && Round2(k as real / 100.0) == k as real / 100.0
  {
    CentsShift(0.0, k);
    assert 0.0 + k as real / 100.0 == k as real / 100.0;
  }

  lemma CentsMonotone(a: real, b: real)
    requires a <= b
    ensures Cents(a) <= Cents(b)
  {
  }

  /** Rounding is to the nearest cent, the half going up. */
  lemma CentsNearest(n: real)
    ensures Cents(n) as real - 0.5 <= (n + EPSILON) * 100.0 < Cents(n) as real + 0.5
  {
  }

  // ---- Whole cents

  function Max0(x: real): real
  {
    if x < 0.0 then 0.0 else x
  }

  predicate WholeCents(x: real)
  {
    x == Cents(x) as real / 100.0
  }

  lemma WholeCentsRound(x: real)
    requires WholeCents(x)
    ensures Round2(x) == x
  {
  }

  lemma WholeCentsClosed(x: real, y: real)
    requires WholeCents(x) && WholeCents(y)
    ensures WholeCents(x + y) && WholeCents(x - y) && WholeCents(Max0(x)) && (x > y ==> x - y >= 0.01)
  {
    var j, k := Cents(x), Cents(y);
    assert x + y == (j + k) as real / 100.0 && x - y == (j - k) as real / 100.0;
    assert Max0(x) == (if j < 0 then 0 else j) as real / 100.0;
    CentsOfWhole(j + k);
    CentsOfWhole(j - k);
    CentsOfWhole(if j < 0 then 0 else j);
  }

  lemma Round2Whole(x: real)
    ensures WholeCents(Round2(x)) && WholeCents(0.0)
  {
    CentsOfWhole(Cents(x));
    CentsOfWhole(0);
  }

  // ---- A bank's printed amount

  datatype Amount = Unreadable | Amount(value: real)

  function LastSeparator(t: string): (k: int)
    ensures -1 <= k < |t|
    ensures k >= 0 ==> t[k] == '.' || t[k] == ','
    ensures forall j :: k < j < |t| ==> t[j] != '.' && t[j] != ','
  {
    if t == "" then -1
    else if t[|t| - 1] == '.' || t[|t| - 1] == ',' then |t| - 1
    else
      var k := LastSeparator(t[..|t| - 1]);
      k
  }

  /** The last separator is the decimal one; those of the other kind before it go. */
  function NormalizeSeparators(t: string): string
  {
    var last := LastSeparator(t);
    if last < 0 then t
    else ReplaceChar(t[..last], if t[last] == '.' then ',' else '.', "") + "." + t[last + 1..]
  }

  function DropSpaces(t: string): string
  {
    if t == "" then "" else (if IsSpace(t[0]) then "" else [t[0]]) + DropSpaces(t[1..])
  }

  function Fraction(digits: string): real
    requires Digits(digits)
  {
    Value(digits) as real / Pow10(|digits|) as real
  }

  /** Optional minus, digits, and optionally a point with digits: nothing else is a number. */
  function ReadDecimal(t: string): Amount
  {
    var body := if t != "" && t[0] == '-' then t[1..] else t;
    var parts := SplitOn(body, '.');
    if |parts| > 2 || (exists k :: 0 <= k < |parts| && (parts[k] == "" || !Digits(parts[k]))) then Unreadable
    else
      assert parts[0] != "" && Digits(parts[0]);
      var magnitude := Value(parts[0]) as real + if |parts| == 2 then Fraction(parts[1]) else 0.0;
      Amount(if body == t then magnitude else -magnitude)
  }

  function ParseBankAmount(raw: string): Amount
  {
    ReadDecimal(NormalizeSeparators(DropSpaces(raw)))
  }

  function DigitsOf(t: string): (r: string)
    ensures Digits(r)
  {
    if t == "" then "" else (if Digit(t[0]) then [t[0]] else "") + DigitsOf(t[1..])
  }

  /** Thousands may be set off by white space or by the separator that is not the decimal one. */
  predicate Grouped(whole: string, point: char)
  {
    forall k :: 0 <= k < |whole| ==> Digit(whole[k]) || IsSpace(whole[k]) || (whole[k] in ",." && whole[k] != point)
  }

  lemma {:induction false} GroupedReads(whole: string, point: char)
    requires point in ",." && Grouped(whole, point)
    ensures ReplaceChar(DropSpaces(whole), if point == '.' then ',' else '.', "") == DigitsOf(whole)
    ensures point !in DropSpaces(whole)
  {
    if whole != "" {
      GroupedReads(whole[1..], point);
      var rest := DropSpaces(whole[1..]);
      if !IsSpace(whole[0]) {
        assert ([whole[0]] + rest)[1..] == rest;
      } else {
        assert "" + rest == rest;
      }
    }
  }

  lemma {:induction false} DropSpacesAppend(a: string, b: string)
    ensures DropSpaces(a + b) == DropSpaces(a) + DropSpaces(b)
  {
    if a == "" {
      assert a + b == b;
    } else {
      assert (a + b)[1..] == a[1..] + b;
      DropSpacesAppend(a[1..], b);
    }
  }

  lemma {:induction false} DropSpacesDigits(a: string)
    requires Digits(a)
    ensures DropSpaces(a) == a
  {
    if a != "" {
      DropSpacesDigits(a[1..]);
      assert !IsSpace(a[0]);
      assert a == [a[0]] + a[1..];
    }
  }

  /** Every bank's layout reads as the number it spells: comma or point decimals, and thousands set
      off by spaces or by the other separator. */
  lemma PrintedAmountReads(whole: string, point: char, fraction: string)
    requires point in ",." && Grouped(whole, point) && DigitsOf(whole) != ""
    requires fraction != "" && Digits(fraction)
    ensures ParseBankAmount(whole + [point] + fraction) == Amount(Value(DigitsOf(whole)) as real + Fraction(fraction))
  {
    hide DropSpaces, NormalizeSeparators, ReadDecimal, ReplaceChar, DigitsOf, Grouped, Digits, Value, Fraction;
    SpacesGone(whole, point, fraction);
    GroupedReads(whole, point);
    LastIsPoint(DropSpaces(whole), point, fraction);
    DecimalReads(DigitsOf(whole), fraction);
  }

  /** So do whole numbers, with thousands set off by spaces, if at all; a minus in front turns the sign. */
  lemma WholeAmountReads(whole: string)
    requires DigitsOf(whole) != "" && forall k :: 0 <= k < |whole| ==> Digit(whole[k]) || IsSpace(whole[k])
    ensures ParseBankAmount(whole) == Amount(Value(DigitsOf(whole)) as real)
    ensures ParseBankAmount("-" + whole) == Amount(-(Value(DigitsOf(whole)) as real))
  {
    hide DropSpaces, NormalizeSeparators, ReadDecimal, DigitsOf, IsSpace, Value, Digits;
    DropsToDigits(whole);
    MinusStays(whole);
    DigitsRead(DigitsOf(whole));
    MinusRead(DigitsOf(whole));
  }

  lemma DigitsRead(digits: string)
    requires digits != "" && Digits(digits)
    ensures ReadDecimal(NormalizeSeparators(digits)) == Amount(Value(digits) as real)
  {
    hide LastSeparator, SplitOn, Value;
    NoSeparator(digits);
    assert LastSeparator(digits) == -1;
    assert digits[0] != '-';
    SplitPlain(digits, '.');
  }

  lemma MinusRead(digits: string)
    requires digits != "" && Digits(digits)
    ensures ReadDecimal(NormalizeSeparators("-" + digits)) == Amount(-(Value(digits) as real))
  {
    hide LastSeparator, SplitOn, Value, Digits;
    NoSeparator(digits);
    var signed := "-" + digits;
    assert signed[1..] == digits && signed[0] == '-';
    assert forall k :: 0 < k < |signed| ==> signed[k] == digits[k - 1];
    assert LastSeparator(signed) == -1;
    SplitPlain(digits, '.');
  }

  lemma MinusStays(whole: string)
    ensures DropSpaces("-" + whole) == "-" + DropSpaces(whole)
  {
    assert ("-" + whole)[1..] == whole && !IsSpace('-');
  }

  lemma {:induction false} DropsToDigits(whole: string)
    requires forall k :: 0 <= k < |whole| ==> Digit(whole[k]) || IsSpace(whole[k])
    ensures DropSpaces(whole) == DigitsOf(whole)
  {
    if whole != "" {
      DropsToDigits(whole[1..]);
      assert Digit(whole[0]) ==> !IsSpace(whole[0]);
    }
  }

  lemma SpacesGone(whole: string, point: char, fraction: string)
    requires point in ",." && Digits(fraction)
    ensures DropSpaces(whole + [point] + fraction) == DropSpaces(whole) + [point] + fraction
  {
    DropSpacesAppend(whole + [point], fraction);
    DropSpacesAppend(whole, [point]);
    DropSpacesDigits(fraction);
    DropSpacesPoint(point);
  }

  lemma DropSpacesPoint(point: char)
    requires point in ",."
    ensures DropSpaces([point]) == [point]
  {
    assert [point][1..] == "" && !IsSpace(point);
  }

  lemma LastIsPoint(w: string, point: char, fraction: string)
    requires point in ",." && Digits(fraction)
    ensures NormalizeSeparators(w + [point] + fraction) ==
            ReplaceChar(w, if point == '.' then ',' else '.', "") + "." + fraction
  {
    hide LastSeparator, ReplaceChar;
    var t := w + [point] + fraction;
    LastAt(w, point, fraction);
    assert t[|w|] == point;
    assert t[..|w|] == w && t[|w| + 1..] == fraction;
  }

  lemma LastAt(w: string, point: char, fraction: string)
    requires point in ",." && Digits(fraction)
    ensures LastSeparator(w + [point] + fraction) == |w|
  {
    hide LastSeparator, Digits;
    var t := w + [point] + fraction;
    assert t[|w|] == point && (point == ',' || point == '.');
    NothingBehind(w, point, fraction);
    assert LastSeparator(t) >= |w|;
  }

  lemma NothingBehind(w: string, point: char, fraction: string)
    requires Digits(fraction)
    ensures var t := w + [point] + fraction;
            forall j :: |w| < j < |t| ==> t[j] != '.' && t[j] != ','
  {
    hide Digits;
    NoSeparator(fraction);
    var t := w + [point] + fraction;
    forall j | |w| < j < |t| ensures t[j] != '.' && t[j] != ',' {
      assert t[j] == fraction[j - |w| - 1];
    }
  }

  lemma NoSeparator(digits: string)
    requires Digits(digits)
    ensures forall k :: 0 <= k < |digits| ==> digits[k] != '.' && digits[k] != ','
  {
  }

  lemma DecimalReads(whole: string, fraction: string)
    requires Digits(whole) && Digits(fraction) && whole != "" && fraction != ""
    ensures ReadDecimal(whole + "." + fraction) == Amount(Value(whole) as real + Fraction(fraction))
  {
    hide SplitOn, Value, Pow10;
    assert '.' !in whole && '.' !in fraction;
    SplitAppend(whole, fraction, '.');
    SplitPlain(fraction, '.');
    assert whole + ['.'] + fraction == whole + "." + fraction;
    assert (whole + "." + fraction)[0] == whole[0];
  }

  // ---- Binary floating point

  /** Half a unit in the last place, 2^-53. */
  const U: real := 1.0 / 9007199254740992.0

  function Abs(x: real): real
  {
    if x < 0.0 then -x else x
  }

  /** `computed` is the floating-point value of `exact`. */
  predicate Rounds(exact: real, computed: real)
  {
    Abs(computed - exact) <= U * Abs(exact)
  }

  /** A floating-point addition; adding to zero is exact. */
  predicate Adds(s: real, a: real, r: real)
  {
    Rounds(s + a, r) && (s == 0.0 ==> r == a)
  }

  /** `Math.round`. */
  function RoundHalfUp(x: real): int
  {
    (x + 0.5).Floor
  }

  lemma ScaledError(c: real, a: real, p: real)
    requires Rounds(c / 100.0, a) && Rounds(a * 100.0, p)
    ensures Abs(p - c) <= U * Abs(c) * (2.0 + U)
  {
    assert Abs(a * 100.0 - c) <= U * Abs(c) by {
      assert Abs(a - c / 100.0) <= U * Abs(c / 100.0);
      assert Abs(c / 100.0) == Abs(c) / 100.0;
    }
    assert Abs(a * 100.0) <= Abs(c) + U * Abs(c);
    var x, y := Abs(a * 100.0), Abs(c) + U * Abs(c);
    assert U * x <= U * y;
    assert U * y == U * Abs(c) * (1.0 + U);
  }

  /** `toMinorUnits` recovers the exact cents of any amount below 2^50 cents: `amount` is the double
      nearest to the amount, `product` the computed product with 100. */
  lemma ToMinorUnitsExact(cents: int, amount: real, product: real)
    requires -1125899906842624 < cents < 1125899906842624
    requires Rounds(cents as real / 100.0, amount) && Rounds(amount * 100.0, product)
    ensures RoundHalfUp(product) == cents
  {
    var c := cents as real;
    ScaledError(c, amount, product);
    assert Abs(c) <= 1125899906842624.0;
    assert U * Abs(c) <= 0.125;
    assert U * Abs(c) * (2.0 + U) <= 0.125 * (2.0 + U);
    assert Abs(product - c) < 0.5;
  }

  /** So two amounts compare equal in minor units exactly when they are the same number of cents. */
  lemma MinorUnitsCompareExactly(a: int, x: real, xp: real, b: int, y: real, yp: real)
    requires -1125899906842624 < a < 1125899906842624 && -1125899906842624 < b < 1125899906842624
    requires Rounds(a as real / 100.0, x) && Rounds(x * 100.0, xp)
    requires Rounds(b as real / 100.0, y) && Rounds(y * 100.0, yp)
    ensures RoundHalfUp(xp) == RoundHalfUp(yp) <==> a == b
  {
    ToMinorUnitsExact(a, x, xp);
    ToMinorUnitsExact(b, y, yp);
  }

  function SumOf(cents: seq<int>): int
  {
    if cents == [] then 0 else SumOf(cents[..|cents| - 1]) + cents[|cents| - 1]
  }

  function Magnitude(cents: seq<int>): nat
  {
    if cents == [] then 0
    else
      var c := cents[|cents| - 1];
      Magnitude(cents[..|cents| - 1]) + if c < 0 then -c else c
  }

  /** `sums` is the run of partial sums the accumulation loop goes through. */
  predicate Accumulates(cents: seq<int>, amounts: seq<real>, sums: seq<real>)
  {
    && |amounts| == |cents| && |sums| == |cents| + 1 && sums[0] == 0.0
    && (forall k :: 0 <= k < |cents| ==> Rounds(cents[k] as real / 100.0, amounts[k]))
    && (forall k :: 0 <= k < |cents| ==> Adds(sums[k], amounts[k], sums[k + 1]))
  }

  /** One more addition: `e` bounds the error so far, `d` what one rounding may add. */
  lemma AddStep(s: real, t: real, a: real, c: real, r: real, e: real, d: real)
    requires Abs(s - t) <= e && Rounds(c, a) && Adds(s, a, r)
    requires U * Abs(s + a) <= d
    ensures Abs(r - (t + c)) <= e + U * Abs(c) + d
  {
  }

  lemma Bound(x: real, y: real)
    requires 0.0 <= x <= y
    ensures U * x <= U * y
  {
  }

  /** The accumulated error after `k` rows, for a total magnitude of `m` (in currency units). */
  function ErrorBound(k: nat, part: real, m: real): real
  {
    U * part + k as real * (1.2 * U * m)
  }

  lemma Grows(x: real, y: real, z: real)
    requires x <= y && 0.0 <= z
    ensures x * z <= y * z
  {
  }

  lemma RoundingsSmall(m: real)
    requires 0.0 <= m
    ensures 0.0 <= 1.2 * U * m && 1000000000000000.0 * (1.2 * U * m) <= 0.14 * m && U * m <= 0.01 * m
  {
  }

  lemma ErrSmall(n: nat, k: nat, part: real, m: real)
    requires k <= n && 0.0 <= part <= m && n as real <= 1000000000000000.0
    ensures ErrorBound(k, part, m) <= 0.19 * m
  {
    RoundingsSmall(m);
    Grows(k as real, 1000000000000000.0, 1.2 * U * m);
    Bound(part, m);
  }

  lemma {:induction false} PartsGrow(cents: seq<int>, k: nat)
    requires k <= |cents|
    ensures Magnitude(cents[..k]) <= Magnitude(cents)
    ensures -(Magnitude(cents) as int) <= SumOf(cents) <= Magnitude(cents)
  {
    var n := |cents| - 1;
    if cents == [] {
      assert cents[..k] == [];
    } else {
      PartsGrow(cents[..n], if k <= n then k else n);
      if k <= n {
        assert cents[..n][..k] == cents[..k];
      } else {
        assert cents[..k] == cents;
      }
    }
  }

  /** The exact total of the first `k` rows, and their total magnitude, in currency units. */
  function Exact(cents: seq<int>, k: nat): real
    requires k <= |cents|
  {
    SumOf(cents[..k]) as real / 100.0
  }

  function Part(cents: seq<int>, k: nat): real
    requires k <= |cents|
  {
    Magnitude(cents[..k]) as real / 100.0
  }

  lemma RowStep(cents: seq<int>, k: nat)
    requires 1 <= k <= |cents|
    ensures var c := cents[k - 1] as real / 100.0;
            && Exact(cents, k) == Exact(cents, k - 1) + c
            && Part(cents, k) == Part(cents, k - 1) + Abs(c)
    ensures Abs(Exact(cents, k - 1)) <= Part(cents, k - 1) && Part(cents, k) <= Part(cents, |cents|)
    ensures Exact(cents, 0) == Part(cents, 0) == 0.0
  {
    var before, upto := cents[..k - 1], cents[..k];
    assert upto[..k - 1] == before && upto[k - 1] == cents[k - 1];
    PartsGrow(cents, k);
    PartsGrow(before, 0);
    assert cents[..|cents|] == cents && cents[..0] == [];
  }

  lemma {:induction false} AccumulatedError(cents: seq<int>, amounts: seq<real>, sums: seq<real>, k: nat)
    requires Accumulates(cents, amounts, sums) && 1 <= k <= |cents| <= 1000000000000000
    ensures Abs(sums[k] - Exact(cents, k)) <= ErrorBound(k - 1, Part(cents, k), Part(cents, |cents|))
  {
    hide ErrorBound, SumOf, Magnitude, Exact, Part, Rounds, Adds;
    var c, m := cents[k - 1] as real / 100.0, Part(cents, |cents|);
    RowStep(cents, k);
    assert Rounds(c, amounts[k - 1]) && Adds(sums[k - 1], amounts[k - 1], sums[k]);
    if k == 1 {
      FirstRow(c, amounts[0], sums[1], m);
    } else {
      AccumulatedError(cents, amounts, sums, k - 1);
      ErrNext(|cents|, k - 2, Part(cents, k), Abs(c), m);
      OneAddition(Exact(cents, k - 1), Part(cents, k), c, sums[k - 1], amounts[k - 1], sums[k],
                  ErrorBound(k - 2, Part(cents, k - 1), m), m);
    }
  }

  lemma FirstRow(c: real, a: real, r: real, m: real)
    requires Rounds(c, a) && Adds(0.0, a, r)
    ensures Abs(r - c) <= ErrorBound(0, Abs(c), m)
  {
    assert 0 as real * (1.2 * U * m) == 0.0;
  }

  lemma ErrNext(n: nat, k: nat, part: real, c: real, m: real)
    requires k <= n <= 1000000000000000 && 0.0 <= c <= part <= m
    ensures ErrorBound(k, part - c, m) + U * c <= 0.19 * m
    ensures ErrorBound(k + 1, part, m) == ErrorBound(k, part - c, m) + U * c + 1.2 * U * m
  {
    ErrSmall(n, k, part, m);
    var d := 1.2 * U * m;
    assert (k + 1) as real * d == k as real * d + d;
    assert U * (part - c) + U * c == U * part;
  }

  lemma OneAddition(t: real, part: real, c: real, s: real, a: real, r: real, e: real, m: real)
    requires Abs(t) + Abs(c) <= part <= m && Abs(s - t) <= e && e + U * Abs(c) <= 0.19 * m
    requires Rounds(c, a) && Adds(s, a, r)
    ensures Abs(r - (t + c)) <= e + U * Abs(c) + 1.2 * U * m
  {
    assert Abs(s + a) <= 1.2 * m;
    Bound(Abs(s + a), 1.2 * m);
    AddStep(s, t, a, c, r, e, 1.2 * U * m);
  }

  /** `round2` as it is computed: a shift by EPSILON, a product with 100, and `Math.round`. */
  predicate Round2Computes(n: real, shifted: real, scaled: real)
  {
    Rounds(n + EPSILON, shifted) && Rounds(shifted * 100.0, scaled)
  }

  /** Adding doubles up row by row and rounding once at the end gives the exact number of cents, for
      up to 10^15 rows with rows times total magnitude at most 10^13 currency units. */
  lemma AccumulateThenRound(cents: seq<int>, amounts: seq<real>, sums: seq<real>, shifted: real, scaled: real)
    requires Accumulates(cents, amounts, sums)
    requires |cents| <= 1000000000000000 && |cents| * Magnitude(cents) <= 1000000000000000
    requires Round2Computes(sums[|cents|], shifted, scaled)
    ensures RoundHalfUp(scaled) == SumOf(cents)
  {
    var n := |cents|;
    assert cents[..n] == cents;
    PartsGrow(cents, n);
    if n == 0 {
      LastRounding(0.0, 0.0, 0.0, shifted, scaled, 0);
    } else {
      AccumulatedError(cents, amounts, sums, n);
      ErrTotal(n, Magnitude(cents), Part(cents, n));
      LastRounding(Exact(cents, n), Part(cents, n), sums[n], shifted, scaled, SumOf(cents));
    }
  }

  lemma ErrTotal(n: nat, mag: nat, m: real)
    requires 1 <= n && n * mag <= 1000000000000000 && m == mag as real / 100.0
    ensures ErrorBound(n - 1, m, m) <= 0.00134 && m <= 10000000000000.0
  {
    assert mag <= n * mag;
    assert n as real * m == (n * mag) as real / 100.0;
    assert ErrorBound(n - 1, m, m) == n as real * (1.2 * U * m) - 0.2 * U * m;
    assert n as real * (1.2 * U * m) == 1.2 * U * (n as real * m);
    assert U * m >= 0.0;
  }

  lemma LastRounding(exact: real, m: real, s: real, shifted: real, scaled: real, cents: int)
    requires exact == cents as real / 100.0 && Abs(exact) <= m <= 10000000000000.0
    requires Abs(s - exact) <= 0.00134
    requires Round2Computes(s, shifted, scaled)
    ensures RoundHalfUp(scaled) == cents
  {
    Bound(Abs(s + EPSILON), 10000000000001.0);
    assert U * 10000000000001.0 <= 0.00112;
    assert Abs(shifted - exact) <= 0.00247;
    Bound(Abs(shifted * 100.0), 1000000000000100.0);
    assert U * 1000000000000100.0 <= 0.112;
    assert Abs(scaled - exact * 100.0) <= 0.247 + 0.112;
  }
}
