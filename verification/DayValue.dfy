/** One calendar day as a `YYYY-MM-DD` string (app/utils/dayValue.ts), over the date arithmetic of
    ECMA-262, section 21.4.1. Days are numbered from 1 January 1970. */
module DayValue {
  import opened Text
  import opened Numerals

  const MAX_POLL_DAY_AGE_DAYS := 730
  const MS_PER_DAY := 86_400_000

  // ---- ECMA-262 date arithmetic

  predicate Leap(y: int)
  {
    y % 4 == 0 && (y % 100 != 0 || y % 400 == 0)
  }

  function DayFromYear(y: int): int
  {
    365 * (y - 1970) + (y - 1969) / 4 - (y - 1901) / 100 + (y - 1601) / 400
  }

  function DaysInYear(y: int): int
  {
    if Leap(y) then 366 else 365
  }

  lemma YearStep(y: int)
    ensures DayFromYear(y + 1) == DayFromYear(y) + DaysInYear(y)
  {
    QuotientStep(y - 1969, 4);
    QuotientStep(y - 1901, 100);
    QuotientStep(y - 1601, 400);
    LeapByRemainders(y);
  }

  lemma LeapByRemainders(y: int)
    ensures ((y - 1968) % 4 == 0 <==> y % 4 == 0) && ((y - 1900) % 100 == 0 <==> y % 100 == 0) && ((y - 1600) % 400 == 0 <==> y % 400 == 0)
    ensures (y % 100 == 0 ==> y % 4 == 0) && (y % 400 == 0 ==> y % 100 == 0)
  {
    By4(y);
    By100(y);
    By400(y);
  }

  lemma By4(y: int)
    ensures (y - 1968) % 4 == 0 <==> y % 4 == 0
  {
    assert y - 1968 == 4 * (y / 4 - 492) + y % 4;
  }

  lemma By100(y: int)
    ensures (y - 1900) % 100 == 0 <==> y % 100 == 0
    ensures y % 100 == 0 ==> y % 4 == 0
  {
    assert y - 1900 == 100 * (y / 100 - 19) + y % 100;
    FourOfHundred(y);
  }

  lemma FourOfHundred(y: int)
    ensures y % 100 == 0 ==> y % 4 == 0
  {
    assert y == 4 * (25 * (y / 100)) + y % 100;
  }

  lemma By400(y: int)
    ensures (y - 1600) % 400 == 0 <==> y % 400 == 0
    ensures y % 400 == 0 ==> y % 100 == 0
  {
    assert y - 1600 == 400 * (y / 400 - 4) + y % 400;
    HundredOfFour(y);
  }

  lemma HundredOfFour(y: int)
    ensures y % 400 == 0 ==> y % 100 == 0
  {
    assert y == 100 * (4 * (y / 400)) + y % 400;
  }

  lemma QuotientStep(n: int, k: int)
    requires k == 4 || k == 100 || k == 400
    ensures (n + 1) / k == n / k + (if (n + 1) % k == 0 then 1 else 0)
  {
  }

  lemma {:induction false} YearsGrow(y: int, z: int)
    requires y <= z
    ensures DayFromYear(y) + 365 * (z - y) <= DayFromYear(z)
    decreases z - y
  {
    if y < z {
      YearStep(z - 1);
      YearsGrow(y, z - 1);
    }
  }

  function YearUp(day: int, y: int): (r: int)
    requires DayFromYear(y) <= day
    ensures DayFromYear(r) <= day < DayFromYear(r + 1)
    decreases day - DayFromYear(y)
  {
    YearStep(y);
    if day < DayFromYear(y + 1) then y else YearUp(day, y + 1)
  }

  function YearDown(day: int, y: int): (r: int)
    requires day < DayFromYear(y + 1)
    ensures DayFromYear(r) <= day < DayFromYear(r + 1)
    decreases DayFromYear(y + 1) - day
  {
    YearStep(y);
    if DayFromYear(y) <= day then y else YearDown(day, y - 1)
  }

  /** The year a day number falls in. */
  function YearOf(day: int): (y: int)
    ensures DayFromYear(y) <= day < DayFromYear(y + 1)
  {
    if day >= 0 then YearUp(day, 1970) else YearDown(day, 1969)
  }

  lemma YearUnique(day: int, y: int)
    requires DayFromYear(y) <= day < DayFromYear(y + 1)
    ensures YearOf(day) == y
  {
    hide DayFromYear, YearOf;
    var z := YearOf(day);
    if z < y {
      YearsGrow(z + 1, y);
    } else if y < z {
      YearsGrow(y + 1, z);
    }
  }

  /** Days of the year before the given month; months are counted from 0, and 12 closes the year. */
  function MonthStart(m: int, leap: bool): int
    requires 0 <= m <= 12
  {
    (if m == 0 then 0 else if m == 1 then 31 else if m == 2 then 59 else if m == 3 then 90
     else if m == 4 then 120 else if m == 5 then 151 else if m == 6 then 181 else if m == 7 then 212
     else if m == 8 then 243 else if m == 9 then 273 else if m == 10 then 304 else if m == 11 then 334
     else 365)
    + (if leap && m >= 2 then 1 else 0)
  }

  function MonthAt(k: int, leap: bool): (m: int)
    requires 0 <= k < (if leap then 366 else 365)
    ensures 0 <= m < 12 && MonthStart(m, leap) <= k < MonthStart(m + 1, leap)
  {
    var i := if leap && k >= 59 then k - 1 else k;
    if i < 31 then 0
    else if i < 59 && !(leap && k >= 60) then 1
    else if i < 90 then 2 else if i < 120 then 3 else if i < 151 then 4 else if i < 181 then 5
    else if i < 212 then 6 else if i < 243 then 7 else if i < 273 then 8 else if i < 304 then 9
    else if i < 334 then 10 else 11
  }

  lemma MonthUnique(k: int, leap: bool, m: int)
    requires 0 <= k < (if leap then 366 else 365)
    requires 0 <= m < 12 && MonthStart(m, leap) <= k < MonthStart(m + 1, leap)
    ensures MonthAt(k, leap) == m
  {
  }

  /** Year, month 1-12 and day of month. */
  datatype Civil = Civil(year: int, month: int, day: int)

  function MonthDays(m: int, leap: bool): int
    requires 1 <= m <= 12
  {
    if m == 2 then if leap then 29 else 28
    else if m == 4 || m == 6 || m == 9 || m == 11 then 30
    else 31
  }

  lemma MonthLength(m: int, leap: bool)
    requires 1 <= m <= 12
    ensures MonthStart(m, leap) == MonthStart(m - 1, leap) + MonthDays(m, leap)
    ensures 0 <= MonthStart(m - 1, leap) && MonthStart(m, leap) <= (if leap then 366 else 365)
  {
  }

  lemma MonthsGrow(m: int, n: int, leap: bool)
    requires 0 <= m < n <= 12
    ensures MonthStart(m, leap) < MonthStart(n, leap)
  {
  }

  /** A day of the Gregorian calendar. */
  predicate Real(c: Civil)
  {
    1 <= c.month <= 12 && 1 <= c.day <= MonthDays(c.month, Leap(c.year))
  }

  /** MakeDay: overflowing months and days carry over. */
  function MakeDay(c: Civil): int
  {
    var y := c.year + (c.month - 1) / 12;
    DayFromYear(y) + MonthStart((c.month - 1) % 12, Leap(y)) + c.day - 1
  }

  /** `Date.UTC` reads the years 0-99 as 1900-1999. */
  function DateUtc(c: Civil): int
  {
    MakeDay(if 0 <= c.year <= 99 then c.(year := 1900 + c.year) else c)
  }

  lemma PlaceInYear(y: int, m: int, k: int)
    requires 0 <= m < 12 && MonthStart(m, Leap(y)) <= k < MonthStart(m + 1, Leap(y))
    ensures var c := Civil(y, m + 1, k - MonthStart(m, Leap(y)) + 1);
            Real(c) && MakeDay(c) == DayFromYear(y) + k
  {
    MonthLength(m + 1, Leap(y));
    assert (m + 1 - 1) / 12 == 0 && (m + 1 - 1) % 12 == m;
  }

  /** `getUTCFullYear`, `getUTCMonth` + 1 and `getUTCDate`. */
  function FromDays(day: int): (c: Civil)
    ensures Real(c) && MakeDay(c) == day
  {
    var y := YearOf(day);
    YearStep(y);
    var k := day - DayFromYear(y);
    var m := MonthAt(k, Leap(y));
    PlaceInYear(y, m, k);
    Civil(y, m + 1, k - MonthStart(m, Leap(y)) + 1)
  }

  /** Where a real day stands within its year. */
  function InYear(c: Civil): (k: int)
    requires Real(c)
    ensures 0 <= k < DaysInYear(c.year)
  {
    MonthLength(c.month, Leap(c.year));
    MonthStart(c.month - 1, Leap(c.year)) + c.day - 1
  }

  lemma MakeDayReal(c: Civil)
    requires Real(c)
    ensures MakeDay(c) == DayFromYear(c.year) + InYear(c)
    ensures DayFromYear(c.year) <= MakeDay(c) < DayFromYear(c.year + 1)
  {
    YearStep(c.year);
    assert (c.month - 1) / 12 == 0 && (c.month - 1) % 12 == c.month - 1;
  }

  /** The calendar and the day numbers are in bijection. */
  lemma RealRoundTrip(c: Civil)
    requires Real(c)
    ensures FromDays(MakeDay(c)) == c
  {
    hide DayFromYear, Leap, YearOf, MakeDay, MonthStart, MonthDays, MonthAt;
    MakeDayReal(c);
    YearUnique(MakeDay(c), c.year);
    MonthLength(c.month, Leap(c.year));
    MonthUnique(InYear(c), Leap(c.year), c.month - 1);
  }

  lemma InYearOrder(a: Civil, b: Civil)
    requires Real(a) && Real(b) && a.year == b.year
    ensures InYear(a) < InYear(b) <==> a.month < b.month || (a.month == b.month && a.day < b.day)
  {
    hide Leap, MonthStart, MonthDays;
    var leap := Leap(a.year);
    MonthLength(a.month, leap);
    MonthLength(b.month, leap);
    if a.month < b.month - 1 {
      MonthsGrow(a.month, b.month - 1, leap);
    } else if b.month < a.month - 1 {
      MonthsGrow(b.month, a.month - 1, leap);
    }
  }

  /** Year first, then month, then day. */
  predicate Earlier(a: Civil, b: Civil)
  {
    a.year < b.year || (a.year == b.year && (a.month < b.month || (a.month == b.month && a.day < b.day)))
  }

  lemma RealOrder(a: Civil, b: Civil)
    requires Real(a) && Real(b)
    ensures MakeDay(a) < MakeDay(b) <==> Earlier(a, b)
  {
    hide DayFromYear, Leap, MakeDay, InYear, Real;
    MakeDayReal(a);
    MakeDayReal(b);
    if a.year < b.year {
      assert DayFromYear(a.year + 1) <= DayFromYear(b.year) by { YearsGrow(a.year + 1, b.year); }
    } else if b.year < a.year {
      assert DayFromYear(b.year + 1) <= DayFromYear(a.year) by { YearsGrow(b.year + 1, a.year); }
    } else {
      InYearOrder(a, b);
    }
  }

  // ---- Digits in order

  /** Digit strings of one length compare as the numbers they spell. */
  lemma {:induction false} DigitOrder(a: string, b: string)
    requires Digits(a) && Digits(b) && |a| == |b|
    ensures StrLess(a, b) <==> Value(a) < Value(b)
    ensures a == b <==> Value(a) == Value(b)
  {
    if a != "" {
      var n := |a| - 1;
      DigitOrder(a[..n], b[..n]);
      LessAppend(a[..n], b[..n], a[n..], b[n..]);
      assert a == a[..n] + a[n..] && b == b[..n] + b[n..];
      assert a[n..][1..] == "" && b[n..][1..] == "";
    }
  }

  // ---- The day value itself

  predicate Shape(s: string)
  {
    && |s| == 10 && s[4] == '-' && s[7] == '-'
    && Digits(s[..4]) && Digits(s[5..7]) && Digits(s[8..])
  }

  function Parts(s: string): Civil
    requires Shape(s)
  {
    Civil(Value(s[..4]), Value(s[5..7]), Value(s[8..]))
  }

  predicate IsIsoDay(s: string)
  {
    Shape(s) && FromDays(DateUtc(Parts(s))) == Parts(s)
  }

  lemma CarriedYear(c: Civil) returns (y: int)
    requires c.year >= 1900 && c.month >= 0 && c.day >= 0
    ensures y >= 1899 && MakeDay(c) >= DayFromYear(y) - 1
  {
    hide DayFromYear, Leap;
    y := c.year + (c.month - 1) / 12;
  }

  /** No overflow of month or day reaches back from the twentieth century into the first. */
  lemma NoReachBack(c: Civil)
    requires c.year >= 1900 && c.month >= 0 && c.day >= 0
    ensures FromDays(MakeDay(c)).year >= 1898
  {
    hide DayFromYear, MakeDay, Leap, Real, FromDays;
    var y := CarriedYear(c);
    var z := FromDays(MakeDay(c));
    if z.year < 1898 {
      MakeDayReal(z);
      YearsGrow(z.year + 1, y);
      assert false;
    }
  }

  /** Years 0 to 99 are refused: the UTC constructor takes them for years past 1898. */
  lemma EarlyYears(s: string)
    requires Shape(s) && Parts(s).year < 100
    ensures FromDays(DateUtc(Parts(s))).year >= 1898 && !IsIsoDay(s)
  {
    hide FromDays, MakeDay, Shape;
    var c := Parts(s);
    NoReachBack(c.(year := 1900 + c.year));
  }

  /** The accepted strings are exactly the real days of the years 0100-9999. */
  lemma IsoDayExactly(s: string)
    ensures IsIsoDay(s) <==> Shape(s) && Real(Parts(s)) && Parts(s).year >= 100
  {
    if Shape(s) {
      var c := Parts(s);
      if c.year < 100 {
        EarlyYears(s);
      } else if Real(c) {
        RealRoundTrip(c);
      }
    }
  }

  /** The day number an accepted string names. */
  function DayNumber(s: string): int
    requires Shape(s)
  {
    MakeDay(Parts(s))
  }

  /** On the fixed layout, comparing strings is comparing year, then month, then day. */
  lemma ShapeOrder(a: string, b: string)
    requires Shape(a) && Shape(b)
    ensures var p, q := Parts(a), Parts(b);
            (StrLess(a, b) <==> Earlier(p, q)) && (a == b <==> p == q)
  {
    hide StrLess;
    StrIrreflexive("-");
    var x, y := a[5..7] + ("-" + a[8..]), b[5..7] + ("-" + b[8..]);
    assert a == a[..4] + ("-" + x) && b == b[..4] + ("-" + y);
    DigitOrder(a[..4], b[..4]);
    DigitOrder(a[5..7], b[5..7]);
    DigitOrder(a[8..], b[8..]);
    assert StrLess(a, b) <==> StrLess(a[..4], b[..4]) || (a[..4] == b[..4] && StrLess(x, y)) by {
      LessAppend(a[..4], b[..4], "-" + x, "-" + y);
      LessAppend("-", "-", x, y);
    }
    assert StrLess(x, y) <==> StrLess(a[5..7], b[5..7]) || (a[5..7] == b[5..7] && StrLess(a[8..], b[8..])) by {
      LessAppend(a[5..7], b[5..7], "-" + a[8..], "-" + b[8..]);
      LessAppend("-", "-", a[8..], b[8..]);
    }
  }

  /** Comparing the strings is comparing the days. */
  lemma StringOrderIsDayOrder(a: string, b: string)
    requires IsIsoDay(a) && IsIsoDay(b)
    ensures StrLess(a, b) <==> DayNumber(a) < DayNumber(b)
    ensures a == b <==> DayNumber(a) == DayNumber(b)
  {
    IsoDayExactly(a);
    IsoDayExactly(b);
    RealOrder(Parts(a), Parts(b));
    RealOrder(Parts(b), Parts(a));
    ShapeOrder(a, b);
  }

  function IsoText(c: Civil): string
    requires 0 <= c.year && 0 <= c.month && 0 <= c.day
  {
    Pad(c.year, 4) + "-" + Pad(c.month, 2) + "-" + Pad(c.day, 2)
  }

  lemma IsoTextParts(c: Civil)
    requires 0 <= c.year < 10000 && 0 <= c.month < 100 && 0 <= c.day < 100
    ensures Shape(IsoText(c)) && Parts(IsoText(c)) == c
  {
    hide Pad, Value, Pow10, Digits;
    var s := IsoText(c);
    assert s[..4] == Pad(c.year, 4) && s[5..7] == Pad(c.month, 2) && s[8..] == Pad(c.day, 2);
    assert s[4] == '-' && s[7] == '-';
    SmallPowers();
    ValuePad(c.year, 4);
    ValuePad(c.month, 2);
    ValuePad(c.day, 2);
  }

  lemma SmallPowers()
    ensures Pow10(2) == 100 && Pow10(4) == 10000
  {
  }

  /** Calendar parts and accepted strings are in bijection. */
  lemma IsoTextRoundTrip(c: Civil, s: string)
    requires 100 <= c.year < 10000 && Real(c)
    ensures IsIsoDay(IsoText(c)) && Parts(IsoText(c)) == c
    ensures IsIsoDay(s) ==> IsoText(Parts(s)) == s
  {
    IsoTextParts(c);
    IsoDayExactly(IsoText(c));
    if IsIsoDay(s) {
      IsoTextOfParts(s);
    }
  }

  lemma IsoTextOfParts(s: string)
    requires Shape(s)
    ensures IsoText(Parts(s)) == s
  {
    PadValue(s[..4]);
    PadValue(s[5..7]);
    PadValue(s[8..]);
    assert s == s[..4] + "-" + s[5..7] + "-" + s[8..];
  }

  /** The UTC day of an instant, for the four-digit years. */
  function IsoDayFromMs(ms: int): string
    requires 0 <= FromDays(ms / MS_PER_DAY).year < 10000
  {
    IsoText(FromDays(ms / MS_PER_DAY))
  }

  lemma IsoDayFromMsNames(ms: int)
    requires 100 <= FromDays(ms / MS_PER_DAY).year < 10000
    ensures IsIsoDay(IsoDayFromMs(ms))
    ensures DayNumber(IsoDayFromMs(ms)) * MS_PER_DAY <= ms < (DayNumber(IsoDayFromMs(ms)) + 1) * MS_PER_DAY
  {
    var c := FromDays(ms / MS_PER_DAY);
    IsoTextParts(c);
    IsoDayExactly(IsoText(c));
  }

  datatype DayVerdict = Allowed | Malformed | Future | TooOld

  function PollDayVerdict(day: string, today: string): DayVerdict
    requires IsIsoDay(today)
  {
    if !IsIsoDay(day) then Malformed
    else if StrLess(today, day) then Future
    else if DayNumber(today) - DayNumber(day) > MAX_POLL_DAY_AGE_DAYS then TooOld
    else Allowed
  }

  /** A day may be fetched exactly when it is a real day from 0 to 730 days old. */
  lemma PollDayExactly(day: string, today: string)
    requires IsIsoDay(today)
    ensures PollDayVerdict(day, today) == Allowed <==>
            IsIsoDay(day) && 0 <= DayNumber(today) - DayNumber(day) <= 730
    ensures PollDayVerdict(day, today) == Future <==> IsIsoDay(day) && DayNumber(today) < DayNumber(day)
    ensures PollDayVerdict(day, today) == TooOld <==> IsIsoDay(day) && DayNumber(today) - DayNumber(day) > 730
  {
    if IsIsoDay(day) {
      StringOrderIsDayOrder(today, day);
    }
  }
}
