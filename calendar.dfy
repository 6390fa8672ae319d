/**
  * The proleptic Gregorian calendar as Python's `date` counts it: a date is
  * its ordinal (0001-01-01 is day 1, 9999-12-31 is the last day), and
  * `isoformat` / `fromisoformat` (and dayjs's "YYYY-MM-DD") write and read
  * the text form.
  */
module Calendar {
  import opened Wrappers
  import opened Decimals

  const MinOrdinal := 1
  /** `date.max.toordinal()`, the ordinal of 9999-12-31. */
  const MaxOrdinal := 3652059

  predicate InRange(d: int) {
    MinOrdinal <= d <= MaxOrdinal
  }

  /** `date.weekday()`: Monday is 0, Wednesday 2, Sunday 6. */
  function Weekday(d: int): (w: int)
    ensures 0 <= w < 7
  {
    (d + 6) % 7
  }

  const Wednesday := 2

  predicate IsLeap(y: int) {
    y % 4 == 0 && (y % 100 != 0 || y % 400 == 0)
  }

  function DaysInYear(y: int): int {
    if IsLeap(y) then 366 else 365
  }

  function DaysInMonth(y: int, m: int): (n: int)
    requires 1 <= m <= 12
    ensures 28 <= n <= 31
  {
    if m == 2 then (if IsLeap(y) then 29 else 28)
    else if m == 4 || m == 6 || m == 9 || m == 11 then 30
    else 31
  }

  /** Days in the months of year `y` before month `m` (m == 13: the whole year). */
  function DaysBeforeMonth(y: int, m: int): int
    requires 1 <= m <= 13
  {
    (match m
     case 1 => 0 case 2 => 31 case 3 => 59 case 4 => 90 case 5 => 120
     case 6 => 151 case 7 => 181 case 8 => 212 case 9 => 243 case 10 => 273
     case 11 => 304 case 12 => 334 case _ => 365)
    + (if m > 2 && IsLeap(y) then 1 else 0)
  }

  /** Days in all the years before `y`. */
  function DaysBeforeYear(y: int): (n: int)
    requires y >= 1
    ensures n >= 365 * (y - 1)
  {
    if y == 1 then 0 else DaysBeforeYear(y - 1) + DaysInYear(y - 1)
  }

  /** The closed form Python's `date` uses for the days before a year. */
  lemma {:induction false} DaysBeforeYearFormula(y: int)
    requires y >= 1
    ensures DaysBeforeYear(y) == 365 * (y - 1) + (y - 1) / 4 - (y - 1) / 100 + (y - 1) / 400
  {
    if y > 1 {
      DaysBeforeYearFormula(y - 1);
      LeapCountStep(y - 1);
    }
  }

  /** Going from year p - 1 to year p adds one leap day to the count exactly when p is leap. */
  lemma LeapCountStep(p: int)
    ensures 365 + (p / 4 - (p - 1) / 4) - (p / 100 - (p - 1) / 100) + (p / 400 - (p - 1) / 400)
            == DaysInYear(p)
  {
    assert p / 4 - (p - 1) / 4 == if p % 4 == 0 then 1 else 0;
    assert p / 100 - (p - 1) / 100 == if p % 100 == 0 then 1 else 0;
    assert p / 400 - (p - 1) / 400 == if p % 400 == 0 then 1 else 0;
    assert p % 400 == 0 ==> p % 100 == 0;
    assert p % 100 == 0 ==> p % 4 == 0;
  }

  lemma LastYearEnds(y: int)
    requires y == 9999
    ensures DaysBeforeYear(y + 1) == MaxOrdinal
  {
    DaysBeforeYearFormula(y + 1);
  }

  predicate ValidDate(y: int, m: int, d: int) {
    1 <= y <= 9999 && 1 <= m <= 12 && 1 <= d <= DaysInMonth(y, m)
  }

  /** `date(y, m, d).toordinal()`. */
  function Ordinal(y: int, m: int, d: int): int
    requires ValidDate(y, m, d)
  {
    DaysBeforeYear(y) + DaysBeforeMonth(y, m) + d
  }

  lemma MonthStep(y: int, m: int)
    requires 1 <= m <= 12
    ensures DaysBeforeMonth(y, m + 1) == DaysBeforeMonth(y, m) + DaysInMonth(y, m)
  {
  }

  lemma YearStep(y: int)
    requires y >= 1
    ensures DaysBeforeYear(y + 1) == DaysBeforeYear(y) + DaysInYear(y)
  {
  }

  /** Years start strictly later as the year grows. */
  lemma {:induction false} YearsIncrease(a: int, b: int)
    requires 1 <= a < b
    ensures DaysBeforeYear(a + 1) <= DaysBeforeYear(b)
    decreases b - a
  {
    YearStep(a);
    if a + 1 < b {
      YearsIncrease(a + 1, b);
      YearStep(a + 1);
    }
  }

  /** The year whose days contain ordinal `n`, searching upward from `y`. */
  function YearFrom(n: int, y: int): (r: int)
    requires 1 <= y <= 9999 && DaysBeforeYear(y) < n <= MaxOrdinal
    ensures y <= r <= 9999 && DaysBeforeYear(r) < n <= DaysBeforeYear(r + 1)
    decreases 9999 - y
  {
    if y == 9999 then LastYearEnds(y); y
    else if n <= DaysBeforeYear(y + 1) then y
    else YearFrom(n, y + 1)
  }

  /** The month of year `y` whose days contain day-of-year `k`, searching upward from `m`. */
  function MonthFrom(y: int, k: int, m: int): (r: int)
    requires 1 <= m <= 12 && DaysBeforeMonth(y, m) < k <= DaysBeforeMonth(y, 13)
    ensures m <= r <= 12 && DaysBeforeMonth(y, r) < k <= DaysBeforeMonth(y, r + 1)
    decreases 12 - m
  {
    if k <= DaysBeforeMonth(y, m + 1) then m else MonthFrom(y, k, m + 1)
  }

  /** `date.fromordinal(n)` as (year, month, day). */
  function Civil(n: int): (r: (int, int, int))
    requires InRange(n)
    ensures 1 <= r.0 <= 9999 && 1 <= r.1 <= 12 && 1 <= r.2 <= 31
  {
    var y := YearFrom(n, 1);
    YearHoldsDay(y, n);
    var k := n - DaysBeforeYear(y);
    var m := MonthFrom(y, k, 1);
    MonthHoldsDay(y, m, k);
    (y, m, k - DaysBeforeMonth(y, m))
  }

  /** A day within year `y` is a day of one of its twelve months. */
  lemma YearHoldsDay(y: int, n: int)
    requires y >= 1 && DaysBeforeYear(y) < n <= DaysBeforeYear(y + 1)
    ensures DaysBeforeMonth(y, 1) < n - DaysBeforeYear(y) <= DaysBeforeMonth(y, 13)
  {
    YearStep(y);
  }

  /** A day of the year within month `m` is a valid day of that month. */
  lemma MonthHoldsDay(y: int, m: int, k: int)
    requires 1 <= m <= 12 && DaysBeforeMonth(y, m) < k <= DaysBeforeMonth(y, m + 1)
    ensures 1 <= k - DaysBeforeMonth(y, m) <= DaysInMonth(y, m)
  {
    MonthStep(y, m);
  }

  /** The date of an ordinal is a valid date, and it has that ordinal. */
  lemma CivilOrdinal(n: int)
    requires InRange(n)
    ensures var r := Civil(n); ValidDate(r.0, r.1, r.2) && Ordinal(r.0, r.1, r.2) == n
  {
    var y := YearFrom(n, 1);
    YearHoldsDay(y, n);
    var m := MonthFrom(y, n - DaysBeforeYear(y), 1);
    MonthHoldsDay(y, m, n - DaysBeforeYear(y));
  }

  /** A date's place in the calendar is unique: ordinals never repeat. */
  lemma {:induction false} OrdinalInjective(y: int, m: int, d: int)
    requires ValidDate(y, m, d)
    ensures InRange(Ordinal(y, m, d)) && Civil(Ordinal(y, m, d)) == (y, m, d)
  {
    var n := Ordinal(y, m, d);
    OrdinalWithinYear(y, m, d);
    CivilOfBracketed(n, y, m);
  }

  /** An ordinal in month `m` of year `y` is the date of that year and month. */
  lemma CivilOfBracketed(n: int, y: int, m: int)
    requires InRange(n) && 1 <= y && 1 <= m <= 12
    requires DaysBeforeYear(y) < n <= DaysBeforeYear(y + 1)
    requires DaysBeforeMonth(y, m) < n - DaysBeforeYear(y) <= DaysBeforeMonth(y, m + 1)
    ensures Civil(n) == (y, m, n - DaysBeforeYear(y) - DaysBeforeMonth(y, m))
  {
    var c := Civil(n);
    CivilBrackets(n);
    YearUnique(n, c.0, y);
    MonthUnique(y, n - DaysBeforeYear(y), c.1, m);
    assert c.0 == y && c.1 == m;
    assert c.2 == n - DaysBeforeYear(y) - DaysBeforeMonth(y, m);
  }

  /** The year and month of an ordinal's date are the ones whose days contain it. */
  lemma CivilBrackets(n: int)
    requires InRange(n)
    ensures var r := Civil(n);
      && DaysBeforeYear(r.0) < n <= DaysBeforeYear(r.0 + 1)
      && DaysBeforeMonth(r.0, r.1) < n - DaysBeforeYear(r.0) <= DaysBeforeMonth(r.0, r.1 + 1)
      && r.2 == n - DaysBeforeYear(r.0) - DaysBeforeMonth(r.0, r.1)
  {
    var y := YearFrom(n, 1);
    YearHoldsDay(y, n);
    var m := MonthFrom(y, n - DaysBeforeYear(y), 1);
  }

  lemma OrdinalWithinYear(y: int, m: int, d: int)
    requires ValidDate(y, m, d)
    ensures DaysBeforeYear(y) < Ordinal(y, m, d) <= DaysBeforeYear(y + 1)
    ensures DaysBeforeMonth(y, m) < Ordinal(y, m, d) - DaysBeforeYear(y) <= DaysBeforeMonth(y, m + 1)
    ensures InRange(Ordinal(y, m, d))
  {
    YearStep(y);
    MonthStep(y, m);
    if m < 12 {
      MonthsIncrease(y, m + 1);
    }
    if y < 9999 {
      YearsIncrease(y, 9999);
    }
    LastYearEnds(9999);
  }

  lemma YearUnique(n: int, a: int, b: int)
    requires 1 <= a && 1 <= b
    requires DaysBeforeYear(a) < n <= DaysBeforeYear(a + 1)
    requires DaysBeforeYear(b) < n <= DaysBeforeYear(b + 1)
    ensures a == b
  {
    if a < b {
      YearsIncrease(a, b);
    } else if b < a {
      YearsIncrease(b, a);
    }
  }

  lemma MonthUnique(y: int, k: int, a: int, b: int)
    requires 1 <= a <= 12 && 1 <= b <= 12
    requires DaysBeforeMonth(y, a) < k <= DaysBeforeMonth(y, a + 1)
    requires DaysBeforeMonth(y, b) < k <= DaysBeforeMonth(y, b + 1)
    ensures a == b
  {
    if a < b {
      MonthsIncreaseBetween(y, a, b);
    } else if b < a {
      MonthsIncreaseBetween(y, b, a);
    }
  }

  lemma MonthsIncrease(y: int, m: int)
    requires 1 <= m <= 12
    ensures DaysBeforeMonth(y, m + 1) <= DaysBeforeMonth(y, 13)
  {
  }

  lemma MonthsIncreaseBetween(y: int, a: int, b: int)
    requires 1 <= a < b <= 12
    ensures DaysBeforeMonth(y, a + 1) <= DaysBeforeMonth(y, b)
  {
  }

  /** `n` written with exactly `width` digits, zero-padded on the left. */
  function Padded(n: nat, width: nat): (s: string)
    requires n < Pow10(width)
    ensures |s| == width && AllDigits(s) && DigitsValue(s) == n
  {
    if width == 0 then ""
    else
      var s := Padded(n / 10, width - 1) + [DigitChar(n % 10)];
      assert s[..|s| - 1] == Padded(n / 10, width - 1);
      s
  }

  /** "YYYY-MM-DD" for a year, month and day. */
  function DateText(y: nat, m: nat, d: nat): (s: string)
    requires y < 10000 && m < 100 && d < 100
    ensures |s| == 10
  {
    Padded(y, 4) + "-" + Padded(m, 2) + "-" + Padded(d, 2)
  }

  /** `date.isoformat()` and dayjs `format("YYYY-MM-DD")`. */
  function IsoText(n: int): (s: string)
    requires InRange(n)
    ensures |s| == 10
  {
    var (y, m, d) := Civil(n);
    DateText(y, m, d)
  }

  /** `date.fromisoformat(s)` for the "YYYY-MM-DD" form; None where Python raises ValueError. */
  function ParseIso(s: string): Option<int> {
    if |s| == 10 && s[4] == '-' && s[7] == '-'
       && AllDigits(s[..4]) && AllDigits(s[5..7]) && AllDigits(s[8..])
    then
      var y, m, d := DigitsValue(s[..4]), DigitsValue(s[5..7]), DigitsValue(s[8..]);
      if ValidDate(y, m, d) then Some(Ordinal(y, m, d)) else None
    else
      None
  }

  /** A date read from text lies in the calendar's range. */
  lemma ParsedInRange(s: string)
    requires ParseIso(s).Some?
    ensures InRange(ParseIso(s).value)
  {
    OrdinalWithinYear(DigitsValue(s[..4]), DigitsValue(s[5..7]), DigitsValue(s[8..]));
  }

  lemma ParseDateText(y: int, m: int, d: int)
    requires ValidDate(y, m, d)
    ensures ParseIso(DateText(y, m, d)) == Some(Ordinal(y, m, d))
  {
    var s := DateText(y, m, d);
    assert s[..4] == Padded(y, 4);
    assert s[5..7] == Padded(m, 2);
    assert s[8..] == Padded(d, 2);
  }

  /** Reading back the text of a date gives the same date. */
  lemma {:induction false} IsoRoundTrip(n: int)
    requires InRange(n)
    ensures ParseIso(IsoText(n)) == Some(n)
  {
    var (y, m, d) := Civil(n);
    CivilOrdinal(n);
    ParseDateText(y, m, d);
  }

  /** Text that reads as a date is exactly that date's canonical text. */
  lemma {:induction false} IsoTextCanonical(s: string)
    requires ParseIso(s).Some?
    ensures InRange(ParseIso(s).value) && IsoText(ParseIso(s).value) == s
  {
    var y, m, d := DigitsValue(s[..4]), DigitsValue(s[5..7]), DigitsValue(s[8..]);
    OrdinalInjective(y, m, d);
    DigitsFormDate(s);
  }

  /** Text of the date form is the date text of the numbers its digit groups spell. */
  lemma DigitsFormDate(s: string)
    requires |s| == 10 && s[4] == '-' && s[7] == '-'
    requires AllDigits(s[..4]) && AllDigits(s[5..7]) && AllDigits(s[8..])
    ensures DigitsValue(s[..4]) < 10000 && DigitsValue(s[5..7]) < 100 && DigitsValue(s[8..]) < 100
    ensures s == DateText(DigitsValue(s[..4]), DigitsValue(s[5..7]), DigitsValue(s[8..]))
  {
    PaddedUnique(s[..4], 4);
    PaddedUnique(s[5..7], 2);
    PaddedUnique(s[8..], 2);
    assert s == s[..4] + "-" + s[5..7] + "-" + s[8..];
  }

  /** A digit string of a given width is the padded numeral of its own value. */
  lemma {:induction false} PaddedUnique(s: string, width: nat)
    requires |s| == width && AllDigits(s)
    ensures DigitsValue(s) < Pow10(width) && Padded(DigitsValue(s), width) == s
  {
    if width > 0 {
      var init := s[..|s| - 1];
      assert AllDigits(init);
      PaddedUnique(init, width - 1);
      var v := DigitsValue(s);
      assert v / 10 == DigitsValue(init) && v % 10 == DigitValue(s[|s| - 1]);
      assert DigitChar(v % 10) == s[|s| - 1];
      assert s == init + [s[|s| - 1]];
    }
  }
}
