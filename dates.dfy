/** Civil (proleptic Gregorian) calendar dates, the ISO 8601 week number as the
    dashboard computes it, and the `YYYY-MM-DD` strings the application stores.
    Days are counted from 0001-01-01 (day 0, a Monday). */
module Dates {
  import opened Text

  datatype Date = Date(year: int, month: int, day: int)

  predicate IsLeapYear(y: int)
  {
    (y % 4 == 0 && y % 100 != 0) || y % 400 == 0
  }

  function DaysInMonth(y: int, m: int): (n: int)
    requires 1 <= m <= 12
    ensures 28 <= n <= 31
  {
    if m == 2 then (if IsLeapYear(y) then 29 else 28)
    else if m == 4 || m == 6 || m == 9 || m == 11 then 30
    else 31
  }

  predicate ValidDate(d: Date)
  {
    1 <= d.month <= 12 && 1 <= d.day <= DaysInMonth(d.year, d.month)
  }

  /** Days from 0001-01-01 to the first day of year `y`. */
  function DaysBeforeYear(y: int): int
  {
    var p := y - 1;
    365 * p + p / 4 - p / 100 + p / 400
  }

  /** Days of year `y` before the first day of month `m`. */
  function DaysBeforeMonth(y: int, m: int): (n: int)
    requires 1 <= m <= 12
    ensures 0 <= n <= 335
  {
    var base :=
      if m == 1 then 0 else if m == 2 then 31 else if m == 3 then 59
      else if m == 4 then 90 else if m == 5 then 120 else if m == 6 then 151
      else if m == 7 then 181 else if m == 8 then 212 else if m == 9 then 243
      else if m == 10 then 273 else if m == 11 then 304 else 334;
    if m > 2 && IsLeapYear(y) then base + 1 else base
  }

  /** 1-based day of the year. */
  function DayOfYear(d: Date): (n: int)
    requires ValidDate(d)
    ensures 1 <= n <= 366
  {
    DaysBeforeMonth(d.year, d.month) + d.day
  }

  function DayNumber(d: Date): int
    requires ValidDate(d)
  {
    DaysBeforeYear(d.year) + DayOfYear(d) - 1
  }

  function NextDay(d: Date): (r: Date)
    requires ValidDate(d)
    ensures ValidDate(r)
  {
    if d.day < DaysInMonth(d.year, d.month) then Date(d.year, d.month, d.day + 1)
    else if d.month < 12 then Date(d.year, d.month + 1, 1)
    else Date(d.year + 1, 1, 1)
  }

  function PrevDay(d: Date): (r: Date)
    requires ValidDate(d)
    ensures ValidDate(r)
  {
    if d.day > 1 then Date(d.year, d.month, d.day - 1)
    else if d.month > 1 then Date(d.year, d.month - 1, DaysInMonth(d.year, d.month - 1))
    else Date(d.year - 1, 12, 31)
  }

  lemma NextPrevInverse(d: Date)
    requires ValidDate(d)
    ensures PrevDay(NextDay(d)) == d
    ensures NextDay(PrevDay(d)) == d
  {
  }

  /** `p / k` steps up by one exactly when `p` is a multiple of `k`. */
  lemma DivStep(p: int, k: int)
    requires k > 0
    ensures p / k - (p - 1) / k == (if p % k == 0 then 1 else 0)
  {
    var q, r := p / k, p % k;
    assert p == k * q + r;
    if r == 0 {
      assert p - 1 == k * (q - 1) + (k - 1);
      DivUnique(p - 1, k, q - 1, k - 1);
    } else {
      assert p - 1 == k * q + (r - 1);
      DivUnique(p - 1, k, q, r - 1);
    }
  }

  lemma DivUnique(a: int, k: int, q: int, r: int)
    requires k > 0 && 0 <= r < k && a == k * q + r
    ensures a / k == q && a % k == r
  {
    var q', r' := a / k, a % k;
    assert a == k * q' + r';
    assert k * (q - q') == r' - r;
    MulRange(k, q - q');
  }

  /** A non-zero multiple of `k` is at least `k` away from zero. */
  lemma MulRange(k: int, d: int)
    requires k > 0
    ensures d >= 1 ==> k * d >= k
    ensures d <= -1 ==> k * d <= -k
  {
    if d >= 1 {
      MulMono(k, 1, d);
    }
    if d <= -1 {
      MulMono(k, d, -1);
    }
  }

  lemma ModAdd7(a: int, k: int)
    ensures (a + k) % 7 == (a % 7 + k) % 7
  {
    var x := a % 7 + k;
    assert a + k == 7 * (a / 7 + x / 7) + x % 7;
    DivUnique(a + k, 7, a / 7 + x / 7, x % 7);
  }

  lemma MulMono(k: int, a: int, b: int)
    requires k > 0 && a <= b
    ensures k * a <= k * b
  {
    assert k * b - k * a == k * (b - a);
  }

  lemma YearLength(y: int)
    ensures DaysBeforeYear(y + 1) - DaysBeforeYear(y) == if IsLeapYear(y) then 366 else 365
  {
    DivStep(y, 4);
    DivStep(y, 100);
    DivStep(y, 400);
    if y % 400 == 0 {
      var q := y / 400;
      assert y == 400 * q;
      DivUnique(y, 100, 4 * q, 0);
    }
    if y % 100 == 0 {
      var q := y / 100;
      assert y == 100 * q;
      DivUnique(y, 4, 25 * q, 0);
    }
  }

  lemma NextDayNumber(d: Date)
    requires ValidDate(d)
    ensures DayNumber(NextDay(d)) == DayNumber(d) + 1
  {
    if d.day == DaysInMonth(d.year, d.month) && d.month == 12 {
      YearLength(d.year);
    }
  }

  /** `date.setDate(date.getDate() + k)`: moves `k` days, one day at a time. */
  function AddDays(d: Date, k: int): (r: Date)
    requires ValidDate(d)
    ensures ValidDate(r)
    decreases if k < 0 then -k else k
  {
    if k == 0 then d
    else if k > 0 then AddDays(NextDay(d), k - 1)
    else AddDays(PrevDay(d), k + 1)
  }

  lemma {:induction false} AddDaysNumber(d: Date, k: int)
    requires ValidDate(d)
    ensures DayNumber(AddDays(d, k)) == DayNumber(d) + k
    decreases if k < 0 then -k else k
  {
    if k > 0 {
      NextDayNumber(d);
      AddDaysNumber(NextDay(d), k - 1);
    } else if k < 0 {
      NextPrevInverse(d);
      NextDayNumber(PrevDay(d));
      AddDaysNumber(PrevDay(d), k + 1);
    }
  }

  lemma AddDaysNext(d: Date, j: int)
    requires ValidDate(d)
    ensures AddDays(NextDay(d), j) == AddDays(d, j + 1)
  {
    NextPrevInverse(d);
  }

  lemma AddDaysPrev(d: Date, j: int)
    requires ValidDate(d)
    ensures AddDays(PrevDay(d), j) == AddDays(d, j - 1)
  {
    NextPrevInverse(d);
  }

  /** Moving `a` days and then `b` days is moving `a + b` days. */
  lemma {:induction false} AddDaysAdd(d: Date, a: int, b: int)
    requires ValidDate(d)
    ensures AddDays(AddDays(d, a), b) == AddDays(d, a + b)
    decreases if a < 0 then -a else a
  {
    if a > 0 {
      AddDaysAdd(NextDay(d), a - 1, b);
      AddDaysNext(d, a - 1 + b);
    } else if a < 0 {
      AddDaysAdd(PrevDay(d), a + 1, b);
      AddDaysPrev(d, a + 1 + b);
    }
  }

  // ---------------------------------------------------------------------------
  // Weekdays and the ISO 8601 week number

  /** ISO weekday: 1 = Monday … 7 = Sunday (`getUTCDay() || 7`). */
  function IsoWeekday(d: Date): (w: int)
    requires ValidDate(d)
    ensures 1 <= w <= 7
  {
    DayNumber(d) % 7 + 1
  }

  /** The Thursday of the Monday-to-Sunday week containing `d`. */
  function WeekThursday(d: Date): (t: Date)
    requires ValidDate(d)
    ensures ValidDate(t)
  {
    AddDays(d, 4 - IsoWeekday(d))
  }

  /** The Monday on or before `d` (a Sunday goes back six days). */
  function WeekMonday(d: Date): (t: Date)
    requires ValidDate(d)
    ensures ValidDate(t)
  {
    AddDays(d, 1 - IsoWeekday(d))
  }

  /** `getISOWeek`: the week of the year of the week's Thursday,
      `ceil(dayOfYear(Thursday) / 7)`. */
  function IsoWeek(d: Date): int
    requires ValidDate(d)
  {
    (DayOfYear(WeekThursday(d)) + 6) / 7
  }

  /** The year `Date.UTC` builds from a year number: 0 to 99 stand for 1900
      to 1999. */
  function UtcYear(y: int): int
  {
    if 0 <= y <= 99 then y + 1900 else y
  }

  /** `getISOWeek` as the dashboard writes it. The date is rebuilt with
      `Date.UTC(year, month, day)`, which moves years 0 to 99 to 1900 to 1999
      (29 February of a year that is no longer leap becomes 1 March). The week
      is then counted from 1 January of the Thursday's year, also rebuilt with
      `Date.UTC`, and rounded up: `ceil((days + 1) / 7)`. */
  function UtcWeek(d: Date): int
    requires ValidDate(d)
  {
    WeekOfThursday(WeekThursday(UtcDay(d)))
  }

  /** `Date.UTC(getFullYear(), getMonth(), getDate())` */
  function UtcDay(d: Date): (u: Date)
    requires ValidDate(d)
    ensures ValidDate(u)
  {
    if 0 <= d.year <= 99 then AddDays(Date(d.year + 1900, d.month, 1), d.day - 1) else d
  }

  /** `ceil(((t - yearStart) / 86400000 + 1) / 7)` for the Thursday `t`. */
  function WeekOfThursday(t: Date): int
    requires ValidDate(t)
  {
    (DayNumber(t) - DaysBeforeYear(UtcYear(t.year)) + 7) / 7
  }

  /** Outside years 0 to 99 the count from 1 January is the day of the year. */
  lemma WeekOfThursdayIso(t: Date)
    requires ValidDate(t) && !(0 <= t.year <= 99)
    ensures WeekOfThursday(t) == (DayOfYear(t) + 6) / 7
  {
  }

  /** Where neither the date nor its Thursday lies in years 0 to 99, the
      dashboard's week is the ISO 8601 week number. */
  lemma UtcWeekIsIsoWeek(d: Date)
    requires ValidDate(d) && !(0 <= d.year <= 99) && !(0 <= WeekThursday(d).year <= 99)
    ensures UtcWeek(d) == IsoWeek(d)
  {
    WeekOfThursdayIso(WeekThursday(d));
  }

  /** Within one month, moving `k` days moves the day of the month by `k`. */
  lemma {:induction false} AddDaysInMonth(d: Date, k: int)
    requires ValidDate(d) && 1 <= d.day + k <= DaysInMonth(d.year, d.month)
    ensures AddDays(d, k) == Date(d.year, d.month, d.day + k)
    decreases if k < 0 then -k else k
  {
    if k > 0 {
      AddDaysInMonth(NextDay(d), k - 1);
    } else if k < 0 {
      AddDaysInMonth(PrevDay(d), k + 1);
    }
  }

  /** In years 0 to 99 the dashboard's week is the ISO 8601 week of the same
      day 1900 years later (when that day exists). */
  lemma EarlyYearUtcWeek(d: Date)
    requires ValidDate(d) && 0 <= d.year <= 99 && d.day <= DaysInMonth(d.year + 1900, d.month)
    ensures UtcWeek(d) == IsoWeek(Date(d.year + 1900, d.month, d.day))
  {
    var u := Date(d.year + 1900, d.month, d.day);
    AddDaysInMonth(Date(d.year + 1900, d.month, 1), d.day - 1);
    assert UtcDay(d) == u;
    ThursdayYear(u);
    WeekOfThursdayIso(WeekThursday(u));
  }

  /** A week's Thursday lies at most three days from the date. */
  lemma ThursdayYear(u: Date)
    requires ValidDate(u)
    ensures u.year - 3 <= WeekThursday(u).year
  {
    var k := 4 - IsoWeekday(u);
    if k >= 0 {
      AddDaysYearMono(u, k);
    } else {
      AddDaysYearBack(u, -k);
    }
  }

  /** Going back `k` days drops the year by at most `k`. */
  lemma {:induction false} AddDaysYearBack(d: Date, k: nat)
    requires ValidDate(d)
    ensures AddDays(d, -(k as int)).year >= d.year - k
    decreases k
  {
    if k > 0 {
      AddDaysYearBack(PrevDay(d), k - 1);
    }
  }

  /** Going forward never moves to an earlier year. */
  lemma {:induction false} AddDaysYearMono(d: Date, k: nat)
    requires ValidDate(d)
    ensures AddDays(d, k).year >= d.year
    decreases k
  {
    if k > 0 {
      AddDaysYearMono(NextDay(d), k - 1);
    }
  }

  lemma IsoWeekRange(d: Date)
    requires ValidDate(d)
    ensures 1 <= IsoWeek(d) <= 53
  {
  }

  lemma WeekdayAfter(d: Date, k: int)
    requires ValidDate(d)
    ensures IsoWeekday(AddDays(d, k)) == (IsoWeekday(d) - 1 + k) % 7 + 1
  {
    AddDaysNumber(d, k);
    ModAdd7(DayNumber(d), k);
  }

  lemma MondayIsMonday(d: Date)
    requires ValidDate(d)
    ensures IsoWeekday(WeekMonday(d)) == 1
  {
    WeekdayAfter(d, 1 - IsoWeekday(d));
  }

  /** Every day of a Monday-to-Sunday week has the same Thursday and Monday,
      hence the same week number and the same week range. */
  lemma {:induction false} SameWeek(monday: Date, k: int)
    requires ValidDate(monday) && IsoWeekday(monday) == 1
    requires 0 <= k <= 6
    ensures WeekThursday(AddDays(monday, k)) == AddDays(monday, 3)
    ensures WeekMonday(AddDays(monday, k)) == monday
    ensures IsoWeek(AddDays(monday, k)) == IsoWeek(monday)
  {
    var d := AddDays(monday, k);
    WeekdayAfter(monday, k);
    assert IsoWeekday(d) == k + 1;
    AddDaysAdd(monday, k, 3 - k);
    assert WeekThursday(d) == AddDays(monday, 3);
    AddDaysAdd(monday, k, -k);
    assert WeekMonday(d) == AddDays(monday, 0);
    assert WeekThursday(monday) == AddDays(monday, 3);
  }

  // ---------------------------------------------------------------------------
  // Date strings

  predicate IsDigitString(s: string)
  {
    forall k :: 0 <= k < |s| ==> IsDigit(s[k])
  }

  /** A `YYYY-MM-DD` string naming a real calendar date. */
  function ParseDate(s: string): (r: Option<Date>)
    ensures r.Some? ==> ValidDate(r.value) && 0 <= r.value.year <= 9999
  {
    if |s| == 10 && s[4] == '-' && s[7] == '-'
       && IsDigitString(s[..4]) && IsDigitString(s[5..7]) && IsDigitString(s[8..])
    then
      var d := Date(DigitsValue(s[..4]), DigitsValue(s[5..7]), DigitsValue(s[8..]));
      assert DigitsValue(s[..4]) <= 9999 by { DigitsBound(s[..4]); }
      if ValidDate(d) then Some(d) else None
    else None
  }

  lemma {:induction false} DigitsBound(s: string)
    requires IsDigitString(s)
    ensures DigitsValue(s) < Power10(|s|)
  {
    if s != [] {
      DigitsBound(s[..|s| - 1]);
    }
  }

  function Power10(n: nat): nat
  {
    if n == 0 then 1 else 10 * Power10(n - 1)
  }

  /** Two decimal digits of `n`, zero-padded. */
  lemma Pad2Digits(n: nat)
    requires n < 100
    ensures Pad2(n) == [DigitChar(n / 10), DigitChar(n % 10)]
  {
    if n < 10 {
      assert DigitChar(0) == '0';
      assert NatToString(n) == [DigitChar(n)];
    } else {
      assert NatToString(n / 10) == [DigitChar(n / 10)];
      assert NatToString(n) == NatToString(n / 10) + [DigitChar(n % 10)];
    }
  }

  lemma Pad4Digits(n: nat)
    requires n < 10000
    ensures Pad4(n) == [DigitChar(n / 1000), DigitChar(n / 100 % 10), DigitChar(n / 10 % 10), DigitChar(n % 10)]
  {
    var a, b, c, e := n / 1000, n / 100 % 10, n / 10 % 10, n % 10;
    assert n / 10 / 10 == n / 100 && n / 100 / 10 == n / 1000;
    if n >= 1000 {
      assert NatToString(n / 1000) == [DigitChar(a)];
      assert NatToString(n / 100) == [DigitChar(a), DigitChar(b)];
      assert NatToString(n / 10) == [DigitChar(a), DigitChar(b), DigitChar(c)];
      assert NatToString(n) == [DigitChar(a), DigitChar(b), DigitChar(c), DigitChar(e)];
    } else if n >= 100 {
      assert NatToString(n / 100) == [DigitChar(b)];
      assert NatToString(n / 10) == [DigitChar(b), DigitChar(c)];
      assert NatToString(n) == [DigitChar(b), DigitChar(c), DigitChar(e)];
    } else if n >= 10 {
      assert NatToString(n / 10) == [DigitChar(c)];
      assert NatToString(n) == [DigitChar(c), DigitChar(e)];
    }
  }

  lemma TwoDigitsValue(t: string)
    requires |t| == 2 && IsDigitString(t)
    ensures DigitsValue(t) == DigitValue(t[0]) * 10 + DigitValue(t[1])
  {
    var t1 := t[..1];
    assert t1[..0] == [] && t1[0] == t[0];
    assert DigitsValue(t1) == DigitValue(t[0]);
    assert t[..|t| - 1] == t1;
  }

  lemma FourDigitsValue(t: string)
    requires |t| == 4 && IsDigitString(t)
    ensures DigitsValue(t) == DigitValue(t[0]) * 1000 + DigitValue(t[1]) * 100 + DigitValue(t[2]) * 10 + DigitValue(t[3])
  {
    var t3 := t[..3];
    var t2 := t3[..2];
    assert t[..|t| - 1] == t3 && t3[..|t3| - 1] == t2;
    TwoDigitsValue(t2);
    assert DigitsValue(t3) == DigitsValue(t2) * 10 + DigitValue(t[2]);
  }

  lemma Pad2Value(n: nat)
    requires n < 100
    ensures |Pad2(n)| == 2 && IsDigitString(Pad2(n)) && DigitsValue(Pad2(n)) == n
  {
    Pad2Digits(n);
    TwoDigitsValue(Pad2(n));
  }

  lemma Pad4Value(n: nat)
    requires n < 10000
    ensures |Pad4(n)| == 4 && IsDigitString(Pad4(n)) && DigitsValue(Pad4(n)) == n
  {
    Pad4Digits(n);
    FourDigitCharsValue(n);
  }

  lemma FourDigitCharsValue(n: nat)
    requires n < 10000
    ensures var t := [DigitChar(n / 1000), DigitChar(n / 100 % 10), DigitChar(n / 10 % 10), DigitChar(n % 10)];
      |t| == 4 && IsDigitString(t) && DigitsValue(t) == n
  {
    var a, b, c, e := n / 1000, n / 100 % 10, n / 10 % 10, n % 10;
    var t := [DigitChar(a), DigitChar(b), DigitChar(c), DigitChar(e)];
    FourDigitsValue(t);
    assert DigitValue(t[0]) == a && DigitValue(t[1]) == b && DigitValue(t[2]) == c && DigitValue(t[3]) == e;
    assert n == (n / 10) * 10 + e;
    assert n / 10 == (n / 100) * 10 + c;
    assert n / 100 == a * 10 + b;
  }

  /** `toISOString().split('T')[0]` of a date whose year has four digits. */
  function IsoDateString(d: Date): (s: string)
    requires 0 <= d.year <= 9999 && 1 <= d.month <= 12 && 1 <= d.day
  {
    Pad4(d.year) + "-" + Pad2(d.month) + "-" + Pad2(d.day)
  }

  /** Reading back a date string written by `IsoDateString` gives the date. */
  lemma IsoDateRoundTrip(d: Date)
    requires ValidDate(d) && 0 <= d.year <= 9999
    ensures ParseDate(IsoDateString(d)) == Some(d)
  {
    var s := IsoDateString(d);
    Pad4Value(d.year);
    Pad2Value(d.month);
    Pad2Value(d.day);
    assert s[..4] == Pad4(d.year);
    assert s[5..7] == Pad2(d.month);
    assert s[8..] == Pad2(d.day);
  }

  /** `${y}-${String(m).padStart(2,'0')}-${String(d).padStart(2,'0')}` built
      from the local getters, as the next-gathering suggestion writes it. */
  function FormatYmd(d: Date): string
  {
    IntToString(d.year) + "-" + Pad2(if d.month < 0 then 0 else d.month) + "-" + Pad2(if d.day < 0 then 0 else d.day)
  }

  lemma FormatYmdIsIso(d: Date)
    requires ValidDate(d) && 1000 <= d.year <= 9999
    ensures FormatYmd(d) == IsoDateString(d)
  {
  }
}
