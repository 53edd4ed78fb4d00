/** The part of JavaScript's `Date` that the mood calendar relies on, on one
    proleptic Gregorian calendar: dates with a 0-based month, day-of-month
    arithmetic with the normalisation `setDate` performs, the weekday
    (`getDay`, Sunday = 0) and the date part of `toISOString`. */
module Calendar {
  import opened Text

  /** A calendar date; `month` is 0-based (January = 0), as in JavaScript. */
  datatype Date = Date(year: int, month: int, day: int)

  /** The years a JavaScript `Date` can hold (8.64e15 ms either side of 1970). */
  const MinYear := -271821
  const MaxYear := 275760

  predicate IsLeapYear(y: int)
  {
    y % 4 == 0 && (y % 100 != 0 || y % 400 == 0)
  }

  function DaysInMonth(y: int, m: int): (n: int)
    ensures 28 <= n <= 31
    ensures m == 1 ==> (n == 29 <==> IsLeapYear(y))
  {
    if m == 1 then (if IsLeapYear(y) then 29 else 28)
    else if m == 3 || m == 5 || m == 8 || m == 10 then 30
    else 31
  }

  predicate Valid(d: Date)
  {
    0 <= d.month < 12 && 1 <= d.day <= DaysInMonth(d.year, d.month)
  }

  function YearLength(y: int): int
  {
    if IsLeapYear(y) then 366 else 365
  }

  // ---------------------------------------------------------------------------
  // Moving by one day

  function NextDay(d: Date): (r: Date)
    requires Valid(d)
    ensures Valid(r)
  {
    if d.day < DaysInMonth(d.year, d.month) then Date(d.year, d.month, d.day + 1)
    else if d.month < 11 then Date(d.year, d.month + 1, 1)
    else Date(d.year + 1, 0, 1)
  }

  function PrevDay(d: Date): (r: Date)
    requires Valid(d)
    ensures Valid(r)
  {
    if d.day > 1 then Date(d.year, d.month, d.day - 1)
    else if d.month > 0 then Date(d.year, d.month - 1, DaysInMonth(d.year, d.month - 1))
    else Date(d.year - 1, 11, 31)
  }

  /** Going back a day and forward again, or forward and back, is the identity. */
  lemma NextPrevInverse(d: Date)
    requires Valid(d)
    ensures NextDay(PrevDay(d)) == d
    ensures PrevDay(NextDay(d)) == d
  {
  }

  /** The date n days after d. */
  function AddDays(d: Date, n: nat): (r: Date)
    requires Valid(d)
    ensures Valid(r)
    decreases n
  {
    if n == 0 then d else AddDays(NextDay(d), n - 1)
  }

  /** The date n days before d. */
  function SubDays(d: Date, n: nat): (r: Date)
    requires Valid(d)
    ensures Valid(r)
    decreases n
  {
    if n == 0 then d else SubDays(PrevDay(d), n - 1)
  }

  /** `setDate(n)` on a date of month m: day n of that month, where a day
      past the month's end runs into the following months and a day of 0 or
      less runs back into the preceding ones. */
  function SetDate(d: Date, n: int): (r: Date)
    requires 0 <= d.month < 12
    ensures Valid(r)
  {
    if n >= 1 then AddDays(Date(d.year, d.month, 1), n - 1)
    else SubDays(Date(d.year, d.month, 1), 1 - n)
  }

  /** A day count after d, in one step or two. */
  lemma {:induction false} AddDaysSplit(d: Date, a: nat, b: nat)
    requires Valid(d)
    ensures AddDays(d, a + b) == AddDays(AddDays(d, a), b)
    decreases a
  {
    if a > 0 {
      AddDaysSplit(NextDay(d), a - 1, b);
    }
  }

  /** n + 1 days after d is the day after n days after d. */
  lemma AddDaysLast(d: Date, n: nat)
    requires Valid(d)
    ensures AddDays(d, n + 1) == NextDay(AddDays(d, n))
  {
    AddDaysSplit(d, n, 1);
  }

  /** Within a month, adding days only moves the day of the month. */
  lemma {:induction false} AddDaysInMonth(d: Date, k: nat)
    requires Valid(d) && d.day + k <= DaysInMonth(d.year, d.month)
    ensures AddDays(d, k) == Date(d.year, d.month, d.day + k)
    decreases k
  {
    if k > 0 {
      AddDaysInMonth(NextDay(d), k - 1);
    }
  }

  /** Within a month, subtracting days only moves the day of the month. */
  lemma {:induction false} SubDaysInMonth(d: Date, k: nat)
    requires Valid(d) && k < d.day
    ensures SubDays(d, k) == Date(d.year, d.month, d.day - k)
    decreases k
  {
    if k > 0 {
      SubDaysInMonth(PrevDay(d), k - 1);
    }
  }

  /** `setDate(d.getDate() + i)` on a copy of d is the date i days after d. */
  lemma SetDateIsAddDays(d: Date, i: nat)
    requires Valid(d)
    ensures SetDate(d, d.day + i) == AddDays(d, i)
  {
    var first := Date(d.year, d.month, 1);
    assert SetDate(d, d.day + i) == AddDays(first, (d.day - 1) + i);
    AddDaysInMonth(first, d.day - 1);
    assert AddDays(first, d.day - 1) == d;
    AddDaysSplit(first, d.day - 1, i);
  }

  // ---------------------------------------------------------------------------
  // Day numbers and weekdays

  /** Days from 0001-01-01 to the first day of year y (negative before it). */
  function DaysBeforeYear(y: int): int
  {
    365 * (y - 1) + (y - 1) / 4 - (y - 1) / 100 + (y - 1) / 400
  }

  /** Days of year y before the first day of month m. */
  function DaysBeforeMonth(y: int, m: int): int
    requires 0 <= m < 12
  {
    [0, 31, 59, 90, 120, 151, 181, 212, 243, 273, 304, 334][m] + (if m >= 2 && IsLeapYear(y) then 1 else 0)
  }

  /** Days from 0001-01-01 (a Monday) to d. */
  function DayNumber(d: Date): int
    requires Valid(d)
  {
    DaysBeforeYear(d.year) + DaysBeforeMonth(d.year, d.month) + d.day - 1
  }

  /** `getDay()`: 0 for Sunday up to 6 for Saturday. */
  function Weekday(d: Date): (w: int)
    requires Valid(d)
    ensures 0 <= w < 7
  {
    (DayNumber(d) + 1) % 7
  }

  /** Anchors against the real calendar: 1970-01-01 was a Thursday, and
      2024-01-01 and 0001-01-01 were Mondays. */
  lemma WeekdayAnchors()
    ensures Weekday(Date(1970, 0, 1)) == 4
    ensures Weekday(Date(2024, 0, 1)) == 1
    ensures Weekday(Date(1, 0, 1)) == 1
  {
  }

  lemma YearStep(y: int)
    ensures DaysBeforeYear(y + 1) == DaysBeforeYear(y) + YearLength(y)
  {
    DivisionSteps(y);
    DivisibilityChain(y);
  }

  /** Each of the quotients by 4, 100 and 400 grows by one exactly at a
      multiple. */
  lemma DivisionSteps(y: int)
    ensures y / 4 - (y - 1) / 4 == if y % 4 == 0 then 1 else 0
    ensures y / 100 - (y - 1) / 100 == if y % 100 == 0 then 1 else 0
    ensures y / 400 - (y - 1) / 400 == if y % 400 == 0 then 1 else 0
  {
  }

  /** A multiple of 400 is one of 100, and a multiple of 100 one of 4. */
  lemma DivisibilityChain(y: int)
    ensures y % 400 == 0 ==> y % 100 == 0
    ensures y % 100 == 0 ==> y % 4 == 0
  {
    if y % 400 == 0 {
      var q := y / 400;
      assert y == 400 * q;
      assert y / 100 == 4 * q;
    }
    if y % 100 == 0 {
      var q := y / 100;
      assert y == 100 * q;
      assert y / 4 == 25 * q;
    }
  }

  /** The day after d has the next day number. */
  lemma NextDayNumber(d: Date)
    requires Valid(d)
    ensures DayNumber(NextDay(d)) == DayNumber(d) + 1
  {
    if d.day == DaysInMonth(d.year, d.month) && d.month == 11 {
      YearStep(d.year);
    }
  }

  lemma PrevDayNumber(d: Date)
    requires Valid(d)
    ensures DayNumber(PrevDay(d)) == DayNumber(d) - 1
  {
    NextDayNumber(PrevDay(d));
    NextPrevInverse(d);
  }

  lemma {:induction false} SubDaysNumber(d: Date, n: nat)
    requires Valid(d)
    ensures DayNumber(SubDays(d, n)) == DayNumber(d) - n
    decreases n
  {
    if n > 0 {
      PrevDayNumber(d);
      SubDaysNumber(PrevDay(d), n - 1);
    }
  }

  lemma {:induction false} AddDaysNumber(d: Date, n: nat)
    requires Valid(d)
    ensures DayNumber(AddDays(d, n)) == DayNumber(d) + n
    decreases n
  {
    if n > 0 {
      NextDayNumber(d);
      AddDaysNumber(NextDay(d), n - 1);
    }
  }

  lemma ModSevenDown(x: int)
    ensures (x - x % 7) % 7 == 0
  {
    assert x - x % 7 == 7 * (x / 7);
  }

  lemma ModSevenShift(x: int, n: int)
    ensures (x + n) % 7 == (x % 7 + n) % 7
  {
    assert x + n == 7 * (x / 7) + (x % 7 + n);
  }

  /** Going back as many days as d's weekday lands on a Sunday. */
  lemma BackToSunday(d: Date)
    requires Valid(d)
    ensures Weekday(SubDays(d, Weekday(d))) == 0
  {
    var w := Weekday(d);
    WeekdayRetreat(d, w);
    assert Weekday(SubDays(d, w)) == (w - w) % 7;
    assert (w - w) % 7 == 0;
  }

  /** Going back n days moves the weekday back by n, modulo 7. */
  lemma WeekdayRetreat(d: Date, n: nat)
    requires Valid(d)
    ensures Weekday(SubDays(d, n)) == (Weekday(d) - n) % 7
  {
    SubDaysNumber(d, n);
    ModSevenShift(DayNumber(d) + 1, -(n as int));
  }

  /** Going forward n days advances the weekday by n, modulo 7. */
  lemma WeekdayAdvance(d: Date, n: nat)
    requires Valid(d)
    ensures Weekday(AddDays(d, n)) == (Weekday(d) + n) % 7
  {
    AddDaysNumber(d, n);
    ModSevenShift(DayNumber(d) + 1, n);
  }

  // ---------------------------------------------------------------------------
  // The date part of toISOString

  function Pow10(n: nat): nat
  {
    if n == 0 then 1 else 10 * Pow10(n - 1)
  }

  function DigitChar(k: int): (c: char)
    requires 0 <= k < 10
    ensures '0' <= c <= '9'
  {
    ('0' as int + k) as char
  }

  /** The last `width` decimal digits of n, zero-padded on the left. */
  function Pad(n: nat, width: nat): (s: string)
    ensures |s| == width
  {
    if width == 0 then "" else Pad(n / 10, width - 1) + [DigitChar(n % 10)]
  }

  /** A padded number is all digits. */
  lemma {:induction false} PadDigits(n: nat, width: nat)
    ensures forall i :: 0 <= i < width ==> '0' <= Pad(n, width)[i] <= '9'
  {
    if width > 0 {
      PadDigits(n / 10, width - 1);
      assert forall i :: 0 <= i < width - 1 ==> Pad(n, width)[i] == Pad(n / 10, width - 1)[i];
    }
  }

  /** Numbers below 10^width have distinct padded forms. */
  lemma {:induction false} PadInjective(a: nat, b: nat, width: nat)
    requires a < Pow10(width) && b < Pow10(width)
    requires Pad(a, width) == Pad(b, width)
    ensures a == b
  {
    if width > 0 {
      var pa := Pad(a, width);
      var pb := Pad(b, width);
      assert pa[width - 1] == pb[width - 1];
      assert a % 10 == b % 10;
      assert pa[..width - 1] == Pad(a / 10, width - 1);
      assert pb[..width - 1] == Pad(b / 10, width - 1);
      PadInjective(a / 10, b / 10, width - 1);
    } else {
      assert Pow10(0) == 1;
    }
  }

  /** The year as toISOString writes it: four digits for years 0 to 9999,
      otherwise a sign and six digits. */
  function IsoYear(y: int): (s: string)
    ensures |s| == if 0 <= y <= 9999 then 4 else 7
  {
    if 0 <= y <= 9999 then Pad(y, 4)
    else (if y < 0 then "-" else "+") + Pad(if y < 0 then -y else y, 6)
  }

  /** YYYY-MM-DD: the extended calendar date format of ISO 8601 (section
      4.1.2.2 of ISO 8601:2004), with the expanded year for years outside
      0 to 9999. */
  function IsoDate(d: Date): (s: string)
    requires Valid(d)
    ensures |s| == |IsoYear(d.year)| + 6
  {
    IsoYear(d.year) + "-" + Pad(d.month + 1, 2) + "-" + Pad(d.day, 2)
  }

  /** A date string holds no 'T', so it is the part before the time. */
  lemma IsoDateHasNoT(d: Date)
    requires Valid(d)
    ensures 'T' !in IsoDate(d)
  {
    PadDigits(d.month + 1, 2);
    PadDigits(d.day, 2);
    if 0 <= d.year <= 9999 {
      PadDigits(d.year, 4);
    } else {
      PadDigits(if d.year < 0 then -d.year else d.year, 6);
    }
    var yt := IsoYear(d.year);
    assert forall i :: 0 <= i < |yt| ==> yt[i] != 'T';
  }

  /** toISOString of the date at midnight UTC. */
  function ToIsoString(d: Date): string
    requires Valid(d)
  {
    IsoDate(d) + "T00:00:00.000Z"
  }

  /** `toISOString().split("T")[0]`. */
  function DateString(d: Date): string
    requires Valid(d)
  {
    SplitOn(ToIsoString(d), 'T')[0]
  }

  /** The date string of a date is exactly its YYYY-MM-DD form. */
  lemma DateStringIsIsoDate(d: Date)
    requires Valid(d)
    ensures DateString(d) == IsoDate(d)
  {
    assert ToIsoString(d) == IsoDate(d) + ['T'] + "00:00:00.000Z";
    IsoDateHasNoT(d);
    SplitOnAppend(IsoDate(d), 'T', "00:00:00.000Z");
    SplitOnNoSep(IsoDate(d), 'T');
  }

  lemma IsoYearInjective(a: int, b: int)
    requires -1000000 < a < 1000000 && -1000000 < b < 1000000
    requires IsoYear(a) == IsoYear(b)
    ensures a == b
  {
    assert Pow10(4) == 10000 && Pow10(6) == 1000000;
    if 0 <= a <= 9999 {
      PadInjective(a, b, 4);
    } else {
      var sa, sb := IsoYear(a), IsoYear(b);
      assert sa[0] == sb[0];
      assert sa[1..] == Pad(if a < 0 then -a else a, 6);
      assert sb[1..] == Pad(if b < 0 then -b else b, 6);
      PadInjective(if a < 0 then -a else a, if b < 0 then -b else b, 6);
    }
  }

  /** Where the year, month and day sit in the date string. */
  lemma IsoDateParts(d: Date)
    requires Valid(d)
    ensures var s, n := IsoDate(d), |IsoYear(d.year)|;
      s[..n] == IsoYear(d.year) && s[n + 1..n + 3] == Pad(d.month + 1, 2) && s[n + 4..] == Pad(d.day, 2)
  {
  }

  /** Two dates of the JavaScript range with the same date string are the same date. */
  lemma DateStringInjective(a: Date, b: Date)
    requires Valid(a) && Valid(b)
    requires -1000000 < a.year < 1000000 && -1000000 < b.year < 1000000
    requires DateString(a) == DateString(b)
    ensures a == b
  {
    DateStringIsIsoDate(a);
    DateStringIsIsoDate(b);
    IsoDateParts(a);
    IsoDateParts(b);
    assert |IsoYear(a.year)| == |IsoYear(b.year)|;
    IsoYearInjective(a.year, b.year);
    assert Pow10(2) == 100;
    PadInjective(a.month + 1, b.month + 1, 2);
    PadInjective(a.day, b.day, 2);
  }
}
