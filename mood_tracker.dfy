/** The mood tracker page (frontend/app/mood-tracker/page.tsx): the 42-cell
    month grid with each day's logged mood, and the summary statistics over
    the mood entries (mean, per-level distribution, share of happy days). */
module MoodTracker {
  import opened Wrappers
  import opened Lists
  import opened Calendar

  /** One logged day: a YYYY-MM-DD date, a mood level 1..5 and a note. */
  datatype MoodEntry = MoodEntry(date: string, mood: int, note: string)

  /** One cell of the month grid. */
  datatype CalendarDay = CalendarDay(
    date: Date,
    dateString: string,
    isCurrentMonth: bool,
    isToday: bool,
    mood: Option<int>,
    note: Option<string>)

  /** One of the five mood levels the page knows. */
  datatype MoodEmoji = MoodEmoji(value: int, emoji: string, name: string, color: string)

  const MoodEmojis := [
    MoodEmoji(1, "\U{1F622}", "Very Sad", "bg-red-500"),
    MoodEmoji(2, "\U{1F614}", "Sad", "bg-orange-500"),
    MoodEmoji(3, "\U{1F610}", "Neutral", "bg-yellow-500"),
    MoodEmoji(4, "\U{1F642}", "Happy", "bg-green-500"),
    MoodEmoji(5, "\U{1F60A}", "Very Happy", "bg-blue-500")
  ]

  /** The number of cells: six weeks. */
  const GridSize := 42

  // ---------------------------------------------------------------------------
  // Looking things up

  /** The test `m => m.date === date`. */
  function OnDate(date: string): MoodEntry -> bool
  {
    (m: MoodEntry) => m.date == date
  }

  /** The test `m => m.value === mood`. */
  function HasValue(mood: int): MoodEmoji -> bool
  {
    (e: MoodEmoji) => e.value == mood
  }

  /** getMoodEmoji: the emoji record of a mood level, none outside 1..5. */
  function GetMoodEmoji(mood: int): (r: Option<MoodEmoji>)
    ensures r.Some? <==> 1 <= mood <= 5
    ensures r.Some? ==> r.value == MoodEmojis[mood - 1]
  {
    var found := Find(MoodEmojis, HasValue(mood));
    assert 1 <= mood <= 5 ==> found == Some(MoodEmojis[mood - 1]) by {
      if 1 <= mood <= 5 {
        FindIsFirst(MoodEmojis, HasValue(mood), mood - 1);
      }
    }
    found
  }

  /** The emoji a cell shows: only for a truthy mood (0 and none show nothing). */
  function CellEmoji(day: CalendarDay): (r: Option<MoodEmoji>)
    ensures r.Some? <==> day.mood.Some? && 1 <= day.mood.value <= 5
    ensures r.Some? ==> r.value.value == day.mood.value
  {
    if day.mood.Some? && day.mood.value != 0 then GetMoodEmoji(day.mood.value) else None
  }

  // ---------------------------------------------------------------------------
  // generateCalendarDays

  /** The year `new Date(currentYear, currentMonth, 1)` gives its date: the
      Date constructor of ECMA-262 (MakeFullYear) reads a year in 0..99 as
      1900 + year, and every other year as it is. */
  function GridYear(today: Date): (y: int)
    ensures 0 <= today.year <= 99 ==> y == 1900 + today.year
    ensures !(0 <= today.year <= 99) ==> y == today.year
  {
    if 0 <= today.year <= 99 then 1900 + today.year else today.year
  }

  /** firstDay: the first day of today's month, in the constructor's year. */
  function FirstOfMonth(today: Date): Date
  {
    Date(GridYear(today), today.month, 1)
  }

  /** startDate: firstDay with `setDate(getDate() - getDay())` applied. */
  function GridStart(today: Date): (s: Date)
    requires Valid(today)
    ensures Valid(s)
  {
    var first := FirstOfMonth(today);
    SetDate(first, first.day - Weekday(first))
  }

  /** The date of cell i: a copy of startDate with `setDate(startDate.getDate() + i)`. */
  function CellDateAt(today: Date, i: nat): (d: Date)
    requires Valid(today)
    ensures Valid(d)
  {
    var start := GridStart(today);
    SetDate(start, start.day + i)
  }

  /** The cell the loop body builds for a date. */
  function MakeCell(date: Date, today: Date, entries: seq<MoodEntry>): CalendarDay
    requires Valid(date) && Valid(today)
  {
    var dateString := DateString(date);
    var entry := Find(entries, OnDate(dateString));
    CalendarDay(
      date,
      dateString,
      date.month == today.month,
      dateString == DateString(today),
      if entry.Some? then Some(entry.value.mood) else None,
      if entry.Some? then Some(entry.value.note) else None)
  }

  /** Cell i of the grid. */
  function GridCell(today: Date, entries: seq<MoodEntry>, i: nat): CalendarDay
    requires Valid(today)
  {
    MakeCell(CellDateAt(today, i), today, entries)
  }

  /** generateCalendarDays for the given current date: 42 cells, cell i
      built for the date i days after the Sunday on or before the first of
      the month. */
  method GenerateCalendarDays(today: Date, entries: seq<MoodEntry>) returns (days: seq<CalendarDay>)
    requires Valid(today)
    ensures |days| == GridSize
    ensures forall i :: 0 <= i < GridSize ==> days[i] == GridCell(today, entries, i)
  {
    days := [];
    // firstDay is the first of today's month; startDate is a copy of it
    // moved back by firstDay.getDay() days
    var startDate := GridStart(today);
    for i := 0 to GridSize
      invariant |days| == i
      invariant forall k :: 0 <= k < i ==> days[k] == GridCell(today, entries, k)
    {
      var cell := BuildCell(today, entries, startDate, i);
      days := days + [cell];
    }
  }

  /** The body of the loop for index i. */
  method BuildCell(today: Date, entries: seq<MoodEntry>, startDate: Date, i: nat) returns (cell: CalendarDay)
    requires Valid(today) && startDate == GridStart(today)
    ensures cell == GridCell(today, entries, i)
  {
    var date := startDate;
    date := SetDate(date, startDate.day + i);
    assert date == CellDateAt(today, i);
    var dateString := DateString(date);
    var moodEntry := Find(entries, OnDate(dateString));
    cell := CalendarDay(
      date,
      dateString,
      date.month == today.month,
      dateString == DateString(today),
      if moodEntry.Some? then Some(moodEntry.value.mood) else None,
      if moodEntry.Some? then Some(moodEntry.value.note) else None);
    assert cell == MakeCell(date, today, entries);
  }

  // ---------------------------------------------------------------------------
  // What the grid contains

  /** The month before and the month after today's. */
  function PrevMonth(today: Date): Date
  {
    if today.month == 0 then Date(GridYear(today) - 1, 11, 1) else Date(GridYear(today), today.month - 1, 1)
  }

  function NextMonth(today: Date): Date
  {
    if today.month == 11 then Date(GridYear(today) + 1, 0, 1) else Date(GridYear(today), today.month + 1, 1)
  }

  /** The offset of day 1: its weekday. */
  function Offset(today: Date): int
    requires Valid(today)
  {
    Weekday(FirstOfMonth(today))
  }

  /** The grid starts `Offset` days before the first of the month. */
  lemma GridStartIsSubDays(today: Date)
    requires Valid(today)
    ensures GridStart(today) == SubDays(FirstOfMonth(today), Offset(today))
    ensures Offset(today) > 0 ==>
      GridStart(today) == Date(PrevMonth(today).year, PrevMonth(today).month,
                               DaysInMonth(PrevMonth(today).year, PrevMonth(today).month) - Offset(today) + 1)
  {
    var first := FirstOfMonth(today);
    var w := Offset(today);
    if w > 0 {
      var p := PrevMonth(today);
      assert PrevDay(first) == Date(p.year, p.month, DaysInMonth(p.year, p.month));
      SubDaysInMonth(PrevDay(first), w - 1);
    }
  }

  /** Cell i holds the date i days after the grid's start. */
  lemma CellIsStartPlus(today: Date, i: nat)
    requires Valid(today)
    ensures CellDateAt(today, i) == AddDays(GridStart(today), i)
  {
    SetDateIsAddDays(GridStart(today), i);
  }

  /** w days after the grid's start is the first of the month. */
  lemma StartPlusOffset(today: Date)
    requires Valid(today)
    ensures AddDays(GridStart(today), Offset(today)) == FirstOfMonth(today)
  {
    var w := Offset(today);
    var start := GridStart(today);
    GridStartIsSubDays(today);
    if w > 0 {
      var p := PrevMonth(today);
      AddDaysInMonth(start, w - 1);
      AddDaysLast(start, w - 1);
      assert AddDays(start, w - 1) == Date(p.year, p.month, DaysInMonth(p.year, p.month));
    }
  }

  /** The date of each cell: the tail of the previous month, then every day of
      the month in order, then the head of the next month. */
  lemma CellDate(today: Date, i: nat)
    requires Valid(today) && i < GridSize
    ensures var w, n, d := Offset(today), DaysInMonth(GridYear(today), today.month), CellDateAt(today, i);
      && (i < w ==> d == Date(PrevMonth(today).year, PrevMonth(today).month,
                             DaysInMonth(PrevMonth(today).year, PrevMonth(today).month) - w + 1 + i))
      && (w <= i < w + n ==> d == Date(GridYear(today), today.month, i - w + 1))
      && (w + n <= i ==> d == Date(NextMonth(today).year, NextMonth(today).month, i - w - n + 1))
  {
    var w := Offset(today);
    var n := DaysInMonth(GridYear(today), today.month);
    if i < w {
      CellBeforeMonth(today, i);
    } else if i < w + n {
      CellInMonth(today, i);
    } else {
      CellAfterMonth(today, i);
    }
  }

  /** The cells before the offset hold the previous month's last days. */
  lemma CellBeforeMonth(today: Date, i: nat)
    requires Valid(today) && i < Offset(today)
    ensures CellDateAt(today, i) == Date(PrevMonth(today).year, PrevMonth(today).month,
      DaysInMonth(PrevMonth(today).year, PrevMonth(today).month) - Offset(today) + 1 + i)
  {
    CellIsStartPlus(today, i);
    GridStartIsSubDays(today);
    AddDaysInMonth(GridStart(today), i);
  }

  /** From the offset on, cell i is day 1 moved i - offset days. */
  lemma CellFromFirst(today: Date, i: nat)
    requires Valid(today) && Offset(today) <= i
    ensures CellDateAt(today, i) == AddDays(FirstOfMonth(today), i - Offset(today))
  {
    var w := Offset(today);
    CellIsStartPlus(today, i);
    StartPlusOffset(today);
    AddDaysSplit(GridStart(today), w, i - w);
  }

  /** The month's days follow in order. */
  lemma CellInMonth(today: Date, i: nat)
    requires Valid(today) && Offset(today) <= i < Offset(today) + DaysInMonth(GridYear(today), today.month)
    ensures CellDateAt(today, i) == Date(GridYear(today), today.month, i - Offset(today) + 1)
  {
    CellFromFirst(today, i);
    AddDaysInMonth(FirstOfMonth(today), i - Offset(today));
  }

  /** After the month come the next month's first days. */
  lemma CellAfterMonth(today: Date, i: nat)
    requires Valid(today) && i < GridSize
    requires Offset(today) + DaysInMonth(GridYear(today), today.month) <= i
    ensures var n := DaysInMonth(GridYear(today), today.month);
      CellDateAt(today, i) == Date(NextMonth(today).year, NextMonth(today).month, i - Offset(today) - n + 1)
  {
    var w := Offset(today);
    var n := DaysInMonth(GridYear(today), today.month);
    var first := FirstOfMonth(today);
    var k := i - w - n + 1;
    CellFromFirst(today, i);
    assert i - w == (n - 1) + k;
    assert CellDateAt(today, i) == AddDays(first, (n - 1) + k);
    AddDaysSplit(first, n - 1, k);
    AddDaysInMonth(first, n - 1);
    var last := Date(GridYear(today), today.month, n);
    assert AddDays(first, (n - 1) + k) == AddDays(last, k);
    var nm := NextMonth(today);
    assert NextDay(last) == nm;
    assert AddDays(last, k) == AddDays(nm, k - 1);
    AddDaysInMonth(nm, k - 1);
    assert AddDays(nm, k - 1) == Date(nm.year, nm.month, k);
  }

  /** The first cell is a Sunday, at most six days before the first of the
      month, and cell Offset is the first of the month. */
  lemma GridStartsOnSunday(today: Date)
    requires Valid(today)
    ensures Weekday(CellDateAt(today, 0)) == 0
    ensures 0 <= Offset(today) <= 6
    ensures CellDateAt(today, Offset(today)) == FirstOfMonth(today)
  {
    GridStartIsSubDays(today);
    CellIsStartPlus(today, 0);
    BackToSunday(FirstOfMonth(today));
    CellIsStartPlus(today, Offset(today));
    StartPlusOffset(today);
  }

  /** Consecutive cells are consecutive days, and cell i falls on weekday
      i mod 7, so each column of the grid is one weekday. */
  lemma GridConsecutive(today: Date, i: nat)
    requires Valid(today)
    ensures CellDateAt(today, i + 1) == NextDay(CellDateAt(today, i))
    ensures Weekday(CellDateAt(today, i)) == i % 7
  {
    CellIsStartPlus(today, i);
    CellIsStartPlus(today, i + 1);
    AddDaysLast(GridStart(today), i);
    GridStartsOnSunday(today);
    CellIsStartPlus(today, 0);
    WeekdayAdvance(GridStart(today), i);
  }

  /** Every day of the month appears in the grid, at index Offset + day - 1. */
  lemma MonthFitsInGrid(today: Date, day: int)
    requires Valid(today) && 1 <= day <= DaysInMonth(GridYear(today), today.month)
    ensures Offset(today) + day - 1 < GridSize
    ensures CellDateAt(today, Offset(today) + day - 1) == Date(GridYear(today), today.month, day)
  {
    CellDate(today, Offset(today) + day - 1);
  }

  /** A cell is in the current month exactly when it lies between the
      first and the last day of the month. */
  lemma InMonthExactly(today: Date, entries: seq<MoodEntry>, i: nat)
    requires Valid(today) && i < GridSize
    ensures GridCell(today, entries, i).isCurrentMonth <==>
      Offset(today) <= i < Offset(today) + DaysInMonth(GridYear(today), today.month)
  {
    CellDate(today, i);
  }

  /** A cell is marked today exactly when its date is today. Outside the
      years 0..99 that is the one cell Offset + today.day - 1; in them the
      grid shows the month of 1900 + year, and no cell is today. */
  lemma TodayExactly(today: Date, entries: seq<MoodEntry>, i: nat)
    requires Valid(today) && MinYear <= today.year <= MaxYear && i < GridSize
    ensures GridCell(today, entries, i).isToday <==> CellDateAt(today, i) == today
    ensures !(0 <= today.year <= 99) ==>
      (GridCell(today, entries, i).isToday <==> i == Offset(today) + today.day - 1)
    ensures 0 <= today.year <= 99 ==> !GridCell(today, entries, i).isToday
  {
    var d := CellDateAt(today, i);
    CellDate(today, i);
    if DateString(d) == DateString(today) {
      DateStringInjective(d, today);
    }
  }

  /** A cell's date string is its YYYY-MM-DD date; the cell carries a mood and
      a note exactly when some entry has that date string, and then they are
      those of the first such entry. */
  lemma CellMood(today: Date, entries: seq<MoodEntry>, i: nat)
    requires Valid(today)
    ensures var c := GridCell(today, entries, i);
      && c.dateString == IsoDate(c.date)
      && (c.mood.Some? <==> c.note.Some?)
      && (c.mood.None? <==> forall k :: 0 <= k < |entries| ==> entries[k].date != c.dateString)
      && (forall k ::
            (0 <= k < |entries| && entries[k].date == c.dateString &&
             forall j :: 0 <= j < k ==> entries[j].date != c.dateString) ==>
            c.mood == Some(entries[k].mood) && c.note == Some(entries[k].note))
  {
    var c := GridCell(today, entries, i);
    DateStringIsIsoDate(c.date);
    forall k | 0 <= k < |entries| && entries[k].date == c.dateString &&
               (forall j :: 0 <= j < k ==> entries[j].date != c.dateString)
      ensures c.mood == Some(entries[k].mood) && c.note == Some(entries[k].note)
    {
      FindIsFirst(entries, OnDate(c.dateString), k);
    }
  }

  // ---------------------------------------------------------------------------
  // Statistics

  /** `moodData.reduce((sum, entry) => sum + entry.mood, 0)`. */
  function SumMoods(entries: seq<MoodEntry>): int
  {
    if entries == [] then 0 else SumMoods(entries[..|entries| - 1]) + entries[|entries| - 1].mood
  }

  /** averageMood: the sum over the count; none (JavaScript's NaN) without entries. */
  function AverageMood(entries: seq<MoodEntry>): (r: Option<real>)
    ensures r.None? <==> entries == []
    ensures r.Some? ==> r.value * (|entries| as real) == SumMoods(entries) as real
  {
    if |entries| == 0 then None else Some(SumMoods(entries) as real / |entries| as real)
  }

  /** Every mood is on the page's 1..5 scale. */
  predicate AllLevels(entries: seq<MoodEntry>)
  {
    forall k :: 0 <= k < |entries| ==> 1 <= entries[k].mood <= 5
  }

  lemma {:induction false} SumBounds(entries: seq<MoodEntry>)
    requires AllLevels(entries)
    ensures |entries| <= SumMoods(entries) <= 5 * |entries|
  {
    if entries != [] {
      var p := entries[..|entries| - 1];
      assert forall k :: 0 <= k < |p| ==> p[k] == entries[k];
      SumBounds(p);
    }
  }

  /** lo <= s / n <= hi from lo * n <= s <= hi * n. */
  lemma FractionBounds(s: real, n: real, lo: real, hi: real)
    requires n > 0.0 && lo * n <= s <= hi * n
    ensures lo <= s / n <= hi
  {
    var q := s / n;
    assert q * n == s;
  }

  /** With moods on the 1..5 scale the average lies between 1 and 5. */
  lemma AverageInRange(entries: seq<MoodEntry>)
    requires AllLevels(entries) && entries != []
    ensures 1.0 <= AverageMood(entries).value <= 5.0
  {
    SumBounds(entries);
    FractionBounds(SumMoods(entries) as real, |entries| as real, 1.0, 5.0);
  }

  /** The test `m => m.mood === level`. */
  function AtLevel(level: int): MoodEntry -> bool
  {
    (m: MoodEntry) => m.mood == level
  }

  /** The test `m => m.mood >= 4`. */
  function IsHappy(): MoodEntry -> bool
  {
    (m: MoodEntry) => m.mood >= 4
  }

  /** `moodData.filter(m => m.mood === level).length`. */
  function LevelCount(entries: seq<MoodEntry>, level: int): nat
  {
    |Filter(entries, AtLevel(level))|
  }

  /** The level counts of the five levels, added up. */
  function DistributionTotal(entries: seq<MoodEntry>): nat
  {
    LevelCount(entries, 1) + LevelCount(entries, 2) + LevelCount(entries, 3) + LevelCount(entries, 4) + LevelCount(entries, 5)
  }

  /** When all moods are on the 1..5 scale, the distribution counts every entry once. */
  lemma {:induction false} DistributionCoversAll(entries: seq<MoodEntry>)
    requires AllLevels(entries)
    ensures DistributionTotal(entries) == |entries|
  {
    if entries != [] {
      var p := entries[..|entries| - 1];
      assert forall k :: 0 <= k < |p| ==> p[k] == entries[k];
      DistributionCoversAll(p);
    }
  }

  /** The bar's percentage `(count / moodData.length) * 100`; none (NaN) without entries. */
  function Percentage(count: nat, total: nat): (r: Option<real>)
    ensures r.None? <==> total == 0
    ensures r.Some? ==> r.value * (total as real) == (count as real) * 100.0
  {
    if total == 0 then None else Some((count as real / total as real) * 100.0)
  }

  lemma AddFractions(a: real, b: real, n: real)
    requires n != 0.0
    ensures a / n + b / n == (a + b) / n
  {
  }

  /** Five fractions of the same whole, as percentages, add up to 100. */
  lemma FivePercent(c1: real, c2: real, c3: real, c4: real, c5: real, n: real)
    requires n > 0.0 && c1 + c2 + c3 + c4 + c5 == n
    ensures (c1 / n) * 100.0 + (c2 / n) * 100.0 + (c3 / n) * 100.0 + (c4 / n) * 100.0 + (c5 / n) * 100.0 == 100.0
  {
    AddFractions(c1, c2, n);
    AddFractions(c1 + c2, c3, n);
    AddFractions(c1 + c2 + c3, c4, n);
    AddFractions(c1 + c2 + c3 + c4, c5, n);
    assert n / n == 1.0;
  }

  /** The five percentages of the distribution add up to 100. */
  lemma PercentagesSumTo100(entries: seq<MoodEntry>)
    requires AllLevels(entries) && entries != []
    ensures var n := |entries|;
      Percentage(LevelCount(entries, 1), n).value + Percentage(LevelCount(entries, 2), n).value +
      Percentage(LevelCount(entries, 3), n).value + Percentage(LevelCount(entries, 4), n).value +
      Percentage(LevelCount(entries, 5), n).value == 100.0
  {
    DistributionCoversAll(entries);
    FivePercent(LevelCount(entries, 1) as real, LevelCount(entries, 2) as real, LevelCount(entries, 3) as real,
                LevelCount(entries, 4) as real, LevelCount(entries, 5) as real, |entries| as real);
  }

  /** `moodData.filter(m => m.mood >= 4).length`. */
  function HappyCount(entries: seq<MoodEntry>): nat
  {
    |Filter(entries, IsHappy())|
  }

  /** On the 1..5 scale the happy days are exactly the days at level 4 or 5. */
  lemma {:induction false} HappyIsFourOrFive(entries: seq<MoodEntry>)
    requires AllLevels(entries)
    ensures HappyCount(entries) == LevelCount(entries, 4) + LevelCount(entries, 5)
  {
    if entries != [] {
      var p := entries[..|entries| - 1];
      assert forall k :: 0 <= k < |p| ==> p[k] == entries[k];
      HappyIsFourOrFive(p);
    }
  }

  /** The happy-days share, before rounding, lies between 0 and 100. */
  lemma HappyShareInRange(entries: seq<MoodEntry>)
    requires entries != []
    ensures 0.0 <= Percentage(HappyCount(entries), |entries|).value <= 100.0
  {
    var n := |entries| as real;
    var h := HappyCount(entries) as real;
    FractionBounds(h, n, 0.0, 1.0);
  }
}
