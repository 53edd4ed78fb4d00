/** The mood-history aggregation of the dashboard endpoint
    (backend/dashboard.py): one pass over a user's mood entries, oldest first,
    that counts them, tallies each mood, collects the distinct days, follows
    the streak of consecutive days, keeps the trend, and then grants the
    achievements. Dates are day numbers: consecutive calendar days differ by 1. */
module Dashboard {

  /** A mood document reduced to what the aggregation reads: the calendar day
      of its timestamp, and its mood value. */
  datatype MoodRecord = MoodRecord(day: int, mood: string)

  /** One point of the trend chart. */
  datatype TrendPoint = TrendPoint(day: int, mood: string)

  datatype DashboardData = DashboardData(
    totalMoods: nat,
    activeDays: nat,
    longestStreak: nat,
    moodCounts: map<string, nat>,
    moodTrend: seq<TrendPoint>,
    achievements: seq<string>)

  const FirstMood := "First Mood Logged"
  const WeekStreak := "7-Day Mood Streak"
  const TenHappy := "10 Happy Days"
  const ThirtyDays := "30 Days of Tracking"

  /** The achievements in the order they are checked. */
  const AllAchievements := [FirstMood, WeekStreak, TenHappy, ThirtyDays]

  /** How many points the trend chart keeps. */
  const TrendWindow := 30

  // ---------------------------------------------------------------------------
  // The state after a prefix of the entries, as functions

  /** The streak counter after the last entry of ms: one more than before when
      the day is exactly one after the previous entry's day, otherwise 1 (a
      second entry on the same day, a gap, or a step back all reset it). */
  function Streak(ms: seq<MoodRecord>): nat
  {
    if ms == [] then 0
    else if |ms| >= 2 && ms[|ms| - 1].day - ms[|ms| - 2].day == 1 then Streak(ms[..|ms| - 1]) + 1
    else 1
  }

  /** The largest value the streak counter has taken over ms. */
  function Longest(ms: seq<MoodRecord>): nat
  {
    if ms == [] then 0
    else
      var before := Longest(ms[..|ms| - 1]);
      if Streak(ms) > before then Streak(ms) else before
  }

  /** The per-mood tally after ms. */
  function Counts(ms: seq<MoodRecord>): map<string, nat>
  {
    if ms == [] then map[]
    else
      var c := Counts(ms[..|ms| - 1]);
      var m := ms[|ms| - 1].mood;
      c[m := Get(c, m) + 1]
  }

  /** The set of days that have at least one entry in ms. */
  function Days(ms: seq<MoodRecord>): set<int>
  {
    if ms == [] then {} else Days(ms[..|ms| - 1]) + {ms[|ms| - 1].day}
  }

  /** The full trend: one point per entry, in input order. */
  function Trend(ms: seq<MoodRecord>): (t: seq<TrendPoint>)
    ensures |t| == |ms|
    ensures forall i :: 0 <= i < |ms| ==> t[i] == TrendPoint(ms[i].day, ms[i].mood)
  {
    if ms == [] then [] else Trend(ms[..|ms| - 1]) + [TrendPoint(ms[|ms| - 1].day, ms[|ms| - 1].mood)]
  }

  /** Python's t[-30:]: the last 30 points, or all of them when there are fewer. */
  function LastWindow(t: seq<TrendPoint>): (r: seq<TrendPoint>)
    ensures |r| == if |t| < TrendWindow then |t| else TrendWindow
    ensures r == t[|t| - |r|..]
  {
    if |t| <= TrendWindow then t else t[|t| - TrendWindow..]
  }

  /** The achievement rules, checked in a fixed order. */
  function Achievements(total: nat, longest: nat, counts: map<string, nat>): (a: seq<string>)
    ensures FirstMood in a <==> total >= 1
    ensures WeekStreak in a <==> longest >= 7
    ensures TenHappy in a <==> "happy" in counts && counts["happy"] >= 10
    ensures ThirtyDays in a <==> total >= 30
  {
    (if total >= 1 then [FirstMood] else [])
    + (if longest >= 7 then [WeekStreak] else [])
    + (if "happy" in counts && counts["happy"] >= 10 then [TenHappy] else [])
    + (if total >= 30 then [ThirtyDays] else [])
  }

  /** Position of an achievement in the fixed order. */
  function IndexOf(x: string): nat
  {
    if x == FirstMood then 0 else if x == WeekStreak then 1 else if x == TenHappy then 2 else 3
  }

  /** What one more entry does to each piece of the state. */
  lemma PrefixStep(moods: seq<MoodRecord>, i: nat)
    requires i < |moods|
    ensures var p := moods[..i]; var q := moods[..i + 1]; var r := moods[i];
      && Counts(q) == Counts(p)[r.mood := (if r.mood in Counts(p) then Counts(p)[r.mood] else 0) + 1]
      && Days(q) == Days(p) + {r.day}
      && Trend(q) == Trend(p) + [TrendPoint(r.day, r.mood)]
      && Streak(q) == (if i >= 1 && r.day - moods[i - 1].day == 1 then Streak(p) + 1 else 1)
      && Longest(q) == (if Streak(q) > Longest(p) then Streak(q) else Longest(p))
  {
    var q := moods[..i + 1];
    assert q[..i] == moods[..i];
    assert q[i] == moods[i];
    if i >= 1 {
      assert q[i - 1] == moods[i - 1];
    }
  }

  /** Only the four known achievements are granted, each at most once, in
      the fixed order of the checks. */
  lemma AchievementsOrdered(total: nat, longest: nat, counts: map<string, nat>)
    ensures var a := Achievements(total, longest, counts);
      (forall x :: x in a ==> x in AllAchievements) &&
      (forall i, j :: 0 <= i < j < |a| ==> IndexOf(a[i]) < IndexOf(a[j]))
  {
    PositionsInOrder();
  }

  /** Each achievement sits at its own position: the names differ already in
      their first character. */
  lemma PositionsInOrder()
    ensures IndexOf(FirstMood) == 0 && IndexOf(WeekStreak) == 1
    ensures IndexOf(TenHappy) == 2 && IndexOf(ThirtyDays) == 3
  {
    assert FirstMood[0] == 'F' && WeekStreak[0] == '7' && TenHappy[0] == '1' && ThirtyDays[0] == '3';
  }

  // ---------------------------------------------------------------------------
  // get_dashboard

  /** get_dashboard's aggregation over the user's entries, which the database
      returns sorted by timestamp, oldest first. */
  method GetDashboard(moods: seq<MoodRecord>) returns (d: DashboardData)
    ensures d.totalMoods == |moods|
    ensures d.moodCounts == Counts(moods)
    ensures d.activeDays == |Days(moods)|
    ensures d.longestStreak == Longest(moods)
    ensures d.moodTrend == LastWindow(Trend(moods))
    ensures d.achievements == Achievements(|moods|, Longest(moods), Counts(moods))
  {
    var total := |moods|;
    var moodCounts: map<string, nat> := map[];
    var streak := 0;
    var longestStreak := 0;
    var prevDay: int := 0;
    var hasPrev := false;
    var activeDays: set<int> := {};
    var moodTrend: seq<TrendPoint> := [];
    for i := 0 to |moods|
      invariant moodCounts == Counts(moods[..i])
      invariant activeDays == Days(moods[..i])
      invariant moodTrend == Trend(moods[..i])
      invariant streak == Streak(moods[..i])
      invariant longestStreak == Longest(moods[..i])
      invariant hasPrev <==> i > 0
      invariant hasPrev ==> prevDay == moods[i - 1].day
    {
      PrefixStep(moods, i);
      var date := moods[i].day;
      activeDays := activeDays + {date};
      moodTrend := moodTrend + [TrendPoint(date, moods[i].mood)];
      var moodType := moods[i].mood;
      moodCounts := moodCounts[moodType := (if moodType in moodCounts then moodCounts[moodType] else 0) + 1];
      if hasPrev && date - prevDay == 1 {
        streak := streak + 1;
      } else {
        streak := 1;
      }
      prevDay, hasPrev := date, true;
      if streak > longestStreak {
        longestStreak := streak;
      }
      assert streak == Streak(moods[..i + 1]);
      assert longestStreak == Longest(moods[..i + 1]);
      assert moodCounts == Counts(moods[..i + 1]);
    }
    assert moods[..|moods|] == moods;
    assert moodCounts == Counts(moods) && longestStreak == Longest(moods);
    assert activeDays == Days(moods) && moodTrend == Trend(moods);

    var achievements := GrantAchievements(total, longestStreak, moodCounts);
    d := DashboardData(total, |activeDays|, longestStreak, moodCounts, LastWindow(moodTrend), achievements);
  }

  /** The achievement checks at the end of get_dashboard, in their order. */
  method GrantAchievements(total: nat, longestStreak: nat, moodCounts: map<string, nat>)
    returns (achievements: seq<string>)
    ensures achievements == Achievements(total, longestStreak, moodCounts)
  {
    achievements := [];
    if total >= 1 {
      achievements := achievements + [FirstMood];
    }
    assert achievements == (if total >= 1 then [FirstMood] else []);
    ghost var first := achievements;
    if longestStreak >= 7 {
      achievements := achievements + [WeekStreak];
    }
    assert achievements == first + (if longestStreak >= 7 then [WeekStreak] else []);
    ghost var second := achievements;
    if "happy" in moodCounts && moodCounts["happy"] >= 10 {
      achievements := achievements + [TenHappy];
    }
    assert achievements == second + (if "happy" in moodCounts && moodCounts["happy"] >= 10 then [TenHappy] else []);
    ghost var third := achievements;
    if total >= 30 {
      achievements := achievements + [ThirtyDays];
    }
    assert achievements == third + (if total >= 30 then [ThirtyDays] else []);
  }

  // ---------------------------------------------------------------------------
  // Properties of the aggregation

  /** Number of entries of ms with mood m. */
  function Occurrences(ms: seq<MoodRecord>, m: string): nat
  {
    if ms == [] then 0
    else Occurrences(ms[..|ms| - 1], m) + (if ms[|ms| - 1].mood == m then 1 else 0)
  }

  /** The tally has a key exactly for each mood that occurs, and its value is
      the number of entries with that mood. */
  lemma {:induction false} CountsAreOccurrences(ms: seq<MoodRecord>, m: string)
    ensures m in Counts(ms) <==> exists i :: 0 <= i < |ms| && ms[i].mood == m
    ensures m in Counts(ms) ==> Counts(ms)[m] == Occurrences(ms, m)
    ensures m !in Counts(ms) ==> Occurrences(ms, m) == 0
  {
    if ms != [] {
      var p := ms[..|ms| - 1];
      CountsAreOccurrences(p, m);
      if exists i :: 0 <= i < |p| && p[i].mood == m {
        var i :| 0 <= i < |p| && p[i].mood == m;
        assert ms[i].mood == m;
      }
      if exists i :: 0 <= i < |ms| && ms[i].mood == m {
        var i :| 0 <= i < |ms| && ms[i].mood == m;
        if i < |p| {
          assert p[i].mood == m;
        }
      }
    }
  }

  /** The tally of m, 0 when m was never counted. */
  function Get(c: map<string, nat>, m: string): nat
  {
    if m in c then c[m] else 0
  }

  /** Sum of the tally over the given keys. */
  function SumOver(c: map<string, nat>, keys: seq<string>): nat
  {
    if keys == [] then 0 else Get(c, keys[0]) + SumOver(c, keys[1..])
  }

  /** No key is listed twice. */
  predicate Distinct(keys: seq<string>)
  {
    forall i, j :: 0 <= i < j < |keys| ==> keys[i] != keys[j]
  }

  /** Bumping one listed key adds exactly one to the sum. */
  lemma {:induction false} SumOverBump(c: map<string, nat>, keys: seq<string>, m: string)
    requires Distinct(keys) && m in keys
    ensures SumOver(c[m := Get(c, m) + 1], keys) == SumOver(c, keys) + 1
  {
    var c' := c[m := Get(c, m) + 1];
    if keys[0] == m {
      assert m !in keys[1..];
      SumOverUnchanged(c, keys[1..], m);
    } else {
      assert Distinct(keys[1..]) by {
        forall i, j | 0 <= i < j < |keys| - 1 ensures keys[1..][i] != keys[1..][j] {
          assert keys[1..][i] == keys[i + 1] && keys[1..][j] == keys[j + 1];
        }
      }
      SumOverBump(c, keys[1..], m);
    }
  }

  /** Bumping a key that is not listed leaves the sum alone. */
  lemma {:induction false} SumOverUnchanged(c: map<string, nat>, keys: seq<string>, m: string)
    requires m !in keys
    ensures SumOver(c[m := Get(c, m) + 1], keys) == SumOver(c, keys)
  {
    if keys != [] {
      assert keys[0] != m;
      SumOverUnchanged(c, keys[1..], m);
    }
  }

  /** The tally's values add up to the number of entries: summed over any
      list of distinct moods that includes every mood of the entries. */
  lemma {:induction false} CountsSum(ms: seq<MoodRecord>, keys: seq<string>)
    requires Distinct(keys)
    requires forall i :: 0 <= i < |ms| ==> ms[i].mood in keys
    ensures SumOver(Counts(ms), keys) == |ms|
  {
    if ms == [] {
      SumOverEmpty(keys);
    } else {
      var p := ms[..|ms| - 1];
      assert forall i :: 0 <= i < |p| ==> p[i] == ms[i];
      CountsSum(p, keys);
      SumOverBump(Counts(p), keys, ms[|ms| - 1].mood);
    }
  }

  lemma {:induction false} SumOverEmpty(keys: seq<string>)
    ensures SumOver(map[], keys) == 0
  {
    if keys != [] {
      SumOverEmpty(keys[1..]);
    }
  }

  /** The streak counter never exceeds the number of entries seen, and is
      positive once there is an entry. */
  lemma {:induction false} StreakBounds(ms: seq<MoodRecord>)
    ensures ms == [] <==> Streak(ms) == 0
    ensures Streak(ms) <= |ms|
  {
    if |ms| >= 2 {
      StreakBounds(ms[..|ms| - 1]);
    }
  }

  /** No entries: no streak; otherwise 1 <= longest streak <= number of entries. */
  lemma {:induction false} LongestBounds(ms: seq<MoodRecord>)
    ensures ms == [] ==> Longest(ms) == 0
    ensures ms != [] ==> 1 <= Longest(ms) <= |ms|
  {
    if ms != [] {
      StreakBounds(ms);
      LongestBounds(ms[..|ms| - 1]);
    }
  }

  /** Appending an entry: the streak grows by one exactly when the new day is
      the day after the previous entry's; a same-day entry resets it to 1. */
  lemma StreakStep(ms: seq<MoodRecord>, r: MoodRecord)
    requires ms != []
    ensures r.day == ms[|ms| - 1].day + 1 ==> Streak(ms + [r]) == Streak(ms) + 1
    ensures r.day != ms[|ms| - 1].day + 1 ==> Streak(ms + [r]) == 1
    ensures r.day == ms[|ms| - 1].day ==> Streak(ms + [r]) == 1
  {
    assert (ms + [r])[..|ms|] == ms;
  }

  /** Entries lo..hi-1 are on consecutive days. */
  predicate IsRun(ms: seq<MoodRecord>, lo: int, hi: int)
  {
    0 <= lo < hi <= |ms| && forall j :: lo < j < hi ==> ms[j].day == ms[j - 1].day + 1
  }

  /** The streak counter is the length of the longest run of consecutive days
      that ends at the last entry. */
  lemma {:induction false} StreakIsRun(ms: seq<MoodRecord>)
    requires ms != []
    ensures 1 <= Streak(ms) <= |ms|
    ensures IsRun(ms, |ms| - Streak(ms), |ms|)
    ensures Streak(ms) < |ms| ==> ms[|ms| - Streak(ms)].day != ms[|ms| - Streak(ms) - 1].day + 1
  {
    var n := |ms|;
    if n >= 2 && ms[n - 1].day - ms[n - 2].day == 1 {
      var p := ms[..n - 1];
      StreakIsRun(p);
      var k := |p| - Streak(p);
      assert IsRun(p, k, |p|);
      forall j | k < j < n
        ensures ms[j].day == ms[j - 1].day + 1
      {
        if j < n - 1 {
          assert ms[j] == p[j] && ms[j - 1] == p[j - 1];
        }
      }
      if k > 0 {
        assert ms[k] == p[k] && ms[k - 1] == p[k - 1];
      }
    }
  }

  /** A run that ends at the last entry is no longer than the streak. */
  lemma RunEndingLastWithinStreak(ms: seq<MoodRecord>, lo: int)
    requires IsRun(ms, lo, |ms|)
    ensures |ms| - lo <= Streak(ms)
  {
    StreakIsRun(ms);
  }

  /** The longest streak is the length of the longest run of consecutive days
      anywhere in the entries: some run has that length and none is longer. */
  lemma {:induction false} LongestIsLongestRun(ms: seq<MoodRecord>)
    ensures forall lo, hi :: IsRun(ms, lo, hi) ==> hi - lo <= Longest(ms)
    ensures ms != [] ==> exists lo, hi :: IsRun(ms, lo, hi) && hi - lo == Longest(ms)
  {
    if ms != [] {
      var n := |ms|;
      var p := ms[..n - 1];
      LongestIsLongestRun(p);
      StreakIsRun(ms);
      forall lo, hi | IsRun(ms, lo, hi) ensures hi - lo <= Longest(ms) {
        if hi == n {
          RunEndingLastWithinStreak(ms, lo);
        } else {
          assert IsRun(p, lo, hi) by {
            forall j | lo < j < hi ensures p[j].day == p[j - 1].day + 1 {
              assert p[j] == ms[j] && p[j - 1] == ms[j - 1];
            }
          }
        }
      }
      if Streak(ms) > Longest(p) {
        assert IsRun(ms, n - Streak(ms), n);
      } else {
        var lo, hi :| IsRun(p, lo, hi) && hi - lo == Longest(p);
        assert IsRun(ms, lo, hi) by {
          forall j | lo < j < hi ensures ms[j].day == ms[j - 1].day + 1 {
            assert p[j] == ms[j] && p[j - 1] == ms[j - 1];
          }
        }
      }
    }
  }

  /** A day is active exactly when some entry falls on it. */
  lemma {:induction false} DaysAreEntryDays(ms: seq<MoodRecord>, day: int)
    ensures day in Days(ms) <==> exists i :: 0 <= i < |ms| && ms[i].day == day
  {
    if ms != [] {
      var p := ms[..|ms| - 1];
      DaysAreEntryDays(p, day);
      if exists i :: 0 <= i < |p| && p[i].day == day {
        var i :| 0 <= i < |p| && p[i].day == day;
        assert ms[i].day == day;
      }
      if exists i :: 0 <= i < |ms| && ms[i].day == day {
        var i :| 0 <= i < |ms| && ms[i].day == day;
        if i < |p| {
          assert p[i].day == day;
        }
      }
    }
  }

  /** There are never more active days than entries. */
  lemma {:induction false} ActiveDaysAtMostTotal(ms: seq<MoodRecord>)
    ensures |Days(ms)| <= |ms|
  {
    if ms != [] {
      var p := ms[..|ms| - 1];
      ActiveDaysAtMostTotal(p);
      var d := ms[|ms| - 1].day;
      if d in Days(p) {
        assert Days(ms) == Days(p);
      } else {
        assert |Days(p) + {d}| == |Days(p)| + 1;
      }
    }
  }

  /** The trend shows the last min(30, n) entries, in input order. */
  lemma TrendIsTail(ms: seq<MoodRecord>, k: int)
    requires 0 <= k < |LastWindow(Trend(ms))|
    ensures |LastWindow(Trend(ms))| == if |ms| < TrendWindow then |ms| else TrendWindow
    ensures var w := LastWindow(Trend(ms)); var e := ms[|ms| - |w| + k];
      w[k] == TrendPoint(e.day, e.mood)
  {
    var t := Trend(ms);
    var w := LastWindow(t);
    assert w[k] == t[|t| - |w| + k];
  }

  /** What the dashboard reports, in terms of the entries alone. */
  lemma DashboardFacts(moods: seq<MoodRecord>, d: DashboardData, keys: seq<string>)
    requires d.totalMoods == |moods| && d.moodCounts == Counts(moods)
    requires d.activeDays == |Days(moods)| && d.longestStreak == Longest(moods)
    requires Distinct(keys) && forall i :: 0 <= i < |moods| ==> moods[i].mood in keys
    ensures SumOver(d.moodCounts, keys) == d.totalMoods
    ensures d.activeDays <= d.totalMoods
    ensures d.totalMoods == 0 ==> d.longestStreak == 0
    ensures d.totalMoods > 0 ==> 1 <= d.longestStreak <= d.totalMoods
  {
    CountsSum(moods, keys);
    ActiveDaysAtMostTotal(moods);
    LongestBounds(moods);
  }
}
