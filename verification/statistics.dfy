/** The statistics view derived from one planner state: completion counts
    and rate, the current and the longest streak of completed days, and the
    per-category distribution. "Today" is an input. */
module Statistics {
  import opened Types

  // ---------------------------------------------------------------------
  // Completion
  // ---------------------------------------------------------------------

  /** `whole > 0 ? Math.round(part / whole * 100) : 0`, with halves rounded up. */
  function Percent(part: nat, whole: nat): (r: nat)
    ensures whole == 0 ==> r == 0
    ensures whole > 0 ==> (2 * r - 1) * whole <= 200 * part < (2 * r + 1) * whole
    ensures part <= whole ==> r <= 100
  {
    if whole == 0 then 0
    else
      var q := (200 * part + whole) / (2 * whole);
      var rem := (200 * part + whole) % (2 * whole);
      assert 200 * part + whole == q * (2 * whole) + rem && 0 <= rem < 2 * whole;
      assert (2 * q - 1) * whole == q * (2 * whole) - whole;
      assert (2 * q + 1) * whole == q * (2 * whole) + whole;
      MulMonotone(q, 101, 2 * whole);
      q
  }

  lemma MulMonotone(a: int, b: int, c: nat)
    ensures a >= b ==> a * c >= b * c
  {
  }

  /** `challenges.filter(c => c.completed)` */
  function CompletedOf(cs: seq<Challenge>): (r: seq<Challenge>)
    ensures |r| <= |cs|
    ensures forall c :: c in r <==> c in cs && c.completed
    ensures |r| == 0 <==> forall i :: 0 <= i < |cs| ==> !cs[i].completed
    ensures forall c :: multiset(r)[c] == if c.completed then multiset(cs)[c] else 0
    decreases |cs|
  {
    if |cs| == 0 then []
    else
      var rest := CompletedOf(cs[1..]);
      assert forall i :: 0 < i < |cs| ==> cs[i] == cs[1..][i - 1];
      assert cs == [cs[0]] + cs[1..];
      if cs[0].completed then [cs[0]] + rest else rest
  }

  /** `.map(c => c.date)` */
  function DatesOf(cs: seq<Challenge>): seq<Day>
  {
    seq(|cs|, i requires 0 <= i < |cs| => cs[i].date)
  }

  // ---------------------------------------------------------------------
  // Sorting the completed dates
  // ---------------------------------------------------------------------

  predicate SortedDays(ds: seq<Day>)
  {
    forall i, j :: 0 <= i < j < |ds| ==> ds[i] <= ds[j]
  }

  /** A day no later than every day of a sorted list can go in front of it. */
  lemma SortedCons(d: Day, ds: seq<Day>)
    requires SortedDays(ds) && forall x :: x in ds ==> d <= x
    ensures SortedDays([d] + ds)
  {
    var r := [d] + ds;
    forall i, j | 0 <= i < j < |r| ensures r[i] <= r[j] {
      assert r[j] == ds[j - 1] && ds[j - 1] in ds;
      if i > 0 { assert r[i] == ds[i - 1]; }
    }
  }

  function InsertDay(d: Day, ds: seq<Day>): (r: seq<Day>)
    ensures multiset(r) == multiset(ds) + multiset{d}
    ensures forall x :: x in r ==> x == d || x in ds
    ensures SortedDays(ds) ==> SortedDays(r)
    decreases |ds|
  {
    if |ds| == 0 then [d]
    else if d <= ds[0] then
      assert SortedDays(ds) ==> SortedDays([d] + ds) by {
        if SortedDays(ds) { SortedCons(d, ds); }
      }
      [d] + ds
    else
      var tail := ds[1..];
      var rest := InsertDay(d, tail);
      assert ds == [ds[0]] + tail;
      assert SortedDays(ds) ==> SortedDays([ds[0]] + rest) by {
        if SortedDays(ds) {
          assert SortedDays(tail);
          assert forall x :: x in tail ==> ds[0] <= x;
          SortedCons(ds[0], rest);
        }
      }
      [ds[0]] + rest
  }

  /** The completed dates in ascending order. For `YYYY-MM-DD` strings the
      planner's lexicographic `.sort()` is this chronological order. */
  function SortDays(ds: seq<Day>): (r: seq<Day>)
    ensures SortedDays(r)
    ensures multiset(r) == multiset(ds)
    decreases |ds|
  {
    if |ds| == 0 then []
    else
      assert ds == [ds[0]] + ds[1..];
      InsertDay(ds[0], SortDays(ds[1..]))
  }

  /** The sorted dates of the completed challenges (`sortedDates`). */
  function CompletedDays(cs: seq<Challenge>): (r: seq<Day>)
    ensures SortedDays(r) && |r| == |CompletedOf(cs)|
    ensures multiset(r) == multiset(DatesOf(CompletedOf(cs)))
  {
    var r := SortDays(DatesOf(CompletedOf(cs)));
    assert |r| == |multiset(r)|;
    r
  }

  // ---------------------------------------------------------------------
  // Streaks
  // ---------------------------------------------------------------------

  /** `Math.ceil(Math.abs(a - b) / DAY_MS) === 1` on dates at midnight UTC. */
  predicate OneDayApart(x: Day, y: Day)
  {
    x - y == 1 || y - x == 1
  }

  /** `ds[a..b]` is a run: each date is one day from the one before it. */
  ghost predicate IsRun(ds: seq<Day>, a: int, b: int)
  {
    0 <= a <= b <= |ds| && forall k :: a < k < b ==> OneDayApart(ds[k - 1], ds[k])
  }

  /** The current streak: 0 unless the last date is today or yesterday; then
      the length of the longest run that ends at the last date. */
  ghost predicate IsCurrentStreak(ds: seq<Day>, today: Day, n: int)
  {
    if |ds| == 0 || (ds[|ds| - 1] != today && ds[|ds| - 1] != today - 1) then n == 0
    else
      && 1 <= n <= |ds|
      && IsRun(ds, |ds| - n, |ds|)
      && (n == |ds| || !OneDayApart(ds[|ds| - n - 1], ds[|ds| - n]))
  }

  /** The longest streak: the length of a longest run anywhere in `ds`. */
  ghost predicate IsLongestStreak(ds: seq<Day>, n: int)
  {
    && (exists a, b :: 0 <= a <= b <= |ds| && b - a == n && IsRun(ds, a, b))
    && (forall a, b :: 0 <= a <= b <= |ds| && IsRun(ds, a, b) ==> b - a <= n)
  }

  function Max(x: int, y: int): int { if x < y then y else x }

  /** A run that is maximal at its left end is the longest run ending there. */
  lemma MaximalRunBound(ds: seq<Day>, i: int, run: int, a: int)
    requires 1 <= run <= i <= |ds| && IsRun(ds, i - run, i)
    requires run == i || !OneDayApart(ds[i - run - 1], ds[i - run])
    requires IsRun(ds, a, i)
    ensures i - a <= run
  {
  }

  /** One step of the forward scan keeps "no run among the first `i` dates is
      longer than the best so far or the current run". */
  lemma ScanStep(ds: seq<Day>, i: int, run: int, longest: int)
    requires 1 <= run <= i < |ds|
    requires IsRun(ds, i - run, i) && (run == i || !OneDayApart(ds[i - run - 1], ds[i - run]))
    requires forall a, b :: 0 <= a <= b <= i && IsRun(ds, a, b) ==> b - a <= Max(longest, run)
    ensures OneDayApart(ds[i - 1], ds[i]) ==>
      forall a, b :: 0 <= a <= b <= i + 1 && IsRun(ds, a, b) ==> b - a <= Max(longest, run + 1)
    ensures !OneDayApart(ds[i - 1], ds[i]) ==>
      forall a, b :: 0 <= a <= b <= i + 1 && IsRun(ds, a, b) ==> b - a <= Max(Max(longest, run), 1)
  {
    var m := if OneDayApart(ds[i - 1], ds[i]) then Max(longest, run + 1) else Max(Max(longest, run), 1);
    forall a, b | 0 <= a <= b <= i + 1 && IsRun(ds, a, b) ensures b - a <= m {
      if b == i + 1 && a <= i {
        assert IsRun(ds, a, i);
        if OneDayApart(ds[i - 1], ds[i]) {
          MaximalRunBound(ds, i, run, a);
        }
      }
    }
  }

  /** The backward walk: from the most recent date, count the dates that are
      each one day before the next, stopping at the first gap or repeat. */
  method CurrentStreak(dates: seq<Day>, today: Day) returns (current: nat)
    ensures IsCurrentStreak(dates, today, current)
  {
    current := 0;
    var n := |dates|;
    if n == 0 {
      return;
    }
    var mostRecent := dates[n - 1];
    if mostRecent == today || mostRecent == today - 1 {
      current := 1;
      var i := n - 2;
      while i >= 0
        invariant -1 <= i <= n - 2
        invariant current == n - 1 - i
        invariant IsRun(dates, i + 1, n)
        decreases i + 1
      {
        if OneDayApart(dates[i], dates[i + 1]) {
          current := current + 1;
          i := i - 1;
        } else {
          break;
        }
      }
    }
  }

  /** The forward scan: the length of the longest run of a non-empty list,
      `Math.max(maxStreak, tempStreak)` after the loop. */
  method LongestRun(dates: seq<Day>) returns (longest: nat)
    requires |dates| > 0
    ensures IsLongestStreak(dates, longest)
  {
    longest := 0;
    var n := |dates|;
    var run := 1;
    var i := 1;
    ghost var from, to := 0, 0;  // a run of length `longest`
    while i < n
      invariant 1 <= i <= n
      invariant 1 <= run <= i
      invariant IsRun(dates, i - run, i)
      invariant run == i || !OneDayApart(dates[i - run - 1], dates[i - run])
      invariant 0 <= from <= to <= i && to - from == longest && IsRun(dates, from, to)
      invariant forall a, b :: 0 <= a <= b <= i && IsRun(dates, a, b) ==> b - a <= Max(longest, run)
    {
      ghost var longest0, run0 := longest, run;
      if OneDayApart(dates[i - 1], dates[i]) {
        run := run + 1;
      } else {
        if longest < run {
          from, to := i - run, i;
        }
        longest := Max(longest, run);
        run := 1;
      }
      ScanStep(dates, i, run0, longest0);
      i := i + 1;
    }
    if longest < run {
      from, to := n - run, n;
    }
    longest := Max(longest, run);
  }

  /** The streak computation of the statistics view over the sorted
      completed dates: both streaks, with `maxStreak` also taking the
      current streak into account. */
  method ComputeStreaks(dates: seq<Day>, today: Day) returns (current: nat, longest: nat)
    ensures IsCurrentStreak(dates, today, current)
    ensures IsLongestStreak(dates, longest)
    ensures current <= longest <= |dates|
    ensures |dates| > 0 ==> longest >= 1
  {
    if |dates| == 0 {
      assert IsRun(dates, 0, 0);
      return 0, 0;
    }
    current := CurrentStreak(dates, today);
    var best := LongestRun(dates);
    assert IsRun(dates, 0, 1);
    if current > 0 {
      assert IsRun(dates, |dates| - current, |dates|);
    }
    longest := Max(best, current);
  }

  /** In a sorted list a run is a stretch of consecutive calendar days, so a
      repeated date ends a run. */
  lemma {:induction false} SortedRunIsConsecutive(ds: seq<Day>, a: int, b: int)
    requires SortedDays(ds) && 0 <= a <= b <= |ds|
    ensures IsRun(ds, a, b) <==> forall k :: a <= k < b ==> ds[k] == ds[a] + (k - a)
    decreases b - a
  {
    if b - a >= 2 {
      SortedRunIsConsecutive(ds, a, b - 1);
      assert ds[b - 2] <= ds[b - 1];
      if forall k :: a <= k < b ==> ds[k] == ds[a] + (k - a) {
        assert ds[b - 1] == ds[b - 2] + 1;
      }
    }
  }

  /** The streak predicates pin the streak values down: there is one answer. */
  lemma StreaksAreUnique(ds: seq<Day>, today: Day, c1: int, c2: int, m1: int, m2: int)
    requires IsCurrentStreak(ds, today, c1) && IsCurrentStreak(ds, today, c2)
    requires IsLongestStreak(ds, m1) && IsLongestStreak(ds, m2)
    ensures c1 == c2 && m1 == m2
  {
    var a1, b1 :| 0 <= a1 <= b1 <= |ds| && b1 - a1 == m1 && IsRun(ds, a1, b1);
    var a2, b2 :| 0 <= a2 <= b2 <= |ds| && b2 - a2 == m2 && IsRun(ds, a2, b2);
  }

  /** Completed days June 1, 2 and 4 (`x`, `x + 1`, `x + 3`): the longest
      streak is 2. Seen on June 2 the latest date lies in the future, so the
      current streak is 0; seen on June 5 it is 1. */
  lemma ThreeDayExample(x: Day, onJune2: int, onJune5: int, longest: int)
    requires IsCurrentStreak([x, x + 1, x + 3], x + 1, onJune2)
    requires IsCurrentStreak([x, x + 1, x + 3], x + 4, onJune5)
    requires IsLongestStreak([x, x + 1, x + 3], longest)
    ensures onJune2 == 0 && onJune5 == 1 && longest == 2
  {
    var ds := [x, x + 1, x + 3];
    assert IsRun(ds, 0, 2);
    assert !OneDayApart(ds[1], ds[2]);
    var a, b :| 0 <= a <= b <= |ds| && b - a == longest && IsRun(ds, a, b);
    assert !IsRun(ds, 0, 3) && !IsRun(ds, 1, 3);
  }

  /** A repeated date is not skipped: completed days `x, x+1, x+1, x+2`
      give a longest streak of 2, not the 3 distinct consecutive days. */
  lemma RepeatedDateBreaksStreak(x: Day, longest: int)
    requires IsLongestStreak([x, x + 1, x + 1, x + 2], longest)
    ensures longest == 2
  {
    var ds := [x, x + 1, x + 1, x + 2];
    assert IsRun(ds, 0, 2);
    assert !OneDayApart(ds[1], ds[2]);
    var a, b :| 0 <= a <= b <= |ds| && b - a == longest && IsRun(ds, a, b);
    assert !IsRun(ds, 0, 3) && !IsRun(ds, 1, 3) && !IsRun(ds, 0, 4) && !IsRun(ds, 1, 4);
  }

  /** The percentages of that example: 3 of 3, 2 of 3 and 1 of 3. */
  lemma PercentExamples()
    ensures Percent(3, 3) == 100 && Percent(2, 3) == 67 && Percent(1, 3) == 33 && Percent(0, 0) == 0
  {
  }

  // ---------------------------------------------------------------------
  // Category distribution
  // ---------------------------------------------------------------------

  /** A category together with how many challenges it holds and what share
      of all challenges that is. */
  datatype CategoryStat = CategoryStat(category: Category, count: nat, percentage: nat)

  /** The category ids of the challenges, in list order. */
  function CategoryIdsOf(cs: seq<Challenge>): seq<string>
  {
    seq(|cs|, i requires 0 <= i < |cs| => cs[i].categoryId)
  }

  /** `challenges.filter(c => c.categoryId === id).length`: how often `id`
      occurs among the challenges' category ids. */
  function CountInCategory(cs: seq<Challenge>, id: string): (r: nat)
    ensures r == multiset(CategoryIdsOf(cs))[id]
    ensures r <= |cs|
    ensures r == 0 <==> forall i :: 0 <= i < |cs| ==> cs[i].categoryId != id
    ensures r == |cs| <==> forall i :: 0 <= i < |cs| ==> cs[i].categoryId == id
    decreases |cs|
  {
    if |cs| == 0 then 0
    else
      var rest := CountInCategory(cs[1..], id);
      assert forall i :: 0 < i < |cs| ==> cs[i] == cs[1..][i - 1];
      assert CategoryIdsOf(cs) == [cs[0].categoryId] + CategoryIdsOf(cs[1..]);
      (if cs[0].categoryId == id then 1 else 0) + rest
  }

  /** The unsorted entries, one per category, in category order. */
  function Entries(s: AppState): seq<CategoryStat>
  {
    seq(|s.categories|, i requires 0 <= i < |s.categories| =>
      var count := CountInCategory(s.challenges, s.categories[i].id);
      CategoryStat(s.categories[i], count, Percent(count, |s.challenges|)))
  }

  predicate ByCountDescending(xs: seq<CategoryStat>)
  {
    forall i, j :: 0 <= i < j < |xs| ==> xs[i].count >= xs[j].count
  }

  /** The entries with count `k`, in their order in `xs`. */
  function WithCount(xs: seq<CategoryStat>, k: nat): seq<CategoryStat>
    decreases |xs|
  {
    if |xs| == 0 then []
    else (if xs[0].count == k then [xs[0]] else []) + WithCount(xs[1..], k)
  }

  lemma WithCountCons(y: CategoryStat, ys: seq<CategoryStat>, k: nat)
    ensures WithCount([y] + ys, k) == (if y.count == k then [y] else []) + WithCount(ys, k)
  {
    assert ([y] + ys)[1..] == ys;
  }

  /** An entry whose count is at least every count of a sorted list can go
      in front of it. */
  lemma ByCountCons(y: CategoryStat, ys: seq<CategoryStat>)
    requires ByCountDescending(ys) && forall z :: z in ys ==> y.count >= z.count
    ensures ByCountDescending([y] + ys)
  {
    var r := [y] + ys;
    forall i, j | 0 <= i < j < |r| ensures r[i].count >= r[j].count {
      assert r[j] == ys[j - 1];
      if i > 0 { assert r[i] == ys[i - 1]; }
    }
  }

  /** Inserts `x` before the first entry whose count is not larger. */
  function InsertByCount(x: CategoryStat, xs: seq<CategoryStat>): (r: seq<CategoryStat>)
    ensures multiset(r) == multiset(xs) + multiset{x}
    ensures forall y :: y in r ==> y == x || y in xs
    decreases |xs|
  {
    if |xs| == 0 then [x]
    else if x.count >= xs[0].count then [x] + xs
    else
      assert xs == [xs[0]] + xs[1..];
      [xs[0]] + InsertByCount(x, xs[1..])
  }

  lemma {:induction false} InsertByCountKeepsOrder(x: CategoryStat, xs: seq<CategoryStat>)
    requires ByCountDescending(xs)
    ensures ByCountDescending(InsertByCount(x, xs))
    decreases |xs|
  {
    if |xs| > 0 {
      var tail := xs[1..];
      assert xs == [xs[0]] + tail;
      if x.count >= xs[0].count {
        ByCountCons(x, xs);
      } else {
        assert ByCountDescending(tail);
        InsertByCountKeepsOrder(x, tail);
        assert forall z :: z in tail ==> xs[0].count >= z.count;
        ByCountCons(xs[0], InsertByCount(x, tail));
      }
    }
  }

  /** Insertion puts `x` ahead of every entry of count `k` and keeps their
      order: the entries of count `k` are those of `xs`, with `x` in front
      when it has that count. */
  lemma {:induction false} InsertByCountStable(x: CategoryStat, xs: seq<CategoryStat>, k: nat)
    ensures WithCount(InsertByCount(x, xs), k) == (if x.count == k then [x] else []) + WithCount(xs, k)
    decreases |xs|
  {
    if |xs| == 0 {
      WithCountCons(x, [], k);
    } else if x.count >= xs[0].count {
      WithCountCons(x, xs, k);
    } else {
      var tail := xs[1..];
      var rest := InsertByCount(x, tail);
      assert xs == [xs[0]] + tail;
      InsertByCountStable(x, tail, k);
      WithCountCons(xs[0], rest, k);
      WithCountCons(xs[0], tail, k);
    }
  }

  /** `.sort((a, b) => b.count - a.count)`, a stable sort: by non-increasing
      count, entries of equal count in their original order. */
  function SortByCountDescending(xs: seq<CategoryStat>): (r: seq<CategoryStat>)
    ensures multiset(r) == multiset(xs)
    ensures ByCountDescending(r)
    ensures forall k :: WithCount(r, k) == WithCount(xs, k)
    decreases |xs|
  {
    if |xs| == 0 then []
    else
      var tail := xs[1..];
      var rest := SortByCountDescending(tail);
      assert xs == [xs[0]] + tail;
      InsertByCountKeepsOrder(xs[0], rest);
      SortStableStep(xs[0], tail, rest);
      InsertByCount(xs[0], rest)
  }

  lemma SortStableStep(x: CategoryStat, tail: seq<CategoryStat>, sortedTail: seq<CategoryStat>)
    requires forall k :: WithCount(sortedTail, k) == WithCount(tail, k)
    ensures forall k :: WithCount(InsertByCount(x, sortedTail), k) == WithCount([x] + tail, k)
  {
    forall k ensures WithCount(InsertByCount(x, sortedTail), k) == WithCount([x] + tail, k) {
      InsertByCountStable(x, sortedTail, k);
      WithCountCons(x, tail, k);
    }
  }

  /** Each unsorted entry carries its category, that category's count and
      the count's share of all challenges. */
  lemma EntriesDescribeCategories(s: AppState)
    ensures forall e :: e in Entries(s) ==>
      && e.category in s.categories
      && e.count == CountInCategory(s.challenges, e.category.id)
      && e.percentage == Percent(e.count, |s.challenges|)
  {
  }

  /** `categoryDistribution`: one entry per category, each with its count
      and percentage, ordered by non-increasing count with ties in category
      order. */
  function Distribution(s: AppState): (r: seq<CategoryStat>)
    ensures |r| == |s.categories|
    ensures multiset(r) == multiset(Entries(s))
    ensures ByCountDescending(r)
    ensures forall k :: WithCount(r, k) == WithCount(Entries(s), k)
    ensures forall e :: e in r ==>
      && e.category in s.categories
      && e.count == CountInCategory(s.challenges, e.category.id)
      && e.percentage == Percent(e.count, |s.challenges|)
      && e.percentage <= 100
  {
    var entries := Entries(s);
    var r := SortByCountDescending(entries);
    assert |r| == |multiset(r)| == |multiset(entries)| == |entries|;
    assert forall e :: e in r ==> e in multiset(entries);
    EntriesDescribeCategories(s);
    r
  }

  /** Every category has its entry in the distribution. */
  lemma DistributionCoversCategories(s: AppState)
    ensures forall c :: c in s.categories ==>
      exists e :: e in Distribution(s) && e.category == c
                  && e.count == CountInCategory(s.challenges, c.id)
  {
    var r := Distribution(s);
    forall c | c in s.categories
      ensures exists e :: e in r && e.category == c && e.count == CountInCategory(s.challenges, c.id)
    {
      var i :| 0 <= i < |s.categories| && s.categories[i] == c;
      var e := Entries(s)[i];
      assert e in multiset(Entries(s));
      assert e in multiset(r);
    }
  }

  // ---------------------------------------------------------------------
  // The whole view
  // ---------------------------------------------------------------------

  datatype Stats = Stats(
    total: nat,
    completed: nat,
    completion: nat,
    currentStreak: nat,
    maxStreak: nat,
    categoryDistribution: seq<CategoryStat>)

  /** The statistics of `s` as seen on `today` (the body of the `useMemo`). */
  method DeriveStatistics(s: AppState, today: Day) returns (st: Stats)
    ensures st.total == |s.challenges|
    ensures st.completed == |CompletedOf(s.challenges)| <= st.total
    ensures st.completion == Percent(st.completed, st.total) <= 100
    ensures IsCurrentStreak(CompletedDays(s.challenges), today, st.currentStreak)
    ensures IsLongestStreak(CompletedDays(s.challenges), st.maxStreak)
    ensures st.currentStreak <= st.maxStreak <= st.completed
    ensures st.completed == 0 ==> st.currentStreak == 0 && st.maxStreak == 0
    ensures st.completed > 0 ==> st.maxStreak >= 1
    ensures st.categoryDistribution == Distribution(s)
  {
    var total := |s.challenges|;
    var completed := |CompletedOf(s.challenges)|;
    var completion := Percent(completed, total);
    var current, longest := ComputeStreaks(CompletedDays(s.challenges), today);
    st := Stats(total, completed, completion, current, longest, Distribution(s));
  }
}
