/**
 * What the dashboard promises: the calendar-month helpers, the chart's
 * twelve contiguous buckets and their total, the overdue count and the
 * oldest overdue date, the upcoming list and its flags, the spend windows,
 * the warranty count and the activity feed.
 */
module DashboardFacts {
  import opened Common
  import opened Dates
  import opened Records
  import opened Store
  import opened Dashboard

  // ---- calendar months ----

  /** `_month_start(base, 0)` is day 1 of `base`'s own month. */
  lemma MonthsBackZero(base: Date)
    requires ValidDate(base)
    ensures MonthsBack(base, 0) == Date(base.year, base.month, 1)
  {
    MonthIndexInjective(MonthsBack(base, 0), base);
  }

  /** The month after the one `k + 1` months back is the one `k` months back. */
  lemma NextOfMonthsBack(base: Date, k: int)
    ensures NextMonth(MonthsBack(base, k + 1)) == MonthsBack(base, k)
  {
    MonthIndexInjective(NextMonth(MonthsBack(base, k + 1)), MonthsBack(base, k));
  }

  lemma {:induction false} MonthRunAt(start: Date, n: nat, i: nat)
    requires ValidDate(start) && start.day == 1 && i < n
    ensures MonthRun(start, n)[i] == MonthOfIndex(MonthIndex(start) + i)
    decreases n
  {
    if i == 0 {
      MonthIndexInjective(start, MonthOfIndex(MonthIndex(start)));
    } else {
      MonthRunAt(NextMonth(start), n - 1, i - 1);
    }
  }

  /**
   * The chart's months: twelve, the first eleven months before the current
   * month's first day and the last that day, each the `_next_month` of the
   * one before it.
   */
  lemma ChartMonthsLayout(today: Date)
    requires ValidDate(today)
    ensures var months, first := ChartMonthsOf(today), FirstOfMonth(today);
      && |months| == 12
      && months[0] == MonthsBack(first, 11)
      && months[11] == first
      && (forall i :: 0 <= i < 12 ==> months[i] == MonthsBack(first, 11 - i))
      && (forall i :: 0 <= i < 11 ==> months[i + 1] == NextMonth(months[i]))
  {
    var months, first := ChartMonthsOf(today), FirstOfMonth(today);
    forall i | 0 <= i < 12 ensures months[i] == MonthsBack(first, 11 - i) {
      ChartMonthAt(today, i);
    }
    MonthsBackZero(first);
    forall i | 0 <= i < 11 ensures months[i + 1] == NextMonth(months[i]) {
      NextOfMonthsBack(first, 10 - i);
    }
  }

  // ---- the histogram ----

  lemma ChartQueryMeaning(user: int, chartStart: Date, t: Task)
    ensures Matches(ChartQuery(user, chartStart), t) <==>
      t.userId == user && t.status == Done && t.updatedAt.Some?
      && !StampBefore(t.updatedAt.value, Midnight(chartStart))
  {
    var q := ChartQuery(user, chartStart);
    assert Matches(q, t) <==> Holds(q[0], t) && Holds(q[1], t) && Holds(q[2], t) && Holds(q[3], t);
  }

  /** The histogram counts the done tasks of `user` completed on or after the chart's first day. */
  lemma CompletedMeaning(user: int, today: Date, tasks: seq<Task>, t: Task)
    requires WellFormed(t)
    ensures t in Completed(user, today, tasks) <==>
      t in tasks && t.userId == user && t.status == Done && t.updatedAt.Some?
      && NotAfter(ChartStart(today), t.updatedAt.value.date)
  {
    ChartQueryMeaning(user, ChartStart(today), t);
    if t.updatedAt.Some? {
      FromMidnight(t.updatedAt.value, ChartStart(today));
    }
  }

  /**
   * Bucket `i` is labelled with the month `11 - i` months before the current
   * one and holds the number of counted completions in that (year, month).
   */
  lemma ChartBucket(user: int, today: Date, tasks: seq<Task>, i: int)
    requires ValidDate(today) && 0 <= i < 12
    ensures var labels, values := ChartLabels(today), ChartValues(user, today, tasks);
      && |labels| == 12 && |values| == 12
      && labels[i] == YearMonthOf(MonthsBack(FirstOfMonth(today), 11 - i))
      && values[i] == Tally(Completed(user, today, tasks), labels[i])
  {
    ChartMonthAt(today, i);
  }

  lemma ChartMonthAt(today: Date, i: int)
    requires 0 <= i < 12
    ensures ChartMonthsOf(today)[i] == MonthsBack(FirstOfMonth(today), 11 - i)
  {
    var first := FirstOfMonth(today);
    MonthRunAt(ChartStart(today), 12, i);
    var k := MonthIndex(ChartStart(today)) + i;
    assert k == MonthIndex(first) - (11 - i);
  }

  function SumAll(s: seq<nat>): nat {
    if s == [] then 0 else SumAll(s[..|s| - 1]) + s[|s| - 1]
  }

  /** Does row `t` fall in the month with index `k`? */
  predicate InMonthIndex(t: Task, k: int) {
    Stamp(t).Some? && MonthIndex(Stamp(t).value.date) == k
  }

  function TallyIndex(rows: seq<Task>, k: int): nat {
    if rows == [] then 0
    else TallyIndex(rows[..|rows| - 1], k) + (if InMonthIndex(rows[|rows| - 1], k) then 1 else 0)
  }

  /** Rows whose month index lies in [lo, hi). */
  function CountRange(rows: seq<Task>, lo: int, hi: int): nat {
    if rows == [] then 0
    else
      var t := rows[|rows| - 1];
      CountRange(rows[..|rows| - 1], lo, hi)
        + (if Stamp(t).Some? && lo <= MonthIndex(Stamp(t).value.date) < hi then 1 else 0)
  }

  lemma {:induction false} TallyByIndex(rows: seq<Task>, d: Date)
    requires 1 <= d.month <= 12 && AllWellFormed(rows)
    ensures Tally(rows, YearMonthOf(d)) == TallyIndex(rows, MonthIndex(d))
  {
    if rows != [] {
      var t := rows[|rows| - 1];
      TallyByIndex(rows[..|rows| - 1], d);
      if Stamp(t).Some? {
        MonthIndexInjective(Stamp(t).value.date, d);
      }
    }
  }

  lemma {:induction false} CountRangeGrow(rows: seq<Task>, lo: int, h: int)
    requires lo <= h
    ensures CountRange(rows, lo, h + 1) == CountRange(rows, lo, h) + TallyIndex(rows, h)
  {
    if rows != [] {
      CountRangeGrow(rows[..|rows| - 1], lo, h);
    }
  }

  lemma {:induction false} CountRangeEmpty(rows: seq<Task>, lo: int)
    ensures CountRange(rows, lo, lo) == 0
  {
    if rows != [] {
      CountRangeEmpty(rows[..|rows| - 1], lo);
    }
  }

  /** Every row is stamped within the month indices [lo, hi). */
  predicate AllInRange(rows: seq<Task>, lo: int, hi: int) {
    forall i :: 0 <= i < |rows| ==> Stamp(rows[i]).Some? && lo <= MonthIndex(Stamp(rows[i]).value.date) < hi
  }

  /** Bucket i counts the rows of month index lo + i. */
  predicate BucketsCount(values: seq<nat>, rows: seq<Task>, lo: int) {
    forall i :: 0 <= i < |values| ==> values[i] == TallyIndex(rows, lo + i)
  }

  lemma {:induction false} CountRangeAll(rows: seq<Task>, lo: int, hi: int)
    requires AllInRange(rows, lo, hi)
    ensures CountRange(rows, lo, hi) == |rows|
  {
    if rows != [] {
      CountRangeAll(rows[..|rows| - 1], lo, hi);
    }
  }

  lemma {:induction false} PrefixSums(values: seq<nat>, rows: seq<Task>, lo: int, n: nat)
    requires n <= |values|
    requires BucketsCount(values, rows, lo)
    ensures SumAll(values[..n]) == CountRange(rows, lo, lo + n)
  {
    if n > 0 {
      assert values[..n][..n - 1] == values[..n - 1];
      PrefixSums(values, rows, lo, n - 1);
      CountRangeGrow(rows, lo, lo + n - 1);
    } else {
      CountRangeEmpty(rows, lo);
    }
  }

  /** No done task of `user` carries a completion timestamp after `today`. */
  predicate NoLaterCompletion(user: int, today: Date, tasks: seq<Task>) {
    forall t :: t in tasks && t.userId == user && t.status == Done && t.updatedAt.Some? ==>
      NotAfter(t.updatedAt.value.date, today)
  }

  /** Buckets that each count one month of a range holding every row add up to the number of rows. */
  lemma SumOfBuckets(values: seq<nat>, rows: seq<Task>, lo: int)
    requires BucketsCount(values, rows, lo) && AllInRange(rows, lo, lo + |values|)
    ensures SumAll(values) == |rows|
  {
    PrefixSums(values, rows, lo, |values|);
    CountRangeAll(rows, lo, lo + |values|);
    assert values[..|values|] == values;
  }

  /**
   * The buckets add up to every done task of `user` completed since the
   * chart's start, provided no completion lies after today: nothing counted
   * falls outside the twelve months.
   */
  lemma ChartTotal(user: int, today: Date, tasks: seq<Task>)
    requires ValidDate(today) && AllWellFormed(tasks)
    requires NoLaterCompletion(user, today, tasks)
    ensures SumAll(ChartValues(user, today, tasks)) == |Completed(user, today, tasks)|
  {
    var values, rows := ChartValues(user, today, tasks), Completed(user, today, tasks);
    var lo := MonthIndex(today) - 11;
    ValuesByIndex(user, today, tasks);
    RowsInChart(user, today, tasks);
    SumOfBuckets(values, rows, lo);
  }

  lemma ValuesByIndex(user: int, today: Date, tasks: seq<Task>)
    requires ValidDate(today) && AllWellFormed(tasks)
    ensures BucketsCount(ChartValues(user, today, tasks), Completed(user, today, tasks), MonthIndex(today) - 11)
  {
    var values := ChartValues(user, today, tasks);
    forall i | 0 <= i < 12 ensures values[i] == TallyIndex(Completed(user, today, tasks), MonthIndex(today) - 11 + i) {
      ValueByIndex(user, today, tasks, i);
    }
  }

  lemma ValueByIndex(user: int, today: Date, tasks: seq<Task>, i: int)
    requires ValidDate(today) && AllWellFormed(tasks) && 0 <= i < 12
    ensures ChartValues(user, today, tasks)[i] == TallyIndex(Completed(user, today, tasks), MonthIndex(today) - 11 + i)
  {
    ChartBucket(user, today, tasks, i);
    TallyOfBucket(user, today, tasks, i);
  }

  lemma TallyOfBucket(user: int, today: Date, tasks: seq<Task>, i: int)
    requires ValidDate(today) && AllWellFormed(tasks) && 0 <= i < 12
    ensures Tally(Completed(user, today, tasks), YearMonthOf(MonthsBack(FirstOfMonth(today), 11 - i)))
      == TallyIndex(Completed(user, today, tasks), MonthIndex(today) - 11 + i)
  {
    SelectWellFormed(ChartQuery(user, ChartStart(today)), tasks);
    TallyByIndex(Completed(user, today, tasks), MonthsBack(FirstOfMonth(today), 11 - i));
  }

  lemma RowsInChart(user: int, today: Date, tasks: seq<Task>)
    requires ValidDate(today) && AllWellFormed(tasks)
    requires NoLaterCompletion(user, today, tasks)
    ensures AllInRange(Completed(user, today, tasks), MonthIndex(today) - 11, MonthIndex(today) - 11 + 12)
  {
    var rows := Completed(user, today, tasks);
    forall i | 0 <= i < |rows|
      ensures Stamp(rows[i]).Some? && MonthIndex(today) - 11 <= MonthIndex(Stamp(rows[i]).value.date) <= MonthIndex(today)
    {
      var t := rows[i];
      assert t in tasks;
      var k :| 0 <= k < |tasks| && tasks[k] == t;
      CompletedMeaning(user, today, tasks, t);
      var d := t.updatedAt.value.date;
      MonthIndexMonotone(ChartStart(today), d);
      MonthIndexMonotone(d, today);
    }
  }

  // ---- overdue ----

  lemma OverdueQueryMeaning(user: int, today: Date, t: Task)
    ensures Matches(OverdueQuery(user, today), t) <==>
      t.userId == user && t.status == Pending && t.due.Some? && Before(t.due.value, today)
  {
    var q := OverdueQuery(user, today);
    assert Matches(q, t) <==> Holds(q[0], t) && Holds(q[1], t) && Holds(q[2], t) && Holds(q[3], t);
  }

  lemma PendingQueryMeaning(user: int, t: Task)
    ensures Matches(PendingQuery(user), t) <==> t.userId == user && t.status == Pending
  {
    var q := PendingQuery(user);
    assert Matches(q, t) <==> Holds(q[0], t) && Holds(q[1], t);
  }

  /**
   * `overdue` counts the pending tasks of `user` due before today;
   * `oldest_overdue` is None exactly when there are none, and otherwise the
   * earliest of their due dates.
   */
  lemma OldestOverdueIsMinimum(user: int, today: Date, tasks: seq<Task>, assets: seq<Asset>)
    requires ValidDate(today)
    ensures var s, oldest := DashboardStats(user, today, tasks, assets), OldestOverdue(user, today, tasks);
      && s.overdue == Count(OverdueQuery(user, today), tasks)
      && (oldest.None? <==> s.overdue == 0)
      && (oldest.Some? ==>
            (exists t :: t in tasks && t.userId == user && t.status == Pending && t.due == oldest)
            && Before(oldest.value, today)
            && forall t :: (t in tasks && t.userId == user && t.status == Pending && t.due.Some?
                 && Before(t.due.value, today)) ==> NotAfter(oldest.value, t.due.value))
  {
    var s := DashboardStats(user, today, tasks, assets);
    assert s.overdue == Count(OverdueQuery(user, today), tasks);
    OverdueMinimum(user, today, tasks);
  }

  lemma OverdueMinimum(user: int, today: Date, tasks: seq<Task>)
    requires ValidDate(today)
    ensures var oldest := OldestOverdue(user, today, tasks);
      && (oldest.None? <==> Count(OverdueQuery(user, today), tasks) == 0)
      && (oldest.Some? ==>
            (exists t :: t in tasks && t.userId == user && t.status == Pending && t.due == oldest)
            && Before(oldest.value, today)
            && forall t :: (t in tasks && t.userId == user && t.status == Pending && t.due.Some?
                 && Before(t.due.value, today)) ==> NotAfter(oldest.value, t.due.value))
  {
    var sel := Select(OverdueQuery(user, today), tasks);
    var rows := OrderBy(sel, DueCol, true);
    assert |rows| == |sel|;
    if rows != [] {
      assert rows[0] in multiset(rows);
      OverdueQueryMeaning(user, today, rows[0]);
      forall t | t in tasks && t.userId == user && t.status == Pending && t.due.Some? && Before(t.due.value, today)
        ensures NotAfter(rows[0].due.value, t.due.value)
      {
        OverdueQueryMeaning(user, today, t);
        assert t in multiset(rows);
        FirstDueIsLeast(rows, t);
      }
    }
  }

  /** In rows ordered by ascending due date, the first row is due no later than any dated row. */
  lemma FirstDueIsLeast(rows: seq<Task>, t: Task)
    requires Ordered(rows, DueCol, true) && t in rows && t.due.Some?
    ensures rows[0].due.Some? && NotAfter(rows[0].due.value, t.due.value)
  {
    var k :| 0 <= k < |rows| && rows[k] == t;
    if k > 0 {
      assert InOrder(KeyOf(rows[0], DueCol), KeyOf(rows[k], DueCol), true);
      DateKeyOrder(rows[0].due.value, t.due.value);
    }
  }

  // ---- upcoming ----

  lemma UpcomingQueryMeaning(user: int, weekAhead: Date, t: Task)
    ensures Matches(UpcomingQuery(user, weekAhead), t) <==>
      t.userId == user && t.status == Pending && t.due.Some? && NotAfter(t.due.value, weekAhead)
  {
    var q := UpcomingQuery(user, weekAhead);
    assert Matches(q, t) <==> Holds(q[0], t) && Holds(q[1], t) && Holds(q[2], t) && Holds(q[3], t);
  }

  lemma {:induction false} UpcomingItemsAt(rows: seq<Task>, assets: seq<Asset>, today: Date, weekAhead: Date, i: nat)
    requires i < |rows|
    ensures UpcomingItems(rows, assets, today, weekAhead)[i] == UpcomingItemOf(rows[i], assets, today, weekAhead)
  {
    if i < |rows| - 1 {
      UpcomingItemsAt(rows[..|rows| - 1], assets, today, weekAhead, i);
    }
  }

  function SoonCount(items: seq<UpcomingItem>): (n: nat)
    ensures n <= |items|
  {
    if items == [] then 0 else SoonCount(items[..|items| - 1]) + (if items[|items| - 1].isSoon then 1 else 0)
  }

  lemma {:induction false} DueNextWeekIsSoonCount(rows: seq<Task>, assets: seq<Asset>, today: Date, weekAhead: Date)
    ensures var items := UpcomingItems(rows, assets, today, weekAhead);
      DueNextWeek(items, weekAhead) == SoonCount(items)
  {
    if rows != [] {
      var items := UpcomingItems(rows, assets, today, weekAhead);
      assert items[..|items| - 1] == UpcomingItems(rows[..|rows| - 1], assets, today, weekAhead);
      DueNextWeekIsSoonCount(rows[..|rows| - 1], assets, today, weekAhead);
    }
  }

  /**
   * The upcoming list holds at most eight pending tasks of `user` due no
   * later than a week ahead, in ascending due order.
   */
  lemma UpcomingRows(user: int, today: Date, tasks: seq<Task>)
    requires ValidDate(today)
    ensures var week, rows := WeekAhead(today), UpcomingTasks(user, WeekAhead(today), tasks);
      && |rows| <= 8
      && (forall i :: 0 <= i < |rows| ==>
            && rows[i] in tasks && rows[i].userId == user && rows[i].status == Pending
            && rows[i].due.Some? && NotAfter(rows[i].due.value, week))
      && (forall i, j :: 0 <= i < j < |rows| ==> NotAfter(rows[i].due.value, rows[j].due.value))
  {
    var week := WeekAhead(today);
    var rows := UpcomingTasks(user, week, tasks);
    TopRows(UpcomingQuery(user, week), tasks, DueCol, true, 8);
    forall i | 0 <= i < |rows|
      ensures rows[i].userId == user && rows[i].status == Pending && rows[i].due.Some? && NotAfter(rows[i].due.value, week)
    {
      UpcomingQueryMeaning(user, week, rows[i]);
    }
    forall i, j | 0 <= i < j < |rows| ensures NotAfter(rows[i].due.value, rows[j].due.value) {
      assert InOrder(KeyOf(rows[i], DueCol), KeyOf(rows[j], DueCol), true);
      DateKeyOrder(rows[i].due.value, rows[j].due.value);
    }
  }

  /**
   * No qualifying task is missing from the upcoming list unless the list is
   * full (eight rows) and every listed task is due no later than it; with at
   * most eight qualifying tasks, all are listed.
   */
  lemma UpcomingComplete(user: int, today: Date, tasks: seq<Task>, t: Task)
    requires ValidDate(today)
    requires t in tasks && t.userId == user && t.status == Pending
    requires t.due.Some? && NotAfter(t.due.value, WeekAhead(today))
    ensures var week, rows := WeekAhead(today), UpcomingTasks(user, WeekAhead(today), tasks);
      && (Count(UpcomingQuery(user, week), tasks) <= 8 ==> t in rows)
      && (t !in rows ==> |rows| == 8 && forall i :: 0 <= i < |rows| ==>
            rows[i].due.Some? && NotAfter(rows[i].due.value, t.due.value))
  {
    var week := WeekAhead(today);
    var q := UpcomingQuery(user, week);
    UpcomingQueryMeaning(user, week, t);
    TopRowsComplete(q, tasks, DueCol, true, 8, t);
    var rows := UpcomingTasks(user, week, tasks);
    if t !in rows {
      EarlierDue(rows, t);
    }
  }

  /** Rows that may precede a dated `t` in ascending due order are due no later than it. */
  lemma EarlierDue(rows: seq<Task>, t: Task)
    requires t.due.Some?
    requires forall i :: 0 <= i < |rows| ==> InOrder(KeyOf(rows[i], DueCol), KeyOf(t, DueCol), true)
    ensures forall i :: 0 <= i < |rows| ==> rows[i].due.Some? && NotAfter(rows[i].due.value, t.due.value)
  {
    forall i | 0 <= i < |rows| ensures rows[i].due.Some? && NotAfter(rows[i].due.value, t.due.value) {
      assert InOrder(KeyOf(rows[i], DueCol), KeyOf(t, DueCol), true);
      DateKeyOrder(rows[i].due.value, t.due.value);
    }
  }

  /**
   * Entry `i` of the upcoming list describes upcoming task `i`: overdue when
   * due before today, soon when due from today on, and exactly one of the two.
   */
  lemma UpcomingEntry(user: int, today: Date, tasks: seq<Task>, assets: seq<Asset>, i: int)
    requires ValidDate(today)
    requires 0 <= i < |UpcomingTasks(user, WeekAhead(today), tasks)|
    ensures var t, items := UpcomingTasks(user, WeekAhead(today), tasks)[i], Upcoming(user, today, tasks, assets);
      && |items| == |UpcomingTasks(user, WeekAhead(today), tasks)|
      && items[i].id == t.id && items[i].title == t.title && items[i].assetName == AssetName(assets, t)
      && items[i].due == t.due && t.due.Some?
      && items[i].isOverdue == Before(t.due.value, today)
      && items[i].isSoon == NotAfter(today, t.due.value)
      && items[i].isOverdue != items[i].isSoon
  {
    var week := WeekAhead(today);
    var rows := UpcomingTasks(user, week, tasks);
    TopRows(UpcomingQuery(user, week), tasks, DueCol, true, 8);
    UpcomingQueryMeaning(user, week, rows[i]);
    UpcomingItemsAt(rows, assets, today, week, i);
  }

  /** `due_7d` counts the soon entries of the upcoming list, so at most eight. */
  lemma DueNextWeekCount(user: int, today: Date, tasks: seq<Task>, assets: seq<Asset>)
    requires ValidDate(today)
    ensures var items := Upcoming(user, today, tasks, assets);
      DashboardStats(user, today, tasks, assets).due7d == SoonCount(items) <= |items| <= 8
  {
    UpcomingRows(user, today, tasks);
    DueNextWeekIsSoonCount(UpcomingTasks(user, WeekAhead(today), tasks), assets, today, WeekAhead(today));
  }

  // ---- spend ----

  lemma {:induction false} TotalCostAppend(a: seq<Task>, b: seq<Task>)
    ensures TotalCost(a + b) == TotalCost(a) + TotalCost(b)
    decreases |b|
  {
    if b != [] {
      var ab := a + b;
      assert ab[..|ab| - 1] == a + b[..|b| - 1];
      assert ab[|ab| - 1] == b[|b| - 1];
      TotalCostAppend(a, b[..|b| - 1]);
      assert TotalCost(ab) == TotalCost(ab[..|ab| - 1]) + CostOf(ab[|ab| - 1]);
    } else {
      assert a + b == a;
    }
  }

  lemma CostQueryMeaning(user: int, start: Date, end: Option<Date>, t: Task)
    ensures Matches(CostQuery(user, start, end), t) <==>
      t.userId == user && t.status == Done && t.updatedAt.Some?
      && !StampBefore(t.updatedAt.value, Midnight(start))
      && (end.Some? ==> StampBefore(t.updatedAt.value, Midnight(end.value)))
  {
    var q := CostQuery(user, start, end);
    if end.Some? {
      assert Matches(q, t) <==> Holds(q[0], t) && Holds(q[1], t) && Holds(q[2], t) && Holds(q[3], t) && Holds(q[4], t);
    } else {
      assert Matches(q, t) <==> Holds(q[0], t) && Holds(q[1], t) && Holds(q[2], t) && Holds(q[3], t);
    }
  }

  /** The spend from `a` splits at any later day `b` into the window [a, b) and the spend from `b`. */
  lemma {:induction false} CostWindowsAdd(user: int, tasks: seq<Task>, a: Date, b: Date)
    requires NotAfter(a, b)
    ensures TotalCost(Select(CostQuery(user, a, None), tasks))
      == TotalCost(Select(CostQuery(user, a, Some(b)), tasks)) + TotalCost(Select(CostQuery(user, b, None), tasks))
  {
    if tasks != [] {
      var t, rest := tasks[0], tasks[1..];
      CostWindowsAdd(user, rest, a, b);
      CostQueryMeaning(user, a, None, t);
      CostQueryMeaning(user, a, Some(b), t);
      CostQueryMeaning(user, b, None, t);
      var qa, qab, qb := CostQuery(user, a, None), CostQuery(user, a, Some(b)), CostQuery(user, b, None);
      TotalCostAppend(if Matches(qa, t) then [t] else [], Select(qa, rest));
      TotalCostAppend(if Matches(qab, t) then [t] else [], Select(qab, rest));
      TotalCostAppend(if Matches(qb, t) then [t] else [], Select(qb, rest));
    }
  }

  lemma {:induction false} TotalCostNonNegative(rows: seq<Task>)
    requires forall t :: t in rows && t.cost.Some? ==> t.cost.value >= 0
    ensures TotalCost(rows) >= 0
  {
    if rows != [] {
      assert rows[|rows| - 1] in rows;
      TotalCostNonNegative(rows[..|rows| - 1]);
    }
  }

  /**
   * This month's and last month's spend: never negative when no cost is, and
   * together the spend since the first day of last month.
   */
  lemma SpendFacts(user: int, today: Date, tasks: seq<Task>, assets: seq<Asset>)
    requires ValidDate(today)
    ensures var s, first := DashboardStats(user, today, tasks, assets), FirstOfMonth(today);
      && s.monthCost + s.prevMonthCost == TotalCost(Select(CostQuery(user, MonthsBack(first, 1), None), tasks))
      && ((forall t :: t in tasks && t.cost.Some? ==> t.cost.value >= 0) ==> s.monthCost >= 0 && s.prevMonthCost >= 0)
  {
    var first := FirstOfMonth(today);
    var prev := MonthsBack(first, 1);
    MonthIndexBefore(prev, first);
    CostWindowsAdd(user, tasks, prev, first);
    if forall t :: t in tasks && t.cost.Some? ==> t.cost.value >= 0 {
      TotalCostNonNegative(Select(CostQuery(user, first, None), tasks));
      TotalCostNonNegative(Select(CostQuery(user, prev, Some(first)), tasks));
    }
  }

  // ---- assets ----

  /** Assets under warranty are some of the user's assets. */
  lemma WarrantiedAtMostAssets(user: int, today: Date, tasks: seq<Task>, assets: seq<Asset>)
    requires ValidDate(today)
    ensures var s := DashboardStats(user, today, tasks, assets); s.warrantied <= s.assetCount
  {
    var s := DashboardStats(user, today, tasks, assets);
    assert s.warrantied == AssetCount(WarrantyQuery(user, today), assets);
    assert s.assetCount == AssetCount(AssetQuery(user), assets);
    WarrantyNarrows(user, today, assets);
  }

  lemma WarrantyNarrows(user: int, today: Date, assets: seq<Asset>)
    ensures AssetCount(WarrantyQuery(user, today), assets) <= AssetCount(AssetQuery(user), assets)
  {
    assert WarrantyQuery(user, today) == AssetQuery(user) + [WarrantySet, WarrantyFrom(today)];
    AssetCountNarrows(AssetQuery(user), [WarrantySet, WarrantyFrom(today)], assets);
  }

  // ---- activity ----

  lemma {:induction false} ActivityItemsAt(rows: seq<Task>, i: nat)
    requires i < |rows|
    ensures ActivityItems(rows)[i] == ActivityOf(rows[i])
  {
    if i < |rows| - 1 {
      ActivityItemsAt(rows[..|rows| - 1], i);
    }
  }

  /**
   * The activity feed: at most five of `user`'s tasks, most recently updated
   * first (never-updated ones last), with the check icon and "completed"
   * exactly for done tasks.
   */
  lemma ActivityFacts(user: int, tasks: seq<Task>)
    ensures var rows, items := RecentTasks(user, tasks), ActivityItems(RecentTasks(user, tasks));
      && |items| == |rows| <= 5
      && (forall i :: 0 <= i < |rows| ==>
            && rows[i] in tasks && rows[i].userId == user
            && items[i].taskId == rows[i].id
            && (items[i].icon == CompletedIcon <==> rows[i].status == Done)
            && items[i].completed == (rows[i].status == Done))
      && (forall i, j :: 0 <= i < j < |rows| && rows[j].updatedAt.Some? ==>
            rows[i].updatedAt.Some? && !StampBefore(rows[i].updatedAt.value, rows[j].updatedAt.value))
  {
    var rows := RecentTasks(user, tasks);
    TopRows([OwnedBy(user)], tasks, UpdatedCol, false, 5);
    forall i | 0 <= i < |rows| ensures rows[i].userId == user {
      assert Holds([OwnedBy(user)][0], rows[i]);
    }
    ActivityEntries(rows);
    RecentOrder(user, tasks);
  }

  /**
   * None of `user`'s tasks is missing from the feed unless the feed is full
   * (five rows) and every listed task was updated no earlier than it, an
   * updated one never giving way to one never updated; with at most five
   * tasks, all are listed.
   */
  lemma ActivityComplete(user: int, tasks: seq<Task>, t: Task)
    requires t in tasks && t.userId == user
    ensures var rows := RecentTasks(user, tasks);
      && (Count([OwnedBy(user)], tasks) <= 5 ==> t in rows)
      && (t !in rows ==> |rows| == 5 && forall i :: 0 <= i < |rows| && t.updatedAt.Some? ==>
            rows[i].updatedAt.Some? && !StampBefore(rows[i].updatedAt.value, t.updatedAt.value))
  {
    var q := [OwnedBy(user)];
    assert Holds(q[0], t);
    TopRowsComplete(q, tasks, UpdatedCol, false, 5, t);
    var rows := RecentTasks(user, tasks);
    if t !in rows {
      LaterUpdated(rows, t);
    }
  }

  /** Rows that may precede `t` in descending update order were updated no earlier than it. */
  lemma LaterUpdated(rows: seq<Task>, t: Task)
    requires forall i :: 0 <= i < |rows| ==> InOrder(KeyOf(rows[i], UpdatedCol), KeyOf(t, UpdatedCol), false)
    ensures forall i :: 0 <= i < |rows| && t.updatedAt.Some? ==>
      rows[i].updatedAt.Some? && !StampBefore(rows[i].updatedAt.value, t.updatedAt.value)
  {
    forall i | 0 <= i < |rows| && t.updatedAt.Some?
      ensures rows[i].updatedAt.Some? && !StampBefore(rows[i].updatedAt.value, t.updatedAt.value)
    {
      assert InOrder(KeyOf(rows[i], UpdatedCol), KeyOf(t, UpdatedCol), false);
      StampKeyOrder(t.updatedAt.value, rows[i].updatedAt.value);
    }
  }

  /** One entry per row, in order: its id, and the check icon and "completed" exactly when it is done. */
  lemma ActivityEntries(rows: seq<Task>)
    ensures var items := ActivityItems(rows);
      forall i :: 0 <= i < |rows| ==>
        && items[i].taskId == rows[i].id
        && (items[i].icon == CompletedIcon <==> rows[i].status == Done)
        && items[i].completed == (rows[i].status == Done)
  {
    var items := ActivityItems(rows);
    assert CompletedIcon[13] != UpdatedIcon[13];
    forall i | 0 <= i < |rows|
      ensures && items[i].taskId == rows[i].id
              && (items[i].icon == CompletedIcon <==> rows[i].status == Done)
              && items[i].completed == (rows[i].status == Done)
    {
      ActivityItemsAt(rows, i);
    }
  }

  lemma RecentOrder(user: int, tasks: seq<Task>)
    ensures var rows := RecentTasks(user, tasks);
      forall i, j :: 0 <= i < j < |rows| && rows[j].updatedAt.Some? ==>
        rows[i].updatedAt.Some? && !StampBefore(rows[i].updatedAt.value, rows[j].updatedAt.value)
  {
    var rows := RecentTasks(user, tasks);
    TopRows([OwnedBy(user)], tasks, UpdatedCol, false, 5);
    forall i, j | 0 <= i < j < |rows| && rows[j].updatedAt.Some?
      ensures rows[i].updatedAt.Some? && !StampBefore(rows[i].updatedAt.value, rows[j].updatedAt.value)
    {
      assert InOrder(KeyOf(rows[i], UpdatedCol), KeyOf(rows[j], UpdatedCol), false);
      StampKeyOrder(rows[j].updatedAt.value, rows[i].updatedAt.value);
    }
  }
}
