/**
 * The dashboard of app/blueprints/main.py: the calendar-month helpers
 * `_month_start` and `_next_month`, and everything `index` computes for one
 * user on one day, as a snapshot. `Dashboard` states the snapshot as a
 * function of the rows; `Index` computes it the way the handler does, with
 * its accumulator and append loops.
 */
module Dashboard {
  import opened Common
  import opened Dates
  import opened Records
  import opened Store

  // ---- calendar months ----

  /** Day 1 of the month `k` months before `base`'s month. */
  function MonthsBack(base: Date, k: int): (r: Date)
    ensures ValidDate(r) && r.day == 1 && MonthIndex(r) == MonthIndex(base) - k
  {
    MonthOfIndex(MonthIndex(base) - k)
  }

  /** `_month_start(base, months_back)`: steps back one month at a time, wrapping January to December of the year before. */
  method MonthStart(base: Date, monthsBack: int) returns (r: Date)
    requires ValidDate(base)
    ensures r.day == 1 && 1 <= r.month <= 12
    ensures MonthIndex(r) == MonthIndex(base) - (if monthsBack > 0 then monthsBack else 0)
    ensures r == MonthsBack(base, if monthsBack > 0 then monthsBack else 0)
  {
    var year, month := base.year, base.month;
    var i := 0;
    while i < monthsBack
      invariant 0 <= i <= (if monthsBack > 0 then monthsBack else 0)
      invariant 1 <= month <= 12
      invariant year * 12 + (month - 1) == MonthIndex(base) - i
    {
      month := month - 1;
      if month == 0 {
        month := 12;
        year := year - 1;
      }
      i := i + 1;
    }
    r := Date(year, month, 1);
    MonthIndexInjective(r, MonthsBack(base, i));
  }

  /** `_next_month(value)`: day 1 of the following month; the day of `value` plays no part. */
  function NextMonth(value: Date): (r: Date)
    requires 1 <= value.month <= 12
    ensures ValidDate(r) && r.day == 1
    ensures MonthIndex(r) == MonthIndex(value) + 1
  {
    if value.month == 12 then Date(value.year + 1, 1, 1) else Date(value.year, value.month + 1, 1)
  }

  /** `n` consecutive months from `start`, each the `_next_month` of the one before. */
  function MonthRun(start: Date, n: nat): (r: seq<Date>)
    requires 1 <= start.month <= 12
    ensures |r| == n
    decreases n
  {
    if n == 0 then [] else [start] + MonthRun(NextMonth(start), n - 1)
  }

  /** The chart's cursor loop: appends the cursor and advances it to the next month, twelve times. */
  method ChartMonths(start: Date) returns (months: seq<Date>)
    requires ValidDate(start)
    ensures months == MonthRun(start, 12)
  {
    months := [];
    var cursor := start;
    var i := 0;
    while i < 12
      invariant 0 <= i <= 12 && 1 <= cursor.month <= 12
      invariant months + MonthRun(cursor, 12 - i) == MonthRun(start, 12)
    {
      assert MonthRun(cursor, 12 - i) == [cursor] + MonthRun(NextMonth(cursor), 12 - i - 1);
      assert months + [cursor] + MonthRun(NextMonth(cursor), 12 - i - 1) == months + MonthRun(cursor, 12 - i);
      months := months + [cursor];
      cursor := NextMonth(cursor);
      i := i + 1;
    }
  }

  // ---- the completion histogram ----

  type YearMonth = (int, int)

  function YearMonthOf(d: Date): YearMonth {
    (d.year, d.month)
  }

  /** `task.updated_at or task.created_at`. */
  function Stamp(t: Task): Option<Timestamp> {
    if t.updatedAt.Some? then t.updatedAt else t.createdAt
  }

  /** Does row `t` land in the counter under `ym`? */
  predicate InMonth(t: Task, ym: YearMonth) {
    Stamp(t).Some? && YearMonthOf(Stamp(t).value.date) == ym
  }

  /** How many rows the `Counter` holds under `ym`. */
  function Tally(rows: seq<Task>, ym: YearMonth): nat {
    if rows == [] then 0
    else Tally(rows[..|rows| - 1], ym) + (if InMonth(rows[|rows| - 1], ym) then 1 else 0)
  }

  /** `Counter.get(key, 0)`. */
  function Lookup(counter: map<YearMonth, nat>, ym: YearMonth): nat {
    if ym in counter then counter[ym] else 0
  }

  /** The `month_counter` loop: one increment under each row's (year, month). */
  method CountByMonth(rows: seq<Task>) returns (counter: map<YearMonth, nat>)
    ensures forall ym :: Lookup(counter, ym) == Tally(rows, ym)
  {
    counter := map[];
    var i := 0;
    while i < |rows|
      invariant 0 <= i <= |rows|
      invariant forall ym :: Lookup(counter, ym) == Tally(rows[..i], ym)
    {
      var t := rows[i];
      assert rows[..i + 1][..i] == rows[..i];
      var stamp := Stamp(t);
      if stamp.Some? {
        var key := YearMonthOf(stamp.value.date);
        counter := counter[key := Lookup(counter, key) + 1];
      }
      i := i + 1;
    }
    assert rows[..i] == rows;
  }

  /** The done tasks of `user` the chart counts: completed on or after midnight of the chart's first day. */
  function ChartQuery(user: int, chartStart: Date): TaskQuery {
    [OwnedBy(user), StatusIs(Done), UpdatedSet, UpdatedFrom(Midnight(chartStart))]
  }

  // ---- spend ----

  /** The done tasks of `user` updated from midnight of `start`, and before midnight of `end` when there is one. */
  function CostQuery(user: int, start: Date, end: Option<Date>): TaskQuery {
    [OwnedBy(user), StatusIs(Done), UpdatedSet, UpdatedFrom(Midnight(start))]
      + (if end.Some? then [UpdatedBefore(Midnight(end.value))] else [])
  }

  /** What `if task.cost: total += task.cost` adds: nothing for a NULL or zero cost. */
  function CostOf(t: Task): int {
    if t.cost.Some? && t.cost.value != 0 then t.cost.value else 0
  }

  function TotalCost(rows: seq<Task>): int {
    if rows == [] then 0 else TotalCost(rows[..|rows| - 1]) + CostOf(rows[|rows| - 1])
  }

  /** `_sum_cost(start_date, end_date)`, in cents and without the final rounding. */
  method SumCost(user: int, tasks: seq<Task>, start: Date, end: Option<Date>) returns (total: int)
    ensures total == TotalCost(Select(CostQuery(user, start, end), tasks))
  {
    var rows := Select(CostQuery(user, start, end), tasks);
    total := 0;
    for i := 0 to |rows|
      invariant total == TotalCost(rows[..i])
    {
      assert rows[..i + 1][..i] == rows[..i];
      var task := rows[i];
      if task.cost.Some? && task.cost.value != 0 {
        total := total + task.cost.value;
      }
    }
    assert rows[..|rows|] == rows;
  }

  // ---- pending and overdue ----

  function PendingQuery(user: int): TaskQuery {
    [OwnedBy(user), StatusIs(Pending)]
  }

  function OverdueQuery(user: int, today: Date): TaskQuery {
    [OwnedBy(user), StatusIs(Pending), DueSet, DueBefore(today)]
  }

  /** The due date of the first overdue row in ascending due order, or None. */
  function OldestOverdue(user: int, today: Date, tasks: seq<Task>): (r: Option<Date>)
    ensures r.None? <==> Count(OverdueQuery(user, today), tasks) == 0
    ensures r.Some? ==> Before(r.value, today)
  {
    var q := OverdueQuery(user, today);
    var sel := Select(q, tasks);
    var rows := OrderBy(sel, DueCol, true);
    if rows == [] then None
    else
      assert rows[0] in multiset(sel);
      assert Matches(q, rows[0]) && Holds(q[3], rows[0]);
      rows[0].due
  }

  // ---- assets ----

  function AssetQuery(user: int): seq<AssetCond> {
    [AssetOwnedBy(user)]
  }

  function WarrantyQuery(user: int, today: Date): seq<AssetCond> {
    [AssetOwnedBy(user), WarrantySet, WarrantyFrom(today)]
  }

  // ---- upcoming ----

  function UpcomingQuery(user: int, weekAhead: Date): TaskQuery {
    [OwnedBy(user), StatusIs(Pending), DueSet, DueNotAfter(weekAhead)]
  }

  /** The first eight upcoming rows, by ascending due date. */
  function UpcomingTasks(user: int, weekAhead: Date, tasks: seq<Task>): (r: seq<Task>)
    ensures |r| <= 8 && Ordered(r, DueCol, true)
    ensures forall i :: 0 <= i < |r| ==> r[i] in tasks && Matches(UpcomingQuery(user, weekAhead), r[i])
  {
    TopRows(UpcomingQuery(user, weekAhead), tasks, DueCol, true, 8);
    Limit(OrderBy(Select(UpcomingQuery(user, weekAhead), tasks), DueCol, true), 8)
  }

  /** One entry of the upcoming list; `dueLabel` stands for the "%b %d" label of the date. */
  datatype UpcomingItem = UpcomingItem(
    id: int,
    title: string,
    assetName: string,
    dueLabel: Option<Date>,
    isOverdue: bool,
    due: Option<Date>,
    isSoon: bool)

  function UpcomingItemOf(t: Task, assets: seq<Asset>, today: Date, weekAhead: Date): UpcomingItem {
    UpcomingItem(
      t.id,
      t.title,
      AssetName(assets, t),
      t.due,
      t.due.Some? && Before(t.due.value, today),
      t.due,
      t.due.Some? && NotAfter(today, t.due.value) && NotAfter(t.due.value, weekAhead))
  }

  function UpcomingItems(rows: seq<Task>, assets: seq<Asset>, today: Date, weekAhead: Date): (r: seq<UpcomingItem>)
    ensures |r| == |rows|
  {
    if rows == [] then []
    else
      UpcomingItems(rows[..|rows| - 1], assets, today, weekAhead)
        + [UpcomingItemOf(rows[|rows| - 1], assets, today, weekAhead)]
  }

  /** The loop that appends one entry per upcoming row. */
  method BuildUpcoming(rows: seq<Task>, assets: seq<Asset>, today: Date, weekAhead: Date)
    returns (upcoming: seq<UpcomingItem>)
    ensures upcoming == UpcomingItems(rows, assets, today, weekAhead)
  {
    upcoming := [];
    for i := 0 to |rows|
      invariant upcoming == UpcomingItems(rows[..i], assets, today, weekAhead)
    {
      assert rows[..i + 1][..i] == rows[..i];
      var task := rows[i];
      upcoming := upcoming + [UpcomingItemOf(task, assets, today, weekAhead)];
    }
    assert rows[..|rows|] == rows;
  }

  /** `due_next_week`: entries that have a due date, are not overdue and fall on or before `weekAhead`. */
  function DueNextWeek(items: seq<UpcomingItem>, weekAhead: Date): (n: nat)
    ensures n <= |items|
  {
    if items == [] then 0
    else
      var item := items[|items| - 1];
      DueNextWeek(items[..|items| - 1], weekAhead)
        + (if item.due.Some? && !item.isOverdue && NotAfter(item.due.value, weekAhead) then 1 else 0)
  }

  // ---- recent activity ----

  /** The five most recently updated tasks of `user`, any status. */
  function RecentTasks(user: int, tasks: seq<Task>): (r: seq<Task>)
    ensures |r| <= 5 && Ordered(r, UpdatedCol, false)
    ensures forall i :: 0 <= i < |r| ==> r[i] in tasks && Matches([OwnedBy(user)], r[i])
  {
    TopRows([OwnedBy(user)], tasks, UpdatedCol, false, 5);
    Limit(OrderBy(Select([OwnedBy(user)], tasks), UpdatedCol, false), 5)
  }

  const CompletedIcon := "bi-clipboard-check"
  const UpdatedIcon := "bi-clipboard-plus"

  /**
   * One activity entry: the icon, the task's title with "completed" or
   * "updated" (`completed`), the timestamp its "when" text is formatted from
   * (None stands for the dash), and the task it links to.
   */
  datatype ActivityItem = ActivityItem(icon: string, title: string, completed: bool, when: Option<Timestamp>, taskId: int)

  function ActivityOf(t: Task): ActivityItem {
    ActivityItem(
      if t.status == Done then CompletedIcon else UpdatedIcon,
      t.title,
      t.status == Done,
      Stamp(t),
      t.id)
  }

  function ActivityItems(rows: seq<Task>): (r: seq<ActivityItem>)
    ensures |r| == |rows|
  {
    if rows == [] then [] else ActivityItems(rows[..|rows| - 1]) + [ActivityOf(rows[|rows| - 1])]
  }

  /** The loop that appends one activity entry per recent task. */
  method BuildActivity(rows: seq<Task>) returns (activity: seq<ActivityItem>)
    ensures activity == ActivityItems(rows)
  {
    activity := [];
    for i := 0 to |rows|
      invariant activity == ActivityItems(rows[..i])
    {
      assert rows[..i + 1][..i] == rows[..i];
      activity := activity + [ActivityOf(rows[i])];
    }
    assert rows[..|rows|] == rows;
  }

  // ---- the snapshot ----

  datatype Stats = Stats(
    pending: nat,
    due7d: nat,
    overdue: nat,
    oldestOverdue: Option<Date>,
    assetCount: nat,
    warrantied: nat,
    monthCost: int,
    prevMonthCost: int)

  /** What `index` hands to the template; a chart label stands for its month's "%b %Y" text. */
  datatype Snapshot = Snapshot(
    stats: Stats,
    upcoming: seq<UpcomingItem>,
    activity: seq<ActivityItem>,
    chartLabels: seq<YearMonth>,
    chartValues: seq<nat>)

  function FirstOfMonth(today: Date): Date {
    Date(today.year, today.month, 1)
  }

  /** The first month of the chart: eleven months before the current one. */
  function ChartStart(today: Date): Date {
    MonthsBack(FirstOfMonth(today), 11)
  }

  function WeekAhead(today: Date): Date
    requires ValidDate(today)
  {
    AddDays(today, 7)
  }

  /** The entries of the upcoming list. */
  function Upcoming(user: int, today: Date, tasks: seq<Task>, assets: seq<Asset>): seq<UpcomingItem>
    requires ValidDate(today)
  {
    UpcomingItems(UpcomingTasks(user, WeekAhead(today), tasks), assets, today, WeekAhead(today))
  }

  /** The chart's twelve months, oldest first. */
  function ChartMonthsOf(today: Date): (months: seq<Date>)
    ensures |months| == 12
  {
    MonthRun(ChartStart(today), 12)
  }

  function ChartLabels(today: Date): (labels: seq<YearMonth>)
    ensures |labels| == 12
  {
    var months := ChartMonthsOf(today);
    seq(12, i requires 0 <= i < 12 => YearMonthOf(months[i]))
  }

  /** The done tasks the histogram counts. */
  function Completed(user: int, today: Date, tasks: seq<Task>): seq<Task> {
    Select(ChartQuery(user, ChartStart(today)), tasks)
  }

  function ChartValues(user: int, today: Date, tasks: seq<Task>): (values: seq<nat>)
    ensures |values| == 12
  {
    var months := ChartMonthsOf(today);
    var completed := Completed(user, today, tasks);
    seq(12, i requires 0 <= i < 12 => Tally(completed, YearMonthOf(months[i])))
  }

  function DashboardStats(user: int, today: Date, tasks: seq<Task>, assets: seq<Asset>): (r: Stats)
    requires ValidDate(today)
    ensures r.overdue <= r.pending
    ensures r.oldestOverdue.None? <==> r.overdue == 0
    ensures r.due7d <= 8
  {
    assert OverdueQuery(user, today) == PendingQuery(user) + [DueSet, DueBefore(today)];
    CountNarrows(PendingQuery(user), [DueSet, DueBefore(today)], tasks);
    var first := FirstOfMonth(today);
    Stats(
      Count(PendingQuery(user), tasks),
      DueNextWeek(Upcoming(user, today, tasks, assets), WeekAhead(today)),
      Count(OverdueQuery(user, today), tasks),
      OldestOverdue(user, today, tasks),
      AssetCount(AssetQuery(user), assets),
      AssetCount(WarrantyQuery(user, today), assets),
      TotalCost(Select(CostQuery(user, first, None), tasks)),
      TotalCost(Select(CostQuery(user, MonthsBack(first, 1), Some(first)), tasks)))
  }

  /** The dashboard of `user` on `today`, as a function of all users' tasks and assets. */
  function Dashboard(user: int, today: Date, tasks: seq<Task>, assets: seq<Asset>): (r: Snapshot)
    requires ValidDate(today)
    ensures |r.upcoming| <= 8 && |r.activity| <= 5
    ensures |r.chartLabels| == 12 && |r.chartValues| == 12
    ensures r.stats.due7d <= |r.upcoming|
  {
    Snapshot(
      DashboardStats(user, today, tasks, assets),
      Upcoming(user, today, tasks, assets),
      ActivityItems(RecentTasks(user, tasks)),
      ChartLabels(today),
      ChartValues(user, today, tasks))
  }

  /** `index()`: the handler's computation, step by step. */
  method Index(user: int, today: Date, tasks: seq<Task>, assets: seq<Asset>) returns (snap: Snapshot)
    requires ValidDate(today)
    ensures snap == Dashboard(user, today, tasks, assets)
  {
    var weekAhead := AddDays(today, 7);
    var firstOfMonth := Date(today.year, today.month, 1);
    var firstOfPrevMonth := MonthStart(firstOfMonth, 1);

    var pendingCount := Count(PendingQuery(user), tasks);
    var overdueCount := Count(OverdueQuery(user, today), tasks);
    var oldestOverdue := OldestOverdue(user, today, tasks);
    var assetCount := AssetCount(AssetQuery(user), assets);
    var warrantied := AssetCount(WarrantyQuery(user, today), assets);

    var monthCost := SumCost(user, tasks, firstOfMonth, None);
    var prevMonthCost := SumCost(user, tasks, firstOfPrevMonth, Some(firstOfMonth));

    var upcoming := BuildUpcoming(UpcomingTasks(user, weekAhead, tasks), assets, today, weekAhead);
    var dueNextWeek := DueNextWeek(upcoming, weekAhead);
    var stats := Stats(pendingCount, dueNextWeek, overdueCount, oldestOverdue, assetCount, warrantied, monthCost, prevMonthCost);
    assert stats == DashboardStats(user, today, tasks, assets);

    var chartLabels, chartValues := ChartSeries(user, today, tasks, firstOfMonth);

    var activity := BuildActivity(RecentTasks(user, tasks));

    snap := Snapshot(stats, upcoming, activity, chartLabels, chartValues);
  }

  /** The chart part of `index`: twelve month labels and the completed-task count of each. */
  method ChartSeries(user: int, today: Date, tasks: seq<Task>, firstOfMonth: Date) returns (labels: seq<YearMonth>, values: seq<nat>)
    requires ValidDate(today) && firstOfMonth == Date(today.year, today.month, 1)
    ensures labels == ChartLabels(today) && values == ChartValues(user, today, tasks)
  {
    var chartStartMonth := MonthStart(firstOfMonth, 11);
    var chartMonths := ChartMonths(chartStartMonth);
    var completedTasks := Select(ChartQuery(user, chartMonths[0]), tasks);
    var monthCounter := CountByMonth(completedTasks);
    labels := seq(12, i requires 0 <= i < 12 => YearMonthOf(chartMonths[i]));
    values := seq(12, i requires 0 <= i < 12 => Lookup(monthCounter, YearMonthOf(chartMonths[i])));
    assert labels == ChartLabels(today);
    assert values == ChartValues(user, today, tasks);
  }
}
