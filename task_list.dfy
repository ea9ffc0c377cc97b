/**
 * The task list page and the CSV export (app/blueprints/tasks.py): the
 * query-string filters, sort and row cap of `list_tasks`, and the rows
 * `export_tasks` writes.
 */
module TaskList {
  import opened Common
  import opened Dates
  import opened Records
  import opened Store
  import opened Iso

  /** The `request.args` the list reads; an absent parameter is `None`. */
  datatype ListArgs = ListArgs(status: Option<string>, window: Option<string>, sort: Option<string>, dir: Option<string>)

  const RowCap := 250

  /** The `status` filter: "open", "overdue" and "done" narrow the list, anything else keeps it. */
  function StatusConds(status: string, today: Date): TaskQuery {
    if status == "open" then [StatusIs(Pending)]
    else if status == "overdue" then [StatusIs(Pending), DueSet, DueBefore(today)]
    else if status == "done" then [StatusIs(Done)]
    else []
  }

  /** The `window` filter: "7d" and "30d" keep tasks due no later than that many days after today, overdue ones included. */
  function WindowConds(window: Option<string>, today: Date): TaskQuery
    requires ValidDate(today)
  {
    if window == Some("7d") then [DueSet, DueNotAfter(AddDays(today, 7))]
    else if window == Some("30d") then [DueSet, DueNotAfter(AddDays(today, 30))]
    else []
  }

  function ListQuery(user: int, today: Date, args: ListArgs): TaskQuery
    requires ValidDate(today)
  {
    [OwnedBy(user)] + StatusConds(args.status.GetOr("all"), today) + WindowConds(args.window, today)
  }

  /** `sort_map.get(sort, Task.due_date)`. */
  function SortColumn(sort: string): Column {
    if sort == "title" then TitleCol
    else if sort == "created" then CreatedCol
    else DueCol
  }

  function ListColumn(args: ListArgs): Column {
    SortColumn(args.sort.GetOr("due"))
  }

  /** `asc` when `dir` is "asc" (the default), `desc` for any other value. */
  function Ascending(args: ListArgs): bool {
    args.dir.GetOr("asc") == "asc"
  }

  /** The rows `list_tasks` shows for `user` on the day `today`. */
  function ListTasks(user: int, today: Date, args: ListArgs, tasks: seq<Task>): (r: seq<Task>)
    requires ValidDate(today)
    ensures |r| <= RowCap && Ordered(r, ListColumn(args), Ascending(args))
    ensures forall i :: 0 <= i < |r| ==> r[i] in tasks && Matches(ListQuery(user, today, args), r[i])
  {
    TopRows(ListQuery(user, today, args), tasks, ListColumn(args), Ascending(args), RowCap);
    Limit(OrderBy(Select(ListQuery(user, today, args), tasks), ListColumn(args), Ascending(args)), RowCap)
  }

  /**
   * What the filters mean for one of the user's tasks, in calendar terms: each
   * recognised `status` or `window` value imposes its condition and any other
   * value imposes none.
   */
  predicate Listed(status: string, window: Option<string>, today: Date, t: Task)
    requires ValidDate(today) && WellFormed(t)
  {
    && (status == "open" ==> t.status == Pending)
    && (status == "overdue" ==> t.status == Pending && t.due.Some? && Ordinal(t.due.value) < Ordinal(today))
    && (status == "done" ==> t.status == Done)
    && (window == Some("7d") ==> t.due.Some? && Ordinal(t.due.value) <= Ordinal(today) + 7)
    && (window == Some("30d") ==> t.due.Some? && Ordinal(t.due.value) <= Ordinal(today) + 30)
  }

  lemma MatchesConcat(a: TaskQuery, b: TaskQuery, t: Task)
    ensures Matches(a + b, t) <==> Matches(a, t) && Matches(b, t)
  {
    if Matches(a, t) && Matches(b, t) {
      forall i | 0 <= i < |a + b| ensures Holds((a + b)[i], t) {
        if i >= |a| {
          assert (a + b)[i] == b[i - |a|];
        }
      }
    }
    if Matches(a + b, t) {
      forall i | 0 <= i < |a| ensures Holds(a[i], t) {
        assert (a + b)[i] == a[i];
      }
      forall i | 0 <= i < |b| ensures Holds(b[i], t) {
        assert (a + b)[|a| + i] == b[i];
      }
    }
  }

  lemma StatusCondsMeaning(status: string, today: Date, t: Task)
    requires ValidDate(today) && WellFormed(t)
    ensures Matches(StatusConds(status, today), t) <==>
      && (status == "open" ==> t.status == Pending)
      && (status == "overdue" ==> t.status == Pending && t.due.Some? && Ordinal(t.due.value) < Ordinal(today))
      && (status == "done" ==> t.status == Done)
  {
    var q := StatusConds(status, today);
    if status == "overdue" {
      assert Matches(q, t) <==> Holds(q[0], t) && Holds(q[1], t) && Holds(q[2], t);
      if t.due.Some? {
        BeforeIsOrdinalOrder(t.due.value, today);
      }
    } else if status == "open" || status == "done" {
      assert Matches(q, t) <==> Holds(q[0], t);
    }
  }

  lemma WindowCondsMeaning(window: Option<string>, today: Date, t: Task)
    requires ValidDate(today) && WellFormed(t)
    ensures Matches(WindowConds(window, today), t) <==>
      && (window == Some("7d") ==> t.due.Some? && Ordinal(t.due.value) <= Ordinal(today) + 7)
      && (window == Some("30d") ==> t.due.Some? && Ordinal(t.due.value) <= Ordinal(today) + 30)
  {
    assert "7d"[0] != "30d"[0];
    if window == Some("7d") {
      DueWithin(today, 7, t);
    } else if window == Some("30d") {
      DueWithin(today, 30, t);
    }
  }

  /** Due by day `n`: a due date no later than `today + n` days, however long ago. */
  lemma DueWithin(today: Date, n: nat, t: Task)
    requires ValidDate(today) && WellFormed(t)
    ensures Matches([DueSet, DueNotAfter(AddDays(today, n))], t) <==>
      t.due.Some? && Ordinal(t.due.value) <= Ordinal(today) + n
  {
    var last := AddDays(today, n);
    var q := [DueSet, DueNotAfter(last)];
    assert Matches(q, t) <==> Holds(q[0], t) && Holds(q[1], t);
    if t.due.Some? {
      var d := t.due.value;
      NotAfterIsOrdinalOrder(d, last);
      assert Matches(q, t) <==> NotAfter(d, last);
      assert NotAfter(d, last) <==> Ordinal(d) <= Ordinal(today) + n;
    }
  }

  /** The list's query keeps exactly the user's own tasks that the filters admit. */
  lemma ListQueryMeaning(user: int, today: Date, args: ListArgs, t: Task)
    requires ValidDate(today) && WellFormed(t)
    ensures Matches(ListQuery(user, today, args), t) <==>
      t.userId == user && Listed(args.status.GetOr("all"), args.window, today, t)
  {
    var status := args.status.GetOr("all");
    MatchesConcat([OwnedBy(user)] + StatusConds(status, today), WindowConds(args.window, today), t);
    MatchesConcat([OwnedBy(user)], StatusConds(status, today), t);
    assert Matches([OwnedBy(user)], t) <==> Holds([OwnedBy(user)][0], t);
    StatusCondsMeaning(status, today, t);
    WindowCondsMeaning(args.window, today, t);
  }

  /**
   * At most 250 rows come back, each one of the user's stored tasks that the
   * filters admit; when no more than 250 tasks qualify, all of them do.
   */
  lemma ListTasksRows(user: int, today: Date, args: ListArgs, tasks: seq<Task>)
    requires ValidDate(today) && AllWellFormed(tasks)
    ensures var r := ListTasks(user, today, args, tasks);
      && |r| <= RowCap
      && (forall i :: 0 <= i < |r| ==>
            r[i] in tasks && r[i].userId == user && Listed(args.status.GetOr("all"), args.window, today, r[i]))
      && (Count(ListQuery(user, today, args), tasks) <= RowCap ==>
            forall k :: (0 <= k < |tasks| && tasks[k].userId == user
              && Listed(args.status.GetOr("all"), args.window, today, tasks[k])) ==> tasks[k] in r)
  {
    var q := ListQuery(user, today, args);
    var sel := Select(q, tasks);
    var sorted := OrderBy(sel, ListColumn(args), Ascending(args));
    var r := ListTasks(user, today, args, tasks);
    forall i | 0 <= i < |r|
      ensures r[i] in tasks && r[i].userId == user && Listed(args.status.GetOr("all"), args.window, today, r[i])
    {
      assert r[i] == sorted[i] && sorted[i] in multiset(sorted);
      var k :| 0 <= k < |tasks| && tasks[k] == r[i];
      ListQueryMeaning(user, today, args, r[i]);
    }
    if |sel| <= RowCap {
      assert r == sorted;
      forall k | 0 <= k < |tasks| && tasks[k].userId == user
        && Listed(args.status.GetOr("all"), args.window, today, tasks[k])
        ensures tasks[k] in r
      {
        ListQueryMeaning(user, today, args, tasks[k]);
        assert tasks[k] in tasks;
        assert tasks[k] in sel;
        assert tasks[k] in multiset(sorted);
      }
    }
  }

  /**
   * The 250 rows are the first in sort order: when more than 250 tasks
   * qualify exactly 250 are listed, and a qualifying task is left out only
   * when every listed row may come before it in the chosen order.
   */
  lemma ListTasksTop(user: int, today: Date, args: ListArgs, tasks: seq<Task>, t: Task)
    requires ValidDate(today) && WellFormed(t)
    requires t in tasks && t.userId == user && Listed(args.status.GetOr("all"), args.window, today, t)
    ensures var r := ListTasks(user, today, args, tasks);
      && (Count(ListQuery(user, today, args), tasks) > RowCap ==> |r| == RowCap)
      && (t !in r ==> |r| == RowCap && forall i :: 0 <= i < |r| ==>
            InOrder(KeyOf(r[i], ListColumn(args)), KeyOf(t, ListColumn(args)), Ascending(args)))
  {
    ListQueryMeaning(user, today, args, t);
    TopRowsComplete(ListQuery(user, today, args), tasks, ListColumn(args), Ascending(args), RowCap, t);
  }

  /**
   * The rows follow the chosen column ("title", "created", otherwise the due
   * date), ascending when `dir` is "asc" and descending otherwise, with the
   * rows that have no value in that column last.
   */
  lemma ListTasksOrder(user: int, today: Date, args: ListArgs, tasks: seq<Task>)
    requires ValidDate(today)
    ensures var r := ListTasks(user, today, args, tasks);
      var col := ListColumn(args);
      && (args.sort.GetOr("due") !in {"title", "created"} ==> col == DueCol)
      && (forall i, j :: 0 <= i < j < |r| && KeyOf(r[i], col).None? ==> KeyOf(r[j], col).None?)
      && (forall i, j :: 0 <= i < j < |r| && KeyOf(r[i], col).Some? && KeyOf(r[j], col).Some? ==>
            if Ascending(args) then LexLeq(KeyOf(r[i], col).value, KeyOf(r[j], col).value)
            else LexLeq(KeyOf(r[j], col).value, KeyOf(r[i], col).value))
  {
    var sorted := OrderBy(Select(ListQuery(user, today, args), tasks), ListColumn(args), Ascending(args));
    var r := ListTasks(user, today, args, tasks);
    forall i, j | 0 <= i < j < |r|
      ensures InOrder(KeyOf(r[i], ListColumn(args)), KeyOf(r[j], ListColumn(args)), Ascending(args))
    {
      assert r[i] == sorted[i] && r[j] == sorted[j];
    }
  }

  /** Sorted by due date, the rows' dates run forwards (ascending) or backwards (descending). */
  lemma ListTasksByDue(user: int, today: Date, args: ListArgs, tasks: seq<Task>, i: int, j: int)
    requires ValidDate(today) && ListColumn(args) == DueCol
    requires 0 <= i < j < |ListTasks(user, today, args, tasks)|
    ensures var r := ListTasks(user, today, args, tasks);
      r[i].due.Some? && r[j].due.Some? ==>
        if Ascending(args) then NotAfter(r[i].due.value, r[j].due.value)
        else NotAfter(r[j].due.value, r[i].due.value)
  {
    ListTasksOrder(user, today, args, tasks);
    var r := ListTasks(user, today, args, tasks);
    if r[i].due.Some? && r[j].due.Some? {
      DateKeyOrder(r[i].due.value, r[j].due.value);
      DateKeyOrder(r[j].due.value, r[i].due.value);
    }
  }

  /** Sorted by creation time, the rows' timestamps run forwards or backwards. */
  lemma ListTasksByCreated(user: int, today: Date, args: ListArgs, tasks: seq<Task>, i: int, j: int)
    requires ValidDate(today) && ListColumn(args) == CreatedCol
    requires 0 <= i < j < |ListTasks(user, today, args, tasks)|
    ensures var r := ListTasks(user, today, args, tasks);
      r[i].createdAt.Some? && r[j].createdAt.Some? ==>
        if Ascending(args) then !StampBefore(r[j].createdAt.value, r[i].createdAt.value)
        else !StampBefore(r[i].createdAt.value, r[j].createdAt.value)
  {
    ListTasksOrder(user, today, args, tasks);
    var r := ListTasks(user, today, args, tasks);
    if r[i].createdAt.Some? && r[j].createdAt.Some? {
      StampKeyOrder(r[i].createdAt.value, r[j].createdAt.value);
      StampKeyOrder(r[j].createdAt.value, r[i].createdAt.value);
    }
  }

  // ---------------------------------------------------------------- export

  type CsvRow = seq<string>

  const Header: CsvRow := ["Title", "Asset", "Due", "Status", "Completed"]

  /** The export row of one task. */
  function ExportRow(t: Task, assets: seq<Asset>): (r: CsvRow)
    requires WellFormed(t)
    ensures |r| == |Header|
  {
    [ t.title,
      AssetName(assets, t),
      if t.due.Some? then DateIso(t.due.value) else "",
      StatusName(t.status),
      if t.status == Done && t.updatedAt.Some? then StampIso(t.updatedAt.value) else ""
    ]
  }

  /** The user's tasks in export order: due date ascending, undated last. */
  function ExportOrder(user: int, tasks: seq<Task>): (r: seq<Task>)
    ensures Ordered(r, DueCol, true)
    ensures multiset(r) == multiset(Select([OwnedBy(user)], tasks))
  {
    OrderBy(Select([OwnedBy(user)], tasks), DueCol, true)
  }

  /** The data rows for `rows`, in order. */
  function ExportRows(rows: seq<Task>, assets: seq<Asset>): (r: seq<CsvRow>)
    requires AllWellFormed(rows)
    ensures |r| == |rows|
  {
    if rows == [] then []
    else ExportRows(rows[..|rows| - 1], assets) + [ExportRow(rows[|rows| - 1], assets)]
  }

  /** The rows `export_tasks` hands to `writer.writerow`, header first (csv quoting and line ends aside). */
  function ExportTable(user: int, tasks: seq<Task>, assets: seq<Asset>): seq<CsvRow>
    requires AllWellFormed(tasks)
  {
    ExportOrderWellFormed(user, tasks);
    [Header] + ExportRows(ExportOrder(user, tasks), assets)
  }

  /** `csv.writer` over a `StringIO`: the rows written so far. */
  class CsvWriter {
    var rows: seq<CsvRow>

    constructor()
      ensures rows == []
    {
      rows := [];
    }

    method WriteRow(row: CsvRow)
      modifies this
      ensures rows == old(rows) + [row]
    {
      rows := rows + [row];
    }
  }

  /** `export_tasks()`: the header, then one row per task of the user in export order. */
  method ExportTasks(user: int, tasks: seq<Task>, assets: seq<Asset>) returns (csv: seq<CsvRow>)
    requires AllWellFormed(tasks)
    ensures csv == ExportTable(user, tasks, assets)
  {
    var writer := new CsvWriter();
    writer.WriteRow(Header);
    ExportOrderWellFormed(user, tasks);
    WriteTaskRows(writer, ExportOrder(user, tasks), assets);
    csv := writer.rows;
  }

  /** The export loop: one `writerow` per task, in order. */
  method WriteTaskRows(writer: CsvWriter, ordered: seq<Task>, assets: seq<Asset>)
    requires AllWellFormed(ordered)
    modifies writer
    ensures writer.rows == old(writer.rows) + ExportRows(ordered, assets)
  {
    PrefixWellFormed(ordered, 0);
    for i := 0 to |ordered|
      invariant AllWellFormed(ordered[..i])
      invariant writer.rows == old(writer.rows) + ExportRows(ordered[..i], assets)
    {
      ExportRowsStep(ordered, i, assets);
      writer.WriteRow(ExportRow(ordered[i], assets));
    }
    assert ordered[..|ordered|] == ordered;
  }

  lemma ExportRowsStep(s: seq<Task>, i: int, assets: seq<Asset>)
    requires AllWellFormed(s) && 0 <= i < |s|
    ensures AllWellFormed(s[..i]) && AllWellFormed(s[..i + 1])
    ensures ExportRows(s[..i + 1], assets) == ExportRows(s[..i], assets) + [ExportRow(s[i], assets)]
  {
    PrefixWellFormed(s, i);
    PrefixWellFormed(s, i + 1);
    assert s[..i + 1][..i] == s[..i];
  }

  lemma PrefixWellFormed(s: seq<Task>, n: int)
    requires AllWellFormed(s) && 0 <= n <= |s|
    ensures AllWellFormed(s[..n])
  {
    forall i | 0 <= i < n ensures WellFormed(s[..n][i]) {
      assert s[..n][i] == s[i];
    }
  }

  lemma ExportOrderWellFormed(user: int, tasks: seq<Task>)
    requires AllWellFormed(tasks)
    ensures AllWellFormed(ExportOrder(user, tasks))
  {
    var s := Select([OwnedBy(user)], tasks);
    SelectWellFormed([OwnedBy(user)], tasks);
    var r := ExportOrder(user, tasks);
    forall i | 0 <= i < |r| ensures WellFormed(r[i]) {
      assert r[i] in multiset(s);
      var k :| 0 <= k < |s| && s[k] == r[i];
    }
  }

  lemma {:induction false} ExportRowsAt(rows: seq<Task>, assets: seq<Asset>, i: int)
    requires AllWellFormed(rows) && 0 <= i < |rows|
    ensures ExportRows(rows, assets)[i] == ExportRow(rows[i], assets)
    decreases |rows|
  {
    var n := |rows| - 1;
    PrefixWellFormed(rows, n);
    var front := ExportRows(rows[..n], assets);
    assert ExportRows(rows, assets) == front + [ExportRow(rows[n], assets)];
    if i < n {
      ExportRowsAt(rows[..n], assets, i);
      assert (front + [ExportRow(rows[n], assets)])[i] == front[i];
    }
  }

  /**
   * The export starts with the header and has one more row for each of the
   * user's tasks, in due-date order with undated tasks last.
   */
  lemma ExportLayout(user: int, tasks: seq<Task>, assets: seq<Asset>)
    requires AllWellFormed(tasks)
    ensures var table := ExportTable(user, tasks, assets);
      var ordered := ExportOrder(user, tasks);
      && table[0] == Header
      && |table| == 1 + Count([OwnedBy(user)], tasks)
      && multiset(ordered) == multiset(Select([OwnedBy(user)], tasks))
      && (forall t :: t in ordered <==> t in tasks && t.userId == user)
      && (forall i, j :: 0 <= i < j < |ordered| && ordered[i].due.None? ==> ordered[j].due.None?)
  {
    ExportMembers(user, tasks);
    ExportUndatedLast(user, tasks);
  }

  lemma ExportMembers(user: int, tasks: seq<Task>)
    ensures forall t :: t in ExportOrder(user, tasks) <==> t in tasks && t.userId == user
  {
    var ordered := ExportOrder(user, tasks);
    forall t ensures t in ordered <==> t in tasks && t.userId == user {
      assert t in ordered <==> t in multiset(ordered);
      assert Matches([OwnedBy(user)], t) <==> Holds([OwnedBy(user)][0], t);
    }
  }

  lemma ExportUndatedLast(user: int, tasks: seq<Task>)
    ensures var ordered := ExportOrder(user, tasks);
      forall i, j :: 0 <= i < j < |ordered| && ordered[i].due.None? ==> ordered[j].due.None?
  {
    var ordered := ExportOrder(user, tasks);
    forall i, j | 0 <= i < j < |ordered| && ordered[i].due.None? ensures ordered[j].due.None? {
      NullsLast(ordered, DueCol, true, i, j);
    }
  }

  /** Undated tasks aside, the export runs forwards in due date. */
  lemma ExportByDue(user: int, tasks: seq<Task>, i: int, j: int)
    requires 0 <= i < j < |ExportOrder(user, tasks)|
    ensures var ordered := ExportOrder(user, tasks);
      ordered[i].due.Some? && ordered[j].due.Some? ==> NotAfter(ordered[i].due.value, ordered[j].due.value)
  {
    var ordered := ExportOrder(user, tasks);
    if ordered[i].due.Some? && ordered[j].due.Some? {
      assert InOrder(KeyOf(ordered[i], DueCol), KeyOf(ordered[j], DueCol), true);
      DateKeyOrder(ordered[i].due.value, ordered[j].due.value);
    }
  }

  /** Row `i + 1` of the export is the row of the `i`-th task in export order. */
  lemma ExportTableRow(user: int, tasks: seq<Task>, assets: seq<Asset>, i: int)
    requires AllWellFormed(tasks) && 0 <= i < |ExportOrder(user, tasks)|
    ensures WellFormed(ExportOrder(user, tasks)[i])
    ensures ExportTable(user, tasks, assets)[i + 1] == ExportRow(ExportOrder(user, tasks)[i], assets)
  {
    ExportOrderWellFormed(user, tasks);
    ExportRowsAt(ExportOrder(user, tasks), assets, i);
  }

  /**
   * A task's export row: its title, its asset's name or "", its due date in
   * ISO form (which reads back as the date) or "", its status, and a completion
   * time only for a done task that has one.
   */
  lemma ExportRowFields(t: Task, assets: seq<Asset>)
    requires WellFormed(t)
    ensures var row := ExportRow(t, assets);
      && |row| == |Header|
      && row[0] == t.title
      && row[1] == (if AssetOf(assets, t).Some? then AssetOf(assets, t).value.name else "")
      && (row[2] == "" <==> t.due.None?)
      && (t.due.Some? && 1 <= t.due.value.year <= 9999 ==> ParseIsoDate(row[2]) == Some(t.due.value))
      && row[3] == StatusName(t.status)
      && (row[4] != "" <==> t.status == Done && t.updatedAt.Some?)
      && (row[4] != "" ==> row[4] == StampIso(t.updatedAt.value))
  {
    if t.due.Some? {
      assert |DateIso(t.due.value)| > 0;
      if 1 <= t.due.value.year <= 9999 {
        DateIsoRoundTrip(t.due.value);
      }
    }
    if t.status == Done && t.updatedAt.Some? {
      assert StampIso(t.updatedAt.value)[|DateIso(t.updatedAt.value.date)|] == 'T';
    }
  }
}
