/**
 * The `task_badge` template helper of app/filters.py: the status pill a task
 * shows, chosen from its status and how its due date stands to today.
 */
module Badges {
  import opened Common
  import opened Dates
  import opened Records

  datatype Badge = Badge(cssClass: string, caption: string)

  const DoneBadge := Badge("text-bg-success", "Done")
  const OverdueBadge := Badge("text-bg-danger", "Overdue")
  const DueSoonBadge := Badge("text-bg-warning text-dark", "Due soon")
  const ScheduledBadge := Badge("text-bg-secondary", "Scheduled")
  const OpenBadge := Badge("text-bg-secondary", "Open")

  /**
   * `task_badge(task, today)`: `today` defaults to the clock's date. "Due
   * soon" is decided by the day difference `(due - today).days <= 7`.
   */
  function TaskBadge(t: Task, today: Option<Date>, clock: Date): (r: Badge)
    requires t.due.Some? ==> ValidDate(t.due.value)
    requires ValidDate(today.GetOr(clock))
    ensures r == DoneBadge <==> t.status == Done
    ensures r == OpenBadge <==> t.status != Done && t.due.None?
  {
    var day := today.GetOr(clock);
    if t.status == Done then DoneBadge
    else if t.due.Some? && Before(t.due.value, day) then OverdueBadge
    else if t.due.Some? && Ordinal(t.due.value) - Ordinal(day) <= 7 then DueSoonBadge
    else if t.due.Some? then ScheduledBadge
    else OpenBadge
  }

  /**
   * The badge by date windows: done tasks are "Done" whatever their due date;
   * every other status (pending, skipped, deleted alike) is "Overdue" before
   * today, "Due soon" from today through today + 7 days, "Scheduled" after
   * that and "Open" without a due date.
   */
  lemma BadgeByDateWindow(t: Task, today: Option<Date>, clock: Date)
    requires t.due.Some? ==> ValidDate(t.due.value)
    requires ValidDate(today.GetOr(clock))
    ensures var day, b := today.GetOr(clock), TaskBadge(t, today, clock);
      && (b == DoneBadge <==> t.status == Done)
      && (b == OverdueBadge <==> t.status != Done && t.due.Some? && Before(t.due.value, day))
      && (b == DueSoonBadge <==>
            t.status != Done && t.due.Some? && NotAfter(day, t.due.value) && NotAfter(t.due.value, AddDays(day, 7)))
      && (b == ScheduledBadge <==> t.status != Done && t.due.Some? && Before(AddDays(day, 7), t.due.value))
      && (b == OpenBadge <==> t.status != Done && t.due.None?)
  {
    var day := today.GetOr(clock);
    var week := AddDays(day, 7);
    if t.due.Some? {
      var d := t.due.value;
      BeforeIsOrdinalOrder(d, day);
      BeforeIsOrdinalOrder(week, d);
      BeforeIsOrdinalOrder(day, d);
      NotAfterIsOrdinalOrder(d, week);
    }
  }
}
