/**
 * The daily reminder job (app/scheduler.py): every pending task due tomorrow
 * is joined to its owner's email and logged as one reminder line. The
 * application's logger is the `log` field of `ReminderService`; `date.today()`
 * is a parameter, and one pass of the worker thread's endless loop is one
 * call of `WorkerPass`.
 */
module Scheduler {
  import opened Common
  import opened Dates
  import opened Records
  import opened Store

  /** One `(User.email, Task.title, Task.due_date)` tuple of the reminder query. */
  datatype ReminderRow = ReminderRow(email: string, title: string, due: Option<Date>)

  /** A line written to the application log. */
  datatype LogEntry =
    | Info(message: string)           // app.logger.info(message)
    | Reminder(row: ReminderRow)      // "Reminder: %s has '%s' due on %s"
    | Failure(message: string)        // app.logger.exception(message)

  const DisabledMessage := "Scheduler disabled via config."
  const StartedMessage := "Background reminder thread started."
  const JobFailedMessage := "Reminder job failed"

  /** `date.today() + timedelta(days=1)`. */
  function Tomorrow(today: Date): (r: Date)
    requires ValidDate(today)
    ensures ValidDate(r) && Before(today, r)
    ensures Ordinal(r) == Ordinal(today) + 1
  {
    BeforeIsOrdinalOrder(today, AddDays(today, 1));
    AddDays(today, 1)
  }

  /** The `filter(Task.status == "pending", Task.due_date == tomorrow)` part of the query. */
  function ReminderQuery(tomorrow: Date): TaskQuery {
    [StatusIs(Pending), DueOn(tomorrow)]
  }

  function RowOf(u: User, t: Task): ReminderRow {
    ReminderRow(u.email, t.title, t.due)
  }

  /** The rows the join `Task.user_id == User.id` gives for one task: one per user with that id. */
  function OwnerRows(users: seq<User>, t: Task): (r: seq<ReminderRow>)
    ensures forall row :: row in r <==> exists u :: u in users && u.id == t.userId && row == RowOf(u, t)
    ensures (forall k :: 0 <= k < |users| ==> users[k].id != t.userId) ==> r == []
  {
    if users == [] then []
    else
      assert users == [users[0]] + users[1..];
      (if users[0].id == t.userId then [RowOf(users[0], t)] else []) + OwnerRows(users[1..], t)
  }

  /** The inner join over the selected tasks, task by task. */
  function JoinRows(users: seq<User>, sel: seq<Task>): seq<ReminderRow> {
    if sel == [] then [] else OwnerRows(users, sel[0]) + JoinRows(users, sel[1..])
  }

  lemma {:induction false} JoinRowsMembers(users: seq<User>, sel: seq<Task>, row: ReminderRow)
    ensures row in JoinRows(users, sel) <==> exists t :: t in sel && row in OwnerRows(users, t)
  {
    if sel != [] {
      assert sel == [sel[0]] + sel[1..];
      JoinRowsMembers(users, sel[1..], row);
      if row in OwnerRows(users, sel[0]) {
        assert sel[0] in sel;
      }
      assert forall t :: t in sel <==> t == sel[0] || t in sel[1..];
    }
  }

  /** The rows `send_due_reminders` reads on the day `today`. */
  function ReminderRows(users: seq<User>, tasks: seq<Task>, today: Date): (r: seq<ReminderRow>)
    requires ValidDate(today)
    ensures forall row :: row in r ==> row.due == Some(Tomorrow(today))
  {
    ReminderDue(users, tasks, Tomorrow(today));
    JoinRows(users, Select(ReminderQuery(Tomorrow(today)), tasks))
  }

  /** Every row of the reminder join carries the date the query asked for. */
  lemma ReminderDue(users: seq<User>, tasks: seq<Task>, tomorrow: Date)
    ensures forall row :: row in JoinRows(users, Select(ReminderQuery(tomorrow), tasks)) ==> row.due == Some(tomorrow)
  {
    var q := ReminderQuery(tomorrow);
    var sel := Select(q, tasks);
    forall t | t in sel ensures t.due == Some(tomorrow) {
      assert Holds(q[1], t);
    }
    JoinDue(users, sel, Some(tomorrow));
  }

  lemma {:induction false} JoinDue(users: seq<User>, sel: seq<Task>, due: Option<Date>)
    requires forall t :: t in sel ==> t.due == due
    ensures forall row :: row in JoinRows(users, sel) ==> row.due == due
  {
    if sel != [] {
      JoinDue(users, sel[1..], due);
      assert sel[0] in sel;
      forall row | row in OwnerRows(users, sel[0]) ensures row.due == due {
        var u :| u in users && u.id == sel[0].userId && row == RowOf(u, sel[0]);
      }
    }
  }

  /** The log lines one run of `send_due_reminders` writes for `rows`, in order. */
  function RemindersOf(rows: seq<ReminderRow>): (r: seq<LogEntry>)
    ensures |r| == |rows|
    ensures forall i :: 0 <= i < |rows| ==> r[i] == Reminder(rows[i])
  {
    if rows == [] then [] else RemindersOf(rows[..|rows| - 1]) + [Reminder(rows[|rows| - 1])]
  }

  /** `User.id` is the primary key. */
  predicate UniqueIds(users: seq<User>) {
    forall i, j :: 0 <= i < j < |users| ==> users[i].id != users[j].id
  }

  /**
   * A reminder row exists exactly for a user and one of their pending tasks due
   * tomorrow; every user's tasks count, not only one user's.
   */
  lemma ReminderRowsMeaning(users: seq<User>, tasks: seq<Task>, today: Date, row: ReminderRow)
    requires ValidDate(today)
    ensures row in ReminderRows(users, tasks, today) <==>
      exists t, u :: t in tasks && u in users && u.id == t.userId && t.status == Pending
        && t.due == Some(Tomorrow(today)) && row == RowOf(u, t)
  {
    var q := ReminderQuery(Tomorrow(today));
    var sel := Select(q, tasks);
    JoinRowsMembers(users, sel, row);
    forall t
      ensures t in sel <==> t in tasks && t.status == Pending && t.due == Some(Tomorrow(today))
    {
      assert Matches(q, t) <==> Holds(q[0], t) && Holds(q[1], t);
    }
  }

  /** Every reminder is for a task due exactly one day after `today`. */
  lemma RemindersAreForTomorrow(users: seq<User>, tasks: seq<Task>, today: Date)
    requires ValidDate(today)
    ensures forall row :: row in ReminderRows(users, tasks, today) ==>
      row.due.Some? && ValidDate(row.due.value) && Ordinal(row.due.value) == Ordinal(today) + 1
  {
    forall row | row in ReminderRows(users, tasks, today)
      ensures row.due.Some? && ValidDate(row.due.value) && Ordinal(row.due.value) == Ordinal(today) + 1
    {
      ReminderRowsMeaning(users, tasks, today, row);
    }
  }

  /**
   * A task that is not pending (done, skipped or deleted), or whose due date is
   * not tomorrow (today, the day after tomorrow, none), changes nothing: the
   * rows are the same without it.
   */
  lemma IgnoredTask(users: seq<User>, tasks: seq<Task>, today: Date, i: int)
    requires ValidDate(today) && 0 <= i < |tasks|
    requires tasks[i].status != Pending || tasks[i].due != Some(Tomorrow(today))
    ensures ReminderRows(users, tasks, today) == ReminderRows(users, tasks[..i] + tasks[i + 1..], today)
  {
    var q := ReminderQuery(Tomorrow(today));
    assert !Holds(q[0], tasks[i]) || !Holds(q[1], tasks[i]);
    SelectSkip(q, tasks, i);
  }

  lemma {:induction false} OwnerRowsOne(users: seq<User>, t: Task)
    requires UniqueIds(users)
    requires exists u :: u in users && u.id == t.userId
    ensures |OwnerRows(users, t)| == 1
  {
    assert users == [users[0]] + users[1..];
    if users[0].id == t.userId {
      assert forall k :: 0 <= k < |users[1..]| ==> users[1..][k].id != t.userId by {
        forall k | 0 <= k < |users[1..]|
          ensures users[1..][k].id != t.userId
        {
          assert users[1..][k] == users[k + 1];
        }
      }
    } else {
      assert UniqueIds(users[1..]) by {
        forall i, j | 0 <= i < j < |users[1..]|
          ensures users[1..][i].id != users[1..][j].id
        {
          assert users[1..][i] == users[i + 1] && users[1..][j] == users[j + 1];
        }
      }
      var u :| u in users && u.id == t.userId;
      assert u in users[1..];
      OwnerRowsOne(users[1..], t);
    }
  }

  lemma {:induction false} JoinRowsCount(users: seq<User>, sel: seq<Task>)
    requires UniqueIds(users)
    requires forall t :: t in sel ==> exists u :: u in users && u.id == t.userId
    ensures |JoinRows(users, sel)| == |sel|
  {
    if sel != [] {
      assert sel[0] in sel;
      OwnerRowsOne(users, sel[0]);
      assert forall t :: t in sel[1..] ==> t in sel;
      JoinRowsCount(users, sel[1..]);
    }
  }

  /**
   * With `User.id` a primary key and every task owned by an existing user (the
   * `user_id` foreign key), there is exactly one reminder per pending task due
   * tomorrow.
   */
  lemma OneReminderPerTask(users: seq<User>, tasks: seq<Task>, today: Date)
    requires ValidDate(today) && UniqueIds(users)
    requires forall t :: t in tasks ==> exists u :: u in users && u.id == t.userId
    ensures |ReminderRows(users, tasks, today)| == Count(ReminderQuery(Tomorrow(today)), tasks)
  {
    JoinRowsCount(users, Select(ReminderQuery(Tomorrow(today)), tasks));
  }

  /** The application as far as the scheduler sees it: its config flag, its logger and its threads. */
  class ReminderService {
    /** `app.config.get("DISABLE_SCHEDULER")`, read as a truth value. */
    const schedulerDisabled: bool
    var log: seq<LogEntry>
    /** Background reminder threads started so far. */
    var workers: nat

    constructor(disabled: bool)
      ensures schedulerDisabled == disabled && log == [] && workers == 0
    {
      schedulerDisabled := disabled;
      log := [];
      workers := 0;
    }

    /** `start_scheduler(app)`: the config flag decides whether a worker thread starts. */
    method StartScheduler()
      modifies this
      ensures schedulerDisabled ==> workers == old(workers) && log == old(log) + [Info(DisabledMessage)]
      ensures !schedulerDisabled ==> workers == old(workers) + 1 && log == old(log) + [Info(StartedMessage)]
    {
      if schedulerDisabled {
        log := log + [Info(DisabledMessage)];
        return;
      }
      workers := workers + 1;
      log := log + [Info(StartedMessage)];
    }

    /** `send_due_reminders()`: one log line per row of the reminder query. */
    method SendDueReminders(today: Date, users: seq<User>, tasks: seq<Task>)
      requires ValidDate(today)
      modifies this`log
      ensures log == old(log) + RemindersOf(ReminderRows(users, tasks, today))
    {
      var rows := ReminderRows(users, tasks, today);
      for i := 0 to |rows|
        invariant log == old(log) + RemindersOf(rows[..i])
      {
        assert rows[..i + 1][..i] == rows[..i];
        log := log + [Reminder(rows[i])];
      }
      assert rows[..|rows|] == rows;
    }

    /**
     * One iteration of the worker loop: the job runs, and a failure of the
     * store (`storeFails`) is logged instead of ending the thread.
     */
    method WorkerPass(today: Date, users: seq<User>, tasks: seq<Task>, storeFails: bool)
      requires ValidDate(today)
      modifies this`log
      ensures storeFails ==> log == old(log) + [Failure(JobFailedMessage)]
      ensures !storeFails ==> log == old(log) + RemindersOf(ReminderRows(users, tasks, today))
    {
      if storeFails {
        log := log + [Failure(JobFailedMessage)];
      } else {
        SendDueReminders(today, users, tasks);
      }
    }
  }
}
