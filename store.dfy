/**
 * What the relational store does with the core's queries, over in-memory
 * rows: a `filter(...)` is a conjunction of conditions (a comparison with
 * NULL is never true), `order_by(...)` a stable sort with NULL keys last and
 * `limit(n)` a prefix. Where a query does not say where NULLs go, NULLs last
 * is SQLite's placement for the descending orders the core uses. Rows that tie on the sort key keep their stored order;
 * SQL leaves that order open and the model fixes one.
 */
module Store {
  import opened Common
  import opened Dates
  import opened Records

  datatype TaskCond =
    | OwnedBy(user: int)               // Task.user_id == user
    | StatusIs(status: Status)         // Task.status == status
    | DueSet                           // Task.due_date != None
    | DueBefore(before: Date)          // Task.due_date < before
    | DueNotAfter(last: Date)          // Task.due_date <= last
    | DueOn(day: Date)                 // Task.due_date == day
    | UpdatedSet                       // Task.updated_at != None
    | UpdatedFrom(from: Timestamp)     // Task.updated_at >= from
    | UpdatedBefore(until: Timestamp)  // Task.updated_at < until

  predicate Holds(c: TaskCond, t: Task) {
    match c
    case OwnedBy(u) => t.userId == u
    case StatusIs(s) => t.status == s
    case DueSet => t.due.Some?
    case DueBefore(d) => t.due.Some? && Before(t.due.value, d)
    case DueNotAfter(d) => t.due.Some? && NotAfter(t.due.value, d)
    case DueOn(d) => t.due == Some(d)
    case UpdatedSet => t.updatedAt.Some?
    case UpdatedFrom(ts) => t.updatedAt.Some? && !StampBefore(t.updatedAt.value, ts)
    case UpdatedBefore(ts) => t.updatedAt.Some? && StampBefore(t.updatedAt.value, ts)
  }

  /** A task query: the conditions of its `filter` and `filter_by` calls, all of which must hold. */
  type TaskQuery = seq<TaskCond>

  predicate Matches(q: TaskQuery, t: Task) {
    forall i :: 0 <= i < |q| ==> Holds(q[i], t)
  }

  /** `query.all()` before any ordering: the matching rows in stored order. */
  function Select(q: TaskQuery, tasks: seq<Task>): (r: seq<Task>)
    ensures |r| <= |tasks|
    ensures multiset(r) <= multiset(tasks)
    ensures forall t :: t in r <==> t in tasks && Matches(q, t)
  {
    if tasks == [] then []
    else
      assert tasks == [tasks[0]] + tasks[1..];
      (if Matches(q, tasks[0]) then [tasks[0]] else []) + Select(q, tasks[1..])
  }

  /** `query.count()`. */
  function Count(q: TaskQuery, tasks: seq<Task>): nat {
    |Select(q, tasks)|
  }

  /** A matching row is selected as often as it is stored; any other row never. */
  lemma {:induction false} SelectCounts(q: TaskQuery, tasks: seq<Task>, t: Task)
    ensures multiset(Select(q, tasks))[t] == if Matches(q, t) then multiset(tasks)[t] else 0
  {
    if tasks != [] {
      assert tasks == [tasks[0]] + tasks[1..];
      SelectCounts(q, tasks[1..], t);
    }
  }

  /** Selecting from one row keeps it exactly when it matches. */
  lemma SelectSingle(q: TaskQuery, t: Task)
    ensures Select(q, [t]) == if Matches(q, t) then [t] else []
  {
    assert [t][1..] == [];
  }

  /** Selection keeps stored order: selecting from a concatenation concatenates the selections. */
  lemma {:induction false} SelectAppend(q: TaskQuery, a: seq<Task>, b: seq<Task>)
    ensures Select(q, a + b) == Select(q, a) + Select(q, b)
  {
    if a == [] {
      assert a + b == b;
    } else {
      assert (a + b)[1..] == a[1..] + b;
      SelectAppend(q, a[1..], b);
    }
  }

  /** Leaving out a row the query rejects leaves its result unchanged. */
  lemma SelectSkip(q: TaskQuery, tasks: seq<Task>, i: int)
    requires 0 <= i < |tasks| && !Matches(q, tasks[i])
    ensures Select(q, tasks) == Select(q, tasks[..i] + tasks[i + 1..])
  {
    var front, one, back := tasks[..i], [tasks[i]], tasks[i + 1..];
    assert tasks == front + (one + back);
    SelectAppend(q, front, one + back);
    SelectAppend(q, one, back);
    SelectAppend(q, front, back);
    SelectSingle(q, tasks[i]);
    calc {
      Select(q, tasks);
      Select(q, front) + Select(q, one + back);
      Select(q, front) + (Select(q, one) + Select(q, back));
      { assert Select(q, one) + Select(q, back) == Select(q, back); }
      Select(q, front) + Select(q, back);
      Select(q, front + back);
    }
  }

  /** A query with more conditions counts no more rows. */
  lemma {:induction false} CountNarrows(q: TaskQuery, extra: TaskQuery, tasks: seq<Task>)
    ensures Count(q + extra, tasks) <= Count(q, tasks)
  {
    if tasks != [] {
      CountNarrows(q, extra, tasks[1..]);
      if Matches(q + extra, tasks[0]) {
        forall i | 0 <= i < |q| ensures Holds(q[i], tasks[0]) {
          assert (q + extra)[i] == q[i];
        }
      }
    }
  }

  datatype AssetCond =
    | AssetOwnedBy(owner: int)         // Asset.user_id == owner
    | WarrantySet                      // Asset.warranty_expiration != None
    | WarrantyFrom(first: Date)        // Asset.warranty_expiration >= first

  predicate AssetHolds(c: AssetCond, a: Asset) {
    match c
    case AssetOwnedBy(u) => a.userId == u
    case WarrantySet => a.warrantyExpiration.Some?
    case WarrantyFrom(d) => a.warrantyExpiration.Some? && NotAfter(d, a.warrantyExpiration.value)
  }

  predicate AssetMatches(q: seq<AssetCond>, a: Asset) {
    forall i :: 0 <= i < |q| ==> AssetHolds(q[i], a)
  }

  /** `query.count()` over assets. */
  function AssetCount(q: seq<AssetCond>, assets: seq<Asset>): (n: nat)
    ensures n <= |assets|
  {
    if assets == [] then 0
    else (if AssetMatches(q, assets[0]) then 1 else 0) + AssetCount(q, assets[1..])
  }

  /** A query with more conditions matches no more assets. */
  lemma {:induction false} AssetCountNarrows(q: seq<AssetCond>, extra: seq<AssetCond>, assets: seq<Asset>)
    ensures AssetCount(q + extra, assets) <= AssetCount(q, assets)
  {
    if assets != [] {
      AssetCountNarrows(q, extra, assets[1..]);
      if AssetMatches(q + extra, assets[0]) {
        forall i | 0 <= i < |q| ensures AssetHolds(q[i], assets[0]) {
          assert (q + extra)[i] == q[i];
        }
      }
    }
  }

  // ---- ORDER BY ----

  /** The columns the core sorts tasks by. */
  datatype Column = TitleCol | CreatedCol | DueCol | UpdatedCol

  /** A sort key: the value's parts, compared in order (strings by code point, as SQLite's BINARY collation). */
  type Key = seq<int>

  function TextKey(s: string): Key {
    seq(|s|, i requires 0 <= i < |s| => s[i] as int)
  }

  function DateKey(d: Date): Key {
    [d.year, d.month, d.day]
  }

  function StampKey(t: Timestamp): Key {
    [t.date.year, t.date.month, t.date.day, t.seconds]
  }

  function KeyOf(t: Task, col: Column): Option<Key> {
    match col
    case TitleCol => Some(TextKey(t.title))
    case CreatedCol => if t.createdAt.Some? then Some(StampKey(t.createdAt.value)) else None
    case DueCol => if t.due.Some? then Some(DateKey(t.due.value)) else None
    case UpdatedCol => if t.updatedAt.Some? then Some(StampKey(t.updatedAt.value)) else None
  }

  /** Lexicographic order; a proper prefix comes first. */
  predicate LexLeq(a: Key, b: Key)
    decreases |a|
  {
    |a| == 0 || (|b| > 0 && (a[0] < b[0] || (a[0] == b[0] && LexLeq(a[1..], b[1..]))))
  }

  lemma {:induction false} LexLeqTotal(a: Key, b: Key)
    ensures LexLeq(a, b) || LexLeq(b, a)
    decreases |a|
  {
    if |a| > 0 && |b| > 0 && a[0] == b[0] {
      LexLeqTotal(a[1..], b[1..]);
    }
  }

  lemma {:induction false} LexLeqTrans(a: Key, b: Key, c: Key)
    requires LexLeq(a, b) && LexLeq(b, c)
    ensures LexLeq(a, c)
    decreases |a|
  {
    if |a| > 0 && a[0] == b[0] && b[0] == c[0] {
      LexLeqTrans(a[1..], b[1..], c[1..]);
    }
  }

  lemma {:induction false} LexLeqAntisym(a: Key, b: Key)
    requires LexLeq(a, b) && LexLeq(b, a)
    ensures a == b
    decreases |a|
  {
    if |a| > 0 {
      LexLeqAntisym(a[1..], b[1..]);
      assert a == [a[0]] + a[1..] && b == [b[0]] + b[1..];
    }
  }

  /** One step of the lexicographic comparison. */
  lemma LexLeqStep(x: int, a: Key, y: int, b: Key)
    ensures LexLeq([x] + a, [y] + b) <==> x < y || (x == y && LexLeq(a, b))
  {
    assert ([x] + a)[1..] == a && ([y] + b)[1..] == b;
  }

  /** Date keys compare as the dates do. */
  lemma DateKeyOrder(a: Date, b: Date)
    ensures LexLeq(DateKey(a), DateKey(b)) <==> NotAfter(a, b)
  {
    assert DateKey(a) == [a.year] + ([a.month] + [a.day]);
    assert DateKey(b) == [b.year] + ([b.month] + [b.day]);
    LexLeqStep(a.year, [a.month] + [a.day], b.year, [b.month] + [b.day]);
    LexLeqStep(a.month, [a.day], b.month, [b.day]);
    LexLeqStep(a.day, [], b.day, []);
  }

  /** Timestamp keys compare as the timestamps do. */
  lemma StampKeyOrder(a: Timestamp, b: Timestamp)
    ensures LexLeq(StampKey(a), StampKey(b)) <==> !StampBefore(b, a)
  {
    var x, y := a.date, b.date;
    assert StampKey(a) == [x.year] + ([x.month] + ([x.day] + [a.seconds]));
    assert StampKey(b) == [y.year] + ([y.month] + ([y.day] + [b.seconds]));
    LexLeqStep(x.year, [x.month] + ([x.day] + [a.seconds]), y.year, [y.month] + ([y.day] + [b.seconds]));
    LexLeqStep(x.month, [x.day] + [a.seconds], y.month, [y.day] + [b.seconds]);
    LexLeqStep(x.day, [a.seconds], y.day, [b.seconds]);
    LexLeqStep(a.seconds, [], b.seconds, []);
  }

  /**
   * May a row with key `a` come before one with key `b`? NULL keys go last;
   * `asc` orders ascending, otherwise descending.
   */
  predicate InOrder(a: Option<Key>, b: Option<Key>, asc: bool) {
    match a
    case None => b.None?
    case Some(x) =>
      match b
      case None => true
      case Some(y) => if asc then LexLeq(x, y) else LexLeq(y, x)
  }

  lemma InOrderTotal(a: Option<Key>, b: Option<Key>, asc: bool)
    ensures InOrder(a, b, asc) || InOrder(b, a, asc)
  {
    if a.Some? && b.Some? {
      LexLeqTotal(a.value, b.value);
    }
  }

  lemma InOrderTrans(a: Option<Key>, b: Option<Key>, c: Option<Key>, asc: bool)
    requires InOrder(a, b, asc) && InOrder(b, c, asc)
    ensures InOrder(a, c, asc)
  {
    if a.Some? && b.Some? && c.Some? {
      if asc {
        LexLeqTrans(a.value, b.value, c.value);
      } else {
        LexLeqTrans(c.value, b.value, a.value);
      }
    }
  }

  predicate Ordered(s: seq<Task>, col: Column, asc: bool) {
    forall i, j :: 0 <= i < j < |s| ==> InOrder(KeyOf(s[i], col), KeyOf(s[j], col), asc)
  }

  /** Places `x` before the first row it may precede. */
  function Insert(x: Task, s: seq<Task>, col: Column, asc: bool): (r: seq<Task>)
    requires Ordered(s, col, asc)
    ensures Ordered(r, col, asc)
    ensures multiset(r) == multiset(s) + multiset{x}
    ensures |r| == |s| + 1
  {
    if s == [] then [x]
    else if InOrder(KeyOf(x, col), KeyOf(s[0], col), asc) then
      InsertFront(x, s, col, asc);
      [x] + s
    else
      var rest := Insert(x, s[1..], col, asc);
      assert s == [s[0]] + s[1..];
      InsertBehind(x, s, rest, col, asc);
      [s[0]] + rest
  }

  lemma InsertFront(x: Task, s: seq<Task>, col: Column, asc: bool)
    requires Ordered(s, col, asc) && s != []
    requires InOrder(KeyOf(x, col), KeyOf(s[0], col), asc)
    ensures Ordered([x] + s, col, asc)
  {
    var r := [x] + s;
    forall i, j | 0 <= i < j < |r| ensures InOrder(KeyOf(r[i], col), KeyOf(r[j], col), asc) {
      if i == 0 && j > 1 {
        InOrderTrans(KeyOf(x, col), KeyOf(s[0], col), KeyOf(s[j - 1], col), asc);
      }
    }
  }

  lemma InsertBehind(x: Task, s: seq<Task>, rest: seq<Task>, col: Column, asc: bool)
    requires Ordered(s, col, asc) && s != []
    requires !InOrder(KeyOf(x, col), KeyOf(s[0], col), asc)
    requires Ordered(rest, col, asc) && multiset(rest) == multiset(s[1..]) + multiset{x}
    ensures Ordered([s[0]] + rest, col, asc)
  {
    InOrderTotal(KeyOf(x, col), KeyOf(s[0], col), asc);
    var r := [s[0]] + rest;
    forall j | 0 < j < |r| ensures InOrder(KeyOf(s[0], col), KeyOf(r[j], col), asc) {
      assert r[j] in multiset(rest);
      if r[j] != x {
        assert r[j] in multiset(s[1..]);
        var k :| 0 <= k < |s[1..]| && s[1..][k] == r[j];
        assert s[k + 1] == r[j];
      }
    }
  }

  /** `order_by(column asc|desc nulls last)`: a stable insertion sort. */
  function OrderBy(s: seq<Task>, col: Column, asc: bool): (r: seq<Task>)
    ensures Ordered(r, col, asc)
    ensures multiset(r) == multiset(s)
    ensures |r| == |s|
  {
    if s == [] then []
    else
      assert s == [s[0]] + s[1..];
      Insert(s[0], OrderBy(s[1..], col, asc), col, asc)
  }

  /** `limit(n)`. */
  function Limit(s: seq<Task>, n: nat): (r: seq<Task>)
    ensures |r| <= n && |r| <= |s|
    ensures r == s[..|r|]
    ensures |s| <= n ==> r == s
    ensures |r| == if |s| <= n then |s| else n
  {
    if |s| <= n then s else s[..n]
  }

  /** In an ordered result no row with a key follows a row without one. */
  lemma NullsLast(s: seq<Task>, col: Column, asc: bool, i: int, j: int)
    requires Ordered(s, col, asc) && 0 <= i < j < |s|
    requires KeyOf(s[i], col).None?
    ensures KeyOf(s[j], col).None?
  {
  }

  /** The rows `order_by(...).limit(n)` returns are stored rows that match the query, in order. */
  lemma TopRows(q: TaskQuery, tasks: seq<Task>, col: Column, asc: bool, n: nat)
    ensures var r := Limit(OrderBy(Select(q, tasks), col, asc), n);
      && |r| <= n
      && Ordered(r, col, asc)
      && forall i :: 0 <= i < |r| ==> r[i] in tasks && Matches(q, r[i])
  {
    var sorted := OrderBy(Select(q, tasks), col, asc);
    var r := Limit(sorted, n);
    forall i | 0 <= i < |r| ensures r[i] in tasks && Matches(q, r[i]) {
      assert r[i] == sorted[i];
      assert sorted[i] in multiset(sorted);
    }
  }

  /**
   * `order_by(...).limit(n)` leaves out a matching row only when it returns
   * `n` rows, each of which may come before the one left out; so when at most
   * `n` rows match, all of them are returned.
   */
  lemma TopRowsComplete(q: TaskQuery, tasks: seq<Task>, col: Column, asc: bool, n: nat, t: Task)
    requires t in tasks && Matches(q, t)
    ensures var r := Limit(OrderBy(Select(q, tasks), col, asc), n);
      && (Count(q, tasks) <= n ==> t in r)
      && (t !in r ==> |r| == n && forall i :: 0 <= i < |r| ==> InOrder(KeyOf(r[i], col), KeyOf(t, col), asc))
  {
    var sorted := OrderBy(Select(q, tasks), col, asc);
    var r := Limit(sorted, n);
    assert t in multiset(Select(q, tasks));
    assert t in multiset(sorted);
    var k :| 0 <= k < |sorted| && sorted[k] == t;
    if k < n {
      assert r[k] == t;
    } else {
      forall i | 0 <= i < |r| ensures InOrder(KeyOf(r[i], col), KeyOf(t, col), asc) {
        assert r[i] == sorted[i];
      }
    }
  }

  /** Selected rows are stored rows, so they are as well-formed as the store. */
  lemma SelectWellFormed(q: TaskQuery, tasks: seq<Task>)
    requires AllWellFormed(tasks)
    ensures AllWellFormed(Select(q, tasks))
  {
    var r := Select(q, tasks);
    forall i | 0 <= i < |r| ensures WellFormed(r[i]) {
      assert r[i] in tasks;
      var k :| 0 <= k < |tasks| && tasks[k] == r[i];
    }
  }
}
