/**
 * The rows the core reads (app/models.py): users, assets and maintenance
 * tasks. Money is kept in integer cents (the `Numeric(10, 2)` cost column).
 */
module Records {
  import opened Common
  import opened Dates

  /** The `task_status` enum column. */
  datatype Status = Pending | Done | Skipped | Deleted

  function StatusName(s: Status): string {
    match s
    case Pending => "pending"
    case Done => "done"
    case Skipped => "skipped"
    case Deleted => "deleted"
  }

  datatype User = User(id: int, email: string)

  datatype Asset = Asset(id: int, userId: int, name: string, warrantyExpiration: Option<Date>)

  datatype Task = Task(
    id: int,
    userId: int,
    assetId: int,
    title: string,
    due: Option<Date>,
    status: Status,
    cost: Option<int>,
    createdAt: Option<Timestamp>,
    updatedAt: Option<Timestamp>)

  /** Every date and timestamp a task holds is a real calendar value (Python cannot build any other). */
  predicate WellFormed(t: Task) {
    (t.due.Some? ==> ValidDate(t.due.value))
    && (t.createdAt.Some? ==> ValidTimestamp(t.createdAt.value))
    && (t.updatedAt.Some? ==> ValidTimestamp(t.updatedAt.value))
  }

  predicate AllWellFormed(tasks: seq<Task>) {
    forall i :: 0 <= i < |tasks| ==> WellFormed(tasks[i])
  }

  /** The `task.asset` relationship: the asset whose id the task refers to, if it still exists. */
  function AssetOf(assets: seq<Asset>, t: Task): (r: Option<Asset>)
    ensures r.Some? ==> r.value in assets && r.value.id == t.assetId
    ensures r.None? ==> forall a :: a in assets ==> a.id != t.assetId
  {
    if assets == [] then None
    else if assets[0].id == t.assetId then Some(assets[0])
    else AssetOf(assets[1..], t)
  }

  /** `task.asset.name if task.asset else ""`. */
  function AssetName(assets: seq<Asset>, t: Task): string {
    match AssetOf(assets, t)
    case Some(a) => a.name
    case None => ""
  }
}
