/** Every transaction of the plan index as one function from tables to tables. */
module PlanOps {
  import opened Basics
  import opened PlanTables

  /** A new or changed value of a column; `None` leaves it. */
  datatype PlanEdit =
    | Update(name: Option<string>, schoolYear: Option<string>, backupsKeep: Option<nat>, resultsKeep: Option<nat>)
    | Transfer(owner: string)
    | TrashPlan
    | RestorePlan(asOwner: string)

  datatype VersionEdit = NameCheckpoint(name: string) | DeleteCheckpoint | RestoreCheckpoint

  datatype ResultEdit = Change(name: Option<string>, pinned: Option<bool>) | TrashResult | RestoreResult

  /** One transaction. `order` is the order in which the rows it removed were read back. */
  datatype Op =
    | Create(id: int, plan: Plan, first: Version)
    | Fork(id: int, origin: int, version: int, owner: string, name: string)
    | InsertVersion(plan_: int, row: Version, keep: nat)
    | EditPlan(p: int, planEdit: PlanEdit)
    | EditVersion(v: (int, int), versionEdit: VersionEdit)
    | EditResult(p: int, r: int, resultEdit: ResultEdit)
    | TrimPlan(p: int, default: nat)
    | PurgeCheckpointsOf(p: int, cutoff: Time, default: nat)
    | InsertResult(r: int, result: Result, default: nat)
    | PurgeResults(cutoff: Time, order: seq<int>)
    | Purge(cutoff: Time, order: seq<int>)
    | KeepExport(key: Key, export_: Export)
    | OpenJob(j: int, job: Job)
    | CloseJob(j: int)

  // ------------------------------------------------------------- row edits

  /** The row an update writes, or `None` when its `where` matches nothing. */
  function EditedPlan(row: Plan, edit: PlanEdit, at: Time): Option<Plan> {
    match edit
    case Update(name, year, backups, results) =>
      if row.deletedAt.Some? || (name.None? && year.None? && backups.None? && results.None?) then None
      else Some(row.(updatedAt := at, name := name.GetOr(row.name), schoolYear := year.GetOr(row.schoolYear),
                     backupsKeep := backups.GetOr(row.backupsKeep), resultsKeep := results.GetOr(row.resultsKeep)))
    case Transfer(owner) =>
      if row.deletedAt.Some? then None else Some(row.(owner := owner, updatedAt := at))
    case TrashPlan =>
      if row.deletedAt.Some? then None else Some(row.(deletedAt := Some(at)))
    case RestorePlan(asOwner) =>
      if row.owner != asOwner then None else Some(row.(deletedAt := None))
  }

  function EditedVersion(row: Version, edit: VersionEdit, at: Time): Option<Version> {
    match edit
    case NameCheckpoint(name) =>
      if name == "" then None else Some(row.(checkpoint := name, checkpointDeletedAt := None))
    case DeleteCheckpoint =>
      if row.checkpoint == "" || row.checkpointDeletedAt.Some? then None
      else Some(row.(checkpointDeletedAt := Some(at)))
    case RestoreCheckpoint =>
      if row.checkpoint == "" then None else Some(row.(checkpointDeletedAt := None))
  }

  function EditedResult(row: Result, edit: ResultEdit, at: Time): Option<Result> {
    match edit
    case Change(name, pinned) =>
      if row.deletedAt.Some? || (name.None? && pinned.None?) then None
      else Some(row.(name := name.GetOr(row.name), pinned := pinned.GetOr(row.pinned)))
    case TrashResult =>
      if row.deletedAt.Some? then None else Some(row.(deletedAt := Some(at)))
    case RestoreResult => Some(row.(deletedAt := None))
  }

  // ---------------------------------------------------------- transactions

  ghost predicate UploadKeyTaken(t: Tables, p: int, uploadKey: string) {
    uploadKey != "" && exists id :: id in t.versions && id.0 == p && t.versions[id].uploadKey == uploadKey
  }

  ghost predicate ResultKeyTaken(t: Tables, p: int, uploadKey: string) {
    uploadKey != "" && exists r :: r in t.results && t.results[r].plan == p && t.results[r].uploadKey == uploadKey
  }

  /** The tables once a plan is there that was not, with number 1 to open. */
  function Born(t: Tables, id: int, plan: Plan, first: Version): Tables {
    Stamp(t.(plans := t.plans[id := plan], versions := t.versions[(id, 1) := first]),
          [(id, Project), (id, Versions)])
  }

  /** `update object_garbage set since = at where object_key = k`. */
  function Revived(garbage: map<Key, Time>, k: Key, at: Time): map<Key, Time> {
    if k in garbage then garbage[k := at] else garbage
  }

  function Copied(row: Version, owner: string, at: Time): Version {
    row.(parent := 0, createdAt := at, createdBy := owner, uploadKey := "", checkpoint := "",
         checkpointDeletedAt := None)
  }

  ghost function ForkedNumber(t: Tables, origin: int, version: int): int {
    if version != 0 then version
    else if Numbers(t, origin) == {} then 0 else MaxOf(Numbers(t, origin))
  }

  ghost function Forked(t: Tables, op: Op, at: Time): Tables
    requires op.Fork?
  {
    var from := (op.origin, ForkedNumber(t, op.origin, op.version));
    if !Live(t, op.origin) || from !in t.versions then t
    else
      var source := t.versions[from];
      var plan := Plan(op.owner, op.name, t.plans[op.origin].schoolYear, at, at, None, 0, 0, Some(from));
      Born(t.(garbage := Revived(t.garbage, source.key, at)), op.id, plan, Copied(source, op.owner, at))
  }

  /** The conditional insert took effect: the parent is the newest version and the upload key is new. */
  ghost predicate Accepts(t: Tables, p: int, row: Version) {
    IsNewest(t, p, row.parent) && !UploadKeyTaken(t, p, row.uploadKey)
  }

  ghost function WithVersion(t: Tables, p: int, row: Version, keep: nat, at: Time): Tables
    requires p in t.plans
  {
    var number := row.parent + 1;
    var added := t.(versions := t.versions[(p, number) := row]);
    var kept := RemoveVersions(added, Trimmed(added, p, number, keep), at);
    Stamp(kept.(plans := t.plans[p := t.plans[p].(updatedAt := row.createdAt)]), [(p, Project), (p, Versions)])
  }

  ghost function TrimmedPlan(t: Tables, p: int, default: nat, at: Time): Tables {
    if Numbers(t, p) == {} || p !in t.plans then t
    else
      var gone := Trimmed(t, p, MaxOf(Numbers(t, p)), KeepFor(t.plans[p].backupsKeep, default));
      if gone == {} then t else Stamp(RemoveVersions(t, gone, at), [(p, Versions)])
  }

  predicate Ended(row: Version, cutoff: Time) {
    row.checkpointDeletedAt.Some? && row.checkpointDeletedAt.value <= cutoff
  }

  function EndedIn(t: Tables, p: int, cutoff: Time): set<(int, int)> {
    set id | id in t.versions && id.0 == p && Ended(t.versions[id], cutoff)
  }

  /** Ended checkpoints lose their name and become plain backups. */
  function Unnamed(t: Tables, p: int, cutoff: Time): Tables {
    t.(versions := map id | id in t.versions ::
         if id in EndedIn(t, p, cutoff) then t.versions[id].(checkpoint := "", checkpointDeletedAt := None)
         else t.versions[id])
  }

  ghost function PurgedCheckpoints(t: Tables, p: int, cutoff: Time, default: nat, at: Time): Tables {
    if EndedIn(t, p, cutoff) == {} || p !in t.plans || Numbers(t, p) == {} then t
    else
      var plain := Unnamed(t, p, cutoff);
      var keep := KeepFor(t.plans[p].backupsKeep, default);
      Stamp(RemoveVersions(plain, Trimmed(plain, p, MaxOf(Numbers(t, p)), keep), at), [(p, Versions)])
  }

  /** A result that lands beyond the cap is refused, and the whole transaction with it. */
  ghost function WithResult(t: Tables, r: int, row: Result, default: nat, at: Time): Tables {
    if row.plan !in t.plans || ResultKeyTaken(t, row.plan, row.uploadKey) then t
    else
      var added := t.(results := t.results[r := row]);
      var gone := TrimmedResults(added, row.plan, KeepFor(t.plans[row.plan].resultsKeep, default));
      if r in gone then t else Stamp(RemoveResults(added, gone, at), [(row.plan, Results)])
  }

  function DueResults(t: Tables, cutoff: Time): set<int> {
    set r | r in t.results && t.results[r].deletedAt.Some? && t.results[r].deletedAt.value <= cutoff
            && !SolvingResult(t, r)
  }

  function DuePlans(t: Tables, cutoff: Time): set<int> {
    set p | p in t.plans && t.plans[p].deletedAt.Some? && t.plans[p].deletedAt.value <= cutoff
  }

  function Touched(t: Tables, results: set<int>): set<int> {
    set r | r in results && r in t.results :: t.results[r].plan
  }

  /** One part of each of these plans. */
  function PartOf(ps: seq<int>, part: Part): (changed: seq<(int, Part)>)
    ensures |changed| == |ps| && forall i :: 0 <= i < |ps| ==> changed[i] == (ps[i], part)
  {
    seq(|ps|, i requires 0 <= i < |ps| => (ps[i], part))
  }

  function PurgedResults(t: Tables, cutoff: Time, order: seq<int>, at: Time): Tables {
    Stamp(RemoveResults(t, DueResults(t, cutoff), at), PartOf(order, Results))
  }

  function PurgedPlans(t: Tables, cutoff: Time, order: seq<int>, at: Time): Tables {
    Entomb(RemovePlans(t, DuePlans(t, cutoff), at), order)
  }

  /** What the code that starts a transaction gives it: fresh ids, and rows read back in some order. */
  ghost predicate Enabled(t: Tables, op: Op, born: set<int>) {
    match op
    case Create(id, _, first) => id !in born && first.parent == 0 && first.checkpoint == ""
    case Fork(id, _, _, _, _) => id !in born
    case InsertVersion(_, row, _) => row.parent >= 1 && row.checkpoint == "" && row.checkpointDeletedAt.None?
    case InsertResult(r, row, _) =>
      r !in t.results && r != 0 && row.deletedAt.None? && !row.pinned
      && (row.job != 0 ==> row.job in t.jobs && t.jobs[row.job].plan == row.plan)
    case PurgeResults(cutoff, order) => Lists(order, Touched(t, DueResults(t, cutoff)))
    case Purge(cutoff, order) => Lists(order, DuePlans(t, cutoff))
    case OpenJob(j, job) => j !in t.jobs && j != 0
    case _ => true
  }

  /** `changePlan`: one update of one plan row, its project part stamped; nothing when no row matches. */
  function PlanEdited(t: Tables, p: int, edit: PlanEdit, at: Time): Tables {
    if p in t.plans && EditedPlan(t.plans[p], edit, at).Some?
    then Stamp(t.(plans := t.plans[p := EditedPlan(t.plans[p], edit, at).value]), [(p, Project)]) else t
  }

  /** `changeVersion`. */
  function VersionEdited(t: Tables, v: (int, int), edit: VersionEdit, at: Time): Tables {
    if v in t.versions && EditedVersion(t.versions[v], edit, at).Some?
    then Stamp(t.(versions := t.versions[v := EditedVersion(t.versions[v], edit, at).value]), [(v.0, Versions)])
    else t
  }

  /** `changeResult`. */
  function ResultEdited(t: Tables, p: int, r: int, edit: ResultEdit, at: Time): Tables {
    if r in t.results && t.results[r].plan == p && EditedResult(t.results[r], edit, at).Some?
    then Stamp(t.(results := t.results[r := EditedResult(t.results[r], edit, at).value]), [(p, Results)])
    else t
  }

  /** `KeepExport`: no row without a source of the same plan. */
  function WithExport(t: Tables, key: Key, e: Export): Tables {
    if HasSource(t, e) then t.(exports := t.exports[key := e]) else t
  }

  function WithJob(t: Tables, j: int, job: Job): Tables {
    if job.plan in t.plans then t.(jobs := t.jobs[j := job]) else t
  }

  function JobClosed(t: Tables, j: int): Tables {
    if j in t.jobs then t.(jobs := t.jobs[j := t.jobs[j].(open := false)]) else t
  }

  /** The transaction of `insertVersion`; a refused insert changes nothing. */
  ghost function VersionInserted(t: Tables, p: int, row: Version, keep: nat, at: Time): Tables {
    if p in t.plans && Accepts(t, p, row) then WithVersion(t, p, row, keep, at) else t
  }

  ghost function Apply(t: Tables, op: Op, at: Time): Tables {
    match op
    case Create(id, plan, first) => Born(t, id, plan, first)
    case Fork(_, _, _, _, _) => Forked(t, op, at)
    case InsertVersion(p, row, keep) => VersionInserted(t, p, row, keep, at)
    case EditPlan(p, edit) => PlanEdited(t, p, edit, at)
    case EditVersion(v, edit) => VersionEdited(t, v, edit, at)
    case EditResult(p, r, edit) => ResultEdited(t, p, r, edit, at)
    case TrimPlan(p, default) => TrimmedPlan(t, p, default, at)
    case PurgeCheckpointsOf(p, cutoff, default) => PurgedCheckpoints(t, p, cutoff, default, at)
    case InsertResult(r, row, default) => WithResult(t, r, row, default, at)
    case PurgeResults(cutoff, order) => PurgedResults(t, cutoff, order, at)
    case Purge(cutoff, order) => PurgedPlans(t, cutoff, order, at)
    case KeepExport(key, e) => WithExport(t, key, e)
    case OpenJob(j, job) => WithJob(t, j, job)
    case CloseJob(j) => JobClosed(t, j)
  }

  /** The object keys an operation may start naming: those of an upload, stored before it. */
  function NewKeys(op: Op): set<Key> {
    match op
    case Create(_, _, first) => {first.key}
    case InsertVersion(_, row, _) => {row.key}
    case InsertResult(_, row, _) => {row.key}
    case KeepExport(key, _) => {key}
    case _ => {}
  }
}
