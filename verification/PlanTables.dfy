/**
 * The plan index: its tables as maps, and every transaction that writes them as a function
 * from tables to tables. `PlanRepository` runs the same transactions statement by statement.
 */
module PlanTables {
  import opened Basics

  type Key = string
  type Time = int

  datatype Plan = Plan(owner: string, name: string, schoolYear: string, createdAt: Time, updatedAt: Time,
                       deletedAt: Option<Time>, backupsKeep: nat, resultsKeep: nat, origin: Option<(int, int)>)

  /** `uploadKey` and `checkpoint` are empty where the column is null. */
  datatype Version = Version(parent: int, key: Key, createdAt: Time, createdBy: string,
                             validFrom: Option<Time>, validTo: Option<Time>,
                             uploadKey: string, checkpoint: string, checkpointDeletedAt: Option<Time>)

  /** `job` is 0 when no job of this server made it. */
  datatype Result = Result(plan: int, job: int, uploadKey: string, sourceVersion: int, key: Key,
                           createdAt: Time, name: string, pinned: bool, deletedAt: Option<Time>)

  datatype Source = OfVersion(version: int) | OfResult(id: int)
  datatype Export = Export(plan: int, source: Source, variant: string)

  /** `sourceResult` is 0 when the solve reads the version; `open` is pending or running. */
  datatype Job = Job(plan: int, version: int, sourceResult: int, open: bool)

  datatype Part = Project | Versions | Results

  datatype Tables = Tables(
    plans: map<int, Plan>,
    versions: map<(int, int), Version>,
    results: map<int, Result>,
    exports: map<Key, Export>,
    jobs: map<int, Job>,
    garbage: map<Key, Time>,
    stamps: map<(int, Part), int>,
    clock: nat)

  // ---------------------------------------------------------------- reading

  /** The version numbers a plan has. */
  function Numbers(t: Tables, p: int): set<int> {
    set id | id in t.versions && id.0 == p :: id.1
  }

  ghost predicate IsNewest(t: Tables, p: int, n: int) {
    (p, n) in t.versions && forall id :: id in t.versions && id.0 == p ==> id.1 <= n
  }

  predicate Live(t: Tables, p: int) {
    p in t.plans && t.plans[p].deletedAt.None?
  }

  /** Every object key a version, a result or an exported file names. */
  function Named(t: Tables): set<Key> {
    (set id | id in t.versions :: t.versions[id].key)
    + (set r | r in t.results :: t.results[r].key)
    + t.exports.Keys
  }

  /** A pending or running solve of the plan reads this version. */
  predicate SolvingVersion(t: Tables, id: (int, int)) {
    exists j :: j in t.jobs && t.jobs[j].open && t.jobs[j].plan == id.0 && t.jobs[j].version == id.1
  }

  /** A pending or running solve reads this result. */
  predicate SolvingResult(t: Tables, r: int) {
    r != 0 && exists j :: j in t.jobs && t.jobs[j].open && t.jobs[j].sourceResult == r
  }

  // ------------------------------------------------------------ well-formed

  /** The foreign keys of the schema. */
  ghost predicate Linked(t: Tables) {
    && (forall id :: id in t.versions ==> id.0 in t.plans)
    && (forall r :: r in t.results ==> t.results[r].plan in t.plans)
    && (forall r :: r in t.results && t.results[r].job != 0 ==>
          t.results[r].job in t.jobs && t.jobs[t.results[r].job].plan == t.results[r].plan)
    && (forall j :: j in t.jobs ==> t.jobs[j].plan in t.plans)
    && (forall k :: k in t.exports ==> t.exports[k].plan in t.plans && HasSource(t, t.exports[k]))
    && 0 !in t.results && 0 !in t.jobs
  }

  predicate HasSource(t: Tables, e: Export) {
    match e.source
    case OfVersion(v) => (e.plan, v) in t.versions
    case OfResult(r) => r in t.results && t.results[r].plan == e.plan
  }

  /** No plan exists with nothing to open. */
  ghost predicate Opens(t: Tables) {
    forall p :: p in t.plans ==> exists n :: IsNewest(t, p, n)
  }

  /** Stamps are distinct, at most the clock, and the clock's own value is held once it moved. */
  ghost predicate Clocked(t: Tables) {
    && (forall x :: x in t.stamps ==> 1 <= t.stamps[x] <= t.clock)
    && (forall x, y :: x in t.stamps && y in t.stamps && t.stamps[x] == t.stamps[y] ==> x == y)
    && (t.clock > 0 ==> exists x :: x in t.stamps && t.stamps[x] == t.clock)
    && (forall x :: x in t.stamps && x.0 !in t.plans ==> x.1 == Project)
  }

  ghost predicate Valid(t: Tables) {
    Linked(t) && Opens(t) && Clocked(t)
  }

  const Empty := Tables(map[], map[], map[], map[], map[], map[], map[], 0)

  // ------------------------------------------------------------- statements

  /** `insert into object_garbage ... on conflict do nothing`. */
  function Record(garbage: map<Key, Time>, keys: set<Key>, at: Time): map<Key, Time> {
    map k | k in garbage.Keys + keys :: if k in garbage then garbage[k] else at
  }

  function VersionKeys(t: Tables, ids: set<(int, int)>): set<Key> {
    set id | id in ids && id in t.versions :: t.versions[id].key
  }

  function ResultKeys(t: Tables, ids: set<int>): set<Key> {
    set r | r in ids && r in t.results :: t.results[r].key
  }

  predicate BuiltFrom(e: Export, versions: set<(int, int)>, results: set<int>) {
    match e.source
    case OfVersion(v) => (e.plan, v) in versions
    case OfResult(r) => r in results
  }

  /** The exported files built from these versions or results. */
  function ExportKeys(t: Tables, versions: set<(int, int)>, results: set<int>): set<Key> {
    set k | k in t.exports && BuiltFrom(t.exports[k], versions, results)
  }

  /** Deletes version rows; their exports go by cascade, and every key is listed first. */
  function RemoveVersions(t: Tables, ids: set<(int, int)>, at: Time): Tables {
    var files := ExportKeys(t, ids, {});
    t.(garbage := Record(t.garbage, VersionKeys(t, ids) + files, at),
       versions := t.versions - ids,
       exports := t.exports - files)
  }

  function RemoveResults(t: Tables, ids: set<int>, at: Time): Tables {
    var files := ExportKeys(t, {}, ids);
    t.(garbage := Record(t.garbage, ResultKeys(t, ids) + files, at),
       results := t.results - ids,
       exports := t.exports - files)
  }

  function VersionsIn(t: Tables, ps: set<int>): set<(int, int)> {
    set id | id in t.versions && id.0 in ps
  }

  function ResultsIn(t: Tables, ps: set<int>): set<int> {
    set r | r in t.results && t.results[r].plan in ps
  }

  function ExportsIn(t: Tables, ps: set<int>): set<Key> {
    set k | k in t.exports && t.exports[k].plan in ps
  }

  function JobsIn(t: Tables, ps: set<int>): set<int> {
    set j | j in t.jobs && t.jobs[j].plan in ps
  }

  /** Rows that go when these plans do: by their own plan, by their job, or by what they were built from. */
  function CascadedResults(t: Tables, ps: set<int>): set<int> {
    set r | r in t.results && (t.results[r].plan in ps || t.results[r].job in JobsIn(t, ps))
  }

  function CascadedExports(t: Tables, ps: set<int>): set<Key> {
    ExportsIn(t, ps) + ExportKeys(t, VersionsIn(t, ps), CascadedResults(t, ps))
  }

  /** Deletes plan rows with everything the schema cascades, listing the keys the purge selects by plan. */
  function RemovePlans(t: Tables, ps: set<int>, at: Time): Tables {
    t.(garbage := Record(t.garbage,
                         VersionKeys(t, VersionsIn(t, ps)) + ResultKeys(t, ResultsIn(t, ps)) + ExportsIn(t, ps), at),
       plans := t.plans - ps,
       versions := t.versions - VersionsIn(t, ps),
       results := t.results - CascadedResults(t, ps),
       exports := t.exports - CascadedExports(t, ps),
       jobs := t.jobs - JobsIn(t, ps))
  }

  /** Each changed part at the next clock value, in order. */
  function Upserts(stamps: map<(int, Part), int>, changed: seq<(int, Part)>, first: int): map<(int, Part), int>
    decreases |changed|
  {
    if changed == [] then stamps
    else Upserts(stamps[changed[0] := first], changed[1..], first + 1)
  }

  function Stamp(t: Tables, changed: seq<(int, Part)>): Tables {
    t.(stamps := Upserts(t.stamps, changed, t.clock + 1), clock := t.clock + |changed|)
  }

  /** The rows a removed plan keeps: its project row alone. */
  function Buried(stamps: map<(int, Part), int>, p: int): map<(int, Part), int> {
    map x | x in stamps && (x.0 != p || x.1 == Project) :: stamps[x]
  }

  function Burials(stamps: map<(int, Part), int>, ids: seq<int>, first: int): map<(int, Part), int>
    decreases |ids|
  {
    if ids == [] then stamps
    else Burials(Buried(stamps, ids[0])[(ids[0], Project) := first], ids[1..], first + 1)
  }

  function Entomb(t: Tables, ids: seq<int>): Tables {
    t.(stamps := Burials(t.stamps, ids, t.clock + 1), clock := t.clock + |ids|)
  }

  // -------------------------------------------------------------- retention

  /** The versions of a plan the backups cap counts: plain ones below the newest. */
  function Plain(t: Tables, p: int, newest: int): set<int> {
    set id | id in t.versions && id.0 == p && id.1 < newest && t.versions[id].checkpoint == "" :: id.1
  }

  /** What the cap removes: plain versions with at least `keep` newer plain ones, unless a solve reads them. */
  function Trimmed(t: Tables, p: int, newest: int, keep: nat): set<(int, int)> {
    set id | id in t.versions && id.0 == p && id.1 < newest && t.versions[id].checkpoint == ""
             && |Above(Plain(t, p, newest), id.1)| >= keep && !SolvingVersion(t, id)
  }

  /** The results the results cap counts: live, unpinned ones. */
  function Counted(t: Tables, p: int): set<int> {
    set r | r in t.results && t.results[r].plan == p && t.results[r].deletedAt.None? && !t.results[r].pinned
  }

  /** `order by created_at desc, id desc` puts `q` before `r`. */
  predicate Newer(t: Tables, q: int, r: int)
    requires q in t.results && r in t.results
  {
    t.results[q].createdAt > t.results[r].createdAt
    || (t.results[q].createdAt == t.results[r].createdAt && q > r)
  }

  function NewerCounted(t: Tables, p: int, r: int): set<int>
    requires r in t.results
  {
    set q | q in Counted(t, p) && Newer(t, q, r)
  }

  function TrimmedResults(t: Tables, p: int, keep: nat): set<int> {
    set r | r in Counted(t, p) && |NewerCounted(t, p, r)| >= keep && !SolvingResult(t, r)
  }

  /** The cap in force: the plan's own, or the server's. */
  function KeepFor(own: nat, default: nat): nat {
    if own > 0 then own else default
  }
}
