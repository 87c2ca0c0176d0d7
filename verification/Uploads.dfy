/**
 * Whole uploads, call by call. Each is proved to be the steps the system of `ObjectStore` takes for one: revive, write,
 * then commit, find its row already there, or discard. Between any two of them others take whatever steps they take, so
 * no upload leaves its key both unnamed and unlisted.
 */
module Uploads {
  import opened Basics
  import opened PlanTables
  import opened PlanOps
  import opened ObjectStore
  import opened PlanRepository

  /** The system these two objects are part of. */
  ghost predicate Holds(s: System, index: Repository, store: Store)
    reads index, store
  {
    s.t == index.View() && s.objects == store.objects
  }

  // ---------------------------------------------------------------- others

  /** The steps others take from a state, in the first, second or a later gap between an upload's own steps. */
  type Others = (nat, System) -> seq<System>

  /** They take none of this upload's own steps, and let it be in time. */
  ghost predicate GapFits(path: seq<System>, s: System, u: int) {
    && Chain(path) && path[0] == s
    && var e := path[|path| - 1];
       u in s.uploads && InTime(s, s.uploads[u]) ==>
         u in e.uploads && e.uploads[u] == s.uploads[u] && InTime(e, e.uploads[u])
  }

  ghost predicate Apart(others: Others, u: int) {
    forall gap: nat, s: System :: GapFits(others(gap, s), s, u)
  }

  /** Where the others leave the system. */
  function After(others: Others, gap: nat, s: System): System {
    var path := others(gap, s);
    if path == [] then s else path[|path| - 1]
  }

  // ---------------------------------------------------------------- uploads

  function RevivedAt(s: System, u: int, k: Key): System {
    s.(t := s.t.(garbage := Revived(s.t.garbage, k, s.now)),
       uploads := s.uploads[u := ObjectStore.Upload.Upload(k, s.now, false)])
  }

  function WrittenAt(s: System, u: int): System {
    if u in s.uploads
    then s.(objects := s.objects + {s.uploads[u].key}, uploads := s.uploads[u := s.uploads[u].(written := true)])
    else s
  }

  /** The system once this upload wrote its object, and others went on before and after that. */
  function Stored(others: Others, s: System, u: int, k: Key): System {
    After(others, 1, WrittenAt(After(others, 0, RevivedAt(s, u, k)), u))
  }

  /** The key was revived and written, with steps of others in between and since. */
  ghost predicate Reaches(s: System, u: int, k: Key, e: System) {
    exists s1, first, second :: ReachesBy(s, u, k, s1, first, second) && e == second[|second| - 1]
  }

  ghost predicate ReachesBy(s: System, u: int, k: Key, s1: System, first: seq<System>, second: seq<System>) {
    Step(s, Revive(u, k), s1) && Chain(first) && first[0] == s1 && Chain(second)
    && Step(first[|first| - 1], Write(u), second[0])
  }

  predicate Settles(u: int, l: Label) {
    (l.Commit? || l.Replay? || l.Discard?) && l.u == u
  }

  /** And then it was settled. */
  ghost predicate IsUpload(s: System, u: int, k: Key, s': System) {
    exists e, l :: Reaches(s, u, k, e) && Settles(u, l) && Step(e, l, s')
  }

  /** What settles an upload ends it, and no other. */
  lemma SettledIsOver(e: System, u: int, l: Label, s': System)
    requires Settles(u, l) && Step(e, l, s')
    ensures u in e.uploads && s'.uploads == e.uploads - {u}
    ensures l.Commit? ==> e.uploads[u].key in Named(s'.t)
    ensures l.Replay? ==> e.uploads[u].key in Named(s'.t)
    ensures l.Discard? ==> e.uploads[u].key in s'.t.garbage && s'.t.garbage[e.uploads[u].key] == e.now
    ensures l.Commit? || l.Replay? || l.Discard?
  {
    hide Apply, Enabled, Named;
  }

  /** The upload is under way, its object written and its hour not over. */
  ghost predicate Owns(e: System, u: int, k: Key) {
    u in e.uploads && e.uploads[u].key == k && e.uploads[u].written && InTime(e, e.uploads[u])
  }

  /** A new upload of a key that no sweep holds: its revive waits for one that does. */
  ghost predicate CanStart(s: System, u: int, k: Key) {
    u !in s.uploads && k !in s.sweeps
  }

  /** Others going on from there leave it a state the upload reached. */
  lemma ReachesOn(s: System, u: int, k: Key, e: System, path: seq<System>)
    requires Reaches(s, u, k, e) && Chain(path) && path[0] == e
    ensures Reaches(s, u, k, path[|path| - 1])
  {
    hide Step, Moves;
    var s1, first, second :| ReachesBy(s, u, k, s1, first, second) && e == second[|second| - 1];
    ChainsJoin(second, path);
    assert ReachesBy(s, u, k, s1, first, second + path[1..]);
  }

  lemma ReachesKeeps(s: System, u: int, k: Key, e: System)
    requires Inv(s) && Reaches(s, u, k, e)
    ensures Inv(e)
  {
    hide Inv, Step, Moves;
    var s1, first, second :| ReachesBy(s, u, k, s1, first, second) && e == second[|second| - 1];
    StepKeeps(s, Revive(u, k), s1);
    ChainKeeps(first, |first| - 1);
    StepKeeps(first[|first| - 1], Write(u), second[0]);
    ChainKeeps(second, |second| - 1);
  }

  /** Whatever else is under way, a whole upload keeps the store and the index safe. */
  lemma UploadKeeps(s: System, u: int, k: Key, s': System)
    requires Inv(s)
    ensures IsUpload(s, u, k, s') ==> Inv(s')
  {
    hide Inv, Step, Reaches;
    if IsUpload(s, u, k, s') {
      var e, l :| Reaches(s, u, k, e) && Settles(u, l) && Step(e, l, s');
      ReachesKeeps(s, u, k, e);
      StepKeeps(e, l, s');
    }
  }

  /** What the invariant says of an upload in time, and of sweeps. */
  lemma OwnerIsSafe(e: System, u: int, k: Key)
    requires Inv(e) && Owns(e, u, k)
    ensures k !in e.sweeps && k in e.objects && forall q :: q in e.sweeps ==> q in e.t.garbage
  {
    forall q | q in e.sweeps ensures q in e.t.garbage {
      assert ObjectStore.Swept(e, q);
    }
  }

  // ------------------------------------------------------------- how it ends

  lemma Commits(s: System, u: int, k: Key, e: System, op: Op)
    requires Inv(s) && Reaches(s, u, k, e) && Owns(e, u, k) && NewKeys(op) == {k} && Enabled(e.t, op, e.born)
    requires k in Named(Apply(e.t, op, e.now)) && Unlocked(e.t, Apply(e.t, op, e.now), e.sweeps)
    ensures var s' := Applied(e, op).(uploads := e.uploads - {u}); IsUpload(s, u, k, s') && Inv(s') && k in s'.objects
  {
    hide Apply, Enabled, Named, NewKeys, Unlocked, Inv, Reaches;
    var s' := Applied(e, op).(uploads := e.uploads - {u});
    ReachesKeeps(s, u, k, e);
    OwnerIsSafe(e, u, k);
    assert Step(e, Commit(u, op), s');
    UploadKeeps(s, u, k, s');
  }

  lemma Replays(s: System, u: int, k: Key, e: System)
    requires Inv(s) && Reaches(s, u, k, e) && Owns(e, u, k) && k in Named(e.t)
    ensures var s' := e.(uploads := e.uploads - {u}); IsUpload(s, u, k, s') && Inv(s') && k in s'.objects
  {
    hide Apply, Named, Inv, Reaches;
    var s' := e.(uploads := e.uploads - {u});
    ReachesKeeps(s, u, k, e);
    OwnerIsSafe(e, u, k);
    assert Step(e, Label.Replay(u), s');
    UploadKeeps(s, u, k, s');
  }

  ghost function Discarded(e: System, u: int, k: Key): System {
    e.(t := e.t.(garbage := e.t.garbage[k := e.now]), uploads := e.uploads - {u})
  }

  lemma Discards(s: System, u: int, k: Key, e: System)
    requires Inv(s) && Reaches(s, u, k, e) && Owns(e, u, k)
    ensures IsUpload(s, u, k, Discarded(e, u, k)) && Inv(Discarded(e, u, k)) && k in e.objects
  {
    hide Apply, Named, Inv, Reaches;
    ReachesKeeps(s, u, k, e);
    OwnerIsSafe(e, u, k);
    assert Step(e, Label.Discard(u), Discarded(e, u, k));
    UploadKeeps(s, u, k, Discarded(e, u, k));
  }

  /** A transaction that lists nothing and only adds names waits for no sweep. */
  lemma AddingWaitsForNone(t: Tables, t': Tables, sweeps: map<Key, Phase>)
    requires t'.garbage == t.garbage && Named(t) <= Named(t') && forall q :: q in sweeps ==> q in t.garbage
    ensures Unlocked(t, t', sweeps)
  {
  }

  // --------------------------------------------------------------- the calls

  /** Others commit and sweep. */
  method Wait(index: Repository, store: Store, others: Others, gap: nat, s: System, ghost u: int)
      returns (e: System)
    requires Holds(s, index, store) && Apart(others, u)
    modifies index`plans, index`versions, index`results, index`exports, index`jobs, index`garbage, index`stamps,
             index`clock, store
    ensures e == After(others, gap, s) && Holds(e, index, store)
    ensures forall s0, k :: Reaches(s0, u, k, s) ==> Reaches(s0, u, k, e)
    ensures forall k :: Owns(s, u, k) ==> Owns(e, u, k)
  {
    assert GapFits(others(gap, s), s, u);
    e := After(others, gap, s);
    index.Elsewhere(e.t);
    store.objects := e.objects;
    hide Reaches;
    forall s0, k | Reaches(s0, u, k, s) ensures Reaches(s0, u, k, e) {
      ReachesOn(s0, u, k, s, others(gap, s));
    }
  }

  /** Revives the key, then writes the object. */
  method Put(index: Repository, store: Store, key: Key, s: System, u: int, others: Others) returns (e: System)
    requires Holds(s, index, store) && CanStart(s, u, key) && Apart(others, u)
    modifies index`plans, index`versions, index`results, index`exports, index`jobs, index`garbage, index`stamps,
             index`clock, store
    ensures e == Stored(others, s, u, key) && Holds(e, index, store)
    ensures Reaches(s, u, key, e) && Owns(e, u, key)
  {
    hide Moves, Reaches;
    index.Revive(key, s.now);
    var s1 := RevivedAt(s, u, key);
    assert GapFits(others(0, s1), s1, u);
    e := Wait(index, store, others, 0, s1, u);
    ghost var s2 := e;
    store.objects := store.objects + {key};
    e := WrittenAt(e, u);
    WrittenReaches(s, u, key, s1, others(0, s1), e);
    e := Wait(index, store, others, 1, e, u);
  }

  lemma WrittenReaches(s: System, u: int, k: Key, s1: System, path: seq<System>, e: System)
    requires CanStart(s, u, k) && s1 == RevivedAt(s, u, k) && GapFits(path, s1, u)
    requires e == WrittenAt(path[|path| - 1], u)
    ensures Reaches(s, u, k, e) && Owns(e, u, k)
  {
    hide Moves, Apply, Enabled, Unlocked, Named, NewKeys;
    assert Step(s, Revive(u, k), s1);
    assert Step(path[|path| - 1], Write(u), e);
    assert ReachesBy(s, u, k, s1, path, [e]);
  }

  /** A new plan over a document that was just stored; one that breaks is left to the sweep. */
  method NewPlan(index: Repository, store: Store, id: int, plan: Plan, first: Version, broken: bool, s: System, u: int,
                 others: Others) returns (ghost s': System)
    requires Inv(s) && Holds(s, index, store) && CanStart(s, u, first.key) && Apart(others, u)
    requires first.parent == 0 && first.checkpoint == "" && id !in Stored(others, s, u, first.key).born
    modifies index, store
    ensures Holds(s', index, store) && IsUpload(s, u, first.key, s') && Inv(s') && first.key in store.objects
    ensures !broken ==> first.key in Named(index.View())
    ensures broken ==> first.key in index.garbage && index.garbage[first.key] == s'.now
  {
    hide Stamp, IsUpload, Named, Inv, Reaches, Apart, Owns;
    var e := Put(index, store, first.key, s, u, others);
    if broken {
      e := Wait(index, store, others, 2, e, u);
      index.Discard(first.key, e.now);
      Discards(s, u, first.key, e);
      s' := Discarded(e, u, first.key);
      return;
    }
    ReachesKeeps(s, u, first.key, e);
    OwnerIsSafe(e, u, first.key);
    index.Create(id, plan, first);
    PlanIsNew(e, id, plan, first);
    AddingWaitsForNone(e.t, index.View(), e.sweeps);
    Commits(s, u, first.key, e, Op.Create(id, plan, first));
    s' := Applied(e, Op.Create(id, plan, first)).(uploads := e.uploads - {u});
  }

  lemma PlanIsNew(e: System, id: int, plan: Plan, first: Version)
    requires Inv(e) && id !in e.born
    ensures var t := Born(e.t, id, plan, first);
            first.key in Named(t) && Named(e.t) <= Named(t) && t.garbage == e.t.garbage
  {
    hide Upserts, Named;
    BornHasFirst(e.t, id, plan, first);
    VersionIsNamed(Born(e.t, id, plan, first), (id, 1));
    BornNames(e.t, id, plan, first);
  }

  /** A result's row may go in here: its id is new, and its job is the plan's. */
  ghost predicate MayInsert(t: Tables, r: int, row: Result) {
    r !in t.results && (row.job != 0 ==> row.job in t.jobs && t.jobs[row.job].plan == row.plan)
  }

  /**
   * A document is stored and becomes a result, or its key is listed for the sweep. The transaction waits for sweeps
   * that hold what its cap lists.
   */
  method Add(index: Repository, store: Store, r: int, row: Result, s: System, u: int, others: Others)
      returns (o: Outcome<int>, ghost s': System)
    requires Inv(s) && Holds(s, index, store) && CanStart(s, u, row.key) && Apart(others, u)
    requires r != 0 && row.deletedAt.None? && !row.pinned && row.key != ""
    requires var e := Stored(others, s, u, row.key);
             MayInsert(e.t, r, row) && Unlocked(e.t, WithResult(e.t, r, row, index.resultsKeep, e.now), e.sweeps)
    modifies index, store
    ensures Holds(s', index, store) && IsUpload(s, u, row.key, s') && Inv(s') && row.key in store.objects
    ensures o.Ok? ==> row.key in Named(index.View())
    ensures o.Err? ==> row.key in index.garbage && index.garbage[row.key] == s'.now
  {
    hide WithResult, Named, IsUpload, ResultKeyTaken, Inv, Reaches, Apart, Unlocked;
    var e := Put(index, store, row.key, s, u, others);
    o := index.AddResult(r, row, e.now);
    if o.Err? {
      e := Wait(index, store, others, 2, e, u);
      index.Discard(row.key, e.now);
      Discards(s, u, row.key, e);
      s' := Discarded(e, u, row.key);
      return;
    }
    ResultIsNamed(index.View(), o.value);
    if o.value == r {
      var op := Op.InsertResult(r, row, index.resultsKeep);
      Commits(s, u, row.key, e, op);
      s' := Applied(e, op).(uploads := e.uploads - {u});
    } else {
      Replays(s, u, row.key, e);
      s' := e.(uploads := e.uploads - {u});
    }
  }

  lemma ResultIsNamed(t: Tables, r: int)
    requires r in t.results
    ensures t.results[r].key in Named(t)
  {
  }

  /** Stores a built file and records it; one whose source is gone is left to the sweep. */
  method Build(index: Repository, store: Store, key: Key, x: Export, s: System, u: int, others: Others)
      returns (o: Outcome<Key>, ghost s': System)
    requires Inv(s) && Holds(s, index, store) && CanStart(s, u, key) && Apart(others, u)
    modifies index, store
    ensures Holds(s', index, store) && IsUpload(s, u, key, s') && Inv(s') && key in store.objects
    ensures o.Ok? ==> key in Named(index.View())
    ensures o.Err? ==> key in index.garbage && index.garbage[key] == s'.now
  {
    hide IsUpload, Inv, Reaches, Named, Revived, Apart;
    var e := Put(index, store, key, s, u, others);
    o := index.KeepExport(key, x);
    if o.Err? {
      e := Wait(index, store, others, 2, e, u);
      index.Discard(key, e.now);
      Discards(s, u, key, e);
      s' := Discarded(e, u, key);
      return;
    }
    ReachesKeeps(s, u, key, e);
    OwnerIsSafe(e, u, key);
    ExportIsNamed(e.t, key, x);
    AddingWaitsForNone(e.t, index.View(), e.sweeps);
    Commits(s, u, key, e, Op.KeepExport(key, x));
    s' := Applied(e, Op.KeepExport(key, x)).(uploads := e.uploads - {u});
  }

  lemma ExportIsNamed(t: Tables, key: Key, x: Export)
    requires HasSource(t, x)
    ensures key in Named(WithExport(t, key, x)) && Named(t) <= Named(WithExport(t, key, x))
  {
  }

  /** The cap `AddVersion` reads for a plan. */
  ghost function KeepOf(t: Tables, p: int, default: nat): nat {
    KeepFor(if p in t.plans then t.plans[p].backupsKeep else 0, default)
  }

  /** What `AddVersion` leaves when its insert goes through to the end: it read `e`, and others left `then_`. */
  ghost function InsertedBy(e: System, then_: System, upload: PlanRepository.Upload, default: nat): Tables {
    VersionInserted(then_.t, upload.plan, RowOf(e.t, upload, then_.now), KeepOf(e.t, upload.plan, default), then_.now)
  }

  /**
   * Stores a document and makes it the plan's next version. The insert waits for sweeps that hold what its cap lists.
   * However the call ends, it is one upload of the system.
   */
  method UploadVersion(index: Repository, store: Store, upload: PlanRepository.Upload, broken: bool,
                       unread: Option<Lookup>, s: System, u: int, others: Others)
      returns (o: Outcome<int>, ghost s': System)
    requires Inv(s) && Holds(s, index, store) && CanStart(s, u, upload.key) && Apart(others, u)
    requires var e := Stored(others, s, u, upload.key);
             var then_ := After(others, 2, e);
             Unlocked(then_.t, InsertedBy(e, then_, upload, index.backupsKeep), then_.sweeps)
    modifies index, store
    ensures Holds(s', index, store) && IsUpload(s, u, upload.key, s') && Inv(s') && upload.key in store.objects
    ensures o.Ok? ==> upload.key in Named(index.View())
    ensures o.Err? ==> upload.key in index.garbage && index.garbage[upload.key] == s'.now
  {
    hide Named, Stores, UploadKeyTaken, Malformed, VersionInserted, Accepts, IsUpload, RowOf, Inv, Reaches, BreaksEarly;
    hide Apart, Unlocked, NotInserted;
    var e := Put(index, store, upload.key, s, u, others);
    var then_ := After(others, 2, e);
    GapReaches(s, u, upload.key, e, others, 2);
    RowIsPlain(e.t, upload, then_.now);
    ghost var read := e;
    var tried;
    o, tried := index.AddVersion(upload, then_.now, then_.t, broken, unread);
    if tried {
      store.objects := then_.objects;
      e := then_;
    }
    if o.Err? {
      e := Wait(index, store, others, 3, e, u);
      index.Discard(upload.key, e.now);
      Discards(s, u, upload.key, e);
      s' := Discarded(e, u, upload.key);
      return;
    }
    StoredIsNamed(index.View(), upload, o.value);
    if index.View() == e.t {
      Replays(s, u, upload.key, e);
      s' := e.(uploads := e.uploads - {u});
    } else {
      ghost var row, keep := RowOf(read.t, upload, e.now), KeepOf(read.t, upload.plan, index.backupsKeep);
      ghost var op := Op.InsertVersion(upload.plan, row, keep);
      Commits(s, u, upload.key, e, op);
      s' := Applied(e, op).(uploads := e.uploads - {u});
    }
  }

  lemma GapReaches(s: System, u: int, k: Key, e: System, others: Others, gap: nat)
    requires Reaches(s, u, k, e) && Owns(e, u, k) && Apart(others, u)
    ensures Reaches(s, u, k, After(others, gap, e)) && Owns(After(others, gap, e), u, k)
  {
    assert GapFits(others(gap, e), e, u);
    ReachesOn(s, u, k, e, others(gap, e));
  }

  lemma RowIsPlain(t: Tables, upload: PlanRepository.Upload, later: Time)
    ensures var row := RowOf(t, upload, later);
            row.key == upload.key && row.checkpoint == "" && row.checkpointDeletedAt.None?
            && (Malformed(upload).None? ==> row.parent >= 1)
  {
  }

  lemma StoredIsNamed(t: Tables, u: PlanRepository.Upload, number: int)
    requires Stores(t, u, number)
    ensures u.key in Named(t)
  {
    VersionIsNamed(t, (u.plan, number));
  }
}
