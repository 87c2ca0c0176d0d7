/**
 * Every transaction of the plan index on the rows themselves: which rows stay, which go, what each column of a written
 * row holds, and what the change feed records. `PlanOps` says how; here is what.
 */
module PlanRows {
  import opened Basics
  import opened PlanTables
  import opened PlanOps

  /** Empty tables are sound: every history of the index can begin. */
  lemma NothingIsValid()
    ensures Valid(Empty)
  {
  }

  /** When a transaction may run: new rows have ids no row ever had, and everything else may at any time. */
  lemma EnabledInWords(t: Tables, op: Op, born: set<int>)
    ensures (op.EditPlan? || op.EditVersion? || op.EditResult? || op.TrimPlan? || op.PurgeCheckpointsOf?
             || op.KeepExport? || op.CloseJob?) ==> Enabled(t, op, born)
    ensures op.Fork? ==> (Enabled(t, op, born) <==> op.id !in born)
    ensures op.Create? ==>
              (Enabled(t, op, born) <==> op.id !in born && op.first.parent == 0 && op.first.checkpoint == "")
    ensures op.InsertVersion? ==> (Enabled(t, op, born) <==> op.row.parent >= 1 && op.row.checkpoint == ""
                                                             && op.row.checkpointDeletedAt == None)
    ensures op.OpenJob? ==> (Enabled(t, op, born) <==> op.j !in t.jobs && op.j != 0)
    ensures op.InsertResult? ==>
              (Enabled(t, op, born)
               <==> && op.r !in t.results && op.r != 0 && op.result.deletedAt == None && !op.result.pinned
                    && (op.result.job == 0
                        || (op.result.job in t.jobs && t.jobs[op.result.job].plan == op.result.plan)))
  {
  }

  // ------------------------------------------------------ single-row edits

  /** One part of one plan is recorded, at the value after the clock, and no other part is. */
  lemma StampOne(t: Tables, x: (int, Part))
    ensures Stamp(t, [x]) == t.(stamps := t.stamps[x := t.clock + 1], clock := t.clock + 1)
  {
    assert Upserts(t.stamps[x := t.clock + 1], [x][1..], t.clock + 2) == t.stamps[x := t.clock + 1];
  }

  lemma StampTwo(t: Tables, x: (int, Part), y: (int, Part))
    ensures Stamp(t, [x, y])
            == t.(stamps := t.stamps[x := t.clock + 1][y := t.clock + 2], clock := t.clock + 2)
  {
    assert [x, y][1..] == [y] && [y][1..] == [];
    assert Upserts(t.stamps[x := t.clock + 1], [y], t.clock + 2)
           == Upserts(t.stamps[x := t.clock + 1][y := t.clock + 2], [], t.clock + 3);
  }

  /**
   * A change of a plan takes effect when its row is there and out of Trash, a restore when its owner asks, and then
   * writes that row and records its project part; otherwise it changes nothing.
   */
  lemma PlanEditWrites(t: Tables, p: int, edit: PlanEdit, at: Time)
    ensures var u := PlanEdited(t, p, edit, at);
            var taken := p in t.plans && match edit
              case Update(name, year, backups, results_) =>
                t.plans[p].deletedAt == None && (name != None || year != None || backups != None || results_ != None)
              case RestorePlan(asOwner) => t.plans[p].owner == asOwner
              case Transfer(_) => t.plans[p].deletedAt == None
              case TrashPlan => t.plans[p].deletedAt == None;
            && (!taken ==> u == t)
            && (taken ==>
                  && u.plans.Keys == t.plans.Keys && (forall q :: q in t.plans && q != p ==> u.plans[q] == t.plans[q])
                  && u == t.(plans := u.plans, stamps := t.stamps[(p, Project) := t.clock + 1], clock := t.clock + 1)
                  && match edit
                     case TrashPlan => u.plans[p] == t.plans[p].(deletedAt := Some(at))
                     case RestorePlan(_) => u.plans[p] == t.plans[p].(deletedAt := None)
                     case Transfer(owner) => u.plans[p] == t.plans[p].(owner := owner, updatedAt := at)
                     case Update(_, _, _, _) => u.plans[p].updatedAt == at && u.plans[p].deletedAt == None)
  {
    hide Stamp;
    if p in t.plans && EditedPlan(t.plans[p], edit, at).Some? {
      StampOne(t.(plans := t.plans[p := EditedPlan(t.plans[p], edit, at).value]), (p, Project));
    }
  }

  /** A checkpoint is named, moved to Trash with the moment, or restored with its name; a plain version only named. */
  lemma VersionEditWrites(t: Tables, v: (int, int), edit: VersionEdit, at: Time)
    ensures var u := VersionEdited(t, v, edit, at);
            var taken := v in t.versions && match edit
              case NameCheckpoint(name) => name != ""
              case DeleteCheckpoint => t.versions[v].checkpoint != "" && t.versions[v].checkpointDeletedAt == None
              case RestoreCheckpoint => t.versions[v].checkpoint != "";
            && (!taken ==> u == t)
            && (taken ==>
                  var row := match edit
                    case NameCheckpoint(name) => t.versions[v].(checkpoint := name, checkpointDeletedAt := None)
                    case DeleteCheckpoint => t.versions[v].(checkpointDeletedAt := Some(at))
                    case RestoreCheckpoint => t.versions[v].(checkpointDeletedAt := None);
                  u == t.(versions := t.versions[v := row], stamps := t.stamps[(v.0, Versions) := t.clock + 1],
                          clock := t.clock + 1))
  {
    hide Stamp;
    if v in t.versions && EditedVersion(t.versions[v], edit, at).Some? {
      StampOne(t.(versions := t.versions[v := EditedVersion(t.versions[v], edit, at).value]), (v.0, Versions));
    }
  }

  /** A result of this plan is renamed or pinned while out of Trash, moved to Trash with the moment, or restored. */
  lemma ResultEditWrites(t: Tables, p: int, r: int, edit: ResultEdit, at: Time)
    ensures var u := ResultEdited(t, p, r, edit, at);
            var taken := r in t.results && t.results[r].plan == p && match edit
              case Change(name, pinned) => t.results[r].deletedAt == None && (name != None || pinned != None)
              case TrashResult => t.results[r].deletedAt == None
              case RestoreResult => true;
            && (!taken ==> u == t)
            && (taken ==>
                  && r in u.results && u == t.(results := t.results[r := u.results[r]],
                                               stamps := t.stamps[(p, Results) := t.clock + 1], clock := t.clock + 1)
                  && match edit
                     case TrashResult => u.results[r] == t.results[r].(deletedAt := Some(at))
                     case RestoreResult => u.results[r] == t.results[r].(deletedAt := None)
                     case Change(name, pinned) =>
                       && u.results[r] == t.results[r].(name := u.results[r].name, pinned := u.results[r].pinned)
                       && (if name.Some? then u.results[r].name == name.value
                           else u.results[r].name == t.results[r].name)
                       && (if pinned.Some? then u.results[r].pinned == pinned.value
                           else u.results[r].pinned == t.results[r].pinned))
  {
    hide Stamp;
    if r in t.results && t.results[r].plan == p && EditedResult(t.results[r], edit, at).Some? {
      StampOne(t.(results := t.results[r := EditedResult(t.results[r], edit, at).value]), (p, Results));
    }
  }

  // ------------------------------------------------------ new rows

  /** A new plan is its row and version 1, and both parts are recorded; no other row is touched. */
  lemma CreateWrites(t: Tables, id: int, plan: Plan, first: Version)
    ensures Born(t, id, plan, first)
            == t.(plans := t.plans[id := plan], versions := t.versions[(id, 1) := first],
                  stamps := t.stamps[(id, Project) := t.clock + 1][(id, Versions) := t.clock + 2],
                  clock := t.clock + 2)
  {
    StampTwo(t.(plans := t.plans[id := plan], versions := t.versions[(id, 1) := first]), (id, Project), (id, Versions));
  }

  /** A built file is recorded while the version or the result it was built from is still its plan's. */
  lemma ExportWrites(t: Tables, key: Key, e: Export)
    ensures var there := match e.source
              case OfVersion(v) => (e.plan, v) in t.versions
              case OfResult(r) => r in t.results && t.results[r].plan == e.plan;
            WithExport(t, key, e) == if there then t.(exports := t.exports[key := e]) else t
  {
  }

  /** A job is opened for a plan that is there, and closing one leaves what it reads known. */
  lemma JobWrites(t: Tables, j: int, job: Job)
    ensures WithJob(t, j, job) == if job.plan in t.plans then t.(jobs := t.jobs[j := job]) else t
    ensures j !in t.jobs ==> JobClosed(t, j) == t
    ensures j in t.jobs ==>
              JobClosed(t, j) == t.(jobs := t.jobs[j := Job(t.jobs[j].plan, t.jobs[j].version,
                                                            t.jobs[j].sourceResult, false)])
  {
  }

  // ------------------------------------------------------ the backups cap

  /** The plain versions of a plan above one and below its newest. */
  lemma RankInWords(t: Tables, p: int, newest: int, v: int)
    ensures Above(Plain(t, p, newest), v)
            == set o | o in t.versions && o.0 == p && v < o.1 < newest && t.versions[o].checkpoint == "" :: o.1
  {
    var above := set o | o in t.versions && o.0 == p && v < o.1 < newest && t.versions[o].checkpoint == "" :: o.1;
    forall w ensures w in above <==> w in Above(Plain(t, p, newest), v) {
      if w in Above(Plain(t, p, newest), v) {
        assert (p, w) in t.versions;
      }
    }
  }

  /**
   * Which versions a trim leaves: every one of another plan, the newest, every named one, every one an open solve
   * reads, and of the plain ones those with fewer than `keep` plain ones above them. The rows themselves are as before.
   */
  lemma TrimLeaves(t: Tables, p: int, newest: int, keep: nat, at: Time, id: (int, int))
    requires id in t.versions
    ensures var u := RemoveVersions(t, Trimmed(t, p, newest, keep), at);
            && (id in u.versions <==>
                  || id.0 != p || id.1 >= newest || t.versions[id].checkpoint != ""
                  || (exists j :: j in t.jobs && t.jobs[j].open && t.jobs[j].plan == p && t.jobs[j].version == id.1)
                  || |set o | o in t.versions && o.0 == p && id.1 < o.1 < newest && t.versions[o].checkpoint == ""
                        :: o.1| < keep)
            && (id in u.versions ==> u.versions[id] == t.versions[id])
  {
    RankInWords(t, p, newest, id.1);
  }

  /** What the cap of one plan removes when it is applied by itself: its own cap, or the server's when it has none. */
  lemma TrimPlanLeaves(t: Tables, p: int, newest: int, default: nat, at: Time, id: (int, int))
    requires (p, newest) in t.versions && forall v :: v in t.versions && v.0 == p ==> v.1 <= newest
    requires id in t.versions && p in t.plans
    ensures var u := TrimmedPlan(t, p, default, at);
            var keep := if t.plans[p].backupsKeep > 0 then t.plans[p].backupsKeep else default;
            && (id in u.versions <==>
                  || id.0 != p || id.1 == newest || t.versions[id].checkpoint != ""
                  || (exists j :: j in t.jobs && t.jobs[j].open && t.jobs[j].plan == p && t.jobs[j].version == id.1)
                  || |set o | o in t.versions && o.0 == p && id.1 < o.1 < newest && t.versions[o].checkpoint == ""
                        :: o.1| < keep)
            && (id in u.versions ==> u.versions[id] == t.versions[id])
            && u.plans == t.plans && u.results == t.results && u.jobs == t.jobs
  {
    hide Trimmed, RemoveVersions, Upserts;
    NewestIsMax(t, p, newest);
    var keep := KeepFor(t.plans[p].backupsKeep, default);
    TrimLeaves(t, p, newest, keep, at, id);
    TrimTouches(t, Trimmed(t, p, newest, keep), at);
  }

  lemma NewestIsMax(t: Tables, p: int, newest: int)
    requires (p, newest) in t.versions && forall v :: v in t.versions && v.0 == p ==> v.1 <= newest
    ensures Numbers(t, p) != {} && MaxOf(Numbers(t, p)) == newest
  {
    assert newest in Numbers(t, p);
    var m := MaxOf(Numbers(t, p));
    assert IsMax(Numbers(t, p), m);
  }

  /** Removing versions touches no plan, result or job. */
  lemma TrimTouches(t: Tables, gone: set<(int, int)>, at: Time)
    ensures var u := RemoveVersions(t, gone, at);
            && u.plans == t.plans && u.results == t.results && u.jobs == t.jobs && u.stamps == t.stamps
            && u.clock == t.clock && u.versions == t.versions - gone
  {
  }

  /**
   * The conditional insert: it takes effect exactly when the plan is there, the parent is its newest version and the
   * upload key, if any, is new to it. The new version takes the number after its parent's, the plan was touched when
   * the version was made, both parts are recorded, and the cap then counts the parent and what is plain below it.
   */
  lemma InsertVersionWrites(t: Tables, p: int, row: Version, keep: nat, at: Time)
    ensures var u := VersionInserted(t, p, row, keep, at);
            var taken := p in t.plans && (p, row.parent) in t.versions
                         && (forall v :: v in t.versions && v.0 == p ==> v.1 <= row.parent)
                         && (row.uploadKey == ""
                             || forall v :: v in t.versions && v.0 == p ==> t.versions[v].uploadKey != row.uploadKey);
            && (!taken ==> u == t)
            && (taken ==>
                  && (p, row.parent + 1) in u.versions && u.versions[(p, row.parent + 1)] == row
                  && u.plans == t.plans[p := t.plans[p].(updatedAt := row.createdAt)]
                  && u.results == t.results && u.jobs == t.jobs
                  && u.stamps == t.stamps[(p, Project) := t.clock + 1][(p, Versions) := t.clock + 2]
                  && u.clock == t.clock + 2
                  && forall v :: v in u.versions && v != (p, row.parent + 1) ==>
                       v in t.versions && u.versions[v] == t.versions[v])
  {
    hide Trimmed, Stamp;
    if p in t.plans && Accepts(t, p, row) {
      var number := row.parent + 1;
      var added := t.(versions := t.versions[(p, number) := row]);
      NewestIsLeft(added, p, number, keep);
      var kept := RemoveVersions(added, Trimmed(added, p, number, keep), at);
      StampTwo(kept.(plans := t.plans[p := t.plans[p].(updatedAt := row.createdAt)]), (p, Project), (p, Versions));
    }
  }

  lemma NewestIsLeft(t: Tables, p: int, newest: int, keep: nat)
    ensures (p, newest) !in Trimmed(t, p, newest, keep)
  {
  }

  /** And which of the versions there were it leaves. */
  lemma InsertVersionLeaves(t: Tables, p: int, row: Version, keep: nat, at: Time, id: (int, int))
    requires p in t.plans && (p, row.parent) in t.versions && id in t.versions
    requires forall v :: v in t.versions && v.0 == p ==> v.1 <= row.parent
    requires row.uploadKey == "" || forall v :: v in t.versions && v.0 == p ==> t.versions[v].uploadKey != row.uploadKey
    ensures id in VersionInserted(t, p, row, keep, at).versions
            <==> || id.0 != p || t.versions[id].checkpoint != ""
                 || (exists j :: j in t.jobs && t.jobs[j].open && t.jobs[j].plan == p && t.jobs[j].version == id.1)
                 || |set o | o in t.versions && o.0 == p && id.1 < o.1 && t.versions[o].checkpoint == "" :: o.1| < keep
  {
    hide Trimmed, RemoveVersions, VersionInserted;
    var number := row.parent + 1;
    var added := t.(versions := t.versions[(p, number) := row]);
    InsertTrims(t, p, row, keep, at);
    TrimLeaves(added, p, number, keep, at, id);
    RankBelowNew(t, p, row, id.1);
  }

  lemma InsertTrims(t: Tables, p: int, row: Version, keep: nat, at: Time)
    requires p in t.plans && Accepts(t, p, row)
    ensures var added := t.(versions := t.versions[(p, row.parent + 1) := row]);
            VersionInserted(t, p, row, keep, at).versions
            == RemoveVersions(added, Trimmed(added, p, row.parent + 1, keep), at).versions
  {
    hide Trimmed, RemoveVersions, Upserts;
  }

  lemma RankBelowNew(t: Tables, p: int, row: Version, v: int)
    requires forall o :: o in t.versions && o.0 == p ==> o.1 <= row.parent
    ensures var added := t.versions[(p, row.parent + 1) := row];
            (set o | o in added && o.0 == p && v < o.1 < row.parent + 1 && added[o].checkpoint == "" :: o.1)
            == set o | o in t.versions && o.0 == p && v < o.1 && t.versions[o].checkpoint == "" :: o.1
  {
    var added := t.versions[(p, row.parent + 1) := row];
    var before := set o | o in t.versions && o.0 == p && v < o.1 && t.versions[o].checkpoint == "" :: o.1;
    var after := set o | o in added && o.0 == p && v < o.1 < row.parent + 1 && added[o].checkpoint == "" :: o.1;
    forall w ensures w in before <==> w in after {
      assert w in before <==> (p, w) in t.versions && v < w && t.versions[(p, w)].checkpoint == "";
      assert w in after <==> (p, w) in added && v < w < row.parent + 1 && added[(p, w)].checkpoint == "";
    }
  }

  // ------------------------------------------------------ the results cap

  /** The live, unpinned results of a plan that are newer than one: by when they were made, and by id at one moment. */
  lemma ResultRankInWords(t: Tables, p: int, r: int)
    requires r in t.results
    ensures NewerCounted(t, p, r)
            == set q | q in t.results && t.results[q].plan == p
                       && t.results[q].deletedAt == None && !t.results[q].pinned
                       && (t.results[q].createdAt > t.results[r].createdAt
                           || (t.results[q].createdAt == t.results[r].createdAt && q > r))
  {
    var newer := set q | q in t.results && t.results[q].plan == p
                         && t.results[q].deletedAt == None && !t.results[q].pinned
                         && (t.results[q].createdAt > t.results[r].createdAt
                             || (t.results[q].createdAt == t.results[r].createdAt && q > r));
    assert forall q :: q in newer <==> q in NewerCounted(t, p, r);
    assert newer == NewerCounted(t, p, r);
  }

  /**
   * A stored result is there exactly when its plan is, its upload key is new, and the cap leaves it; then every other
   * result is left that is of another plan, in Trash, pinned, read by an open solve, or has fewer than the cap newer
   * ones, the new one included. Refused, it changes nothing at all.
   */
  lemma InsertResultWrites(t: Tables, r: int, row: Result, default: nat, at: Time)
    requires r !in t.results && row.deletedAt == None && !row.pinned
    ensures var u := WithResult(t, r, row, default, at);
            && (r !in u.results ==> u == t)
            && (r in u.results ==>
                  && row.plan in t.plans && u.results[r] == row && u.plans == t.plans && u.versions == t.versions
                  && u.jobs == t.jobs
                  && u.stamps == t.stamps[(row.plan, Results) := t.clock + 1] && u.clock == t.clock + 1
                  && (row.uploadKey == ""
                      || forall q :: q in t.results && t.results[q].plan == row.plan ==>
                           t.results[q].uploadKey != row.uploadKey)
                  && forall q :: q in u.results && q != r ==> q in t.results && u.results[q] == t.results[q])
  {
    hide Stamp, TrimmedResults;
    if row.plan in t.plans && !ResultKeyTaken(t, row.plan, row.uploadKey) {
      var added := t.(results := t.results[r := row]);
      var gone := TrimmedResults(added, row.plan, KeepFor(t.plans[row.plan].resultsKeep, default));
      StampOne(RemoveResults(added, gone, at), (row.plan, Results));
    }
  }

  /** `crowded` are the results the cap has no room for once the new one is counted. */
  lemma InsertResultLeaves(t: Tables, r: int, row: Result, default: nat, at: Time, crowded: set<int>)
    requires r !in t.results && row.deletedAt == None && !row.pinned && row.plan in t.plans
    requires row.uploadKey == ""
             || forall o :: o in t.results && t.results[o].plan == row.plan ==> t.results[o].uploadKey != row.uploadKey
    requires var keep := if t.plans[row.plan].resultsKeep > 0 then t.plans[row.plan].resultsKeep else default;
             var all := t.results[r := row];
             forall o :: o in crowded <==>
               && o in all && all[o].plan == row.plan && all[o].deletedAt == None && !all[o].pinned
               && (o == 0 || forall j :: j in t.jobs && t.jobs[j].open ==> t.jobs[j].sourceResult != o)
               && |set n | n in all && all[n].plan == row.plan && all[n].deletedAt == None && !all[n].pinned
                           && (all[n].createdAt > all[o].createdAt
                               || (all[n].createdAt == all[o].createdAt && n > o))| >= keep
    ensures var u := WithResult(t, r, row, default, at);
            if r in crowded then u == t else u.results == t.results[r := row] - crowded
  {
    hide Stamp, NewerCounted;
    var added := t.(results := t.results[r := row]);
    var keep := KeepFor(t.plans[row.plan].resultsKeep, default);
    var gone := TrimmedResults(added, row.plan, keep);
    StampOne(RemoveResults(added, gone, at), (row.plan, Results));
    forall o ensures o in gone <==> o in crowded {
      if o in added.results {
        ResultRankInWords(added, row.plan, o);
      }
    }
    assert gone == crowded;
  }

  // ------------------------------------------------------ Trash

  /** `ended` are the checkpoints of the plan that were in Trash at the cutoff: they lose their names. */
  lemma CheckpointsEnd(t: Tables, p: int, newest: int, cutoff: Time, default: nat, at: Time, ended: set<(int, int)>,
                       id: (int, int))
    requires p in t.plans && (p, newest) in t.versions && forall v :: v in t.versions && v.0 == p ==> v.1 <= newest
    requires forall v :: v in ended <==>
               && v in t.versions && v.0 == p
               && t.versions[v].checkpointDeletedAt.Some? && t.versions[v].checkpointDeletedAt.value <= cutoff
    requires id in t.versions
    ensures var u := PurgedCheckpoints(t, p, cutoff, default, at);
            var keep := if t.plans[p].backupsKeep > 0 then t.plans[p].backupsKeep else default;
            && (ended == {} ==> u == t)
            && (id in u.versions ==>
                  u.versions[id] == if id in ended then t.versions[id].(checkpoint := "", checkpointDeletedAt := None)
                                    else t.versions[id])
            && (ended != {} ==>
                  && u.stamps == t.stamps[(p, Versions) := t.clock + 1] && u.clock == t.clock + 1
                  && (id in u.versions <==>
                        || id.0 != p || id.1 == newest || (t.versions[id].checkpoint != "" && id !in ended)
                        || (exists j :: j in t.jobs && t.jobs[j].open
                                        && t.jobs[j].plan == p && t.jobs[j].version == id.1)
                        || |set o | o in t.versions && o.0 == p && id.1 < o.1 < newest
                                    && (t.versions[o].checkpoint == "" || o in ended) :: o.1| < keep))
  {
    hide Trimmed, RemoveVersions, PurgedCheckpoints;
    EndingTrims(t, p, newest, cutoff, default, at);
    assert ended == EndedIn(t, p, cutoff);
    var plain := Unnamed(t, p, cutoff);
    TrimLeaves(plain, p, newest, KeepFor(t.plans[p].backupsKeep, default), at, id);
    RankOnceUnnamed(t, p, newest, cutoff, ended, id.1);
  }

  lemma EndingTrims(t: Tables, p: int, newest: int, cutoff: Time, default: nat, at: Time)
    requires p in t.plans && (p, newest) in t.versions && forall v :: v in t.versions && v.0 == p ==> v.1 <= newest
    ensures var plain := Unnamed(t, p, cutoff);
            var left := RemoveVersions(plain, Trimmed(plain, p, newest, KeepFor(t.plans[p].backupsKeep, default)), at);
            PurgedCheckpoints(t, p, cutoff, default, at)
            == if EndedIn(t, p, cutoff) == {} then t
               else left.(stamps := t.stamps[(p, Versions) := t.clock + 1], clock := t.clock + 1)
  {
    hide Trimmed, RemoveVersions, Stamp;
    NewestIsMax(t, p, newest);
    var plain := Unnamed(t, p, cutoff);
    var gone := Trimmed(plain, p, newest, KeepFor(t.plans[p].backupsKeep, default));
    TrimTouches(plain, gone, at);
    StampOne(RemoveVersions(plain, gone, at), (p, Versions));
  }

  lemma RankOnceUnnamed(t: Tables, p: int, newest: int, cutoff: Time, ended: set<(int, int)>, v: int)
    requires ended == EndedIn(t, p, cutoff)
    ensures var plain := Unnamed(t, p, cutoff);
            (set o | o in plain.versions && o.0 == p && v < o.1 < newest && plain.versions[o].checkpoint == "" :: o.1)
            == set o | o in t.versions && o.0 == p && v < o.1 < newest && (t.versions[o].checkpoint == "" || o in ended)
                 :: o.1
  {
    var plain := Unnamed(t, p, cutoff);
    var named := set o | o in plain.versions && o.0 == p && v < o.1 < newest
                         && plain.versions[o].checkpoint == "" :: o.1;
    var there := set o | o in t.versions && o.0 == p && v < o.1 < newest
                         && (t.versions[o].checkpoint == "" || o in ended) :: o.1;
    forall w ensures w in named <==> w in there {
      assert w in named <==> (p, w) in plain.versions && v < w < newest && plain.versions[(p, w)].checkpoint == "";
    }
  }

  /**
   * Which results a purge takes for good: those in Trash since the cutoff or before, unless an open solve reads them.
   * The others are as they were.
   */
  lemma PurgeResultsTakes(t: Tables, cutoff: Time, order: seq<int>, at: Time, r: int)
    requires r in t.results
    ensures var u := PurgedResults(t, cutoff, order, at);
            && (r in u.results <==>
                  || t.results[r].deletedAt == None || t.results[r].deletedAt.value > cutoff
                  || (r != 0 && exists j :: j in t.jobs && t.jobs[j].open && t.jobs[j].sourceResult == r))
            && (r in u.results ==> u.results[r] == t.results[r])
            && u.plans == t.plans && u.versions == t.versions && u.jobs == t.jobs && u.clock == t.clock + |order|
  {
    hide Upserts;
  }

  /**
   * Which plans a purge takes for good: those in Trash since the cutoff or before, with every version, job and result
   * of theirs, every result one of their jobs made, and nothing else.
   */
  lemma PurgeTakes(t: Tables, cutoff: Time, order: seq<int>, at: Time, due: set<int>)
    requires forall p :: p in due <==>
               p in t.plans && t.plans[p].deletedAt.Some? && t.plans[p].deletedAt.value <= cutoff
    ensures var u := PurgedPlans(t, cutoff, order, at);
            && u.plans == t.plans - due && u.clock == t.clock + |order|
            && (forall v :: v in u.versions <==> v in t.versions && v.0 !in due)
            && (forall v :: v in u.versions ==> u.versions[v] == t.versions[v])
            && (forall j :: j in u.jobs <==> j in t.jobs && t.jobs[j].plan !in due)
            && (forall j :: j in u.jobs ==> u.jobs[j] == t.jobs[j])
            && (forall r :: r in u.results <==>
                  && r in t.results && t.results[r].plan !in due
                  && (t.results[r].job in t.jobs ==> t.jobs[t.results[r].job].plan !in due))
            && (forall r :: r in u.results ==> u.results[r] == t.results[r])
  {
    hide Burials;
    assert forall p :: p in due <==> p in DuePlans(t, cutoff);
    assert due == DuePlans(t, cutoff);
  }

  /** A part whose rows a purge leaves in the feed is as it was; of a plan that goes, the project row alone remains. */
  lemma {:induction false} BurialsLeave(stamps: map<(int, Part), int>, ids: seq<int>, first: int, x: (int, Part))
    ensures var left := Burials(stamps, ids, first);
            && (x.0 !in ids ==> (x in left <==> x in stamps) && (x in left ==> left[x] == stamps[x]))
            && (x.0 in ids ==> (x in left <==> x.1 == Project) && (x in left ==> first <= left[x] < first + |ids|))
    decreases |ids|
  {
    if ids != [] {
      BurialsLeave(Buried(stamps, ids[0])[(ids[0], Project) := first], ids[1..], first + 1, x);
    }
  }
}
