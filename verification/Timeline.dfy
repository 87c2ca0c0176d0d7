/**
 * The timeline of a plan over whole runs: its newest version never goes back, no number is used twice,
 * and at most one upload per plan and parent is ever accepted.
 */
module Timeline {
  import opened Basics
  import opened PlanTables
  import opened PlanOps
  import opened ObjectStore

  /** What a version row is written with once. Its checkpoint name is the only part that changes. */
  ghost predicate SameUpload(a: Version, b: Version) {
    a == b.(checkpoint := a.checkpoint, checkpointDeletedAt := a.checkpointDeletedAt)
  }

  /** A row that was not there before: the next number of its plan, or the first of a new plan. */
  ghost predicate IsNext(t: Tables, born: set<int>, id: (int, int), row: Version) {
    if id.0 in born then IsNewest(t, id.0, row.parent) && id.1 == row.parent + 1 else id.1 == 1
  }

  ghost predicate Follows(t: Tables, born: set<int>, t': Tables) {
    && t'.plans.Keys * born <= t.plans.Keys
    && (forall id :: id in t'.versions && id in t.versions ==> SameUpload(t'.versions[id], t.versions[id]))
    && (forall id :: id in t'.versions && id !in t.versions ==> IsNext(t, born, id, t'.versions[id]))
    && (forall p, n :: p in t'.plans && IsNewest(t, p, n) ==> (p, n) in t'.versions || (p, n + 1) in t'.versions)
    && Opens(t')
  }

  lemma NewestOf(t: Tables, p: int)
    requires Numbers(t, p) != {}
    ensures IsNewest(t, p, MaxOf(Numbers(t, p)))
  {
    var m := MaxOf(Numbers(t, p));
    forall id | id in t.versions && id.0 == p ensures id.1 <= m {
      assert id.1 in Numbers(t, p);
    }
  }

  lemma OpensWhenEachHasOne(t: Tables)
    requires forall p :: p in t.plans ==> exists n :: (p, n) in t.versions
    ensures Opens(t)
  {
    forall p | p in t.plans ensures exists n :: IsNewest(t, p, n) {
      var n :| (p, n) in t.versions;
      assert n in Numbers(t, p);
      NewestOf(t, p);
    }
  }

  /** Rows went or changed in place, and the newest of every plan that is left stayed. */
  lemma ShrinkFollows(t: Tables, born: set<int>, t': Tables)
    requires Opens(t) && t'.plans.Keys <= t.plans.Keys && t'.versions.Keys <= t.versions.Keys
    requires forall id :: id in t'.versions ==> SameUpload(t'.versions[id], t.versions[id])
    requires forall p, n :: p in t'.plans && IsNewest(t, p, n) ==> (p, n) in t'.versions
    ensures Follows(t, born, t')
  {
    forall p | p in t'.plans ensures exists n :: (p, n) in t'.versions {
      var n :| IsNewest(t, p, n);
      assert (p, n) in t'.versions;
    }
    OpensWhenEachHasOne(t');
  }

  lemma RemovedFollows(t: Tables, born: set<int>, plain: Tables, p: int, keep: nat, at: Time, t': Tables)
    requires Opens(t) && plain.plans == t.plans && plain.versions.Keys == t.versions.Keys && Numbers(t, p) != {}
    requires forall id :: id in t.versions ==> SameUpload(plain.versions[id], t.versions[id])
    requires t'.plans == t.plans
    requires t'.versions == RemoveVersions(plain, Trimmed(plain, p, MaxOf(Numbers(t, p)), keep), at).versions
    ensures Follows(t, born, t')
  {
    NewestOf(t, p);
    var m := MaxOf(Numbers(t, p));
    forall q, n | q in t'.plans && IsNewest(t, q, n) ensures (q, n) in t'.versions {
      assert q == p ==> n == m;
    }
    ShrinkFollows(t, born, t');
  }

  lemma BornFollows(t: Tables, born: set<int>, id: int, plan: Plan, first: Version)
    requires Opens(t) && id !in born && (forall v :: v in t.versions ==> v.0 in born) && t.plans.Keys <= born
    ensures Follows(t, born, Born(t, id, plan, first))
  {
    var t' := Born(t, id, plan, first);
    forall p | p in t'.plans ensures exists n :: (p, n) in t'.versions {
      if p == id {
        assert (p, 1) in t'.versions;
      } else {
        var n :| IsNewest(t, p, n);
        assert (p, n) in t'.versions;
      }
    }
    OpensWhenEachHasOne(t');
  }

  /** The insert adds the next row, and its cap removes rows of its own plan below it. */
  lemma InsertedRows(t: Tables, p: int, row: Version, keep: nat, at: Time)
    requires p in t.plans
    ensures var (t', added) := (WithVersion(t, p, row, keep, at), (p, row.parent + 1));
            && t'.plans.Keys == t.plans.Keys && added in t'.versions && t'.versions[added] == row
            && (forall id :: id in t'.versions && id != added ==> id in t.versions && t'.versions[id] == t.versions[id])
            && (forall id :: id in t.versions && id.0 != p ==> id in t'.versions)
  {
    hide Upserts;
  }

  lemma InsertFollows(t: Tables, born: set<int>, p: int, row: Version, keep: nat, at: Time)
    requires Opens(t) && p in t.plans && Accepts(t, p, row) && t.plans.Keys <= born
    ensures Follows(t, born, WithVersion(t, p, row, keep, at))
  {
    hide WithVersion, SameUpload, Opens;
    SameUploads(t);
    var t' := WithVersion(t, p, row, keep, at);
    InsertedRows(t, p, row, keep, at);
    forall q, n | q in t'.plans && IsNewest(t, q, n) ensures (q, n) in t'.versions || (q, n + 1) in t'.versions {
      assert q == p ==> n == row.parent;
    }
    InsertedOpens(t, t');
  }

  lemma InsertedOpens(t: Tables, t': Tables)
    requires Opens(t) && t'.plans.Keys == t.plans.Keys
    requires forall q, n :: q in t'.plans && IsNewest(t, q, n) ==> (q, n) in t'.versions || (q, n + 1) in t'.versions
    ensures Opens(t')
  {
    forall q | q in t'.plans ensures exists n :: (q, n) in t'.versions {
      var n :| IsNewest(t, q, n);
      assert (q, n) in t'.versions || (q, n + 1) in t'.versions;
    }
    OpensWhenEachHasOne(t');
  }

  /** The rows of the invariant that the timeline needs. */
  ghost predicate Ready(t: Tables, born: set<int>) {
    Opens(t) && t.plans.Keys <= born && forall v :: v in t.versions ==> v.0 in t.plans
  }

  lemma TrimmedPlanFollows(t: Tables, p: int, default: nat, born: set<int>, at: Time)
    requires Ready(t, born)
    ensures Follows(t, born, TrimmedPlan(t, p, default, at))
  {
    hide Follows, SameUpload, Trimmed;
    SameUploads(t);
    if Numbers(t, p) == {} || p !in t.plans {
      ShrinkFollows(t, born, t);
    } else {
      var keep := KeepFor(t.plans[p].backupsKeep, default);
      var gone := Trimmed(t, p, MaxOf(Numbers(t, p)), keep);
      if gone == {} {
        ShrinkFollows(t, born, t);
      } else {
        RemovedFollows(t, born, t, p, keep, at, TrimmedPlan(t, p, default, at));
      }
    }
  }

  lemma SameUploads(t: Tables)
    ensures forall id :: id in t.versions ==> SameUpload(t.versions[id], t.versions[id])
  {
  }

  lemma PurgedCheckpointsFollows(t: Tables, p: int, cutoff: Time, default: nat, born: set<int>, at: Time)
    requires Ready(t, born)
    ensures Follows(t, born, PurgedCheckpoints(t, p, cutoff, default, at))
  {
    hide Follows, Trimmed;
    if EndedIn(t, p, cutoff) == {} || p !in t.plans || Numbers(t, p) == {} {
      ShrinkFollows(t, born, t);
    } else {
      var keep := KeepFor(t.plans[p].backupsKeep, default);
      RemovedFollows(t, born, Unnamed(t, p, cutoff), p, keep, at, PurgedCheckpoints(t, p, cutoff, default, at));
    }
  }

  lemma PurgedPlansFollows(t: Tables, cutoff: Time, order: seq<int>, born: set<int>, at: Time)
    requires Ready(t, born)
    ensures Follows(t, born, PurgedPlans(t, cutoff, order, at))
  {
    ShrinkFollows(t, born, PurgedPlans(t, cutoff, order, at));
  }

  lemma RemovalFollows(t: Tables, op: Op, born: set<int>, at: Time)
    requires Ready(t, born) && (op.TrimPlan? || op.PurgeCheckpointsOf? || op.Purge?)
    ensures Follows(t, born, Apply(t, op, at))
  {
    hide Follows, Ready, TrimmedPlan, PurgedCheckpoints, PurgedPlans;
    match op
    case TrimPlan(p, default) => TrimmedPlanFollows(t, p, default, born, at);
    case PurgeCheckpointsOf(p, cutoff, default) => PurgedCheckpointsFollows(t, p, cutoff, default, born, at);
    case Purge(cutoff, order) => PurgedPlansFollows(t, cutoff, order, born, at);
  }

  lemma ForkedFollows(t: Tables, op: Op, born: set<int>, at: Time)
    requires Ready(t, born) && op.Fork? && op.id !in born
    ensures Follows(t, born, Forked(t, op, at))
  {
    var from := (op.origin, ForkedNumber(t, op.origin, op.version));
    if Live(t, op.origin) && from in t.versions {
      var u := t.(garbage := Revived(t.garbage, t.versions[from].key, at));
      assert forall p, n :: IsNewest(u, p, n) <==> IsNewest(t, p, n);
      assert Opens(u);
      var plan := Plan(op.owner, op.name, t.plans[op.origin].schoolYear, at, at, None, 0, 0, Some(from));
      BornFollows(u, born, op.id, plan, Copied(t.versions[from], op.owner, at));
    } else {
      ShrinkFollows(t, born, t);
    }
  }

  ghost predicate SameVersions(t: Tables, u: Tables) {
    u.versions == t.versions && u.plans.Keys == t.plans.Keys
  }

  lemma PlanEditTouchesNoVersion(t: Tables, p: int, edit: PlanEdit, at: Time)
    ensures SameVersions(t, PlanEdited(t, p, edit, at))
  {
    hide Upserts, EditedPlan;
  }

  lemma ResultEditTouchesNoVersion(t: Tables, p: int, r: int, edit: ResultEdit, at: Time)
    ensures SameVersions(t, ResultEdited(t, p, r, edit, at))
  {
    hide Upserts, EditedResult;
  }

  lemma WithResultTouchesNoVersion(t: Tables, r: int, row: Result, default: nat, at: Time)
    ensures SameVersions(t, WithResult(t, r, row, default, at))
  {
    hide Upserts;
  }

  lemma PurgedResultsTouchNoVersion(t: Tables, cutoff: Time, order: seq<int>, at: Time)
    ensures SameVersions(t, PurgedResults(t, cutoff, order, at))
  {
    hide Upserts;
  }

  lemma OthersTouchNoVersion(t: Tables, op: Op, at: Time)
    requires op.EditPlan? || op.EditResult? || op.InsertResult? || op.PurgeResults?
             || op.KeepExport? || op.OpenJob? || op.CloseJob?
    ensures SameVersions(t, Apply(t, op, at))
  {
    hide PlanEdited, ResultEdited, WithResult, PurgedResults;
    match op
    case EditPlan(p, edit) => PlanEditTouchesNoVersion(t, p, edit, at);
    case EditResult(p, r, edit) => ResultEditTouchesNoVersion(t, p, r, edit, at);
    case InsertResult(r, row, default) => WithResultTouchesNoVersion(t, r, row, default, at);
    case PurgeResults(cutoff, order) => PurgedResultsTouchNoVersion(t, cutoff, order, at);
    case _ =>
  }

  lemma EditedIsSameUpload(row: Version, edit: VersionEdit, at: Time)
    ensures SameUpload(row, row)
    ensures EditedVersion(row, edit, at).Some? ==> SameUpload(EditedVersion(row, edit, at).value, row)
  {
  }

  lemma EditKeepsUploads(t: Tables, v: (int, int), edit: VersionEdit, at: Time)
    ensures var t' := VersionEdited(t, v, edit, at);
            t'.plans.Keys == t.plans.Keys && t'.versions.Keys == t.versions.Keys
            && forall id :: id in t'.versions ==> SameUpload(t'.versions[id], t.versions[id])
  {
    hide EditedVersion, SameUpload, Upserts;
    forall id | id in t.versions
      ensures SameUpload(VersionEdited(t, v, edit, at).versions[id], t.versions[id])
    {
      EditedIsSameUpload(t.versions[id], edit, at);
    }
  }

  /** The transactions that leave every version row's upload as it is. */
  lemma OthersFollow(t: Tables, op: Op, born: set<int>, at: Time)
    requires Ready(t, born)
    requires op.EditVersion? || op.EditPlan? || op.EditResult? || op.InsertResult? || op.PurgeResults?
             || op.KeepExport? || op.OpenJob? || op.CloseJob?
    ensures Follows(t, born, Apply(t, op, at))
  {
    hide VersionEdited, Follows, PlanEdited, ResultEdited, WithResult, PurgedResults, Stamp;
    if op.EditVersion? {
      EditKeepsUploads(t, op.v, op.versionEdit, at);
    } else {
      OthersTouchNoVersion(t, op, at);
    }
    ShrinkFollows(t, born, Apply(t, op, at));
  }

  /** Every transaction extends every plan's timeline, if it touches it at all. */
  lemma EveryOpFollows(t: Tables, op: Op, born: set<int>, at: Time)
    requires Ready(t, born) && Enabled(t, op, born)
    ensures Follows(t, born, Apply(t, op, at))
  {
    hide Follows;
    match op
    case Create(id, plan, first) => BornFollows(t, born, id, plan, first);
    case Fork(_, _, _, _, _) => ForkedFollows(t, op, born, at);
    case InsertVersion(p, row, keep) =>
      if p in t.plans && Accepts(t, p, row) {
        InsertFollows(t, born, p, row, keep, at);
      } else {
        ShrinkFollows(t, born, t);
      }
    case TrimPlan(_, _) => RemovalFollows(t, op, born, at);
    case PurgeCheckpointsOf(_, _, _) => RemovalFollows(t, op, born, at);
    case Purge(_, _) => RemovalFollows(t, op, born, at);
    case _ => OthersFollow(t, op, born, at);
  }

  // ------------------------------------------------------------------- runs

  lemma StepFollows(s: System, l: Label, s': System)
    requires Inv(s) && Opens(s.t) && Step(s, l, s')
    ensures Follows(s.t, s.born, s'.t) && s.born <= s'.born
  {
    assert Ready(s.t, s.born);
    if l.Commit? || l.Transact? {
      EveryOpFollows(s.t, l.op, s.born, s.now);
    } else {
      hide Follows;
      ShrinkFollows(s.t, s.born, s'.t);
    }
  }

  lemma InvIsReady(s: System)
    requires Inv(s) && (Opens(s.t) || Init(s))
    ensures Ready(s.t, s.born)
  {
  }

  lemma {:induction false} RunOpens(run: seq<System>, i: nat)
    requires Run(run) && i < |run|
    ensures Inv(run[i]) && Ready(run[i].t, run[i].born)
  {
    RunKeeps(run, i);
    if i == 0 {
      InvIsReady(run[i]);
    } else {
      RunOpens(run, i - 1);
      RunStep(run, i - 1);
      hide Run, Inv, Opens;
      InvIsReady(run[i]);
    }
  }

  lemma RunStep(run: seq<System>, i: nat)
    requires Run(run) && i + 1 < |run| && Inv(run[i]) && Opens(run[i].t)
    ensures Follows(run[i].t, run[i].born, run[i + 1].t) && run[i].born <= run[i + 1].born
  {
    assert Moves(run[i], run[i + 1]);
    var l :| Step(run[i], l, run[i + 1]);
    StepFollows(run[i], l, run[i + 1]);
  }

  lemma OneNewest(t: Tables, p: int, n: int, m: int)
    requires IsNewest(t, p, n) && IsNewest(t, p, m)
    ensures n == m
  {
  }

  /** One step back the newest version was no higher. */
  lemma NewestBefore(t: Tables, born: set<int>, t': Tables, p: int, m: int) returns (k: int)
    requires Opens(t) && Follows(t, born, t') && p in born && IsNewest(t', p, m)
    requires forall v :: v in t'.versions ==> v.0 in t'.plans
    ensures IsNewest(t, p, k) && k <= m
  {
    assert (p, m) in t'.versions && p in t'.plans && p in t.plans;
    k :| IsNewest(t, p, k);
    assert (p, k) in t'.versions || (p, k + 1) in t'.versions;
  }

  /** A plan that is there later was there all along, and its newest version never went back. */
  lemma NewestNeverGoesBack(run: seq<System>, i: nat, j: nat, p: int, n: int, m: int)
    requires Run(run) && i <= j < |run| && p in run[i].born
    requires (p, n) in run[i].t.versions && forall v :: v in run[i].t.versions && v.0 == p ==> v.1 <= n
    requires (p, m) in run[j].t.versions && forall v :: v in run[j].t.versions && v.0 == p ==> v.1 <= m
    ensures n <= m && p in run[j].born
  {
    NewestStaysAhead(run, i, j, p, n, m);
  }

  lemma {:induction false} NewestStaysAhead(run: seq<System>, i: nat, j: nat, p: int, n: int, m: int)
    requires Run(run) && i <= j < |run| && p in run[i].born
    requires IsNewest(run[i].t, p, n) && IsNewest(run[j].t, p, m)
    ensures n <= m && p in run[j].born
  {
    hide Run, Inv, Follows, Opens, IsNewest;
    if i < j {
      RunOpens(run, j);
      RunOpens(run, j - 1);
      RunOpens(run, i);
      RunStep(run, j - 1);
      BornStays(run, i, j - 1, p);
      var k := NewestBefore(run[j - 1].t, run[j - 1].born, run[j].t, p, m);
      NewestStaysAhead(run, i, j - 1, p, n, k);
    } else {
      OneNewest(run[i].t, p, n, m);
    }
  }

  lemma {:induction false} BornStays(run: seq<System>, i: nat, j: nat, p: int)
    requires Run(run) && i <= j < |run| && p in run[i].born
    ensures p in run[j].born
  {
    hide Run, Inv;
    if i < j {
      BornStays(run, i, j - 1, p);
      RunOpens(run, j - 1);
      RunStep(run, j - 1);
    }
  }

  /** The highest number the plan had by then is still a lower bound on its newest. */
  lemma NewestIsAtLeast(run: seq<System>, i: nat, j: nat, id: (int, int), m: int)
    requires Run(run) && i <= j < |run| && id in run[i].t.versions && IsNewest(run[j].t, id.0, m)
    ensures id.1 <= m
  {
    hide Run, Inv;
    RunOpens(run, i);
    var n :| IsNewest(run[i].t, id.0, n);
    NewestStaysAhead(run, i, j, id.0, n, m);
  }

  /** A number used before cannot be the next one. */
  lemma UsedIsNotNext(run: seq<System>, i: nat, j: nat, id: (int, int), row: Version)
    requires Run(run) && i <= j < |run| && id in run[i].t.versions
    ensures !IsNext(run[j].t, run[j].born, id, row)
  {
    hide Run, Inv;
    RunOpens(run, i);
    BornStays(run, i, j, id.0);
    if IsNewest(run[j].t, id.0, row.parent) {
      NewestIsAtLeast(run, i, j, id, row.parent);
    }
  }

  /** A version number, once used and gone, is never used again. */
  lemma {:induction false} NumberNeverReused(run: seq<System>, i: nat, k: nat, j: nat, id: (int, int))
    requires Run(run) && i <= k <= j < |run|
    requires id in run[i].t.versions && id !in run[k].t.versions
    ensures id !in run[j].t.versions
  {
    hide Run, Inv, IsNext, Opens;
    if k < j {
      NumberNeverReused(run, i, k, j - 1, id);
      RunOpens(run, j - 1);
      RunStep(run, j - 1);
      if id in run[j].t.versions {
        UsedIsNotNext(run, i, j - 1, id, run[j].t.versions[id]);
      }
    }
  }

  /** What a version was uploaded as never changes while it is kept. */
  lemma {:induction false} UploadNeverChanges(run: seq<System>, i: nat, j: nat, id: (int, int))
    requires Run(run) && i <= j < |run|
    requires id in run[i].t.versions && id in run[j].t.versions
    ensures SameUpload(run[j].t.versions[id], run[i].t.versions[id])
    ensures var (then_, now) := (run[i].t.versions[id], run[j].t.versions[id]);
            && now.key == then_.key && now.parent == then_.parent && now.uploadKey == then_.uploadKey
            && now.createdAt == then_.createdAt && now.createdBy == then_.createdBy
            && now.validFrom == then_.validFrom && now.validTo == then_.validTo
  {
    hide Run, Inv;
    if i < j {
      if id !in run[j - 1].t.versions {
        NumberNeverReused(run, i, j - 1, j, id);
      }
      UploadNeverChanges(run, i, j - 1, id);
      RunOpens(run, j - 1);
      RunStep(run, j - 1);
    }
  }

  /**
   * Once an upload naming this parent is accepted, none that names it is ever accepted again: not a second
   * upload, and not a retry, even after the cap removed the version it stored.
   */
  lemma ParentIsSpent(run: seq<System>, i: nat, j: nat, p: int, parent: int, row: Version)
    requires Run(run) && i < j < |run|
    requires (p, parent + 1) in run[i + 1].t.versions && row.parent == parent
    ensures !Accepts(run[j].t, p, row)
    ensures (p, parent) in run[j].t.versions ==>
              exists v :: v in run[j].t.versions && v.0 == p && v.1 > parent
  {
    hide Run, Inv;
    if IsNewest(run[j].t, p, parent) {
      NewestIsAtLeast(run, i + 1, j, (p, parent + 1), parent);
    }
  }

  /** A version of a plan older than this step that appears names the newest version before it as its parent. */
  lemma AcceptedParentWasNewest(run: seq<System>, i: nat, id: (int, int))
    requires Run(run) && i + 1 < |run|
    ensures id in run[i + 1].t.versions && id !in run[i].t.versions && id.0 in run[i].t.plans ==>
              run[i + 1].t.versions[id].parent == id.1 - 1 && IsNewest(run[i].t, id.0, id.1 - 1)
  {
    hide Run, Inv;
    RunOpens(run, i);
    RunStep(run, i);
  }
}
