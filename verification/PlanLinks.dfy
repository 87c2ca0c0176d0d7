/** Every transaction keeps the foreign keys of the schema. */
module PlanLinks {
  import opened Basics
  import opened PlanTables
  import opened PlanOps
  import opened Garbage

  lemma RemoveVersionsLinks(t: Tables, ids: set<(int, int)>, at: Time)
    requires Linked(t)
    ensures Linked(RemoveVersions(t, ids, at))
  {
  }

  lemma RemoveResultsLinks(t: Tables, ids: set<int>, at: Time)
    requires Linked(t)
    ensures Linked(RemoveResults(t, ids, at))
  {
  }

  lemma RemovePlansLinks(t: Tables, ps: set<int>, at: Time)
    requires Linked(t)
    ensures Linked(RemovePlans(t, ps, at))
  {
    CascadeIsListed(t, ps);
    var u := RemovePlans(t, ps, at);
    forall k | k in u.exports ensures u.exports[k].plan in u.plans && HasSource(u, u.exports[k]) {
      assert HasSource(t, t.exports[k]);
    }
  }

  lemma BornLinks(t: Tables, id: int, plan: Plan, first: Version)
    requires Linked(t)
    ensures Linked(Born(t, id, plan, first))
  {
  }

  lemma AddedLinks(t: Tables, id: (int, int), row: Version)
    requires Linked(t) && id.0 in t.plans
    ensures Linked(t.(versions := t.versions[id := row]))
  {
  }

  lemma SameRowsLinked(t: Tables, u: Tables)
    requires Linked(t)
    requires u.plans.Keys == t.plans.Keys && u.versions.Keys == t.versions.Keys
    requires u.exports == t.exports && u.jobs == t.jobs && u.results.Keys == t.results.Keys
    requires forall r :: r in t.results ==>
               u.results[r].plan == t.results[r].plan && u.results[r].job == t.results[r].job
    ensures Linked(u)
  {
    forall k | k in u.exports ensures HasSource(u, u.exports[k]) {
      assert HasSource(t, t.exports[k]);
    }
  }

  lemma VersionInsertedLinks(t: Tables, p: int, row: Version, keep: nat, at: Time)
    requires Linked(t)
    ensures Linked(VersionInserted(t, p, row, keep, at))
  {
    hide Accepts, Linked, Trimmed;
    if p in t.plans && Accepts(t, p, row) {
      var number := row.parent + 1;
      AddedLinks(t, (p, number), row);
      var added := t.(versions := t.versions[(p, number) := row]);
      ThenRemovedLinks(t, added, Trimmed(added, p, number, keep),
                       t.plans[p := t.plans[p].(updatedAt := row.createdAt)], [(p, Project), (p, Versions)], at);
    }
  }

  lemma ThenRemovedLinks(t: Tables, added: Tables, gone: set<(int, int)>, plans: map<int, Plan>,
                         changed: seq<(int, Part)>, at: Time)
    requires Linked(added) && plans.Keys == added.plans.Keys
    ensures Linked(Stamp(RemoveVersions(added, gone, at).(plans := plans), changed))
  {
    RemoveVersionsLinks(added, gone, at);
    SameRowsLinked(RemoveVersions(added, gone, at), Stamp(RemoveVersions(added, gone, at).(plans := plans), changed));
  }

  lemma TrimmedPlanLinks(t: Tables, p: int, default: nat, at: Time)
    requires Linked(t)
    ensures Linked(TrimmedPlan(t, p, default, at))
  {
    if Numbers(t, p) != {} && p in t.plans {
      var gone := Trimmed(t, p, MaxOf(Numbers(t, p)), KeepFor(t.plans[p].backupsKeep, default));
      ThenRemovedLinks(t, t, gone, t.plans, [(p, Versions)], at);
    }
  }

  lemma PurgedCheckpointsLinks(t: Tables, p: int, cutoff: Time, default: nat, at: Time)
    requires Linked(t)
    ensures Linked(PurgedCheckpoints(t, p, cutoff, default, at))
  {
    if p in t.plans && Numbers(t, p) != {} {
      var plain := Unnamed(t, p, cutoff);
      SameRowsLinked(t, plain);
      var gone := Trimmed(plain, p, MaxOf(Numbers(t, p)), KeepFor(t.plans[p].backupsKeep, default));
      ThenRemovedLinks(t, plain, gone, t.plans, [(p, Versions)], at);
    }
  }

  lemma WithResultLinks(t: Tables, r: int, row: Result, default: nat, at: Time)
    requires Linked(t) && r != 0 && r !in t.results
    requires row.job != 0 ==> row.job in t.jobs && t.jobs[row.job].plan == row.plan
    ensures Linked(WithResult(t, r, row, default, at))
  {
  }

  lemma WithExportLinks(t: Tables, key: Key, e: Export)
    requires Linked(t)
    ensures Linked(WithExport(t, key, e))
  {
  }

  lemma JobsLink(t: Tables, j: int, job: Job)
    requires Linked(t) && job.plan in t.plans && j != 0 && (j in t.jobs ==> t.jobs[j].plan == job.plan)
    ensures Linked(t.(jobs := t.jobs[j := job]))
  {
  }

  lemma ForkedLinks(t: Tables, op: Op, at: Time)
    requires Linked(t) && op.Fork?
    ensures Linked(Forked(t, op, at))
  {
    var from := (op.origin, ForkedNumber(t, op.origin, op.version));
    if Live(t, op.origin) && from in t.versions {
      var u := t.(garbage := Revived(t.garbage, t.versions[from].key, at));
      SameRowsLinked(t, u);
      var plan := Plan(op.owner, op.name, t.plans[op.origin].schoolYear, at, at, None, 0, 0, Some(from));
      BornLinks(u, op.id, plan, Copied(t.versions[from], op.owner, at));
    }
  }

  lemma ResultEditedLinks(t: Tables, p: int, r: int, edit: ResultEdit, at: Time)
    requires Linked(t)
    ensures Linked(ResultEdited(t, p, r, edit, at))
  {
  }

  lemma PurgedLinks(t: Tables, cutoff: Time, order: seq<int>, at: Time)
    requires Linked(t)
    ensures Linked(PurgedResults(t, cutoff, order, at)) && Linked(PurgedPlans(t, cutoff, order, at))
  {
    RemoveResultsLinks(t, DueResults(t, cutoff), at);
    SameRowsLinked(RemoveResults(t, DueResults(t, cutoff), at), PurgedResults(t, cutoff, order, at));
    RemovePlansLinks(t, DuePlans(t, cutoff), at);
    SameRowsLinked(RemovePlans(t, DuePlans(t, cutoff), at), PurgedPlans(t, cutoff, order, at));
  }

  lemma PlanEditedLinks(t: Tables, p: int, edit: PlanEdit, at: Time)
    requires Linked(t)
    ensures Linked(PlanEdited(t, p, edit, at))
  {
  }

  lemma VersionEditedLinks(t: Tables, v: (int, int), edit: VersionEdit, at: Time)
    requires Linked(t)
    ensures Linked(VersionEdited(t, v, edit, at))
  {
  }

  lemma JobClosedLinks(t: Tables, j: int)
    requires Linked(t)
    ensures Linked(JobClosed(t, j))
  {
  }

  lemma EditLinks(t: Tables, op: Op, at: Time)
    requires Linked(t)
    requires op.EditPlan? || op.EditVersion? || op.EditResult?
    ensures Linked(Apply(t, op, at))
  {
    hide Linked;
    match op
    case EditPlan(p, edit) => PlanEditedLinks(t, p, edit, at);
    case EditVersion(v, edit) => VersionEditedLinks(t, v, edit, at);
    case EditResult(p, r, edit) => ResultEditedLinks(t, p, r, edit, at);
  }

  lemma JobAndFileLinks(t: Tables, op: Op, born: set<int>, at: Time)
    requires Linked(t) && Enabled(t, op, born)
    requires op.KeepExport? || op.OpenJob? || op.CloseJob?
    ensures Linked(Apply(t, op, at))
  {
    hide Linked;
    match op
    case KeepExport(key, e) => WithExportLinks(t, key, e);
    case OpenJob(j, job) => if job.plan in t.plans { JobsLink(t, j, job); }
    case CloseJob(j) => JobClosedLinks(t, j);
  }

  lemma RemovalLinks(t: Tables, op: Op, at: Time)
    requires Linked(t)
    requires op.TrimPlan? || op.PurgeCheckpointsOf? || op.PurgeResults? || op.Purge?
    ensures Linked(Apply(t, op, at))
  {
    hide Linked;
    match op
    case TrimPlan(p, default) => TrimmedPlanLinks(t, p, default, at);
    case PurgeCheckpointsOf(p, cutoff, default) => PurgedCheckpointsLinks(t, p, cutoff, default, at);
    case PurgeResults(cutoff, order) => PurgedLinks(t, cutoff, order, at);
    case Purge(cutoff, order) => PurgedLinks(t, cutoff, order, at);
  }

  lemma InsertLinks(t: Tables, op: Op, born: set<int>, at: Time)
    requires Linked(t) && Enabled(t, op, born)
    requires op.Create? || op.Fork? || op.InsertVersion? || op.InsertResult?
    ensures Linked(Apply(t, op, at))
  {
    hide Linked;
    match op
    case Create(id, plan, first) => BornLinks(t, id, plan, first);
    case Fork(_, _, _, _, _) => ForkedLinks(t, op, at);
    case InsertVersion(p, row, keep) => VersionInsertedLinks(t, p, row, keep, at);
    case InsertResult(r, row, default) => WithResultLinks(t, r, row, default, at);
  }

  /** Every transaction keeps the foreign keys. */
  lemma EveryOpLinks(t: Tables, op: Op, born: set<int>, at: Time)
    requires Linked(t) && Enabled(t, op, born)
    ensures Linked(Apply(t, op, at))
    ensures var u := Apply(t, op, at);
            && (forall v :: v in u.versions ==> v.0 in u.plans)
            && (forall r :: r in u.results ==>
                  && u.results[r].plan in u.plans
                  && (u.results[r].job != 0 ==>
                        u.results[r].job in u.jobs && u.jobs[u.results[r].job].plan == u.results[r].plan))
            && (forall j :: j in u.jobs ==> u.jobs[j].plan in u.plans)
            && (forall k :: k in u.exports ==>
                  && u.exports[k].plan in u.plans
                  && match u.exports[k].source
                     case OfVersion(n) => (u.exports[k].plan, n) in u.versions
                     case OfResult(r) => r in u.results && u.results[r].plan == u.exports[k].plan)
  {
    hide Linked, Apply, Enabled;
    KeepsLinks(t, op, born, at);
    LinksInWords(Apply(t, op, at));
  }

  lemma LinksInWords(u: Tables)
    requires Linked(u)
    ensures && (forall v :: v in u.versions ==> v.0 in u.plans)
            && (forall r :: r in u.results ==>
                  && u.results[r].plan in u.plans
                  && (u.results[r].job != 0 ==>
                        u.results[r].job in u.jobs && u.jobs[u.results[r].job].plan == u.results[r].plan))
            && (forall j :: j in u.jobs ==> u.jobs[j].plan in u.plans)
            && (forall k :: k in u.exports ==>
                  && u.exports[k].plan in u.plans
                  && match u.exports[k].source
                     case OfVersion(n) => (u.exports[k].plan, n) in u.versions
                     case OfResult(r) => r in u.results && u.results[r].plan == u.exports[k].plan)
  {
  }

  lemma KeepsLinks(t: Tables, op: Op, born: set<int>, at: Time)
    requires Linked(t) && Enabled(t, op, born)
    ensures Linked(Apply(t, op, at))
  {
    hide Linked;
    if op.Create? || op.Fork? || op.InsertVersion? || op.InsertResult? {
      InsertLinks(t, op, born, at);
    } else if op.TrimPlan? || op.PurgeCheckpointsOf? || op.PurgeResults? || op.Purge? {
      RemovalLinks(t, op, at);
    } else if op.KeepExport? || op.OpenJob? || op.CloseJob? {
      JobAndFileLinks(t, op, born, at);
    } else {
      EditLinks(t, op, at);
    }
  }
}
