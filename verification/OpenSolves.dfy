/** No cap and no purge, short of removing the plan, takes what an open solve reads. */
module OpenSolves {
  import opened PlanTables
  import opened PlanOps
  import opened ObjectStore

  ghost predicate Spares(t: Tables, t': Tables) {
    && (forall id :: id in t.versions && SolvingVersion(t, id) && id.0 in t'.plans ==> id in t'.versions)
    && (forall r :: r in t.results && SolvingResult(t, r) && t.results[r].plan in t'.plans ==> r in t'.results)
  }

  lemma NothingGoneSpares(t: Tables, t': Tables)
    requires t.versions.Keys <= t'.versions.Keys && t.results.Keys <= t'.results.Keys
    ensures Spares(t, t')
  {
  }

  lemma PurgeSpares(t: Tables, cutoff: Time, order: seq<int>, at: Time)
    requires Linked(t)
    ensures Spares(t, PurgedPlans(t, cutoff, order, at))
  {
  }

  lemma VersionInsertedSpares(t: Tables, p: int, row: Version, keep: nat, at: Time)
    ensures Spares(t, VersionInserted(t, p, row, keep, at))
  {
  }

  lemma WithResultSpares(t: Tables, r: int, row: Result, default: nat, at: Time)
    ensures Spares(t, WithResult(t, r, row, default, at))
  {
  }

  lemma TrimSpares(t: Tables, op: Op, at: Time)
    requires op.TrimPlan? || op.PurgeCheckpointsOf? || op.PurgeResults?
    ensures Spares(t, Apply(t, op, at))
  {
  }

  /** Every transaction spares what an open solve reads. */
  lemma EveryOpSparesOpenSolves(t: Tables, op: Op, born: set<int>, at: Time)
    requires Linked(t) && Enabled(t, op, born)
    ensures Spares(t, Apply(t, op, at))
    ensures var u := Apply(t, op, at);
            forall j :: j in t.jobs && t.jobs[j].open ==>
              && (t.jobs[j].plan in u.plans && (t.jobs[j].plan, t.jobs[j].version) in t.versions ==>
                    (t.jobs[j].plan, t.jobs[j].version) in u.versions)
              && var r := t.jobs[j].sourceResult;
                 r in t.results && t.results[r].plan in u.plans ==> r in u.results
  {
    hide Apply, Enabled, Linked, Spares;
    OpSpares(t, op, born, at);
    SparesInWords(t, Apply(t, op, at));
  }

  lemma SparesInWords(t: Tables, u: Tables)
    requires Spares(t, u) && Linked(t)
    ensures forall j :: j in t.jobs && t.jobs[j].open ==>
              && (t.jobs[j].plan in u.plans && (t.jobs[j].plan, t.jobs[j].version) in t.versions ==>
                    (t.jobs[j].plan, t.jobs[j].version) in u.versions)
              && var r := t.jobs[j].sourceResult;
                 r in t.results && t.results[r].plan in u.plans ==> r in u.results
  {
    forall j | j in t.jobs && t.jobs[j].open
      ensures SolvingVersion(t, (t.jobs[j].plan, t.jobs[j].version))
              && (t.jobs[j].sourceResult in t.results ==> SolvingResult(t, t.jobs[j].sourceResult))
    {
    }
  }

  lemma EditSpares(t: Tables, op: Op, at: Time)
    requires op.EditPlan? || op.EditVersion? || op.EditResult? || op.KeepExport? || op.OpenJob? || op.CloseJob?
    ensures Spares(t, Apply(t, op, at))
  {
    hide Spares, Upserts, EditedPlan, EditedVersion, EditedResult, HasSource;
    NothingGoneSpares(t, Apply(t, op, at));
  }

  lemma BirthSpares(t: Tables, op: Op, at: Time)
    requires op.Create? || op.Fork?
    ensures Spares(t, Apply(t, op, at))
  {
    hide Spares, Upserts, Copied, ForkedNumber, Revived;
    NothingGoneSpares(t, Apply(t, op, at));
  }

  lemma OpSpares(t: Tables, op: Op, born: set<int>, at: Time)
    requires Linked(t) && Enabled(t, op, born)
    ensures Spares(t, Apply(t, op, at))
  {
    hide Spares, Linked;
    match op
    case InsertVersion(p, row, keep) => VersionInsertedSpares(t, p, row, keep, at);
    case InsertResult(r, row, default) => WithResultSpares(t, r, row, default, at);
    case TrimPlan(_, _) => TrimSpares(t, op, at);
    case PurgeCheckpointsOf(_, _, _) => TrimSpares(t, op, at);
    case PurgeResults(_, _) => TrimSpares(t, op, at);
    case Purge(cutoff, order) => PurgeSpares(t, cutoff, order, at);
    case Create(_, _, _) => BirthSpares(t, op, at);
    case Fork(_, _, _, _, _) => BirthSpares(t, op, at);
    case _ => EditSpares(t, op, at);
  }

  /** In every run, the version an open solve reads stays for as long as the solve is open. */
  lemma {:induction false} ReadVersionStays(run: seq<System>, i: nat, j: nat, job: int, row: Job)
    requires Run(run) && i <= j < |run|
    requires row.open && forall k :: i <= k <= j ==> job in run[k].t.jobs && run[k].t.jobs[job] == row
    requires (row.plan, row.version) in run[i].t.versions
    ensures (row.plan, row.version) in run[j].t.versions
  {
    hide Run;
    if i < j {
      ReadVersionStays(run, i, j - 1, job, row);
      StepSpares(run, j - 1);
      RunLinked(run, j);
      assert run[j].t.jobs[job] == row;
      assert run[j - 1].t.jobs[job] == row;
      assert SolvingVersion(run[j - 1].t, (row.plan, row.version));
    }
  }

  lemma RunLinked(run: seq<System>, i: nat)
    requires Run(run) && i < |run|
    ensures Linked(run[i].t)
  {
    RunKeeps(run, i);
  }

  lemma StepSpares(run: seq<System>, i: nat)
    requires Run(run) && i + 1 < |run|
    ensures Spares(run[i].t, run[i + 1].t)
  {
    hide Spares, Linked;
    RunLinked(run, i);
    assert Moves(run[i], run[i + 1]);
    var l :| Step(run[i], l, run[i + 1]);
    if l.Commit? || l.Transact? {
      OpSpares(run[i].t, l.op, run[i].born, run[i].now);
    } else {
      NothingGoneSpares(run[i].t, run[i + 1].t);
    }
  }

  /** A result never moves to another plan. */
  ghost predicate StaysWithPlan(t: Tables, t': Tables) {
    forall r :: r in t.results && r in t'.results ==> t'.results[r].plan == t.results[r].plan
  }

  lemma SameResultsStay(t: Tables, t': Tables)
    requires forall r :: r in t.results && r in t'.results ==> t'.results[r] == t.results[r]
    ensures StaysWithPlan(t, t')
  {
  }

  lemma EveryOpKeepsPlan(t: Tables, op: Op, born: set<int>, at: Time)
    requires Enabled(t, op, born)
    ensures StaysWithPlan(t, Apply(t, op, at))
  {
  }

  lemma StepKeepsPlan(run: seq<System>, i: nat)
    requires Run(run) && i + 1 < |run|
    ensures StaysWithPlan(run[i].t, run[i + 1].t)
  {
    hide StaysWithPlan;
    assert Moves(run[i], run[i + 1]);
    var l :| Step(run[i], l, run[i + 1]);
    if l.Commit? || l.Transact? {
      EveryOpKeepsPlan(run[i].t, l.op, run[i].born, run[i].now);
    } else {
      SameResultsStay(run[i].t, run[i + 1].t);
    }
  }

  /** In every run, the result an open solve reads stays while the solve is open and the result's plan is there. */
  lemma {:induction false} ReadResultStays(run: seq<System>, i: nat, j: nat, job: int, row: Job, p: int)
    requires Run(run) && i <= j < |run|
    requires row.open && forall k :: i <= k <= j ==> job in run[k].t.jobs && run[k].t.jobs[job] == row
    requires row.sourceResult in run[i].t.results && run[i].t.results[row.sourceResult].plan == p
    requires forall k :: i <= k <= j ==> p in run[k].t.plans
    ensures row.sourceResult in run[j].t.results && run[j].t.results[row.sourceResult].plan == p
  {
    hide Run;
    if i < j {
      ReadResultStays(run, i, j - 1, job, row, p);
      StepSpares(run, j - 1);
      StepKeepsPlan(run, j - 1);
      RunLinked(run, j - 1);
      assert run[j - 1].t.jobs[job] == row;
      assert SolvingResult(run[j - 1].t, row.sourceResult);
    }
  }
}
