/**
 * What a transaction may do to object keys: it names nothing new but an upload's own key, it lists every
 * key it un-names, and it never moves the date of a key already listed except to now.
 */
module Garbage {
  import opened Basics
  import opened PlanTables
  import opened PlanOps

  /** The list of keys waiting for the sweep only grows, with `at` as the date of what is new or revived. */
  ghost predicate Grows(before: map<Key, Time>, after: map<Key, Time>, at: Time) {
    && before.Keys <= after.Keys
    && forall k :: k in after ==> (k in before && after[k] == before[k]) || after[k] == at
  }

  ghost predicate Accounts(t: Tables, t': Tables, new_: set<Key>, at: Time) {
    && Named(t') <= Named(t) + new_
    && Named(t) - Named(t') <= t'.garbage.Keys
    && Grows(t.garbage, t'.garbage, at)
  }

  lemma AccountsTrans(t: Tables, u: Tables, v: Tables, new_: set<Key>, at: Time)
    requires Accounts(t, u, new_, at) && Accounts(u, v, {}, at)
    ensures Accounts(t, v, new_, at)
  {
  }

  lemma StampNames(t: Tables, changed: seq<(int, Part)>)
    ensures Named(Stamp(t, changed)) == Named(t) && Stamp(t, changed).garbage == t.garbage
  {
  }

  lemma RemoveVersionsAccounts(t: Tables, ids: set<(int, int)>, at: Time)
    ensures Accounts(t, RemoveVersions(t, ids, at), {}, at)
  {
    var u := RemoveVersions(t, ids, at);
    forall k | k in Named(t) && k !in Named(u) ensures k in u.garbage {
      if id :| id in t.versions && t.versions[id].key == k {
        assert id in u.versions || id in ids;
        assert k in VersionKeys(t, ids);
      } else if r :| r in t.results && t.results[r].key == k {
        assert r in u.results;
      } else {
        assert k in t.exports;
      }
    }
    forall k | k in Named(u) ensures k in Named(t) {
      if id :| id in u.versions && u.versions[id].key == k {
        assert id in t.versions;
      }
    }
  }

  lemma RemoveResultsAccounts(t: Tables, ids: set<int>, at: Time)
    ensures Accounts(t, RemoveResults(t, ids, at), {}, at)
  {
    var u := RemoveResults(t, ids, at);
    forall k | k in Named(t) && k !in Named(u) ensures k in u.garbage {
      if r :| r in t.results && t.results[r].key == k {
        assert r in u.results || r in ids;
        assert k in ResultKeys(t, ids);
      } else if id :| id in t.versions && t.versions[id].key == k {
        assert id in u.versions;
      } else {
        assert k in t.exports;
      }
    }
    forall k | k in Named(u) ensures k in Named(t) {
      if r :| r in u.results && u.results[r].key == k {
        assert r in t.results;
      }
    }
  }

  /** Everything the schema cascades is what the purge listed by plan: no key of a cascaded row is lost. */
  lemma CascadeIsListed(t: Tables, ps: set<int>)
    requires Linked(t)
    ensures CascadedResults(t, ps) == ResultsIn(t, ps)
    ensures CascadedExports(t, ps) == ExportsIn(t, ps)
  {
    forall r | r in CascadedResults(t, ps) ensures r in ResultsIn(t, ps) {
      if t.results[r].job in JobsIn(t, ps) {
        assert t.results[r].job == 0 || t.jobs[t.results[r].job].plan == t.results[r].plan;
        assert t.results[r].job != 0 || 0 in t.jobs;
      }
    }
    forall k | k in CascadedExports(t, ps) ensures k in ExportsIn(t, ps) {
      assert HasSource(t, t.exports[k]);
    }
  }

  lemma RemovePlansAccounts(t: Tables, ps: set<int>, at: Time)
    requires Linked(t)
    ensures Accounts(t, RemovePlans(t, ps, at), {}, at)
  {
    CascadeIsListed(t, ps);
    var u := RemovePlans(t, ps, at);
    forall k | k in Named(t) && k !in Named(u) ensures k in u.garbage {
      if id :| id in t.versions && t.versions[id].key == k {
        assert id in u.versions || id in VersionsIn(t, ps);
        assert k in VersionKeys(t, VersionsIn(t, ps));
      } else if r :| r in t.results && t.results[r].key == k {
        assert r in u.results || r in ResultsIn(t, ps);
        assert k in ResultKeys(t, ResultsIn(t, ps));
      } else {
        assert k in t.exports;
      }
    }
    forall k | k in Named(u) ensures k in Named(t) {
      if id :| id in u.versions && u.versions[id].key == k {
        assert id in t.versions;
      } else if r :| r in u.results && u.results[r].key == k {
        assert r in t.results;
      }
    }
  }

  /** Rows added or changed in place name what they named, plus the new row's key. */
  lemma BornAccounts(t: Tables, id: int, plan: Plan, first: Version, at: Time)
    requires (id, 1) !in t.versions
    ensures Accounts(t, Born(t, id, plan, first), {first.key}, at)
  {
    var added := t.(plans := t.plans[id := plan], versions := t.versions[(id, 1) := first]);
    assert forall v :: v in t.versions ==> v in added.versions && added.versions[v] == t.versions[v];
    StampNames(added, [(id, Project), (id, Versions)]);
  }

  lemma ForkedAccounts(t: Tables, op: Op, at: Time)
    requires op.Fork? && (op.id, 1) !in t.versions
    ensures Accounts(t, Forked(t, op, at), {}, at)
  {
    var from := (op.origin, ForkedNumber(t, op.origin, op.version));
    if Live(t, op.origin) && from in t.versions {
      var key := t.versions[from].key;
      assert key in Named(t);
      var u := t.(garbage := Revived(t.garbage, key, at));
      assert Named(u) == Named(t);
      var plan := Plan(op.owner, op.name, t.plans[op.origin].schoolYear, at, at, None, 0, 0, Some(from));
      BornAccounts(u, op.id, plan, Copied(t.versions[from], op.owner, at), at);
    }
  }

  lemma AddedAccounts(t: Tables, id: (int, int), row: Version, at: Time)
    requires id !in t.versions
    ensures Accounts(t, t.(versions := t.versions[id := row]), {row.key}, at)
  {
    var added := t.(versions := t.versions[id := row]);
    assert forall v :: v in t.versions ==> v in added.versions && added.versions[v] == t.versions[v];
  }

  /** A transaction that changed rows, then removed versions, then stamped what changed. */
  lemma ThenRemovedAccounts(t: Tables, added: Tables, gone: set<(int, int)>, plans: map<int, Plan>,
                            changed: seq<(int, Part)>, new_: set<Key>, at: Time)
    requires Accounts(t, added, new_, at)
    ensures Accounts(t, Stamp(RemoveVersions(added, gone, at).(plans := plans), changed), new_, at)
  {
    RemoveVersionsAccounts(added, gone, at);
    AccountsTrans(t, added, RemoveVersions(added, gone, at), new_, at);
    StampNames(RemoveVersions(added, gone, at).(plans := plans), changed);
  }

  lemma AcceptedIsNew(t: Tables, p: int, row: Version)
    ensures Accepts(t, p, row) ==> (p, row.parent + 1) !in t.versions
  {
  }

  lemma UnchangedAccounts(t: Tables, new_: set<Key>, at: Time)
    ensures Accounts(t, t, new_, at)
  {
  }

  lemma VersionInsertedAccounts(t: Tables, p: int, row: Version, keep: nat, at: Time)
    ensures Accounts(t, VersionInserted(t, p, row, keep, at), {row.key}, at)
  {
    AcceptedIsNew(t, p, row);
    UnchangedAccounts(t, {row.key}, at);
    hide Accepts, Accounts, Trimmed, RemoveVersions, Stamp;
    if p in t.plans && Accepts(t, p, row) {
      var number := row.parent + 1;
      AddedAccounts(t, (p, number), row, at);
      var added := t.(versions := t.versions[(p, number) := row]);
      ThenRemovedAccounts(t, added, Trimmed(added, p, number, keep),
                          t.plans[p := t.plans[p].(updatedAt := row.createdAt)],
                          [(p, Project), (p, Versions)], {row.key}, at);
    }
  }

  lemma SameKeysAccount(t: Tables, versions: map<(int, int), Version>, at: Time)
    requires versions.Keys == t.versions.Keys
    requires forall id :: id in versions ==> versions[id].key == t.versions[id].key
    ensures Accounts(t, t.(versions := versions), {}, at)
  {
  }

  lemma WithResultAccounts(t: Tables, r: int, row: Result, default: nat, at: Time)
    requires r !in t.results
    ensures Accounts(t, WithResult(t, r, row, default, at), {row.key}, at)
  {
    if row.plan in t.plans && !ResultKeyTaken(t, row.plan, row.uploadKey) {
      var added := t.(results := t.results[r := row]);
      assert forall q :: q in t.results ==> q in added.results && added.results[q] == t.results[q];
      assert Accounts(t, added, {row.key}, at);
      var gone := TrimmedResults(added, row.plan, KeepFor(t.plans[row.plan].resultsKeep, default));
      RemoveResultsAccounts(added, gone, at);
    }
  }

  lemma VersionEditedAccounts(t: Tables, v: (int, int), edit: VersionEdit, at: Time)
    ensures Accounts(t, VersionEdited(t, v, edit, at), {}, at)
  {
    if v in t.versions && EditedVersion(t.versions[v], edit, at).Some? {
      SameKeysAccount(t, t.versions[v := EditedVersion(t.versions[v], edit, at).value], at);
    }
  }

  lemma SameResultKeysAccount(t: Tables, r: int, row: Result, at: Time)
    requires r in t.results && t.results[r].key == row.key
    ensures Accounts(t, t.(results := t.results[r := row]), {}, at)
  {
    var u := t.(results := t.results[r := row]);
    assert forall q :: q in t.results ==> q in u.results && u.results[q].key == t.results[q].key;
    assert Named(u) == Named(t);
  }

  lemma ResultEditedAccounts(t: Tables, p: int, r: int, edit: ResultEdit, at: Time)
    ensures Accounts(t, ResultEdited(t, p, r, edit, at), {}, at)
  {
    if r in t.results && t.results[r].plan == p && EditedResult(t.results[r], edit, at).Some? {
      SameResultKeysAccount(t, r, EditedResult(t.results[r], edit, at).value, at);
    }
  }

  lemma TrimmedPlanAccounts(t: Tables, p: int, default: nat, at: Time)
    ensures Accounts(t, TrimmedPlan(t, p, default, at), {}, at)
  {
    if Numbers(t, p) != {} && p in t.plans {
      var gone := Trimmed(t, p, MaxOf(Numbers(t, p)), KeepFor(t.plans[p].backupsKeep, default));
      ThenRemovedAccounts(t, t, gone, t.plans, [(p, Versions)], {}, at);
    }
  }

  lemma PurgedCheckpointsAccounts(t: Tables, p: int, cutoff: Time, default: nat, at: Time)
    ensures Accounts(t, PurgedCheckpoints(t, p, cutoff, default, at), {}, at)
  {
    if p in t.plans && Numbers(t, p) != {} {
      var plain := Unnamed(t, p, cutoff);
      SameKeysAccount(t, plain.versions, at);
      var gone := Trimmed(plain, p, MaxOf(Numbers(t, p)), KeepFor(t.plans[p].backupsKeep, default));
      ThenRemovedAccounts(t, plain, gone, t.plans, [(p, Versions)], {}, at);
    }
  }

  lemma PurgedAccounts(t: Tables, cutoff: Time, order: seq<int>, at: Time)
    requires Linked(t)
    ensures Accounts(t, PurgedResults(t, cutoff, order, at), {}, at)
    ensures Accounts(t, PurgedPlans(t, cutoff, order, at), {}, at)
  {
    RemoveResultsAccounts(t, DueResults(t, cutoff), at);
    RemovePlansAccounts(t, DuePlans(t, cutoff), at);
  }

  lemma UnnamingNothingAccounts(t: Tables, op: Op, at: Time)
    requires op.EditPlan? || op.KeepExport? || op.OpenJob? || op.CloseJob?
    ensures Accounts(t, Apply(t, op, at), NewKeys(op), at)
  {
  }

  lemma EditAccounts(t: Tables, op: Op, at: Time)
    requires op.EditPlan? || op.EditVersion? || op.EditResult? || op.KeepExport? || op.OpenJob? || op.CloseJob?
    ensures Accounts(t, Apply(t, op, at), NewKeys(op), at)
  {
    hide Accounts;
    match op
    case EditVersion(v, edit) => VersionEditedAccounts(t, v, edit, at);
    case EditResult(p, r, edit) => ResultEditedAccounts(t, p, r, edit, at);
    case _ => UnnamingNothingAccounts(t, op, at);
  }

  lemma RemovalAccounts(t: Tables, op: Op, at: Time)
    requires Linked(t)
    requires op.TrimPlan? || op.PurgeCheckpointsOf? || op.PurgeResults? || op.Purge?
    ensures Accounts(t, Apply(t, op, at), NewKeys(op), at)
  {
    hide Accounts;
    match op
    case TrimPlan(p, default) => TrimmedPlanAccounts(t, p, default, at);
    case PurgeCheckpointsOf(p, cutoff, default) => PurgedCheckpointsAccounts(t, p, cutoff, default, at);
    case PurgeResults(cutoff, order) => PurgedAccounts(t, cutoff, order, at);
    case Purge(cutoff, order) => PurgedAccounts(t, cutoff, order, at);
  }

  lemma InsertAccounts(t: Tables, op: Op, born: set<int>, at: Time)
    requires Linked(t) && t.plans.Keys <= born && Enabled(t, op, born)
    requires op.Create? || op.Fork? || op.InsertVersion? || op.InsertResult?
    ensures Accounts(t, Apply(t, op, at), NewKeys(op), at)
  {
    hide Accounts;
    match op
    case Create(id, plan, first) => BornAccounts(t, id, plan, first, at);
    case Fork(_, _, _, _, _) => ForkedAccounts(t, op, at);
    case InsertVersion(p, row, keep) => VersionInsertedAccounts(t, p, row, keep, at);
    case InsertResult(r, row, default) => WithResultAccounts(t, r, row, default, at);
  }

  /** Every transaction of the index accounts for every key it stops naming. */
  lemma EveryOpAccounts(t: Tables, op: Op, born: set<int>, at: Time)
    requires Linked(t) && t.plans.Keys <= born && Enabled(t, op, born)
    ensures Accounts(t, Apply(t, op, at), NewKeys(op), at)
  {
    hide Accounts;
    if op.Create? || op.Fork? || op.InsertVersion? || op.InsertResult? {
      InsertAccounts(t, op, born, at);
    } else if op.TrimPlan? || op.PurgeCheckpointsOf? || op.PurgeResults? || op.Purge? {
      RemovalAccounts(t, op, at);
    } else {
      EditAccounts(t, op, at);
    }
  }

  /** Whether some row of these tables has this key: a version, a result or an exported file. */
  ghost predicate HasRow(t: Tables, k: Key) {
    || (exists v :: v in t.versions && t.versions[v].key == k)
    || (exists r :: r in t.results && t.results[r].key == k)
    || k in t.exports
  }

  /**
   * Key by key: one that had a row before a transaction and has none after it is listed, and so is every key that was;
   * dates move only to now; and a key gets its first row only as the upload's own, stored before.
   */
  lemma EveryKeyIsListed(t: Tables, op: Op, born: set<int>, at: Time, k: Key)
    requires Linked(t) && t.plans.Keys <= born && Enabled(t, op, born)
    ensures var u := Apply(t, op, at);
            && ((HasRow(t, k) && (forall v :: v in u.versions ==> u.versions[v].key != k)
                 && (forall r :: r in u.results ==> u.results[r].key != k) && k !in u.exports) ==> k in u.garbage)
            && (k in t.garbage ==> k in u.garbage && u.garbage[k] in {t.garbage[k], at})
            && (k in u.garbage && k !in t.garbage ==> u.garbage[k] == at)
            && (HasRow(u, k) && !HasRow(t, k) ==>
                  match op
                  case Create(_, _, first) => k == first.key
                  case InsertVersion(_, row, _) => k == row.key
                  case InsertResult(_, row, _) => k == row.key
                  case KeepExport(key, _) => k == key
                  case _ => false)
  {
    EveryOpAccounts(t, op, born, at);
    hide Apply, Enabled, Linked;
    NamedHasRow(t, k);
    NamedHasRow(Apply(t, op, at), k);
  }

  lemma NamedHasRow(t: Tables, k: Key)
    ensures k in Named(t) <==> HasRow(t, k)
  {
  }
}
