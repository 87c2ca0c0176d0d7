/** Single-row calls together: a move to Trash is undone by the restore beside it, and an update reads back. */
module Undo {
  import opened Basics
  import opened PlanTables
  import opened PlanOps

  /** The tables but for the change feed, which records both calls. */
  ghost predicate SameRows(t: Tables, u: Tables) {
    u == t.(stamps := u.stamps, clock := u.clock)
  }

  /** A stamp touches only the change feed. */
  lemma StampIsFeedOnly(t: Tables, changed: seq<(int, Part)>)
    ensures SameRows(t, Stamp(t, changed)) && Stamp(t, changed).clock == t.clock + |changed|
  {
  }

  lemma PutBack<K, V>(m: map<K, V>, k: K, v: V)
    requires k in m
    ensures m[k := v][k := m[k]] == m
  {
  }

  /** A plan that went to Trash and was restored by its owner is as it was, and so is everything else. */
  lemma RestoreUndoesTrash(t: Tables, p: int, at: Time, later: Time)
    requires p in t.plans && t.plans[p].deletedAt.None?
    ensures var gone := PlanEdited(t, p, TrashPlan, at);
            && !Live(gone, p)
            && SameRows(t, PlanEdited(gone, p, RestorePlan(t.plans[p].owner), later))
            && PlanEdited(gone, p, RestorePlan(t.plans[p].owner), later).clock == t.clock + 2
  {
    hide Upserts;
    PutBack(t.plans, p, t.plans[p].(deletedAt := Some(at)));
  }

  /** A checkpoint in Trash keeps its name, and its restore leaves nothing changed. */
  lemma RestoreUndoesDeleteCheckpoint(t: Tables, v: (int, int), at: Time, later: Time)
    requires v in t.versions && t.versions[v].checkpoint != "" && t.versions[v].checkpointDeletedAt.None?
    ensures var gone := VersionEdited(t, v, DeleteCheckpoint, at);
            && v in gone.versions && gone.versions[v].checkpoint == t.versions[v].checkpoint
            && gone.versions[v].checkpointDeletedAt == Some(at)
            && SameRows(t, VersionEdited(gone, v, RestoreCheckpoint, later))
  {
    var row := t.versions[v];
    var trashed := EditedVersion(row, DeleteCheckpoint, at).value;
    assert EditedVersion(trashed, RestoreCheckpoint, later) == Some(row);
    hide EditedVersion, Stamp;
    PutBack(t.versions, v, trashed);
    StampIsFeedOnly(t.(versions := t.versions[v := trashed]), [(v.0, Versions)]);
    var gone := VersionEdited(t, v, DeleteCheckpoint, at);
    StampIsFeedOnly(gone.(versions := gone.versions[v := row]), [(v.0, Versions)]);
  }

  /** A result in Trash is not counted against the cap, and its restore leaves nothing changed. */
  lemma RestoreUndoesTrashResult(t: Tables, p: int, r: int, at: Time, later: Time)
    requires r in t.results && t.results[r].plan == p && t.results[r].deletedAt.None?
    ensures var gone := ResultEdited(t, p, r, TrashResult, at);
            && r !in Counted(gone, p)
            && SameRows(t, ResultEdited(gone, p, r, RestoreResult, later))
  {
  }

  /** A move to Trash, of a plan, a checkpoint or a result that is not there yet. */
  predicate Trashes(t: Tables, op: Op) {
    match op
    case EditPlan(p, TrashPlan) => Live(t, p)
    case EditVersion(v, DeleteCheckpoint) =>
      v in t.versions && t.versions[v].checkpoint != "" && t.versions[v].checkpointDeletedAt.None?
    case EditResult(p, r, TrashResult) => r in t.results && t.results[r].plan == p && t.results[r].deletedAt.None?
    case _ => false
  }

  /** The restore beside it, asked for by the plan's owner. */
  function RestoreOf(t: Tables, op: Op): Op
    requires Trashes(t, op)
  {
    match op
    case EditPlan(p, _) => EditPlan(p, RestorePlan(t.plans[p].owner))
    case EditVersion(v, _) => EditVersion(v, RestoreCheckpoint)
    case EditResult(p, r, _) => EditResult(p, r, RestoreResult)
  }

  /** Whatever is moved to Trash, its restore brings back every row there was. */
  lemma TrashIsUndone(t: Tables, op: Op, at: Time, later: Time)
    requires Trashes(t, op)
    ensures SameRows(t, Apply(Apply(t, op, at), RestoreOf(t, op), later))
    ensures var u := Apply(Apply(t, op, at), RestoreOf(t, op), later);
            && u.plans == t.plans && u.versions == t.versions && u.results == t.results && u.exports == t.exports
            && u.jobs == t.jobs && u.garbage == t.garbage
  {
    hide PlanEdited, VersionEdited, ResultEdited;
    match op
    case EditPlan(p, _) => RestoreUndoesTrash(t, p, at, later);
    case EditVersion(v, _) => RestoreUndoesDeleteCheckpoint(t, v, at, later);
    case EditResult(p, r, _) => RestoreUndoesTrashResult(t, p, r, at, later);
  }

  /** The tables but for the change feed and when a plan was last touched. */
  ghost predicate SameButTouched(t: Tables, u: Tables) {
    && u == t.(plans := u.plans, stamps := u.stamps, clock := u.clock) && u.plans.Keys == t.plans.Keys
    && forall p :: p in t.plans ==> u.plans[p] == t.plans[p].(updatedAt := u.plans[p].updatedAt)
  }

  lemma PlanRowRepeats(row: Plan, edit: PlanEdit, at: Time, later: Time)
    ensures var once := EditedPlan(row, edit, at);
            if once.None? then EditedPlan(row, edit, later).None?
            else EditedPlan(once.value, edit, later) in {None, once, Some(once.value.(updatedAt := later))}
  {
  }

  lemma PlanEditRepeats(t: Tables, p: int, edit: PlanEdit, at: Time, later: Time)
    ensures var once := PlanEdited(t, p, edit, at); SameButTouched(once, PlanEdited(once, p, edit, later))
  {
    hide Upserts, EditedPlan;
    if p in t.plans {
      PlanRowRepeats(t.plans[p], edit, at, later);
    }
  }

  lemma VersionRowRepeats(row: Version, edit: VersionEdit, at: Time, later: Time)
    ensures var once := EditedVersion(row, edit, at);
            if once.None? then EditedVersion(row, edit, later).None?
            else EditedVersion(once.value, edit, later) in {None, once}
  {
  }

  lemma VersionEditRepeats(t: Tables, v: (int, int), edit: VersionEdit, at: Time, later: Time)
    ensures var once := VersionEdited(t, v, edit, at); SameButTouched(once, VersionEdited(once, v, edit, later))
  {
    hide Upserts, EditedVersion;
    if v in t.versions {
      var row := EditedVersion(t.versions[v], edit, at);
      VersionRowRepeats(t.versions[v], edit, at, later);
      if row.Some? {
        assert t.versions[v := row.value][v := row.value] == t.versions[v := row.value];
      }
    }
  }

  lemma ResultRowRepeats(row: Result, edit: ResultEdit, at: Time, later: Time)
    ensures var once := EditedResult(row, edit, at);
            if once.None? then EditedResult(row, edit, later).None?
            else EditedResult(once.value, edit, later) in {None, once}
  {
  }

  lemma ResultEditRepeats(t: Tables, p: int, r: int, edit: ResultEdit, at: Time, later: Time)
    ensures var once := ResultEdited(t, p, r, edit, at); SameButTouched(once, ResultEdited(once, p, r, edit, later))
  {
    hide Upserts, EditedResult;
    if r in t.results {
      var row := EditedResult(t.results[r], edit, at);
      ResultRowRepeats(t.results[r], edit, at, later);
      if row.Some? {
        assert t.results[r := row.value][r := row.value] == t.results[r := row.value];
      }
    }
  }

  /** Asking for any change of one row twice leaves what asking once did. */
  lemma EditsRepeat(t: Tables, op: Op, at: Time, later: Time)
    requires op.EditPlan? || op.EditVersion? || op.EditResult?
    ensures var once := Apply(t, op, at); SameButTouched(once, Apply(once, op, later))
  {
    hide SameButTouched, PlanEdited, VersionEdited, ResultEdited;
    match op
    case EditPlan(p, edit) => PlanEditRepeats(t, p, edit, at, later);
    case EditVersion(v, edit) => VersionEditRepeats(t, v, edit, at, later);
    case EditResult(p, r, edit) => ResultEditRepeats(t, p, r, edit, at, later);
  }

  /** An update is read back as it was asked for: what it names is new, and what it does not is as it was. */
  lemma UpdateIsReadBack(t: Tables, p: int, edit: PlanEdit, at: Time)
    requires Live(t, p) && edit.Update? && PlanEdited(t, p, edit, at) != t
    ensures var (was, row) := (t.plans[p], PlanEdited(t, p, edit, at).plans[p]);
            && Live(PlanEdited(t, p, edit, at), p) && row.updatedAt == at
            && row.owner == was.owner && row.createdAt == was.createdAt && row.origin == was.origin
            && (if edit.name.Some? then row.name == edit.name.value else row.name == was.name)
            && (if edit.schoolYear.Some? then row.schoolYear == edit.schoolYear.value
                else row.schoolYear == was.schoolYear)
            && (if edit.backupsKeep.Some? then row.backupsKeep == edit.backupsKeep.value
                else row.backupsKeep == was.backupsKeep)
            && (if edit.resultsKeep.Some? then row.resultsKeep == edit.resultsKeep.value
                else row.resultsKeep == was.resultsKeep)
    ensures forall q :: q in t.plans && q != p ==> PlanEdited(t, p, edit, at).plans[q] == t.plans[q]
  {
  }

  /** Every owner's rights move with a transfer: the old owner can restore the plan no more, the new one can. */
  lemma TransferMovesOwner(t: Tables, p: int, owner: string, at: Time, later: Time)
    requires Live(t, p) && owner != t.plans[p].owner
    ensures var moved := PlanEdited(PlanEdited(t, p, Transfer(owner), at), p, TrashPlan, later);
            && PlanEdited(moved, p, RestorePlan(t.plans[p].owner), later) == moved
            && Live(PlanEdited(moved, p, RestorePlan(owner), later), p)
  {
    hide Upserts;
    var there := PlanEdited(t, p, Transfer(owner), at);
    assert there.plans[p] == t.plans[p].(owner := owner, updatedAt := at);
    assert PlanEdited(there, p, TrashPlan, later).plans[p] == there.plans[p].(deletedAt := Some(later));
  }
}
