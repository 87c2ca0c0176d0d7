/** Every transaction stamps every part it changed, above the clock it started from. */
module Stamps {
  import opened Basics
  import opened PlanTables
  import opened PlanOps
  import opened Garbage

  /** One part of one plan, as a client reads it. */
  datatype Content = Content(plan: Option<Plan>, versions: map<(int, int), Version>, results: map<int, Result>)

  const Nothing := Content(None, map[], map[])

  function Read(t: Tables, x: (int, Part)): Content {
    match x.1
    case Project => Nothing.(plan := if x.0 in t.plans then Some(t.plans[x.0]) else None)
    case Versions => Nothing.(versions := map id | id in t.versions && id.0 == x.0 :: t.versions[id])
    case Results => Nothing.(results := map r | r in t.results && t.results[r].plan == x.0 :: t.results[r])
  }

  /** The part, or the removal of its plan, is stamped above `c`. */
  predicate StampedAfter(t: Tables, x: (int, Part), c: int) {
    || (x in t.stamps && t.stamps[x] > c)
    || (x.0 !in t.plans && (x.0, Project) in t.stamps && t.stamps[(x.0, Project)] > c)
  }

  /** What one transaction that read the clock at `from` does to the stamps. */
  ghost predicate Stamped(t: Tables, t': Tables, from: int) {
    && t'.clock >= from
    && (forall x :: x in t'.stamps ==>
          (x in t.stamps && t'.stamps[x] == t.stamps[x]) || from < t'.stamps[x] <= t'.clock)
    && (forall x :: x in t.stamps && x !in t'.stamps ==> StampedAfter(t', x, from))
    && (forall x :: Read(t, x) != Read(t', x) ==> StampedAfter(t', x, from))
    && (forall p :: p in t.plans && p !in t'.plans ==> StampedAfter(t', (p, Project), from))
    && (forall x :: x in t'.stamps && x !in t.stamps ==> x.0 in t.plans || x.0 in t'.plans)
  }

  lemma {:induction false} UpsertsAt(stamps: map<(int, Part), int>, changed: seq<(int, Part)>, first: int)
    requires Distinct(changed)
    ensures var u := Upserts(stamps, changed, first);
            && (forall i :: 0 <= i < |changed| ==> changed[i] in u && u[changed[i]] == first + i)
            && (forall x :: x !in changed ==> (x in u <==> x in stamps) && (x in u ==> u[x] == stamps[x]))
    decreases |changed|
  {
    if changed != [] {
      UpsertsAt(stamps[changed[0] := first], changed[1..], first + 1);
      var u := Upserts(stamps, changed, first);
      assert changed[0] !in changed[1..];
      forall i | 0 <= i < |changed| ensures changed[i] in u && u[changed[i]] == first + i {
        if i > 0 { assert changed[i] == changed[1..][i - 1]; }
      }
      forall x | x !in changed ensures (x in u <==> x in stamps) && (x in u ==> u[x] == stamps[x]) {
        assert x !in changed[1..];
      }
    }
  }

  /** Each of these plans is left its project row alone, at the next value; other plans' rows stay. */
  ghost predicate Buries(stamps: map<(int, Part), int>, u: map<(int, Part), int>, ids: seq<int>, first: int) {
    && (forall i :: 0 <= i < |ids| ==> (ids[i], Project) in u && u[(ids[i], Project)] == first + i)
    && (forall x :: x in u && x.0 in ids ==> x.1 == Project)
    && (forall x: (int, Part) :: x.0 !in ids ==> (x in u <==> x in stamps) && (x in u ==> u[x] == stamps[x]))
  }

  lemma {:induction false} BurialsAt(stamps: map<(int, Part), int>, ids: seq<int>, first: int)
    requires Distinct(ids)
    ensures Buries(stamps, Burials(stamps, ids, first), ids, first)
    decreases |ids|
  {
    if ids != [] {
      var next := Buried(stamps, ids[0])[(ids[0], Project) := first];
      BurialsAt(next, ids[1..], first + 1);
      var u := Burials(stamps, ids, first);
      assert ids[0] !in ids[1..];
      forall i | 0 <= i < |ids| ensures (ids[i], Project) in u && u[(ids[i], Project)] == first + i {
        if i > 0 { assert ids[i] == ids[1..][i - 1]; }
      }
      forall x | x in u && x.0 in ids ensures x.1 == Project {
        assert x.0 == ids[0] || x.0 in ids[1..];
        if x.0 == ids[0] { assert x in next; }
      }
      forall x: (int, Part) | x.0 !in ids ensures (x in u <==> x in stamps) && (x in u ==> u[x] == stamps[x]) {
        assert x.0 !in ids[1..];
      }
    }
  }

  /** A stamping transaction: rows changed only in the parts it names, all of them plans that stay. */
  lemma StampStamps(t: Tables, u: Tables, changed: seq<(int, Part)>)
    requires Clocked(t) && Distinct(changed) && u.stamps == t.stamps && u.clock == t.clock
    requires t.plans.Keys <= u.plans.Keys
    requires forall i :: 0 <= i < |changed| ==> changed[i].0 in u.plans
    requires forall x :: x !in changed ==> Read(u, x) == Read(t, x)
    ensures Stamped(t, Stamp(u, changed), t.clock) && Clocked(Stamp(u, changed))
  {
    var v := Stamp(u, changed);
    UpsertsAt(t.stamps, changed, t.clock + 1);
    forall x ensures Read(v, x) == Read(u, x) {}
    forall x | x in changed ensures StampedAfter(v, x, t.clock) && t.clock < v.stamps[x] <= v.clock {
      var i :| 0 <= i < |changed| && changed[i] == x;
    }
    ClockedAfter(t, v, changed);
  }

  lemma ClockedAfter(t: Tables, v: Tables, changed: seq<(int, Part)>)
    requires Clocked(t) && Distinct(changed) && t.plans.Keys <= v.plans.Keys
    requires forall i :: 0 <= i < |changed| ==> changed[i].0 in v.plans
    requires v.stamps == Upserts(t.stamps, changed, t.clock + 1) && v.clock == t.clock + |changed|
    ensures Clocked(v)
  {
    UpsertsAt(t.stamps, changed, t.clock + 1);
    forall x | x in v.stamps ensures 1 <= v.stamps[x] <= v.clock && (x in changed ==> v.stamps[x] > t.clock)
                                     && (x !in changed ==> v.stamps[x] <= t.clock) {
      if x in changed { var i :| 0 <= i < |changed| && changed[i] == x; }
    }
    forall x, y | x in v.stamps && y in v.stamps && v.stamps[x] == v.stamps[y] ensures x == y {
      if x in changed {
        var i :| 0 <= i < |changed| && changed[i] == x;
        var j :| 0 <= j < |changed| && changed[j] == y;
      }
    }
    if changed != [] {
      assert v.stamps[changed[|changed| - 1]] == v.clock;
    } else if t.clock > 0 {
      var x :| x in t.stamps && t.stamps[x] == t.clock;
      assert x in v.stamps;
    }
  }

  /** Removing plans changes nothing a client reads of the others. */
  lemma OtherPlansReadTheSame(t: Tables, ps: set<int>, at: Time, x: (int, Part))
    requires Linked(t) && x.0 !in ps
    ensures Read(RemovePlans(t, ps, at), x) == Read(t, x)
  {
    CascadeIsListed(t, ps);
    var v := RemovePlans(t, ps, at);
    match x.1
    case Project =>
    case Versions => assert Read(v, x).versions == Read(t, x).versions;
    case Results => assert Read(v, x).results == Read(t, x).results;
  }

  lemma EntombedIsStamped(t: Tables, v: Tables, ps: set<int>, order: seq<int>)
    requires Lists(order, ps) && ps <= t.plans.Keys && v.plans == t.plans - ps
    requires v.stamps == Burials(t.stamps, order, t.clock + 1) && v.clock == t.clock + |order|
    requires forall x: (int, Part) :: x.0 !in ps ==> Read(v, x) == Read(t, x)
    ensures Stamped(t, v, t.clock)
  {
    BurialsAt(t.stamps, order, t.clock + 1);
    hide Read, Burials;
    forall p | p in ps ensures (p, Project) in v.stamps && t.clock < v.stamps[(p, Project)] <= v.clock {
      var i :| 0 <= i < |order| && order[i] == p;
    }
  }

  lemma EntombStamps(t: Tables, ps: set<int>, order: seq<int>, at: Time)
    requires Clocked(t) && Linked(t) && Lists(order, ps) && ps <= t.plans.Keys
    ensures var v := Entomb(RemovePlans(t, ps, at), order); Stamped(t, v, t.clock) && Clocked(v)
  {
    var u := RemovePlans(t, ps, at);
    var v := Entomb(u, order);
    forall x: (int, Part) | x.0 !in ps ensures Read(v, x) == Read(t, x) {
      OtherPlansReadTheSame(t, ps, at, x);
    }
    hide Read, Stamped, Clocked, Linked, Burials;
    EntombedClock(t, v, ps, order);
    EntombedIsStamped(t, v, ps, order);
  }

  lemma EntombedClock(t: Tables, v: Tables, ps: set<int>, order: seq<int>)
    requires Clocked(t) && Lists(order, ps) && ps <= t.plans.Keys && v.plans == t.plans - ps
    requires v.stamps == Burials(t.stamps, order, t.clock + 1) && v.clock == t.clock + |order|
    ensures Clocked(v)
  {
    BurialsAt(t.stamps, order, t.clock + 1);
    hide Burials, Buries;
    BuriedBounds(t, v, order);
    BuriedApart(t, v, order);
    LastIsClock(t, v, order);
  }

  lemma BuriedBounds(t: Tables, v: Tables, order: seq<int>)
    requires Clocked(t) && Buries(t.stamps, v.stamps, order, t.clock + 1) && v.clock == t.clock + |order|
    ensures forall x :: x in v.stamps ==> 1 <= v.stamps[x] <= v.clock
                                          && (x.0 in order || x.0 !in t.plans ==> x.1 == Project)
  {
    hide Buries;
    forall x | x in v.stamps
      ensures 1 <= v.stamps[x] <= v.clock && (x.0 in order || x.0 !in t.plans ==> x.1 == Project)
    {
      var i := BurialPlace(t, v, order, x);
    }
  }

  lemma BuriedApart(t: Tables, v: Tables, order: seq<int>)
    requires Clocked(t) && Buries(t.stamps, v.stamps, order, t.clock + 1)
    ensures forall x, y :: x in v.stamps && y in v.stamps && v.stamps[x] == v.stamps[y] ==> x == y
  {
    hide Buries;
    forall x, y | x in v.stamps && y in v.stamps && v.stamps[x] == v.stamps[y] ensures x == y {
      var i := BurialPlace(t, v, order, x);
      var j := BurialPlace(t, v, order, y);
    }
  }

  /** Where a stamp of the new index comes from. */
  lemma BurialPlace(t: Tables, v: Tables, order: seq<int>, x: (int, Part)) returns (i: int)
    requires Clocked(t) && Buries(t.stamps, v.stamps, order, t.clock + 1) && x in v.stamps
    ensures if x.0 in order then 0 <= i < |order| && x == (order[i], Project) && v.stamps[x] == t.clock + 1 + i
            else x in t.stamps && v.stamps[x] == t.stamps[x]
  {
    i := 0;
    if x.0 in order { i :| 0 <= i < |order| && order[i] == x.0; }
  }

  lemma LastIsClock(t: Tables, v: Tables, order: seq<int>)
    requires Clocked(t) && Buries(t.stamps, v.stamps, order, t.clock + 1) && v.clock == t.clock + |order|
    ensures v.clock > 0 ==> exists x :: x in v.stamps && v.stamps[x] == v.clock
  {
    if order != [] {
      assert v.stamps[(order[|order| - 1], Project)] == v.clock;
    } else if t.clock > 0 {
      var x :| x in t.stamps && t.stamps[x] == t.clock;
      assert x in v.stamps;
    }
  }

  /** Nothing a client reads moved, and no stamp did. */
  lemma QuietIsStamped(t: Tables, t': Tables)
    requires Clocked(t)
    requires t'.plans == t.plans && t'.versions == t.versions && t'.results == t.results
    requires t'.stamps == t.stamps && t'.clock == t.clock
    ensures Stamped(t, t', t.clock) && Clocked(t')
  {
    forall x ensures Read(t, x) == Read(t', x) {}
  }

  /** Rows of one plan's versions changed, and perhaps its own row: those two parts are stamped. */
  lemma VersionsStamped(t: Tables, u: Tables, p: int, changed: seq<(int, Part)>)
    requires Clocked(t) && p in u.plans && u.stamps == t.stamps && u.clock == t.clock && u.results == t.results
    requires changed == [(p, Project), (p, Versions)] || (changed == [(p, Versions)] && u.plans == t.plans)
    requires t.plans.Keys <= u.plans.Keys
    requires forall q :: q in u.plans && q != p ==> q in t.plans && u.plans[q] == t.plans[q]
    requires forall id :: id in t.versions && id.0 != p ==> id in u.versions && u.versions[id] == t.versions[id]
    requires forall id :: id in u.versions && id.0 != p ==> id in t.versions
    ensures Stamped(t, Stamp(u, changed), t.clock) && Clocked(Stamp(u, changed))
  {
    forall x | x !in changed ensures Read(u, x) == Read(t, x) {
      match x.1
      case Project => assert x.0 != p || (p, Project) !in changed;
      case Versions =>
        assert (p, Versions) in changed by { assert changed[|changed| - 1] == (p, Versions); }
        assert Read(u, x).versions == Read(t, x).versions;
      case Results =>
    }
    hide Read, Stamped, Clocked;
    StampStamps(t, u, changed);
  }

  lemma ResultsReadTheSame(t: Tables, u: Tables, p: int)
    requires forall r :: r in t.results && t.results[r].plan == p ==> r in u.results && u.results[r] == t.results[r]
    requires forall r :: r in u.results && u.results[r].plan == p ==> r in t.results && u.results[r] == t.results[r]
    ensures Read(u, (p, Results)) == Read(t, (p, Results))
  {
    var a, b := Read(u, (p, Results)).results, Read(t, (p, Results)).results;
    forall r ensures (r in a <==> r in b) && (r in a ==> a[r] == b[r]) {}
    assert a == b;
  }

  lemma ResultsStamped(t: Tables, u: Tables, ps: seq<int>)
    requires Clocked(t) && Distinct(ps) && u.stamps == t.stamps && u.clock == t.clock
    requires u.plans == t.plans && u.versions == t.versions && (forall i :: 0 <= i < |ps| ==> ps[i] in t.plans)
    requires forall r :: r in t.results && t.results[r].plan !in ps ==> r in u.results && u.results[r] == t.results[r]
    requires forall r :: r in u.results && u.results[r].plan !in ps ==> r in t.results && u.results[r] == t.results[r]
    ensures Stamped(t, Stamp(u, PartOf(ps, Results)), t.clock) && Clocked(Stamp(u, PartOf(ps, Results)))
  {
    var changed := PartOf(ps, Results);
    forall x | x !in changed ensures Read(u, x) == Read(t, x) {
      if x.1 == Results {
        PartOfHas(ps, Results, x.0);
        assert x == (x.0, Results);
        ResultsReadTheSame(t, u, x.0);
      }
    }
    hide Read, Stamped, Clocked;
    forall i, j | 0 <= i < j < |changed| ensures changed[i] != changed[j] {
      assert ps[i] != ps[j];
    }
    StampStamps(t, u, changed);
  }

  lemma PartOfHas(ps: seq<int>, part: Part, p: int)
    ensures p in ps <==> (p, part) in PartOf(ps, part)
  {
  }

  lemma TrimmedPlanIsStamped(t: Tables, p: int, default: nat, at: Time)
    requires Clocked(t)
    ensures Stamped(t, TrimmedPlan(t, p, default, at), t.clock) && Clocked(TrimmedPlan(t, p, default, at))
  {
    hide Stamped, Clocked;
    if TrimmedPlan(t, p, default, at) == t {
      QuietIsStamped(t, t);
    } else {
      var gone := Trimmed(t, p, MaxOf(Numbers(t, p)), KeepFor(t.plans[p].backupsKeep, default));
      VersionsStamped(t, RemoveVersions(t, gone, at), p, [(p, Versions)]);
    }
  }

  lemma PurgedCheckpointsIsStamped(t: Tables, p: int, cutoff: Time, default: nat, at: Time)
    requires Clocked(t)
    ensures Stamped(t, PurgedCheckpoints(t, p, cutoff, default, at), t.clock)
    ensures Clocked(PurgedCheckpoints(t, p, cutoff, default, at))
  {
    hide Stamped, Clocked;
    if EndedIn(t, p, cutoff) == {} || p !in t.plans || Numbers(t, p) == {} {
      QuietIsStamped(t, t);
    } else {
      var plain := Unnamed(t, p, cutoff);
      var gone := Trimmed(plain, p, MaxOf(Numbers(t, p)), KeepFor(t.plans[p].backupsKeep, default));
      VersionsStamped(t, RemoveVersions(plain, gone, at), p, [(p, Versions)]);
    }
  }

  lemma BornIsStamped(t: Tables, id: int, plan: Plan, first: Version)
    requires Clocked(t)
    ensures Stamped(t, Born(t, id, plan, first), t.clock) && Clocked(Born(t, id, plan, first))
  {
    hide Stamped, Clocked;
    var u := t.(plans := t.plans[id := plan], versions := t.versions[(id, 1) := first]);
    VersionsStamped(t, u, id, [(id, Project), (id, Versions)]);
  }

  lemma ForkedIsStamped(t: Tables, op: Op, at: Time)
    requires Clocked(t) && op.Fork?
    ensures Stamped(t, Forked(t, op, at), t.clock) && Clocked(Forked(t, op, at))
  {
    var from := (op.origin, ForkedNumber(t, op.origin, op.version));
    if Live(t, op.origin) && from in t.versions {
      var u := t.(garbage := Revived(t.garbage, t.versions[from].key, at));
      var plan := Plan(op.owner, op.name, t.plans[op.origin].schoolYear, at, at, None, 0, 0, Some(from));
      var first := Copied(t.versions[from], op.owner, at);
      hide Stamped, Clocked;
      VersionsStamped(t, u.(plans := u.plans[op.id := plan], versions := u.versions[(op.id, 1) := first]),
                      op.id, [(op.id, Project), (op.id, Versions)]);
    } else {
      QuietIsStamped(t, t);
    }
  }

  lemma VersionInsertedIsStamped(t: Tables, p: int, row: Version, keep: nat, at: Time)
    requires Clocked(t)
    ensures Stamped(t, VersionInserted(t, p, row, keep, at), t.clock) && Clocked(VersionInserted(t, p, row, keep, at))
  {
    hide Stamped, Clocked, Accepts;
    if p in t.plans && Accepts(t, p, row) {
      var added := t.(versions := t.versions[(p, row.parent + 1) := row]);
      var kept := RemoveVersions(added, Trimmed(added, p, row.parent + 1, keep), at);
      VersionsStamped(t, kept.(plans := t.plans[p := t.plans[p].(updatedAt := row.createdAt)]), p,
                      [(p, Project), (p, Versions)]);
    } else {
      QuietIsStamped(t, t);
    }
  }

  lemma WithResultIsStamped(t: Tables, r: int, row: Result, default: nat, at: Time)
    requires Clocked(t) && r !in t.results
    ensures Stamped(t, WithResult(t, r, row, default, at), t.clock) && Clocked(WithResult(t, r, row, default, at))
  {
    hide Stamped, Clocked, ResultKeyTaken;
    if row.plan !in t.plans || ResultKeyTaken(t, row.plan, row.uploadKey) {
      QuietIsStamped(t, t);
    } else {
      var added := t.(results := t.results[r := row]);
      var gone := TrimmedResults(added, row.plan, KeepFor(t.plans[row.plan].resultsKeep, default));
      if r in gone {
        QuietIsStamped(t, t);
      } else {
        assert PartOf([row.plan], Results) == [(row.plan, Results)];
        ResultsStamped(t, RemoveResults(added, gone, at), [row.plan]);
      }
    }
  }

  lemma PlanEditedIsStamped(t: Tables, p: int, edit: PlanEdit, at: Time)
    requires Clocked(t)
    ensures Stamped(t, PlanEdited(t, p, edit, at), t.clock) && Clocked(PlanEdited(t, p, edit, at))
  {
    hide Stamped, Clocked, EditedPlan;
    if p in t.plans && EditedPlan(t.plans[p], edit, at).Some? {
      var u := t.(plans := t.plans[p := EditedPlan(t.plans[p], edit, at).value]);
      forall x | x !in [(p, Project)] ensures Read(u, x) == Read(t, x) {
        assert x != (p, Project);
      }
      hide Read;
      StampStamps(t, u, [(p, Project)]);
    } else {
      QuietIsStamped(t, t);
    }
  }

  lemma VersionEditedIsStamped(t: Tables, v: (int, int), edit: VersionEdit, at: Time)
    requires Clocked(t) && Linked(t)
    ensures Stamped(t, VersionEdited(t, v, edit, at), t.clock) && Clocked(VersionEdited(t, v, edit, at))
  {
    hide Stamped, Clocked, EditedVersion;
    if v in t.versions && EditedVersion(t.versions[v], edit, at).Some? {
      VersionsStamped(t, t.(versions := t.versions[v := EditedVersion(t.versions[v], edit, at).value]),
                      v.0, [(v.0, Versions)]);
    } else {
      QuietIsStamped(t, t);
    }
  }

  lemma ResultEditedIsStamped(t: Tables, p: int, r: int, edit: ResultEdit, at: Time)
    requires Clocked(t) && Linked(t)
    ensures Stamped(t, ResultEdited(t, p, r, edit, at), t.clock) && Clocked(ResultEdited(t, p, r, edit, at))
  {
    hide Stamped, Clocked;
    if r in t.results && t.results[r].plan == p && EditedResult(t.results[r], edit, at).Some? {
      assert PartOf([p], Results) == [(p, Results)];
      ResultsStamped(t, t.(results := t.results[r := EditedResult(t.results[r], edit, at).value]), [p]);
    } else {
      QuietIsStamped(t, t);
    }
  }

  lemma PurgesAreStamped(t: Tables, op: Op, born: set<int>, at: Time)
    requires Clocked(t) && Linked(t) && Enabled(t, op, born) && (op.PurgeResults? || op.Purge?)
    ensures Stamped(t, Apply(t, op, at), t.clock) && Clocked(Apply(t, op, at))
  {
    hide Stamped, Clocked;
    match op
    case PurgeResults(cutoff, order) =>
      var gone := DueResults(t, cutoff);
      forall r | r in gone ensures t.results[r].plan in order {
        assert t.results[r].plan in Touched(t, gone);
      }
      forall i | 0 <= i < |order| ensures order[i] in t.plans {
        assert order[i] in order && order[i] in Touched(t, gone);
      }
      ResultsStamped(t, RemoveResults(t, gone, at), order);
    case Purge(cutoff, order) =>
      EntombStamps(t, DuePlans(t, cutoff), order, at);
  }

  lemma InsertsAreStamped(t: Tables, op: Op, born: set<int>, at: Time)
    requires Clocked(t) && Enabled(t, op, born)
    requires op.Create? || op.Fork? || op.InsertVersion? || op.InsertResult?
    ensures Stamped(t, Apply(t, op, at), t.clock) && Clocked(Apply(t, op, at))
  {
    hide Stamped, Clocked, Born, Forked, VersionInserted, WithResult;
    match op
    case Create(id, plan, first) => BornIsStamped(t, id, plan, first);
    case Fork(_, _, _, _, _) => ForkedIsStamped(t, op, at);
    case InsertVersion(p, row, keep) => VersionInsertedIsStamped(t, p, row, keep, at);
    case InsertResult(r, row, default) => WithResultIsStamped(t, r, row, default, at);
  }

  lemma EditsAreStamped(t: Tables, op: Op, at: Time)
    requires Clocked(t) && Linked(t) && (op.EditPlan? || op.EditVersion? || op.EditResult?)
    ensures Stamped(t, Apply(t, op, at), t.clock) && Clocked(Apply(t, op, at))
  {
    hide Stamped, Clocked, Linked, PlanEdited, VersionEdited, ResultEdited;
    match op
    case EditPlan(p, edit) => PlanEditedIsStamped(t, p, edit, at);
    case EditVersion(v, edit) => VersionEditedIsStamped(t, v, edit, at);
    case EditResult(p, r, edit) => ResultEditedIsStamped(t, p, r, edit, at);
  }

  lemma RestIsStamped(t: Tables, op: Op, at: Time)
    requires Clocked(t)
    requires op.TrimPlan? || op.PurgeCheckpointsOf? || op.KeepExport? || op.OpenJob? || op.CloseJob?
    ensures Stamped(t, Apply(t, op, at), t.clock) && Clocked(Apply(t, op, at))
  {
    hide Stamped, Clocked, TrimmedPlan, PurgedCheckpoints;
    match op
    case TrimPlan(p, default) => TrimmedPlanIsStamped(t, p, default, at);
    case PurgeCheckpointsOf(p, cutoff, default) => PurgedCheckpointsIsStamped(t, p, cutoff, default, at);
    case _ =>
      QuietOps(t, op, at);
      hide Apply;
      QuietIsStamped(t, Apply(t, op, at));
  }

  lemma QuietOps(t: Tables, op: Op, at: Time)
    requires op.KeepExport? || op.OpenJob? || op.CloseJob?
    ensures var u := Apply(t, op, at);
            u.plans == t.plans && u.versions == t.versions && u.results == t.results
            && u.stamps == t.stamps && u.clock == t.clock
  {
  }

  /** Every transaction stamps exactly what it must for no reader to miss it. */
  lemma EveryOpStamps(t: Tables, op: Op, born: set<int>, at: Time)
    requires Clocked(t) && Linked(t) && Enabled(t, op, born)
    ensures Stamped(t, Apply(t, op, at), t.clock) && Clocked(Apply(t, op, at))
  {
    hide Stamped, Clocked, Linked, Enabled, Apply;
    if op.Create? || op.Fork? || op.InsertVersion? || op.InsertResult? {
      InsertsAreStamped(t, op, born, at);
    } else if op.EditPlan? || op.EditVersion? || op.EditResult? {
      EditsAreStamped(t, op, at);
    } else if op.PurgeResults? || op.Purge? {
      PurgesAreStamped(t, op, born, at);
    } else {
      RestIsStamped(t, op, at);
    }
  }

  /** What a client reads of a part, row by row. */
  lemma ReadInWords(t: Tables, p: int)
    ensures Read(t, (p, Project)).plan == if p in t.plans then Some(t.plans[p]) else None
    ensures forall v :: v in Read(t, (p, Part.Versions)).versions <==> v in t.versions && v.0 == p
    ensures forall v :: v in t.versions && v.0 == p ==> Read(t, (p, Part.Versions)).versions[v] == t.versions[v]
    ensures forall r :: r in Read(t, (p, Part.Results)).results <==> r in t.results && t.results[r].plan == p
    ensures forall r :: r in t.results && t.results[r].plan == p ==>
              Read(t, (p, Part.Results)).results[r] == t.results[r]
  {
  }

  /**
   * Row by row: a transaction that adds, changes or removes a plan's row, or a version or result of it, records that
   * part at a value after the clock it read, or the end of the plan.
   */
  lemma ChangedRowsAreStamped(t: Tables, op: Op, born: set<int>, at: Time, p: int)
    requires Clocked(t) && Linked(t) && Enabled(t, op, born)
    ensures var u := Apply(t, op, at);
            ((p in t.plans && p !in u.plans) || (p in u.plans && (p !in t.plans || u.plans[p] != t.plans[p]))) ==>
              (p, Project) in u.stamps && t.clock < u.stamps[(p, Project)] <= u.clock
    ensures var u := Apply(t, op, at);
            forall v: (int, int) :: v.0 == p && ((v in t.versions && v !in u.versions)
                                     || (v in u.versions && (v !in t.versions || u.versions[v] != t.versions[v]))) ==>
              || ((p, Part.Versions) in u.stamps && t.clock < u.stamps[(p, Part.Versions)] <= u.clock)
              || (p !in u.plans && (p, Project) in u.stamps && t.clock < u.stamps[(p, Project)] <= u.clock)
    ensures var u := Apply(t, op, at);
            forall r :: (r in t.results && t.results[r].plan == p && (r !in u.results || u.results[r] != t.results[r]))
                        || (r in u.results && u.results[r].plan == p && r !in t.results) ==>
              || ((p, Part.Results) in u.stamps && t.clock < u.stamps[(p, Part.Results)] <= u.clock)
              || (p !in u.plans && (p, Project) in u.stamps && t.clock < u.stamps[(p, Project)] <= u.clock)
  {
    EveryOpStamps(t, op, born, at);
    hide Apply, Enabled, Linked, Clocked, Read, Stamped;
    var u := Apply(t, op, at);
    ReadInWords(t, p);
    ReadInWords(u, p);
    DifferentIsStamped(t, u, p, Project);
    DifferentIsStamped(t, u, p, Part.Versions);
    DifferentIsStamped(t, u, p, Part.Results);
  }

  lemma DifferentIsStamped(t: Tables, u: Tables, p: int, part: Part)
    requires Stamped(t, u, t.clock) && Clocked(t)
    ensures Read(t, (p, part)) != Read(u, (p, part)) ==>
              || ((p, part) in u.stamps && t.clock < u.stamps[(p, part)] <= u.clock)
              || (p !in u.plans && (p, Project) in u.stamps && t.clock < u.stamps[(p, Project)] <= u.clock)
  {
    hide Read;
    if Read(t, (p, part)) != Read(u, (p, part)) {
      assert StampedAfter(u, (p, part), t.clock);
    }
  }
}
