/**
 * The index and the object store as one system. An upload is several steps: revive the key, write the
 * object, then commit the row or discard the key. A sweep of a key is several steps as well, and holds the
 * key's garbage row from its delete to its commit. All of them interleave, and time passes between any two.
 */
module ObjectStore {
  import opened PlanTables
  import opened PlanOps
  import opened Garbage
  import opened PlanLinks

  /** An hour, in the microseconds the index stores. */
  const SWEEP_AGE: int := 3_600_000_000

  datatype Upload = Upload(key: Key, revivedAt: Time, written: bool)

  /** Where a sweep of one key stands: row deleted, found unnamed, found named, or object deleted. */
  datatype Phase = Taken | Doomed | Kept | Deleted

  datatype System = System(t: Tables, objects: set<Key>, now: Time, uploads: map<int, Upload>,
                           sweeps: map<Key, Phase>, born: set<int>)

  datatype Label =
    | Tick(to: Time)
    | Revive(u: int, k: Key)
    | Write(u: int)
    | Commit(u: int, op: Op)
    | Replay(u: int)
    | Discard(u: int)
    | Abandon(u: int)
    | Transact(op: Op)
    | Take(k: Key, at: Time)
    | Count(k: Key)
    | Delete(k: Key)
    | Finish(k: Key)
    | Rollback(k: Key)

  ghost predicate Init(s: System) {
    s.t == Empty && s.objects == {} && s.uploads == map[] && s.sweeps == map[] && s.born == {}
  }

  predicate InTime(s: System, u: Upload) {
    s.now < u.revivedAt + SWEEP_AGE
  }

  /** A transaction waits for every garbage row a sweep holds: it neither dates one nor lists such a key. */
  ghost predicate Unlocked(t: Tables, t': Tables, sweeps: map<Key, Phase>) {
    forall k :: k in sweeps ==>
      (k in t.garbage && k in t'.garbage && t'.garbage[k] == t.garbage[k]) && (k in Named(t) ==> k in Named(t'))
  }

  function BornBy(op: Op): set<int> {
    match op
    case Create(id, _, _) => {id}
    case Fork(id, _, _, _, _) => {id}
    case _ => {}
  }

  ghost function Applied(s: System, op: Op): System {
    s.(t := Apply(s.t, op, s.now), born := s.born + BornBy(op))
  }

  ghost predicate Step(s: System, l: Label, s': System) {
    match l
    case Tick(to) => s.now <= to && s' == s.(now := to)
    case Revive(u, k) =>
      u !in s.uploads && k !in s.sweeps
      && s' == s.(t := s.t.(garbage := Revived(s.t.garbage, k, s.now)),
                  uploads := s.uploads[u := Upload(k, s.now, false)])
    case Write(u) =>
      u in s.uploads
      && s' == s.(objects := s.objects + {s.uploads[u].key}, uploads := s.uploads[u := s.uploads[u].(written := true)])
    case Commit(u, op) =>
      u in s.uploads && s.uploads[u].written && InTime(s, s.uploads[u]) && NewKeys(op) == {s.uploads[u].key}
      && Enabled(s.t, op, s.born) && Unlocked(s.t, Apply(s.t, op, s.now), s.sweeps)
      && s.uploads[u].key in Named(Apply(s.t, op, s.now))
      && s' == Applied(s, op).(uploads := s.uploads - {u})
    case Replay(u) =>
      u in s.uploads && s.uploads[u].key in Named(s.t) && s' == s.(uploads := s.uploads - {u})
    case Discard(u) =>
      u in s.uploads && s.uploads[u].key !in s.sweeps
      && s' == s.(t := s.t.(garbage := s.t.garbage[s.uploads[u].key := s.now]), uploads := s.uploads - {u})
    case Abandon(u) =>
      u in s.uploads && !s.uploads[u].written && s' == s.(uploads := s.uploads - {u})
    case Transact(op) =>
      NewKeys(op) == {} && Enabled(s.t, op, s.born) && Unlocked(s.t, Apply(s.t, op, s.now), s.sweeps)
      && s' == Applied(s, op)
    case Take(k, at) =>
      at <= s.now && k in s.t.garbage && k !in s.sweeps && s.t.garbage[k] <= at - SWEEP_AGE
      && s' == s.(sweeps := s.sweeps[k := Taken])
    case Count(k) =>
      k in s.sweeps && s.sweeps[k] == Taken
      && s' == s.(sweeps := s.sweeps[k := if k in Named(s.t) then Kept else Doomed])
    case Delete(k) =>
      k in s.sweeps && s.sweeps[k] == Doomed
      && s' == s.(objects := s.objects - {k}, sweeps := s.sweeps[k := Deleted])
    case Finish(k) =>
      k in s.sweeps && s.sweeps[k] in {Kept, Deleted}
      && s' == s.(t := s.t.(garbage := s.t.garbage - {k}), sweeps := s.sweeps - {k})
    case Rollback(k) =>
      k in s.sweeps && s' == s.(sweeps := s.sweeps - {k})
  }

  /** Every key a row names is in the object store. */
  ghost predicate Safe(s: System) {
    Named(s.t) <= s.objects
  }

  /** Every stored object is named, waiting for the sweep, or an upload's still under way. */
  ghost predicate NothingLost(s: System) {
    forall k :: k in s.objects ==>
      k in Named(s.t) || k in s.t.garbage || Owned(s, k)
  }

  /** An upload that wrote this key still has its commit or its discard before it. */
  ghost predicate Owned(s: System, k: Key) {
    exists u :: u in s.uploads && s.uploads[u].written && s.uploads[u].key == k
  }

  /** An upload in time is ahead of every sweep of its key. */
  ghost predicate Held(s: System, u: Upload) {
    && u.key !in s.sweeps
    && (u.key in s.t.garbage ==> s.t.garbage[u.key] >= u.revivedAt)
    && (u.written ==> u.key in s.objects)
  }

  ghost predicate Swept(s: System, k: Key) {
    && k in s.t.garbage && s.t.garbage[k] + SWEEP_AGE <= s.now
    && (k in s.sweeps ==>
          && (s.sweeps[k] == Kept ==> k in Named(s.t))
          && (s.sweeps[k] in {Doomed, Deleted} ==> k !in Named(s.t))
          && (s.sweeps[k] == Deleted && k in s.objects ==> Owned(s, k)))
  }

  ghost predicate Inv(s: System) {
    && Linked(s.t) && s.t.plans.Keys <= s.born
    && Safe(s) && NothingLost(s)
    && (forall u :: u in s.uploads ==> s.uploads[u].revivedAt <= s.now
                                       && (InTime(s, s.uploads[u]) ==> Held(s, s.uploads[u])))
    && (forall k :: k in s.sweeps ==> Swept(s, k))
  }

  /** What a step by the index needs of the transaction it ran. */
  lemma AppliedKeeps(s: System, op: Op, s': System)
    requires Inv(s) && Enabled(s.t, op, s.born)
    requires Unlocked(s.t, Apply(s.t, op, s.now), s.sweeps)
    requires forall k :: k in NewKeys(op) ==> k in s.objects && k !in s.sweeps
    requires s' == Applied(s, op).(uploads := s'.uploads) && s'.uploads.Keys <= s.uploads.Keys
    requires forall u :: u in s'.uploads ==> s'.uploads[u] == s.uploads[u]
    requires forall u :: u in s.uploads && u !in s'.uploads ==> s.uploads[u].key in Named(s'.t)
    ensures Inv(s')
  {
    var t' := Apply(s.t, op, s.now);
    EveryOpLinks(s.t, op, s.born, s.now);
    EveryOpAccounts(s.t, op, s.born, s.now);
    BirthsAreRecorded(s.t, op, s.now);
    KeysAccounted(s, t', NewKeys(op), s');
  }

  lemma BirthsAreRecorded(t: Tables, op: Op, at: Time)
    ensures Apply(t, op, at).plans.Keys <= t.plans.Keys + BornBy(op)
  {
  }

  lemma KeysAccounted(s: System, t': Tables, new_: set<Key>, s': System)
    requires Inv(s) && Linked(t') && Accounts(s.t, t', new_, s.now) && Unlocked(s.t, t', s.sweeps)
    requires forall k :: k in new_ ==> k in s.objects && k !in s.sweeps
    requires s'.t == t' && s'.objects == s.objects && s'.now == s.now && s'.sweeps == s.sweeps
    requires t'.plans.Keys <= s'.born
    requires s'.uploads.Keys <= s.uploads.Keys
    requires forall u :: u in s'.uploads ==> s'.uploads[u] == s.uploads[u]
    requires forall u :: u in s.uploads && u !in s'.uploads ==> s.uploads[u].key in Named(t')
    ensures Inv(s')
  {
    hide Linked, Named, Apply, Enabled, NewKeys;
    forall k | Owned(s, k) && k !in Named(t') && k !in s.t.garbage ensures Owned(s', k) {
      OwnerStays(s, s', k);
    }
    forall k | k in s'.sweeps ensures Swept(s', k) {
      assert Swept(s, k);
      if Owned(s, k) && k !in Named(t') { OwnerStays(s, s', k); }
    }
  }

  lemma OwnerStays(s: System, s': System, k: Key)
    requires Owned(s, k)
    requires forall u :: u in s.uploads && s.uploads[u].written && s.uploads[u].key == k ==>
               u in s'.uploads && s'.uploads[u] == s.uploads[u]
    ensures Owned(s', k)
  {
    var u :| u in s.uploads && s.uploads[u].written && s.uploads[u].key == k;
    assert u in s'.uploads;
  }

  /** A sweep takes a key, finds who names it, or gives it up. */
  lemma SweepLockKeeps(s: System, l: Label, s': System)
    requires Inv(s) && Step(s, l, s') && (l.Take? || l.Count? || l.Rollback?)
    ensures Inv(s')
  {
    hide Linked, Named, Apply, Enabled, NewKeys;
    assert forall k :: Owned(s, k) <==> Owned(s', k);
    forall k | k in s'.sweeps ensures Swept(s', k) {
      assert k in s.sweeps ==> Swept(s, k);
    }
  }

  lemma DeleteKeeps(s: System, l: Label, s': System)
    requires Inv(s) && Step(s, l, s') && l.Delete?
    ensures Inv(s')
  {
    hide Linked, Named, Apply, Enabled, NewKeys;
    assert Swept(s, l.k);
    assert forall k :: Owned(s, k) <==> Owned(s', k);
    forall k | k in s'.sweeps ensures Swept(s', k) {
      assert Swept(s, k);
    }
  }

  lemma FinishKeeps(s: System, l: Label, s': System)
    requires Inv(s) && Step(s, l, s') && l.Finish?
    ensures Inv(s')
  {
    hide Linked, Named, Apply, Enabled, NewKeys;
    RowsOnly(s.t, s'.t);
    assert s.t.garbage - {l.k} == s'.t.garbage && s'.objects == s.objects && s'.uploads == s.uploads;
    assert Swept(s, l.k);
    assert forall k :: Owned(s, k) <==> Owned(s', k);
    forall k | k in s'.sweeps ensures Swept(s', k) {
      assert Swept(s, k);
    }
  }

  lemma TickKeeps(s: System, l: Label, s': System)
    requires Inv(s) && Step(s, l, s') && l.Tick?
    ensures Inv(s')
  {
    hide Linked, Named, Apply, Enabled, NewKeys;
    assert forall k :: Owned(s, k) <==> Owned(s', k);
    forall k | k in s'.sweeps ensures Swept(s', k) {
      assert Swept(s, k);
    }
  }

  /** A key is dated: before an upload writes it, or because its upload was refused. */
  lemma DatingKeeps(s: System, l: Label, s': System)
    requires Inv(s) && Step(s, l, s') && (l.Revive? || l.Discard?)
    ensures Inv(s')
  {
    hide Linked, Named, Apply, Enabled, NewKeys;
    RowsOnly(s.t, s'.t);
    forall k | Owned(s, k) && !(l.Discard? && k == s.uploads[l.u].key) ensures Owned(s', k) {
      var u :| u in s.uploads && s.uploads[u].written && s.uploads[u].key == k;
      assert u in s'.uploads;
    }
    forall k | k in s'.sweeps ensures Swept(s', k) {
      assert Swept(s, k);
    }
  }

  /** An upload writes its object, finds its key already stored, or ends before it wrote. */
  lemma WriteKeeps(s: System, l: Label, s': System)
    requires Inv(s) && Step(s, l, s') && (l.Write? || l.Replay? || l.Abandon?)
    ensures Inv(s')
  {
    hide Linked, Named, Apply, Enabled, NewKeys;
    forall k | Owned(s, k) && k !in Named(s'.t) ensures Owned(s', k) {
      var u :| u in s.uploads && s.uploads[u].written && s.uploads[u].key == k;
      assert u in s'.uploads;
    }
    if l.Write? {
      assert s'.uploads[l.u].written;
      assert Owned(s', s.uploads[l.u].key);
    }
    forall k | k in s'.sweeps ensures Swept(s', k) {
      assert Swept(s, k);
    }
  }

  /** Names and links depend on rows, never on the list of waiting keys. */
  lemma RowsOnly(t: Tables, t': Tables)
    requires t' == t.(garbage := t'.garbage)
    ensures Named(t') == Named(t) && (Linked(t) ==> Linked(t'))
  {
    if Linked(t) {
      SameRowsLinked(t, t');
    }
  }

  lemma StepKeeps(s: System, l: Label, s': System)
    requires Inv(s) && Step(s, l, s')
    ensures Inv(s')
  {
    if l.Commit? || l.Transact? {
      AppliedKeeps(s, l.op, s');
    } else {
      hide Inv;
      if l.Take? || l.Count? || l.Rollback? {
        SweepLockKeeps(s, l, s');
      } else if l.Delete? {
        DeleteKeeps(s, l, s');
      } else if l.Finish? {
        FinishKeeps(s, l, s');
      } else if l.Write? || l.Replay? || l.Abandon? {
        WriteKeeps(s, l, s');
      } else if l.Tick? {
        TickKeeps(s, l, s');
      } else {
        DatingKeeps(s, l, s');
      }
    }
  }

  ghost predicate Run(run: seq<System>) {
    && |run| > 0 && Init(run[0])
    && forall i :: 0 <= i < |run| - 1 ==> Moves(run[i], run[i + 1])
  }

  ghost predicate Moves(s: System, s': System) {
    exists l :: Step(s, l, s')
  }

  lemma {:induction false} RunKeeps(run: seq<System>, i: nat)
    requires Run(run) && i < |run|
    ensures Inv(run[i])
  {
    if i > 0 {
      RunKeeps(run, i - 1);
      assert Moves(run[i - 1], run[i]);
      var l :| Step(run[i - 1], l, run[i]);
      StepKeeps(run[i - 1], l, run[i]);
    }
  }

  /** Steps of the system, one after another. */
  ghost predicate Chain(path: seq<System>) {
    |path| > 0 && forall i :: 0 <= i < |path| - 1 ==> Moves(path[i], path[i + 1])
  }

  lemma {:induction false} ChainKeeps(path: seq<System>, i: nat)
    requires Chain(path) && Inv(path[0]) && i < |path|
    ensures Inv(path[i])
  {
    hide Inv, Step;
    if i > 0 {
      ChainKeeps(path, i - 1);
      assert Moves(path[i - 1], path[i]);
      var l :| Step(path[i - 1], l, path[i]);
      StepKeeps(path[i - 1], l, path[i]);
    }
  }

  lemma ChainsJoin(a: seq<System>, b: seq<System>)
    requires Chain(a) && Chain(b) && a[|a| - 1] == b[0]
    ensures Chain(a + b[1..]) && (a + b[1..])[0] == a[0]
    ensures (a + b[1..])[|a + b[1..]| - 1] == b[|b| - 1]
  {
    var path := a + b[1..];
    hide Moves;
    forall i | 0 <= i < |path| - 1 ensures Moves(path[i], path[i + 1]) {
      if i < |a| - 1 {
        assert path[i] == a[i] && path[i + 1] == a[i + 1];
      } else {
        assert path[i] == b[i - |a| + 1] && path[i + 1] == b[i - |a| + 2];
      }
    }
  }

  /** In every reachable state every version, result and exported file has its object. */
  lemma NothingDangles(run: seq<System>, i: nat)
    requires Run(run) && i < |run|
    ensures forall id :: id in run[i].t.versions ==> run[i].t.versions[id].key in run[i].objects
    ensures forall r :: r in run[i].t.results ==> run[i].t.results[r].key in run[i].objects
    ensures forall k :: k in run[i].t.exports ==> k in run[i].objects
  {
    RunKeeps(run, i);
  }

  /** In every reachable state no stored object is forgotten. */
  lemma NothingLeaks(run: seq<System>, i: nat)
    requires Run(run) && i < |run|
    ensures forall k :: k in run[i].objects ==>
              || (exists id :: id in run[i].t.versions && run[i].t.versions[id].key == k)
              || (exists r :: r in run[i].t.results && run[i].t.results[r].key == k) || k in run[i].t.exports
              || k in run[i].t.garbage
              || (exists u :: u in run[i].uploads && run[i].uploads[u].written && run[i].uploads[u].key == k)
  {
    RunKeeps(run, i);
  }

  function Late(written: bool): Upload { Upload("doc", 0, written) }

  /** Two uploads of one document; the second is refused and discarded at once, and the first waits an hour. */
  function LateStates(): seq<System> {
    var s0 := System(Empty, {}, 0, map[], map[], {});
    var s1 := s0.(uploads := map[1 := Late(false)]);
    var s2 := s1.(objects := {"doc"}, uploads := map[1 := Late(true)]);
    var s3 := s2.(uploads := map[1 := Late(true), 2 := Late(false)]);
    var s4 := s3.(t := Empty.(garbage := map["doc" := 0]), uploads := map[1 := Late(true)]);
    var s5 := s4.(now := SWEEP_AGE);
    var s6 := s5.(sweeps := map["doc" := Taken]);
    var s7 := s6.(sweeps := map["doc" := Doomed]);
    var s8 := s7.(objects := {}, sweeps := map["doc" := Deleted]);
    [s0, s1, s2, s3, s4, s5, s6, s7, s8]
  }

  function LateLabels(): seq<Label> {
    [Revive(1, "doc"), Write(1), Revive(2, "doc"), Discard(2), Tick(SWEEP_AGE),
     Take("doc", SWEEP_AGE), Count("doc"), Delete("doc")]
  }

  /** The run ends with a written upload that just ran out of time, and its object gone. */
  ghost predicate EndsTooLate(run: seq<System>, u: int) {
    && Run(run)
    && var s := run[|run| - 1];
       u in s.uploads && s.uploads[u].written && s.uploads[u].key !in s.objects
       && s.now == s.uploads[u].revivedAt + SWEEP_AGE
  }

  /** The hour is exact: at the very end of it a written object can already be gone. */
  lemma TheHourIsExact()
    ensures exists run, u :: EndsTooLate(run, u)
  {
    var run := LateStates();
    forall i | 0 <= i < |run| - 1 ensures Moves(run[i], run[i + 1]) {
      if i < 4 { LateUploads(i); } else { LateSweep(i); }
    }
    hide Step;
    assert EndsTooLate(run, 1);
  }

  lemma LateUploads(i: nat)
    requires i < 4
    ensures Moves(LateStates()[i], LateStates()[i + 1])
  {
    assert Step(LateStates()[i], LateLabels()[i], LateStates()[i + 1]);
  }

  lemma LateSweep(i: nat)
    requires 4 <= i < 8
    ensures Moves(LateStates()[i], LateStates()[i + 1])
  {
    assert Step(LateStates()[i], LateLabels()[i], LateStates()[i + 1]);
  }
}
