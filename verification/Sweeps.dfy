/**
 * Sweeps of the repository as steps of `ObjectStore`: each key it settles is taken, counted, and then finished, deleted
 * or given back, so what that system keeps holds of a sweep.
 */
module Sweeps {
  import opened Basics
  import opened PlanTables
  import opened ObjectStore
  import opened PlanRepository

  /** Steps lead from one state to the other. */
  ghost predicate Leads(s: System, s': System) {
    exists path :: Chain(path) && path[0] == s && path[|path| - 1] == s'
  }

  lemma LeadsOn(s: System, mid: System, s': System)
    requires Leads(s, mid) && Leads(mid, s')
    ensures Leads(s, s')
  {
    var a :| Chain(a) && a[0] == s && a[|a| - 1] == mid;
    var b :| Chain(b) && b[0] == mid && b[|b| - 1] == s';
    hide Chain, Moves;
    ChainsJoin(a, b);
    assert Chain(a + b[1..]);
  }

  lemma Stays(s: System)
    ensures Leads(s, s)
  {
    assert Chain([s]);
  }

  lemma StepLeads(s: System, mid: System, l: Label, s': System)
    requires Leads(s, mid) && Step(mid, l, s')
    ensures Leads(s, s')
  {
    hide Step;
    assert Moves(mid, s');
    assert Chain([mid, s']);
    LeadsOn(s, mid, s');
  }

  lemma LeadsKeeps(s: System, s': System)
    requires Inv(s) && Leads(s, s')
    ensures Inv(s')
  {
    hide Inv, Step, Moves;
    var path :| Chain(path) && path[0] == s && path[|path| - 1] == s';
    ChainKeeps(path, |path| - 1);
  }

  /** A state that has these objects and this list, and all else of `s`. */
  function WithList(s: System, garbage: map<Key, Time>, objects: set<Key>): System {
    s.(t := s.t.(garbage := garbage), objects := objects)
  }

  /** A due key taken and counted. */
  lemma KeyIsCounted(s: System, k: Key, at: Time)
    requires at <= s.now && k !in s.sweeps && k in s.t.garbage && s.t.garbage[k] + SWEEP_AGE <= at
    ensures Leads(s, s.(sweeps := s.sweeps[k := if k in Named(s.t) then Kept else Doomed]))
  {
    hide Named, Unlocked, Leads;
    var s1 := s.(sweeps := s.sweeps[k := Taken]);
    Stays(s);
    StepLeads(s, s, Take(k, at), s1);
    var s2 := s.(sweeps := s.sweeps[k := if k in Named(s.t) then Kept else Doomed]);
    assert s1.sweeps[k := if k in Named(s.t) then Kept else Doomed] == s2.sweeps;
    StepLeads(s, s1, Count(k), s2);
  }

  /** A named one is finished. */
  lemma NamedKeySteps(s: System, k: Key, at: Time)
    requires at <= s.now && k !in s.sweeps && k in s.t.garbage && s.t.garbage[k] + SWEEP_AGE <= at && k in Named(s.t)
    ensures Leads(s, WithList(s, s.t.garbage - {k}, s.objects))
  {
    hide Named, Unlocked, Leads;
    var s2 := s.(sweeps := s.sweeps[k := Kept]);
    KeyIsCounted(s, k, at);
    assert s2.sweeps - {k} == s.sweeps;
    StepLeads(s, s2, Finish(k), WithList(s, s.t.garbage - {k}, s.objects));
  }

  /** One that nothing names is deleted first. */
  lemma UnnamedKeySteps(s: System, k: Key, at: Time)
    requires at <= s.now && k !in s.sweeps && k in s.t.garbage && s.t.garbage[k] + SWEEP_AGE <= at && k !in Named(s.t)
    ensures Leads(s, WithList(s, s.t.garbage - {k}, s.objects - {k}))
  {
    hide Named, Unlocked, Leads;
    var s2 := s.(sweeps := s.sweeps[k := Doomed]);
    var s3 := s.(objects := s.objects - {k}, sweeps := s.sweeps[k := Deleted]);
    KeyIsCounted(s, k, at);
    assert s2.sweeps[k := Deleted] == s3.sweeps;
    StepLeads(s, s2, Delete(k), s3);
    assert s3.sweeps - {k} == s.sweeps;
    StepLeads(s, s3, Finish(k), WithList(s, s.t.garbage - {k}, s.objects - {k}));
  }

  /** One due key: a named one leaves the list, and any other goes with its object unless the store fails. */
  lemma KeySteps(s: System, k: Key, at: Time, fails: bool)
    requires at <= s.now && k !in s.sweeps && k in s.t.garbage && s.t.garbage[k] + SWEEP_AGE <= at
    ensures k in Named(s.t) ==> Leads(s, WithList(s, s.t.garbage - {k}, s.objects))
    ensures k !in Named(s.t) && !fails ==> Leads(s, WithList(s, s.t.garbage - {k}, s.objects - {k}))
  {
    hide Named, Leads, WithList;
    if k in Named(s.t) {
      NamedKeySteps(s, k, at);
    } else {
      UnnamedKeySteps(s, k, at);
    }
  }

  /** One key of a sweep, whatever its date: what `SweepOne` does is steps of the system. */
  method SweepKey(index: Repository, store: Store, key: Key, at: Time, failing: set<Key>, ghost s: System)
      returns (gone: bool, ghost s': System)
    requires s.t == index.View() && s.objects == store.objects && at <= s.now && key !in s.sweeps
    modifies index`garbage, store
    ensures s'.t == index.View() && s'.objects == store.objects && s'.now == s.now && s'.sweeps == s.sweeps
    ensures Leads(s, s') && (Inv(s) ==> Inv(s'))
  {
    hide Inv, Leads, Named;
    gone := index.SweepOne(key, at - SWEEP_AGE, store, failing);
    s' := WithList(s, index.garbage, store.objects);
    NamedByList(s.t, s'.t);
    if key in s.t.garbage && s.t.garbage[key] + SWEEP_AGE <= at {
      KeySteps(s, key, at, key in failing);
    }
    Stays(s);
    if Inv(s) { LeadsKeeps(s, s'); }
  }

  lemma NamedByList(t: Tables, u: Tables)
    requires u == t.(garbage := u.garbage)
    ensures Named(t) == Named(u)
  {
  }

  /** The list and the objects once these keys were settled. */
  ghost function Settled(s: System, keys: seq<Key>, failing: set<Key>): System {
    var named := set k | k in keys && k in Named(s.t);
    var gone := set k | k in keys && k !in Named(s.t) && k !in failing;
    WithList(s, s.t.garbage - named - gone, s.objects - gone)
  }

  lemma {:induction false} KeysSteps(s: System, keys: seq<Key>, at: Time, failing: set<Key>)
    requires at <= s.now && Distinct(keys)
    requires forall i :: 0 <= i < |keys| ==> keys[i] !in s.sweeps && keys[i] in s.t.garbage
                                              && s.t.garbage[keys[i]] + SWEEP_AGE <= at
    ensures Leads(s, Settled(s, keys, failing))
  {
    var t := Settled(s, keys, failing);
    if keys == [] {
      assert t == s by { assert s.t.garbage - {} - {} == s.t.garbage; }
      Stays(s);
    } else {
      var n := |keys| - 1;
      var k, mid := keys[n], Settled(s, keys[..n], failing);
      KeysSteps(s, keys[..n], at, failing);
      assert k !in keys[..n];
      NamedByList(s.t, mid.t);
      hide Leads, Named;
      KeySteps(mid, k, at, k in failing);
      Stays(mid);
      SettledNext(s, keys, failing);
      LeadsOn(s, mid, t);
    }
  }

  lemma SettledNext(s: System, keys: seq<Key>, failing: set<Key>)
    requires keys != []
    ensures var (mid, k) := (Settled(s, keys[..|keys| - 1], failing), keys[|keys| - 1]);
            Settled(s, keys, failing)
            == if k in Named(s.t) then WithList(mid, mid.t.garbage - {k}, mid.objects)
               else if k in failing then mid else WithList(mid, mid.t.garbage - {k}, mid.objects - {k})
  {
    hide Named;
  }

  lemma {:induction false} SomeList(keys: set<Key>) returns (order: seq<Key>)
    ensures Lists(order, keys)
    decreases |keys|
  {
    order := [];
    if keys != {} {
      var k :| k in keys;
      order := SomeList(keys - {k});
      order := order + [k];
    }
  }

  /** What `Sweep` leaves. */
  ghost function AfterSweep(s: System, at: Time, failing: set<Key>): System {
    var due := DueKeys(s.t.garbage, at - SWEEP_AGE);
    var unnamed := due - Named(s.t);
    WithList(s, s.t.garbage - (due - unnamed * failing), s.objects - (unnamed - failing))
  }

  lemma SweepSteps(s: System, at: Time, failing: set<Key>, s': System)
    requires at <= s.now
    requires forall k :: k in s.t.garbage && s.t.garbage[k] + SWEEP_AGE <= at ==> k !in s.sweeps
    requires s' == AfterSweep(s, at, failing)
    ensures Leads(s, s')
  {
    hide Named, Leads, Moves;
    var due := DueKeys(s.t.garbage, at - SWEEP_AGE);
    var keys := SomeList(due);
    forall i | 0 <= i < |keys|
      ensures keys[i] !in s.sweeps && keys[i] in s.t.garbage && s.t.garbage[keys[i]] + SWEEP_AGE <= at
    {
      assert keys[i] in due;
    }
    KeysSteps(s, keys, at, failing);
    SettledIs(s, keys, due, failing);
  }

  lemma SettledIs(s: System, keys: seq<Key>, due: set<Key>, failing: set<Key>)
    requires Lists(keys, due) && due <= s.t.garbage.Keys
    ensures var unnamed := due - Named(s.t);
            Settled(s, keys, failing)
            == WithList(s, s.t.garbage - (due - unnamed * failing), s.objects - (unnamed - failing))
  {
    hide Named;
    var unnamed := due - Named(s.t);
    var named, gone := set k | k in keys && k in Named(s.t), set k | k in keys && k !in Named(s.t) && k !in failing;
    assert gone == unnamed - failing && named + gone == due - unnamed * failing;
    assert s.t.garbage - named - gone == s.t.garbage - (named + gone);
  }

  /** A whole sweep, when no other holds a key that is due: its keys are settled by steps of the system, one by one. */
  method SweepAll(index: Repository, store: Store, at: Time, failing: set<Key>, ghost s: System)
      returns (deleted: nat, ghost s': System)
    requires s.t == index.View() && s.objects == store.objects && at <= s.now
    requires forall k :: k in s.t.garbage && s.t.garbage[k] + SWEEP_AGE <= at ==> k !in s.sweeps
    modifies index`garbage, store
    ensures s'.t == index.View() && s'.objects == store.objects && s'.now == s.now && s'.sweeps == s.sweeps
    ensures Leads(s, s') && (Inv(s) ==> Inv(s'))
  {
    hide Inv, Leads, Named, DueKeys;
    s' := AfterSweep(s, at, failing);
    SweepSteps(s, at, failing, s');
    deleted := index.Sweep(at, store, failing);
    NamedByList(s.t, index.View());
    if Inv(s) { LeadsKeeps(s, s'); }
  }
}
