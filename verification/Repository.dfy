/**
 * The repository of the plan index, statement by statement: its tables are fields that its methods
 * reassign, and each transaction is proved to be the function that specifies it.
 */
module PlanRepository {
  import opened Basics
  import opened Ranking
  import opened PlanTables
  import opened PlanOps
  import opened PlanRows
  import opened Retention
  import ObjectStore

  /** The object store, as the sweep uses it. */
  class Store {
    var objects: set<Key>

    constructor ()
      ensures objects == {}
    {
      objects := {};
    }
  }

  /** `select max(version)`. */
  method Newest(s: set<int>) returns (m: Option<int>)
    ensures m == if s == {} then None else Some(MaxOf(s))
  {
    if s == {} {
      m := None;
    } else {
      HasMax(s);
      var top :| top in s && forall x :: x in s ==> x <= top;
      m := Some(top);
    }
  }

  /** Keys whose wait for the sweep is over. */
  function DueKeys(garbage: map<Key, Time>, cutoff: Time): set<Key> {
    set k | k in garbage && garbage[k] <= cutoff
  }

  /** What a sweep of these keys deletes, and what it takes off the list. */
  ghost function DoomedOf(keys: seq<Key>, named: set<Key>, failing: set<Key>): set<Key> {
    set k | k in keys && k !in named && k !in failing
  }

  ghost function SettledOf(keys: seq<Key>, named: set<Key>, failing: set<Key>): set<Key> {
    set k | k in keys && (k in named || k !in failing)
  }

  lemma NextKey(keys: seq<Key>, due: set<Key>, i: nat, named: set<Key>, failing: set<Key>)
    requires i < |keys| && Lists(keys, due)
    ensures keys[i] in due
    ensures keys[i] !in DoomedOf(keys[..i], named, failing) && keys[i] !in SettledOf(keys[..i], named, failing)
    ensures var doomed := DoomedOf(keys[..i], named, failing);
            DoomedOf(keys[..i + 1], named, failing)
            == if keys[i] !in named && keys[i] !in failing then doomed + {keys[i]} else doomed
    ensures var settled := SettledOf(keys[..i], named, failing);
            SettledOf(keys[..i + 1], named, failing)
            == if keys[i] in named || keys[i] !in failing then settled + {keys[i]} else settled
  {
  }

  lemma MinusTwice<K, V>(m: map<K, V>, a: set<K>, b: set<K>)
    ensures m - a - b == m - (a + b)
  {
  }

  lemma StillDue(garbage: map<Key, Time>, settled: set<Key>, k: Key, cutoff: Time)
    requires k !in settled
    ensures k in DueKeys(garbage - settled, cutoff) <==> k in DueKeys(garbage, cutoff)
  {
  }

  /** The keys so far are settled, and nothing else changed. */
  ghost predicate Swept(g: map<Key, Time>, g': map<Key, Time>, o: set<Key>, o': set<Key>, keys: seq<Key>,
                        named: set<Key>, failing: set<Key>, deleted: nat) {
    && o' == o - DoomedOf(keys, named, failing) && deleted == |DoomedOf(keys, named, failing)|
    && g' == g - SettledOf(keys, named, failing)
  }

  lemma SweepStarts(g: map<Key, Time>, o: set<Key>, keys: seq<Key>, failing: set<Key>, named: set<Key>)
    ensures Swept(g, g, o, o, keys[..0], named, failing, 0)
  {
  }

  lemma SweepNext(g: map<Key, Time>, g': map<Key, Time>, o: set<Key>, o': set<Key>, keys: seq<Key>, i: nat,
                  named: set<Key>, failing: set<Key>, deleted: nat, cutoff: Time)
    requires i < |keys| && Lists(keys, DueKeys(g, cutoff)) && Swept(g, g', o, o', keys[..i], named, failing, deleted)
    ensures keys[i] in DueKeys(g', cutoff)
    ensures var k := keys[i];
            var gone := k !in named && k !in failing;
            Swept(g, if gone || k in named then g' - {k} else g', o, if gone then o' - {k} else o', keys[..i + 1],
                  named, failing, if gone then deleted + 1 else deleted)
  {
    hide DoomedOf, SettledOf, DueKeys, Lists;
    var k, doomed, settled := keys[i], DoomedOf(keys[..i], named, failing), SettledOf(keys[..i], named, failing);
    NextKey(keys, DueKeys(g, cutoff), i, named, failing);
    StillDue(g, settled, k, cutoff);
    MinusTwice(g, settled, {k});
    assert o - doomed - {k} == o - (doomed + {k});
  }

  lemma SweepEnds(g: map<Key, Time>, g': map<Key, Time>, o: set<Key>, o': set<Key>, keys: seq<Key>,
                  named: set<Key>, failing: set<Key>, deleted: nat, cutoff: Time)
    requires Lists(keys, DueKeys(g, cutoff)) && Swept(g, g', o, o', keys[..|keys|], named, failing, deleted)
    ensures var unnamed := DueKeys(g, cutoff) - named;
            o' == o - (unnamed - failing) && deleted == |unnamed - failing|
            && g' == g - (DueKeys(g, cutoff) - unnamed * failing)
  {
    var due := DueKeys(g, cutoff);
    assert keys[..|keys|] == keys;
    assert DoomedOf(keys, named, failing) == due - named - failing;
    assert SettledOf(keys, named, failing) == due - (due - named) * failing;
  }

  /** A sweep on rows and dates, an hour after each: what was deleted, what stays, and what is off the list. */
  lemma SweptByDate(t: Tables, g: map<Key, Time>, o: set<Key>, o': set<Key>, at: Time, failing: set<Key>)
    requires var due := DueKeys(t.garbage, at - ObjectStore.SWEEP_AGE);
             var unnamed := due - Named(t);
             o' == o - (unnamed - failing) && g == t.garbage - (due - unnamed * failing)
    ensures forall k :: k in o && k !in o' ==>
              && k in t.garbage && t.garbage[k] + 3_600_000_000 <= at && k !in t.exports
              && (forall id :: id in t.versions ==> t.versions[id].key != k)
              && (forall r :: r in t.results ==> t.results[r].key != k)
    ensures forall k :: k in t.garbage && t.garbage[k] + 3_600_000_000 > at ==>
              k in g && g[k] == t.garbage[k] && (k in o ==> k in o')
    ensures forall k :: k in t.garbage && t.garbage[k] + 3_600_000_000 <= at && k !in failing ==>
              && k !in g
              && (k in o' ==> || k in t.exports || (exists id :: id in t.versions && t.versions[id].key == k)
                              || (exists r :: r in t.results && t.results[r].key == k))
  {
  }

  /** Which results a purge takes, by the dates of their rows, and what is left. */
  lemma DueByDate(t: Tables, at: Time, trashDays: nat)
    ensures var due := DueResults(t, Cutoff(at, trashDays));
            && due <= t.results.Keys
            && (forall r :: r in t.results ==>
                  (r !in due <==>
                     || t.results[r].deletedAt == None
                     || t.results[r].deletedAt.value + trashDays * 86_400_000_000 > at
                     || (r != 0 && exists j :: j in t.jobs && t.jobs[j].open && t.jobs[j].sourceResult == r)))
  {
  }

  /** Which plans a purge takes, by the dates of their rows, and what is left. */
  lemma PurgedByDate(t: Tables, removed: seq<int>, at: Time, trashDays: nat)
    requires Lists(removed, DuePlans(t, Cutoff(at, trashDays)))
    ensures forall p :: p in t.plans ==>
              (p in removed <==> && t.plans[p].deletedAt.Some?
                                 && t.plans[p].deletedAt.value + trashDays * 86_400_000_000 <= at)
    ensures var u := PurgedPlans(t, Cutoff(at, trashDays), removed, at);
            && u.plans == t.plans - Elements(removed)
            && (forall v :: v in u.versions <==> v in t.versions && v.0 !in removed)
            && (forall v :: v in u.versions ==> u.versions[v] == t.versions[v])
            && (forall j :: j in u.jobs <==> j in t.jobs && t.jobs[j].plan !in removed)
            && (forall j :: j in u.jobs ==> u.jobs[j] == t.jobs[j])
            && (forall r :: r in u.results <==>
                  && r in t.results && t.results[r].plan !in removed
                  && (t.results[r].job in t.jobs ==> t.jobs[t.results[r].job].plan !in removed))
            && (forall r :: r in u.results ==> u.results[r] == t.results[r])
  {
    hide Burials, Record;
    assert Elements(removed) == DuePlans(t, Cutoff(at, trashDays));
  }

  lemma BurialNext(stamps: map<(int, Part), int>, ids: seq<int>, i: nat, first: int)
    requires i < |ids|
    ensures var left := stamps - set x | x in stamps && x.0 == ids[i] && x.1 != Project;
            Burials(stamps, ids[i..], first) == Burials(left[(ids[i], Project) := first], ids[i + 1..], first + 1)
  {
    assert ids[i..][0] == ids[i] && ids[i..][1..] == ids[i + 1..];
    assert stamps - (set x | x in stamps && x.0 == ids[i] && x.1 != Project) == Buried(stamps, ids[i]);
  }

  lemma FewerRows<K, V>(m: map<K, V>, gone: set<K>)
    requires gone <= m.Keys
    ensures |m - gone| == |m| - |gone|
  {
  }

  lemma NamedByRows(t: Tables, u: Tables)
    requires t == u.(garbage := t.garbage)
    ensures Named(t) == Named(u)
  {
  }

  /** The plain versions at or below the cut that no open solve reads. */
  function Cut(t: Tables, p: int, cutoff: int): set<(int, int)> {
    set id | id in t.versions && id.0 == p && id.1 <= cutoff && t.versions[id].checkpoint == ""
             && !SolvingVersion(t, id)
  }

  lemma RecordTwice(g: map<Key, Time>, a: set<Key>, b: set<Key>, at: Time)
    ensures Record(Record(g, a, at), b, at) == Record(g, a + b, at)
  {
  }

  lemma RecordThrice(g: map<Key, Time>, a: set<Key>, b: set<Key>, c: set<Key>, at: Time)
    ensures Record(Record(Record(g, a, at), b, at), c, at) == Record(g, a + b + c, at)
  {
    RecordTwice(g, a, b, at);
    RecordTwice(g, a + b, c, at);
  }

  /** The backups cap applied to each of these plans in turn; a plan whose transaction fails stays as it was. */
  ghost function TrimmedAll(t: Tables, ids: seq<int>, failing: set<int>, default: nat, at: Time): Tables
    decreases |ids|
  {
    if ids == [] then t
    else
      var before := TrimmedAll(t, ids[..|ids| - 1], failing, default, at);
      var p := ids[|ids| - 1];
      if p in failing then before else TrimmedPlan(before, p, default, at)
  }

  /** Why a request is refused. */
  datatype Failure =
    | NeedsKey
    | NeedsParent
    | BadUploadKey
    | NotFound
    | NoVersion
    | NoResult
    | Reused
    | Conflict(current: int)
    | Refused
    | Broken
    | PastTheCap

  datatype Outcome<+T> = Ok(value: T) | Err(failure: Failure)

  /** A validity date is `None` to keep the parent's and `Some(None)` to clear it. */
  datatype Upload = Upload(plan: int, parent: int, key: Key, createdBy: string,
                           validFrom: Option<Option<Time>>, validTo: Option<Option<Time>>, uploadKey: string)

  predicate UploadKeyChar(c: char) {
    'A' <= c <= 'Z' || 'a' <= c <= 'z' || '0' <= c <= '9' || c == '_' || c == '-'
  }

  predicate UploadKeyFits(key: string) {
    16 <= |key| <= 64 && forall i :: 0 <= i < |key| ==> UploadKeyChar(key[i])
  }

  /** What `AddVersion` reads, in order: the plan, its upload keys, the parent's dates, and on a refusal more. */
  datatype Lookup = ForPlan | ForKey | ForDates | ForKeyAgain | ForNewest

  /** A read before the insert breaks, and is one that this upload needs. */
  ghost predicate BreaksEarly(t: Tables, u: Upload, unread: Option<Lookup>) {
    match unread
    case Some(ForPlan) => true
    case Some(ForKey) => Live(t, u.plan) && u.uploadKey != ""
    case Some(ForDates) =>
      Live(t, u.plan) && !UploadKeyTaken(t, u.plan, u.uploadKey) && (u.validFrom.None? || u.validTo.None?)
    case _ => false
  }

  /** What AddVersion refuses before it reads anything. */
  function Malformed(u: Upload): Option<Failure> {
    if u.key == "" then Some(NeedsKey)
    else if u.parent < 1 then Some(NeedsParent)
    else if u.uploadKey != "" && !UploadKeyFits(u.uploadKey) then Some(BadUploadKey)
    else None
  }

  /** The row an upload asks for, with each date it leaves open taken over from the version it follows. */
  function RowOf(t: Tables, u: Upload, at: Time): Version {
    var parent := (u.plan, u.parent);
    var from := if parent in t.versions then t.versions[parent].validFrom else None;
    var to := if parent in t.versions then t.versions[parent].validTo else None;
    Version(u.parent, u.key, at, u.createdBy, u.validFrom.GetOr(from), u.validTo.GetOr(to), u.uploadKey, "", None)
  }

  /** What is refused before anything is read, character by character. */
  lemma MalformedInWords(u: Upload)
    ensures var fits := 16 <= |u.uploadKey| <= 64 && forall i :: 0 <= i < |u.uploadKey| ==>
                          || 'A' <= u.uploadKey[i] <= 'Z' || 'a' <= u.uploadKey[i] <= 'z'
                          || '0' <= u.uploadKey[i] <= '9' || u.uploadKey[i] in "_-";
            && (u.key == "" ==> Malformed(u) == Some(NeedsKey))
            && (u.key != "" && u.parent < 1 ==> Malformed(u) == Some(NeedsParent))
            && (u.key != "" && u.parent >= 1 ==>
                  Malformed(u) == if u.uploadKey == "" || fits then None else Some(BadUploadKey))
  {
    assert "_-"[0] == '_' && "_-"[1] == '-' && |"_-"| == 2;
  }

  /** The row an upload asks for is its own, plain, and made now; each date it leaves open is the parent's. */
  lemma RowInWords(was: Tables, u: Upload, at: Time)
    ensures var row := RowOf(was, u, at);
            && row.key == u.key && row.parent == u.parent && row.uploadKey == u.uploadKey
            && row.createdAt == at && row.createdBy == u.createdBy
            && row.checkpoint == "" && row.checkpointDeletedAt == None
            && (forall day :: u.validFrom == Some(day) ==> row.validFrom == day)
            && (forall day :: u.validTo == Some(day) ==> row.validTo == day)
            && ((u.plan, u.parent) in was.versions ==>
                  && (u.validFrom == None ==> row.validFrom == was.versions[(u.plan, u.parent)].validFrom)
                  && (u.validTo == None ==> row.validTo == was.versions[(u.plan, u.parent)].validTo))
  {
  }

  /** A version keeps its parent's dates unless the upload sets or clears them. */
  lemma DatesFollowTheParent(t: Tables, u: Upload, at: Time)
    requires (u.plan, u.parent) in t.versions
    ensures var (row, parent) := (RowOf(t, u, at), t.versions[(u.plan, u.parent)]);
            && (u.validFrom == None ==> row.validFrom == parent.validFrom)
            && (u.validFrom == Some(None) ==> row.validFrom == None)
            && (u.validTo == None ==> row.validTo == parent.validTo)
            && (u.validTo == Some(None) ==> row.validTo == None)
            && (forall day :: u.validFrom == Some(Some(day)) ==> row.validFrom == Some(day))
            && (forall day :: u.validTo == Some(Some(day)) ==> row.validTo == Some(day))
            && row.checkpoint == ""
  {
  }

  function NewerThan(t: Tables, p: int, parent: int): set<(int, int)> {
    set id | id in t.versions && id.0 == p && id.1 > parent
  }

  function WithUploadKey(t: Tables, p: int, uploadKey: string): set<(int, int)> {
    set id | id in t.versions && id.0 == p && uploadKey != "" && t.versions[id].uploadKey == uploadKey
  }

  /** The stored version is the one this upload sent. */
  predicate Stores(t: Tables, u: Upload, number: int) {
    (u.plan, number) in t.versions
    && t.versions[(u.plan, number)].key == u.key && t.versions[(u.plan, number)].parent == u.parent
    && t.versions[(u.plan, number)].uploadKey == u.uploadKey
  }

  class Repository {
    var plans: map<int, Plan>
    var versions: map<(int, int), Version>
    var results: map<int, Result>
    var exports: map<Key, Export>
    var jobs: map<int, Job>
    var garbage: map<Key, Time>
    var stamps: map<(int, Part), int>
    var clock: nat
    var backupsKeep: nat
    var resultsKeep: nat

    constructor (backups: nat, results_: nat)
      ensures View() == Empty && backupsKeep == backups && resultsKeep == results_
    {
      plans, versions, results, exports, jobs := map[], map[], map[], map[], map[];
      garbage, stamps, clock := map[], map[], 0;
      backupsKeep, resultsKeep := backups, results_;
    }

    function View(): Tables
      reads this
    {
      Tables(plans, versions, results, exports, jobs, garbage, stamps, clock)
    }

    /** New caps. Nothing is removed by it: the next trim is the first to look at them. */
    method SetCaps(backups: nat, results_: nat)
      modifies `backupsKeep, `resultsKeep
      ensures backupsKeep == backups && resultsKeep == results_ && View() == old(View())
    {
      backupsKeep, resultsKeep := backups, results_;
    }

    // ------------------------------------------------------------ garbage

    method Revive(key: Key, at: Time)
      modifies `garbage
      ensures garbage == Revived(old(garbage), key, at)
    {
      if key in garbage {
        garbage := garbage[key := at];
      }
    }

    method Discard(key: Key, at: Time)
      modifies `garbage
      ensures garbage == old(garbage)[key := at]
    {
      garbage := garbage[key := at];
    }

    /** Settles one key: a named one leaves the list, an unnamed one goes with its object. */
    method SweepOne(key: Key, cutoff: Time, store: Store, failing: set<Key>) returns (gone: bool)
      modifies `garbage, store
      ensures gone <==> key in DueKeys(old(garbage), cutoff) && key !in Named(View()) && key !in failing
      ensures store.objects == if gone then old(store.objects) - {key} else old(store.objects)
      ensures garbage == if gone || (key in DueKeys(old(garbage), cutoff) && key in Named(View()))
                         then old(garbage) - {key} else old(garbage)
      ensures gone ==> key in old(garbage) && old(garbage)[key] <= cutoff && key !in exports
                       && (forall id :: id in versions ==> versions[id].key != key)
                       && (forall r :: r in results ==> results[r].key != key)
      ensures key in old(garbage) && old(garbage)[key] <= cutoff && key !in failing && !gone ==>
                || key in exports || (exists id :: id in versions && versions[id].key == key)
                || (exists r :: r in results && results[r].key == key)
    {
      if key !in garbage || garbage[key] > cutoff {
        return false;
      }
      var before := garbage;
      garbage := garbage - {key};
      var byVersions := set id | id in versions && versions[id].key == key;
      var byResults := set r | r in results && results[r].key == key;
      var byExports := set k | k in exports && k == key;
      var named := |byVersions| + |byResults| + |byExports|;
      assert named > 0 <==> key in Named(View()) by { NamedByCount(View(), key); }
      if named > 0 {
        return false;
      }
      if key in failing {
        garbage := before;
        return false;
      }
      store.objects := store.objects - {key};
      return true;
    }

    /** Deletes exactly the objects that waited an hour and that nothing names, and says how many. */
    method Sweep(at: Time, store: Store, failing: set<Key>) returns (deleted: nat)
      modifies `garbage, store
      ensures var due := DueKeys(old(garbage), at - ObjectStore.SWEEP_AGE);
              var unnamed := due - Named(View());
              && store.objects == old(store.objects) - (unnamed - failing)
              && garbage == old(garbage) - (due - unnamed * failing)
              && deleted == |unnamed - failing|
      ensures forall k :: k in old(store.objects) && k !in store.objects ==>
                && k in old(garbage) && old(garbage)[k] + 3_600_000_000 <= at && k !in exports
                && (forall id :: id in versions ==> versions[id].key != k)
                && (forall r :: r in results ==> results[r].key != k)
      ensures forall k :: k in old(garbage) && old(garbage)[k] + 3_600_000_000 > at ==>
                k in garbage && garbage[k] == old(garbage)[k] && (k in old(store.objects) ==> k in store.objects)
      ensures forall k :: k in old(garbage) && old(garbage)[k] + 3_600_000_000 <= at && k !in failing ==>
                && k !in garbage
                && (k in store.objects ==> || k in exports || (exists id :: id in versions && versions[id].key == k)
                                           || (exists r :: r in results && results[r].key == k))
    {
      var cutoff := at - ObjectStore.SWEEP_AGE;
      var keys := Rows(DueKeys(garbage, cutoff));
      deleted := 0;
      ghost var t := View();
      ghost var named := Named(t);
      SweepStarts(t.garbage, store.objects, keys, failing, named);
      hide Named, Swept, DueKeys, Lists;
      for i := 0 to |keys|
        invariant View() == t.(garbage := garbage) && Named(View()) == named
        invariant Swept(t.garbage, garbage, old(store.objects), store.objects, keys[..i], named, failing, deleted)
      {
        ghost var waiting, objects := garbage, store.objects;
        var gone := SweepOne(keys[i], cutoff, store, failing);
        NamedByRows(View(), t);
        SweepNext(t.garbage, waiting, old(store.objects), objects, keys, i, named, failing, deleted, cutoff);
        if gone {
          deleted := deleted + 1;
        }
      }
      SweepEnds(t.garbage, garbage, old(store.objects), store.objects, keys, named, failing, deleted, cutoff);
      SweptByDate(t, garbage, old(store.objects), store.objects, at, failing);
    }

    // ------------------------------------------------------- change clock

    /** Reserves `n` values of the clock and answers the lowest. */
    method Advance(n: nat) returns (first: int)
      modifies `clock
      ensures clock == old(clock) + n
      ensures n > 0 ==> first == old(clock) + 1
    {
      if n == 0 {
        return 0;
      }
      clock := clock + n;
      first := clock - n + 1;
    }

    method StampParts(changed: seq<(int, Part)>)
      modifies `clock, `stamps
      ensures View() == Stamp(old(View()), changed)
    {
      var first := Advance(|changed|);
      for i := 0 to |changed|
        invariant clock == old(clock) + |changed|
        invariant Upserts(stamps, changed[i..], old(clock) + 1 + i) == Upserts(old(stamps), changed, old(clock) + 1)
      {
        assert changed[i..][0] == changed[i] && changed[i..][1..] == changed[i + 1..];
        stamps := stamps[changed[i] := first + i];
      }
      assert changed[|changed|..] == [];
    }

    method EntombPlans(ids: seq<int>)
      modifies `clock, `stamps
      ensures View() == Entomb(old(View()), ids)
    {
      var first := Advance(|ids|);
      for i := 0 to |ids|
        invariant clock == old(clock) + |ids|
        invariant Burials(stamps, ids[i..], old(clock) + 1 + i) == Burials(old(stamps), ids, old(clock) + 1)
      {
        BurialNext(stamps, ids, i, old(clock) + 1 + i);
        stamps := stamps - set x | x in stamps && x.0 == ids[i] && x.1 != Project;
        stamps := stamps[(ids[i], Project) := first + i];
      }
      assert ids[|ids|..] == [];
    }

    // ------------------------------------------------------------ backups

    /** Removes the plain versions beyond the cap, cutting the timeline at the row the offset finds. */
    method Trim(p: int, newest: int, keep: nat, at: Time) returns (removed: nat)
      modifies `garbage, `versions, `exports
      ensures View() == RemoveVersions(old(View()), Trimmed(old(View()), p, newest, keep), at)
      ensures removed == |Trimmed(old(View()), p, newest, keep)| == |old(versions)| - |versions|
    {
      hide Plain, Above, Trimmed, Cut, Record, VersionKeys, ExportKeys;
      var t := View();
      var plain := Plain(t, p, newest);
      if cutoff :| cutoff in plain && |Above(plain, cutoff)| == keep {
        CutIsTrimmed(t, p, newest, keep, cutoff);
        var gone := Cut(t, p, cutoff);
        garbage := Record(garbage, VersionKeys(t, gone), at);
        var files := ExportKeys(t, gone, {});
        garbage := Record(garbage, files, at);
        versions := versions - gone;
        exports := exports - files;
        removed := |gone|;
        FewerRows(t.versions, gone);
        RecordTwice(t.garbage, VersionKeys(t, gone), files, at);
      } else {
        NoCutTrimsNothing(t, p, newest, keep);
        RemovingNothing(t, at);
        removed := 0;
      }
    }

    method TrimPlan(p: int, at: Time) returns (removed: nat)
      modifies `garbage, `versions, `exports, `stamps, `clock
      ensures View() == TrimmedPlan(old(View()), p, backupsKeep, at)
      ensures removed == |old(versions)| - |versions|
    {
      hide Trimmed, RemoveVersions, Stamp, Numbers, KeepFor;
      var t := View();
      var newest := Newest(Numbers(t, p));
      if newest.None? || p !in plans {
        return 0;
      }
      var keep := KeepFor(plans[p].backupsKeep, backupsKeep);
      removed := Trim(p, newest.value, keep, at);
      if removed == 0 {
        RemovingNothing(t, at);
        return 0;
      }
      StampParts([(p, Versions)]);
    }

    /** Applies the cap in force to every plan; each is its own transaction. */
    method TrimBackups(at: Time, failing: set<int>) returns (removed: nat, ids: seq<int>)
      modifies `garbage, `versions, `exports, `stamps, `clock
      ensures Lists(ids, plans.Keys)
      ensures View() == TrimmedAll(old(View()), ids, failing, backupsKeep, at)
      ensures removed == |old(versions)| - |versions|
    {
      ids := Rows(plans.Keys);
      removed := 0;
      for i := 0 to |ids|
        invariant View() == TrimmedAll(old(View()), ids[..i], failing, backupsKeep, at)
        invariant removed == |old(versions)| - |versions|
      {
        assert ids[..i + 1][..i] == ids[..i];
        if ids[i] !in failing {
          var count := TrimPlan(ids[i], at);
          removed := removed + count;
        }
      }
      assert ids[..|ids|] == ids;
    }

    // ----------------------------------------------------------- versions

    /** Other transactions commit: the tables are whatever they left. */
    method Elsewhere(t: Tables)
      modifies `plans, `versions, `results, `exports, `jobs, `garbage, `stamps, `clock
      ensures View() == t
    {
      plans, versions, results, exports, jobs := t.plans, t.versions, t.results, t.exports, t.jobs;
      garbage, stamps, clock := t.garbage, t.stamps, t.clock;
    }

    /** Whether the plan has seen this upload key, and what came of it. */
    method Replay(u: Upload) returns (r: Option<Outcome<int>>)
      ensures r.None? <==> !UploadKeyTaken(View(), u.plan, u.uploadKey)
      ensures r.Some? && r.value.Ok? ==> Stores(View(), u, r.value.value)
      ensures r.Some? && r.value.Err? ==> r.value.failure == Reused
      ensures r.Some? && r.value.Err? ==>
                exists id :: id in versions && id.0 == u.plan && versions[id].uploadKey == u.uploadKey
                             && (versions[id].key != u.key || versions[id].parent != u.parent)
    {
      if u.uploadKey == "" {
        return None;
      }
      var found := WithUploadKey(View(), u.plan, u.uploadKey);
      if found == {} {
        assert forall id :: id in versions && id.0 == u.plan && versions[id].uploadKey == u.uploadKey ==> id in found;
        return None;
      }
      var id :| id in found;
      assert id == (u.plan, id.1);
      if versions[id].key != u.key || versions[id].parent != u.parent {
        return Some(Err(Reused));
      }
      return Some(Ok(id.1));
    }

    /** The conditional insert, with the cap applied in the same transaction. */
    method InsertVersion(p: int, row: Version, keep: nat, at: Time) returns (ok: bool)
      modifies `plans, `versions, `exports, `garbage, `stamps, `clock
      ensures View() == VersionInserted(old(View()), p, row, keep, at)
      ensures ok <==> p in old(plans) && Accepts(old(View()), p, row)
    {
      hide Trimmed, Accepts, RemoveVersions, Stamp, NewerThan, WithUploadKey;
      InsertGuard(View(), p, row);
      if p !in plans || (p, row.parent) !in versions || NewerThan(View(), p, row.parent) != {}
         || WithUploadKey(View(), p, row.uploadKey) != {}
      {
        return false;
      }
      versions := versions[(p, row.parent + 1) := row];
      var removed := Trim(p, row.parent + 1, keep, at);
      plans := plans[p := plans[p].(updatedAt := row.createdAt)];
      StampParts([(p, Project), (p, Versions)]);
      return true;
    }

    /** The insert against whatever others left, explained when it inserts nothing. */
    method InsertOrExplain(u: Upload, row: Version, keep: nat, at: Time, elsewhere: Tables, broken: bool,
                           unread: Option<Lookup>, ghost was: Tables) returns (r: Outcome<int>)
      requires row == RowOf(was, u, at)
      modifies `plans, `versions, `results, `exports, `jobs, `garbage, `stamps, `clock
      ensures View() == if broken then elsewhere else VersionInserted(elsewhere, u.plan, row, keep, at)
      ensures r.Ok? ==> Stores(View(), u, r.value)
      ensures var accepted := !broken && u.plan in elsewhere.plans && Accepts(elsewhere, u.plan, row);
              && (accepted ==> r == Ok(u.parent + 1))
              && (!accepted ==> View() == elsewhere && NotInserted(elsewhere, u, broken, unread, r))
    {
      hide Accepts, UploadKeyTaken, VersionInserted, WithVersion, RowOf, Stores, Numbers;
      InsertedOrNot(elsewhere, u.plan, row, keep, at);
      Elsewhere(elsewhere);
      var ok := false;
      if !broken {
        ok := InsertVersion(u.plan, row, keep, at);
      }
      if ok {
        InsertedIsStored(was, elsewhere, u, keep, at);
        return Ok(u.parent + 1);
      }
      hide NotInserted;
      r := Explain(u, broken, unread);
    }

    /** Why nothing was inserted: an earlier send of it was, another version came first, or something broke. */
    method Explain(u: Upload, broken: bool, unread: Option<Lookup>) returns (r: Outcome<int>)
      ensures NotInserted(View(), u, broken, unread, r)
      ensures r.Ok? ==> Stores(View(), u, r.value)
    {
      hide UploadKeyTaken, Stores, Numbers;
      if unread == Some(ForKeyAgain) && u.uploadKey != "" {
        return Err(Broken);
      }
      var again := Replay(u);
      if again.Some? {
        return again.value;
      }
      if unread != Some(ForNewest) && Live(View(), u.plan) {
        var current := Newest(Numbers(View(), u.plan));
        if !broken || current.GetOr(0) > u.parent {
          return Err(Conflict(current.GetOr(0)));
        }
      }
      return Err(if broken then Broken else Refused);
    }

    /**
     * The next version of a plan, for whoever comes first with the newest parent. Between its reads and its insert
     * other transactions may leave the tables as `elsewhere`. The insert itself may break and roll back, and so may
     * one of the reads around it, `unread`. `tried` is whether it got as far as the insert.
     */
    method AddVersion(u: Upload, at: Time, elsewhere: Tables, broken: bool, unread: Option<Lookup>)
        returns (r: Outcome<int>, tried: bool)
      modifies `plans, `versions, `results, `exports, `jobs, `garbage, `stamps, `clock
      ensures Answered(old(View()), elsewhere, u, at, backupsKeep, broken, unread, View(), r, tried)
      ensures r.Ok? ==> (u.plan, r.value) in versions && versions[(u.plan, r.value)].key == u.key
                        && versions[(u.plan, r.value)].parent == u.parent
                        && versions[(u.plan, r.value)].uploadKey == u.uploadKey
      ensures !tried ==> View() == old(View())
      ensures tried && r.Err? ==> View() == elsewhere
    {
      hide Accepts, UploadKeyTaken, VersionInserted, RowOf, Malformed, NotInserted;
      tried := false;
      var bad := Malformed(u);
      if bad.Some? {
        return Err(bad.value), false;
      }
      if unread == Some(ForPlan) {
        return Err(Broken), false;
      }
      if !Live(View(), u.plan) {
        return Err(NotFound), false;
      }
      var keep := KeepFor(plans[u.plan].backupsKeep, backupsKeep);
      if unread == Some(ForKey) && u.uploadKey != "" {
        return Err(Broken), false;
      }
      var again := Replay(u);
      if again.Some? {
        return again.value, false;
      }
      if unread == Some(ForDates) && (u.validFrom.None? || u.validTo.None?) {
        return Err(Broken), false;
      }
      r := InsertOrExplain(u, RowOf(View(), u, at), keep, at, elsewhere, broken, unread, View());
      tried := true;
    }

    // ------------------------------------------------------------ results

    /** A row goes, and every key that goes with it waits for the sweep. */
    method RemoveResult(id: int, at: Time)
      modifies `garbage, `results, `exports
      ensures View() == RemoveResults(old(View()), {id}, at)
    {
      var t := View();
      garbage := Record(garbage, ResultKeys(t, {id}), at);
      var files := ExportKeys(t, {}, {id});
      garbage := Record(garbage, files, at);
      RecordTwice(t.garbage, ResultKeys(t, {id}), files, at);
      results := results - {id};
      exports := exports - files;
    }

    /** The results past the cap, newest first; those an open solve reads are among them. */
    method ResultsBeyond(p: int, keep: nat) returns (beyond: seq<int>)
      ensures UnreadOf(View(), beyond) == TrimmedResults(View(), p, keep)
    {
      var t := View();
      ResultOrderIsStrict(t, p);
      var listed := RowsBy(Counted(t, p), NewerIn(t));
      var start := if keep < |listed| then keep else |listed|;
      BeyondTheCap(t, p, keep, listed);
      beyond := listed[start..];
    }

    /** Removes the oldest unpinned results beyond the cap, one by one. */
    method TrimResults(p: int, keep: nat, at: Time)
      modifies `garbage, `results, `exports
      ensures View() == RemoveResults(old(View()), TrimmedResults(old(View()), p, keep), at)
    {
      var t := View();
      var beyond := ResultsBeyond(p, keep);
      RemovingNothing(t, at);
      hide RemoveResults, TrimmedResults, SolvingResult, UnreadOf;
      UnreadEnds(t, beyond);
      for i := 0 to |beyond|
        invariant View() == RemoveResults(t, UnreadOf(t, beyond[..i]), at)
      {
        UnreadNext(t, beyond, i, at);
        if !SolvingResult(t, beyond[i]) {
          RemoveResult(beyond[i], at);
        }
      }
    }

    /** Writes one result and applies the results cap; one that the cap removes at once rolls everything back. */
    method InsertResult(r: int, row: Result, at: Time) returns (o: Outcome<int>)
      requires r !in results
      modifies `plans, `versions, `results, `exports, `jobs, `garbage, `stamps, `clock
      ensures View() == WithResult(old(View()), r, row, resultsKeep, at)
      ensures o.Ok? <==> r in results
      ensures o == Ok(r) || (o.Err? && o.failure in {NotFound, Refused, PastTheCap} && View() == old(View()))
      ensures o == Err(NotFound) <==> row.plan !in plans
      ensures o == Err(Refused)
              <==> row.plan in plans && row.uploadKey != ""
                   && exists q :: q in old(results) && old(results)[q].plan == row.plan
                                  && old(results)[q].uploadKey == row.uploadKey
    {
      var saved := View();
      if row.plan !in plans {
        return Err(NotFound);
      }
      ResultKeyByRows(saved, row.plan, row.uploadKey);
      if WithResultKey(saved, row.plan, row.uploadKey) != {} {
        return Err(Refused);
      }
      hide RemoveResults, TrimmedResults, Stamp, ResultKeyTaken, WithResultKey;
      results := results[r := row];
      var keep := KeepFor(plans[row.plan].resultsKeep, resultsKeep);
      ghost var gone := TrimmedResults(View(), row.plan, keep);
      RetainedOrGone(View(), r, gone, at);
      TrimResults(row.plan, keep, at);
      if r !in results {
        Elsewhere(saved);
        return Err(PastTheCap);
      }
      StampParts([(row.plan, Results)]);
      return Ok(r);
    }

    /** Stores a result once: a second send of the same upload is answered with the first. */
    method AddResult(r: int, row: Result, at: Time) returns (o: Outcome<int>)
      requires r !in results
      modifies `plans, `versions, `results, `exports, `jobs, `garbage, `stamps, `clock
      ensures row.key == "" ==> o == Err(NeedsKey) && View() == old(View())
      ensures o == Err(BadUploadKey)
              <==> row.key != "" && row.uploadKey != ""
                   && !(16 <= |row.uploadKey| <= 64 && forall i :: 0 <= i < |row.uploadKey| ==>
                          || 'A' <= row.uploadKey[i] <= 'Z' || 'a' <= row.uploadKey[i] <= 'z'
                          || '0' <= row.uploadKey[i] <= '9' || row.uploadKey[i] == '_' || row.uploadKey[i] == '-')
      ensures o == Err(BadUploadKey) ==> View() == old(View())
      ensures row.key != "" && (row.uploadKey == "" || UploadKeyFits(row.uploadKey)) ==>
                View() == WithResult(old(View()), r, row, resultsKeep, at)
      ensures o.Ok? ==> o.value in results && results[o.value].key == row.key && results[o.value].plan == row.plan
                        && results[o.value].sourceVersion == row.sourceVersion
      ensures row.key != "" && UploadKeyFits(row.uploadKey) && row.plan in old(plans)
                && row.uploadKey != ""
                && (exists q :: q in old(results) && old(results)[q].plan == row.plan
                                && old(results)[q].uploadKey == row.uploadKey)
              ==> o.Ok? || o == Err(Reused)
      ensures o == Err(Reused) ==>
                exists q :: q in results && results[q].plan == row.plan && results[q].uploadKey == row.uploadKey
                            && (results[q].key != row.key || results[q].sourceVersion != row.sourceVersion)
      ensures o.Err? || o.value != r ==> View() == old(View())
    {
      if row.key == "" {
        return Err(NeedsKey);
      }
      if row.uploadKey != "" && !UploadKeyFits(row.uploadKey) {
        return Err(BadUploadKey);
      }
      hide WithResult;
      StoredResult(View(), r, row, resultsKeep, at);
      o := InsertResult(r, row, at);
      if o.Ok? {
        return o;
      }
      ResultKeyByRows(View(), row.plan, row.uploadKey);
      var found := WithResultKey(View(), row.plan, row.uploadKey);
      if found == {} {
        return o;
      }
      var rows := Rows(found);
      assert Member(found) in rows;
      var id := rows[0];
      assert id in rows;
      if results[id].key != row.key || results[id].sourceVersion != row.sourceVersion {
        return Err(Reused);
      }
      return Ok(id);
    }

    /** Removes for good the results whose time in Trash is up. `order` is the order their plans are stamped in. */
    method PurgeResults(at: Time, trashDays: nat) returns (purged: nat, order: seq<int>)
      modifies `garbage, `results, `exports, `stamps, `clock
      ensures Lists(order, Touched(old(View()), DueResults(old(View()), Cutoff(at, trashDays))))
      ensures View() == PurgedResults(old(View()), Cutoff(at, trashDays), order, at)
      ensures purged == |DueResults(old(View()), Cutoff(at, trashDays))| == |old(results)| - |results|
      ensures forall r :: r in old(results) ==>
                (r in results <==>
                   || old(results)[r].deletedAt == None
                   || old(results)[r].deletedAt.value + trashDays * 86_400_000_000 > at
                   || (r != 0 && exists j :: j in jobs && jobs[j].open && jobs[j].sourceResult == r))
      ensures forall r :: r in results ==> r in old(results) && results[r] == old(results)[r]
    {
      hide Touched, Elements, ExportKeys, ResultKeys, Record, Stamp, DueResults, SolvingResult;
      var t := View();
      var due := DueResults(t, Cutoff(at, trashDays));
      DueByDate(t, at, trashDays);
      FewerRows(results, due);
      garbage := Record(garbage, ResultKeys(t, due), at);
      var files := ExportKeys(t, {}, due);
      garbage := Record(garbage, files, at);
      RecordTwice(t.garbage, ResultKeys(t, due), files, at);
      var rows := Rows(due);
      purged := 0;
      var touched: set<int> := {};
      ReturningStarts(t, rows, due);
      ghost var u := View();
      for i := 0 to |rows|
        invariant View() == u && purged == |Elements(rows[..i])| && touched == Touched(t, Elements(rows[..i]))
      {
        ReturningNext(t, rows, due, i);
        purged := purged + 1;
        touched := touched + {results[rows[i]].plan};
      }
      results := results - due;
      exports := exports - files;
      order := Rows(touched);
      StampParts(PartOf(order, Part.Results));
    }

    // -------------------------------------------------------------- trash

    /** `delete from plans where id = ?`: everything that refers to the plan goes with it. */
    method DeletePlan(p: int)
      modifies `plans, `versions, `results, `exports, `jobs
      ensures View() == Cascade(old(View()), {p})
    {
      var t := View();
      plans := plans - {p};
      versions := versions - VersionsIn(t, {p});
      results := results - CascadedResults(t, {p});
      exports := exports - CascadedExports(t, {p});
      jobs := jobs - JobsIn(t, {p});
    }

    /** Plans that waited in Trash until the cutoff go, each leaving one stamp behind. */
    method Purge(at: Time, trashDays: nat) returns (removed: seq<int>)
      requires Linked(View())
      modifies `plans, `versions, `results, `exports, `jobs, `garbage, `stamps, `clock
      ensures Lists(removed, DuePlans(old(View()), Cutoff(at, trashDays)))
      ensures View() == PurgedPlans(old(View()), Cutoff(at, trashDays), removed, at)
      ensures forall p :: p in old(plans) ==>
                (p in removed <==> old(plans)[p].deletedAt.Some?
                                   && old(plans)[p].deletedAt.value + trashDays * 86_400_000_000 <= at)
      ensures plans == old(plans) - Elements(removed)
      ensures forall v :: v in versions <==> v in old(versions) && v.0 !in removed
      ensures forall v :: v in versions ==> versions[v] == old(versions)[v]
      ensures forall j :: j in jobs <==> j in old(jobs) && old(jobs)[j].plan !in removed
      ensures forall j :: j in jobs ==> jobs[j] == old(jobs)[j]
      ensures forall r :: r in results <==>
                && r in old(results) && old(results)[r].plan !in removed
                && (old(results)[r].job in old(jobs) ==> old(jobs)[old(results)[r].job].plan !in removed)
      ensures forall r :: r in results ==> results[r] == old(results)[r]
    {
      hide Record, VersionKeys, ResultKeys, ExportsIn, VersionsIn, ResultsIn;
      var t, cutoff := View(), Cutoff(at, trashDays);
      var ps := DuePlans(t, cutoff);
      garbage := Record(garbage, VersionKeys(t, VersionsIn(t, ps)), at);
      garbage := Record(garbage, ResultKeys(t, ResultsIn(t, ps)), at);
      garbage := Record(garbage, ExportsIn(t, ps), at);
      RecordThrice(t.garbage, VersionKeys(t, VersionsIn(t, ps)), ResultKeys(t, ResultsIn(t, ps)), ExportsIn(t, ps), at);
      var u := View();
      CascadeStarts(u, t, ps, at);
      var due := Rows(ps);
      removed := [];
      hide Cascade, Linked;
      for i := 0 to |due|
        invariant removed == due[..i] && View() == Cascade(u, Elements(due[..i]))
      {
        assert due[..i + 1] == due[..i] + [due[i]];
        CascadeNext(u, due, i);
        StillDuePlan(u, due, i, cutoff);
        if due[i] in plans && plans[due[i]].deletedAt.Some? && plans[due[i]].deletedAt.value <= cutoff {
          DeletePlan(due[i]);
          removed := removed + [due[i]];
        }
      }
      assert due[..|due|] == due && Elements(due) == ps;
      EntombPlans(removed);
      PurgedByDate(t, removed, at, trashDays);
    }

    // -------------------------------------------------------- checkpoints

    method PurgeCheckpointsOf(p: int, cutoff: Time, at: Time) returns (ended: nat)
      modifies `garbage, `versions, `exports, `stamps, `clock
      ensures View() == PurgedCheckpoints(old(View()), p, cutoff, backupsKeep, at)
      ensures ended == if p in old(plans) then |EndedIn(old(View()), p, cutoff)| else 0
    {
      hide Unnamed, RemoveVersions, Trimmed, Stamp, EndedIn, Numbers;
      var t := View();
      EndedHasNumber(t, p, cutoff);
      ended := |EndedIn(t, p, cutoff)|;
      if ended == 0 || p !in plans {
        return 0;
      }
      versions := Unnamed(t, p, cutoff).versions;
      var newest := Newest(Numbers(t, p));
      var keep := KeepFor(plans[p].backupsKeep, backupsKeep);
      UnnamedKeeps(t, p, cutoff);
      var trimmed := Trim(p, newest.value, keep, at);
      StampParts([(p, Versions)]);
    }

    /** Due checkpoints become plain versions, each plan in a transaction of its own. */
    method PurgeCheckpoints(at: Time, trashDays: nat, failing: set<int>) returns (ended: nat, ids: seq<int>)
      modifies `garbage, `versions, `exports, `stamps, `clock
      ensures Lists(ids, WithEnded(old(View()), Cutoff(at, trashDays)))
      ensures View() == PurgedAll(old(View()), ids, failing, Cutoff(at, trashDays), backupsKeep, at)
      ensures var cutoff := Cutoff(at, trashDays);
              ended == |EndedOf(old(View()), WithEnded(old(View()), cutoff) - failing, cutoff)|
      ensures forall v :: v in versions ==>
                && v in old(versions)
                && versions[v] == if v.0 !in failing && v.0 in plans && old(versions)[v].checkpointDeletedAt.Some?
                                     && old(versions)[v].checkpointDeletedAt.value + trashDays * 86_400_000_000 <= at
                                  then old(versions)[v].(checkpoint := "", checkpointDeletedAt := None)
                                  else old(versions)[v]
    {
      var cutoff := Cutoff(at, trashDays);
      ghost var t := View();
      ids := Rows(WithEnded(View(), cutoff));
      ended := 0;
      CountStarts(t, ids, failing, cutoff);
      hide PurgedCheckpoints, EndedIn, EndedOf;
      for i := 0 to |ids|
        invariant View() == PurgedAll(t, ids[..i], failing, cutoff, backupsKeep, at)
        invariant plans == t.plans && ended == |EndedOf(t, Elements(ids[..i]) - failing, cutoff)|
        invariant forall k :: i <= k < |ids| ==> EndedIn(View(), ids[k], cutoff) == EndedIn(t, ids[k], cutoff)
      {
        assert ids[..i + 1][..i] == ids[..i];
        CountNext(t, ids, i, failing, cutoff);
        if ids[i] !in failing {
          OthersStayEnded(View(), ids, i, cutoff, backupsKeep, at);
          var count := PurgeCheckpointsOf(ids[i], cutoff, at);
          ended := ended + count;
        }
      }
      assert ids[..|ids|] == ids;
      EndsByDate(t, ids, failing, at, trashDays, backupsKeep);
      AllWithEnded(t, ids, at, trashDays);
    }

    /**
     * Empties what is due out of Trash: plans first, which takes the rest of theirs with them. A
     * part that fails leaves what it would have removed, and the others go on.
     */
    method PurgeTrash(at: Time, trashDays: nat, plansFail: bool, failing: set<int>, resultsFail: bool)
        returns (plans_: seq<int>, ended: seq<int>, touched: seq<int>, checkpoints: nat, purged: nat)
      requires Linked(View())
      modifies `plans, `versions, `results, `exports, `jobs, `garbage, `stamps, `clock
      ensures var cutoff := Cutoff(at, trashDays);
              var t1 := if plansFail then old(View()) else PurgedPlans(old(View()), cutoff, plans_, at);
              var t2 := PurgedAll(t1, ended, failing, cutoff, backupsKeep, at);
              && View() == (if resultsFail then t2 else PurgedResults(t2, cutoff, touched, at))
              && (if plansFail then plans_ == [] else Lists(plans_, DuePlans(old(View()), cutoff)))
              && Lists(ended, WithEnded(t1, cutoff))
              && (resultsFail || Lists(touched, Touched(t2, DueResults(t2, cutoff))))
              && checkpoints == |EndedOf(t1, WithEnded(t1, cutoff) - failing, cutoff)|
              && purged == if resultsFail then 0 else |DueResults(t2, cutoff)|
      ensures forall p :: p in plans <==>
                p in old(plans) && (plansFail || old(plans)[p].deletedAt == None
                                    || old(plans)[p].deletedAt.value + trashDays * 86_400_000_000 > at)
      ensures forall v :: v in versions ==>
                && v in old(versions)
                && versions[v] == if v.0 !in failing && v.0 in plans && old(versions)[v].checkpointDeletedAt.Some?
                                     && old(versions)[v].checkpointDeletedAt.value + trashDays * 86_400_000_000 <= at
                                  then old(versions)[v].(checkpoint := "", checkpointDeletedAt := None)
                                  else old(versions)[v]
      ensures forall r :: r in results ==>
                && r in old(results) && results[r] == old(results)[r]
                && (|| resultsFail || results[r].deletedAt == None
                    || results[r].deletedAt.value + trashDays * 86_400_000_000 > at
                    || (r != 0 && exists j :: j in jobs && jobs[j].open && jobs[j].sourceResult == r))
      ensures forall r :: (r in old(results) && old(results)[r].plan in plans
                           && (old(results)[r].job in jobs || old(results)[r].job !in old(jobs))
                           && (|| old(results)[r].deletedAt == None
                               || old(results)[r].deletedAt.value + trashDays * 86_400_000_000 > at)) ==> r in results
    {
      hide Lists, PurgedPlans, PurgedAll, PurgedResults, Linked, EndedOf, WithEnded, DueResults;
      plans_ := [];
      if !plansFail {
        plans_ := Purge(at, trashDays);
      }
      checkpoints, ended := PurgeCheckpoints(at, trashDays, failing);
      if resultsFail {
        return plans_, ended, [], checkpoints, 0;
      }
      purged, touched := PurgeResults(at, trashDays);
    }

    // ---------------------------------------------------- single-row edits

    /** A row is edited and stamped together, or neither. */
    method ChangePlan(p: int, edit: PlanEdit, at: Time) returns (o: Outcome<Plan>)
      modifies `plans, `stamps, `clock
      ensures View() == PlanEdited(old(View()), p, edit, at)
      ensures o.Err? ==> o == Err(NotFound) && View() == old(View())
      ensures o.Ok? ==> p in plans && plans[p] == o.value
      ensures o.Ok? <==> p in old(plans) && match edit
                case RestorePlan(asOwner) => old(plans)[p].owner == asOwner
                case Update(name, year, backups, keep) =>
                  old(plans)[p].deletedAt == None && (name != None || year != None || backups != None || keep != None)
                case _ => old(plans)[p].deletedAt == None
    {
      if p !in plans || EditedPlan(plans[p], edit, at).None? {
        return Err(NotFound);
      }
      plans := plans[p := EditedPlan(plans[p], edit, at).value];
      StampParts([(p, Project)]);
      return Ok(plans[p]);
    }

    method ChangeVersion(v: (int, int), edit: VersionEdit, at: Time) returns (o: Outcome<Version>)
      modifies `versions, `stamps, `clock
      ensures View() == VersionEdited(old(View()), v, edit, at)
      ensures o.Err? ==> o == Err(NoVersion) && View() == old(View())
      ensures o.Ok? ==> v in versions && versions[v] == o.value
      ensures o.Ok? <==> v in old(versions) && match edit
                case NameCheckpoint(name) => name != ""
                case RestoreCheckpoint => old(versions)[v].checkpoint != ""
                case DeleteCheckpoint =>
                  old(versions)[v].checkpoint != "" && old(versions)[v].checkpointDeletedAt == None
    {
      if v !in versions || EditedVersion(versions[v], edit, at).None? {
        return Err(NoVersion);
      }
      versions := versions[v := EditedVersion(versions[v], edit, at).value];
      StampParts([(v.0, Versions)]);
      return Ok(versions[v]);
    }

    method ChangeResult(p: int, r: int, edit: ResultEdit, at: Time) returns (o: Outcome<Result>)
      modifies `results, `stamps, `clock
      ensures View() == ResultEdited(old(View()), p, r, edit, at)
      ensures o.Err? ==> o == Err(NoResult) && View() == old(View())
      ensures o.Ok? ==> r in results && results[r] == o.value
      ensures o.Ok? <==> r in old(results) && old(results)[r].plan == p && match edit
                case RestoreResult => true
                case TrashResult => old(results)[r].deletedAt == None
                case Change(name, pinned) => old(results)[r].deletedAt == None && (name != None || pinned != None)
    {
      if r !in results || results[r].plan != p || EditedResult(results[r], edit, at).None? {
        return Err(NoResult);
      }
      results := results[r := EditedResult(results[r], edit, at).value];
      StampParts([(p, Part.Results)]);
      return Ok(results[r]);
    }

    // ------------------------------------------------- new plans and files

    method Create(id: int, plan: Plan, first: Version)
      modifies `plans, `versions, `stamps, `clock
      ensures View() == Born(old(View()), id, plan, first)
    {
      plans := plans[id := plan];
      versions := versions[(id, 1) := first];
      StampParts([(id, Project), (id, Versions)]);
    }

    /** The version asked for, or the newest. */
    method ChosenVersion(origin: int, version: int) returns (number: int)
      ensures number == ForkedNumber(View(), origin, version)
    {
      number := version;
      if number == 0 {
        var newest := Newest(Numbers(View(), origin));
        number := newest.GetOr(0);
      }
    }

    /** An own copy of one version of a live plan, over the same stored object. */
    method Fork(id: int, origin: int, version: int, owner: string, name: string, at: Time) returns (o: Outcome<int>)
      modifies `plans, `versions, `garbage, `stamps, `clock
      ensures View() == Forked(old(View()), Op.Fork(id, origin, version, owner, name), at)
      ensures o.Err? ==> View() == old(View())
      ensures o == Err(NotFound) <==> !old(Live(View(), origin))
      ensures o.Ok? ==> o.value == id && (id, 1) in versions
    {
      hide Born, Revived, Copied, Numbers, IsMax, MaxOf, ForkedNumber;
      ghost var t := View();
      if !Live(View(), origin) {
        return Err(NotFound);
      }
      var source := plans[origin];
      var number := ChosenVersion(origin, version);
      var from := (origin, number);
      var saved := garbage;
      if from in versions {
        Revive(versions[from].key, at);
      }
      if from !in versions {
        garbage := saved;
        return Err(NoVersion);
      }
      var plan := Plan(owner, name, source.schoolYear, at, at, None, 0, 0, Some(from));
      var first := Copied(versions[from], owner, at);
      Create(id, plan, first);
      BornHasFirst(t.(garbage := garbage), id, plan, first);
      o := Ok(id);
    }

    /** Records a built file, while what it was built from is still the plan's. */
    method KeepExport(key: Key, e: Export) returns (o: Outcome<Key>)
      modifies `exports
      ensures View() == WithExport(old(View()), key, e)
      ensures o == if HasSource(View(), e) then Ok(key) else Err(if e.source.OfVersion? then NoVersion else NoResult)
    {
      var missing := if e.source.OfVersion? then NoVersion else NoResult;
      var found := match e.source
        case OfVersion(v) => |set id | id in versions && id == (e.plan, v)|
        case OfResult(r) => |set q | q in results && q == r && results[q].plan == e.plan|;
      SourceByCount(View(), e);
      if found == 0 {
        return Err(missing);
      }
      exports := exports[key := e];
      return Ok(key);
    }
  }

  /** A day, in the microseconds the index stores. */
  const DAY: int := 86_400_000_000

  function Cutoff(at: Time, trashDays: nat): Time {
    at - trashDays * DAY
  }

  /** What deleting plan rows takes with it, the list of waiting keys apart. */
  function Cascade(t: Tables, ps: set<int>): Tables {
    t.(plans := t.plans - ps,
       versions := t.versions - VersionsIn(t, ps),
       results := t.results - CascadedResults(t, ps),
       exports := t.exports - CascadedExports(t, ps),
       jobs := t.jobs - JobsIn(t, ps))
  }

  lemma CascadeStarts(u: Tables, t: Tables, ps: set<int>, at: Time)
    requires u == t.(garbage := Record(t.garbage, VersionKeys(t, VersionsIn(t, ps)) + ResultKeys(t, ResultsIn(t, ps))
                                                  + ExportsIn(t, ps), at))
    ensures Cascade(u, {}) == u && Cascade(u, ps) == RemovePlans(t, ps, at)
    ensures Elements<int>([]) == {}
  {
    CascadeOfNone(u);
    hide Record, VersionKeys, ResultKeys;
  }

  lemma CascadeOfNone(u: Tables)
    ensures Cascade(u, {}) == u
  {
  }

  lemma CascadeNext(u: Tables, due: seq<int>, i: nat)
    requires i < |due|
    ensures Cascade(Cascade(u, Elements(due[..i])), {due[i]}) == Cascade(u, Elements(due[..i + 1]))
  {
    assert Elements(due[..i]) + {due[i]} == Elements(due[..i + 1]);
    hide Cascade;
    CascadeTwice(u, Elements(due[..i]), {due[i]});
  }

  lemma CascadeTwice(u: Tables, a: set<int>, b: set<int>)
    ensures Cascade(Cascade(u, a), b) == Cascade(u, a + b)
  {
    var v := Cascade(u, a);
    CascadedRowsTwice(u, a, b);
    CascadedExportsTwice(u, a, b);
    hide CascadedResults, CascadedExports, VersionsIn, JobsIn;
    MinusTwice(u.plans, a, b);
    MinusTwice(u.versions, VersionsIn(u, a), VersionsIn(v, b));
    MinusTwice(u.results, CascadedResults(u, a), CascadedResults(v, b));
    MinusTwice(u.exports, CascadedExports(u, a), CascadedExports(v, b));
    MinusTwice(u.jobs, JobsIn(u, a), JobsIn(v, b));
  }

  lemma CascadedRowsTwice(u: Tables, a: set<int>, b: set<int>)
    ensures var v := Cascade(u, a);
            && VersionsIn(u, a) + VersionsIn(v, b) == VersionsIn(u, a + b)
            && JobsIn(u, a) + JobsIn(v, b) == JobsIn(u, a + b)
            && CascadedResults(u, a) + CascadedResults(v, b) == CascadedResults(u, a + b)
  {
  }

  lemma CascadedExportsTwice(u: Tables, a: set<int>, b: set<int>)
    ensures CascadedExports(u, a) + CascadedExports(Cascade(u, a), b) == CascadedExports(u, a + b)
  {
    CascadedRowsTwice(u, a, b);
    var v := Cascade(u, a);
    hide CascadedResults, JobsIn, VersionsIn;
    forall k ensures k in CascadedExports(u, a) + CascadedExports(v, b) <==> k in CascadedExports(u, a + b) {
      var files, more := ExportKeys(u, VersionsIn(u, a), CascadedResults(u, a)), VersionsIn(u, a + b);
      assert k in u.exports && k !in CascadedExports(u, a) ==> k in v.exports;
    }
  }

  lemma BornNames(t: Tables, id: int, plan: Plan, first: Version)
    requires (id, 1) !in t.versions
    ensures Named(Born(t, id, plan, first)) == Named(t) + {first.key}
  {
    var u := Born(t, id, plan, first);
    assert (id, 1) in u.versions && u.versions[(id, 1)] == first;
    forall v | v in t.versions ensures v in u.versions && u.versions[v] == t.versions[v] {}
    assert (set v | v in u.versions :: u.versions[v].key)
        == (set v | v in t.versions :: t.versions[v].key) + {first.key};
    assert u.results == t.results && u.exports == t.exports;
  }

  /** A fork of a plan names no object that was not named before it. */
  lemma ForkSharesObject(t: Tables, op: Op, at: Time)
    requires op.Fork? && (op.id, 1) !in t.versions
    ensures Named(Forked(t, op, at)) == Named(t)
  {
    hide Named, ForkedNumber, Born, Revived;
    var from := (op.origin, ForkedNumber(t, op.origin, op.version));
    if Live(t, op.origin) && from in t.versions {
      var u := t.(garbage := Revived(t.garbage, t.versions[from].key, at));
      var plan := Plan(op.owner, op.name, t.plans[op.origin].schoolYear, at, at, None, 0, 0, Some(from));
      BornNames(u, op.id, plan, Copied(t.versions[from], op.owner, at));
      NamedByRows(u, t);
      VersionIsNamed(t, from);
      assert Named(t) + {t.versions[from].key} == Named(t);
    }
  }

  /**
   * What a fork is: one version over the origin's object with its dates and school year, and none of its other
   * versions, checkpoints, results, jobs or caps. It records its origin, and every row there was stays as it was.
   */
  lemma ForkCopiesOneVersion(t: Tables, op: Op, at: Time, number: int)
    requires op.Fork? && Linked(t) && op.id !in t.plans && op.origin in t.plans && (op.origin, number) in t.versions
    requires t.plans[op.origin].deletedAt == None
    requires if op.version != 0 then number == op.version
             else forall v :: v in t.versions && v.0 == op.origin ==> v.1 <= number
    ensures var (u, source) := (Forked(t, op, at), t.versions[(op.origin, number)]);
            && op.id in u.plans
            && u.plans[op.id] == Plan(op.owner, op.name, t.plans[op.origin].schoolYear, at, at, None, 0, 0,
                                      Some((op.origin, number)))
            && (forall v :: v in u.versions && v.0 == op.id ==> v.1 == 1) && (op.id, 1) in u.versions
            && u.versions[(op.id, 1)]
               == Version(0, source.key, at, op.owner, source.validFrom, source.validTo, "", "", None)
            && (forall p :: p in t.plans ==> p in u.plans && u.plans[p] == t.plans[p])
            && (forall id :: id in t.versions ==> id in u.versions && u.versions[id] == t.versions[id])
            && u.results == t.results && u.jobs == t.jobs && u.exports == t.exports
            && (forall r :: r in u.results ==> u.results[r].plan != op.id)
            && (forall j :: j in u.jobs ==> u.jobs[j].plan != op.id)
            && (source.key in t.garbage ==> u.garbage == t.garbage[source.key := at])
            && (source.key !in t.garbage ==> u.garbage == t.garbage)
  {
    hide Upserts;
    if op.version == 0 {
      NewestIsMax(t, op.origin, number);
    }
    var u := Forked(t, op, at);
    assert ForkedNumber(t, op.origin, op.version) == number;
    assert forall v :: v in t.versions ==> v.0 != op.id;
  }

  lemma VersionIsNamed(t: Tables, id: (int, int))
    requires id in t.versions
    ensures t.versions[id].key in Named(t)
  {
  }

  lemma BornHasFirst(t: Tables, id: int, plan: Plan, first: Version)
    ensures (id, 1) in Born(t, id, plan, first).versions && Born(t, id, plan, first).versions[(id, 1)] == first
  {
  }

  /** `delete ... returning plan_id`, row by row. */
  lemma ReturningStarts(t: Tables, rows: seq<int>, due: set<int>)
    requires Lists(rows, due)
    ensures Elements(rows[..0]) == {} && Touched(t, Elements(rows[..0])) == {} && Elements(rows[..|rows|]) == due
  {
  }

  lemma ReturningNext(t: Tables, rows: seq<int>, due: set<int>, i: nat)
    requires i < |rows| && Lists(rows, due) && due <= t.results.Keys
    ensures rows[i] in t.results && |Elements(rows[..i + 1])| == |Elements(rows[..i])| + 1
    ensures Touched(t, Elements(rows[..i + 1])) == Touched(t, Elements(rows[..i])) + {t.results[rows[i]].plan}
  {
    assert rows[i] in rows && rows[i] !in rows[..i];
    assert Elements(rows[..i + 1]) == Elements(rows[..i]) + {rows[i]};
  }

  lemma StillDuePlan(u: Tables, due: seq<int>, i: nat, cutoff: Time)
    requires i < |due| && Lists(due, DuePlans(u, cutoff))
    ensures due[i] in DuePlans(Cascade(u, Elements(due[..i])), cutoff)
  {
    assert due[i] in due && due[i] !in due[..i];
  }

  /** The plans that have a checkpoint whose time in Trash is up. */
  function WithEnded(t: Tables, cutoff: Time): set<int> {
    set id | id in t.versions && Ended(t.versions[id], cutoff) :: id.0
  }

  ghost function PurgedAll(t: Tables, ids: seq<int>, failing: set<int>, cutoff: Time, default: nat, at: Time): Tables
    decreases |ids|
  {
    if ids == [] then t
    else
      var before := PurgedAll(t, ids[..|ids| - 1], failing, cutoff, default, at);
      var p := ids[|ids| - 1];
      if p in failing then before else PurgedCheckpoints(before, p, cutoff, default, at)
  }

  lemma EndsOfOne(t: Tables, p: int, cutoff: Time, default: nat, at: Time)
    ensures var u := PurgedCheckpoints(t, p, cutoff, default, at);
            && u.plans == t.plans && u.results == t.results && u.jobs == t.jobs
            && forall v :: v in u.versions ==>
                 && v in t.versions
                 && u.versions[v] == if v.0 == p && p in t.plans && Ended(t.versions[v], cutoff)
                                     then t.versions[v].(checkpoint := "", checkpointDeletedAt := None)
                                     else t.versions[v]
  {
    hide Trimmed, Stamp, RemoveVersions, KeepFor;
    EndedHasNumber(t, p, cutoff);
    if EndedIn(t, p, cutoff) != {} && p in t.plans {
      var plain := Unnamed(t, p, cutoff);
      var gone := Trimmed(plain, p, MaxOf(Numbers(t, p)), KeepFor(t.plans[p].backupsKeep, default));
      TrimTouches(plain, gone, at);
      StampOne(RemoveVersions(plain, gone, at), (p, Versions));
    } else {
      assert forall v :: v in t.versions && v.0 == p && p in t.plans ==> v !in EndedIn(t, p, cutoff);
    }
  }

  lemma AllWithEnded(t: Tables, ids: seq<int>, at: Time, trashDays: nat)
    requires Lists(ids, WithEnded(t, Cutoff(at, trashDays)))
    ensures forall v :: (v in t.versions && t.versions[v].checkpointDeletedAt.Some?
                         && t.versions[v].checkpointDeletedAt.value + trashDays * 86_400_000_000 <= at) ==> v.0 in ids
  {
  }

  /** Which checkpoints lose their names, by the dates of their rows; nothing else of any row changes. */
  lemma {:induction false} EndsByDate(t: Tables, ids: seq<int>, failing: set<int>, at: Time, trashDays: nat,
                                      default: nat)
    requires forall i, j :: 0 <= i < j < |ids| ==> ids[i] != ids[j]
    ensures var u := PurgedAll(t, ids, failing, Cutoff(at, trashDays), default, at);
            && u.plans == t.plans && u.results == t.results && u.jobs == t.jobs
            && forall v :: v in u.versions ==>
                 && v in t.versions
                 && u.versions[v] == if v.0 in ids && v.0 !in failing && v.0 in t.plans
                                        && t.versions[v].checkpointDeletedAt.Some?
                                        && t.versions[v].checkpointDeletedAt.value + trashDays * 86_400_000_000 <= at
                                     then t.versions[v].(checkpoint := "", checkpointDeletedAt := None)
                                     else t.versions[v]
    decreases |ids|
  {
    hide PurgedCheckpoints;
    if ids != [] {
      var n := |ids| - 1;
      EndsByDate(t, ids[..n], failing, at, trashDays, default);
      var before := PurgedAll(t, ids[..n], failing, Cutoff(at, trashDays), default, at);
      EndsOfOne(before, ids[n], Cutoff(at, trashDays), default, at);
      assert ids == ids[..n] + [ids[n]];
    }
  }

  /** The checkpoints of these plans whose time in Trash is up. */
  function EndedOf(t: Tables, ps: set<int>, cutoff: Time): set<(int, int)> {
    set id | id in t.versions && id.0 in ps && id.0 in t.plans && Ended(t.versions[id], cutoff)
  }

  lemma EndedHasNumber(t: Tables, p: int, cutoff: Time)
    ensures Numbers(t, p) == {} ==> EndedIn(t, p, cutoff) == {}
  {
    if EndedIn(t, p, cutoff) != {} {
      var id := Member(EndedIn(t, p, cutoff));
      assert id.1 in Numbers(t, p);
    }
  }

  lemma CountStarts(t: Tables, ids: seq<int>, failing: set<int>, cutoff: Time)
    requires Lists(ids, WithEnded(t, cutoff))
    ensures EndedOf(t, Elements(ids[..0]) - failing, cutoff) == {}
    ensures Elements(ids[..|ids|]) == WithEnded(t, cutoff)
  {
  }

  lemma CountNext(t: Tables, ids: seq<int>, i: nat, failing: set<int>, cutoff: Time)
    requires i < |ids| && forall a, b :: 0 <= a < b < |ids| ==> ids[a] != ids[b]
    ensures |EndedOf(t, Elements(ids[..i + 1]) - failing, cutoff)|
            == |EndedOf(t, Elements(ids[..i]) - failing, cutoff)|
               + if ids[i] in failing || ids[i] !in t.plans then 0 else |EndedIn(t, ids[i], cutoff)|
  {
    hide EndedOf, EndedIn;
    var p, before, after := ids[i], Elements(ids[..i]), Elements(ids[..i + 1]);
    assert ids[..i + 1] == ids[..i] + [p] && p !in ids[..i];
    if p in failing {
      assert after - failing == before - failing;
    } else {
      assert after - failing == before - failing + {p};
      EndedOfOneMore(t, before - failing, p, cutoff);
    }
  }

  lemma EndedOfOneMore(t: Tables, ps: set<int>, p: int, cutoff: Time)
    requires p !in ps
    ensures |EndedOf(t, ps + {p}, cutoff)|
            == |EndedOf(t, ps, cutoff)| + if p in t.plans then |EndedIn(t, p, cutoff)| else 0
  {
    hide Ended;
    var more := if p in t.plans then EndedIn(t, p, cutoff) else {};
    assert EndedOf(t, ps + {p}, cutoff) == EndedOf(t, ps, cutoff) + more;
    assert EndedOf(t, ps, cutoff) !! more;
  }

  /** Ending one plan's checkpoints leaves those of the plans still to come. */
  lemma OthersStayEnded(t: Tables, ids: seq<int>, i: nat, cutoff: Time, default: nat, at: Time)
    requires i < |ids| && forall a, b :: 0 <= a < b < |ids| ==> ids[a] != ids[b]
    ensures PurgedCheckpoints(t, ids[i], cutoff, default, at).plans == t.plans
    ensures forall k :: i < k < |ids| ==>
              EndedIn(PurgedCheckpoints(t, ids[i], cutoff, default, at), ids[k], cutoff) == EndedIn(t, ids[k], cutoff)
  {
  }

  lemma UnnamedKeeps(t: Tables, p: int, cutoff: Time)
    ensures Unnamed(t, p, cutoff) == t.(versions := Unnamed(t, p, cutoff).versions)
    ensures Numbers(Unnamed(t, p, cutoff), p) == Numbers(t, p)
  {
  }

  lemma SourceByCount(t: Tables, e: Export)
    ensures e.source.OfVersion? ==>
              (HasSource(t, e) <==> |set id | id in t.versions && id == (e.plan, e.source.version)| != 0)
    ensures e.source.OfResult? ==>
              (HasSource(t, e) <==> |set q | q in t.results && q == e.source.id && t.results[q].plan == e.plan| != 0)
  {
    match e.source
    case OfVersion(v) =>
      var found := set id | id in t.versions && id == (e.plan, v);
      if found != {} { var id := Member(found); }
      if HasSource(t, e) { assert (e.plan, v) in found; }
    case OfResult(r) =>
      var found := set q | q in t.results && q == r && t.results[q].plan == e.plan;
      if found != {} { var q := Member(found); }
      if HasSource(t, e) { assert r in found; }
  }

  function WithResultKey(t: Tables, p: int, uploadKey: string): set<int> {
    set r | r in t.results && t.results[r].plan == p && uploadKey != "" && t.results[r].uploadKey == uploadKey
  }

  lemma ResultKeyByRows(t: Tables, p: int, uploadKey: string)
    ensures ResultKeyTaken(t, p, uploadKey) <==> WithResultKey(t, p, uploadKey) != {}
  {
    var found := WithResultKey(t, p, uploadKey);
    if found != {} { var r := Member(found); }
    if ResultKeyTaken(t, p, uploadKey) {
      var r :| r in t.results && t.results[r].plan == p && t.results[r].uploadKey == uploadKey;
      assert r in found;
    }
  }

  lemma RetainedOrGone(t: Tables, r: int, gone: set<int>, at: Time)
    requires r in t.results
    ensures r in RemoveResults(t, gone, at).results <==> r !in gone
  {
  }

  lemma StoredResult(t: Tables, r: int, row: Result, default: nat, at: Time)
    requires r !in t.results
    ensures r in WithResult(t, r, row, default, at).results ==> WithResult(t, r, row, default, at).results[r] == row
  {
  }

  /** The listed results no open solve reads. */
  function UnreadOf(t: Tables, listed: seq<int>): set<int> {
    set r | r in listed && !SolvingResult(t, r)
  }

  lemma UnreadEnds(t: Tables, beyond: seq<int>)
    ensures UnreadOf(t, beyond[..0]) == {} && beyond[..|beyond|] == beyond
  {
  }

  lemma UnreadNext(t: Tables, beyond: seq<int>, i: nat, at: Time)
    requires i < |beyond|
    ensures var u := RemoveResults(t, UnreadOf(t, beyond[..i]), at);
            RemoveResults(t, UnreadOf(t, beyond[..i + 1]), at)
            == if SolvingResult(t, beyond[i]) then u else RemoveResults(u, {beyond[i]}, at)
  {
    var before := UnreadOf(t, beyond[..i]);
    assert beyond[..i + 1] == beyond[..i] + [beyond[i]];
    if SolvingResult(t, beyond[i]) {
      assert UnreadOf(t, beyond[..i + 1]) == before;
    } else {
      assert UnreadOf(t, beyond[..i + 1]) == before + {beyond[i]};
      hide RemoveResults;
      RemoveResultsTwice(t, before, {beyond[i]}, at);
    }
  }

  /** Past the first `keep` rows of the listing is at least `keep` newer ones. */
  lemma BeyondTheCap(t: Tables, p: int, keep: nat, listed: seq<int>)
    requires Lists(listed, Counted(t, p))
    requires forall a, b :: 0 <= a < b < |listed| ==> NewerIn(t)(listed[a], listed[b])
    ensures var start := if keep < |listed| then keep else |listed|;
            UnreadOf(t, listed[start..]) == TrimmedResults(t, p, keep)
  {
    var start := if keep < |listed| then keep else |listed|;
    ResultOrderIsStrict(t, p);
    forall r ensures r in listed[start..] <==> r in Counted(t, p) && |NewerCounted(t, p, r)| >= keep {
      if r in Counted(t, p) {
        assert r in listed;
        var i :| 0 <= i < |listed| && listed[i] == r;
        ListedAhead(Counted(t, p), listed, i, NewerIn(t));
        if i >= start { assert listed[start..][i - start] == r; }
      }
      if r in listed[start..] {
        var k :| 0 <= k < |listed[start..]| && listed[start..][k] == r;
        assert listed[start + k] == r && r in listed;
        ListedAhead(Counted(t, p), listed, start + k, NewerIn(t));
      }
    }
  }

  lemma RemoveResultsTwice(t: Tables, a: set<int>, b: set<int>, at: Time)
    ensures RemoveResults(RemoveResults(t, a, at), b, at) == RemoveResults(t, a + b, at)
  {
    var u := RemoveResults(t, a, at);
    var filesA, filesB, files := ExportKeys(t, {}, a), ExportKeys(u, {}, b), ExportKeys(t, {}, a + b);
    assert filesA + filesB == files;
    assert (ResultKeys(t, a) + filesA) + (ResultKeys(u, b) + filesB) == ResultKeys(t, a + b) + files;
    RecordTwice(t.garbage, ResultKeys(t, a) + filesA, ResultKeys(u, b) + filesB, at);
    assert t.results - a - b == t.results - (a + b);
    assert t.exports - filesA - filesB == t.exports - files;
  }

  ghost function CurrentOf(t: Tables, p: int): int {
    if Numbers(t, p) == {} then 0 else MaxOf(Numbers(t, p))
  }

  /** What a send that inserted nothing is answered: the earlier send of it, who saved first, or what broke. */
  ghost predicate NotInserted(t: Tables, u: Upload, broken: bool, unread: Option<Lookup>, r: Outcome<int>) {
    if unread == Some(ForKeyAgain) && u.uploadKey != "" then r == Err(Broken)
    else if UploadKeyTaken(t, u.plan, u.uploadKey) then (r.Ok? && Stores(t, u, r.value)) || r == Err(Reused)
    else if unread != Some(ForNewest) && Live(t, u.plan) && (!broken || CurrentOf(t, u.plan) > u.parent)
    then r == Err(Conflict(CurrentOf(t, u.plan)))
    else r == Err(if broken then Broken else Refused)
  }

  /** The earlier send of an upload, or that its key was used for something else. */
  ghost predicate Replayed(t: Tables, u: Upload, r: Outcome<int>) {
    if r.Ok? then Stores(t, u, r.value)
    else
      r == Err(Reused)
      && exists v :: v in t.versions && v.0 == u.plan && t.versions[v].uploadKey == u.uploadKey
                     && (t.versions[v].key != u.key || t.versions[v].parent != u.parent)
  }

  /** What `AddVersion` leaves of the tables as they were, and what it answers. */
  ghost predicate Answered(was: Tables, elsewhere: Tables, u: Upload, at: Time, default: nat, broken: bool,
                           unread: Option<Lookup>, now: Tables, r: Outcome<int>, tried: bool) {
    if Malformed(u).Some? then !tried && now == was && r == Err(Malformed(u).value)
    else if BreaksEarly(was, u, unread) then !tried && now == was && r == Err(Broken)
    else if !Live(was, u.plan) then !tried && now == was && r == Err(NotFound)
    else if UploadKeyTaken(was, u.plan, u.uploadKey) then !tried && now == was && Replayed(was, u, r)
    else
      var row := RowOf(was, u, at);
      var keep := KeepFor(was.plans[u.plan].backupsKeep, default);
      && tried && now == (if broken then elsewhere else VersionInserted(elsewhere, u.plan, row, keep, at))
      && if !broken && u.plan in elsewhere.plans && Accepts(elsewhere, u.plan, row) then r == Ok(u.parent + 1)
         else now == elsewhere && NotInserted(elsewhere, u, broken, unread, r)
  }

  /**
   * The upload in words, when nothing it reads breaks: a malformed one is refused for the first thing wrong with it,
   * one for a plan that is not there, or in Trash, is not found, and one whose upload key the plan has seen stores
   * nothing. Any other gets as far as the insert.
   */
  lemma UploadInWords(was: Tables, elsewhere: Tables, u: Upload, at: Time, default: nat, broken: bool, now: Tables,
                      r: Outcome<int>, tried: bool)
    requires Answered(was, elsewhere, u, at, default, broken, None, now, r, tried)
    ensures var fits := 16 <= |u.uploadKey| <= 64 && forall i :: 0 <= i < |u.uploadKey| ==>
                          || 'A' <= u.uploadKey[i] <= 'Z' || 'a' <= u.uploadKey[i] <= 'z'
                          || '0' <= u.uploadKey[i] <= '9' || u.uploadKey[i] in "_-";
            var seen := set v | v in was.versions && v.0 == u.plan && was.versions[v].uploadKey == u.uploadKey;
            if u.key == "" then r == Err(NeedsKey) && !tried && now == was
            else if u.parent < 1 then r == Err(NeedsParent) && !tried && now == was
            else if u.uploadKey != "" && !fits then r == Err(BadUploadKey) && !tried && now == was
            else if u.plan !in was.plans || was.plans[u.plan].deletedAt != None then
              r == Err(NotFound) && !tried && now == was
            else if u.uploadKey != "" && seen != {} then
              && !tried && now == was
              && (if r.Err? then r == Err(Reused) else (u.plan, r.value) in seen)
              && forall v :: v in seen && (forall w :: w in seen ==> w == v) ==>
                   (r == Ok(v.1) <==> was.versions[v].key == u.key && was.versions[v].parent == u.parent)
            else tried
  {
    hide VersionInserted, RowOf, Malformed, NotInserted, Accepts;
    MalformedInWords(u);
    var seen := set v | v in was.versions && v.0 == u.plan && was.versions[v].uploadKey == u.uploadKey;
    assert forall v :: v in seen ==> v == (u.plan, v.1);
    if UploadKeyTaken(was, u.plan, u.uploadKey) {
      var v :| v in was.versions && v.0 == u.plan && was.versions[v].uploadKey == u.uploadKey;
      assert v in seen;
      if Malformed(u).None? && Live(was, u.plan) && r.Err? {
        var w :| w in was.versions && w.0 == u.plan && was.versions[w].uploadKey == u.uploadKey
                 && (was.versions[w].key != u.key || was.versions[w].parent != u.parent);
        assert w in seen;
      }
    } else if u.uploadKey != "" {
      assert seen == {};
    }
  }

  /** A read that breaks, when this upload needs it, stores nothing and says so; the others change nothing before it. */
  lemma BrokenReadInWords(was: Tables, elsewhere: Tables, u: Upload, at: Time, default: nat, broken: bool,
                          unread: Lookup, now: Tables, r: Outcome<int>, tried: bool)
    requires Answered(was, elsewhere, u, at, default, broken, Some(unread), now, r, tried)
    requires Malformed(u) == None
    ensures var live := u.plan in was.plans && was.plans[u.plan].deletedAt == None;
            var seen := u.uploadKey != ""
                        && exists v :: v in was.versions && v.0 == u.plan && was.versions[v].uploadKey == u.uploadKey;
            if unread == ForPlan || (live && unread == ForKey && u.uploadKey != "") then
              r == Err(Broken) && !tried && now == was
            else if !live then r == Err(NotFound) && !tried && now == was
            else if seen then (r.Ok? || r == Err(Reused)) && !tried && now == was
            else if unread == ForDates && (u.validFrom == None || u.validTo == None) then
              r == Err(Broken) && !tried && now == was
            else tried
  {
    hide VersionInserted, RowOf, NotInserted, Accepts, Malformed;
  }

  lemma CurrentInWords(t: Tables, p: int, newest: int)
    requires (newest == 0 && forall v :: v in t.versions ==> v.0 != p)
             || ((p, newest) in t.versions && forall v :: v in t.versions && v.0 == p ==> v.1 <= newest)
    ensures CurrentOf(t, p) == newest
  {
    if (p, newest) in t.versions {
      NewestIsMax(t, p, newest);
    } else {
      assert Numbers(t, p) == {};
    }
  }

  /** When the insert takes effect, in words: exactly after the newest version, under an upload key that is new. */
  lemma AcceptsInWords(was: Tables, t: Tables, u: Upload, at: Time, newest: int)
    requires u.parent >= 1
    requires (newest == 0 && forall v :: v in t.versions ==> v.0 != u.plan)
             || ((u.plan, newest) in t.versions && forall v :: v in t.versions && v.0 == u.plan ==> v.1 <= newest)
    ensures var seen := set v | v in t.versions && v.0 == u.plan && t.versions[v].uploadKey == u.uploadKey;
            && (UploadKeyTaken(t, u.plan, u.uploadKey) <==> u.uploadKey != "" && seen != {})
            && (seen == {} <==> forall v :: v in t.versions && v.0 == u.plan ==> t.versions[v].uploadKey != u.uploadKey)
            && (Accepts(t, u.plan, RowOf(was, u, at)) <==> newest == u.parent && (u.uploadKey == "" || seen == {}))
  {
    var seen := set v | v in t.versions && v.0 == u.plan && t.versions[v].uploadKey == u.uploadKey;
    assert forall v :: v in t.versions && v.0 == u.plan ==>
                         (v in seen <==> t.versions[v].uploadKey == u.uploadKey);
    if seen != {} {
      assert Member(seen) in t.versions;
    }
    if IsNewest(t, u.plan, u.parent) {
      assert newest >= u.parent;
    }
  }

  /**
   * And the insert in words, on what others left: it is stored exactly after the newest version, under an upload key
   * the plan has not seen, and otherwise nothing is, and it is told the newest version there is, 0 for none.
   */
  lemma InsertedInWords(was: Tables, elsewhere: Tables, u: Upload, at: Time, default: nat, broken: bool, now: Tables,
                        r: Outcome<int>, newest: int)
    requires Answered(was, elsewhere, u, at, default, broken, None, now, r, true)
    requires (newest == 0 && forall v :: v in elsewhere.versions ==> v.0 != u.plan)
             || ((u.plan, newest) in elsewhere.versions
                 && forall v :: v in elsewhere.versions && v.0 == u.plan ==> v.1 <= newest)
    ensures var seen := set v | v in elsewhere.versions && v.0 == u.plan
                                && elsewhere.versions[v].uploadKey == u.uploadKey;
            var unseen := u.uploadKey == "" || seen == {};
            && u.parent >= 1
            && (if !broken && u.plan in elsewhere.plans && newest == u.parent && unseen then
                  && r == Ok(u.parent + 1) && (u.plan, u.parent + 1) in now.versions
                  && now.plans == elsewhere.plans[u.plan := elsewhere.plans[u.plan].(updatedAt := at)]
                else now == elsewhere)
            && (!unseen ==> r.Ok? || r == Err(Reused))
            && ((unseen && u.plan in elsewhere.plans && elsewhere.plans[u.plan].deletedAt == None
                 && newest != u.parent && (!broken || newest > u.parent)) ==> r == Err(Conflict(newest)))
            && (unseen && broken && newest <= u.parent ==> r == Err(Broken))
  {
    hide MaxOf, VersionInserted, RowOf, Malformed, Accepts, UploadKeyTaken;
    MalformedInWords(u);
    CurrentInWords(elsewhere, u.plan, newest);
    AcceptsInWords(was, elsewhere, u, at, newest);
    InsertVersionWrites(elsewhere, u.plan, RowOf(was, u, at), KeepFor(was.plans[u.plan].backupsKeep, default), at);
    RowInWords(was, u, at);
  }

  lemma InsertGuard(t: Tables, p: int, row: Version)
    ensures Accepts(t, p, row)
            <==> (p, row.parent) in t.versions && NewerThan(t, p, row.parent) == {}
                 && WithUploadKey(t, p, row.uploadKey) == {}
  {
    var newer, sameKey := NewerThan(t, p, row.parent), WithUploadKey(t, p, row.uploadKey);
    if newer != {} { var id := Member(newer); }
    if sameKey != {} { var id := Member(sameKey); }
    if newer == {} && sameKey == {} {
      forall id | id in t.versions && id.0 == p ensures id.1 <= row.parent { assert id !in newer; }
      forall id | id in t.versions && id.0 == p && row.uploadKey != ""
        ensures t.versions[id].uploadKey != row.uploadKey
      {
        assert id !in sameKey;
      }
    }
  }

  lemma InsertedIsStored(before: Tables, t: Tables, u: Upload, keep: nat, at: Time)
    requires u.plan in t.plans && Accepts(t, u.plan, RowOf(before, u, at))
    ensures Stores(VersionInserted(t, u.plan, RowOf(before, u, at), keep, at), u, u.parent + 1)
  {
  }

  lemma InsertedOrNot(t: Tables, p: int, row: Version, keep: nat, at: Time)
    ensures VersionInserted(t, p, row, keep, at)
            == if p in t.plans && Accepts(t, p, row) then WithVersion(t, p, row, keep, at) else t
  {
  }

  /** The version just stored is never the one its own cap removes. */
  lemma NewestStays(t: Tables, p: int, row: Version, keep: nat, at: Time)
    requires p in t.plans
    ensures (p, row.parent + 1) in WithVersion(t, p, row, keep, at).versions
    ensures WithVersion(t, p, row, keep, at).versions[(p, row.parent + 1)] == row
  {
  }

  lemma NamedByCount(t: Tables, key: Key)
    ensures key in Named(t) <==> |set id | id in t.versions && t.versions[id].key == key|
                                 + |set r | r in t.results && t.results[r].key == key|
                                 + |set k | k in t.exports && k == key| > 0
  {
    var a := set id | id in t.versions && t.versions[id].key == key;
    var b := set r | r in t.results && t.results[r].key == key;
    var c := set k | k in t.exports && k == key;
    if |a| > 0 { var id := Member(a); }
    if |b| > 0 { var r := Member(b); }
    if |c| > 0 { var k := Member(c); }
    forall id | id in t.versions && t.versions[id].key == key ensures a != {} { assert id in a; }
    forall r | r in t.results && t.results[r].key == key ensures b != {} { assert r in b; }
    if key in t.exports { assert key in c; }
  }

  /** Cutting at the offset row is removing by rank. */
  lemma CutIsTrimmed(t: Tables, p: int, newest: int, keep: nat, cutoff: int)
    requires cutoff in Plain(t, p, newest) && |Above(Plain(t, p, newest), cutoff)| == keep
    ensures Cut(t, p, cutoff) == Trimmed(t, p, newest, keep) <= t.versions.Keys
  {
    var plain := Plain(t, p, newest);
    AboveIsAhead(plain, cutoff);
    forall id | id in t.versions && id.0 == p && t.versions[id].checkpoint == "" && id.1 < newest
      ensures id.1 <= cutoff <==> |Above(plain, id.1)| >= keep
    {
      assert id.1 in plain;
      AboveIsAhead(plain, id.1);
      OffsetCuts(plain, keep, cutoff, id.1, Greater());
    }
  }

  lemma NoCutTrimsNothing(t: Tables, p: int, newest: int, keep: nat)
    requires forall v :: !(v in Plain(t, p, newest) && |Above(Plain(t, p, newest), v)| == keep)
    ensures Trimmed(t, p, newest, keep) == {}
  {
    var plain := Plain(t, p, newest);
    forall v ensures !AtOffset(plain, keep, v, Greater()) { AboveIsAhead(plain, v); }
    forall id | id in Trimmed(t, p, newest, keep) ensures false {
      AboveIsAhead(plain, id.1);
      NoneAtOffset(plain, keep, id.1, Greater());
    }
  }

  lemma RemovingNothing(t: Tables, at: Time)
    ensures RemoveVersions(t, {}, at) == t && RemoveResults(t, {}, at) == t
  {
    assert ExportKeys(t, {}, {}) == {};
    assert Record(t.garbage, {}, at) == t.garbage;
    assert VersionKeys(t, {}) + ExportKeys(t, {}, {}) == {};
    assert ResultKeys(t, {}) + ExportKeys(t, {}, {}) == {};
  }
}
