/** Applying the caps to every plan, one transaction each, leaves every plan within its cap. */
module Caps {
  import opened Basics
  import opened PlanTables
  import opened PlanOps
  import opened PlanRows
  import opened Retention
  import opened PlanRepository

  /** The cap in force has nothing more to remove from this plan. */
  ghost predicate WithinCap(t: Tables, p: int, default: nat) {
    p in t.plans && Numbers(t, p) != {} ==>
      Trimmed(t, p, MaxOf(Numbers(t, p)), KeepFor(t.plans[p].backupsKeep, default)) == {}
  }

  /** In words: each plain version below the newest that no open solve reads has fewer than the cap plain ones above. */
  lemma WithinInWords(t: Tables, p: int, newest: int, default: nat, v: int)
    requires WithinCap(t, p, default) && p in t.plans && (p, newest) in t.versions && (p, v) in t.versions
    requires forall o :: o in t.versions && o.0 == p ==> o.1 <= newest
    requires v < newest && t.versions[(p, v)].checkpoint == ""
    requires forall j :: j in t.jobs && t.jobs[j].open ==> t.jobs[j].plan != p || t.jobs[j].version != v
    ensures |set o | o in t.versions && o.0 == p && v < o.1 < newest && t.versions[o].checkpoint == "" :: o.1|
            < if t.plans[p].backupsKeep > 0 then t.plans[p].backupsKeep else default
  {
    NewestIsMax(t, p, newest);
    RankInWords(t, p, newest, v);
    assert newest in Numbers(t, p);
    assert (p, v) !in Trimmed(t, p, newest, KeepFor(t.plans[p].backupsKeep, default));
  }

  /** Nothing the cap of this plan reads is different. */
  ghost predicate SameTimeline(t: Tables, u: Tables, p: int) {
    && (p in t.plans <==> p in u.plans) && (p in t.plans ==> t.plans[p] == u.plans[p])
    && (forall id :: id in t.versions && id.0 == p ==> id in u.versions && u.versions[id] == t.versions[id])
    && (forall id :: id in u.versions && id.0 == p ==> id in t.versions)
    && u.jobs == t.jobs
  }

  lemma SameTimelineSameCap(t: Tables, u: Tables, p: int, default: nat)
    requires SameTimeline(t, u, p) && WithinCap(t, p, default)
    ensures WithinCap(u, p, default)
  {
    assert Numbers(t, p) == Numbers(u, p);
    if p in u.plans && Numbers(u, p) != {} {
      var newest, keep := MaxOf(Numbers(t, p)), KeepFor(t.plans[p].backupsKeep, default);
      assert Plain(t, p, newest) == Plain(u, p, newest);
      assert forall id :: SolvingVersion(t, id) == SolvingVersion(u, id);
      assert Trimmed(t, p, newest, keep) == Trimmed(u, p, newest, keep);
    }
  }

  lemma TrimTouchesOnePlan(t: Tables, p: int, q: int, default: nat, at: Time)
    requires q != p
    ensures SameTimeline(t, TrimmedPlan(t, p, default, at), q)
  {
  }

  lemma TrimmedIsWithin(t: Tables, p: int, default: nat, at: Time)
    ensures WithinCap(TrimmedPlan(t, p, default, at), p, default)
  {
    if Numbers(t, p) != {} && p in t.plans {
      var newest, keep := MaxOf(Numbers(t, p)), KeepFor(t.plans[p].backupsKeep, default);
      var u := RemoveVersions(t, Trimmed(t, p, newest, keep), at);
      TrimIsIdempotent(t, p, newest, keep, at);
      NewestSurvives(t, p, keep, at);
      StampKeepsTimeline(u, [(p, Versions)], p);
      assert WithinCap(u, p, default);
      hide WithinCap, SameTimeline, Trimmed, RemoveVersions, Numbers;
      SameTimelineSameCap(u, Stamp(u, [(p, Versions)]), p, default);
    }
  }

  lemma StampKeepsTimeline(t: Tables, changed: seq<(int, Part)>, p: int)
    ensures SameTimeline(t, Stamp(t, changed), p)
  {
  }

  lemma NewestSurvives(t: Tables, p: int, keep: nat, at: Time)
    requires Numbers(t, p) != {}
    ensures var m := MaxOf(Numbers(t, p));
            var u := RemoveVersions(t, Trimmed(t, p, m, keep), at);
            Numbers(u, p) != {} && MaxOf(Numbers(u, p)) == m
  {
    var m := MaxOf(Numbers(t, p));
    var u := RemoveVersions(t, Trimmed(t, p, m, keep), at);
    assert m in Numbers(t, p);
    assert (p, m) in u.versions;
    assert m in Numbers(u, p);
    assert Numbers(u, p) <= Numbers(t, p);
  }

  /** After the sweep of caps every plan whose transaction went through is within its cap. */
  lemma {:induction false} EveryPlanIsWithin(t: Tables, ids: seq<int>, failing: set<int>, default: nat, at: Time,
                                             p: int)
    requires (forall i, j :: 0 <= i < j < |ids| ==> ids[i] != ids[j]) && p in ids && p !in failing
    ensures WithinCap(TrimmedAll(t, ids, failing, default, at), p, default)
  {
    hide WithinCap, TrimmedPlan;
    var init, last := ids[..|ids| - 1], ids[|ids| - 1];
    var before := TrimmedAll(t, init, failing, default, at);
    assert ids == init + [last];
    if p == last {
      TrimmedIsWithin(before, p, default, at);
    } else {
      EveryPlanIsWithin(t, init, failing, default, at, p);
      if last !in failing {
        TrimTouchesOnePlan(before, last, p, default, at);
        SameTimelineSameCap(before, TrimmedPlan(before, last, default, at), p, default);
      }
    }
  }
}
