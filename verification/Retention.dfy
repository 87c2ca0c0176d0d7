/** What the two caps keep and remove, and what they never touch. */
module Retention {
  import opened Basics
  import opened Ranking
  import opened PlanTables
  import opened PlanOps

  /** A row of the plan survives a trim exactly when the cap has a reason to keep it. */
  predicate Keeps(t: Tables, p: int, newest: int, keep: nat, id: (int, int))
    requires id in t.versions && id.0 == p
  {
    || id.1 >= newest
    || t.versions[id].checkpoint != ""
    || SolvingVersion(t, id)
    || id.1 in Topmost(Plain(t, p, newest), keep, Greater())
  }

  lemma TrimKeepsExactly(t: Tables, p: int, newest: int, keep: nat, at: Time, id: (int, int))
    requires id in t.versions
    ensures id in RemoveVersions(t, Trimmed(t, p, newest, keep), at).versions
            <==> (id.0 != p || Keeps(t, p, newest, keep, id))
    ensures id in RemoveVersions(t, Trimmed(t, p, newest, keep), at).versions ==>
              RemoveVersions(t, Trimmed(t, p, newest, keep), at).versions[id] == t.versions[id]
  {
    AboveIsAhead(Plain(t, p, newest), id.1);
    if id.0 == p && id.1 < newest && t.versions[id].checkpoint == "" {
      assert id.1 in Plain(t, p, newest);
    }
  }

  /** No reader sees more than `keep` plain versions below the newest, apart from those a solve reads. */
  lemma AtMostKeepRemain(t: Tables, p: int, newest: int, keep: nat, at: Time)
    ensures var u := RemoveVersions(t, Trimmed(t, p, newest, keep), at);
            |set v | v in Plain(u, p, newest) && !SolvingVersion(u, (p, v))| <= keep
  {
    var u := RemoveVersions(t, Trimmed(t, p, newest, keep), at);
    var left := set v | v in Plain(u, p, newest) && !SolvingVersion(u, (p, v));
    forall v | v in left ensures v in Topmost(Plain(t, p, newest), keep, Greater()) {
      assert (p, v) in t.versions;
      TrimKeepsExactly(t, p, newest, keep, at, (p, v));
      assert SolvingVersion(t, (p, v)) == SolvingVersion(u, (p, v));
    }
    TopmostCount(Plain(t, p, newest), keep, Greater());
    SubsetSize(left, Topmost(Plain(t, p, newest), keep, Greater()));
  }

  /** Trimming twice removes nothing more. */
  lemma TrimIsIdempotent(t: Tables, p: int, newest: int, keep: nat, at: Time)
    ensures Trimmed(RemoveVersions(t, Trimmed(t, p, newest, keep), at), p, newest, keep) == {}
  {
    var u := RemoveVersions(t, Trimmed(t, p, newest, keep), at);
    forall id | id in Trimmed(u, p, newest, keep) ensures false {
      assert id in t.versions && id !in Trimmed(t, p, newest, keep);
      assert SolvingVersion(t, id) == SolvingVersion(u, id);
      PlainShrinks(t, u, p, newest);
      SubsetSize(Above(Plain(u, p, newest), id.1), Above(Plain(t, p, newest), id.1));
    }
  }

  /** A tighter cap removes all a looser one does. */
  lemma TighterCapTrimsMore(t: Tables, p: int, newest: int, keep: nat, tighter: nat)
    requires tighter <= keep
    ensures Trimmed(t, p, newest, keep) <= Trimmed(t, p, newest, tighter)
  {
  }

  /** A version the cap leaves has the same newer plain versions above it as before. */
  lemma KeptKeepsRank(t: Tables, p: int, newest: int, keep: nat, at: Time, v: int)
    requires v in Plain(t, p, newest) && |Above(Plain(t, p, newest), v)| < keep
    ensures var u := RemoveVersions(t, Trimmed(t, p, newest, keep), at);
            Above(Plain(u, p, newest), v) == Above(Plain(t, p, newest), v)
  {
    var u := RemoveVersions(t, Trimmed(t, p, newest, keep), at);
    PlainShrinks(t, u, p, newest);
    forall w | w in Above(Plain(t, p, newest), v) ensures w in Plain(u, p, newest) {
      assert Above(Plain(t, p, newest), w) <= Above(Plain(t, p, newest), v);
      SubsetSize(Above(Plain(t, p, newest), w), Above(Plain(t, p, newest), v));
      assert (p, w) !in Trimmed(t, p, newest, keep);
    }
  }

  /** Lowering a cap step by step ends where lowering it at once does: how it got there leaves no trace. */
  lemma CapsCompose(t: Tables, p: int, newest: int, keep: nat, tighter: nat, at: Time, later: Time)
    requires tighter <= keep
    ensures var u := RemoveVersions(t, Trimmed(t, p, newest, keep), at);
            RemoveVersions(u, Trimmed(u, p, newest, tighter), later).versions
            == RemoveVersions(t, Trimmed(t, p, newest, tighter), at).versions
  {
    var u := RemoveVersions(t, Trimmed(t, p, newest, keep), at);
    TighterCapTrimsMore(t, p, newest, keep, tighter);
    PlainShrinks(t, u, p, newest);
    forall id ensures id in Trimmed(t, p, newest, keep) + Trimmed(u, p, newest, tighter)
                      <==> id in Trimmed(t, p, newest, tighter)
    {
      assert SolvingVersion(u, id) == SolvingVersion(t, id);
      SubsetSize(Above(Plain(u, p, newest), id.1), Above(Plain(t, p, newest), id.1));
      if id in Trimmed(t, p, newest, tighter) && id !in Trimmed(t, p, newest, keep) {
        assert id.1 in Plain(t, p, newest);
        KeptKeepsRank(t, p, newest, keep, at, id.1);
      }
    }
    assert Trimmed(t, p, newest, keep) + Trimmed(u, p, newest, tighter) == Trimmed(t, p, newest, tighter);
  }

  /** And a cap raised again brings nothing back and removes nothing more. */
  lemma RaisedCapTrimsNothing(t: Tables, p: int, newest: int, keep: nat, looser: nat, at: Time)
    requires keep <= looser
    ensures Trimmed(RemoveVersions(t, Trimmed(t, p, newest, keep), at), p, newest, looser) == {}
  {
    var u := RemoveVersions(t, Trimmed(t, p, newest, keep), at);
    TrimIsIdempotent(t, p, newest, keep, at);
    TighterCapTrimsMore(u, p, newest, looser, keep);
  }

  lemma PlainShrinks(t: Tables, u: Tables, p: int, newest: int)
    requires forall id :: id in u.versions ==> id in t.versions && u.versions[id] == t.versions[id]
    ensures Plain(u, p, newest) <= Plain(t, p, newest)
  {
  }

  // ---------------------------------------------------------------- results

  /** `order by created_at desc, id desc` over the results of these tables. */
  function NewerIn(t: Tables): Order {
    (q: int, r: int) => q in t.results && r in t.results && Newer(t, q, r)
  }

  lemma ResultOrderIsStrict(t: Tables, p: int)
    ensures Strict(Counted(t, p), NewerIn(t))
    ensures forall r :: r in Counted(t, p) ==> NewerCounted(t, p, r) == Ahead(Counted(t, p), r, NewerIn(t))
  {
  }

  /** A result survives exactly when it is pinned, in Trash, read by a solve, or among the newest `keep`. */
  lemma ResultTrimKeepsExactly(t: Tables, p: int, keep: nat, at: Time, r: int)
    requires r in t.results
    ensures r in RemoveResults(t, TrimmedResults(t, p, keep), at).results
            <==> (r !in Counted(t, p) || SolvingResult(t, r) || r in Topmost(Counted(t, p), keep, NewerIn(t)))
  {
    ResultOrderIsStrict(t, p);
  }

  lemma AtMostKeepResultsRemain(t: Tables, p: int, keep: nat, at: Time)
    ensures var u := RemoveResults(t, TrimmedResults(t, p, keep), at);
            |set r | r in Counted(u, p) && !SolvingResult(u, r)| <= keep
  {
    var u := RemoveResults(t, TrimmedResults(t, p, keep), at);
    var left := set r | r in Counted(u, p) && !SolvingResult(u, r);
    forall r | r in left ensures r in Topmost(Counted(t, p), keep, NewerIn(t)) {
      ResultTrimKeepsExactly(t, p, keep, at, r);
      assert SolvingResult(t, r) == SolvingResult(u, r);
    }
    ResultOrderIsStrict(t, p);
    TopmostCount(Counted(t, p), keep, NewerIn(t));
    SubsetSize(left, Topmost(Counted(t, p), keep, NewerIn(t)));
  }

  lemma ResultTrimIsIdempotent(t: Tables, p: int, keep: nat, at: Time)
    ensures TrimmedResults(RemoveResults(t, TrimmedResults(t, p, keep), at), p, keep) == {}
  {
    var u := RemoveResults(t, TrimmedResults(t, p, keep), at);
    forall r | r in TrimmedResults(u, p, keep) ensures false {
      assert r in t.results && r in Counted(t, p) && r !in TrimmedResults(t, p, keep);
      assert SolvingResult(t, r) == SolvingResult(u, r);
      assert NewerCounted(u, p, r) <= NewerCounted(t, p, r);
      SubsetSize(NewerCounted(u, p, r), NewerCounted(t, p, r));
    }
  }

  /** A result the index accepts is there when the transaction ends; otherwise nothing changed at all. */
  lemma AcceptedResultStays(t: Tables, r: int, row: Result, default: nat, at: Time)
    requires r !in t.results
    ensures WithResult(t, r, row, default, at) == t
            || (r in WithResult(t, r, row, default, at).results
                && WithResult(t, r, row, default, at).results[r] == row)
  {
  }

  /** With a cap of at least one, a result no older than every counted one is always accepted. */
  lemma NewestResultIsAccepted(t: Tables, r: int, row: Result, default: nat, at: Time)
    requires r !in t.results && row.plan in t.plans && !ResultKeyTaken(t, row.plan, row.uploadKey) && default >= 1
    requires forall q :: q in Counted(t, row.plan) ==>
               t.results[q].createdAt < row.createdAt || (t.results[q].createdAt == row.createdAt && q < r)
    ensures r in WithResult(t, r, row, default, at).results
  {
  }
}
