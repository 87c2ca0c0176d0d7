/**
 * The check service as its methods change it under its mutex. `Checks` interleaves these sections; here each is
 * proved to be a step of it, so that whatever `Checks` keeps, the service keeps.
 */
module CheckService {
  import opened Basics
  import opened Checks
  import CheckCache

  /** Why a flight's context ended, if it did: the deadline passed before anything replaced the check, or not. */
  datatype Ending = Running | DeadlinePassed

  class Service {
    var flights: map<Scope, int>
    var all: map<int, Flight>
    const cache: CheckCache.Cache
    var requests: map<int, Request>
    ghost var ran: set<(Key, Report)>

    ghost function View(): World
      reads this, cache
    {
      World(flights, all, cache.items, requests, ran)
    }

    ghost predicate Valid()
      reads this, cache
    {
      Inv(View()) && cache.Valid()
    }

    constructor ()
      ensures View() == Idle && Valid() && fresh(cache)
    {
      cache := new CheckCache.Cache();
      flights, all, requests, ran := map[], map[], map[], {};
    }

    /** The first look at the cache. */
    method Check(r: int, subject: Subject) returns (report: Option<Report>)
      requires Valid() && r !in requests
      modifies `requests, cache
      ensures Valid()
      ensures exists w :: Step(old(View()), Ask(r, subject), w) && Step(w, LookUp(r), View())
      ensures report == if subject.key in old(cache.items) then Some(old(cache.items)[subject.key]) else None
      ensures var turn := if report.Some? then Told(Good(report.value)) else Joining;
              requests == old(requests)[r := Request(subject, turn)]
      ensures report.Some? ==> (subject.key, report.value) in ran
    {
      hide CheckCache.Holds, CheckCache.Newest, CheckCache.Recent, Inv;
      ghost var w0 := View();
      requests := requests[r := Request(subject, Asked)];
      ghost var w1 := View();
      assert Step(w0, Ask(r, subject), w1);
      CachedWasRun(w0, subject.key);
      report := cache.Get(subject.key);
      if report.Some? {
        requests := requests[r := requests[r].(turn := Told(Good(report.value)))];
      } else {
        requests := requests[r := requests[r].(turn := Joining)];
      }
      assert Step(w1, LookUp(r), View());
      hide Step;
      StepKeeps(w0, Ask(r, subject), w1);
      StepKeeps(w1, LookUp(r), View());
    }

    /** A cached report came from a node that was asked about that object. */
    static lemma CachedWasRun(w: World, key: Key)
      requires Inv(w)
      ensures key in w.cache ==> (key, w.cache[key]) in w.ran
    {
    }

    /**
     * One pass of the loop that joins: a result waits for the other check of its scope, the same object's check is
     * joined, an older request is refused, and anything else replaces what runs and starts its own.
     */
    method Join(r: int, f: int) returns (turn: Turn)
      requires Valid() && r in requests && requests[r].turn == Joining && f !in all
      modifies `flights, `all, `requests, cache
      ensures Step(old(View()), Label.Join(r, f), View()) && Valid()
      ensures r in requests && requests == old(requests)[r := old(requests)[r].(turn := turn)]
      ensures var s := requests[r].subject;
              s.scope in old(flights) && old(all)[old(flights)[s.scope]].key == s.key ==>
                turn == On(old(flights)[s.scope]) && all == old(all)
      ensures var s := requests[r].subject;
              s.scope in old(flights) && old(all)[old(flights)[s.scope]].key != s.key && s.scope.result != 0 ==>
                turn == Behind(old(flights)[s.scope]) && all == old(all)
      ensures var s := requests[r].subject;
              s.scope in old(flights) && old(all)[old(flights)[s.scope]].key != s.key && s.scope.result == 0
              && old(all)[old(flights)[s.scope]].version > s.version ==>
                turn == Told(Superseded) && all == old(all)
      ensures var s := requests[r].subject;
              var outdone := s.scope in old(flights) && old(all)[old(flights)[s.scope]].key != s.key
                              && s.scope.result == 0 && old(all)[old(flights)[s.scope]].version <= s.version;
              var rest := if outdone
                          then var id := old(flights)[s.scope]; old(all)[id := old(all)[id].(cancelled := true)]
                          else old(all);
              outdone || s.scope !in old(flights) ==>
                if s.key in old(cache.items) then turn == Told(Good(old(cache.items)[s.key])) && all == rest
                else turn == On(f) && all == rest[f := Flight(s.scope, s.key, s.version, false, Asking)]
      ensures flights == if turn == On(f) then old(flights)[requests[r].subject.scope := f] else old(flights)
    {
      hide CheckCache.Holds, CheckCache.Newest, CheckCache.Recent;
      ghost var w := View();
      var s := requests[r].subject;
      if s.scope in flights {
        var running := flights[s.scope];
        if all[running].key != s.key && s.scope.result != 0 {
          turn := Behind(running);
          requests := requests[r := requests[r].(turn := turn)];
          Joins(w, r, f);
          return;
        }
        if all[running].key == s.key {
          turn := On(running);
          requests := requests[r := requests[r].(turn := turn)];
          Joins(w, r, f);
          return;
        }
        if all[running].version > s.version {
          turn := Told(Superseded);
          requests := requests[r := requests[r].(turn := turn)];
          Joins(w, r, f);
          return;
        }
        all := all[running := all[running].(cancelled := true)];
      }
      var report := cache.Get(s.key);
      if report.Some? {
        turn := Told(Good(report.value));
        requests := requests[r := requests[r].(turn := turn)];
      } else {
        all := all[f := Flight(s.scope, s.key, s.version, false, Asking)];
        flights := flights[s.scope := f];
        turn := On(f);
        requests := requests[r := requests[r].(turn := turn)];
      }
      Joins(w, r, f);
    }

    /** What the node said, or why it said nothing: a replaced check says so unless it waited too long first. */
    method Answer(f: int, said: Outcome, ending: Ending) returns (outcome: Outcome)
      requires Valid() && f in all && all[f].leg == Asking
      requires said.Good? || said.Failed?
      modifies `all, `ran
      ensures Step(old(View()), Node(f, outcome), View()) && Valid()
      ensures said.Good? ==> outcome == said
      ensures said.Failed? ==> outcome == if ending.DeadlinePassed? then TimedOut
                                          else if old(all)[f].cancelled then Superseded else Failed
    {
      ghost var w := View();
      outcome := said;
      if said.Failed? {
        if ending.DeadlinePassed? {
          outcome := TimedOut;
        } else if all[f].cancelled {
          outcome := Superseded;
        }
      }
      all := all[f := all[f].(leg := Answered(outcome))];
      ran := if outcome.Good? then ran + {(all[f].key, outcome.report)} else ran;
      assert Step(w, Node(f, outcome), View());
      hide Inv, Step;
      StepKeeps(w, Node(f, outcome), View());
    }

    /** A report goes to the cache. */
    method Store(f: int) returns (ghost evicted: set<Key>)
      requires Valid() && f in all && all[f].leg.Answered?
      modifies `all, cache
      ensures Step(old(View()), Put(f, evicted), View()) && Valid()
      ensures f in all && all == old(all)[f := old(all)[f].(leg := Cached(old(all)[f].leg.outcome))]
      ensures var outcome := old(all)[f].leg.outcome;
              && (!outcome.Good? ==> cache.items == old(cache.items))
              && (outcome.Good? ==> all[f].key !in evicted
                                    && cache.items == old(cache.items)[all[f].key := outcome.report] - evicted)
    {
      hide Inv, Step, CheckCache.Holds, CheckCache.Newest, CheckCache.Recent;
      ghost var w := View();
      var outcome := all[f].leg.outcome;
      evicted := {};
      if outcome.Good? {
        evicted := cache.Put(all[f].key, outcome.report);
      }
      all := all[f := all[f].(leg := Cached(outcome))];
      PutIsStep(w, f, evicted);
      StepKeeps(w, Put(f, evicted), View());
    }

    static lemma PutIsStep(w: World, f: int, evicted: set<Key>)
      requires f in w.all && w.all[f].leg.Answered?
      ensures var outcome := w.all[f].leg.outcome;
              && w.cache - {} == w.cache
              && Step(w, Put(f, evicted), Flown(w, f, Cached(outcome)).(
                   cache := (if outcome.Good? then w.cache[w.all[f].key := outcome.report] else w.cache) - evicted))
    {
    }

    /** The flight leaves the register, unless another took its place. */
    method LeaveRegister(f: int)
      requires Valid() && f in all && all[f].leg.Cached?
      modifies `flights, `all
      ensures Step(old(View()), Drop(f), View()) && Valid()
      ensures f in all && all == old(all)[f := old(all)[f].(leg := Dropped(old(all)[f].leg.outcome))]
      ensures forall s :: s in flights <==> s in old(flights) && old(flights)[s] != f
      ensures forall s :: s in flights ==> flights[s] == old(flights)[s]
    {
      hide Inv;
      ghost var w := View();
      OnlyItsScope(w, f);
      if all[f].scope in flights && flights[all[f].scope] == f {
        flights := flights - {all[f].scope};
      }
      all := all[f := all[f].(leg := Dropped(all[f].leg.outcome))];
      StepKeeps(w, Drop(f), View());
    }

    /** A flight is on the register under its own scope alone. */
    static lemma OnlyItsScope(w: World, f: int)
      requires Inv(w) && f in w.all
      ensures forall s :: s in w.flights && w.flights[s] == f ==> s == w.all[f].scope
    {
    }

    /** Those who wait on the flight are told. */
    method Tell(f: int)
      requires Valid() && f in all && all[f].leg.Dropped?
      modifies `all
      ensures Step(old(View()), Label.Land(f), View()) && Valid()
      ensures f in all && all == old(all)[f := old(all)[f].(leg := Landed(old(all)[f].leg.outcome))]
    {
      hide Inv;
      ghost var w := View();
      all := all[f := all[f].(leg := Landed(all[f].leg.outcome))];
      StepKeeps(w, Label.Land(f), View());
    }

    /** The rest of the goroutine: cached first, then off the register if it is still there, then told to who waits. */
    method Land(f: int) returns (ghost evicted: set<Key>)
      requires Valid() && f in all && all[f].leg.Answered?
      modifies `flights, `all, cache
      ensures Valid()
      ensures exists w, w' :: Step(old(View()), Put(f, evicted), w) && Step(w, Drop(f), w')
                              && Step(w', Label.Land(f), View())
      ensures forall s :: s in flights ==> flights[s] != f
      ensures f in all && all[f].leg == Landed(old(all)[f].leg.outcome)
    {
      hide Inv, Step;
      evicted := Store(f);
      LeaveRegister(f);
      Tell(f);
      OffTheRegister(View(), f);
    }

    /** What has landed is on the register no more. */
    static lemma OffTheRegister(w: World, f: int)
      requires Inv(w) && f in w.all && w.all[f].leg.Landed?
      ensures forall s :: s in w.flights ==> w.flights[s] != f
    {
    }

    /** The pass under the lock is the step. */
    lemma Joins(w: World, r: int, f: int)
      requires Inv(w) && r in w.requests && w.requests[r].turn == Joining && f !in w.all
      requires View() == Joined(w, r, f)
      ensures Step(w, Label.Join(r, f), View()) && Inv(View())
    {
      StepKeeps(w, Label.Join(r, f), View());
    }
  }
}
