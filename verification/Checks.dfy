/**
 * The check service as a step system: requests, the one flight each plan's versions and each result may have, the
 * cache they share, and the goroutines behind the flights, all interleaved.
 */
module Checks {
  import CheckCache

  /** Two checks are of one thing when the object and the rules agree. */
  type Key = CheckCache.Key
  type Report = CheckCache.Report

  /** Checks of one scope exclude each other. All versions of a plan are one, `result` 0, and each result is one. */
  datatype Scope = Scope(plan: int, result: int)

  datatype Subject = Subject(scope: Scope, version: int, key: Key)

  datatype Outcome = Good(report: Report) | Superseded | TimedOut | Failed | Left

  /** Where a flight's goroutine stands: asking the node, answered, cached, off the register, done. */
  datatype Leg = Asking | Answered(outcome: Outcome) | Cached(outcome: Outcome) | Dropped(outcome: Outcome)
               | Landed(outcome: Outcome)

  datatype Flight = Flight(scope: Scope, key: Key, version: int, cancelled: bool, leg: Leg)

  /** Where a request stands: before the cache, before the register, on its flight, behind another, or answered. */
  datatype Turn = Asked | Joining | On(flight: int) | Behind(flight: int) | Told(outcome: Outcome)

  datatype Request = Request(subject: Subject, turn: Turn)

  /** `ran` is ghost history: every report a node gave, with the key it was asked for. */
  datatype World = World(flights: map<Scope, int>, all: map<int, Flight>, cache: map<Key, Report>,
                         requests: map<int, Request>, ran: set<(Key, Report)>)

  datatype Label =
    | Ask(r: int, subject: Subject)
    | LookUp(r: int)
    | Join(r: int, f: int)
    | Node(f: int, outcome: Outcome)
    | Put(f: int, evicted: set<Key>)
    | Drop(f: int)
    | Land(f: int)
    | Hear(r: int)
    | Leave(r: int)

  function Turned(w: World, r: int, turn: Turn): World
    requires r in w.requests
  {
    w.(requests := w.requests[r := w.requests[r].(turn := turn)])
  }

  function Flown(w: World, f: int, leg: Leg): World
    requires f in w.all
  {
    w.(all := w.all[f := w.all[f].(leg := leg)])
  }

  /** The registered flight of another object of these versions is told to stop. */
  function Replaced(w: World, scope: Scope): World {
    if scope in w.flights && w.flights[scope] in w.all then
      w.(all := w.all[w.flights[scope] := w.all[w.flights[scope]].(cancelled := true)])
    else w
  }

  /** A flight of its own, or the report a flight that just landed left in the cache. */
  function Started(w: World, r: int, f: int): World
    requires r in w.requests
  {
    var s := w.requests[r].subject;
    if s.key in w.cache then Turned(w, r, Told(Good(w.cache[s.key])))
    else Turned(w, r, On(f)).(flights := w.flights[s.scope := f],
                              all := w.all[f := Flight(s.scope, s.key, s.version, false, Asking)])
  }

  /** One pass of `join` under the mutex. */
  function Joined(w: World, r: int, f: int): World
    requires r in w.requests
  {
    var s := w.requests[r].subject;
    if s.scope in w.flights && w.flights[s.scope] in w.all then
      var running := w.all[w.flights[s.scope]];
      if running.key == s.key then Turned(w, r, On(w.flights[s.scope]))
      else if s.scope.result != 0 then Turned(w, r, Behind(w.flights[s.scope]))
      else if running.version > s.version then Turned(w, r, Told(Superseded))
      else Started(Replaced(w, s.scope), r, f)
    else Started(w, r, f)
  }

  predicate TurnIs(w: World, r: int, turn: Turn) {
    r in w.requests && w.requests[r].turn == turn
  }

  ghost predicate Step(w: World, l: Label, w': World) {
    match l
    case Ask(r, subject) => r !in w.requests && w' == w.(requests := w.requests[r := Request(subject, Asked)])
    case LookUp(r) =>
      TurnIs(w, r, Asked)
      && w' == Turned(w, r, if w.requests[r].subject.key in w.cache
                            then Told(Good(w.cache[w.requests[r].subject.key])) else Joining)
    case Join(r, f) => TurnIs(w, r, Joining) && f !in w.all && w' == Joined(w, r, f)
    case Node(f, outcome) =>
      f in w.all && w.all[f].leg == Asking && outcome != Left
      && (outcome == Superseded ==> w.all[f].cancelled)
      && w' == Flown(w, f, Answered(outcome)).(
           ran := if outcome.Good? then w.ran + {(w.all[f].key, outcome.report)} else w.ran)
    case Put(f, evicted) =>
      f in w.all && w.all[f].leg.Answered?
      && var outcome := w.all[f].leg.outcome;
         w' == Flown(w, f, Cached(outcome)).(
           cache := (if outcome.Good? then w.cache[w.all[f].key := outcome.report] else w.cache) - evicted)
    case Drop(f) =>
      f in w.all && w.all[f].leg.Cached?
      && var dropped := Flown(w, f, Dropped(w.all[f].leg.outcome));
         w' == (if w.all[f].scope in w.flights && w.flights[w.all[f].scope] == f
                then dropped.(flights := w.flights - {w.all[f].scope}) else dropped)
    case Land(f) => f in w.all && w.all[f].leg.Dropped? && w' == Flown(w, f, Landed(w.all[f].leg.outcome))
    case Hear(r) =>
      r in w.requests
      && (match w.requests[r].turn
          case On(f) => f in w.all && w.all[f].leg.Landed? && w' == Turned(w, r, Told(w.all[f].leg.outcome))
          case Behind(f) => f in w.all && w.all[f].leg.Landed? && w' == Turned(w, r, Joining)
          case _ => false)
    case Leave(r) =>
      r in w.requests && (w.requests[r].turn.On? || w.requests[r].turn.Behind?) && w' == Turned(w, r, Told(Left))
  }

  const Idle := World(map[], map[], map[], map[], {})

  // -------------------------------------------------------------- invariant

  /** Still asking for its answer, or on its way to the cache. */
  predicate Flying(f: Flight) {
    f.leg.Asking? || f.leg.Answered? || f.leg.Cached?
  }

  predicate OutcomeKnown(ran: set<(Key, Report)>, key: Key, outcome: Outcome) {
    outcome.Good? ==> (key, outcome.report) in ran
  }

  ghost predicate FlightFits(w: World, f: int)
    requires f in w.all
  {
    var flight := w.all[f];
    && (!flight.leg.Asking? ==> OutcomeKnown(w.ran, flight.key, flight.leg.outcome))
    && (Flying(flight) && !flight.cancelled ==> flight.scope in w.flights && w.flights[flight.scope] == f)
    && (flight.scope.result != 0 ==> !flight.cancelled)
  }

  ghost predicate RequestFits(w: World, r: int)
    requires r in w.requests
  {
    match w.requests[r].turn
    case Told(outcome) => OutcomeKnown(w.ran, w.requests[r].subject.key, outcome)
    case On(f) =>
      f in w.all && w.all[f].key == w.requests[r].subject.key && w.all[f].scope == w.requests[r].subject.scope
    case Behind(f) => f in w.all && w.all[f].scope == w.requests[r].subject.scope
    case _ => true
  }

  ghost predicate Inv(w: World) {
    && (forall s :: s in w.flights ==>
          w.flights[s] in w.all && w.all[w.flights[s]].scope == s && Flying(w.all[w.flights[s]]))
    && (forall f :: f in w.all ==> FlightFits(w, f))
    && (forall k :: k in w.cache ==> (k, w.cache[k]) in w.ran)
    && (forall r :: r in w.requests ==> RequestFits(w, r))
  }

  /** Only a request moved. */
  lemma RequestKeeps(w: World, l: Label, w': World)
    requires Inv(w) && Step(w, l, w') && (l.Ask? || l.LookUp? || l.Hear? || l.Leave?)
    ensures Inv(w')
  {
    forall r | r in w'.requests ensures RequestFits(w', r) {
      if r in w.requests { assert RequestFits(w, r); }
    }
    forall f | f in w'.all ensures FlightFits(w', f) {
      assert FlightFits(w, f);
    }
  }

  /** A goroutine behind a flight moved on. */
  lemma AnswerKeeps(w: World, l: Label, w': World)
    requires Inv(w) && Step(w, l, w') && (l.Node? || l.Put?)
    ensures Inv(w')
  {
    forall f | f in w'.all ensures FlightFits(w', f) {
      assert FlightFits(w, f) && FlightFits(w, l.f);
    }
    forall r | r in w'.requests ensures RequestFits(w', r) {
      assert RequestFits(w, r);
    }
    assert FlightFits(w, l.f);
  }

  /** A flight tells those waiting on it. */
  lemma LandKeeps(w: World, l: Label, w': World)
    requires Inv(w) && Step(w, l, w') && l.Land?
    ensures Inv(w')
  {
  }

  /** A flight leaves the register, unless another took its place. */
  lemma DropKeeps(w: World, l: Label, w': World)
    requires Inv(w) && Step(w, l, w') && l.Drop?
    ensures Inv(w')
  {
    forall f | f in w'.all ensures FlightFits(w', f) {
      assert FlightFits(w, f) && FlightFits(w, l.f);
    }
    forall r | r in w'.requests ensures RequestFits(w', r) {
      assert RequestFits(w, r);
    }
  }

  lemma StartKeeps(w: World, r: int, f: int)
    requires Inv(w) && f !in w.all && r in w.requests
    requires var s := w.requests[r].subject.scope;
             s in w.flights ==> w.all[w.flights[s]].cancelled
    ensures Inv(Started(w, r, f))
  {
    var w' := Started(w, r, f);
    forall g | g in w'.all ensures FlightFits(w', g) {
      if g in w.all { assert FlightFits(w, g); }
    }
    forall q | q in w'.requests ensures RequestFits(w', q) {
      assert RequestFits(w, q);
    }
  }

  lemma ReplaceKeeps(w: World, scope: Scope)
    requires Inv(w) && scope.result == 0
    ensures Inv(Replaced(w, scope))
  {
  }

  lemma JoinKeeps(w: World, l: Label, w': World)
    requires Inv(w) && Step(w, l, w') && l.Join?
    ensures Inv(w')
  {
    var s := w.requests[l.r].subject;
    if s.scope !in w.flights {
      StartKeeps(w, l.r, l.f);
    } else {
      var running := w.all[w.flights[s.scope]];
      if running.key != s.key && s.scope.result == 0 && running.version <= s.version {
        ReplaceKeeps(w, s.scope);
        hide Inv;
        StartKeeps(Replaced(w, s.scope), l.r, l.f);
      } else {
        forall r | r in w'.requests ensures RequestFits(w', r) {
          assert RequestFits(w, r);
        }
        forall f | f in w'.all ensures FlightFits(w', f) {
          assert FlightFits(w, f);
        }
      }
    }
  }

  lemma StepKeeps(w: World, l: Label, w': World)
    requires Inv(w) && Step(w, l, w')
    ensures Inv(w')
  {
    hide Inv, Step;
    if l.Join? {
      JoinKeeps(w, l, w');
    } else if l.Node? || l.Put? {
      AnswerKeeps(w, l, w');
    } else if l.Drop? {
      DropKeeps(w, l, w');
    } else if l.Land? {
      LandKeeps(w, l, w');
    } else {
      RequestKeeps(w, l, w');
    }
  }

  // ------------------------------------------------------------------- runs

  ghost predicate Moves(w: World, w': World) {
    exists l :: Step(w, l, w')
  }

  ghost predicate Run(run: seq<World>) {
    |run| > 0 && run[0] == Idle && forall i :: 0 <= i < |run| - 1 ==> Moves(run[i], run[i + 1])
  }

  lemma {:induction false} RunKeeps(run: seq<World>, i: nat)
    requires Run(run) && i < |run|
    ensures Inv(run[i])
  {
    if i > 0 {
      RunKeeps(run, i - 1);
      assert Moves(run[i - 1], run[i]);
      hide Inv, Step;
      var l :| Step(run[i - 1], l, run[i]);
      StepKeeps(run[i - 1], l, run[i]);
    }
  }

  /** Every report answered for an object, cached or joined, came from a node that was asked about that object. */
  lemma AnswersComeFromRuns(run: seq<World>, i: nat, r: int)
    requires Run(run) && i < |run| && r in run[i].requests
    requires run[i].requests[r].turn.Told? && run[i].requests[r].turn.outcome.Good?
    ensures (run[i].requests[r].subject.key, run[i].requests[r].turn.outcome.report) in run[i].ran
  {
    RunKeeps(run, i);
    assert RequestFits(run[i], r);
  }

  /** Each plan and each result has at most one check under way that is not being stopped. */
  lemma OneFlightEach(run: seq<World>, i: nat, f: int, g: int)
    requires Run(run) && i < |run| && f in run[i].all && g in run[i].all
    requires run[i].all[f].scope == run[i].all[g].scope
    requires !run[i].all[f].cancelled && !run[i].all[f].leg.Dropped? && !run[i].all[f].leg.Landed?
    requires !run[i].all[g].cancelled && !run[i].all[g].leg.Dropped? && !run[i].all[g].leg.Landed?
    ensures f == g
  {
    RunKeeps(run, i);
    assert FlightFits(run[i], f) && FlightFits(run[i], g);
  }

  /** A result's check is never stopped by another, whatever is asked meanwhile. */
  lemma ResultsRunOn(run: seq<World>, i: nat, f: int)
    requires Run(run) && i < |run| && f in run[i].all && run[i].all[f].scope.result != 0
    ensures !run[i].all[f].cancelled
  {
    RunKeeps(run, i);
    assert FlightFits(run[i], f);
  }

  /** A check of a plan is stopped only for another object of the same or a newer version of that plan. */
  lemma StoppedByNewer(run: seq<World>, i: nat, f: int) returns (r: int)
    requires Run(run) && i + 1 < |run| && f in run[i].all && !run[i].all[f].cancelled
    requires f in run[i + 1].all && run[i + 1].all[f].cancelled
    ensures r in run[i].requests && run[i].requests[r].turn == Joining
    ensures var (stopper, flight) := (run[i].requests[r].subject, run[i].all[f]);
            && stopper.scope == flight.scope && flight.scope.result == 0
            && stopper.key != flight.key && stopper.version >= flight.version
  {
    hide Inv, Step;
    RunKeeps(run, i);
    assert Moves(run[i], run[i + 1]);
    var l :| Step(run[i], l, run[i + 1]);
    r := StopperIsJoin(run[i], l, run[i + 1], f);
  }

  lemma StopperIsJoin(w: World, l: Label, w': World, f: int) returns (r: int)
    requires Inv(w) && Step(w, l, w') && f in w.all && !w.all[f].cancelled && f in w'.all && w'.all[f].cancelled
    ensures r in w.requests && w.requests[r].turn == Joining
    ensures var (stopper, flight) := (w.requests[r].subject, w.all[f]);
            && stopper.scope == flight.scope && flight.scope.result == 0
            && stopper.key != flight.key && stopper.version >= flight.version
  {
    assert l.Join?;
    r := l.r;
  }
}
