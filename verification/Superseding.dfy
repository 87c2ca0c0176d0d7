/** When a check is told that a newer one replaced it, and when that is not so. */
module Superseding {
  import opened Basics
  import opened Checks

  /** Another object of the same or a newer version of the same plan was asked about. */
  ghost predicate Outdone(w: World, s: Subject) {
    exists q :: q in w.requests && Outdoes(w.requests[q].subject, s)
  }

  predicate Outdoes(a: Subject, b: Subject) {
    a.scope == b.scope && a.key != b.key && a.version >= b.version
  }

  /** A request about the same object of the same plan was outdone, though perhaps under another version number. */
  ghost predicate TwinOutdone(w: World, s: Subject) {
    exists p :: p in w.requests && Twin(w, p, s)
  }

  ghost predicate Twin(w: World, p: int, s: Subject)
    requires p in w.requests
  {
    var t := w.requests[p].subject;
    t.scope == s.scope && t.key == s.key && Outdone(w, t)
  }

  /** What the request that started this flight asked about. */
  function SubjectOf(f: Flight): Subject {
    Subject(f.scope, f.version, f.key)
  }

  ghost predicate AskedFor(w: World, s: Subject) {
    exists q :: q in w.requests && w.requests[q].subject == s
  }

  ghost predicate FlightOwned(w: World, f: int)
    requires f in w.all
  {
    var flight := w.all[f];
    && AskedFor(w, SubjectOf(flight))
    && (flight.cancelled ==> flight.scope.result == 0 && Outdone(w, SubjectOf(flight)))
    && (!flight.leg.Asking? && flight.leg.outcome == Superseded ==> flight.cancelled)
  }

  ghost predicate TurnOwned(w: World, r: int)
    requires r in w.requests
  {
    w.requests[r].turn == Told(Superseded) ==>
      w.requests[r].subject.scope.result == 0 && TwinOutdone(w, w.requests[r].subject)
  }

  ghost predicate Owned(w: World) {
    && (forall f :: f in w.all ==> FlightOwned(w, f))
    && (forall r :: r in w.requests ==> TurnOwned(w, r))
  }

  /** Requests come and go, but what they asked for stays known. */
  ghost predicate Remembers(w: World, w': World) {
    forall r :: r in w.requests ==> r in w'.requests && w'.requests[r].subject == w.requests[r].subject
  }

  lemma StepRemembers(w: World, l: Label, w': World)
    requires Step(w, l, w')
    ensures Remembers(w, w')
  {
    if l.Join? {
      hide Step;
      JoinRemembers(w, l, w');
    }
  }

  lemma JoinRemembers(w: World, l: Label, w': World)
    requires Step(w, l, w') && l.Join?
    ensures Remembers(w, w')
  {
  }

  lemma OutdoneStays(w: World, w': World)
    requires Remembers(w, w')
    ensures forall s :: Outdone(w, s) ==> Outdone(w', s)
    ensures forall s :: TwinOutdone(w, s) ==> TwinOutdone(w', s)
    ensures forall s :: AskedFor(w, s) ==> AskedFor(w', s)
  {
  }

  /** Joining past another object's flight outdoes one of the two. */
  lemma JoinOutdoes(w: World, l: Label, w': World)
    requires Inv(w) && Owned(w) && Step(w, l, w') && l.Join?
    ensures var s := w.requests[l.r].subject;
            s.scope in w.flights ==>
              var running := w.all[w.flights[s.scope]];
              running.key != s.key ==>
                if running.version <= s.version then Outdone(w', SubjectOf(running))
                else TwinOutdone(w', s)
  {
    StepRemembers(w, l, w');
    hide Step, Joined;
    var s := w.requests[l.r].subject;
    assert w'.requests[l.r].subject == s;
    if s.scope in w.flights {
      var running := w.all[w.flights[s.scope]];
      assert FlightOwned(w, w.flights[s.scope]) && AskedFor(w, SubjectOf(running));
      if running.key != s.key && running.version <= s.version {
        assert Outdoes(s, SubjectOf(running));
      } else if running.key != s.key {
        var q :| q in w.requests && w.requests[q].subject == SubjectOf(running);
        assert Outdoes(w'.requests[q].subject, s);
        assert Twin(w', l.r, s);
      }
    }
  }

  lemma JoinOwned(w: World, l: Label, w': World)
    requires Inv(w) && Owned(w) && Step(w, l, w') && l.Join?
    ensures Owned(w')
  {
    hide Outdone, TwinOutdone, AskedFor, Step, Joined, FlightOwned, TurnOwned;
    StepRemembers(w, l, w');
    OutdoneStays(w, w');
    JoinOutdoes(w, l, w');
    forall f | f in w'.all ensures FlightOwned(w', f) {
      JoinedFlightOwned(w, l, w', f);
    }
    forall r | r in w'.requests ensures TurnOwned(w', r) {
      JoinedTurnOwned(w, l, w', r);
    }
  }

  /** What a join leaves of the flights: one may be cancelled, and one may be new. */
  lemma JoinedFlightOwned(w: World, l: Label, w': World, f: int)
    requires Inv(w) && Owned(w) && Step(w, l, w') && l.Join? && f in w'.all
    requires forall s :: AskedFor(w, s) ==> AskedFor(w', s)
    requires forall s :: Outdone(w, s) ==> Outdone(w', s)
    requires var s := w.requests[l.r].subject;
             s.scope in w.flights ==>
               var running := w.all[w.flights[s.scope]];
               running.key != s.key && running.version <= s.version ==> Outdone(w', SubjectOf(running))
    ensures FlightOwned(w', f)
  {
    hide Outdone, TwinOutdone, AskedFor, TurnOwned;
    StepRemembers(w, l, w');
    StarterAsked(w', l.r);
    if f in w.all { assert FlightOwned(w, f); }
  }

  lemma JoinedTurnOwned(w: World, l: Label, w': World, r: int)
    requires Inv(w) && Owned(w) && Step(w, l, w') && l.Join? && r in w'.requests
    requires forall s :: TwinOutdone(w, s) ==> TwinOutdone(w', s)
    requires var s := w.requests[l.r].subject;
             s.scope in w.flights ==>
               var running := w.all[w.flights[s.scope]];
               running.key != s.key && running.version > s.version ==> TwinOutdone(w', s)
    ensures TurnOwned(w', r)
  {
    hide Outdone, TwinOutdone, AskedFor, FlightOwned;
    assert TurnOwned(w, r);
  }

  lemma StarterAsked(w: World, r: int)
    requires r in w.requests
    ensures AskedFor(w, w.requests[r].subject)
  {
  }

  lemma HearOwned(w: World, l: Label, w': World)
    requires Inv(w) && Owned(w) && Step(w, l, w') && !l.Join?
    ensures Owned(w')
  {
    hide Outdone, TwinOutdone, AskedFor, Step, FlightOwned, TurnOwned;
    StepRemembers(w, l, w');
    OutdoneStays(w, w');
    forall f | f in w'.all ensures FlightOwned(w', f) {
      OtherFlightOwned(w, l, w', f);
    }
    forall r | r in w'.requests ensures TurnOwned(w', r) {
      OtherTurnOwned(w, l, w', r);
    }
  }

  lemma OtherFlightOwned(w: World, l: Label, w': World, f: int)
    requires Owned(w) && Step(w, l, w') && !l.Join? && f in w'.all
    requires forall s :: AskedFor(w, s) ==> AskedFor(w', s)
    requires forall s :: Outdone(w, s) ==> Outdone(w', s)
    ensures FlightOwned(w', f)
  {
    hide Outdone, TwinOutdone, AskedFor, TurnOwned;
    assert FlightOwned(w, f);
  }

  /** Hearing from a flight that was stopped: the request that started it was outdone. */
  lemma OtherTurnOwned(w: World, l: Label, w': World, r: int)
    requires Inv(w) && Owned(w) && Step(w, l, w') && !l.Join? && r in w'.requests
    requires forall s :: TwinOutdone(w, s) ==> TwinOutdone(w', s)
    requires forall s :: Outdone(w, s) ==> Outdone(w', s)
    ensures TurnOwned(w', r)
  {
    hide Outdone;
    StepRemembers(w, l, w');
    if l.Hear? && r == l.r && w.requests[r].turn.On? && w.all[w.requests[r].turn.flight].leg.outcome == Superseded {
      var flight := w.all[w.requests[r].turn.flight];
      assert FlightOwned(w, w.requests[r].turn.flight) && RequestFits(w, r);
      var q :| q in w.requests && w.requests[q].subject == SubjectOf(flight);
      assert Twin(w', q, w.requests[r].subject);
    } else if r in w.requests {
      assert TurnOwned(w, r);
    }
  }

  lemma {:induction false} RunOwned(run: seq<World>, i: nat)
    requires Run(run) && i < |run|
    ensures Owned(run[i])
  {
    if i > 0 {
      RunOwned(run, i - 1);
      RunKeeps(run, i - 1);
      assert Moves(run[i - 1], run[i]);
      hide Inv, Owned, Step;
      var l :| Step(run[i - 1], l, run[i]);
      if l.Join? {
        JoinOwned(run[i - 1], l, run[i]);
      } else {
        HearOwned(run[i - 1], l, run[i]);
      }
    }
  }

  // -------------------------------------------- when the sentence is false

  /** `s` is told it was replaced, and was not. */
  ghost predicate WronglyReplaced(run: seq<World>, r: int) {
    && Run(run)
    && var w := run[|run| - 1];
       r in w.requests && w.requests[r].turn == Told(Superseded) && !Outdone(w, w.requests[r].subject)
  }

  /** One object of a plan under two numbers, `a` and `s`, and another object whose number lies between them. */
  predicate Confuses(a: Subject, s: Subject, b: Subject) {
    && a.scope == s.scope == b.scope && s.scope.result == 0 && a.key == s.key != b.key
    && a.version <= b.version < s.version
  }

  /** A check told that it was replaced was, by the same version or a newer one, or two others confused it. */
  lemma SupersededWasOutdone(run: seq<World>, i: nat, r: int)
    requires Run(run) && i < |run| && r in run[i].requests && run[i].requests[r].turn == Told(Superseded)
    ensures Outdone(run[i], run[i].requests[r].subject) || Confused(run[i], run[i].requests[r].subject)
    ensures var (w, s) := (run[i], run[i].requests[r].subject);
            || (exists q :: q in w.requests && w.requests[q].subject.scope == s.scope
                            && w.requests[q].subject.key != s.key && w.requests[q].subject.version >= s.version)
            || (exists p, q :: p in w.requests && q in w.requests
                               && w.requests[p].subject.scope == s.scope == w.requests[q].subject.scope
                               && w.requests[p].subject.key == s.key != w.requests[q].subject.key
                               && w.requests[p].subject.version <= w.requests[q].subject.version < s.version)
  {
    RunOwned(run, i);
    var w, s := run[i], run[i].requests[r].subject;
    assert TurnOwned(w, r);
    var p :| p in w.requests && Twin(w, p, s);
    var q :| q in w.requests && Outdoes(w.requests[q].subject, w.requests[p].subject);
    assert Outdoes(w.requests[q].subject, s) || Confuses(w.requests[p].subject, s, w.requests[q].subject);
  }

  /** The requests made so far include two that confuse this one. */
  ghost predicate Confused(w: World, s: Subject) {
    exists p, q :: p in w.requests && q in w.requests && Confuses(w.requests[p].subject, s, w.requests[q].subject)
  }

  /** Nothing outside `asked` was asked about. */
  ghost predicate AsksOnly(w: World, asked: set<Subject>) {
    forall q :: q in w.requests ==> w.requests[q].subject in asked
  }

  ghost predicate CanMislead(asked: set<Subject>) {
    exists run, r :: WronglyReplaced(run, r) && AsksOnly(run[|run| - 1], asked)
  }

  lemma MisleadersConfuse(run: seq<World>, r: int, asked: set<Subject>) returns (a: Subject, s: Subject, b: Subject)
    requires WronglyReplaced(run, r) && AsksOnly(run[|run| - 1], asked)
    ensures a in asked && s in asked && b in asked && Confuses(a, s, b)
  {
    var w := run[|run| - 1];
    SupersededWasOutdone(run, |run| - 1, r);
    hide Run, Outdone, Confuses;
    var p, q :| p in w.requests && q in w.requests
                && Confuses(w.requests[p].subject, w.requests[r].subject, w.requests[q].subject);
    a, s, b := w.requests[p].subject, w.requests[r].subject, w.requests[q].subject;
  }

  /**
   * Asking about these subjects can end in a check wrongly told that it was replaced exactly when they hold one
   * object of a plan under two version numbers, and another object of it from the lower up to below the higher.
   */
  lemma WronglyReplacedExactly(asked: set<Subject>)
    ensures CanMislead(asked)
            <==> exists a, s, b :: a in asked && s in asked && b in asked
                   && a.scope == s.scope == b.scope && s.scope.result == 0 && a.key == s.key != b.key
                   && a.version <= b.version < s.version
  {
    if CanMislead(asked) {
      hide WronglyReplaced, AsksOnly;
      var run: seq<World>, r: int :| WronglyReplaced(run, r) && AsksOnly(run[|run| - 1], asked);
      var a, s, b := MisleadersConfuse(run, r, asked);
    }
    forall a, s, b | a in asked && s in asked && b in asked && Confuses(a, s, b) ensures CanMislead(asked) {
      JoinersCanBeReplacedByOlder(a, s, b);
    }
  }

  // ------------------------------------------------- the run that shows it

  function State(a: Subject, s: Subject, b: Subject, first: Turn, second: Turn, third: Turn, cancelled: bool, leg: Leg):
      World
  {
    var flights := map[a.scope := if cancelled then 2 else 1];
    var one := Flight(a.scope, a.key, a.version, cancelled, leg);
    var all := if cancelled then map[1 := one, 2 := Flight(b.scope, b.key, b.version, false, Asking)]
               else map[1 := one];
    var requests := map[1 := Request(a, first), 2 := Request(s, second), 3 := Request(b, third)];
    World(flights, all, map[], requests, {})
  }

  function Begin(a: Subject, s: Subject, b: Subject, first: Turn, second: Option<Turn>, third: Option<Turn>): World {
    var one := map[1 := Request(a, first)];
    var two := if second.Some? then one[2 := Request(s, second.value)] else one;
    Idle.(requests := if third.Some? then two[3 := Request(b, third.value)] else two)
  }

  function At(a: Subject, s: Subject, b: Subject, k: nat): World {
    match k
    case 0 => Idle
    case 1 => Begin(a, s, b, Asked, None, None)
    case 2 => Begin(a, s, b, Asked, Some(Asked), None)
    case 3 => Begin(a, s, b, Asked, Some(Asked), Some(Asked))
    case 4 => Begin(a, s, b, Joining, Some(Asked), Some(Asked))
    case 5 => State(a, s, b, On(1), Asked, Asked, false, Asking)
    case 6 => State(a, s, b, On(1), Joining, Asked, false, Asking)
    case 7 => State(a, s, b, On(1), On(1), Asked, false, Asking)
    case 8 => State(a, s, b, On(1), On(1), Joining, false, Asking)
    case 9 => State(a, s, b, On(1), On(1), On(2), true, Asking)
    case 10 => State(a, s, b, On(1), On(1), On(2), true, Answered(Superseded))
    case 11 => State(a, s, b, On(1), On(1), On(2), true, Cached(Superseded))
    case 12 => State(a, s, b, On(1), On(1), On(2), true, Dropped(Superseded))
    case 13 => State(a, s, b, On(1), On(1), On(2), true, Landed(Superseded))
    case _ => State(a, s, b, On(1), Told(Superseded), On(2), true, Landed(Superseded))
  }

  function Labels(a: Subject, s: Subject, b: Subject): seq<Label> {
    [Ask(1, a), Ask(2, s), Ask(3, b), LookUp(1), Join(1, 1), LookUp(2), Join(2, 2), LookUp(3), Join(3, 2),
     Node(1, Superseded), Put(1, {}), Drop(1), Land(1), Hear(2)]
  }

  lemma BeginningSteps(a: Subject, s: Subject, b: Subject, k: nat)
    requires Confuses(a, s, b) && k < 4
    ensures Step(At(a, s, b, k), Labels(a, s, b)[k], At(a, s, b, k + 1))
  {
  }

  lemma JoiningSteps(a: Subject, s: Subject, b: Subject, k: nat)
    requires Confuses(a, s, b) && 4 <= k < 8
    ensures Step(At(a, s, b, k), Labels(a, s, b)[k], At(a, s, b, k + 1))
  {
  }

  lemma ReplacingStep(a: Subject, s: Subject, b: Subject)
    requires Confuses(a, s, b)
    ensures Step(At(a, s, b, 8), Labels(a, s, b)[8], At(a, s, b, 9))
  {
    assert Replaced(At(a, s, b, 8), a.scope).all == map[1 := Flight(a.scope, a.key, a.version, true, Asking)];
  }

  lemma AnsweringSteps(a: Subject, s: Subject, b: Subject, k: nat)
    requires Confuses(a, s, b) && 9 <= k < 11
    ensures Step(At(a, s, b, k), Labels(a, s, b)[k], At(a, s, b, k + 1))
  {
  }

  lemma LandingSteps(a: Subject, s: Subject, b: Subject, k: nat)
    requires Confuses(a, s, b) && 11 <= k < 13
    ensures Step(At(a, s, b, k), Labels(a, s, b)[k], At(a, s, b, k + 1))
  {
  }

  lemma HearingStep(a: Subject, s: Subject, b: Subject)
    requires Confuses(a, s, b)
    ensures Step(At(a, s, b, 13), Labels(a, s, b)[13], At(a, s, b, 14))
  {
  }

  lemma EveryStep(a: Subject, s: Subject, b: Subject, k: nat)
    requires Confuses(a, s, b) && k < 14
    ensures Moves(At(a, s, b, k), At(a, s, b, k + 1))
  {
    hide Step, At, Confuses;
    if k < 4 {
      BeginningSteps(a, s, b, k);
    } else if k < 8 {
      JoiningSteps(a, s, b, k);
    } else if k == 8 {
      ReplacingStep(a, s, b);
    } else if k < 11 {
      AnsweringSteps(a, s, b, k);
    } else if k < 13 {
      LandingSteps(a, s, b, k);
    } else {
      HearingStep(a, s, b);
    }
  }

  lemma LastIsWrong(a: Subject, s: Subject, b: Subject)
    requires Confuses(a, s, b)
    ensures var w := At(a, s, b, 14);
            && At(a, s, b, 0) == Idle && 2 in w.requests && w.requests[2].turn == Told(Superseded)
            && !Outdone(w, w.requests[2].subject)
            && forall q :: q in w.requests ==> w.requests[q].subject in {a, s, b}
  {
  }

  /**
   * A check of `s` that joins the running check of its object under the older number `a` is told that it was replaced
   * when `b` is asked about, though `b` is older than `s`.
   */
  lemma JoinersCanBeReplacedByOlder(a: Subject, s: Subject, b: Subject)
    requires Confuses(a, s, b)
    ensures exists run: seq<World> :: WronglyReplaced(run, 2) && AsksOnly(run[|run| - 1], {a, s, b})
                          && run[|run| - 1].requests[2].subject == s
  {
    var run := seq(15, k requires 0 <= k < 15 => At(a, s, b, k));
    forall i | 0 <= i < |run| - 1 ensures Moves(run[i], run[i + 1]) {
      EveryStep(a, s, b, i);
    }
    LastIsWrong(a, s, b);
    assert At(a, s, b, 14).requests[2].subject == s;
    hide Step, At, Outdone, Confuses;
    assert run[14] == At(a, s, b, 14) && run[0] == At(a, s, b, 0);
    assert WronglyReplaced(run, 2);
  }

  /** Version 10 of an object joins its version 5, and version 6 of another replaces both. */
  lemma TenIsReplacedBySix(plan: int, one: Key, other: Key)
    requires one != other
    ensures var scope := Scope(plan, 0);
            CanMislead({Subject(scope, 5, one), Subject(scope, 10, one), Subject(scope, 6, other)})
  {
    var scope := Scope(plan, 0);
    JoinersCanBeReplacedByOlder(Subject(scope, 5, one), Subject(scope, 10, one), Subject(scope, 6, other));
  }
}
