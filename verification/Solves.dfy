/**
 * Stopping solves. A solve registers before it checks its plan and its node; whoever stops a plan or a node
 * writes the flag before it scans the registry. Each thread has its own program counter, and all interleave.
 */
module Solves {
  /** What is stopped: one node's solves, one plan's, or every solve when the server closes. */
  datatype Target = OfNode(node: int) | OfPlan(plan: int) | Everything

  /** Where one solve's goroutine stands. `Done` is after its channel closed. */
  datatype At = Begun | Registered | PlanChecked | NodeChecked | Dialled | Ended | Unregistered | Done

  datatype Solve = Solve(plan: int, node: int, at: At)

  /**
   * Where a revoke, a plan's deletion or a shutdown stands. `Cancelling` is the first pass of a deletion,
   * before the plan is in Trash; `ok` is whether it waited and every wait ran to its end.
   */
  datatype Stage = Starting | Cancelling(first: set<int>) | Flagged | Waiting(waiting: set<int>) | Returned(ok: bool)

  /** `undone` is ghost history: the flag this one wrote has been taken back since. */
  datatype Stopper = Stopper(target: Target, stage: Stage, undone: bool)

  datatype World = World(solves: map<int, Solve>, stoppers: map<int, Stopper>, revoked: set<int>, trashed: set<int>,
                         closed: bool)

  datatype Label =
    | Begin(j: int, plan: int, node: int)
    | Register(j: int)
    | CheckPlan(j: int)
    | CheckNode(j: int)
    | Dial(j: int)
    | End(j: int)
    | Unregister(j: int)
    | CloseDone(j: int)
    | Stop(s: int, target: Target)
    | FirstScan(s: int)
    | FirstWait(s: int, j: int)
    | Flag(s: int)
    | Skip(s: int)
    | Scan(s: int)
    | Wait(s: int, j: int)
    | Return(s: int)
    | GiveUp(s: int)
    | Undo(target: Target)

  predicate Matches(v: Solve, target: Target) {
    match target
    case OfNode(n) => v.node == n
    case OfPlan(p) => v.plan == p
    case Everything => true
  }

  /** The runner's registry holds it. */
  predicate Running(v: Solve) {
    v.at in {Registered, PlanChecked, NodeChecked, Dialled, Ended}
  }

  function Registry(w: World, target: Target): set<int> {
    set j | j in w.solves && Running(w.solves[j]) && Matches(w.solves[j], target)
  }

  /** A shutdown waits for every solve it ever took on, off the registry or not; the others for those on it. */
  function Awaited(w: World, target: Target): set<int> {
    if target.Everything? then set j | j in w.solves && (Running(w.solves[j]) || w.solves[j].at == Unregistered)
    else Registry(w, target)
  }

  predicate FlagSet(w: World, target: Target) {
    match target
    case OfNode(n) => n in w.revoked
    case OfPlan(p) => p in w.trashed
    case Everything => w.closed
  }

  /**
   * Past the check that would have seen the target's flag, and its stream not over; a shutdown waits for the row too.
   */
  predicate Past(v: Solve, target: Target) {
    match target
    case OfNode(_) => v.at in {NodeChecked, Dialled}
    case OfPlan(_) => v.at in {PlanChecked, NodeChecked, Dialled}
    case Everything => v.at in {Registered, PlanChecked, NodeChecked, Dialled, Ended, Unregistered}
  }

  function Moved(w: World, j: int, at: At): World
    requires j in w.solves
  {
    w.(solves := w.solves[j := w.solves[j].(at := at)])
  }

  function Staged(w: World, s: int, stage: Stage): World
    requires s in w.stoppers
  {
    w.(stoppers := w.stoppers[s := w.stoppers[s].(stage := stage)])
  }

  function WithFlag(w: World, target: Target): World {
    match target
    case OfNode(n) => w.(revoked := w.revoked + {n})
    case OfPlan(p) => w.(trashed := w.trashed + {p})
    case Everything => w.(closed := true)
  }

  /** The node is paired again, or the plan restored. A closed server stays closed. */
  function WithoutFlag(w: World, target: Target): World {
    var stoppers := map s | s in w.stoppers ::
                      if w.stoppers[s].target == target then w.stoppers[s].(undone := true) else w.stoppers[s];
    match target
    case OfNode(n) => w.(revoked := w.revoked - {n}, stoppers := stoppers)
    case OfPlan(p) => w.(trashed := w.trashed - {p}, stoppers := stoppers)
    case Everything => w
  }

  predicate IsAt(w: World, j: int, at: At) {
    j in w.solves && w.solves[j].at == at
  }

  /** A solve's own steps. Each check either passes it on or ends it; it may end at any time on its own. */
  ghost predicate SolveStep(w: World, l: Label, w': World) {
    match l
    case Begin(j, plan, node) => j !in w.solves && w' == w.(solves := w.solves[j := Solve(plan, node, Begun)])
    case Register(j) => IsAt(w, j, Begun) && !w.closed && w' == Moved(w, j, Registered)
    case CheckPlan(j) =>
      IsAt(w, j, Registered)
      && w' == Moved(w, j, if w.solves[j].plan in w.trashed then Ended else PlanChecked)
    case CheckNode(j) =>
      IsAt(w, j, PlanChecked)
      && w' == Moved(w, j, if w.solves[j].node in w.revoked then Ended else NodeChecked)
    case Dial(j) => IsAt(w, j, NodeChecked) && w' == Moved(w, j, Dialled)
    case End(j) => j in w.solves && Running(w.solves[j]) && w' == Moved(w, j, Ended)
    case Unregister(j) => IsAt(w, j, Ended) && w' == Moved(w, j, Unregistered)
    case CloseDone(j) => IsAt(w, j, Unregistered) && w' == Moved(w, j, Done)
    case _ => false
  }

  predicate StageIs(w: World, s: int, stage: Stage) {
    s in w.stoppers && w.stoppers[s].stage == stage
  }

  ghost predicate StopStep(w: World, l: Label, w': World) {
    match l
    case Stop(s, target) =>
      s !in w.stoppers && w' == w.(stoppers := w.stoppers[s := Stopper(target, Starting, false)])
    case FirstScan(s) =>
      StageIs(w, s, Starting) && w.stoppers[s].target.OfPlan?
      && w' == Staged(w, s, Cancelling(Registry(w, w.stoppers[s].target)))
    case FirstWait(s, j) =>
      s in w.stoppers && w.stoppers[s].stage.Cancelling? && j in w.stoppers[s].stage.first && IsAt(w, j, Done)
      && w' == Staged(w, s, Cancelling(w.stoppers[s].stage.first - {j}))
    case Flag(s) =>
      (if s in w.stoppers && w.stoppers[s].target.OfPlan? then StageIs(w, s, Cancelling({}))
       else StageIs(w, s, Starting))
      && (w.stoppers[s].target.Everything? ==> !w.closed)
      && w' == WithFlag(w, w.stoppers[s].target).(
           stoppers := w.stoppers[s := w.stoppers[s].(stage := Flagged, undone := false)])
    case Skip(s) =>
      StageIs(w, s, Starting) && w.stoppers[s].target.Everything? && w.closed && w' == Staged(w, s, Returned(false))
    case Scan(s) =>
      StageIs(w, s, Flagged) && w' == Staged(w, s, Waiting(Awaited(w, w.stoppers[s].target)))
    case Wait(s, j) =>
      s in w.stoppers && w.stoppers[s].stage.Waiting? && j in w.stoppers[s].stage.waiting && IsAt(w, j, Done)
      && w' == Staged(w, s, Waiting(w.stoppers[s].stage.waiting - {j}))
    case Return(s) => StageIs(w, s, Waiting({})) && w' == Staged(w, s, Returned(true))
    case GiveUp(s) =>
      s in w.stoppers && (w.stoppers[s].stage.Waiting? || w.stoppers[s].stage.Cancelling?)
      && !w.stoppers[s].target.Everything? && w' == Staged(w, s, Returned(false))
    case Undo(target) => w' == WithoutFlag(w, target)
    case _ => false
  }

  ghost predicate Step(w: World, l: Label, w': World) {
    SolveStep(w, l, w') || StopStep(w, l, w')
  }

  const Quiet := World(map[], map[], {}, {}, false)

  // -------------------------------------------------------------- invariant

  /** What a stopper that wrote its flag knows, for as long as the flag stands. */
  ghost predicate Holds(w: World, s: Stopper) {
    (s.stage.Flagged? || s.stage.Waiting? || s.stage == Returned(true)) && !s.undone ==>
      && FlagSet(w, s.target)
      && (s.stage.Waiting? ==>
            forall j :: j in w.solves && Matches(w.solves[j], s.target) && Past(w.solves[j], s.target) ==>
              j in s.stage.waiting)
      && (s.stage.Returned? ==> forall j :: j in w.solves && Matches(w.solves[j], s.target)
                                            ==> !Past(w.solves[j], s.target))
  }

  ghost predicate Inv(w: World) {
    forall s :: s in w.stoppers ==> Holds(w, w.stoppers[s])
  }

  lemma SolveStepKeeps(w: World, l: Label, w': World)
    requires Inv(w) && SolveStep(w, l, w')
    ensures Inv(w')
  {
    forall s | s in w'.stoppers ensures Holds(w', w'.stoppers[s]) {
      assert Holds(w, w.stoppers[s]);
    }
  }

  lemma StopStepKeeps(w: World, l: Label, w': World)
    requires Inv(w) && StopStep(w, l, w')
    ensures Inv(w')
  {
    forall s | s in w'.stoppers ensures Holds(w', w'.stoppers[s]) {
      if s in w.stoppers { assert Holds(w, w.stoppers[s]); }
    }
  }

  ghost predicate Moves(w: World, w': World) {
    exists l :: Step(w, l, w')
  }

  ghost predicate Run(run: seq<World>) {
    |run| > 0 && run[0] == Quiet && forall i :: 0 <= i < |run| - 1 ==> Moves(run[i], run[i + 1])
  }

  lemma {:induction false} RunKeeps(run: seq<World>, i: nat)
    requires Run(run) && i < |run|
    ensures Inv(run[i])
  {
    if i > 0 {
      RunKeeps(run, i - 1);
      assert Moves(run[i - 1], run[i]);
      hide Inv, SolveStep, StopStep;
      var l :| Step(run[i - 1], l, run[i]);
      if SolveStep(run[i - 1], l, run[i]) {
        SolveStepKeeps(run[i - 1], l, run[i]);
      } else {
        StopStepKeeps(run[i - 1], l, run[i]);
      }
    }
  }

  /**
   * Once a revoke, a deletion or a shutdown returned with its waits done, and until its flag is taken back, no
   * solve of its node, its plan or the server is at its node or will get there.
   */
  lemma StoppedStaysStopped(run: seq<World>, i: nat, s: int, j: int)
    requires Run(run) && i < |run| && s in run[i].stoppers && j in run[i].solves
    requires run[i].stoppers[s].stage == Returned(true) && !run[i].stoppers[s].undone
    requires match run[i].stoppers[s].target
             case OfNode(node) => run[i].solves[j].node == node
             case OfPlan(plan) => run[i].solves[j].plan == plan
             case Everything => true
    ensures run[i].solves[j].at != Dialled && run[i].solves[j].at != NodeChecked
    ensures run[i].stoppers[s].target.OfPlan? ==> run[i].solves[j].at != PlanChecked
    ensures run[i].stoppers[s].target.Everything? ==> run[i].solves[j].at == Begun || run[i].solves[j].at == Done
  {
    RunKeeps(run, i);
    assert Holds(run[i], run[i].stoppers[s]);
  }

  /** A stopper that returned stays returned; only taking its flag back ends its word. */
  lemma {:induction false} ReturnedStays(run: seq<World>, i: nat, k: nat, s: int)
    requires Run(run) && i <= k < |run| && s in run[i].stoppers && run[i].stoppers[s].stage == Returned(true)
    ensures s in run[k].stoppers && run[k].stoppers[s].stage == Returned(true)
    ensures run[k].stoppers[s].target == run[i].stoppers[s].target
    ensures run[i].stoppers[s].undone ==> run[k].stoppers[s].undone
  {
    if i < k {
      ReturnedStays(run, i, k - 1, s);
      assert Moves(run[k - 1], run[k]);
      hide Run, SolveStep, StopStep;
      var l :| Step(run[k - 1], l, run[k]);
      ReturnedStep(run[k - 1], l, run[k], s);
    }
  }

  lemma ReturnedStep(w: World, l: Label, w': World, s: int)
    requires Step(w, l, w') && s in w.stoppers && w.stoppers[s].stage == Returned(true)
    ensures s in w'.stoppers && w'.stoppers[s].stage == Returned(true)
    ensures w'.stoppers[s].target == w.stoppers[s].target && (w.stoppers[s].undone ==> w'.stoppers[s].undone)
  {
  }

  // ---------------------------------------------- why a deletion scans twice

  /** How far a solve is on its way to its node. */
  function OnItsWay(k: nat): At {
    if k == 1 then Begun else if k == 2 then Registered else if k == 3 then PlanChecked
    else if k == 4 then NodeChecked else Dialled
  }

  function Dialling(w: World, k: nat): World {
    if k == 0 then w else w.(solves := map[7 := Solve(1, 2, OnItsWay(k))])
  }

  /** A solve gets to its node while nothing that would stop it is flagged. */
  lemma DiallingMoves(w: World, k: nat)
    requires k < 5 && w.solves == map[] && !w.closed && 1 !in w.trashed && 2 !in w.revoked
    ensures Moves(Dialling(w, k), Dialling(w, k + 1))
  {
    var labels := [Begin(7, 1, 2), Register(7), CheckPlan(7), CheckNode(7), Dial(7)];
    assert SolveStep(Dialling(w, k), labels[k], Dialling(w, k + 1));
    assert Step(Dialling(w, k), labels[k], Dialling(w, k + 1));
  }

  /** A plan being deleted, its first pass over. */
  function Deleting(stage: Stage): World {
    Quiet.(stoppers := map[0 := Stopper(OfPlan(1), stage, false)])
  }

  /** The first wait is over and the plan is in Trash, and still one of its solves is at its node. */
  ghost predicate StillDialled(run: seq<World>, s: int, j: int) {
    && Run(run)
    && var w := run[|run| - 1];
       StageIs(w, s, Flagged) && w.stoppers[s].target.OfPlan? && FlagSet(w, w.stoppers[s].target)
       && IsAt(w, j, Dialled) && Matches(w.solves[j], w.stoppers[s].target)
  }

  lemma OneScanIsNotEnough()
    ensures exists run, s, j :: StillDialled(run, s, j)
  {
    var start, passed := Deleting(Starting), Deleting(Cancelling({}));
    var last := Dialling(Deleting(Flagged), 5).(trashed := {1});
    var run := [Quiet, start, passed, Dialling(passed, 1), Dialling(passed, 2), Dialling(passed, 3),
                Dialling(passed, 4), Dialling(passed, 5), last];
    forall i | 0 <= i < |run| - 1 ensures Moves(run[i], run[i + 1]) {
      if 2 <= i < 7 { DiallingMoves(passed, i - 2); } else { DeletingMoves(i); }
    }
    assert StillDialled(run, 0, 7);
  }

  /** A deletion begins, finds nothing to wait for, and flags its plan. */
  lemma DeletingMoves(i: nat)
    ensures i == 0 ==> Moves(Quiet, Deleting(Starting))
    ensures i == 1 ==> Moves(Deleting(Starting), Deleting(Cancelling({})))
    ensures i == 7 ==> Moves(Dialling(Deleting(Cancelling({})), 5), Dialling(Deleting(Flagged), 5).(trashed := {1}))
  {
    assert StopStep(Quiet, Stop(0, OfPlan(1)), Deleting(Starting));
    assert Step(Quiet, Stop(0, OfPlan(1)), Deleting(Starting));
    assert Registry(Deleting(Starting), OfPlan(1)) == {};
    assert StopStep(Deleting(Starting), FirstScan(0), Deleting(Cancelling({})));
    assert Step(Deleting(Starting), FirstScan(0), Deleting(Cancelling({})));
    var (before, after) := (Dialling(Deleting(Cancelling({})), 5), Dialling(Deleting(Flagged), 5).(trashed := {1}));
    assert StopStep(before, Flag(0), after);
    assert Step(before, Flag(0), after);
  }

  // ------------------------------------------------- a server closed twice

  /** A shutdown past its first look: it found the server closed and returned, or wrote its flag and waits. */
  predicate ShutsDown(w: World, s: int, found: bool) {
    && s in w.stoppers && w.stoppers[s].target.Everything?
    && (if found then w.stoppers[s].stage == Returned(false)
        else !w.stoppers[s].undone && (w.stoppers[s].stage.Flagged? || w.stoppers[s].stage.Waiting?
                                       || w.stoppers[s].stage == Returned(true)))
  }

  lemma ShutdownLooks(w: World, l: Label, w': World, s: int)
    requires Step(w, l, w') && StageIs(w, s, Starting) && w.stoppers[s].target.Everything? && !StageIs(w', s, Starting)
    ensures ShutsDown(w', s, w.closed)
  {
  }

  lemma ShutdownGoesOn(w: World, l: Label, w': World, s: int, found: bool)
    requires Step(w, l, w') && ShutsDown(w, s, found)
    ensures ShutsDown(w', s, found)
  {
  }

  lemma {:induction false} ShutdownStays(run: seq<World>, i: nat, k: nat, s: int)
    requires Run(run) && i < k < |run| && StageIs(run[i], s, Starting) && run[i].stoppers[s].target.Everything?
    requires !StageIs(run[i + 1], s, Starting)
    ensures ShutsDown(run[k], s, run[i].closed)
  {
    hide SolveStep, StopStep, ShutsDown;
    assert Moves(run[k - 1], run[k]);
    if i + 1 < k {
      ShutdownStays(run, i, k - 1, s);
    }
    hide Run;
    var l :| Step(run[k - 1], l, run[k]);
    if i + 1 < k {
      ShutdownGoesOn(run[k - 1], l, run[k], s, run[i].closed);
    } else {
      ShutdownLooks(run[i], l, run[k], s);
    }
  }

  /** Never taken on, or all done. */
  lemma NotPast(v: Solve)
    ensures Matches(v, Everything) && (!Past(v, Everything) ==> v.at == Begun || v.at == Done)
  {
  }

  /**
   * A shutdown waits exactly when it found the server open: in every run, one that looked at step `i` and returned by
   * step `k` waited for every solve ever taken on, whose rows are then written, or else found the server closed.
   */
  lemma CloseWaitsExactly(run: seq<World>, i: nat, k: nat, s: int, ok: bool)
    requires Run(run) && i < k < |run| && StageIs(run[i], s, Starting) && run[i].stoppers[s].target.Everything?
    requires !StageIs(run[i + 1], s, Starting) && StageIs(run[k], s, Returned(ok))
    ensures ok <==> !run[i].closed
    ensures ok ==> forall j :: j in run[k].solves ==> run[k].solves[j].at == Begun || run[k].solves[j].at == Done
  {
    ShutdownStays(run, i, k, s);
    RunKeeps(run, k);
    hide Run, Past;
    if ok {
      assert Holds(run[k], run[k].stoppers[s]);
      forall j | j in run[k].solves ensures run[k].solves[j].at == Begun || run[k].solves[j].at == Done {
        NotPast(run[k].solves[j]);
      }
    }
  }

  /** A shutdown that found the server closed returned, and a solve is still at its node. */
  ghost predicate ReturnedEarly(run: seq<World>, s: int, j: int) {
    && Run(run)
    && var w := run[|run| - 1];
       StageIs(w, s, Returned(false)) && w.stoppers[s].target.Everything? && w.closed && IsAt(w, j, Dialled)
  }

  function CloseAt(k: nat): World {
    var first := Stopper(Everything, if k == 1 then Starting else Flagged, false);
    var second := Stopper(Everything, if k == 3 then Starting else Returned(false), false);
    Dialling(Quiet, 5).(closed := k >= 2,
               stoppers := if k == 0 then map[] else if k <= 2 then map[0 := first] else map[0 := first, 1 := second])
  }

  /** The server is closed, and closed again. */
  lemma CloseMoves(k: nat)
    requires k < 4
    ensures Moves(CloseAt(k), CloseAt(k + 1))
  {
    var labels := [Stop(0, Everything), Flag(0), Stop(1, Everything), Skip(1)];
    assert StopStep(CloseAt(k), labels[k], CloseAt(k + 1));
    assert Step(CloseAt(k), labels[k], CloseAt(k + 1));
  }

  /** And then it may return at once: here while a solve is at its node. */
  lemma SecondCloseDoesNotWait()
    ensures exists run, s, j :: ReturnedEarly(run, s, j)
  {
    var run := [Quiet, Dialling(Quiet, 1), Dialling(Quiet, 2), Dialling(Quiet, 3), Dialling(Quiet, 4),
                Dialling(Quiet, 5), CloseAt(1), CloseAt(2), CloseAt(3), CloseAt(4)];
    assert CloseAt(0) == Dialling(Quiet, 5);
    forall i | 0 <= i < |run| - 1 ensures Moves(run[i], run[i + 1]) {
      if i < 5 { DiallingMoves(Quiet, i); } else { CloseMoves(i - 5); }
    }
    assert ReturnedEarly(run, 1, 7);
  }
}
