/**
 * Solves from their first frame to their closed row: each reads its own stream, has its timetable kept as a result, and
 * then closes its row. All of them interleave, with whatever else happens to the rows.
 */
module Dispatches {
  import opened Basics
  import opened SolveStream
  import opened SolveJobs

  /** One solve: the frames that arrived, how its stream ended, and what keeping its timetable answered. */
  datatype Solving = Solving(frames: seq<Frame>, end: Option<RunEnd>, hook: Option<Persist>)

  /** A result as it was stored: the job's, with this timetable. */
  datatype Kept = Kept(job: int, snapshot: int)

  /** `used` is every job id given out, and `kept` every result ever stored, trimmed since or not. */
  datatype Server = Server(rows: Rows, used: set<int>, solves: map<int, Solving>, kept: map<int, Kept>)

  datatype Label =
    | Open(j: int, job: Job)
    | Arrive(j: int, f: Frame)
    | End(j: int, end: RunEnd)
    | Keep(j: int, hook: Persist)
    | Close(j: int)
    | Work(change: Change)

  ghost predicate Step(s: Server, l: Label, s': Server) {
    match l
    case Open(j, job) =>
      j !in s.used && job.status == Pending && job.resultId.None?
      && s' == s.(rows := Applied(s.rows, Created(j, job)), used := s.used + {j},
                  solves := s.solves[j := Solving([], None, None)])
    case Arrive(j, f) =>
      j in s.solves && s.solves[j].end.None?
      && s' == s.(solves := s.solves[j := s.solves[j].(frames := s.solves[j].frames + [f])])
    case End(j, end) =>
      j in s.solves && s.solves[j].end.None? && s' == s.(solves := s.solves[j := s.solves[j].(end := Some(end))])
    case Keep(j, hook) =>
      j in s.solves && s.solves[j].end.Some? && s.solves[j].hook.None?
      && var found := Folded(s.solves[j].frames);
         found.snapshot.Some? && found.hasSchedule && hook != NoHook && (hook.Stores? ==> hook.id !in s.kept)
         && s' == s.(solves := s.solves[j := s.solves[j].(hook := Some(hook))],
                     kept := if hook.Stores? then s.kept[hook.id := Kept(j, found.snapshot.value)] else s.kept)
    case Close(j) =>
      j in s.solves && s.solves[j].end.Some?
      && (Folded(s.solves[j].frames).hasSchedule ==> s.solves[j].hook.Some?)
      && s' == s.(rows := Applied(s.rows, Closed(j, OutcomeOf(s.solves[j]))))
    case Work(change) =>
      !change.Created? && !change.Closed? && s' == s.(rows := Applied(s.rows, change))
  }

  /** What the dispatcher concludes of a solve that ended. */
  function OutcomeOf(v: Solving): Outcome
    requires v.end.Some?
  {
    Concluded(Folded(v.frames), v.end.value, v.hook.GetOr(NoHook))
  }

  ghost predicate Moves(s: Server, s': Server) {
    exists l :: Step(s, l, s')
  }

  ghost predicate Run(run: seq<Server>) {
    && |run| > 0 && run[0] == Server(map[], {}, map[], map[])
    && forall i :: 0 <= i < |run| - 1 ==> Moves(run[i], run[i + 1])
  }

  // -------------------------------------------------------------- invariant

  /** What was stored for this solve is the timetable its stream ended with. */
  ghost predicate HookFits(s: Server, j: int)
    requires j in s.solves
  {
    var v := s.solves[j];
    v.hook.Some? ==>
      && v.end.Some? && v.hook != Some(NoHook) && Folded(v.frames).snapshot.Some?
      && (v.hook.value.Stores? ==>
            v.hook.value.id in s.kept && s.kept[v.hook.value.id] == Kept(j, Folded(v.frames).snapshot.value))
  }

  /** What a row says of results, its solve knows. */
  ghost predicate RowFits(s: Server, j: int)
    requires j in s.rows
  {
    var job := s.rows[j];
    && (job.status == Done ==> job.resultId.Some? && j in s.solves && s.solves[j].end == Some(Clean))
    && (job.resultId.Some? ==>
          && j in s.solves && s.solves[j].hook == Some(Stores(job.resultId.value))
          && job.score == Folded(s.solves[j].frames).score && job.verdict == Folded(s.solves[j].frames).verdict)
  }

  ghost predicate Inv(s: Server) {
    && s.rows.Keys <= s.used && s.solves.Keys <= s.used
    && (forall j :: j in s.solves ==> HookFits(s, j))
    && (forall j :: j in s.rows ==> RowFits(s, j))
  }

  /** A stream that carried a timetable has one to keep. */
  lemma FoldedHas(frames: seq<Frame>)
    ensures Folded(frames).hasSchedule <==> Folded(frames).snapshot.Some?
  {
    FoldKeepsBest(frames);
  }

  lemma SolveStepKeeps(s: Server, l: Label, s': Server)
    requires Inv(s) && Step(s, l, s') && (l.Open? || l.Arrive? || l.End? || l.Keep?)
    ensures Inv(s')
  {
    hide Folded, Concluded;
    forall j | j in s'.solves ensures HookFits(s', j) {
      if j in s.solves { assert HookFits(s, j); }
    }
    forall j | j in s'.rows ensures RowFits(s', j) {
      if j in s.rows { assert RowFits(s, j); }
      if j in s.rows && j in s.solves { assert HookFits(s, j); }
    }
  }

  lemma RowStepKeeps(s: Server, l: Label, s': Server)
    requires Inv(s) && Step(s, l, s') && (l.Close? || l.Work?)
    ensures Inv(s')
  {
    hide Folded;
    forall j | j in s'.solves ensures HookFits(s', j) {
      assert HookFits(s, j);
    }
    if l.Close? { FoldedHas(s.solves[l.j].frames); }
    forall j | j in s'.rows ensures RowFits(s', j) {
      assert RowFits(s, j);
      if j in s.solves { assert HookFits(s, j); }
    }
  }

  lemma {:induction false} RunKeeps(run: seq<Server>, i: nat)
    requires Run(run) && i < |run|
    ensures Inv(run[i])
  {
    if i > 0 {
      RunKeeps(run, i - 1);
      assert Moves(run[i - 1], run[i]);
      hide Inv, Step;
      var l :| Step(run[i - 1], l, run[i]);
      if l.Close? || l.Work? {
        RowStepKeeps(run[i - 1], l, run[i]);
      } else {
        SolveStepKeeps(run[i - 1], l, run[i]);
      }
    }
  }

  /**
   * In every run a result that a job names was stored for that job, with the best timetable of its stream: the last of
   * those with the lowest objective, and the score and verdict in its row are what that stream reported.
   */
  lemma NamedResultIsBest(run: seq<Server>, i: nat, j: int) returns (best: nat)
    requires Run(run) && i < |run| && j in run[i].rows && run[i].rows[j].resultId.Some?
    ensures j in run[i].solves && run[i].rows[j].resultId.value in run[i].kept
    ensures var (frames, job) := (run[i].solves[j].frames, run[i].rows[j]);
            && best < |frames| && frames[best].phase != Progress && frames[best].snapshot.Some?
            && run[i].kept[job.resultId.value] == Kept(j, frames[best].snapshot.value)
            && job.score == Folded(frames).score && job.verdict == Folded(frames).verdict
            && forall k :: 0 <= k < |frames| && frames[k].phase != Progress && frames[k].snapshot.Some? ==>
                 && frames[best].objective <= frames[k].objective
                 && (k > best ==> frames[best].objective < frames[k].objective)
  {
    RunKeeps(run, i);
    hide Run, Folded;
    var s := run[i];
    assert RowFits(s, j) && HookFits(s, j);
    var frames := s.solves[j].frames;
    FoldKeepsBest(frames);
    var b: int :| LastBest(frames, b, Carries) && frames[b].snapshot == Folded(frames).snapshot;
    best := b;
    assert forall k :: 0 <= k < |frames| && frames[k].phase != Progress && frames[k].snapshot.Some? ==>
                         Carries(frames[k]);
  }

  /** In every run a job that says done names a result, and its stream ended cleanly. */
  lemma DoneHasResult(run: seq<Server>, i: nat, j: int)
    requires Run(run) && i < |run| && j in run[i].rows && run[i].rows[j].status == Done
    ensures run[i].rows[j].resultId.Some? && run[i].rows[j].resultId.value in run[i].kept
    ensures j in run[i].solves && run[i].solves[j].end == Some(Clean)
  {
    RunKeeps(run, i);
    assert RowFits(run[i], j);
    assert HookFits(run[i], j);
  }

  /** No two jobs name one result. */
  lemma ResultsAreTheirOwn(run: seq<Server>, i: nat, j: int, q: int)
    requires Run(run) && i < |run| && j in run[i].rows && q in run[i].rows
    requires run[i].rows[j].resultId.Some? && run[i].rows[j].resultId == run[i].rows[q].resultId
    ensures j == q
  {
    RunKeeps(run, i);
    assert RowFits(run[i], j) && RowFits(run[i], q);
    assert HookFits(run[i], j) && HookFits(run[i], q);
  }

  // ------------------------------------------------------ and they do run

  lemma RunOn(run: seq<Server>, l: Label, next: Server)
    requires Run(run) && Step(run[|run| - 1], l, next)
    ensures Run(run + [next])
  {
    hide Step;
    var more := run + [next];
    forall i | 0 <= i < |more| - 1 ensures Moves(more[i], more[i + 1]) {
      assert i < |run| - 1 ==> more[i] == run[i] && more[i + 1] == run[i + 1];
    }
  }

  lemma {:induction false} FramesArrive(j: int, job: Job, frames: seq<Frame>) returns (run: seq<Server>)
    requires job.status == Pending && job.resultId.None?
    ensures Run(run)
    ensures run[|run| - 1] == Server(map[j := job], {j}, map[j := Solving(frames, None, None)], map[])
    decreases |frames|
  {
    var now := Server(map[j := job], {j}, map[j := Solving(frames, None, None)], map[]);
    if frames == [] {
      run := [Server(map[], {}, map[], map[])];
      assert Step(run[0], Open(j, job), now);
      RunOn(run, Open(j, job), now);
    } else {
      var n := |frames| - 1;
      run := FramesArrive(j, job, frames[..n]);
      assert frames == frames[..n] + [frames[n]];
      assert Step(run[|run| - 1], Arrive(j, frames[n]), now);
      RunOn(run, Arrive(j, frames[n]), now);
    }
    run := run + [now];
  }

  /** Whatever arrives, however the stream ends and whatever keeping its timetable answers, a solve runs to its row. */
  lemma EverySolveRuns(j: int, job: Job, frames: seq<Frame>, end: RunEnd, hook: Persist) returns (run: seq<Server>)
    requires job.status == Pending && job.resultId.None? && hook != NoHook
    ensures Run(run)
    ensures var kept := if Folded(frames).hasSchedule then hook else NoHook;
            j in run[|run| - 1].rows
            && run[|run| - 1].rows[j] == WithOutcome(job, Concluded(Folded(frames), end, kept))
  {
    FoldedHas(frames);
    hide Folded, Concluded, WithOutcome;
    run := FramesArrive(j, job, frames);
    var s := run[|run| - 1];
    var ended := s.(solves := s.solves[j := Solving(frames, Some(end), None)]);
    assert Step(s, End(j, end), ended);
    RunOn(run, End(j, end), ended);
    run, s := run + [ended], ended;
    if Folded(frames).hasSchedule {
      var more := Kept(j, Folded(frames).snapshot.value);
      var stored := s.(solves := s.solves[j := Solving(frames, Some(end), Some(hook))],
                       kept := if hook.Stores? then s.kept[hook.id := more] else s.kept);
      assert Step(s, Label.Keep(j, hook), stored);
      RunOn(run, Label.Keep(j, hook), stored);
      run, s := run + [stored], stored;
    }
    var closed := s.(rows := Applied(s.rows, Closed(j, OutcomeOf(s.solves[j]))));
    assert Step(s, Close(j), closed);
    RunOn(run, Close(j), closed);
    run := run + [closed];
  }
}
