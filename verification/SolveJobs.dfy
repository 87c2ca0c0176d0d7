/** The job rows of solves: how one is opened, run and closed, and what a closed one says. */
module SolveJobs {
  import opened Basics
  import opened SolveStream

  datatype JobStatus = Pending | Running | Done | Failed | Cancelled

  datatype Job = Job(node: int, status: JobStatus, workers: nat, seconds: nat, stall: nat, reason: string,
                     detail: string, resultId: Option<int>, score: Option<int>, verdict: Option<int>,
                     explanation: Option<int>)

  /** What closing a row writes into it; 0 workers or 0 seconds leave what is there. */
  datatype Outcome = Outcome(status: JobStatus, reason: string, detail: string, resultId: Option<int>,
                             score: Option<int>, verdict: Option<int>, explanation: Option<int>,
                             workers: nat, seconds: nat)

  /** How the stream ended: to its end, by the caller stopping it, or broken. */
  datatype RunEnd = Clean | Stopped(text: string) | Broken(text: string)

  /** What keeping the timetable as a result answered; `NoHook` is a dispatcher without one. */
  datatype Persist = NoHook | Stores(id: int) | Fails(text: string)

  const NODE_ERROR := "solve.node_error"
  const PREFLIGHT_FAILED := "solve.preflight_failed"
  const INFEASIBLE := "solve.infeasible"
  const NO_SCHEDULE_IN_TIME := "solve.no_schedule_in_time"
  const RESULT_NOT_STORED := "solve.result_not_stored"
  const SERVER_RESTARTED := "solve.server_restarted"

  predicate Open(status: JobStatus) {
    status == Pending || status == Running
  }

  function FailureReason(status: Status): string {
    match status
    case Infeasible => INFEASIBLE
    case Timeout => NO_SCHEDULE_IN_TIME
    case _ => NODE_ERROR
  }

  /** The status and reason before anything is stored. */
  method Judge(found: Found, end: RunEnd) returns (status: JobStatus, reason: string, detail: string)
    ensures status == Done <==> end == Clean && found.status != CancelledThere && found.hasSchedule
    ensures status == Cancelled <==> end.Stopped? || (end == Clean && found.status == CancelledThere)
    ensures status in {Done, Failed, Cancelled}
    ensures status != Failed ==> reason == ""
    ensures status == Failed ==>
              reason == if end.Broken? then "solve.node_error"
                        else if found.status == Infeasible then "solve.infeasible"
                        else if found.status == Timeout then "solve.no_schedule_in_time"
                        else if found.status == Error && found.preflightRefused then "solve.preflight_failed"
                        else "solve.node_error"
    ensures detail == if end == Clean then found.message else end.text
    ensures status == EndStatus(found, end) && reason == EndReason(found, end) && detail == EndDetail(found, end)
  {
    status, reason, detail := Done, "", found.message;
    if end != Clean {
      status, detail := Failed, end.text;
      if end.Stopped? {
        status := Cancelled;
      } else {
        reason := NODE_ERROR;
      }
    } else if found.status == CancelledThere {
      status := Cancelled;
    } else if !found.hasSchedule {
      status, reason := Failed, FailureReason(found.status);
      if found.status == Error && found.preflightRefused {
        reason := PREFLIGHT_FAILED;
      }
    }
  }

  /** Whether a timetable that arrived could not be kept. */
  predicate Lost(found: Found, hook: Persist) {
    found.hasSchedule && hook.Fails?
  }

  function EndStatus(found: Found, end: RunEnd): JobStatus {
    match end
    case Stopped(_) => Cancelled
    case Broken(_) => Failed
    case Clean => if found.status == CancelledThere then Cancelled else if found.hasSchedule then Done else Failed
  }

  function EndReason(found: Found, end: RunEnd): string {
    match end
    case Stopped(_) => ""
    case Broken(_) => NODE_ERROR
    case Clean =>
      if EndStatus(found, end) != Failed then ""
      else if found.status == Error && found.preflightRefused then PREFLIGHT_FAILED else FailureReason(found.status)
  }

  function EndDetail(found: Found, end: RunEnd): string {
    match end
    case Clean => found.message
    case Stopped(text) => text
    case Broken(text) => text
  }

  /** The outcome of a solve: how its stream ended, unless its timetable could not be kept. */
  function Concluded(found: Found, end: RunEnd, hook: Persist): Outcome {
    var status := EndStatus(found, end);
    Outcome(if Lost(found, hook) && status == Done then Failed else status,
            if Lost(found, hook) then RESULT_NOT_STORED else EndReason(found, end),
            if Lost(found, hook) then EndDetail(found, end) + "; the schedule could not be stored: " + hook.text
            else EndDetail(found, end),
            if found.hasSchedule && hook.Stores? then Some(hook.id) else None,
            if found.hasSchedule then found.score else None, found.verdict, found.explanation,
            if found.config.Some? then found.config.value.workers else 0,
            if found.config.Some? then found.config.value.seconds else 0)
  }

  /** What the row will say: the timetable is kept first, and one that cannot be kept fails a solve that was done. */
  method Conclude(found: Found, end: RunEnd, hook: Persist) returns (o: Outcome)
    ensures o == Concluded(found, end, hook)
    ensures o.resultId == if found.hasSchedule && hook.Stores? then Some(hook.id) else None
    ensures o.status == Done <==>
              end == Clean && found.status != CancelledThere && found.hasSchedule && !hook.Fails?
    ensures o.status == Cancelled <==> end.Stopped? || (end == Clean && found.status == CancelledThere)
    ensures o.status in {Done, Failed, Cancelled}
    ensures o.status == Done && hook != NoHook ==> o.resultId.Some?
    ensures o.status == Failed ==> o.reason != ""
    ensures found.hasSchedule && hook.Fails? ==>
              && o.reason == "solve.result_not_stored"
              && o.detail == (if end == Clean then found.message else end.text)
                             + "; the schedule could not be stored: " + hook.text
    ensures !(found.hasSchedule && hook.Fails?) ==> o.detail == if end == Clean then found.message else end.text
    ensures o.score == (if found.hasSchedule then found.score else None)
            && o.verdict == found.verdict && o.explanation == found.explanation
    ensures found.config.Some? ==> o.workers == found.config.value.workers && o.seconds == found.config.value.seconds
    ensures found.config.None? ==> o.workers == 0 && o.seconds == 0
  {
    var status, reason, detail := Judge(found, end);
    var stored := None;
    if found.hasSchedule && hook != NoHook {
      if hook.Stores? {
        stored := Some(hook.id);
      } else {
        if status == Done {
          status := Failed;
        }
        reason := RESULT_NOT_STORED;
        detail := detail + "; the schedule could not be stored: " + hook.text;
      }
    }
    o := Outcome(status, reason, detail, stored, if found.hasSchedule then found.score else None, found.verdict,
                 found.explanation, if found.config.Some? then found.config.value.workers else 0,
                 if found.config.Some? then found.config.value.seconds else 0);
  }

  // ------------------------------------------------------------ the table

  type Rows = map<int, Job>

  datatype Change =
    | Created(id: int, job: Job)
    | Started(id: int)
    | Granted(id: int, seconds: nat, workers: nat, stall: nat)
    | Closed(id: int, outcome: Outcome)
    | Orphaned
    | Removed(ids: set<int>)

  function WithOutcome(job: Job, o: Outcome): Job {
    job.(status := o.status, reason := o.reason, detail := o.detail, resultId := o.resultId, score := o.score,
         verdict := o.verdict, explanation := o.explanation,
         workers := if o.workers > 0 then o.workers else job.workers,
         seconds := if o.seconds > 0 then o.seconds else job.seconds)
  }

  /** `update ... where status in ('pending', 'running')`. */
  function Orphans(rows: Rows): Rows {
    map id | id in rows ::
      if Open(rows[id].status) then rows[id].(status := Failed, reason := SERVER_RESTARTED) else rows[id]
  }

  function Applied(rows: Rows, c: Change): Rows {
    match c
    case Created(id, job) => rows[id := job]
    case Started(id) =>
      if id in rows && rows[id].status == Pending then rows[id := rows[id].(status := Running)] else rows
    case Granted(id, seconds, workers, stall) =>
      if id in rows then
        rows[id := rows[id].(seconds := if seconds > 0 then seconds else rows[id].seconds,
                             workers := if workers > 0 then workers else rows[id].workers, stall := stall)]
      else rows
    case Closed(id, o) =>
      if id in rows && Open(rows[id].status) then rows[id := WithOutcome(rows[id], o)] else rows
    case Orphaned => Orphans(rows)
    case Removed(ids) => rows - ids
  }

  /** A row as it is opened. */
  function NewJob(node: int, workers: nat, seconds: nat, stall: nat): Job {
    Job(node, Pending, workers, seconds, stall, "", "", None, None, None, None)
  }

  /** The jobs table. */
  class Jobs {
    var rows: Rows

    constructor ()
      ensures rows == map[]
    {
      rows := map[];
    }

    method Create(id: int, node: int, workers: nat, seconds: nat, stall: nat)
      requires id !in rows
      modifies this
      ensures rows == Applied(old(rows), Created(id, NewJob(node, workers, seconds, stall)))
      ensures rows == old(rows)[id := Job(node, Pending, workers, seconds, stall, "", "", None, None, None, None)]
      ensures |ActiveOn(rows, node)| == |ActiveOn(old(rows), node)| + 1
    {
      CountFollows(rows, Created(id, NewJob(node, workers, seconds, stall)), node);
      rows := rows[id := NewJob(node, workers, seconds, stall)];
    }

    method Start(id: int)
      modifies this
      ensures rows == Applied(old(rows), Started(id))
      ensures rows.Keys == old(rows).Keys
      ensures forall j :: j in rows ==>
                if j == id && old(rows)[j].status == Pending then rows[j] == old(rows)[j].(status := Running)
                else rows[j] == old(rows)[j]
    {
      if id in rows && rows[id].status == Pending {
        rows := rows[id := rows[id].(status := Running)];
      }
    }

    method Grant(id: int, seconds: nat, workers: nat, stall: nat)
      modifies this
      ensures rows == Applied(old(rows), Granted(id, seconds, workers, stall))
      ensures rows.Keys == old(rows).Keys
      ensures forall j :: j in rows && j != id ==> rows[j] == old(rows)[j]
      ensures id in rows ==>
                && rows[id] == old(rows)[id].(seconds := rows[id].seconds, workers := rows[id].workers, stall := stall)
                && rows[id].seconds == (if seconds > 0 then seconds else old(rows)[id].seconds)
                && rows[id].workers == if workers > 0 then workers else old(rows)[id].workers
    {
      if id in rows {
        var job := rows[id];
        if seconds > 0 {
          job := job.(seconds := seconds);
        }
        if workers > 0 {
          job := job.(workers := workers);
        }
        rows := rows[id := job.(stall := stall)];
      }
    }

    /** Closes a job. `found` is false when there is no such row; a row already closed stays as it is. */
    method Finish(id: int, o: Outcome) returns (found: bool, terminal: bool)
      modifies this
      ensures terminal <==> !Open(o.status)
      ensures rows == if terminal then Applied(old(rows), Closed(id, o)) else old(rows)
      ensures terminal <==> o.status in {Done, Failed, Cancelled}
      ensures terminal ==> (found <==> id in old(rows))
      ensures rows.Keys == old(rows).Keys
      ensures forall j :: j in rows && (j != id || !terminal || old(rows)[j].status !in {Pending, Running}) ==>
                rows[j] == old(rows)[j]
      ensures terminal && id in rows && old(rows)[id].status in {Pending, Running} ==>
                var (was, job) := (old(rows)[id], rows[id]);
                && job.status == o.status && job.reason == o.reason && job.detail == o.detail
                && job.resultId == o.resultId && job.score == o.score && job.verdict == o.verdict
                && job.explanation == o.explanation && job.node == was.node && job.stall == was.stall
                && job.workers == (if o.workers > 0 then o.workers else was.workers)
                && job.seconds == (if o.seconds > 0 then o.seconds else was.seconds)
    {
      if o.status != Done && o.status != Failed && o.status != Cancelled {
        return false, false;
      }
      if id !in rows {
        return false, true;
      }
      if Open(rows[id].status) {
        rows := rows[id := WithOutcome(rows[id], o)];
      }
      return true, true;
    }

    method CountActive(node: int) returns (n: nat)
      ensures n == |ActiveOn(rows, node)|
      ensures n == |set id | id in rows && rows[id].node == node && rows[id].status in {Pending, Running}|
    {
      n := |ActiveOn(rows, node)|;
      var open := set id | id in rows && rows[id].node == node && rows[id].status in {Pending, Running};
      assert forall id :: id in open <==> id in ActiveOn(rows, node);
      assert open == ActiveOn(rows, node);
    }

    /** Fails every job a previous process left open, so none counts against its node for ever. */
    method CloseOrphans() returns (closed: nat)
      modifies this
      ensures rows == Applied(old(rows), Orphaned)
      ensures rows.Keys == old(rows).Keys
      ensures forall j :: j in rows ==>
                if old(rows)[j].status in {Pending, Running}
                then rows[j] == old(rows)[j].(status := Failed, reason := "solve.server_restarted")
                else rows[j] == old(rows)[j]
      ensures closed == |set j | j in old(rows) && old(rows)[j].status in {Pending, Running}|
      ensures forall node :: ActiveOn(rows, node) == {}
    {
      closed := |set id | id in rows && Open(rows[id].status)|;
      assert (set id | id in rows && Open(rows[id].status))
             == set j | j in rows && rows[j].status in {Pending, Running};
      rows := Orphans(rows);
      forall node ensures ActiveOn(rows, node) == {} {
        forall id ensures id !in ActiveOn(rows, node) {}
      }
    }
  }

  /** The jobs that count against a node's solves at once. */
  function ActiveOn(rows: Rows, node: int): set<int> {
    set id | id in rows && rows[id].node == node && Open(rows[id].status)
  }

  predicate CountsOn(rows: Rows, id: int, node: int) {
    id in rows && rows[id].node == node && Open(rows[id].status)
  }

  /** What one change adds to a node's count, and what it takes away. */
  function Added(c: Change, node: int): set<int> {
    if c.Created? && c.job.node == node && Open(c.job.status) then {c.id} else {}
  }

  function Ended(rows: Rows, c: Change, node: int): set<int> {
    match c
    case Closed(id, o) => if CountsOn(rows, id, node) && !Open(o.status) then {id} else {}
    case Orphaned => ActiveOn(rows, node)
    case Removed(ids) => set id | id in ids && CountsOn(rows, id, node)
    case _ => {}
  }

  lemma CountedAfter(rows: Rows, c: Change, node: int, id: int)
    requires c.Created? ==> c.id !in rows
    ensures CountsOn(Applied(rows, c), id, node)
            <==> (CountsOn(rows, id, node) || id in Added(c, node)) && id !in Ended(rows, c, node)
  {
  }

  lemma AddedAndEnded(rows: Rows, c: Change, node: int)
    requires c.Created? ==> c.id !in rows
    ensures ActiveOn(rows, node) !! Added(c, node) && Ended(rows, c, node) <= ActiveOn(rows, node)
  {
  }

  lemma SizeAfter(before: set<int>, added: set<int>, ended: set<int>)
    requires before !! added && ended <= before
    ensures |before + added - ended| == |before| + |added| - |ended|
  {
    assert before + added == (before + added - ended) + ended;
  }

  /**
   * The count of a node follows its jobs: it goes up by one for a job opened there, down by one for each that closes or
   * goes, and by nothing else, whatever happens on other nodes.
   */
  lemma CountFollows(rows: Rows, c: Change, node: int)
    requires c.Created? ==> c.id !in rows
    ensures ActiveOn(Applied(rows, c), node) == ActiveOn(rows, node) + Added(c, node) - Ended(rows, c, node)
    ensures |ActiveOn(Applied(rows, c), node)| == |ActiveOn(rows, node)| + |Added(c, node)| - |Ended(rows, c, node)|
  {
    hide Applied, Added, Ended;
    forall id ensures id in ActiveOn(Applied(rows, c), node)
            <==> id in ActiveOn(rows, node) + Added(c, node) - Ended(rows, c, node)
    {
      CountedAfter(rows, c, node, id);
      assert id in ActiveOn(Applied(rows, c), node) <==> CountsOn(Applied(rows, c), id, node);
      assert id in ActiveOn(rows, node) <==> CountsOn(rows, id, node);
    }
    AddedAndEnded(rows, c, node);
    SizeAfter(ActiveOn(rows, node), Added(c, node), Ended(rows, c, node));
  }

  // --------------------------------------------------------------- runs

  /** The ids given out so far. */
  function Used(changes: seq<Change>): set<int> {
    set i | 0 <= i < |changes| && changes[i].Created? :: changes[i].id
  }

  /** A new id was never used before, and its job is open. */
  predicate Proper(used: set<int>, c: Change) {
    c.Created? ==> c.id !in used && c.job.status == Pending
  }

  ghost function After(changes: seq<Change>): Rows {
    if changes == [] then map[] else Applied(After(changes[..|changes| - 1]), changes[|changes| - 1])
  }

  ghost predicate ProperRun(changes: seq<Change>) {
    forall i :: 0 <= i < |changes| ==> Proper(Used(changes[..i]), changes[i])
  }

  lemma ProperPrefix(changes: seq<Change>, n: nat)
    requires ProperRun(changes) && n <= |changes|
    ensures ProperRun(changes[..n])
  {
    forall i | 0 <= i < n ensures Proper(Used(changes[..n][..i]), changes[..n][i]) {
      assert changes[..n][..i] == changes[..i];
    }
  }

  /** What a reader is told of a closed job. */
  ghost predicate SameOutcome(a: Job, b: Job) {
    && a.status == b.status && a.reason == b.reason && a.detail == b.detail && a.resultId == b.resultId
    && a.score == b.score && a.verdict == b.verdict && a.explanation == b.explanation
  }

  /** Closed and as it was, or gone with its plan. */
  ghost predicate StaysClosed(rows: Rows, id: int, was: Job) {
    id in rows ==> !Open(rows[id].status) && SameOutcome(rows[id], was)
  }

  lemma ClosedStays(rows: Rows, used: set<int>, c: Change, id: int, was: Job)
    requires Proper(used, c) && id in used && StaysClosed(rows, id, was)
    ensures StaysClosed(Applied(rows, c), id, was)
  {
  }

  lemma {:induction false} UsedHas(changes: seq<Change>, id: int)
    ensures id in After(changes) ==> id in Used(changes)
  {
    if changes != [] {
      var n := |changes| - 1;
      UsedHas(changes[..n], id);
      UsedGrows(changes, n);
      assert changes[n].Created? ==> changes[n].id in Used(changes);
    }
  }

  lemma UsedGrows(changes: seq<Change>, i: nat)
    requires i <= |changes|
    ensures Used(changes[..i]) <= Used(changes)
  {
  }

  /**
   * Once closed, a job is never reopened, and what it says never changes, for as long as its row is there: a row that
   * goes with its plan never comes back as another's.
   */
  lemma ClosedIsFinal(changes: seq<Change>, i: nat, id: int)
    requires forall k :: 0 <= k < |changes| && changes[k].Created? ==>
               && changes[k].job.status == Pending
               && forall n :: 0 <= n < k && changes[n].Created? ==> changes[n].id != changes[k].id
    requires i <= |changes| && id in After(changes[..i]) && After(changes[..i])[id].status in {Done, Failed, Cancelled}
    ensures id in After(changes) ==>
              var (was, job) := (After(changes[..i])[id], After(changes)[id]);
              && job.status == was.status && job.reason == was.reason && job.detail == was.detail
              && job.resultId == was.resultId && job.score == was.score && job.verdict == was.verdict
              && job.explanation == was.explanation
  {
    forall k | 0 <= k < |changes| ensures Proper(Used(changes[..k]), changes[k]) {}
    StaysFinal(changes, i, id);
  }

  lemma {:induction false} StaysFinal(changes: seq<Change>, i: nat, id: int)
    requires ProperRun(changes) && i <= |changes|
    requires id in After(changes[..i]) && !Open(After(changes[..i])[id].status)
    ensures StaysClosed(After(changes), id, After(changes[..i])[id])
  {
    var n := |changes|;
    if i == n {
      assert changes[..i] == changes;
    } else {
      assert changes[..n - 1][..i] == changes[..i];
      ProperPrefix(changes, n - 1);
      StaysFinal(changes[..n - 1], i, id);
      UsedHas(changes[..i], id);
      UsedGrows(changes[..n - 1], i);
      hide ProperRun, Applied, Proper, StaysClosed, Used;
      assert Proper(Used(changes[..n - 1]), changes[n - 1]) by { ProperAt(changes, n - 1); }
      ClosedStays(After(changes[..n - 1]), Used(changes[..n - 1]), changes[n - 1], id, After(changes[..i])[id]);
    }
  }

  lemma ProperAt(changes: seq<Change>, i: nat)
    requires ProperRun(changes) && i < |changes|
    ensures Proper(Used(changes[..i]), changes[i])
  {
  }
}
