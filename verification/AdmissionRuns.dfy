/**
 * Admission over whole runs: the registry of nodes, the job table and the admission under the mutex, which reads the
 * nodes, counts the open jobs of one after another, and opens one. Solves start, are granted, close and go in between,
 * and so do pairings, revocations and new limits.
 */
module AdmissionRuns {
  import opened Basics
  import opened SolveJobs
  import opened Admission
  import opened NodeRegistry

  /** A node as it was read, and the open jobs counted there. */
  datatype Counting = Counting(node: Node, running: nat)

  /** `listed` is what the admission that holds the mutex read of the registry, and is empty when there is none. */
  datatype Server = Server(nodes: Nodes, rows: Rows, listed: set<Node>, counting: Option<Counting>)

  datatype Label =
    | Register(call: Call)
    | Enter(named: int)
    | Count(node: Node)
    | Open(j: int, reply: Reply, requested: nat, seconds: nat, stall: nat)
    | Refuse
    | Leave
    | Work(change: SolveJobs.Change)

  function AsNode(id: int, row: Row): Node {
    Node(id, row.label_, row.limits, row.revokedAt.Some?)
  }

  /** The unrevoked nodes, or the one that is named; `named` 0 names none. */
  function Readable(nodes: Nodes, named: int): set<Node> {
    set id | id in Unrevoked(nodes) && (named == 0 || id == named) :: AsNode(id, nodes[id])
  }

  /** A job is opened only when the node, with what it counted and answers now, admits it. */
  ghost predicate Step(s: Server, l: Label, s': Server) {
    match l
    case Register(call) => Does(s.nodes, call, s'.nodes) && s' == s.(nodes := s'.nodes)
    case Enter(named) => s.listed == {} && s' == s.(listed := Readable(s.nodes, named))
    case Count(node) =>
      s.counting.None? && node in s.listed && s' == s.(counting := Some(Counting(node, |ActiveOn(s.rows, node.id)|)))
    case Open(j, reply, requested, seconds, stall) =>
      s.counting.Some? && j !in s.rows && Typed(reply)
      && var (node, running) := (s.counting.value.node, s.counting.value.running);
         var v := AdmitOn(node, running, reply, requested, seconds);
         v.Yes?
         && s' == s.(rows := Applied(s.rows, Created(j, NewJob(node.id, v.admitted.workers, Budget(seconds), stall))),
                     listed := {}, counting := None)
    case Refuse => s' == s.(counting := None)
    case Leave => s' == s.(listed := {}, counting := None)
    case Work(change) => !change.Created? && s' == s.(rows := Applied(s.rows, change))
  }

  ghost predicate Moves(s: Server, s': Server) {
    exists l :: Step(s, l, s')
  }

  ghost predicate Run(run: seq<Server>) {
    && |run| > 0 && run[0] == Server(map[], map[], {}, None)
    && forall i :: 0 <= i < |run| - 1 ==> Moves(run[i], run[i + 1])
  }

  /** What the mutex holder read can only be too many. */
  ghost predicate Inv(s: Server) {
    && Sound(s.nodes) && (forall node :: node in s.listed ==> Sane(node.limits))
    && (s.counting.Some? ==> Sane(s.counting.value.node.limits)
                             && |ActiveOn(s.rows, s.counting.value.node.id)| <= s.counting.value.running)
  }

  lemma WorkOnlyLowers(rows: Rows, change: SolveJobs.Change, node: int)
    requires !change.Created?
    ensures |ActiveOn(Applied(rows, change), node)| <= |ActiveOn(rows, node)|
  {
    CountFollows(rows, change, node);
  }

  lemma StepKeeps(s: Server, l: Label, s': Server)
    requires Inv(s) && Step(s, l, s')
    ensures Inv(s')
  {
    hide Applied, AdmitOn;
    if l.Register? {
      hide Does, Sane;
      DoesKeeps(s.nodes, l.call, s'.nodes);
    } else if l.Work? && s.counting.Some? {
      WorkOnlyLowers(s.rows, l.change, s.counting.value.node.id);
    }
  }

  lemma {:induction false} RunKeeps(run: seq<Server>, i: nat)
    requires Run(run) && i < |run|
    ensures Inv(run[i])
  {
    if i > 0 {
      RunKeeps(run, i - 1);
      assert Moves(run[i - 1], run[i]);
      hide Inv, Step;
      var l :| Step(run[i - 1], l, run[i]);
      StepKeeps(run[i - 1], l, run[i]);
    }
  }

  /**
   * However Begins, Finishes, grants, purges and changes of the registry interleave, a job is opened only while its
   * node has fewer open jobs than its limit and the node's own ceiling, and with at least one worker and no more than
   * its limit, the node's ceiling and cores, and the free memory allow.
   */
  lemma OpensWithinBounds(run: seq<Server>, i: nat, j: int) returns (reply: Reply, requested: nat)
    requires Run(run) && i + 1 < |run| && j !in run[i].rows && j in run[i + 1].rows
    ensures run[i].counting.Some? && reply.Ready?
    ensures var (node, job) := (run[i].counting.value.node, run[i + 1].rows[j]);
            var open := |ActiveOn(run[i].rows, node.id)|;
            && job.node == node.id && job.status == Pending && open < node.limits.solves
            && 1 <= job.workers <= node.limits.workers && job.workers <= reply.cores
            && (reply.ceilings.Some? && reply.ceilings.value.solves > 0 ==> open < reply.ceilings.value.solves)
            && (reply.ceilings.Some? && reply.ceilings.value.workers > 0 ==>
                  job.workers <= reply.ceilings.value.workers)
            && reply.committed + 2_147_483_648 + job.workers * 943_718_400 <= reply.available
            && (requested > 0 ==> job.workers <= requested)
  {
    RunKeeps(run, i);
    assert Moves(run[i], run[i + 1]);
    var l :| Step(run[i], l, run[i + 1]);
    hide Run, AdmitOn;
    OpenerIsBegin(run[i], l, run[i + 1], j);
    reply, requested := l.reply, l.requested;
    AdmittedFits(run[i].counting.value.node, run[i].counting.value.running, reply, requested, l.seconds);
  }

  lemma OpenerIsBegin(s: Server, l: Label, s': Server, j: int)
    requires Step(s, l, s') && j !in s.rows && j in s'.rows
    ensures l.Open? && l.j == j
  {
    hide AdmitOn;
  }

  /** Whatever the mutex holder read of this node, its limit was not above this. */
  ghost predicate ReadBelow(s: Server, id: int, limit: nat) {
    && (forall node :: node in s.listed && node.id == id ==> node.limits.solves <= limit)
    && (s.counting.Some? && s.counting.value.node.id == id ==> s.counting.value.node.limits.solves <= limit)
  }

  /** While a node's limit was never above `limit`, it never had more open jobs than that. */
  lemma {:induction false} NeverAboveLimit(run: seq<Server>, i: nat, id: int, limit: nat)
    requires Run(run) && i < |run|
    requires forall k :: 0 <= k <= i && id in run[k].nodes ==> run[k].nodes[id].limits.solves <= limit
    ensures |ActiveOn(run[i].rows, id)| <= limit
    ensures ReadBelow(run[i], id, limit)
  {
    if i == 0 {
      assert ActiveOn(run[0].rows, id) == {};
    } else {
      NeverAboveLimit(run, i - 1, id, limit);
      RunKeeps(run, i - 1);
      assert Moves(run[i - 1], run[i]);
      hide Run, Applied, Inv;
      var l :| Step(run[i - 1], l, run[i]);
      LimitKept(run[i - 1], l, run[i], id, limit);
    }
  }

  lemma LimitKept(s: Server, l: Label, s': Server, id: int, limit: nat)
    requires Inv(s) && Step(s, l, s') && |ActiveOn(s.rows, id)| <= limit
    requires id in s.nodes ==> s.nodes[id].limits.solves <= limit
    requires ReadBelow(s, id, limit)
    ensures |ActiveOn(s'.rows, id)| <= limit && ReadBelow(s', id, limit)
  {
    hide Applied, AdmitOn, Does;
    if l.Work? {
      WorkOnlyLowers(s.rows, l.change, id);
    } else if l.Open? {
      var node, running := s.counting.value.node, s.counting.value.running;
      AdmitsExactly(node, running, l.reply, l.requested, l.seconds);
      var workers := AdmitOn(node, running, l.reply, l.requested, l.seconds).admitted.workers;
      CountFollows(s.rows, Created(l.j, NewJob(node.id, workers, Budget(l.seconds), l.stall)), id);
    }
  }

  /** What `Begin` does under the mutex, when the node that takes the solve is the first it tries, is three steps. */
  lemma BeginIsSteps(s: Server, named: int, id: int, j: int, reply: Reply, requested: nat, seconds: nat, stall: nat)
    requires s.listed == {} && s.counting.None? && j !in s.rows && Typed(reply)
    requires id in s.nodes && s.nodes[id].revokedAt == None && (named == 0 || id == named)
    requires var node := Node(id, s.nodes[id].label_, s.nodes[id].limits, false);
             AdmitOn(node, |ActiveOn(s.rows, id)|, reply, requested, seconds).Yes?
    ensures var node := Node(id, s.nodes[id].label_, s.nodes[id].limits, false);
            var v := AdmitOn(node, |ActiveOn(s.rows, id)|, reply, requested, seconds);
            var more := Created(j, NewJob(id, v.admitted.workers, Budget(seconds), stall));
            exists listed, counted :: Step(s, Enter(named), listed) && Step(listed, Count(node), counted)
                                      && Step(counted, Open(j, reply, requested, seconds, stall),
                                              s.(rows := Applied(s.rows, more)))
  {
    hide AdmitOn, Applied;
    var node := Node(id, s.nodes[id].label_, s.nodes[id].limits, false);
    var listed := s.(listed := Readable(s.nodes, named));
    assert AsNode(id, s.nodes[id]) == node && id in Unrevoked(s.nodes);
    var counted := listed.(counting := Some(Counting(node, |ActiveOn(s.rows, id)|)));
    assert Step(s, Enter(named), listed);
    assert Step(listed, Count(node), counted);
  }

  /** And so is whatever the other calls do, at any moment: to jobs that are there, and to the registry. */
  lemma OthersAreSteps(s: Server, change: SolveJobs.Change, call: Call, after: Nodes)
    requires !change.Created?
    ensures Step(s, Work(change), s.(rows := Applied(s.rows, change)))
    ensures Does(s.nodes, call, after) ==> Step(s, Register(call), s.(nodes := after))
    ensures Step(s, Refuse, s.(counting := None)) && Step(s, Leave, s.(counting := None, listed := {}))
    ensures forall node :: s.counting.None? && node in s.listed ==>
              Step(s, Count(node), s.(counting := Some(Counting(node, |ActiveOn(s.rows, node.id)|))))
  {
  }
}
