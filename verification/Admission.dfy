/** Who gets a solve, and how many workers it gets. */
module Admission {
  import opened Basics
  import opened SolveJobs

  const DEFAULT_WORKERS: nat := 4
  const MAX_WORKERS: nat := 64
  const MAX_SOLVES: nat := 64
  const DEFAULT_CONCURRENT_SOLVES: nat := 1
  const DEFAULT_SECONDS: nat := 180
  const PER_WORKER_BYTES: nat := 943_718_400
  const BASE_BYTES: nat := 2_147_483_648
  const UINT32: nat := 0x1_0000_0000

  /** The node's own policy for this server; 0 is no ceiling. */
  datatype Ceilings = Ceilings(solves: nat, workers: nat, seconds: nat)

  datatype Limits = Limits(solves: int, workers: int)

  datatype Node = Node(id: int, name: string, limits: Limits, revoked: bool)

  /** What a node answered when it was asked just now, its own cores and memory in bytes. */
  datatype Reply =
    | Silent
    | Outdated(capability: string)
    | ModelInvalid
    | Ready(cores: nat, available: nat, committed: nat, ceilings: Option<Ceilings>)

  datatype Refusal =
    | NoNode
    | Revoked
    | NoCapacity
    | Unreachable
    | TooLong(maximum: nat)
    | TooOld(missing: string)
    | BadModel

  datatype Admitted = Admitted(node: Node, workers: nat)

  datatype Verdict = Yes(admitted: Admitted) | No(refusal: Refusal)

  // ------------------------------------------------------------ arithmetic

  function Min(a: int, b: int): int {
    if a < b then a else b
  }

  /** A conversion to 32 unsigned bits wraps. */
  function ToUint32(x: int): nat {
    x % UINT32
  }

  function Free(available: nat, committed: nat): nat {
    if available > committed then available - committed else 0
  }

  function AffordableWorkers(free: nat, cores: nat): nat {
    if cores == 0 || free <= BASE_BYTES then 0
    else Min((free - BASE_BYTES) / PER_WORKER_BYTES, cores)
  }

  function ClampWorkers(requested: nat, ceiling: nat): nat {
    var top := if ceiling == 0 || ceiling > MAX_WORKERS then MAX_WORKERS else ceiling;
    var wanted := if requested == 0 then DEFAULT_WORKERS else requested;
    if wanted > top then top else wanted
  }

  function Within(l: Limits, c: Ceilings): Limits {
    Limits(if c.solves > 0 && l.solves > c.solves then c.solves else l.solves,
           if c.workers > 0 && l.workers > c.workers then c.workers else l.workers)
  }

  function DefaultLimits(ceilings: Option<Ceilings>): Limits {
    var limits := Limits(DEFAULT_CONCURRENT_SOLVES, DEFAULT_WORKERS);
    match ceilings
    case None => limits
    case Some(c) => Within(if c.solves > 0 then limits.(solves := Min(c.solves, MAX_SOLVES)) else limits, c)
  }

  predicate AllowedBy(l: Limits, c: Ceilings) {
    !(c.solves > 0 && l.solves > c.solves) && !(c.workers > 0 && l.workers > c.workers)
  }

  /** Limits a solve can be admitted under: what pairing and an administrator can set. */
  predicate Sane(l: Limits) {
    1 <= l.solves <= MAX_SOLVES && 1 <= l.workers <= MAX_WORKERS
  }

  /** Lowering limits to a node's ceilings is the most of them it allows, and keeps at least one of each. */
  lemma WithinIsTheMost(l: Limits, m: Limits, c: Ceilings)
    ensures AllowedBy(l, c) <==> (c.solves == 0 || l.solves <= c.solves) && (c.workers == 0 || l.workers <= c.workers)
    ensures Sane(l) <==> 1 <= l.solves <= 64 && 1 <= l.workers <= 64
    ensures AllowedBy(Within(l, c), c)
    ensures Sane(l) ==> Sane(Within(l, c))
    ensures AllowedBy(m, c) && m.solves <= l.solves && m.workers <= l.workers ==>
              m.solves <= Within(l, c).solves <= l.solves && m.workers <= Within(l, c).workers <= l.workers
    ensures Within(Within(l, c), c) == Within(l, c)
  {
  }

  /** A new node starts with as many solves at once as it allows, one where it does not say, and few workers. */
  lemma DefaultIsSane(ceilings: Option<Ceilings>)
    ensures Sane(DefaultLimits(ceilings))
    ensures var limits := DefaultLimits(ceilings);
            match ceilings
            case None => limits == Limits(1, 4)
            case Some(c) =>
              && (c.solves == 0 ==> limits.solves == 1)
              && (0 < c.solves ==> limits.solves == c.solves || (limits.solves == 64 && 64 < c.solves))
              && (limits.workers == 4 || limits.workers == c.workers)
              && (limits.workers == 4 <==> c.workers == 0 || 4 <= c.workers)
    ensures ceilings.Some? ==>
              forall m: Limits ::
                (1 <= m.solves <= 64 && 1 <= m.workers <= 4 && AllowedBy(m, ceilings.value)
                 && (ceilings.value.solves == 0 ==> m.solves == 1)) ==>
                m.solves <= DefaultLimits(ceilings).solves && m.workers <= DefaultLimits(ceilings).workers
    ensures ceilings.Some? ==> AllowedBy(DefaultLimits(ceilings), ceilings.value)
  {
  }

  /** The workers memory allows really fit, and one more would not unless the cores are the limit. */
  lemma AffordableFits(free: nat, cores: nat)
    ensures var w := AffordableWorkers(free, cores);
            && w <= cores
            && (w > 0 ==> 2_147_483_648 + w * 943_718_400 <= free)
            && (w < cores ==> 2_147_483_648 + (w + 1) * 943_718_400 > free)
  {
  }

  // ------------------------------------------------------------- admission

  /** The budget a solve gets; 0 is unset. */
  function Budget(seconds: nat): nat {
    if seconds == 0 then DEFAULT_SECONDS else seconds
  }

  function CheckTimeLimit(ceilings: Option<Ceilings>, seconds: nat): Option<Refusal> {
    if ceilings.None? || ceilings.value.seconds == 0 then Some(TooOld("solve_time_ceiling"))
    else if Budget(seconds) > ceilings.value.seconds then Some(TooLong(ceilings.value.seconds)) else None
  }

  /** The most workers one solve may have on a node that answered. */
  function WorkerCeiling(node: Node, affordable: nat, ceilings: Option<Ceilings>): nat {
    var ceiling := Min(ToUint32(node.limits.workers), affordable);
    if ceilings.Some? && ceilings.value.workers > 0 then Min(ceiling, ToUint32(ceilings.value.workers)) else ceiling
  }

  /** The workers a solve gets: what it asks for, or the limit when it asks for none, within the ceiling. */
  function Granted(node: Node, affordable: nat, ceilings: Option<Ceilings>, requested: nat): nat {
    var wanted := if requested == 0 then ToUint32(node.limits.workers) else requested;
    ClampWorkers(wanted, WorkerCeiling(node, affordable, ceilings))
  }

  function AdmitOn(node: Node, running: nat, reply: Reply, requested: nat, seconds: nat): Verdict {
    if running >= node.limits.solves then No(NoCapacity)
    else match reply
    case Silent => No(Unreachable)
    case Outdated(missing) => No(TooOld(missing))
    case ModelInvalid => No(BadModel)
    case Ready(cores, available, committed, ceilings) =>
      var affordable := AffordableWorkers(Free(available, committed), cores);
      var late := CheckTimeLimit(ceilings, seconds);
      if late.Some? then No(late.value)
      else if ceilings.Some? && ceilings.value.solves > 0 && running >= ceilings.value.solves then No(NoCapacity)
      else if affordable == 0 then No(NoCapacity)
      else Yes(Admitted(node, Granted(node, affordable, ceilings, requested)))
  }

  /** A node reports its worker ceiling in 32 bits. */
  predicate Typed(reply: Reply) {
    reply.Ready? && reply.ceilings.Some? ==> reply.ceilings.value.workers < UINT32
  }

  /** Every bound at once: this server's, the node's, its cores and its memory. */
  lemma AdmittedFits(node: Node, running: nat, reply: Reply, requested: nat, seconds: nat)
    requires 1 <= node.limits.solves <= 64 && 1 <= node.limits.workers <= 64
    requires reply.Ready? && reply.ceilings.Some? ==> reply.ceilings.value.workers < 0x1_0000_0000
    requires AdmitOn(node, running, reply, requested, seconds).Yes?
    ensures reply.Ready?
    ensures var workers := AdmitOn(node, running, reply, requested, seconds).admitted.workers;
            && running < node.limits.solves && 1 <= workers <= node.limits.workers && workers <= reply.cores
            && (reply.ceilings.Some? && reply.ceilings.value.solves > 0 ==> running < reply.ceilings.value.solves)
            && (reply.ceilings.Some? && reply.ceilings.value.workers > 0 ==> workers <= reply.ceilings.value.workers)
            && reply.committed + 2_147_483_648 + workers * 943_718_400 <= reply.available
            && (requested > 0 ==> workers <= requested)
  {
    var free := Free(reply.available, reply.committed);
    AffordableFits(free, reply.cores);
    var w := AdmitOn(node, running, reply, requested, seconds).admitted.workers;
    assert w <= AffordableWorkers(free, reply.cores);
    assert w * PER_WORKER_BYTES <= AffordableWorkers(free, reply.cores) * PER_WORKER_BYTES;
  }

  /** A node takes a solve exactly when every limit leaves room, one worker's memory included. */
  lemma AdmitsExactly(node: Node, running: nat, reply: Reply, requested: nat, seconds: nat)
    ensures AdmitOn(node, running, reply, requested, seconds).Yes?
            <==> && running < node.limits.solves && reply.Ready? && reply.ceilings.Some?
                 && 0 < reply.ceilings.value.seconds
                 && (if seconds == 0 then 180 else seconds) <= reply.ceilings.value.seconds
                 && (reply.ceilings.value.solves > 0 ==> running < reply.ceilings.value.solves)
                 && reply.cores > 0 && reply.available >= reply.committed + 2_147_483_648 + 943_718_400
    ensures AdmitOn(node, running, reply, requested, seconds).Yes? ==>
              AdmitOn(node, running, reply, requested, seconds).admitted.node == node
  {
  }

  /** And a node that does not take it refuses for one reason, which is what stands in its way. */
  lemma RefusesExactly(node: Node, running: nat, reply: Reply, requested: nat, seconds: nat)
    ensures var v := AdmitOn(node, running, reply, requested, seconds);
            var budget := if seconds == 0 then 180 else seconds;
            var below := running < node.limits.solves;
            var limited := reply.Ready? && reply.ceilings.Some? && reply.ceilings.value.seconds > 0;
            && (v == No(NoCapacity)
                <==> || !below
                     || (limited && budget <= reply.ceilings.value.seconds
                         && (|| 0 < reply.ceilings.value.solves <= running || reply.cores == 0
                             || reply.available < reply.committed + 2_147_483_648 + 943_718_400)))
            && (v == No(Unreachable) <==> below && reply == Silent)
            && (v == No(BadModel) <==> below && reply == ModelInvalid)
            && (forall missing :: v == No(TooOld(missing))
                                  <==> below && (reply == Outdated(missing)
                                                 || (reply.Ready? && !limited && missing == "solve_time_ceiling")))
            && (forall most: nat :: v == No(TooLong(most))
                                    <==> below && limited && most == reply.ceilings.value.seconds < budget)
            && v != No(NoNode) && v != No(Revoked)
  {
  }

  /** And it gives as many workers as were asked for, or as many as some bound allows: never fewer for nothing. */
  lemma AsManyAsAllowed(node: Node, running: nat, reply: Reply, requested: nat, seconds: nat)
    requires 1 <= node.limits.solves <= 64 && 1 <= node.limits.workers <= 64
    requires reply.Ready? && reply.ceilings.Some? ==> reply.ceilings.value.workers < 0x1_0000_0000
    requires AdmitOn(node, running, reply, requested, seconds).Yes?
    ensures var w := AdmitOn(node, running, reply, requested, seconds).admitted.workers;
            || (0 < requested && w == requested) || w == node.limits.workers
            || w == reply.cores || reply.committed + 2_147_483_648 + (w + 1) * 943_718_400 > reply.available
            || (reply.ceilings.Some? && 0 < reply.ceilings.value.workers && w == reply.ceilings.value.workers)
  {
    AffordableFits(Free(reply.available, reply.committed), reply.cores);
  }

  /**
   * What a limit of no workers would do: the ceiling 0 reads as no ceiling. A solve stays within what memory
   * affords, whatever it asks for, exactly when the limit is not 0 in 32 bits or the node affords the most of all.
   */
  lemma ZeroIsNoCeiling(node: Node, affordable: nat)
    requires affordable > 0
    ensures (forall requested: nat :: Granted(node, affordable, None, requested) <= affordable)
            <==> ToUint32(node.limits.workers) != 0 || affordable >= MAX_WORKERS
  {
    assert Granted(node, affordable, None, MAX_WORKERS) <= affordable
           <==> ToUint32(node.limits.workers) != 0 || affordable >= MAX_WORKERS;
  }

  // ------------------------------------------------------------ choosing

  /** A node tried, how many solves it already has, and what it answered. */
  datatype Candidate = Candidate(node: Node, running: nat, reply: Reply)

  function Try(c: Candidate, requested: nat, seconds: nat): Verdict {
    AdmitOn(c.node, c.running, c.reply, requested, seconds)
  }

  /** A refusal that lets the next node be tried. */
  predicate Passes(v: Verdict) {
    v.No? && (v.refusal.NoCapacity? || v.refusal.Unreachable? || v.refusal.TooLong? || v.refusal.TooOld?)
  }

  /** What kept a node from taking the solve. */
  datatype Kind = Busy | Mute | Long | Old

  predicate Refuses(c: Candidate, requested: nat, seconds: nat, kind: Kind) {
    var v := Try(c, requested, seconds);
    v.No? && match kind
             case Busy => v.refusal.NoCapacity?
             case Mute => v.refusal.Unreachable?
             case Long => v.refusal.TooLong?
             case Old => v.refusal.TooOld?
  }

  ghost predicate AnyRefuses(cs: seq<Candidate>, requested: nat, seconds: nat, kind: Kind) {
    exists i :: 0 <= i < |cs| && Refuses(cs[i], requested, seconds, kind)
  }

  /** The longest budget a candidate that finds this one too long would allow. */
  ghost predicate Longest(cs: seq<Candidate>, requested: nat, seconds: nat, maximum: nat) {
    && (exists i :: 0 <= i < |cs| && Refuses(cs[i], requested, seconds, Long)
                    && Try(cs[i], requested, seconds).refusal.maximum == maximum)
    && (forall i :: 0 <= i < |cs| && Refuses(cs[i], requested, seconds, Long) ==>
          Try(cs[i], requested, seconds).refusal.maximum <= maximum)
  }

  /** What the last outdated candidate is missing. */
  ghost predicate LastMissing(cs: seq<Candidate>, requested: nat, seconds: nat, missing: string) {
    exists i :: 0 <= i < |cs| && Try(cs[i], requested, seconds) == No(TooOld(missing))
                && forall k :: i < k < |cs| ==> !Refuses(cs[k], requested, seconds, Old)
  }

  /** The answer when no candidate took it: busy before silent, silent before too long, too long before outdated. */
  ghost predicate Weakest(cs: seq<Candidate>, requested: nat, seconds: nat, v: Verdict) {
    if AnyRefuses(cs, requested, seconds, Busy) then v == No(NoCapacity)
    else if AnyRefuses(cs, requested, seconds, Mute) then v == No(Unreachable)
    else if AnyRefuses(cs, requested, seconds, Long) then
      v.No? && v.refusal.TooLong? && Longest(cs, requested, seconds, v.refusal.maximum)
    else if AnyRefuses(cs, requested, seconds, Old) then
      v.No? && v.refusal.TooOld? && LastMissing(cs, requested, seconds, v.refusal.missing)
    else v == No(NoNode)
  }

  /** What the loop has gathered from the candidates so far. */
  ghost predicate Gathered(cs: seq<Candidate>, requested: nat, seconds: nat, busy: bool, silent: bool,
                           limit: Option<nat>, outdated: Option<string>) {
    && (busy <==> AnyRefuses(cs, requested, seconds, Busy))
    && (silent <==> AnyRefuses(cs, requested, seconds, Mute))
    && (limit.Some? <==> AnyRefuses(cs, requested, seconds, Long))
    && (limit.Some? ==> Longest(cs, requested, seconds, limit.value))
    && (outdated.Some? <==> AnyRefuses(cs, requested, seconds, Old))
    && (outdated.Some? ==> LastMissing(cs, requested, seconds, outdated.value))
  }

  lemma AnyRefusesNext(cs: seq<Candidate>, c: Candidate, requested: nat, seconds: nat, kind: Kind)
    ensures AnyRefuses(cs + [c], requested, seconds, kind)
            <==> AnyRefuses(cs, requested, seconds, kind) || Refuses(c, requested, seconds, kind)
  {
    var more := cs + [c];
    assert more[|cs|] == c;
    if AnyRefuses(cs, requested, seconds, kind) {
      var i :| 0 <= i < |cs| && Refuses(cs[i], requested, seconds, kind);
      assert more[i] == cs[i];
    }
  }

  lemma LongestNext(cs: seq<Candidate>, c: Candidate, requested: nat, seconds: nat, limit: Option<nat>)
    requires limit.Some? <==> AnyRefuses(cs, requested, seconds, Long)
    requires limit.Some? ==> Longest(cs, requested, seconds, limit.value)
    ensures !Refuses(c, requested, seconds, Long) && limit.Some? ==>
              Longest(cs + [c], requested, seconds, limit.value)
    ensures Refuses(c, requested, seconds, Long) ==>
              var maximum := Try(c, requested, seconds).refusal.maximum;
              Longest(cs + [c], requested, seconds,
                      if limit.None? || maximum > limit.value then maximum else limit.value)
  {
    hide Try;
    var more := cs + [c];
    assert more[|cs|] == c && forall k :: 0 <= k < |cs| ==> more[k] == cs[k];
  }

  lemma LastMissingNext(cs: seq<Candidate>, c: Candidate, requested: nat, seconds: nat, missing: string)
    ensures LastMissing(cs, requested, seconds, missing) && !Refuses(c, requested, seconds, Old) ==>
              LastMissing(cs + [c], requested, seconds, missing)
    ensures Try(c, requested, seconds) == No(TooOld(missing)) ==> LastMissing(cs + [c], requested, seconds, missing)
  {
    hide Try;
    var more := cs + [c];
    assert more[|cs|] == c && forall k :: 0 <= k < |cs| ==> more[k] == cs[k];
    if LastMissing(cs, requested, seconds, missing) && !Refuses(c, requested, seconds, Old) {
      var i :| 0 <= i < |cs| && Try(cs[i], requested, seconds) == No(TooOld(missing))
               && forall k :: i < k < |cs| ==> !Refuses(cs[k], requested, seconds, Old);
      assert Try(more[i], requested, seconds) == No(TooOld(missing));
    }
  }

  lemma GatheredNext(cs: seq<Candidate>, c: Candidate, requested: nat, seconds: nat, busy: bool, silent: bool,
                     limit: Option<nat>, outdated: Option<string>)
    requires Gathered(cs, requested, seconds, busy, silent, limit, outdated) && Passes(Try(c, requested, seconds))
    ensures var r := Try(c, requested, seconds).refusal;
            Gathered(cs + [c], requested, seconds, busy || r.NoCapacity?, silent || r.Unreachable?,
                     if r.TooLong? && (limit.None? || r.maximum > limit.value) then Some(r.maximum) else limit,
                     if r.TooOld? then Some(r.missing) else outdated)
  {
    hide Try, Longest, AnyRefuses, LastMissing;
    var r := Try(c, requested, seconds).refusal;
    LastMissingNext(cs, c, requested, seconds, if r.TooOld? then r.missing else outdated.GetOr(""));
    AnyRefusesNext(cs, c, requested, seconds, Busy);
    AnyRefusesNext(cs, c, requested, seconds, Mute);
    AnyRefusesNext(cs, c, requested, seconds, Long);
    AnyRefusesNext(cs, c, requested, seconds, Old);
    LongestNext(cs, c, requested, seconds, limit);
  }

  /** The first candidate that does not pass the solve on decides; when every one does, the weakest refusal. */
  ghost predicate Chosen(cs: seq<Candidate>, requested: nat, seconds: nat, v: Verdict) {
    if exists i :: 0 <= i < |cs| && !Passes(Try(cs[i], requested, seconds)) then
      exists i :: 0 <= i < |cs| && v == Try(cs[i], requested, seconds) && !Passes(v)
                  && forall k :: 0 <= k < i ==> Passes(Try(cs[k], requested, seconds))
    else Weakest(cs, requested, seconds, v)
  }

  /** The first candidate that takes the solve gets it, past any that are full, silent, too limited or outdated. */
  lemma FirstThatTakes(cs: seq<Candidate>, requested: nat, seconds: nat, v: Verdict, i: nat)
    requires Chosen(cs, requested, seconds, v) && i < |cs|
    requires var c := cs[i];
             && c.running < c.node.limits.solves && c.reply.Ready? && c.reply.ceilings.Some?
             && 0 < c.reply.ceilings.value.seconds
             && (if seconds == 0 then 180 else seconds) <= c.reply.ceilings.value.seconds
             && (c.reply.ceilings.value.solves > 0 ==> c.running < c.reply.ceilings.value.solves)
             && c.reply.cores > 0 && c.reply.available >= c.reply.committed + 2_147_483_648 + 943_718_400
    requires forall k :: 0 <= k < i ==>
               && !AdmitOn(cs[k].node, cs[k].running, cs[k].reply, requested, seconds).Yes?
               && (cs[k].running >= cs[k].node.limits.solves || cs[k].reply != ModelInvalid)
    ensures v == AdmitOn(cs[i].node, cs[i].running, cs[i].reply, requested, seconds)
    ensures v.Yes? && v.admitted.node == cs[i].node
  {
    hide AdmitOn;
    AdmitsExactly(cs[i].node, cs[i].running, cs[i].reply, requested, seconds);
    forall k | 0 <= k < i ensures Passes(Try(cs[k], requested, seconds)) {
      RefusesExactly(cs[k].node, cs[k].running, cs[k].reply, requested, seconds);
    }
    assert !Passes(Try(cs[i], requested, seconds));
  }

  /** Why nothing was admitted, on limits and replies, and that no other reason comes first. */
  lemma RefusedForAReason(cs: seq<Candidate>, requested: nat, seconds: nat, v: Verdict)
    requires Chosen(cs, requested, seconds, v) && v.No?
    ensures v.refusal == BadModel <==>
              exists i :: 0 <= i < |cs| && cs[i].reply == ModelInvalid && cs[i].running < cs[i].node.limits.solves
                          && forall k :: 0 <= k < i ==>
                               !AdmitOn(cs[k].node, cs[k].running, cs[k].reply, requested, seconds).Yes?
    ensures v.refusal != BadModel ==>
              forall i :: 0 <= i < |cs| ==>
                && !AdmitOn(cs[i].node, cs[i].running, cs[i].reply, requested, seconds).Yes?
                && (cs[i].reply == ModelInvalid ==> cs[i].running >= cs[i].node.limits.solves)
    ensures v.refusal != BadModel ==>
              (v.refusal == NoCapacity <==>
                 exists i :: 0 <= i < |cs| && AdmitOn(cs[i].node, cs[i].running, cs[i].reply, requested, seconds)
                                              == No(NoCapacity))
    ensures v.refusal == Unreachable <==>
              && v.refusal != BadModel && v.refusal != NoCapacity
              && exists i :: 0 <= i < |cs| && cs[i].reply == Silent && cs[i].running < cs[i].node.limits.solves
    ensures v.refusal.TooLong? ==>
              && (exists i :: 0 <= i < |cs| && cs[i].reply.Ready? && cs[i].reply.ceilings.Some?
                              && cs[i].reply.ceilings.value.seconds == v.refusal.maximum)
              && forall i :: 0 <= i < |cs| ==> cs[i].reply.Ready? || cs[i].reply.Outdated?
    ensures v.refusal.TooOld? ==>
              && cs != []
              && forall i :: 0 <= i < |cs| ==>
                   || cs[i].reply.Outdated?
                   || (cs[i].reply.Ready? && (cs[i].reply.ceilings.None? || cs[i].reply.ceilings.value.seconds == 0))
    ensures v.refusal == NoNode <==> cs == []
    ensures v.refusal != Revoked
  {
    hide AdmitOn;
    forall i | 0 <= i < |cs| ensures RefusalFits(cs[i], requested, seconds) {
      RefusesExactly(cs[i].node, cs[i].running, cs[i].reply, requested, seconds);
    }
    if cs != [] && Passes(Try(cs[0], requested, seconds)) {
      PassedForAKind(cs[0], requested, seconds);
      var kind :| Refuses(cs[0], requested, seconds, kind);
      assert AnyRefuses(cs, requested, seconds, kind);
      assert kind in {Busy, Mute, Long, Old};
    }
  }

  /** What a candidate's refusal says of it. */
  predicate RefusalFits(c: Candidate, requested: nat, seconds: nat) {
    var v := Try(c, requested, seconds);
    var below := c.running < c.node.limits.solves;
    var limited := c.reply.Ready? && c.reply.ceilings.Some? && c.reply.ceilings.value.seconds > 0;
    && (v == No(Unreachable) <==> below && c.reply == Silent)
    && (v == No(BadModel) <==> below && c.reply == ModelInvalid)
    && (v.No? && v.refusal.TooOld? ==> c.reply.Outdated? || (c.reply.Ready? && !limited))
    && (v.No? && v.refusal.TooLong? ==> limited && v.refusal.maximum == c.reply.ceilings.value.seconds)
    && v != No(NoNode) && v != No(Revoked)
  }

  lemma PassedForAKind(c: Candidate, requested: nat, seconds: nat)
    requires Passes(Try(c, requested, seconds))
    ensures exists kind :: Refuses(c, requested, seconds, kind)
  {
    var v := Try(c, requested, seconds);
    hide Try;
    assert Refuses(c, requested, seconds, if v.refusal.NoCapacity? then Busy else if v.refusal.Unreachable? then Mute
                                          else if v.refusal.TooLong? then Long else Old);
  }

  /** Tries the active nodes in the order they were paired; the first that takes the solve gets it. */
  method Admit(cs: seq<Candidate>, requested: nat, seconds: nat) returns (v: Verdict)
    ensures Chosen(cs, requested, seconds, v)
    ensures v.Yes? ==> exists i :: 0 <= i < |cs| && v == Try(cs[i], requested, seconds)
  {
    hide Gathered, Try;
    var busy, silent, limit, outdated := false, false, None, None;
    NothingGathered(requested, seconds);
    assert cs[..0] == [];
    for i := 0 to |cs|
      invariant forall k :: 0 <= k < i ==> Passes(Try(cs[k], requested, seconds))
      invariant Gathered(cs[..i], requested, seconds, busy, silent, limit, outdated)
    {
      var tried := Try(cs[i], requested, seconds);
      if tried.Yes? {
        return tried;
      }
      if Passes(tried) {
        GatheredNext(cs[..i], cs[i], requested, seconds, busy, silent, limit, outdated);
        assert cs[..i + 1] == cs[..i] + [cs[i]];
      }
      match tried.refusal {
        case TooOld(missing) => outdated := Some(missing);
        case TooLong(maximum) =>
          if limit.None? || maximum > limit.value {
            limit := Some(maximum);
          }
        case NoCapacity => busy := true;
        case Unreachable => silent := true;
        case _ => return tried;
      }
    }
    assert cs[..|cs|] == cs;
    GatheredDecides(cs, requested, seconds, busy, silent, limit, outdated);
    if busy {
      return No(NoCapacity);
    }
    if silent {
      return No(Unreachable);
    }
    if limit.Some? {
      return No(TooLong(limit.value));
    }
    if outdated.Some? {
      return No(TooOld(outdated.value));
    }
    return No(NoNode);
  }

  lemma NothingGathered(requested: nat, seconds: nat)
    ensures Gathered([], requested, seconds, false, false, None, None)
  {
  }

  lemma GatheredDecides(cs: seq<Candidate>, requested: nat, seconds: nat, busy: bool, silent: bool,
                        limit: Option<nat>, outdated: Option<string>)
    requires Gathered(cs, requested, seconds, busy, silent, limit, outdated)
    ensures Weakest(cs, requested, seconds,
                    No(if busy then NoCapacity else if silent then Unreachable
                       else if limit.Some? then TooLong(limit.value)
                       else if outdated.Some? then TooOld(outdated.value) else NoNode))
  {
  }

  /** The unrevoked nodes in order, each with the solves the job table counts on it now and what it answers. */
  function CandidatesOf(nodes: seq<Node>, replies: seq<Reply>, rows: Rows): seq<Candidate>
    requires |nodes| == |replies|
  {
    if nodes == [] then []
    else
      var n := |nodes| - 1;
      var init := CandidatesOf(nodes[..n], replies[..n], rows);
      if nodes[n].revoked then init
      else init + [Candidate(nodes[n], |ActiveOn(rows, nodes[n].id)|, replies[n])]
  }

  /** Where each candidate stands among the nodes. */
  lemma {:induction false} CandidatesAreNodes(nodes: seq<Node>, replies: seq<Reply>, rows: Rows)
      returns (at: seq<nat>)
    requires |nodes| == |replies|
    ensures var cs := CandidatesOf(nodes, replies, rows);
            && |at| == |cs| && (forall j, k :: 0 <= j < k < |at| ==> at[j] < at[k])
            && (forall k :: 0 <= k < |at| ==>
                  && at[k] < |nodes| && !nodes[at[k]].revoked
                  && cs[k] == Candidate(nodes[at[k]], |ActiveOn(rows, nodes[at[k]].id)|, replies[at[k]]))
            && (forall i :: 0 <= i < |nodes| && !nodes[i].revoked ==> i in at)
  {
    if nodes == [] {
      at := [];
    } else {
      var n := |nodes| - 1;
      at := CandidatesAreNodes(nodes[..n], replies[..n], rows);
      var before := at;
      assert forall i :: 0 <= i < n ==> nodes[..n][i] == nodes[i] && replies[..n][i] == replies[i];
      if !nodes[n].revoked {
        at := at + [n];
        assert at[|before|] == n;
      }
      forall i | 0 <= i < |nodes| && !nodes[i].revoked ensures i in at {
        if i < n {
          assert nodes[..n][i] == nodes[i];
        }
      }
    }
  }

  /** What a node answers when the solve is tried on it. */
  function Asked(nodes: seq<Node>, replies: seq<Reply>, rows: Rows, requested: nat, seconds: nat, i: int): Verdict
    requires |nodes| == |replies| && 0 <= i < |nodes|
  {
    AdmitOn(nodes[i], |ActiveOn(rows, nodes[i].id)|, replies[i], requested, seconds)
  }

  lemma TryIsAsking(nodes: seq<Node>, replies: seq<Reply>, rows: Rows, requested: nat, seconds: nat)
      returns (at: seq<nat>)
    requires |nodes| == |replies|
    ensures |at| == |CandidatesOf(nodes, replies, rows)| && forall j, k :: 0 <= j < k < |at| ==> at[j] < at[k]
    ensures forall k :: 0 <= k < |at| ==>
              at[k] < |nodes| && !nodes[at[k]].revoked
              && Try(CandidatesOf(nodes, replies, rows)[k], requested, seconds)
                 == Asked(nodes, replies, rows, requested, seconds, at[k])
    ensures forall i :: 0 <= i < |nodes| && !nodes[i].revoked ==> exists k :: 0 <= k < |at| && at[k] == i
  {
    hide AdmitOn, CandidatesOf;
    at := CandidatesAreNodes(nodes, replies, rows);
    forall i | 0 <= i < |nodes| && !nodes[i].revoked ensures exists k :: 0 <= k < |at| && at[k] == i {
      assert i in at;
    }
  }

  lemma FirstNodeDecides(nodes: seq<Node>, replies: seq<Reply>, rows: Rows, requested: nat, seconds: nat, v: Verdict)
    requires |nodes| == |replies| && Chosen(CandidatesOf(nodes, replies, rows), requested, seconds, v)
    requires exists j :: 0 <= j < |CandidatesOf(nodes, replies, rows)|
                         && !Passes(Try(CandidatesOf(nodes, replies, rows)[j], requested, seconds))
    ensures !Passes(v) && v != No(NoNode)
    ensures exists i :: 0 <= i < |nodes| && !nodes[i].revoked
              && v == Asked(nodes, replies, rows, requested, seconds, i)
              && forall k :: 0 <= k < i && !nodes[k].revoked ==>
                   Passes(Asked(nodes, replies, rows, requested, seconds, k))
  {
    hide Asked, Try, CandidatesOf, Weakest, Passes;
    var cs := CandidatesOf(nodes, replies, rows);
    var at := TryIsAsking(nodes, replies, rows, requested, seconds);
    var j :| 0 <= j < |cs| && v == Try(cs[j], requested, seconds) && !Passes(v)
             && forall k :: 0 <= k < j ==> Passes(Try(cs[k], requested, seconds));
    NeverNamed(cs[j], requested, seconds);
    forall k | 0 <= k < at[j] && !nodes[k].revoked
      ensures Passes(Asked(nodes, replies, rows, requested, seconds, k))
    {
      var m :| 0 <= m < |at| && at[m] == k;
      assert m < j;
    }
  }

  /**
   * What is chosen, on the nodes themselves: the first unrevoked one that takes the solve or refuses its model
   * decides, past any that refuse it otherwise; when there is none, the reason is the first of full, silent, too long
   * and outdated that some node gave, too long with the longest budget that any of them allows.
   */
  lemma NodesDecide(nodes: seq<Node>, replies: seq<Reply>, rows: Rows, requested: nat, seconds: nat, v: Verdict)
    requires |nodes| == |replies| && Chosen(CandidatesOf(nodes, replies, rows), requested, seconds, v)
    ensures v.Yes? || v == No(BadModel) ==>
              exists i :: 0 <= i < |nodes| && !nodes[i].revoked
                && v == AdmitOn(nodes[i], |ActiveOn(rows, nodes[i].id)|, replies[i], requested, seconds)
                && forall k :: 0 <= k < i && !nodes[k].revoked ==>
                     var u := AdmitOn(nodes[k], |ActiveOn(rows, nodes[k].id)|, replies[k], requested, seconds);
                     u.No? && u.refusal != BadModel
    ensures v.No? && v.refusal != BadModel ==>
              forall i :: 0 <= i < |nodes| && !nodes[i].revoked ==>
                var u := AdmitOn(nodes[i], |ActiveOn(rows, nodes[i].id)|, replies[i], requested, seconds);
                && u.No? && u.refusal != BadModel
                && (u.refusal == NoCapacity ==> v.refusal == NoCapacity)
                && (u.refusal == Unreachable ==> v.refusal in {NoCapacity, Unreachable})
                && (u.refusal.TooLong? ==>
                      || v.refusal in {NoCapacity, Unreachable}
                      || (v.refusal.TooLong? && u.refusal.maximum <= v.refusal.maximum))
    ensures v.No? && v.refusal != BadModel ==>
              || (v.refusal == NoNode && forall i :: 0 <= i < |nodes| ==> nodes[i].revoked)
              || exists i :: 0 <= i < |nodes| && !nodes[i].revoked
                   && AdmitOn(nodes[i], |ActiveOn(rows, nodes[i].id)|, replies[i], requested, seconds) == v
  {
    var cs := CandidatesOf(nodes, replies, rows);
    if exists j :: 0 <= j < |cs| && !Passes(Try(cs[j], requested, seconds)) {
      hide AdmitOn, CandidatesOf, Weakest, Chosen;
      FirstNodeDecides(nodes, replies, rows, requested, seconds, v);
    } else {
      hide AdmitOn, CandidatesOf, Weakest, Try;
      var at := TryIsAsking(nodes, replies, rows, requested, seconds);
      WeakestDecides(cs, requested, seconds, v);
      forall i | 0 <= i < |nodes| && !nodes[i].revoked
        ensures exists k :: 0 <= k < |cs| && Try(cs[k], requested, seconds)
                                             == Asked(nodes, replies, rows, requested, seconds, i)
      {
        var k :| 0 <= k < |at| && at[k] == i;
      }
    }
  }

  lemma NeverNamed(c: Candidate, requested: nat, seconds: nat)
    ensures Try(c, requested, seconds) != No(NoNode) && Try(c, requested, seconds) != No(Revoked)
  {
  }

  /** When every candidate passes the solve on, the answer is one of theirs and no stronger one was given. */
  lemma WeakestDecides(cs: seq<Candidate>, requested: nat, seconds: nat, v: Verdict)
    requires Weakest(cs, requested, seconds, v)
    requires forall k :: 0 <= k < |cs| ==> Passes(Try(cs[k], requested, seconds))
    ensures v.No? && v.refusal != BadModel
    ensures v == No(NoNode) <==> cs == []
    ensures cs != [] ==> exists k :: 0 <= k < |cs| && Try(cs[k], requested, seconds) == v
    ensures forall k :: 0 <= k < |cs| ==>
              var u := Try(cs[k], requested, seconds);
              && u.No? && u.refusal != BadModel
              && (u.refusal == NoCapacity ==> v.refusal == NoCapacity)
              && (u.refusal == Unreachable ==> v.refusal in {NoCapacity, Unreachable})
              && (u.refusal.TooLong? ==>
                    || v.refusal in {NoCapacity, Unreachable}
                    || (v.refusal.TooLong? && u.refusal.maximum <= v.refusal.maximum))
  {
    hide Try;
    forall k | 0 <= k < |cs| ensures exists kind :: Refuses(cs[k], requested, seconds, kind) {
      PassedForAKind(cs[k], requested, seconds);
    }
    if cs != [] {
      var kind :| Refuses(cs[0], requested, seconds, kind);
      assert AnyRefuses(cs, requested, seconds, kind);
      assert kind in {Busy, Mute, Long, Old};
    }
  }

  /**
   * Admission and the new row as one step, as the mutex makes them. A named node answers for itself, and otherwise the
   * candidates decide; a solve is opened only as the node that took it admitted it. `named` 0 lets it choose.
   */
  method Begin(jobs: Jobs, id: int, nodes: seq<Node>, replies: seq<Reply>, named: int, requested: nat, seconds: nat,
               stall: nat) returns (v: Verdict)
    requires |nodes| == |replies| && id !in jobs.rows
    modifies jobs
    ensures v.No? ==> jobs.rows == old(jobs.rows)
    ensures v.Yes? ==>
              var job := Job(v.admitted.node.id, Pending, v.admitted.workers, if seconds == 0 then 180 else seconds,
                             stall, "", "", None, None, None, None);
              jobs.rows == old(jobs.rows)[id := job]
    ensures v.Yes? ==>
              exists i :: 0 <= i < |nodes| && !nodes[i].revoked && (named == 0 || nodes[i].id == named)
                && v == AdmitOn(nodes[i], |ActiveOn(old(jobs.rows), nodes[i].id)|, replies[i], requested, seconds)
                && v.admitted.node == nodes[i]
    ensures named == 0 ==> Chosen(CandidatesOf(nodes, replies, old(jobs.rows)), requested, seconds, v)
    ensures named == 0 && v.Yes? ==>
              exists i :: 0 <= i < |nodes| && v.admitted.node == nodes[i] && !nodes[i].revoked
                && forall k :: 0 <= k < i && !nodes[k].revoked ==>
                     var running := |ActiveOn(old(jobs.rows), nodes[k].id)|;
                     var u := AdmitOn(nodes[k], running, replies[k], requested, seconds);
                     u.No? && u.refusal != BadModel
    ensures named == 0 && v.No? && v.refusal != BadModel ==>
              forall i :: 0 <= i < |nodes| && !nodes[i].revoked ==>
                AdmitOn(nodes[i], |ActiveOn(old(jobs.rows), nodes[i].id)|, replies[i], requested, seconds).No?
    ensures named != 0 && v.No? ==>
              || (v.refusal == NoNode && forall i :: 0 <= i < |nodes| ==> nodes[i].id != named)
              || (v.refusal == Revoked && exists i :: 0 <= i < |nodes| && nodes[i].id == named && nodes[i].revoked)
              || exists i :: 0 <= i < |nodes| && !nodes[i].revoked && nodes[i].id == named
                   && v == AdmitOn(nodes[i], |ActiveOn(old(jobs.rows), nodes[i].id)|, replies[i], requested, seconds)
  {
    hide Chosen, AdmitOn;
    var cs: seq<Candidate> := [];
    for i := 0 to |nodes|
      invariant jobs.rows == old(jobs.rows) && cs == CandidatesOf(nodes[..i], replies[..i], jobs.rows)
      invariant named != 0 ==> forall k :: 0 <= k < i ==> nodes[k].id != named
    {
      var running := jobs.CountActive(nodes[i].id);
      assert nodes[..i + 1][..i] == nodes[..i] && replies[..i + 1][..i] == replies[..i];
      if named != 0 && nodes[i].id == named {
        if nodes[i].revoked {
          return No(Revoked);
        }
        v := AdmitOn(nodes[i], running, replies[i], requested, seconds);
        if v.Yes? {
          AdmitsExactly(nodes[i], running, replies[i], requested, seconds);
          jobs.Create(id, v.admitted.node.id, v.admitted.workers, Budget(seconds), stall);
        }
        return v;
      }
      if !nodes[i].revoked {
        cs := cs + [Candidate(nodes[i], running, replies[i])];
      }
    }
    assert nodes[..|nodes|] == nodes && replies[..|replies|] == replies;
    if named != 0 {
      return No(NoNode);
    }
    v := Admit(cs, requested, seconds);
    NodesDecide(nodes, replies, jobs.rows, requested, seconds, v);
    if v.No? {
      return v;
    }
    forall i | 0 <= i < |nodes| {
      AdmitsExactly(nodes[i], |ActiveOn(jobs.rows, nodes[i].id)|, replies[i], requested, seconds);
    }
    jobs.Create(id, v.admitted.node.id, v.admitted.workers, Budget(seconds), stall);
  }
}
