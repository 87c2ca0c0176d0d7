/**
 * The runner's registry, as its methods change it under its mutex. `Solves` interleaves these sections: each is proved
 * to be steps of it, so that what `Solves` keeps holds of the runner.
 */
module SolveRunner {
  import opened Basics
  import opened SolveStream
  import opened Solves

  /** What a viewer sees of a solve under way. */
  datatype Preview = Preview(version: int, received: nat, snapshot: Option<int>, score: Option<int>,
                             verdict: Option<int>)

  /** One running solve. `done` is its channel closed; `objective` is the preview timetable's. */
  datatype Live = Live(plan: int, node: int, cancelled: bool, preview: Preview, objective: int)

  predicate Hits(live: Live, target: Target) {
    match target
    case OfNode(n) => live.node == n
    case OfPlan(p) => live.plan == p
    case Everything => true
  }

  function Stopped(live: Live, target: Target): Live {
    if Hits(live, target) then live.(cancelled := true) else live
  }

  /** The registry with every solve of the target cancelled. */
  function AllCancelled(running: map<int, Live>, target: Target): map<int, Live> {
    map j | j in running :: Stopped(running[j], target)
  }

  function HitBy(running: map<int, Live>, target: Target): set<int> {
    set j | j in running && Hits(running[j], target)
  }

  /** The solves listed so far are cancelled if they are the target's, and those are the ones to wait for. */
  ghost predicate SoFar(was: map<int, Live>, running: map<int, Live>, seen: seq<int>, waiting: seq<int>,
                        target: Target) {
    && running.Keys == was.Keys
    && (forall j :: j in running ==> running[j] == if j in seen then Stopped(was[j], target) else was[j])
    && (forall a, b :: 0 <= a < b < |waiting| ==> waiting[a] != waiting[b])
    && (forall j :: j in waiting <==> j in seen && j in was && Hits(was[j], target))
  }

  lemma CancelStarts(was: map<int, Live>, order: seq<int>, target: Target)
    ensures SoFar(was, was, order[..0], [], target)
  {
  }

  lemma CancelNext(was: map<int, Live>, running: map<int, Live>, order: seq<int>, i: nat, waiting: seq<int>,
                   target: Target)
    requires i < |order| && Lists(order, was.Keys) && SoFar(was, running, order[..i], waiting, target)
    ensures order[i] in running
    ensures var j := order[i];
            var hit := Hits(running[j], target);
            SoFar(was, if hit then running[j := running[j].(cancelled := true)] else running, order[..i + 1],
                  if hit then waiting + [j] else waiting, target)
  {
    var j := order[i];
    assert j in order && j !in order[..i] && j !in waiting;
    assert order[..i + 1] == order[..i] + [j];
  }

  lemma CancelEnds(was: map<int, Live>, running: map<int, Live>, order: seq<int>, waiting: seq<int>, target: Target)
    requires Lists(order, was.Keys) && SoFar(was, running, order[..|order|], waiting, target)
    ensures running == AllCancelled(was, target) && Lists(waiting, HitBy(was, target))
  {
  }

  /** By the fields: a revoke reaches its node's solves and no other, a deletion its plan's, a shutdown every one. */
  lemma HitByField(was: map<int, Live>, running: map<int, Live>, waiting: seq<int>, target: Target)
    requires running == AllCancelled(was, target) && Lists(waiting, HitBy(was, target))
    ensures running.Keys == was.Keys
    ensures forall j :: j in running ==>
              var hit := match target
                         case OfNode(node) => was[j].node == node
                         case OfPlan(plan) => was[j].plan == plan
                         case Everything => true;
              (j in waiting <==> hit) && running[j] == if hit then was[j].(cancelled := true) else was[j]
  {
  }

  /** The registry of this world. */
  ghost predicate OnRegister(running: map<int, Live>, w: World) {
    && (forall j :: j in running <==> j in w.solves && Running(w.solves[j]))
    && (forall j :: j in running ==> running[j].plan == w.solves[j].plan && running[j].node == w.solves[j].node)
  }

  lemma HitAreRegistered(running: map<int, Live>, w: World, target: Target)
    requires OnRegister(running, w)
    ensures HitBy(running, target) == Registry(w, target)
  {
    forall j ensures j in HitBy(running, target) <==> j in Registry(w, target) {}
  }

  /** Cancelling moves no solve on or off the registry. */
  lemma CancelledMirrors(was: map<int, Live>, running: map<int, Live>, w: World, target: Target)
    requires OnRegister(was, w) && running == AllCancelled(was, target)
    ensures OnRegister(running, w)
  {
  }

  /** A timetable frame of the search; the final frame is the result's, not the preview's. */
  predicate Streams(f: Frame) {
    f.phase == Solution && f.snapshot.Some?
  }

  function Arrivals(frames: seq<Frame>): nat {
    if frames == [] then 0
    else Arrivals(frames[..|frames| - 1]) + if Streams(frames[|frames| - 1]) then 1 else 0
  }

  lemma {:induction false} ArrivalsInWords(frames: seq<Frame>)
    ensures Arrivals(frames) == |set k | 0 <= k < |frames| && frames[k].phase == Solution && frames[k].snapshot != None|
  {
    if frames != [] {
      var n := |frames| - 1;
      ArrivalsInWords(frames[..n]);
      assert forall k :: 0 <= k < n ==> frames[..n][k] == frames[k];
      var before := set k | 0 <= k < |frames[..n]| && frames[..n][k].phase == Solution && frames[..n][k].snapshot != None;
      var all := set k | 0 <= k < |frames| && frames[k].phase == Solution && frames[k].snapshot != None;
      assert forall k :: k in before ==> k < n;
      if Streams(frames[n]) {
        assert all == before + {n};
      } else {
        assert all == before;
      }
    }
  }

  class Runner {
    var running: map<int, Live>
    var closed: bool

    constructor ()
      ensures running == map[] && !closed
    {
      running, closed := map[], false;
    }

    /** The registry is this world's: the same solves on it, and the same flag. */
    ghost predicate Mirrors(w: World)
      reads this
    {
      closed == w.closed && OnRegister(running, w)
    }

    /** A solve goes on the registry, if there is still one to go on. */
    method Take(j: int, plan: int, node: int, version: int, ghost w: World) returns (taken: bool, ghost w': World)
      requires Mirrors(w) && j in w.solves && w.solves[j] == Solve(plan, node, Begun)
      modifies `running
      ensures Mirrors(w') && if taken then Step(w, Register(j), w') else w' == w
      ensures taken <==> !closed
      ensures running == if taken
                         then old(running)[j := Live(plan, node, false, Preview(version, 0, None, None, None), 0)]
                         else old(running)
    {
      if closed {
        return false, w;
      }
      running := running[j := Live(plan, node, false, Preview(version, 0, None, None, None), 0)];
      return true, Moved(w, j, Registered);
    }

    /** The solve ended and its row is closed: it leaves the registry, and no other does. */
    method Drop(j: int, ghost w: World) returns (ghost w': World)
      requires Mirrors(w) && IsAt(w, j, Ended)
      modifies `running
      ensures Mirrors(w') && Step(w, Unregister(j), w')
      ensures forall k :: k in running <==> k in old(running) && k != j
      ensures forall k :: k in running ==> running[k] == old(running)[k]
    {
      running := running - {j};
      return Moved(w, j, Unregistered);
    }

    method Cancel(j: int, ghost w: World) returns (found: bool)
      requires Mirrors(w)
      modifies `running
      ensures Mirrors(w)
      ensures found <==> j in old(running)
      ensures running == if found then old(running)[j := old(running)[j].(cancelled := true)] else old(running)
    {
      if j !in running {
        return false;
      }
      running := running[j := running[j].(cancelled := true)];
      return true;
    }

    /** Cancels every solve of the target, in whatever order the registry lists them, and says which to wait for. */
    method CancelWhere(target: Target, ghost w: World) returns (waiting: seq<int>)
      requires Mirrors(w)
      modifies `running
      ensures running == AllCancelled(old(running), target)
      ensures Lists(waiting, HitBy(old(running), target))
      ensures running.Keys == old(running).Keys
      ensures forall j :: j in running ==>
                var hit := match target
                           case OfNode(node) => old(running)[j].node == node
                           case OfPlan(plan) => old(running)[j].plan == plan
                           case Everything => true;
                (j in waiting <==> hit)
                && running[j] == if hit then old(running)[j].(cancelled := true) else old(running)[j]
      ensures Mirrors(w) && Lists(waiting, Registry(w, target))
      ensures forall s :: StageIs(w, s, Flagged) && w.stoppers[s].target == target && !target.Everything? ==>
                Step(w, Scan(s), Staged(w, s, Waiting(Elements(waiting))))
      ensures forall s :: StageIs(w, s, Starting) && w.stoppers[s].target == target && target.OfPlan? ==>
                Step(w, FirstScan(s), Staged(w, s, Cancelling(Elements(waiting))))
    {
      hide SoFar, AllCancelled, HitBy;
      ghost var was := running;
      waiting := [];
      var order := Rows(running.Keys);
      CancelStarts(running, order, target);
      for i := 0 to |order|
        invariant SoFar(old(running), running, order[..i], waiting, target)
      {
        CancelNext(old(running), running, order, i, waiting, target);
        var j := order[i];
        if Hits(running[j], target) {
          running := running[j := running[j].(cancelled := true)];
          waiting := waiting + [j];
        }
      }
      CancelEnds(old(running), running, order, waiting, target);
      HitByField(was, running, waiting, target);
      HitAreRegistered(was, w, target);
      CancelledMirrors(was, running, w, target);
      assert Elements(waiting) == Registry(w, target);
    }

    /** Refuses new solves and stops every running one; closing twice changes nothing more. */
    method CloseRunner(ghost w: World, ghost s: int) returns (first: bool, ghost w': World)
      requires Mirrors(w) && StageIs(w, s, Starting) && w.stoppers[s].target == Everything
      modifies `running, `closed
      ensures Mirrors(w')
      ensures first ==> exists flagged :: Step(w, Flag(s), flagged) && Step(flagged, Scan(s), w')
      ensures !first ==> Step(w, Skip(s), w')
      ensures closed && (first <==> !old(closed))
      ensures running.Keys == old(running).Keys
      ensures forall j :: j in running ==>
                running[j] == if first then old(running)[j].(cancelled := true) else old(running)[j]
    {
      if closed {
        return false, Staged(w, s, Returned(false));
      }
      closed := true;
      ghost var flagged := WithFlag(w, Everything).(
        stoppers := w.stoppers[s := w.stoppers[s].(stage := Flagged, undone := false)]);
      assert Step(w, Flag(s), flagged);
      var waiting := CancelWhere(Everything, flagged);
      w' := Staged(flagged, s, Waiting(Awaited(flagged, Everything)));
      assert Step(flagged, Scan(s), w');
      return true, w';
    }

    /** One update of a running solve: keeps the best timetable, and counts every one that arrived. */
    method Observe(j: int, f: Frame) returns (received: nat)
      requires j in running
      modifies `running
      ensures running.Keys == old(running).Keys && forall k :: k in running && k != j ==> running[k] == old(running)[k]
      ensures running[j].plan == old(running)[j].plan && running[j].node == old(running)[j].node
              && running[j].cancelled == old(running)[j].cancelled
              && running[j].preview.version == old(running)[j].preview.version
      ensures forall w :: OnRegister(old(running), w) ==> OnRegister(running, w)
      ensures received == running[j].preview.received
                       == old(running)[j].preview.received + if f.phase == Solution && f.snapshot != None then 1 else 0
      ensures var was := old(running)[j];
              var taken := f.phase == Solution && f.snapshot != None
                           && !(was.preview.snapshot.Some? && f.objective > was.objective);
              && running[j].preview.snapshot == (if taken then f.snapshot else was.preview.snapshot)
              && running[j].objective == (if taken then f.objective else was.objective)
              && running[j].preview.score == (if taken then f.score else was.preview.score)
              && running[j].preview.verdict == (if taken then f.verdict else was.preview.verdict)
    {
      var live := running[j];
      if f.phase != Solution || f.snapshot.None? {
        return live.preview.received;
      }
      if Worse(live.preview.snapshot.Some?, live.objective, f) {
        live := live.(preview := live.preview.(received := live.preview.received + 1));
        running := running[j := live];
        return live.preview.received;
      }
      var preview := Preview(live.preview.version, live.preview.received + 1, f.snapshot, f.score, f.verdict);
      running := running[j := live.(objective := f.objective, preview := preview)];
      return preview.received;
    }

    /**
     * Following a solve from the moment it is taken: the preview is the last of the best timetables the search
     * sent, and the count shown is how many arrived.
     */
    method Follow(j: int, frames: seq<Frame>)
      requires j in running && running[j].preview.snapshot.None? && running[j].preview.received == 0
      modifies `running
      ensures j in running
      ensures KeepsBest(frames, running[j].preview.snapshot, running[j].objective, Streams)
      ensures running[j].preview.received
              == |set k | 0 <= k < |frames| && frames[k].phase == Solution && frames[k].snapshot != None|
      ensures running[j].preview.snapshot == None ==>
                forall k :: 0 <= k < |frames| ==> frames[k].phase != Solution || frames[k].snapshot == None
      ensures running[j].preview.snapshot != None ==>
                exists i :: 0 <= i < |frames| && frames[i].phase == Solution
                  && frames[i].snapshot == running[j].preview.snapshot
                  && forall k :: 0 <= k < |frames| && frames[k].phase == Solution && frames[k].snapshot != None ==>
                       && frames[i].objective <= frames[k].objective
                       && (k > i ==> frames[i].objective < frames[k].objective)
    {
      for i := 0 to |frames|
        invariant j in running
        invariant KeepsBest(frames[..i], running[j].preview.snapshot, running[j].objective, Streams)
        invariant running[j].preview.received == Arrivals(frames[..i])
      {
        assert frames[..i + 1] == frames[..i] + [frames[i]] && frames[..i + 1][..i] == frames[..i];
        KeepsBestNext(frames[..i], frames[i], running[j].preview.snapshot, running[j].objective, Streams);
        var received := Observe(j, frames[i]);
      }
      assert frames[..|frames|] == frames;
      ArrivalsInWords(frames);
    }
  }

  /** When the final frame brings no timetable of its own, the preview and the result are one timetable. */
  lemma PreviewIsResult(frames: seq<Frame>, preview: Option<int>, objective: int, kept: Option<int>, best: int)
    requires KeepsBest(frames, preview, objective, Streams) && KeepsBest(frames, kept, best, Carries)
    requires forall k :: 0 <= k < |frames| && frames[k].phase == Finished ==> frames[k].snapshot.None?
    ensures preview == kept
  {
  }
}
