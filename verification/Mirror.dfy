/**
 * A client that mirrors the index through the change feed, beside every writer. A stamping transaction is
 * two steps: it takes the clock's row, then commits with the stamps it read there. Whatever interleaves,
 * each part is mirrored exactly or its stamp is still ahead of the client's cursor.
 */
module Mirror {
  import opened Basics
  import opened PlanTables
  import opened PlanOps
  import opened PlanLinks
  import opened Stamps
  import opened Feed

  /** Between polls, after a reset, or re-reading what a poll reported. */
  datatype Mode = Idle | Listing | Reading

  /** `seen` is the clock a poll has read and not yet answered from. */
  datatype Client = Client(cursor: Option<Cursor>, mode: Mode, seen: Option<Cursor>, target: Cursor,
                           mirror: map<(int, Part), Content>, pending: set<(int, Part)>)

  /** `lock` holds the clock value the stamping transaction under way read; `past` every epoch ever used. */
  datatype World = World(epoch: string, t: Tables, born: set<int>, lock: Option<nat>, past: set<string>,
                         client: Client)

  datatype Label =
    | Lock
    | Commit(op: Op, at: Time)
    | Abort
    | Quiet(op: Op, at: Time)
    | Replace(epoch: string, t: Tables, born: set<int>)
    | ReadClock
    | Reset
    | List
    | Nothing
    | TakePage(limit: int)
    | ReadPart(x: (int, Part))
    | Advance
    | Crash

  function Seen(mirror: map<(int, Part), Content>, x: (int, Part)): Content {
    if x in mirror then mirror[x] else Stamps.Nothing
  }

  function Now(w: World): Cursor {
    Cursor(w.epoch, w.t.clock)
  }

  /** A client without a cursor, or with one of another epoch or from ahead of the clock, starts over. */
  predicate MustReset(cursor: Option<Cursor>, now: Cursor) {
    cursor.None? || cursor.value.epoch != now.epoch || cursor.value.seqno > now.seqno
  }

  function BornBy(op: Op): set<int> {
    match op
    case Create(id, _, _) => {id}
    case Fork(id, _, _, _, _) => {id}
    case _ => {}
  }

  function OneOfEach(t: Tables, part: Part): set<(int, Part)> {
    set p | p in t.plans :: (p, part)
  }

  function AllParts(t: Tables): set<(int, Part)> {
    OneOfEach(t, Project) + OneOfEach(t, Part.Versions) + OneOfEach(t, Part.Results)
  }

  /** A plan listed as removed takes all its parts with it. */
  function Dropped(mirror: map<(int, Part), Content>, t: Tables, reported: set<(int, Part)>):
      map<(int, Part), Content>
  {
    map x | x in mirror && (x.0 in t.plans || forall y :: y in reported ==> y.0 != x.0) :: mirror[x]
  }

  /** A database as this program leaves it. */
  ghost predicate Sound(t: Tables, born: set<int>) {
    Linked(t) && Clocked(t) && t.plans.Keys <= born && forall x :: x in t.stamps ==> x.0 in born
  }

  ghost predicate ServerStep(w: World, l: Label, w': World) {
    match l
    case Lock => w.lock.None? && w' == w.(lock := Some(w.t.clock))
    case Commit(op, at) =>
      w.lock.Some? && Enabled(w.t, op, w.born)
      && w' == w.(t := Apply(w.t.(clock := w.lock.value), op, at), born := w.born + BornBy(op), lock := None)
    case Abort => w' == w.(lock := None)
    case Quiet(op, at) =>
      Enabled(w.t, op, w.born) && Apply(w.t, op, at).clock == w.t.clock
      && w' == w.(t := Apply(w.t, op, at), born := w.born + BornBy(op))
    case Replace(epoch, t, born) =>
      epoch !in w.past && Sound(t, born)
      && w' == World(epoch, t, born, None, w.past + {epoch}, w.client.(seen := None))
    case _ => false
  }

  ghost predicate ClientStep(w: World, l: Label, w': World) {
    var c := w.client;
    match l
    case ReadClock => c.mode == Idle && w' == w.(client := c.(seen := Some(Now(w))))
    case Reset =>
      c.mode == Idle && c.seen.Some? && MustReset(c.cursor, c.seen.value)
      && w' == w.(client := c.(mode := Listing, target := c.seen.value, seen := None))
    case List =>
      c.mode == Listing && w' == w.(client := c.(mode := Reading, mirror := map[], pending := AllParts(w.t)))
    case Nothing =>
      c.mode == Idle && c.seen.Some? && !MustReset(c.cursor, c.seen.value)
      && c.cursor.value.seqno == c.seen.value.seqno && w' == w.(client := c.(seen := None))
    case TakePage(limit) =>
      c.mode == Idle && c.seen.Some? && !MustReset(c.cursor, c.seen.value)
      && c.cursor.value.seqno != c.seen.value.seqno
      && var since, limit := c.cursor.value.seqno, Limit(limit);
         var reported := Reported(w.t, since, limit);
         w' == w.(client := c.(mode := Reading, seen := None, target := Cursor(w.epoch, PageCursor(w.t, since, limit)),
                               mirror := Dropped(c.mirror, w.t, reported),
                               pending := set x | x in reported && x.0 in w.t.plans))
    case ReadPart(x) =>
      c.mode == Reading && x in c.pending
      && w' == w.(client := c.(mirror := c.mirror[x := Read(w.t, x)], pending := c.pending - {x}))
    case Advance =>
      c.mode == Reading && c.pending == {}
      && w' == w.(client := c.(mode := Idle, cursor := Some(c.target)))
    case Crash => w' == w.(client := c.(mode := Idle, seen := None, pending := {}))
    case _ => false
  }

  ghost predicate Step(w: World, l: Label, w': World) {
    ServerStep(w, l, w') || ClientStep(w, l, w')
  }

  ghost predicate Init(w: World) {
    && Sound(w.t, w.born) && w.lock == None && w.past == {w.epoch}
    && w.client.cursor == None && w.client.mode == Idle && w.client.seen == None
  }

  // -------------------------------------------------------------- invariant

  /** Mirrored exactly, or its stamp is above the cursor: it will be reported. */
  predicate Mirrored(t: Tables, mirror: map<(int, Part), Content>, x: (int, Part), c: int) {
    Seen(mirror, x) == Read(t, x) || StampedAfter(t, x, c)
  }

  ghost predicate Trusts(w: World, at: Cursor, pending: set<(int, Part)>) {
    at.epoch == w.epoch ==>
      0 <= at.seqno <= w.t.clock
      && forall x: (int, Part) :: x in pending || Mirrored(w.t, w.client.mirror, x, at.seqno)
  }

  ghost predicate Inv(w: World) {
    && Sound(w.t, w.born) && (w.lock.Some? ==> w.lock.value == w.t.clock)
    && w.epoch in w.past
    && (w.client.cursor.Some? ==> w.client.cursor.value.epoch in w.past && Trusts(w, w.client.cursor.value, {}))
    && (w.client.seen.Some? ==> Polling(w))
    && (w.client.mode == Reading ==> w.client.target.epoch in w.past && Trusts(w, w.client.target, w.client.pending))
    && (w.client.mode == Listing ==> Restarting(w))
  }

  ghost predicate Polling(w: World)
    requires w.client.seen.Some?
  {
    && w.client.mode == Idle && w.client.seen.value.epoch == w.epoch && 0 <= w.client.seen.value.seqno <= w.t.clock
    && (w.client.cursor.Some? && w.client.cursor.value.epoch == w.epoch ==>
          w.client.cursor.value.seqno <= w.client.seen.value.seqno)
  }

  ghost predicate Restarting(w: World) {
    && w.client.target.epoch in w.past
    && (w.client.cursor.Some? ==> w.client.cursor.value.epoch != w.epoch)
    && (w.client.target.epoch == w.epoch ==> 0 <= w.client.target.seqno <= w.t.clock)
  }

  /** No transaction, whatever it changes, can make a part both stale and unannounced. */
  lemma WriteKeepsMirrored(t: Tables, born: set<int>, t': Tables, mirror: map<(int, Part), Content>,
                           x: (int, Part), c: int)
    requires Sound(t, born) && Stamped(t, t', t.clock) && c <= t.clock && Mirrored(t, mirror, x, c)
    requires t'.plans.Keys * born <= t.plans.Keys
    ensures Mirrored(t', mirror, x, c)
  {
  }

  lemma PlansComeFresh(t: Tables, op: Op, born: set<int>, at: Time)
    requires Enabled(t, op, born) && t.plans.Keys <= born
    ensures Apply(t, op, at).plans.Keys * born <= t.plans.Keys
    ensures Apply(t, op, at).plans.Keys <= t.plans.Keys + BornBy(op)
  {
  }

  /** A transaction leaves the database sound, and every cursor as trustworthy as it was. */
  lemma WriteKeeps(w: World, l: Label, w': World)
    requires Inv(w) && ServerStep(w, l, w') && (l.Commit? || l.Quiet?)
    ensures Inv(w')
  {
    assert l.Commit? ==> w.t.(clock := w.lock.value) == w.t;
    var t' := Apply(w.t, l.op, l.at);
    EveryOpStamps(w.t, l.op, w.born, l.at);
    EveryOpLinks(w.t, l.op, w.born, l.at);
    PlansComeFresh(w.t, l.op, w.born, l.at);
    hide Apply, Enabled, Linked, Clocked, Read, Mirrored;
    assert w'.t == t' && w'.client == w.client && w'.epoch == w.epoch && w'.past == w.past;
    SoundAfter(w, t', BornBy(l.op));
    assert l.Quiet? ==> w'.t.clock == w.t.clock;
    assert t'.clock >= w.t.clock;
    TrustsAfter(w, w', {});
    TrustsAfter(w, w', w.client.pending);
  }

  lemma SoundAfter(w: World, t': Tables, more: set<int>)
    requires Sound(w.t, w.born) && Stamped(w.t, t', w.t.clock) && Linked(t') && Clocked(t')
    requires t'.plans.Keys <= w.t.plans.Keys + more
    ensures Sound(t', w.born + more)
  {
  }

  lemma TrustsAfter(w: World, w': World, pending: set<(int, Part)>)
    requires Sound(w.t, w.born) && Stamped(w.t, w'.t, w.t.clock) && w'.t.plans.Keys * w.born <= w.t.plans.Keys
    requires w'.client == w.client && w'.epoch == w.epoch
    ensures forall at :: Trusts(w, at, pending) ==> Trusts(w', at, pending)
  {
  }

  /** Everything a page covers is reported: a part stamped on it is pending, or its plan is gone and dropped. */
  lemma PageKeepsTrust(w: World, since: int, limit: nat, mirror': map<(int, Part), Content>,
                       pending: set<(int, Part)>, x: (int, Part))
    requires Linked(w.t) && Mirrored(w.t, w.client.mirror, x, since) && limit >= 1
    requires mirror' == Dropped(w.client.mirror, w.t, Reported(w.t, since, limit))
    requires pending == set x | x in Reported(w.t, since, limit) && x.0 in w.t.plans
    ensures Mirrored(w.t, mirror', x, since)
    ensures x in pending || Mirrored(w.t, mirror', x, PageCursor(w.t, since, limit))
  {
    PageIsPrefix(w.t, since, limit);
    if x.0 !in w.t.plans { GonePlansAreEmpty(w.t, x); }
    hide Reported, PageCursor, Later;
    var reported := Reported(w.t, since, limit);
    if x.0 !in w.t.plans && exists y :: y in reported && y.0 == x.0 {
      assert x !in mirror';
    } else {
      assert Seen(mirror', x) == Seen(w.client.mirror, x);
      if StampedAfter(w.t, x, since) && !StampedAfter(w.t, x, PageCursor(w.t, since, limit)) {
        assert x in reported || (x.0, Project) in reported;
        assert x in reported || x.0 in w.t.plans;
      }
    }
  }

  /** A plan that is gone reads as nothing. */
  lemma GonePlansAreEmpty(t: Tables, x: (int, Part))
    requires Linked(t) && x.0 !in t.plans
    ensures Read(t, x) == Stamps.Nothing
  {
    match x.1
    case Project =>
    case Versions =>
      forall id ensures id !in Read(t, x).versions {}
      assert Read(t, x).versions == map[];
    case Results =>
      forall r ensures r !in Read(t, x).results {}
      assert Read(t, x).results == map[];
  }

  lemma PollKeeps(w: World, l: Label, w': World)
    requires Inv(w) && ClientStep(w, l, w') && l.TakePage?
    ensures Inv(w')
  {
    var since, limit := w.client.cursor.value.seqno, Limit(l.limit);
    var c := PageCursor(w.t, since, limit);
    assert w.client.cursor.value.epoch == w.epoch;
    CursorIsIssued(w.t, since, limit);
    var reported := Reported(w.t, since, limit);
    var pending := set x | x in reported && x.0 in w.t.plans;
    hide Sound, Mirrored, PageCursor;
    forall x: (int, Part) ensures Mirrored(w.t, w'.client.mirror, x, since)
                                  && (x in pending || Mirrored(w.t, w'.client.mirror, x, c)) {
      assert x in {} || Mirrored(w.t, w.client.mirror, x, since);
      SoundIsLinked(w.t, w.born);
      PageKeepsTrust(w, since, limit, w'.client.mirror, pending, x);
    }
    hide Reported;
    assert Trusts(w', w'.client.cursor.value, {});
    assert Trusts(w', w'.client.target, pending);
  }

  lemma SoundIsLinked(t: Tables, born: set<int>)
    requires Sound(t, born)
    ensures Linked(t) && Clocked(t)
  {
  }

  /** Re-reading a part can only bring the mirror closer. */
  lemma ReadKeeps(w: World, l: Label, w': World)
    requires Inv(w) && ClientStep(w, l, w') && l.ReadPart?
    ensures Inv(w')
  {
    hide Sound, Read;
    forall at, pending | Trusts(w, at, pending) ensures Trusts(w', at, pending - {l.x}) {
      if at.epoch == w.epoch {
        forall x: (int, Part) | x !in pending - {l.x} ensures Mirrored(w'.t, w'.client.mirror, x, at.seqno) {
          assert x == l.x || x in pending || Mirrored(w.t, w.client.mirror, x, at.seqno);
        }
      }
    }
    var none: set<(int, Part)> := {};
    assert none - {l.x} == none;
  }

  lemma AllPartsHas(t: Tables, x: (int, Part))
    requires x.0 in t.plans
    ensures x in AllParts(t)
  {
    OneOfEachHas(t, x.0, x.1);
    assert x == (x.0, x.1);
    assert x.1 == Project || x.1 == Part.Versions || x.1 == Part.Results;
  }

  lemma OneOfEachHas(t: Tables, p: int, part: Part)
    requires p in t.plans
    ensures (p, part) in OneOfEach(t, part)
  {
  }

  /** After a reset the mirror starts empty, with everything there is to be read. */
  lemma ListKeeps(w: World, l: Label, w': World)
    requires Inv(w) && ClientStep(w, l, w') && l.List?
    ensures Inv(w')
  {
    forall x: (int, Part)
      ensures x in w'.client.pending || Mirrored(w'.t, w'.client.mirror, x, w'.client.target.seqno)
    {
      if x.0 in w.t.plans {
        AllPartsHas(w.t, x);
      } else {
        GonePlansAreEmpty(w.t, x);
      }
    }
    hide Sound, AllParts, Mirrored;
    assert Trusts(w', w'.client.target, w'.client.pending);
  }

  lemma AdvanceKeeps(w: World, l: Label, w': World)
    requires Inv(w) && ClientStep(w, l, w')
    requires l.ReadClock? || l.Reset? || l.Nothing? || l.Advance? || l.Crash?
    ensures Inv(w')
  {
  }

  lemma ServerKeeps(w: World, l: Label, w': World)
    requires Inv(w) && ServerStep(w, l, w')
    ensures Inv(w')
  {
    if l.Commit? || l.Quiet? {
      WriteKeeps(w, l, w');
    } else if l.Replace? {
      hide Linked, Clocked, Mirrored;
      assert w'.client.cursor == w.client.cursor;
    } else {
      hide Sound, Mirrored;
      assert forall at, pending :: Trusts(w, at, pending) ==> Trusts(w', at, pending);
    }
  }

  lemma StepKeeps(w: World, l: Label, w': World)
    requires Inv(w) && Step(w, l, w')
    ensures Inv(w')
  {
    if ServerStep(w, l, w') {
      hide Inv;
      ServerKeeps(w, l, w');
    } else {
      hide Inv, ServerStep;
      if l.TakePage? {
        PollKeeps(w, l, w');
      } else if l.ReadPart? {
        ReadKeeps(w, l, w');
      } else if l.List? {
        ListKeeps(w, l, w');
      } else {
        AdvanceKeeps(w, l, w');
      }
    }
  }

  // ------------------------------------------------------------------- runs

  ghost predicate Moves(w: World, w': World) {
    exists l :: Step(w, l, w')
  }

  ghost predicate Run(run: seq<World>) {
    |run| > 0 && Init(run[0]) && forall i :: 0 <= i < |run| - 1 ==> Moves(run[i], run[i + 1])
  }

  lemma {:induction false} RunKeeps(run: seq<World>, i: nat)
    requires Run(run) && i < |run|
    ensures Inv(run[i])
  {
    if i > 0 {
      RunKeeps(run, i - 1);
      assert Moves(run[i - 1], run[i]);
      hide Inv, Step;
      var l :| Step(run[i - 1], l, run[i]);
      StepKeeps(run[i - 1], l, run[i]);
    }
  }

  /** In every run, each part is mirrored exactly or stamped above the cursor: no change is ever skipped. */
  lemma NoChangeIsSkipped(run: seq<World>, i: nat, x: (int, Part))
    requires Run(run) && i < |run|
    requires run[i].client.cursor.Some? && run[i].client.cursor.value.epoch == run[i].epoch
    ensures var (t, mirror, cursor) := (run[i].t, run[i].client.mirror, run[i].client.cursor.value.seqno);
            || (if x in mirror then mirror[x] else Stamps.Nothing) == Read(t, x)
            || (x in t.stamps && t.stamps[x] > cursor)
            || (x.0 !in t.plans && (x.0, Project) in t.stamps && t.stamps[(x.0, Project)] > cursor)
  {
    RunKeeps(run, i);
    assert x in {} || Mirrored(run[i].t, run[i].client.mirror, x, run[i].client.cursor.value.seqno);
  }

  /** A client whose cursor is the clock mirrors the whole index exactly, row by row. */
  lemma CaughtUpIsExact(run: seq<World>, i: nat, p: int)
    requires Run(run) && i < |run| && run[i].client.cursor == Some(Cursor(run[i].epoch, run[i].t.clock))
    ensures forall part :: (p, part) !in run[i].client.mirror ==> Read(run[i].t, (p, part)) == Stamps.Nothing
    ensures var (t, mirror) := (run[i].t, run[i].client.mirror);
            && (p in t.plans ==> (p, Project) in mirror)
            && ((p, Project) in mirror ==>
                  mirror[(p, Project)].plan == if p in t.plans then Some(t.plans[p]) else None)
            && ((p, Part.Versions) in mirror ==>
                  forall v: (int, int) :: v.0 == p ==>
                    && (v in mirror[(p, Part.Versions)].versions <==> v in t.versions)
                    && (v in t.versions ==> mirror[(p, Part.Versions)].versions[v] == t.versions[v]))
            && ((p, Part.Results) in mirror ==>
                  forall r :: (r in mirror[(p, Part.Results)].results <==> r in t.results && t.results[r].plan == p)
                              && (r in t.results && t.results[r].plan == p ==>
                                    mirror[(p, Part.Results)].results[r] == t.results[r]))
  {
    RunKeeps(run, i);
    hide Read, Run;
    ReadInWords(run[i].t, p);
    forall part ensures Seen(run[i].client.mirror, (p, part)) == Read(run[i].t, (p, part)) {
      SkippedNothing(run[i], (p, part));
    }
  }

  lemma SkippedNothing(w: World, x: (int, Part))
    requires Inv(w) && w.client.cursor == Some(Now(w))
    ensures Seen(w.client.mirror, x) == Read(w.t, x)
  {
    assert x in {} || Mirrored(w.t, w.client.mirror, x, w.t.clock);
  }

  /** No cursor a client keeps is past the clock of the database that issued it, so none is refused later. */
  lemma CursorStaysGood(run: seq<World>, i: nat)
    requires Run(run) && i < |run|
    requires run[i].client.cursor.Some? && run[i].client.cursor.value.epoch == run[i].epoch
    ensures run[i].client.cursor.value.seqno <= run[i].t.clock && !MustReset(run[i].client.cursor, Now(run[i]))
  {
    RunKeeps(run, i);
  }

  // ----------------------------------------------------------------- catching up

  /** Consecutive states of a run, from anywhere. */
  ghost predicate Path(path: seq<World>) {
    |path| > 0 && forall i :: 0 <= i < |path| - 1 ==> Moves(path[i], path[i + 1])
  }

  lemma PathsJoin(a: seq<World>, b: seq<World>)
    requires Path(a) && Path(b) && Moves(a[|a| - 1], b[0])
    ensures Path(a + b)
  {
    hide Moves;
    var c := a + b;
    forall i | 0 <= i < |c| - 1 ensures Moves(c[i], c[i + 1]) {
      assert i < |a| - 1 ==> c[i] == a[i] && c[i + 1] == a[i + 1];
      assert i >= |a| ==> c[i] == b[i - |a|] && c[i + 1] == b[i + 1 - |a|];
    }
  }

  lemma PathOfOne(w: World)
    ensures Path([w])
  {
  }

  /** What was reported is read, part after part, and the cursor moves on. */
  lemma {:induction false} ReadsAll(w: World) returns (path: seq<World>)
    requires w.client.mode == Reading
    ensures Path(path) && path[0] == w
    ensures var (c, last) := (w.client, path[|path| - 1]);
            last == w.(client := c.(mode := Idle, cursor := Some(c.target), pending := {},
                                    mirror := last.client.mirror))
    decreases |w.client.pending|
  {
    var c := w.client;
    PathOfOne(w);
    if c.pending == {} {
      var next := w.(client := c.(mode := Idle, cursor := Some(c.target)));
      assert ClientStep(w, Advance, next);
      assert Step(w, Advance, next);
      PathOfOne(next);
      PathsJoin([w], [next]);
      path := [w] + [next];
    } else {
      var x :| x in c.pending;
      var next := w.(client := c.(mirror := c.mirror[x := Read(w.t, x)], pending := c.pending - {x}));
      assert Step(w, ReadPart(x), next);
      var rest := ReadsAll(next);
      PathsJoin([w], rest);
      path := [w] + rest;
    }
  }

  lemma PathsMeet(a: seq<World>, b: seq<World>)
    requires Path(a) && Path(b) && a[|a| - 1] == b[0]
    ensures Path(a + b[1..]) && (a + b[1..])[0] == a[0]
    ensures (a + b[1..])[|a + b[1..]| - 1] == b[|b| - 1]
  {
    hide Moves;
    var c := a + b[1..];
    forall i | 0 <= i < |c| - 1 ensures Moves(c[i], c[i + 1]) {
      assert i < |a| - 1 ==> c[i] == a[i] && c[i + 1] == a[i + 1];
      assert i >= |a| - 1 ==> c[i] == b[i + 1 - |a|] && c[i + 1] == b[i + 2 - |a|];
    }
  }

  /** The client is where the clock is, and nothing else happened. */
  ghost predicate IsCaughtUp(w: World, last: World) {
    && last.t == w.t && last.epoch == w.epoch && last.born == w.born && last.past == w.past && last.lock == w.lock
    && last.client.mode == Idle && last.client.cursor == Some(Cursor(w.epoch, w.t.clock))
  }

  /** One poll that finds something: the clock, then a page, then its parts, and the cursor is where the page ends. */
  lemma PollsOnce(w: World, asked: int) returns (path: seq<World>)
    requires w.client.mode == Idle && w.client.cursor.Some? && w.client.cursor.value.epoch == w.epoch
    requires w.client.cursor.value.seqno < w.t.clock
    ensures Path(path) && path[0] == w
    ensures var last := path[|path| - 1];
            last == w.(client := last.client) && last.client.mode == Idle
            && last.client.cursor == Some(Cursor(w.epoch, PageCursor(w.t, w.client.cursor.value.seqno, Limit(asked))))
  {
    hide Reported, PageCursor, Limit;
    var polled := w.(client := w.client.(seen := Some(Now(w))));
    var c := polled.client;
    var since, limit := c.cursor.value.seqno, Limit(asked);
    var reported := Reported(w.t, since, limit);
    var page := polled.(client := c.(mode := Reading, seen := None,
                                     target := Cursor(w.epoch, PageCursor(w.t, since, limit)),
                                     mirror := Dropped(c.mirror, w.t, reported),
                                     pending := set x | x in reported && x.0 in w.t.plans));
    assert Step(w, ReadClock, polled);
    assert Step(polled, TakePage(asked), page);
    var rest := ReadsAll(page);
    hide Step;
    PathOfOne(w);
    PathOfOne(polled);
    PathsJoin([w], [polled]);
    PathsJoin([w] + [polled], rest);
    path := [w] + [polled] + rest;
  }

  lemma {:induction false} PollsOn(w: World, asked: int) returns (path: seq<World>)
    requires Clocked(w.t) && w.client.mode == Idle && w.client.cursor.Some?
    requires w.client.cursor.value.epoch == w.epoch && 0 <= w.client.cursor.value.seqno <= w.t.clock
    ensures Path(path) && path[0] == w && IsCaughtUp(w, path[|path| - 1])
    decreases |Later(w.t, w.client.cursor.value.seqno)|
  {
    hide Clocked, Later, PageCursor, More, Limit, Moves;
    var since := w.client.cursor.value.seqno;
    PathOfOne(w);
    path := [w];
    if since < w.t.clock {
      path := PollsOnce(w, asked);
      var last := path[|path| - 1];
      PageIsPrefix(w.t, since, Limit(asked));
      CursorIsIssued(w.t, since, Limit(asked));
      if More(w.t, since, Limit(asked)) {
        var rest := PollsOn(last, asked);
        PathsMeet(path, rest);
        path := path + rest[1..];
      } else {
        LastPageEndsAtClock(w.t, since, Limit(asked));
      }
    }
  }

  /** Starting over: the clock, the list of everything there is, and each part of it. */
  lemma StartsOver(w: World) returns (path: seq<World>)
    requires w.client.mode == Idle && MustReset(w.client.cursor, Now(w))
    ensures Path(path) && path[0] == w && IsCaughtUp(w, path[|path| - 1])
  {
    hide AllParts;
    var polled := w.(client := w.client.(seen := Some(Now(w))));
    var reset := polled.(client := polled.client.(mode := Listing, target := Now(w), seen := None));
    var listed := reset.(client := reset.client.(mode := Reading, mirror := map[], pending := AllParts(w.t)));
    assert Step(w, ReadClock, polled) && Step(polled, Reset, reset) && Step(reset, List, listed);
    var rest := ReadsAll(listed);
    hide Step;
    PathOfOne(w);
    PathOfOne(polled);
    PathOfOne(reset);
    PathsJoin([w], [polled]);
    PathsJoin([w] + [polled], [reset]);
    PathsJoin([w] + [polled] + [reset], rest);
    path := [w] + [polled] + [reset] + rest;
  }

  /**
   * From any state of any run, even in the middle of a poll, a client that goes on by itself ends at the clock, however
   * few rows it asks for at a time; `CaughtUpIsExact` says what it then has.
   */
  lemma CatchesUp(run: seq<World>, i: nat, asked: int) returns (path: seq<World>)
    requires Run(run) && i < |run|
    ensures Path(path) && path[0] == run[i] && IsCaughtUp(run[i], path[|path| - 1])
    ensures Run(run[..i] + path)
  {
    RunKeeps(run, i);
    var w := run[i];
    var calm := w.(client := w.client.(mode := Idle, seen := None, pending := {}));
    assert Step(w, Crash, calm);
    var rest;
    hide Step, Limit;
    if MustReset(w.client.cursor, Now(w)) {
      rest := StartsOver(calm);
    } else {
      assert Clocked(calm.t) by { SoundIsLinked(w.t, w.born); }
      assert 0 <= w.client.cursor.value.seqno by { assert Trusts(w, w.client.cursor.value, {}); }
      rest := PollsOn(calm, asked);
    }
    hide Inv, MustReset;
    PathOfOne(w);
    PathsJoin([w], rest);
    path := [w] + rest;
    PathExtends(run, i, path);
  }

  lemma PathExtends(run: seq<World>, i: nat, path: seq<World>)
    requires Run(run) && i < |run| && Path(path) && path[0] == run[i]
    ensures Run(run[..i] + path)
  {
    hide Moves, Init;
    var all := run[..i] + path;
    forall k | 0 <= k < |all| - 1 ensures Moves(all[k], all[k + 1]) {
      assert k < i ==> all[k] == run[k] && all[k + 1] == run[k + 1];
      assert k >= i ==> all[k] == path[k - i] && all[k + 1] == path[k + 1 - i];
    }
  }

  /** Every transaction that may run is two steps when it stamps, and one when it does not. */
  lemma WritersStep(w: World, op: Op, at: Time)
    requires Inv(w) && Enabled(w.t, op, w.born)
    ensures var done := w.(t := Apply(w.t, op, at), born := w.born + BornBy(op), lock := None);
            && (w.lock == None ==>
                  exists held :: Step(w, Lock, held) && Step(held, Commit(op, at), done))
            && (Apply(w.t, op, at).clock == w.t.clock ==> Step(w, Quiet(op, at), done.(lock := w.lock)))
  {
    hide Apply, Enabled;
    if w.lock == None {
      var held := w.(lock := Some(w.t.clock));
      assert w.t.(clock := w.t.clock) == w.t;
      assert Step(w, Lock, held);
      assert ServerStep(held, Commit(op, at), w.(t := Apply(w.t, op, at), born := w.born + BornBy(op), lock := None));
    }
  }

  /** The clock did not go back, and each stamp that appeared is above where it was. */
  ghost predicate Onward(t: Tables, t': Tables) {
    && t.clock <= t'.clock
    && forall x :: x in t'.stamps ==> (x in t.stamps && t.stamps[x] == t'.stamps[x]) || t.clock < t'.stamps[x]
  }

  lemma OnwardNowhere(t: Tables)
    ensures Onward(t, t)
  {
  }

  /** The database was not replaced between the two states. */
  ghost predicate SameDatabase(run: seq<World>, i: nat, j: nat)
    requires i <= j < |run|
  {
    forall k :: i <= k <= j ==> run[k].epoch == run[i].epoch
  }

  lemma DatabaseOfPrefix(run: seq<World>, i: nat, j: nat)
    requires i < j < |run| && SameDatabase(run, i, j)
    ensures SameDatabase(run, i, j - 1) && run[j].epoch == run[j - 1].epoch
  {
  }

  lemma OnwardTwice(t: Tables, u: Tables, v: Tables)
    requires Onward(t, u) && Onward(u, v)
    ensures Onward(t, v)
  {
  }

  lemma StampsOfStep(w: World, l: Label, w': World)
    requires Inv(w) && Step(w, l, w') && w'.epoch == w.epoch
    ensures Onward(w.t, w'.t)
  {
    if l.Commit? || l.Quiet? {
      assert l.Commit? ==> w.t.(clock := w.lock.value) == w.t;
      EveryOpStamps(w.t, l.op, w.born, l.at);
      hide Apply, Enabled, Linked, Clocked, Read;
    } else {
      hide Sound;
      assert w'.t == w.t;
    }
  }

  lemma StampsOfMove(run: seq<World>, i: nat)
    requires Run(run) && i + 1 < |run| && run[i + 1].epoch == run[i].epoch
    ensures Onward(run[i].t, run[i + 1].t)
  {
    RunKeeps(run, i);
    assert Moves(run[i], run[i + 1]);
    hide Inv, Step, Onward;
    var l :| Step(run[i], l, run[i + 1]);
    StampsOfStep(run[i], l, run[i + 1]);
  }

  /** While the database lasts its clock never goes back, and a stamp that appears is above the clock before it. */
  lemma StampsAppearInOrder(run: seq<World>, i: nat, j: nat)
    requires Run(run) && i <= j < |run|
    requires forall k :: i <= k <= j ==> run[k].epoch == run[i].epoch
    ensures run[i].t.clock <= run[j].t.clock
    ensures forall x :: x in run[j].t.stamps ==>
              (x in run[i].t.stamps && run[i].t.stamps[x] == run[j].t.stamps[x]) || run[i].t.clock < run[j].t.stamps[x]
  {
    OnwardInRun(run, i, j);
  }

  lemma {:induction false} OnwardInRun(run: seq<World>, i: nat, j: nat)
    requires Run(run) && i <= j < |run|
    requires SameDatabase(run, i, j)
    ensures Onward(run[i].t, run[j].t)
  {
    hide Run, Onward;
    if i == j {
      OnwardNowhere(run[i].t);
    } else {
      DatabaseOfPrefix(run, i, j);
      hide SameDatabase;
      OnwardInRun(run, i, j - 1);
      StampsOfMove(run, j - 1);
      OnwardTwice(run[i].t, run[j - 1].t, run[j].t);
    }
  }
}
