/** The listing of the change feed, read row by row. */
module ChangeListing {
  import opened Basics
  import opened Ranking
  import opened PlanTables
  import opened Feed

  datatype State = Live | Trash | Removed

  /** An entry of the feed: a plan, whether it is live, in Trash or gone, and the parts of it to read again. */
  datatype PlanChange = PlanChange(id: int, state: State, parts: seq<Part>)

  datatype Answer = Answer(cursor: Cursor, reset: bool, more: bool, plans: seq<PlanChange>)

  function StateOf(t: Tables, p: int): State {
    if p !in t.plans then Removed else if t.plans[p].deletedAt.Some? then Trash else Live
  }

  function Place(part: Part): nat {
    match part
    case Project => 0
    case Versions => 1
    case Results => 2
  }

  ghost predicate Ordered(parts: seq<Part>) {
    forall i, j :: 0 <= i < j < |parts| ==> Place(parts[i]) < Place(parts[j])
  }

  /** Plan `p` is listed at `i` with this part. */
  predicate ListedAt(plans: seq<PlanChange>, i: nat, x: (int, Part)) {
    i < |plans| && plans[i].id == x.0 && x.1 in plans[i].parts
  }

  ghost predicate Listed(plans: seq<PlanChange>, x: (int, Part)) {
    exists i :: ListedAt(plans, i, x)
  }

  /** Each plan once, where it is now, with exactly its parts among these. */
  ghost predicate ListsExactly(t: Tables, plans: seq<PlanChange>, parts: set<(int, Part)>) {
    && Apart(t, plans)
    && (forall x :: Listed(plans, x) <==> x in parts)
  }

  /** The rows carry the first of these stamps, one each. */
  ghost predicate Carry(t: Tables, rows: seq<(int, Part)>, listed: seq<int>) {
    && |rows| <= |listed|
    && forall i :: 0 <= i < |rows| ==> rows[i] in t.stamps && t.stamps[rows[i]] == listed[i]
  }

  ghost predicate Increasing(s: seq<int>) {
    forall i, j :: 0 <= i < j < |s| ==> s[i] < s[j]
  }

  /** `where c.seq > ? order by c.seq limit ?`. */
  method Query(t: Tables, since: int, n: nat) returns (rows: seq<(int, Part)>, ghost listed: seq<int>)
    ensures Lists(listed, Later(t, since)) && Increasing(listed) && Carry(t, rows, listed)
    ensures |rows| == if n < |listed| then n else |listed|
    ensures |rows| == if n < |Later(t, since)| then n else |Later(t, since)|
    ensures forall i :: 0 <= i < |rows| ==> rows[i] in t.stamps && t.stamps[rows[i]] > since
    ensures forall i, j :: 0 <= i < j < |rows| ==> t.stamps[rows[i]] < t.stamps[rows[j]]
  {
    SmallerIsStrict(Later(t, since));
    var order := RowsBy(Later(t, since), Smaller());
    listed := order;
    ListLength(Later(t, since), order);
    rows := [];
    while |rows| < n && |rows| < |order|
      invariant |rows| <= n && Carry(t, rows, order)
      decreases |order| - |rows|
    {
      assert order[|rows|] in order;
      var x :| x in t.stamps && t.stamps[x] == order[|rows|];
      rows := rows + [x];
    }
    forall i | 0 <= i < |rows| ensures t.stamps[rows[i]] > since {
      assert order[i] in order;
    }
  }

  /** The plan's parts in the order they are listed in. */
  method SortParts(parts: seq<Part>) returns (sorted: seq<Part>)
    ensures Ordered(sorted) && forall part :: part in sorted <==> part in parts
  {
    sorted := [];
    var order := [Project, Versions, Results];
    for i := 0 to |order|
      invariant Ordered(sorted) && forall part :: part in sorted <==> part in parts && Place(part) < i
    {
      assert Place(order[i]) == i;
      if order[i] in parts {
        forall k | 0 <= k < |sorted| ensures Place(sorted[k]) < i {
          assert sorted[k] in sorted;
        }
        sorted := sorted + [order[i]];
      }
    }
  }

  /** What changed after a point, at most `asked` stamped parts of it. */
  method Changes(t: Tables, epoch: string, since: Option<Cursor>, asked: int) returns (out: Answer)
    requires Clocked(t)
    ensures out.reset <==> since.None? || since.value.epoch != epoch || since.value.seqno > t.clock
    ensures out.reset ==> out == Answer(Cursor(epoch, t.clock), true, false, [])
    ensures !out.reset ==>
              && out.cursor == Cursor(epoch, PageCursor(t, since.value.seqno, Limit(asked)))
              && out.more == More(t, since.value.seqno, Limit(asked))
              && ListsExactly(t, out.plans, Reported(t, since.value.seqno, Limit(asked)))
    ensures !out.reset ==>
              var (from, to) := (since.value.seqno, out.cursor.seqno);
              var count := |set x | x in t.stamps && from < t.stamps[x] <= to :: t.stamps[x]|;
              && out.cursor.epoch == epoch && from <= to <= t.clock
              && count <= (if asked < 1 then 500 else asked) && (out.more ==> count == if asked < 1 then 500 else asked)
              && (out.more <==> exists x :: x in t.stamps && t.stamps[x] > to)
              && (forall x: (int, Part) ::
                    (exists i :: 0 <= i < |out.plans| && out.plans[i].id == x.0 && x.1 in out.plans[i].parts)
                    <==> x in t.stamps && from < t.stamps[x] <= to)
    ensures forall i, j, k :: 0 <= i < |out.plans| && 0 <= j < k < |out.plans[i].parts| ==>
              (out.plans[i].parts[j], out.plans[i].parts[k])
              in {(Project, Part.Versions), (Project, Part.Results), (Part.Versions, Part.Results)}
    ensures forall i, j :: 0 <= i < j < |out.plans| ==> out.plans[i].id != out.plans[j].id
    ensures forall i :: 0 <= i < |out.plans| ==>
              var (p, state) := (out.plans[i].id, out.plans[i].state);
              && (state == Live <==> p in t.plans && t.plans[p].deletedAt.None?)
              && (state == Trash <==> p in t.plans && t.plans[p].deletedAt.Some?)
              && (state == Removed <==> p !in t.plans)
  {
    hide Listed, Reported, PageCursor, More, Ordered, Clocked, ListsExactly, Limit;
    var limit := Limit(asked);
    if since.None? || since.value.epoch != epoch || since.value.seqno > t.clock {
      return Answer(Cursor(epoch, t.clock), true, false, []);
    }
    PageSays(t, since.value.seqno, asked);
    if since.value.seqno == t.clock {
      NothingAfterTheClock(t, limit);
      NothingIsListed(t);
      out := Answer(since.value, false, false, []);
    } else {
      out := ReadPage(t, epoch, since.value.seqno, limit);
    }
    ListingSays(t, out.plans, Reported(t, since.value.seqno, limit));
  }

  lemma NothingIsListed(t: Tables)
    ensures ListsExactly(t, [], {})
  {
  }

  /** The page after a point that is not the clock. */
  method ReadPage(t: Tables, epoch: string, from: int, limit: nat) returns (out: Answer)
    requires Clocked(t) && limit >= 1
    ensures out == Answer(Cursor(epoch, PageCursor(t, from, limit)), false, More(t, from, limit), out.plans)
    ensures ListsExactly(t, out.plans, Reported(t, from, limit))
    ensures forall i :: 0 <= i < |out.plans| ==> Ordered(out.plans[i].parts)
  {
    var rows, stamps := Query(t, from, limit + 1);
    var cursor, more, plans, read := ReadRows(t, from, limit, rows);
    RowsArePage(t, from, limit, rows, stamps, read, cursor, more);
    hide Listed, Reported, PageCursor, More, Ordered, Clocked, Increasing, Carry;
    ListsThePage(t, plans, rows[..read], Reported(t, from, limit));
    var count := |plans|;
    for i := 0 to count
      invariant |plans| == count
      invariant forall k :: 0 <= k < i ==> Ordered(plans[k].parts)
      invariant ListsExactly(t, plans, Reported(t, from, limit))
    {
      var sorted := SortParts(plans[i].parts);
      SortedListsTheSame(t, plans, i, sorted, Reported(t, from, limit));
      plans := plans[i := plans[i].(parts := sorted)];
    }
    out := Answer(Cursor(epoch, cursor), false, more, plans);
  }

  /** A page in words: what it reaches up to, how much that is, and whether more wait. */
  lemma PageSays(t: Tables, since: int, asked: int)
    requires Clocked(t) && since <= t.clock
    ensures var limit := if asked < 1 then 500 else asked;
            var to := PageCursor(t, since, Limit(asked));
            var count := |set x | x in t.stamps && since < t.stamps[x] <= to :: t.stamps[x]|;
            && since <= to <= t.clock && count <= limit && (More(t, since, Limit(asked)) ==> count == limit)
            && (More(t, since, Limit(asked)) <==> exists x :: x in t.stamps && t.stamps[x] > to)
            && forall x :: x in Reported(t, since, Limit(asked)) <==> x in t.stamps && since < t.stamps[x] <= to
  {
    var limit := Limit(asked);
    var to, page := PageCursor(t, since, limit), PageStamps(t, since, limit);
    PageIsPrefix(t, since, limit);
    CursorIsIssued(t, since, limit);
    SmallerIsStrict(Later(t, since));
    TopmostCount(Later(t, since), limit, Smaller());
    LaterHas(t, to);
    assert (set x | x in t.stamps && since < t.stamps[x] <= to :: t.stamps[x]) == page;
  }

  /** A listing in words: each plan once, where it is now, and exactly these parts in order. */
  lemma ListingSays(t: Tables, plans: seq<PlanChange>, parts: set<(int, Part)>)
    requires ListsExactly(t, plans, parts) && forall i :: 0 <= i < |plans| ==> Ordered(plans[i].parts)
    ensures forall x: (int, Part) ::
              (exists i :: 0 <= i < |plans| && plans[i].id == x.0 && x.1 in plans[i].parts) <==> x in parts
    ensures forall i, j, k :: 0 <= i < |plans| && 0 <= j < k < |plans[i].parts| ==>
              (plans[i].parts[j], plans[i].parts[k])
              in {(Project, Part.Versions), (Project, Part.Results), (Part.Versions, Part.Results)}
    ensures forall i, j :: 0 <= i < j < |plans| ==> plans[i].id != plans[j].id
    ensures forall i :: 0 <= i < |plans| ==>
              && (plans[i].state == Live <==> plans[i].id in t.plans && t.plans[plans[i].id].deletedAt.None?)
              && (plans[i].state == Trash <==> plans[i].id in t.plans && t.plans[plans[i].id].deletedAt.Some?)
              && (plans[i].state == Removed <==> plans[i].id !in t.plans)
  {
    forall x: (int, Part)
      ensures (exists i :: 0 <= i < |plans| && plans[i].id == x.0 && x.1 in plans[i].parts) <==> x in parts
    {
      assert Listed(plans, x) <==> x in parts;
      if Listed(plans, x) {
        var i :| ListedAt(plans, i, x);
      }
      if i :| 0 <= i < |plans| && plans[i].id == x.0 && x.1 in plans[i].parts {
        assert ListedAt(plans, i, x);
      }
    }
  }

  /** The rows one by one: each at its plan's place, at most `limit` of them. */
  method ReadRows(t: Tables, from: int, limit: nat, rows: seq<(int, Part)>)
      returns (cursor: int, more: bool, plans: seq<PlanChange>, ghost read: nat)
    requires forall i :: 0 <= i < |rows| ==> rows[i] in t.stamps
    ensures read == (if limit < |rows| then limit else |rows|) && more == (|rows| > limit)
    ensures cursor == if read == 0 then from else t.stamps[rows[read - 1]]
    ensures Apart(t, plans) && forall x :: Listed(plans, x) <==> x in rows[..read]
  {
    hide Listed, Indexed, Apart;
    cursor, more, plans := from, false, [];
    var listed: map<int, nat> := map[];
    var i := 0;
    NothingListed(t);
    while i < |rows|
      invariant 0 <= i <= |rows| && i <= limit && !more
      invariant cursor == if i == 0 then from else t.stamps[rows[i - 1]]
      invariant Indexed(t, plans, listed)
      invariant forall x :: Listed(plans, x) <==> x in rows[..i]
      decreases |rows| - i
    {
      if i + 1 > limit {
        more := true;
        break;
      }
      var (p, part) := rows[i];
      cursor := t.stamps[rows[i]];
      AddRow(t, plans, listed, rows[..i], p, part);
      ghost var next := WithPart(t, plans, listed, p, part);
      assert rows[..i + 1] == rows[..i] + [rows[i]];
      if p !in listed {
        listed := listed[p := |plans|];
        plans := plans + [PlanChange(p, StateOf(t, p), [])];
      }
      var index := listed[p];
      plans := plans[index := plans[index].(parts := plans[index].parts + [part])];
      assert [] + [part] == [part];
      assert |plans| == |next| && forall k :: 0 <= k < |plans| ==> plans[k] == next[k];
      assert plans == next;
      i := i + 1;
    }
    read := i;
    IndexedApart(t, plans, listed);
  }

  ghost predicate Apart(t: Tables, plans: seq<PlanChange>) {
    && (forall i, j :: 0 <= i < j < |plans| ==> plans[i].id != plans[j].id)
    && (forall i :: 0 <= i < |plans| ==> plans[i].state == StateOf(t, plans[i].id) && plans[i].parts != [])
  }

  lemma NothingListed(t: Tables)
    ensures Indexed(t, [], map[]) && forall x :: !Listed([], x)
  {
  }

  lemma IndexedApart(t: Tables, plans: seq<PlanChange>, listed: map<int, nat>)
    requires Indexed(t, plans, listed)
    ensures Apart(t, plans)
  {
  }

  lemma ListsThePage(t: Tables, plans: seq<PlanChange>, rows: seq<(int, Part)>, parts: set<(int, Part)>)
    requires Apart(t, plans) && (forall x :: Listed(plans, x) <==> x in rows) && (forall x :: x in rows <==> x in parts)
    ensures ListsExactly(t, plans, parts)
  {
  }

  /** The index from plans to their place in the listing is right, and nothing is listed empty. */
  ghost predicate Indexed(t: Tables, plans: seq<PlanChange>, listed: map<int, nat>) {
    && (forall p :: p in listed ==> listed[p] < |plans| && plans[listed[p]].id == p)
    && (forall i :: 0 <= i < |plans| ==>
          plans[i].id in listed && listed[plans[i].id] == i
          && plans[i].state == StateOf(t, plans[i].id) && plans[i].parts != [])
  }

  /** Listing one more part, at its plan's place or at a new one. */
  function WithPart(t: Tables, plans: seq<PlanChange>, listed: map<int, nat>, p: int, part: Part): seq<PlanChange>
    requires p in listed ==> listed[p] < |plans|
  {
    if p in listed then
      var i := listed[p];
      plans[i := plans[i].(parts := plans[i].parts + [part])]
    else
      plans + [PlanChange(p, StateOf(t, p), [part])]
  }

  lemma AddRow(t: Tables, plans: seq<PlanChange>, listed: map<int, nat>, before: seq<(int, Part)>, p: int, part: Part)
    requires Indexed(t, plans, listed) && forall x :: Listed(plans, x) <==> x in before
    ensures p in listed ==> listed[p] < |plans| && plans[listed[p]].id == p
    ensures var listed' := if p in listed then listed else listed[p := |plans|];
            Indexed(t, WithPart(t, plans, listed, p, part), listed')
    ensures forall x :: Listed(WithPart(t, plans, listed, p, part), x) <==> x in before + [(p, part)]
  {
    var plans' := WithPart(t, plans, listed, p, part);
    var at := if p in listed then listed[p] else |plans|;
    assert ListedAt(plans', at, (p, part));
    forall x ensures Listed(plans', x) <==> x in before + [(p, part)] {
      if Listed(plans, x) {
        var i :| ListedAt(plans, i, x);
        assert ListedAt(plans', i, x);
      }
      if Listed(plans', x) && x != (p, part) {
        var i :| ListedAt(plans', i, x);
        assert ListedAt(plans, i, x);
      }
    }
  }

  /** The rows read are the page, and the row read beyond it says there is more. */
  lemma RowsArePage(t: Tables, since: int, limit: nat, rows: seq<(int, Part)>, listed: seq<int>, read: nat, cursor: int,
                    more: bool)
    requires Clocked(t) && limit >= 1
    requires Lists(listed, Later(t, since)) && Increasing(listed) && Carry(t, rows, listed)
    requires |rows| == if limit + 1 < |listed| then limit + 1 else |listed|
    requires read == (if limit < |rows| then limit else |rows|) && more == (|rows| > limit)
    requires cursor == if read == 0 then since else t.stamps[rows[read - 1]]
    ensures cursor == PageCursor(t, since, limit) && more == More(t, since, limit)
    ensures forall x :: x in rows[..read] <==> x in Reported(t, since, limit)
  {
    hide PageStamps, Later, Reported, Clocked, PageCursor;
    ListLength(Later(t, since), listed);
    ListedPages(t, since, limit, listed);
    forall x ensures x in rows[..read] <==> x in Reported(t, since, limit) {
      RowIsReported(t, since, limit, rows, listed, read, x);
    }
    LastRowIsCursor(t, since, limit, listed, read);
  }

  lemma LastRowIsCursor(t: Tables, since: int, limit: nat, listed: seq<int>, read: nat)
    requires limit >= 1 && Increasing(listed) && read == if limit < |listed| then limit else |listed|
    requires forall i :: 0 <= i < |listed| ==> (listed[i] in PageStamps(t, since, limit) <==> i < limit)
    requires forall v :: v in PageStamps(t, since, limit) ==> v in listed
    ensures PageCursor(t, since, limit) == if read == 0 then since else listed[read - 1]
  {
  }

  lemma ListedPages(t: Tables, since: int, limit: nat, listed: seq<int>)
    requires Lists(listed, Later(t, since)) && Increasing(listed)
    ensures forall i :: 0 <= i < |listed| ==> (listed[i] in PageStamps(t, since, limit) <==> i < limit)
    ensures forall v :: v in PageStamps(t, since, limit) ==> v in listed
  {
    var later := Later(t, since);
    SmallerIsStrict(later);
    forall i | 0 <= i < |listed|
      ensures listed[i] in later && (listed[i] in PageStamps(t, since, limit) <==> i < limit)
    {
      assert listed[i] in listed;
      ListedAhead(later, listed, i, Smaller());
    }
  }

  lemma RowIsReported(t: Tables, since: int, limit: nat, rows: seq<(int, Part)>, listed: seq<int>, read: nat,
                      x: (int, Part))
    requires Clocked(t) && Lists(listed, Later(t, since)) && Carry(t, rows, listed) && read <= |rows|
    requires forall i :: 0 <= i < |listed| ==> (listed[i] in PageStamps(t, since, limit) <==> i < limit)
    requires read == if limit < |listed| then limit else |listed|
    ensures x in rows[..read] <==> x in Reported(t, since, limit)
  {
  }

  lemma SortedListsTheSame(t: Tables, plans: seq<PlanChange>, i: nat, sorted: seq<Part>, parts: set<(int, Part)>)
    requires i < |plans| && ListsExactly(t, plans, parts) && forall part :: part in sorted <==> part in plans[i].parts
    ensures ListsExactly(t, plans[i := plans[i].(parts := sorted)], parts)
  {
    var plans' := plans[i := plans[i].(parts := sorted)];
    assert plans[i].parts[0] in sorted;
    forall x ensures Listed(plans', x) <==> Listed(plans, x) {
      forall k: nat ensures ListedAt(plans', k, x) <==> ListedAt(plans, k, x) {}
    }
  }
}
