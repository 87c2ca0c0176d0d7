/** The pages of the change feed, and what walking them reports. */
module Feed {
  import opened Basics
  import opened Ranking
  import opened PlanTables

  /** What a listing reads when the caller names no limit. */
  const CHANGES_PAGE: nat := 500

  datatype Cursor = Cursor(epoch: string, seqno: int)

  datatype Page = Page(parts: set<(int, Part)>, cursor: int)

  function Limit(asked: int): (limit: nat)
    ensures limit >= 1
  {
    if asked < 1 then CHANGES_PAGE else asked
  }

  /** `order by c.seq`. */
  function Smaller(): Order {
    (a: int, b: int) => a < b
  }

  function Later(t: Tables, since: int): set<int> {
    set x | x in t.stamps && t.stamps[x] > since :: t.stamps[x]
  }

  /** The first `limit` stamps after `since`. */
  function PageStamps(t: Tables, since: int, limit: nat): set<int> {
    Topmost(Later(t, since), limit, Smaller())
  }

  function Reported(t: Tables, since: int, limit: nat): set<(int, Part)> {
    set x | x in t.stamps && t.stamps[x] in PageStamps(t, since, limit)
  }

  ghost function PageCursor(t: Tables, since: int, limit: nat): int {
    var stamps := PageStamps(t, since, limit);
    if stamps == {} then since else MaxOf(stamps)
  }

  predicate More(t: Tables, since: int, limit: nat) {
    |Later(t, since)| > limit
  }

  lemma SmallerIsStrict(s: set<int>)
    ensures Strict(s, Smaller())
  {
  }

  lemma LaterHas(t: Tables, since: int)
    ensures forall x :: x in t.stamps && t.stamps[x] > since ==> t.stamps[x] in Later(t, since)
  {
  }

  /** A page is exactly the stamps up to its cursor, and says truly whether any are left. */
  lemma PageIsPrefix(t: Tables, since: int, limit: nat)
    requires limit >= 1
    ensures var c := PageCursor(t, since, limit);
            && c >= since
            && (forall x :: x in Reported(t, since, limit) <==> x in t.stamps && since < t.stamps[x] <= c)
            && Later(t, c) == Later(t, since) - PageStamps(t, since, limit)
            && (More(t, since, limit) <==> Later(t, c) != {})
            && (More(t, since, limit) ==> |Later(t, c)| < |Later(t, since)|)
  {
    var later, page := Later(t, since), PageStamps(t, since, limit);
    SmallerIsStrict(later);
    TopmostCount(later, limit, Smaller());
    var c := PageCursor(t, since, limit);
    forall v | v in later ensures v in page <==> v <= c {
      if v !in page && page != {} { TopmostAhead(later, limit, c, v, Smaller()); }
    }
    PageLeaves(t, since, c, page);
    SubsetSize(page, later);
    assert later == page + Later(t, c);
  }

  lemma PageLeaves(t: Tables, since: int, c: int, page: set<int>)
    requires c >= since && forall v :: v in Later(t, since) ==> (v in page <==> v <= c)
    ensures Later(t, c) == Later(t, since) - page
    ensures forall x :: x in t.stamps && t.stamps[x] > since ==> (t.stamps[x] in page <==> t.stamps[x] <= c)
  {
  }

  /** The last page ends at the clock. */
  lemma LastPageEndsAtClock(t: Tables, since: int, limit: nat)
    requires Clocked(t) && 0 <= since <= t.clock && limit >= 1 && !More(t, since, limit)
    ensures PageCursor(t, since, limit) == t.clock
  {
    PageIsPrefix(t, since, limit);
    var c := PageCursor(t, since, limit);
    LaterHas(t, c);
    if PageStamps(t, since, limit) != {} {
      var x :| x in t.stamps && t.stamps[x] > since && t.stamps[x] == c;
    }
  }

  /** At the clock there is nothing to report, which is why the poll that finds nothing stops there. */
  lemma NothingAfterTheClock(t: Tables, limit: nat)
    requires Clocked(t)
    ensures Reported(t, t.clock, limit) == {} && !More(t, t.clock, limit) && PageCursor(t, t.clock, limit) == t.clock
  {
  }

  /** Asking from each answer's cursor while it says there is more. */
  ghost function Walk(t: Tables, since: int, limit: nat): (pages: seq<Page>)
    requires limit >= 1
    ensures |pages| >= 1
    decreases |Later(t, since)|
  {
    PageIsPrefix(t, since, limit);
    var c := PageCursor(t, since, limit);
    [Page(Reported(t, since, limit), c)] + if More(t, since, limit) then Walk(t, c, limit) else []
  }

  /** Each part stamped after `since` is on exactly one page, and no other part is on any. */
  ghost predicate ReportsOnce(t: Tables, since: int, pages: seq<Page>) {
    && (forall i, x :: 0 <= i < |pages| && x in pages[i].parts ==> x in t.stamps && t.stamps[x] > since)
    && (forall x :: x in t.stamps && t.stamps[x] > since ==> OnSomePage(pages, x))
    && (forall i, j, x :: 0 <= i < j < |pages| && x in pages[i].parts ==> x !in pages[j].parts)
  }

  ghost predicate OnSomePage(pages: seq<Page>, x: (int, Part)) {
    exists i :: 0 <= i < |pages| && x in pages[i].parts
  }

  lemma PrependPage(t: Tables, since: int, first: Page, rest: seq<Page>)
    requires since <= first.cursor && ReportsOnce(t, first.cursor, rest)
    requires forall x :: x in first.parts <==> x in t.stamps && since < t.stamps[x] <= first.cursor
    ensures ReportsOnce(t, since, [first] + rest)
  {
    var pages := [first] + rest;
    forall x | x in t.stamps && t.stamps[x] > since ensures OnSomePage(pages, x) {
      if t.stamps[x] > first.cursor {
        assert OnSomePage(rest, x);
        var i :| 0 <= i < |rest| && x in rest[i].parts;
        assert x in pages[i + 1].parts;
      } else {
        assert x in pages[0].parts;
      }
    }
  }

  lemma WalkUnfolds(t: Tables, since: int, limit: nat)
    requires limit >= 1
    ensures var c := PageCursor(t, since, limit);
            Walk(t, since, limit) == [Page(Reported(t, since, limit), c)]
                                     + if More(t, since, limit) then Walk(t, c, limit) else []
  {
  }

  lemma NothingLaterNothingToReport(t: Tables, c: int)
    requires Later(t, c) == {}
    ensures ReportsOnce(t, c, [])
  {
    LaterHas(t, c);
  }

  /** Walking reports each part stamped after the cursor once, and ends at the clock. */
  lemma WalkReportsAll(t: Tables, since: int, limit: nat)
    requires Clocked(t) && 0 <= since <= t.clock && limit >= 1
    ensures var pages := Walk(t, since, limit);
            && (forall i, x :: 0 <= i < |pages| && x in pages[i].parts ==> x in t.stamps && t.stamps[x] > since)
            && (forall x :: x in t.stamps && t.stamps[x] > since ==>
                  exists i :: 0 <= i < |pages| && x in pages[i].parts)
            && (forall i, j, x :: 0 <= i < j < |pages| && x in pages[i].parts ==> x !in pages[j].parts)
            && pages[|pages| - 1].cursor == t.clock
  {
    hide Clocked, Walk;
    WalkReports(t, since, limit);
    ReportsInWords(t, since, Walk(t, since, limit));
  }

  lemma ReportsInWords(t: Tables, since: int, pages: seq<Page>)
    requires ReportsOnce(t, since, pages)
    ensures forall i, x :: 0 <= i < |pages| && x in pages[i].parts ==> x in t.stamps && t.stamps[x] > since
    ensures forall x :: x in t.stamps && t.stamps[x] > since ==> exists i :: 0 <= i < |pages| && x in pages[i].parts
    ensures forall i, j, x :: 0 <= i < j < |pages| && x in pages[i].parts ==> x !in pages[j].parts
  {
    assert forall x :: x in t.stamps && t.stamps[x] > since ==> OnSomePage(pages, x);
  }

  lemma {:induction false} WalkReports(t: Tables, since: int, limit: nat)
    requires Clocked(t) && 0 <= since <= t.clock && limit >= 1
    ensures ReportsOnce(t, since, Walk(t, since, limit))
    ensures Walk(t, since, limit)[|Walk(t, since, limit)| - 1].cursor == t.clock
    decreases |Later(t, since)|
  {
    hide ReportsOnce, Clocked, Later, Reported, PageCursor, More, Walk;
    PageIsPrefix(t, since, limit);
    WalkUnfolds(t, since, limit);
    CursorIsIssued(t, since, limit);
    var c := PageCursor(t, since, limit);
    var first := Page(Reported(t, since, limit), c);
    if More(t, since, limit) {
      WalkReports(t, c, limit);
      PrependPage(t, since, first, Walk(t, c, limit));
    } else {
      LastPageEndsAtClock(t, since, limit);
      NothingLaterNothingToReport(t, c);
      PrependPage(t, since, first, []);
    }
  }

  /** A page's cursor is never past the clock. */
  lemma CursorIsIssued(t: Tables, since: int, limit: nat)
    requires Clocked(t) && since <= t.clock
    ensures since <= PageCursor(t, since, limit) <= t.clock
  {
  }
}
