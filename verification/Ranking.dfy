/** Counting from the top of a finite set under a strict total order: what a cap keeps. */
module Ranking {
  import opened Basics

  type Order = (int, int) -> bool

  ghost predicate Strict(s: set<int>, gt: Order) {
    && (forall a :: a in s ==> !gt(a, a))
    && (forall a, b :: a in s && b in s && a != b ==> gt(a, b) || gt(b, a))
    && (forall a, b, c :: a in s && b in s && c in s && gt(a, b) && gt(b, c) ==> gt(a, c))
  }

  function Ahead(s: set<int>, v: int, gt: Order): set<int> {
    set w | w in s && gt(w, v)
  }

  /** The members of `s` with fewer than `n` ahead of them. */
  function Topmost(s: set<int>, n: nat, gt: Order): set<int> {
    set v | v in s && |Ahead(s, v, gt)| < n
  }

  ghost predicate IsFirst(s: set<int>, m: int, gt: Order) {
    m in s && forall x :: x in s && x != m ==> gt(m, x)
  }

  lemma {:induction false} HasFirst(s: set<int>, gt: Order)
    requires s != {} && Strict(s, gt)
    ensures exists m :: IsFirst(s, m, gt)
  {
    var x := Member(s);
    var rest := s - {x};
    assert s == rest + {x};
    if rest == {} {
      assert IsFirst(s, x, gt);
    } else {
      HasFirst(rest, gt);
      var m :| IsFirst(rest, m, gt);
      assert IsFirst(s, if gt(x, m) then x else m, gt);
    }
  }

  /** Taking the first out leaves one fewer to find. */
  lemma TopmostWithoutFirst(s: set<int>, n: nat, m: int, gt: Order)
    requires Strict(s, gt) && IsFirst(s, m, gt) && n > 0
    ensures Topmost(s, n, gt) == Topmost(s - {m}, n - 1, gt) + {m} && m !in Topmost(s - {m}, n - 1, gt)
    ensures |Topmost(s, n, gt)| == |Topmost(s - {m}, n - 1, gt)| + 1
    ensures |s| == |s - {m}| + 1
  {
    var rest := s - {m};
    forall w | w in s ensures !gt(w, m) {
      assert w == m || gt(m, w);
      assert !gt(m, m);
    }
    assert Ahead(s, m, gt) == {};
    forall v | v in rest ensures v in Topmost(s, n, gt) <==> v in Topmost(rest, n - 1, gt) {
      assert Ahead(s, v, gt) == Ahead(rest, v, gt) + {m};
    }
  }

  lemma TopmostOfNone(s: set<int>, n: nat, gt: Order)
    requires s == {} || n == 0
    ensures Topmost(s, n, gt) == {}
  {
  }

  /** There are `n` of them, or all there are. */
  lemma {:induction false} TopmostCount(s: set<int>, n: nat, gt: Order)
    requires Strict(s, gt)
    ensures |Topmost(s, n, gt)| == if n < |s| then n else |s|
    decreases n
  {
    hide Topmost;
    if s == {} || n == 0 {
      TopmostOfNone(s, n, gt);
    } else {
      HasFirst(s, gt);
      var m :| IsFirst(s, m, gt);
      TopmostWithoutFirst(s, n, m, gt);
      TopmostCount(s - {m}, n - 1, gt);
    }
  }

  /** And each of them is ahead of every other member. */
  lemma TopmostAhead(s: set<int>, n: nat, a: int, b: int, gt: Order)
    requires Strict(s, gt) && a in Topmost(s, n, gt) && b in s && b !in Topmost(s, n, gt)
    ensures gt(a, b)
  {
    if !gt(a, b) {
      assert gt(b, a);
      forall w | w in Ahead(s, b, gt) ensures gt(w, a) {
        assert gt(w, b) && gt(b, a);
      }
      assert Ahead(s, b, gt) <= Ahead(s, a, gt);
      SubsetSize(Ahead(s, b, gt), Ahead(s, a, gt));
    }
  }

  /** The largest number. */
  function Greater(): Order {
    (a: int, b: int) => a > b
  }

  lemma AboveIsAhead(s: set<int>, v: int)
    ensures Above(s, v) == Ahead(s, v, Greater())
  {
  }

  /** `order by ... limit 1 offset n`: the member with exactly `n` ahead of it, when there is one. */
  ghost predicate AtOffset(s: set<int>, n: nat, v: int, gt: Order) {
    v in s && |Ahead(s, v, gt)| == n
  }

  /** Everything at or after the row at the offset has at least that many ahead, and nothing before it has. */
  lemma OffsetCuts(s: set<int>, n: nat, v: int, w: int, gt: Order)
    requires Strict(s, gt) && AtOffset(s, n, v, gt) && w in s
    ensures w == v || gt(v, w) <==> |Ahead(s, w, gt)| >= n
  {
    if gt(w, v) {
      assert w in Ahead(s, v, gt) && w !in Ahead(s, w, gt);
      forall x | x in Ahead(s, w, gt) ensures x in Ahead(s, v, gt) {
        assert gt(x, w) && gt(w, v);
      }
      SubsetSize(Ahead(s, w, gt), Ahead(s, v, gt) - {w});
    } else if w != v {
      forall x | x in Ahead(s, v, gt) ensures x in Ahead(s, w, gt) {
        assert gt(x, v) && gt(v, w);
      }
      SubsetSize(Ahead(s, v, gt), Ahead(s, w, gt));
    }
  }

  /** No row at the offset: every member has fewer ahead. */
  lemma NoneAtOffset(s: set<int>, n: nat, w: int, gt: Order)
    requires Strict(s, gt) && w in s && forall v :: !AtOffset(s, n, v, gt)
    ensures |Ahead(s, w, gt)| < n
  {
    TopmostCount(s, n, gt);
    TopmostCount(s, n + 1, gt);
    assert forall v :: v in s && |Ahead(s, v, gt)| < n + 1 ==> !AtOffset(s, n, v, gt);
    assert Topmost(s, n + 1, gt) == Topmost(s, n, gt);
    SubsetSize(Topmost(s, n, gt), s);
  }

  /** A listing in this order has, ahead of each row, exactly the rows listed before it. */
  lemma ListedAhead(s: set<int>, listed: seq<int>, i: nat, gt: Order)
    requires Strict(s, gt) && Lists(listed, s) && i < |listed|
    requires forall a, b :: 0 <= a < b < |listed| ==> gt(listed[a], listed[b])
    ensures |Ahead(s, listed[i], gt)| == i
  {
    var before := listed[..i];
    forall w ensures w in Ahead(s, listed[i], gt) <==> w in before {
      if w in s && gt(w, listed[i]) {
        var k :| 0 <= k < |listed| && listed[k] == w;
        assert !gt(listed[i], w) by { assert !gt(w, w); }
        assert k < i by { assert w != listed[i]; }
        assert before[k] == w;
      }
      if w in before {
        var k :| 0 <= k < |before| && before[k] == w;
        assert gt(listed[k], listed[i]);
        assert w in listed;
      }
    }
    assert Ahead(s, listed[i], gt) == Elements(before);
    DistinctSize(before);
  }

  /** The rows of a query with an order come back in it. */
  method RowsBy(s: set<int>, gt: Order) returns (rows: seq<int>)
    requires Strict(s, gt)
    ensures Lists(rows, s) && forall a, b :: 0 <= a < b < |rows| ==> gt(rows[a], rows[b])
  {
    rows := [];
    var left := s;
    while left != {}
      invariant left <= s && Lists(rows, s - left)
      invariant forall a, b :: 0 <= a < b < |rows| ==> gt(rows[a], rows[b])
      invariant forall a, x :: 0 <= a < |rows| && x in left ==> gt(rows[a], x)
      decreases |left|
    {
      HasFirst(left, gt);
      var m :| m in left && forall x :: x in left && x != m ==> gt(m, x);
      left := left - {m};
      rows := rows + [m];
    }
  }

  lemma ListLength(s: set<int>, listed: seq<int>)
    requires Lists(listed, s)
    ensures |listed| == |s|
  {
    DistinctSize(listed);
    assert Elements(listed) == s;
  }
}
