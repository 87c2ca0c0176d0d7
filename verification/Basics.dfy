/** What every other module shares: an optional value, and facts about finite sets of numbers. */
module Basics {
  datatype Option<+T> = None | Some(value: T) {
    function GetOr(default: T): T {
      match this
      case None => default
      case Some(v) => v
    }
  }

  /** The members of `s` strictly above `v`. */
  function Above(s: set<int>, v: int): set<int> {
    set w | w in s && w > v
  }

  ghost predicate IsMax(s: set<int>, m: int) {
    m in s && forall x :: x in s ==> x <= m
  }

  ghost function Member<T>(s: set<T>): (x: T)
    requires s != {}
    ensures x in s
  {
    var x :| x in s;
    x
  }

  lemma {:induction false} HasMax(s: set<int>)
    requires s != {}
    ensures exists m :: IsMax(s, m)
  {
    var x := Member(s);
    var rest := s - {x};
    assert s == rest + {x};
    if rest == {} {
      assert IsMax(s, x);
    } else {
      HasMax(rest);
      var m :| IsMax(rest, m);
      var top := if x > m then x else m;
      assert IsMax(s, top);
    }
  }

  /** The largest member: what `select max(...)` answers. */
  ghost function MaxOf(s: set<int>): (m: int)
    requires s != {}
    ensures IsMax(s, m)
  {
    HasMax(s);
    var m :| IsMax(s, m);
    m
  }

  lemma SubsetSize<T>(a: set<T>, b: set<T>)
    requires a <= b
    ensures |a| <= |b|
    ensures |a| == |b| ==> a == b
  {
    assert b == a + (b - a);
  }

  /** Every value of `order` once, and exactly the values of `s`. */
  ghost predicate Lists<T(!new)>(order: seq<T>, s: set<T>) {
    && (forall i, j :: 0 <= i < j < |order| ==> order[i] != order[j])
    && (forall x :: x in order <==> x in s)
  }

  /** What a map or a query without an order lists comes in some order. */
  method Rows<T(!new, ==)>(s: set<T>) returns (rows: seq<T>)
    ensures Lists(rows, s)
  {
    rows := [];
    var left := s;
    while left != {}
      invariant left <= s && Lists(rows, s - left)
      decreases |left|
    {
      var x :| x in left;
      left := left - {x};
      rows := rows + [x];
    }
  }

  function Elements<T>(s: seq<T>): set<T> {
    set x | x in s
  }

  ghost predicate Distinct<T>(s: seq<T>) {
    forall i, j :: 0 <= i < j < |s| ==> s[i] != s[j]
  }

  lemma {:induction false} DistinctSize<T>(s: seq<T>)
    requires Distinct(s)
    ensures |Elements(s)| == |s|
  {
    if s != [] {
      var n := |s| - 1;
      DistinctSize(s[..n]);
      assert s == s[..n] + [s[n]];
      assert s[n] !in s[..n];
      assert Elements(s) == Elements(s[..n]) + {s[n]};
    }
  }
}
