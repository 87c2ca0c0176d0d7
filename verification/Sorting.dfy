/** Sorting by a total order: equal as multisets, equal once sorted. */
module Sorting {
  type Order<!T> = (T, T) -> bool

  ghost predicate Total<T(!new)>(le: Order<T>) {
    && (forall a, b :: le(a, b) || le(b, a))
    && (forall a, b :: le(a, b) && le(b, a) ==> a == b)
    && (forall a, b, c :: le(a, b) && le(b, c) ==> le(a, c))
  }

  function Insert<T>(x: T, s: seq<T>, le: Order<T>): seq<T> {
    if s == [] || le(x, s[0]) then [x] + s else [s[0]] + Insert(x, s[1..], le)
  }

  /** `slices.Sort`. */
  function Sort<T>(s: seq<T>, le: Order<T>): seq<T> {
    if s == [] then [] else Insert(s[0], Sort(s[1..], le), le)
  }

  lemma {:induction false} InsertKeeps<T>(x: T, s: seq<T>, le: Order<T>)
    ensures multiset(Insert(x, s, le)) == multiset(s) + multiset{x}
  {
    if s != [] && !le(x, s[0]) {
      InsertKeeps(x, s[1..], le);
      assert s == [s[0]] + s[1..];
    }
  }

  lemma {:induction false} SortKeeps<T>(s: seq<T>, le: Order<T>)
    ensures multiset(Sort(s, le)) == multiset(s)
  {
    if s != [] {
      SortKeeps(s[1..], le);
      InsertKeeps(s[0], Sort(s[1..], le), le);
      assert s == [s[0]] + s[1..];
    }
  }

  /** Two insertions can be made in either order. */
  lemma {:induction false} InsertsCommute<T(!new)>(x: T, y: T, s: seq<T>, le: Order<T>)
    requires Total(le)
    ensures Insert(x, Insert(y, s, le), le) == Insert(y, Insert(x, s, le), le)
  {
    if s != [] && !le(x, s[0]) && !le(y, s[0]) {
      InsertsCommute(x, y, s[1..], le);
    }
  }

  /** Sorting forgets where an element stood. */
  lemma {:induction false} SortPulls<T(!new)>(s: seq<T>, i: nat, le: Order<T>)
    requires Total(le) && i < |s|
    ensures Sort(s, le) == Insert(s[i], Sort(s[..i] + s[i + 1..], le), le)
  {
    var rest := s[..i] + s[i + 1..];
    if i > 0 {
      SortPulls(s[1..], i - 1, le);
      assert s[1..][..i - 1] + s[1..][i..] == rest[1..];
      InsertsCommute(s[0], s[i], Sort(rest[1..], le), le);
    } else {
      assert rest == s[1..];
    }
  }

  /** Taking one occurrence out of each of two equal multisets leaves them equal. */
  lemma WithoutOne<T>(a: seq<T>, b: seq<T>, i: nat)
    requires a != [] && i < |b| && b[i] == a[0] && multiset(a) == multiset(b)
    ensures multiset(a[1..]) == multiset(b[..i] + b[i + 1..])
  {
    OneFewer(b, i);
    OneFewer(a, 0);
    assert a[..0] + a[1..] == a[1..];
    assert multiset(a[1..]) == multiset(a) - multiset{a[0]};
    assert multiset(b[..i] + b[i + 1..]) == multiset(b) - multiset{b[i]};
  }

  lemma OneFewer<T>(s: seq<T>, i: nat)
    requires i < |s|
    ensures multiset(s) == multiset(s[..i] + s[i + 1..]) + multiset{s[i]}
  {
    assert s == s[..i] + ([s[i]] + s[i + 1..]);
  }

  lemma {:induction false} SortIsCanonical<T(!new)>(a: seq<T>, b: seq<T>, le: Order<T>)
    requires Total(le) && multiset(a) == multiset(b)
    ensures Sort(a, le) == Sort(b, le)
  {
    if a == [] {
      assert |b| == |multiset(b)| == 0;
    } else {
      assert a[0] in multiset(b);
      var i :| 0 <= i < |b| && b[i] == a[0];
      WithoutOne(a, b, i);
      SortIsCanonical(a[1..], b[..i] + b[i + 1..], le);
      SortPulls(b, i, le);
    }
  }

  function Mapped<T, U>(s: seq<T>, f: T -> U): seq<U> {
    seq(|s|, i requires 0 <= i < |s| => f(s[i]))
  }

  lemma MappedOneMore<T, U>(s: seq<T>, i: nat, f: T -> U)
    requires i < |s|
    ensures Mapped(s[..i + 1], f) == Mapped(s[..i], f) + [f(s[i])]
    ensures s[..|s|] == s
  {
  }

  lemma {:induction false} MappedMultiset<T, U>(a: seq<T>, b: seq<T>, f: T -> U)
    requires multiset(a) == multiset(b)
    ensures multiset(Mapped(a, f)) == multiset(Mapped(b, f))
  {
    if a == [] {
      assert |b| == |multiset(b)| == 0;
    } else {
      assert a[0] in multiset(b);
      var i :| 0 <= i < |b| && b[i] == a[0];
      WithoutOne(a, b, i);
      MappedMultiset(a[1..], b[..i] + b[i + 1..], f);
      MappedPull(a, 0, f);
      MappedPull(b, i, f);
      assert a[..0] + a[1..] == a[1..];
    }
  }

  lemma MappedPull<T, U>(s: seq<T>, i: nat, f: T -> U)
    requires i < |s|
    ensures multiset(Mapped(s, f)) == multiset(Mapped(s[..i] + s[i + 1..], f)) + multiset{f(s[i])}
  {
    var m := Mapped(s, f);
    OneFewer(m, i);
    assert Mapped(s[..i] + s[i + 1..], f) == m[..i] + m[i + 1..];
  }

  ghost predicate Injective<T(!new), U>(f: T -> U) {
    forall a, b :: f(a) == f(b) ==> a == b
  }

  /** What is distinct stays distinct: equal multisets of images come from equal multisets. */
  lemma {:induction false} InjectiveMultiset<T(!new), U>(a: seq<T>, b: seq<T>, f: T -> U)
    requires Injective(f) && multiset(Mapped(a, f)) == multiset(Mapped(b, f))
    ensures multiset(a) == multiset(b)
  {
    var ma, mb := Mapped(a, f), Mapped(b, f);
    assert |a| == |multiset(ma)| == |multiset(mb)| == |b|;
    if a != [] {
      assert ma[0] in multiset(mb);
      var i :| 0 <= i < |mb| && mb[i] == ma[0];
      assert f(b[i]) == f(a[0]);
      var rest := b[..i] + b[i + 1..];
      assert Mapped(a[1..], f) == ma[1..] && Mapped(rest, f) == mb[..i] + mb[i + 1..];
      WithoutOne(ma, mb, i);
      InjectiveMultiset(a[1..], rest, f);
      assert a == [a[0]] + a[1..];
      assert b == b[..i] + [b[i]] + b[i + 1..];
    }
  }
}
