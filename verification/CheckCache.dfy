/** The bounded cache of check reports: a list and a map, changed in place. */
module CheckCache {
  import opened Basics

  /** An object's key with the rules it is checked by; none are the document's own. */
  datatype Key = Key(object_: string, rules: Option<string>)
  type Report = int

  const CACHE_SIZE: nat := 64

  function Without(s: seq<Key>, k: Key): seq<Key> {
    if s == [] then [] else (if s[0] == k then [] else [s[0]]) + Without(s[1..], k)
  }

  /** `MoveToFront`, or `PushFront` of a key the list does not have. */
  function ToFront(s: seq<Key>, k: Key): seq<Key> {
    [k] + Without(s, k)
  }

  /** The keys used so far, each once, the last used first. */
  function Recent(uses: seq<Key>): seq<Key> {
    if uses == [] then [] else ToFront(Recent(uses[..|uses| - 1]), uses[|uses| - 1])
  }

  function Least(a: nat, b: nat): nat {
    if a < b then a else b
  }

  function Newest(s: seq<Key>): seq<Key> {
    s[..Least(CACHE_SIZE, |s|)]
  }

  class Cache {
    var order: seq<Key>
    var items: map<Key, Report>
    /** Every use so far, and the last report kept for each key. */
    ghost var uses: seq<Key>
    ghost var kept: map<Key, Report>

    ghost predicate Valid()
      reads this
    {
      && Holds(order, items)
      && order == Newest(Recent(uses))
      && (forall k :: k in items ==> k in kept && items[k] == kept[k])
    }

    constructor ()
      ensures Valid() && uses == [] && kept == map[]
    {
      order, items, uses, kept := [], map[], [], map[];
    }

    /** A hit answers what was last kept for the key, and is a use of it; a miss changes nothing. */
    method Get(key: Key) returns (found: Option<Report>)
      requires Valid()
      modifies this
      ensures Valid() && kept == old(kept)
      ensures found.Some? ==> order != [] && order[0] == key
      ensures found.Some? <==> key in old(items)
      ensures found.Some? ==> key in kept && found.value == kept[key]
      ensures uses == if found.Some? then old(uses) + [key] else old(uses)
      ensures items == old(items) && (found.None? ==> order == old(order))
    {
      if key !in items {
        return None;
      }
      UseFits(uses, order, key);
      assert (uses + [key])[..|uses|] == uses;
      order := ToFront(order, key);
      uses := uses + [key];
      return Some(items[key]);
    }

    /** Keeps a report, and lets the least recently used one go when there are too many. */
    method Put(key: Key, report: Report) returns (ghost evicted: set<Key>)
      requires Valid()
      modifies this
      ensures key !in evicted && items == old(items)[key := report] - evicted
      ensures Valid() && kept == old(kept)[key := report] && uses == old(uses) + [key]
      ensures key in items && items[key] == report && |order| <= 64
    {
      hide Recent, Without, Holds, Distinct, ToFront;
      UseFits(uses, order, key);
      FrontHolds(order, items, key, report);
      uses, kept := uses + [key], kept[key := report];
      if key in items {
        items := items[key := report];
        order := ToFront(order, key);
        return {};
      }
      items := items[key := report];
      order := [key] + order;
      ghost var all := items;
      Shrink(key);
      evicted := all.Keys - items.Keys;
    }

    /** Lets the last of the list go until it is short enough. */
    method Shrink(first: Key)
      requires Holds(order, items) && order != [] && order[0] == first
      modifies `order, `items
      ensures Holds(order, items) && order == Newest(old(order))
      ensures first in items && forall k :: k in items ==> k in old(items) && items[k] == old(items)[k]
    {
      hide Holds;
      HoldsFirst(order, items);
      while |order| > CACHE_SIZE
        invariant Least(CACHE_SIZE, |old(order)|) <= |order| <= |old(order)| && order == old(order)[..|order|]
        invariant Holds(order, items) && forall k :: k in items ==> k in old(items) && items[k] == old(items)[k]
        decreases |order|
      {
        var oldest := order[|order| - 1];
        DropLast(order, items);
        items := items - {oldest};
        order := order[..|order| - 1];
      }
      HoldsFirst(order, items);
    }
  }

  /** The list and the map hold the same keys, each once. */
  ghost predicate Holds(order: seq<Key>, items: map<Key, Report>) {
    Distinct(order) && forall k :: k in order <==> k in items
  }

  /** A key in front, known before or not. */
  lemma FrontHolds(order: seq<Key>, items: map<Key, Report>, key: Key, report: Report)
    requires Holds(order, items) && |order| <= CACHE_SIZE
    ensures Holds(ToFront(order, key), items[key := report])
    ensures key !in items ==> ToFront(order, key) == [key] + order
    ensures key in items ==> Newest(ToFront(order, key)) == ToFront(order, key)
  {
    ToFrontKeepsDistinct(order, key);
    if key !in items {
      NotThere(order, key);
    }
  }

  lemma HoldsFirst(order: seq<Key>, items: map<Key, Report>)
    requires Holds(order, items) && order != []
    ensures order[0] in items
  {
  }

  lemma DropLast(order: seq<Key>, items: map<Key, Report>)
    requires Holds(order, items) && order != []
    ensures Holds(order[..|order| - 1], items - {order[|order| - 1]})
  {
  }

  lemma NotThere(s: seq<Key>, k: Key)
    requires k !in s
    ensures Without(s, k) == s
  {
  }

  lemma {:induction false} WithoutAt(s: seq<Key>, i: nat)
    requires Distinct(s) && i < |s|
    ensures Without(s, s[i]) == s[..i] + s[i + 1..]
  {
    if i == 0 {
      NotThere(s[1..], s[0]);
    } else {
      WithoutAt(s[1..], i - 1);
      assert s[1..][..i - 1] == s[1..i] && s[1..][i..] == s[i + 1..];
      assert [s[0]] + s[1..i] == s[..i];
    }
  }

  /** Where everything is once a key of the list is in front. */
  lemma ToFrontAt(s: seq<Key>, i: nat)
    requires Distinct(s) && i < |s|
    ensures |ToFront(s, s[i])| == |s|
    ensures forall j {:trigger ToFront(s, s[i])[j]} :: 0 <= j < |s| ==>
              ToFront(s, s[i])[j] == if j == 0 then s[i] else if j <= i then s[j - 1] else s[j]
  {
    WithoutAt(s, i);
  }

  lemma ToFrontOfNew(s: seq<Key>, k: Key)
    requires k !in s
    ensures ToFront(s, k) == [k] + s
  {
    NotThere(s, k);
  }

  lemma ToFrontKeepsDistinct(s: seq<Key>, k: Key)
    requires Distinct(s)
    ensures Distinct(ToFront(s, k))
    ensures |ToFront(s, k)| == if k in s then |s| else |s| + 1
    ensures forall x :: x in ToFront(s, k) <==> x in s || x == k
  {
    hide ToFront;
    if k in s {
      var i :| 0 <= i < |s| && s[i] == k;
      ToFrontAt(s, i);
      forall x ensures x in ToFront(s, k) <==> x in s {
        if x in s {
          var j :| 0 <= j < |s| && s[j] == x;
          assert ToFront(s, k)[if j == i then 0 else if j < i then j + 1 else j] == x;
        }
      }
    } else {
      ToFrontOfNew(s, k);
    }
  }

  lemma {:induction false} RecentIsDistinct(uses: seq<Key>)
    ensures Distinct(Recent(uses))
  {
    if uses != [] {
      var init := uses[..|uses| - 1];
      RecentIsDistinct(init);
      ToFrontKeepsDistinct(Recent(init), uses[|uses| - 1]);
    }
  }

  /** Bringing a key to the front of the newest is bringing it to the front of all, as far as the newest go. */
  lemma NewestToFront(all: seq<Key>, k: Key)
    requires Distinct(all)
    ensures Newest(ToFront(all, k)) == Newest(ToFront(Newest(all), k))
  {
    hide ToFront, Distinct;
    var m := Least(CACHE_SIZE, |all|);
    var front := all[..m];
    FrontIsDistinct(all, m);
    var whole, part := ToFront(all, k), ToFront(front, k);
    if k in all {
      var i :| 0 <= i < |all| && all[i] == k;
      ToFrontAt(all, i);
      if i < m {
        assert front[i] == k;
        ToFrontAt(front, i);
      } else {
        NotInFront(all, m, i);
        ToFrontOfNew(front, k);
      }
    } else {
      ToFrontOfNew(all, k);
      ToFrontOfNew(front, k);
    }
    assert |Newest(whole)| == |Newest(part)|;
    forall j | 0 <= j < |Newest(whole)| ensures Newest(whole)[j] == Newest(part)[j] {
      assert j == 0 || j - 1 < m;
    }
  }

  lemma FrontIsDistinct(s: seq<Key>, m: nat)
    requires Distinct(s) && m <= |s|
    ensures Distinct(s[..m])
  {
  }

  lemma NotInFront(s: seq<Key>, m: nat, i: nat)
    requires Distinct(s) && m <= i < |s|
    ensures s[i] !in s[..m]
  {
  }

  lemma UseFits(uses: seq<Key>, order: seq<Key>, key: Key)
    requires order == Newest(Recent(uses))
    ensures Recent(uses + [key]) == ToFront(Recent(uses), key)
    ensures Newest(Recent(uses + [key])) == Newest(ToFront(order, key))
    ensures Distinct(ToFront(order, key)) && |order| <= CACHE_SIZE
    ensures |ToFront(order, key)| == if key in order then |order| else |order| + 1
    ensures forall x :: x in ToFront(order, key) <==> x in order || x == key
  {
    assert (uses + [key])[..|uses|] == uses;
    RecentIsDistinct(uses);
    NewestToFront(Recent(uses), key);
    ToFrontKeepsDistinct(order, key);
  }

  // ---------------------------------------------------- what stays cached

  /** The keys used after position `n`, other than `k`. */
  function OthersSince(uses: seq<Key>, n: nat, k: Key): set<Key>
    requires n <= |uses|
  {
    set x | x in uses[n..] && x != k
  }

  ghost predicate LastUse(uses: seq<Key>, n: nat, k: Key) {
    n < |uses| && uses[n] == k && forall i :: n < i < |uses| ==> uses[i] != k
  }

  /** Bringing another key to the front moves a key back by one, unless that key was ahead of it. */
  lemma PlaceNext(all: seq<Key>, before: nat, last: Key) returns (place: nat)
    requires Distinct(all) && before < |all| && all[before] != last
    ensures place < |ToFront(all, last)| && ToFront(all, last)[place] == all[before]
    ensures Elements(ToFront(all, last)[..place]) == Elements(all[..before]) + {last}
  {
    hide ToFront, Distinct, Elements;
    if last in all {
      var i :| 0 <= i < |all| && all[i] == last;
      ToFrontAt(all, i);
      place := if i < before then before else before + 1;
      AheadOfPlace(all, ToFront(all, last), i, before, place);
    } else {
      ToFrontOfNew(all, last);
      place := before + 1;
      assert ToFront(all, last)[..place] == [last] + all[..before];
      OneMore(all[..before], last);
    }
  }

  lemma OneMore(s: seq<Key>, k: Key)
    ensures Elements([k] + s) == Elements(s) + {k}
  {
  }

  lemma AheadOfPlace(all: seq<Key>, moved: seq<Key>, i: nat, before: nat, place: nat)
    requires i < |all| && before < |all| && |moved| == |all| && i != before
    requires forall j {:trigger moved[j]} :: 0 <= j < |all| ==>
               moved[j] == if j == 0 then all[i] else if j <= i then all[j - 1] else all[j]
    requires place == if i < before then before else before + 1
    ensures place < |moved| && Elements(moved[..place]) == Elements(all[..before]) + {all[i]}
  {
    forall x | x in all[..before] ensures x in moved[..place] {
      var j :| 0 <= j < before && all[j] == x;
      assert moved[..place][if j == i then 0 else if j < i then j + 1 else j] == x;
    }
    assert moved[..place][0] == all[i];
    forall x | x in moved[..place] ensures x in all[..before] || x == all[i] {
      var j :| 0 <= j < place && moved[j] == x;
      assert j == 0 || all[..before][if j <= i then j - 1 else j] == x;
    }
  }

  /** A key's place in the list is how many other keys were used since it was. */
  lemma {:induction false} PlaceIsOthersSince(uses: seq<Key>, n: nat, k: Key) returns (place: nat)
    requires LastUse(uses, n, k)
    ensures place < |Recent(uses)| && Recent(uses)[place] == k
    ensures OthersSince(uses, n + 1, k) == Elements(Recent(uses)[..place])
    ensures place == |OthersSince(uses, n + 1, k)|
  {
    hide ToFront, Distinct, Elements, OthersSince, LastUse;
    var m := |uses| - 1;
    LastUseSteps(uses, n, k);
    if n == m {
      place := 0;
      FirstPlace(Recent(uses[..m]), k);
    } else {
      var before := PlaceIsOthersSince(uses[..m], n, k);
      RecentIsDistinct(uses[..m]);
      place := PlaceNext(Recent(uses[..m]), before, uses[m]);
    }
    RecentIsDistinct(uses);
    PrefixSize(Recent(uses), place);
  }

  lemma FirstPlace(s: seq<Key>, k: Key)
    ensures ToFront(s, k) != [] && ToFront(s, k)[0] == k && Elements(ToFront(s, k)[..0]) == {}
  {
  }

  lemma PrefixSize(s: seq<Key>, n: nat)
    requires Distinct(s) && n <= |s|
    ensures |Elements(s[..n])| == n
  {
    DistinctSize(s[..n]);
  }

  lemma LastUseSteps(uses: seq<Key>, n: nat, k: Key)
    requires LastUse(uses, n, k)
    ensures n < |uses| && uses[n] == k
    ensures var m := |uses| - 1;
            if n == m then OthersSince(uses, n + 1, k) == {}
            else LastUse(uses[..m], n, k) && uses[m] != k
                 && OthersSince(uses, n + 1, k) == OthersSince(uses[..m], n + 1, k) + {uses[m]}
  {
  }

  /** A key that was ever used is still cached exactly when fewer other keys were used since than the cache holds. */
  lemma CachedWhileRecent(uses: seq<Key>, n: nat, k: Key, others: set<Key>)
    requires n < |uses| && uses[n] == k && forall i :: n < i < |uses| ==> uses[i] != k
    requires forall x :: x in others <==> x in uses[n + 1..] && x != k
    ensures k in Newest(Recent(uses)) <==> |others| < 64
  {
    assert OthersSince(uses, n + 1, k) == others;
    var place := PlaceIsOthersSince(uses, n, k);
    RecentIsDistinct(uses);
    var all := Recent(uses);
    if place < CACHE_SIZE {
      assert Newest(all)[place] == k;
    }
  }
}
