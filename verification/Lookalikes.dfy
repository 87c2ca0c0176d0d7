/** Which findings have the key of a plain finding that is not the same one: exactly those whose key reads as one. */
module Lookalikes {
  import opened Decimals
  import opened Sorting
  import opened Ignored

  // ------------------------------------------------------ reading a key back

  /** A text cut at its commas. */
  function Split(s: string): (parts: seq<string>)
    ensures parts != []
  {
    if s == "" then [""] else Preceded(s[0], Split(s[1..]))
  }

  /** A comma starts a new part, and any other character the first one. */
  function Preceded(c: char, parts: seq<string>): (r: seq<string>)
    requires parts != []
    ensures r != []
  {
    if c == ',' then [""] + parts else [[c] + parts[0]] + parts[1..]
  }

  /** What follows the last bar, or the whole text. */
  function Tail(s: string): string {
    if '|' in s then Tail(s[1..]) else s
  }

  /** A kind, a colon and an id. */
  predicate IsEntityText(t: string) {
    exists i :: 0 <= i < |t| && t[i] == ':' && Canonical(t[i + 1..]) && 0 <= Value(t[i + 1..]) < 0x1_0000_0000
  }

  predicate Ascending(parts: seq<string>) {
    forall i :: 0 <= i < |parts| - 1 ==> Le(parts[i], parts[i + 1])
  }

  /** The text of a plain finding's entities: none, or one or more in order with commas between. */
  predicate ReadsAsList(t: string) {
    t == "" || (Ascending(Split(t)) && forall i :: 0 <= i < |Split(t)| ==> IsEntityText(Split(t)[i]))
  }

  function EntityPart(f: Finding): string {
    Join(Sort(EntityTexts(f), TextOrder()))
  }

  /** It is not plain, and after its last bar its entities read as a plain finding's. */
  predicate ReadsAsAnother(f: Finding) {
    !Plain(f) && ReadsAsList(Tail(EntityPart(f)))
  }

  ghost predicate TakenForAnother(f: Finding) {
    exists g :: IsLookalike(f, g)
  }

  ghost predicate IsLookalike(f: Finding, g: Finding) {
    Plain(g) && FindingKey(f) == FindingKey(g) && !Same(f, g)
  }

  // ---------------------------------------------------------------- cutting

  lemma {:induction false} SplitJoins(s: string)
    ensures Join(Split(s)) == s && forall i :: 0 <= i < |Split(s)| ==> ',' !in Split(s)[i]
    ensures forall i, c :: 0 <= i < |Split(s)| && c in Split(s)[i] ==> c in s
  {
    if s != "" {
      SplitJoins(s[1..]);
      var rest := Split(s[1..]);
      assert s == [s[0]] + s[1..];
      if s[0] == ',' {
        assert ([""] + rest)[1..] == rest;
      } else {
        assert ([[s[0]] + rest[0]] + rest[1..])[1..] == rest[1..];
      }
    }
  }

  lemma {:induction false} SplitPart(part: string, rest: string)
    requires ',' !in part
    ensures Split(part) == [part]
    ensures Split(part + "," + rest) == [part] + Split(rest)
  {
    var s := part + "," + rest;
    if part == "" {
      assert s[1..] == rest;
    } else {
      SplitPart(part[1..], rest);
      assert s[1..] == part[1..] + "," + rest && part == [part[0]] + part[1..];
    }
  }

  lemma {:induction false} SplitOfJoin(parts: seq<string>)
    requires parts != [] && forall i :: 0 <= i < |parts| ==> ',' !in parts[i]
    ensures Split(Join(parts)) == parts
  {
    if |parts| == 1 {
      SplitPart(parts[0], "");
    } else {
      SplitOfJoin(parts[1..]);
      SplitPart(parts[0], Join(parts[1..]));
      assert parts == [parts[0]] + parts[1..];
    }
  }

  lemma {:induction false} TailCuts(s: string) returns (head: string)
    ensures '|' !in Tail(s) && (forall c :: c in Tail(s) ==> c in s)
    ensures if '|' in s then s == head + "|" + Tail(s) else s == Tail(s)
  {
    head := "";
    if '|' in s {
      if '|' in s[1..] {
        var h := TailCuts(s[1..]);
        head := [s[0]] + h;
        assert s == [s[0]] + s[1..];
      } else {
        assert s == [s[0]] + s[1..] && Tail(s) == s[1..];
      }
    }
  }

  // ------------------------------------------------------------------ parts

  lemma EntityTextReads(e: Entity)
    ensures IsEntityText(EntityText(e))
  {
    DecimalIsCanonical(e.id);
    ValueOfDecimal(e.id);
    var t := EntityText(e);
    assert t[|e.kind|] == ':' && t[|e.kind| + 1..] == Decimal(e.id);
  }

  lemma EntityOf(t: string) returns (e: Entity)
    requires IsEntityText(t)
    ensures EntityText(e) == t
  {
    hide Canonical, Decimal, Value;
    var i :| 0 <= i < |t| && t[i] == ':' && Canonical(t[i + 1..]) && 0 <= Value(t[i + 1..]) < 0x1_0000_0000;
    DecimalOfValue(t[i + 1..]);
    e := Entity(t[..i], Value(t[i + 1..]));
    assert t == t[..i] + ":" + t[i + 1..];
  }

  lemma {:induction false} EntitiesOf(parts: seq<string>) returns (es: seq<Entity>)
    requires forall i :: 0 <= i < |parts| ==> IsEntityText(parts[i])
    ensures Mapped(es, EntityText) == parts
  {
    es := [];
    if parts != [] {
      var e := EntityOf(parts[0]);
      var rest := EntitiesOf(parts[1..]);
      es := [e] + rest;
      assert Mapped(es, EntityText) == [EntityText(e)] + Mapped(rest, EntityText);
      assert parts == [parts[0]] + parts[1..];
    }
  }

  lemma {:induction false} InsertAscends(x: string, s: seq<string>)
    requires Ascending(s)
    ensures Ascending(Insert(x, s, TextOrder()))
    ensures s != [] ==> Insert(x, s, TextOrder())[0] == (if Le(x, s[0]) then x else s[0])
  {
    if s != [] && !Le(x, s[0]) {
      LeIsTotal(x, s[0]);
      InsertAscends(x, s[1..]);
    }
  }

  lemma {:induction false} SortAscends(s: seq<string>)
    ensures Ascending(Sort(s, TextOrder()))
  {
    if s != [] {
      SortAscends(s[1..]);
      InsertAscends(s[0], Sort(s[1..], TextOrder()));
    }
  }

  lemma {:induction false} AscendingIsSorted(s: seq<string>)
    requires Ascending(s)
    ensures Sort(s, TextOrder()) == s
  {
    if s != [] {
      AscendingIsSorted(s[1..]);
      assert s == [s[0]] + s[1..];
    }
  }

  // --------------------------------------------------------------- findings

  /** A plain finding's entities read as a list, and hold no bar. */
  lemma PlainReads(g: Finding)
    requires Plain(g)
    ensures '|' !in EntityPart(g) && ReadsAsList(EntityPart(g))
  {
    PartsAreJoinable(g);
    var parts := Sort(EntityTexts(g), TextOrder());
    SortAscends(EntityTexts(g));
    forall i | 0 <= i < |parts| ensures IsEntityText(parts[i]) {
      SortedParts(EntityTexts(g), i);
      var k :| 0 <= k < |g.entities| && EntityTexts(g)[k] == parts[i];
      EntityTextReads(g.entities[k]);
    }
    if parts != [] { SplitOfJoin(parts); }
  }

  /** Two findings with one key, one of them plain: its entities are what follows the other's last bar. */
  lemma PlainPartIsTail(f: Finding, g: Finding)
    requires Plain(g) && FindingKey(f) == FindingKey(g)
    ensures EntityPart(g) == Tail(EntityPart(f))
  {
    NumbersHoldNoBar(f);
    NumbersHoldNoBar(g);
    PlainReads(g);
    hide Sort, Join, Plain, EntityTexts, LessonTexts, SpanTexts, ReadsAsList;
    var (e, e') := (EntityPart(f), EntityPart(g));
    var (l, l') := (Join(LessonTexts(f)), Join(LessonTexts(g)));
    var (s, s') := (Join(Sort(SpanTexts(f), TextOrder())), Join(Sort(SpanTexts(g), TextOrder())));
    LastCut(f.kind + "|" + e + "|" + l, s, g.kind + "|" + e' + "|" + l', s', '|');
    LastCut(f.kind + "|" + e, l, g.kind + "|" + e', l', '|');
    var head := TailCuts(e);
    if '|' in e {
      assert f.kind + "|" + e == f.kind + "|" + head + "|" + Tail(e);
      LastCut(f.kind + "|" + head, Tail(e), g.kind, e', '|');
    } else {
      LastCut(f.kind, e, g.kind, e', '|');
    }
  }

  lemma NumbersHoldNoBar(f: Finding)
    ensures '|' !in Join(LessonTexts(f)) && '|' !in Join(Sort(SpanTexts(f), TextOrder()))
  {
    PartsAreJoinable(f.(entities := []));
    assert LessonTexts(f.(entities := [])) == LessonTexts(f) && SpanTexts(f.(entities := [])) == SpanTexts(f);
  }

  /** The plain finding that a finding reads as. */
  lemma Reading(f: Finding) returns (g: Finding)
    requires ReadsAsList(Tail(EntityPart(f)))
    ensures Plain(g) && FindingKey(g) == FindingKey(f)
  {
    hide IsEntityText, Tail, Plain, Le;
    var part := EntityPart(f);
    var tail := Tail(part);
    var head := TailCuts(part);
    var es := [];
    if tail != "" {
      SplitJoins(tail);
      es := EntitiesOf(Split(tail));
      AscendingIsSorted(Split(tail));
    }
    g := Finding(if '|' in part then f.kind + "|" + head else f.kind, es, f.lessons, f.spans);
    assert EntityPart(g) == tail;
    PartsArePlain(g, tail);
    assert g.kind + "|" + tail == f.kind + "|" + part by {
      if '|' in part { assert f.kind + "|" + part == f.kind + "|" + (head + "|" + tail); }
    }
  }

  lemma PartsArePlain(g: Finding, tail: string)
    requires '|' !in tail && (g.entities != [] ==> EntityTexts(g) == Split(tail))
    ensures Plain(g)
  {
    SplitJoins(tail);
    forall i | 0 <= i < |g.entities| ensures ',' !in g.entities[i].kind && '|' !in g.entities[i].kind {
      var text := EntityTexts(g)[i];
      assert text == EntityText(g.entities[i]) && text == Split(tail)[i];
      assert forall c :: c in g.entities[i].kind ==> c in text;
    }
  }

  /** A finding shares its key with another, plain one exactly when it is not plain and its entities read as a list. */
  lemma LookalikesExactly(f: Finding)
    ensures TakenForAnother(f) <==> ReadsAsAnother(f)
  {
    hide FindingKey, EntityPart, ReadsAsList;
    if TakenForAnother(f) {
      var g :| IsLookalike(f, g);
      if Plain(f) { SameKeySameFinding(f, g); }
      PlainPartIsTail(f, g);
      PlainReads(g);
    }
    if ReadsAsAnother(f) {
      var g := Reading(f);
      if Same(f, g) { SamePlain(f, g); }
      assert IsLookalike(f, g);
    }
  }

  lemma SamePlain(f: Finding, g: Finding)
    requires Same(f, g) && Plain(g)
    ensures Plain(f)
  {
    forall i | 0 <= i < |f.entities| ensures ',' !in f.entities[i].kind && '|' !in f.entities[i].kind {
      assert f.entities[i] in multiset(g.entities);
    }
  }

  // ------------------------------------------------------------------ kinds

  /** The id whose text no other id's follows. */
  const LATEST: Id := 999_999_999

  /** A separator in it, and with some id what follows its last bar reads as a list. */
  predicate MixesUp(kind: string) {
    (',' in kind || '|' in kind) && ReadsAsList(Tail(kind) + ":" + Decimal(LATEST))
  }

  function OneEntity(kind: string, entityKind: string, id: Id): Finding {
    Finding(kind, [Entity(entityKind, id)], [], [])
  }

  lemma {:induction false} TailOfMore(x: string, y: string)
    requires '|' !in y
    ensures Tail(x + y) == Tail(x) + y
  {
    if '|' in x {
      assert x == [x[0]] + x[1..] && (x + y)[1..] == x[1..] + y;
      if '|' in x[1..] {
        TailOfMore(x[1..], y);
      } else {
        TailOfMore(x[1..], y);
        assert Tail(x[1..]) == x[1..];
      }
    }
  }

  /** The same parts, the last one with more at its end. */
  predicate EndsWithMore(before: seq<string>, after: seq<string>, more: string)
    requires before != []
  {
    var n := |before| - 1;
    |after| == n + 1 && after[n] == before[n] + more && forall i :: 0 <= i < n ==> after[i] == before[i]
  }

  lemma PrecededEnds(c: char, before: seq<string>, after: seq<string>, more: string)
    requires before != [] && after != [] && EndsWithMore(before, after, more)
    ensures EndsWithMore(Preceded(c, before), Preceded(c, after), more)
  {
    if |before| == 1 {
      assert [c] + (before[0] + more) == [c] + before[0] + more;
    }
  }

  lemma {:induction false} SplitOfMore(x: string, y: string)
    requires ',' !in y
    ensures EndsWithMore(Split(x), Split(x + y), y)
  {
    if x == "" {
      SplitPart(y, "");
      assert x + y == y;
    } else {
      hide EndsWithMore, Preceded;
      SplitOfMore(x[1..], y);
      assert (x + y)[1..] == x[1..] + y;
      PrecededEnds(x[0], Split(x[1..]), Split(x[1..] + y), y);
    }
  }

  lemma {:induction false} LePrefixed(p: string, a: string, b: string)
    requires Le(a, b)
    ensures Le(p + a, p + b)
  {
    if p == "" {
      assert p + a == a && p + b == b;
    } else {
      LePrefixed(p[1..], a, b);
      assert (p + a)[1..] == p[1..] + a && (p + b)[1..] == p[1..] + b;
    }
  }

  function Power(m: nat): nat {
    if m == 0 then 1 else 10 * Power(m - 1)
  }

  lemma {:induction false} DecimalLength(n: nat, m: nat)
    requires n < Power(m) && m >= 1
    ensures |Decimal(n)| <= m
  {
    if n >= 10 {
      assert Power(m) == 10 * Power(m - 1) && Power(0) == 1;
      DecimalLength(n / 10, m - 1);
    }
  }

  lemma {:induction false} NinesAreLast(s: string, nines: string)
    requires forall i :: 0 <= i < |s| ==> s[i] <= '9'
    requires forall i :: 0 <= i < |nines| ==> nines[i] == '9'
    requires |s| <= |nines| || s[..|nines|] != nines
    ensures Le(s, nines)
  {
    if s != "" && nines != "" && s[0] == '9' {
      if |s| > |nines| {
        assert s[..|nines|] == [s[0]] + s[1..][..|nines| - 1] && nines == [nines[0]] + nines[1..];
      }
      NinesAreLast(s[1..], nines[1..]);
    }
  }

  lemma LatestIsNines()
    ensures Decimal(LATEST) == "999999999"
  {
    assert Decimal(9) == "9";
    assert Decimal(99) == "99";
    assert Decimal(999) == "999";
    assert Decimal(9999) == "9999";
    assert Decimal(99999) == "99999";
    assert Decimal(999999) == "999999";
    assert Decimal(9999999) == "9999999";
    assert Decimal(99999999) == "99999999";
  }

  lemma LatestIsLast(id: Id)
    ensures Le(Decimal(id), Decimal(LATEST))
  {
    LatestIsNines();
    NinePower();
    hide Power, Le;
    if id <= LATEST {
      DecimalLength(id, 9);
    } else {
      DecimalLength(id / 10, 9);
      assert Decimal(id) == Decimal(id / 10) + [Digit(id % 10)];
      hide Decimal;
      if Decimal(id)[..9] == Decimal(LATEST) {
        assert Decimal(id / 10) == Decimal(LATEST);
        DecimalIsInjective(id / 10, LATEST);
      }
    }
    NinesAreLast(Decimal(id), Decimal(LATEST));
  }

  lemma NinePower()
    ensures Power(9) == 1_000_000_000
  {
    assert Power(3) == 1000;
    assert Power(6) == 1_000_000;
  }

  /** If a text reads as a list with one id at its end, it does with the latest. */
  lemma LatestDecides(tail: string, id: Id)
    requires ReadsAsList(tail + ":" + Decimal(id))
    ensures ReadsAsList(tail + ":" + Decimal(LATEST))
  {
    hide IsEntityText, Le, Split, Decimal;
    var (x, y) := (":" + Decimal(id), ":" + Decimal(LATEST));
    assert tail + ":" + Decimal(id) == tail + x && tail + ":" + Decimal(LATEST) == tail + y;
    DigitsHoldNoSeparator(id);
    DigitsHoldNoSeparator(LATEST);
    SplitOfMore(tail, x);
    SplitOfMore(tail, y);
    var (parts, n) := (Split(tail), |Split(tail)| - 1);
    var (before, after) := (Split(tail + x), Split(tail + y));
    EntityTextReads(Entity(parts[n], LATEST));
    assert after[n] == EntityText(Entity(parts[n], LATEST));
    LatestIsLast(id);
    LePrefixed(parts[n] + ":", Decimal(id), Decimal(LATEST));
    assert before[n] == parts[n] + ":" + Decimal(id) && after[n] == parts[n] + ":" + Decimal(LATEST);
    if n > 0 {
      LeIsTransitive(before[n - 1], before[n], after[n]);
    }
  }

  lemma OneEntityReads(kind: string, entityKind: string, id: Id)
    ensures ReadsAsAnother(OneEntity(kind, entityKind, id))
            <==> (',' in entityKind || '|' in entityKind) && ReadsAsList(Tail(entityKind) + ":" + Decimal(id))
  {
    hide ReadsAsList, Tail, Decimal, Le;
    var f := OneEntity(kind, entityKind, id);
    assert EntityTexts(f) == [EntityText(f.entities[0])];
    SortFew(EntityText(f.entities[0]), "");
    DigitsHoldNoSeparator(id);
    TailOfMore(entityKind, ":" + Decimal(id));
    assert entityKind + (":" + Decimal(id)) == EntityText(f.entities[0]);
    assert Tail(entityKind) + (":" + Decimal(id)) == Tail(entityKind) + ":" + Decimal(id);
  }

  /** Some finding of one entity of this kind is taken for another, plain one exactly when the kind mixes up. */
  lemma KindsDecide(entityKind: string)
    ensures (exists kind, id: Id :: TakenForAnother(OneEntity(kind, entityKind, id))) <==> MixesUp(entityKind)
  {
    hide TakenForAnother, ReadsAsAnother, ReadsAsList, OneEntity;
    if exists kind, id: Id :: TakenForAnother(OneEntity(kind, entityKind, id)) {
      var kind, id: Id :| TakenForAnother(OneEntity(kind, entityKind, id));
      LookalikesExactly(OneEntity(kind, entityKind, id));
      OneEntityReads(kind, entityKind, id);
      LatestDecides(Tail(entityKind), id);
    }
    if MixesUp(entityKind) {
      OneEntityReads("", entityKind, LATEST);
      LookalikesExactly(OneEntity("", entityKind, LATEST));
      assert TakenForAnother(OneEntity("", entityKind, LATEST));
    }
  }
}
