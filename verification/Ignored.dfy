/** The findings a document ignores: one text for a finding in any order, and what two equal texts mean. */
module Ignored {
  import opened Decimals
  import opened Sorting

  /** An entity's id is 32 bits wide. */
  type Id = n: nat | n < 0x1_0000_0000

  datatype Entity = Entity(kind: string, id: Id)
  datatype Span = Span(day: nat, start: nat, length: nat)
  datatype Finding = Finding(kind: string, entities: seq<Entity>, lessons: seq<nat>, spans: seq<Span>)

  // ------------------------------------------------------------- the orders

  /** Bytewise order, which for UTF-8 is the order of characters. */
  predicate Le(a: string, b: string) {
    a == "" || (b != "" && (a[0] < b[0] || (a[0] == b[0] && Le(a[1..], b[1..]))))
  }

  function TextOrder(): Order<string> {
    (a, b) => Le(a, b)
  }

  function NumberOrder(): Order<nat> {
    (a: nat, b: nat) => a <= b
  }

  lemma {:induction false} LeIsTotal(a: string, b: string)
    ensures Le(a, b) || Le(b, a)
  {
    if a != "" && b != "" && a[0] == b[0] {
      LeIsTotal(a[1..], b[1..]);
    }
  }

  lemma {:induction false} LeIsAntisymmetric(a: string, b: string)
    requires Le(a, b) && Le(b, a)
    ensures a == b
  {
    if a != "" {
      LeIsAntisymmetric(a[1..], b[1..]);
      assert a == [a[0]] + a[1..] && b == [b[0]] + b[1..];
    }
  }

  lemma {:induction false} LeIsTransitive(a: string, b: string, c: string)
    requires Le(a, b) && Le(b, c)
    ensures Le(a, c)
  {
    if a != "" && a[0] == b[0] && b[0] == c[0] {
      LeIsTransitive(a[1..], b[1..], c[1..]);
    }
  }

  lemma OrdersAreTotal()
    ensures Total(TextOrder()) && Total(NumberOrder())
  {
    var le := TextOrder();
    forall a, b ensures le(a, b) || le(b, a) { LeIsTotal(a, b); }
    forall a, b | le(a, b) && le(b, a) ensures a == b { LeIsAntisymmetric(a, b); }
    forall a, b, c | le(a, b) && le(b, c) ensures le(a, c) { LeIsTransitive(a, b, c); }
  }

  // ---------------------------------------------------------------- the key

  function EntityText(e: Entity): string {
    e.kind + ":" + Decimal(e.id)
  }

  function SpanText(s: Span): string {
    Decimal(s.day) + ":" + Decimal(s.start) + ":" + Decimal(s.length)
  }

  /** `strings.Join` with commas. */
  function Join(parts: seq<string>): string {
    if parts == [] then ""
    else if |parts| == 1 then parts[0]
    else parts[0] + "," + Join(parts[1..])
  }

  function EntityTexts(f: Finding): seq<string> { Mapped(f.entities, EntityText) }

  function LessonTexts(f: Finding): seq<string> { Mapped(Sort(f.lessons, NumberOrder()), Decimal) }

  function SpanTexts(f: Finding): seq<string> { Mapped(f.spans, SpanText) }

  function FindingKey(f: Finding): string {
    f.kind + "|" + Join(Sort(EntityTexts(f), TextOrder())) + "|" + Join(LessonTexts(f)) + "|"
    + Join(Sort(SpanTexts(f), TextOrder()))
  }

  /** One finding in any order: the same kind, and the same entities, lessons and spans as often as they occur. */
  ghost predicate Same(f: Finding, g: Finding) {
    && f.kind == g.kind && multiset(f.entities) == multiset(g.entities)
    && multiset(f.lessons) == multiset(g.lessons) && multiset(f.spans) == multiset(g.spans)
  }

  /** No entity kind holds a character the key separates its parts with. */
  predicate Plain(f: Finding) {
    forall i :: 0 <= i < |f.entities| ==> ',' !in f.entities[i].kind && '|' !in f.entities[i].kind
  }

  // ---------------------------------------------------------------- reading

  method WriteEntities(f: Finding) returns (entities: seq<string>)
    ensures entities == EntityTexts(f)
  {
    entities := [];
    for i := 0 to |f.entities|
      invariant entities == Mapped(f.entities[..i], EntityText)
    {
      MappedOneMore(f.entities, i, EntityText);
      entities := entities + [f.entities[i].kind + ":" + Decimal(f.entities[i].id)];
    }
    assert f.entities[..|f.entities|] == f.entities;
  }

  method WriteSpans(f: Finding) returns (spans: seq<string>)
    ensures spans == SpanTexts(f)
  {
    spans := [];
    for i := 0 to |f.spans|
      invariant spans == Mapped(f.spans[..i], SpanText)
    {
      MappedOneMore(f.spans, i, SpanText);
      spans := spans + [Decimal(f.spans[i].day) + ":" + Decimal(f.spans[i].start) + ":" + Decimal(f.spans[i].length)];
    }
    assert f.spans[..|f.spans|] == f.spans;
  }

  /** The sorted numbers, a comma before each but the first. */
  method WriteLessons(lessons: seq<nat>) returns (text: string)
    ensures text == Join(Mapped(lessons, Decimal))
  {
    text := "";
    for n := 0 to |lessons|
      invariant text == Join(Mapped(lessons[..n], Decimal))
    {
      MappedOneMore(lessons, n, Decimal);
      JoinOneMore(Mapped(lessons[..n], Decimal), Decimal(lessons[n]));
      if n > 0 {
        text := text + ",";
      }
      text := text + Decimal(lessons[n]);
    }
    assert lessons[..|lessons|] == lessons;
  }

  /** Writes the key part by part. */
  method WriteKey(f: Finding) returns (key: string)
    ensures key == FindingKey(f)
  {
    var entities := WriteEntities(f);
    var lessons := WriteLessons(Sort(f.lessons, NumberOrder()));
    var spans := WriteSpans(f);
    key := f.kind + "|" + Join(Sort(entities, TextOrder())) + "|" + lessons + "|" + Join(Sort(spans, TextOrder()));
  }

  lemma {:induction false} JoinOneMore(parts: seq<string>, part: string)
    ensures Join(parts + [part]) == if parts == [] then part else Join(parts) + "," + part
  {
    if |parts| > 1 {
      assert (parts + [part])[1..] == parts[1..] + [part];
      JoinOneMore(parts[1..], part);
    } else if |parts| == 1 {
      assert (parts + [part])[1..] == [part];
    }
  }

  class Ignoring {
    var keys: set<string>

    /** One key for every finding the document lists. */
    constructor (ignored: seq<Finding>)
      ensures keys == KeysOf(ignored)
    {
      hide FindingKey, KeysOf;
      keys := {};
      new;
      KeysStart(ignored);
      for i := 0 to |ignored|
        invariant keys == KeysOf(ignored[..i])
      {
        var key := WriteKey(ignored[i]);
        KeysNext(ignored, i);
        keys := keys + {key};
      }
      assert ignored[..|ignored|] == ignored;
    }

    method Ignores(f: Finding) returns (yes: bool)
      ensures yes <==> FindingKey(f) in keys
    {
      var key := WriteKey(f);
      return key in keys;
    }
  }

  ghost function KeysOf(ignored: seq<Finding>): set<string> {
    set i | 0 <= i < |ignored| :: FindingKey(ignored[i])
  }

  lemma KeysStart(ignored: seq<Finding>)
    ensures KeysOf(ignored[..0]) == {}
  {
  }

  lemma KeysNext(ignored: seq<Finding>, i: nat)
    requires i < |ignored|
    ensures KeysOf(ignored[..i + 1]) == KeysOf(ignored[..i]) + {FindingKey(ignored[i])}
  {
    hide FindingKey;
    assert ignored[..i + 1] == ignored[..i] + [ignored[i]];
    assert ignored[..i + 1][i] == ignored[i];
    forall k | 0 <= k < i ensures ignored[..i + 1][k] == ignored[..i][k] {}
  }

  // ------------------------------------------------------- reading it apart

  /** A cut further right leaves a separator on both sides of it. */
  lemma Between(x: string, s: string, y: string, t: string, sep: char)
    requires x + [sep] + s == y + [sep] + t && |x| < |y|
    ensures sep in s && sep in y
  {
    var whole := x + [sep] + s;
    assert whole[|x|] == y[|x|] && whole[|y|] == s[|y| - |x| - 1];
  }

  lemma CutHere(x: string, s: string, y: string, t: string, sep: char)
    requires x + [sep] + s == y + [sep] + t && |x| == |y|
    ensures x == y && s == t
  {
    var whole := x + [sep] + s;
    assert whole[..|x|] == x && whole[..|y|] == y;
    assert whole[|x| + 1..] == s && whole[|y| + 1..] == t;
  }

  /** Two texts cut at their last separator. */
  lemma LastCut(x: string, s: string, y: string, t: string, sep: char)
    requires x + [sep] + s == y + [sep] + t && sep !in s && sep !in t
    ensures x == y && s == t
  {
    if |x| < |y| {
      Between(x, s, y, t, sep);
    } else if |y| < |x| {
      Between(y, t, x, s, sep);
    } else {
      CutHere(x, s, y, t, sep);
    }
  }

  /** And at their first. */
  lemma FirstCut(x: string, s: string, y: string, t: string, sep: char)
    requires x + [sep] + s == y + [sep] + t && sep !in x && sep !in y
    ensures x == y && s == t
  {
    if |x| < |y| {
      Between(x, s, y, t, sep);
    } else if |y| < |x| {
      Between(y, t, x, s, sep);
    } else {
      CutHere(x, s, y, t, sep);
    }
  }

  /** Parts a comma-joined text can be taken apart into again. */
  ghost predicate Joinable(parts: seq<string>) {
    forall i :: 0 <= i < |parts| ==> parts[i] != "" && ',' !in parts[i]
  }

  lemma {:induction false} JoinIsInjective(a: seq<string>, b: seq<string>)
    requires Joinable(a) && Joinable(b) && Join(a) == Join(b)
    ensures a == b
    decreases |a| + |b|
  {
    if |a| == 0 {
      JoinHasParts(b);
    } else if |b| == 0 {
      JoinHasParts(a);
    } else if |a| == 1 && |b| > 1 {
      CommaInJoin(b);
    } else if |b| == 1 && |a| > 1 {
      CommaInJoin(a);
    } else if |a| > 1 {
      FirstCut(a[0], Join(a[1..]), b[0], Join(b[1..]), ',');
      JoinIsInjective(a[1..], b[1..]);
      assert a == [a[0]] + a[1..] && b == [b[0]] + b[1..];
    }
  }

  lemma CommaInJoin(parts: seq<string>)
    requires |parts| > 1
    ensures ',' in Join(parts)
  {
  }

  lemma JoinHasParts(parts: seq<string>)
    requires Joinable(parts) && Join(parts) == ""
    ensures parts == []
  {
  }

  lemma {:induction false} JoinHasNoBar(parts: seq<string>)
    requires forall i :: 0 <= i < |parts| ==> '|' !in parts[i]
    ensures '|' !in Join(parts)
  {
    if |parts| > 1 {
      JoinHasNoBar(parts[1..]);
    }
  }

  lemma DigitsHoldNoSeparator(n: nat)
    ensures ',' !in Decimal(n) && '|' !in Decimal(n) && ':' !in Decimal(n)
  {
  }

  lemma EntityTextIsInjective(a: Entity, b: Entity)
    requires EntityText(a) == EntityText(b)
    ensures a == b
  {
    DigitsHoldNoSeparator(a.id);
    DigitsHoldNoSeparator(b.id);
    LastCut(a.kind, Decimal(a.id), b.kind, Decimal(b.id), ':');
    DecimalIsInjective(a.id, b.id);
  }

  lemma SpanTextIsInjective(a: Span, b: Span)
    requires SpanText(a) == SpanText(b)
    ensures a == b
  {
    DigitsHoldNoSeparator(a.start);
    DigitsHoldNoSeparator(b.start);
    DigitsHoldNoSeparator(a.length);
    DigitsHoldNoSeparator(b.length);
    LastCut(Decimal(a.day) + ":" + Decimal(a.start), Decimal(a.length),
            Decimal(b.day) + ":" + Decimal(b.start), Decimal(b.length), ':');
    LastCut(Decimal(a.day), Decimal(a.start), Decimal(b.day), Decimal(b.start), ':');
    DecimalIsInjective(a.day, b.day);
    DecimalIsInjective(a.start, b.start);
    DecimalIsInjective(a.length, b.length);
  }

  lemma TextsAreInjective()
    ensures Injective(EntityText) && Injective(SpanText) && Injective(Decimal)
  {
    forall a, b | EntityText(a) == EntityText(b) ensures a == b { EntityTextIsInjective(a, b); }
    forall a, b | SpanText(a) == SpanText(b) ensures a == b { SpanTextIsInjective(a, b); }
    forall a, b | Decimal(a) == Decimal(b) ensures a == b { DecimalIsInjective(a, b); }
  }

  /** Sorting only moves the parts. */
  lemma SortedParts(parts: seq<string>, i: nat)
    requires i < |Sort(parts, TextOrder())|
    ensures Sort(parts, TextOrder())[i] in parts
  {
    SortKeeps(parts, TextOrder());
    assert Sort(parts, TextOrder())[i] in multiset(parts);
  }

  /** No part of a plain finding's key holds a separator of the key. */
  lemma PartsAreJoinable(f: Finding)
    requires Plain(f)
    ensures Joinable(Sort(EntityTexts(f), TextOrder())) && '|' !in Join(Sort(EntityTexts(f), TextOrder()))
    ensures Joinable(LessonTexts(f)) && '|' !in Join(LessonTexts(f))
    ensures Joinable(Sort(SpanTexts(f), TextOrder())) && '|' !in Join(Sort(SpanTexts(f), TextOrder()))
  {
    var entities, lessons, spans := Sort(EntityTexts(f), TextOrder()), LessonTexts(f), Sort(SpanTexts(f), TextOrder());
    forall i | 0 <= i < |entities| ensures Fits(entities[i]) {
      SortedParts(EntityTexts(f), i);
      var k :| 0 <= k < |f.entities| && EntityTexts(f)[k] == entities[i];
      EntityFits(f.entities[k]);
    }
    forall i | 0 <= i < |lessons| ensures Fits(lessons[i]) {
      DigitsHoldNoSeparator(Sort(f.lessons, NumberOrder())[i]);
    }
    forall i | 0 <= i < |spans| ensures Fits(spans[i]) {
      SortedParts(SpanTexts(f), i);
      var k :| 0 <= k < |f.spans| && SpanTexts(f)[k] == spans[i];
      SpanFits(f.spans[k]);
    }
    JoinHasNoBar(entities);
    JoinHasNoBar(lessons);
    JoinHasNoBar(spans);
  }

  /** A part that neither a comma nor a bar splits. */
  predicate Fits(part: string) {
    part != "" && ',' !in part && '|' !in part
  }

  lemma EntityFits(e: Entity)
    requires ',' !in e.kind && '|' !in e.kind
    ensures Fits(EntityText(e))
  {
  }

  lemma SpanFits(s: Span)
    ensures Fits(SpanText(s))
  {
  }

  /** However a finding's lists are ordered, its key is one text. */
  lemma SameFindingSameKey(f: Finding, g: Finding)
    requires Same(f, g)
    ensures FindingKey(f) == FindingKey(g)
  {
    OrdersAreTotal();
    MappedMultiset(f.entities, g.entities, EntityText);
    MappedMultiset(f.spans, g.spans, SpanText);
    hide Total, Sort, Join;
    SortIsCanonical(EntityTexts(f), EntityTexts(g), TextOrder());
    SortIsCanonical(f.lessons, g.lessons, NumberOrder());
    SortIsCanonical(SpanTexts(f), SpanTexts(g), TextOrder());
  }

  /** And while no entity kind holds a separator, two findings have one key only if they are the same. */
  lemma SameKeySameFinding(f: Finding, g: Finding)
    requires Plain(f) && Plain(g) && FindingKey(f) == FindingKey(g)
    ensures Same(f, g)
  {
    PartsAreJoinable(f);
    PartsAreJoinable(g);
    TextsAreInjective();
    hide Sort, Join, Joinable, Injective, Plain, EntityTexts, LessonTexts, SpanTexts;
    var (e, e') := (Join(Sort(EntityTexts(f), TextOrder())), Join(Sort(EntityTexts(g), TextOrder())));
    var (l, l') := (Join(LessonTexts(f)), Join(LessonTexts(g)));
    var (s, s') := (Join(Sort(SpanTexts(f), TextOrder())), Join(Sort(SpanTexts(g), TextOrder())));
    LastCut(f.kind + "|" + e + "|" + l, s, g.kind + "|" + e' + "|" + l', s', '|');
    LastCut(f.kind + "|" + e, l, g.kind + "|" + e', l', '|');
    LastCut(f.kind, e, g.kind, e', '|');
    JoinIsInjective(Sort(EntityTexts(f), TextOrder()), Sort(EntityTexts(g), TextOrder()));
    JoinIsInjective(LessonTexts(f), LessonTexts(g));
    JoinIsInjective(Sort(SpanTexts(f), TextOrder()), Sort(SpanTexts(g), TextOrder()));
    SamePartsSameLists(f, g);
  }

  lemma SamePartsSameLists(f: Finding, g: Finding)
    requires Injective(EntityText) && Injective(SpanText) && Injective(Decimal)
    requires Sort(EntityTexts(f), TextOrder()) == Sort(EntityTexts(g), TextOrder())
    requires LessonTexts(f) == LessonTexts(g) && Sort(SpanTexts(f), TextOrder()) == Sort(SpanTexts(g), TextOrder())
    ensures multiset(f.entities) == multiset(g.entities) && multiset(f.spans) == multiset(g.spans)
    ensures multiset(f.lessons) == multiset(g.lessons)
  {
    hide Sort, Injective;
    SortKeeps(EntityTexts(f), TextOrder());
    SortKeeps(EntityTexts(g), TextOrder());
    SortKeeps(SpanTexts(f), TextOrder());
    SortKeeps(SpanTexts(g), TextOrder());
    SortKeeps(f.lessons, NumberOrder());
    SortKeeps(g.lessons, NumberOrder());
    InjectiveMultiset(f.entities, g.entities, EntityText);
    InjectiveMultiset(f.spans, g.spans, SpanText);
    InjectiveMultiset(Sort(f.lessons, NumberOrder()), Sort(g.lessons, NumberOrder()), Decimal);
  }

  /** A document ignores a finding exactly when one of its ignored findings is the same one in some order. */
  lemma IgnoresExactly(ignored: seq<Finding>, f: Finding)
    requires Plain(f) && forall i :: 0 <= i < |ignored| ==> Plain(ignored[i])
    ensures FindingKey(f) in KeysOf(ignored) <==> exists i :: 0 <= i < |ignored| && Same(ignored[i], f)
  {
    hide FindingKey, Plain, Same;
    if FindingKey(f) in KeysOf(ignored) {
      var i :| 0 <= i < |ignored| && FindingKey(ignored[i]) == FindingKey(f);
      SameKeySameFinding(ignored[i], f);
    }
    if exists i :: 0 <= i < |ignored| && Same(ignored[i], f) {
      var i :| 0 <= i < |ignored| && Same(ignored[i], f);
      SameFindingSameKey(ignored[i], f);
    }
  }

  /** The entity kinds the server names findings with. */
  const SERVER_KINDS := ["division", "group", "teacher", "room", "subject", "year", "external_block", "split", "link"]

  /** None of them holds a separator, so for the server's own findings the key never confuses two. */
  lemma ServerFindingsArePlain(f: Finding)
    requires forall i :: 0 <= i < |f.entities| ==> f.entities[i].kind in SERVER_KINDS
    ensures Plain(f)
  {
    forall k | 0 <= k < |SERVER_KINDS| ensures ',' !in SERVER_KINDS[k] && '|' !in SERVER_KINDS[k] {}
  }

  lemma SortFew(x: string, y: string)
    ensures Sort([], TextOrder()) == [] && Sort([x], TextOrder()) == [x]
    ensures Le(x, y) ==> Sort([x, y], TextOrder()) == [x, y]
  {
    assert [x][1..] == [] && [x, y][1..] == [y] && [y][1..] == [];
    assert Sort([y], TextOrder()) == [y];
  }

  /** The key of a finding that has only entities. */
  lemma EntityKey(kind: string, entities: seq<Entity>)
    ensures FindingKey(Finding(kind, entities, [], []))
            == kind + "|" + Join(Sort(Mapped(entities, EntityText), TextOrder())) + "||"
  {
    var f := Finding(kind, entities, [], []);
    assert LessonTexts(f) == [] && SpanTexts(f) == [];
    assert Sort(SpanTexts(f), TextOrder()) == [];
    var start := kind + "|" + Join(Sort(Mapped(entities, EntityText), TextOrder()));
    assert start + "|" + "" + "|" + "" == start + "||";
  }

  lemma OneEntityKey(kind: string, e: Entity)
    ensures FindingKey(Finding(kind, [e], [], [])) == kind + "|" + EntityText(e) + "||"
  {
    EntityKey(kind, [e]);
    assert Mapped([e], EntityText) == [EntityText(e)];
    SortFew(EntityText(e), "");
  }

  lemma TwoEntitiesKey(kind: string, a: Entity, b: Entity)
    requires Le(EntityText(a), EntityText(b))
    ensures FindingKey(Finding(kind, [a, b], [], [])) == kind + "|" + EntityText(a) + "," + EntityText(b) + "||"
  {
    var (x, y) := (EntityText(a), EntityText(b));
    EntityKey(kind, [a, b]);
    assert Mapped([a, b], EntityText) == [x, y];
    SortFew(x, y);
    assert Join([x, y]) == x + "," + y by { assert [x, y][1..] == [y]; }
    assert kind + "|" + (x + "," + y) + "||" == kind + "|" + x + "," + y + "||";
  }

  /** The finding of one entity whose kind, through a comma, is two entities' texts. */
  function Merged(a: Entity, b: Entity): Entity {
    Entity(EntityText(a) + "," + b.kind, b.id)
  }

  /** Every two entities have one key with a single one, of a kind that holds a comma. */
  lemma CommasConfuse(kind: string, a: Entity, b: Entity)
    requires Le(EntityText(a), EntityText(b))
    ensures var (f, g) := (Finding(kind, [a, b], [], []), Finding(kind, [Merged(a, b)], [], []));
            !Same(f, g) && FindingKey(f) == FindingKey(g)
  {
    TwoEntitiesKey(kind, a, b);
    OneEntityKey(kind, Merged(a, b));
    hide FindingKey, Le;
    Regroup(kind, EntityText(a), b.kind, Decimal(b.id));
    assert |multiset([a, b])| != |multiset([Merged(a, b)])|;
  }

  lemma Regroup(k: string, x: string, y: string, d: string)
    ensures k + "|" + x + "," + (y + ":" + d) + "||" == k + "|" + (x + "," + y + ":" + d) + "||"
  {
    assert x + "," + (y + ":" + d) == x + "," + y + ":" + d;
    assert k + "|" + x + "," + (y + ":" + d) == k + "|" + (x + "," + (y + ":" + d));
  }

  /** Every entity kind that holds a bar gives two findings of different kinds with one key. */
  lemma BarsConfuse(kind: string, before: string, after: string, id: Id)
    ensures var f := Finding(kind, [Entity(before + "|" + after, id)], [], []);
            var g := Finding(kind + "|" + before, [Entity(after, id)], [], []);
            f.kind != g.kind && !Same(f, g) && FindingKey(f) == FindingKey(g)
  {
    var f := Finding(kind, [Entity(before + "|" + after, id)], [], []);
    var g := Finding(kind + "|" + before, [Entity(after, id)], [], []);
    OneEntityKey(f.kind, f.entities[0]);
    OneEntityKey(g.kind, g.entities[0]);
    hide FindingKey;
    MoveBar(kind, before, after, Decimal(id));
    assert |f.kind| < |g.kind|;
  }

  lemma MoveBar(k: string, x: string, y: string, d: string)
    ensures k + "|" + (x + "|" + y + ":" + d) == k + "|" + x + "|" + (y + ":" + d)
  {
    assert x + "|" + y + ":" + d == x + "|" + (y + ":" + d);
  }
}
