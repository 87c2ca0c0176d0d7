/**
 * Functions that satisfy what `GpfFile` asks of sealing, and a file written with them: what is said there of every
 * lawful codec is said of something.
 */
module GpfCodecs {
  import opened Basics
  import opened Utf8
  import opened GpfText
  import opened GpfHeader
  import opened GpfHeaderRoundTrip
  import opened GpfContainer
  import opened GpfFile

  // -------------------------------------------------- lists written as bytes

  function Unary(n: nat): Bytes {
    if n == 0 then [0] else [1] + Unary(n - 1)
  }

  function NumberBytes(k: int): Bytes {
    if k < 0 then [1] + Unary(-k) else [0] + Unary(k)
  }

  function ListBytes(ks: seq<int>): Bytes {
    if ks == [] then [0] else [1] + NumberBytes(ks[0]) + ListBytes(ks[1..])
  }

  function Codes(p: string): (codes: seq<int>)
    ensures |codes| == |p|
  {
    seq(|p|, i requires 0 <= i < |p| => p[i] as int)
  }

  lemma {:induction false} UnaryCuts(m: nat, n: nat, x: Bytes, y: Bytes)
    requires Unary(m) + x == Unary(n) + y
    ensures m == n && x == y
  {
    assert (Unary(m) + x)[0] == (Unary(n) + y)[0];
    assert (Unary(m) + x)[1..] == (Unary(n) + y)[1..];
    if m == 0 || n == 0 {
      assert (Unary(m) + x)[1..] == x && (Unary(n) + y)[1..] == y;
    } else {
      assert (Unary(m) + x)[1..] == Unary(m - 1) + x && (Unary(n) + y)[1..] == Unary(n - 1) + y;
      UnaryCuts(m - 1, n - 1, x, y);
    }
  }

  /** One byte in front of two stretches. */
  lemma Fronted(c: Byte, u: Bytes, x: Bytes)
    ensures ([c] + u + x)[0] == c && ([c] + u + x)[1..] == u + x
  {
  }

  lemma NumberCuts(j: int, k: int, x: Bytes, y: Bytes)
    requires NumberBytes(j) + x == NumberBytes(k) + y
    ensures j == k && x == y
  {
    hide Unary;
    var (m, n) := (if j < 0 then -j else j, if k < 0 then -k else k);
    Fronted(if j < 0 then 1 else 0, Unary(m), x);
    Fronted(if k < 0 then 1 else 0, Unary(n), y);
    UnaryCuts(m, n, x, y);
  }

  lemma ListFronted(ks: seq<int>, x: Bytes)
    ensures ks == [] ==> (ListBytes(ks) + x)[0] == 0 && (ListBytes(ks) + x)[1..] == x
    ensures ks != [] ==> (ListBytes(ks) + x)[0] == 1
                         && (ListBytes(ks) + x)[1..] == NumberBytes(ks[0]) + (ListBytes(ks[1..]) + x)
  {
    hide NumberBytes;
    if ks == [] {
      assert ([0] + x)[1..] == x;
    } else {
      TwiceFronted(1, NumberBytes(ks[0]), ListBytes(ks[1..]), x);
    }
  }

  lemma TwiceFronted(c: Byte, u: Bytes, v: Bytes, x: Bytes)
    ensures ([c] + u + v + x)[0] == c && ([c] + u + v + x)[1..] == u + (v + x)
  {
    assert [c] + u + v + x == [c] + (u + (v + x));
  }

  /** A list at the front of some bytes can be told from what follows it. */
  lemma {:induction false} ListCuts(a: seq<int>, b: seq<int>, x: Bytes, y: Bytes)
    requires ListBytes(a) + x == ListBytes(b) + y
    ensures a == b && x == y
    decreases |a|
  {
    ListFronted(a, x);
    ListFronted(b, y);
    hide ListBytes, NumberBytes;
    if a != [] && b != [] {
      NumberCuts(a[0], b[0], ListBytes(a[1..]) + x, ListBytes(b[1..]) + y);
      ListCuts(a[1..], b[1..], x, y);
      assert a == [a[0]] + a[1..] && b == [b[0]] + b[1..];
    }
  }

  // ------------------------------------------------------------- the codec

  function SealPassword(p: string, n: int, b: Bytes): Bytes {
    ListBytes([n] + Codes(p)) + b
  }

  function SealKeys(rs: seq<int>, b: Bytes): Bytes {
    ListBytes(rs) + b
  }

  ghost function OpenPassword(q: string, sealed: Bytes): Opened {
    if exists p, n, b :: sealed == SealPassword(p, n, b) then
      var p, n, b :| sealed == SealPassword(p, n, b);
      if n > MAX_WORK_FACTOR then Damaged else if p == q then Plaintext(b) else WrongKey
    else Damaged
  }

  ghost function OpenKeys(fits: (int, int) -> bool, ids: seq<int>, sealed: Bytes): Opened {
    if exists rs, b :: sealed == SealKeys(rs, b) then
      var rs, b :| sealed == SealKeys(rs, b);
      if AnyFits(ids, rs, fits) then Plaintext(b) else WrongKey
    else Damaged
  }

  /** A document is its bytes, and a sealed payload says what it is sealed to. */
  ghost function Open(fits: (int, int) -> bool): Codec<Bytes> {
    Codec(b => Some(b), b => Some(b), SealPassword, SealKeys, OpenPassword,
          (ids, sealed) => OpenKeys(fits, ids, sealed))
  }

  lemma CodesTell(p: string, q: string)
    requires Codes(p) == Codes(q)
    ensures p == q
  {
    forall i | 0 <= i < |p| ensures p[i] == q[i] {
      assert Codes(p)[i] == Codes(q)[i];
    }
  }

  lemma SealedTells(p: string, n: int, b: Bytes, q: string, m: int, c: Bytes)
    requires SealPassword(p, n, b) == SealPassword(q, m, c)
    ensures p == q && n == m && b == c
  {
    ListCuts([n] + Codes(p), [m] + Codes(q), b, c);
    assert ([n] + Codes(p))[1..] == Codes(p) && ([m] + Codes(q))[1..] == Codes(q);
    CodesTell(p, q);
  }

  /** Whatever key fits whatever lock, sealing and opening can be lawful. */
  lemma OpenIsLawful(fits: (int, int) -> bool)
    ensures Lawful(Open(fits), fits)
  {
    var codec := Open(fits);
    forall p, n, q, b
      ensures codec.openPassword(q, codec.sealPassword(p, n, b))
              == if n > MAX_WORK_FACTOR then Damaged else if p == q then Plaintext(b) else WrongKey
    {
      var sealed := SealPassword(p, n, b);
      forall p', n', b' | sealed == SealPassword(p', n', b') ensures p' == p && n' == n && b' == b {
        SealedTells(p, n, b, p', n', b');
      }
    }
    forall ids, rs, b
      ensures codec.openKeys(ids, codec.sealKeys(rs, b)) == if AnyFits(ids, rs, fits) then Plaintext(b) else WrongKey
    {
      var sealed := SealKeys(rs, b);
      forall rs', b' | sealed == SealKeys(rs', b') ensures rs' == rs && b' == b {
        ListCuts(rs, rs', b, b');
      }
    }
  }

  // ---------------------------------------------------------- a costly file

  lemma {:induction false} EncodeLength(s: string)
    ensures |Encode(s)| <= 4 * |s|
  {
    if s != [] {
      EncodeLength(s[1..]);
    }
  }

  lemma {:induction false} UnlinesLength(lines: seq<string>, most: nat)
    requires forall i :: 0 <= i < |lines| ==> |lines[i]| <= most
    ensures |Unlines(lines)| <= |lines| * (most + 1)
  {
    if lines != [] {
      UnlinesLength(lines[1..], most);
    }
  }

  /** Sealed to the password "x" at a cost of 21, and read with it. */
  const COSTLY := WriteOptions(None, "x", [], MAX_WORK_FACTOR + 1, None)
  const HOLDER := ReadOptions("x", [], "")
  const COSTLY_BLOCK := Fields([FIELD_FORMAT, FIELD_MODE], map[FIELD_FORMAT := "1", FIELD_MODE := "password"])

  lemma PlainValues()
    ensures Trim("") == "" && Trim("1") == "1" && Trim("password") == "password"
  {
  }

  lemma CostlyBlocks()
    ensures var flags := FLAG_ENCRYPTED + FLAG_PASSPHRASE;
            HeaderOf(COSTLY, flags) == COSTLY_BLOCK && FooterOf(COSTLY, flags) == COSTLY_BLOCK
  {
    PlainValues();
    assert Removed([], FIELD_KEYS) == [];
    hide Trim, Removed;
    var once := SetField(SetField(NoFields, FIELD_KEYS, ""), FIELD_FORMAT, "1");
    assert once == Fields([FIELD_FORMAT], map[FIELD_FORMAT := "1"]);
  }

  lemma {:induction false} WidthLength(order: seq<string>, most: nat)
    requires forall i :: 0 <= i < |order| ==> |order[i]| <= most
    ensures Width(order) <= 4 * most
  {
    if order != [] {
      WidthLength(order[..|order| - 1], most);
      EncodeLength(order[|order| - 1]);
    }
  }

  lemma LineLength(name: string, value: string, width: nat)
    requires ByteLength(name) <= width
    ensures |Line(name, value, width)| <= |name| + |value| + width + 2
  {
    hide Encode;
  }

  lemma CostlyLines()
    ensures var lines := BlockLines(COSTLY_BLOCK);
            |lines| == 5 && forall i :: 0 <= i < |lines| ==> |lines[i]| <= 64
  {
    WidthLength(COSTLY_BLOCK.order, 6);
    hide Encode, Width;
    var width := Width(COSTLY_BLOCK.order);
    WidthCovers(COSTLY_BLOCK.order, 0);
    WidthCovers(COSTLY_BLOCK.order, 1);
    LineLength(FIELD_FORMAT, "1", width);
    LineLength(FIELD_MODE, "password", width);
    hide Line, Spaces;
    var fields := FieldLines(COSTLY_BLOCK, 2);
    assert fields[0] == Line(FIELD_FORMAT, "1", width) && fields[1] == Line(FIELD_MODE, "password", width);
    FiveLines(fields);
  }

  lemma FiveLines(fields: seq<string>)
    requires fields == FieldLines(COSTLY_BLOCK, 2)
    ensures BlockLines(COSTLY_BLOCK) == [BRAND, HEADER_LEAD, fields[0], fields[1], HEADER_END]
  {
    hide FieldLines;
  }

  lemma CostlyFields()
    ensures CheckField(FIELD_FORMAT, "1") && CheckField(FIELD_MODE, "password")
  {
    EncodeLength("1");
    EncodeLength("password");
    hide Encode;
  }

  lemma CostlyIsSound()
    ensures Sound(COSTLY_BLOCK)
  {
    PlainValues();
    hide Trim;
  }

  lemma CostlyIsWritable()
    ensures Writable(COSTLY_BLOCK) && AllReadable(COSTLY_BLOCK)
  {
    CostlyFields();
    OwnNames();
    hide CheckField, Readable;
  }

  lemma CostlyBlockFits()
    ensures Sound(COSTLY_BLOCK) && Writable(COSTLY_BLOCK) && AllReadable(COSTLY_BLOCK)
    ensures |Written(COSTLY_BLOCK)| <= MAX_FOOTER
  {
    CostlyIsSound();
    CostlyIsWritable();
    CostlyLines();
    hide BlockLines, Encode, Unlines, Sound, Writable, AllReadable;
    UnlinesLength(BlockLines(COSTLY_BLOCK), 64);
    EncodeLength(Unlines(BlockLines(COSTLY_BLOCK)));
  }

  /** Such a file is written, and refused to the holder of its password: with lawful functions, whatever keys fit. */
  lemma CostlyFileIsWritten(fits: (int, int) -> bool, doc: Bytes)
    requires |doc| <= 0x100_0000
    ensures Lawful(Open(fits), fits) && HasKey(COSTLY, HOLDER, fits) && Sent(Open(fits), doc, COSTLY, doc)
    ensures DecodeFile(Open(fits), EncodeFile(Open(fits), doc, COSTLY).value, HOLDER) == Err(Undecryptable)
  {
    hide Lawful, HeaderOf, FooterOf, Sound, Writable, AllReadable, Written, DecodeFile, SealPassword;
    OpenIsLawful(fits);
    CostlyBlocks();
    CostlyBlockFits();
    SealedLength(doc);
    CostlyPasswordIsRefused(Open(fits), fits, doc, COSTLY, HOLDER, doc);
  }

  lemma SealedLength(doc: Bytes)
    ensures |SealPassword("x", MAX_WORK_FACTOR + 1, doc)| <= |doc| + 1000
  {
    assert Codes("x") == [120] && [MAX_WORK_FACTOR + 1] + Codes("x") == [21, 120];
    UnaryLength(21);
    UnaryLength(120);
    assert [21, 120][1..] == [120] && [120][1..] == [];
  }

  lemma {:induction false} UnaryLength(n: nat)
    ensures |Unary(n)| == n + 1
  {
    if n > 0 {
      UnaryLength(n - 1);
    }
  }
}
