/** The plaintext block of a project file: a printer and a parser of named fields. */
module GpfHeader {
  import opened Basics
  import opened Utf8
  import opened GpfText

  const BRAND := "GPF1"
  const HEADER_LEAD := "# Goptivum Project File"
  const HEADER_END := "---"
  const MAX_FIELD_VALUE: nat := 4096

  /** `fields` and `order` of a block: each name once, in the order it was first set. */
  datatype Fields = Fields(order: seq<string>, values: map<string, string>)

  const NoFields := Fields([], map[])

  // --------------------------------------------------------------- fields

  /** A name keeps the place it first had; setting nothing forgets it. */
  function SetField(f: Fields, name: string, value: string): Fields {
    var trimmed := Trim(value);
    if trimmed == "" then Fields(Removed(f.order, name), f.values - {name})
    else Fields(if name in f.values then f.order else f.order + [name], f.values[name := trimmed])
  }

  function Removed(order: seq<string>, name: string): seq<string> {
    if order == [] then []
    else (if order[0] == name then [] else [order[0]]) + Removed(order[1..], name)
  }

  /** What every block built by setting fields keeps: each name once, no value empty or with outer spaces. */
  ghost predicate Sound(f: Fields) {
    && (forall i, j :: 0 <= i < j < |f.order| ==> f.order[i] != f.order[j])
    && (forall n :: n in f.order <==> n in f.values)
    && (forall n :: n in f.values ==> f.values[n] != "" && Trim(f.values[n]) == f.values[n])
  }

  /** What may be written. */
  predicate CheckField(name: string, value: string) {
    name != "" && !Contains(name, ":\r\n \t\0") && ByteLength(value) <= MAX_FIELD_VALUE
    && !Contains(value, "\r\n") && !Contains(value, "\0")
  }

  function Width(order: seq<string>): nat {
    if order == [] then 0
    else
      var rest, here := Width(order[..|order| - 1]), ByteLength(order[|order| - 1]);
      if here > rest then here else rest
  }

  function Line(name: string, value: string, width: nat): string
    requires ByteLength(name) <= width
  {
    name + ":" + Spaces(width - ByteLength(name) + 1) + value
  }

  // -------------------------------------------------------------- printing

  lemma {:induction false} WidthCovers(order: seq<string>, i: nat)
    requires i < |order|
    ensures ByteLength(order[i]) <= Width(order)
  {
    if i < |order| - 1 {
      WidthCovers(order[..|order| - 1], i);
    }
  }

  ghost function FieldLines(f: Fields, n: nat): (lines: seq<string>)
    requires n <= |f.order| && forall i :: 0 <= i < |f.order| ==> f.order[i] in f.values
    ensures |lines| == n
  {
    seq(n, i requires 0 <= i < n =>
      WidthCovers(f.order, i); Line(f.order[i], f.values[f.order[i]], Width(f.order)))
  }

  predicate Writable(f: Fields) {
    forall i :: 0 <= i < |f.order| && f.order[i] in f.values ==> CheckField(f.order[i], f.values[f.order[i]])
  }

  /** The lines of the written block. */
  ghost function BlockLines(f: Fields): seq<string>
    requires forall i :: 0 <= i < |f.order| ==> f.order[i] in f.values
  {
    LinesSoFar(f, |f.order|) + [HEADER_END]
  }

  // --------------------------------------------------------------- parsing

  function ParseLine(f: Fields, line: string): Option<Fields> {
    if (line != "" && line[0] == '#') || Trim(line) == "" then Some(f)
    else
      var parts := Cut(line);
      if parts.None? then None
      else
        var name, value := Trim(parts.value.0), Trim(parts.value.1);
        if !CheckField(name, value) || name in f.values then None else Some(SetField(f, name, value))
  }

  function ParseLines(f: Fields, lines: seq<string>): Option<Fields>
    decreases |lines|
  {
    if lines == [] then Some(f)
    else
      var next := ParseLine(f, lines[0]);
      if next.None? then None else ParseLines(next.value, lines[1..])
  }

  function ParseText(text: string): Option<Fields> {
    var lines := Lines(TrimSuffix(text));
    if |lines| < 3 || lines[0] != BRAND || lines[|lines| - 1] != HEADER_END then None
    else ParseLines(NoFields, lines[1..|lines| - 1])
  }

  function Parse(block: Bytes): Option<Fields> {
    var text := Decode(block);
    if text.None? then None else ParseText(text.value)
  }

  // -------------------------------------------------------------- in words

  /** What a name and a value may hold, character by character. */
  lemma FieldInWords(name: string, value: string)
    ensures CheckField(name, value)
            <==> && name != "" && ByteLength(value) <= 4096
                 && ':' !in name && '\r' !in name && '\n' !in name && ' ' !in name && '\t' !in name && '\0' !in name
                 && '\r' !in value && '\n' !in value && '\0' !in value
  {
    hide ByteLength, Contains;
    ContainsAny(name, ":\r\n \t\0");
    ContainsAny(value, "\r\n");
    ContainsAny(value, "\0");
    var any := ":\r\n \t\0";
    assert any[0] == ':' && any[1] == '\r' && any[2] == '\n' && any[3] == ' ' && any[4] == '\t' && any[5] == '\0';
    assert "\r\n"[0] == '\r' && "\r\n"[1] == '\n' && "\0"[0] == '\0';
  }

  /** Every field of a block may be written exactly when each name and value is free of what would break a line. */
  lemma WritableInWords(f: Fields)
    requires Sound(f)
    ensures Writable(f)
            <==> forall n :: n in f.values ==>
                   var v := f.values[n];
                   && n != "" && ByteLength(v) <= 4096 && '\r' !in v && '\n' !in v && '\0' !in v
                   && ':' !in n && '\r' !in n && '\n' !in n && ' ' !in n && '\t' !in n && '\0' !in n
  {
    hide ByteLength, CheckField;
    forall n | n in f.values {
      FieldInWords(n, f.values[n]);
    }
    if Writable(f) {
      forall n | n in f.values ensures CheckField(n, f.values[n]) {
        assert n in f.order;
        var i :| 0 <= i < |f.order| && f.order[i] == n;
      }
    } else {
      var i :| 0 <= i < |f.order| && f.order[i] in f.values && !CheckField(f.order[i], f.values[f.order[i]]);
      assert f.order[i] in f.values;
    }
  }

  /** The block line by line: brand, lead, a field to a line with the values in one column, and the end. */
  lemma BlockInWords(f: Fields, i: nat, width: nat)
    requires Sound(f) && i < |f.order|
    requires forall j :: 0 <= j < |f.order| ==> ByteLength(f.order[j]) <= width
    requires exists j :: 0 <= j < |f.order| && ByteLength(f.order[j]) == width
    ensures f.order[i] in f.order && f.order[i] in f.values
    ensures forall j :: 0 <= j < |f.order| ==> f.order[j] in f.values
    ensures var lines := BlockLines(f);
            && |lines| == |f.order| + 3
            && lines[0] == "GPF1" && lines[1] == "# Goptivum Project File" && lines[|f.order| + 2] == "---"
            && lines[2 + i] == f.order[i] + ":" + seq(width - ByteLength(f.order[i]) + 1, k => ' ')
                               + f.values[f.order[i]]
  {
    hide ByteLength;
    forall j | 0 <= j < |f.order| ensures f.order[j] in f.values {
      assert f.order[j] in f.order;
    }
    WidthIsLongest(f.order, width);
    var line := FieldLines(f, |f.order|)[i];
    assert BlockLines(f)[2 + i] == line;
  }

  lemma {:induction false} WidthIsLongest(order: seq<string>, width: nat)
    requires forall j :: 0 <= j < |order| ==> ByteLength(order[j]) <= width
    ensures Width(order) <= width
    ensures (exists j :: 0 <= j < |order| && ByteLength(order[j]) == width) ==> Width(order) == width
  {
    if order != [] {
      var n := |order| - 1;
      WidthIsLongest(order[..n], width);
      if j :| 0 <= j < |order| && ByteLength(order[j]) == width {
        WidthCovers(order, j);
      }
    }
  }

  /** A line that is blank or a comment says nothing, and any other is a new field that may be written, or wrong. */
  lemma LineInWords(f: Fields, line: string, name: string, value: string)
    requires ':' !in name
    ensures line == "" || line[0] == '#' || Trim(line) == "" ==> ParseLine(f, line) == Some(f)
    ensures ':' !in line && Trim(line) != "" && line[0] != '#' ==> ParseLine(f, line) == None
    ensures line == name + ":" + value && line[0] != '#' ==>
              var (n, v) := (Trim(name), Trim(value));
              if n == "" || n in f.values || ByteLength(v) > 4096 || '\r' in v || '\n' in v || '\0' in v
                 || ' ' in n || '\t' in n || '\r' in n || '\n' in n || '\0' in n || ':' in n
              then ParseLine(f, line) == None else ParseLine(f, line) == Some(SetField(f, n, v))
  {
    hide ByteLength, CheckField, Trim, Cut;
    BlankTrims();
    if ':' !in line {
      NoColonNoCut(line);
    } else if line == name + ":" + value {
      CutAtFirstColon(name, value);
      assert line[|name|] == ':';
      NotBlank(line, |name|);
      FieldInWords(Trim(name), Trim(value));
    }
  }

  /** Every line between the brand and the end is read, and no other: a block is exactly such lines. */
  lemma BlockIsItsLines(lines: seq<string>)
    requires forall i :: 0 <= i < |lines| ==> '\n' !in lines[i]
    ensures |lines| >= 1 ==>
              ParseText(Unlines(["GPF1"] + lines + ["---"])) == ParseLines(NoFields, lines)
  {
    var all := ["GPF1"] + lines + ["---"];
    FramedLines(lines);
    hide Lines, TrimSuffix, Unlines, ParseLines;
    LinesOfUnlines(all);
  }

  lemma FramedLines(lines: seq<string>)
    requires forall i :: 0 <= i < |lines| ==> '\n' !in lines[i]
    ensures var all := ["GPF1"] + lines + ["---"];
            && |all| == |lines| + 2 && all[1..|all| - 1] == lines && all[0] == "GPF1" && all[|all| - 1] == "---"
            && forall i :: 0 <= i < |all| ==> '\n' !in all[i]
  {
    var all := ["GPF1"] + lines + ["---"];
    forall i | 0 <= i < |all| ensures '\n' !in all[i] {
      assert i == 0 || i == |all| - 1 || all[i] == lines[i - 1];
    }
  }

  // ------------------------------------------------------------ the class

  /** Reads a block line by line into a new header. */
  method ReadHeader(block: Bytes) returns (h: Option<Header>)
    ensures h.Some? <==> Parse(block).Some?
    ensures h.Some? ==> h.value.View() == Parse(block).value && Sound(h.value.View())
    ensures h.Some? ==>
              && Decode(block).Some?
              && var lines := Lines(TrimSuffix(Decode(block).value));
                 |lines| >= 3 && lines[0] == "GPF1" && lines[|lines| - 1] == "---"
  {
    var text := Decode(block);
    if text.None? {
      return None;
    }
    var lines := Lines(TrimSuffix(text.value));
    if |lines| < 3 || lines[0] != BRAND || lines[|lines| - 1] != HEADER_END {
      return None;
    }
    var body := lines[1..|lines| - 1];
    assert Parse(block) == ParseLines(NoFields, body);
    var header := new Header();
    hide Parse, Lines, Trim, Cut, CheckField, Decode, Sound, SetField;
    assert Sound(NoFields) by { NothingIsSound(); }
    for i := 0 to |body|
      invariant fresh(header) && Sound(header.View())
      invariant ParseLines(header.View(), body[i..]) == ParseLines(NoFields, body)
    {
      var line := body[i];
      assert body[i..][0] == line && body[i..][1..] == body[i + 1..];
      if (line != "" && line[0] == '#') || Trim(line) == "" {
        continue;
      }
      var parts := Cut(line);
      if parts.None? {
        return None;
      }
      var name, value := Trim(parts.value.0), Trim(parts.value.1);
      if !CheckField(name, value) || name in header.fields {
        return None;
      }
      header.Set(name, value);
    }
    return Some(header);
  }

  lemma NothingIsSound()
    ensures Sound(NoFields)
  {
  }

  class Header {
    var fields: map<string, string>
    var order: seq<string>

    constructor ()
      ensures View() == NoFields
    {
      fields, order := map[], [];
    }

    function View(): Fields
      reads this
    {
      Fields(order, fields)
    }

    method Set(name: string, value: string)
      requires Sound(View())
      modifies this
      ensures View() == SetField(old(View()), name, value) && Sound(View())
    {
      SetKeepsSound(View(), name, value);
      var trimmed := Trim(value);
      if trimmed == "" {
        fields := fields - {name};
        order := Removed(order, name);
        return;
      }
      if name !in fields {
        order := order + [name];
      }
      fields := fields[name := trimmed];
    }

    /** Writes the block, or refuses when a field would not survive. */
    method Encode() returns (out: Option<string>)
      requires Sound(View())
      ensures out.Some? <==> Writable(View())
      ensures out.Some? ==> out.value == Unlines(BlockLines(View()))
    {
      hide Unlines, LinesSoFar, Line, CheckField, Trim, Width;
      var width := MeasureNames();
      var text := BRAND + "\n" + HEADER_LEAD + "\n";
      LeadLines(View());
      for i := 0 to |order|
        invariant text == Unlines(LinesSoFar(View(), i))
        invariant forall k :: 0 <= k < i ==> CheckField(order[k], fields[order[k]])
      {
        var name := order[i];
        assert name in order;
        var value := fields[name];
        if !CheckField(name, value) {
          return None;
        }
        NextLine(View(), i);
        text := text + Line(name, value, width) + "\n";
      }
      UnlinesOneMore(LinesSoFar(View(), |order|), HEADER_END);
      return Some(text + HEADER_END + "\n");
    }

    /** The longest name, in bytes. */
    method MeasureNames() returns (width: nat)
      ensures width == Width(order)
    {
      width := 0;
      for i := 0 to |order|
        invariant width == Width(order[..i])
      {
        assert order[..i + 1][..i] == order[..i];
        if ByteLength(order[i]) > width {
          width := ByteLength(order[i]);
        }
      }
      assert order[..|order|] == order;
    }
  }

  ghost function LinesSoFar(f: Fields, n: nat): seq<string>
    requires n <= |f.order| && forall i :: 0 <= i < |f.order| ==> f.order[i] in f.values
  {
    [BRAND, HEADER_LEAD] + FieldLines(f, n)
  }

  lemma LeadLines(f: Fields)
    requires forall i :: 0 <= i < |f.order| ==> f.order[i] in f.values
    ensures Unlines(LinesSoFar(f, 0)) == BRAND + "\n" + HEADER_LEAD + "\n"
  {
    var lead := [BRAND, HEADER_LEAD];
    assert LinesSoFar(f, 0) == lead && lead[1..] == [HEADER_LEAD] && [HEADER_LEAD][1..] == [];
    assert Unlines([HEADER_LEAD]) == HEADER_LEAD + "\n" + Unlines([]);
  }

  lemma NextLine(f: Fields, i: nat)
    requires i < |f.order| && forall i :: 0 <= i < |f.order| ==> f.order[i] in f.values
    ensures ByteLength(f.order[i]) <= Width(f.order)
    ensures var name := f.order[i];
            Unlines(LinesSoFar(f, i + 1))
            == Unlines(LinesSoFar(f, i)) + Line(name, f.values[name], Width(f.order)) + "\n"
  {
    WidthCovers(f.order, i);
    var line := Line(f.order[i], f.values[f.order[i]], Width(f.order));
    assert LinesSoFar(f, i + 1) == LinesSoFar(f, i) + [line];
    UnlinesOneMore(LinesSoFar(f, i), line);
  }

  lemma {:induction false} RemovedHas(order: seq<string>, name: string)
    requires forall i, j :: 0 <= i < j < |order| ==> order[i] != order[j]
    ensures var r := Removed(order, name);
            && (forall x :: x in r <==> x in order && x != name)
            && (forall i, j :: 0 <= i < j < |r| ==> r[i] != r[j])
  {
    if order != [] {
      var first, rest := order[0], Removed(order[1..], name);
      RemovedHas(order[1..], name);
      assert order == [first] + order[1..] && first !in order[1..];
      assert Removed(order, name) == if first == name then rest else [first] + rest;
    }
  }

  lemma SetKeepsSound(f: Fields, name: string, value: string)
    requires Sound(f)
    ensures Sound(SetField(f, name, value))
  {
    hide Trim, Removed;
    TrimTightens(value);
    TrimTightens(Trim(value));
    if Trim(value) == "" {
      RemovedHas(f.order, name);
    } else {
      AddedIsSound(f, name, Trim(value));
    }
  }

  lemma AddedIsSound(f: Fields, name: string, value: string)
    requires Sound(f) && value != "" && Trim(value) == value
    ensures Sound(Fields(if name in f.values then f.order else f.order + [name], f.values[name := value]))
  {
  }
}
