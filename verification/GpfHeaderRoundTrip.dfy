/** What a written block reads back as. */
module GpfHeaderRoundTrip {
  import opened Basics
  import opened Utf8
  import opened GpfText
  import opened GpfHeader

  /** A name that survives: not taken for a comment, and with no outer spaces of any kind to trim. */
  predicate Readable(name: string) {
    name != "" && name[0] != '#' && Tight(name)
  }

  ghost predicate AllReadable(f: Fields) {
    forall i :: 0 <= i < |f.order| ==> Readable(f.order[i])
  }

  /** The names the reader keeps of these lines' names: comments skipped, the rest trimmed. */
  function Kept(names: seq<string>): seq<string> {
    if names == [] then []
    else (if names[0] != "" && names[0][0] == '#' then [] else [Trim(names[0])]) + Kept(names[1..])
  }

  /** One written line: skipped when its name looks like a comment, and otherwise the field with its name trimmed. */
  lemma LineReads(f: Fields, name: string, value: string, width: nat)
    requires CheckField(name, value) && value != "" && Tight(value) && ByteLength(name) <= width
    ensures var line := Line(name, value, width);
            ParseLine(f, line) == if name[0] == '#' then Some(f)
                                  else if !CheckField(Trim(name), value) || Trim(name) in f.values then None
                                  else Some(SetField(f, Trim(name), value))
    ensures '\n' !in Line(name, value, width)
  {
    hide Trim, Cut, CheckField, Line, SetField;
    LineParts(name, value, width);
  }

  /** A written line taken apart again. */
  lemma LineParts(name: string, value: string, width: nat)
    requires CheckField(name, value) && value != "" && Tight(value) && ByteLength(name) <= width
    ensures var line := Line(name, value, width);
            && line != "" && name != "" && line[0] == name[0] && Trim(line) != "" && '\n' !in line
            && Cut(line).Some? && Cut(line).value.0 == name && Trim(Cut(line).value.1) == value
  {
    hide Trim, Cut, ByteLength, Contains, Tight, Space;
    var pad := Spaces(width - ByteLength(name) + 1);
    var line := Line(name, value, width);
    NoColon(name);
    assert line == name + ":" + (pad + value);
    CutAtFirstColon(name, pad + value);
    TrimPadding(|pad|, value);
    assert line[|name|] == ':';
    ColonIsNotSpace(line, |name|);
    NotBlank(line, |name|);
    NoLineBreak(name, value, pad);
  }

  lemma ColonIsNotSpace(s: string, i: nat)
    requires i < |s| && s[i] == ':'
    ensures !Space(s[i])
  {
  }

  lemma NoColon(name: string)
    requires !Contains(name, ":\r\n \t\0")
    ensures ':' !in name && '\n' !in name
  {
  }

  lemma NoLineBreak(name: string, value: string, pad: string)
    requires '\n' !in name && !Contains(value, "\r\n") && forall i :: 0 <= i < |pad| ==> pad[i] == ' '
    ensures '\n' !in name + ":" + (pad + value)
  {
  }

  /** The same of the field at one place of a block. */
  lemma FieldReads(f: Fields, k: nat, got: Fields)
    requires Sound(f) && Writable(f) && k < |f.order|
    ensures f.order[k] in f.values && f.order[k] != ""
    ensures var (name, lines) := (f.order[k], FieldLines(f, |f.order|));
            && ParseLine(got, lines[k]) == (if name[0] == '#' then Some(got)
                                            else if !CheckField(Trim(name), f.values[name]) || Trim(name) in got.values
                                            then None else Some(SetField(got, Trim(name), f.values[name])))
            && '\n' !in lines[k]
    ensures SetField(got, Trim(f.order[k]), f.values[f.order[k]])
            == Fields(if Trim(f.order[k]) in got.values then got.order else got.order + [Trim(f.order[k])],
                      got.values[Trim(f.order[k]) := f.values[f.order[k]]])
    ensures Readable(f.order[k]) ==>
              Trim(f.order[k]) == f.order[k] && CheckField(f.order[k], f.values[f.order[k]])
  {
    var name := f.order[k];
    assert name in f.order;
    hide Trim, Line, ParseLine;
    WidthCovers(f.order, k);
    TrimTightens(name);
    TrimTightens(f.values[name]);
    LineReads(got, name, f.values[name], Width(f.order));
  }

  lemma RestOfLines(f: Fields, k: nat)
    requires Sound(f) && k < |f.order|
    ensures var lines := FieldLines(f, |f.order|);
            && lines[k..] != [] && lines[k..][0] == lines[k] && lines[k..][1..] == lines[k + 1..]
            && f.order[k..][0] == f.order[k] && f.order[k..][1..] == f.order[k + 1..]
            && f.order[..k + 1] == f.order[..k] + [f.order[k]]
  {
  }

  /** The block's fields from some place on, read after what came before. */
  lemma {:induction false} RestReads(f: Fields, k: nat, got: Fields)
    requires Sound(f) && Writable(f) && AllReadable(f) && k <= |f.order|
    requires got.order == f.order[..k] && got.values == Restricted(f, k)
    ensures ParseLines(got, FieldLines(f, |f.order|)[k..]) == Some(f)
    decreases |f.order| - k
  {
    hide Trim, ParseLine, SetField, CheckField, Writable, FieldLines;
    if k == |f.order| {
      AllRestricted(f);
      assert f.order[..k] == f.order && FieldLines(f, |f.order|)[k..] == [];
    } else {
      FieldReads(f, k, got);
      RestOfLines(f, k);
      OneMoreRestricted(f, k);
      hide Sound;
      RestReads(f, k + 1, SetField(got, f.order[k], f.values[f.order[k]]));
    }
  }

  /** The fields of the first names. */
  function Restricted(f: Fields, k: nat): map<string, string>
    requires k <= |f.order|
  {
    map n | n in f.values && n in f.order[..k] :: f.values[n]
  }

  lemma AllRestricted(f: Fields)
    requires Sound(f)
    ensures Restricted(f, |f.order|) == f.values
  {
  }

  lemma OneMoreRestricted(f: Fields, k: nat)
    requires Sound(f) && k < |f.order|
    ensures f.order[k] !in Restricted(f, k) && f.order[k] in f.values
    ensures Restricted(f, k + 1) == Restricted(f, k)[f.order[k] := f.values[f.order[k]]]
  {
  }

  /** Whatever is read back, its names are what is kept of the written ones. */
  lemma {:induction false} RestKeeps(f: Fields, k: nat, got: Fields)
    requires Sound(f) && Writable(f) && k <= |f.order|
    requires ParseLines(got, FieldLines(f, |f.order|)[k..]).Some?
    ensures ParseLines(got, FieldLines(f, |f.order|)[k..]).value.order == got.order + Kept(f.order[k..])
    decreases |f.order| - k
  {
    hide Trim, ParseLine, SetField, CheckField, Writable, FieldLines, Readable;
    var lines := FieldLines(f, |f.order|);
    if k == |f.order| {
      assert f.order[k..] == [] && lines[k..] == [];
    } else {
      FieldReads(f, k, got);
      RestOfLines(f, k);
      var next := ParseLine(got, lines[k]);
      ParseLinesNext(got, lines[k..]);
      hide ParseLines, Sound;
      RestKeeps(f, k + 1, next.value);
      KeptNext(f, k, got, next.value);
    }
  }

  lemma ParseLinesNext(got: Fields, lines: seq<string>)
    requires lines != []
    ensures ParseLines(got, lines)
            == if ParseLine(got, lines[0]).None? then None else ParseLines(ParseLine(got, lines[0]).value, lines[1..])
  {
  }

  lemma KeptNext(f: Fields, k: nat, got: Fields, next: Fields)
    requires k < |f.order| && f.order[k] != ""
    requires next.order == if f.order[k][0] == '#' then got.order else got.order + [Trim(f.order[k])]
    ensures got.order + Kept(f.order[k..]) == next.order + Kept(f.order[k + 1..])
  {
    hide Trim;
    assert f.order[k..][1..] == f.order[k + 1..];
  }

  lemma {:induction false} KeptIsShorter(names: seq<string>)
    ensures |Kept(names)| <= |names|
  {
    if names != [] {
      KeptIsShorter(names[1..]);
    }
  }

  /** All of them are kept as they are only when each survives. */
  lemma {:induction false} KeptAll(names: seq<string>)
    requires Kept(names) == names && forall i :: 0 <= i < |names| ==> names[i] != ""
    ensures forall i :: 0 <= i < |names| ==> Readable(names[i])
  {
    if names != [] {
      KeptIsShorter(names[1..]);
      TrimTightens(names[0]);
      assert names[0][0] != '#';
      assert Kept(names)[1..] == Kept(names[1..]);
      KeptAll(names[1..]);
      forall i | 0 <= i < |names| ensures Readable(names[i]) {
        assert i == 0 || names[i] == names[1..][i - 1];
      }
    }
  }

  lemma BlockReads(f: Fields)
    requires Sound(f) && Writable(f)
    ensures ParseText(Unlines(BlockLines(f))) == ParseLines(NoFields, FieldLines(f, |f.order|))
  {
    hide Trim, ParseLine, SetField, CheckField, Writable, Lines, Unlines, TrimSuffix, Readable, FieldLines;
    var lines, fields := BlockLines(f), FieldLines(f, |f.order|);
    forall i | 0 <= i < |lines| ensures '\n' !in lines[i] {
      if 2 <= i < |lines| - 1 {
        FieldReads(f, i - 2, NoFields);
        assert lines[i] == fields[i - 2];
      }
    }
    LinesOfUnlines(lines);
    var body := lines[1..|lines| - 1];
    assert body == [HEADER_LEAD] + fields;
    assert body[0] == HEADER_LEAD && body[1..] == fields;
    LeadIsSkipped(NoFields);
  }

  lemma LeadIsSkipped(f: Fields)
    ensures ParseLine(f, HEADER_LEAD) == Some(f) && '\n' !in HEADER_LEAD && '\n' !in BRAND && '\n' !in HEADER_END
  {
  }

  /**
   * A block that could be written reads back as itself, in its order, exactly when every name survives. Nothing
   * that refuses a field when it is written asks that of its name.
   */
  lemma HeaderRoundTrip(f: Fields)
    requires Sound(f) && Writable(f)
    ensures Parse(Encode(Unlines(BlockLines(f)))) == Some(f) <==> AllReadable(f)
  {
    hide Trim, ParseLine, ParseText, Encode, Decode, Unlines, CheckField, Writable, FieldLines, Kept;
    DecodeOfEncode(Unlines(BlockLines(f)));
    BlockReads(f);
    if AllReadable(f) {
      ReadsBack(f);
    }
    NothingElseDoes(f);
  }

  lemma ReadsBack(f: Fields)
    requires Sound(f) && Writable(f) && AllReadable(f)
    ensures ParseLines(NoFields, FieldLines(f, |f.order|)) == Some(f)
  {
    hide Trim, Writable, FieldLines, AllReadable, ParseLines;
    assert f.order[..0] == [] && Restricted(f, 0) == map[];
    assert FieldLines(f, |f.order|)[0..] == FieldLines(f, |f.order|);
    RestReads(f, 0, NoFields);
  }

  lemma NothingElseDoes(f: Fields)
    requires Sound(f) && Writable(f)
    ensures ParseLines(NoFields, FieldLines(f, |f.order|)) == Some(f) ==> AllReadable(f)
  {
    hide Trim, CheckField, FieldLines, ParseLines, Kept;
    if ParseLines(NoFields, FieldLines(f, |f.order|)) == Some(f) {
      assert FieldLines(f, |f.order|)[0..] == FieldLines(f, |f.order|);
      RestKeeps(f, 0, NoFields);
      assert f.order[0..] == f.order;
      NamesAreNotEmpty(f);
      KeptAll(f.order);
    }
  }

  lemma NamesAreNotEmpty(f: Fields)
    requires Sound(f) && Writable(f)
    ensures forall i :: 0 <= i < |f.order| ==> f.order[i] != ""
  {
  }

  /** A name that only looks like a comment is written without complaint and lost. */
  lemma CommentsAreLost()
    ensures exists f :: Sound(f) && Writable(f) && Parse(Encode(Unlines(BlockLines(f)))) != Some(f)
  {
    var f := Fields(["#plan"], map["#plan" := "4a"]);
    CommentFits();
    hide Sound, Writable, Parse, Encode, Unlines, Tight;
    HeaderRoundTrip(f);
    assert !Readable(f.order[0]);
  }

  lemma CommentFits()
    ensures var f := Fields(["#plan"], map["#plan" := "4a"]); Sound(f) && Writable(f)
  {
    TrimTightens("4a");
    assert Encode("4a") == [52, 97];
  }
}
