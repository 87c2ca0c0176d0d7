/** The text of a block: trimming, lines and cutting at a colon, with what undoes each. */
module GpfText {
  import opened Basics

  /** The space characters of Unicode. */
  predicate Space(c: char) {
    var r := c as int;
    9 <= r <= 13 || r == 32 || r == 0x85 || r == 0xA0 || r == 0x1680 || 0x2000 <= r <= 0x200A
    || r == 0x2028 || r == 0x2029 || r == 0x202F || r == 0x205F || r == 0x3000
  }

  function TrimLeft(s: string): string {
    if s != "" && Space(s[0]) then TrimLeft(s[1..]) else s
  }

  function TrimRight(s: string): string {
    if s != "" && Space(s[|s| - 1]) then TrimRight(s[..|s| - 1]) else s
  }

  function Trim(s: string): string {
    TrimRight(TrimLeft(s))
  }

  function Spaces(n: nat): string {
    seq(n, i => ' ')
  }

  /** `strings.Split` at line breaks. */
  function Lines(s: string): (lines: seq<string>)
    ensures lines != []
  {
    if s == "" then [""]
    else
      var rest := Lines(s[1..]);
      if s[0] == '\n' then [""] + rest else [[s[0]] + rest[0]] + rest[1..]
  }

  /** Each line closed by a line break. */
  function Unlines(lines: seq<string>): string {
    if lines == [] then "" else lines[0] + "\n" + Unlines(lines[1..])
  }

  function TrimSuffix(s: string): string {
    if s != "" && s[|s| - 1] == '\n' then s[..|s| - 1] else s
  }

  /** Around the first colon, if there is one. */
  function Cut(s: string): Option<(string, string)> {
    if s == "" then None
    else if s[0] == ':' then Some(("", s[1..]))
    else
      var rest := Cut(s[1..]);
      if rest.None? then None else Some(([s[0]] + rest.value.0, rest.value.1))
  }

  predicate Contains(s: string, any: string) {
    exists i :: 0 <= i < |s| && s[i] in any
  }

  // --------------------------------------------------------------- trimming

  /** No outer spaces. */
  predicate Tight(s: string) {
    s == "" || (!Space(s[0]) && !Space(s[|s| - 1]))
  }

  lemma {:induction false} TrimLeftSuffix(s: string)
    ensures TrimLeft(s) == "" || !Space(TrimLeft(s)[0])
    ensures |TrimLeft(s)| <= |s| && TrimLeft(s) == s[|s| - |TrimLeft(s)|..]
    ensures forall i :: 0 <= i < |s| - |TrimLeft(s)| ==> Space(s[i])
  {
    if s != "" && Space(s[0]) {
      TrimLeftSuffix(s[1..]);
    }
  }

  lemma {:induction false} TrimRightPrefix(s: string)
    ensures TrimRight(s) == "" || !Space(TrimRight(s)[|TrimRight(s)| - 1])
    ensures |TrimRight(s)| <= |s| && TrimRight(s) == s[..|TrimRight(s)|]
    ensures forall i :: |TrimRight(s)| <= i < |s| ==> Space(s[i])
  {
    if s != "" && Space(s[|s| - 1]) {
      TrimRightPrefix(s[..|s| - 1]);
    }
  }

  /** Trimming leaves a text with no outer spaces, and leaves such a text alone. */
  lemma TrimTightens(s: string)
    ensures Tight(Trim(s))
    ensures Trim(s) == s <==> Tight(s)
  {
    TrimLeftSuffix(s);
    TrimRightPrefix(TrimLeft(s));
  }

  /** Only blanks trim to nothing. */
  lemma NotBlank(s: string, i: nat)
    requires i < |s| && !Space(s[i])
    ensures Trim(s) != ""
  {
    TrimLeftSuffix(s);
    TrimRightPrefix(TrimLeft(s));
  }

  lemma {:induction false} TrimPadding(n: nat, s: string)
    requires Tight(s)
    ensures Trim(Spaces(n) + s) == s
  {
    if n == 0 {
      assert Spaces(0) + s == s;
      TrimTightens(s);
    } else {
      assert (Spaces(n) + s)[1..] == Spaces(n - 1) + s;
      TrimPadding(n - 1, s);
    }
  }

  // ------------------------------------------------------- lines and colons

  lemma {:induction false} OneLine(line: string)
    requires '\n' !in line
    ensures Lines(line) == [line]
  {
    if line != "" {
      OneLine(line[1..]);
      assert [line[0]] + line[1..] == line;
    }
  }

  lemma {:induction false} FirstLine(line: string, rest: string)
    requires '\n' !in line
    ensures Lines(line + "\n" + rest) == [line] + Lines(rest)
  {
    var s := line + "\n" + rest;
    if line == "" {
      assert s[1..] == rest;
    } else {
      assert s[1..] == line[1..] + "\n" + rest;
      FirstLine(line[1..], rest);
      assert [line[0]] + line[1..] == line;
    }
  }

  /** Splitting what was joined gives the lines back. */
  lemma {:induction false} LinesOfUnlines(lines: seq<string>)
    requires lines != [] && forall i :: 0 <= i < |lines| ==> '\n' !in lines[i]
    ensures Lines(TrimSuffix(Unlines(lines))) == lines
    ensures Unlines(lines) != "" && Unlines(lines)[|Unlines(lines)| - 1] == '\n'
  {
    var line, rest := lines[0], lines[1..];
    if rest == [] {
      assert Unlines(lines) == line + "\n" + "";
      assert TrimSuffix(Unlines(lines)) == line;
      OneLine(line);
    } else {
      LinesOfUnlines(rest);
      assert TrimSuffix(Unlines(lines)) == line + "\n" + TrimSuffix(Unlines(rest));
      FirstLine(line, TrimSuffix(Unlines(rest)));
    }
  }

  lemma {:induction false} UnlinesOneMore(lines: seq<string>, line: string)
    ensures Unlines(lines + [line]) == Unlines(lines) + line + "\n"
  {
    if lines == [] {
      assert [line][1..] == [];
    } else {
      assert (lines + [line])[1..] == lines[1..] + [line];
      UnlinesOneMore(lines[1..], line);
    }
  }

  lemma {:induction false} CutAtFirstColon(name: string, rest: string)
    requires ':' !in name
    ensures Cut(name + ":" + rest) == Some((name, rest))
  {
    var s := name + ":" + rest;
    if name == "" {
      assert s[1..] == rest;
    } else {
      assert s[1..] == name[1..] + ":" + rest;
      CutAtFirstColon(name[1..], rest);
      assert [name[0]] + name[1..] == name;
    }
  }

  lemma {:induction false} NoColonNoCut(s: string)
    requires ':' !in s
    ensures Cut(s) == None
  {
    if s != "" {
      NoColonNoCut(s[1..]);
    }
  }

  lemma ContainsAny(s: string, any: string)
    ensures Contains(s, any) <==> exists c :: c in s && c in any
  {
  }

  lemma BlankTrims()
    ensures Trim("") == ""
  {
  }
}
