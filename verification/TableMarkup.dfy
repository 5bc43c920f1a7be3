/** The line-by-line pass at the end of `trac2markdown` (migrate.py) that turns
    Trac tables into GitHub tables. A run of lines starting with `||` is a
    table; its first line is followed by a separator row, cell alignment marks
    (`||=`, `=||`) are dropped and every `||` becomes `|`. An indented line (four
    spaces) or any other line ends the run.

    The regular-expression rewriting of links, images, emphasis and ticket
    references that the same loop applies to every non-indented line before
    the table test is not modelled: it is the parameter `rewrite`. */
module TableMarkup {
  import opened Text

  /** Lines indented by four spaces are code and are left alone. */
  predicate Indented(line: string) {
    StartsWith(line, "    ")
  }

  /** A line that belongs to a table: not indented, and starting with `||` once
      rewritten. */
  predicate IsTableLine(line: string, rewrite: string -> string) {
    !Indented(line) && StartsWith(rewrite(line), "||")
  }

  /** Left and right alignment marks of a cell turned into the colons of a
      separator row. */
  function AlignMarks(row: string): string {
    Replace(Replace(row, "||=", "||:"), "=||", ":||")
  }

  /** The characters a separator row keeps; every other becomes `-`. */
  predicate KeptInSeparator(c: char) {
    c == '|' || c == ',' || c == '^' || c == ':'
  }

  /** `re.sub(r'[^|,^:]', '-', s)`. */
  function Dashes(s: string): (r: string)
    ensures |r| == |s|
    ensures forall k :: 0 <= k < |s| ==> r[k] == if KeptInSeparator(s[k]) then s[k] else '-'
  {
    if s == [] then "" else [if KeptInSeparator(s[0]) then s[0] else '-'] + Dashes(s[1..])
  }

  /** The separator row generated for the first row of a table. */
  function SeparatorRow(row: string): string {
    Dashes(AlignMarks(row))
  }

  /** Cell-wise alignment dropped, then every `||` turned into `|`. */
  function CellPipes(s: string): string {
    Replace(Replace(Replace(s, "||=", "||"), "=||", "||"), "||", "|")
  }

  /** What the pass makes of one line, given whether the previous line was
      part of a table. */
  function ConvertLine(line: string, rewrite: string -> string, inTable: bool): string {
    if Indented(line) then line
    else
      var l := rewrite(line);
      if !StartsWith(l, "||") then l
      else if inTable then CellPipes(l)
      else CellPipes(l + "\n" + SeparatorRow(l))
  }

  /** The converted lines: line `i` is in a running table exactly when line
      `i - 1` is a table line. */
  function ConvertLines(lines: seq<string>, rewrite: string -> string): (r: seq<string>)
    ensures |r| == |lines|
  {
    seq(|lines|, i requires 0 <= i < |lines| =>
      ConvertLine(lines[i], rewrite, i > 0 && IsTableLine(lines[i - 1], rewrite)))
  }

  /** The table pass over a whole text, as the loop does it: split into lines,
      convert each while tracking `is_table`, join again. */
  method ConvertTables(text: string, rewrite: string -> string) returns (out: string)
    ensures out == Join(ConvertLines(Split(text, '\n'), rewrite), "\n")
  {
    var lines := Split(text, '\n');
    var a: seq<string> := [];
    var isTable := false;
    ghost var converted := ConvertLines(lines, rewrite);
    for i := 0 to |lines|
      invariant a == converted[..i]
      invariant isTable == (i > 0 && IsTableLine(lines[i - 1], rewrite))
    {
      assert converted[i] == ConvertLine(lines[i], rewrite, isTable);
      var line := lines[i];
      if !StartsWith(line, "    ") {
        line := rewrite(line);
        if StartsWith(line, "||") {
          if !isTable {
            var sep := Replace(line, "||=", "||:");
            sep := Replace(sep, "=||", ":||");
            sep := Dashes(sep);
            line := line + "\n" + sep;
            isTable := true;
          }
          line := Replace(line, "||=", "||");
          line := Replace(line, "=||", "||");
          line := Replace(line, "||", "|");
        } else {
          isTable := false;
        }
      } else {
        isTable := false;
      }
      assert line == converted[i];
      a := a + [line];
    }
    assert a == converted;
    out := Join(a, "\n");
  }

  /** Replacement never reaches across a newline the pattern does not contain. */
  lemma {:induction false} ReplaceAcrossNewline(a: string, b: string, pattern: string, replacement: string)
    requires pattern != [] && '\n' !in pattern
    ensures Replace(a + "\n" + b, pattern, replacement)
            == Replace(a, pattern, replacement) + "\n" + Replace(b, pattern, replacement)
    decreases |a|
  {
    var s := a + "\n" + b;
    var n := |pattern|;
    if |s| < n {
      ReplaceShort(a, pattern, replacement);
      ReplaceShort(b, pattern, replacement);
      ReplaceShort(s, pattern, replacement);
    } else if s[..n] == pattern {
      MatchWithinLine(a, b, pattern);
      ReplaceAcrossNewline(a[n..], b, pattern, replacement);
      MatchAcrossNewline(a, b, pattern, replacement);
    } else if a == [] {
      assert s[1..] == b;
      ReplaceNoMatch(s, pattern, replacement);
      ReplaceShort(a, pattern, replacement);
    } else {
      ReplaceAcrossNewline(a[1..], b, pattern, replacement);
      ShiftAcrossNewline(a, b, pattern, replacement);
    }
  }

  /** A match at the start of `a + "\n" + b` lies within `a`. */
  lemma MatchWithinLine(a: string, b: string, pattern: string)
    requires '\n' !in pattern && |pattern| <= |a + "\n" + b| && (a + "\n" + b)[..|pattern|] == pattern
    ensures |pattern| <= |a| && a[..|pattern|] == pattern
  {
    var s := a + "\n" + b;
    NewlineInLongPrefix(a, b, pattern);
    assert a[..|pattern|] == s[..|pattern|];
  }

  /** A prefix of `a + "\n" + b` longer than `a` holds that newline. */
  lemma NewlineInLongPrefix(a: string, b: string, pattern: string)
    requires |pattern| <= |a + "\n" + b| && (a + "\n" + b)[..|pattern|] == pattern
    ensures |pattern| > |a| ==> '\n' in pattern
  {
    if |pattern| > |a| {
      assert pattern[|a|] == (a + "\n" + b)[|a|];
    }
  }

  /** The step of `ReplaceAcrossNewline` when `a` starts with the pattern. */
  lemma MatchAcrossNewline(a: string, b: string, pattern: string, replacement: string)
    requires pattern != [] && |pattern| <= |a| && a[..|pattern|] == pattern
    requires var rest := a[|pattern|..];
             Replace(rest + "\n" + b, pattern, replacement)
             == Replace(rest, pattern, replacement) + "\n" + Replace(b, pattern, replacement)
    ensures Replace(a + "\n" + b, pattern, replacement)
            == Replace(a, pattern, replacement) + "\n" + Replace(b, pattern, replacement)
  {
    var s := a + "\n" + b;
    assert s[..|pattern|] == pattern;
    assert s[|pattern|..] == a[|pattern|..] + "\n" + b;
    ReplaceMatch(a, pattern, replacement);
    ReplaceMatch(s, pattern, replacement);
  }

  /** The step of `ReplaceAcrossNewline` when `a` is not empty and the text
      does not start with the pattern. */
  lemma ShiftAcrossNewline(a: string, b: string, pattern: string, replacement: string)
    requires pattern != [] && a != [] && |pattern| <= |a + "\n" + b| && (a + "\n" + b)[..|pattern|] != pattern
    requires Replace(a[1..] + "\n" + b, pattern, replacement)
             == Replace(a[1..], pattern, replacement) + "\n" + Replace(b, pattern, replacement)
    ensures Replace(a + "\n" + b, pattern, replacement)
            == Replace(a, pattern, replacement) + "\n" + Replace(b, pattern, replacement)
  {
    ShiftFront(a, b, pattern, replacement);
    FirstCharKept(a, a + "\n" + b, pattern, replacement);
    ConsLines([a[0]], Replace(a[1..], pattern, replacement), Replace(b, pattern, replacement));
  }

  /** Without a match at the front, the first character is kept. */
  lemma ShiftFront(a: string, b: string, pattern: string, replacement: string)
    requires pattern != [] && a != [] && |pattern| <= |a + "\n" + b| && (a + "\n" + b)[..|pattern|] != pattern
    ensures Replace(a + "\n" + b, pattern, replacement) == [a[0]] + Replace(a[1..] + "\n" + b, pattern, replacement)
  {
    var s := a + "\n" + b;
    assert s[1..] == a[1..] + "\n" + b;
    ReplaceNoMatch(s, pattern, replacement);
  }

  /** A line that does not start the way `s` does not start with the pattern
      either, and keeps its first character. */
  lemma FirstCharKept(a: string, s: string, pattern: string, replacement: string)
    requires pattern != [] && a != [] && |pattern| <= |s| && s[..|pattern|] != pattern
    requires |pattern| <= |a| ==> a[..|pattern|] == s[..|pattern|]
    ensures Replace(a, pattern, replacement) == [a[0]] + Replace(a[1..], pattern, replacement)
  {
    if |a| < |pattern| {
      ReplaceShort(a[1..], pattern, replacement);
      ReplaceShort(a, pattern, replacement);
      assert [a[0]] + a[1..] == a;
    } else {
      ReplaceNoMatch(a, pattern, replacement);
    }
  }

  lemma ConsLines(x: string, y: string, z: string)
    ensures x + (y + "\n" + z) == x + y + "\n" + z
  {
  }

  lemma ReplaceShort(s: string, pattern: string, replacement: string)
    requires pattern != [] && |s| < |pattern|
    ensures Replace(s, pattern, replacement) == s
  {
  }

  lemma ReplaceMatch(s: string, pattern: string, replacement: string)
    requires pattern != [] && |pattern| <= |s| && s[..|pattern|] == pattern
    ensures Replace(s, pattern, replacement) == replacement + Replace(s[|pattern|..], pattern, replacement)
  {
  }

  lemma ReplaceNoMatch(s: string, pattern: string, replacement: string)
    requires pattern != [] && |pattern| <= |s| && s[..|pattern|] != pattern
    ensures Replace(s, pattern, replacement) == [s[0]] + Replace(s[1..], pattern, replacement)
  {
  }

  /** Replacing in a string without newlines by a replacement without newlines
      gives a string without newlines. */
  lemma {:induction false} ReplaceKeepsNoNewline(s: string, pattern: string, replacement: string)
    requires pattern != [] && '\n' !in s && '\n' !in replacement
    ensures '\n' !in Replace(s, pattern, replacement)
    decreases |s|
  {
    if |s| >= |pattern| {
      if s[..|pattern|] == pattern {
        ReplaceKeepsNoNewline(s[|pattern|..], pattern, replacement);
      } else {
        ReplaceKeepsNoNewline(s[1..], pattern, replacement);
      }
    }
  }

  lemma CellPipesAcrossNewline(a: string, b: string)
    ensures CellPipes(a + "\n" + b) == CellPipes(a) + "\n" + CellPipes(b)
  {
    ReplaceAcrossNewline(a, b, "||=", "||");
    ReplaceAcrossNewline(Replace(a, "||=", "||"), Replace(b, "||=", "||"), "=||", "||");
    ReplaceAcrossNewline(Replace(Replace(a, "||=", "||"), "=||", "||"),
                         Replace(Replace(b, "||=", "||"), "=||", "||"), "||", "|");
  }

  lemma CellPipesNoNewline(s: string)
    requires '\n' !in s
    ensures '\n' !in CellPipes(s)
  {
    ReplaceKeepsNoNewline(s, "||=", "||");
    ReplaceKeepsNoNewline(Replace(s, "||=", "||"), "=||", "||");
    ReplaceKeepsNoNewline(Replace(Replace(s, "||=", "||"), "=||", "||"), "||", "|");
  }

  /** A separator row only holds the kept characters and dashes, and has a pipe
      exactly where the alignment-marked row has one. */
  lemma SeparatorRowShape(row: string)
    ensures var sep := SeparatorRow(row);
            |sep| == |AlignMarks(row)|
            && (forall k :: 0 <= k < |sep| ==> KeptInSeparator(sep[k]) || sep[k] == '-')
            && (forall k :: 0 <= k < |sep| ==> (sep[k] == '|' <==> AlignMarks(row)[k] == '|'))
  {
  }

  /** The first line of a table run becomes two lines: the row with its cells
      piped, and the piped separator row. */
  lemma FirstRowGetsSeparator(lines: seq<string>, rewrite: string -> string, i: nat)
    requires i < |lines| && IsTableLine(lines[i], rewrite)
    requires i == 0 || !IsTableLine(lines[i - 1], rewrite)
    requires '\n' !in rewrite(lines[i])
    ensures var l := rewrite(lines[i]);
            Split(ConvertLines(lines, rewrite)[i], '\n') == [CellPipes(l), CellPipes(SeparatorRow(l))]
  {
    var l := rewrite(lines[i]);
    var sep := SeparatorRow(l);
    assert '\n' !in sep by {
      assert forall k :: 0 <= k < |sep| ==> KeptInSeparator(sep[k]) || sep[k] == '-';
    }
    CellPipesAcrossNewline(l, sep);
    CellPipesNoNewline(l);
    CellPipesNoNewline(sep);
    SplitJoin([CellPipes(l), CellPipes(sep)], '\n');
    assert Join([CellPipes(l), CellPipes(sep)], "\n") == CellPipes(l) + "\n" + CellPipes(sep);
  }

  /** Later lines of a run get no separator row: they stay one line. */
  lemma LaterRowHasNoSeparator(lines: seq<string>, rewrite: string -> string, i: nat)
    requires 0 < i < |lines| && IsTableLine(lines[i], rewrite) && IsTableLine(lines[i - 1], rewrite)
    requires '\n' !in rewrite(lines[i])
    ensures ConvertLines(lines, rewrite)[i] == CellPipes(rewrite(lines[i]))
    ensures Split(ConvertLines(lines, rewrite)[i], '\n') == [CellPipes(rewrite(lines[i]))]
  {
    CellPipesNoNewline(rewrite(lines[i]));
    SplitPiece(CellPipes(rewrite(lines[i])), '\n');
  }

  /** Lines outside tables are only rewritten (or, when indented, kept). */
  lemma NonTableLineUntouched(lines: seq<string>, rewrite: string -> string, i: nat)
    requires i < |lines| && !IsTableLine(lines[i], rewrite)
    ensures ConvertLines(lines, rewrite)[i] == if Indented(lines[i]) then lines[i] else rewrite(lines[i])
  {
  }
}
