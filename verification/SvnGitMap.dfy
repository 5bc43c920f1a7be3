/** The svn-to-git revision map of migrate.py, read from a file whose lines hold
    a git hash, an svn revision prefixed by one character (`r1234`) and
    optionally the svn branch. A revision seen on trunk keeps its trunk entry;
    a revision seen only on other branches takes the entry of its last line. */
module SvnGitMap {
  import opened Outcomes
  import opened Text

  datatype SvnEntry = SvnEntry(gitHash: string, branch: string)

  /** What one line of the map file contributes: the revision key and its
      entry, or nothing for a line with at most one token. */
  function LineEntry(line: string): (r: Option<(string, SvnEntry)>)
    ensures r.None? <==> |Words(line)| <= 1
    ensures r.Some? ==> r.value.1.gitHash == Words(line)[0] && r.value.0 == Words(line)[1][1..]
    ensures r.Some? ==> (r.value.1.branch == "trunk" <==> |Words(line)| == 2 || Words(line)[2] == "trunk")
  {
    var tokens := Words(line);
    if |tokens| <= 1 then None
    else Some((tokens[1][1..], SvnEntry(tokens[0], if |tokens| > 2 then tokens[2] else "trunk")))
  }

  /** One pass of the loop body: an existing trunk entry is kept, anything else
      is (over)written. */
  function AddLine(m: map<string, SvnEntry>, line: string): map<string, SvnEntry> {
    match LineEntry(line)
    case None => m
    case Some((rev, entry)) =>
      if rev in m && m[rev].branch == "trunk" then m else m[rev := entry]
  }

  /** The map after reading `lines` in order. */
  function MapOf(lines: seq<string>): map<string, SvnEntry> {
    if lines == [] then map[] else AddLine(MapOf(lines[..|lines| - 1]), lines[|lines| - 1])
  }

  /** Reads the map file line by line, as the script does at start-up. */
  method BuildSvnGitMap(lines: seq<string>) returns (m: map<string, SvnEntry>)
    ensures m == MapOf(lines)
  {
    m := map[];
    for i := 0 to |lines|
      invariant m == MapOf(lines[..i])
    {
      assert MapOf(lines[..i + 1]) == AddLine(m, lines[i]) by {
        assert lines[..i + 1][..i] == lines[..i];
      }
      var tokens := Words(lines[i]);
      if |tokens| <= 1 {
        continue;
      }
      var gitHash := tokens[0];
      var rev := tokens[1][1..];
      var branch := if |tokens| > 2 then tokens[2] else "trunk";
      assert LineEntry(lines[i]) == Some((rev, SvnEntry(gitHash, branch)));
      if rev in m && m[rev].branch == "trunk" {
        continue;
      }
      m := m[rev := SvnEntry(gitHash, branch)];
    }
    assert lines[..|lines|] == lines;
  }

  /** The entry of the first line for `rev` that is on trunk, if there is one. */
  function FirstTrunk(lines: seq<string>, rev: string): Option<SvnEntry> {
    if lines == [] then None
    else
      var e := LineEntry(lines[0]);
      if e.Some? && e.value.0 == rev && e.value.1.branch == "trunk" then Some(e.value.1)
      else FirstTrunk(lines[1..], rev)
  }

  /** The entry of the last line for `rev`, if there is one. */
  function LastEntry(lines: seq<string>, rev: string): Option<SvnEntry> {
    if lines == [] then None
    else
      var e := LineEntry(lines[|lines| - 1]);
      if e.Some? && e.value.0 == rev then Some(e.value.1)
      else LastEntry(lines[..|lines| - 1], rev)
  }

  function Lookup(m: map<string, SvnEntry>, rev: string): Option<SvnEntry> {
    if rev in m then Some(m[rev]) else None
  }

  lemma {:induction false} FirstTrunkAppend(lines: seq<string>, line: string, rev: string)
    ensures FirstTrunk(lines + [line], rev)
            == if FirstTrunk(lines, rev).Some? then FirstTrunk(lines, rev) else FirstTrunk([line], rev)
  {
    if lines != [] {
      assert (lines + [line])[1..] == lines[1..] + [line];
      FirstTrunkAppend(lines[1..], line, rev);
    }
  }

  /** The map holds, for each revision, the entry of its first trunk line, or
      failing that the entry of its last line; and it holds no other keys. */
  lemma {:induction false} MapOfLookup(lines: seq<string>, rev: string)
    ensures Lookup(MapOf(lines), rev)
            == if FirstTrunk(lines, rev).Some? then FirstTrunk(lines, rev) else LastEntry(lines, rev)
  {
    if lines != [] {
      var init, last := lines[..|lines| - 1], lines[|lines| - 1];
      MapOfLookup(init, rev);
      assert lines == init + [last];
      FirstTrunkAppend(init, last, rev);
      FirstTrunkIsTrunk(init, rev);
      if FirstTrunk(init, rev).None? {
        LastEntryNotTrunk(init, rev);
      }
      AddLineLookup(MapOf(init), last, rev);
    }
  }

  /** How one line changes the entry for `rev`. */
  lemma AddLineLookup(m: map<string, SvnEntry>, line: string, rev: string)
    ensures var e := LineEntry(line);
            Lookup(AddLine(m, line), rev)
            == if e.None? || e.value.0 != rev then Lookup(m, rev)
               else if rev in m && m[rev].branch == "trunk" then Some(m[rev])
               else Some(e.value.1)
  {
  }

  lemma {:induction false} FirstTrunkIsTrunk(lines: seq<string>, rev: string)
    ensures FirstTrunk(lines, rev).Some? ==> FirstTrunk(lines, rev).value.branch == "trunk"
  {
    if lines != [] {
      FirstTrunkIsTrunk(lines[1..], rev);
    }
  }

  /** Without a trunk line, the last line for a revision is not on trunk. */
  lemma {:induction false} LastEntryNotTrunk(lines: seq<string>, rev: string)
    requires FirstTrunk(lines, rev).None?
    ensures LastEntry(lines, rev).Some? ==> LastEntry(lines, rev).value.branch != "trunk"
  {
    if lines != [] {
      var init, last := lines[..|lines| - 1], lines[|lines| - 1];
      assert lines == init + [last];
      FirstTrunkAppend(init, last, rev);
      LastEntryNotTrunk(init, rev);
    }
  }

  /** A trunk entry, once in the map, survives every later line. */
  lemma {:induction false} TrunkEntryKept(lines: seq<string>, more: seq<string>, rev: string)
    requires rev in MapOf(lines) && MapOf(lines)[rev].branch == "trunk"
    ensures rev in MapOf(lines + more) && MapOf(lines + more)[rev] == MapOf(lines)[rev]
    decreases |more|
  {
    if more != [] {
      var init := more[..|more| - 1];
      assert lines + more == (lines + init) + [more[|more| - 1]];
      TrunkEntryKept(lines, init, rev);
    } else {
      assert lines + more == lines;
    }
  }

  /** A line for a revision without a trunk entry overwrites what was there. */
  lemma LaterLineOverwrites(lines: seq<string>, line: string)
    requires LineEntry(line).Some?
    requires var rev := LineEntry(line).value.0;
             !(rev in MapOf(lines) && MapOf(lines)[rev].branch == "trunk")
    ensures var (rev, entry) := LineEntry(line).value;
            rev in MapOf(lines + [line]) && MapOf(lines + [line])[rev] == entry
  {
    assert (lines + [line])[..|lines|] == lines;
  }

  /** Lines with fewer than two tokens leave the map unchanged. */
  lemma ShortLineSkipped(lines: seq<string>, line: string)
    requires |Words(line)| <= 1
    ensures MapOf(lines + [line]) == MapOf(lines)
  {
    assert (lines + [line])[..|lines|] == lines;
  }
}
