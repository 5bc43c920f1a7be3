/** The pure helpers of migrate.py: ticket types to GitHub labels, Trac user
    names to GitHub handles, and the quoting of changeset comments and svn
    revision references. */
module TicketMapping {
  import opened Outcomes
  import opened Text
  import opened SvnGitMap

  /** `maptickettype`: Trac's ticket types to the labels GitHub uses. */
  function MapTicketType(ticketType: string): (tag: string)
    ensures ticketType == "defect" ==> tag == "bug"
    ensures ticketType == "clarification" ==> tag == "question"
    ensures ticketType == "task" ==> tag == "enhancement"
    ensures ticketType !in {"defect", "clarification", "task"} ==> tag == ticketType
  {
    if ticketType == "defect" then "bug"
    else if ticketType == "clarification" then "question"
    else if ticketType == "task" then "enhancement"
    else ticketType
  }

  /** Mapping a type twice maps it once: the labels are not themselves Trac types
      that would be renamed again. */
  lemma MapTicketTypeIdempotent(ticketType: string)
    ensures MapTicketType(MapTicketType(ticketType)) == MapTicketType(ticketType)
  {
  }

  /** Two types share a label only when one of them is the label itself. */
  lemma MapTicketTypeMerges(a: string, b: string)
    requires a != b && MapTicketType(a) == MapTicketType(b)
    ensures a == MapTicketType(a) || b == MapTicketType(b)
  {
  }

  /** True when `gh_username` finds no GitHub handle for `name`: it neither
      carries the `gh-` prefix nor has a non-empty entry in the user map. This is
      the case in which the name is recorded in `unmapped_users`. */
  predicate IsUnmapped(users: map<string, string>, name: string) {
    !StartsWith(name, "gh-") && !(name in users && users[name] != "")
  }

  /** `gh_username`: `gh-x` becomes `@x`, a name with a non-empty mapping
      becomes `@` and the mapped name, and any other name is kept as it is;
      an unmapped name that already starts with `@` fails the assertion. */
  function GhUsername(users: map<string, string>, name: string): (r: Result<string, Exception>)
    ensures r.Err? <==> IsUnmapped(users, name) && StartsWith(name, "@")
    ensures r.Ok? ==> (StartsWith(r.value, "@") <==> !IsUnmapped(users, name))
    ensures r.Ok? && IsUnmapped(users, name) ==> r.value == name
    ensures StartsWith(name, "gh-") ==> r == Ok("@" + name[3..])
    ensures !StartsWith(name, "gh-") && name in users && users[name] != "" ==> r == Ok("@" + users[name])
  {
    if StartsWith(name, "gh-") then Ok("@" + name[3..])
    else if name in users && users[name] != "" then Ok("@" + users[name])
    else if StartsWith(name, "@") then Err(AssertionError("unmapped user name starts with @"))
    else Ok(name)
  }

  /** The text that stands for changeset `rev` in a quoted commit message: the
      first ten characters of its git hash when the map knows it, otherwise
      `changeset` and the revision. */
  function ChangesetHeader(svnMap: Option<map<string, SvnEntry>>, rev: string): string {
    if svnMap.Some? && rev in svnMap.value then "In " + Prefix(svnMap.value[rev].gitHash, 10)
    else "In changeset " + rev
  }

  /** The body of a commit message with every line quoted by `> `. */
  function Quote(body: string): string {
    "> " + Replace(body, "\n", "\n> ")
  }

  /** `format_changeset_comment`, given the revision (group 1) and the commit
      message (group 3) the pattern matched. */
  function FormatChangesetComment(svnMap: Option<map<string, SvnEntry>>, rev: string, body: string): string {
    ChangesetHeader(svnMap, rev) + ":\n" + Quote(body)
  }

  function QuoteLines(lines: seq<string>): (r: seq<string>)
    ensures |r| == |lines| && forall k :: 0 <= k < |lines| ==> r[k] == "> " + lines[k]
  {
    seq(|lines|, k requires 0 <= k < |lines| => "> " + lines[k])
  }

  /** One step of `replace('\n', '\n> ')`. */
  lemma QuoteStep(body: string)
    requires body != []
    ensures Replace(body, "\n", "\n> ")
            == (if body[0] == '\n' then "\n> " else [body[0]]) + Replace(body[1..], "\n", "\n> ")
  {
    assert body[..1] == [body[0]];
  }

  /** Quoting a message prefixes each of its lines, and only those, with `> `;
      `prefix` is what stands before the first line. */
  lemma {:induction false} QuoteSplit(prefix: string, body: string)
    requires '\n' !in prefix
    ensures var lines := Split(body, '\n');
            Split(prefix + Replace(body, "\n", "\n> "), '\n') == [prefix + lines[0]] + QuoteLines(lines[1..])
    decreases |body|
  {
    if body == [] {
      SplitPiece(prefix, '\n');
      assert prefix + Replace(body, "\n", "\n> ") == prefix;
      assert Split(body, '\n') == [""];
      assert prefix + "" == prefix;
    } else {
      QuoteStep(body);
      if body[0] == '\n' {
        QuoteSplit("> ", body[1..]);
        QuoteSplitNewline(prefix, body);
      } else {
        QuoteSplit(prefix + [body[0]], body[1..]);
        QuoteSplitOther(prefix, body);
      }
    }
  }

  lemma QuoteSplitNewline(prefix: string, body: string)
    requires '\n' !in prefix && body != [] && body[0] == '\n'
    requires Replace(body, "\n", "\n> ") == "\n> " + Replace(body[1..], "\n", "\n> ")
    requires var rest := Split(body[1..], '\n');
             Split("> " + Replace(body[1..], "\n", "\n> "), '\n') == ["> " + rest[0]] + QuoteLines(rest[1..])
    ensures var lines := Split(body, '\n');
            Split(prefix + Replace(body, "\n", "\n> "), '\n') == [prefix + lines[0]] + QuoteLines(lines[1..])
  {
    var tail := "> " + Replace(body[1..], "\n", "\n> ");
    var rest := Split(body[1..], '\n');
    var lines := Split(body, '\n');
    NewlineQuoted(prefix, Replace(body[1..], "\n", "\n> "));
    SplitPrefix(prefix, tail, '\n');
    QuoteLinesFirst(rest);
    assert lines[0] == "" && lines[1..] == rest by {
      assert lines == [""] + rest;
    }
    assert prefix + "" == prefix;
  }

  lemma NewlineQuoted(prefix: string, r: string)
    ensures prefix + ("\n> " + r) == prefix + ['\n'] + ("> " + r)
  {
  }

  lemma QuoteLinesFirst(lines: seq<string>)
    requires lines != []
    ensures QuoteLines(lines) == ["> " + lines[0]] + QuoteLines(lines[1..])
  {
  }

  lemma ConcatAssoc(a: string, b: string, c: string)
    ensures a + (b + c) == (a + b) + c
  {
  }

  lemma QuoteSplitOther(prefix: string, body: string)
    requires '\n' !in prefix && body != [] && body[0] != '\n'
    requires Replace(body, "\n", "\n> ") == [body[0]] + Replace(body[1..], "\n", "\n> ")
    requires var rest := Split(body[1..], '\n');
             Split((prefix + [body[0]]) + Replace(body[1..], "\n", "\n> "), '\n')
             == [(prefix + [body[0]]) + rest[0]] + QuoteLines(rest[1..])
    ensures var lines := Split(body, '\n');
            Split(prefix + Replace(body, "\n", "\n> "), '\n') == [prefix + lines[0]] + QuoteLines(lines[1..])
  {
    var rest := Split(body[1..], '\n');
    var lines := Split(body, '\n');
    var x := prefix + Replace(body, "\n", "\n> ");
    var y := (prefix + [body[0]]) + Replace(body[1..], "\n", "\n> ");
    ConcatAssoc(prefix, [body[0]], Replace(body[1..], "\n", "\n> "));
    assert x == y;
    assert lines == [[body[0]] + rest[0]] + rest[1..];
    ConcatAssoc(prefix, [body[0]], rest[0]);
    assert lines[1..] == rest[1..];
  }

  /** A formatted changeset comment is the header line followed by every line
      of the commit message, quoted. */
  lemma FormatChangesetCommentLines(svnMap: Option<map<string, SvnEntry>>, rev: string, body: string)
    requires '\n' !in rev
    requires svnMap.Some? && rev in svnMap.value ==> '\n' !in svnMap.value[rev].gitHash
    ensures Split(FormatChangesetComment(svnMap, rev, body), '\n')
            == [ChangesetHeader(svnMap, rev) + ":"] + QuoteLines(Split(body, '\n'))
  {
    var header := ChangesetHeader(svnMap, rev);
    ChangesetHeaderOneLine(svnMap, rev);
    QuoteSplit("> ", body);
    QuoteLinesFirst(Split(body, '\n'));
    ColonNewline(header, Quote(body));
    SplitPrefix(header + ":", Quote(body), '\n');
  }

  lemma ChangesetHeaderOneLine(svnMap: Option<map<string, SvnEntry>>, rev: string)
    requires '\n' !in rev
    requires svnMap.Some? && rev in svnMap.value ==> '\n' !in svnMap.value[rev].gitHash
    ensures '\n' !in ChangesetHeader(svnMap, rev) + ":"
  {
    if svnMap.Some? && rev in svnMap.value {
      var h := Prefix(svnMap.value[rev].gitHash, 10);
      assert forall k :: 0 <= k < |h| ==> h[k] == svnMap.value[rev].gitHash[k];
    }
  }

  lemma ColonNewline(header: string, rest: string)
    ensures header + ":\n" + rest == (header + ":") + ['\n'] + rest
  {
  }

  /** `handle_svnrev_reference`: a revision the map knows becomes the first ten
      characters of its git hash; any other match is left as it was. The source
      only calls it when a map was loaded. */
  function HandleSvnrevReference(svnMap: map<string, SvnEntry>, rev: string, matched: string): (r: string)
    ensures rev in svnMap ==> |r| <= 10 && StartsWith(svnMap[rev].gitHash, r)
    ensures rev in svnMap && |svnMap[rev].gitHash| >= 10 ==> |r| == 10
    ensures rev in svnMap && |svnMap[rev].gitHash| < 10 ==> r == svnMap[rev].gitHash
    ensures rev !in svnMap ==> r == matched
  {
    if rev in svnMap then Prefix(svnMap[rev].gitHash, 10) else matched
  }
}
