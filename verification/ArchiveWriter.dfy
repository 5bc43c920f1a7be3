/** The migration-archive writer of migration_archive_writer.py: a stand-in for
    the GitHub REST API that answers each request with the JSON record GitHub's
    migration-archive format wants, numbers issues, comments and events itself,
    collects the records in batches per record type, writes each full batch
    (100 records) to a numbered file `<types>_<nnnnnn>.json`, and optionally
    renders every issue and its comments into a per-issue wiki page.

    JSON values are the datatype `Json`; the file system is the two logs
    `archiveFiles` (file name and the records dumped into it) and `wikiFiles`
    (page, write or append, and what is written besides the JSON dump).
    `urllib.parse.quote` and the path part of `urlparse` are parameters. */
module ArchiveWriter {
  import opened Outcomes
  import opened Text

  /** `pluralize`: the plural of a record type, used in archive file names. */
  function Pluralize(t: string): (r: string)
    ensures EndsWith(r, "s")
    ensures EndsWith(t, "y") ==> |r| == |t| + 2 && r[..|t| - 1] == t[..|t| - 1] && EndsWith(r, "ies")
    ensures !EndsWith(t, "y") ==> |r| == |t| + 1 && r[..|t|] == t
  {
    if EndsWith(t, "y") then t[..|t| - 1] + "ies" else t + "s"
  }

  /** Types that do not end in "ie" have distinct plurals. ("study" and
      "studie" would share one.) */
  lemma PluralizeInjective(a: string, b: string)
    requires !EndsWith(a, "ie") && !EndsWith(b, "ie")
    requires Pluralize(a) == Pluralize(b)
    ensures a == b
  {
    var p := Pluralize(a);
    if EndsWith(a, "y") && EndsWith(b, "y") {
      assert a == a[..|a| - 1] + "y";
      assert b == b[..|b| - 1] + "y";
    } else if EndsWith(a, "y") {
      assert b == p[..|b|];
      assert EndsWith(b, "ie");
    } else if EndsWith(b, "y") {
      assert a == p[..|a|];
      assert EndsWith(a, "ie");
    }
  }

  /** The part of an archive file name after the plural type. */
  function FileSuffix(id: nat): string {
    "_" + ZeroPad(id, 6) + ".json"
  }

  /** The name of the `id`-th archive file of record type `t`. */
  function FileName(t: string, id: nat): (r: string)
    ensures StartsWith(r, Pluralize(t) + "_") && EndsWith(r, ".json")
  {
    Pluralize(t) + FileSuffix(id)
  }

  /** File names are one-to-one as long as types do not end in "ie" and there
      are fewer than a million files of a type. */
  lemma FileNameInjective(t1: string, i1: nat, t2: string, i2: nat)
    requires !EndsWith(t1, "ie") && !EndsWith(t2, "ie")
    requires i1 < 1000000 && i2 < 1000000
    ensures FileName(t1, i1) == FileName(t2, i2) ==> t1 == t2 && i1 == i2
  {
    if FileName(t1, i1) == FileName(t2, i2) {
      assert Pow10(6) == 1000000;
      ZeroPadWidth(i1, 6);
      ZeroPadWidth(i2, 6);
      var z1, z2 := ZeroPad(i1, 6), ZeroPad(i2, 6);
      ConcatSameLength(Pluralize(t1), FileSuffix(i1), Pluralize(t2), FileSuffix(i2));
      ConcatSameLength("_" + z1, ".json", "_" + z2, ".json");
      assert z1 == ("_" + z1)[1..];
      assert z2 == ("_" + z2)[1..];
      PluralizeInjective(t1, t2);
      ZeroPadInjective(i1, i2, 6);
    }
  }

  /** The wiki directory of issue `n`: one per thousand issues, numbered with
      floor division and padded to two characters. */
  function WikiDir(n: int): string {
    "Issues-" + FormatPadded(n / 1000, 2) + "xxx"
  }

  /** `issue_wiki_file`: the page of the issue written as `issue` in the
      request (`int(issue)` fails on anything but an integer). */
  function IssueWikiFile(issue: string): (r: Result<string, Exception>)
    ensures r.Err? <==> ParseInt(issue).None?
    ensures r.Ok? ==> EndsWith(r.value, "/" + issue + ".md")
  {
    match ParseInt(issue)
    case None => Err(ValueError("invalid literal for int()"))
    case Some(n) =>
      var page := "/" + issue + ".md";
      EndsWithConcat(WikiDir(n), page);
      Ok(WikiDir(n) + page)
  }

  /** Two issues share a wiki directory exactly when they are in the same
      thousand. */
  lemma WikiDirSameThousand(a: int, b: int)
    ensures WikiDir(a) == WikiDir(b) <==> a / 1000 == b / 1000
  {
    if WikiDir(a) == WikiDir(b) {
      var fa, fb := FormatPadded(a / 1000, 2), FormatPadded(b / 1000, 2);
      assert |fa| == |fb|;
      assert fa == WikiDir(a)[7..7 + |fa|] == WikiDir(b)[7..7 + |fb|] == fb;
      FormatPaddedInjective(a / 1000, b / 1000, 2);
    }
  }

  /** The page written when issue `n` is created is the page its comments and
      events are appended to when the request names the issue as `str(n)`. */
  lemma IssueWikiFileOfNumber(n: int)
    ensures IssueWikiFile(IntToString(n)) == Ok(WikiDir(n) + ("/" + IntToString(n) + ".md"))
  {
    ParseIntOfString(n);
  }

  /** A JSON value (numbers other than integers are not modelled). */
  datatype Json =
    | JNull
    | JBool(b: bool)
    | JInt(i: int)
    | JStr(s: string)
    | JList(items: seq<Json>)
    | JObject(fields: map<string, Json>)

  type Record = map<string, Json>

  /** `int(x)` on a JSON value: booleans are 0 and 1, strings are parsed. */
  function PyInt(j: Json): (r: Result<int, Exception>)
    ensures j.JInt? ==> r == Ok(j.i)
    ensures j.JBool? ==> r == Ok(if j.b then 1 else 0)
    ensures j.JStr? ==> (r.Ok? <==> ParseInt(j.s).Some?)
    ensures j.JStr? && r.Ok? ==> r.value == ParseInt(j.s).value
    ensures j.JStr? && r.Err? ==> r.error.ValueError?
    ensures (j.JNull? || j.JList? || j.JObject?) ==> r.Err? && r.error.TypeError?
  {
    match j
    case JInt(i) => Ok(i)
    case JBool(b) => Ok(if b then 1 else 0)
    case JStr(s) =>
      (match ParseInt(s)
       case None => Err(ValueError("invalid literal for int()"))
       case Some(i) => Ok(i))
    case _ => Err(TypeError("int() argument must be a string or a number"))
  }

  /** `int()` of an integer text, with white space around it, is its value. */
  lemma PyIntOfText(pre: string, sign: string, zeros: nat, n: nat, post: string)
    requires IsSign(sign)
    requires forall k :: 0 <= k < |pre| ==> IsSpace(pre[k])
    requires forall k :: 0 <= k < |post| ==> IsSpace(post[k])
    ensures PyInt(JStr(pre + IntText(sign, zeros, n) + post)) == Ok(Signed(sign, n))
  {
    ParseIntOfText(pre, sign, zeros, n, post);
  }

  /** A request URL as `urlparse` splits it: scheme and host (`origin`) and the
      path segments after the leading slash. */
  datatype Target = Target(origin: string, endpoint: seq<string>)

  function Url(t: Target): string {
    t.origin + Join([""] + t.endpoint, "/")
  }

  /** The URL cut after its first two path segments, with a final slash. */
  function BaseUrl(t: Target): (r: string)
    ensures |t.endpoint| >= 2 ==> r == t.origin + "/" + t.endpoint[0] + "/" + t.endpoint[1] + "/"
  {
    var segments := [""] + t.endpoint;
    var kept := if |segments| < 3 then segments else segments[..3];
    assert |t.endpoint| >= 2 ==> Join(kept, "/") == "/" + t.endpoint[0] + "/" + t.endpoint[1] by {
      if |t.endpoint| >= 2 {
        assert kept == ["", t.endpoint[0], t.endpoint[1]];
        assert Join(kept[2..], "/") == t.endpoint[1];
        assert Join(kept[1..], "/") == t.endpoint[0] + "/" + t.endpoint[1];
      }
    }
    t.origin + Join(kept, "/") + "/"
  }

  /** `'/'.join(path.split('/')[2:])`: an asset URL's path without its first
      segment. */
  function AssetPath(path: string): string {
    var parts := Split(path, '/');
    Join(if |parts| > 2 then parts[2..] else [], "/")
  }

  /** The library functions and the file the writer reads: `quote`, the path
      part of `urlparse`, and the first repository of
      `repositories_000001.json.in` (None when the file cannot be opened). */
  datatype Environment = Environment(
    quote: string -> string,
    urlPath: string -> string,
    repositoryTemplate: Option<Record>)

  /** The writer's own numbering of issues, issue comments and issue events. */
  datatype Counters = Counters(issues: int, comments: nat, events: nat)

  /** What the `match` on verb and endpoint makes of a request: the response,
      the URL the record is filed under, and the counters afterwards. */
  datatype Routed = Routed(output: Json, url: string, counters: Counters)

  /** `output = copy(input)` followed by item assignment: only a dict works. */
  function Fields(input: Json): Result<Record, Exception> {
    if input.JObject? then Ok(input.fields) else Err(TypeError("object does not support item assignment"))
  }

  /** `input[key]` used as a string. */
  function StrField(fields: Record, key: string): Result<string, Exception> {
    if key !in fields then Err(KeyError(key))
    else if !fields[key].JStr? then Err(TypeError(key + " is not a string"))
    else Ok(fields[key].s)
  }

  predicate IsRepoPost(verb: string, e: seq<string>, kind: string) {
    verb == "POST" && |e| == 3 && e[2] == kind
  }

  predicate IsIssuePost(verb: string, e: seq<string>, kind: string) {
    verb == "POST" && |e| == 5 && e[2] == "issues" && e[4] == kind
  }

  /** The first `match` of `requestJsonAndCheck`. */
  function Route(verb: string, target: Target, input: Json, c: Counters, archive: bool, env: Environment)
    : (r: Result<Routed, Exception>)
    ensures verb == "POST" && |target.endpoint| == 3 ==> r == RepoPost(target, input, c, env)
    ensures verb == "POST" && |target.endpoint| == 5 && target.endpoint[2] == "issues" ==> r == IssuePost(target, input, c, env)
    ensures r.Ok? && !(verb == "POST" && (|target.endpoint| == 3 || (|target.endpoint| == 5 && target.endpoint[2] == "issues")))
            ==> r.value.counters == c
  {
    var e := target.endpoint;
    if verb == "POST" && |e| == 3 then RepoPost(target, input, c, env)
    else if verb == "POST" && |e| == 5 && e[2] == "issues" then IssuePost(target, input, c, env)
    else if verb == "GET" && |e| == 2 && e[0] == "users" then
      var fields :- if input.JNull? then Ok(map[]) else Fields(input);
      Ok(Routed(JObject(fields["type" := JStr("user")]["login" := JStr(e[1])]["emails" := JList([])]),
                "https://github.com/" + e[1], c))
    else if verb == "PATCH" && |e| == 2 then
      if !archive then Err(TypeError("unsupported operand type(s) for /: 'NoneType' and 'str'"))
      else if env.repositoryTemplate.None? then Err(OSError("repositories_000001.json.in"))
      else if !input.JObject? then Err(TypeError("'NoneType' object is not iterable"))
      else Ok(Routed(JObject(env.repositoryTemplate.value + input.fields), Url(target), c))
    else
      Ok(Routed(input, Url(target), c))
  }

  /** The repository of a request: its base URL without the final slash. */
  function Repository(target: Target): Json {
    var base := BaseUrl(target);
    JStr(base[..|base| - 1])
  }

  /** Cases `POST <org>/<repo>/<kind>`: labels, milestones, issues and files. */
  function RepoPost(target: Target, input: Json, c: Counters, env: Environment): (r: Result<Routed, Exception>)
    requires |target.endpoint| == 3
    ensures r.Ok? ==> r.value.counters.comments == c.comments && r.value.counters.events == c.events
                      && (r.value.counters.issues != c.issues ==> target.endpoint[2] == "issues")
    ensures !input.JObject? && target.endpoint[2] in {"labels", "milestones", "issues", "files"} ==> r.Err?
  {
    var kind := target.endpoint[2];
    var base := BaseUrl(target);
    if kind == "labels" then
      var fields :- Fields(input);
      var name :- StrField(fields, "name");
      Ok(Routed(JObject(fields["type" := JStr("label")]["repository" := Repository(target)]),
                base + "labels/" + env.quote(name), c))
    else if kind == "milestones" then
      var fields :- Fields(input);
      var title :- StrField(fields, "title");
      Ok(Routed(JObject(fields["type" := JStr("milestone")]["repository" := Repository(target)]),
                base + "milestones/" + env.quote(title), c))
    else if kind == "issues" then
      var fields :- Fields(input);
      var number :- if "number" in fields then PyInt(fields["number"]) else Ok(c.issues + 1);
      var out := if "number" in fields then fields - {"number"} else fields;
      Ok(Routed(JObject(out["type" := JStr("issue")]["repository" := Repository(target)]),
                base + "issues/" + IntToString(number), c.(issues := number)))
    else if kind == "files" then
      var fields :- Fields(input);
      var file :- StrField(fields, "file_url");
      Ok(Routed(JObject(fields["type" := JStr("repository_file")]["repository" := Repository(target)]),
                base + "files/" + AssetPath(env.urlPath(file)), c))
    else
      Ok(Routed(input, Url(target), c))
  }

  /** Cases `POST <org>/<repo>/issues/<issue>/<kind>`: comments, events and
      attachments. */
  function IssuePost(target: Target, input: Json, c: Counters, env: Environment): (r: Result<Routed, Exception>)
    requires |target.endpoint| == 5
    ensures r.Ok? ==> r.value.counters.issues == c.issues
                      && (r.value.counters.comments == c.comments
                          || (r.value.counters.comments == c.comments + 1 && target.endpoint[4] == "comments"))
                      && (r.value.counters.events == c.events
                          || (r.value.counters.events == c.events + 1 && target.endpoint[4] == "events"))
    ensures !input.JObject? && target.endpoint[4] in {"comments", "events", "attachments"} ==> r.Err?
  {
    var kind := target.endpoint[4];
    var issueUrl := BaseUrl(target) + "issues/" + target.endpoint[3];
    if kind == "comments" then
      var fields :- Fields(input);
      var id := c.comments + 1;
      Ok(Routed(JObject(fields["type" := JStr("issue_comment")]["issue" := JStr(issueUrl)]),
                issueUrl + "#issuecomment-" + IntToString(id), c.(comments := id)))
    else if kind == "events" then
      var fields :- Fields(input);
      var id := c.events + 1;
      Ok(Routed(JObject(fields["type" := JStr("issue_event")]["issue" := JStr(issueUrl)]),
                issueUrl + "#event-" + IntToString(id), c.(events := id)))
    else if kind == "attachments" then
      var fields :- Fields(input);
      var asset :- StrField(fields, "asset_url");
      Ok(Routed(JObject(fields["type" := JStr("attachment")]["repository" := Repository(target)]
                              ["issue" := JStr(issueUrl)]),
                BaseUrl(target) + "attachments/" + AssetPath(env.urlPath(asset)), c))
    else
      Ok(Routed(input, Url(target), c))
  }

  /** Creating an issue without an explicit number numbers it one past the
      last issue, and files it under that number. */
  lemma IssueNumbered(target: Target, fields: Record, c: Counters, archive: bool, env: Environment)
    requires IsRepoPost("POST", target.endpoint, "issues") && "number" !in fields
    ensures var r := Route("POST", target, JObject(fields), c, archive, env);
            r.Ok? && r.value.counters == c.(issues := c.issues + 1)
            && r.value.url == BaseUrl(target) + "issues/" + IntToString(c.issues + 1)
            && r.value.output.JObject? && r.value.output.fields["type"] == JStr("issue")
  {
  }

  /** An explicit `number` sets the issue counter and is not part of the record. */
  lemma IssueNumberGiven(target: Target, fields: Record, n: int, c: Counters, archive: bool, env: Environment)
    requires IsRepoPost("POST", target.endpoint, "issues") && "number" in fields && fields["number"] == JInt(n)
    ensures var r := Route("POST", target, JObject(fields), c, archive, env);
            r.Ok? && r.value.counters == c.(issues := n)
            && r.value.url == BaseUrl(target) + "issues/" + IntToString(n)
            && r.value.output.JObject? && "number" !in r.value.output.fields
  {
  }

  /** A comment on issue `issue` gets the next comment id, is filed under the
      issue's URL with an `#issuecomment-<id>` anchor, and points at its issue. */
  lemma CommentNumbered(target: Target, input: Json, c: Counters, archive: bool, env: Environment)
    requires IsIssuePost("POST", target.endpoint, "comments") && input.JObject?
    ensures var r := Route("POST", target, input, c, archive, env);
            var issueUrl := BaseUrl(target) + "issues/" + target.endpoint[3];
            r.Ok? && r.value.counters == c.(comments := c.comments + 1)
            && r.value.url == issueUrl + "#issuecomment-" + IntToString(c.comments + 1)
            && r.value.output.JObject? && r.value.output.fields["issue"] == JStr(issueUrl)
  {
  }

  /** The same for issue events, with their own counter and `#event-<id>`. */
  lemma EventNumbered(target: Target, input: Json, c: Counters, archive: bool, env: Environment)
    requires IsIssuePost("POST", target.endpoint, "events") && input.JObject?
    ensures var r := Route("POST", target, input, c, archive, env);
            var issueUrl := BaseUrl(target) + "issues/" + target.endpoint[3];
            r.Ok? && r.value.counters == c.(events := c.events + 1)
            && r.value.url == issueUrl + "#event-" + IntToString(c.events + 1)
            && r.value.output.JObject? && r.value.output.fields["issue"] == JStr(issueUrl)
  {
  }

  /** Each counter moves only for its own kind of request, and the comment
      and event counters only by one. */
  lemma CountersMoveOnlyForTheirRequests(verb: string, target: Target, input: Json, c: Counters,
                                         archive: bool, env: Environment)
    requires Route(verb, target, input, c, archive, env).Ok?
    ensures var c' := Route(verb, target, input, c, archive, env).value.counters;
            && (c'.issues != c.issues ==> IsRepoPost(verb, target.endpoint, "issues"))
            && (c'.comments == c.comments || (c'.comments == c.comments + 1 && IsIssuePost(verb, target.endpoint, "comments")))
            && (c'.events == c.events || (c'.events == c.events + 1 && IsIssuePost(verb, target.endpoint, "events")))
  {
  }

  /** Looking up a user answers with a user record of that login and no
      e-mail addresses, at the user's GitHub page. */
  lemma UserLookedUp(login: string, origin: string, c: Counters, archive: bool, env: Environment)
    ensures var r := Route("GET", Target(origin, ["users", login]), JNull, c, archive, env);
            r == Ok(Routed(JObject(map["type" := JStr("user"), "login" := JStr(login), "emails" := JList([])]),
                           "https://github.com/" + login, c))
  {
  }

  /** Creating something needs a JSON object as input. */
  lemma CreateNeedsObject(verb: string, target: Target, input: Json, c: Counters, archive: bool, env: Environment)
    requires !input.JObject?
    requires IsRepoPost(verb, target.endpoint, "labels") || IsRepoPost(verb, target.endpoint, "milestones")
             || IsRepoPost(verb, target.endpoint, "issues") || IsRepoPost(verb, target.endpoint, "files")
             || IsIssuePost(verb, target.endpoint, "comments") || IsIssuePost(verb, target.endpoint, "events")
             || IsIssuePost(verb, target.endpoint, "attachments")
    ensures Route(verb, target, input, c, archive, env).Err?
  {
  }

  /** Requests that match no case come back unchanged, at their own URL. */
  lemma OtherRequestsPassThrough(verb: string, target: Target, input: Json, c: Counters, archive: bool, env: Environment)
    requires verb != "POST" && verb != "GET" && verb != "PATCH"
    ensures Route(verb, target, input, c, archive, env) == Ok(Routed(input, Url(target), c))
  {
  }

  // ---------------------------------------------------------------------------
  // Batches of records and the archive files they are written to.

  const BatchSize: nat := 100

  /** One archive file: its type and number, its name, and the records dumped
      into it. */
  datatype ArchiveFile = ArchiveFile(recordType: string, index: nat, name: string, records: seq<Record>)

  /** The writer's archive state: files written per type, pending batches per
      type (with the order in which the types first appeared, which is the
      order `flush` visits them in), and the archive files written so far. */
  datatype Buffers = Buffers(
    numJson: map<string, nat>,
    batches: map<string, seq<Record>>,
    order: seq<string>,
    written: seq<ArchiveFile>)

  /** `_num_json_by_type[t]`, 0 by default. */
  function NumJson(b: Buffers, t: string): nat {
    if t in b.numJson then b.numJson[t] else 0
  }

  /** `_batch_by_type[t]`, empty by default. */
  function Batch(b: Buffers, t: string): seq<Record> {
    if t in b.batches then b.batches[t] else []
  }

  /** The key order once `t` has been looked up in the batch dictionary. */
  function KeyOrder(b: Buffers, t: string): seq<string> {
    if t in b.batches then b.order else b.order + [t]
  }

  /** `flush_type(t)`: the pending batch of `t` is written to the next file of
      `t`, and the batch starts over. */
  function Flushed(b: Buffers, t: string): Buffers {
    Buffers(b.numJson[t := NumJson(b, t) + 1], b.batches[t := []], KeyOrder(b, t), b.written + [NextFile(b, t)])
  }

  /** The file `flush_type(t)` writes: the next number of `t`, and its batch. */
  function NextFile(b: Buffers, t: string): ArchiveFile {
    ArchiveFile(t, NumJson(b, t), FileName(t, NumJson(b, t)), Batch(b, t))
  }

  /** Lines 138-144: `rec` joins the batch of `t`, which is written out when it
      reaches `BatchSize`. */
  function Appended(b: Buffers, t: string, rec: Record): Buffers {
    var b1 := Joined(b, t, rec);
    if |Batch(b, t)| + 1 == BatchSize then Flushed(b1, t) else b1
  }

  /** `rec` added to the batch of `t`, before the size test. */
  function Joined(b: Buffers, t: string, rec: Record): Buffers {
    Buffers(b.numJson[t := NumJson(b, t)], b.batches[t := Batch(b, t) + [rec]], KeyOrder(b, t), b.written)
  }

  lemma JoinedEffect(b: Buffers, t: string, rec: Record)
    ensures var b1 := Joined(b, t, rec);
            b1.written == b.written && Batch(b1, t) == Batch(b, t) + [rec] && NumJson(b1, t) == NumJson(b, t)
            && (forall u :: u != t ==> Batch(b1, u) == Batch(b, u) && NumJson(b1, u) == NumJson(b, u))
  {
  }

  lemma FlushedEffect(b: Buffers, t: string)
    ensures var b1 := Flushed(b, t);
            b1.written == b.written + [NextFile(b, t)]
            && Batch(b1, t) == [] && NumJson(b1, t) == NumJson(b, t) + 1
            && (forall u :: u != t ==> Batch(b1, u) == Batch(b, u) && NumJson(b1, u) == NumJson(b, u))
  {
  }

  /** Flushing the types `ts` one after the other. */
  function FlushedTypes(b: Buffers, ts: seq<string>): Buffers
  {
    if ts == [] then b else Flushed(FlushedTypes(b, ts[..|ts| - 1]), ts[|ts| - 1])
  }

  lemma FlushedTypesPrefix(b: Buffers, ts: seq<string>, i: nat)
    requires i < |ts|
    ensures FlushedTypes(b, ts[..i + 1]) == Flushed(FlushedTypes(b, ts[..i]), ts[i])
  {
    assert ts[..i + 1][..i] == ts[..i];
  }

  /** `flush()`: every type in dictionary order. */
  function FlushedAll(b: Buffers): Buffers {
    FlushedTypes(b, b.order)
  }

  /** How many of `files` are of type `t`. */
  function CountType(files: seq<ArchiveFile>, t: string): nat {
    if files == [] then 0
    else CountType(files[..|files| - 1], t) + (if files[|files| - 1].recordType == t then 1 else 0)
  }

  /** File `k` is the next file of its type after the earlier ones, and is
      named after its type and number. */
  predicate WellNumbered(files: seq<ArchiveFile>, k: nat)
    requires k < |files|
  {
    files[k].index == CountType(files[..k], files[k].recordType)
    && files[k].name == FileName(files[k].recordType, files[k].index)
  }

  /** Pending batches stay below the batch size. */
  ghost predicate BatchesBelowSize(b: Buffers) {
    forall t :: t in b.batches ==> |b.batches[t]| < BatchSize
  }

  /** The key order lists every batch exactly once. */
  ghost predicate OrderListsBatches(b: Buffers) {
    && (forall t :: t in b.batches <==> t in b.order)
    && (forall i, j :: 0 <= i < j < |b.order| ==> b.order[i] != b.order[j])
  }

  /** Files of each type are numbered 0, 1, 2, ... in writing order and named
      after type and number, and the per-type counter is the number of files
      of that type written so far. */
  ghost predicate FilesNumbered(b: Buffers) {
    && (forall k :: 0 <= k < |b.written| ==> WellNumbered(b.written, k))
    && (forall t :: NumJson(b, t) == CountType(b.written, t))
  }

  /** The invariant of the archive state. */
  ghost predicate WellFormed(b: Buffers) {
    BatchesBelowSize(b) && OrderListsBatches(b) && FilesNumbered(b)
  }

  function Empty(): (b: Buffers)
    ensures WellFormed(b)
  {
    Buffers(map[], map[], [], [])
  }

  lemma CountTypeAppend(files: seq<ArchiveFile>, f: ArchiveFile, t: string)
    ensures CountType(files + [f], t) == CountType(files, t) + (if f.recordType == t then 1 else 0)
  {
    assert (files + [f])[..|files|] == files;
  }

  /** Writing the next file of a type keeps the files numbered. */
  lemma FlushedNumbered(b: Buffers, t: string)
    requires FilesNumbered(b)
    ensures FilesNumbered(Flushed(b, t))
  {
    var id := NumJson(b, t);
    var f := NextFile(b, t);
    var b' := Flushed(b, t);
    assert b'.written == b.written + [f];
    forall u
      ensures NumJson(b', u) == CountType(b'.written, u)
    {
      CountTypeAppend(b.written, f, u);
    }
    forall k | 0 <= k < |b'.written|
      ensures WellNumbered(b'.written, k)
    {
      if k < |b.written| {
        assert b'.written[..k] == b.written[..k];
        assert WellNumbered(b.written, k);
      } else {
        assert b'.written[..k] == b.written;
      }
    }
  }

  /** Looking a type up in the batch dictionary keeps the key order a list of
      the keys. */
  lemma KeyOrderLists(b: Buffers, t: string, batch: seq<Record>)
    requires OrderListsBatches(b)
    ensures OrderListsBatches(b.(batches := b.batches[t := batch], order := KeyOrder(b, t)))
  {
    var b' := b.(batches := b.batches[t := batch], order := KeyOrder(b, t));
    if t !in b.batches {
      assert t !in b.order;
      forall i, j | 0 <= i < j < |b'.order|
        ensures b'.order[i] != b'.order[j]
      {
        if j == |b.order| {
          assert b.order[i] in b.order;
        }
      }
    }
  }

  /** `flush_type` keeps the invariant, empties the batch it writes and
      advances that type's number. */
  lemma FlushedWellFormed(b: Buffers, t: string)
    requires WellFormed(b)
    ensures WellFormed(Flushed(b, t))
    ensures Batch(Flushed(b, t), t) == [] && NumJson(Flushed(b, t), t) == NumJson(b, t) + 1
  {
    FlushedNumbered(b, t);
    KeyOrderLists(b, t, []);
  }

  /** Appending keeps the invariant. */
  lemma AppendedWellFormed(b: Buffers, t: string, rec: Record)
    requires WellFormed(b)
    ensures WellFormed(Appended(b, t, rec))
  {
    var b1 := Joined(b, t, rec);
    KeyOrderLists(b, t, Batch(b, t) + [rec]);
    assert FilesNumbered(b1) by {
      forall u
        ensures NumJson(b1, u) == CountType(b1.written, u)
      {
        assert NumJson(b1, u) == NumJson(b, u);
      }
    }
    if |Batch(b, t)| + 1 == BatchSize {
      // `b1` breaks only the batch bound, at `t`, which flushing restores.
      FlushedNumbered(b1, t);
      KeyOrderLists(b1, t, []);
    }
  }

  /** The file name computed for a record when it is appended is the file it
      ends up in: either the batch was full and that file has just been
      written with the record last, or the record waits in the batch whose
      next file still has that name. Other types are not touched. */
  lemma AppendedRecordFiled(b: Buffers, t: string, rec: Record)
    ensures var b' := Appended(b, t, rec);
            var name := FileName(t, NumJson(b, t));
            if |Batch(b, t)| + 1 == BatchSize then
              |b'.written| == |b.written| + 1 && b'.written[..|b.written|] == b.written
              && b'.written[|b.written|].name == name
              && b'.written[|b.written|].records == Batch(b, t) + [rec]
              && Batch(b', t) == []
            else
              b'.written == b.written && Batch(b', t) == Batch(b, t) + [rec]
              && FileName(t, NumJson(b', t)) == name
    ensures forall u :: u != t ==> Batch(Appended(b, t, rec), u) == Batch(b, u)
                                   && NumJson(Appended(b, t, rec), u) == NumJson(b, u)
  {
    var b1 := Joined(b, t, rec);
    JoinedEffect(b, t, rec);
    if |Batch(b, t)| + 1 == BatchSize {
      FlushedEffect(b1, t);
      var b' := Flushed(b1, t);
      assert b'.written[..|b.written|] == b.written;
    }
  }

  /** Files in flush order: one per type in `ts`, each with the type's number
      and batch as they were before the flush. */
  function FlushFiles(b: Buffers, ts: seq<string>): (r: seq<ArchiveFile>)
    ensures |r| == |ts|
  {
    if ts == [] then [] else FlushFiles(b, ts[..|ts| - 1]) + [NextFile(b, ts[|ts| - 1])]
  }

  /** Flushing known types changes neither the keys nor their order. */
  lemma {:induction false} FlushedTypesKeys(b: Buffers, ts: seq<string>)
    requires forall i :: 0 <= i < |ts| ==> ts[i] in b.batches
    ensures FlushedTypes(b, ts).order == b.order && FlushedTypes(b, ts).batches.Keys == b.batches.Keys
  {
    if ts != [] {
      FlushedTypesKeys(b, ts[..|ts| - 1]);
    }
  }

  /** After flushing distinct types `ts`, a type in `ts` has an empty batch
      and a number one higher; any other type is as it was. */
  lemma {:induction false} FlushedTypesAt(b: Buffers, ts: seq<string>, t: string)
    requires forall i, j :: 0 <= i < j < |ts| ==> ts[i] != ts[j]
    ensures Batch(FlushedTypes(b, ts), t) == if t in ts then [] else Batch(b, t)
    ensures NumJson(FlushedTypes(b, ts), t) == if t in ts then NumJson(b, t) + 1 else NumJson(b, t)
  {
    if ts != [] {
      var init, last := ts[..|ts| - 1], ts[|ts| - 1];
      assert ts == init + [last];
      FlushedTypesAt(b, init, t);
      DistinctLast(ts);
      FlushedEffect(FlushedTypes(b, init), last);
    }
  }

  /** The last of distinct types is not among the others. */
  lemma DistinctLast(ts: seq<string>)
    requires ts != [] && forall i, j :: 0 <= i < j < |ts| ==> ts[i] != ts[j]
    ensures ts[|ts| - 1] !in ts[..|ts| - 1]
  {
    var init := ts[..|ts| - 1];
    forall i | 0 <= i < |init|
      ensures init[i] != ts[|ts| - 1]
    {
      assert init[i] == ts[i];
    }
  }

  /** Flushing distinct types writes one file per type, in the given order,
      each with the type's number and batch from before the flush. */
  lemma {:induction false} FlushedTypesWritten(b: Buffers, ts: seq<string>)
    requires forall i, j :: 0 <= i < j < |ts| ==> ts[i] != ts[j]
    ensures FlushedTypes(b, ts).written == b.written + FlushFiles(b, ts)
  {
    if ts != [] {
      var init, last := ts[..|ts| - 1], ts[|ts| - 1];
      DistinctLast(ts);
      FlushedTypesWritten(b, init);
      FlushedTypesAt(b, init, last);
      var b0 := FlushedTypes(b, init);
      assert NextFile(b0, last) == NextFile(b, last);
      assert FlushedTypes(b, ts).written == b0.written + [NextFile(b0, last)];
    }
  }

  /** Flushing distinct known types writes one file per type, in the given
      order, empties their batches, advances their numbers by one, and leaves
      the other types and the key order alone. */
  lemma FlushedTypesEffect(b: Buffers, ts: seq<string>)
    requires forall i :: 0 <= i < |ts| ==> ts[i] in b.batches
    requires forall i, j :: 0 <= i < j < |ts| ==> ts[i] != ts[j]
    ensures var b' := FlushedTypes(b, ts);
            && b'.order == b.order && b'.batches.Keys == b.batches.Keys
            && b'.written == b.written + FlushFiles(b, ts)
            && (forall t :: Batch(b', t) == if t in ts then [] else Batch(b, t))
            && (forall t :: NumJson(b', t) == if t in ts then NumJson(b, t) + 1 else NumJson(b, t))
  {
    FlushedTypesKeys(b, ts);
    FlushedTypesWritten(b, ts);
    forall t
      ensures Batch(FlushedTypes(b, ts), t) == if t in ts then [] else Batch(b, t)
      ensures NumJson(FlushedTypes(b, ts), t) == if t in ts then NumJson(b, t) + 1 else NumJson(b, t)
    {
      FlushedTypesAt(b, ts, t);
    }
  }

  lemma {:induction false} FlushedTypesWellFormed(b: Buffers, ts: seq<string>)
    requires WellFormed(b)
    ensures WellFormed(FlushedTypes(b, ts))
  {
    if ts != [] {
      FlushedTypesWellFormed(b, ts[..|ts| - 1]);
      FlushedWellFormed(FlushedTypes(b, ts[..|ts| - 1]), ts[|ts| - 1]);
    }
  }

  /** `flush()` leaves nothing pending, writes one file for every type seen so
      far (an empty one for a type whose batch was just written), in the order
      the types first appeared, and keeps the invariant. */
  lemma FlushedAllEffect(b: Buffers)
    requires WellFormed(b)
    ensures var b' := FlushedAll(b);
            && WellFormed(b')
            && (forall t :: Batch(b', t) == [])
            && b'.written == b.written + FlushFiles(b, b.order)
  {
    FlushedTypesEffect(b, b.order);
    FlushedTypesWellFormed(b, b.order);
    var b' := FlushedAll(b);
    forall t
      ensures Batch(b', t) == []
    {
      if t !in b.order {
        assert t !in b.batches;
      }
    }
  }

  lemma {:induction false} CountTypePrefixes(files: seq<ArchiveFile>, i: nat, j: nat, t: string)
    requires i <= j <= |files|
    ensures CountType(files[..i], t) <= CountType(files[..j], t)
    decreases j - i
  {
    if i < j {
      CountTypePrefixes(files, i, j - 1, t);
      assert files[..j][..j - 1] == files[..j - 1];
    }
  }

  /** Two well-numbered files are different files. */
  lemma FilesDistinct(files: seq<ArchiveFile>, i: nat, j: nat)
    requires i < j < |files| && WellNumbered(files, i) && WellNumbered(files, j)
    requires !EndsWith(files[i].recordType, "ie") && !EndsWith(files[j].recordType, "ie")
    requires files[i].index < 1000000 && files[j].index < 1000000
    ensures files[i].name != files[j].name
  {
    if files[i].recordType == files[j].recordType {
      LaterFileLaterIndex(files, i, j);
    }
    FileNameInjective(files[i].recordType, files[i].index, files[j].recordType, files[j].index);
  }

  /** A later file of the same type has a higher number. */
  lemma LaterFileLaterIndex(files: seq<ArchiveFile>, i: nat, j: nat)
    requires i < j < |files| && WellNumbered(files, i) && WellNumbered(files, j)
    requires files[i].recordType == files[j].recordType
    ensures files[i].index < files[j].index
  {
    var t := files[i].recordType;
    CountTypePrefixes(files, i + 1, j, t);
    assert files[..i + 1] == files[..i] + [files[i]];
    CountTypeAppend(files[..i], files[i], t);
  }

  /** No archive file is written twice: files have pairwise distinct names, as
      long as no type ends in "ie" and no type has a million files. */
  lemma NoFileOverwritten(b: Buffers)
    requires FilesNumbered(b)
    requires forall k :: 0 <= k < |b.written| ==> !EndsWith(b.written[k].recordType, "ie") && b.written[k].index < 1000000
    ensures forall i, j :: 0 <= i < j < |b.written| ==> b.written[i].name != b.written[j].name
  {
    forall i, j | 0 <= i < j < |b.written|
      ensures b.written[i].name != b.written[j].name
    {
      FilesDistinct(b.written, i, j);
    }
  }

  // ---------------------------------------------------------------------------
  // The wiki pages.

  /** One write to a wiki page: the page, whether it is created (`'w'`) or
      appended to (`'a'`), the archive file named in it, and the title and
      body written besides the JSON dump. */
  datatype WikiWrite = WikiWrite(page: string, append: bool, jsonFile: string, title: Option<Json>, body: Option<string>)

  /** The second `match` of `requestJsonAndCheck`, for a wiki: a created issue
      starts its page, anything posted below an issue is appended to the
      issue's page. `jsonFile` is None where the archive step did not bind it. */
  function WikiStep(verb: string, e: seq<string>, issueCounter: int, rec: Record, jsonFile: Option<string>)
    : (r: Result<Option<WikiWrite>, Exception>)
    ensures r.Ok? && r.value.Some? ==> jsonFile.Some? && r.value.value.jsonFile == jsonFile.value
    ensures r.Ok? && r.value.Some? ==> (r.value.value.append <==> |e| == 5)
  {
    if IsRepoPost(verb, e, "issues") then
      var page :- IssueWikiFile(IntToString(issueCounter));
      if "title" !in rec then Err(KeyError("title"))
      else if jsonFile.None? then Err(UnboundLocalError("json_file"))
      else if "body" !in rec then Err(KeyError("body"))
      else if !rec["body"].JStr? then Err(TypeError("write() argument must be str"))
      else Ok(Some(WikiWrite(page, false, jsonFile.value, Some(rec["title"]), Some(rec["body"].s))))
    else if verb == "POST" && |e| == 5 && e[2] == "issues" then
      var page :- IssueWikiFile(e[3]);
      if jsonFile.None? then Err(UnboundLocalError("json_file"))
      else if "body" in rec && !rec["body"].JStr? then Err(TypeError("write() argument must be str"))
      else Ok(Some(WikiWrite(page, true, jsonFile.value, None, if "body" in rec then Some(rec["body"].s) else None)))
    else Ok(None)
  }

  /** A comment on issue `n` is appended to the page created for issue `n`. */
  lemma CommentsJoinTheirIssuePage(verb: string, e: seq<string>, n: int, m: int, rec: Record, rec2: Record, file: string, file2: string)
    requires IsRepoPost(verb, e, "issues")
    requires WikiStep(verb, e, n, rec, Some(file)).Ok?
    ensures var created := WikiStep(verb, e, n, rec, Some(file)).value;
            var e2 := e + [IntToString(n), "comments"];
            var appended := WikiStep(verb, e2, m, rec2, Some(file2));
            created.Some? && !created.value.append
            && (appended.Ok? ==> appended.value.Some? && appended.value.value.append
                                 && appended.value.value.page == created.value.page)
  {
    var e2 := e + [IntToString(n), "comments"];
    assert |e2| == 5 && e2[2] == "issues" && e2[3] == IntToString(n);
    IssuePageCreated(verb, e, n, rec, file);
    if WikiStep(verb, e2, m, rec2, Some(file2)).Ok? {
      PostedBelowIssue(verb, e2, m, rec2, file2);
    }
  }

  lemma IssuePageCreated(verb: string, e: seq<string>, n: int, rec: Record, file: string)
    requires IsRepoPost(verb, e, "issues") && WikiStep(verb, e, n, rec, Some(file)).Ok?
    ensures var w := WikiStep(verb, e, n, rec, Some(file)).value;
            w.Some? && !w.value.append && w.value.page == IssueWikiFile(IntToString(n)).value
  {
  }

  lemma PostedBelowIssue(verb: string, e: seq<string>, m: int, rec: Record, file: string)
    requires verb == "POST" && |e| == 5 && e[2] == "issues" && WikiStep(verb, e, m, rec, Some(file)).Ok?
    ensures var w := WikiStep(verb, e, m, rec, Some(file)).value;
            w.Some? && w.value.append && w.value.page == IssueWikiFile(e[3]).value
  {
  }

  // ---------------------------------------------------------------------------
  // The requester.

  /** Lines 137-144 on the record `rec`, with the archive directory set or not:
      the new archive state and the `json_file` name it binds. A type that is
      not a string fails: a list or dict cannot key the `defaultdict` of line
      139 (`TypeError`), and any other value has no `endswith` for `pluralize`
      on line 140 (`AttributeError`). */
  function ArchiveStep(b: Buffers, archive: bool, rec: Record): (r: Result<(Buffers, Option<string>), Exception>)
    ensures r.Err? <==> archive && "type" in rec && !rec["type"].JStr?
    ensures r.Err? ==> if rec["type"].JList? || rec["type"].JObject? then r.error.TypeError? else r.error.AttributeError?
    ensures r.Ok? ==> (r.value.1.Some? <==> archive && "type" in rec)
    ensures r.Ok? && !(archive && "type" in rec) ==> r.value.0 == b
  {
    if !archive || "type" !in rec then Ok((b, None))
    else if rec["type"].JList? || rec["type"].JObject? then Err(TypeError("unhashable type"))
    else if !rec["type"].JStr? then Err(AttributeError("object has no attribute 'endswith'"))
    else
      var t := rec["type"].s;
      Ok((Appended(b, t, rec), Some(FileName(t, NumJson(b, t)))))
  }

  class MigrationArchiveWritingRequester {
    /** Whether a migration archive directory, and a wiki directory, were given. */
    const archive: bool
    const wiki: bool
    const env: Environment

    var numIssues: int
    var numIssueComments: nat
    var numIssueEvents: nat
    var numJsonByType: map<string, nat>
    var batchByType: map<string, seq<Record>>
    /** The key order of `_batch_by_type`. */
    var typeOrder: seq<string>
    /** The archive files written, in order. */
    var archiveFiles: seq<ArchiveFile>
    /** The writes to wiki pages, in order. */
    var wikiFiles: seq<WikiWrite>

    function Counts(): Counters
      reads this
    {
      Counters(numIssues, numIssueComments, numIssueEvents)
    }

    function Pending(): Buffers
      reads this
    {
      Buffers(numJsonByType, batchByType, typeOrder, archiveFiles)
    }

    ghost predicate Valid()
      reads this
    {
      WellFormed(Pending()) && (!archive ==> typeOrder == [])
    }

    constructor(archive: bool, wiki: bool, env: Environment)
      ensures this.archive == archive && this.wiki == wiki && this.env == env
      ensures Counts() == Counters(0, 0, 0) && Pending() == Empty() && wikiFiles == []
      ensures Valid()
    {
      this.archive := archive;
      this.wiki := wiki;
      this.env := env;
      numIssues := 0;
      numIssueComments := 0;
      numIssueEvents := 0;
      numJsonByType := map[];
      batchByType := map[];
      typeOrder := [];
      archiveFiles := [];
      wikiFiles := [];
    }

    /** `flush_type(t)`; the archive directory must be set. */
    method FlushType(t: string)
      requires archive
      modifies this
      ensures Pending() == Flushed(old(Pending()), t)
      ensures Counts() == old(Counts()) && wikiFiles == old(wikiFiles)
    {
      var id := if t in numJsonByType then numJsonByType[t] else 0;
      var batch := if t in batchByType then batchByType[t] else [];
      var order := if t in batchByType then typeOrder else typeOrder + [t];
      var name := FileName(t, id);
      numJsonByType, batchByType, typeOrder, archiveFiles :=
        numJsonByType[t := id + 1], batchByType[t := []], order, archiveFiles + [ArchiveFile(t, id, name, batch)];
    }

    /** `flush()`: writes the pending batch of every type seen so far. */
    method Flush()
      requires Valid()
      modifies this
      ensures Valid()
      ensures Pending() == FlushedAll(old(Pending()))
      ensures Counts() == old(Counts()) && wikiFiles == old(wikiFiles)
    {
      var types := typeOrder;
      ghost var start := Pending();
      for i := 0 to |types|
        invariant Valid()
        invariant typeOrder == types
        invariant Pending() == FlushedTypes(start, types[..i])
        invariant Counts() == old(Counts()) && wikiFiles == old(wikiFiles)
      {
        ghost var before := Pending();
        var t := types[i];
        assert t in before.batches;
        FlushedWellFormed(before, t);
        FlushType(t);
        FlushedTypesPrefix(start, types, i);
      }
      assert types[..|types|] == types;
    }

    /** Lines 137-144: files the record in its type's batch when archiving. */
    method ArchiveRecord(rec: Record) returns (r: Result<Option<string>, Exception>)
      requires Valid()
      modifies this
      ensures Valid()
      ensures var step := ArchiveStep(old(Pending()), archive, rec);
              (step.Err? ==> r == Err(step.error)) && (step.Ok? ==> r.Ok? && step.value == (Pending(), r.value))
      ensures Counts() == old(Counts()) && wikiFiles == old(wikiFiles)
    {
      if !archive || "type" !in rec {
        return Ok(None);
      }
      if rec["type"].JList? || rec["type"].JObject? {
        return Err(TypeError("unhashable type"));
      }
      if !rec["type"].JStr? {
        return Err(AttributeError("object has no attribute 'endswith'"));
      }
      var t := rec["type"].s;
      AppendedWellFormed(Pending(), t, rec);
      var id := if t in numJsonByType then numJsonByType[t] else 0;
      var jsonFile := FileName(t, id);
      var size := JoinBatch(t, rec);
      if size == BatchSize {
        FlushType(t);
      }
      r := Ok(Some(jsonFile));
    }

    /** Lines 139 and 142 with their `defaultdict`s: the number of `t` is looked
        up, and `rec` joins the batch of `t`, whose new size is returned. */
    method JoinBatch(t: string, rec: Record) returns (size: nat)
      modifies this
      ensures Pending() == Joined(old(Pending()), t, rec)
      ensures size == |Batch(old(Pending()), t)| + 1
      ensures Counts() == old(Counts()) && wikiFiles == old(wikiFiles)
    {
      ghost var b := Pending();
      var id := if t in numJsonByType then numJsonByType[t] else 0;
      var batch := if t in batchByType then batchByType[t] else [];
      var order := if t in batchByType then typeOrder else typeOrder + [t];
      assert id == NumJson(b, t) && batch == Batch(b, t) && order == KeyOrder(b, t);
      numJsonByType, batchByType, typeOrder := numJsonByType[t := id], batchByType[t := batch + [rec]], order;
      size := |batch| + 1;
    }

    /** `requestJsonAndCheck`: answers the request, numbering issues, comments
        and events, files a record of every dict answer (with its `url`) in
        the archive, and writes the wiki page it belongs to. The response
        headers are always None and are left out. */
    method RequestJsonAndCheck(verb: string, target: Target, input: Json) returns (r: Result<Json, Exception>)
      requires Valid()
      modifies this
      ensures Valid()
      ensures var routed := Route(verb, target, input, old(Counts()), archive, env);
              && (routed.Err? ==> r == Err(routed.error) && Counts() == old(Counts())
                                  && Pending() == old(Pending()) && wikiFiles == old(wikiFiles))
              && (routed.Ok? ==> Counts() == routed.value.counters)
              && (routed.Ok? && !routed.value.output.JObject? ==>
                    r == Ok(routed.value.output) && Pending() == old(Pending()) && wikiFiles == old(wikiFiles))
      ensures var routed := Route(verb, target, input, old(Counts()), archive, env);
              routed.Ok? && routed.value.output.JObject? ==>
                var rec := routed.value.output.fields["url" := JStr(routed.value.url)];
                var step := ArchiveStep(old(Pending()), archive, rec);
                && (step.Err? ==> r == Err(step.error))
                && (step.Ok? && !wiki ==> r == Ok(JObject(rec)) && Pending() == step.value.0 && wikiFiles == old(wikiFiles))
                && (step.Ok? && wiki ==>
                      var page := WikiStep(verb, target.endpoint, routed.value.counters.issues, rec, step.value.1);
                      && (page.Err? ==> r == Err(page.error))
                      && (page.Ok? ==> (r == Ok(JObject(rec)) && Pending() == step.value.0
                                        && wikiFiles == old(wikiFiles) + (if page.value.Some? then [page.value.value] else []))))
    {
      var routed := Route(verb, target, input, Counts(), archive, env);
      if routed.Err? {
        return Err(routed.error);
      }
      numIssues := routed.value.counters.issues;
      numIssueComments := routed.value.counters.comments;
      numIssueEvents := routed.value.counters.events;
      var output := routed.value.output;
      if !output.JObject? {
        return Ok(output);
      }
      var rec := output.fields["url" := JStr(routed.value.url)];
      var jsonFile :- ArchiveRecord(rec);
      if wiki {
        var written := WriteWikiPage(verb, target.endpoint, rec, jsonFile);
        if written.Err? {
          return Err(written.error);
        }
      }
      r := Ok(JObject(rec));
    }

    /** The wiki part of `requestJsonAndCheck`: the write `WikiStep` calls for,
        if any, is added to the wiki files. */
    method WriteWikiPage(verb: string, e: seq<string>, rec: Record, jsonFile: Option<string>)
      returns (r: Result<(), Exception>)
      modifies this
      ensures var page := WikiStep(verb, e, old(numIssues), rec, jsonFile);
              && (page.Err? ==> r == Err(page.error) && wikiFiles == old(wikiFiles))
              && (page.Ok? ==> r.Ok? && wikiFiles == old(wikiFiles) + (if page.value.Some? then [page.value.value] else []))
      ensures Counts() == old(Counts()) && Pending() == old(Pending())
    {
      var page := WikiStep(verb, e, numIssues, rec, jsonFile);
      if page.Err? {
        return Err(page.error);
      }
      if page.value.Some? {
        wikiFiles := wikiFiles + [page.value.value];
      }
      r := Ok(());
    }
  }
}
