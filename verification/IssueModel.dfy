/** The data `convert_issues` (migrate.py) works on, and what each of its
    GitHub helpers does to the script's global state, written as functions.

    The global state is `Globals`: the label registry `gh_labels` (lower-cased
    name to the label as created), the set `unmapped_users`, and the GitHub
    destination seen as a log of actions. Issues and milestones are numbered
    1, 2, ... in creation order, as in a repository that starts empty; `issues`
    and `milestones` count the ones created so far. Without a destination
    (`dest` is None, `online` false) no helper logs anything and the registry
    stays as it is. */
module IssueModel {
  import opened Outcomes
  import opened Text
  import opened TicketMapping

  /** One changelog entry: time (the text the script prints for it), author,
      field, old value and new value. */
  datatype Change = Change(time: string, author: string, field: string, oldValue: string, newValue: string)

  /** A ticket as fetched from Trac: id, creation time, current attributes and
      changelog. */
  datatype Ticket = Ticket(id: int, created: string, data: map<string, string>, changelog: seq<Change>)

  /** A Trac milestone; `completed` is its completion time as `str` prints it
      ("0" while open). */
  datatype Milestone = Milestone(name: string, description: string, completed: string, due: Option<string>)

  /** The `labelcolor` setting. */
  datatype Colors = Colors(component: string, priority: string, severity: string, ticketType: string, keyword: string)

  /** The configuration `convert_issues` reads. `markdown` is
      `trac2markdown(_, '/issues/', False)`, `milestoneMarkdown` is
      `trac2markdown(_, '/milestones/', False)`; `addLabel` is "" when unset. */
  datatype Config = Config(
    addLabel: string,
    keywordsToLabels: bool,
    users: map<string, string>,
    colors: Colors,
    filterConfigured: bool,
    migrateMilestones: bool,
    markdown: string -> string,
    milestoneMarkdown: string -> string)

  /** A comment as `gh_comment_issue` receives it. */
  datatype Note = Note(author: string, createdAt: string, note: string, attachment: Option<string>)

  /** What the destination is asked to do. Labels are given as the registry's
      labels (their names as created). */
  datatype Action =
    | CreateMilestone(title: string, open: bool, description: string, due: Option<string>)
    | CreateLabel(name: string, color: string)
    | CreateIssue(title: string, body: string, labels: seq<string>, milestone: Option<nat>)
    | SetState(issue: nat, state: string)
    | SetLabels(issue: nat, labels: seq<string>)
    | Comment(issue: nat, note: Note)
    | SetAssignee(issue: nat, assignee: Option<string>)
    | SetBody(issue: nat, body: string)
    | SetTitle(issue: nat, title: string)
    | SetMilestone(issue: nat, milestone: Option<nat>)

  /** The global state the helpers change. */
  datatype Globals = Globals(
    labels: map<string, string>,
    unmapped: set<string>,
    log: seq<Action>,
    issues: nat,
    milestones: nat)

  /** `after` extends `before` by actions none of which sets an issue's state. */
  predicate NoSetState(before: seq<Action>, after: seq<Action>) {
    |before| <= |after| && after[..|before|] == before
    && forall k :: |before| <= k < |after| ==> !after[k].SetState?
  }

  // ---------------------------------------------------------------------------
  // The helpers.

  /** `gh_ensure_label`: registers (and creates) a label unless a label of the
      same name, in any casing, is registered already. */
  function EnsuredLabel(g: Globals, online: bool, name: string, color: string): (r: Globals)
    ensures !online ==> r == g
    ensures online ==> Lower(name) in r.labels
    ensures forall k :: k in g.labels ==> k in r.labels && r.labels[k] == g.labels[k]
    ensures r.unmapped == g.unmapped && r.issues == g.issues && r.milestones == g.milestones
    ensures NoSetState(g.log, r.log)
  {
    if !online || Lower(name) in g.labels then g
    else g.(labels := g.labels[Lower(name) := name], log := g.log + [CreateLabel(name, color)])
  }

  /** A second call for the same name in any casing changes nothing. */
  lemma EnsuredLabelIdempotent(g: Globals, online: bool, name: string, color: string, again: string, color2: string)
    requires Lower(again) == Lower(name)
    ensures var g' := EnsuredLabel(g, online, name, color);
            EnsuredLabel(g', online, again, color2) == g'
  {
  }

  /** A label is created exactly when no label of that name in any casing is
      registered; it is then registered under its lower-cased name. */
  lemma EnsuredLabelCreates(g: Globals, name: string, color: string)
    ensures var g' := EnsuredLabel(g, true, name, color);
            if Lower(name) in g.labels then g' == g
            else g'.log == g.log + [CreateLabel(name, color)] && g'.labels == g.labels[Lower(name) := name]
  {
  }

  /** `gh_username` with its side effect: a name it leaves unchanged is added
      to `unmapped_users`, and no other. */
  function Resolved(g: Globals, users: map<string, string>, name: string): (r: Result<(Globals, string), Exception>)
    ensures r.Err? <==> GhUsername(users, name).Err?
    ensures r.Ok? ==> r.value.1 == GhUsername(users, name).value
    ensures r.Ok? ==> r.value.0 == g.(unmapped := if StartsWith(r.value.1, "@") then g.unmapped else g.unmapped + {name})
  {
    var handle :- GhUsername(users, name);
    Ok((if IsUnmapped(users, name) then g.(unmapped := g.unmapped + {name}) else g, handle))
  }

  /** `[gh_labels[label.lower()] for label in names]`. */
  function Registered(labels: map<string, string>, names: seq<string>): (r: Result<seq<string>, Exception>)
    ensures r.Ok? <==> forall i :: 0 <= i < |names| ==> Lower(names[i]) in labels
    ensures r.Err? ==> r.error.KeyError?
    ensures r.Ok? ==> |r.value| == |names| && forall i :: 0 <= i < |names| ==> r.value[i] == labels[Lower(names[i])]
  {
    if names == [] then Ok([])
    else if Lower(names[0]) !in labels then Err(KeyError(Lower(names[0])))
    else
      var rest :- Registered(labels, names[1..]);
      Ok([labels[Lower(names[0])]] + rest)
  }

  /** `gh_create_issue`: the new issue and its number (0 without a destination). */
  function IssueCreated(g: Globals, online: bool, title: string, body: string, labels: seq<string>, milestone: Option<nat>)
    : (r: Result<(Globals, nat), Exception>)
    ensures !online ==> r == Ok((g, 0))
    ensures online ==> (r.Ok? <==> Registered(g.labels, labels).Ok?)
    ensures r.Err? ==> r.error.KeyError?
    ensures online && r.Ok? ==> r.value.1 == g.issues + 1
    ensures online && r.Ok? ==>
              r.value.0 == g.(issues := g.issues + 1,
                              log := g.log + [CreateIssue(title, body, Registered(g.labels, labels).value, milestone)])
  {
    if !online then Ok((g, 0))
    else
      var names :- Registered(g.labels, labels);
      Ok((g.(issues := g.issues + 1, log := g.log + [CreateIssue(title, body, names, milestone)]), g.issues + 1))
  }

  /** `gh_comment_issue`. */
  function Commented(g: Globals, online: bool, issue: nat, note: Note): (r: Globals)
    ensures r.log == g.log + (if online then [Comment(issue, note)] else [])
    ensures r.labels == g.labels && r.unmapped == g.unmapped && r.issues == g.issues
  {
    if online then g.(log := g.log + [Comment(issue, note)]) else g
  }

  /** The properties `gh_update_issue_property` sets. */
  datatype Property =
    | LabelsProp(names: seq<string>)
    | AssigneeProp(assignee: Option<string>)
    | StateProp(state: string)
    | BodyProp(body: string)
    | TitleProp(title: string)
    | MilestoneProp(milestone: Option<nat>)

  /** `gh_update_issue_property`: labels are looked up in the registry. */
  function Updated(g: Globals, online: bool, issue: nat, prop: Property): (r: Result<Globals, Exception>)
    ensures !online ==> r == Ok(g)
    ensures r.Ok? ==> r.value.labels == g.labels && r.value.issues == g.issues && r.value.unmapped == g.unmapped
    ensures r.Ok? && !prop.StateProp? ==> NoSetState(g.log, r.value.log)
    ensures r.Ok? && prop.StateProp? ==> r.value.log == g.log + (if online then [SetState(issue, prop.state)] else [])
    ensures r.Err? ==> online && prop.LabelsProp? && r.error.KeyError?
  {
    if !online then Ok(g)
    else
      match prop
      case LabelsProp(names) =>
        var registered :- Registered(g.labels, names);
        Ok(g.(log := g.log + [SetLabels(issue, registered)]))
      case AssigneeProp(a) => Ok(g.(log := g.log + [SetAssignee(issue, a)]))
      case StateProp(s) => Ok(g.(log := g.log + [SetState(issue, s)]))
      case BodyProp(b) => Ok(g.(log := g.log + [SetBody(issue, b)]))
      case TitleProp(t) => Ok(g.(log := g.log + [SetTitle(issue, t)]))
      case MilestoneProp(m) => Ok(g.(log := g.log + [SetMilestone(issue, m)]))
  }

  /** The index of the first `x` in `labels`. */
  function IndexOf(labels: seq<string>, x: string): (i: nat)
    requires x in labels
    ensures i < |labels| && labels[i] == x && x !in labels[..i]
  {
    if labels[0] == x then 0
    else
      var i := 1 + IndexOf(labels[1..], x);
      assert labels[..i] == [labels[0]] + labels[1..][..i - 1];
      i
  }

  /** `labels.remove(x)`: drops the first `x`, a `ValueError` when there is none. */
  function Remove(labels: seq<string>, x: string): (r: Result<seq<string>, Exception>)
    ensures r.Ok? <==> x in labels
    ensures r.Ok? ==> r.value == labels[..IndexOf(labels, x)] + labels[IndexOf(labels, x) + 1..]
    ensures r.Err? ==> r.error.ValueError?
  {
    if labels == [] then Err(ValueError("list.remove(x): x not in list"))
    else if labels[0] == x then Ok(labels[1..])
    else
      var rest :- Remove(labels[1..], x);
      RemoveBehindHead(labels, x);
      Ok([labels[0]] + rest)
  }

  /** Removing behind a head that differs keeps the head. */
  lemma RemoveBehindHead(labels: seq<string>, x: string)
    requires labels != [] && labels[0] != x && x in labels[1..]
    ensures var i := IndexOf(labels[1..], x);
            labels[..IndexOf(labels, x)] + labels[IndexOf(labels, x) + 1..]
            == [labels[0]] + (labels[1..][..i] + labels[1..][i + 1..])
  {
    var i := IndexOf(labels[1..], x);
    assert IndexOf(labels, x) == i + 1;
    assert labels[..i + 1] == [labels[0]] + labels[1..][..i];
    assert labels[i + 2..] == labels[1..][i + 1..];
  }

  /** Removing takes exactly one `x` out of the multiset of labels. */
  lemma {:induction false} RemoveMultiset(labels: seq<string>, x: string)
    ensures Remove(labels, x).Ok? ==> multiset(Remove(labels, x).value) == multiset(labels) - multiset{x}
  {
    if labels != [] {
      assert labels == [labels[0]] + labels[1..];
      if labels[0] != x {
        RemoveMultiset(labels[1..], x);
      }
    }
  }

  // ---------------------------------------------------------------------------
  // Milestones (the first loop of `convert_issues`).

  /** The milestone request for a Trac milestone. */
  function MilestoneAction(cfg: Config, m: Milestone): Action {
    CreateMilestone(m.name, m.completed == "0", cfg.milestoneMarkdown(m.description), m.due)
  }

  /** Creating the milestones in order: each name maps to its milestone's
      number, and each creation is logged. */
  function MilestonesCreated(cfg: Config, online: bool, g: Globals, ms: seq<Milestone>): (r: (Globals, map<string, nat>))
    ensures online ==> r.0.log == g.log + seq(|ms|, i requires 0 <= i < |ms| => MilestoneAction(cfg, ms[i]))
    ensures online ==> r.0.milestones == g.milestones + |ms|
    ensures !online ==> r.0 == g
    ensures r.1.Keys == set m | m in ms :: m.name
  {
    if ms == [] then (g, map[])
    else
      var (g1, mm) := MilestonesCreated(cfg, online, g, ms[..|ms| - 1]);
      var m := ms[|ms| - 1];
      var g2 := if online then g1.(log := g1.log + [MilestoneAction(cfg, m)], milestones := g1.milestones + 1) else g1;
      assert ms[..|ms| - 1] + [m] == ms;
      assert (set x | x in ms :: x.name) == (set x | x in ms[..|ms| - 1] :: x.name) + {m.name};
      (g2, mm[m.name := if online then g2.milestones else 0])
  }

  /** Each name maps to the number of the last milestone with that name: the
      dictionary assignment of a later milestone overwrites an earlier one. */
  lemma {:induction false} MilestoneNumbers(cfg: Config, online: bool, g: Globals, ms: seq<Milestone>)
    ensures var r := MilestonesCreated(cfg, online, g, ms);
            forall i :: 0 <= i < |ms| && LastNamed(ms, i) ==> r.1[ms[i].name] == if online then g.milestones + i + 1 else 0
  {
    if ms != [] {
      var init := ms[..|ms| - 1];
      MilestoneNumbers(cfg, online, g, init);
      MilestoneNamesKept(cfg, online, g, init);
      MilestoneMapOneMore(cfg, online, g, ms);
      MilestoneNumbersOneMore(ms, MilestonesCreated(cfg, online, g, init).1, online, g.milestones);
    }
  }

  lemma MilestoneMapOneMore(cfg: Config, online: bool, g: Globals, ms: seq<Milestone>)
    requires ms != []
    ensures MilestonesCreated(cfg, online, g, ms).1
            == MilestonesCreated(cfg, online, g, ms[..|ms| - 1]).1[ms[|ms| - 1].name := if online then g.milestones + |ms| else 0]
  {
  }

  lemma MilestoneNamesKept(cfg: Config, online: bool, g: Globals, ms: seq<Milestone>)
    ensures forall i :: 0 <= i < |ms| ==> ms[i].name in MilestonesCreated(cfg, online, g, ms).1
  {
    assert forall i :: 0 <= i < |ms| ==> ms[i] in ms;
  }

  /** No later milestone has the name of milestone `i`. */
  predicate LastNamed(ms: seq<Milestone>, i: nat)
    requires i < |ms|
  {
    forall j :: i < j < |ms| ==> ms[j].name != ms[i].name
  }

  /** The last milestone's number wins for its name; the others keep theirs. */
  lemma MilestoneNumbersOneMore(ms: seq<Milestone>, mm: map<string, nat>, online: bool, first: nat)
    requires ms != []
    requires var init := ms[..|ms| - 1];
             forall i :: 0 <= i < |init| ==> init[i].name in mm
    requires var init := ms[..|ms| - 1];
             forall i :: 0 <= i < |init| && LastNamed(init, i) ==> mm[init[i].name] == if online then first + i + 1 else 0
    ensures var mm' := mm[ms[|ms| - 1].name := if online then first + |ms| else 0];
            forall i :: 0 <= i < |ms| && LastNamed(ms, i) ==> mm'[ms[i].name] == if online then first + i + 1 else 0
  {
    var init := ms[..|ms| - 1];
    var mm' := mm[ms[|ms| - 1].name := if online then first + |ms| else 0];
    forall i | 0 <= i < |ms| && LastNamed(ms, i)
      ensures mm'[ms[i].name] == if online then first + i + 1 else 0
    {
      if i < |ms| - 1 {
        assert init[i] == ms[i];
        assert ms[|ms| - 1].name != ms[i].name;
        assert LastNamed(init, i);
      }
    }
  }

  // ---------------------------------------------------------------------------
  // The initial attributes of a ticket.

  /** The ten fields whose initial value is recovered from the changelog. */
  const Tracked: set<string> :=
    {"component", "owner", "version", "type", "description", "summary", "priority", "severity", "keywords", "status"}

  /** The stripped old value of the first change to `field`, if any. */
  function FirstOld(changelog: seq<Change>, field: string): Option<string> {
    if changelog == [] then None
    else
      var earlier := FirstOld(changelog[..|changelog| - 1], field);
      var last := changelog[|changelog| - 1];
      if earlier.Some? then earlier
      else if last.field == field then Some(Strip(last.oldValue))
      else None
  }

  /** The first change to `field` gives its value ... */
  lemma {:induction false} FirstOldAt(changelog: seq<Change>, field: string, k: nat)
    requires k < |changelog| && changelog[k].field == field
    requires forall j :: 0 <= j < k ==> changelog[j].field != field
    ensures FirstOld(changelog, field) == Some(Strip(changelog[k].oldValue))
    decreases |changelog|
  {
    if k < |changelog| - 1 {
      var init := changelog[..|changelog| - 1];
      FirstOldAt(init, field, k);
    } else {
      FirstOldNone(changelog[..|changelog| - 1], field);
    }
  }

  /** ... and without a change to `field` there is none. */
  lemma {:induction false} FirstOldNone(changelog: seq<Change>, field: string)
    ensures FirstOld(changelog, field).None? <==> forall j :: 0 <= j < |changelog| ==> changelog[j].field != field
  {
    if changelog != [] {
      var init := changelog[..|changelog| - 1];
      FirstOldNone(init, field);
      assert forall j :: 0 <= j < |init| ==> init[j] == changelog[j];
    }
  }

  /** The first old values of the tracked fields found in a changelog. */
  function FirstOlds(changelog: seq<Change>): map<string, string> {
    map f | f in Tracked && FirstOld(changelog, f).Some? :: FirstOld(changelog, f).value
  }

  /** One more change adds its field's stripped old value, unless the field is
      untracked or already found. */
  lemma FirstOldsOneMore(init: seq<Change>, ch: Change)
    ensures FirstOlds(init + [ch])
            == if ch.field in Tracked && ch.field !in FirstOlds(init)
               then FirstOlds(init)[ch.field := Strip(ch.oldValue)] else FirstOlds(init)
  {
    var all := init + [ch];
    assert all[..|all| - 1] == init;
    forall f
      ensures FirstOld(all, f) == if FirstOld(init, f).Some? then FirstOld(init, f)
                                  else if ch.field == f then Some(Strip(ch.oldValue)) else None
    {
    }
  }

  /** Lines 448-479: the first stripped old value of each tracked field, found
      by one pass over the changelog. */
  method RecoverFirstOlds(changelog: seq<Change>) returns (found: map<string, string>)
    ensures found == FirstOlds(changelog)
  {
    found := map[];
    for i := 0 to |changelog|
      invariant found == FirstOlds(changelog[..i])
    {
      assert changelog[..i + 1] == changelog[..i] + [changelog[i]];
      FirstOldsOneMore(changelog[..i], changelog[i]);
      var ch := changelog[i];
      if ch.field in Tracked && ch.field !in found {
        found := found[ch.field := Strip(ch.oldValue)];
      }
    }
    assert changelog[..|changelog|] == changelog;
  }

  /** The attributes a ticket had when it was created. `component`, `version`
      and `ticketType` may be missing from the ticket data. */
  datatype Attributes = Attributes(
    component: Option<string>,
    owner: string,
    version: Option<string>,
    ticketType: Option<string>,
    description: string,
    summary: string,
    priority: string,
    severity: string,
    keywords: string,
    status: string)

  /** `x = data[f]` when the changelog did not give `x`. */
  function Required(found: map<string, string>, data: map<string, string>, f: string): (r: Result<string, Exception>)
    ensures r.Err? <==> f !in found && f !in data
  {
    if f in found then Ok(found[f]) else if f in data then Ok(data[f]) else Err(KeyError(f))
  }

  /** `x = data.get(f)` when the changelog did not give `x`. */
  function Optional(found: map<string, string>, data: map<string, string>, f: string): Option<string> {
    if f in found then Some(found[f]) else if f in data then Some(data[f]) else None
  }

  /** Lines 482-501: the recovered values, else the current ticket data. */
  function WithFallbacks(found: map<string, string>, data: map<string, string>): (r: Result<Attributes, Exception>)
    ensures r.Ok? <==> forall f :: f in {"owner", "description", "summary", "keywords", "status"} ==> f in found || f in data
  {
    var owner :- Required(found, data, "owner");
    var description :- Required(found, data, "description");
    var summary :- Required(found, data, "summary");
    var keywords :- Required(found, data, "keywords");
    var status :- Required(found, data, "status");
    Ok(Attributes(
      Optional(found, data, "component"),
      owner,
      Optional(found, data, "version"),
      Optional(found, data, "type"),
      description,
      summary,
      if "priority" in found then found["priority"] else if "priority" in data then data["priority"] else "normal",
      if "severity" in found then found["severity"] else if "severity" in data then data["severity"] else "normal",
      keywords,
      status))
  }

  /** The initial attributes of a ticket with changelog `changelog` and current
      data `data`. */
  function InitialAttributes(changelog: seq<Change>, data: map<string, string>): Result<Attributes, Exception> {
    WithFallbacks(FirstOlds(changelog), data)
  }

  /** The initial value of a tracked field as `Attributes` holds it (`None`
      for a missing component, version or type). */
  function FieldOf(a: Attributes, f: string): Option<string> {
    if f == "component" then a.component
    else if f == "owner" then Some(a.owner)
    else if f == "version" then a.version
    else if f == "type" then a.ticketType
    else if f == "description" then Some(a.description)
    else if f == "summary" then Some(a.summary)
    else if f == "priority" then Some(a.priority)
    else if f == "severity" then Some(a.severity)
    else if f == "keywords" then Some(a.keywords)
    else if f == "status" then Some(a.status)
    else None
  }

  /** What a field no change touched falls back to: the ticket data, else
      "normal" for priority and severity. */
  function Fallback(data: map<string, string>, f: string): Option<string> {
    if f in data then Some(data[f])
    else if f == "priority" || f == "severity" then Some("normal")
    else None
  }

  /** A recovered value wins over the fallback, for every tracked field. */
  lemma FieldFromFound(found: map<string, string>, data: map<string, string>, f: string)
    requires f in Tracked && WithFallbacks(found, data).Ok?
    ensures FieldOf(WithFallbacks(found, data).value, f) == if f in found then Some(found[f]) else Fallback(data, f)
  {
  }

  /** A field some change touched starts out as that change's stripped old
      value; the first such change counts. */
  lemma InitialFieldFromFirstChange(changelog: seq<Change>, data: map<string, string>, f: string, k: nat)
    requires f in Tracked
    requires k < |changelog| && changelog[k].field == f
    requires forall j :: 0 <= j < k ==> changelog[j].field != f
    requires InitialAttributes(changelog, data).Ok?
    ensures FieldOf(InitialAttributes(changelog, data).value, f) == Some(Strip(changelog[k].oldValue))
  {
    FirstOldAt(changelog, f, k);
    FieldFromFound(FirstOlds(changelog), data, f);
  }

  /** A field no change touched is taken from the ticket data; priority and
      severity default to "normal", and the other fields the script reads
      with `data[f]` must be there. */
  lemma UntouchedFieldsFromData(changelog: seq<Change>, data: map<string, string>, f: string)
    requires f in Tracked
    requires forall j :: 0 <= j < |changelog| ==> changelog[j].field != f
    requires InitialAttributes(changelog, data).Ok?
    ensures FieldOf(InitialAttributes(changelog, data).value, f) == Fallback(data, f)
    ensures f in {"owner", "description", "summary", "keywords", "status"} ==> f in data
  {
    FirstOldNone(changelog, f);
    FieldFromFound(FirstOlds(changelog), data, f);
  }

  // ---------------------------------------------------------------------------
  // The initial labels.

  /** `[k.strip() for k in keywords.split(',')]`. */
  function KeywordLabels(keywords: string): (r: seq<string>)
    ensures var parts := Split(keywords, ',');
            |r| == |parts| && forall i :: 0 <= i < |parts| ==> r[i] == Strip(parts[i])
  {
    var parts := Split(keywords, ',');
    seq(|parts|, i requires 0 <= i < |parts| => Strip(parts[i]))
  }

  /** The labels lines 509-520 add after `add_label`, each with its colour, in
      order: component, priority, severity, mapped type. */
  function FixedRequests(cfg: Config, a: Attributes): seq<(string, string)> {
    (if a.component.Some? && Strip(a.component.value) != "" then [(a.component.value, cfg.colors.component)] else [])
    + (if a.priority != "normal" then [(a.priority, cfg.colors.priority)] else [])
    + (if a.severity != "normal" then [(a.severity, cfg.colors.severity)] else [])
    + (if a.ticketType.Some? then [(MapTicketType(a.ticketType.value), cfg.colors.ticketType)] else [])
  }

  /** The keyword labels of lines 521-524, each with the keyword colour. */
  function KeywordRequests(cfg: Config, a: Attributes): (r: seq<(string, string)>)
    ensures var kws := KeywordLabels(a.keywords);
            if a.keywords != "" && cfg.keywordsToLabels
            then |r| == |kws| && forall i :: 0 <= i < |kws| ==> r[i] == (kws[i], cfg.colors.keyword)
            else r == []
  {
    var kws := KeywordLabels(a.keywords);
    if a.keywords != "" && cfg.keywordsToLabels
    then seq(|kws|, i requires 0 <= i < |kws| => (kws[i], cfg.colors.keyword)) else []
  }

  /** Every label requested at creation, in order. */
  function LabelRequests(cfg: Config, a: Attributes): seq<(string, string)> {
    FixedRequests(cfg, a) + KeywordRequests(cfg, a)
  }

  function Names(requests: seq<(string, string)>): (r: seq<string>)
    ensures |r| == |requests| && forall i :: 0 <= i < |requests| ==> r[i] == requests[i].0
  {
    seq(|requests|, i requires 0 <= i < |requests| => requests[i].0)
  }

  /** The initial label list of an issue. */
  function InitialLabels(cfg: Config, a: Attributes): seq<string> {
    (if cfg.addLabel != "" then [cfg.addLabel] else []) + Names(LabelRequests(cfg, a))
  }

  /** `gh_ensure_label` for each request in order. */
  function EnsuredLabels(g: Globals, online: bool, requests: seq<(string, string)>): (r: Globals)
    ensures r.unmapped == g.unmapped && r.issues == g.issues && r.milestones == g.milestones
    ensures !online ==> r == g
    ensures forall k :: k in g.labels ==> k in r.labels && r.labels[k] == g.labels[k]
    ensures NoSetState(g.log, r.log)
  {
    if requests == [] then g
    else
      var last := requests[|requests| - 1];
      EnsuredLabel(EnsuredLabels(g, online, requests[..|requests| - 1]), online, last.0, last.1)
  }

  /** Every requested label is registered afterwards (with a destination). */
  lemma {:induction false} EnsuredLabelsRegistered(g: Globals, requests: seq<(string, string)>)
    ensures forall i :: 0 <= i < |requests| ==> Lower(requests[i].0) in EnsuredLabels(g, true, requests).labels
  {
    if requests != [] {
      var init := requests[..|requests| - 1];
      EnsuredLabelsRegistered(g, init);
      assert forall i :: 0 <= i < |init| ==> init[i] == requests[i];
    }
  }

  /** A ticket without component, type or keywords and with normal priority and
      severity gets only the configured extra label. */
  lemma PlainTicketLabels(cfg: Config, a: Attributes)
    requires a.component.None? && a.ticketType.None? && a.priority == "normal" && a.severity == "normal" && a.keywords == ""
    ensures InitialLabels(cfg, a) == if cfg.addLabel != "" then [cfg.addLabel] else []
  {
  }

  /** With keywords turned into labels, each comma-separated keyword becomes a
      label, stripped, after the fixed labels. */
  lemma KeywordsAreLastLabels(cfg: Config, a: Attributes)
    requires a.keywords != "" && cfg.keywordsToLabels
    ensures var labels := InitialLabels(cfg, a);
            var kws := KeywordLabels(a.keywords);
            |labels| >= |kws| && labels[|labels| - |kws|..] == kws
  {
    var fixed, tail := FixedRequests(cfg, a), KeywordRequests(cfg, a);
    var extra := if cfg.addLabel != "" then [cfg.addLabel] else [];
    assert InitialLabels(cfg, a) == extra + Names(fixed + tail);
    NamesSuffix(extra, fixed, tail);
    KeywordNames(cfg, a);
  }

  lemma KeywordNames(cfg: Config, a: Attributes)
    requires a.keywords != "" && cfg.keywordsToLabels
    ensures Names(KeywordRequests(cfg, a)) == KeywordLabels(a.keywords)
  {
    var kws := KeywordLabels(a.keywords);
    var names := Names(KeywordRequests(cfg, a));
    assert |names| == |kws|;
    forall i | 0 <= i < |kws| ensures names[i] == kws[i] {}
  }

  lemma NamesSuffix(extra: seq<string>, fixed: seq<(string, string)>, tail: seq<(string, string)>)
    ensures var labels := extra + Names(fixed + tail);
            |labels| >= |tail| && labels[|labels| - |tail|..] == Names(tail)
  {
    var labels := extra + Names(fixed + tail);
    forall i | 0 <= i < |tail| ensures labels[|labels| - |tail|..][i] == Names(tail)[i] {
      assert labels[|extra| + |fixed| + i] == (fixed + tail)[|fixed| + i].0;
    }
  }

  // ---------------------------------------------------------------------------
  // The description header.

  function DescriptionHead(reporter: string, created: string): string {
    MigrationNote + "Original creator: " + reporter + "\n\n" + "Original creation time: " + created + "\n\n"
  }

  const MigrationNote: string := "Issue created by migration from Trac.\n\n"

  /** The cc list as the loop at lines 545-551 reads it: lower-cased, `;` turned
      into `,`, split at `,`. */
  function CcPersons(data: map<string, string>): seq<string> {
    var cc := if "cc" in data then data["cc"] else "";
    Split(Replace(Lower(cc), ";", ","), ',')
  }

  /** The stripped, non-blank entries of a split list, in order. */
  function NonBlank(entries: seq<string>): (r: seq<string>)
    ensures forall i :: 0 <= i < |r| ==> r[i] != ""
  {
    if entries == [] then []
    else
      var k := Strip(entries[|entries| - 1]);
      NonBlank(entries[..|entries| - 1]) + (if k != "" then [k] else [])
  }

  /** Every name has a handle. */
  predicate AllResolve(users: map<string, string>, names: seq<string>) {
    forall i :: 0 <= i < |names| ==> GhUsername(users, names[i]).Ok?
  }

  /** The names among `names` that `gh_username` leaves unchanged. */
  function UnmappedOf(users: map<string, string>, names: seq<string>): set<string> {
    set n | n in names && IsUnmapped(users, n)
  }

  /** The handles of `names`, each after a space. */
  function SpacedHandles(users: map<string, string>, names: seq<string>): (r: string)
    requires AllResolve(users, names)
    ensures r == "" <==> names == []
  {
    if names == [] then "" else " " + GhUsername(users, names[0]).value + SpacedHandles(users, names[1..])
  }

  /** One more name adds its handle at the end. */
  lemma {:induction false} SpacedHandlesSnoc(users: map<string, string>, names: seq<string>, name: string)
    requires AllResolve(users, names) && GhUsername(users, name).Ok?
    ensures AllResolve(users, names + [name])
    ensures SpacedHandles(users, names + [name]) == SpacedHandles(users, names) + " " + GhUsername(users, name).value
  {
    var all := names + [name];
    AllResolveConcat(users, names, [name]);
    if names == [] {
      assert all == [name];
    } else {
      assert all[0] == names[0] && all[1..] == names[1..] + [name];
      SpacedHandlesSnoc(users, names[1..], name);
      var first := " " + GhUsername(users, names[0]).value;
      ConcatAssoc4(first, SpacedHandles(users, names[1..]), " ", GhUsername(users, name).value);
    }
  }

  lemma AllResolveConcat(users: map<string, string>, a: seq<string>, b: seq<string>)
    ensures AllResolve(users, a + b) <==> AllResolve(users, a) && AllResolve(users, b)
  {
    var all := a + b;
    assert forall i :: 0 <= i < |a| ==> all[i] == a[i];
    assert forall i :: 0 <= i < |b| ==> all[|a| + i] == b[i];
  }

  lemma UnmappedOfConcat(users: map<string, string>, a: seq<string>, b: seq<string>)
    ensures UnmappedOf(users, a + b) == UnmappedOf(users, a) + UnmappedOf(users, b)
  {
  }

  /** Resolving the non-blank cc entries in order: `ccstr` and the new state. */
  function CcResolved(g: Globals, users: map<string, string>, persons: seq<string>): (r: Result<(Globals, string), Exception>)
    ensures r.Ok? <==> AllResolve(users, NonBlank(persons))
    ensures r.Ok? ==> r.value.1 == SpacedHandles(users, NonBlank(persons))
    ensures r.Ok? ==> r.value.0 == g.(unmapped := g.unmapped + UnmappedOf(users, NonBlank(persons)))
  {
    if persons == [] then Ok((g, ""))
    else
      var person := Strip(persons[|persons| - 1]);
      NonBlankSnoc(persons);
      AllResolveSnoc(users, NonBlank(persons[..|persons| - 1]), person);
      match CcResolved(g, users, persons[..|persons| - 1])
      case Err(e) => Err(e)
      case Ok(before) =>
        if person == "" then Ok(before)
        else
          UnmappedOfSnoc(users, NonBlank(persons[..|persons| - 1]), person);
          match Resolved(before.0, users, person)
          case Err(e) => Err(e)
          case Ok(resolved) =>
            SpacedHandlesSnoc(users, NonBlank(persons[..|persons| - 1]), person);
            Ok((resolved.0, before.1 + " " + resolved.1))
  }

  /** One more entry is kept, stripped, unless it is blank. */
  lemma NonBlankSnoc(entries: seq<string>)
    requires entries != []
    ensures var k := Strip(entries[|entries| - 1]);
            NonBlank(entries) == if k != "" then NonBlank(entries[..|entries| - 1]) + [k] else NonBlank(entries[..|entries| - 1])
  {
    var k := Strip(entries[|entries| - 1]);
    assert NonBlank(entries[..|entries| - 1]) + [] == NonBlank(entries[..|entries| - 1]);
  }

  lemma AllResolveSnoc(users: map<string, string>, names: seq<string>, name: string)
    ensures AllResolve(users, names + [name]) <==> AllResolve(users, names) && GhUsername(users, name).Ok?
  {
    AllResolveConcat(users, names, [name]);
    assert AllResolve(users, [name]) <==> GhUsername(users, [name][0]).Ok?;
  }

  lemma UnmappedOfSnoc(users: map<string, string>, names: seq<string>, name: string)
    requires name != ""
    ensures UnmappedOf(users, names + [name]) == UnmappedOf(users, names) + OwnerUnmapped(users, name)
  {
    UnmappedOfConcat(users, names, [name]);
    assert UnmappedOf(users, [name]) == OwnerUnmapped(users, name);
  }

  /** The assignee line, when the ticket had an owner. */
  function OwnerPart(g: Globals, users: map<string, string>, owner: string): (r: Result<(Globals, string), Exception>)
    ensures r.Ok? <==> owner != "" ==> GhUsername(users, owner).Ok?
    ensures r.Ok? ==> r.value.1 == OptionalLine(owner != "", "Assignee", if owner != "" then GhUsername(users, owner).value else "")
    ensures r.Ok? ==> r.value.0 == g.(unmapped := g.unmapped + OwnerUnmapped(users, owner))
  {
    if owner == "" then Ok((g, ""))
    else
      var res :- Resolved(g, users, owner);
      Ok((res.0, OptionalLine(true, "Assignee", res.1)))
  }

  /** The owner, when `gh_username` leaves it unchanged. */
  function OwnerUnmapped(users: map<string, string>, owner: string): set<string> {
    if owner != "" && IsUnmapped(users, owner) then {owner} else {}
  }

  /** `name: value` and an empty line when `present`, else nothing. */
  function OptionalLine(present: bool, name: string, value: string): string {
    if present then name + ": " + value + "\n\n" else ""
  }

  /** The owner, if any, and every non-blank cc entry have a handle. */
  predicate HeaderResolves(users: map<string, string>, a: Attributes, data: map<string, string>) {
    (a.owner != "" ==> GhUsername(users, a.owner).Ok?) && AllResolve(users, NonBlank(CcPersons(data)))
  }

  /** The text put before the description: the head, then the header lines. */
  function Header(cfg: Config, a: Attributes, data: map<string, string>, reporter: string, created: string): (r: string)
    requires HeaderResolves(cfg.users, a, data)
    ensures StartsWith(r, DescriptionHead(reporter, created))
  {
    var head := DescriptionHead(reporter, created);
    var r := head + HeaderLines(cfg, a, data);
    assert r[..|head|] == head;
    r
  }

  /** The assignee, version, cc and keywords lines, each only under its
      condition. */
  function HeaderLines(cfg: Config, a: Attributes, data: map<string, string>): string
    requires HeaderResolves(cfg.users, a, data)
  {
    OptionalLine(a.owner != "", "Assignee", if a.owner != "" then GhUsername(cfg.users, a.owner).value else "")
    + LinesAfterAssignee(cfg, a, data)
  }

  /** The version, cc and keywords lines. */
  function LinesAfterAssignee(cfg: Config, a: Attributes, data: map<string, string>): string
    requires AllResolve(cfg.users, NonBlank(CcPersons(data)))
  {
    var cc := SpacedHandles(cfg.users, NonBlank(CcPersons(data)));
    OptionalLine(a.version.Some? && a.version.value != "trunk", "Version", if a.version.Some? then a.version.value else "")
    + OptionalLine(cc != "", "CC", cc)
    + OptionalLine(a.keywords != "" && !cfg.keywordsToLabels, "Keywords", a.keywords)
  }

  /** Lines 526-556: the text put before the converted description. */
  function DescriptionPre(g: Globals, cfg: Config, a: Attributes, data: map<string, string>, reporter: string, created: string)
    : (r: Result<(Globals, string), Exception>)
    ensures r.Ok? <==> HeaderResolves(cfg.users, a, data)
    ensures r.Ok? ==> r.value.1 == Header(cfg, a, data, reporter, created)
    ensures r.Ok? ==> r.value.0 == g.(unmapped := g.unmapped + OwnerUnmapped(cfg.users, a.owner) + UnmappedOf(cfg.users, NonBlank(CcPersons(data))))
  {
    var head := DescriptionHead(reporter, created);
    var owner :- OwnerPart(g, cfg.users, a.owner);
    var rest :- LinesAfterOwner(owner.0, cfg, a, data);
    Ok((rest.0, head + (owner.1 + rest.1)))
  }

  /** Lines 541-556: the version line, the cc entries resolved to handles,
      and the keywords line. */
  function LinesAfterOwner(g: Globals, cfg: Config, a: Attributes, data: map<string, string>)
    : (r: Result<(Globals, string), Exception>)
    ensures r.Ok? <==> AllResolve(cfg.users, NonBlank(CcPersons(data)))
    ensures r.Ok? ==> r.value.1 == LinesAfterAssignee(cfg, a, data)
    ensures r.Ok? ==> r.value.0 == g.(unmapped := g.unmapped + UnmappedOf(cfg.users, NonBlank(CcPersons(data))))
  {
    var version := OptionalLine(a.version.Some? && a.version.value != "trunk", "Version", if a.version.Some? then a.version.value else "");
    var cc :- CcResolved(g, cfg.users, CcPersons(data));
    var ccLine := OptionalLine(cc.1 != "", "CC", cc.1);
    var keywords := OptionalLine(a.keywords != "" && !cfg.keywordsToLabels, "Keywords", a.keywords);
    Ok((cc.0, version + ccLine + keywords))
  }

  // ---------------------------------------------------------------------------
  // Statuses.

  /** Statuses an issue is created open with. */
  const OpenAtCreation: set<string> := {"new", "assigned", "analyzed", "reopened"}

  /** Statuses a status change maps to open. */
  const OpenStatuses: set<string> := OpenAtCreation + {"needs_review", "needs_work", "positive_review"}

  /** Lines 576-584: the state an issue is created in. */
  function InitialState(status: string): (r: Result<string, Exception>)
    ensures r.Ok? <==> status in OpenAtCreation || status == "closed"
    ensures r.Ok? ==> (r.value == "closed" <==> status == "closed") && r.value in {"open", "closed"}
  {
    if status in OpenAtCreation then Ok("open")
    else if status == "closed" then Ok("closed")
    else Err(ValueError("  unknown ticket status: " + status))
  }

  /** Lines 623-630: the state a status change maps to. */
  function ChangedState(status: string): (r: Result<string, Exception>)
    ensures r.Ok? <==> status in OpenStatuses || status == "closed"
    ensures r.Ok? ==> (r.value == "closed" <==> status == "closed") && r.value in {"open", "closed"}
  {
    if status in OpenStatuses then Ok("open")
    else if status == "closed" then Ok("closed")
    else Err(ValueError("  unknown ticket status: " + status))
  }

  /** A status an issue can be created with maps to the same state when a
      later change sets it. */
  lemma StatusMappingsAgree(status: string)
    requires InitialState(status).Ok?
    ensures ChangedState(status) == InitialState(status)
  {
  }

  // ---------------------------------------------------------------------------
  // Placeholders for deleted tickets.

  function PlaceholderTitle(n: int): string {
    "Deleted trac ticket " + IntToString(n)
  }

  function PlaceholderBody(n: int): string {
    "Ticket " + IntToString(n) + DeletedNote
  }

  const DeletedNote: string := " had been deleted in the original Trac instance. This empty ticket serves"
    + " as placeholder to ensure a proper 1:1 mapping of ticket ids to issue ids."

  /** The actions for the placeholders of the `count` tickets `from`,
      `from + 1`, ..., whose issues get the numbers `first`, `first + 1`, ... */
  function Placeholders(from: int, count: nat, first: nat): (r: seq<Action>)
    ensures |r| == 2 * count
  {
    if count == 0 then []
    else Placeholders(from, count - 1, first)
         + [CreateIssue(PlaceholderTitle(from + count - 1), PlaceholderBody(from + count - 1), [], None),
            SetState(first + count - 1, "closed")]
  }

  lemma PlaceholdersOneMore(from: int, count: nat, first: nat)
    ensures Placeholders(from, count + 1, first)
            == Placeholders(from, count, first)
               + [CreateIssue(PlaceholderTitle(from + count), PlaceholderBody(from + count), [], None), SetState(first + count, "closed")]
  {
  }

  /** Each missing ticket yields one placeholder issue, created and closed; when
      the next issue number is the first missing ticket id, placeholder `n` is
      issue `n`. */
  lemma {:induction false} PlaceholdersNumbered(from: nat, count: nat, k: nat)
    requires k < count
    ensures Placeholders(from, count, from)[2 * k] == CreateIssue(PlaceholderTitle(from + k), PlaceholderBody(from + k), [], None)
    ensures Placeholders(from, count, from)[2 * k + 1] == SetState(from + k, "closed")
  {
    var last := from + count - 1;
    var pre := Placeholders(from, count - 1, from);
    assert Placeholders(from, count, from)
           == pre + [CreateIssue(PlaceholderTitle(last), PlaceholderBody(last), [], None), SetState(last, "closed")];
    if k < count - 1 {
      PlaceholdersNumbered(from, count - 1, k);
    } else {
      assert from + k == last;
    }
  }

  /** Without an only-list, a blacklist or a filter, the ticket ids are kept
      dense by placeholders. */
  predicate FillsGaps(cfg: Config, onlyIssues: seq<int>, blacklist: seq<int>) {
    onlyIssues == [] && blacklist == [] && !cfg.filterConfigured
  }

  /** Whether the outer loop skips a ticket. */
  predicate Skipped(id: int, onlyIssues: seq<int>, blacklist: seq<int>) {
    (onlyIssues != [] && id !in onlyIssues) || (blacklist != [] && id in blacklist)
  }
}
