/** `convert_issues` (migrate.py) in the form the script has: the global
    state (`gh_labels`, `unmapped_users`, the destination) is an object whose
    fields the helpers update, and the loops over milestones, labels, missing
    ticket ids, changelog entries and tickets are loops. Each method is proved
    to do what the functions of `IssueModel` and `ChangeReplay` say. After an
    error the state is left unconstrained: the script stops there. */
module ConvertIssues {
  import opened Outcomes
  import opened Text
  import opened TicketMapping
  import opened IssueModel
  import opened ChangeReplay

  /** Lines 719-724: the label of each stripped, non-blank old keyword
      removed in turn; `list.remove` fails on the first one missing. */
  method RemoveKeywordLabels(labels: seq<string>, keywords: seq<string>) returns (r: Result<seq<string>, Exception>)
    ensures r == RemovedKeywords(labels, keywords)
  {
    var kept := labels;
    for i := 0 to |keywords|
      invariant RemovedKeywords(labels, keywords[..i]) == Ok(kept)
    {
      RemovedKeywordsOneMore(labels, keywords, i, kept);
      var keyword := Strip(keywords[i]);
      if keyword != "" {
        var removed := Remove(kept, keyword);
        if removed.Err? {
          RemovedKeywordsErrorKept(labels, keywords, i + 1);
          return removed;
        }
        kept := removed.value;
      }
    }
    assert keywords[..|keywords|] == keywords;
    r := Ok(kept);
  }

  class Migration {
    /** The configuration, and whether there is a destination (`dest`). */
    const cfg: Config
    const online: bool

    /** `gh_labels`: lower-cased name to the label as created. */
    var labels: map<string, string>
    /** `unmapped_users`. */
    var unmapped: set<string>
    /** What the destination was asked to do, and the issues and milestones
        it holds. */
    var log: seq<Action>
    var issues: nat
    var milestones: nat

    function State(): Globals
      reads this
    {
      Globals(labels, unmapped, log, issues, milestones)
    }

    constructor(cfg: Config, online: bool)
      ensures this.cfg == cfg && this.online == online
      ensures State() == Globals(map[], {}, [], 0, 0)
    {
      this.cfg := cfg;
      this.online := online;
      labels := map[];
      unmapped := {};
      log := [];
      issues := 0;
      milestones := 0;
    }

    /** Takes over a global state computed by one of the model's functions. */
    method Adopt(g: Globals)
      modifies this
      ensures State() == g
    {
      labels, unmapped, log, issues, milestones := g.labels, g.unmapped, g.log, g.issues, g.milestones;
    }

    // -------------------------------------------------------------------------
    // The GitHub helpers.

    /** `gh_ensure_label`. */
    method EnsureLabel(name: string, color: string)
      modifies this
      ensures State() == EnsuredLabel(old(State()), online, name, color)
    {
      if !online || Lower(name) in labels {
        return;
      }
      labels := labels[Lower(name) := name];
      log := log + [CreateLabel(name, color)];
    }

    /** `gh_username`, adding a name it leaves unchanged to `unmapped_users`. */
    method Username(name: string) returns (r: Result<string, Exception>)
      modifies this
      ensures var s := Resolved(old(State()), cfg.users, name);
              (s.Ok? ==> r == Ok(s.value.1) && State() == s.value.0) && (s.Err? ==> r == Err(s.error))
    {
      var handle := GhUsername(cfg.users, name);
      if handle.Err? {
        return Err(handle.error);
      }
      if IsUnmapped(cfg.users, name) {
        unmapped := unmapped + {name};
      }
      r := Ok(handle.value);
    }

    /** `gh_create_milestone`: the new milestone's number (0 without a
        destination). */
    method CreateMilestone(m: Milestone) returns (number: nat)
      modifies this
      ensures online ==> State() == old(State()).(log := old(log) + [MilestoneAction(cfg, m)], milestones := old(milestones) + 1)
      ensures online ==> number == milestones
      ensures !online ==> State() == old(State()) && number == 0
    {
      if !online {
        return 0;
      }
      log := log + [MilestoneAction(cfg, m)];
      milestones := milestones + 1;
      number := milestones;
    }

    /** `gh_create_issue`: the new issue's number (0 without a destination). */
    method CreateIssue(title: string, body: string, names: seq<string>, milestone: Option<nat>)
      returns (r: Result<nat, Exception>)
      modifies this
      ensures var s := IssueCreated(old(State()), online, title, body, names, milestone);
              (s.Ok? ==> r == Ok(s.value.1) && State() == s.value.0) && (s.Err? ==> r == Err(s.error))
    {
      if !online {
        return Ok(0);
      }
      var registered := Registered(labels, names);
      if registered.Err? {
        return Err(registered.error);
      }
      issues := issues + 1;
      log := log + [Action.CreateIssue(title, body, registered.value, milestone)];
      r := Ok(issues);
    }

    /** `gh_update_issue_property`. */
    method UpdateIssueProperty(issue: nat, prop: Property) returns (r: Result<(), Exception>)
      modifies this
      ensures var s := Updated(old(State()), online, issue, prop);
              (s.Ok? ==> r.Ok? && State() == s.value) && (s.Err? ==> r == Err(s.error))
    {
      if !online {
        return Ok(());
      }
      var action;
      match prop {
        case LabelsProp(names) =>
          var registered := Registered(labels, names);
          if registered.Err? {
            return Err(registered.error);
          }
          action := SetLabels(issue, registered.value);
        case AssigneeProp(a) => action := SetAssignee(issue, a);
        case StateProp(s) => action := SetState(issue, s);
        case BodyProp(b) => action := SetBody(issue, b);
        case TitleProp(t) => action := SetTitle(issue, t);
        case MilestoneProp(m) => action := SetMilestone(issue, m);
      }
      log := log + [action];
      r := Ok(());
    }

    // -------------------------------------------------------------------------
    // Milestones, labels and missing tickets.

    /** Lines 379-390: the milestones, created in order, by name. */
    method CreateMilestones(ms: seq<Milestone>) returns (byName: map<string, nat>)
      modifies this
      ensures (State(), byName) == MilestonesCreated(cfg, online, old(State()), ms)
    {
      byName := map[];
      for i := 0 to |ms|
        invariant (State(), byName) == MilestonesCreated(cfg, online, old(State()), ms[..i])
      {
        assert ms[..i + 1][..i] == ms[..i];
        var number := CreateMilestone(ms[i]);
        byName := byName[ms[i].name := number];
      }
      assert ms[..|ms|] == ms;
    }

    /** Lines 509-524: `gh_ensure_label` for each initial label in order. */
    method EnsureLabels(requests: seq<(string, string)>)
      modifies this
      ensures State() == EnsuredLabels(old(State()), online, requests)
    {
      for i := 0 to |requests|
        invariant State() == EnsuredLabels(old(State()), online, requests[..i])
      {
        assert requests[..i + 1][..i] == requests[..i];
        EnsureLabel(requests[i].0, requests[i].1);
      }
      assert requests[..|requests|] == requests;
    }

    /** Lines 413-422: the closed placeholder issue for the missing ticket `n`. */
    method AddPlaceholder(n: int)
      modifies this
      ensures State() == if online then Placeholder(old(State()), n) else old(State())
    {
      var issue := CreateIssue(PlaceholderTitle(n), PlaceholderBody(n), [], None);
      var closed := UpdateIssueProperty(issue.value, StateProp("closed"));
    }

    /** Lines 409-422: one closed placeholder issue for each missing ticket id
        from `next` up to `id - 1`; the new `nextticketid`. */
    method FillGaps(next: int, id: int) returns (next': int)
      modifies this
      ensures (State(), next') == Filled(old(State()), online, true, next, id)
    {
      ghost var start := State();
      next' := next;
      while next' < id
        invariant next' == next || next < next' <= id
        invariant State() == Filled(start, online, true, next, next').0
      {
        if online {
          FilledOneMore(start, next, next');
        }
        AddPlaceholder(next');
        next' := next' + 1;
      }
    }

    // -------------------------------------------------------------------------
    // One ticket.

    /** Lines 502-556: the reporter resolved, the initial labels registered,
        and the text put before the description. */
    method PrepareIssue(t: Ticket, a: Attributes) returns (r: Result<string, Exception>)
      modifies this
      ensures var s := Prepared(cfg, online, old(State()), t, a);
              (s.Ok? ==> r == Ok(s.value.1) && State() == s.value.0) && (s.Err? ==> r == Err(s.error))
    {
      if "reporter" !in t.data {
        return Err(KeyError("reporter"));
      }
      var reporter := Username(t.data["reporter"]);
      if reporter.Err? {
        return Err(reporter.error);
      }
      EnsureLabels(LabelRequests(cfg, a));
      var pre := DescriptionPre(State(), cfg, a, t.data, reporter.value, t.created);
      if pre.Err? {
        return Err(pre.error);
      }
      Adopt(pre.value.0);
      r := Ok(pre.value.1);
    }

    /** Lines 558-584: the issue created with the initial labels and the
        description after `pre`, and closed at once when the ticket was
        closed. */
    method CreateTicketIssue(milestones: map<string, nat>, t: Ticket, a: Attributes, pre: string)
      returns (r: Result<(Context, Replay), Exception>)
      modifies this
      ensures var s := IssueOpened(cfg, online, milestones, old(State()), t, a, pre);
              (s.Ok? ==> r == Ok((s.value.1, s.value.2)) && State() == s.value.0) && (s.Err? ==> r == Err(s.error))
    {
      var labels := InitialLabels(cfg, a);
      var milestone := InitialMilestone(t.data, milestones);
      var issue := CreateIssue(a.summary, pre + cfg.markdown(a.description), labels, milestone);
      if issue.Err? {
        return Err(issue.error);
      }
      var state := InitialState(a.status);
      if state.Err? {
        return Err(state.error);
      }
      if state.value == "closed" {
        var closed := UpdateIssueProperty(issue.value, StateProp("closed"));
      }
      r := Ok((Context(cfg, online, issue.value, pre, milestones), Replay(labels, state.value, None, milestone)));
    }

    /** Lines 502-584: the issue for a ticket whose initial attributes are
        `a`; the replay's starting point. */
    method OpenIssue(milestones: map<string, nat>, t: Ticket, a: Attributes) returns (r: Result<(Context, Replay), Exception>)
      modifies this
      ensures var s := TicketIssue(cfg, online, milestones, old(State()), t, a);
              (s.Ok? ==> r == Ok((s.value.1, s.value.2)) && State() == s.value.0) && (s.Err? ==> r == Err(s.error))
    {
      var pre := PrepareIssue(t, a);
      if pre.Err? {
        return Err(pre.error);
      }
      r := CreateTicketIssue(milestones, t, a, pre.value);
    }

    /** One pass of the loop at lines 587-739 over the changelog. */
    method ReplayChange(ctx: Context, st: Replay, ch: Change) returns (r: Result<Replay, Exception>)
      requires ctx.cfg == cfg && ctx.online == online
      modifies this
      ensures var s := Step(ctx, old(State()), st, ch);
              (s.Ok? ==> r == Ok(s.value.1) && State() == s.value.0) && (s.Err? ==> r == Err(s.error))
    {
      if st.attachment.Some? && ch.field != "comment" {
        return Err(AssertionError("an attachment must be followed by a comment"));
      }
      if ch.author in SkippedAuthors {
        return Ok(st);
      }
      var author := Username(ch.author);
      if author.Err? {
        return Err(author.error);
      }
      if ch.field == "keywords" && cfg.keywordsToLabels {
        KeywordsDispatch(ctx, State(), st, ch, author.value);
        var labels' := ReplaceKeywords(ctx, st.labels, ch, author.value);
        if labels'.Err? {
          return Err(labels'.error);
        }
        return Ok(st.(labels := labels'.value));
      }
      var s := FieldStep(ctx, State(), st, ch, author.value);
      if s.Err? {
        return Err(s.error);
      }
      Adopt(s.value.0);
      r := Ok(s.value.1);
    }

    /** Lines 725-729: each stripped, non-blank new keyword appended to the
        label list and its label ensured. */
    method AddKeywordLabels(labels: seq<string>, keywords: seq<string>, color: string) returns (labels': seq<string>)
      modifies this
      ensures labels' == labels + NonBlank(keywords)
      ensures State() == KeywordLabelsEnsured(old(State()), online, keywords, color)
    {
      labels' := labels;
      ghost var added: seq<string> := [];
      ghost var start := State();
      for i := 0 to |keywords|
        invariant added == NonBlank(keywords[..i])
        invariant labels' == labels + added
        invariant State() == EnsuredLabels(start, online, Colored(added, color))
      {
        NonBlankOneMore(keywords, i);
        var keyword := Strip(keywords[i]);
        if keyword != "" {
          ColoredEnsuredOneMore(start, online, added, keyword, color);
          labels' := labels' + [keyword];
          EnsureLabel(keyword, color);
          added := added + [keyword];
        }
      }
      assert keywords[..|keywords|] == keywords;
    }

    /** Lines 717-733: a keywords change with keywords as labels; the new
        label list. */
    method ReplaceKeywords(ctx: Context, labels: seq<string>, ch: Change, author: string)
      returns (r: Result<seq<string>, Exception>)
      requires ctx.cfg == cfg && ctx.online == online
      modifies this
      ensures var s := KeywordLabelsStep(ctx, old(State()), labels, ch, author);
              s.Ok? ==> r == Ok(s.value.1)
      ensures var s := KeywordLabelsStep(ctx, old(State()), labels, ch, author);
              s.Ok? ==> State() == s.value.0
      ensures var s := KeywordLabelsStep(ctx, old(State()), labels, ch, author);
              s.Err? ==> r == Err(s.error)
    {
      var olds := Split(ch.oldValue, ',');
      var news := Split(ch.newValue, ',');
      var kept := RemoveKeywordLabels(labels, olds);
      if kept.Err? {
        return Err(kept.error);
      }
      var labels' := AddKeywordLabels(kept.value, news, cfg.colors.keyword);
      var g := Relabeled(ctx, State(), ch, author, Some(KeywordsNote(ch)), labels');
      if g.Err? {
        return Err(g.error);
      }
      Adopt(g.value);
      r := Ok(labels');
    }

    /** The loop at lines 587-740: the changelog replayed on the issue. */
    method ReplayChangelog(ctx: Context, st: Replay, changes: seq<Change>) returns (r: Result<Replay, Exception>)
      requires ctx.cfg == cfg && ctx.online == online
      modifies this
      ensures var s := Replayed(ctx, old(State()), st, changes);
              (s.Ok? ==> r == Ok(s.value.1) && State() == s.value.0) && (s.Err? ==> r == Err(s.error))
    {
      var current := st;
      for i := 0 to |changes|
        invariant Replayed(ctx, old(State()), st, changes[..i]) == Ok((State(), current))
      {
        ReplayedOneMore(ctx, old(State()), st, changes, i, State(), current);
        var next := ReplayChange(ctx, current, changes[i]);
        if next.Err? {
          ReplayedErrorKept(ctx, old(State()), st, changes, i + 1);
          return Err(next.error);
        }
        current := next.value;
      }
      assert changes[..|changes|] == changes;
      r := Ok(current);
    }

    /** Lines 426-740: one ticket converted; the number of its issue. */
    method ConvertTicket(milestones: map<string, nat>, t: Ticket) returns (r: Result<nat, Exception>)
      modifies this
      ensures var s := TicketConverted(cfg, online, milestones, old(State()), t);
              (s.Ok? ==> r == Ok(s.value.1) && State() == s.value.0) && (s.Err? ==> r == Err(s.error))
    {
      if "summary" !in t.data {
        return Err(KeyError("summary"));
      }
      var found := RecoverFirstOlds(t.changelog);
      var a := WithFallbacks(found, t.data);
      if a.Err? {
        return Err(a.error);
      }
      var issue := OpenIssue(milestones, t, Mapped(a.value));
      if issue.Err? {
        return Err(issue.error);
      }
      var ctx := issue.value.0;
      var done := ReplayChangelog(ctx, issue.value.1, t.changelog);
      if done.Err? {
        return Err(done.error);
      }
      if done.value.attachment.Some? {
        return Err(AssertionError("attachment is None"));
      }
      r := Ok(ctx.issue);
    }

    /** Lines 401-740: one turn of the loop over the fetched tickets; the new
        `nextticketid` (and, in the proof, the tickets converted so far). */
    method ConvertNext(milestones: map<string, nat>, onlyIssues: seq<int>, blacklist: seq<int>, next: int, t: Ticket,
                       ghost numbered: seq<(int, int)>)
      returns (r: Result<int, Exception>, ghost numbered': seq<(int, int)>)
      modifies this
      ensures var s := TicketStep(cfg, online, Converting(cfg, online, milestones), onlyIssues, blacklist,
                                  Progress(old(State()), next, numbered), t);
              s.Ok? ==> r.Ok? && r.value == s.value.next
      ensures var s := TicketStep(cfg, online, Converting(cfg, online, milestones), onlyIssues, blacklist,
                                  Progress(old(State()), next, numbered), t);
              s.Ok? ==> State() == s.value.g
      ensures var s := TicketStep(cfg, online, Converting(cfg, online, milestones), onlyIssues, blacklist,
                                  Progress(old(State()), next, numbered), t);
              s.Ok? ==> numbered' == s.value.numbered
      ensures var s := TicketStep(cfg, online, Converting(cfg, online, milestones), onlyIssues, blacklist,
                                  Progress(old(State()), next, numbered), t);
              s.Err? ==> r == Err(s.error)
    {
      numbered' := numbered;
      if onlyIssues != [] && t.id !in onlyIssues {
        return Ok(next), numbered';
      }
      if blacklist != [] && t.id in blacklist {
        return Ok(next), numbered';
      }
      ghost var filled := Filled(State(), online, FillsGaps(cfg, onlyIssues, blacklist), next, t.id);
      ConvertingIs(cfg, online, milestones, filled.0, t);
      var converted := FillAndConvert(milestones, FillsGaps(cfg, onlyIssues, blacklist), next, t);
      if converted.Err? {
        return Err(converted.error), numbered';
      }
      numbered' := numbered + [(t.id, converted.value.1)];
      r := Ok(converted.value.0);
    }

    /** Lines 409-740 for a ticket that is not skipped: the gap before it
        filled (when `fill`) and the ticket converted; the new
        `nextticketid` and the issue's number. */
    method FillAndConvert(milestones: map<string, nat>, fill: bool, next: int, t: Ticket) returns (r: Result<(int, nat), Exception>)
      modifies this
      ensures var filled := Filled(old(State()), online, fill, next, t.id);
              var s := TicketConverted(cfg, online, milestones, filled.0, t);
              s.Ok? ==> r.Ok? && r.value.0 == filled.1 + 1
      ensures var filled := Filled(old(State()), online, fill, next, t.id);
              var s := TicketConverted(cfg, online, milestones, filled.0, t);
              s.Ok? ==> r.Ok? && r.value.1 == s.value.1
      ensures var filled := Filled(old(State()), online, fill, next, t.id);
              var s := TicketConverted(cfg, online, milestones, filled.0, t);
              s.Ok? ==> State() == s.value.0
      ensures var filled := Filled(old(State()), online, fill, next, t.id);
              var s := TicketConverted(cfg, online, milestones, filled.0, t);
              s.Err? ==> r == Err(s.error)
    {
      ghost var filled := Filled(State(), online, fill, next, t.id);
      var next' := next;
      if fill {
        next' := FillGaps(next, t.id);
      }
      assert State() == filled.0 && next' == filled.1;
      next' := next' + 1;
      var issue := ConvertTicket(milestones, t);
      if issue.Err? {
        return Err(issue.error);
      }
      r := Ok((next', issue.value));
    }

    /** Lines 397-740: the loop over the fetched tickets; the final
        `nextticketid`. */
    method ConvertTickets(milestones: map<string, nat>, tickets: seq<Ticket>, onlyIssues: seq<int>, blacklist: seq<int>)
      returns (r: Result<int, Exception>)
      modifies this
      ensures var s := TicketsConverted(cfg, online, Converting(cfg, online, milestones), onlyIssues, blacklist,
                                        Progress(old(State()), 1, []), tickets);
              (s.Ok? ==> r == Ok(s.value.next) && State() == s.value.g) && (s.Err? ==> r == Err(s.error))
    {
      ghost var convert := Converting(cfg, online, milestones);
      ghost var start := Progress(State(), 1, []);
      ghost var numbered: seq<(int, int)> := [];
      var next := 1;
      for i := 0 to |tickets|
        invariant TicketsConverted(cfg, online, convert, onlyIssues, blacklist, start, tickets[..i])
                  == Ok(Progress(State(), next, numbered))
      {
        TicketsConvertedOneMore(cfg, online, convert, onlyIssues, blacklist, start, tickets, i, Progress(State(), next, numbered));
        var turn;
        turn, numbered := ConvertNext(milestones, onlyIssues, blacklist, next, tickets[i], numbered);
        if turn.Err? {
          TicketsConvertedErrorKept(cfg, online, convert, onlyIssues, blacklist, start, tickets, i + 1);
          return Err(turn.error);
        }
        next := turn.value;
      }
      assert tickets[..|tickets|] == tickets;
      r := Ok(next);
    }

    /** `convert_issues`: the milestones (when they are migrated), then the
        tickets; the final `nextticketid`. */
    method ConvertIssues(ms: seq<Milestone>, tickets: seq<Ticket>, onlyIssues: seq<int>, blacklist: seq<int>)
      returns (r: Result<int, Exception>)
      modifies this
      ensures var created := if cfg.migrateMilestones then MilestonesCreated(cfg, online, old(State()), ms) else (old(State()), map[]);
              var s := TicketsConverted(cfg, online, Converting(cfg, online, created.1), onlyIssues, blacklist,
                                        Progress(created.0, 1, []), tickets);
              (s.Ok? ==> r == Ok(s.value.next) && State() == s.value.g) && (s.Err? ==> r == Err(s.error))
    {
      var byName := map[];
      if cfg.migrateMilestones {
        byName := CreateMilestones(ms);
      }
      r := ConvertTickets(byName, tickets, onlyIssues, blacklist);
    }
  }
}
