/** How `convert_issues` (migrate.py) replays a ticket's changelog on its issue,
    converts a ticket, and walks the list of tickets, written as functions
    over the global state of `IssueModel`. */
module ChangeReplay {
  import opened Outcomes
  import opened Text
  import opened TicketMapping
  import opened IssueModel

  /** What the replay of one ticket works with: the configuration, whether
      there is a destination, the issue's number, the description header and
      the milestone map. */
  datatype Context = Context(cfg: Config, online: bool, issue: nat, pre: string, milestones: map<string, nat>)

  /** The local state of the replay loop: the issue's label list, its state
      (`issue_state`), a pending attachment change, and the milestone of
      `issue_data`. */
  datatype Replay = Replay(labels: seq<string>, state: string, attachment: Option<Change>, milestone: Option<nat>)

  type Outcome = Result<(Globals, Replay), Exception>

  /** Authors whose changes are skipped. */
  const SkippedAuthors: set<string> := {"anonymous", "Draftmen888"}

  /** Change types that are only reported. */
  const IgnoredFields: set<string> :=
    {"commit", "upstream", "stopgaps", "branch", "reviewer", "work_issues", "merged", "dependencies", "author"}

  /** `after` follows `before` by comments, label creations and updates
      other than state changes: the issue count stays and the registry only
      grows. */
  predicate Grows(before: Globals, after: Globals) {
    NoSetState(before.log, after.log) && after.issues == before.issues
    && (forall k :: k in before.labels ==> k in after.labels)
  }

  lemma GrowsTrans(a: Globals, b: Globals, c: Globals)
    ensures Grows(a, b) && Grows(b, c) ==> Grows(a, c)
  {
    if Grows(a, b) && Grows(b, c) {
      assert c.log[..|b.log|][..|a.log|] == c.log[..|a.log|];
    }
  }

  /** Every label of the list has a registered GitHub label. */
  predicate AllRegistered(labels: map<string, string>, names: seq<string>) {
    forall i :: 0 <= i < |names| ==> Lower(names[i]) in labels
  }

  lemma RemoveKeepsRegistered(labels: map<string, string>, names: seq<string>, x: string)
    ensures AllRegistered(labels, names) && Remove(names, x).Ok? ==> AllRegistered(labels, Remove(names, x).value)
  {
    if AllRegistered(labels, names) && Remove(names, x).Ok? {
      var i := IndexOf(names, x);
      var r := Remove(names, x).value;
      forall j | 0 <= j < |r| ensures Lower(r[j]) in labels {
        if j < i { assert r[j] == names[j]; } else { assert r[j] == names[j + 1]; }
      }
    }
  }

  /** The end of every label change: the announcement, if any, then the new
      label list set on the issue. */
  function Relabeled(ctx: Context, g: Globals, ch: Change, author: string, note: Option<string>, labels: seq<string>)
    : (r: Result<Globals, Exception>)
    ensures r.Ok? ==> Grows(g, r.value) && r.value.labels == g.labels
    ensures r.Err? ==> r.error.KeyError?
    ensures ctx.online && AllRegistered(g.labels, labels) ==> r.Ok?
    ensures !ctx.online ==> r == Ok(g)
  {
    var g1 := if note.Some? then Say(ctx, g, ch, author, note.value) else g;
    var g2 :- Updated(g1, ctx.online, ctx.issue, LabelsProp(labels));
    GrowsTrans(g, g1, g2);
    Ok(g2)
  }

  /** A comment by `author` at the change's time, without attachment. */
  function Say(ctx: Context, g: Globals, ch: Change, author: string, text: string): (r: Globals)
    ensures Grows(g, r) && r.labels == g.labels
    ensures r.log == g.log + (if ctx.online then [Comment(ctx.issue, Note(author, ch.time, text, None))] else [])
  {
    Commented(g, ctx.online, ctx.issue, Note(author, ch.time, text, None))
  }

  /** "from X to Y" when there was an old value, else just the new value. */
  function ChangedFrom(what: string, ch: Change): string {
    if ch.oldValue != "" then what + " changed from " + ch.oldValue + " to " + ch.newValue
    else what + ": " + ch.newValue
  }

  // ---------------------------------------------------------------------------
  // One step per change type; each returns the global state and the part of
  // the replay state it changes.

  type Effect<T> = Result<(Globals, T), Exception>

  /** A comment, carrying the pending attachment's name if there is one; an
      empty comment without attachment is dropped. */
  function CommentStep(ctx: Context, g: Globals, attachment: Option<Change>, ch: Change, author: string): (r: Globals)
    ensures Grows(g, r) && r.labels == g.labels
    ensures ctx.online && attachment.Some? ==> r.log == g.log + [Comment(ctx.issue, Note(author, ch.time,
                                                 ctx.cfg.markdown(Strip(ch.newValue)), Some(attachment.value.newValue)))]
    ensures Strip(ch.newValue) == "" && attachment.None? ==> r == g
  {
    var desc := Strip(ch.newValue);
    if desc == "" && attachment.None? then g
    else
      var attached := if attachment.Some? then Some(attachment.value.newValue) else None;
      Commented(g, ctx.online, ctx.issue, Note(author, ch.time, ctx.cfg.markdown(desc), attached))
  }

  /** A status change: open statuses are announced, and the issue's state is
      set when it changes. */
  function StatusStep(ctx: Context, g: Globals, state: string, ch: Change, author: string): (r: Effect<string>)
    ensures r.Ok? <==> ch.newValue in OpenStatuses || ch.newValue == "closed"
    ensures r.Ok? ==> r.value.1 == ChangedState(ch.newValue).value
    ensures r.Ok? ==> r.value.0.issues == g.issues && r.value.0.labels == g.labels
    ensures r.Ok? && (r.value.1 == state || !ctx.online) ==> NoSetState(g.log, r.value.0.log)
    ensures r.Ok? && r.value.1 != state && ctx.online ==>
              var log := r.value.0.log;
              |log| > |g.log| && log[|log| - 1] == SetState(ctx.issue, r.value.1) && NoSetState(g.log, log[..|log| - 1])
  {
    var newState :- ChangedState(ch.newValue);
    var said := if ch.newValue in OpenStatuses
                then Say(ctx, g, ch, author, "Changing status from " + ch.oldValue + " to " + ch.newValue + ".")
                else g;
    if state == newState then Ok((said, state))
    else
      var g' := Updated(said, ctx.online, ctx.issue, StateProp(newState)).value;
      assert ctx.online ==> g'.log[..|g'.log| - 1] == said.log;
      Ok((g', newState))
  }

  /** The label list after removing `removed` (when given) and appending `added`
      (when given). */
  function Replaced(labels: seq<string>, removed: Option<string>, added: Option<string>): (r: Result<seq<string>, Exception>)
    ensures r.Ok? <==> removed.None? || removed.value in labels
    ensures r.Err? ==> r.error.ValueError?
    ensures r.Ok? ==> multiset(r.value) == multiset(labels) - multiset(Listed(removed)) + multiset(Listed(added))
    ensures r.Ok? && added.Some? ==> |r.value| > 0 && r.value[|r.value| - 1] == added.value
  {
    match removed
    case None => Ok(labels + Listed(added))
    case Some(x) =>
      var kept :- Remove(labels, x);
      RemoveMultiset(labels, x);
      Ok(kept + Listed(added))
  }

  /** The list holding the value of `o`, if any. */
  function Listed(o: Option<string>): (r: seq<string>)
    ensures o.None? ==> r == []
    ensures o.Some? ==> r == [o.value]
  {
    if o.Some? then [o.value] else []
  }

  /** Labels registered before stay registered after `Replaced`, given the
      added one is. */
  lemma ReplacedRegistered(registry: map<string, string>, labels: seq<string>, removed: Option<string>, added: Option<string>)
    ensures (AllRegistered(registry, labels) && (added.Some? ==> Lower(added.value) in registry)
             && Replaced(labels, removed, added).Ok?) ==> AllRegistered(registry, Replaced(labels, removed, added).value)
  {
    if removed.Some? {
      RemoveKeepsRegistered(registry, labels, removed.value);
    }
  }

  /** A component change: the old component's label (if any) is replaced by
      the new one. */
  function ComponentStep(ctx: Context, g: Globals, labels: seq<string>, ch: Change, author: string): (r: Effect<seq<string>>)
    ensures r.Ok? ==> Replaced(labels, if ch.oldValue != "" then Some(ch.oldValue) else None, Some(ch.newValue)) == Ok(r.value.1)
    ensures r.Ok? ==> Grows(g, r.value.0)
    ensures ctx.online && AllRegistered(g.labels, labels) ==>
              (r.Err? ==> r.error.ValueError?) && (r.Ok? ==> AllRegistered(r.value.0.labels, r.value.1))
  {
    var removed := if ch.oldValue != "" then Some(ch.oldValue) else None;
    var labels' :- Replaced(labels, removed, Some(ch.newValue));
    var g1 := EnsuredLabel(g, ctx.online, ch.newValue, ctx.cfg.colors.component);
    ReplacedRegistered(g1.labels, labels, removed, Some(ch.newValue));
    var g2 :- Relabeled(ctx, g1, ch, author, Some("Changing component from " + ch.oldValue + " to " + ch.newValue + "."), labels');
    GrowsTrans(g, g1, g2);
    Ok((g2, labels'))
  }

  /** The comment announcing an owner change, with both names resolved. */
  function OwnerNote(g: Globals, users: map<string, string>, ch: Change): (r: Result<(Globals, string), Exception>)
    ensures r.Ok? ==> r.value.0.log == g.log && r.value.0.labels == g.labels && r.value.0.issues == g.issues
    ensures r.Err? ==> r.error.AssertionError?
  {
    if ch.oldValue != "" && ch.newValue != "" then
      var from :- Resolved(g, users, ch.oldValue);
      var to :- Resolved(from.0, users, ch.newValue);
      Ok((to.0, "Changing assignee from " + from.1 + " to " + to.1 + "."))
    else if ch.oldValue == "" then
      var to :- Resolved(g, users, ch.newValue);
      Ok((to.0, "Set assignee to " + to.1 + "."))
    else
      var from :- Resolved(g, users, ch.oldValue);
      Ok((from.0, "Remove assignee " + from.1 + "."))
  }

  /** An owner change: announced, and the assignee is set to the new owner's
      GitHub account, or unset when the new owner has none. */
  function OwnerStep(ctx: Context, g: Globals, ch: Change, author: string): (r: Result<Globals, Exception>)
    ensures r.Ok? ==> Grows(g, r.value) && r.value.labels == g.labels
    ensures r.Err? ==> r.error.AssertionError?
    ensures r.Ok? && ctx.online && ch.newValue != ch.oldValue ==>
              GhUsername(ctx.cfg.users, ch.newValue).Ok? && |r.value.log| > 0
              && r.value.log[|r.value.log| - 1]
                 == SetAssignee(ctx.issue, var handle := GhUsername(ctx.cfg.users, ch.newValue).value;
                                           if StartsWith(handle, "@") then Some(handle) else None)
  {
    var said :- OwnerNote(g, ctx.cfg.users, ch);
    var g1 := Say(ctx, said.0, ch, author, said.1);
    if ch.newValue == ch.oldValue then Ok(g1)
    else
      var assignee :- Resolved(g1, ctx.cfg.users, ch.newValue);
      var g2 := Updated(assignee.0, ctx.online, ctx.issue,
                        AssigneeProp(if StartsWith(assignee.1, "@") then Some(assignee.1) else None)).value;
      GrowsTrans(g, g1, g2);
      Ok(g2)
  }

  /** A milestone change: the new milestone when it is known, else none. */
  function MilestoneStep(ctx: Context, g: Globals, ch: Change): (r: (Globals, Option<nat>))
    ensures r.1.Some? <==> ch.newValue != "" && ch.newValue in ctx.milestones
    ensures r.1.Some? ==> r.1.value == ctx.milestones[ch.newValue]
    ensures Grows(g, r.0) && r.0.labels == g.labels
    ensures ctx.online ==> r.0.log == g.log + [SetMilestone(ctx.issue, r.1)]
  {
    var milestone := if ch.newValue != "" && ch.newValue in ctx.milestones then Some(ctx.milestones[ch.newValue]) else None;
    (Updated(g, ctx.online, ctx.issue, MilestoneProp(milestone)).value, milestone)
  }

  /** A type change: the old type's label (mapped) is replaced by the new one. */
  function TypeStep(ctx: Context, g: Globals, labels: seq<string>, ch: Change, author: string): (r: Effect<seq<string>>)
    ensures r.Ok? ==> Replaced(labels, if ch.oldValue != "" then Some(MapTicketType(ch.oldValue)) else None,
                               Some(MapTicketType(ch.newValue))) == Ok(r.value.1)
    ensures r.Ok? ==> Grows(g, r.value.0)
    ensures ctx.online && AllRegistered(g.labels, labels) ==>
              (r.Err? ==> r.error.ValueError?) && (r.Ok? ==> AllRegistered(r.value.0.labels, r.value.1))
  {
    var removed := if ch.oldValue != "" then Some(MapTicketType(ch.oldValue)) else None;
    var newType := MapTicketType(ch.newValue);
    var labels' :- Replaced(labels, removed, Some(newType));
    var g1 := EnsuredLabel(g, ctx.online, newType, ctx.cfg.colors.ticketType);
    ReplacedRegistered(g1.labels, labels, removed, Some(newType));
    var g2 :- Relabeled(ctx, g1, ch, author, Some("Changing type from " + ch.oldValue + " to " + ch.newValue + "."), labels');
    GrowsTrans(g, g1, g2);
    Ok((g2, labels'))
  }

  /** A priority or severity value as a label: "normal" and "" have none. */
  function RankLabel(value: string): (r: Option<string>)
    ensures r.Some? <==> value != "" && value != "normal"
    ensures r.Some? ==> r.value == value
  {
    if value != "" && value != "normal" then Some(value) else None
  }

  /** A priority or severity change: the old value's label is replaced by the
      new value's, and a change to a labelled value is announced. */
  function RankStep(ctx: Context, g: Globals, labels: seq<string>, ch: Change, author: string, kind: string, color: string)
    : (r: Effect<seq<string>>)
    ensures r.Ok? ==> Replaced(labels, RankLabel(ch.oldValue), RankLabel(ch.newValue)) == Ok(r.value.1)
    ensures r.Ok? ==> Grows(g, r.value.0)
    ensures ctx.online && AllRegistered(g.labels, labels) ==>
              (r.Err? ==> r.error.ValueError?) && (r.Ok? ==> AllRegistered(r.value.0.labels, r.value.1))
  {
    var labels' :- Replaced(labels, RankLabel(ch.oldValue), RankLabel(ch.newValue));
    var g1 := if RankLabel(ch.newValue).Some? then EnsuredLabel(g, ctx.online, ch.newValue, color) else g;
    ReplacedRegistered(g1.labels, labels, RankLabel(ch.oldValue), RankLabel(ch.newValue));
    var note := if RankLabel(ch.newValue).Some?
                then Some("Changing " + kind + " from " + ch.oldValue + " to " + ch.newValue + ".")
                else None;
    var g2 :- Relabeled(ctx, g1, ch, author, note, labels');
    GrowsTrans(g, g1, g2);
    Ok((g2, labels'))
  }

  /** Removing each old keyword's label in turn. */
  function RemovedKeywords(labels: seq<string>, keywords: seq<string>): (r: Result<seq<string>, Exception>)
    ensures r.Err? ==> r.error.ValueError?
  {
    if keywords == [] then Ok(labels)
    else
      var before :- RemovedKeywords(labels, keywords[..|keywords| - 1]);
      var k := Strip(keywords[|keywords| - 1]);
      if k != "" then Remove(before, k) else Ok(before)
  }

  /** One more keyword for `NonBlank`. */
  lemma NonBlankOneMore(keywords: seq<string>, i: nat)
    requires i < |keywords|
    ensures NonBlank(keywords[..i + 1])
            == NonBlank(keywords[..i]) + (if Strip(keywords[i]) != "" then [Strip(keywords[i])] else [])
  {
    assert keywords[..i + 1][..i] == keywords[..i];
  }

  /** One more keyword for `RemovedKeywords`, once the earlier ones are removed. */
  lemma RemovedKeywordsOneMore(labels: seq<string>, keywords: seq<string>, i: nat, kept: seq<string>)
    requires i < |keywords| && RemovedKeywords(labels, keywords[..i]) == Ok(kept)
    ensures RemovedKeywords(labels, keywords[..i + 1])
            == if Strip(keywords[i]) != "" then Remove(kept, Strip(keywords[i])) else Ok(kept)
  {
    assert keywords[..i + 1][..i] == keywords[..i];
  }

  /** A keyword whose label is missing ends the removals with that error. */
  lemma {:induction false} RemovedKeywordsErrorKept(labels: seq<string>, keywords: seq<string>, k: nat)
    requires k <= |keywords| && RemovedKeywords(labels, keywords[..k]).Err?
    ensures RemovedKeywords(labels, keywords) == RemovedKeywords(labels, keywords[..k])
    decreases |keywords|
  {
    if k == |keywords| {
      assert keywords[..k] == keywords;
    } else {
      var init := keywords[..|keywords| - 1];
      assert init[..k] == keywords[..k];
      RemovedKeywordsErrorKept(labels, init, k);
    }
  }

  /** Removing succeeds exactly when every old keyword has a label of its own,
      and then takes exactly those labels away. */
  lemma {:induction false} RemovedKeywordsMultiset(labels: seq<string>, keywords: seq<string>)
    ensures RemovedKeywords(labels, keywords).Ok? <==> multiset(NonBlank(keywords)) <= multiset(labels)
    ensures RemovedKeywords(labels, keywords).Ok? ==>
              multiset(RemovedKeywords(labels, keywords).value) == multiset(labels) - multiset(NonBlank(keywords))
  {
    if keywords != [] {
      var init := keywords[..|keywords| - 1];
      var k := Strip(keywords[|keywords| - 1]);
      RemovedKeywordsMultiset(labels, init);
      var before := RemovedKeywords(labels, init);
      if k != "" {
        assert NonBlank(keywords) == NonBlank(init) + [k];
        if before.Ok? {
          var b := before.value;
          assert (k in b) <==> multiset(b)[k] > 0;
          RemoveMultiset(b, k);
        }
      } else {
        assert NonBlank(keywords) == NonBlank(init);
      }
    }
  }

  lemma {:induction false} RemovedKeywordsKeepRegistered(labels: map<string, string>, names: seq<string>, keywords: seq<string>)
    ensures AllRegistered(labels, names) && RemovedKeywords(names, keywords).Ok? ==>
              AllRegistered(labels, RemovedKeywords(names, keywords).value)
  {
    if keywords != [] {
      var init := keywords[..|keywords| - 1];
      RemovedKeywordsKeepRegistered(labels, names, init);
      if RemovedKeywords(names, init).Ok? {
        RemoveKeepsRegistered(labels, RemovedKeywords(names, init).value, Strip(keywords[|keywords| - 1]));
      }
    }
  }

  /** `(label, color)` requests for labels of one colour. */
  function Colored(names: seq<string>, color: string): (r: seq<(string, string)>)
    ensures |r| == |names| && forall i :: 0 <= i < |names| ==> r[i] == (names[i], color)
  {
    seq(|names|, i requires 0 <= i < |names| => (names[i], color))
  }

  /** `gh_ensure_label` for each new keyword in turn. */
  function KeywordLabelsEnsured(g: Globals, online: bool, keywords: seq<string>, color: string): (r: Globals)
    ensures Grows(g, r)
    ensures online ==> AllRegistered(r.labels, NonBlank(keywords))
  {
    EnsuredLabelsRegistered(g, Colored(NonBlank(keywords), color));
    EnsuredLabels(g, online, Colored(NonBlank(keywords), color))
  }

  /** One more keyword label for `KeywordLabelsEnsured`. */
  lemma ColoredEnsuredOneMore(g: Globals, online: bool, names: seq<string>, name: string, color: string)
    ensures EnsuredLabels(g, online, Colored(names + [name], color))
            == EnsuredLabel(EnsuredLabels(g, online, Colored(names, color)), online, name, color)
  {
    var all := Colored(names + [name], color);
    assert all[..|all| - 1] == Colored(names, color);
  }

  /** A keywords change with keywords as labels is `KeywordLabelsStep` on the
      label list. */
  lemma KeywordsDispatch(ctx: Context, g: Globals, st: Replay, ch: Change, author: string)
    requires ch.field == "keywords" && ctx.cfg.keywordsToLabels
    ensures var k := KeywordLabelsStep(ctx, g, st.labels, ch, author);
            var f := FieldStep(ctx, g, st, ch, author);
            (k.Ok? ==> f == Ok((k.value.0, st.(labels := k.value.1)))) && (k.Err? ==> f == Err(k.error))
  {
    assert LabelStep(ctx, g, st.labels, ch, author) == KeywordLabelsStep(ctx, g, st.labels, ch, author);
  }

  lemma RegisteredConcat(registry: map<string, string>, a: seq<string>, b: seq<string>)
    ensures AllRegistered(registry, a) && AllRegistered(registry, b) ==> AllRegistered(registry, a + b)
  {
    if AllRegistered(registry, a) && AllRegistered(registry, b) {
      forall i | 0 <= i < |a + b| ensures Lower((a + b)[i]) in registry {
        if i >= |a| { assert (a + b)[i] == b[i - |a|]; }
      }
    }
  }

  lemma RegisteredGrows(before: Globals, after: Globals, names: seq<string>)
    ensures Grows(before, after) && AllRegistered(before.labels, names) ==> AllRegistered(after.labels, names)
  {
  }

  /** The label list after removing the old keywords' labels and appending
      the new ones. */
  function KeywordsReplaced(labels: seq<string>, olds: seq<string>, news: seq<string>): (r: Result<seq<string>, Exception>)
    ensures r.Ok? <==> multiset(NonBlank(olds)) <= multiset(labels)
    ensures r.Err? ==> r.error.ValueError?
    ensures r.Ok? ==> multiset(r.value) == multiset(labels) - multiset(NonBlank(olds)) + multiset(NonBlank(news))
  {
    RemovedKeywordsMultiset(labels, olds);
    var kept :- RemovedKeywords(labels, olds);
    Ok(kept + NonBlank(news))
  }

  lemma KeywordsReplacedRegistered(registry: map<string, string>, labels: seq<string>, olds: seq<string>, news: seq<string>)
    ensures AllRegistered(registry, labels) && AllRegistered(registry, NonBlank(news))
            && KeywordsReplaced(labels, olds, news).Ok? ==>
              AllRegistered(registry, KeywordsReplaced(labels, olds, news).value)
  {
    if RemovedKeywords(labels, olds).Ok? {
      RemovedKeywordsKeepRegistered(registry, labels, olds);
      RegisteredConcat(registry, RemovedKeywords(labels, olds).value, NonBlank(news));
    }
  }

  /** The announcement of a keywords change, with both keyword lists
      stripped. */
  function KeywordsNote(ch: Change): string {
    "Changing keywords from \"" + Join(KeywordLabels(ch.oldValue), ",") + "\" to \""
    + Join(KeywordLabels(ch.newValue), ",") + "\"."
  }

  /** A keywords change with keywords as labels: the old keywords' labels are
      replaced by the new ones. */
  function KeywordLabelsStep(ctx: Context, g: Globals, labels: seq<string>, ch: Change, author: string)
    : (r: Effect<seq<string>>)
    ensures r.Ok? ==> KeywordsReplaced(labels, Split(ch.oldValue, ','), Split(ch.newValue, ',')) == Ok(r.value.1)
    ensures r.Ok? ==> Grows(g, r.value.0)
    ensures ctx.online && AllRegistered(g.labels, labels) ==>
              (r.Err? ==> r.error.ValueError?) && (r.Ok? ==> AllRegistered(r.value.0.labels, r.value.1))
  {
    var olds := Split(ch.oldValue, ',');
    var news := Split(ch.newValue, ',');
    var labels' :- KeywordsReplaced(labels, olds, news);
    var g1 := KeywordLabelsEnsured(g, ctx.online, news, ctx.cfg.colors.keyword);
    RegisteredGrows(g, g1, labels);
    KeywordsReplacedRegistered(g1.labels, labels, olds, news);
    var g2 :- Relabeled(ctx, g1, ch, author, Some(KeywordsNote(ch)), labels');
    GrowsTrans(g, g1, g2);
    Ok((g2, labels'))
  }

  /** A keywords change: with keywords as labels, the labels change;
      otherwise it is only announced. */
  function KeywordsStep(ctx: Context, g: Globals, labels: seq<string>, ch: Change, author: string): (r: Effect<seq<string>>)
    ensures !ctx.cfg.keywordsToLabels ==> r.Ok? && r.value.1 == labels
    ensures !ctx.cfg.keywordsToLabels ==>
              r.value.0 == g.(log := g.log + if ctx.online then [Comment(ctx.issue, Note(author, ch.time, "Changing keywords from \"" + ch.oldValue + "\" to \"" + ch.newValue + "\".", None))] else [])
    ensures r.Ok? ==> Grows(g, r.value.0)
    ensures ctx.online && AllRegistered(g.labels, labels) ==>
              (r.Err? ==> r.error.ValueError?) && (r.Ok? ==> AllRegistered(r.value.0.labels, r.value.1))
  {
    if !ctx.cfg.keywordsToLabels then
      Ok((Say(ctx, g, ch, author, "Changing keywords from \"" + ch.oldValue + "\" to \"" + ch.newValue + "\"."), labels))
    else KeywordLabelsStep(ctx, g, labels, ch, author)
  }

  /** The change types that act on the issue's label list. */
  const LabelFields: set<string> := {"component", "type", "priority", "severity", "keywords"}

  /** The dispatch on the change type, once the author is resolved. */
  function FieldStep(ctx: Context, g: Globals, st: Replay, ch: Change, author: string): (r: Outcome)
    ensures r.Ok? ==> r.value.1.attachment == if ch.field == "attachment" then Some(ch)
                                             else if ch.field == "comment" then None
                                             else st.attachment
    ensures r.Ok? ==> r.value.0.issues == g.issues
    ensures r.Ok? && ch.field != "status" ==> Grows(g, r.value.0) && r.value.1.state == st.state
    ensures ctx.online && AllRegistered(g.labels, st.labels) ==>
              (r.Err? ==> !r.error.KeyError?) && (r.Ok? ==> AllRegistered(r.value.0.labels, r.value.1.labels))
  {
    if ch.field in LabelFields then
      LabelFieldsAreNot(ch.field);
      var l :- LabelStep(ctx, g, st.labels, ch, author);
      Ok((l.0, st.(labels := l.1)))
    else OtherFieldStep(ctx, g, st, ch, author)
  }

  lemma LabelFieldsAreNot(f: string)
    requires f in LabelFields
    ensures f != "attachment" && f != "comment" && f != "status"
  {
  }

  /** The change types that change the label list. */
  function LabelStep(ctx: Context, g: Globals, labels: seq<string>, ch: Change, author: string): (r: Effect<seq<string>>)
    requires ch.field in LabelFields
    ensures r.Ok? ==> Grows(g, r.value.0)
    ensures ctx.online && AllRegistered(g.labels, labels) ==>
              (r.Err? ==> r.error.ValueError?) && (r.Ok? ==> AllRegistered(r.value.0.labels, r.value.1))
  {
    var f := ch.field;
    if f == "component" then ComponentStep(ctx, g, labels, ch, author)
    else if f == "type" then TypeStep(ctx, g, labels, ch, author)
    else if f == "priority" then RankStep(ctx, g, labels, ch, author, "priority", ctx.cfg.colors.priority)
    else if f == "severity" then RankStep(ctx, g, labels, ch, author, "severity", ctx.cfg.colors.severity)
    else KeywordsStep(ctx, g, labels, ch, author)
  }

  /** The change types that leave the label list alone. */
  function OtherFieldStep(ctx: Context, g: Globals, st: Replay, ch: Change, author: string): (r: Outcome)
    requires ch.field !in LabelFields
    ensures r.Ok? ==> r.value.1.attachment == if ch.field == "attachment" then Some(ch)
                                             else if ch.field == "comment" then None
                                             else st.attachment
    ensures r.Ok? ==> r.value.0.issues == g.issues && r.value.1.labels == st.labels
    ensures r.Ok? && ch.field != "status" ==> Grows(g, r.value.0) && r.value.1.state == st.state
    ensures r.Ok? ==> r.value.0.labels == g.labels
    ensures r.Err? ==> !r.error.KeyError?
  {
    var f := ch.field;
    if f == "attachment" then Ok((g, st.(attachment := Some(ch))))
    else if f == "comment" then Ok((CommentStep(ctx, g, st.attachment, ch, author), st.(attachment := None)))
    else if StartsWith(f, "_comment") then Ok((g, st))
    else if f == "status" then
      var s :- StatusStep(ctx, g, st.state, ch, author);
      Ok((s.0, st.(state := s.1)))
    else if f == "resolution" then Ok((Say(ctx, g, ch, author, ChangedFrom("Resolution", ch)), st))
    else if f == "owner" then
      var g' :- OwnerStep(ctx, g, ch, author);
      Ok((g', st))
    else if f == "version" then Ok((Say(ctx, g, ch, author, ChangedFrom("Version", ch)), st))
    else if f == "milestone" then
      var m := MilestoneStep(ctx, g, ch);
      Ok((m.0, st.(milestone := m.1)))
    else if f == "cc" then Ok((g, st))
    else if f == "description" then
      var body := ctx.pre + ctx.cfg.markdown(ch.newValue) + "\n\n(changed by " + author + " at " + ch.time + ")";
      Ok((Updated(g, ctx.online, ctx.issue, BodyProp(body)).value, st))
    else if f == "summary" then
      Ok((Updated(g, ctx.online, ctx.issue, TitleProp(ch.newValue)).value, st))
    else if f in IgnoredFields then Ok((g, st))
    else Err(BaseException("Unknown change type " + f))
  }

  /** One pass of the replay loop. */
  function Step(ctx: Context, g: Globals, st: Replay, ch: Change): (r: Outcome)
    ensures st.attachment.Some? && ch.field != "comment" ==> r.Err?
    ensures r.Ok? ==> r.value.1.attachment
                      == if ch.author in SkippedAuthors then st.attachment
                         else if ch.field == "attachment" then Some(ch)
                         else if ch.field == "comment" then None
                         else st.attachment
    ensures r.Ok? ==> r.value.0.issues == g.issues
    ensures ctx.online && AllRegistered(g.labels, st.labels) ==>
              (r.Err? ==> !r.error.KeyError?) && (r.Ok? ==> AllRegistered(r.value.0.labels, r.value.1.labels))
  {
    if st.attachment.Some? && ch.field != "comment" then Err(AssertionError("an attachment must be followed by a comment"))
    else if ch.author in SkippedAuthors then Ok((g, st))
    else
      var author :- Resolved(g, ctx.cfg.users, ch.author);
      FieldStep(ctx, author.0, st, ch, author.1)
  }

  /** The replay loop over a changelog. */
  function Replayed(ctx: Context, g: Globals, st: Replay, changes: seq<Change>): Outcome {
    if changes == [] then Ok((g, st))
    else
      var before :- Replayed(ctx, g, st, changes[..|changes| - 1]);
      Step(ctx, before.0, before.1, changes[|changes| - 1])
  }

  // ---------------------------------------------------------------------------
  // What the replay keeps.

  lemma ReplayedPrefix(ctx: Context, g: Globals, st: Replay, changes: seq<Change>, k: nat)
    requires k < |changes|
    ensures Replayed(ctx, g, st, changes[..k + 1])
            == (var before :- Replayed(ctx, g, st, changes[..k]); Step(ctx, before.0, before.1, changes[k]))
  {
    assert changes[..k + 1][..k] == changes[..k];
  }

  /** The replay of one more change, from where the replay of a prefix left. */
  lemma ReplayedOneMore(ctx: Context, g: Globals, st: Replay, changes: seq<Change>, k: nat, now: Globals, current: Replay)
    requires k < |changes| && Replayed(ctx, g, st, changes[..k]) == Ok((now, current))
    ensures Replayed(ctx, g, st, changes[..k + 1]) == Step(ctx, now, current, changes[k])
  {
    assert changes[..k + 1][..k] == changes[..k];
  }

  /** A replay that fails on a prefix fails with the same error. */
  lemma {:induction false} ReplayedErrorKept(ctx: Context, g: Globals, st: Replay, changes: seq<Change>, k: nat)
    requires k <= |changes| && Replayed(ctx, g, st, changes[..k]).Err?
    ensures Replayed(ctx, g, st, changes) == Replayed(ctx, g, st, changes[..k])
    decreases |changes| - k
  {
    if k < |changes| {
      ReplayedPrefix(ctx, g, st, changes, k);
      ReplayedErrorKept(ctx, g, st, changes, k + 1);
    } else {
      assert changes[..k] == changes;
    }
  }

  /** A replay that succeeds also succeeds on every prefix. */
  lemma {:induction false} ReplayedPrefixOk(ctx: Context, g: Globals, st: Replay, changes: seq<Change>, k: nat)
    requires k <= |changes| && Replayed(ctx, g, st, changes).Ok?
    ensures Replayed(ctx, g, st, changes[..k]).Ok?
    decreases |changes| - k
  {
    if k < |changes| {
      ReplayedPrefixOk(ctx, g, st, changes, k + 1);
      ReplayedPrefix(ctx, g, st, changes, k);
    } else {
      assert changes[..k] == changes;
    }
  }

  /** In a changelog that replays without error, an attachment (by an author
      whose changes count) is directly followed by a comment, which describes
      it. */
  lemma AttachmentFollowedByComment(ctx: Context, g: Globals, st: Replay, changes: seq<Change>, i: nat)
    requires Replayed(ctx, g, st, changes).Ok?
    requires i + 1 < |changes| && changes[i].field == "attachment" && changes[i].author !in SkippedAuthors
    ensures changes[i + 1].field == "comment"
  {
    ReplayedPrefixOk(ctx, g, st, changes, i + 2);
    ReplayedPrefix(ctx, g, st, changes, i + 1);
    ReplayedPrefix(ctx, g, st, changes, i);
  }

  /** The last state the log gives `issue`, or `initial`. */
  function StateIn(log: seq<Action>, issue: nat, initial: string): string {
    if log == [] then initial
    else
      var last := log[|log| - 1];
      if last.SetState? && last.issue == issue then last.state else StateIn(log[..|log| - 1], issue, initial)
  }

  lemma {:induction false} NoSetStateKeepsState(before: seq<Action>, after: seq<Action>, issue: nat, initial: string)
    requires NoSetState(before, after)
    ensures StateIn(after, issue, initial) == StateIn(before, issue, initial)
    decreases |after|
  {
    if |after| > |before| {
      var init := after[..|after| - 1];
      assert !after[|after| - 1].SetState?;
      assert init[..|before|] == before;
      assert NoSetState(before, init);
      NoSetStateKeepsState(before, init, issue, initial);
    } else {
      assert after == before;
    }
  }

  lemma NoSetStateSuffix(before: seq<Action>, after: seq<Action>, from: nat)
    requires NoSetState(before, after) && from <= |before|
    ensures NoSetState(before[from..], after[from..])
  {
    assert after[from..][..|before| - from] == before[from..];
  }

  /** The actions appended to `before` either set no state (and the state is
      kept, with a destination), or, with a destination, end by setting the
      issue to its new state `state'`. */
  predicate SetsState(before: seq<Action>, after: seq<Action>, issue: nat, state: string, state': string, online: bool) {
    || (NoSetState(before, after) && (online ==> state' == state))
    || (online && |after| > |before| && after[|after| - 1] == SetState(issue, state')
        && NoSetState(before, after[..|after| - 1]))
  }

  /** One pass of the replay loop sets the state only at its end. */
  lemma StepSetsState(ctx: Context, g: Globals, st: Replay, ch: Change)
    requires Step(ctx, g, st, ch).Ok?
    ensures var r := Step(ctx, g, st, ch).value;
            SetsState(g.log, r.0.log, ctx.issue, st.state, r.1.state, ctx.online)
  {
    if ch.author !in SkippedAuthors {
      var author := Resolved(g, ctx.cfg.users, ch.author).value;
      assert author.0.log == g.log;
      if ch.field == "status" {
        StatusSetsState(ctx, author.0, st, ch, author.1);
      }
    }
  }

  lemma StatusSetsState(ctx: Context, g: Globals, st: Replay, ch: Change, author: string)
    requires ch.field == "status" && FieldStep(ctx, g, st, ch, author).Ok?
    ensures var r := FieldStep(ctx, g, st, ch, author).value;
            SetsState(g.log, r.0.log, ctx.issue, st.state, r.1.state, ctx.online)
  {
    StatusIsOtherField();
    assert FieldStep(ctx, g, st, ch, author) == OtherFieldStep(ctx, g, st, ch, author);
    var s := StatusStep(ctx, g, st.state, ch, author).value;
    assert OtherFieldStep(ctx, g, st, ch, author).value == (s.0, st.(state := s.1));
  }

  lemma StatusIsOtherField()
    ensures "status" !in LabelFields && "status" != "attachment" && "status" != "comment"
    ensures !StartsWith("status", "_comment")
  {
  }

  /** Appending actions that set no state, or ending with the new state, keeps
      the state the log gives the issue in step with `state`. */
  lemma SyncedAfter(before: seq<Action>, after: seq<Action>, from: nat, issue: nat, state: string, state': string)
    requires from <= |before| && StateIn(before[from..], issue, "open") == state
    requires SetsState(before, after, issue, state, state', true)
    ensures from <= |after| && StateIn(after[from..], issue, "open") == state'
  {
    if NoSetState(before, after) && state' == state {
      NoSetStateSuffix(before, after, from);
      NoSetStateKeepsState(before[from..], after[from..], issue, "open");
    } else {
      var init := after[..|after| - 1];
      NoSetStateSuffix(before, init, from);
      assert after[from..] == init[from..] + [after[|after| - 1]];
      assert after[from..][..|after[from..]| - 1] == init[from..];
    }
  }

  /** With a destination, the replay's `issue_state` stays the state the log
      last gave the issue (counting from `from`, where the issue was created). */
  lemma {:induction false} ReplayKeepsStateSynced(ctx: Context, g: Globals, st: Replay, changes: seq<Change>, from: nat)
    requires ctx.online && from <= |g.log| && Replayed(ctx, g, st, changes).Ok?
    requires StateIn(g.log[from..], ctx.issue, "open") == st.state
    ensures var r := Replayed(ctx, g, st, changes).value;
            from <= |r.0.log| && StateIn(r.0.log[from..], ctx.issue, "open") == r.1.state
  {
    if changes != [] {
      var init := changes[..|changes| - 1];
      ReplayKeepsStateSynced(ctx, g, st, init, from);
      var before := Replayed(ctx, g, st, init).value;
      var ch := changes[|changes| - 1];
      StepSetsState(ctx, before.0, before.1, ch);
      var after := Step(ctx, before.0, before.1, ch).value;
      SyncedAfter(before.0.log, after.0.log, from, ctx.issue, before.1.state, after.1.state);
    }
  }

  /** With a destination and registered labels to start from, a replay never
      fails for a missing label, and its labels stay registered. */
  lemma {:induction false} ReplayKeepsLabelsRegistered(ctx: Context, g: Globals, st: Replay, changes: seq<Change>)
    requires ctx.online && AllRegistered(g.labels, st.labels)
    ensures var r := Replayed(ctx, g, st, changes);
            (r.Err? ==> !r.error.KeyError?) && (r.Ok? ==> AllRegistered(r.value.0.labels, r.value.1.labels))
  {
    if changes != [] {
      ReplayKeepsLabelsRegistered(ctx, g, st, changes[..|changes| - 1]);
    }
  }

  // ---------------------------------------------------------------------------
  // A whole ticket.

  /** The attributes after the type has been mapped (lines 503-504). */
  function Mapped(a: Attributes): Attributes {
    a.(ticketType := if a.ticketType.Some? then Some(MapTicketType(a.ticketType.value)) else None)
  }

  /** The milestone an issue is created with. */
  function InitialMilestone(data: map<string, string>, milestones: map<string, nat>): Option<nat> {
    if "milestone" in data && data["milestone"] != "" && data["milestone"] in milestones
    then Some(milestones[data["milestone"]]) else None
  }

  /** Lines 502-556: the reporter's handle, the initial labels registered and
      the text put before the description. */
  function Prepared(cfg: Config, online: bool, g: Globals, t: Ticket, a: Attributes): (r: Result<(Globals, string), Exception>)
    ensures "reporter" !in t.data ==> r == Err(KeyError("reporter"))
    ensures r.Ok? <==> "reporter" in t.data && GhUsername(cfg.users, t.data["reporter"]).Ok? && HeaderResolves(cfg.users, a, t.data)
    ensures r.Ok? ==> r.value.1 == Header(cfg, a, t.data, GhUsername(cfg.users, t.data["reporter"]).value, t.created)
    ensures r.Ok? ==> r.value.0.issues == g.issues && NoSetState(g.log, r.value.0.log)
    ensures r.Ok? && online ==>
              forall i :: 0 <= i < |LabelRequests(cfg, a)| ==> Lower(LabelRequests(cfg, a)[i].0) in r.value.0.labels
  {
    var reporterName :- if "reporter" in t.data then Ok(t.data["reporter"]) else Err(KeyError("reporter"));
    var reporter :- Resolved(g, cfg.users, reporterName);
    var g1 := EnsuredLabels(reporter.0, online, LabelRequests(cfg, a));
    EnsuredLabelsRegistered(reporter.0, LabelRequests(cfg, a));
    DescriptionPre(g1, cfg, a, t.data, reporter.1, t.created)
  }

  /** The issue as created, closed at once when the ticket was closed. */
  function TicketIssue(cfg: Config, online: bool, milestones: map<string, nat>, g: Globals, t: Ticket, a: Attributes)
    : (r: Result<(Globals, Context, Replay), Exception>)
    ensures r.Ok? ==> Prepared(cfg, online, g, t, a).Ok? && InitialState(a.status).Ok?
    ensures r.Ok? ==> r.value.1 == Context(cfg, online, r.value.1.issue, Prepared(cfg, online, g, t, a).value.1, milestones)
    ensures r.Ok? ==> r.value.2 == Replay(InitialLabels(cfg, a), InitialState(a.status).value, None, InitialMilestone(t.data, milestones))
    ensures r.Ok? && online ==> r.value.1.issue == g.issues + 1 == r.value.0.issues
    ensures r.Ok? && !online ==> r.value.1.issue == 0
  {
    var pre :- Prepared(cfg, online, g, t, a);
    IssueOpened(cfg, online, milestones, pre.0, t, a, pre.1)
  }

  /** Lines 558-584: the issue created from the prepared text `pre`, closed at
      once when the ticket was closed. */
  function IssueOpened(cfg: Config, online: bool, milestones: map<string, nat>, g: Globals, t: Ticket, a: Attributes, pre: string)
    : (r: Result<(Globals, Context, Replay), Exception>)
    ensures r.Ok? <==> (online ==> Registered(g.labels, InitialLabels(cfg, a)).Ok?) && InitialState(a.status).Ok?
    ensures r.Ok? ==> r.value.1 == Context(cfg, online, r.value.1.issue, pre, milestones)
    ensures r.Ok? ==> r.value.2 == Replay(InitialLabels(cfg, a), InitialState(a.status).value, None, InitialMilestone(t.data, milestones))
    ensures r.Ok? && online ==> r.value.1.issue == g.issues + 1 == r.value.0.issues
    ensures r.Ok? && online ==>
              r.value.0.log == g.log + [CreateIssue(a.summary, pre + cfg.markdown(a.description),
                                                    Registered(g.labels, InitialLabels(cfg, a)).value,
                                                    InitialMilestone(t.data, milestones))]
                                     + (if a.status == "closed" then [SetState(g.issues + 1, "closed")] else [])
    ensures r.Ok? && online ==> r.value.0.labels == g.labels && r.value.0.unmapped == g.unmapped
    ensures r.Ok? && !online ==> r.value.1.issue == 0 && r.value.0 == g
  {
    var labels := InitialLabels(cfg, a);
    var milestone := InitialMilestone(t.data, milestones);
    var created :- IssueCreated(g, online, a.summary, pre + cfg.markdown(a.description), labels, milestone);
    var state :- InitialState(a.status);
    var g2 := if state == "closed" then Updated(created.0, online, created.1, StateProp("closed")).value else created.0;
    Ok((g2, Context(cfg, online, created.1, pre, milestones), Replay(labels, state, None, milestone)))
  }

  /** Right after creation the log gives the issue the state the replay starts
      from: open, or closed by the update that follows the creation. */
  lemma TicketIssueSynced(cfg: Config, milestones: map<string, nat>, g: Globals, t: Ticket, a: Attributes)
    requires TicketIssue(cfg, true, milestones, g, t, a).Ok?
    ensures var r := TicketIssue(cfg, true, milestones, g, t, a).value;
            |g.log| <= |r.0.log| && StateIn(r.0.log[|g.log|..], r.1.issue, "open") == r.2.state
  {
    var p := Prepared(cfg, true, g, t, a).value;
    assert p.0.log[..|g.log|] == g.log;
    IssueOpenedSynced(cfg, milestones, p.0, t, a, p.1, |g.log|);
  }

  /** The same for the creation step alone, counting from a point of the log
      after which no state was set. */
  lemma IssueOpenedSynced(cfg: Config, milestones: map<string, nat>, g: Globals, t: Ticket, a: Attributes, pre: string, from: nat)
    requires IssueOpened(cfg, true, milestones, g, t, a, pre).Ok?
    requires from <= |g.log| && NoSetState(g.log[..from], g.log)
    ensures var r := IssueOpened(cfg, true, milestones, g, t, a, pre).value;
            from <= |r.0.log| && StateIn(r.0.log[from..], r.1.issue, "open") == r.2.state
  {
    var r := IssueOpened(cfg, true, milestones, g, t, a, pre).value;
    NoSetStateSuffix(g.log[..from], g.log, from);
    assert g.log[..from][from..] == [];
    var created := CreateIssue(a.summary, pre + cfg.markdown(a.description),
                               Registered(g.labels, InitialLabels(cfg, a)).value, InitialMilestone(t.data, milestones));
    var closing := if a.status == "closed" then [SetState(r.1.issue, "closed")] else [];
    assert r.0.log[from..] == g.log[from..] + [created] + closing;
    StateAfterCreation(g.log[from..], created, r.1.issue, a.status == "closed");
  }

  lemma StateAfterCreation(base: seq<Action>, created: Action, issue: nat, closed: bool)
    requires NoSetState([], base) && !created.SetState?
    ensures StateIn(base + [created] + (if closed then [SetState(issue, "closed")] else []), issue, "open")
            == if closed then "closed" else "open"
  {
    NoSetStateKeepsState([], base, issue, "open");
    var log := base + [created];
    assert log[..|log| - 1] == base;
    if closed {
      assert (log + [SetState(issue, "closed")])[..|log|] == log;
    } else {
      assert log + [] == log;
    }
  }

  /** With a destination, after a ticket's changelog is replayed on its new
      issue, `issue_state` is the state the log last gives the issue. */
  lemma TicketStateSynced(cfg: Config, milestones: map<string, nat>, g: Globals, t: Ticket, a: Attributes)
    requires TicketIssue(cfg, true, milestones, g, t, a).Ok?
    requires var r := TicketIssue(cfg, true, milestones, g, t, a).value;
             Replayed(r.1, r.0, r.2, t.changelog).Ok?
    ensures var r := TicketIssue(cfg, true, milestones, g, t, a).value;
            var done := Replayed(r.1, r.0, r.2, t.changelog).value;
            |g.log| <= |done.0.log| && StateIn(done.0.log[|g.log|..], r.1.issue, "open") == done.1.state
  {
    var r := TicketIssue(cfg, true, milestones, g, t, a).value;
    TicketIssueSynced(cfg, milestones, g, t, a);
    ReplayKeepsStateSynced(r.1, r.0, r.2, t.changelog, |g.log|);
  }

  /** The issue of a ticket whose attributes are known, with its changelog
      replayed on it; the attachment of a last change must have been
      followed by a comment. */
  function TicketReplayed(cfg: Config, online: bool, milestones: map<string, nat>, g: Globals, t: Ticket, a: Attributes)
    : (r: Result<(Globals, nat), Exception>)
    ensures r.Ok? && online ==> r.value.1 == g.issues + 1 == r.value.0.issues
    ensures r.Ok? && !online ==> r.value.1 == 0
  {
    var issue :- TicketIssue(cfg, online, milestones, g, t, a);
    var done :- Replayed(issue.1, issue.0, issue.2, t.changelog);
    ReplayedIssues(issue.1, issue.0, issue.2, t.changelog);
    if done.1.attachment.Some? then Err(AssertionError("attachment is None"))
    else Ok((done.0, issue.1.issue))
  }

  /** Converting one ticket: its issue, and the global state afterwards. */
  function TicketConverted(cfg: Config, online: bool, milestones: map<string, nat>, g: Globals, t: Ticket)
    : (r: Result<(Globals, nat), Exception>)
    ensures "summary" !in t.data ==> r == Err(KeyError("summary"))
    ensures r.Ok? && online ==> r.value.1 == g.issues + 1 == r.value.0.issues
    ensures r.Ok? && !online ==> r.value.1 == 0
  {
    if "summary" !in t.data then Err(KeyError("summary"))
    else
      var a :- InitialAttributes(t.changelog, t.data);
      TicketReplayed(cfg, online, milestones, g, t, Mapped(a))
  }

  /** The replay never creates an issue. */
  lemma {:induction false} ReplayedIssues(ctx: Context, g: Globals, st: Replay, changes: seq<Change>)
    ensures Replayed(ctx, g, st, changes).Ok? ==> Replayed(ctx, g, st, changes).value.0.issues == g.issues
  {
    if changes != [] {
      ReplayedIssues(ctx, g, st, changes[..|changes| - 1]);
    }
  }

  /** An issue's labels are accepted at creation exactly when the configured
      extra label is unset or already registered: every other initial label
      is registered on the way. */
  lemma InitialLabelsAccepted(cfg: Config, g: Globals, a: Attributes)
    ensures var g1 := EnsuredLabels(g, true, LabelRequests(cfg, a));
            AllRegistered(g1.labels, InitialLabels(cfg, a)) <==> cfg.addLabel == "" || Lower(cfg.addLabel) in g1.labels
  {
    var requests := LabelRequests(cfg, a);
    EnsuredLabelsRegistered(g, requests);
    PrefixedRegistered(EnsuredLabels(g, true, requests).labels, cfg.addLabel, Names(requests));
  }

  lemma PrefixedRegistered(registry: map<string, string>, extra: string, names: seq<string>)
    requires AllRegistered(registry, names)
    ensures AllRegistered(registry, (if extra != "" then [extra] else []) + names) <==> extra == "" || Lower(extra) in registry
  {
    var labels := (if extra != "" then [extra] else []) + names;
    if extra != "" {
      assert labels[0] == extra;
      assert forall i :: 1 <= i < |labels| ==> labels[i] == names[i - 1];
    } else {
      assert labels == names;
    }
  }

  // ---------------------------------------------------------------------------
  // All tickets.

  /** The state of the ticket loop: the global state, `nextticketid`, and the
      (ticket id, issue number) of each ticket converted so far. */
  datatype Progress = Progress(g: Globals, next: int, numbered: seq<(int, int)>)

  /** Gap filling before ticket `id` (lines 409-422). */
  function Filled(g: Globals, online: bool, fill: bool, next: int, id: int): (r: (Globals, int))
    ensures r.1 == if fill && next < id then id else next
    ensures online && fill && next < id ==>
              r.0.issues == g.issues + (id - next) && r.0.log == g.log + Placeholders(next, id - next, g.issues + 1)
    ensures !(online && fill && next < id) ==> r.0 == g
  {
    if !(fill && next < id) then (g, next)
    else if !online then (g, id)
    else (g.(log := g.log + Placeholders(next, id - next, g.issues + 1), issues := g.issues + (id - next)), id)
  }

  /** The closed placeholder issue for the missing ticket `n` added. */
  function Placeholder(g: Globals, n: int): (r: Globals)
    ensures r.issues == g.issues + 1 && r.labels == g.labels && r.unmapped == g.unmapped
  {
    g.(log := g.log + [CreateIssue(PlaceholderTitle(n), PlaceholderBody(n), [], None), SetState(g.issues + 1, "closed")],
       issues := g.issues + 1)
  }

  /** Filling the gap up to one more ticket id adds one placeholder. */
  lemma FilledOneMore(g: Globals, next: int, k: int)
    requires next <= k
    ensures Filled(g, true, true, next, k + 1).0 == Placeholder(Filled(g, true, true, next, k).0, k)
  {
    var earlier := Placeholders(next, k - next, g.issues + 1);
    var more := [CreateIssue(PlaceholderTitle(k), PlaceholderBody(k), [], None), SetState(g.issues + 1 + (k - next), "closed")];
    var before := Filled(g, true, true, next, k).0;
    var after := Filled(g, true, true, next, k + 1).0;
    assert before == g.(log := g.log + earlier, issues := g.issues + (k - next)) by {
      if next == k {
        assert earlier == [] && g.log + earlier == g.log;
      }
    }
    PlaceholdersOneMore(next, k - next, g.issues + 1);
    assert after == g.(log := g.log + (earlier + more), issues := g.issues + (k + 1 - next));
    assert g.log + earlier + more == g.log + (earlier + more);
  }

  /** The conversion of one ticket from a given global state: the state
      afterwards and the number of the issue created. */
  type Conversion = (Globals, Ticket) -> Result<(Globals, nat), Exception>

  /** A conversion that creates exactly one issue, the next one. */
  ghost predicate CreatesNextIssue(convert: Conversion) {
    forall g: Globals, t: Ticket :: convert(g, t).Ok? ==> convert(g, t).value.1 == g.issues + 1 == convert(g, t).value.0.issues
  }

  /** The conversion lines 426-740 perform for each ticket. */
  function Converting(cfg: Config, online: bool, milestones: map<string, nat>): (r: Conversion)
    ensures online ==> CreatesNextIssue(r)
    ensures forall g: Globals, t: Ticket :: "summary" !in t.data ==> r(g, t) == Err(KeyError("summary"))
  {
    (g, t) => TicketConverted(cfg, online, milestones, g, t)
  }

  lemma ConvertingIs(cfg: Config, online: bool, milestones: map<string, nat>, g: Globals, t: Ticket)
    ensures Converting(cfg, online, milestones)(g, t) == TicketConverted(cfg, online, milestones, g, t)
  {
  }

  /** One turn of the ticket loop (lines 401-740): a skipped ticket changes
      nothing; otherwise the gap before it is filled and the ticket
      converted. */
  function TicketStep(cfg: Config, online: bool, convert: Conversion, onlyIssues: seq<int>, blacklist: seq<int>,
                      p: Progress, t: Ticket): (r: Result<Progress, Exception>)
    ensures Skipped(t.id, onlyIssues, blacklist) ==> r == Ok(p)
    ensures r.Ok? && !Skipped(t.id, onlyIssues, blacklist) ==>
              |r.value.numbered| == |p.numbered| + 1 && r.value.numbered[..|p.numbered|] == p.numbered
              && r.value.numbered[|p.numbered|].0 == t.id
  {
    if Skipped(t.id, onlyIssues, blacklist) then Ok(p)
    else
      var filled := Filled(p.g, online, FillsGaps(cfg, onlyIssues, blacklist), p.next, t.id);
      var converted :- convert(filled.0, t);
      Ok(Progress(converted.0, filled.1 + 1, p.numbered + [(t.id, converted.1)]))
  }

  /** With a destination, gap filling on and the issue count one behind
      `nextticketid`, a ticket becomes the issue with its own number. */
  lemma TicketKeepsItsNumber(cfg: Config, convert: Conversion, p: Progress, t: Ticket)
    requires CreatesNextIssue(convert) && FillsGaps(cfg, [], [])
    requires p.g.issues == p.next - 1 && p.next <= t.id
    requires TicketStep(cfg, true, convert, [], [], p, t).Ok?
    ensures var q := TicketStep(cfg, true, convert, [], [], p, t).value;
            q.next == t.id + 1 && q.g.issues == t.id && q.numbered == p.numbered + [(t.id, t.id)]
  {
    var filled := Filled(p.g, true, true, p.next, t.id);
    assert filled.0.issues == t.id - 1 && filled.1 == t.id;
    var converted := convert(filled.0, t);
    assert converted.Ok? && converted.value.1 == t.id == converted.value.0.issues;
  }

  /** The loop over the fetched tickets. */
  function TicketsConverted(cfg: Config, online: bool, convert: Conversion, onlyIssues: seq<int>, blacklist: seq<int>,
                            start: Progress, tickets: seq<Ticket>): Result<Progress, Exception>
  {
    if tickets == [] then Ok(start)
    else
      var p :- TicketsConverted(cfg, online, convert, onlyIssues, blacklist, start, tickets[..|tickets| - 1]);
      TicketStep(cfg, online, convert, onlyIssues, blacklist, p, tickets[|tickets| - 1])
  }

  /** The ticket loop over one more ticket, from where it left the prefix. */
  lemma TicketsConvertedOneMore(cfg: Config, online: bool, convert: Conversion, onlyIssues: seq<int>, blacklist: seq<int>,
                                start: Progress, tickets: seq<Ticket>, k: nat, p: Progress)
    requires k < |tickets| && TicketsConverted(cfg, online, convert, onlyIssues, blacklist, start, tickets[..k]) == Ok(p)
    ensures TicketsConverted(cfg, online, convert, onlyIssues, blacklist, start, tickets[..k + 1])
            == TicketStep(cfg, online, convert, onlyIssues, blacklist, p, tickets[k])
  {
    assert tickets[..k + 1][..k] == tickets[..k];
  }

  /** The ticket loop stops at the first error. */
  lemma {:induction false} TicketsConvertedErrorKept(cfg: Config, online: bool, convert: Conversion, onlyIssues: seq<int>,
                                                     blacklist: seq<int>, start: Progress, tickets: seq<Ticket>, k: nat)
    requires k <= |tickets| && TicketsConverted(cfg, online, convert, onlyIssues, blacklist, start, tickets[..k]).Err?
    ensures TicketsConverted(cfg, online, convert, onlyIssues, blacklist, start, tickets)
            == TicketsConverted(cfg, online, convert, onlyIssues, blacklist, start, tickets[..k])
    decreases |tickets| - k
  {
    if k < |tickets| {
      assert tickets[..k + 1][..k] == tickets[..k];
      TicketsConvertedErrorKept(cfg, online, convert, onlyIssues, blacklist, start, tickets, k + 1);
    } else {
      assert tickets[..k] == tickets;
    }
  }

  /** Each ticket paired with its own id as issue number. */
  function SelfNumbered(tickets: seq<Ticket>): (r: seq<(int, int)>)
    ensures |r| == |tickets| && forall k :: 0 <= k < |tickets| ==> r[k] == (tickets[k].id, tickets[k].id)
  {
    seq(|tickets|, k requires 0 <= k < |tickets| => (tickets[k].id, tickets[k].id))
  }

  /** With a destination, gap filling on, an empty repository (`next` one past
      the issue count) and ticket ids in ascending order from `next` on, every
      ticket becomes the issue with its own number, and the issue count stays
      one behind `nextticketid`. */
  lemma {:induction false} TicketsKeepTheirNumbers(cfg: Config, convert: Conversion, start: Progress, tickets: seq<Ticket>)
    requires CreatesNextIssue(convert) && FillsGaps(cfg, [], []) && start.g.issues == start.next - 1
    requires forall i :: 0 < i < |tickets| ==> tickets[i - 1].id < tickets[i].id
    requires tickets != [] ==> start.next <= tickets[0].id
    requires TicketsConverted(cfg, true, convert, [], [], start, tickets).Ok?
    ensures var p := TicketsConverted(cfg, true, convert, [], [], start, tickets).value;
            p.g.issues == p.next - 1
            && p.next == (if tickets == [] then start.next else tickets[|tickets| - 1].id + 1)
            && p.numbered == start.numbered + SelfNumbered(tickets)
  {
    if tickets != [] {
      var init := tickets[..|tickets| - 1];
      var t := tickets[|tickets| - 1];
      assert tickets == init + [t];
      AscendingInit(tickets);
      assert TicketsConverted(cfg, true, convert, [], [], start, init).Ok?;
      TicketsKeepTheirNumbers(cfg, convert, start, init);
      LastTicketNumbered(cfg, convert, start, init, t);
    }
  }

  /** The tickets before the last are ascending too, and below the last. */
  lemma AscendingInit(tickets: seq<Ticket>)
    requires tickets != [] && forall i :: 0 < i < |tickets| ==> tickets[i - 1].id < tickets[i].id
    ensures var init := tickets[..|tickets| - 1];
            (forall i :: 0 < i < |init| ==> init[i - 1].id < init[i].id)
            && (init != [] ==> init[0] == tickets[0] && init[|init| - 1].id < tickets[|tickets| - 1].id)
  {
  }

  lemma LastTicketNumbered(cfg: Config, convert: Conversion, start: Progress, init: seq<Ticket>, t: Ticket)
    requires CreatesNextIssue(convert) && FillsGaps(cfg, [], [])
    requires (if init == [] then start.next else init[|init| - 1].id + 1) <= t.id
    requires TicketsConverted(cfg, true, convert, [], [], start, init + [t]).Ok?
    requires var p := TicketsConverted(cfg, true, convert, [], [], start, init);
             p.Ok? && p.value.g.issues == p.value.next - 1
             && p.value.next == (if init == [] then start.next else init[|init| - 1].id + 1)
             && p.value.numbered == start.numbered + SelfNumbered(init)
    ensures var q := TicketsConverted(cfg, true, convert, [], [], start, init + [t]).value;
            q.g.issues == q.next - 1 && q.next == t.id + 1
            && q.numbered == start.numbered + SelfNumbered(init + [t])
  {
    assert (init + [t])[..|init|] == init;
    var p := TicketsConverted(cfg, true, convert, [], [], start, init).value;
    TicketKeepsItsNumber(cfg, convert, p, t);
    SelfNumberedSnoc(start.numbered, init, t);
  }

  lemma SelfNumberedSnoc(before: seq<(int, int)>, tickets: seq<Ticket>, t: Ticket)
    ensures before + SelfNumbered(tickets + [t]) == before + SelfNumbered(tickets) + [(t.id, t.id)]
  {
    assert SelfNumbered(tickets + [t]) == SelfNumbered(tickets) + [(t.id, t.id)];
  }


  /** Skipped tickets leave no trace. */
  lemma SkippedTicketIgnored(cfg: Config, online: bool, convert: Conversion, onlyIssues: seq<int>, blacklist: seq<int>,
                             start: Progress, tickets: seq<Ticket>, t: Ticket)
    requires Skipped(t.id, onlyIssues, blacklist)
    ensures TicketsConverted(cfg, online, convert, onlyIssues, blacklist, start, tickets + [t])
            == TicketsConverted(cfg, online, convert, onlyIssues, blacklist, start, tickets)
  {
    assert (tickets + [t])[..|tickets|] == tickets;
  }
}
