# trac-to-github, modelled in Dafny

This project models the sequential core of the Trac-to-GitHub migration scripts and proves properties of it:

- `migrate.py`:
  - the mapping helpers (`maptickettype`, `gh_username`, changeset quoting, svn revision references);
  - the svn→git revision map;
  - the case-insensitive label registry `gh_labels`;
  - the table pass of `trac2markdown`;
  - `convert_issues`. That covers milestone creation, recovery of each ticket's initial attributes, the initial label list, placeholder issues for deleted tickets, status mapping, and the replay of each ticket's changelog onto its issue.
- `migration_archive_writer.py`:
  - `pluralize`, `issue_wiki_file`;
  - the request dispatcher `MigrationArchiveWritingRequester`, with its issue, comment and event counters, its per-type batches of records and their numbered archive files, and its wiki pages.

The GitHub destination is an abstract log of actions: create label, milestone or issue; set state, labels, assignee, body, title or milestone; comment. Issues and milestones are numbered 1, 2, … in creation order, as in a repository that starts empty. Without a destination (`dest` is None), no helper logs anything. A Python exception becomes an `Err` carrying the exception. The run stops there, so the model leaves the state after an error unconstrained.

Modules:

- `Outcomes`: `Option`, `Result` and the exceptions the code raises.
- `Text`: the Python string operations the code uses (`strip`, `split`, `join`, `replace`, `lower`, `str(n)`, `f'{n:06}'`, `int(s)`, slicing), with their round trips.
- `TicketMapping`: `maptickettype`, `gh_username`, `format_changeset_comment`, `handle_svnrev_reference`.
- `SvnGitMap`: the svn→git map, built by a loop over the lines of the map file and specified by a function of those lines.
- `TableMarkup`: the table pass, as a loop over lines, specified line by line.
- `IssueModel`: the data of `convert_issues`. It gives the effect of each GitHub helper on the global state, the initial attributes and labels, the description header, and the status mapping.
- `ChangeReplay`: one replay step per change type, the replay of a changelog, the conversion of one ticket, and the loop over tickets, all as functions. It holds the lemmas about them.
- `ConvertIssues`: `convert_issues` as the script runs it. The global state (`gh_labels`, `unmapped_users`, the destination) is the class `Migration`. Each helper and each loop is a method, proved equal to the functions of `IssueModel` and `ChangeReplay`.
- `ArchiveWriter`: the request dispatcher as a class whose fields the methods update, with the batch and file invariants.

## Model

| member | source | states |
|---|---|---|
| Text.Strip | migrate.py:451 | The result has no leading or trailing whitespace and is no longer than the input. |
| Text.StripRemovesOnlySpace | migrate.py:722 | `strip()` removes only whitespace: the result is the input with a whitespace-only prefix and suffix cut off. |
| Text.StripIdempotent | migrate.py:722 | Stripping twice gives what stripping once gives. |
| Text.Split | migrate.py:522 | `split(sep)` returns at least one piece, and no piece contains the separator. |
| Text.JoinSplit | migrate.py:210-249 | Joining the pieces of `split(sep)` with `sep` gives back the original text. |
| Text.SplitJoin | migrate.py:210-249 | Splitting a `sep`-join of separator-free pieces gives back the pieces. |
| Text.Word | migrate.py:828 | The first whitespace-free run of a text is a prefix of it, ended by whitespace or by the end. |
| Text.Words | migrate.py:828 | `line.split()` yields only non-empty tokens, none of which contains white space. |
| Text.ReplaceAbsent | migrate.py:163 | Replacing a pattern that does not occur leaves the text unchanged. |
| Text.ReplaceCharKeeps | migrate.py:163 | Replacing a character that does not occur leaves the text unchanged. |
| Text.Lower | migrate.py:275 | `lower()` keeps the length and lower-cases each ASCII letter in place. |
| Text.LowerIdempotent | migrate.py:275 | Lower-casing twice gives what lower-casing once gives, so registry keys are stable. |
| Text.DigitChar | migration_archive_writer.py:94 | A digit below ten is written as a decimal digit character. |
| Text.NatToString | migration_archive_writer.py:94 | `str(n)` is a non-empty string of digits without a leading zero. |
| Text.DigitsValueOfNat | migration_archive_writer.py:94 | Reading the digits of `str(n)` gives `n` back. |
| Text.NatToStringInjective | migration_archive_writer.py:94 | Distinct numbers have distinct decimal strings. |
| Text.Zeros | migration_archive_writer.py:140 | The padding is exactly `n` zero characters. |
| Text.ZeroPad | migration_archive_writer.py:140 | `f'{n:06}'` is all digits and at least as long as the width. |
| Text.ZeroPadValue | migration_archive_writer.py:140 | Reading a zero-padded number gives the number back. |
| Text.ZeroPadInjective | migration_archive_writer.py:140 | Distinct numbers are padded to distinct strings. |
| Text.ZeroPadWidth | migration_archive_writer.py:140 | A number below 10^width is padded to exactly `width` characters. |
| Text.FormatPaddedInjective | migration_archive_writer.py:152 | `f'{n:02}'` of distinct integers, negative ones included, differ. |
| Text.ParseInt | migration_archive_writer.py:88 | `int(s)` succeeds only on a text that is not blank. |
| Text.ParseIntShape | migration_archive_writer.py:88 | Whatever `int(s)` accepts is, once stripped, an optional sign, some leading zeros and the decimal digits of the value's magnitude, and the value carries that sign. |
| Text.ParseIntOfText | migration_archive_writer.py:88 | Conversely, every such text, with any white space around it, is read as its signed value. Together with `ParseIntShape` this characterises what `int()` accepts here. |
| Text.DigitsCanonical | migration_archive_writer.py:88 | A run of digits is some zeros followed by the canonical digits of its value. |
| Text.StripPadded | migration_archive_writer.py:88 | Stripping white space from around a text that neither starts nor ends with white space gives that text. |
| Text.ParseIntOfString | migration_archive_writer.py:151 | `int(str(i)) == i` for every integer. |
| Text.Prefix | migrate.py:158 | `s[:n]` is a prefix of `s` of length `min(n, len(s))`. |
| TicketMapping.MapTicketType | migrate.py:257-264 | `defect`→`bug`, `clarification`→`question`, `task`→`enhancement`; every other type is returned unchanged. |
| TicketMapping.MapTicketTypeIdempotent | migrate.py:257-264 | Mapping a mapped type changes nothing. |
| TicketMapping.MapTicketTypeMerges | migrate.py:257-264 | Two different types map to the same label only when one of them is that label itself. |
| TicketMapping.GhUsername | migrate.py:366-374 | `gh-x` becomes `@x`; a name with a non-empty mapping becomes `@` plus the mapping; any other name is returned unchanged. The result starts with `@` exactly when the name is mapped. An unmapped name that starts with `@` fails the assertion. |
| TicketMapping.FormatChangesetCommentLines | migrate.py:156-164 | The comment is the header line followed by every line of the commit message prefixed with `> `, one for one. |
| TicketMapping.QuoteSplit | migrate.py:163 | `replace('\n', '\n> ')` prefixes each line after the first with `> ` and leaves the first line alone. |
| TicketMapping.HandleSvnrevReference | migrate.py:167-173 | A mapped revision becomes the first 10 characters of its git hash (exactly 10 when the hash is that long, the whole hash when it is shorter); an unmapped one is left as matched. |
| SvnGitMap.LineEntry | migrate.py:828-834 | A line with at most one token gives no entry. Otherwise the key is the second token without its first character, the hash is the first token, and the branch is `trunk` when there is no third token or the third token is `trunk`. |
| SvnGitMap.BuildSvnGitMap | migrate.py:825-839 | The loop builds exactly the map the lines specify. |
| SvnGitMap.MapOfLookup | migrate.py:836-839 | A revision maps to its first `trunk` entry if there is one, else to its last entry. |
| SvnGitMap.AddLineLookup | migrate.py:836-839 | One line changes only its own revision. An existing `trunk` entry stays; any other entry is overwritten. |
| SvnGitMap.FirstTrunkIsTrunk | migrate.py:837 | The entry chosen first for a revision is on `trunk`. |
| SvnGitMap.LastEntryNotTrunk | migrate.py:837-839 | Without a `trunk` line, the entry kept is not on `trunk`. |
| SvnGitMap.TrunkEntryKept | migrate.py:837-838 | Once a revision has a `trunk` entry, no later lines change it. |
| SvnGitMap.LaterLineOverwrites | migrate.py:839 | A line for a revision without a `trunk` entry sets that revision's entry. |
| SvnGitMap.ShortLineSkipped | migrate.py:829-830 | A line with at most one token leaves the map unchanged. |
| TableMarkup.Dashes | migrate.py:235 | Each character other than `\|`, `,`, `^`, `:` becomes `-`; the length is kept. |
| TableMarkup.ConvertLines | migrate.py:208-248 | One output line per input line; the lemmas below give each line's content. |
| TableMarkup.ConvertTables | migrate.py:208-249 | The loop with its `is_table` flag yields the line-wise conversion, joined with newlines. |
| TableMarkup.ReplaceAcrossNewline | migrate.py:241-243 | A replacement whose pattern has no newline acts on the two lines of `row + '\n' + separator` separately. |
| TableMarkup.ReplaceKeepsNoNewline | migrate.py:241-243 | Replacing within one line never introduces a newline. |
| TableMarkup.CellPipesAcrossNewline | migrate.py:236-243 | The cell rewriting of a row with its separator is the rewriting of each line. |
| TableMarkup.CellPipesNoNewline | migrate.py:241-243 | The cell rewriting of a single line stays one line. |
| TableMarkup.SeparatorRowShape | migrate.py:233-235 | The separator row has the length of the row with alignment marks turned to colons. It holds only `\|`, `,`, `^`, `:` and `-`, with its pipes exactly where that row has them. |
| TableMarkup.FirstRowGetsSeparator | migrate.py:231-237 | The first line of a run of table lines becomes two lines: the row and its separator row, both with cell pipes rewritten. |
| TableMarkup.LaterRowHasNoSeparator | migrate.py:231-243 | A table line after a table line becomes one line, with cell pipes rewritten and no separator. |
| TableMarkup.NonTableLineUntouched | migrate.py:244-247 | An indented line is left as is, and any other non-table line is only rewritten. |
| IssueModel.EnsuredLabel | migrate.py:273-280 | Without a destination nothing changes. Otherwise the lower-cased name is registered afterwards, existing registrations are kept, and no state change is logged. |
| IssueModel.EnsuredLabelIdempotent | migrate.py:273-276 | Ensuring a label again, in any casing and with any colour, changes nothing and creates nothing. |
| IssueModel.EnsuredLabelCreates | migrate.py:275-279 | A name not yet registered in any casing is created once and registered under its lower-cased name; a registered one changes nothing. |
| IssueModel.Resolved | migrate.py:366-374 | The handle is `gh_username`'s. The name joins `unmapped_users` exactly when the handle does not start with `@`; nothing else changes. |
| IssueModel.Registered | migrate.py:341-343 | The label lookup succeeds exactly when every name is registered in lower case, and yields the registered labels in order; otherwise it raises `KeyError`. |
| IssueModel.IssueCreated | migrate.py:282-298 | Without a destination nothing changes and the issue is 0. With one, creation succeeds exactly when every label is registered, and otherwise raises `KeyError`. On success the issue gets the next number, and only the creation is logged, with the registered labels. |
| IssueModel.Commented | migrate.py:326-336 | With a destination, exactly one comment is logged on the issue; the registry and the issues are untouched. |
| IssueModel.Updated | migrate.py:338-362 | A state update logs exactly that state. Other updates log no state change. Only a label update can fail, with `KeyError`. Without a destination nothing changes. |
| IssueModel.IndexOf | migrate.py:649 | The position of the first occurrence. |
| IssueModel.Remove | migrate.py:649 | `list.remove(x)` succeeds exactly when `x` is present, and then drops its first occurrence; otherwise `ValueError`. |
| IssueModel.RemoveMultiset | migrate.py:649 | Removing takes exactly one `x` out of the multiset of labels. |
| IssueModel.MilestonesCreated | migrate.py:379-390 | With a destination, one creation is logged per milestone, in order. Each milestone name maps to a number; the milestone count grows by the number of milestones. |
| IssueModel.MilestoneNumbers | migrate.py:385-390 | Each name maps to the number of the last milestone with that name (0 without a destination): a later milestone's dictionary entry overwrites an earlier one. |
| IssueModel.MilestoneNumbersOneMore | migrate.py:385-390 | One more milestone takes its name's entry; every other last-named milestone keeps its number. |
| IssueModel.FirstOldAt | migrate.py:448-479 | A field's recovered value is the stripped old value of the first change to that field. |
| IssueModel.FirstOldNone | migrate.py:448-479 | No value is recovered for a field exactly when no change touches it. |
| IssueModel.FirstOldsOneMore | migrate.py:448-479 | One more change records its stripped old value only if its field is tracked and not yet recovered. |
| IssueModel.RecoverFirstOlds | migrate.py:448-479 | The loop with its `continue`s recovers exactly the first stripped old value of each of the ten tracked fields. |
| IssueModel.Required | migrate.py:484-501 | A required field fails exactly when neither the changelog nor the ticket data has it. |
| IssueModel.WithFallbacks | migrate.py:482-501 | The attributes are found exactly when owner, description, summary, keywords and status each come from the changelog or the ticket data. |
| IssueModel.InitialFieldFromFirstChange | migrate.py:448-501 | For each of the ten tracked fields, a field some change touched starts as the stripped old value of the first change to it. |
| IssueModel.FieldFromFound | migrate.py:482-501 | For every tracked field a recovered value wins over the ticket data. |
| IssueModel.UntouchedFieldsFromData | migrate.py:482-501 | For each of the ten tracked fields, a field no change touched is taken from the ticket data. Priority and severity default to `normal`, component, version and type may be missing, and the other five must be in the data. |
| IssueModel.KeywordLabels | migrate.py:522-523 | One label per comma-separated keyword, stripped, blanks included. |
| IssueModel.KeywordRequests | migrate.py:521-524 | Keyword labels are requested with the keyword colour only when keywords are non-empty and `keywords_to_labels` is set. |
| IssueModel.EnsuredLabels | migrate.py:509-524 | Ensuring labels in turn keeps existing registrations, logs no state change and touches nothing but the registry and the log. |
| IssueModel.EnsuredLabelsRegistered | migrate.py:509-524 | With a destination, every requested label is registered afterwards. |
| IssueModel.PlainTicketLabels | migrate.py:506-508 | A ticket without component, type, keywords or non-normal priority and severity gets `add_label` alone, if set. |
| IssueModel.KeywordsAreLastLabels | migrate.py:521-524 | With keywords as labels, the stripped keywords end the initial label list, in order. |
| IssueModel.NonBlank | migrate.py:545-549 | Only the non-blank stripped entries are kept, in order. |
| IssueModel.SpacedHandles | migrate.py:545-553 | `ccstr`, written front to back: each handle after a space. It is empty exactly when there are no names. |
| IssueModel.SpacedHandlesSnoc | migrate.py:550-551 | One more name appends a space and its handle, as `ccstr += ' ' + person` does. |
| IssueModel.AllResolveConcat | migrate.py:531-551 | Every name of two lists has a handle exactly when every name of each list has one. |
| IssueModel.UnmappedOfConcat | migrate.py:531-551 | The unmapped names of two lists are the union of each list's. |
| IssueModel.CcResolved | migrate.py:545-553 | Resolving the cc list succeeds exactly when every non-blank stripped entry has a handle. The result is `SpacedHandles` of those entries, and exactly the unmapped entries join `unmapped_users`. |
| IssueModel.OwnerPart | migrate.py:530-539 | With an owner, the assignee line names the owner's handle, and resolving fails exactly when `gh_username` does. Without an owner there is no line. The owner joins `unmapped_users` only when unmapped. |
| IssueModel.Header | migrate.py:526-556 | The header starts with the migration note, the original creator and the creation time. |
| IssueModel.DescriptionPre | migrate.py:526-556 | The header succeeds exactly when the owner and every non-blank cc entry have handles. It then equals `Header`: the head, then the assignee line if there is an owner, the version line unless the version is missing or `trunk`, the CC line if some cc entry is non-blank, and the keywords line if keywords are not made labels. Only `unmapped_users` changes, by the unmapped owner and cc entries. |
| IssueModel.LinesAfterOwner | migrate.py:541-556 | The version, CC and keywords lines succeed exactly when every non-blank cc entry has a handle; they then equal the reference lines, the CC line holding `SpacedHandles` of those entries. Only `unmapped_users` changes, by the unmapped cc entries. |
| IssueModel.InitialState | migrate.py:576-584 | `new`, `assigned`, `analyzed`, `reopened` open the issue and `closed` closes it. Any other status raises `ValueError`. |
| IssueModel.ChangedState | migrate.py:623-630 | The seven open statuses map to `open` and `closed` to `closed`. Any other status raises `ValueError`. |
| IssueModel.StatusMappingsAgree | migrate.py:577-630 | A status accepted at creation maps to the same state in a status change. |
| IssueModel.Placeholders | migrate.py:409-422 | Two actions per missing ticket. |
| IssueModel.PlaceholdersOneMore | migrate.py:410-422 | One more missing ticket appends its creation and its close. |
| IssueModel.PlaceholdersNumbered | migrate.py:409-422 | The k-th missing ticket's placeholder is created with its title and body, then issue `from + k` is closed. |
| ChangeReplay.RemoveKeepsRegistered | migrate.py:649 | Removing a label keeps every remaining label registered. |
| ChangeReplay.Relabeled | migrate.py:652-653 | Announcing and setting labels keeps the registry. It fails only with `KeyError`, and never when every label is registered. Without a destination it does nothing. |
| ChangeReplay.Say | migrate.py:626 | Exactly one comment by the author at the change's time is logged. |
| ChangeReplay.CommentStep | migrate.py:600-615 | A comment after an attachment is logged with the attachment's name and the converted stripped text. A blank comment without attachment is dropped. |
| ChangeReplay.StatusStep | migrate.py:621-634 | The step succeeds exactly for the known statuses and yields the mapped state. The state is set, as the last action, only when it changes. |
| ChangeReplay.Replaced | migrate.py:647-650 | The step fails with `ValueError` exactly when the old label is absent. Otherwise the multiset loses the old label and gains the new one, which ends the list. |
| ChangeReplay.ReplacedRegistered | migrate.py:647-653 | Replacing keeps all labels registered when the new one is registered. |
| ChangeReplay.ComponentStep | migrate.py:647-653 | The old component's label is replaced by the new one. With registered labels the only failure is `ValueError`, and the result stays registered. |
| ChangeReplay.OwnerNote | migrate.py:655-660 | The assignee note resolves users without logging or changing labels; it fails only on the `gh_username` assertion. |
| ChangeReplay.OwnerStep | migrate.py:654-666 | An owner change ends by setting the assignee to the new handle, or to none when the handle has no `@`. |
| ChangeReplay.MilestoneStep | migrate.py:678-683 | The milestone is the new one when it is known and non-empty, else none, and that is what is logged. |
| ChangeReplay.TypeStep | migrate.py:686-694 | The mapped old type's label is replaced by the mapped new type. Failure and registration behave as for components. |
| ChangeReplay.RankLabel | migrate.py:702-705 | A priority or severity is a label unless empty or `normal`. |
| ChangeReplay.RankStep | migrate.py:701-716 | Priority and severity changes replace the old label by the new one, skipping `normal` and empty values. |
| ChangeReplay.RemovedKeywords | migrate.py:721-724 | Removing the old keywords fails only with `ValueError`. |
| ChangeReplay.RemovedKeywordsOneMore | migrate.py:721-724 | One more old keyword removes its label only if it is non-blank. |
| ChangeReplay.RemovedKeywordsErrorKept | migrate.py:721-724 | A missing keyword label ends the removals with that error. |
| ChangeReplay.RemovedKeywordsMultiset | migrate.py:721-724 | The removals succeed exactly when the old keywords are a sub-multiset of the labels, and then take exactly them away. |
| ChangeReplay.RemovedKeywordsKeepRegistered | migrate.py:721-724 | The labels left after the removals are still registered. |
| ChangeReplay.KeywordLabelsEnsured | migrate.py:725-729 | Ensuring the new keyword labels only adds to the registry; with a destination, every non-blank new keyword is registered. |
| ChangeReplay.KeywordsDispatch | migrate.py:717-718 | A keywords change with keywords as labels is the label replacement, applied to the label list. |
| ChangeReplay.KeywordsReplaced | migrate.py:719-729 | The replacement succeeds exactly when the old keywords are present. The multiset then loses the old keywords and gains the new ones. |
| ChangeReplay.KeywordsReplacedRegistered | migrate.py:719-733 | Labels stay registered across a keywords change. |
| ChangeReplay.KeywordLabelsStep | migrate.py:717-733 | The label list becomes the keyword replacement. With registered labels the only failure is `ValueError`, and the result stays registered. |
| ChangeReplay.KeywordsStep | migrate.py:717-735 | Without keywords as labels, the labels are kept and the only effect is the comment `Changing keywords from "<old>" to "<new>".` by the author at the change's time, when online. Nothing else in the global state changes. |
| ChangeReplay.FieldStep | migrate.py:597-739 | An attachment is held back until the next change, and a comment clears it. Only status changes touch the state. With registered labels, no step raises `KeyError`. |
| ChangeReplay.LabelStep | migrate.py:647-735 | Every label-changing type keeps all labels registered and fails only with `ValueError`. |
| ChangeReplay.OtherFieldStep | migrate.py:597-739 | The other change types keep the label list and the registry. Unknown types raise `BaseException`. |
| ChangeReplay.Step | migrate.py:589-739 | A change other than a comment after an attachment fails the assertion. A skipped author's change keeps the pending attachment; otherwise an attachment becomes pending and a comment clears it. No step creates an issue, and with registered labels none raises `KeyError`. |
| ChangeReplay.ReplayedPrefix | migrate.py:587-739 | Replaying one more change is one more step. |
| ChangeReplay.ReplayedOneMore | migrate.py:587-739 | Replaying one more change from a successful prefix is one step from its result. |
| ChangeReplay.ReplayedErrorKept | migrate.py:587-739 | An error in a prefix is the result of the whole replay. |
| ChangeReplay.ReplayedPrefixOk | migrate.py:587-739 | A successful replay succeeds on every prefix. |
| ChangeReplay.AttachmentFollowedByComment | migrate.py:592-599 | In a successful replay, every attachment not by a skipped author is followed directly by a comment. |
| ChangeReplay.NoSetStateKeepsState | migrate.py:632-634 | Actions that set no state leave the issue's state as it was. |
| ChangeReplay.StepSetsState | migrate.py:621-634 | A step sets the state at most once, as its last action, to the new `issue_state`. Otherwise it leaves `issue_state` as it was. |
| ChangeReplay.StatusSetsState | migrate.py:621-634 | The same for a status change. |
| ChangeReplay.ReplayKeepsStateSynced | migrate.py:576-634 | Through any successful replay, `issue_state` equals the state the log gives the issue. |
| ChangeReplay.ReplayKeepsLabelsRegistered | migrate.py:341-343 | With all labels registered at the start, a replay never fails with `KeyError`, and all labels stay registered. |
| ChangeReplay.Prepared | migrate.py:502-556 | A missing reporter raises `KeyError`. Preparing succeeds exactly when the reporter, the owner and every non-blank cc entry have handles. The text is then `Header` with the reporter's handle. No issue is created and no state is set. With a destination, every requested label is registered afterwards. |
| ChangeReplay.TicketIssue | migrate.py:502-584 | Preparing and the initial status both succeeded, and the context carries the prepared header. The replay starts from the initial labels, the initial state, no pending attachment and the initial milestone. The new issue has the next number, or 0 without a destination. |
| ChangeReplay.IssueOpened | migrate.py:558-584 | Creation succeeds exactly when, with a destination, every initial label is registered and the status is known. The replay starts from the initial state and milestone. With a destination, the log gains the creation with the registered labels and, for a closed ticket, a close of the new issue; the registry and `unmapped_users` stay. Without one, nothing changes. |
| ChangeReplay.TicketIssueSynced | migrate.py:558-584 | Right after a ticket's issue is created, the log gives the issue the replay's starting state: open, or closed by the close that follows creation. |
| ChangeReplay.IssueOpenedSynced | migrate.py:558-584 | The same for the creation step, counting from any point after which no state was set. |
| ChangeReplay.StateAfterCreation | migrate.py:576-582 | A creation after actions that set no state leaves the issue open, unless a close follows it. |
| ChangeReplay.TicketStateSynced | migrate.py:558-634 | With a destination, after the changelog is replayed on the new issue, `issue_state` is the state the log last gives the issue. |
| ChangeReplay.TicketReplayed | migrate.py:586-740 | Replaying keeps the issue's number as the newest one. |
| ChangeReplay.TicketConverted | migrate.py:426-740 | A ticket without `summary` raises `KeyError`. A converted ticket's issue is the next number, or 0 without a destination. |
| ChangeReplay.ReplayedIssues | migrate.py:587-739 | A replay creates no issue. |
| ChangeReplay.InitialLabelsAccepted | migrate.py:506-524 | After the initial labels are ensured, all of them are registered exactly when `add_label` is unset or already registered. |
| ChangeReplay.Filled | migrate.py:409-422 | Filling up to ticket `id` creates one closed placeholder per missing id, numbered consecutively, and sets `nextticketid` to `id`. With filling off, or no gap, nothing changes. |
| ChangeReplay.Placeholder | migrate.py:413-422 | One placeholder adds exactly one issue. |
| ChangeReplay.FilledOneMore | migrate.py:410-422 | One more missing id is one more placeholder. |
| ChangeReplay.Converting | migrate.py:426-740 | With a destination, each converted ticket creates the next issue; a ticket without `summary` raises `KeyError`. |
| ChangeReplay.ConvertingIs | migrate.py:426-740 | The conversion the ticket loop applies is the ticket conversion. |
| ChangeReplay.TicketStep | migrate.py:401-740 | A skipped ticket changes nothing; any other ticket records its id. |
| ChangeReplay.TicketKeepsItsNumber | migrate.py:409-424 | With gap filling on and issue count `nextticketid - 1`, ticket `id` becomes issue `id` and `nextticketid` becomes `id + 1`. |
| ChangeReplay.TicketsConvertedOneMore | migrate.py:399-740 | One more ticket is one more step of the loop. |
| ChangeReplay.TicketsConvertedErrorKept | migrate.py:399-740 | An error on a ticket ends the loop with it. |
| ChangeReplay.TicketsKeepTheirNumbers | migrate.py:397-424 | For ascending ids with gap filling on, every ticket becomes the issue of the same number. Afterwards `nextticketid` is the last id plus one. |
| ChangeReplay.SkippedTicketIgnored | migrate.py:402-407 | A ticket outside `only_issues` or on the blacklist changes nothing. |
| ConvertIssues.RemoveKeywordLabels | migrate.py:719-724 | The removal loop computes exactly the keyword removal, error included. |
| ConvertIssues.Migration.constructor | migrate.py:153 | Empty registry, no unmapped users, an empty destination. |
| ConvertIssues.Migration.EnsureLabel | migrate.py:273-280 | The new state is `gh_ensure_label`'s effect. |
| ConvertIssues.Migration.Username | migrate.py:366-374 | The handle and the new `unmapped_users` are `gh_username`'s. |
| ConvertIssues.Migration.CreateMilestone | migrate.py:266-271 | With a destination, one milestone is logged and gets the next number; without one, nothing changes. |
| ConvertIssues.Migration.CreateIssue | migrate.py:282-298 | The result and the new state are the issue creation's. |
| ConvertIssues.Migration.UpdateIssueProperty | migrate.py:338-362 | The new state is the property update's, error included. |
| ConvertIssues.Migration.CreateMilestones | migrate.py:379-390 | The loop creates the milestones and builds `milestone_map` exactly as specified. |
| ConvertIssues.Migration.EnsureLabels | migrate.py:509-524 | The loop ensures each initial label in turn. |
| ConvertIssues.Migration.AddPlaceholder | migrate.py:413-422 | One closed placeholder issue. |
| ConvertIssues.Migration.FillGaps | migrate.py:409-422 | The `while` loop creates exactly the specified placeholders and returns the new `nextticketid`. |
| ConvertIssues.Migration.PrepareIssue | migrate.py:502-556 | The reporter, the initial labels and the description header, as specified. |
| ConvertIssues.Migration.CreateTicketIssue | migrate.py:558-584 | The issue creation and initial close, as specified. |
| ConvertIssues.Migration.OpenIssue | migrate.py:502-584 | Preparing then creating the issue, as specified. |
| ConvertIssues.Migration.ReplayChange | migrate.py:589-739 | One pass of the changelog loop does exactly one replay step. |
| ConvertIssues.Migration.AddKeywordLabels | migrate.py:725-729 | The loop appends the non-blank new keywords to the labels and ensures each one's label. |
| ConvertIssues.Migration.ReplaceKeywords | migrate.py:717-733 | The keyword branch does exactly the keyword label step. |
| ConvertIssues.Migration.ReplayChangelog | migrate.py:586-740 | The changelog loop does exactly the replay, stopping at the first error. |
| ConvertIssues.Migration.ConvertTicket | migrate.py:426-740 | One ticket is converted exactly as specified. |
| ConvertIssues.Migration.ConvertNext | migrate.py:401-740 | One turn of the ticket loop is exactly one ticket step. |
| ConvertIssues.Migration.FillAndConvert | migrate.py:409-740 | Gap filling followed by the conversion; the new `nextticketid` is the ticket id plus one. |
| ConvertIssues.Migration.ConvertTickets | migrate.py:397-740 | The ticket loop does exactly the loop over tickets, starting at `nextticketid = 1`. |
| ConvertIssues.Migration.ConvertIssues | migrate.py:376-740 | Milestones first when configured, then the ticket loop with the milestone numbers. |
| ArchiveWriter.Pluralize | migration_archive_writer.py:41-44 | A word ending in `y` loses it and gains `ies`; any other word gains `s`. The result always ends in `s`. |
| ArchiveWriter.PluralizeInjective | migration_archive_writer.py:41-44 | Types not ending in `ie` have distinct plurals. |
| ArchiveWriter.FileName | migration_archive_writer.py:140 | The file name is the plural, an underscore and the padded number, then `.json`. |
| ArchiveWriter.FileNameInjective | migration_archive_writer.py:140 | Different types or numbers below a million name different files. |
| ArchiveWriter.IssueWikiFile | migration_archive_writer.py:150-154 | The page path ends in `/<issue>.md`. It fails exactly when `int(issue)` fails. |
| ArchiveWriter.WikiDirSameThousand | migration_archive_writer.py:151-152 | Two issues share a wiki directory exactly when they share their thousands. |
| ArchiveWriter.IssueWikiFileOfNumber | migration_archive_writer.py:150-154 | The page of issue `n` is `<n>.md` in the directory `Issues-<n // 1000, two digits>xxx`. |
| ArchiveWriter.PyInt | migration_archive_writer.py:88 | `int()` of an integer is itself and of a boolean is 1 or 0. Of a string it succeeds exactly when `Text.ParseInt` does, with its value, and otherwise raises `ValueError`. Of null, a list or a dict it raises `TypeError`. |
| ArchiveWriter.PyIntOfText | migration_archive_writer.py:88 | `int()` of a sign, leading zeros and the digits of `n`, with white space around them, is the signed `n`. |
| ArchiveWriter.BaseUrl | migration_archive_writer.py:69-72 | The base URL keeps the first two path segments and a final slash. |
| ArchiveWriter.Route | migration_archive_writer.py:75-133 | The dispatch on verb and endpoint shape. Only the two POST shapes can move the counters. |
| ArchiveWriter.RepoPost | migration_archive_writer.py:76-94 | Repository-level POSTs move only the issue counter, only for issues, and need a dict input. |
| ArchiveWriter.IssuePost | migration_archive_writer.py:95-116 | Issue-level POSTs move the comment counter only for comments and the event counter only for events, by one. |
| ArchiveWriter.IssueNumbered | migration_archive_writer.py:84-94 | An issue POST without `number` increases the issue counter by one. The URL ends in `issues/<counter>` and the type is `issue`. |
| ArchiveWriter.IssueNumberGiven | migration_archive_writer.py:87-94 | An issue POST with `number` sets the counter to it and removes `number` from the output. |
| ArchiveWriter.CommentNumbered | migration_archive_writer.py:95-101 | A comment POST increments the comment counter and uses it as the `#issuecomment-` fragment of the issue URL. |
| ArchiveWriter.EventNumbered | migration_archive_writer.py:102-108 | An event POST increments the event counter, independent of comments, and uses it as the `#event-` fragment. |
| ArchiveWriter.CountersMoveOnlyForTheirRequests | migration_archive_writer.py:84-108 | Each counter moves only for its own kind of request, and the comment and event counters move by at most one. |
| ArchiveWriter.UserLookedUp | migration_archive_writer.py:122-128 | `GET users/<login>` yields type `user`, the login, an empty `emails` list and `https://github.com/<login>`. |
| ArchiveWriter.CreateNeedsObject | migration_archive_writer.py:74-121 | Every creating POST fails on an input that is not a dict. |
| ArchiveWriter.OtherRequestsPassThrough | migration_archive_writer.py:74-75 | Any other verb returns a copy of the input and leaves the URL and counters as they were. |
| ArchiveWriter.JoinedEffect | migration_archive_writer.py:142 | The record joins its type's batch and nothing else changes. |
| ArchiveWriter.FlushedEffect | migration_archive_writer.py:177-185 | `flush_type` writes the batch under the type's current number, empties the batch and increments the number by one. |
| ArchiveWriter.Empty | migration_archive_writer.py:59-63 | The initial archive state satisfies the invariant. |
| ArchiveWriter.FlushedNumbered | migration_archive_writer.py:177-185 | Per-type file numbers stay consecutive from 0. |
| ArchiveWriter.FlushedWellFormed | migration_archive_writer.py:177-185 | `flush_type` keeps the invariant. |
| ArchiveWriter.AppendedWellFormed | migration_archive_writer.py:137-144 | Appending a record keeps every batch below 100 and the numbering intact. |
| ArchiveWriter.AppendedRecordFiled | migration_archive_writer.py:139-144 | The 100th record writes the batch to the file named when the record was appended. Otherwise that name is still the next file of its type. Other types are untouched. |
| ArchiveWriter.FlushFiles | migration_archive_writer.py:187-189 | One file per type flushed. |
| ArchiveWriter.FlushedTypesKeys | migration_archive_writer.py:187-189 | Flushing keeps the dictionary's keys and their order. |
| ArchiveWriter.FlushedTypesAt | migration_archive_writer.py:187-189 | Each flushed type's batch is empty and its number advanced by one; other types are unchanged. |
| ArchiveWriter.FlushedTypesWritten | migration_archive_writer.py:187-189 | The files written are exactly one per flushed type, in order. |
| ArchiveWriter.FlushedTypesEffect | migration_archive_writer.py:187-189 | Flushing the listed types has exactly those effects together. |
| ArchiveWriter.FlushedTypesWellFormed | migration_archive_writer.py:187-189 | Flushing any types keeps the invariant. |
| ArchiveWriter.FlushedAllEffect | migration_archive_writer.py:187-189 | `flush` empties every batch and writes one file for every type ever seen, in key order, even an already-emptied one. |
| ArchiveWriter.FilesDistinct | migration_archive_writer.py:140 | Two files written differ in name. |
| ArchiveWriter.LaterFileLaterIndex | migration_archive_writer.py:178-185 | A later file of the same type has a higher number. |
| ArchiveWriter.NoFileOverwritten | migration_archive_writer.py:177-185 | No archive file is written twice. |
| ArchiveWriter.WikiStep | migration_archive_writer.py:148-173 | A page write carries the record's archive file name. It appends exactly for a POST under an issue. |
| ArchiveWriter.CommentsJoinTheirIssuePage | migration_archive_writer.py:156-173 | A later POST under an issue appends to the page its creation wrote. |
| ArchiveWriter.IssuePageCreated | migration_archive_writer.py:157-164 | Creating issue `n` writes its page anew. |
| ArchiveWriter.PostedBelowIssue | migration_archive_writer.py:165-173 | A POST under an issue appends to that issue's page. |
| ArchiveWriter.MigrationArchiveWritingRequester.constructor | migration_archive_writer.py:48-63 | Counters at 0, no batches, no files. |
| ArchiveWriter.MigrationArchiveWritingRequester.FlushType | migration_archive_writer.py:177-185 | The archive state becomes `flush_type`'s; the counters are untouched. |
| ArchiveWriter.MigrationArchiveWritingRequester.Flush | migration_archive_writer.py:187-189 | The loop flushes every type in key order and keeps the invariant. |
| ArchiveWriter.ArchiveStep | migration_archive_writer.py:137-144 | Filing fails exactly when archiving is on and the record has a `type` that is not a string. A list or dict type raises `TypeError`, because it cannot key the `defaultdict`. Any other non-string raises `AttributeError` from `pluralize`. Without archiving or a `type`, nothing changes and no file name is bound. |
| ArchiveWriter.MigrationArchiveWritingRequester.ArchiveRecord | migration_archive_writer.py:137-144 | Filing a record has exactly the specified archive effect, raises exactly the specified exception, and keeps the invariant. |
| ArchiveWriter.MigrationArchiveWritingRequester.JoinBatch | migration_archive_writer.py:139-142 | The record joins its batch; the new batch size is returned. |
| ArchiveWriter.MigrationArchiveWritingRequester.RequestJsonAndCheck | migration_archive_writer.py:65-175 | The counters are the dispatcher's. Every dict output gets its `url` and is filed in its batch and its wiki page. A dispatcher, filing or wiki error is the exception returned. The invariant holds afterwards. |
| ArchiveWriter.MigrationArchiveWritingRequester.WriteWikiPage | migration_archive_writer.py:148-173 | The page write is the specified one; counters and archive are untouched. |

## Left out

- The regular-expression rewriting of `trac2markdown` (links, images, emphasis, headings, lists, ticket and svn revision references, code blocks) is not modelled. In the table pass it is the parameter `rewrite`; in `convert_issues` it is `Config.markdown` and `Config.milestoneMarkdown`.
- XML-RPC and the GitHub API are an action log. The model assumes a repository that starts empty, so issues and milestones are numbered from 1 in creation order. Loading the repository's existing labels at start-up (migrate.py:820-822) is left out. The `Migration` constructor starts with an empty registry; the functions and lemmas hold for any starting registry.
- Sleeps, rate limiting, `print`, logging, `rich` output and the ticket counter that only drives a sleep (migrate.py:742-745) are left out.
- Configuration parsing and `ast.literal_eval` are left out. The settings are fields of `Config`, `only_issues` and `blacklist_issues` are sequences, and `filter_issues` being set is a flag.
- `convert_xmlrpc_datetime` is left out: times are the strings the script prints for them.
- Attachment export to disk, gists and their `UnicodeDecodeError` fallback, and the text of comments as `gh_comment_issue` renders it are left out. A comment is logged as author, time, note and attachment name.
- OwnerStep: every assignee update is logged. The destination's own comparison with the current assignee (migrate.py:345-350) belongs to the GitHub side and is not modelled.
- `convert_wiki` is not part of this model.
- JSON serialisation and the exact `urlparse`/`urljoin`/`quote` behaviour are left out. A URL is an origin plus path segments, joining is concatenation, and `quote` and the asset-URL path are parameters of `Environment`.
- The `PATCH` case reads `repositories_000001.json.in` from disk. Reading it is left out: its first repository is a parameter of `Environment`.
- The content of the wiki pages besides the archive file name and the JSON dump position is left out; the JSON dump text itself is not modelled.
- `Text.Lower` lower-cases ASCII letters only; Python's Unicode case mapping is left out.
- ArchiveWriter.WikiStep: the wiki page records the archive file's name only. The script writes that name joined with the archive directory (migration_archive_writer.py:140, 161, 168), a path this model does not carry.
- `Text.ParseInt` accepts optional whitespace, a sign and decimal digits. The underscores and non-ASCII digits Python's `int()` also accepts are left out.
- `ArchiveWriter.PyInt` does not model `int()` of a float, since JSON numbers are integers here.
- State after an exception is left unconstrained: each exception ends the script.
- ArchiveWriter.ArchiveStep: for a null, boolean or integer `type`, the `defaultdict` of line 139 gains that key before `pluralize` raises. The model's map has string keys only, and the run ends with the exception, so the model does not record that entry.
- Without a destination, `gh_create_milestone` returns `None` (migrate.py:266-267). The model records milestone number 0 instead; nothing uses it, since no issue is created then.
- The `Unknown key` `ValueError` of `gh_update_issue_property` (migrate.py:359-360) cannot arise: the model's properties are exactly the six keys the script passes.
- The ticket loop in `ChangeReplay` takes the per-ticket conversion as a function value (`Converting` is the script's), so the numbering lemmas hold for any conversion that creates the next issue. The `numbered` record of which ticket became which issue is the model's own ghost bookkeeping.
- The `replace` steps of a keywords, component, type, priority or severity change are computed by functions on the label list. Only the keyword loops are also written as loops (`ConvertIssues.RemoveKeywordLabels`, `ConvertIssues.Migration.AddKeywordLabels`). The other replay steps are applied by `ConvertIssues.Migration.ReplayChange` from the step functions, not by in-place list mutation.
