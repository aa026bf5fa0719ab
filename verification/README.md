# qbt-rules: a verified model

qbt-rules runs a file of rules over the torrents of a qBittorrent server. It has a compiler for rules with
`$ref` blocks and `${...}` tokens, a static checker for the rules file, an engine that runs the rules and keeps
fleet counters in step, a job queue with two backends, a rules file that is edited in the browser and reloaded
while the server runs, and a line diff for its history view. This project models those parts and proves what
they promise. `dafny verify dfyconfig.toml` checks everything.

| module | models |
|---|---|
| `Text`, `Tree`, `Document` | splitting text, parsed YAML, the parts of a rules document |
| `LineDiff` | the editor's line diff (`editor.js`) |
| `RelativeUrl` | links relative to the current page (`web.py`), against RFC 3986 |
| `Resolver`, `Tokens`, `LazyRules` | `$ref` expansion, token substitution, and an interpreter that follows references lazily |
| `Resolving` | what references, tokens and lists stand for, said without the resolver |
| `Conditions`, `Meaning` | the condition evaluator, with a third outcome for data that is not there yet, and what operators, groups and contexts mean |
| `Structure`, `Linter`, `Validation` | the checks of a rules file, layer by layer and together |
| `LintExact` | which conditions and actions have no error, said without the linter |
| `Soundness`, `BareRefs` | what a clean file promises the engine, and the clean files that break the promise |
| `Fleet`, `Engine` | the run loop, its live counters and its ledgers |
| `RunLog`, `Runs` | what the log of every run says, event by event, and what it comes to |
| `Jobs`, `RedisBackend`, `SqliteBackend`, `Backends` | one job queue, its two representations, both driven by the same calls, and the worker |
| `RedisRace` | the Redis backend taken apart into the commands that reach the server |
| `FileStore` | the editable file with ETags and history |
| `RulesCache`, `Served` | the loaded, resolved, cached and reloaded rules, and what is served in terms of the file |

What cannot be seen from the code is a parameter: the answers of qBittorrent, trackie and the executor are
functions from a question number to an answer, so that every combination of answers is covered; the hash behind
ETags is a function; times and ids are arguments; the file may change between being looked up and being opened.

Statements that are natural but false of the code, with the exact condition or the exact difference beside each:

- A bare top-level `$ref` to a single comparison, or to a single action, passes the checker and is then misread
  by the engine: whole documents with any comparison and any action (`BareRefs.BareLeafSlipsThrough`,
  `BareRefs.BareActionSlipsThrough`). For every other accepted rule the promise holds, and for these it fails
  (`Soundness.AcceptedRuleIsSound`).
- The live counters can part from a recount: a run can end with a total below zero
  (`Runs.TotalFallsBelowZero`) and with stale categories (`Runs.CategoriesGoStale`). Every counter is always a
  recount plus the drift of the log, event by event, so it is right exactly when its drift is 0
  (`Fleet.CounterDrift`, and of every run `Runs.RunDrift`); the total's drift is the number of actions that
  found a torrent gone again (`Fleet.TotalDrift`).
- A text that starts with a token and ends with a brace of its own is taken for one token
  (`Resolving.TrailingBraceMisread`); in any other text around a variable token the value takes the place of the token
  (`Resolving.EmbeddedMeans`).
- `update_status` on a waiting job breaks the agreement of queue and statuses; it keeps it exactly when no job
  moves in or out of waiting (`Jobs.UpdateAgreesIff`), which holds of all the worker writes
  (`Backends.WorkerUpdateAcceptable`).
- With interleaved Redis clients the status sets can disagree with the hashes, and a cancelled job can be
  delivered (`RedisRace.CancelRacesDequeue`). The sets stay right throughout an interleaving exactly when every
  block finds what it was prepared for (`RedisRace.StepIndexedIff`, `RedisRace.RunIndexedIff`).
- A relative link can lead elsewhere (`RelativeUrl.DotSegmentGoesAstray`). It leads to its target under every
  prefix exactly when the page has no dot segment below the directories it shares with the target, and nothing in
  target and query reads as a query or a fragment of its own (`RelativeUrl.ResolvesIff`).
- With colliding ETags an update can be lost (`FileStore.CollisionLosesUpdate`); no run loses one exactly when the
  ETag is injective (`FileStore.NoLostUpdatesIff`).
- With file stamps that come back, stale rules can stay in force
  (`RulesCache.RecurringStampServesStaleRules`); every run leaves the rules of a resting file in force exactly when
  equal stamps never hide another file that loads (`RulesCache.CurrentIffStampsTell`).

The linter's message for a nested mapping with several of `all`, `any` and `none` says that only the first is
evaluated (`src/qbt_rules/rules_validation.py`, lines 638-645); the evaluator checks them all
(`src/qbt_rules/engine.py`, lines 240-259), and the model follows the evaluator.

## Model

| member | source | states |
|---|---|---|
| `Text.JoinSplit` | src/qbt_rules/static/editor.js:533-534 | joining the lines a text was split into gives the text back |
| `Text.SplitPieces` | src/qbt_rules/web.py:63-64 | no piece of a split path holds a slash |
| `LineDiff.LcsUpper` | src/qbt_rules/static/editor.js:555-559 | the recursion stored in the table bounds every common subsequence of the two line lists |
| `LineDiff.LcsPrefix` | src/qbt_rules/static/editor.js:536 | a longest common subsequence may start with a common first line: trimming it loses nothing |
| `LineDiff.LcsSuffix` | src/qbt_rules/static/editor.js:537-539 | the same for a common last line |
| `LineDiff.SmallFits` | src/qbt_rules/static/editor.js:549-557 | below the size limit no cell of the 32-bit table wraps around |
| `LineDiff.FillTable` | src/qbt_rules/static/editor.js:553-559 | the flat array, filled bottom-up in place, equals the LCS length of the suffixes at every cell |
| `LineDiff.FillCell` | src/qbt_rules/static/editor.js:557 | one cell from the three after it; no other cell changes |
| `LineDiff.Walk` | src/qbt_rules/static/editor.js:560-571 | the greedy walk keeps a longest common subsequence and puts all removals of a change before its additions |
| `LineDiff.Trim` | src/qbt_rules/static/editor.js:535-539 | finds exactly the longest common prefix, then the longest common suffix of the rest |
| `LineDiff.TrimUnique` | src/qbt_rules/static/editor.js:535-539 | there is one such trim, so whether the table is used is a property of the two texts |
| `LineDiff.Replacement` | src/qbt_rules/static/editor.js:549-551 | for a large middle: all of it removed, then all of it added, with correct line numbers |
| `LineDiff.DiffMiddle` | src/qbt_rules/static/editor.js:545-572 | a diff of the middle in either branch; a longest common subsequence is kept when the table is used |
| `LineDiff.DiffLines` | src/qbt_rules/static/editor.js:532-577 | both texts can be read back from the rows, the line numbers count 1, 2, 3, ... on each side, removals come first in each change, and when the table is used the kept lines are a longest common subsequence of the whole texts |
| `LineDiff.TableUsedWhen` | src/qbt_rules/static/editor.js:545-549 | the table is used exactly when the trimmed lengths multiply to at most 4,000,000 |
| `LineDiff.KeptIsCommon` | src/qbt_rules/static/editor.js:564 | unchanged rows are common to both sides of any diff |
| `LineDiff.FewestChanges` | src/qbt_rules/static/editor.js:532-577 | with the table, no other diff of the same texts adds or removes fewer lines |
| `LineDiff.CountChanges` | src/qbt_rules/static/editor.js:593-598 | the shown counts are the lines of each side that were not kept |
| `LineDiff.NoDifferences` | src/qbt_rules/static/editor.js:582-586 | "No differences." exactly when the texts are equal |
| `RelativeUrl.RemoveDotsSteps` | src/qbt_rules/web.py:59-62 | "remove dot segments" of section 5.2.4 of RFC 3986, character by character, is a walk over the segments |
| `RelativeUrl.CountShared` | src/qbt_rules/web.py:65-68 | counts exactly the leading directories both paths share, never the target's last segment |
| `RelativeUrl.PathsResolve` | src/qbt_rules/web.py:59-71 | under every prefix the link resolves (sections 5.2.3 and 5.2.4 of RFC 3986) to the prefixed target |
| `RelativeUrl.LeadsToIff` | src/qbt_rules/web.py:59-72 | behind one prefix the whole reference, split at `#` and `?` as sections 3.4 and 3.5 of RFC 3986 say, leads to target and query exactly when it is read back and its path resolves |
| `RelativeUrl.Resolves` | src/qbt_rules/web.py:59-72 | for a page without dot segments below the shared directories, that is exactly when target and query hold no early `?` or `#` |
| `RelativeUrl.DotBelowMisses` | src/qbt_rules/web.py:63-70 | a dot segment there makes the link miss its target behind a deep enough prefix |
| `RelativeUrl.ResolvesIff` | src/qbt_rules/web.py:59-72 | for all absolute paths and every query, the exact condition for the link to lead to its target under every prefix |
| `RelativeUrl.PlainTarget` | src/qbt_rules/web.py:59-62 | a target without dot segments is reached literally |
| `RelativeUrl.RelativeUrl` | src/qbt_rules/web.py:56-72 | the result starts with `./` or `../`, and for absolute paths leads to target and query under every prefix exactly under that condition |
| `RelativeUrl.DotSegmentGoesAstray` | src/qbt_rules/web.py:63-70 | a page path with a dot segment for which the link leads elsewhere |
| `Resolver.Follow` | src/qbt_rules/resolver.py:240-291 | a reference followed is a defined one that is not on the stack |
| `Resolver.ExpandSucceeds` | src/qbt_rules/resolver.py:214-329 | with any stack, expansion succeeds exactly when every walk of references from the node ends in a good reference not met before |
| `Resolver.ExpandSucceedsIff` | src/qbt_rules/resolver.py:214-329 | expansion succeeds exactly when every reachable reference is well formed, allowed and defined and no reachable reference is on a cycle |
| `Resolver.ExpandLeavesNoRef` | src/qbt_rules/resolver.py:290-325 | an expanded tree contains no `$ref` |
| `Resolver.ExpandIdempotent` | src/qbt_rules/resolver.py:290-325 | expanding an expanded tree changes nothing |
| `Tokens.ResolveRuleParts` | src/qbt_rules/resolver.py:155-212 | a resolved rule has the rule's keys; its conditions and actions are resolved with their own kind of reference |
| `Tokens.EmbeddedToken` | src/qbt_rules/resolver.py:390-397 | the first embedded token is replaced by the text of what the token resolves to, and the rest is scanned on |
| `Tokens.OtherTextStays` | src/qbt_rules/resolver.py:390-397 | text without a load-time token passes through |
| `Tokens.PlainTextStays` | src/qbt_rules/resolver.py:381-397 | text without `$` stays the same text |
| `Tokens.WholeToken` | src/qbt_rules/resolver.py:382-388 | a text that is one load-time token becomes what the token resolves to, not its text |
| `Tokens.RuntimeTokenStays` | src/qbt_rules/resolver.py:331-346 | a text that is one run-time token is left for the engine |
| `Resolving.VariableMeans` | src/qbt_rules/resolver.py:448-472 | `${vars.n}` is exactly the value of `n` in refs.vars, of whatever type, and an error for an unknown name |
| `Resolving.RuleFieldMeans` | src/qbt_rules/resolver.py:481-521 | `${rule.a.b}` is exactly the value found by following the keys in the rule, and an error when there is none |
| `Resolving.FieldAtMeans` | src/qbt_rules/resolver.py:498-521 | a path leads to a value exactly when each key is in the mapping the keys before it lead to |
| `Resolving.EmbeddedMeans` | src/qbt_rules/resolver.py:390-397 | inside a longer text `${vars.n}` is replaced by the text of that variable's value, and what stands around it stays |
| `Resolving.TrailingBraceMisread` | src/qbt_rules/resolver.py:382-388 | a text that starts with a variable token and ends with another brace is looked up as one name, up to that brace |
| `Resolving.VariableInRule` | src/qbt_rules/resolver.py:155-212 | in a whole rule: a comparison with the value `${vars.n}` is served with the variable's value, and all else as written |
| `Resolving.ReferenceMeans` | src/qbt_rules/resolver.py:240-325 | a `$ref` alone stands for the expansion of exactly the block its group and name define |
| `Resolving.ListMeans` | src/qbt_rules/resolver.py:303-325 | an expanded list is, in order, the expansion of each item, a referenced list spliced in once |
| `LazyRules.ResolvingKeepsMeaning` | src/qbt_rules/resolver.py:137-212 | evaluating resolved conditions gives, for every torrent, the outcome of an interpreter that follows each reference at evaluation time and splices list blocks in place |
| `LazyRules.ResolvedRuleMatches` | src/qbt_rules/engine.py:143-208 | a resolved rule matches exactly when the rule as written does |
| `Conditions.OutcomeIgnoresMissingData` | src/qbt_rules/engine.py:240-331 | an outcome reached without waiting stays the same however missing data is filled in, for any nesting |
| `Conditions.MatchIgnoresMissingData` | src/qbt_rules/engine.py:182-208 | a match never depends on missing data |
| `Conditions.NegationComplements` | src/qbt_rules/engine.py:559-606 | `!=`, `not_in`, `not_contains` are exact complements of their positive forms for missing, empty and nested list values, and fail on the same values |
| `Meaning.EqualMeans` | src/qbt_rules/engine.py:569-584 | `==` holds exactly when some single value of the actual one, lists flattened, equals the expected one |
| `Meaning.UnequalMeans` | src/qbt_rules/engine.py:579-586 | `!=` holds exactly when none does, so also when there is none |
| `Meaning.InMeans` | src/qbt_rules/engine.py:599-602 | `in` holds exactly when some single value equals one of those listed, or the one given |
| `Meaning.NotInMeans` | src/qbt_rules/engine.py:603-606 | `not_in` holds exactly when none does |
| `Meaning.ContainsMeans` | src/qbt_rules/engine.py:587-590 | `contains` holds exactly when the text of some single value holds the expected text, or one of those listed; anything else to look for is a failure |
| `Meaning.NotContainsMeans` | src/qbt_rules/engine.py:591-594 | `not_contains` holds exactly when no text does, with the same failures |
| `Meaning.NumericMeans` | src/qbt_rules/engine.py:609-614 | a numeric operator holds exactly when some single value compares so; one that is no number does not |
| `Meaning.MatchesMeans` | src/qbt_rules/engine.py:595-596 | `matches` is decided by the first single value in which the pattern is found or fails, and is false without one |
| `Meaning.ScaleMeans` | src/qbt_rules/engine.py:617-626 | a size or age operator is decided by the first single value that compares so or is no integer, and is false without one |
| `Meaning.NothingMeans` | src/qbt_rules/engine.py:559-566 | a missing value, an empty list, or nothing but those, passes the three negations and no other operator |
| `Meaning.UnknownMeans` | src/qbt_rules/engine.py:628-629 | an unknown operator fails as soon as there is a value to compare |
| `Meaning.FieldMeans` | src/qbt_rules/engine.py:348-454 | a field is the property behind its first dot in the namespace before it, with each failure |
| `Meaning.ComparisonMeans` | src/qbt_rules/engine.py:288-331 | a comparison applies its operator to its field and its value, and fails without all three keys |
| `Meaning.NestedMeans` | src/qbt_rules/engine.py:288-307 | a nested mapping with groups is evaluated like one at the top |
| `Meaning.GroupsPass` | src/qbt_rules/engine.py:240-286 | groups pass exactly when every member of `all` passes, some member of `any` does after failures only, and every member of `none` fails |
| `Meaning.GroupsMean` | src/qbt_rules/engine.py:240-286 | and otherwise the first group that does not pass decides, by its first deciding member |
| `Meaning.ListMatches` | src/qbt_rules/engine.py:143-208 | a rule with a list of conditions matches exactly when its context admits the run and every condition passes |
| `Meaning.GroupsMatch` | src/qbt_rules/engine.py:143-286 | the same for a rule with groups |
| `Meaning.ContextIs` | src/qbt_rules/engine.py:210-238 | a context is admitted exactly when none is asked for or the run's is the one, or one of those, asked for |
| `Structure.CheckRulesStructure` | src/qbt_rules/rules_validation.py:225-294 | finds no problem exactly when the document has the shape the loader demands |
| `Structure.CheckRules` | src/qbt_rules/rules_validation.py:252-292 | finds no problem exactly when every rule is complete and ids are distinct |
| `Structure.CheckRefs` | src/qbt_rules/rules_validation.py:238-245 | finds no problem exactly when `refs` and its groups are absent, empty or mappings |
| `Linter.Linter.Run` | src/qbt_rules/rules_validation.py:446-473 | appends exactly the findings of a document, in order: keys, blocks, unused references, and those of every rule |
| `Document.TablesAreDefined` | src/qbt_rules/resolver.py:96-98 | the tables hold exactly what the document defines under `refs`, each block as it is written |
| `Validation.CheckResolution` | src/qbt_rules/rules_validation.py:315-361 | gives exactly the places of the rules, as the document writes them, that do not resolve |
| `Validation.ValidateRules` | src/qbt_rules/rules_validation.py:944-991 | structure, resolution and linter together: valid exactly when the document is accepted, with the findings of each layer |
| `Validation.EverythingIsLinted` | src/qbt_rules/rules_validation.py:446-506 | the linter finds no error in a document exactly when it finds none in any rule the document writes and in any block |
| `Validation.EveryRuleIsSound` | src/qbt_rules/rules_validation.py:944-991 | a document is accepted exactly when it loads, every rule it writes resolves and nothing is an error; then every rule it writes keeps the promise |
| `LintExact.TopIff` | src/qbt_rules/rules_validation.py:547-585 | a rule's `conditions` have no error exactly when they are a list of right conditions, a reference alone, or groups of right conditions |
| `LintExact.ConditionIff` | src/qbt_rules/rules_validation.py:612-673 | a condition has no error exactly when it is a reference alone, one group of right conditions, or a comparison of a known field with a known operator |
| `LintExact.BlockIff` | src/qbt_rules/rules_validation.py:587-610 | the same for a block of conditions |
| `LintExact.ActionsIff` | src/qbt_rules/rules_validation.py:745-796 | actions have no error exactly when they are a list of typed actions or a reference alone; only a block may be a single action |
| `LintExact.RuleIff` | src/qbt_rules/rules_validation.py:508-543 | a rule has no error exactly when its conditions and its actions are right |
| `Linter.Linter.Rule` | src/qbt_rules/rules_validation.py:508-543 | appends exactly the findings of a rule |
| `Linter.Linter.TopConditions` | src/qbt_rules/rules_validation.py:547-585 | appends exactly the findings of a rule's `conditions` |
| `Linter.Linter.ConditionBlock` | src/qbt_rules/rules_validation.py:587-610 | appends exactly the findings of a `refs.conditions` block |
| `Linter.Linter.Condition` | src/qbt_rules/rules_validation.py:624-673 | appends exactly the findings of one condition |
| `Linter.Linter.Leaf` | src/qbt_rules/rules_validation.py:646-673 | appends exactly the findings of a comparison |
| `Linter.Linter.Group` | src/qbt_rules/rules_validation.py:612-622 | appends exactly the findings of a group |
| `Linter.Linter.ActionList` | src/qbt_rules/rules_validation.py:745-762 | appends exactly the findings of `actions` |
| `Linter.Linter.Action` | src/qbt_rules/rules_validation.py:764-796 | appends exactly the findings of one action |
| `Soundness.TypedFine` | src/qbt_rules/engine.py:288-331 | a well-typed condition never ends in a missing key, unknown endpoint or unknown operator |
| `Soundness.TopFine` | src/qbt_rules/engine.py:240-286 | the same for a rule's whole conditions |
| `Soundness.SubstitutedTyped` | src/qbt_rules/resolver.py:348-401 | substituting tokens keeps a condition well typed |
| `Soundness.CleanConditions` | src/qbt_rules/rules_validation.py:547-688 | conditions without linter errors resolve to well-typed ones exactly when they are not a bare reference to a comparison; such a reference matches everything |
| `Soundness.CleanActions` | src/qbt_rules/rules_validation.py:745-791 | actions without linter errors resolve to a flat list of actions of known types exactly when they are not a bare reference to a single action |
| `Soundness.AcceptedRuleIsSound` | src/qbt_rules/rules_validation.py:944-991 | in an accepted document every rule resolves; its evaluation never raises a missing key, unknown endpoint or unknown operator and its actions all have known types, exactly but for the bare references |
| `BareRefs.BareLeafSlipsThrough` | src/qbt_rules/rules_validation.py:563-565 | for any id, comparison and action: a whole accepted document whose rule, meant for the torrents the comparison holds of, matches every torrent |
| `BareRefs.LeafCompares` | src/qbt_rules/engine.py:309-318 | written as an item of a list, the same comparison is what its operator says of the field |
| `BareRefs.BareActionSlipsThrough` | src/qbt_rules/rules_validation.py:746-748 | for any id and action: a whole accepted document whose rule's actions resolve to a mapping, not a list |
| `Fleet.TotalCountsGone` | src/qbt_rules/engine.py:1484-1493 | at every step `stats.total` is the fetched count less the executed actions whose re-fetch found nothing |
| `Fleet.CountersEqualRecount` | src/qbt_rules/engine.py:1451-1502 | if nothing executes on a torrent after it was found gone and tags are duplicate-free, total, states and tags equal a recount at every step |
| `Fleet.CounterDrift` | src/qbt_rules/engine.py:1474-1499 | at every step total, each state, each tag and each category is a recount plus the drift of the log, and right exactly when that is 0 (tags duplicate-free) |
| `Fleet.TotalDrift` | src/qbt_rules/engine.py:1484-1493 | the total's drift is the number of actions that found a torrent gone again |
| `Fleet.SnapshotIsRecount` | src/qbt_rules/engine.py:1376-1385 | every counter of the snapshot a run starts from is a recount |
| `Fleet.LedgerBalances` | src/qbt_rules/engine.py:1407-1410 | each aggregate counter is the sum of its per-rule counters after any events |
| `Fleet.AddToRows` | src/qbt_rules/engine.py:1407-1410 | an event adds to the row of its own rule, or appends it, and leaves every other row as it was |
| `Fleet.LedgerRows` | src/qbt_rules/engine.py:1407-1507 | after any log each row counts the matches and actions of its own rule |
| `Fleet.LedgerCounts` | src/qbt_rules/engine.py:1430-1507 | matches and actions are each counted once |
| `Engine.HashesKept` | src/qbt_rules/engine.py:1465-1493 | no re-fetch changes which torrent is at a place |
| `Engine.RulesEngine.Refresh` | src/qbt_rules/engine.py:1465-1502 | the torrent and the counters after a re-fetch, in each of its three outcomes |
| `Engine.RulesEngine.Execute` | src/qbt_rules/engine.py:699-733 | success and skip for every answer; a changing call is made only when not in dry run and not already applied |
| `Engine.RulesEngine.PerformAction` | src/qbt_rules/engine.py:1451-1507 | one action: the next question, its outcome in the log, and fields that are what the log makes of the start |
| `Engine.RulesEngine.PerformActions` | src/qbt_rules/engine.py:1438-1507 | every action of the match, in order |
| `Engine.RulesEngine.ProcessTorrent` | src/qbt_rules/engine.py:1415-1511 | a stopped or deleted torrent is passed over; any other is asked, and only after a yes counted, acted on and stopped |
| `Engine.RulesEngine.ProcessRule` | src/qbt_rules/engine.py:1394-1511 | every torrent of the run in order, for an enabled rule only |
| `Engine.RulesEngine.TakeSnapshot` | src/qbt_rules/engine.py:1376-1385 | the snapshot of all fetched torrents, also in single-torrent mode |
| `Engine.RulesEngine.Run` | src/qbt_rules/engine.py:1331-1516 | the log of `RunOf`, which `RunLog` determines, and every field as that log makes it; nothing at all for one torrent that is not there |
| `RunLog.WorkIs` | src/qbt_rules/engine.py:1338-1346 | the torrents of a run: all, or those of the one hash asked for; each once, in the order fetched |
| `RunLog.RunTurns` | src/qbt_rules/engine.py:1391-1415 | every run comes with each enabled rule to each torrent of the run, rule by rule in file order and torrent by torrent, and to nothing else |
| `RunLog.RunComesOnce` | src/qbt_rules/engine.py:1391-1415 | a rule comes to a torrent once if it is enabled and the torrent is of the run, and otherwise never |
| `RunLog.RunFollows` | src/qbt_rules/engine.py:1415-1511 | in every run a torrent is passed over exactly if stopped or gone and else asked the next question, a yes is followed by the match, a match by its actions, and nothing else happens |
| `RunLog.RunMatchesIff` | src/qbt_rules/engine.py:1394-1428 | a rule matches a torrent exactly if it is enabled, the torrent is of the run, and where the rule comes to it the torrent is not stopped, not gone, and its conditions are answered yes |
| `RunLog.RunMatchesInOrder` | src/qbt_rules/engine.py:1394-1428 | matches come in increasing order of rule and torrent |
| `RunLog.RunActs` | src/qbt_rules/engine.py:1438-1451 | a match is followed by exactly as many actions on its torrent as its rule has |
| `RunLog.RunAnswers` | src/qbt_rules/engine.py:699-733 | each action is a question of its own and is skipped, done or failed exactly as the services answer it |
| `RunLog.RunIsTheOnlyLog` | src/qbt_rules/engine.py:1391-1516 | there is no other log of these turns in which every event is the right one |
| `Runs.StopOnMatchIsFinal` | src/qbt_rules/engine.py:1416-1418 | after a stop_on_match rule matched a torrent, what happens to its hash, but being passed over, is an action of that match |
| `Runs.RunStopsOnMatch` | src/qbt_rules/engine.py:1509-1511 | so it is in every run |
| `Runs.RunLedger` | src/qbt_rules/engine.py:1407-1507 | after every run aggregates are sums of per-rule counters, and executed, skipped and failed actions add up to the actions of all matches |
| `Runs.RunRows` | src/qbt_rules/engine.py:1407-1507 | after every run there is a row exactly for the ids of enabled rules, and each row counts exactly its own rule's events |
| `Runs.RunRecount` | src/qbt_rules/engine.py:1376-1502 | if no action executed on a torrent already gone, the counters at the end equal a recount, in single-torrent mode too |
| `Runs.RunDrift` | src/qbt_rules/engine.py:1376-1502 | at the end of every run each counter, categories included, is a recount plus the drift of the log |
| `Runs.DryRun` | src/qbt_rules/engine.py:713-724 | a dry run executes no action, makes no changing call and leaves every counter as it was |
| `Runs.TotalFallsBelowZero` | src/qbt_rules/engine.py:1438-1493 | a run of one rule with two actions on one torrent, deleted by the first, ends with a total of -1 |
| `Runs.CategoriesGoStale` | src/qbt_rules/engine.py:1474-1483 | a run of one action that changes a category ends with the old one counted and the new one not |
| `Jobs.ListingUnique` | src/qbt_rules/queue_backends/sqlite_queue.py:302-333 | there is one list of the selected jobs, newest first |
| `Jobs.SortLists` | src/qbt_rules/queue_backends/redis_queue.py:207-217 | sorting the selected jobs, in whatever order they come, gives that list |
| `Jobs.EnqueueAgrees` | src/qbt_rules/queue_backends/redis_queue.py:108-127 | enqueueing keeps the pending list exactly the waiting jobs, each once |
| `Jobs.DequeueAgrees` | src/qbt_rules/queue_backends/redis_queue.py:136-157 | so does dequeueing |
| `Jobs.CancelAgrees` | src/qbt_rules/queue_backends/redis_queue.py:291-311 | so does cancelling |
| `Jobs.UpdateAgreesIff` | src/qbt_rules/queue_backends/sqlite_queue.py:355-396 | an update keeps it exactly when it moves no job in or out of waiting |
| `Jobs.CleanupKeepsUnfinished` | src/qbt_rules/queue_backends/redis_queue.py:329-335 | neither cleanup removes a waiting or running job |
| `Jobs.CleanupRemoves` | src/qbt_rules/queue_backends/sqlite_queue.py:428-440 | which jobs each cleanup removes, by status and time |
| `Jobs.UpdateKeepsTheRest` | src/qbt_rules/queue_backends/sqlite_queue.py:355-396 | an update sets the status and the fields it names and leaves every other field as it was |
| `Jobs.PagesJoin` | src/qbt_rules/queue_backends/sqlite_queue.py:302-333 | pages read one after the other join to the listing |
| `Jobs.PageUnique` | src/qbt_rules/queue_backends/redis_queue.py:217 | a page of at most a hundred from an offset is determined by the listing |
| `Jobs.SqliteCleansLess` | src/qbt_rules/queue_backends/sqlite_queue.py:428-440 | what SQLite's cleanup removes Redis's removes too, when nothing completed before it was created |
| `RedisBackend.StatusSetsPartition` | src/qbt_rules/queue_backends/redis_queue.py:114-115 | agreeing status sets are disjoint and together hold exactly the stored jobs |
| `RedisBackend.RedisQueue.Enqueue` | src/qbt_rules/queue_backends/redis_queue.py:83-130 | list, hash, status set, context set and time set together become the queue with the job added |
| `RedisBackend.RedisQueue.Dequeue` | src/qbt_rules/queue_backends/redis_queue.py:132-163 | the longest waiting job, now processing; all indexes still agree |
| `RedisBackend.RedisQueue.GetJob` | src/qbt_rules/queue_backends/redis_queue.py:165-173 | the stored job, or none |
| `RedisBackend.RedisQueue.UpdateStatus` | src/qbt_rules/queue_backends/redis_queue.py:243-287 | the updated job; the indexes agree always, the pending list exactly if no job moved in or out of waiting |
| `RedisBackend.RedisQueue.Cancel` | src/qbt_rules/queue_backends/redis_queue.py:289-314 | a waiting job is cancelled and leaves the list, any other is left alone |
| `RedisBackend.RedisQueue.Cleanup` | src/qbt_rules/queue_backends/redis_queue.py:316-358 | removes exactly the finished jobs created by the cutoff, from every index, and counts them |
| `RedisBackend.RedisQueue.CountJobs` | src/qbt_rules/queue_backends/redis_queue.py:228-241 | the number of selected jobs, from the index sets alone |
| `RedisBackend.RedisQueue.ListJobs` | src/qbt_rules/queue_backends/redis_queue.py:175-226 | of the selected jobs, newest first, those from place `offset` on, as many as asked for but at most 100 |
| `RedisBackend.RedisQueue.Newest` | src/qbt_rules/queue_backends/redis_queue.py:203-217 | each id of the set exactly once, no score after a lower one |
| `RedisBackend.RedisQueue.Depth` | src/qbt_rules/queue_backends/redis_queue.py:360-362 | the number of waiting jobs |
| `RedisBackend.SortIdsSorts` | src/qbt_rules/queue_backends/redis_queue.py:212-217 | sorting ids by score sorts their jobs by creation time |
| `SqliteBackend.SqliteQueue.Enqueue` | src/qbt_rules/queue_backends/sqlite_queue.py:213-250 | both tables together become the queue with the job added |
| `SqliteBackend.SqliteQueue.Dequeue` | src/qbt_rules/queue_backends/sqlite_queue.py:252-289 | the longest waiting job, now processing |
| `SqliteBackend.SqliteQueue.GetJob` | src/qbt_rules/queue_backends/sqlite_queue.py:291-300 | the stored job, or none |
| `SqliteBackend.SqliteQueue.UpdateStatus` | src/qbt_rules/queue_backends/sqlite_queue.py:355-396 | the updated job; the tables agree exactly if no job moved in or out of waiting |
| `SqliteBackend.SqliteQueue.Cancel` | src/qbt_rules/queue_backends/sqlite_queue.py:398-415 | a waiting job is cancelled and leaves the queue, any other is left alone |
| `SqliteBackend.SqliteQueue.Cleanup` | src/qbt_rules/queue_backends/sqlite_queue.py:417-455 | removes exactly the finished jobs older than the cutoff; the cascade takes nothing from the queue |
| `SqliteBackend.SqliteQueue.CountJobs` | src/qbt_rules/queue_backends/sqlite_queue.py:335-353 | the number of selected jobs |
| `SqliteBackend.SqliteQueue.ListJobs` | src/qbt_rules/queue_backends/sqlite_queue.py:302-333 | of the selected jobs, newest first, those from place `offset` on, as many as asked for but at most 100 |
| `SqliteBackend.SqliteQueue.Depth` | src/qbt_rules/queue_backends/sqlite_queue.py:492-494 | counting pending rows gives the length of the queue |
| `SqliteBackend.TopIsFirst` | src/qbt_rules/queue_backends/sqlite_queue.py:256-260 | ordering by priority and id takes the row inserted first |
| `SqliteBackend.WhereSelects` | src/qbt_rules/queue_backends/sqlite_queue.py:315-333 | the rows a query selects are the selected jobs, each once |
| `SqliteBackend.UnexpiredRemoves` | src/qbt_rules/queue_backends/sqlite_queue.py:430-440 | the deleted rows are exactly the old finished jobs, and their number |
| `Backends.Drive` | src/qbt_rules/queue_backends/redis_queue.py:83-362 | driven by the same calls, the two backends give the same answers and stay the same queue |
| `Backends.OnRedis` | src/qbt_rules/queue_backends/redis_queue.py:83-362 | every Redis call answers and acts as the abstract queue does |
| `Backends.OnSqlite` | src/qbt_rules/queue_backends/sqlite_queue.py:213-494 | every SQLite call answers and acts as the abstract queue does |
| `Backends.AllAnswersUnique` | src/qbt_rules/queue_backends/sqlite_queue.py:302-333 | the answers to a run of calls are determined by the calls |
| `Backends.EveryRunAgrees` | src/qbt_rules/worker.py:177-280 | however clients, worker and cleanup interleave, the pending list is exactly the waiting jobs and only the job the worker holds is processing |
| `Backends.WorkerUpdateAcceptable` | src/qbt_rules/worker.py:246-276 | what the worker writes always finds its job and moves none in or out of waiting |
| `RedisRace.RunDelivers` | src/qbt_rules/queue_backends/redis_queue.py:83-311 | in every interleaving, popped then pending ids are the enqueued ids in order, without those cancelled before a pop |
| `RedisRace.AtMostOnceInOrder` | src/qbt_rules/queue_backends/redis_queue.py:90-137 | each job is popped at most once, by one client, in the order of enqueueing |
| `RedisRace.NothingLost` | src/qbt_rules/queue_backends/redis_queue.py:90-137 | an enqueued job is pending, popped, or was cancelled before it could be popped |
| `RedisRace.NoneSkipped` | src/qbt_rules/queue_backends/redis_queue.py:136 | when a job is popped, every earlier one was popped or cancelled |
| `RedisRace.CancelledNeverPopped` | src/qbt_rules/queue_backends/redis_queue.py:296-311 | once a cancel is committed its job is never popped again |
| `RedisRace.RestateIndexedIff` | src/qbt_rules/queue_backends/redis_queue.py:263-285 | a MULTI block that moves a job between status sets keeps them right exactly when the job has the status it was read with or the new one, or its hash is gone and the block moves it |
| `RedisRace.DeleteIndexedIff` | src/qbt_rules/queue_backends/redis_queue.py:337-352 | a deletion keeps them right exactly when the job has the status it was read with, or is gone |
| `RedisRace.StepIndexedIff` | src/qbt_rules/queue_backends/redis_queue.py:108-157 | every step of every operation keeps them right exactly when it is safe |
| `RedisRace.RunIndexedIff` | src/qbt_rules/queue_backends/redis_queue.py:83-358 | in every interleaving they stay right throughout exactly when every step is safe when it runs |
| `RedisRace.CancelRacesDequeue` | src/qbt_rules/queue_backends/redis_queue.py:136-157 | a run in which a cancelled job is delivered and sits in two status sets |
| `FileStore.Versions` | src/qbt_rules/config_store.py:276-284 | every kept version, newest first |
| `FileStore.DroppedIsNewest` | src/qbt_rules/config_store.py:272-274 | deleting the list from place `keep` on leaves exactly the newest `keep` versions |
| `FileStore.EditableFile.Read` | src/qbt_rules/config_store.py:117-129 | the content, or empty for a missing file, with its ETag |
| `FileStore.EditableFile.Save` | src/qbt_rules/config_store.py:174-212 | the file, the history and the outcome of a save in each of its cases |
| `FileStore.CreationRaceLosesNothing` | src/qbt_rules/config_store.py:214-223 | of two first saves at once the second leaves the first's text alone and is told of it; saving again replaces that text and keeps it in the history |
| `FileStore.SavedIff` | src/qbt_rules/config_store.py:174-212 | a save is accepted exactly if the file may be written, the ETag is current, the text is new and no file appeared meanwhile; otherwise file and history stay |
| `FileStore.RefusedChangesNothing` | src/qbt_rules/config_store.py:174-196 | a file that may not be written and an ETag that is not current: nothing changes, and a conflict hands back the current text |
| `FileStore.ConflictThenAccepted` | src/qbt_rules/config_store.py:186-212 | after a conflict, saving with the ETag handed back is accepted and keeps what it replaced |
| `FileStore.EditableFile.KeepVersion` | src/qbt_rules/config_store.py:269-274 | the history with the new version, pruned to the newest `keep` |
| `FileStore.NoLostUpdates` | src/qbt_rules/config_store.py:186-212 | over any interleaving of reads, saves and outside edits, every accepted save replaced exactly what its author had read |
| `FileStore.CollisionLosesUpdate` | src/qbt_rules/config_store.py:94-95 | for every two contents with one ETag, a run in which a save replaces what its author never saw |
| `FileStore.NoLostUpdatesIff` | src/qbt_rules/config_store.py:186-212 | no run loses an update exactly when the ETag is injective |
| `FileStore.HistoryIsRecent` | src/qbt_rules/config_store.py:269-284 | in every run with rising save times the history is the last `keep` contents that saves replaced |
| `FileStore.NewestIsLast` | src/qbt_rules/config_store.py:272-284 | pruning versions with rising ids keeps the most recent ones |
| `FileStore.ReplacedCanBeRestored` | src/qbt_rules/config_store.py:293-297 | a replaced content is in the history and saving it brings the file back |
| `RulesCache.Config.LoadRules` | src/qbt_rules/config_loader.py:76-129 | the rules the document writes and the resolver of the same load, or nothing changed |
| `RulesCache.Config.ReloadRules` | src/qbt_rules/config_loader.py:151-168 | reloads exactly when forced or the stamp differs; a rejected file changes nothing |
| `RulesCache.Config.GetRules` | src/qbt_rules/config_loader.py:170-231 | the rules, raw or resolved, and the new cache, with the file free to change between stat and open |
| `RulesCache.ResolveEach` | src/qbt_rules/config_loader.py:215-228 | every rule resolved in order, or none |
| `RulesCache.Open` | src/qbt_rules/config_loader.py:57-74 | the server starts exactly with a file the loader accepts |
| `RulesCache.AlwaysConsistent` | src/qbt_rules/config_loader.py:109-118 | after any calls the cache is empty or is the loaded rules, resolved with the tables of the same load |
| `RulesCache.RejectedThenRetried` | src/qbt_rules/config_loader.py:195-201 | a rejected file changes nothing and is tried again |
| `RulesCache.CurrentIffStampsTell` | src/qbt_rules/config_loader.py:135-201 | every run of `get_rules`, resolved or not, and `reload_rules`, forced or not, with the file changing at any moment, leaves the rules of a resting file that loads in force exactly when equal stamps never hide another file |
| `RulesCache.CurrentRulesServed` | src/qbt_rules/config_loader.py:170-231 | and what `get_rules` then returns is that file's rules, resolved |
| `RulesCache.RecurringStampServesStaleRules` | src/qbt_rules/config_loader.py:139-168 | wherever the condition fails, one call leaves another file's rules in force |
| `RulesCache.AcceptedIsServed` | src/qbt_rules/rules_validation.py:944-991 | every rule of a document the checker accepts is loaded and served resolved, as sound as the checker promises |
| `Served.LoadFailsIff` | src/qbt_rules/config_loader.py:76-100 | a load fails exactly for a file that cannot be read as YAML or has not the shape the loader demands; a missing or empty file is no rules |
| `Served.LoadsAsWritten` | src/qbt_rules/config_loader.py:99-112 | what is loaded is the rules and the tables exactly as the document writes them |
| `Served.UnreadableKeepsRules` | src/qbt_rules/config_loader.py:195-201 | a file that does not load changes neither rules nor cache and is tried again |
| `Served.ResolvedIff` | src/qbt_rules/config_loader.py:215-228 | all rules are given, each resolved, in order, exactly when each resolves |
| `Served.ServedAsWritten` | src/qbt_rules/config_loader.py:170-231 | after a load the answer has one entry for each rule the document writes, in order, as written or resolved |
| `Served.ForcedReloadLoads` | src/qbt_rules/config_loader.py:151-168 | a forced reload loads what the document writes, whatever the stamp |
| `Served.RestingFileIsServed` | src/qbt_rules/config_loader.py:135-231 | after any calls, when stamps tell, a file that rests is what is served: each rule it writes, resolved |
| `Served.AcceptedIsServed` | src/qbt_rules/rules_validation.py:944-991 | every rule an accepted document writes is served in its place, as sound as the checker promises |

## Left out

- The HTTP calls to qBittorrent, Sonarr, Radarr and trackie, notifications, and what each action type does: the engine takes their answers as input. An action without a `type`, which aborts a run, is left to `Soundness`.
- `_file_priority_targets` and the per-type parameters of actions.
- Regular expressions, sizes, ages, numeric comparison and text of values (`str`) are functions of the world; floating point, time zones and the clock are not modelled.
- YAML parsing, positions, anchors and aliases, duplicate keys, non-string keys, and very deep nesting (Python's recursion limit): the model starts from a finite tree.
- The linter's checks of values, parameters, rule headers and unused references are functions whose findings are passed through; the fields, operators, groups, actions and references are modelled in full. An unhashable operator, which raises in the original linter, is a finding here.
- The list of keys ignored beside a `$ref` that the resolver logs, and block metadata.
- Word characters in tokens: every character outside ASCII counts as one.
- FastAPI routes, sessions, pages, metrics, the schedule, the command line, `config.yaml` and its redacted view.
- Drivers, transactions, locks, VACUUM, WAL, fsync and bind mounts: a transaction or MULTI block, and a save under its lock, is one step. Calls that fail half way, restarts of the server, and an editable file that cannot be read are not modelled.
- Queue times are integers, results are texts that are never empty, limits and offsets are natural numbers, and job ids are fresh.
- `Backends.Drive`: contexts, hashes and errors that are the empty text are excluded, because Redis stores them as absent and SQLite does not; creation times must increase, because ties are ordered differently; cleanup is compared by `Jobs.SqliteCleansLess` instead.
- `RedisRace.RunDelivers`: a job popped by a client that then stops stays popped; nothing re-queues it, as in the original.
- `FileStore.NoLostUpdates`: outside edits happen between saves, or past the lock just before a first creation; an outside edit in the middle of a replacement is not modelled.
- Queue statistics and the average execution time.
