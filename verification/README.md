# coffeectx: a verified model of the core

Coffeectx keeps a graph of typed, versioned nodes in SQLite, lets agents search
it with a small query language, and fills it by crawling agent logs under a job
scheduler. This project models the parts of that core where a mistake loses or
corrupts data, and proves what those parts promise.

| part | files | what it is about |
|---|---|---|
| Regex-narrowed search | `RegexSyntax`, `RegexLiterals`, `SymbolSearch` | The scanner that finds literals every match must hold, and the trigram index that uses them |
| Versioned node store | `GraphModel`, `GraphGrowth`, `GraphRewrites`, `GraphReach`, `GraphSharing`, `GraphFields`, `GraphBatch`, `GraphOutcome`, `GraphStore`, `GraphExamples` | Batches of insert, patch, bump and delete-bump over a graph with anonymous and named nodes |
| Span segmentation and crawl | `SpanSegmentation`, `SpanEmission`, `SpanCrawl`, `SpanWindows`, `SpanTails`, `SpanExamples` | Cutting sessions into spans that never move once they are final, and storing each once |
| Scheduler | `SchedulerModel`, `SchedulerSafety`, `SchedulerRuns`, `Scheduler` | One job at a time, coalesced triggers, crashes, catch-up cursors |
| Query language | `QuerySyntax`, `QueryGrammar`, `QueryParser`, `QueryRoundTrip`, `QueryExecutor` | Tokenizer, recursive-descent parser, executor with early exits |
| Type store | `TypeModel`, `TypeGarbage`, `TypeStore` | Hash-consed types, named maps whose fields drift, garbage collection |

`Common` holds the result types and `Characters` the character classes.

Code that changes state step by step is a class or a method with loops here as
well, proved against functions on values; the main results are lemmas about
those functions, for all inputs and all runs. Tables are maps and sequences,
and strings are sequences of characters.

## Where the code and its description differ

The model follows the code. Each difference is proved.

- The tombstone walk flags the named maps that its root refers to, at any depth, although the comment
  says that it must not touch them. It leaves them all alone exactly when no value below the root refers
  to one (`GraphReach.NamedReferenceFlagged`). So a batch hides the live version of another timeline
  exactly when a version that it supersedes, or a value that it overwrites, refers to it
  (`GraphOutcome.OtherHeadHidden`).
- An overwrite starts the walk at the old value. A replaced anonymous value keeps a live root
  (`GraphRewrites.OverwriteHides`), and when the old value is a reference the fields of the referenced
  map are flagged (`GraphReach.OverwriteFlagsReferenced`).
- A reference in a field whose type takes none is said to be left to the shape checks, but it is resolved
  before them: any row that is there is taken, and is not copied. What is written then has rows of its
  own exactly when such references lead to named maps (`GraphSharing.OwnRowsWhen`). Otherwise a bump of
  the first owner hides the field of the second (`GraphSharing.SharedFieldHidden`;
  `GraphExamples.SharedFieldLost` is a run of the store).
- A bump of a row that is not the head of its timeline is accepted and repeats a version number
  (`GraphModel.BumpNumbered` says exactly when the numbering is kept).
- The effective end of a span is described as never past the next event or span of its session. The
  spans of one segmentation have disjoint windows (`SpanEmission.WindowsDisjoint`), but a row keeps the
  end that it was stored with. Two stored windows of a session overlap exactly when the later span starts
  within the padding of the earlier one, before the span that was next when the earlier one was stored,
  and has a window at all (`SpanWindows.StoredRowsOverlapWhen`). For a log that grows that means: exactly
  when no next span was final when the earlier row was stored, and the later one starts within the padding
  (`SpanWindows.GrowingLogOverlapsWhen`). `SpanExamples.StoredWindowsOverlap` has two crawls after which
  they do, and `SpanWindows.VersionSharedWhen` says what it means: the linker can then attach one symbol
  version to both.
- The second pass of a crawl is described as independent of the log files; it is skipped when a
  scan brings nothing new. It is missed exactly when a segment of stored, unclaimed events is over
  (`SpanTails.IdleScanSkipsCatchUp`), as after two crawls of a session that ends young
  (`SpanExamples.TailLeftBehind`).
- In the query grammar a parenthesised clause is described as holding a query; it holds one clause
  (`QueryRoundTrip.GroupTakesOneClause`). Tokens after a query are dropped
  (`QueryRoundTrip.TrailingTokensIgnored`). "One of these types, and one of those" is read as "one of
  all of them" (`QueryRoundTrip.AdjacentTypesMerge`).
- After garbage collection the surviving types are described as consistent; a type that only nodes
  use can lose its parts (`TypeGarbage.UsedTypeSurvives` says exactly when, `TypeGarbage.UsedListBreaks`
  is the smallest case).
- The scanner reads the digits of a Unicode escape and the tail of a class with a bare parenthesis
  inside a group as required text (`RegexLiterals.UnicodeEscapeMisread`,
  `RegexLiterals.ParenthesisInClassMisread`), against its own invariant. The fragment in which the
  invariant holds is `RegexSyntax.WfRegex`. It is sufficient and not necessary: some patterns outside
  it are read correctly by chance. `SymbolSearch.NodesTable.QuerySymbolRegex` says for any pattern when
  the search loses nothing.
- The header of the span linker says that a deleted head version is not attached; the code attaches it.
  The two differ exactly when the newest version of a timeline born in the window is a tombstone and the
  last of its timeline (`SpanEmission.DeletedHeadAttached`), which every deletion in the window of a
  version is (`SpanEmission.DeletionInWindow`).

## Model

| member | source | states |
|---|---|---|
| RegexLiterals.ExtractRequiredLiterals | packages/core/src/regexLiterals.ts:58-205 | The index loop computes the walk over the rest of the pattern, and every literal has three characters or more |
| RegexLiterals.IsZeroQuantAt | packages/core/src/regexLiterals.ts:72-85 | Peeking by index sees a quantifier that allows zero exactly when the rest of the pattern starts with one |
| RegexLiterals.SkipClassAt | packages/core/src/regexLiterals.ts:127-142 | The index skip over a class lands where the skip on the rest of the text does |
| RegexLiterals.SkipGroupAt | packages/core/src/regexLiterals.ts:144-162 | The index skip over a group lands where the nesting-aware skip on the rest of the text does |
| RegexLiterals.FinishEscape | packages/core/src/regexLiterals.ts:90-125 | The three kinds of escape advance the walk by one step |
| RegexLiterals.FinishMeta | packages/core/src/regexLiterals.ts:176-190 | A remaining metacharacter ends the run, loses its last character if it may repeat zero times, and skips a counted quantifier |
| RegexLiterals.FinishLiteral | packages/core/src/regexLiterals.ts:192-201 | A literal character joins the run and is dropped again when it is optional |
| RegexLiterals.RegexBalanced | packages/core/src/regexLiterals.ts:144-155 | The group skip passes over any printed syntax of the fragment at the same depth |
| RegexLiterals.WalkPrinted | packages/core/src/regexLiterals.ts:58-205 | On the text of any regex of the fragment the scanner collects exactly the literal runs of its tree |
| RegexLiterals.RunsOccur | packages/core/src/regexLiterals.ts:10-16 | Every literal run of a tree occurs in every text that the tree matches, up to case |
| RegexLiterals.LiteralsRequired | packages/core/src/regexLiterals.ts:10-16 | Every literal that the scanner returns for a pattern of the fragment occurs in every text that the pattern matches anywhere: no false positive |
| RegexLiterals.PlainTextExtracted | packages/core/src/regexLiterals.ts:18-32 | Plain text around any group, class, anchor or lookaround is extracted in full, so the scanner is not sound by returning nothing |
| RegexLiterals.UnicodeEscapeMisread | packages/core/src/regexLiterals.ts:121-124 | For every four hexadecimal digits the escape is matched by a text that does not hold the returned literal |
| RegexLiterals.ParenthesisInClassMisread | packages/core/src/regexLiterals.ts:144-155 | A family of patterns with a bare parenthesis in a class inside a group that match the empty text and still get a literal |
| SymbolSearch.ApplyKeepsIndex | packages/core/src/schema.ts:195-213 | Each statement on the nodes table, with its trigger, keeps one index row with the right text for every text node |
| SymbolSearch.RunKeepsIndex | packages/core/src/schema.ts:195-213 | The index agrees with the table after any sequence of inserts, updates and deletes |
| SymbolSearch.ExpressionReadsBack | packages/core/src/regexLiterals.ts:39-41 | The match expression built from quoted phrases is read back as exactly the literals, whatever quotes they hold |
| SymbolSearch.JoinedLists | packages/core/src/db.ts:1918-1927 | The join of index and table lists each live text node that passes exactly once |
| SymbolSearch.NarrowedAgreesWithScan | packages/core/src/db.ts:1896-1932 | For a pattern of the fragment the narrowed regex search lists the same ids as the scan of all live text nodes |
| SymbolSearch.NarrowedAgreesOnEveryRun | packages/core/src/db.ts:1896-1932 | The same after any sequence of statements on an empty database |
| SymbolSearch.ExactAgreesWithScan | packages/core/src/db.ts:1882-1892 | The indexed lookup of a value of three or more characters lists the same ids as the scan |
| SymbolSearch.NodesTable.InsertRow | packages/core/src/schema.ts:195-200 | An insert adds the row and its index row, and refuses an id that is taken |
| SymbolSearch.NodesTable.UpdateRow | packages/core/src/schema.ts:202-208 | An update of a text node replaces its index rows |
| SymbolSearch.NodesTable.DeleteRow | packages/core/src/schema.ts:210-213 | A delete removes the row and its index rows |
| SymbolSearch.NodesTable.QuerySymbolExact | packages/core/src/db.ts:1867-1893 | Both branches list each live symbol node with the value exactly once |
| SymbolSearch.NodesTable.QuerySymbolRegex | packages/core/src/db.ts:1896-1932 | For any pattern each live text node that it matches and that holds every literal is listed exactly once. So the search finds what the full scan finds exactly when every text that the scan finds holds the literals, as it does for every pattern of the fragment |
| GraphModel.DenotesUnique | packages/core/src/db.ts:1372-1448 | A node unfolds to one tree only |
| GraphModel.DenotesFrame | packages/core/src/db.ts:1372-1448 | An unfolding depends only on the bodies of its anonymous nodes and on which nodes are named |
| GraphReach.ReachIsHeld | packages/core/src/db.ts:1312-1334 | The walk flags exactly the anonymous rows that the values below its root are made of and the named maps that they refer to |
| GraphReach.NamedReached | packages/core/src/db.ts:1305-1333 | A named map is flagged exactly when it is not the root and the values below the root refer to it, at any depth |
| GraphReach.NamedReferenceFlagged | packages/core/src/db.ts:1305-1333 | The walk leaves all other named maps alone exactly when no value below its root refers to one |
| GraphModel.BumpNumbered | packages/core/src/db.ts:929-948 | A bump keeps the versions of its timeline gapless and distinct exactly when its target is the head |
| GraphModel.VersionsBelow | packages/core/src/db.ts:939-948 | In a numbered graph every version from 1 to that of a row is there |
| GraphGrowth.AddsSound | packages/core/src/db.ts:1457-1578 | Adding rows that refer to named maps, to newer rows or to rows from before keeps that every node unfolds to a finite tree, so copying ends |
| GraphGrowth.MadeKept | packages/core/src/db.ts:1043-1047 | A value that was built stays as it is while the rows that it owns are kept |
| GraphRewrites.WalkDone | packages/core/src/db.ts:1312-1334 | When the stack is empty the visited nodes are exactly those reached along paths with no named map inside |
| GraphRewrites.OldFieldsRetired | packages/core/src/db.ts:1118-1120 | A bump flags every anonymous node that the fields of the old version are made of |
| GraphRewrites.OverwriteHides | packages/core/src/db.ts:1010-1029 | After an overwrite a live old value is hidden entirely exactly when it was a reference |
| GraphReach.OverwriteFlagsReferenced | packages/core/src/db.ts:1010-1029 | Overwriting a reference flags every field of the referenced map, and flags nothing exactly when the map holds nothing but itself |
| GraphRewrites.RewritesTimelines | packages/core/src/db.ts:996-1041 | Writing fields, copying and flagging keep the numbering of all timelines and the flags of old versions |
| GraphStore.GraphStore.DeepCopy | packages/core/src/db.ts:1372-1448 | The copy unfolds to the same tree in fresh live rows of its own; a named map is shared; no other row changes |
| GraphStore.GraphStore.Build | packages/core/src/db.ts:1457-1578 | A value is built exactly when its checked references lead to named maps; the result holds the value in fresh live rows, and shares the rows that unchecked references lead to |
| GraphStore.GraphStore.CollectChildren | packages/core/src/db.ts:1340-1358 | The list of children holds exactly the items or entry values of the node |
| GraphStore.GraphStore.TombstoneSubtree | packages/core/src/db.ts:1312-1334 | On any graph, cyclic ones included, the walk ends and flags exactly the other rows reached along paths with no named map inside |
| GraphStore.GraphStore.DropField | packages/core/src/db.ts:1016-1029 | An overwrite flags exactly what the old value reaches, not the old value, and drops the entry |
| GraphStore.GraphStore.WriteField | packages/core/src/db.ts:1010-1040 | One key is replaced by the given value in fresh live rows, or is gone when the value cannot be built; exactly what the old value reaches is flagged |
| GraphStore.GraphStore.WriteFields | packages/core/src/db.ts:1005-1040 | Of an insert or patch exactly the right keys are written, skipped, dropped and reported. Unless an old value is the row itself, exactly what the old values reach is flagged and the new values are live; in any case what they reach before or after is the bound |
| GraphStore.GraphStore.CopyField | packages/core/src/db.ts:1088-1096 | A carried field unfolds to what it was, in fresh live rows |
| GraphStore.GraphStore.CarryForward | packages/core/src/db.ts:1062-1116 | The fields of the new version unfold to the shallow patch of the old ones, and exactly the refused keys are reported |
| GraphStore.GraphStore.BumpOne | packages/core/src/db.ts:1048-1121 | One bump or delete-bump: fields as above, flags set exactly on the old version and what it reaches |
| GraphStore.GraphStore.AddShells | packages/core/src/db.ts:921-963 | The first phase accepts or refuses each entry and inserts new rows with the right timeline, version and flag |
| GraphStore.GraphStore.WriteAll | packages/core/src/db.ts:996-1041 | The second phase gives every accepted insert and patch its fields. Unless an overwritten value is a row that the batch writes, exactly what the overwritten values reach is flagged; else what they reach before or after is the bound |
| GraphStore.GraphStore.BumpAll | packages/core/src/db.ts:1043-1121 | The third phase gives every bump its fields, those of a patch in the same batch included, and flags exactly what the bumps retire |
| GraphStore.GraphStore.InsertEntries | packages/core/src/db.ts:592-1125 | A whole batch: each accepted entry comes to its outcome, every node unfolds to what it did before, timelines stay 1..n with all but the last version flagged. The rows of removals, what bumps retire and what overwritten values reach are flagged: exactly these unless an overwritten value is a row that the batch writes, and with what it reaches afterwards as the bound otherwise |
| GraphStore.GraphStore.GetCurrentVersionId | packages/core/src/db.ts:1751-1760 | The lookup returns the head of the timeline, or nothing when the timeline has no row |
| GraphOutcome.TimelinesRestored | packages/core/src/db.ts:921-1121 | New rows break the rule that old versions are flagged, and the end of the batch restores it |
| GraphOutcome.UnfoldingKept | packages/core/src/db.ts:996-1121 | A batch that rewrites named rows changes no unfolding, superseded versions included |
| GraphOutcome.OtherHeadHidden | packages/core/src/db.ts:1305-1333 | A batch hides the live version of another timeline exactly when a version that it supersedes or a value that it overwrites refers to it |
| GraphSharing.MadeUnfolds | packages/core/src/db.ts:1475-1484 | A value that was written unfolds to what was given, with unchecked references showing what they lead to |
| GraphSharing.OwnRowsWhen | packages/core/src/db.ts:1265-1281 | A written value is made of rows of its own exactly when its unchecked references lead to named maps |
| GraphSharing.NewIsDisjoint | packages/core/src/db.ts:1043-1047 | What a batch writes shares an anonymous node with something from before exactly when an unchecked reference leads to an anonymous row |
| GraphSharing.SharedFieldHidden | packages/core/src/db.ts:1118-1120 | A bump hides a field of another map exactly when the fields of the bumped version hold that value too |
| GraphExamples.SharedFieldLost | packages/core/src/db.ts:1266-1267 | After two inserts and a bump that the program accepts, a live head has a field that is hidden |
| GraphOutcome.BumpOutcome | packages/core/src/db.ts:1043-1121 | What a bump made in the middle of a batch is its outcome at the end: the next version, with the shallow patch of the fields of the old one |
| GraphOutcome.BatchFlags | packages/core/src/db.ts:1010-1120 | The flags of the three phases add up to those of the batch |
| SpanSegmentation.ComputeScores | indexer/src/agentLog/spans.ts:123-175 | Each boundary has the score of its two events |
| SpanSegmentation.BoundariesToSegments | indexer/src/agentLog/spans.ts:248-259 | The kept cuts give the initial segments |
| SpanSegmentation.MergeIntoNeighbour | indexer/src/agentLog/spans.ts:278-290 | A small segment joins the neighbour with the weaker boundary, the left one on a tie |
| SpanSegmentation.MergeSmallBatches | indexer/src/agentLog/spans.ts:261-296 | The restarting loop ends and computes the settled segments |
| SpanSegmentation.FinalSegmentsPartition | indexer/src/agentLog/spans.ts:248-296 | The result is a partition of the events that only removes cuts, and every segment is large enough unless one is left |
| SpanSegmentation.LargePrefixStays | indexer/src/agentLog/spans.ts:271-294 | Segments that are large enough stay, but for the last of them, which may grow |
| SpanSegmentation.SettleKeepsStarts | indexer/src/agentLog/spans.ts:271-294 | Merging a longer list of segments keeps all settled starts of a shorter one |
| SpanSegmentation.AppendStability | indexer/src/agentLog/indexLogs.ts:130-133 | Appending events leaves every final segment but the last as it is, and one still starts where the last one started |
| SpanEmission.ComputeSpans | indexer/src/agentLog/spans.ts:100-242 | The loops compute the finalised spans of the session |
| SpanEmission.SpansConserveEvents | indexer/src/agentLog/spans.ts:191-239 | The spans hold the persistable events of a prefix of the session, each once and in order, and each ended at least the hard break before the close time |
| SpanEmission.FinalisedSpansStay | indexer/src/agentLog/indexLogs.ts:130-133 | A finalised span is finalised again unchanged by a later crawl, or came from the last segment, whose start still starts a span |
| SpanEmission.WindowsDisjoint | indexer/src/agentLog/indexLogs.ts:600-606 | The windows of the spans of one segmentation of a session, from start to effective end, are pairwise disjoint |
| SpanEmission.PickedIsLatest | indexer/src/agentLog/spanLink.ts:253-268 | Per timeline the picked version is born in the window and no version born in it is newer |
| SpanEmission.PickVersions | indexer/src/agentLog/spanLink.ts:258-268 | The loop picks those versions |
| SpanEmission.GatherTouchedSymbols | indexer/src/agentLog/spanLink.ts:235-278 | The result holds the picked versions of all changed files with their types, and nothing else |
| SpanEmission.NoVersionTwice | indexer/src/agentLog/spanLink.ts:235-278 | No symbol version is attached to two spans of one segmentation of a session |
| SpanEmission.DeletedHeadAttached | indexer/src/agentLog/spanLink.ts:5-10 | Attaching differs from what the header describes exactly when the newest version of a timeline born in the window is a tombstone and the last of its timeline |
| SpanEmission.DeletionInWindow | indexer/src/agentLog/spanLink.ts:260-275 | A version and its deletion, both born in the window: the deletion is attached and by the description would not be |
| SpanWindows.RowOrigin | indexer/src/agentLog/indexLogs.ts:229-282 | Every stored row was made, effective end included, from the spans that one pass of one crawl finalised for its session |
| SpanWindows.StoredRowsOverlapWhen | indexer/src/agentLog/indexLogs.ts:235-236 | After any crawls, the windows of two stored spans of a session overlap exactly when the later one starts within the padding of the earlier and before the span that was next when the earlier was stored, and has a window |
| SpanWindows.GrowingLogOverlapsWhen | indexer/src/agentLog/indexLogs.ts:600-606 | For passes over a growing log: exactly when no next span was final when the earlier row was stored, the later one starts within the padding, and it has a window |
| SpanWindows.NothingBetween | indexer/src/agentLog/indexLogs.ts:130-133 | When a log grows no later span starts between a finalised span and the one that was next to it |
| SpanWindows.VersionSharedWhen | indexer/src/agentLog/spanLink.ts:61-74 | The linker can attach one symbol version to two stored spans exactly when their windows overlap |
| SpanExamples.StoredWindowsOverlap | indexer/src/agentLog/indexLogs.ts:600-606 | Two crawls of one log, for all such logs: the first row is padded in full, and the stored windows overlap exactly when the second span starts within the padding |
| SpanCrawl.FreshAgain | indexer/src/agentLog/indexLogs.ts:229-282 | Once the chosen spans are stored, the same candidates give nothing |
| SpanCrawl.CrawlKeepsKeysUnique | indexer/src/agentLog/indexLogs.ts:130-133 | A crawl, second pass included, stores no second span with the same session and start |
| SpanCrawl.CrawlsKeepKeysUnique | indexer/src/agentLog/indexLogs.ts:130-133 | The same over any sequence of crawls |
| SpanCrawl.CrawlIdempotent | indexer/src/agentLog/indexLogs.ts:75-345 | A second crawl over the same scan and close time changes nothing |
| SpanTails.CatchUpStoresWhen | indexer/src/agentLog/indexLogs.ts:486-598 | The second pass stores a span exactly when a segment of stored, unclaimed events is over and starts no stored span |
| SpanTails.IdleScanSkipsCatchUp | indexer/src/agentLog/indexLogs.ts:285-288 | With a scan that brings nothing the crawl does what the second pass would do exactly when no segment of stored, unclaimed events is over |
| SpanExamples.TailLeftBehind | indexer/src/agentLog/indexLogs.ts:477-483 | A session crawled while young and again, unchanged, when old: the second crawl stores nothing, and the second pass would have stored a span |
| SpanCrawl.EmptyScanIsIdle | indexer/src/agentLog/indexLogs.ts:140 | An empty scan is such a scan, whatever is stored |
| SpanCrawl.Indexer.IndexAgentSessions | indexer/src/agentLog/indexLogs.ts:75-345 | The crawl computes the new store, keeps span keys unique, and reports zero rows exactly when there is no news |
| SpanCrawl.Indexer.CatchUpUnspannedTails | indexer/src/agentLog/indexLogs.ts:486-598 | The second pass segments the unclaimed events, by session and time, stores the new spans and claims their events |
| SpanCrawl.Indexer.FindUnspannedEvents | packages/core/src/db.ts:2398-2447 | Insertion by session and time gives the unclaimed events in that order |
| SpanCrawl.Indexer.LoadExistingSpanKeys | indexer/src/agentLog/indexLogs.ts:624-637 | The loaded set holds exactly the keys of the stored spans |
| Scheduler.Scheduler.Enqueue | indexer/src/jobs/scheduler.ts:373-387 | A trigger of a disabled job is dropped, one during a run coalesces into a pending one, any other starts the job |
| Scheduler.Scheduler.Execute | indexer/src/jobs/scheduler.ts:391-414 | A start logs the run and what it sees; during a run it becomes pending instead |
| Scheduler.Scheduler.Finish | indexer/src/jobs/scheduler.ts:418-439 | The end of a run logs its outcome, moves the cursor to what the run saw if it succeeded, and queues the first pending job |
| Scheduler.Scheduler.FindNextPending | indexer/src/jobs/scheduler.ts:441-450 | The first pending job in registration order is taken and cleared |
| Scheduler.Scheduler.OnInsert | indexer/src/jobs/scheduler.ts:276-293 | An observed insert restarts the debounce of exactly the jobs that listen to one of its types |
| Scheduler.Scheduler.OnStateChange | indexer/src/jobs/scheduler.ts:295-313 | A state change restarts the debounce of exactly the jobs that listen to it |
| Scheduler.Scheduler.ExpireDebounce | indexer/src/jobs/scheduler.ts:363-371 | An expired timer is cleared and its trigger enqueued |
| Scheduler.Scheduler.PollTriggerPending | indexer/src/jobs/scheduler.ts:335-342 | Every requested job is cleared and enqueued in order |
| Scheduler.Scheduler.StartupCatchup | indexer/src/jobs/scheduler.ts:316-333 | Each enabled listening job is enqueued, or its first cursor is set, or it is left alone |
| Scheduler.Scheduler.Restart | indexer/src/jobs/scheduler.ts:94-135 | A new process starts with empty memory, marks the open run as reclaimed and catches up |
| SchedulerSafety.StepKeeps | indexer/src/jobs/scheduler.ts:373-450 | Every callback keeps the invariant: one open body, no stuck pending job, runs in order, cursors within what was seen and earned |
| SchedulerRuns.RunKeeps | indexer/src/jobs/scheduler.ts:373-450 | The invariant holds in every reachable state, with crashes at any point |
| SchedulerRuns.MutualExclusion | indexer/src/jobs/scheduler.ts:391-397 | In every reachable state at most one body is open, and a pending job has a body or a queued start before it |
| SchedulerRuns.RunOnward | indexer/src/jobs/scheduler.ts:412-423 | Over any run no cursor moves back |
| SchedulerRuns.NodeNotForgotten | indexer/src/jobs/scheduler.ts:412-423 | In every reachable state a node that a job listens to is above the cursor or was there when a successful run of the job started |
| SchedulerRuns.TriggerNotLost | indexer/src/jobs/scheduler.ts:379-387 | A trigger that passed the enabled check is pending, queued, or followed by a start that sees every node there was, until the process dies |
| SchedulerRuns.InsertNotLost | indexer/src/jobs/scheduler.ts:363-371 | The same for a debounced insert while the job stays enabled |
| SchedulerRuns.RestartCatchesUp | indexer/src/jobs/scheduler.ts:316-333 | After a crash at any point the restart owes a run to every enabled job with a matching node above its cursor |
| SchedulerRuns.DrainStep | indexer/src/jobs/scheduler.ts:428-449 | Each step of a drain takes from the backlog and each start uses up one outstanding request |
| SchedulerRuns.DrainBound | indexer/src/jobs/scheduler.ts:428-449 | Without new triggers the backlog bounds the steps and the outstanding requests bound the starts |
| SchedulerRuns.DrainEnds | indexer/src/jobs/scheduler.ts:428-449 | The drain can go on exactly while something is pending, queued or running |
| QuerySyntax.ScanStringAt | packages/core/src/query.ts:105-116 | The inner loop reads a literal exactly as the recursive scan, and finds it unterminated in the same cases |
| QuerySyntax.Tokenize | packages/core/src/query.ts:94-133 | The index loop gives the same tokens or the same error as the recursive tokenizer |
| QuerySyntax.EscapedReadsBack | indexer/src/plans/planExtract.ts:122-124 | The scanner reads back what escapeStr wrote, for every string |
| QuerySyntax.LexText | packages/core/src/query.ts:94-133 | The tokenizer inverts the text of every token list |
| QueryGrammar.DigitsReadBack | packages/core/src/query.ts:71-78 | A time in milliseconds printed in decimal is read back exactly |
| QueryParser.Parser.ParseQuery | packages/core/src/query.ts:165-177 | The clause loop computes what the grammar function does and stops at the same token |
| QueryParser.Parser.ParseClause | packages/core/src/query.ts:179-231 | The same for one clause, with the same errors |
| QueryParser.Parser.ParseTypeQuery | packages/core/src/query.ts:234-250 | The greedy loop over types |
| QueryParser.Parser.ParseMapQuery | packages/core/src/query.ts:253-269 | The greedy loop over fields |
| QueryParser.Parser.ParseSubQuery | packages/core/src/query.ts:272-281 | A parenthesised query or a single clause |
| QueryParser.ParseText | packages/core/src/query.ts:284-289 | The exported parser |
| QueryRoundTrip.ParsedIsShaped | packages/core/src/query.ts:165-281 | Whatever the parser returns has no empty list and no two adjacent type or map clauses |
| QueryRoundTrip.RoundTrip | packages/core/src/query.ts:94-289 | For times below 2^53, parsing the canonical text gives the query back exactly when it has that shape |
| QueryRoundTrip.AdjacentTypesMerge | packages/core/src/query.ts:24-26 | Two adjacent type clauses are read as one |
| QueryRoundTrip.TrailingTokensIgnored | packages/core/src/query.ts:284-289 | Tokens after a query are dropped exactly when the first of them is not a comma |
| QueryRoundTrip.GroupTakesOneClause | packages/core/src/query.ts:183-189 | A parenthesised query is accepted as a clause exactly when it has one clause |
| QueryRoundTrip.EscapedSymbolIsExact | indexer/src/plans/planExtract.ts:113-124 | The lookup built with escapeStr parses to exactly the given value, for every string |
| QueryExecutor.MapsByField | packages/core/src/db.ts:1977-1989 | The lookup returns the live maps with one of the values under the key |
| QueryExecutor.ListsByItem | packages/core/src/db.ts:1991-2003 | The lookup returns the live lists with one of the items |
| QueryExecutor.ByNamedType | packages/core/src/db.ts:1963-1975 | The lookup returns the live nodes of one of the types |
| QueryExecutor.DeleteMissing | packages/core/src/query.ts:320-323 | Deleting from the set while looping over it leaves the intersection |
| QueryExecutor.ExecuteQuery | packages/core/src/query.ts:308-330 | With early exits the result has no repeats and is exactly the intersection of the clauses; it fails only if a lookup does |
| QueryExecutor.ExecuteClause | packages/core/src/query.ts:332-378 | The result is exactly what the clause means, at every nesting level |
| QueryExecutor.ExecuteMapQuery | packages/core/src/query.ts:349-365 | The candidates are exactly the maps that have every field |
| QueryExecutor.SameMeaning | packages/core/src/query.ts:308-378 | Queries that are equal up to order, repetition and groups at every level match the same nodes |
| QueryExecutor.ReorderedIsSame | packages/core/src/query.ts:5 | Reordering clauses changes nothing |
| QueryExecutor.GroupsChangeNothing | packages/core/src/query.ts:375-376 | Removing groups changes nothing |
| TypeModel.MeaningUnique | packages/core/src/db.ts:159-168 | Two unnamed rows load to the same type up to the order of variants exactly when they are one row |
| TypeModel.LoadKept | packages/core/src/db.ts:371-451 | Adding rows and rewriting named maps changes nothing that an unnamed row loads to |
| TypeModel.ImagesDetermine | packages/core/src/db.ts:212-217 | Sorted variant ids determine the variants: equal multisets of types come from equal multisets of ids |
| TypeStore.TypeStore.Place | packages/core/src/db.ts:289-307 | A row is found by its content key or inserted, and the unique index is kept |
| TypeStore.TypeStore.Upsert | packages/core/src/db.ts:170-286 | The row loads to the type up to the order of variants, old rows stay, and a known type changes nothing |
| TypeStore.TypeStore.UpsertNamedMap | packages/core/src/db.ts:236-283 | The row is found by name and afterwards has the given fields; other rows stay; the same fields change nothing |
| TypeStore.TypeStore.Register | packages/core/src/db.ts:2236-2258 | The name loads to the type after any drift, every other name loads to what it did, and registering again changes nothing |
| TypeStore.TypeStore.CollectGarbage | packages/core/src/db.ts:320-352 | Exactly the rows that names are made of or nodes use are left, and every name loads to the same type |
| TypeStore.WalkFromNames | packages/core/src/db.ts:331-343 | The recursive query finds exactly the rows that the names are made of |
| TypeGarbage.SameIdSameType | packages/core/src/db.ts:159-168 | Two upserts give the same id exactly when the types are equal up to the order of variants |
| TypeGarbage.RestrictedLoads | packages/core/src/db.ts:344-346 | A row loads from what is left exactly when all rows that it is made of are left |
| TypeGarbage.UsedTypeSurvives | packages/core/src/db.ts:323-327 | A type that only nodes use still loads exactly when all its parts are named or used |
| TypeGarbage.UsedListBreaks | packages/core/src/db.ts:323-327 | A list type that only a node uses keeps its row and loses its item type |

## Left out

- Strings are code points, not UTF-16 units; lengths and indices of characters outside the basic plane differ.
- Case folding is one function on both sides of the search; the program folds in SQLite and in the regular expression engine.
- SQLite, its tokenizer, transactions that roll back, the vector index and embeddings: a phrase of three or more characters matches as folded containment, and semantic search is an unknown function.
- Back-references, hexadecimal, control and Unicode property escapes and the legacy regex syntax are outside the fragment of the scanner; lookarounds are in it as groups, and Unicode escapes only inside groups.
- The states of nodes, their timestamps, state-change events, the materialised reference index and the caller's stated type are not part of the node store model; a patch with only a state is therefore refused.
- Field values are trees: checking a value against its field's type is reduced to checking references. A tree says of each reference whether its place takes references; which of the named types the place takes is not modelled.
- Ids are handed out in order. The program's are random, so a `$id` that leads to no row before the batch leads nowhere.
- Patching or bumping an anonymous map is refused by the model; the program lets it through for some types.
- A batch that patches one row twice, bumps one row twice, or bumps a row that is not a head, is excluded by a precondition of `GraphStore.GraphStore.InsertEntries`. Two patches that add one key abort the transaction, and the bumps repeat a version number.
- GraphStore.GraphStore.InsertEntries: states which rows of inserted and patched values are live only when no overwritten value is a row that the batch writes and no row is both patched and bumped; in other batches the walk hides some of what was just written, and the flags say which.
- The weights, keywords and patterns of boundary scores are one unknown function of two adjacent events; timestamps are valid integers.
- Summaries, changed files, debug records and the signals that a second pass cannot recover are not part of the crawl model; every insert succeeds.
- SpanCrawl.CrawlsKeepKeysUnique: says nothing about one event being claimed by two spans across crawls, which happens when a merged tail splits off later.
- Job bodies, heartbeats, shutdown, the hard-kill watchdog and cron arithmetic: they are steps that may happen at any time; database and configuration calls do not throw.
- What a date string means, and numbers from 2^53 on, are unknown functions in the query parser; positions in error messages are dropped.
- The cache of type objects, references resolved at load time and the printed form of content keys; keys with separators in field names could collide in print.
- Config and skill loading, agent runners, web server, log providers, plan extraction and rendering: plumbing around the modelled core.
