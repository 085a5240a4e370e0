# Verified models of three agent back ends

A Dafny project that models the stateful engines of three services, `agentic-workspace-chat`,
`repo-agent` and `api-agent`, and proves what they are meant to guarantee. Each module stands
beside one component. Code that changes state in steps is a class or a method with a loop,
proved equal to a function of its inputs or of the old state; the guarantees are lemmas about
those functions, over every input, every run or every interleaving. Check it with
`dafny verify dfyconfig.toml`.

| file | component |
|---|---|
| `Texts.dfy`, `Wrappers.dfy` | Python text primitives (lines, joins, slices, words, decimals); options and results |
| `UnifiedDiff.dfy`, `ReviewedEdits.dfy` | reading a diff into hunks and applying an accepted set of them |
| `TextEdits.dfy`, `EditOverlay.dfy`, `ChangeApplication.dfy` | the edit tools over an in-memory overlay, and writing accepted changes to disk |
| `HunkSelection.dfy` | applying accepted changes cut down to their accepted hunks, end to end |
| `ContextBatches.dfy` | grouping ranked files under two caps |
| `JsonDocument.dfy` | pulling the first JSON document out of prose (RFC 8259, sections 4, 5 and 7) |
| `RunEvents.dfy`, `RunEventProofs.dfy` | the event log, its streams and restarts, as an interleaved step system |
| `RunClient.dfy`, `PageContent.dfy` | the page that folds streamed events, and what it then shows |
| `RunLifecycle.dfy`, `RunOutcomes.dfy` | the orchestrator's run: how it ends, what it tells and under which statuses |
| `RunService.dfy`, `RunSettlement.dfy` | its interleaving with cancel, the task callback and the watchdog, and how that leaves it |
| `PlanProgress.dfy` | advancing a plan |
| `RunChanges.dfy` | recording file changes and reverting a run |
| `JobLifecycle.dfy`, `JobOutcomes.dfy` | one generation job: lock sections interleaved with its worker, and how it ends |
| `ScenarioValue.dfy` | scoring and consolidating scenarios |
| `ConverseHistory.dfy` | bounding stored messages to an alternating history |
| `MarkdownFences.dfy`, `ResponseBatches.dfy` | code-fence state over any chunking of a text |
| `ToolLoop.dfy` | the model-and-tools loop |
| `GenerationBudget.dfy` | budget accounting in strict and review mode |

## What the code does not guarantee

Where an intended property is false of the code, the code is modelled as it is, the exact
condition is proved, and a lemma names a failing input.

- Accepting every hunk does not give the new text when a replaced last line has no newline: the
  diff text glues the two lines (`AcceptAll`, `UnterminatedReplacementIsLost`).
- Writing a change destroys a file that has its temporary name, which spoils an accepted subset
  unless a later change in it writes that file and the file was empty (`ChangeIsWritten`,
  `EndsAsAskedIff`, `AcceptedSubset`, `TemporaryNameClobbers`).
- A path once proposed, for deletion or otherwise, cannot be created at any later time of the
  session (`CreatableIff`, `DeletedCannotBeCreated`).
- A line range that starts at zero or before is counted back from the end of the file: lines are
  then written twice or lost (`RangeReplacedIff`, `EarlyRange`, `LineZeroDuplicates`).
- Events published between a stream's replay read and its subscribe are not delivered on that
  connection (`LiveStreamIsGapFree`, `NothingTwice`). Once the page has received a later number they
  are lost to it for good, a reconnect from the start included (`WindowEventIsLost`, `LostForGood`).
- A stream asked to start beyond the end of the log sends the next live event although its number
  is below that start (`StreamIsIncreasing`, `StartBeyondLog`).
- A stream that finds the run ended after a heartbeat closes over whatever its queue holds: a
  terminal event published meanwhile is never delivered, even when the queue was empty at the
  heartbeat (`ClosedStreamIsComplete`, `CheckLeavesTheEnd`, `EndPublishedAtCheckIsLost`,
  `CheckLosesCompletion`).
- A heartbeat sent while an event waits makes the page drop the event (`DroppedIff`,
  `HurriedHeartbeatLosesEvent`).
- An event published after a restart and before a replay read is dropped when the log was not
  empty (`PublishLostAfterRestart`).
- Reverting leaves a file edited twice at its first edit. A file moved to a new name
  stays there unless the last report of that name created it, and comes back under its old name only
  where another report of the run names that one (`RevertUndoesRun`, `SecondEditIsKept`, `MoveToNewName`,
  `MoveLeavesCopy`). After a restart the kept contents are gone, and a revert only removes what the
  run created (`RestartRevertIff`).
- A run the watchdog failed leaves that status when its task goes on to set another, and a run
  that completes is then published as failed and as completed (`FailedCanChangeIff`,
  `WatchdogIsOverwritten`, `WatchdogOverwritten`).
- A run whose task crashes between storing its end and telling it never tells it (`SettledOutcome`).
- An abort after a worker's last check does not stop the job, and an abort call on its way out as
  the job ends can leave it labelled as aborting (`AbortedCanCompleteIff`, `LastChecks`,
  `LateAbortMislabels`, `MislabelledIff`).
- Where ids repeat, the last scenario under an id decides for all of them (`DropsByLast`,
  `DropsIff`). One that asserts something and is repeated is dropped both times
  (`RepeatedIdDropsBoth`); a duplicate is kept when a later novel scenario carries its id, and a novel
  one is lost when a later duplicate does (`KeptNoOverlapIff`, `NamesakeDecides`, `DuplicateIsKept`).
- An incomplete plan step whose id is empty or is that of an earlier step is never finished
  (`PlanFinishesIff`, `SharedIdStalls`, `StallsForever`, `TwoUnderOneId`).
- A line without a newline that is not the last of a rendered hunk is read back glued to the next
  (`RecoversHunks`).
- A delta boundary inside a line can open or hide a code fence (`SavedIsClosedIff`, `TornFence`).
- A history that ends with a user turn puts two user messages in a row before the model
  (`PromptAlternatesIff`); a history limit of zero means no limit (`RecentWithinLimit`).

## Model

| member | source | states |
|---|---|---|
| `UnifiedDiff.DiffHunks` | agentic-workspace-chat/backend/app/workspace.py:83-93 | the loop returns exactly the hunks the text opens, numbered in order, each with the lines up to the next header; lines before any header are dropped |
| `UnifiedDiff.ApplyHunks` | agentic-workspace-chat/backend/app/workspace.py:95-113 | the loop over hunks with its output and cursor writes what the left-to-right reading of source and hunks prescribes, or raises exactly when a header holds no number |
| `UnifiedDiff.ApplyHunk` | agentic-workspace-chat/backend/app/workspace.py:100-111 | one hunk appends the gap, then its body or the untouched range, and leaves the cursor after it |
| `UnifiedDiff.ApplyBody` | agentic-workspace-chat/backend/app/workspace.py:108-111 | kept and added lines are output with a newline; kept and deleted lines move the cursor |
| `ReviewedEdits.RecoversHunks` | agentic-workspace-chat/backend/app/workspace.py:83-93 | reading a rendered diff back yields its hunks in order with ids hunk-1..n and headers intact, no body line or file header taken for a hunk header; a body comes back line for line if and only if no line but its last lacks a newline |
| `ReviewedEdits.HunkIdInjective` | agentic-workspace-chat/backend/app/workspace.py:89 | ids never collide, so a set of accepted ids selects any set of hunks |
| `ReviewedEdits.HeaderFields` | agentic-workspace-chat/backend/app/workspace.py:100-105 | start and count are read back from every header a diff writes, the count left out when it is one |
| `ReviewedEdits.WrittenBody` | agentic-workspace-chat/backend/app/workspace.py:108-111 | an accepted body moves over exactly its old lines and writes exactly its new lines, if and only if no line of it loses or gains a newline |
| `ReviewedEdits.AppliesAcceptedHunks` | agentic-workspace-chat/backend/app/workspace.py:95-113 | for every diff and accepted set, the call succeeds and yields the source with exactly the accepted ranges replaced, if and only if the last hunk is rejected or ends cleanly |
| `ReviewedEdits.AcceptNone` | agentic-workspace-chat/backend/app/workspace.py:104-107 | accepting nothing returns the old text, for every diff |
| `ReviewedEdits.AcceptAll` | agentic-workspace-chat/backend/app/workspace.py:108-113 | accepting everything returns the new text if and only if the last hunk ends cleanly |
| `ReviewedEdits.TerminatedTexts` | agentic-workspace-chat/backend/app/workspace.py:95-113 | when both texts end in a newline the accepted ranges are replaced without exception |
| `ReviewedEdits.UnterminatedReplacementIsLost` | agentic-workspace-chat/backend/app/workspace.py:108-111 | the smallest failure: replacing the only, unterminated line loses the new text |
| `ReviewedEdits.SpliceIsCopy` | agentic-workspace-chat/backend/app/workspace.py:96-112 | the cursor's left-to-right copy equals splicing the accepted ranges one by one into the source |
| `TextEdits.PassageReplaced` | agentic-workspace-chat/backend/app/tools.py:170-174 | a passage is replaced exactly when it matches once up to overlaps with itself, and then only its first match changes |
| `TextEdits.LinesReplaced` | agentic-workspace-chat/backend/app/tools.py:186-194 | a range counted from one replaces exactly its own lines; the edit is refused exactly when the range leaves the file |
| `TextEdits.RangeReplacedIff` | agentic-workspace-chat/backend/app/tools.py:185-195 | for any bounds that are not refused, exactly the lines the range names are replaced if and only if it starts at one or later, or counting back from the end overshoots the file |
| `TextEdits.EarlyRange` | agentic-workspace-chat/backend/app/tools.py:190-194 | for every range that starts at zero or before: what is written, and which lines are written twice or lost |
| `TextEdits.LineZeroDuplicates` | agentic-workspace-chat/backend/app/tools.py:190-194 | replacing lines 0 to 1 of three keeps line 1 and writes line 2 twice |
| `EditOverlay.ToolRunner.Remember` | agentic-workspace-chat/backend/app/tools.py:103-107 | the disk text, or nothing for a missing file, is kept the first time a path is touched and never again; an unresolvable path raises |
| `EditOverlay.ToolRunner.Edit` | agentic-workspace-chat/backend/app/tools.py:168-201 | the four edit tools propose, remember and overlay in that order, and change nothing when they raise |
| `EditOverlay.ToolRunner.Merge` | agentic-workspace-chat/backend/app/tools.py:263-267 | outputs are overlaid in order, stopping at the first path that cannot be remembered |
| `EditOverlay.ToolRunner.RunCustom` | agentic-workspace-chat/backend/app/tools.py:247-261 | a custom tool whose inputs cannot all be read merges nothing |
| `EditOverlay.ToolRunner.Execute` | agentic-workspace-chat/backend/app/tools.py:109-118 | every call is logged with its outcome, and a raised error becomes an error result |
| `EditOverlay.ToolRunner.ProposedChanges` | agentic-workspace-chat/backend/app/tools.py:269-275 | one change per overlaid path, in the order the paths were first touched, carrying the digest of the original |
| `EditOverlay.CallRefinesEdit` | agentic-workspace-chat/backend/app/tools.py:168-201 | a call goes through exactly when the direct edit applies to the files shown and the runner permits it; the overlay then shows the directly edited files, and otherwise nothing changes |
| `EditOverlay.MergeRefines` | agentic-workspace-chat/backend/app/tools.py:263-267 | a merge shows the files with its leading resolvable outputs written, and reports success exactly when that is all of them |
| `EditOverlay.PutAllIs` | agentic-workspace-chat/backend/app/tools.py:263-267 | writing outputs leaves each path as the last output under it says, and any other as it was |
| `EditOverlay.ProposalIsDirect` | agentic-workspace-chat/backend/app/tools.py:168-201 | a single-path proposal is made exactly when the direct edit applies and is permitted, and is what that edit would write |
| `EditOverlay.SessionRefinesEditing` | agentic-workspace-chat/backend/app/tools.py:95-107 | after any calls: overlaid paths are exactly the remembered ones, originals are the disk texts, and the overlay shows what the effective calls done directly to the disk would have left |
| `EditOverlay.ProposedAs` | agentic-workspace-chat/backend/app/tools.py:269-275 | over any session, a touched path is proposed with the text shown and the digest of its disk text: as a deletion exactly when it is no longer shown, as an update exactly when its disk text is not empty, and otherwise as a creation |
| `EditOverlay.ShownIsProposed` | agentic-workspace-chat/backend/app/tools.py:269-275 | a path that is not proposed is shown as it is on disk |
| `EditOverlay.CreatableIff` | agentic-workspace-chat/backend/app/tools.py:177-183 | at any time of any session, a file can be created if and only if its path resolves, is not on disk and has never been proposed before |
| `EditOverlay.DeletedCannotBeCreated` | agentic-workspace-chat/backend/app/tools.py:177-201 | a path deleted in a session is gone from view, where a direct edit could create it, and yet no later call of the session can create it |
| `ChangeApplication.ApplyChange` | agentic-workspace-chat/backend/app/workspace.py:116-127 | the stale check, the delete and the write through a temporary name, with the disk left alone on either error |
| `ChangeApplication.ApplyAccepted` | agentic-workspace-chat/backend/app/main.py:194-200 | accepted changes are applied in proposal order, stopping where the first one raises |
| `ChangeApplication.ChangeIsWritten` | agentic-workspace-chat/backend/app/workspace.py:121-127 | a change writes its own path and leaves every other alone if and only if it deletes or its temporary name is not in use |
| `ChangeApplication.AppliesAsProposed` | agentic-workspace-chat/backend/app/workspace.py:116-127 | reviewed changes to different paths are never refused as stale and are written step by step as asked, if and only if no temporary name they go through is in use at the time |
| `ChangeApplication.OverlayIsReviewed` | agentic-workspace-chat/backend/app/tools.py:269-275 | whatever subset of a session's proposals is picked, its digests match the disk and its paths differ |
| `ChangeApplication.RefusedIffChanged` | agentic-workspace-chat/backend/app/workspace.py:116-120 | a change proposed by any session is refused as stale on exactly those disks that no longer hold the text it was made from, and goes through on all others |
| `ChangeApplication.WritesShowOverlay` | agentic-workspace-chat/backend/app/tools.py:269-275 | the writes a pick of proposals asks for make its paths read as the overlay shows them |
| `ChangeApplication.EndsAsAskedIff` | agentic-workspace-chat/backend/app/workspace.py:116-127 | reviewed changes all go through and leave exactly what they ask for if and only if none clears a name in use, save one that a later change to an empty file is for |
| `ChangeApplication.AcceptedSubset` | agentic-workspace-chat/backend/app/main.py:194-200 | any accepted subset of any session applies without a failure, reads as the overlay on accepted paths and as before elsewhere, if and only if its temporary names are harmless in that sense |
| `ChangeApplication.TemporaryNameClobbers` | agentic-workspace-chat/backend/app/workspace.py:125-127 | two edits, one to a file named like the other's temporary file: the first destroys it and the second is refused as stale |
| `HunkSelection.ApplySelected` | agentic-workspace-chat/backend/app/main.py:194-200 | accepted changes are cut to their accepted hunks against the disk of the moment and applied in proposal order, stopping where the first one raises |
| `HunkSelection.CutIsPromised` | agentic-workspace-chat/backend/app/main.py:196-199 | on the text it was reviewed against a change is always cut, and to the promised text if and only if its last hunk is rejected or ends cleanly |
| `HunkSelection.SelectionEndsAsPromised` | agentic-workspace-chat/backend/app/main.py:194-200 | for every proposal, accepted subset and hunk selection: the route leaves exactly the promised texts if and only if no temporary name does harm and every cut diff is clean |
| `HunkSelection.SessionIsProposed` | agentic-workspace-chat/backend/app/tools.py:269-275 | whatever subset of a session's proposals is picked is such a proposal |
| `HunkSelection.SessionEndsAsWanted` | agentic-workspace-chat/backend/app/main.py:194-200 | from any session to the disk, with no mention of what a change is labelled: every accepted path with disk text, overlay text and a hunk set ends as the disk text with the accepted ranges spliced in, every other accepted path as shown, every other path as before, if and only if no temporary name does harm and what is cut is clean |
| `HunkSelection.WholeDiffIsDiff` | agentic-workspace-chat/backend/app/workspace.py:74-81 | there is such a diff between any two texts |
| `ContextBatches.BuildBatches` | repo-agent/backend/app/context/batch_builder.py:23-41 | the loop returns the greedy division of the ranked files, in fresh batches whose token counts are right |
| `ContextBatches.PlaceFile` | repo-agent/backend/app/context/batch_builder.py:27-38 | a file joins the open batch unless that has files and a cap would be passed, when it starts a new one |
| `ContextBatches.GreedyDivides` | repo-agent/backend/app/context/batch_builder.py:26-41 | the batches concatenate to the input and each keeps to the caps or holds a single file |
| `ContextBatches.GreedyWithinCaps` | repo-agent/backend/app/context/batch_builder.py:32-38 | no batch is empty, and only a single file may exceed a cap |
| `ContextBatches.StaysAhead` | repo-agent/backend/app/context/batch_builder.py:26-38 | at every file, greedy has closed no more batches than any other division, up to the one it has open |
| `ContextBatches.GreedyIsOptimal` | repo-agent/backend/app/context/batch_builder.py:23-41 | no order-preserving division within the caps has fewer batches |
| `JsonDocument.ExtractFirst` | api-agent/worktop/api_agent/app/llm/worktop_model_client_adapter.py:89-115 | returns the shortest slice from the first opener at which the scan's stack empties, and otherwise raises the error that fits |
| `JsonDocument.PrintedCloses` | api-agent/worktop/api_agent/app/llm/worktop_model_client_adapter.py:97-114 | every printed object or array, however nested and escaped, empties the stack at its last character and not before |
| `JsonDocument.RunText` | api-agent/worktop/api_agent/app/llm/worktop_model_client_adapter.py:99-108 | a printed string with any escapes leaves the stack as it was |
| `JsonDocument.DocumentUnique` | api-agent/worktop/api_agent/app/llm/worktop_model_client_adapter.py:90-114 | a text holds at most one extractable document |
| `JsonDocument.EndsWithCloser` | api-agent/worktop/api_agent/app/llm/worktop_model_client_adapter.py:97-114 | in any text, well formed or not, a document found ends with the closer of its opener |
| `JsonDocument.FindsPrinted` | api-agent/worktop/api_agent/app/llm/worktop_model_client_adapter.py:90-114 | in prefix, printed document and suffix, the document is the one found if and only if the prefix holds no opener |
| `JsonDocument.ExtractsPrinted` | api-agent/worktop/api_agent/app/llm/worktop_model_client_adapter.py:89-115 | so extraction returns exactly the printed document after any prefix without an opener and before any suffix |
| `RunEvents.EventBus.Publish` | repo-agent/backend/app/streaming/event_bus.py:32-49 | numbers, stores, fans out and marks terminal, for this run only; a number already stored is ignored by the store |
| `RunEvents.EventBus.FanOut` | repo-agent/backend/app/streaming/event_bus.py:43-44 | every waiting queue gets the event once, whatever order the set is walked in |
| `RunEvents.EventBus.Subscribe` | repo-agent/backend/app/streaming/event_bus.py:54-57 | adds one empty queue to this run and touches no other run |
| `RunEvents.EventBus.Unsubscribe` | repo-agent/backend/app/streaming/event_bus.py:59-60 | removes only that queue |
| `RunEvents.EventBus.ReplayAfter` | repo-agent/backend/app/streaming/event_bus.py:62-68 | raises the counter to the last stored number and returns the rows after the given one |
| `RunEvents.EventStream.StartReplay` | repo-agent/backend/app/streaming/sse_manager.py:31 | reads the missed rows once, before anything is yielded |
| `RunEvents.EventStream.YieldReplayed` | repo-agent/backend/app/streaming/sse_manager.py:31-38 | yields the next row and ends the stream at a terminal one |
| `RunEvents.EventStream.GoLive` | repo-agent/backend/app/streaming/sse_manager.py:41 | subscribes only once every row has been yielded |
| `RunEvents.EventStream.YieldLive` | repo-agent/backend/app/streaming/sse_manager.py:45-55 | yields the oldest queued event, ending and unsubscribing at a terminal one |
| `RunEvents.EventStream.YieldIdle` | repo-agent/backend/app/streaming/sse_manager.py:46-47 | a heartbeat carries the current counter and suspends the stream |
| `RunEvents.EventStream.ResumeIdle` | repo-agent/backend/app/streaming/sse_manager.py:48-50 | only when it resumes does the stream look whether the run has ended, and then it ends over whatever is queued |
| `RunEventProofs.ActKeeps` | repo-agent/backend/app/streaming/sse_manager.py:29-55 | every action of any stream, publisher or restart keeps the invariant that ties log, counter, queues and sent frames |
| `RunEventProofs.InvAlways` | repo-agent/backend/app/streaming/event_bus.py:32-68 | so it holds in every interleaving |
| `RunEventProofs.LogIsNumbered` | repo-agent/backend/app/streaming/event_bus.py:34-40 | in every reachable state the log is numbered exactly 1..n |
| `RunEventProofs.LogIsComplete` | repo-agent/backend/app/streaming/event_bus.py:32-49 | within one process lifetime the log is exactly what was published, in order |
| `RunEventProofs.StreamIsIncreasing` | repo-agent/backend/app/streaming/sse_manager.py:29-55 | what any stream delivers is a strictly increasing subsequence of the log: rows of its replay read above the starting number, then events published since it joined, whatever that number is |
| `RunEventProofs.NothingTwice` | repo-agent/backend/app/streaming/sse_manager.py:31-45 | nothing at or below the starting number is delivered unless that lies beyond the log the stream joined, and nothing ever from between replay read and subscribe |
| `RunEventProofs.StartBeyondLog` | repo-agent/backend/app/streaming/sse_manager.py:41-51 | a stream asked to start beyond the end of the log delivers the next event published, below its starting number |
| `RunEventProofs.StreamStopsAtTerminal` | repo-agent/backend/app/streaming/sse_manager.py:37-53 | a terminal event is the last a stream delivers |
| `RunEventProofs.EndsOnlyTold` | repo-agent/backend/app/streaming/sse_manager.py:37-53 | and it stops nowhere else: a stream nothing cut off ended with a terminal event or at the check after a heartbeat |
| `RunEventProofs.TerminalIff` | repo-agent/backend/app/streaming/event_bus.py:46-52 | in every interleaving the run counts as ended if and only if a terminal event was published since the last restart |
| `RunEventProofs.CheckedAfterEnd` | repo-agent/backend/app/streaming/sse_manager.py:46-50 | a stream that ended at the check did so, in that very step, after a terminal event of that process lifetime |
| `RunEventProofs.BeatGoesOn` | repo-agent/backend/app/streaming/sse_manager.py:46-51 | with none published, a stream that sent a heartbeat goes on live with its queue as it was, and delivers the next event published after what is queued |
| `RunEventProofs.LiveStreamIsGapFree` | repo-agent/backend/app/streaming/sse_manager.py:31-41 | a subscribed stream has delivered or queued the whole tail after its starting number, or after the end of its replay read if that comes first, if and only if nothing was published between its replay read and its subscribe |
| `RunEventProofs.ClosedStreamIsComplete` | repo-agent/backend/app/streaming/sse_manager.py:29-55 | a stream that ended by itself has delivered all of the log it was given if and only if nothing was published in that window and it had nothing left to send when it ended |
| `RunEventProofs.CheckLeavesTheEnd` | repo-agent/backend/app/streaming/sse_manager.py:46-50 | a stream that ends at the check after a heartbeat has sent no terminal event, and leaves each one it was to send unsent |
| `RunEventProofs.EndPublishedAtCheckIsLost` | repo-agent/backend/app/streaming/sse_manager.py:47-49 | from any reachable state, a terminal event published between a heartbeat and that check is never delivered by that stream |
| `RunEventProofs.CheckLosesCompletion` | repo-agent/backend/app/streaming/sse_manager.py:47-49 | the smallest case, from the empty log: the stream ends without having delivered the completion |
| `RunEventProofs.StreamIsGapFree` | repo-agent/backend/app/streaming/sse_manager.py:31-51 | with no such publish, what was delivered at any time is a contiguous stretch of the log, and no heartbeat runs ahead of it if and only if none was sent over a waiting event |
| `RunEventProofs.ReplayRestoresCounter` | repo-agent/backend/app/streaming/event_bus.py:62-68 | a replay read makes the next publish stored; without one a publish is stored if and only if the counter is already at the last stored number |
| `RunEventProofs.PublishLostAfterRestart` | repo-agent/backend/app/streaming/event_bus.py:34-40 | an event published right after a restart is dropped if and only if anything had been stored before |
| `RunClient.Client.HandleEvent` | repo-agent/preview/app.js:146-188 | an event whose number is not above the last seen has no effect; any other is reduced into the page state |
| `RunClient.ReduceKeepsSequence` | repo-agent/preview/app.js:151-187 | no case of the switch moves the last seen number |
| `RunClient.ConnectionFolds` | repo-agent/preview/app.js:146-149 | over one gap-free connection from no further than the last seen number, the page stays the fold of the log up to what it has seen, so replayed events do nothing |
| `RunClient.PageFoldsLog` | repo-agent/preview/app.js:201-214 | over any disconnects and reconnects of such connections the page is one fold of the log prefix up to its last number |
| `RunClient.PageIsOneFold` | repo-agent/preview/app.js:146-188 | the same with the page's own reducer |
| `PageContent.BatchesAreShown` | repo-agent/preview/app.js:126-139 | over any events the page holds one batch for each id started, in the order of first starts, each with exactly the texts streamed for it since, in order |
| `PageContent.CountersAreShown` | repo-agent/preview/app.js:158-163 | a counter is what the last completion that names it says, and the tool counter has since grown by one for each tool call that ended |
| `PageContent.ProgressIsShown` | repo-agent/preview/app.js:151-187 | plan, results, stage and banner are those of the last event that sets them, and the page has finished exactly when the run's end was told |
| `PageContent.ActionsAreShown` | repo-agent/preview/app.js:151-187 | the list of actions is the last eight things said, newest first |
| `PageContent.PageShowsLog` | repo-agent/preview/app.js:146-214 | over any reconnections that are gap-free, the page shows all this of the log prefix up to its last number |
| `RunClient.PageFoldsCounted` | repo-agent/preview/app.js:146-214 | over any connections of any streams, with any gaps, the page is one fold of the events received before any frame with as high a number |
| `RunClient.CountedIff` | repo-agent/preview/app.js:147-149 | an event counts if and only if it is received at a number above every one before it |
| `RunClient.LostForGood` | repo-agent/preview/app.js:147-149 | an event whose number the page has passed without counting it never counts on any later connection |
| `RunClient.WindowEventIsLost` | repo-agent/backend/app/streaming/sse_manager.py:31-41 | so it is with an event published between replay read and subscribe, once a later number is received |
| `RunClient.DroppedIff` | repo-agent/preview/app.js:147-149 | over any connection of any stream, an event the page has not seen is dropped if and only if an earlier heartbeat of that connection carries its number or a higher one |
| `RunClient.HurriedFramesAreSent` | repo-agent/backend/app/streaming/sse_manager.py:45-51 | such frames are sent: an interleaving from the empty log in which a heartbeat overtakes a queued event |
| `RunClient.HurriedHeartbeatLosesEvent` | repo-agent/preview/app.js:147-149 | the page that receives them never counts the event, though the log holds it |
| `RunLifecycle.AgentOrchestrator.Run` | repo-agent/backend/app/agents/orchestrator.py:62-186 | the imperative run performs exactly the status, event and decision effects its setting prescribes |
| `RunLifecycle.AgentOrchestrator.ExecuteTool` | repo-agent/backend/app/agents/orchestrator.py:189-225 | a tool call that raises is announced and never completed; one that returns is observed and then completed or failed |
| `RunLifecycle.AgentOrchestrator.RunValidation` | repo-agent/backend/app/agents/orchestrator.py:227-239 | a validation that raises is started and not completed, and the run is not set back to running |
| `RunLifecycle.AgentOrchestrator.DecideAndAct` | repo-agent/backend/app/agents/orchestrator.py:122-154 | the loop leaves, fails by decision or lets an exception through as its decisions and tools do; when it does which is in RunOutcomes.LoopEnds |
| `RunLifecycle.LoopKeeps` | repo-agent/backend/app/agents/orchestrator.py:126-154 | however decisions fall, the loop asks at most once per iteration left and ends nothing |
| `RunLifecycle.RunEndsOnce` | repo-agent/backend/app/agents/orchestrator.py:126-186 | every uncancelled run makes at most max(1, max iterations) decisions and ends in a terminal status with exactly one terminal event, published last; a completed agent run with validation on has completed one |
| `RunOutcomes.LoopEnds` | repo-agent/backend/app/agents/orchestrator.py:122-154 | the loop is left if and only if the first turn that does not go on, if any, decides to answer, with the results of the validations up to it |
| `RunOutcomes.RunCompletesIff` | repo-agent/backend/app/agents/orchestrator.py:68-186 | a run ends completed if and only if setup, every turn it reaches, the validation it owes and the answer come back and no decision it reaches gives up; otherwise it ends failed |
| `RunOutcomes.RunTells` | repo-agent/backend/app/agents/orchestrator.py:68-239 | the events of a run are exactly its story: started, compacted, planned; per turn what its tool call or validation came to, as far as it got; the validation owed; the end |
| `RunOutcomes.RunIsStaged` | repo-agent/backend/app/agents/orchestrator.py:107-245 | decisions, tool calls and plan updates happen while the stored status is running, validations while it is validating, and the end is stored before it is told |
| `RunService.Service.CancelRequest` | repo-agent/backend/app/agents/run_service.py:94-104 | cancel does nothing to an ended run, and otherwise stops the task and ends the run |
| `RunService.Service.OnTaskDone` | repo-agent/backend/app/agents/run_service.py:79-91 | the callback ends a run as failed only when its task crashed and it had not ended |
| `RunService.InvAlways` | repo-agent/backend/app/agents/run_service.py:74-104 | in every interleaving of the task, cancel, the callback and their publishes, status, events and pending publishes agree |
| `RunService.TerminalIsAbsorbing` | repo-agent/backend/app/agents/run_service.py:79-104 | a terminal status is never left |
| `RunService.OneTerminalEvent` | repo-agent/backend/app/agents/run_service.py:79-104 | at most one terminal event is ever published, it is the last event, and it tells the status the run has |
| `RunService.SettledRunHasEnded` | repo-agent/backend/app/agents/run_service.py:74-91 | without a crash, a run whose task is done and whose publishes are made has ended and said so |
| `RunService.RunIsToldOnce` | repo-agent/backend/app/agents/run_service.py:74-104 | with what the orchestrator does as the task: a terminal status stays, and a terminal event is the last published and tells that status |
| `RunSettlement.CancelledIff` | repo-agent/backend/app/agents/run_service.py:94-104 | at any time of any interleaving, a run stands cancelled if and only if a cancel came before it had ended |
| `RunSettlement.SettledOutcome` | repo-agent/backend/app/agents/run_service.py:74-104 | a settled run is cancelled if and only if a cancel came in time, failed if without one its task crashed before the end, and otherwise as its task left it; its end is told if and only if the task did not crash between storing and telling it |
| `RunSettlement.CrashIsTold` | repo-agent/backend/app/agents/run_service.py:85-91 | a run that crashed before it had ended and was not cancelled ends failed and says so |
| `RunSettlement.RunIsSettled` | repo-agent/backend/app/agents/run_service.py:74-104 | the same with the orchestrator's run as the task, in terms of its collaborators |
| `RunService.Service.WatchdogTick` | repo-agent/backend/app/agents/run_service.py:118-132 | a tick fails a run in one of the active statuses and leaves its task alone |
| `RunService.FailedCanChangeIff` | repo-agent/backend/app/agents/run_service.py:118-132 | a run that stands failed can leave that status if and only if its task is running and has yet to set another one |
| `RunService.WatchdogIsOverwritten` | repo-agent/backend/app/agents/run_service.py:118-132 | wherever a tick catches a launched run with its task going on, that is exactly when its status can change; a run that completes can then end completed and published both as failed and as completed |
| `RunService.WatchdogOverwritten` | repo-agent/backend/app/agents/run_service.py:118-132 | it happens: a tick right after the launch of a run that answers at once |
| `PlanProgress.ExecutionPlan.Advance` | repo-agent/backend/app/agents/planner.py:24-38 | the in-place update finishes the current step, starts the first incomplete one and counts a revision |
| `PlanProgress.OpenIsExact` | repo-agent/backend/app/models/plan.py:32-36 | the open places are exactly the pending and in-progress steps |
| `PlanProgress.FirstIsOpenHead` | repo-agent/backend/app/models/plan.py:32-36 | the first incomplete step heads the open ones |
| `PlanProgress.AdvanceOne` | repo-agent/backend/app/agents/planner.py:24-38 | for any plan, one advance finishes exactly the first incomplete step, starts the next and touches no other, if and only if the current id finds that step, or nothing is left and nothing is rewritten |
| `PlanProgress.StaysOnTrack` | repo-agent/backend/app/agents/planner.py:24-38 | over any advances the current step stays the first incomplete one and at most that one is in progress |
| `PlanProgress.AdvanceMany` | repo-agent/backend/app/agents/planner.py:24-38 | k advances finish the first min(k, m) of m incomplete steps in order, each with its own clipped observation, start the next, leave all else and add k to the revision |
| `PlanProgress.DistinctIdsAdvance` | repo-agent/backend/app/agents/planner.py:24-38 | both hold of any plan with distinct ids at its first incomplete step |
| `PlanProgress.FirstAdvanceStarts` | repo-agent/backend/app/agents/planner.py:25-34 | a plan without a current step spends its first advance on starting one |
| `PlanProgress.PlanFinishesIff` | repo-agent/backend/app/agents/planner.py:24-38 | a plan at its first incomplete step gets through all of them, in as many advances, if and only if the id of each one finds it |
| `PlanProgress.SharedIdStalls` | repo-agent/backend/app/models/plan.py:29-30 | an incomplete step whose id is empty or an earlier step's is never finished, over any advances |
| `PlanProgress.StallsForever` | repo-agent/backend/app/agents/planner.py:25-37 | once such a step is the current one, every advance leaves all open steps open, rewrites the step its id finds and counts a revision |
| `PlanProgress.TwoUnderOneId` | repo-agent/backend/app/models/plan.py:29-30 | the smallest such plan, over any advances |
| `RunChanges.ChangeManager.RecordFromTool` | repo-agent/backend/app/changes/change_manager.py:23-39 | a reported change is appended to the run's list and its before-content replaces any kept for the path |
| `RunChanges.ChangeManager.Revert` | repo-agent/backend/app/changes/change_manager.py:41-55 | the loop undoes the recorded changes newest first and returns the paths it touched |
| `RunChanges.RevertReports` | repo-agent/backend/app/changes/change_manager.py:41-55 | a path is returned if and only if a kept content was put back under it or it was there and taken away; any other is left alone |
| `RunChanges.ReportsAreTrue` | repo-agent/backend/app/tools/implementations/write_tools.py:36-118 | over any tool calls, each report was made over the files as the reports before it had left them |
| `RunChanges.RunIsTruthful` | repo-agent/backend/app/tools/implementations/write_tools.py:36-118 | where no file moves, the first report of a path tells how it stood before the run, and an unreported path stands as it did |
| `RunChanges.UntouchedStands` | repo-agent/backend/app/tools/implementations/write_tools.py:98-110 | a path no report names stands as it did before the run, unless a move took it away |
| `RunChanges.ContentIsLast` | repo-agent/backend/app/changes/change_manager.py:38 | what is kept for a path is the before-content of its last report |
| `RunChanges.RevertUndoesRun` | repo-agent/backend/app/changes/change_manager.py:41-55 | over any writes, moves among them, revert gives back the files before the run if and only if every path is recoverable: unreported and not moved away, or new and first created, or last found as it stood before the run |
| `RunChanges.RecoverableWithoutMoves` | repo-agent/backend/app/changes/change_manager.py:44-54 | where no file moves, a path is recoverable if and only if no report names it, its first report created it, or its last report found what its first one found |
| `RunChanges.TouchedOnceIsRestorable` | repo-agent/backend/app/changes/change_manager.py:44-54 | a path touched once is restored |
| `RunChanges.SecondEditIsKept` | repo-agent/backend/app/changes/change_manager.py:38 | two edits to one file: revert leaves the first |
| `RunChanges.MoveToNewName` | repo-agent/backend/app/changes/change_manager.py:47-54 | a file moved to a free name is taken away again if and only if the last report of that name created it |
| `RunChanges.MoveLeavesCopy` | repo-agent/backend/app/changes/change_manager.py:47-54 | a file edited and then moved: revert writes the old content back to the old name and leaves the edited file under the new one |
| `RunChanges.RevertedAfterRestart` | repo-agent/backend/app/changes/change_manager.py:20-55 | with the kept contents gone, revert removes what some report created and does nothing else |
| `RunChanges.RestartRevertIff` | repo-agent/backend/app/changes/change_manager.py:20-55 | it then restores the files before the run if and only if each created path was new and every other already stands as it did |
| `JobLifecycle.GenerationJob.Abort` | api-agent/worktop/api_agent/app/task_managers/api_test_generation_task_manager.py:106-118 | an ended job is left alone; any other is flagged and set to aborting |
| `JobLifecycle.GenerationJob.Start` | api-agent/worktop/api_agent/app/task_managers/api_test_generation_task_manager.py:217-224 | a starting worker sets the job running, over an abort that came first, and keeps its flag |
| `JobLifecycle.GenerationJob.End` | api-agent/worktop/api_agent/app/task_managers/api_test_generation_task_manager.py:226-251 | the three terminal sections; only the aborted one sets the flag |
| `JobLifecycle.NextKeepsInv` | api-agent/worktop/api_agent/app/task_managers/api_test_generation_task_manager.py:106-118 | every lock section and publish step keeps the agreement of status, flag, worker and events |
| `JobLifecycle.InvAlways` | api-agent/worktop/api_agent/app/task_managers/api_test_generation_task_manager.py:205-251 | so it holds in every interleaving of abort calls with the worker |
| `JobLifecycle.OutcomeStays` | api-agent/worktop/api_agent/app/task_managers/api_test_generation_task_manager.py:205-251 | a terminal status never changes and an abort request is never cleared |
| `JobLifecycle.EndsOnce` | api-agent/worktop/api_agent/app/task_managers/api_test_generation_task_manager.py:205-267 | in any interleaving from creation a terminal status is written at most once, and a worker that is done has written it and published it exactly once |
| `JobOutcomes.EndedOutcome` | api-agent/worktop/api_agent/app/task_managers/api_test_generation_task_manager.py:205-251 | over every interleaving, an ended job is aborted if and only if its worker came to a check after an abort call, failed if and only if its work raised, and completed otherwise |
| `JobOutcomes.OpenStatus` | api-agent/worktop/api_agent/app/task_managers/api_test_generation_task_manager.py:106-118 | until then it is aborting exactly when an abort call has landed since its worker started, or before if it has not, and its flag is set exactly when one was made at all |
| `JobOutcomes.AbortIsObeyed` | api-agent/worktop/api_agent/app/services/generation_orchestrator.py:263-265 | when nothing raises, an abort requested with a check ahead of the worker ends the job aborted |
| `JobOutcomes.DoneHasPublished` | api-agent/worktop/api_agent/app/task_managers/api_test_generation_task_manager.py:253-267 | besides announcements of abort calls, a job at rest has published events of its program in order and then its end; all of them if it completed |
| `JobOutcomes.PathsEnd` | api-agent/worktop/api_agent/app/services/generation_orchestrator.py:45-232 | both paths end and publish so |
| `JobLifecycle.AbortIsHeeded` | api-agent/worktop/api_agent/app/services/generation_orchestrator.py:263-265 | an abort that lands before the last check on the worker's path never ends completed |
| `JobLifecycle.AbortedCanCompleteIff` | api-agent/worktop/api_agent/app/services/generation_orchestrator.py:263-265 | once an abort is requested, in whatever state the worker is, the job can still complete if and only if no check is ahead of the worker or seen by it |
| `JobLifecycle.LastChecks` | api-agent/worktop/api_agent/app/services/generation_orchestrator.py:45-232 | where the last check is: scenario generation, planning before an approval, and the publishing of generated tests all come after it |
| `JobLifecycle.PathsArePlain` | api-agent/worktop/api_agent/app/services/generation_orchestrator.py:45-232 | neither path publishes a terminal event of its own |
| `JobLifecycle.StageSettles` | api-agent/worktop/api_agent/app/task_managers/api_test_generation_task_manager.py:253-267 | with no abort call on its way out as the worker ends the job, the stage comes to rest as the status |
| `JobLifecycle.MislabelledIff` | api-agent/worktop/api_agent/app/task_managers/api_test_generation_task_manager.py:116-117 | once the worker has ended the job, it can come to rest under a stage that is not its status's if and only if an abort call is still on its way out or it already has |
| `JobLifecycle.LateAbortMislabels` | api-agent/worktop/api_agent/app/task_managers/api_test_generation_task_manager.py:116-117 | from any point past the last check, an abort can label a completed job as aborting for good |
| `ScenarioValue.Assess` | api-agent/worktop/api_agent/app/services/scenario_value_service.py:122-160 | the two loops find the best overlap, existing tests first, keeping the first of equals |
| `ScenarioValue.Evaluate` | api-agent/worktop/api_agent/app/services/scenario_value_service.py:40-73 | each scenario is assessed against existing tests and all earlier scenarios; approval is required exactly when one is a full duplicate |
| `ScenarioValue.Consolidate` | api-agent/worktop/api_agent/app/services/scenario_value_service.py:75-99 | for any report, a scenario is dropped exactly when the last assessment under its id is a full duplicate, and order is kept |
| `ScenarioValue.ConsolidateUnscored` | api-agent/worktop/api_agent/app/services/scenario_value_service.py:82-99 | evaluating and consolidating distinct scenarios leaves nothing that overlaps an earlier one or an existing test by 0.85, and accounts for every scenario |
| `ScenarioValue.BestIsFirst` | api-agent/worktop/api_agent/app/services/scenario_value_service.py:129-143 | the match named is the first candidate to reach the best overlap, and none when nothing overlaps |
| `ScenarioValue.JaccardIs` | api-agent/worktop/api_agent/app/services/scenario_value_service.py:222-225 | overlap is symmetric, at most one, one exactly between equal sets, zero exactly between sets that share nothing, and is the share of the common signals in all of them |
| `ScenarioValue.VerdictByRivals` | api-agent/worktop/api_agent/app/services/scenario_value_service.py:162-171 | each verdict, by whether some rival overlaps by 0.85, 0.55 or 0.25: exactly one holds |
| `ScenarioValue.FullDuplicateIff` | api-agent/worktop/api_agent/app/services/scenario_value_service.py:162-171 | a scenario is a full duplicate exactly when it asserts something and overlaps an existing test or any earlier scenario by 0.85 |
| `ScenarioValue.DropsByLast` | api-agent/worktop/api_agent/app/services/scenario_value_service.py:84-92 | for any list, a scenario is dropped exactly when the last one under its id asserts something and overlaps an existing test or an earlier scenario, itself kept or not, by 0.85 |
| `ScenarioValue.DropsIff` | api-agent/worktop/api_agent/app/services/scenario_value_service.py:84-92 | it is judged by its own overlap if and only if that last one gets the same verdict; among distinct ids it is that one |
| `ScenarioValue.KeptNoOverlapIff` | api-agent/worktop/api_agent/app/services/scenario_value_service.py:75-99 | for any list, nothing overlaps among what is kept if and only if every duplicate spared by a later scenario of its id had rivals only among what is dropped |
| `ScenarioValue.KeptWholeIff` | api-agent/worktop/api_agent/app/services/scenario_value_service.py:75-99 | a list is kept whole if and only if no duplicate in it is the last of its id |
| `ScenarioValue.KeptNoOverlap` | api-agent/worktop/api_agent/app/services/scenario_value_service.py:75-99 | what is kept of distinct scenarios is an order-preserving list in which no scenario with assertions overlaps an earlier kept one or an existing test by 0.85 |
| `ScenarioValue.NoOverlapIsKept` | api-agent/worktop/api_agent/app/services/scenario_value_service.py:75-99 | among distinct ids, a list in which nothing overlaps is kept whole |
| `ScenarioValue.ConsolidateIdempotent` | api-agent/worktop/api_agent/app/services/scenario_value_service.py:75-99 | consolidating again changes nothing |
| `ScenarioValue.KeptOrDropped` | api-agent/worktop/api_agent/app/services/scenario_value_service.py:85-92 | every scenario is kept once or accounted for by one dropped assessment |
| `ScenarioValue.JaccardSelf` | api-agent/worktop/api_agent/app/services/scenario_value_service.py:222-225 | a scenario overlaps itself fully |
| `ScenarioValue.RepeatedIdDropsBoth` | api-agent/worktop/api_agent/app/services/scenario_value_service.py:84-92 | a scenario that asserts something, repeated under its own id, is lost altogether |
| `ScenarioValue.NamesakeDecides` | api-agent/worktop/api_agent/app/services/scenario_value_service.py:84-92 | a duplicate of an existing test is kept when a later novel scenario carries its id, and the novel one is lost in the other order |
| `ScenarioValue.DuplicateIsKept` | api-agent/worktop/api_agent/app/services/scenario_value_service.py:84-92 | the smallest such pair |
| `ConverseHistory.ToConverseHistory` | agentic-workspace-chat/backend/app/agent_context.py:8-37 | the filter, the budget loop from the end, the merging loop and the dropped leading assistant compute the specified history for any limit and budget |
| `ConverseHistory.KeepWithin` | agentic-workspace-chat/backend/app/agent_context.py:20-28 | the budget loop keeps the turns from the specified place on |
| `ConverseHistory.KeptIsMaximal` | agentic-workspace-chat/backend/app/agent_context.py:20-28 | the kept turns are the longest run of recent ones, ending with the newest, whose truncated texts fit the budget together |
| `ConverseHistory.RecentWithinLimit` | agentic-workspace-chat/backend/app/agent_context.py:16-19 | a positive limit bounds the turns considered; a limit of zero considers every message |
| `ConverseHistory.RecentTells` | agentic-workspace-chat/backend/app/agent_context.py:16-24 | the turns considered are, in order, exactly the messages within the limit that say something, each under its own role and cut to the budget |
| `ConverseHistory.HistoryIsGrouped` | agentic-workspace-chat/backend/app/agent_context.py:29-37 | the history is the kept turns less any assistant turns in front, each run of one role joined by blank lines |
| `ConverseHistory.HistoryAlternates` | agentic-workspace-chat/backend/app/agent_context.py:29-37 | it opens with the user and strictly alternates, for any messages, limit and budget |
| `ConverseHistory.HistoryLength` | agentic-workspace-chat/backend/app/agent_context.py:30-34 | nothing is added to the kept text but two characters for each merge |
| `ConverseHistory.PromptAlternatesIff` | agentic-workspace-chat/backend/app/bedrock.py:70-73 | appending the prompt keeps the alternation if and only if the history is empty or ends with the assistant |
| `MarkdownFences.MarkdownStreamState.Observe` | repo-agent/backend/app/streaming/response_batcher.py:25-34 | observing a text flips the state exactly when it has an odd number of fence lines |
| `MarkdownFences.MarkdownStreamState.ClosingIfNeeded` | repo-agent/backend/app/streaming/response_batcher.py:36-37 | a closing fence is due exactly inside one |
| `MarkdownFences.FencesAcross` | repo-agent/backend/app/streaming/response_batcher.py:25-34 | fences of two texts add up to those of the whole, modulo two, except where the boundary tears a line |
| `MarkdownFences.WholeLinesNotTorn` | repo-agent/backend/app/streaming/response_batcher.py:26-28 | a boundary after a line end tears nothing |
| `MarkdownFences.ClosingIsOneFence` | repo-agent/backend/app/streaming/response_batcher.py:36-37 | the closing text is one fence and ends whatever line it follows |
| `ResponseBatches.ResponseBatch.StreamSection` | repo-agent/backend/app/streaming/response_batcher.py:45-82 | for any chunking the saved markdown is the published deltas end to end, numbered 1..k, between a start and an end |
| `ResponseBatches.SavedIsClosedIff` | repo-agent/backend/app/streaming/response_batcher.py:69-78 | a saved batch has an even number of fence lines if and only if an even number of delta boundaries tear a line |
| `ResponseBatches.LineDeltasClose` | repo-agent/backend/app/streaming/response_batcher.py:57-78 | when every delta but the last ends a line, the state is the parity of fence lines of the whole text however it is chunked, and the saved batch is closed |
| `ResponseBatches.TornFence` | repo-agent/backend/app/streaming/response_batcher.py:26-28 | a boundary inside a line opens a fence the text does not have |
| `ToolLoop.Run` | agentic-workspace-chat/backend/app/bedrock.py:76-140 | whatever the model, the tools and the caller do: each call was within the budget the plan of the moment allowed, continuations stay within theirs, and the messages keep the protocol to the end; each call sees the plan that the replies before it made, and the run stops at the first poll that finds the cancel event set |
| `ToolLoop.Turn` | agentic-workspace-chat/backend/app/bedrock.py:109-138 | one reply and its follow-up keep the protocol and the continuation limit |
| `ToolLoop.FollowUp` | agentic-workspace-chat/backend/app/bedrock.py:112-138 | what follows a reply is its tool results, a continuation, a repair or the end, each only when due |
| `ToolLoop.RunTools` | agentic-workspace-chat/backend/app/bedrock.py:131-138 | every use is executed and answered in order unless cancelled between two; a valid plan update replaces the plan and an invalid one leaves it |
| `ToolLoop.TurnsAlternate` | agentic-workspace-chat/backend/app/bedrock.py:73-138 | from the prompt on, user and model take turns |
| `ToolLoop.UsesAnswered` | agentic-workspace-chat/backend/app/bedrock.py:131-138 | every reply that asks for tools and is not last is answered at once, each use exactly once, in order |
| `ToolLoop.PlanIsLastUpdate` | agentic-workspace-chat/backend/app/tools.py:203-216 | at each call the plan is the last accepted update before it, or the one resumed: none is lost and a refused one changes nothing |
| `ToolLoop.CallsBounded` | agentic-workspace-chat/backend/app/bedrock.py:81-82 | however the plan appears or empties, calls stay within the larger limit, and within the plain one while there is never a plan |
| `GenerationBudget.GenerationBudget.EnforceLimit` | api-agent/worktop/api_agent/app/governance/generation_budget.py:87-93 | the clock is checked first, then the counter; the first to fail in strict mode raises |
| `GenerationBudget.GenerationBudget.CheckClock` | api-agent/worktop/api_agent/app/governance/generation_budget.py:95-102 | a late reading escalates |
| `GenerationBudget.GenerationBudget.Escalate` | api-agent/worktop/api_agent/app/governance/generation_budget.py:104-117 | a reason is recorded once, and raises in strict mode only |
| `GenerationBudget.GenerationBudget.ChargeLlmCall` | api-agent/worktop/api_agent/app/governance/generation_budget.py:50-57 | usage is charged before either check, negative lengths counting as zero |
| `GenerationBudget.GenerationBudget.ChargeToolCall` | api-agent/worktop/api_agent/app/governance/generation_budget.py:59-61 | charged, then checked |
| `GenerationBudget.GenerationBudget.ChargeRepositoryRead` | api-agent/worktop/api_agent/app/governance/generation_budget.py:63-69 | charged, then checked |
| `GenerationBudget.GenerationBudget.ChargeRepairAttempt` | api-agent/worktop/api_agent/app/governance/generation_budget.py:71-73 | charged, and only the clock checked |
| `GenerationBudget.BudgetedLLMClient.Complete` | api-agent/worktop/api_agent/app/governance/generation_budget.py:127-137 | a call is forwarded exactly when its charge came back, and only then is its reply counted |
| `GenerationBudget.EnforceRecords` | api-agent/worktop/api_agent/app/governance/generation_budget.py:87-117 | a check records an overrun exactly when there is one, and stops the caller only then and only in strict mode |
| `GenerationBudget.ReviewRequiredIff` | api-agent/worktop/api_agent/app/governance/generation_budget.py:75-85 | over any calls in either mode, a review is required exactly when some charged counter or some clock reading exceeds its limit |
| `GenerationBudget.ReasonsAreGiven` | api-agent/worktop/api_agent/app/governance/generation_budget.py:104-117 | over any actions in either mode, each reason recorded is recorded once and tells of a counter at a value it has come to beyond its own limit, or of a late reading |
| `GenerationBudget.ReviewSaysAll` | api-agent/worktop/api_agent/app/governance/generation_budget.py:104-117 | in review mode no value of a call, tool or read counter beyond its limit is missing from them |
| `GenerationBudget.StrictForwardsWithin` | api-agent/worktop/api_agent/app/governance/generation_budget.py:50-57 | in strict mode, over any calls and retries, forwarded calls and forwarded prompt characters never exceed their limits |
| `GenerationBudget.UsageTellsActions` | api-agent/worktop/api_agent/app/governance/generation_budget.py:50-73 | over any actions, refused or late ones included, each counter holds exactly the number or the characters of its own kind |
| `GenerationBudget.StrictPassesIff` | api-agent/worktop/api_agent/app/governance/generation_budget.py:87-117 | in strict mode an action passes if and only if its readings are in time and what it counts towards, with everything tried before, is within its limit |
| `GenerationBudget.ForwardsWhatPasses` | api-agent/worktop/api_agent/app/governance/generation_budget.py:127-137 | in either mode exactly the model calls that pass are forwarded |
| `GenerationBudget.ExhaustedStaysExhausted` | api-agent/worktop/api_agent/app/governance/generation_budget.py:50-57 | in strict mode, once the calls are used up no later call is forwarded |
| `GenerationBudget.ReviewPasses` | api-agent/worktop/api_agent/app/governance/generation_budget.py:104-117 | in review mode no charge raises |
| `GenerationBudget.ReviewForwardsAll` | api-agent/worktop/api_agent/app/governance/generation_budget.py:127-137 | in review mode every model call is forwarded |

## Left out

- Texts: the only line separator is the newline; the other separators Python's `splitlines` knows, Unicode white space, and underscores or foreign digits in `int()` are not modelled.
- Diffing: `difflib`'s matching is not modelled; a diff is any ordered hunk list that describes the two texts, deletions before additions, with a non-empty old range unless the source is empty.
- Paths: one spelling per path; resolution is a parameter, and symbolic links, directories, permissions, redaction and binary files are left out.
- HunkSelection.ApplySelected: `difflib` is any function that describes the two texts it is given; paths hold no line break.
- EditOverlay.ToolRunner.Execute: the read-only tools, the plan and command tools and the custom tool's own code are left out; what a custom tool returns is arbitrary.
- ContextBatches: batch ids, status and summary are left out; token estimates are arbitrary naturals.
- JsonDocument: parsing and validation of the extracted text are left out.
- RunEvents: SQLite, JSON encoding, locks that are never contended across an await, and the heartbeat timer (any idle moment) are replaced by the stored rows and by moves.
- RunEvents.EventStream.YieldLive: the return after a terminal event is made with its yield; by itself it only gives up the queue.
- RunClient.PageFoldsLog: takes connections whose streams had no publish between replay and subscription and no heartbeat over a waiting event; the page over any connections whatever is in PageFoldsCounted, and what they lose in ClosedStreamIsComplete, DroppedIff and LostForGood.
- RunClient: DOM rendering, the connection light, banners and the refresh of the file list are left out; a counter payload that is not a number is kept out of the counters.
- RunLifecycle.RunEndsOnce: persistence and logging do not raise, and the run is not cancelled; error codes, counters and observation texts are left out.
- RunService.SettledRunHasEnded: excludes crashes; runs with crashes are in RunSettlement.SettledOutcome.
- RunSettlement.SettledOutcome: the stale-run watchdog is kept out, as in TerminalIsAbsorbing.
- RunOutcomes.RunTells: takes collaborators that emit only sign-in events and the streamed answer; RunOutcomes.RunIsStaged also takes sign-ins that leave the run running when they succeed.
- PageContent.ActionsAreShown: takes tool payloads as the server writes them, with a flag for success and a text for the summary.
- RunService.TerminalIsAbsorbing: the stale-run watchdog is kept out of this claim, since it does not stop the task; what it allows is in WatchdogIsOverwritten. How long a run has been idle is arbitrary.
- PlanProgress: plan creation by the model, and dependencies between steps, which the code does not consult.
- RunChanges: hashes, diffs and step ids of recorded changes, and files that cannot be read as text.
- JobLifecycle: starts from a created job; enqueue deduplication, the event buffer's length limit and the services called between checks are left out, each as work that may raise; publishing does not raise.
- ScenarioValue: tokenizing and the signals read from existing tests are parameters; overlaps are exact rationals, unrounded; names and rationale texts are left out.
- ConverseHistory: which characters are blank is a parameter; a missing role or content reads as empty.
- ResponseBatches: a model that raises mid-section, and publishes that raise.
- ToolLoop: a client or tool that raises an uncaught exception ends the run and is left out; the history before the prompt is in ConverseHistory.
- GenerationBudget: the escalation reason kept last, the report's copies and log lines are left out; clock readings are arbitrary.
- HTTP routes, client construction, subprocesses, prompts, regex scanners and fallback templates.
- GenerationJobStore, coverage diffing, traceability and evidence merging, which would add easier members.
