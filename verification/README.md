# A verified model of CFR's runtime core

CFR drives a native Codex app server and a ChatGPT page on behalf of remote users. This project
models the parts of it that hold state across calls, threads and restarts, and proves what they
promise. `dafny verify dfyconfig.toml` checks the whole project.

Objects that the program updates in place are classes here, loops are loops, and each method is
proved against a specification function. Code that several threads run at once is a step machine:
a `State`, a `Step` per atomic section, `Apply`, and `Exec` over a list of steps. A step that is
not enabled changes nothing, so a statement about `Exec(INITIAL, steps)` for all `steps` is a
statement about every interleaving.

| file | what it models |
|---|---|
| `Common.dfy` | the types that several parts share |
| `Lines.dfy` | splitting bytes into lines the way `bytes.splitlines(keepends=True)` does |
| `Rollout.dfy` | `RolloutWatcher.poll`, the bounded incremental reader of a growing rollout file |
| `RolloutSchedule.dfy` | appends, polls and replacements of the file in any order |
| `RolloutDrain.dfy` | how fast polling catches up with a quiescent file, and what stops it |
| `WatchLoop.dfy` | the watch command: polling, projecting once per key, persisting the cursor, crashing |
| `WatchRuns.dfy` | what every run of the watch command keeps, and runs of undisturbed rounds |
| `WatchRestart.dfy` | exactly when a restart inside an overlong line misleads the reader and the projector |
| `WatchRecover.dfy` | exactly when a restart catches up, and that everything owed is then projected |
| `WatchInterrupt.dfy` | what an interrupt between two events of a round loses |
| `History.dfy` | `recent_rollout_messages`, the doubling tail read that collapses repeated messages |
| `Events.dfy` | the logical identity of an event |
| `ProcessTree.dfy` | the process closure that finds, and on a restart stops, the Codex Desktop |
| `ServerRequests.dfy` | answering requests of the app server exactly once, with bounded handler slots |
| `Requests.dfy` | correlating requests with responses |
| `FileChanges.dfy` | the bounded projection of changed paths, and the enrichment of approval requests |
| `Dispatch.dfy` | the fan-out of notifications to subscribers |
| `Lease.dfy` | the in-process writer state and the durable lease |
| `Ownership.dfy` | concurrent `send_message` and `update_thread_settings` calls on one thread |
| `Binding.dfy`, `BindingLaws.dfy` | one such call, in which every operation can fail, and what it leaves behind |
| `BindingWork.dfy`, `BindingUpdate.dfy` | what such a call does for its caller: a send runs its turn, an update is asked for and confirmed |
| `Settle.dfy` | waiting for an answer of the page to settle |
| `Download.dfy` | the chunked download and its publication |

Some promises hold only under a condition. Each is stated with it, and shown to fail without it:

- Schedule independence of the watcher, and everything built on it, is proved for content without
  any CR. The reader also breaks lines at a CR that no LF follows, and a window can end between CR
  and LF; with such content schedules can disagree (`RolloutSchedule.BareCarriageReturn`).
- Across crashes, nothing but the report of the file is projected if no tail of an overlong line
  that fits the window, with no line in front that makes polls raise, reads as a message, since
  only the byte offset is persisted. For every file, runs that misreport exist exactly if there is
  such a tail (`WatchRestart.MisreportsExactly`, `WatchRestart.ForeignExactly`).
- After a crash the command catches up exactly if neither a line ahead of the persisted cursor nor
  the rest of the overlong line it stands in makes polls raise (`RolloutDrain.CatchUpExactly`,
  `WatchRecover.RecoversExactly`). Either of them blocks it for good (`RolloutDrain.PoisonBlocks`,
  `WatchRecover.TailBlocksForGood`).
- An interrupt in the middle of a round persists the advanced cursor; it is harmless exactly when
  every event still pending has a key already seen, and any other pending event is lost
  (`WatchInterrupt.InterruptHarmlessExactly`, `WatchInterrupt.InterruptLoses`).
- The key of an event with a known id is unique exactly if no id and no type of it holds the
  separator, and without an id exactly if type and text do not, and the text is neither absent nor
  "None" (`Events.UniqueExactly`, `Events.UniqueWithoutIdExactly`).
- There is one writer per thread exactly if the durable lease of every running call is live at
  every grant, for which heartbeats less than its lifetime apart are enough
  (`Ownership.OneHolderExactly`, `Ownership.RegularBeatsSuffice`,
  `Ownership.LateHeartbeatsAdmitTwoWriters`).
- A settings update that the in-process lease refuses keeps the durable lease, and shuts everybody
  out as long as its heartbeat goes on (`Ownership.RefusedUpdateKeepsTheLease`,
  `Ownership.KeptLeaseShutsOut`, `BindingLaws.EveryLeaseReleased`).
- A file that replaces the one that is read is noticed if it ends before the cursor and is polled
  before it grows up to it; one of the same size is not (`RolloutSchedule.ReplacedFile`,
  `RolloutSchedule.SameSizeUnnoticed`).
- The page's text is compared by length, so an edit that keeps the length goes unnoticed, and a
  text that only grows is settled (`Settle.SameLengthEditIsMissed`, `Settle.GrowingTextIsSettled`).

## Model

| member | source | states |
|---|---|---|
| `Lines.JoinSplit` | src/cfr/codex/rollout.py:83-86 | splitting a window into lines loses no byte, which the byte count in the cursor relies on |
| `Lines.SplitAtLineStart` | src/cfr/codex/rollout.py:83-86 | data cut behind a LF splits into the lines before and the lines after the cut |
| `Rollout.RolloutWatcher.Poll` | src/cfr/codex/rollout.py:56-95 | a poll of a missing file changes nothing; any other moves the cursor and reports as the pure `PollOnce` does, whose results `PollKeepsLog`, `PollStartsOver` and `RolloutDrain.PollStops` give, also when a line raises |
| `Rollout.RolloutWatcher.ScanWindow` | src/cfr/codex/rollout.py:82-94 | the line loop stops at the first unfinished line or exception, and otherwise consumes and reports exactly the finished lines |
| `Rollout.ReadOnFromLineStart` | src/cfr/codex/rollout.py:78-95 | reading from a line start adds to the log exactly the decodable lines consumed, or enters an overlong line |
| `Rollout.ReadOnInsideOverlong` | src/cfr/codex/rollout.py:78-95 | a reader restarted inside an overlong line reports what the rest of that line reads as, if anything, and then exactly what the file owes; a line that makes the poll raise reports nothing |
| `Rollout.DiscardKeepsLog` | src/cfr/codex/rollout.py:70-81 | one poll of a reader that discards adds to the log exactly what it returns, and ends at a line start or still inside the overlong line |
| `Rollout.PollKeepsLog` | src/cfr/codex/rollout.py:56-95 | one poll of a reader at a line start or inside an overlong line, restarted or not, returns the stray event, if there is one, and then exactly the events the file owes; a reader that never restarted returns nothing stray |
| `Rollout.PollStartsOver` | src/cfr/codex/rollout.py:64-66 | a poll of a file that ends before the cursor starts over: wherever the cursor was, what is reported is exactly what is owed for the part of the file read, from its first byte |
| `RolloutSchedule.StaysInStep` | src/cfr/codex/rollout.py:56-95 | every append, every poll, and every replacement by a file that ends before the cursor and is polled before it reaches the cursor, keeps log, cursor and file in step |
| `RolloutSchedule.ScheduleIndependence` | src/cfr/codex/rollout.py:56-95 | for every interleaving of appends and polls, what was reported is the decoding, in order and once each, of the consumed lines that fit the window |
| `RolloutSchedule.ReplacedFile` | src/cfr/codex/rollout.py:64-95 | from whatever state: once a shorter file stands in the place of the old one, over every interleaving of appends and polls the log goes on with the decoding of what is consumed of the new file, from its first byte |
| `RolloutSchedule.SameSizeUnnoticed` | src/cfr/codex/rollout.py:64-69 | a file that replaces one just as long, read to its end, goes unnoticed |
| `RolloutSchedule.BareCarriageReturn` | src/cfr/codex/rollout.py:78-86 | with a CR inside a line two schedules of the same file report different events, for every window |
| `RolloutDrain.PollStops` | src/cfr/codex/rollout.py:64-95 | where a successful poll stops, in terms of the line feeds in its window |
| `RolloutDrain.FixpointExactly` | src/cfr/codex/rollout.py:64-95 | a successful poll, from any cursor in the file, leaves the watcher as it was exactly when the unread suffix has no newline and is shorter than the window, or is empty |
| `RolloutDrain.CursorInFile` | src/cfr/codex/rollout.py:64-95 | the cursor, wherever in the file it stands, moves forward and never passes the end of the file, also when a poll raises |
| `RolloutDrain.TwoPollsAdvance` | src/cfr/codex/rollout.py:64-95 | two successful polls in a row advance by a whole window while one is left to read |
| `RolloutDrain.LastPollDrains` | src/cfr/codex/rollout.py:64-95 | with less than a window unread, one successful poll reaches the fixpoint |
| `RolloutDrain.FailsOnPoison` | src/cfr/codex/rollout.py:83-91 | a poll raises only if a line in front of the cursor, or the rest of the overlong line that a restarted reader stands in, fits the window and decodes to something that is no record |
| `RolloutDrain.NeverPassesPoison` | src/cfr/codex/rollout.py:83-95 | no poll takes the cursor past a fitting line that makes polls raise, also after a restart |
| `RolloutDrain.PollsKeepLog` | src/cfr/codex/rollout.py:56-95 | over any number of polls, also after a restart, the events returned are the stray event of the first, if there is one, and then exactly those of the part of the file read |
| `RolloutDrain.LinearDrain` | src/cfr/codex/rollout.py:64-95 | if nothing ahead makes polls raise, 2k polls read k windows, until less than a window is left, also after a restart |
| `RolloutDrain.DrainedIsComplete` | src/cfr/codex/rollout.py:64-95 | a drained reader, restarted or not, leaves nothing unreported that the file owes |
| `RolloutDrain.CatchUpExactly` | src/cfr/codex/rollout.py:64-95 | after a number of polls linear in the unread bytes the watcher, restarted or not, is drained if and only if neither a line ahead nor the rest of the overlong line it stands in makes a poll raise, and then everything was reported |
| `RolloutDrain.CatchUpFromTheStart` | src/cfr/codex/rollout.py:64-95 | the same for a file that ends before the cursor: it is reported as a whole, if and only if no line of it makes polls raise |
| `RolloutDrain.PoisonBlocks` | src/cfr/codex/rollout.py:83-95 | a line that makes polls raise stops the cursor for good, whatever is appended behind it, also after a restart |
| `RolloutDrain.TailPoisonBlocks` | src/cfr/codex/rollout.py:70-95 | so does the rest of an overlong line that a restarted reader fails on: no poll moves or reports anything, whatever is appended |
| `WatchLoop.WatchCommand.ProjectEvent` | src/cfr/core/projector.py:10-13 | an event is projected exactly if its key was not seen, and is seen from then on |
| `WatchLoop.WatchCommand.WatchRound` | src/cfr/cli/main.py:290-300 | an undisturbed round is a poll, one projection per event and one persist, in that order; a poll that raises persists and projects nothing |
| `WatchLoop.NoKeyTwice` | src/cfr/core/projector.py:10-13 | no key is projected twice over any run with crashes and restarts, whatever the file and decoder |
| `WatchLoop.StrayIsTail` | src/cfr/codex/rollout.py:70-95 | a placed reader reports something stray only where the rest of an overlong line fits the window and reads as a message |
| `WatchLoop.PollStaysPlaced` | src/cfr/codex/rollout.py:64-95 | a poll leaves the cursor at a line start or inside an overlong line, with no line behind it that makes polls raise |
| `WatchLoop.RunSound` | src/cfr/cli/main.py:287-300 | every step keeps: the events handed over are a prefix of the file's report that covers the persisted cursor |
| `WatchLoop.ExactlyOnceAcrossCrashes` | src/cfr/cli/main.py:287-300 | over any run of appends, polls, crashes and restarts of a file in which no reachable tail of an overlong line reads as a message, what was projected is the report up to some event with repeated keys dropped, and the persisted cursor never passes an event that was not handed over |
| `WatchRuns.RunPlaced` | src/cfr/cli/main.py:287-300 | every run keeps the persisted and the current cursor at such places, without any hypothesis on the decoder |
| `WatchRuns.RoundsRun` | src/cfr/cli/main.py:290-300 | if nothing ahead makes polls raise, undisturbed rounds can follow each other, and hand over and persist what as many polls return |
| `WatchRestart.ReachesTail` | src/cfr/cli/main.py:287-300 | for every file that ends inside an overlong line and has no line that makes polls raise, some run reads and projects all of it and crashes there |
| `WatchRestart.OverlongTailLeaks` | src/cfr/codex/rollout.py:49-81 | restarted there, the command projects the event of the rest of the line behind everything the file owes, which does not include it |
| `WatchRestart.MisreportsExactly` | src/cfr/codex/rollout.py:49-95 | for every file: some run comes to a poll that reports what the file does not owe if and only if the rest of an overlong line, with no line in front that makes polls raise, fits the window and reads as a message |
| `WatchRestart.ForeignExactly` | src/cfr/cli/main.py:287-300 | for every file and key: some run over the file projects a key that none of its events has if and only if such a tail reads as a message with such a key |
| `WatchRecover.CompleteAfterCrash` | src/cfr/cli/main.py:287-300 | exactly once, completely: after any run, crashes included, over a file in which no reachable tail reads as a message, and with nothing ahead of the persisted cursor that makes polls raise, a restart and undisturbed rounds leave exactly the report of the file projected, in order and without repeated keys |
| `WatchRecover.RecoversExactly` | src/cfr/cli/main.py:287-300 | from every reachable state, some continuation behind a restart reads the file to its end if and only if neither a line ahead of the persisted cursor nor the rest of the line it stands in makes polls raise |
| `WatchRecover.TailBlocksForGood` | src/cfr/codex/rollout.py:49-95 | for every file that ends inside an overlong line, and every rest of that line that makes polls raise, there is a run behind which no run at all, with whatever is appended, moves the persisted cursor or projects anything, although the file owes what was appended |
| `WatchInterrupt.InterruptHarmlessExactly` | src/cfr/cli/main.py:301-302 | an interrupt inside the event loop loses no key if and only if every pending event has a key already seen |
| `WatchInterrupt.NoKeyTwiceWithInterrupts` | src/cfr/cli/main.py:287-302 | no key is projected twice over any run with crashes, restarts and interrupts |
| `WatchInterrupt.InterruptLoses` | src/cfr/cli/main.py:301-302 | whatever follows an interrupt, further interrupts included, a pending event with a key not seen before lies in front of the persisted cursor, and its key is never projected unless an event behind the cursor carries it |
| `WatchInterrupt.InterruptedRun` | src/cfr/cli/main.py:290-302 | for every line that reads as a message: appended, polled and interrupted, its event is the first the file owes and, whatever follows, is never projected unless a later event carries its key |
| `History.CollapseParts` | src/cfr/codex/rollout.py:191-205 | collapsing a dialogue is collapsing its two parts, but for a run across the cut |
| `History.CopiesCollapse` | src/cfr/codex/rollout.py:199-205 | two messages in a row are one item exactly if role and text are the same, whatever else differs |
| `History.WindowShowsEnd` | src/cfr/codex/rollout.py:191-206 | the last collapsed items of a window are those of the whole file, except that the oldest may be another copy of the same message |
| `History.WindowHoldsLastItems` | src/cfr/codex/rollout.py:176-186 | dropping the partial first line leaves exactly the last whole lines of the file |
| `History.WindowShowsWholeLines` | src/cfr/codex/rollout.py:176-186 | no message of a line that begins behind a LF in the window is left out, but for the limit |
| `History.FinishedLine` | src/cfr/codex/rollout.py:186-193 | a line written to the end of a file adds to its items what its own bytes, without the LF, decode to, and raises exactly if they do |
| `History.UnfinishedLine` | src/cfr/codex/rollout.py:186-193 | so does a line whose LF is still to come |
| `History.DialogueOfLines` | src/cfr/codex/rollout.py:184-205 | the dialogue of a file is what its lines, as they were written, decode to, collapsed; and reading all of it raises exactly if one of them does |
| `History.ScanWindow` | src/cfr/codex/rollout.py:184-205 | the loop with the bounded deque gives the last `limit` collapsed items of the window, and raises exactly if a line does |
| `History.ReadWindow` | src/cfr/codex/rollout.py:176-205 | one window shows the last collapsed items behind the partial first line, and raises exactly if a line in it does |
| `History.RecentRolloutMessages` | src/cfr/codex/rollout.py:159-208 | the result is the end of the fully scanned dialogue, short of `limit` only at the start of the file or at the budget; no message of a line that begins behind a LF in the last window is left out but for the limit; it raises if and only if a line of the last window does; the window stays within size and budget, and fewer than three times the last window is read |
| `Events.BaseDetermines` | src/cfr/core/events.py:9-10 | the joined base of an event without bars in its ids and type is that of no event with other ids or type |
| `Events.KeyIsIdentity` | src/cfr/core/events.py:8-11 | two events, one of them without bars in its ids and type, have the same key if and only if thread, turn, item and type agree, and the text too where no id is known (then both without bars, and with a digest that keeps the two apart), or they differ only in a text that is absent from one and "None" in the other |
| `Events.BarsCollide` | src/cfr/core/events.py:9-10 | every event with a known id and a bar in an id or the type has a different event with the same key |
| `Events.UniqueExactly` | src/cfr/core/events.py:8-11 | the key of an event with a known id is that of no other event if and only if neither its ids nor its type hold a bar |
| `Events.TextBarsCollide` | src/cfr/core/events.py:9-11 | without an id, every event with a bar in its type or text has a different event with the same key |
| `Events.NoneCollides` | src/cfr/core/events.py:11 | without an id, an event without text and the same event with the text "None" share a key |
| `Events.UniqueWithoutIdExactly` | src/cfr/core/events.py:8-11 | without an id, the key is that of no other event, but for those on which the digest collides, if and only if type and text hold no bar and the text is neither absent nor "None" |
| `ProcessTree.DesktopTree` | src/cfr/platform.py:121-130 | the passes end, and the ids are exactly those reachable from the packaged Desktop processes, a closed set |
| `ProcessTree.ReachableIsLeast` | src/cfr/platform.py:123-130 | the reachable ids lie in every closed set, so the result is the least fixpoint |
| `ProcessTree.ReachableAnyOrder` | src/cfr/platform.py:123-130 | the result does not depend on the order of enumeration, also with cycles of parents, where entries sharing an id agree on the image |
| `ProcessTree.Select` | src/cfr/platform.py:131-132 | the members with a given image, in the order of the snapshot |
| `ProcessTree.RuntimeSnapshot` | src/cfr/platform.py:131-134 | the listed processes are exactly those of the tree, and the mode tells which kinds run |
| `ProcessTree.BeginHandoff` | src/cfr/platform.py:197-222 | a restart stops exactly the reachable set; a missing launcher is found before anything is stopped; which launcher is used |
| `ServerRequests.ResponseGuard.Respond` | src/cfr/codex/app_server.py:358-376 | a response goes out exactly if its id was free, the process up and the write worked; otherwise the guard is as before |
| `ServerRequests.RunGuarded` | src/cfr/codex/app_server.py:358-376 | every step of every thread keeps the guard exact: in flight are the ids between the locked sections, resolved those answered |
| `ServerRequests.ExactlyOneResponse` | src/cfr/codex/app_server.py:358-376 | under every interleaving each id has at most one response on the wire and one call returning true, and is resolved exactly if such a call exists |
| `ServerRequests.FailedWriteAnswerable` | src/cfr/codex/app_server.py:367-372 | after a failed write the next call for the id is admitted |
| `ServerRequests.ClosedBeginsNothing` | src/cfr/codex/app_server.py:359-364 | once the client is closed no further response is begun |
| `ServerRequests.SlotsConserved` | src/cfr/codex/app_server.py:244-253 | free slots and live handlers add up to the limit, and each inbound request is served by one thread that makes exactly one respond call |
| `ServerRequests.RepliesAreOwn` | src/cfr/codex/app_server.py:244-293 | over every run a handler thread responds with the outcome of its own handler, or with the handler-failure error, an overload answer is the overload error, and a direct call responds with what it was called with |
| `ServerRequests.HandlersAnswer` | src/cfr/codex/app_server.py:278-293 | over every run, once its handler has come back a thread answers with what that handler did: the handler-failure error if it raised, the error of a resolution or a lone error, and otherwise the result, null for a lone absent error |
| `ServerRequests.HandlersOnWire` | src/cfr/codex/app_server.py:278-384 | the same for what stands on the wire for that thread, so a handler that raised is never answered with a result |
| `Requests.RunCorrelated` | src/cfr/codex/app_server.py:234-243 | every step keeps ids, pending map, waiters and deliveries in correspondence |
| `Requests.RequestsCorrelated` | src/cfr/codex/app_server.py:412-435 | ids increase strictly, pending holds exactly the registered requests not returned, and a completed request got the first delivery made to its own id |
| `Requests.EndingsHaveReasons` | src/cfr/codex/app_server.py:412-435 | over every run, a request that completed with a response had written its request, and the server sent that response, with that error and result, for its id while it was pending; a connection failure struck while it was pending; a timeout found the queue never filled; and a request that was not written had a write that failed |
| `Requests.AnswerArrives` | src/cfr/codex/app_server.py:234-243 | when the server answers a waiting caller whose queue is empty and the reader hands the answer over, then in every later run the caller has that answer in its queue, or has completed with that error and that result |
| `Requests.AnswerIsTaken` | src/cfr/codex/app_server.py:421-431 | and the caller that takes it completes with it |
| `Requests.FailureArrives` | src/cfr/codex/app_server.py:386-393 | a connection failure reaches every waiting caller: once it has come to the caller, in every later run the caller waits with a full queue, or has completed with what was delivered first, the failure if nothing was |
| `Requests.ClosedNumbersNothing` | src/cfr/codex/app_server.py:412-417 | once the client is closed no request is numbered |
| `Requests.EndingIsFinal` | src/cfr/codex/app_server.py:412-435 | late, duplicate and unknown responses do not change a request that has returned |
| `Requests.FailedCallerDoesNotTimeOut` | src/cfr/codex/app_server.py:386-393 | a waiting caller that the connection failure has reached, in every later run, waits with a full queue and cannot time out, or has completed |
| `FileChanges.FileChangeProjection.Record` | src/cfr/codex/app_server.py:306-324 | a complete patch notification extends the history, and any other changes nothing; the projection is always the most recent keys of the history |
| `FileChanges.UpdateIs` | src/cfr/codex/app_server.py:306-319 | a notification is recorded if and only if it is a patch with all three ids and some path; it is recorded under these ids with the paths that are not empty, in their order |
| `FileChanges.KeyIs` | src/cfr/codex/app_server.py:296-304 | the key of a message is its three ids, none of them empty |
| `FileChanges.FileChangeProjection.Remember` | src/cfr/codex/app_server.py:320-324 | the projection holds exactly the last LIMIT distinct keys with their latest paths, in the order of their last update |
| `FileChanges.InsertRecent` | src/cfr/codex/app_server.py:321-322 | taking a key out and putting it at the end keeps the order of last update |
| `FileChanges.EvictRecent` | src/cfr/codex/app_server.py:323-324 | dropping the front entry drops the least recently updated key |
| `FileChanges.FileChangeProjection.PathsFor` | src/cfr/codex/app_server.py:336-337 | a lookup gives the latest paths of the key, and nothing only if the key was never updated or LIMIT others were updated since |
| `FileChanges.LookupIsLatest` | src/cfr/codex/app_server.py:336-337 | what a projection holds for a key are its latest paths, and a key it does not hold was never updated or LIMIT others were updated since |
| `FileChanges.Enrich` | src/cfr/codex/app_server.py:326-347 | the first view that knows the key decides; the paths attached are the latest of the key in the history of that view, and the request stays unchanged only if the key was never updated, or pushed out, in all of them |
| `Dispatch.NotificationDispatcher.Subscribe` | src/cfr/codex/app_server.py:66-71 | a new id one above the last, and the machine's subscribe step |
| `Dispatch.NotificationDispatcher.Unsubscribe` | src/cfr/codex/app_server.py:73-75 | the machine's unsubscribe step |
| `Dispatch.NotificationDispatcher.Publish` | src/cfr/codex/app_server.py:77-86 | an undisturbed publication is the publish step followed by one delivery per subscriber |
| `Dispatch.IndependentFanOut` | src/cfr/codex/app_server.py:44-86 | what a subscriber received, then its queue, then what is on its way to it, is the filtered sequence of the messages whose snapshot included it, whatever others do |
| `Dispatch.OnlyAccepted` | src/cfr/codex/app_server.py:80-86 | over every run, a message that a subscriber's predicate rejects or raises on never reaches that subscriber |
| `Dispatch.SnapshotsExactly` | src/cfr/codex/app_server.py:66-79 | a publication goes to every subscription made before it and not given up since, and to none that was given up |
| `Dispatch.UnsubscribedGetsNoMore` | src/cfr/codex/app_server.py:73-86 | once a subscription is given up, what it gets in all is settled, whatever follows |
| `Lease.WriterLeaseManager.Acquire` | src/cfr/codex/lease.py:24-29 | only an idle thread is taken; nothing else changes |
| `Lease.WriterLeaseManager.MarkExternal` | src/cfr/codex/lease.py:31-33 | the thread is external; no other thread changes |
| `Lease.WriterLeaseManager.Recover` | src/cfr/codex/lease.py:35-38 | only an external thread becomes active |
| `Lease.WriterLeaseManager.Release` | src/cfr/codex/lease.py:40-42 | the thread is idle; no other thread changes |
| `Lease.WriterLeaseManager.BusyThreads` | src/cfr/codex/lease.py:44-50 | exactly the threads that are not idle |
| `Lease.RuntimeLeases.Acquire` | src/cfr/codex/runtime_lease.py:123-179 | granted exactly if the store is not busy and no unexpired row of a living owner is there, so also over the unexpired row of a dead one, with the next generation |
| `Lease.RuntimeLeases.Heartbeat` | src/cfr/codex/runtime_lease.py:181-226 | only the lease in the row is extended; a lost lease stays lost; on a store error the heartbeat is deferred exactly until the last confirmed expiry, so that a deferred lease cannot have been taken over from a living owner |
| `Lease.RuntimeLeases.Release` | src/cfr/codex/runtime_lease.py:228-254 | only the lease in the row is released, at the first of three attempts at which the store works |
| `Ownership.RunOwned` | src/cfr/codex/binding.py:216-318 | every step of every call keeps the ownership invariant while heartbeats are in time at every grant |
| `Ownership.SingleWriter` | src/cfr/codex/binding.py:216-318 | in every reachable state at most one call is between acquisition and release, idle means none, active means one; if the store accepted its writes, it says active while a turn is run, and the in-process state at rest |
| `Ownership.OneHolderExactly` | src/cfr/codex/binding.py:216-318 | for every run: at most one call is between acquisition and release at all times if and only if the heartbeats of running calls are in time at every grant |
| `Ownership.RegularBeatsSuffice` | src/cfr/codex/binding.py:216-318 | if while any call runs its last heartbeat is less than the lifetime of the lease ago, there is at most one holder at all times |
| `Ownership.LateGrantAdmitsTwo` | src/cfr/codex/binding.py:216-223 | every grant over the expired lease of a running call makes a second holder |
| `Ownership.OnlyRefusedUpdatesKeepTheLease` | src/cfr/codex/binding.py:354-364 | a durable row left when all calls are over belongs to an update that the in-process lease refused |
| `Ownership.RefusedUpdateKeepsTheLease` | src/cfr/codex/binding.py:354-364 | a run in which nothing fails leaves such a row, and the next send cannot acquire |
| `Ownership.KeptLeaseShutsOut` | src/cfr/codex/binding.py:354-364 | as long as the row of a refused update is kept alive, no call, however many are made, gets the lease |
| `Ownership.ExternalSticks` | src/cfr/codex/binding.py:259-274 | after a rejection the thread stays external until a step recovers it, and no further update gets inside |
| `Ownership.OnlySendsRecover` | src/cfr/codex/binding.py:224-274 | the call that recovers an external thread is a send |
| `Ownership.ExternalUpdateTakesNothing` | src/cfr/codex/binding.py:354-364 | an update whose check finds an external writer never takes a lease, whatever follows; a send goes on |
| `Ownership.LateHeartbeatsAdmitTwoWriters` | src/cfr/codex/binding.py:224-230 | with an expired lease two sends are inside an external thread at once |
| `Binding.CodexAdapter.HoldDurable` | src/cfr/codex/binding.py:216-223 | the durable lease is taken, and given back when the heartbeat cannot start |
| `Binding.CodexAdapter.EnterSend` | src/cfr/codex/binding.py:211-230 | a send that is not admitted has performed, and raises, what the script of its entry says, the lease given back |
| `Binding.CodexAdapter.EnterUpdate` | src/cfr/codex/binding.py:349-364 | the same for an update, whose in-process refusal is not guarded |
| `Binding.CodexAdapter.ResumeArchived` | src/cfr/codex/binding.py:112-121 | an archived thread is restored and resumed once more; a rejection is noticed at whichever request it comes |
| `Binding.CodexAdapter.CheckResumed` | src/cfr/codex/binding.py:259-267 | a rejection marks the thread and is stored before it is raised; another thread's id is an error |
| `Binding.CodexAdapter.SendBody` | src/cfr/codex/binding.py:246-286 | the guarded body performs its operations in order up to the first that fails |
| `Binding.CodexAdapter.UpdateBody` | src/cfr/codex/binding.py:366-429 | the same for an update, with the three ways of getting a confirmation |
| `Binding.CodexAdapter.CleanUpAfter` | src/cfr/codex/binding.py:291-322 | every step of the clean-up is attempted, and the first error among them kept |
| `Binding.CodexAdapter.ReleaseRuntimeLease` | src/cfr/codex/binding.py:83-87 | a release that finds another lease in the row is an error |
| `Binding.CodexAdapter.SendMessage` | src/cfr/codex/binding.py:206-324 | what a send performs, leaves and raises, for every set of failing operations; no other thread's state changes |
| `Binding.CodexAdapter.UpdateThreadSettings` | src/cfr/codex/binding.py:345-463 | the same for an update |
| `BindingLaws.EnteredExactly` | src/cfr/codex/binding.py:211-230 | a call gets into its guarded body if and only if every check and acquisition succeeds |
| `BindingLaws.NeverLeftActive` | src/cfr/codex/binding.py:291-313 | whatever fails, an admitted call leaves the thread idle or external and, if the store takes the last write, stored as such without a turn; any other leaves state and store alone |
| `BindingLaws.EveryClientClosed` | src/cfr/codex/binding.py:296-305 | a client is closed, and its life cycle read, if and only if one was created |
| `BindingLaws.EveryLeaseReleased` | src/cfr/codex/binding.py:314-318 | a granted durable lease is released once and last, except by an update that the in-process lease refuses |
| `BindingLaws.FirstErrorRaised` | src/cfr/codex/binding.py:287-322 | the error raised is that of the first performed operation that failed, so no clean-up error hides a body error; only a failing give-back replaces the error of a refused call |
| `BindingLaws.LeaseAfter` | src/cfr/codex/binding.py:314-318 | what becomes of the durable row, also when the store fails at every attempt to release it, or others took it over meanwhile |
| `BindingLaws.ExternalExactly` | src/cfr/codex/binding.py:259-274 | the thread is external afterwards if and only if it was rejected in this call, or was external and not recovered |
| `BindingLaws.UpdateRefusedWhileExternal` | src/cfr/codex/binding.py:354-355 | an update on an external thread takes and changes nothing and says why |
| `BindingLaws.NextCallIsAdmitted` | src/cfr/codex/binding.py:291-318 | however an admitted call failed, if its lease was released, the next send is admitted, and the next update if and only if the thread is idle |
| `BindingWork.RefusedRaises` | src/cfr/codex/binding.py:208-230 | what a call raises that is not admitted, by condition; the lease is given back early exactly if the heartbeat did not start or a send was refused in the process |
| `BindingWork.ExternalWriterFound` | src/cfr/codex/binding.py:259-264 | a thread is marked external if and only if an admitted call has a client and the last request for the thread names an active writer; then it is external afterwards, and that is what is raised unless the store fails |
| `BindingWork.SendRunsItsTurn` | src/cfr/codex/binding.py:246-280 | a send runs its turn if and only if it is admitted, the thread is resumed and what was resumed could be stored; it runs it once, behind the check of the id, the recovery and the look at the lease |
| `BindingWork.SendRaises` | src/cfr/codex/binding.py:246-322 | what an admitted send raises, by condition: the turn's own error if the turn fails, the lost lease if it was lost during the turn, and so on to the clean-up |
| `BindingWork.SendSucceeds` | src/cfr/codex/binding.py:246-322 | a send succeeds if and only if nothing on its way fails, and then it has run its turn once and stored it behind the turn and behind the second look at the lease |
| `BindingWork.ActiveDuringTurn` | src/cfr/codex/binding.py:216-280 | whenever a turn is run the thread is active in the process, the durable lease is held, and the store says so if it took the write |
| `BindingWork.UnclearedTurnStays` | src/cfr/codex/binding.py:233-243 | a turn that made progress stays in the store as active if it cannot be cleared there in the end |
| `BindingWork.UnclearedRejectionStays` | src/cfr/codex/binding.py:259-263 | a rejection that was stored stays stored if the turn cannot be cleared in the end |
| `BindingUpdate.UpdateAsksOnce` | src/cfr/codex/binding.py:366-402 | an update asks for its change if and only if it is admitted, the thread is resumed, what was resumed could be stored and the subscription was made; once, and behind all of these |
| `BindingUpdate.UpdateRaises` | src/cfr/codex/binding.py:366-458 | what an admitted update raises, by condition; without a notification that tells the settings, what the thread as resumed once more says decides |
| `BindingUpdate.UpdateSucceeds` | src/cfr/codex/binding.py:366-458 | an update succeeds if and only if nothing it performs fails and the settings are known in the end |
| `BindingUpdate.UpdateIsConfirmed` | src/cfr/codex/binding.py:393-429 | an update that succeeds asked once, resumed the thread again behind that where nothing else told the settings, stored them behind both, and noted the change behind the look at the lease; without a change it asks for nothing |
| `Settle.WaitAnswer` | src/cfr/chat.py:3138-3198 | the wait ends at the first poll at which it has to, by answer, error or timeout |
| `Settle.AnswerIsSettled` | src/cfr/chat.py:3158-3188 | an answer is taken only when not generating, with evidence of something new, and with one fingerprint over all looks of the last settle seconds |
| `Settle.AnswerIsTaken` | src/cfr/chat.py:3180-3188 | and it is taken as soon as those conditions hold |
| `Settle.TimesOutExactly` | src/cfr/chat.py:3145-3173 | the wait times out if and only if no change was noticed for the query timeout |
| `Settle.ChangesNoticed` | src/cfr/chat.py:3152-3173 | a look is a change exactly if the image, the file or one of the two lengths differs, where a length the page reports counts before that of the text it sends |
| `Settle.BlockedRaises` | src/cfr/chat.py:3145-3151 | a page raises exactly if it is blocked in time, and the error says whether it is the rate limit |
| `Settle.StreamingIsNotGivenUp` | src/cfr/chat.py:3145-3173 | a page that keeps changing is never given up |
| `Settle.SameLengthEditIsMissed` | src/cfr/chat.py:3152-3188 | edits that keep the length of the text, at any looks of any wait, the last included, change nothing about when and how the wait ends |
| `Settle.GrowingTextIsSettled` | src/cfr/chat.py:3152-3188 | if the text only grows and its length is reported truly, every look of the last settle seconds saw the whole text of the answer |
| `Download.Delivery.Receive` | src/cfr/chat.py:989-1031 | the temporary file holds all chunks exactly if the stream ends, every chunk is sound and the limit kept; the size error is raised exactly at the chunk that passes it |
| `Download.Delivery.Publish` | src/cfr/chat.py:1032-1035 | the file is published exactly if the declared size fits and the rename works |
| `Download.Delivery.Stream` | src/cfr/chat.py:963-1056 | success if and only if nothing is wrong, and then the output is the concatenation; otherwise no output; the temporary file is gone either way |
| `Download.DeliveredExactly` | src/cfr/chat.py:1016-1031 | what a stream delivers is its chunks up to the end, if each is sound |
| `Download.EmptyChunkFails` | src/cfr/chat.py:1026-1027 | an empty chunk reported with its true size fails the download |

## Left out

- JSON and UTF-8 decoding: one total function from a line to a message, to nothing, or to an exception; `_event`, `_message_text` and the JSON of a request are inside it.
- File system: the size and the content read by one poll are those of one moment, and deleting a file works.
- Replacing the file under a running watch command: the watcher alone is shown to start over; keys of the old file stay seen in the store.
- Content with a CR, also in CR LF, beyond the lemma that shows what it does: real rollouts are JSON lines ended by LF, in which CR is escaped.
- Retention of seen keys: `prune_event_dedupe` removes old keys at the start of the watch command, so keys count as seen for good only within a retention period.
- Printing a projected event, and storing its turn: they follow the projection, so a crash between the two loses the line on the terminal.
- Interrupts of the watch command elsewhere than between two events of a round.
- The app server's process epoch: a run of the machines lasts from `start` to `close`; ids of a restarted process are not related to those of the old one.
- A pipe write is atomic, failed or done, and starting a handler thread works.
- Response ids in JSON that are not hashable, and requests that an app server names with equal numbers of different types.
- `_put_diagnostic`, the notification handler and life-cycle timestamps: mirrors nobody waits on.
- Ownership.SingleWriter: assumes that a holder's heartbeat is in time whenever someone is granted the lease, which OneHolderExactly shows to be needed. Other processes appear only through the durable lease, and every call there keeps durable leases; with several processes the stored state is that of the one that finished last.
- Binding.CodexAdapter.SendMessage: other calls on the same thread appear only as what they made of the durable row by the time it is released; their interleaving is the subject of `Ownership`.
- Closing the subscription of a settings update: it stays open when the request itself raises, until the client is closed.
- Telemetry, settings timings, `last_resume` and the progress callback of a turn, apart from the active turn it stores.
- A heartbeat thread that cannot be started makes the release raise as well, because stopping the heartbeat joins a thread that never ran; here those are two failures that may occur together.
- Reuse of process ids between the snapshot and the stop, ids that do not fit 32 bits, and the second probe of a handoff, which follows children only.
- The page scripts, the final read of the page after the answer settled, and the cancellation inside the page.
- Download.Delivery.Stream: a stream that never ends appears as one that stops answering.
- Browser glue, network, permissions, configuration, launchers, approvals, the desktop tray and user interface: short precedence chains and shape checks.
