# A verified model of the WhatsApp daemon, its client and the QML patchers

The repository holds a Go daemon that keeps a WhatsApp session, stores its messages in
SQLite and serves a shell over newline-delimited JSON; a command line client; and Python
scripts that edit QML source text. This project models the parts whose correctness is hard
to see by reading one function, and proves what they promise.

- **Concurrency.** Login (`LoginProtocol`), service shutdown (`ServiceShutdown`), the RPC
  client (`RpcClient`), the IPC server (`IpcServer`), the event queue of the persister
  (`Inbox`), avatar fetches (`AvatarFetches`), two writers publishing the same messages
  (`Publishing`) and resolvers beside writers (`NameRuns`). Each is a state machine with one
  step per critical section, channel operation or SQL statement and a program counter per
  thread; results hold in every state of every run. The fields guarded by a lock are a class,
  whose methods are the critical sections and are proved against the functions that the
  machine steps with. Liveness is stated as: the thread has an enabled step that brings it
  strictly nearer to its end, and no other step sets it back.
- **Stored data.** `Tables` gives each SQL statement its meaning on maps, `Persister` and
  `Writers` are the operations built from them. `Replay`, `Columns`, `Unread`, `Receipts` and
  `References` relate the denormalised columns to what they summarise over any sequence of
  operations of all writers, `Interleaved` over any interleaving of their statements;
  `Paging` and `LikeEscape` are about reading. `NameResolver` and
  `GroupRepair` are the two sources of chat names. `StoredColumns`, `ReceiptColumns` and
  `NameSources` say column by column what an event writes and a resolution reads.
- **Source text.** `Lexer` has the hand-written scanners, as loops over the text, proved
  against one reference lexer; `ScannedText` tells what that lexer sees in any text put
  together from code, strings and comments; `QmlTokens` and `QmlLists` lift it to tokens and
  list entries. `ListPatcher`, `RegistryPatch`, `RegistryLines`, `RegistryTwice`,
  `RegistryBare` and `RegistryDiffers` are the Nexus patch. `Markers`, `MarkerLines`,
  `InteractionsPatch`, `InteractionsPlaces`, `StableBlocks`, `InteractionsTwice`,
  `InteractionsLost` and `RegionsPatch` are the WhatsApp patch, in its old and its new form,
  and the upgrade from one to the other.
- **Small kernels.** Upload progress and downscaling (`MediaSend`), the Markdown block
  splitter (`MarkdownBlocks`) and its line shapes (`LineShapes`).

Where the code does not keep a law on all inputs, there is the exact condition under which it
holds, and a concrete input or a family of inputs on which it fails:

- `Columns.OpKeepsExactIff`: a sent text whose echo was stored first, with another time or
  chat, books values that no row has (`StoreOutgoingBreaksExactness`); a history conversation
  may report a later time than its messages (`HistoryBreaksExactness`).
- `InteractionsPatch.UpgradeIsFreshIff`: a core with its own fullscreen handler beside the
  place of the new one (`OwnHandlerDiffers`), a block behind an unterminated last line
  (`LastLineDiffers`). `RegionsPatch.UpgradeIsFreshIff`: a text that has a modal region
  (`OwnRegionDiffers`).
- `InteractionsTwice.NewPatchIsFixedIff`: a fullscreen block behind an unterminated last line
  (`LastLineIsNotFixed`), behind an opening marker that nothing closes
  (`StrayBeginIsNotFixed`), or inside a block that is kept for a line further down
  (`SplitBlockIsNotFixed`).
- `ListPatcher.InsertEntryAppendsIff`: a list whose last entry ends in a string gets the
  comma inside that string (`ListSamples.StringTakesTheComma`); an empty list gets one before
  its first entry (`EmptyListGetsAComma`).
- `RegistryBare.BuildTwiceIsOnceIff`: with nothing significant between the only import and
  the line that closes the list, the separating comma goes on the import line, which is then
  not recognised: a list on one line below the import (`OneLineListDiffers`), or one declared
  in a comment (`CommentedListDiffers`).
- `Replay.ReplayIsIdempotentIff`: an edit, revoke or reaction in front of its target that
  nothing later covers (`EarlyEditBreaksReplay`).
- `Paging.PagingIsCompleteIff`, `Paging.PagingEndsIff`: a page that ends between rows of one
  timestamp (`TiedRowsAreSkipped`); a page that ends at a time not positive
  (`ZeroTimeNeverEnds`).
- `IpcServer.GoroutinesWithinLimitIff`: `maxConns` bounds slots, not goroutines
  (`GoroutinesCanExceedTheLimit`).
- `MarkdownBlocks.OnlyTwoShapesAreStuck`: the two line shapes on which the splitter loops
  (`StuckLines`).

The texts that the patches insert and the places they look for are parameters of the patch
modules. That the assumptions on them can be met, and the premises of the failing families
with them, is shown for small stand-ins: `InteractionsSample` (`SampleKitIsOk`,
`SamplePressIsOk`, `OwnHandlerSample`, `LastLineUpgradeSample`, `LastLineSample`,
`StrayBeginSample`, `SplitBlockSample`, `SplitRestSample`), `RegionsSample` (`SampleKitIsOk`,
`OwnRegionSample`), `RegistrySample` (`FitsSample`) and `ListSamples`.

Times in the tables are milliseconds; a history conversation reports seconds, which the code
multiplies by 1000.

`dafny verify dfyconfig.toml` checks the whole project.

## Model

| member | source | states |
|---|---|---|
| `LoginProtocol.LoginFields.StartLogin` | whatsapp/daemon/internal/whatsapp/auth.go:43-127 | a login begins exactly when none is active and the device and client are usable; then it carries a new generation and its own context, otherwise nothing changes |
| `LoginProtocol.LoginFields.StopLogin` | whatsapp/daemon/internal/whatsapp/auth.go:214-228 | clears the flag, moves the generation on and hands the cancel function to the caller |
| `LoginProtocol.LoginFields.StopLoginGen` | whatsapp/daemon/internal/whatsapp/auth.go:229-245 | stops the login of that generation only; a later login is left untouched and no cancel function is taken |
| `LoginProtocol.LoginFields.CancelLogin` | whatsapp/daemon/internal/whatsapp/auth.go:246-265 | the error answer exactly when no login was active; the login is stopped either way |
| `LoginProtocol.RunKeeps` | whatsapp/daemon/internal/whatsapp/auth.go:43-291 | the inductive invariant behind the results below, after every step of every interleaving of starters, QR consumers, cancellers, logouts and closers |
| `LoginProtocol.ActiveLoginHasOneOwner` | whatsapp/daemon/internal/whatsapp/auth.go:43-157 | in every run: `loginActive` iff `loginCancel` is set iff one live starter or consumer carries the current generation; that owner is unique and the cancel function is the one of its context |
| `LoginProtocol.NoContextLeaks` | whatsapp/daemon/internal/whatsapp/auth.go:43-245 | in every run each login context other than the current one is cancelled, or some thread holds its cancel function and is about to call it |
| `LoginProtocol.QuiescentMeansStopped` | whatsapp/daemon/internal/whatsapp/auth.go:43-291 | when no thread is under way no login is active and every context ever made is cancelled |
| `LoginProtocol.LeavingClearsOnlyItsOwn` | whatsapp/daemon/internal/whatsapp/auth.go:229-245 | an owner that leaves clears the flag and takes its own cancel function iff its generation is current; an outdated one changes no field |
| `LoginProtocol.NoLateItemHandled` | whatsapp/daemon/internal/whatsapp/auth.go:128-157 | no run handles a QR item that was received after its context was cancelled |
| `LoginProtocol.SupersededOwnerIsReleased` | whatsapp/daemon/internal/whatsapp/auth.go:128-157 | an owner whose generation is out of date has a cancelled context, or a thread that can call its cancel function now |
| `LoginProtocol.ClosingStartsNoConsumer` | whatsapp/daemon/internal/whatsapp/service.go:396-438 | from the moment closing is set no starter can hand over to a consumer, and every context is cancelled for good |
| `LoginProtocol.LoginStarts` | whatsapp/daemon/internal/whatsapp/auth.go:43-127 | a start that nobody disturbs hands the consumer the new generation and a context of its own |
| `LoginProtocol.ItemIsHandled` | whatsapp/daemon/internal/whatsapp/auth.go:128-211 | an item that arrives while the context lives is handled; after a terminal one the consumer ends its own login and cancels its context |
| `ServiceShutdown.ShutdownFields.GoTracked` | whatsapp/daemon/internal/whatsapp/service.go:421-438 | registers with the wait group exactly when the service is not closing |
| `ServiceShutdown.ShutdownFields.Done` | whatsapp/daemon/internal/whatsapp/service.go:421-438 | one registration less, nothing else |
| `ServiceShutdown.ShutdownFields.MarkClosing` | whatsapp/daemon/internal/whatsapp/service.go:396-420 | only sets closing |
| `ServiceShutdown.ShutdownIsSafe` | whatsapp/daemon/internal/whatsapp/service.go:396-438 | in every run: no send on the closed channel, no registration concurrent with the wait at zero, the wait group counts the live goroutines, none is left when the channel closes, none is registered once closing |
| `ServiceShutdown.ClosingOnlyShrinks` | whatsapp/daemon/internal/whatsapp/service.go:396-438 | after closing, any later state of the run has a subset of the goroutines |
| `ServiceShutdown.EmitterCanAlwaysLeave` | whatsapp/daemon/internal/whatsapp/service.go:501-515 | after `done` is closed every emitter, also one blocked on a full channel, has an enabled step that brings it nearer to releasing the read lock |
| `ServiceShutdown.WriteLockIsReached` | whatsapp/daemon/internal/whatsapp/service.go:396-420 | while Close waits for the write lock no step of anyone lengthens an emitter's way out, and Close proceeds iff all are out |
| `ServiceShutdown.EmitAfterCloseIsANoOp` | whatsapp/daemon/internal/whatsapp/service.go:501-515 | after Close an emitter that enters leaves without sending |
| `ServiceShutdown.EmitterSends` | whatsapp/daemon/internal/whatsapp/service.go:501-515 | while the service is open an undisturbed emitter puts exactly one event into a channel with room |
| `RpcClient.ClientFields.RegisterCall` | whatsapp/cli/cwctl/main.go:697-755 | a fresh id is bound to the caller's channel |
| `RpcClient.ClientFields.TakePending` | whatsapp/cli/cwctl/main.go:642-685 | the channel waiting for this id, taken out of the map |
| `RpcClient.ClientFields.ForgetCall` | whatsapp/cli/cwctl/main.go:697-755 | only this id leaves the map |
| `RpcClient.ClientFields.Sweep` | whatsapp/cli/cwctl/main.go:626-639 | the map is emptied; every waiting channel is closed, and closed once when calls have their own channels |
| `RpcClient.ChannelsAreOneShot` | whatsapp/cli/cwctl/main.go:626-755 | in every interleaving of calls, timeouts, the reader and shutdown: at most one send per channel, never after its close, no double close, and the reader's send never blocks |
| `RpcClient.AnswersAreCorrelated` | whatsapp/cli/cwctl/main.go:642-755 | a call that returns a response returns the one with its own id |
| `RpcClient.CallsEndAfterShutdown` | whatsapp/cli/cwctl/main.go:626-755 | once shutdown has begun every call, also one registered later, has an enabled step that brings it nearer to returning |
| `RpcClient.NothingStaysPending` | whatsapp/cli/cwctl/main.go:697-755 | when all calls have returned the pending map is empty |
| `RpcClient.ResponseReachesItsCall` | whatsapp/cli/cwctl/main.go:642-755 | in every reached state a response read for a waiting call is delivered to it and is what it returns, and no other call is touched |
| `IpcServer.Client.NoteError` | whatsapp/daemon/internal/ipc/server.go:531-542 | one more failure in the run; open iff there is no limit or it is not reached |
| `IpcServer.Client.NoteSuccess` | whatsapp/daemon/internal/ipc/server.go:543 | the run of failures ends |
| `IpcServer.Client.Dispatch` | whatsapp/daemon/internal/ipc/server.go:334-388 | malformed, invalid and unknown requests extend the run of failures, domain errors and successes end it |
| `IpcServer.Client.Serve` | whatsapp/daemon/internal/ipc/server.go:256-333 | over any input: the client is dropped iff the limit is positive and that many non-blank lines in a row are protocol failures, and it is dropped at the first line that completes such a run |
| `IpcServer.BlankLinesDoNotCount` | whatsapp/daemon/internal/ipc/server.go:303-333 | blank lines neither fail nor end a run of failures |
| `IpcServer.NoClientIsLost` | whatsapp/daemon/internal/ipc/server.go:256-333 | in every run once the sweep is over: a client that reads has been closed, one that has just registered sees `done` before its first read |
| `IpcServer.AddIsNeverAtZero` | whatsapp/daemon/internal/ipc/server.go:225-255 | the wait group counts the live handlers and the accept loop; a handler is only ever added while the accept loop is counted; Close returns with none alive |
| `IpcServer.SlotsAreBounded` | whatsapp/daemon/internal/ipc/server.go:225-255 | handlers that hold a slot never exceed a positive `maxConns`; a live handler without one has given it back on its way out |
| `IpcServer.GoroutinesCanExceedTheLimit` | whatsapp/daemon/internal/ipc/server.go:225-274 | a run in which two handler goroutines are alive with `maxConns` 1: the slot is given back before the goroutine is done |
| `IpcServer.GoroutinesWithinLimitIff` | whatsapp/daemon/internal/ipc/server.go:225-274 | in every reached state the live goroutines are those that hold a slot and those on their way out, and they keep within the limit iff the latter fit into the free slots |
| `IpcServer.AdmissionPassesTheLimit` | whatsapp/daemon/internal/ipc/server.go:225-255 | only the admission of a connection passes the limit, and exactly when as many goroutines as the limit are alive and the counter is within it |
| `IpcServer.HandlersOnlyAdvance` | whatsapp/daemon/internal/ipc/server.go:256-333 | no step of any thread moves a handler back |
| `IpcServer.CloseCanReturn` | whatsapp/daemon/internal/ipc/server.go:436-468 | after the sweep each live handler has an enabled step, no connection is accepted, the accept loop can end, and Close returns iff both are gone |
| `IpcServer.WayOutAdvances` | whatsapp/daemon/internal/ipc/server.go:256-333 | that step of a handler brings it strictly nearer to its end |
| `AvatarFetches.AvatarFields.Schedule` | whatsapp/daemon/internal/whatsapp/avatars.go:134-181 | a fetch is admitted iff the JID is not busy and a token is free; then exactly these two are claimed |
| `AvatarFetches.AvatarFields.ReleaseToken` | whatsapp/daemon/internal/whatsapp/avatars.go:134-181 | one token less, nothing else |
| `AvatarFetches.AvatarFields.ClearBusy` | whatsapp/daemon/internal/whatsapp/avatars.go:134-181 | only this JID stops being busy |
| `AvatarFetches.FetchesAreBounded` | whatsapp/daemon/internal/whatsapp/avatars.go:134-181 | in every interleaving with refused starts: fetches <= tokens <= `avatarMaxInflight`, tokens <= busy JIDs, no two fetches of one JID, and giving a token back never blocks |
| `AvatarFetches.QuiescenceReleasesAll` | whatsapp/daemon/internal/whatsapp/avatars.go:134-181 | with no scheduler or fetch under way no token and no busy entry is held |
| `AvatarFetches.BusyHasAWorker` | whatsapp/daemon/internal/whatsapp/avatars.go:134-181 | a JID is busy iff some thread still works on it |
| `AvatarFetches.FetchRuns` | whatsapp/daemon/internal/whatsapp/avatars.go:134-181 | an undisturbed fetch, a refused one too, claims one token and its JID and leaves everything as it was |
| `LikeEscape.EscapeLike` | whatsapp/daemon/internal/database/repo.go:423-439 | the loop, with its shortcut, escapes each of the three special characters and nothing else |
| `LikeEscape.PlainTextIsUnchanged` | whatsapp/daemon/internal/database/repo.go:423-439 | text without special characters is its own escape |
| `LikeEscape.SameUpToAsciiCase` | whatsapp/daemon/internal/database/repo.go:390-421 | the same up to case: the characters are equal or one ASCII letter in both cases |
| `LikeEscape.EscapedMatchesItself` | whatsapp/daemon/internal/database/repo.go:423-439 | an escaped query before any pattern matches exactly the query, up to ASCII case, before what that pattern matches |
| `LikeEscape.PatternFindsSubstrings` | whatsapp/daemon/internal/database/repo.go:390-421 | LIKE accepts a string against `%` + escaped query + `%` iff the query occurs in it, up to ASCII case |
| `LikeEscape.SearchFindsExactlyTheMatches` | whatsapp/daemon/internal/database/repo.go:390-421 | a contact is selected iff the trimmed query is empty or occurs in its JID or one of its name columns |
| `MediaSend.ProgressReader.Read` | whatsapp/daemon/internal/whatsapp/media_send.go:489-505 | one event with the capped percentage when it is 5 or more above the last, otherwise none; the reader stays valid |
| `MediaSend.ProgressReader.Force` | whatsapp/daemon/internal/whatsapp/media_send.go:506-511 | reports the percent only when it is news; forced to 100, the whole history is good progress |
| `MediaSend.Upload` | whatsapp/daemon/internal/whatsapp/media_send.go:128-148 | for any reads: events rise strictly within 0..100 in steps of at least 5 but for the forced last, at most 21 with the initial 0, and a success ends at 100 |
| `MediaSend.NearestDownscale` | whatsapp/daemon/internal/whatsapp/media_send.go:646-673 | the image is returned as it is iff it fits; otherwise each pixel is the source pixel at its scaled position |
| `MediaSend.LongestSideIsMax` | whatsapp/daemon/internal/whatsapp/media_send.go:646-673 | a shrunk image has its longest side exactly `max`, and both sides at least 1 and no longer than before |
| `MediaSend.SideIsProportional` | whatsapp/daemon/internal/whatsapp/media_send.go:646-666 | each side is the scaled one rounded down, at least 1 |
| `MediaSend.SampleIsProportional` | whatsapp/daemon/internal/whatsapp/media_send.go:666-671 | the sampled pixel is the one whose share of the source begins at or last before that of the pixel |
| `MediaSend.SamplesAreInsideAndDistinct` | whatsapp/daemon/internal/whatsapp/media_send.go:646-673 | every sample lies in the source, and distinct rows or columns read distinct ones |
| `MarkdownBlocks.OnlyTwoShapesAreStuck` | extras/src/extras/scripts/notepad/md_render.py:141-252 | a non-blank line that starts no block and no paragraph is one of exactly two shapes: 1 to 6 `#` and one white space only, or a fence prefix that is no fence line |
| `MarkdownBlocks.StuckLines` | extras/src/extras/scripts/notepad/md_render.py:235-247 | a line of each of the two shapes |
| `LineShapes.KindIff` | extras/src/extras/scripts/notepad/md_render.py:158-232 | which block a line starts, by the regular expressions spelled out part by part; only a task line has two shapes, and it is a task line |
| `LineShapes.BlockTakesIn` | extras/src/extras/scripts/notepad/md_render.py:186-251 | a quote or list takes in exactly the lines of its shape that follow each other |
| `LineShapes.FenceTakesIn` | extras/src/extras/scripts/notepad/md_render.py:158-170 | a fence takes in all up to its closing line, and that |
| `LineShapes.ParagraphEndsIff` | extras/src/extras/scripts/notepad/md_render.py:235-247 | the lines at which a paragraph ends, in the same terms |
| `LineShapes.ClosesFenceIff` | extras/src/extras/scripts/notepad/md_render.py:163 | the line that closes a fence: white space, three of its marker, anything |
| `LineShapes.MarkerOfFence` | extras/src/extras/scripts/notepad/md_render.py:158-160 | the marker of a fence is the character it is opened with |
| `MarkdownBlocks.TakeLines` | extras/src/extras/scripts/notepad/md_render.py:196-251 | the longest run of lines of one shape, none iff the first line does not have it |
| `MarkdownBlocks.TakeFence` | extras/src/extras/scripts/notepad/md_render.py:158-174 | ends just behind the first closing fence, or at the end of the text |
| `MarkdownBlocks.TakeBlock` | extras/src/extras/scripts/notepad/md_render.py:141-252 | a block starting here; it is empty iff the line is one of the two stuck shapes |
| `MarkdownBlocks.ParseBlocks` | extras/src/extras/scripts/notepad/md_render.py:141-252 | the blocks cover the text up to its end, or up to the first block-start line of a stuck shape, where the original never ends |
| `MarkdownBlocks.EachLineIsInABlock` | extras/src/extras/scripts/notepad/md_render.py:141-252 | each non-blank line of the covered part is in a block |
| `MarkdownBlocks.EachBlockIsOk` | extras/src/extras/scripts/notepad/md_render.py:141-252 | each block is what its first line calls for, as long as it can be, and none starts at a stuck shape |
| `MarkdownBlocks.BlocksAreInOrder` | extras/src/extras/scripts/notepad/md_render.py:141-252 | any two blocks follow each other in source order without overlap |
| `MarkdownBlocks.LineIsInOneBlock` | extras/src/extras/scripts/notepad/md_render.py:141-252 | no line is in two blocks |
| `Persister.Worker.Message` | whatsapp/daemon/internal/whatsapp/persist.go:268-438 | the tables and events after one message event, live or from history; a row already stored brings no event |
| `Persister.Worker.StoreContent` | whatsapp/daemon/internal/whatsapp/persist.go:339-388 | tables after the content statements, and `inserted` iff the id was new |
| `Persister.Worker.Receipt` | whatsapp/daemon/internal/whatsapp/persist.go:486-545 | tables after a receipt; the events name the same ids and, when a self-read clears the counter, the chat as stored |
| `Persister.Worker.Conversation` | whatsapp/daemon/internal/whatsapp/persist.go:679-741 | a conversation is all or nothing: whichever of its steps fails, the opening statement, any message or any closing statement, the tables from before come back; history publishes nothing |
| `Persister.Worker.Closing` | whatsapp/daemon/internal/whatsapp/persist.go:715-741 | the closing statements, each of which may be the failing one |
| `StoredColumns.NewRowColumns` | whatsapp/daemon/internal/whatsapp/persist.go:376-388 | the row of a new content message, column by column from the message; no other row changes |
| `StoredColumns.StoredRowStays` | whatsapp/daemon/internal/whatsapp/persist.go:389-403 | a message already stored changes no message row |
| `StoredColumns.ChatColumns` | whatsapp/daemon/internal/whatsapp/persist.go:339-413 | the chat row after a content message, column by column: name and kind, last message with its preview unless an older one, and the counter; no other chat changes |
| `StoredColumns.PushNameGoesTo` | whatsapp/daemon/internal/whatsapp/persist.go:356-368 | the push name goes to the sender in a group and to the chat in a dm, never from our own message; saved names stay and no other contact changes |
| `StoredColumns.MediaColumns` | whatsapp/daemon/internal/whatsapp/persist.go:393-401 | media are stored under the message, also of a row already there; what is not said again stays, a download too |
| `StoredColumns.EditColumns` | whatsapp/daemon/internal/whatsapp/persist.go:290-330 | an edit: edited, not deleted, the new text unless empty; nothing else |
| `StoredColumns.RevokeColumns` | whatsapp/daemon/internal/whatsapp/persist.go:290-330 | a revoke: deleted, without text; nothing else |
| `StoredColumns.ReactionColumns` | whatsapp/daemon/internal/whatsapp/persist.go:467-480 | a reaction under its target and sender; a blank one removes it; one to an unknown message is not stored |
| `StoredColumns.NothingStored` | whatsapp/daemon/internal/whatsapp/persist.go:268-330 | events without id, chat, target or stored target change nothing |
| `StoredColumns.NewMessageEvents` | whatsapp/daemon/internal/whatsapp/persist.go:415-436 | a new message is announced, and its chat as stored when it became the last message or came in |
| `StoredColumns.OtherEvents` | whatsapp/daemon/internal/whatsapp/persist.go:290-330 | a revoke is told as deleted, an edit as not; nothing else is told |
| `ReceiptColumns.ForeignReceiptKeepsChats` | whatsapp/daemon/internal/whatsapp/persist.go:516-532 | a receipt of a contact, and any that is no read receipt, leaves every chat row as it is |
| `ReceiptColumns.OwnReadClearsTheChat` | whatsapp/daemon/internal/whatsapp/persist.go:521-526 | what we have read ourselves clears the counter of its chat and changes no other column or chat |
| `ReceiptColumns.ReceiptStatuses` | whatsapp/daemon/internal/whatsapp/persist.go:513-532 | the messages named become read, or delivered unless read; no other column, no other message |
| `ReceiptColumns.ReceiptRows` | whatsapp/daemon/internal/whatsapp/persist.go:491-511 | for each stored message named, the receipt is recorded by sender and kind with its time; no other entry changes |
| `ReceiptColumns.ToldStatus` | whatsapp/daemon/internal/whatsapp/persist.go:513-539 | the status told, `read` also for what we read on another device |
| `ReceiptColumns.ClosedColumns` | whatsapp/daemon/internal/whatsapp/persist.go:715-741 | the chat row at the end of a conversation: reported name and count, the reported time unless it is older; no other row |
| `ReceiptColumns.EmptyConversationColumns` | whatsapp/daemon/internal/whatsapp/persist.go:679-741 | a conversation without messages still brings its chat, with these columns |
| `StoredColumns.ContactColumns` | whatsapp/daemon/internal/whatsapp/persist.go:549-572 | a contact event fills in saved names, under the phone number too; empty ones and push names stay |
| `StoredColumns.GroupColumns` | whatsapp/daemon/internal/whatsapp/persist.go:575-605 | a group event stores the subject and names the chat after it, unless it is empty |
| `PersistFacts.ContentParts` | whatsapp/daemon/internal/whatsapp/persist.go:339-413 | a content message writes its own row only if new, and no reaction, receipt or group |
| `PersistFacts.MessagesAfterOne` | whatsapp/daemon/internal/whatsapp/persist.go:268-438 | which rows are there after a message, and each old row as changed by that message alone |
| `PersistFacts.ChatsAfterOne` | whatsapp/daemon/internal/whatsapp/persist.go:339-413 | only a content message writes chats, and only its own |
| `Writers.NewMessageParts` | whatsapp/daemon/internal/whatsapp/persist.go:339-413 | a new content row: exactly that row and the books of its chat |
| `Writers.OldMessageIsQuiet` | whatsapp/daemon/internal/whatsapp/persist.go:268-438 | a message that adds no row leaves all rows' identities, last-message columns and counters |
| `Writers.ReceiptIsQuiet` | whatsapp/daemon/internal/whatsapp/persist.go:486-545 | a receipt adds no row and clears at most its own chat's counter |
| `Writers.ReadIsQuiet` | whatsapp/daemon/internal/whatsapp/methods.go:457-511 | message.read adds no row and clears at most its own chat's counter |
| `Writers.SentMediaParts` | whatsapp/daemon/internal/whatsapp/media_send.go:183-281 | a sent media message books the chat only when its row is new |
| `Writers.SentTextParts` | whatsapp/daemon/internal/whatsapp/methods.go:413-432 | a sent text books the chat also when its row was already there |
| `StoredColumns.SentMediaColumns` | whatsapp/daemon/internal/whatsapp/media_send.go:216-262 | the row of a sent media message and the books of its chat, column by column |
| `StoredColumns.SentMediaIsDownloaded` | whatsapp/daemon/internal/whatsapp/media_send.go:243-248 | its media row is marked as downloaded |
| `StoredColumns.SentTextColumns` | whatsapp/daemon/internal/whatsapp/methods.go:413-432 | the row of a sent text, column by column |
| `StoredColumns.SentTextBooks` | whatsapp/daemon/internal/whatsapp/methods.go:413-432 | the books of its chat: the text is the preview, and an older last message gives way whether or not the row is new |
| `Replay.FoldTwiceIsOnce` | whatsapp/daemon/internal/whatsapp/persist.go:290-330 | the edits and revokes of a batch, applied to a row twice, do what they do once |
| `Replay.RowSettlesIff` | whatsapp/daemon/internal/whatsapp/persist.go:290-330 | a row that the batch stores is a fixed point of the batch iff the edits and revokes in front of its insertion are covered: by later ones of the same column, or by the text it is stored with |
| `Replay.RowsAreSettled` | whatsapp/daemon/internal/whatsapp/persist.go:268-438 | if that holds of all new rows, every row is a fixed point of the batch after it |
| `Replay.ReactionIsLastSet` | whatsapp/daemon/internal/whatsapp/persist.go:467-485 | if no reaction in front of the insertion of its target is the last one for its message and sender, a reaction after the batch is the last one set by it, or the old one |
| `Replay.LostReaction` | whatsapp/daemon/internal/whatsapp/persist.go:467-485 | otherwise some reaction is set by the batch and not in the tables after it |
| `Replay.BatchAgain` | whatsapp/daemon/internal/whatsapp/persist.go:268-438 | storing a batch that meets both conditions again changes no row, reaction or chat column beside names |
| `Replay.BatchChanges` | whatsapp/daemon/internal/whatsapp/persist.go:268-438 | storing any other batch again changes a row or a reaction |
| `Replay.ReplayIsIdempotent` | whatsapp/daemon/internal/whatsapp/persist.go:679-741 | for any tables and any conversation that meets both conditions: the second replay leaves messages, reactions, unread counts and last-message columns as the first, whatever names resolve to |
| `Replay.ReplayIsIdempotentIff` | whatsapp/daemon/internal/whatsapp/persist.go:679-741 | and for no other conversation, in tables whose reactions refer to stored messages, as the foreign key demands |
| `Replay.ReadyBatchSettles` | whatsapp/daemon/internal/whatsapp/persist.go:268-438 | a batch in which each edit, revoke and reaction finds its target stored, or the target is never stored, meets both conditions |
| `Replay.EarlyEditBreaksReplay` | whatsapp/daemon/internal/whatsapp/persist.go:290-330 | a conversation with an edit before its target, which the second replay changes |
| `Columns.OpKeepsBounded` | whatsapp/daemon/internal/database/repo.go:209-241 | no operation of any writer lowers `last_message_ts`, and each keeps it at or above every row of the chat |
| `Columns.OpKeepsNamedIff` | whatsapp/daemon/internal/database/repo.go:209-226 | an operation keeps `last_message_id` naming a row of its chat iff it is not a sent text that books an id already stored for another chat |
| `Columns.OpKeepsExactIff` | whatsapp/daemon/internal/database/repo.go:209-241 | an operation keeps the columns exact iff its guard holds: a conversation reports no later time than its messages, a sent text rebooks no row of another time or chat |
| `Columns.HistoryIsExactIff` | whatsapp/daemon/internal/whatsapp/persist.go:679-741 | the case of a history conversation, both directions |
| `Columns.SentTextIsNamedIff` | whatsapp/daemon/internal/whatsapp/methods.go:413-432 | the id column after a sent text, both directions |
| `Columns.SentTextIsExactIff` | whatsapp/daemon/internal/whatsapp/methods.go:413-432 | the exactness after a sent text, both directions |
| `Columns.RaiseTsIsExactIff` | whatsapp/daemon/internal/database/repo.go:227-241 | raising the time keeps the columns exact iff it is no raise |
| `Columns.LastTimestampOverRuns` | whatsapp/daemon/internal/database/repo.go:209-241 | over every run of all writers `last_message_ts` never decreases and is never below a row of its chat |
| `Columns.LastIdOverRuns` | whatsapp/daemon/internal/database/repo.go:209-226 | over every run whose steps meet the guard, `last_message_id` names a row of its chat |
| `Columns.AttainedOverRuns` | whatsapp/daemon/internal/database/repo.go:209-241 | over every run whose steps meet the guard, `last_message_ts` is the time of the row that the id names |
| `Columns.PlainRunsKeepExact` | whatsapp/daemon/internal/whatsapp/persist.go:388-413 | runs without history sync and sent texts meet the guard at every step |
| `Columns.LastMessageIsExact` | whatsapp/daemon/internal/whatsapp/persist.go:388-413 | then the timestamp is set iff the chat has a row, and is the maximum, which the named row attains |
| `Columns.StoreOutgoingBreaksExactness` | whatsapp/daemon/internal/whatsapp/methods.go:413-432 | an echo stored first and the sent text booked after it, with another time: the columns disagree with the row |
| `Columns.HistoryBreaksExactness` | whatsapp/daemon/internal/whatsapp/persist.go:679-741 | a conversation that reports a later time than its one message: the columns disagree with the row |
| `Unread.OpCounts` | whatsapp/daemon/internal/whatsapp/persist.go:388-413 | an operation with an authoritative value for the chat sets it; any other raises the counter by exactly its new incoming rows |
| `Unread.LastSet` | whatsapp/daemon/internal/whatsapp/persist.go:679-741 | the last operation of a run that is authoritative about the chat |
| `Unread.UnreadOverRuns` | whatsapp/daemon/internal/whatsapp/persist.go:388-413 | over every run `unread_count` is the last authoritative value, the initial one if none, plus the new incoming rows stored since |
| `Receipts.OpMarks` | whatsapp/daemon/internal/whatsapp/persist.go:498-531 | any operation changes the status of a stored message only as its receipts for that message say |
| `Receipts.StatusIsJoin` | whatsapp/daemon/internal/database/repo.go:610-627 | after any run the status is the join of the initial one and all marks |
| `Receipts.StatusNeverGoesDown` | whatsapp/daemon/internal/database/repo.go:610-627 | over any run, with message.read, a status that changes goes up |
| `Receipts.StatusesConverge` | whatsapp/daemon/internal/whatsapp/persist.go:498-531 | two runs with the same set of receipts and reads, in any order and number, end in the same statuses |
| `Receipts.NothingPendingAfterRead` | whatsapp/daemon/internal/whatsapp/methods.go:457-511 | message.read leaves no pending incoming message in its chat and every other chat's messages untouched; when something was pending the counter is cleared |
| `Paging.NormalizeLimit` | whatsapp/daemon/internal/database/repo.go:172-180 | between 1 and the maximum, the limit itself when it is in range |
| `Paging.Listing` | whatsapp/daemon/internal/database/repo.go:556-580 | the rows of a set, newest first by time and id |
| `Paging.PageIs` | whatsapp/daemon/internal/database/repo.go:556-580 | one request: rows of the chat older than a positive `before`, newest first and by falling id within one time, at most the limit; a row left out belongs behind them and then the page is full |
| `Paging.IdLessIff` | whatsapp/daemon/internal/database/repo.go:556-580 | the order of ids within one time: by the first different code point, a prefix first |
| `Paging.ListingIsUnique` | whatsapp/daemon/internal/database/repo.go:556-580 | the order determines the listing |
| `Paging.ListingBefore` | whatsapp/daemon/internal/database/repo.go:556-580 | with a positive `before` a request lists the tail of the whole listing |
| `Paging.AllPagesArePages` | whatsapp/daemon/internal/whatsapp/methods.go:295-333 | the client's loop over `before` gives the pages of one fixed listing |
| `Paging.PagesAreOrdered` | whatsapp/daemon/internal/database/repo.go:556-580 | no row comes twice and pages come newest first |
| `Paging.SkippedRowsAreTied` | whatsapp/daemon/internal/database/repo.go:556-580 | a row that no page shows shares its time with one that is shown |
| `Paging.PagesAreCompleteIff` | whatsapp/daemon/internal/database/repo.go:556-580 | the pages are the listing iff no page ends between two rows of one time |
| `Paging.PagingIsCompleteIff` | whatsapp/daemon/internal/whatsapp/methods.go:295-333 | the same of the requests of a client, for any limit |
| `Paging.TiedRowsAreSkipped` | whatsapp/daemon/internal/whatsapp/methods.go:295-333 | two messages of one time, read one by one: the second is never shown |
| `Paging.PagingIsComplete` | whatsapp/daemon/internal/whatsapp/methods.go:295-333 | with pairwise distinct times paging shows the whole chat, for any limit |
| `Paging.PagingNeverRepeats` | whatsapp/daemon/internal/whatsapp/methods.go:295-333 | with positive times paging ends, never repeats a row and skips only tied rows |
| `Paging.PagingEndsIff` | whatsapp/daemon/internal/whatsapp/methods.go:295-333 | whatever the times are: the client's loop ends iff every page of the listing ends at a positive time |
| `Paging.ZeroTimeNeverEnds` | whatsapp/daemon/internal/whatsapp/methods.go:295-333 | one message of time 0: the loop does not end, for any limit |
| `Paging.NonPositiveTimesRestart` | whatsapp/daemon/internal/database/repo.go:556-580 | a page that ends at a time not positive makes the next request start over |
| `Inbox.EventQueue.Offer` | whatsapp/daemon/internal/whatsapp/persist.go:181-191 | an event is queued at the end or dropped; it is dropped only when the queue is full or closed |
| `Inbox.EventQueue.Drain` | whatsapp/daemon/internal/whatsapp/persist.go:212-221 | handles what is buffered, in order, and leaves nothing |
| `Inbox.AcceptedEventsAreHandled` | whatsapp/daemon/internal/whatsapp/persist.go:169-221 | in every interleaving: events are handled once and in the order of acceptance, and when Close has returned all accepted before it closed `done` are handled |
| `Inbox.PromisedAtClose` | whatsapp/daemon/internal/whatsapp/persist.go:169-177 | the events so promised are those accepted in the state in which `done` was closed |
| `Inbox.CloseIsReached` | whatsapp/daemon/internal/whatsapp/persist.go:169-221 | while Close waits some step of the worker or its own return is enabled, and each step of the worker brings the end nearer |
| `References.StatementActs` | whatsapp/daemon/internal/database/repo.go:184-275 | the statements on chats: each sets the columns it is there for |
| `References.RowStatementActs` | whatsapp/daemon/internal/database/repo.go:481-859 | the statements on messages and media likewise |
| `References.StatementSafe` | whatsapp/daemon/internal/database/repo.go:184-859 | each repository statement, inserts, media and last-message updates included, keeps all rows and keeps every chat, media and reaction reference resolved; it fails, and then changes nothing, exactly when it would add a row that refers to a missing one |
| `References.ContentSafe` | whatsapp/daemon/internal/whatsapp/persist.go:339-413 | the same of the statements of a content message |
| `References.MessageSafe` | whatsapp/daemon/internal/whatsapp/persist.go:268-438 | of any message event |
| `References.ConversationSafe` | whatsapp/daemon/internal/whatsapp/persist.go:679-741 | of a conversation |
| `Publishing.TogetherTheyPersist` | whatsapp/daemon/internal/whatsapp/persist.go:339-413 | uninterrupted, the statements of the interleaved model are the operation of the sequential one |
| `Publishing.TogetherTheyFinalize` | whatsapp/daemon/internal/whatsapp/media_send.go:216-262 | the same of the handler of a sent media message |
| `Publishing.TogetherTheyStore` | whatsapp/daemon/internal/whatsapp/methods.go:413-432 | and of the one of a sent text |
| `Publishing.TogetherTheyPublish` | whatsapp/daemon/internal/whatsapp/media_send.go:249-262 | the events of the interleaved model are those of the operation; a sent text has none |
| `Publishing.RunKeeps` | whatsapp/daemon/internal/whatsapp/persist.go:388-436 | the invariant of all interleavings, statement by statement, of the persister with any number of finalizeSentMedia and sent texts |
| `Publishing.ReceivedOnceAndStored` | whatsapp/daemon/internal/whatsapp/media_send.go:216-262 | in every such run each message id has at most one message.received, its row and chat are stored by then, and all references are resolved |
| `Publishing.InsertedRowsAreAnnounced` | whatsapp/daemon/internal/whatsapp/persist.go:388-436 | when all writers are done exactly the inserted rows that owe an event have been announced |
| `Interleaved.LateRowsAreBeingBooked` | whatsapp/daemon/internal/whatsapp/persist.go:388-413 | in every interleaving of the writers' statements, a row later than its chat's `last_message_ts` is one that some writer has stored and is about to book |
| `Interleaved.BoundedWhenDone` | whatsapp/daemon/internal/whatsapp/persist.go:388-413 | so when no writer is at work `last_message_ts` is not below any row of its chat |
| `Interleaved.TimesOnlyGrow` | whatsapp/daemon/internal/database/repo.go:209-241 | at no statement of anyone does a `last_message_ts` go down |
| `Interleaved.ColumnsAreExactWhenDone` | whatsapp/daemon/internal/whatsapp/persist.go:388-413 | when no writer is at work the time is set iff the chat has a row, and is the maximum, which the named row attains, if sent texts and conversations met their guards at the statements that matter |
| `Interleaved.UnreadWhenDone` | whatsapp/daemon/internal/database/repo.go:242-254 | when no writer is at work `unread_count` is what it was at any earlier moment, plus the row that was then stored and not counted, plus the incoming rows stored since, unless something wrote the counter in between |
| `NameResolver.NameResolver.RunPipeline` | whatsapp/daemon/internal/whatsapp/names.go:116-184 | the loops over the candidate identities compute the pipeline |
| `NameResolver.GroupsIgnoreTheHint` | whatsapp/daemon/internal/whatsapp/names.go:116-184 | for a group the push hint plays no part, and a resolved name is the stored subject or chat name |
| `NameResolver.SavedNamesWin` | whatsapp/daemon/internal/whatsapp/names.go:116-221 | a saved name of any identity wins over every push name, and these over the hint |
| `NameSources.FirstColumnNames` | whatsapp/daemon/internal/whatsapp/names.go:135-182 | the answer is the first non-empty one of: the saved columns of cae_contacts and of the store for the chat itself, then for its other identity by the LID mapping, the push names of both, the hint |
| `NameSources.LidIsNamedByItsNumber` | whatsapp/daemon/internal/whatsapp/names.go:146-152 | a LID without a saved name of its own has that of the phone number it maps to, full name before first name |
| `NameSources.NumberIsNamedByItsLid` | whatsapp/daemon/internal/whatsapp/names.go:153-159 | a phone number without a saved name of its own has that of the LID it maps to |
| `NameSources.NamelessIsANumber` | whatsapp/daemon/internal/whatsapp/names.go:178-184 | with no name anywhere a phone number, or that of a LID, is shown as `+` and its digits; any other chat as its JID; neither is resolved |
| `NameSources.LidIgnoresLidOf` | whatsapp/daemon/internal/whatsapp/names.go:146-152 | the answer for a LID does not depend on the map from phone numbers |
| `NameSources.NumberIgnoresPnOf` | whatsapp/daemon/internal/whatsapp/names.go:153-159 | nor that for a phone number on the map from LIDs |
| `NameSources.GroupNames` | whatsapp/daemon/internal/whatsapp/names.go:129-139 | a group: its subject, else its chat name unless that is the JID or a LID, else the JID, unresolved |
| `NameSources.RememberedEntry` | whatsapp/daemon/internal/whatsapp/names.go:240-251 | an answer is kept two minutes and a fallback twenty seconds; only a full cache is emptied first |
| `NameResolver.CacheStaysBounded` | whatsapp/daemon/internal/whatsapp/names.go:240-251 | remembering keeps the cache within its maximum size |
| `NameResolver.NameResolver.Resolve` | whatsapp/daemon/internal/whatsapp/names.go:90-112 | only hintless requests for well-formed JIDs read or write the cache; a live entry is the answer, otherwise the pipeline is |
| `NameRuns.ProvenanceOverRuns` | whatsapp/daemon/internal/whatsapp/names.go:90-139 | in every interleaving of resolvers and writers, every group name stored, cached or under way was given |
| `NameRuns.GivenComesFromSteps` | whatsapp/daemon/internal/whatsapp/group_repair.go:90-182 | a name is given initially, by a group event, by what the server answers to GetGroupInfo at that step, or by a history conversation |
| `NameRuns.GroupNamesHaveProvenance` | whatsapp/daemon/internal/whatsapp/persist.go:339-346 | each group name in a chat row, a group row, the cache or an answer was there initially or given by one of these before, never by a push hint |
| `NameRuns.SubjectsHaveProvenance` | whatsapp/daemon/internal/whatsapp/persist.go:575-605 | each subject in cae_groups was there initially or is group metadata: also no history conversation gets into that table |
| `NameRuns.FreshOverRuns` | whatsapp/daemon/internal/whatsapp/names.go:230-251 | in every run each cache entry and answer is a pipeline result of an earlier moment within its time to live |
| `NameRuns.ResolveIsFreshAndBounded` | whatsapp/daemon/internal/whatsapp/names.go:90-112 | a hintless answer is what the uncached pipeline gave at a moment of the run, no longer ago than the time to live when it was looked up; the cache is never above its bound |
| `NameRuns.AnswerIsRemembered` | whatsapp/daemon/internal/whatsapp/names.go:240-251 | a computed hintless answer is remembered with its time to live; with a hint the cache stays |
| `NameRuns.LookupAnswers` | whatsapp/daemon/internal/whatsapp/names.go:102-112 | a live entry answers a hintless lookup; every other request asks the pipeline |
| `NameRuns.ResolvedNameIsWritten` | whatsapp/daemon/internal/whatsapp/persist.go:339-346 | a resolved answer becomes the name of the chat, a fallback never does |
| `NameRuns.SubjectIsWritten` | whatsapp/daemon/internal/whatsapp/persist.go:575-605 | group metadata becomes the subject and the name of the chat |
| `GroupRepair.GroupRepairer.Kick` | whatsapp/daemon/internal/whatsapp/group_repair.go:51-77 | a pass starts iff none runs, the interval has passed and the service takes it; a refused start still counts for the interval |
| `GroupRepair.GroupRepairer.Done` | whatsapp/daemon/internal/whatsapp/group_repair.go:51-77 | the next pass may start |
| `GroupRepair.GroupRepairer.Run` | whatsapp/daemon/internal/whatsapp/group_repair.go:90-129 | the tables after a pass, with no more queries than allowed; each group that the queries reach has what its query answered |
| `GroupRepair.PassKeeps` | whatsapp/daemon/internal/whatsapp/group_repair.go:90-182 | a pass never spoils a chat that carries its subject, overwrites no known subject and touches only listed chats |
| `GroupRepair.PassRepairs` | whatsapp/daemon/internal/whatsapp/group_repair.go:90-182 | a listed chat to repair carries its subject after the pass, if the unknown subjects up to it fit the query limit |
| `GroupRepair.SubjectArrives` | whatsapp/daemon/internal/whatsapp/group_repair.go:135-161 | under the same premise a group without a stored subject gets the one its query answers, and its chat that name unless it is the raw JID; without an answer its subject and chat row stay |
| `GroupRepair.OthersAreLeftAlone` | whatsapp/daemon/internal/whatsapp/group_repair.go:107-109 | a chat listed as no group, or under a JID that is no group's, is left alone |
| `GroupRepair.RawJidIsNoName` | whatsapp/daemon/internal/whatsapp/group_repair.go:166-169 | a subject that is just the raw JID is never made a chat name |
| `GroupRepair.PassChanges` | whatsapp/daemon/internal/whatsapp/group_repair.go:90-182 | a pass changes subjects, and of chat rows only the name and the kind |
| `Lexer.SkipComment` | extras/scripts/patch-caelestia-nexus.py:99-130 | where the scanners go on behind a comment is where the reference lexer leaves it |
| `Lexer.Skip` | extras/scripts/patch-caelestia-nexus.py:190-220 | a step over string, escape or comment text agrees with the reference lexer in mode, significance and position |
| `Lexer.FindMatching` | extras/scripts/patch-caelestia-nexus.py:99-130 | the first position at which the brackets of the code, strings and comments left out, balance; -1 iff there is none |
| `Lexer.CountTopLevelObjects` | extras/scripts/patch-caelestia-nexus.py:133-166 | the number of top-level `{...}` of the code |
| `Lexer.LastSignificantIndex` | extras/scripts/patch-caelestia-nexus.py:190-220 | the last position that is neither white space nor comment |
| `ScannedText.CodeIsPlain` | extras/scripts/patch-caelestia-nexus.py:99-130 | for any text of code, strings in either kind of quotes, line and block comments, given by its characters: the scanner leaves it in code and takes exactly the plain characters for code |
| `ScannedText.ClosingIff` | extras/scripts/patch-caelestia-nexus.py:99-130 | in such a text a position closes the first bracket iff a closing bracket of code stands there and openers and closers of code are equally many up to it |
| `ScannedText.CloseOfList` | extras/scripts/patch-caelestia-nexus.py:99-130 | a list that holds square brackets only in strings and comments is closed by its last character |
| `ScannedText.CloseBehindString` | extras/scripts/patch-caelestia-nexus.py:113 | so the list of one string, in either kind of quotes and with any escapes, other quotes and brackets in it |
| `ScannedText.ObjectsAreOpenings` | extras/scripts/patch-caelestia-nexus.py:133-166 | the objects counted are the opening braces of code that lie in no other object: the balance there is as low as anywhere before |
| `ScannedText.LastSignificantIsLast` | extras/scripts/patch-caelestia-nexus.py:190-220 | the last significant position is that of the last character that is neither blank, in a comment, escaped, a backslash in a string nor a closing quote |
| `QmlTokens.DepthIsSquares` | extras/scripts/patch-caelestia-nexus.py:99-130 | bracket depth is a matter of the tokens alone |
| `QmlTokens.BracesAreTokens` | extras/scripts/patch-caelestia-nexus.py:133-166 | so is the count of objects |
| `QmlTokens.LastOfCode` | extras/scripts/patch-caelestia-nexus.py:190-220 | the last significant position is just behind the last token when that is code |
| `QmlTokens.LastOfString` | extras/scripts/patch-caelestia-nexus.py:190-220 | and inside the string when the last token is a string |
| `QmlTokens.LastSum` | extras/scripts/patch-caelestia-nexus.py:236-255 | it does not depend on what comes before complete code |
| `QmlTokens.CommaAfterCode` | extras/scripts/patch-caelestia-nexus.py:236-255 | a comma put behind the last code is one token more and nothing else |
| `QmlTokens.CommaInString` | extras/scripts/patch-caelestia-nexus.py:236-255 | a comma put inside a string is a character of that string |
| `QmlLists.AppendIff` | extras/scripts/patch-caelestia-nexus.py:236-255 | on token lists: the entries are the old ones and the new one iff the old list ends in code |
| `QmlLists.BracketedIsEntry` | extras/scripts/patch-caelestia-nexus.py:236-255 | a comma between brackets of any of the three kinds divides no entry |
| `QmlLists.ObjectsGrow` | extras/scripts/patch-caelestia-nexus.py:183-187 | an entry of one object raises the count of objects by one |
| `ListPatcher.InsertEntry` | extras/scripts/patch-caelestia-nexus.py:236-255 | succeeds iff the list is found and closed, otherwise the text is unchanged |
| `ListPatcher.InsertEntryAppendsIff` | extras/scripts/patch-caelestia-nexus.py:236-255 | for a list that closes alone on its line: it still opens and closes, the text around it is unchanged, and the entries are the old ones in order and exactly the new one iff the list is not empty and its last token is no string |
| `ListSamples.StringTakesTheComma` | extras/scripts/patch-caelestia-nexus.py:190-220 | a list that ends in a string, to which one entry is not appended |
| `ListSamples.EmptyListGetsAComma` | extras/scripts/patch-caelestia-nexus.py:244-248 | a list without entries, neither |
| `ListPatcher.InsertEntryCounts` | whatsapp/patches/patch-caelestia-whatsapp-nexus.py:215-235 | `count_list` grows by exactly one, also when the last token is a string |
| `TextLines.SplitJoin` | whatsapp/patches/patch-caelestia-whatsapp-nexus.py:194-212 | splitting joined lines gives the lines |
| `TextLines.JoinSplit` | whatsapp/patches/patch-caelestia-whatsapp-nexus.py:194-212 | joining split lines gives the text |
| `RegistryPatch.FindLastImport` | whatsapp/patches/patch-caelestia-whatsapp-nexus.py:194-212 | just behind the last import line, 0 without one |
| `RegistryPatch.FindInsertion` | whatsapp/patches/patch-caelestia-whatsapp-nexus.py:194-212 | the loop that steps out of other patches' marked runs |
| `RegistryPatch.AddMarkedImport` | whatsapp/patches/patch-caelestia-whatsapp-nexus.py:194-212 | found iff there is an import; changed iff found and the line was missing |
| `RegistryPatch.EnterEntry` | extras/scripts/patch-caelestia-nexus.py:258-276 | the text with the entry, unless its sentinel is there |
| `RegistryPatch.BuildRegistry` | whatsapp/patches/patch-caelestia-whatsapp-nexus.py:238-256 | import step and entry together |
| `RegistryLines.StartsImportIff` | whatsapp/patches/patch-caelestia-whatsapp-nexus.py:204 | the import lines: white space, the word, a space and something not blank |
| `RegistryLines.IsImportIff` | whatsapp/patches/patch-caelestia-whatsapp-nexus.py:201 | the line that makes the import needless: it and blanks or tabs |
| `RegistryLines.ClosingMarkIff` | whatsapp/patches/patch-caelestia-whatsapp-nexus.py:208-210 | the lines stepped out of: white space, two slashes, white space, three `<` |
| `RegistryLines.ImportGoesTo` | whatsapp/patches/patch-caelestia-whatsapp-nexus.py:200-212 | a missing import goes behind the last import line and the closing markers that follow it, as an empty line, the marker, the import and the marker |
| `RegistryLines.EntryLines` | whatsapp/patches/patch-caelestia-whatsapp-nexus.py:231-235 | the lines of the entry between its markers, each with the blanks of the closing line in front |
| `RegistryLines.EntryGoesTo` | whatsapp/patches/patch-caelestia-whatsapp-nexus.py:220-235 | the entry goes in front of the closing line, and one comma goes behind the last significant character before it unless that is a comma or missing; nothing else changes |
| `RegistryPatch.BuildTwiceIffSettled` | whatsapp/patches/patch-caelestia-whatsapp-nexus.py:238-256 | building again changes nothing iff the built text has the import line or no import at all |
| `RegistryTwice.ImportSurvivesIff` | extras/scripts/patch-caelestia-nexus.py:236-255 | the import line is in the text after the insertion iff it is on a line that the separating comma does not fall on |
| `RegistryTwice.ImportedTwiceIff` | extras/scripts/patch-caelestia-nexus.py:258-276 | for every text with an import: twice equals once iff the entry was there, or there is no list, or the comma spares a line with the import |
| `RegistryBare.InsertedBeginsIff` | extras/scripts/patch-caelestia-nexus.py:236-255 | a text without imports has one after the insertion iff a line of the entry becomes one behind what stands in front of the closing bracket; the comma never makes one |
| `RegistryBare.BuildTwiceIsOnceIff` | extras/scripts/patch-caelestia-nexus.py:258-276 | for every text: with an import the comma decides, without one whether the entry brings one |
| `RegistryDiffers.BuildTwiceCanDiffer` | extras/scripts/patch-caelestia-nexus.py:258-276 | the texts on which it differs: nothing significant between the only import and the line that closes the list |
| `RegistryDiffers.OneLineListDiffers` | extras/scripts/patch-caelestia-nexus.py:236-255 | for one, a list that opens and closes on the line below the only import |
| `RegistryDiffers.CommentedListDiffers` | extras/scripts/patch-caelestia-nexus.py:236-255 | for another, any declaration in a comment line below the only import, its bracket on the next line |
| `RegistrySample.BuildTwiceDiffersSample` | extras/scripts/patch-caelestia-nexus.py:258-276 | and one text and configuration in full, which meet all that is assumed |
| `Markers.NextPiece` | whatsapp/patches/patch-caelestia-whatsapp.py:452-464 | one round of the loop over the matches |
| `Markers.StripBlocks` | whatsapp/patches/patch-caelestia-whatsapp.py:452-464 | the loop gives the text with every matched block kept, renewed or removed |
| `Markers.StripOneBlock` | whatsapp/patches/patch-caelestia-whatsapp.py:436-464 | what one block becomes depends on it alone |
| `Markers.StripLastBlock` | whatsapp/patches/patch-caelestia-whatsapp.py:436-464 | a block that ends the text leaves the unterminated line behind |
| `Markers.StripNothing` | whatsapp/patches/patch-caelestia-whatsapp.py:77-82 | lines without an opening marker are passed over |
| `MarkerLines.BeginIff` | whatsapp/patches/patch-caelestia-whatsapp.py:77-82 | an opening marker line: blanks or tabs, the marker, blanks or tabs, nothing else |
| `MarkerLines.EndIff` | whatsapp/patches/patch-caelestia-whatsapp.py:77-82 | a closing marker line: blanks or tabs and the marker; what follows it and its blanks is not in the match |
| `MarkerLines.BlockBecomes` | whatsapp/patches/patch-caelestia-whatsapp.py:436-464 | the first block of a text by its lines: kept, replaced or removed as its inner lines say, in this order; what follows the closing marker on its line stays |
| `MarkerLines.LineStays` | whatsapp/patches/patch-caelestia-whatsapp.py:77-82 | a line that opens no block stays, also an opening marker that nothing closes |
| `InteractionsPatch.FindLine` | whatsapp/patches/patch-caelestia-whatsapp.py:122-127 | the first line that the pattern matches |
| `InteractionsPatch.InsertAfterLine` | whatsapp/patches/patch-caelestia-whatsapp.py:172-180 | search and splice put the block behind the first matching line; success iff there is one |
| `InteractionsPatch.ReplaceOnce` | whatsapp/patches/patch-caelestia-whatsapp.py:195-199 | the first line with the press handler is replaced; success iff there is one |
| `InteractionsPatch.PatchInteractions` | whatsapp/patches/patch-caelestia-whatsapp.py:445-487 | the imperative patch gives the text of the specification |
| `InteractionsPatch.PatchInteractionsOld` | extras/scripts/patch-caelestia-whatsapp.py:412-459 | the old patch: nothing when it is there, otherwise four insertions by search and splice, each of which may miss |
| `InteractionsPlaces.OldBlockGoesTo` | extras/scripts/patch-caelestia-whatsapp.py:412-459 | each block of the old patch goes behind its own kind of line |
| `InteractionsPlaces.NewLinesGoTo` | whatsapp/patches/patch-caelestia-whatsapp.py:466-471 | on a text without markers the new block goes behind its place and the new handler takes the place of the old one, with the rest of that line around it |
| `InteractionsPatch.StripInserted` | extras/scripts/patch-caelestia-whatsapp.py:412-459 | the pass over the old patch's text gives the clean text with only the fullscreen block renewed, for each set of places found |
| `InteractionsPatch.UpgradeIsFreshIff` | whatsapp/patches/patch-caelestia-whatsapp.py:445-487 | for every text without opening markers: new after old equals new alone iff the old patch found itself there, or the core has no fullscreen handler of its own beside the place of the new one and no block went behind an unterminated last line |
| `InteractionsPatch.OwnHandlerDiffers` | whatsapp/patches/patch-caelestia-whatsapp.py:467-471 | the texts on which they differ: a core with its own fullscreen handler beside the place of the new one, for one |
| `InteractionsPatch.LastLineDiffers` | whatsapp/patches/patch-caelestia-whatsapp.py:172-180 | and a place on an unterminated last line, for another |
| `StableBlocks.StripIsStable` | whatsapp/patches/patch-caelestia-whatsapp.py:452-464 | where every marker stands alone on its line, the pass over the blocks leaves a text that it leaves as it is |
| `InteractionsTwice.FixedIffStable` | whatsapp/patches/patch-caelestia-whatsapp.py:445-487 | the patched text is a fixed point of the patch iff the pass over the blocks leaves it as it is |
| `InteractionsTwice.NewBlockBetween` | whatsapp/patches/patch-caelestia-whatsapp.py:172-180 | with the fullscreen block between two parts the text is stable iff they are and the open part in front of it, if any, has a line that makes a block kept; without an open part something must follow |
| `InteractionsTwice.NewHandlerBetween` | whatsapp/patches/patch-caelestia-whatsapp.py:195-199 | with the new press handler between two parts the text is stable iff they are |
| `InteractionsTwice.NewPatchIsFixedIff` | whatsapp/patches/patch-caelestia-whatsapp.py:445-487 | for every text whose markers stand alone, paired or not: patching again changes nothing iff what is behind the two insertions is stable by itself, and the fullscreen block closes no open part, and is not last, or closes one that is kept |
| `InteractionsTwice.PairedIsFixedIff` | whatsapp/patches/patch-caelestia-whatsapp.py:445-487 | when no kept block holds a second opening marker: iff the fullscreen block is not due, or its place is in no open part and not last, or in one with a line in front of it that makes it kept, be it the new handler |
| `InteractionsLost.OpenPartIsDropped` | whatsapp/patches/patch-caelestia-whatsapp.py:452-464 | when the place is in an open part without such a line, patching again drops everything from the opening marker to the place |
| `InteractionsLost.StrayBeginIsNotFixed` | whatsapp/patches/patch-caelestia-whatsapp.py:77-82 | so for an opening marker that nothing closes, in any text around it |
| `InteractionsLost.SplitBlockIsNotFixed` | whatsapp/patches/patch-caelestia-whatsapp.py:436-442 | so for a paired block that is kept for a line behind the place in it: the first pass splits it, the second drops its first part |
| `InteractionsLost.LastLineIsNotFixed` | whatsapp/patches/patch-caelestia-whatsapp.py:172-180 | for a place on an unterminated last line, in no open part, the second pass adds the missing newline |
| `RegionsPatch.Innermost` | whatsapp/patches/patch-caelestia-whatsapp.py:128-142 | the last brace before a position whose match is behind it |
| `RegionsPatch.FindEnclosingBlock` | whatsapp/patches/patch-caelestia-whatsapp.py:128-142 | the innermost block around the position, none iff there is none |
| `RegionsPatch.InsertAfterEnclosingBlock` | whatsapp/patches/patch-caelestia-whatsapp.py:183-192 | succeeds iff there is such a block; the new lines go right behind it |
| `RegionsPatch.ReplaceFirstBlock` | whatsapp/patches/patch-caelestia-whatsapp.py:371-397 | the search finds the first marked block iff there is one, and only that block is replaced |
| `RegionsPatch.PatchRegions` | whatsapp/patches/patch-caelestia-whatsapp.py:371-397 | the imperative patch gives the text of the specification |
| `RegionsPatch.RegionGoesTo` | whatsapp/patches/patch-caelestia-whatsapp.py:183-192 | a fresh region goes right behind the innermost block around the place, on lines of its own |
| `RegionsPatch.FirstBlockIs` | whatsapp/patches/patch-caelestia-whatsapp.py:380-384 | of a text with a marked block exactly that block is replaced |
| `RegionsPatch.RegionIsRenewed` | whatsapp/patches/patch-caelestia-whatsapp.py:380-384 | and nothing is inserted then |
| `RegionsPatch.UpgradeIsFreshIff` | extras/scripts/patch-caelestia-whatsapp.py:328-344 | for every text without opening markers: new after old equals new alone iff the old patch found itself there or no place, or the text has no modal region yet |
| `RegionsPatch.OwnRegionDiffers` | extras/scripts/patch-caelestia-whatsapp.py:328-344 | a text that has a modal region already gets the old block and keeps it, while a fresh install changes nothing |
| `RegionsPatch.NewPatchIsFixed` | whatsapp/patches/patch-caelestia-whatsapp.py:371-397 | for every text, patching again changes nothing |

## Left out

- Real SQLite (WAL, locking, pragmas, migrations), whatsmeow, protobuf, HTTP, QR images, image decoding and hashing: they are outcomes that a step may choose, or parameters.
- Failing statements outside `WithTx`: single statements succeed, except those refused for an unresolved reference.
- Integer width: `loginGen`, `nextID`, counters and byte counts are unbounded; none of them comes near 64 bits in the life of a process.
- Timers, deadlines and ban recovery: a timeout is a step that may happen at any moment; the clock of the name cache is a number that only grows.
- Connection state and its terminal-state guards, classification of errors, payload builders, MIME tables and window layout: one branch settles each.
- Participants, pins, preview texts after edits, update times and most media columns: no result is about them.
- `Receipts` and `Replay` take the operations of the writers one after another; for the last-message columns and the counter the interleaving of statements is in `Interleaved`, for events and references in `Publishing`.
- Chat and contact names after a replay: push names are resolved again, so `Replay.ReplayIsIdempotent` leaves names out. Receipt rows are left out there too, since a conversation writes none.
- Payload fields of events beside those in `Persister.Domain`; chat.updated after group events, name repairs, name backfills and avatar downloads.
- Events offered after `done` is closed may be lost; nothing is promised about them.
- `Inbox` and `ServiceShutdown` have one closer, as `sync.Once` makes of many.
- Names: the pipeline reads the tables and the contact store at one moment; the String and Parse functions of JIDs are taken to be inverse on well-formed ones. Contacts written from the push names of a history sync are not steps of `NameRuns`, since they name no group.
- A group subject that is out of date within the cache's time to live: `NameRuns.ResolveIsFreshAndBounded` says how old an answer can be.
- SearchContacts: the order and the limit of the result.
- Group repair: the pause between queries and their time limit.
- Regular expressions: the places that the patches look for are parameters, predicates on lines or functions from a text to a position; a match that spans lines is not modelled. The marker block pattern is modelled exactly.
- Fixed texts that the patches insert are parameters; `KitOk`, `PressOk` and `Fits` state what the proofs need of them (marked blocks that hold no place the patches look for).
- Newline conventions other than `\n` in the QML texts.
- The settings patcher's loop over the entries of one list: each list has one entry, which is the one modelled.
- patch_panels, patch_content_window, the bar and dock patchers, backups, dry runs, argument parsing and messages.
- Markdown: the HTML of a block and inline rendering; `\w` and `\d` are ASCII here.
- NewPatchIsFixedIff: for texts in which a closing marker is followed by other text on its line nothing is claimed; what follows it there moves to the front of a line when its block goes.
- Persister.Worker.Conversation: a failing statement inside a message stops before that message, since what it had written is rolled back in any case.
- GroupRepair.PassRepairs: speaks of one pass; chats beyond the query limit wait for a later one.
