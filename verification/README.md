# Verified model of agent-lsp's core

agent-lsp is a server that runs language servers on behalf of coding agents. This project models, in
Dafny, the parts of it whose correctness is decided by code rather than by the language servers, and
proves what those parts promise. Each `.dfy` file is one module:

| module | part of agent-lsp | main results |
|---|---|---|
| `Framing` | Content-Length framing: the resumable reader and the broker's reader | the resumable search refines the naive one; framing does not depend on how the stream is cut into reads or on the other headers; the size bound is exact; exactly which headers crash either reader |
| `Rpc`, `Broker` | request correlation in the client and through the daemon broker, as step systems | at most one delivery per request; results reach their own caller as results and errors as errors in every interleaving, and an undisturbed exchange completes; in every run, a message nobody waits for stays under way until its connection closes |
| `Readiness` | progress tokens and readiness waits | a stuck token is paid for once; what "indexed" means |
| `Diagnostics` | publication counters, versions and the settling wait | exactly when a settled file may still be stale; what a settled wait is worth to the caller of an edit |
| `Session`, `SessionManager`, `Executor` | speculative sessions: as values, as objects updated in place, and their semaphore | replay invariant, server text, disk safety, frozen terminal states, chain deltas, mutual exclusion |
| `Differ` | the diagnostic diff | multiset difference with conservation; deltas add up along a chain |
| `Symbols` | re-nesting of flat symbol lists, smallest enclosing symbol | permutation, tidiness, innermost parents if and only if enclosing symbols form chains; smallest over the whole forest |
| `TextEdits` | LSP range edits and back-to-front edit lists | a range edit is a splice; the backward fold is simultaneous replacement for all texts if and only if every position is held |
| `SemanticTokens` | semantic token decoding | round trip of the LSP integer encoding |
| `Codex` | the TOML table edit | last write wins, undo, strings read back |
| `Phase` | phase enforcement | monotone phases, one window per guarded tool, exactly which phases a run can enter and when advice helps; two built-in tables that defeat their own purpose |
| `Wrappers` | numbers in decimal | helpers |

Code that changes things in place is modelled by classes whose fields are the source's maps and
counters and by loops. Each method is proved equal to a step of a value-level system, or to a function
of its inputs; the theorems about runs are proved about those. Goroutines become interleaved steps.
Clocks, the network, file systems and language servers become parameters that may take any value.

Where the code differs from what its comments or the protocol suggest, the model follows the code and
the difference is a lemma of its own:

- A reply to a request that has been given up is answered with a null response, which the broker takes
  for a request without a method; its error response is unmatched in turn, and no run settles the exchange
  before the connection closes (`Broker.LateReplyNeverSettles`). `Broker.StepBegins` and
  `Broker.HauntedIffBegan` say exactly when it begins.
- A reset or restart between an older publication and the next poll, and a close followed by a reopen,
  make old diagnostics look covered (`Diagnostics.ResetHidesStale`, `Diagnostics.ReopenedLooksCovered`).
  `Diagnostics.SettledIsNotStale` is the exact condition.
- An empty symbol range on the border of two others has no unique innermost symbol around it
  (`Symbols.EmptyRangeOnBorder`); `Symbols.RenestInnermostIffChained` is the exact condition.
- `renestFlatSymbols` sorts the roots of lists that are already trees, but not their children, which its
  comment says come out sorted (`Symbols.TreesPassThrough`).
- Edits whose positions are clamped may come out in the wrong order or in the wrong place when a later
  edit starts where they are clamped to, or when their line does not exist
  (`TextEdits.SimultaneousIffHeld`, `TextEdits.InsertOrderIffOnText`).
- The diff ignores a diagnostic's source, although its comment says it compares with `DiagnosticsEqual`
  (`Differ.CancellingDiagnostics`), and severity 0 counts as significant (`Differ.FilterSignificant`).
- A commit whose notification failed ends as committed, not dirty (`Session.FailedNotificationIsForgotten`).
- No run of lsp-safe-edit ever reaches its apply phase, and the advice given there is circular
  (`Phase.SafeEditNeverApplies`, `Phase.SafeEditRecoveryIsCircular`; in general
  `Phase.EnterableIffReachable`); in lsp-rename, `apply_edit` as the
  first call skips the preview (`Phase.RenameEditSkipsPreview`). `Phase.AdviceLeadsOnIff` and
  `Phase.EarlyCallIffReachablyFree` are the exact conditions, and `Phase.CanAdvanceIffEscapes` lets them be
  read off a table.
- The broker rejects frames with an empty body (`Framing.BrokerRoundTrip`); a Content-Length close to
  2^63 crashes the client's reader (`Framing.LargestLengthCrashes`, exactly: `Framing.CrashIffLengthWraps`);
  one that is negative or too large for Go's make crashes the broker's (`Framing.MinusOnePanics`,
  `Framing.LargestLengthPanics`, exactly: `Framing.PanicIffUnmakeable`).

## Model

| member | source | states |
|---|---|---|
| Framing.ResumedSearchIsFull | internal/lsp/framing.go:45-57 | a terminator search resumed behind bytes known to hold no terminator finds exactly what a search from the start finds, also when the terminator is split across reads |
| Framing.FrameReader.ReadMessage | internal/lsp/framing.go:42-73 | the resumable reader returns the same message, keeps the same bytes and consumes the same reads as the reader that searches its whole buffer each time, including failed reads, the overflow discard and headers without a usable length |
| Framing.FrameRoundTrip | internal/lsp/framing.go:77-131 | any prefix of a stream that begins with an encoded frame parses to exactly that body and the bytes behind it once the frame is complete, and to nothing before |
| Framing.SplitJoined | internal/lsp/framing.go:107-108 | the lines of a header are the non-empty lines without line breaks it was joined from |
| Framing.LengthLineForms | internal/lsp/framing.go:109-111 | a content-length line counts in any case and with blanks or tabs on either side of its number |
| Framing.FrameParses | internal/lsp/framing.go:77-131 | for any header lines, the first content-length line of which holds the body's length, any prefix of a stream beginning with that frame parses to its body once it is complete, and to nothing before |
| Framing.NextMessage | internal/lsp/framing.go:42-73 | whatever part of the stream is buffered and whatever headers its frames have, one read returns the next body and leaves exactly the frames behind it |
| Framing.FramesComeBack | internal/lsp/framing.go:11-131 | frames with any headers, each at most the buffer limit minus 4095 bytes, come back in order under any split into reads of at most 4096 bytes, and nothing is left or discarded |
| Framing.ChunkingIsInvisible | internal/lsp/framing.go:11-131 | the same for the frames this client's own encoder writes |
| Framing.FailedReadKeepsData | internal/lsp/framing.go:60-73 | a read that fails keeps what it delivered |
| Framing.FrameBoundIsExact | internal/lsp/framing.go:60-68 | when the last byte of a frame arrives in a full read, the frame is discarded if and only if it is longer than that bound |
| Framing.CrashIffLengthWraps | internal/lsp/framing.go:102-131 | on any buffer the parser crashes if and only if its header is complete and the first content-length line announces a length whose end passes the largest 64-bit integer |
| Framing.LargestLengthCrashes | internal/lsp/framing.go:102-131 | the header announcing 2^63 - 1 crashes the parser, whatever follows it |
| Framing.BufferedReader.ReadString | internal/lsp/daemon_broker.go:303-307 | reads up to and including the next newline, or fails at the end of the stream having consumed it |
| Framing.ReadFramedMessage | internal/lsp/daemon_broker.go:300-328 | the header loop computes the function FramedSpec of the bytes to come: last Content-Length wins, empty line ends the header, room for the body is made, then the body is read, with every error and panic and the bytes left over |
| Framing.BrokerRoundTrip | internal/lsp/daemon_broker.go:300-335 | the broker reads back any encoded non-empty body that Go can make room for, and the stream behind it; an empty body is reported as a missing header |
| Framing.BrokerReadsFrame | internal/lsp/daemon_broker.go:300-328 | other header lines anywhere do not matter to the broker's reader: if every length line holds a number and the last one the body's length, it reads the body back |
| Framing.PanicIffUnmakeable | internal/lsp/daemon_broker.go:300-328 | on any stream the broker's reader panics if and only if the header is complete, every length in it is a number and the last one is negative or larger than Go's make accepts |
| Framing.LargestLengthPanics | internal/lsp/daemon_broker.go:300-328 | the header announcing 2^63 - 1 makes it panic, before any of the body is read |
| Framing.MinusOnePanics | internal/lsp/daemon_broker.go:300-328 | the header announcing -1 makes it panic, whatever follows it |
| Rpc.RpcClient.AddPending | internal/lsp/client.go:1052-1076 | registering takes the next id, never used before, and gives it two empty channels |
| Rpc.RpcClient.Dispatch | internal/lsp/client.go:599-628 | a reply whose id is pending is taken out of the map and sent on one of the two channels; any other reply changes nothing |
| Rpc.RpcClient.SendResult | internal/lsp/client.go:616-621 | a send on a one-place channel that must be empty, or it would block |
| Rpc.RpcClient.SendError | internal/lsp/client.go:616-621 | the same for the error channel |
| Rpc.RpcClient.RejectPending | internal/lsp/client.go:988-996 | every pending request, and no other, gets the exit on its error channel; every one of these sends finds its channel empty |
| Rpc.RpcClient.RemovePending | internal/lsp/client.go:1078-1104 | a timeout, an ended context or a failed write takes the request out of the map and returns to its caller |
| Rpc.RpcClient.ReplacePending | internal/lsp/client.go:1652-1654 | a restart empties the map and sends nothing |
| Rpc.StepKeepsInv | internal/lsp/client.go:1052-1105 | every step keeps each request in at most one place: waiting, claimed by the read loop, or sent to once |
| Rpc.AtMostOneDelivery | internal/lsp/client.go:606-624 | in every interleaving of replies, exit, write failure, timeout and restart each request gets at most one send across its two channels, and none while it waits or is claimed, so no send blocks |
| Rpc.GoneStaysGone | internal/lsp/client.go:1052-1104 | an id that has left the pending map never enters it again and keeps its question |
| Rpc.StepCarries | internal/lsp/client.go:606-624 | what holds of every reply matched to an id, as a result or as an error, holds of everything that id's caller receives in the same way |
| Rpc.ReplyReachesCaller | internal/lsp/client.go:606-624 | a reply to a pending request, taken and collected, is returned to the caller, a result as a result and an error as an error |
| Rpc.ExitReachesAll | internal/lsp/client.go:988-996 | on exit each pending request, and no other, has the exit on its error channel, and its caller returns it |
| Rpc.RequestLifetime | internal/lsp/client.go:1052-1104 | a request takes an unused id and is pending; a failed write or giving up takes it out and is what its caller returns |
| Broker.StepOk | internal/lsp/daemon_broker.go:237-297 | every step of clients, connections, handlers, upstream client and server keeps the system invariant that ties each forwarded request to the connection and id it came from |
| Broker.AnswersReachTheirCaller | internal/lsp/daemon_broker.go:237-297 | in every interleaving, a daemon client's caller that returns a result returns a result the server gave to its own method and params, for the request its own connection forwarded for its own id; an error is such an error of the server, or the broker's own, and then such a request ended without an answer |
| Broker.UndisturbedExchange | internal/lsp/daemon_broker.go:237-297 | from any reachable state with a quiet connection, a request reaches the server and its answer returns to the caller, a result as a result and an error as an error |
| Broker.LateReplyNeverSettles | internal/lsp/client.go:625-746 | from any reachable state, in every run of clients, handlers and server: once a message for a request nobody waits for is under way on an open connection, such a message is under way until the connection closes |
| Broker.StepBegins | internal/lsp/client.go:606-628 | on an open connection with no such message, a step leaves one if and only if a client step takes a request out of the pending map while a message for it is under way, a request is sent that is no longer pending, or a response settles a request of which another message is under way |
| Broker.HauntedIffBegan | internal/lsp/client.go:606-628 | over every run without a disconnect, such a message is under way at the end if and only if one was at the start or such a step was taken |
| Broker.GivingUpHaunts | internal/lsp/client.go:1094-1104 | after a timeout or cancellation such a message is under way if and only if one was before or one for that request was under way |
| Broker.OneRoundOfEchoes | internal/lsp/client.go:742-746 | on an otherwise quiet connection, four steps and one more upstream request lead back to the same connection state |
| Readiness.ProgressTracker.RegisterToken | internal/lsp/client.go:635-644 | a create event makes the token active |
| Readiness.ProgressTracker.HandleBegin | internal/lsp/client.go:815-850 | a begin event makes the token active and not stale, and the first one ever withdraws the loaded mark |
| Readiness.ProgressTracker.HandleEnd | internal/lsp/client.go:815-850 | an end event makes the token neither active nor stale |
| Readiness.ProgressTracker.PendingProgress | internal/lsp/client.go:855-866 | counts the active tokens, without the stale ones when they are skipped |
| Readiness.ProgressTracker.MarkActiveStale | internal/lsp/client.go:968-984 | a timed-out default wait marks every active token stale |
| Readiness.ProgressTracker.ResetForRestart | internal/lsp/client.go:1655-1662 | a restart clears tokens, stale tokens and marks |
| Readiness.ProgressTracker.WaitForProgress | internal/lsp/client.go:921-986 | for any events and clock readings at each wakeup: done means nothing is pending; timed out means the last clock had expired with something pending, and on a default wait leaves every active token stale; cancelled means cancelled; a wait that is not extended sleeps only while something is pending and it is neither cancelled nor expired, and returns at once when nothing is pending |
| Readiness.ActiveIffRunning | internal/lsp/client.go:815-850 | a token is active exactly when it was created or begun and has neither ended nor been reset since |
| Readiness.LoadedIffMarked | internal/lsp/client.go:821-833 | the workspace counts as loaded exactly when a wait marked it so and neither a restart nor the server's first progress came after that |
| Readiness.ProgressTracker.IsWorkspaceLoaded | internal/lsp/client_notify.go:39-51 | indexed exactly when marked loaded and no active token is stale |
| Readiness.StuckTokenPaidOnce | internal/lsp/client.go:917-985 | in any run with any number of concurrent waits, the default waits that end by timeout are at most the begin and create events |
| Readiness.StaleIsActive | internal/lsp/client.go:815-850 | stale tokens are active tokens in every reachable state |
| Readiness.IndexedMeansNothingStale | internal/lsp/client_notify.go:39-51 | in every reachable state, indexed means marked loaded with no stale token at all |
| Readiness.StaleIffLeftBehind | internal/lsp/client.go:815-985 | a token is stale exactly when it outlasted some default wait and has since neither ended nor begun again, with no restart |
| Readiness.TimedOutStaysUnindexed | internal/lsp/client.go:968-984 | after a timed-out default wait the workspace does not read as indexed while any token then active has neither ended nor begun again |
| Diagnostics.DiagnosticsStore.HandlePublishDiagnostics | internal/lsp/client.go:779-812 | a publication raises the file's counter and replaces or removes its version |
| Diagnostics.DiagnosticsStore.OpenDocument | internal/lsp/client.go:1820-1860 | opening sends version 1, sending again the next version |
| Diagnostics.DiagnosticsStore.CloseDocument | internal/lsp/client.go:1863-1870 | closing forgets the document but not the version published for it |
| Diagnostics.DiagnosticsStore.ResetDiagnostics | internal/lsp/client.go:1925-1930 | a reset forgets the version but not the counter |
| Diagnostics.DiagnosticsStore.ResetForRestart | internal/lsp/client.go:1667-1677 | a restart forgets documents and versions but no counter |
| Diagnostics.DiagnosticsStore.MarkDiagnostics | internal/lsp/diagnostics.go:22-26 | a mark holds the counter as it stands |
| Diagnostics.DiagnosticsStore.Poll | internal/lsp/diagnostics.go:125-138 | with anything happening between two reads, the poll says whether a counter moved since the poll before, whether every file was covered when classified, and whether one was stale |
| Diagnostics.DiagnosticsStore.WaitSettled | internal/lsp/diagnostics.go:76-150 | settled only 500 ms after the last poll that saw a counter move, or after the start if none did; with a clock that never runs backwards, 500 ms after the start and after every such poll; the first poll that covers every file behind such a window ends the wait as settled; the other ends are as the deadline, the context and the kind of server decide |
| Diagnostics.QuietSinceEveryMove | internal/lsp/diagnostics.go:125-139 | with such a clock, quiet since the last move is quiet since every move and since the start |
| Diagnostics.VersionsCountSends | internal/lsp/client.go:1820-1870 | an open document's version goes up by one with every text sent and begins again after a close or restart |
| Diagnostics.SettledAccounts | internal/lsp/diagnostics.go:139-148 | a settled wait found every file covered, or silent past the deadline on a server that may stay silent, and a full quiet window |
| Diagnostics.CountersCount | internal/lsp/client.go:779-807 | counters count publications; no send, close, reset or restart changes them |
| Diagnostics.ReportedIsLatest | internal/lsp/client.go:779-807 | the recorded version is that of the latest publication unless a reset or restart came after it |
| Diagnostics.EditStartsOlder | internal/session/manager.go:190-205 | whatever happens to other files, an edit's mark starts with nothing recorded for its own file that could satisfy it without a new publication, as long as that file stays open |
| Diagnostics.CoveredMeansPublished | internal/lsp/diagnostics.go:37-52 | a file that stays open is silent exactly when nothing was published for it since its mark, so covered or stale means something was, across resets and restarts |
| Diagnostics.StaleIffLatestIsOlder | internal/lsp/diagnostics.go:37-52 | a file published since its mark is stale exactly when its latest publication is for an older version and was not forgotten, else covered |
| Diagnostics.SettledIsNotStale | internal/lsp/diagnostics.go:76-150 | a file passes as settled if and only if its latest publication since the mark is not for an older version or was forgotten by a reset or restart, or there is none and the server may stay silent or an earlier record satisfies the mark |
| Diagnostics.SettledAnswersTheEdit | internal/lsp/diagnostics.go:64-150 | a settled wait on an edit's mark means that something was published for the file since the mark was taken, the latest such publication not being for an older version unless a reset or restart came after it; or nothing was, past the deadline, on a server that may stay silent, so never on one that republishes |
| Diagnostics.ResetHidesStale | internal/lsp/client.go:1925-1930 | a concrete run in which a reset turns a stale file into a covered one |
| Diagnostics.ReopenedLooksCovered | internal/lsp/client.go:1863-1870 | a concrete run in which a reopened document is covered before anything is published |
| Session.EditKeepsReplay | internal/session/manager.go:108-225 | an edit, failing at any point, leaves the session dirty or with contents equal to the recorded edits folded over the originals |
| Session.StepKeepsReplay | internal/session/manager.go:108-553 | every public call keeps the replay invariant of every session |
| Session.RunsReplay | internal/session/manager.go:108-225 | in every reachable state of a session that is not dirty: the four maps have the same keys, versions count the recorded edits per file, edits are numbered, contents are the fold of the edits over the originals |
| Session.EditVerdicts | internal/session/manager.go:108-205 | exactly which edits succeed and what each failure is called; a refused edit changes nothing and a failed one leaves the session dirty |
| Session.EditDoes | internal/session/manager.go:137-225 | a successful edit splices into the session's text, or on the first edit of the file the disk's, sends the result, records the edit under the next version, and stores the diagnostics read as the baseline of a file that had none |
| Session.OtherVerdicts | internal/session/manager.go:228-534 | exactly which evaluations, commits and discards succeed, and the status each leaves |
| Session.BaselineIsFirstRead | internal/session/manager.go:137-182 | over every run, a session's baseline for a file is what the first edit that opened the file read |
| Session.StepKeepsText | internal/session/manager.go:108-534 | a call that is not one of another live session touching this session's files keeps the server's text equal to this session's contents while it is live or committed, and to its originals once it is discarded |
| Session.RunsKeepText | internal/session/manager.go:108-534 | the same over every run, for each session whose files no other live session's calls touch meanwhile |
| Session.RunsKeepLiveText | internal/session/manager.go:108-534 | over every run in which concurrent sessions touch disjoint files, the server's text is every live session's contents; files of finished sessions may be reused |
| Session.DiskChangesOnlyInCommit | internal/session/manager.go:438-493 | a file changes on disk only in an applying commit of a mutated or evaluated session that has contents for it, and then to those contents |
| Session.DiskIsLastCommit | internal/session/manager.go:438-493 | after any run, a file no commit wrote is as it was, and any other holds exactly the edits recorded for it by the session that last committed it, folded over that session's original |
| Session.CommitAndDiscardComplete | internal/session/manager.go:438-534 | a successful applying commit leaves every touched file equal to its contents; a successful discard leaves the server with every touched file's original |
| Session.TerminalAcceptsOnlyDestroy | internal/session/types.go:166-172 | on a committed, discarded or dirty session every call but Destroy is refused and changes nothing |
| Session.TerminalIsFrozen | internal/session/types.go:166-172 | in every run such a session stays exactly as it is until it is destroyed |
| Session.FailedNotificationIsForgotten | internal/session/manager.go:457-484 | an applying commit ends dirty exactly when a file could not be written and committed otherwise, whichever notifications failed; the server keeps its old text of the written files it was not told about |
| SessionManager.Manager.CreateSession | internal/session/manager.go:55-93 | adds a fresh empty session and leaves the others alone |
| SessionManager.Manager.EstablishBaseline | internal/session/manager.go:137-182 | the lazy baseline: reads the file, remembers the original once, opens the document, stores the diagnostics that were read; each failure leaves the session dirty with what was done so far |
| SessionManager.Manager.ApplyEdit | internal/session/manager.go:108-225 | does to session objects and server exactly what the value-level step does, with its error verdicts, and returns the file's new version |
| SessionManager.Manager.Evaluate | internal/session/manager.go:228-333 | changes only the status, and reports the lists of what is new and what is gone in every baseline file, the change in errors and warnings whatever the map order, the timeout flag and the confidence |
| SessionManager.UnchangedReportsNothing | internal/session/manager.go:300-311 | an evaluation that reads every file's baseline again, pulled or cached, reports a delta of zero and empty lists |
| SessionManager.HarmlessEditReportsNothing | internal/session/manager.go:137-311 | an edit that leaves the diagnostics as its file's first read had them, and the others as their baselines, is reported to change nothing |
| SessionManager.TotalIgnoresOrder | internal/session/manager.go:300-309 | the sum over the baseline files is the same in every iteration order |
| SessionManager.HighConfidenceIsEarned | internal/session/manager.go:360-388 | each of the four confidences exactly when scope, evidence, delta and progress call for it |
| SessionManager.Manager.Commit | internal/session/manager.go:438-493 | in any file order, writes and notifies as the value-level step says; returns the contents as patch and the number of files; stops exactly at a file that is outside or cannot be written |
| SessionManager.Manager.Discard | internal/session/manager.go:496-534 | reverts in any file order as the value-level step says, stopping only where sending fails |
| SessionManager.Manager.Destroy | internal/session/manager.go:537-553 | removes the session and nothing else |
| SessionManager.Summarise | internal/session/manager.go:414-427 | the safe step is the last one with delta zero, or none, and the cumulative delta is the last step's |
| SessionManager.Manager.SimulateChain | internal/session/manager.go:390-435 | ends in the state of applying and evaluating one edit after the other up to the first failure, and reports for each step the change against the baselines held then |
| SessionManager.ChainIsRun | internal/session/manager.go:390-435 | a chain that succeeds is the run of its edits, each followed by an evaluation |
| SessionManager.ChainKeepsBaselines | internal/session/manager.go:137-182 | no baseline is ever taken again along a chain |
| SessionManager.ChainDeltasCompose | internal/session/manager.go:390-435 | between two steps with the same files, the reported deltas differ by exactly the change in errors and warnings between their readings |
| Executor.SerializedExecutor.LockFor | internal/session/executor.go:33-43 | finds the session's channel or makes an empty one |
| Executor.SerializedExecutor.Acquire | internal/session/executor.go:45-55 | fills the slot if it is free, else waits or ends with the context; either may win when both are ready |
| Executor.SerializedExecutor.Release | internal/session/executor.go:57-65 | empties the caller's slot |
| Executor.StepKeepsExclusive | internal/session/executor.go:33-65 | every acquire and release keeps slots equal to the number of callers inside, at most one per session |
| Executor.SessionsAreSerialized | internal/session/executor.go:33-65 | in every run no two callers are inside one session; exactly when a caller enters, waits or is cancelled; no release blocks |
| Differ.FingerprintInjective | internal/session/differ.go:50-62 | equal fingerprints mean equal range, message and severity, even when messages contain NUL |
| Differ.FilterSignificant | internal/session/differ.go:130-140 | keeps exactly the entries of severity at most 2, in order |
| Differ.DiffDiagnostics | internal/session/differ.go:64-128 | the count-map loops compute Introduced and Resolved, first come first served |
| Differ.DiffIsMultisetDifference | internal/session/differ.go:64-128 | introduced is current minus baseline and resolved baseline minus current, as multisets of errors and warnings |
| Differ.DiffConserves | internal/session/differ.go:64-128 | baseline plus introduced equals current plus resolved, and the difference of their sizes is the change in significant diagnostics |
| Differ.CancellingDiagnostics | internal/session/differ.go:17-48 | two diagnostics cancel exactly when range, message and severity agree, which is weaker than DiagnosticsEqual by the source |
| Differ.NetDelta | internal/session/manager.go:300-311 | the loop collects the differences file by file, and the summed diff is the change in the total number of errors and warnings |
| Differ.ReportedHowOften | internal/session/differ.go:64-140 | each range, message and severity up to 2 is introduced as often as there are more of it now, resolved as often as fewer, and others never |
| Differ.EntryShows | internal/session/differ.go:95-128 | an entry shows the start counted from 1, message and source unchanged, and the word for the severity |
| Differ.UnchangedIsEmpty | internal/session/differ.go:64-128 | unchanged files contribute nothing to either list |
| Differ.DeltaIsAdditive | internal/session/manager.go:300-311 | deltas along any chain of snapshots add up to the delta from first to last |
| Symbols.InsertNested | internal/tools/change_impact.go:393-414 | a symbol is placed under a root exactly when the root strictly contains it, at the first strictly containing child on every level |
| Symbols.StableSortSorts | internal/tools/change_impact.go:437-450 | the sort orders by start, then larger ranges first, and keeps the symbols |
| Symbols.StableSortStable | internal/tools/change_impact.go:437-450 | symbols of equal range keep their order |
| Symbols.RenestFlatSymbols | internal/tools/change_impact.go:429-467 | the loop computes Renest: sort, then place each symbol under the first root that takes it |
| Symbols.RenestIsPermutation | internal/tools/change_impact.go:429-467 | flattening the result gives every input symbol exactly as often, for any list of trees |
| Symbols.RenestIsTidy | internal/tools/change_impact.go:373-467 | for any flat list, every child lies strictly inside its parent and no sibling strictly contains another |
| Symbols.RenestIsInOrder | internal/tools/change_impact.go:437-467 | siblings on every level are in the order of their starts |
| Symbols.RenestMarksNested | internal/tools/change_impact.go:393-414 | exactly the symbols that received a parent are marked as nested |
| Symbols.RenestInnermostIffChained | internal/tools/change_impact.go:373-467 | for distinct ranges, every symbol's parent is its innermost enclosing symbol if and only if the symbols around each symbol form a chain |
| Symbols.NestedOrDisjointIsChained | internal/tools/change_impact.go:373-391 | non-empty ranges that are pairwise nested or disjoint meet that condition |
| Symbols.EmptyRangeOnBorder | internal/tools/change_impact.go:373-391 | with an empty range on a common border, nested-or-disjoint alone does not meet it |
| Symbols.TreesPassThrough | internal/tools/change_impact.go:426-435 | lists of trees none of whose roots contains another come back sorted but otherwise unchanged |
| Symbols.FindEnclosingSymbolAt | internal/tools/change_impact.go:845-873 | the loop and its recursion compute BestFrom |
| Symbols.TestsAreIntervals | internal/tools/change_impact.go:822-836 | the position tests decide the half-open interval from start to end |
| Symbols.BestIsSmallestVisited | internal/tools/change_impact.go:845-873 | the search returns a smallest symbol of those it visits, or nothing if it visits none |
| Symbols.EnclosingIsSmallest | internal/tools/change_impact.go:822-873 | when children lie within their parents: nothing exactly when no symbol at any depth contains the position, else a containing symbol of least line span, then character span, among all containing symbols |
| TextEdits.Utf16ToOffset | internal/uri/uri.go:169-191 | the loop computes how many characters a count of UTF-16 units reaches, never splitting a character |
| TextEdits.UnitsAreUtf16 | internal/uri/uri.go:150-191 | the units counted are the length of the text's UTF-16 encoding |
| TextEdits.OffsetIsLargest | internal/uri/uri.go:169-191 | the offset is the largest number of characters whose units do not exceed the count |
| TextEdits.MissingLineIsLast | internal/uri/uri.go:193-239 | a line that does not exist stands for the last one |
| TextEdits.RangeEditIsSplice | internal/uri/uri.go:193-239 | splitting, patching and joining lines replaces exactly the text between the two positions, for every text and range |
| TextEdits.OffsetOfPosition | internal/uri/uri.go:169-239 | the position of an index leads back to that index |
| TextEdits.OffsetIsStable | internal/uri/uri.go:193-239 | text behind an existing position does not move it |
| TextEdits.HeldIsStable | internal/uri/uri.go:169-239 | a position that exists, or is clamped to a character before a bound on a line that exists, keeps its offset whatever stands from the bound on |
| TextEdits.ApplyEdits | internal/lsp/client.go:3010-3030 | refuses a file that no longer holds the expected text, else folds the edits from last to first |
| TextEdits.BackwardIsSimultaneous | internal/lsp/client.go:3023-3028 | for ascending, non-overlapping edits whose positions are held up to the next edit's start, the fold equals replacing every range of the original at once |
| TextEdits.SimultaneousIffHeld | internal/lsp/client.go:3023-3028 | for ascending, non-overlapping ranges, the fold replaces all ranges at once for every choice of texts if and only if each edit's positions are held up to the start of the edit behind it |
| TextEdits.InsertOrderIffOnText | internal/lsp/client.go:3023-3028 | two inserts at one position come out in list order, for all texts inserted, if and only if the position exists in the text |
| TextEdits.ClampedPositionMoves | internal/lsp/client.go:3023-3028 | for every position that does not exist, some inserted text moves it behind itself |
| SemanticTokens.DecodeModifiers | internal/lsp/client.go:3745-3750 | the loop collects the legend entries whose bit is set |
| SemanticTokens.MaskSelectsFlags | internal/lsp/client.go:3745-3750 | the mask of a list of flags selects exactly the flagged legend entries |
| SemanticTokens.Decode | internal/lsp/client.go:3722-3764 | the loop over running line and character computes DecodeFrom |
| SemanticTokens.RoundTrip | internal/lsp/client.go:3722-3764 | decoding the LSP 3.17 integer encoding of tokens in document order recovers every position plus one, length, type name and exactly the flagged modifiers |
| SemanticTokens.DecodedShape | internal/lsp/client.go:3722-3764 | any input gives one token per five numbers; non-negative input gives them in nondecreasing position order |
| Codex.TomlStringLoop | cmd/agent-lsp/codex.go:58-88 | the builder loop escapes every character |
| Codex.TomlHasNoControl | cmd/agent-lsp/codex.go:58-88 | no raw newline or other control character is ever written |
| Codex.StringReadsBack | cmd/agent-lsp/codex.go:58-88 | every string, whatever follows it, reads back under the TOML 1.0.0 rules for basic strings |
| Codex.ArgsReadBack | cmd/agent-lsp/codex.go:90-98 | the args array reads back as the list it was written from |
| Codex.RemoveCodexServerTables | cmd/agent-lsp/codex.go:125-145 | keeps exactly the lines not in a table of the server, in order, and reports whether there was one |
| Codex.ServerHeaderIsHeader | cmd/agent-lsp/codex.go:100-123 | whatever is taken for a header of the server's tables is a table header |
| Codex.ServerHeaderIff | cmd/agent-lsp/codex.go:100-118 | with any blanks and comment around it, a header is the server's exactly when its name is the server's, bare or quoted, or continues it behind a dot |
| Codex.RemoveIsClean | cmd/agent-lsp/codex.go:125-145 | no header of the server's tables is left |
| Codex.TableIsRemoved | cmd/agent-lsp/codex.go:125-145 | removing from a clean text followed by a written table gives that text back |
| Codex.WriteCodexConfig | cmd/agent-lsp/codex.go:161-166 | the written text is Write of the old text: cleaned, trimmed, one blank line, table |
| Codex.WrittenText | cmd/agent-lsp/codex.go:161-166 | the text is what was kept without newlines at its end, one blank line and the table, or the table alone |
| Codex.TableText | cmd/agent-lsp/codex.go:90-98 | the table's three lines, with the command agent-lsp |
| Codex.LastWriteWins | cmd/agent-lsp/codex.go:161-166 | writing twice is writing the second arguments once, for any text and arguments |
| Codex.RemoveUndoesWrite | cmd/agent-lsp/codex.go:125-166 | removing after writing leaves exactly the other lines in order, up to trailing newlines |
| Phase.NearestAllowing | internal/phase/tracker.go:92-160 | the nearest phase from a given one that allows the tool, if any does |
| Phase.Tracker.constructor | internal/phase/tracker.go:25-35 | a new tracker has no active skill |
| Phase.Tracker.ActivateSkill | internal/phase/tracker.go:39-64 | activation succeeds exactly when nothing is active and the skill exists and has phases, and then starts in phase 0 with an empty history |
| Phase.Tracker.DeactivateSkill | internal/phase/tracker.go:67-83 | nothing is active afterwards |
| Phase.Tracker.CheckAndRecord | internal/phase/tracker.go:92-160 | silence means exactly that no global or phase pattern forbids the call; a violation names the tool, the skill and the phase, is blocked exactly when the call is not let through, and carries the advice of buildRecovery or, for a global pattern, that the tool is not used |
| Phase.PhaseIsMonotone | internal/phase/tracker.go:92-160 | while a skill is active its mode stays, its phase stays in range and never decreases, and the history is exactly the calls |
| Phase.PhasesAscend | internal/phase/tracker.go:92-160 | the same between any two points of a run |
| Phase.AdvanceIsToNearest | internal/phase/tracker.go:92-160 | the phase changes only on a permitted call, to the nearest later phase allowing that tool |
| Phase.OneWindow | internal/phase/tracker.go:92-160 | in block mode a tool forbidden outside one phase is let through in one contiguous window, in that phase only, and never after it |
| Phase.NeverEntered | internal/phase/tracker.go:92-160 | a phase that no chain of advances reaches is never in force |
| Phase.EnterableIffReachable | internal/phase/tracker.go:92-160 | some run without deactivation brings a phase into force if and only if a chain of single advances leads to it |
| Phase.EarlyCallIffReachablyFree | internal/phase/tracker.go:92-160 | in block mode, some run lets a tool through before a given phase if and only if some reachable earlier phase does not forbid it |
| Phase.CanAdvanceIffEscapes | internal/phase/matcher.go:10-28 | one phase can follow another directly if and only if some pattern the later one allows escapes, by comparing names and stems, every pattern that forbids in the first or allows before the later one |
| Phase.AdviceLeadsOnIff | internal/phase/tracker.go:211-231 | some tool named in the advice for a refused tool leads out of the phase if and only if a later phase allows the refused tool and the next phase can be entered |
| Phase.EditsBeforeTheirPhase | internal/phase/skills.go:22-301 | no run of lsp-refactor or lsp-verify lets apply_edit, Edit or Write through before the phase for edits; runs of lsp-rename do |
| Phase.RefactorEditsInOneWindow | internal/phase/skills.go:70-152 | lsp-refactor lets apply_edit through only in its apply phase and never after it |
| Phase.SafeEditNeverApplies | internal/phase/skills.go:155-221 | the apply phase of lsp-safe-edit is not enterable from the phases before it, and no run enters it |
| Phase.SafeEditRecoveryIsCircular | internal/phase/skills.go:155-221 | when apply_edit is refused in the preview phase, every tool the advice names is refused there too, and no tool matching the advice leads out of the phase |
| Phase.VerifyEditsOnlyAtTheEnd | internal/phase/skills.go:224-301 | once lsp-verify lets apply_edit through, the run stays in its last phase |
| Phase.RenameEditSkipsPreview | internal/phase/skills.go:22-67 | apply_edit as lsp-rename's first call is let through and lands behind the preview phase that would refuse it |

## Left out

- Processes, sockets, signals, file watching, JSON coding, logging and the audit log: only the messages and file contents they carry are modelled. A JSON field of the wrong shape is not.
- Clocks: clock readings and deadlines are inputs, so nothing is claimed about how long anything takes, and no liveness.
- Go channels: each is the list of what was ever sent on it, keyed by request id; a select over several ready cases is a choice of steps.
- Daemon clients' reconnection, notifications and server-initiated requests through the broker, and disagreement about ids between broker and server: the model's server answers requests it has received, any number of times.
- Broker.AnswersReachTheirCaller: an error answer keeps only the server's text, as in the code, and a broker error after a timeout is an answer of the broker, not of the server.
- Framing.ChunkingIsInvisible: bodies are byte strings the reader can hold; running out of memory is not modelled; the wrap-around of a 64-bit length and the panic of Go's make above 2^48 bytes, its limit on 64-bit Linux, are.
- TextEdits: edit lists whose ranges overlap or descend, for which LSP promises nothing.
- TextEdits: texts are sequences of Unicode scalar values, so invalid UTF-8 is not modelled, and lines and characters are not negative.
- SemanticTokens.RoundTrip: masks fit a signed 64-bit integer; wrap-around of positions is not modelled.
- Diagnostics.CoveredMeansPublished: the file in question is not closed after its mark and the server reports only versions it was sent for it; Diagnostics.ReopenedLooksCovered shows why. Diagnostics.SettledIsNotStale needs neither.
- Diagnostics.DiagnosticsStore.WaitSettled: the marks of unmarked files and the first counters are read at one instant; subscriber callbacks appear only as wakeups. The content of the diagnostics is not part of this module.
- Readiness: only timed-out waits say anything about indexing; the mark set after a cancelled context is in the model, but no claim is made about it.
- Session.RunsKeepText: each public call is one step; status races between calls that overlap, and two live sessions on one file, are not serialized by the code either. Commit takes no executor slot.
- Session: path validation and URI conversion are one set of documents inside the workspace, distinct documents being distinct files; a failed file write or notification is taken to change nothing.
- Session.DiskIsLastCommit: the disk and the server's texts change only through the modelled calls; what the user or other tools write or open between calls is not in the model. The same holds for Session.RunsKeepText.
- SessionManager.Manager.Evaluate: what was pulled, what is cached, whether the wait settled and whether progress is active are inputs; a chain evaluates with file scope.
- Executor: nothing is said about fairness; a waiting caller is one that has not entered yet.
- Session identifiers are parameters instead of random numbers, and a missing language server is not modelled.
- Symbols: the line-only variant of the enclosing search, caches and the reference queries around it.
- Phase: texts of violations and advice are modelled as data; status reports are left out.
- Codex: file handling and the codex command; only the text transformation is modelled. Texts and arguments are sequences of Unicode scalar values, so an argument that is not valid UTF-8, whose bad bytes the code replaces, is not modelled.
