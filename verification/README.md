# Codex companion plugin: verified model

This project models the parts of the Codex companion plugin that must stay right under interleaving, partial input and
failure, and proves what its comments, tests and documentation promise of them.

- **Turn ownership of the shared broker** (`TurnOwnership`, `BrokerRuns`): one app-server shared by many client sockets.
  The ownership object is a class with the source's five variables; its runs are set against a world that knows which
  turns are really live.
- **The app-server protocol peer** (`AppServer`, `AppServerTurns`, `AppServerReplies`, `AppServerOrder`,
  `AppServerItems`, `AppServerThreads`): the JSON-RPC server with its threads, turns, approvals, interruptible and
  delayed turns, over every run of requests, answers and timers. **Session import** (`ImportLedger`, `SessionImport`) adds the ledger and the client
  that has to find the same thread in it.
- **Incremental readers** (`Utf8`, `TextDecoding`, `LogTail`, `LogTailRuns`, `StatusWatch`; `Framing`, `ProtocolLines`,
  `SocketFraming`): the log reader with its streaming decoder and the watch loop around it, the newline framer, and the
  escape-sequence cleaner in front of the parser, each equal to reading everything at once.
- **Job store and dispatch** (`JobPruning`, `JobStore`, `JobStoreRuns`, `ReaperRaces`; `SpawnClient`, `WorkerDispatch`):
  pruning, the reaper's lock-free scan against its locked pass, also among other writers, and the dispatch of a
  background worker at most once.
- **Telemetry** (`Telemetry`, `TelemetryRuns`): loss accounting, rotation, and the report that reads it back.
- **Version bumper** (`JsonPaths`, `VersionManifests`, `VersionLaws`) and **skip taxonomy** (`SkipTaxonomy`).

What the source changes in place is a class here, and each of its methods is proved to move the object to the value that
a specification function gives; the lemmas are about those values and about runs of them. `Wrappers`, `Counting` and
`StableSort` are shared helpers. The environment is a parameter: process tables, clocks, lock availability, the answers of
the disk, the JSON parser of the spawn client, and which replies arrive when.

## What the code does not keep

Where a promise turned out false of the code, the code is modelled as it is, and the exact condition is proved beside a
concrete failing case.

- As far as the requests go that the broker counts, ownership loses track of the app-server in exactly three steps
  (`StepKeepsInvIffCareful`, and for whole runs `BrokerIsRightIffCareful`). A socket that closes while its streaming
  request is in flight is made owner again by the late reply; if the turn completed in between, nobody else is admitted
  until something frees it (`CloseInFlightWedges`, `StepKeepsWedgeIff`). A plain request of the stream's owner that is
  rejected drops the owner's live turn (`RejectedPlainRequestDropsLiveTurn`). A completion inside the window of a
  streaming request, or one that names no thread, is credited to the turn ownership waits for, whosever it is
  (`MiscreditedCompletionDropsLiveTurn`); an ordinary disconnect in mid-turn is enough to bring that about
  (`AbandonedTurnIsCreditedToTheNext`).
- A plain request that is still in flight stops counting when its socket's own turn completes, or its socket closes
  (`StepUncountsIff`). Another socket may then begin beside it, and gets the notifications; an ordinary interrupt is
  enough (`InterruptLetsAnotherIn`). For all requests in flight the gate is exact in exactly the careful runs without
  such a step (`BrokerIsExclusiveIffAttentive`).
- The protocol peer answers a review without a target, and a turn on a thread whose name is no text, with a reply and then
  an error, and loses the turn (`FailsAfterReply`, `LosesTurn`).
- A transcript that is changed back to content imported earlier yields the wrong thread
  (`RevertedTranscriptYieldsTheWrongThread`); the client is right exactly when the matching record is its source's latest.
- The log reader does not reset its decoder when the file was cut down to nothing or cannot be opened after it shrank
  (`TruncatedReadIsFreshIff`, `MissedResetCorruptsNextLine`), and keeps the torn slice of a burst without a newline,
  although its comment says that it is dropped (`BurstWithoutNewlineTears`, `BurstInFirstLineTears`).
  The watch does not write what the decoder holds at the end (`WatchShowsTheEndIff`).
- The escape cleaner is called complete for ECMA-48, but a control string with a carriage return or another line
  terminator in it, and a character string with a BEL, which the standard both allows, stay in the line in part: a record
  beside them is lost, or accepted damaged, unless white space is all they leave (`CommandStringBesideRecordIff`,
  `StringIsMatchedWholeIff`, `NoisyRecordIsRecoveredIff`, `ReturnInControlStringLosesRecord`,
  `BellInCharacterStringLosesRecord`).
- The locked pass rewrites an index that is not pruned although nothing is dead (`ScanRefinesLockedPassIff`); reaped jobs
  beyond the cap lose their records at once (`ReapKeepsEveryRecordIff`, `LostRecordsAreReaped`); a job dropped by the save
  that introduces it leaves its files behind (`NewFinishedJobLeaksItsFiles`); a log shared with a dropped job is deleted
  (`LogGoesIff`); and as job files are mirrored outside the lock, a worker that starts meanwhile has its file ended under
  it (`MirrorSplitsIff`, `LateWorkerLosesItsFile`).
- After an ambiguous dispatch the dispatcher's last write can wipe out the worker's pid, and the live job is then reaped
  (`LiveWorkerSurvivesIffItWritesLast`).
- A telemetry marker that cannot be written is counted as a lost event itself (`EveryEmitIsAccountedFor`). An append that
  stops short loses its whole segment to the reader as soon as another line follows (`TornLineLosesSegment`), and one that
  fails with all but the newline written is read although it was counted as lost (`FileReadsBackIff`).
- A tag with an empty thread id and a thread in its `retryInfo` makes error and `retryInfo` name different threads
  (`ThreadsDisagreeIff`).
- A manifest that is an array takes the version silently and stays out of date (`ArrayManifestStaysOutOfDate`), and a bump
  that fails half-way is not taken back: it has changed nothing if and only if every manifest before the failure was an
  array or up to date (`FailedBumpChangesNothingIff`, `FailedBumpKeepsEarlierWrites`).

## Model

| member | source | states |
|---|---|---|
| BrokerRuns.BusyExactlyWhenTaken | plugins/opnd-codex/scripts/lib/broker-turn-ownership.mjs:52-69 | In every careful run of begins, replies, rejections, completions and closes, of any length and interleaving, over any number of turns still live: at most one socket appears across request, stream, claim and superseded stream, and the gate refuses a socket if and only if another socket's request is in flight that the broker still counts, its own turn awaits its reply, or the newest turn is live and another socket's |
| BrokerRuns.LiveTurnIsProtected | tests/broker-turn-ownership.test.mjs:255-306 | In every careful run, while the newest turn is live every other socket is refused, notifications and server requests go to the turn's owner, and turn control is open to exactly the other sockets and only when no counted request is in flight |
| BrokerRuns.MessagesGoWhereTheyConcern | plugins/opnd-codex/scripts/lib/broker-turn-ownership.mjs:71-83 | In every careful run, turn live or not: notifications and server requests both go to the owner of the live newest turn, or else to the socket whose counted request is in flight, or else to nobody; and turn control is open to a socket if and only if the newest turn is live and another socket's and no counted request is in flight |
| BrokerRuns.QuietBrokerIsIdle | tests/broker-turn-ownership.test.mjs:315-329 | No wedge: in every careful run, whenever no counted request is in flight and no newest turn is live, all ownership fields are empty |
| BrokerRuns.BrokerIsRightIffCareful | plugins/opnd-codex/scripts/lib/broker-turn-ownership.mjs:52-204 | Of every run that can happen at all, abandoned turns, foreign completions and closed sockets with buffered lines included: ownership is right after each of its steps and through any reply still outstanding (one socket, exact gate, notifications and server requests routed to whom they concern, turn control open exactly when it should be, idle when quiet), as far as the requests go that the broker counts, if and only if every step is careful |
| BrokerRuns.BrokerIsExclusiveIffAttentive | tests/broker-turn-ownership.test.mjs:25-33 | The same for every request that is really in flight: ownership is right throughout if and only if every step is careful and none uncounts a request, that is, no turn of a socket completes and no socket closes while its own plain request awaits its answer |
| BrokerRuns.RequestExcludesOthers | tests/broker-turn-ownership.test.mjs:228-235 | In such a run a socket with a request in flight has the app-server to itself: every other socket is refused, turn control included, and notifications and server requests both go to that socket |
| BrokerRuns.StepUncountsIff | plugins/opnd-codex/scripts/lib/broker-turn-ownership.mjs:179-186 | In any step a request that stays in flight goes uncounted if and only if it was a counted plain one and the step completes the newest turn, which is its socket's, or closes its socket |
| BrokerRuns.TwoInFlightMeansUncounted | plugins/opnd-codex/scripts/lib/broker-turn-ownership.mjs:71-75 | In every careful run, when two sockets have requests in flight at once, one of the two requests has gone uncounted |
| BrokerRuns.UncountedRequestShows | plugins/opnd-codex/scripts/lib/broker-turn-ownership.mjs:179-186 | What an uncounted request costs: it stays in flight with all ownership fields empty, so any socket without a request of its own may begin |
| BrokerRuns.InterruptLetsAnotherIn | tests/broker-turn-ownership.test.mjs:303-309 | The run that shows it: the owner asks to interrupt its turn, the turn completes before the answer, another socket begins a turn beside the request in flight, and notifications go to it |
| BrokerRuns.StepKeepsInvIffCareful | plugins/opnd-codex/scripts/app-server-broker.mjs:361-505 | Each possible step keeps the correspondence between ownership and the turns really running if and only if it is not one of three: a socket closing with its streaming request in flight, a plain request of the stream's owner being rejected, and a completion credited to a turn it is not of, or not credited to the tracked turn it is of |
| BrokerRuns.CarefulRunKeepsInv | plugins/opnd-codex/scripts/app-server-broker.mjs:361-505 | The correspondence holds after every careful run, of any length |
| BrokerRuns.CloseInFlightWedges | plugins/opnd-codex/scripts/app-server-broker.mjs:302-304 | What the first of the three costs, from any state in step: close, completion and reply may happen in this order, the reply installs the closed socket as owner of a turn that is over, and every other socket is refused until something frees the wedge |
| BrokerRuns.StepKeepsWedgeIff | plugins/opnd-codex/scripts/lib/broker-turn-ownership.mjs:52-204 | A step ends such a wedge if and only if it is a begin or a second close of the closed socket, or a completion that names one of its threads or none |
| BrokerRuns.WedgeLastsUntilFreed | plugins/opnd-codex/scripts/lib/broker-turn-ownership.mjs:190-204 | In every continuation without such a step the closed socket stays owner and every other socket is refused |
| BrokerRuns.RejectedPlainRequestDropsLiveTurn | plugins/opnd-codex/scripts/lib/broker-turn-ownership.mjs:131-149 | What the second costs: the owner's turn runs on and nobody is refused |
| BrokerRuns.MiscreditedCompletionDropsLiveTurn | plugins/opnd-codex/scripts/lib/broker-turn-ownership.mjs:156-188 | What the third costs: a completion of another turn credited to the newest one leaves that turn running with nobody refused, at the latest once its reply has come |
| BrokerRuns.AbandonedTurnIsCreditedToTheNext | plugins/opnd-codex/scripts/lib/broker-turn-ownership.mjs:156-204 | The run that shows it: a socket leaves while its turn runs, another begins a turn, the abandoned one completes before the reply, and a third may begin beside a live turn |
| BrokerRuns.ForeignCompletionReleasesEarly | plugins/opnd-codex/scripts/lib/broker-turn-ownership.mjs:161-177 | Over the ownership value alone: inside the window a completion that is not the superseded stream's releases the new turn when its reply comes, and only such a one does |
| TurnOwnership.FailedRequestRollsBack | plugins/opnd-codex/scripts/lib/broker-turn-ownership.mjs:131-149 | A rejected streaming request is a rollback over whatever completions arrive in its window: the state before begin, except that the superseded stream is retired exactly when its own completion came |
| TurnOwnership.RouteAllInWindow | plugins/opnd-codex/scripts/lib/broker-turn-ownership.mjs:156-177 | Completions in the window never release the claim or the request slot, whatever they name; they retire the superseded stream exactly when one names it and not the claim |
| TurnOwnership.EveryArrivalOrderEndsIdle | tests/broker-turn-ownership.test.mjs:45-78 | The reply and the completions of the old and the new turn reach the same idle state in all six orders |
| TurnOwnership.SettledIdsNameTheTurn | plugins/opnd-codex/scripts/app-server-broker.mjs:31-40 | The ids taken from the reply name the turn's thread and all that was known before; before it the thread is known if and only if the params name it |
| TurnOwnership.TurnOwnership.IsBusyFor | plugins/opnd-codex/scripts/lib/broker-turn-ownership.mjs:52-69 | The gate over the object's fields is the gate of the ownership value; nothing changes |
| TurnOwnership.TurnOwnership.BeginRequest | plugins/opnd-codex/scripts/lib/broker-turn-ownership.mjs:94-109 | Moves the object to the begun value: request slot, provisional claim, and what it supersedes |
| TurnOwnership.TurnOwnership.SettleRequest | plugins/opnd-codex/scripts/lib/broker-turn-ownership.mjs:111-129 | Moves the object to the settled value: parked on the reply's threads, or released when the completion came first |
| TurnOwnership.TurnOwnership.FailRequest | plugins/opnd-codex/scripts/lib/broker-turn-ownership.mjs:131-149 | Moves the object to the failed value: the superseded stream comes back |
| TurnOwnership.TurnOwnership.HandleTurnCompleted | plugins/opnd-codex/scripts/lib/broker-turn-ownership.mjs:156-188 | Moves the object to the completed value and reports whether the completion was accounted for |
| TurnOwnership.TurnOwnership.ReleaseSocket | plugins/opnd-codex/scripts/lib/broker-turn-ownership.mjs:190-204 | Moves the object to the value without the socket |
| AppServerTurns.EveryTurnIsInOnePlace | tests/fake-codex-fixture.mjs:143-183 | Conservation, in every run and for every turn id: a turn not handed out is nowhere; one handed out is in exactly one place (completed exactly once, awaiting approval, interruptible, or delayed) if and only if no request lost it, and a lost one is nowhere. So timer and interrupt never both complete a turn |
| AppServerTurns.StepBalances | tests/fake-codex-fixture.mjs:285-302 | One step: completions sent plus turns waiting after it are turns waiting before plus turns handed out, less one if the request loses its turn; every armed timer belongs to an interruptible turn |
| AppServerTurns.InterruptedOnlyOnRequest | tests/fake-codex-fixture.mjs:645-665 | A completion is sent as interrupted if and only if the step is the request to interrupt that very turn |
| AppServerTurns.ReviewWithoutTargetLosesItsTurn | tests/fake-codex-fixture.mjs:394-415 | A review without a target is answered with a turn and then with an error, and the turn is lost |
| AppServerReplies.AnswersMatchRequests | tests/fake-codex-fixture.mjs:285-302 | Over every run an id is answered as often as it is asked (`initialized` aside), plus once for each request that fails after its reply: exactly one answer if and only if none of those occurs |
| AppServerReplies.StepAnswers | tests/fake-codex-fixture.mjs:304-747 | One step answers exactly the request it reads, once, or twice exactly when the request is a review without a target or a turn without a verdict schema on a thread whose name is no text |
| AppServerReplies.ErrorsChangeNothing | tests/fake-codex-fixture.mjs:745-747 | A request answered with an error leaves the thread list and both counters as they were, if and only if it is not one of those two |
| AppServerReplies.RequestIsRefusedIff | tests/fake-codex-fixture.mjs:304-747 | Which requests are refused, told by the request and the threads alone: an unknown method or an unsupported import with -32601, and with -32000 exactly those without the parameters they need, on an unknown thread, without the capability, or with what cannot be read; every other request gets the reply it calls for, with the ids it names |
| AppServerOrder.TurnMessagesComeInOrder | tests/fake-codex-fixture.mjs:165-177 | In every run the reply that names a turn is the first message about it and its completion the last; the completion names the thread the turn was started on and comes after that reply or, for a subagent's turn, after the subagent's thread was announced |
| AppServerOrder.RunKeepsOrder | tests/fake-codex-fixture.mjs:437-631 | The order holds after every run, with every waiting turn accepted, not completed, and started on the thread it waits for |
| AppServerItems.CompletedTurnHasItsAnswer | tests/fake-codex-fixture.mjs:552-631 | In every run a turn named by the reply to turn/start that completes without being interrupted completes on the thread it was asked for and has delivered exactly one final answer, on that thread and before its completion; one reasoning item exactly when the server reasons, one collaboration begun and ended exactly with a subagent, one command and one approval exactly when the server asks for them |
| AppServerItems.CompletedReviewEntersAndLeaves | tests/fake-codex-fixture.mjs:387-417 | In every run a review that completes had a target, ran on its own thread unless it is detached, entered the review exactly once and left it exactly once, in that order and before its completion, with one reasoning item exactly when the server reasons and no final answer |
| AppServerItems.CompletedTurnIsToldWhole | tests/fake-codex-fixture.mjs:165-177 | In every run the messages about a completed turn, from the reply that names it to its completion, are exactly the ones its request and the server's behaviour call for, in order; a completed turn that no reply names is a subagent's |
| AppServerItems.InterruptedTurnHasNoAnswer | tests/fake-codex-fixture.mjs:645-665 | In every run an interrupted turn was named by turn/start, was started on its thread, and has told nothing else: no item and no answer |
| AppServerItems.RunTells | tests/fake-codex-fixture.mjs:443-631 | The invariant behind these, for every turn id: which request named it and what has been said about it, by the place it waits in: asked for approval, started and interruptible, only named and delayed, lost, or over; nothing of a turn not handed out |
| AppServerItems.ReviewRunsOnItsThread | tests/fake-codex-fixture.mjs:387-395 | A detached review announces one new ephemeral thread, in the directory of the reviewed one, before anything else and runs there alone; any other review runs on the thread itself and leaves the threads as they are |
| AppServerThreads.ListShowsMatchingThreads | tests/fake-codex-fixture.mjs:355-366 | thread/list shows exactly the threads of the directory whose name contains the term, as a part of a text or an item of a list, latest update first, and fails if and only if a term is given and a thread it would search has a name that cannot be searched |
| AppServerThreads.StartedThreadIsListed | tests/fake-codex-fixture.mjs:325-344 | A started thread has a new id, which the reply names and the list of its directory shows |
| AppServerThreads.NamedThreadIsFound | tests/fake-codex-fixture.mjs:346-353 | A renamed thread is found by a term if and only if its new name contains it |
| AppServerThreads.TouchedThreadComesFirst | tests/fake-codex-fixture.mjs:346-385 | Naming a known thread, resuming it or starting a turn on it stamps that thread, gives it the name if there is one, and leaves every other as it was; the list then shows it ahead of every thread last updated before |
| AppServerThreads.TouchedThreads | tests/fake-codex-fixture.mjs:419-455 | The threads after such a request, exactly: the touched one in its place, and in front of all the named, ephemeral thread of a subagent in the directory of its parent, if the turn runs one |
| AppServerThreads.NewThreadIsAsAsked | tests/fake-codex-fixture.mjs:120-133 | A started and an imported thread come in front of the list with what the request or the transcript gives them, in the server's own directory if that names none, and new content is recorded with thread and time; the capability is what `initialize` last gave, whatever else is asked |
| AppServerThreads.CapabilityIsTheLastGiven | tests/fake-codex-fixture.mjs:305-309 | In every run the experimental capability is what the last `initialize` that was read gave, and missing before the first |
| AppServer.AppServer.constructor | tests/fake-codex-fixture.mjs:21-26 | The server starts with both counters at one and nothing else |
| AppServer.AppServer.OpenThread | tests/fake-codex-fixture.mjs:120-133 | Allocates the next thread id and puts the thread in front of the list |
| AppServer.AppServer.HandOutTurn | tests/fake-codex-fixture.mjs:143-147 | Allocates the next turn id |
| AppServer.AppServer.EmitTurnCompleted | tests/fake-codex-fixture.mjs:165-177 | Sends started, the items in order, completed |
| AppServer.AppServer.Review | tests/fake-codex-fixture.mjs:387-417 | The review handler, with the reply leaving before the text is made |
| AppServer.AppServer.StartTurn | tests/fake-codex-fixture.mjs:419-441 | The turn handler up to the prompt, with the reply leaving before the name is looked at |
| AppServer.AppServer.RunSubagent | tests/fake-codex-fixture.mjs:443-550 | A turn with a subagent's thread and turn inside it |
| AppServer.AppServer.RunTurn | tests/fake-codex-fixture.mjs:552-631 | A turn that completes at once or is parked for approval, interruption or delay |
| AppServer.AppServer.InterruptTurn | tests/fake-codex-fixture.mjs:645-665 | Clears the timer, completes the turn as interrupted if it is interruptible, and replies |
| AppServer.AppServer.ImportSession | tests/fake-codex-fixture.mjs:667-739 | The import: finds the record or makes thread and record |
| AppServer.AppServer.Dispatch | tests/fake-codex-fixture.mjs:304-744 | The switch over the method, handler by handler |
| AppServer.AppServer.HandleLine | tests/fake-codex-fixture.mjs:288-747 | Whatever throws is answered with an error, after what was already sent |
| AppServer.AppServer.HandleResponse | tests/fake-codex-fixture.mjs:289-302 | An approval answer completes its pending turn; any other is ignored |
| AppServer.AppServer.FireTimer | tests/fake-codex-fixture.mjs:613-624 | The five-second timer completes the turn if it is still interruptible |
| AppServer.AppServer.FireDelay | tests/fake-codex-fixture.mjs:179-183 | The delayed completion |
| AppServer.AppServer.ListThreads | tests/fake-codex-fixture.mjs:355-366 | The list handler, over the threads as they are |
| AppServer.AppServer.StartThread | tests/fake-codex-fixture.mjs:325-344 | The start handler with its two refusals |
| AppServer.AppServer.NameThread | tests/fake-codex-fixture.mjs:346-353 | The name handler |
| AppServer.AppServer.ResumeThread | tests/fake-codex-fixture.mjs:368-385 | The resume handler with its two refusals |
| SessionImport.EveryRunKeepsLedgerSound | tests/fake-codex-fixture.mjs:698-738 | In every run the thread list is every thread handed out, newest first; records are distinct in (source, content hash) and in their threads; every record names an existing thread that an import made; imported threads equal records in number |
| SessionImport.NewContentIsFound | plugins/opnd-codex/scripts/lib/codex.mjs:1991-2003 | Importing new content adds one record, and the client takes the very thread the server made, whatever the clock says and on either platform |
| SessionImport.KnownContentIsFoundIffLatest | plugins/opnd-codex/scripts/lib/codex.mjs:1991-2003 | Importing known content adds nothing, and the client takes the server's thread if and only if the matching record is the latest of its source |
| SessionImport.LatestMeansLastImport | plugins/opnd-codex/scripts/lib/codex.mjs:1842-1853 | With a clock that does not run backwards a record is its source's latest if and only if that source, under any of its names, was not imported again after it |
| SessionImport.RevertedTranscriptYieldsTheWrongThread | tests/fake-codex-fixture.mjs:708-735 | A transcript changed, imported and changed back: the server means the first thread, the client takes the second |
| ImportLedger.PickIsLatestOfSource | plugins/opnd-codex/scripts/lib/codex.mjs:1862-1868 | On every ledger and platform the pick is the latest record of this very source, nothing exactly when the source has no record, and never another source's thread |
| ImportLedger.VerbatimPathIsOneSource | plugins/opnd-codex/scripts/lib/codex.mjs:1808-1832 | On Windows the verbatim form of a drive path names the source that its plain form names |
| ImportLedger.VerbatimShareIsOneSource | plugins/opnd-codex/scripts/lib/codex.mjs:1808-1832 | And so does the verbatim form of a share |
| ImportLedger.PlainFormsAreOneSourceIff | tests/transfer-import-helpers.test.mjs:10-28 | Names without a prefix are one source if and only if they are equal or, on Windows only, nothing but slashes and case tells them apart |
| StableSort.SortIsStable | plugins/opnd-codex/scripts/lib/codex.mjs:1842-1853 | The sort is the stable one: in key order, the same elements, those of each key in their first order |
| StableSort.SortEndsWithLatest | tests/transfer-import-helpers.test.mjs:28-69 | Sorted last is the greatest key and, among equals, the one furthest down |
| LogTailRuns.StreamingEqualsBatch | plugins/opnd-codex/scripts/lib/log-tail.mjs:78-146 | For every append-only log cut into ticks at any bytes, each within the cap, with failed reads in between: the lines of all ticks are the complete lines of the whole file decoded at once, and the reader stays in step with it |
| LogTailRuns.TickWithinCap | plugins/opnd-codex/scripts/lib/log-tail.mjs:100-145 | One tick within the cap emits exactly the lines its bytes complete |
| LogTailRuns.WatchedTextArrivesIntact | tests/log-tail-decoder-reset.test.mjs:82-97 | For a log that is the UTF-8 encoding of some text, cut anywhere, the emitted lines are the text's lines |
| LogTailRuns.DiscontinuityForgets | plugins/opnd-codex/scripts/lib/log-tail.mjs:91-122 | After a reported discontinuity the result depends on the watermark and the file only, on no earlier byte, partial line or decoder state |
| LogTailRuns.TruncatedReadIsFreshIff | plugins/opnd-codex/scripts/lib/log-tail.mjs:91-122 | A read of any file shorter than the watermark is a fresh reader's if and only if the file can be read and is not empty, or the decoder was fresh; and only then is the reset reported: a file cut down to nothing, and one that cannot be opened, return before the decoder is reset |
| LogTailRuns.ReadReports | plugins/opnd-codex/scripts/lib/log-tail.mjs:78-146 | Of every file, missing and unreadable ones included: a reset is reported exactly when something was read and the file had shrunk or grown by more than eight mebibytes; where the watermark then stands; and that a read of nothing yields no lines, keeps the decoder, and drops the pending text exactly when the file shrank |
| LogTailRuns.MissedResetCorruptsNextLine | tests/log-tail-decoder-reset.test.mjs:32-52 | What that costs, in both cases: the new file's first line starts with a replacement character, and no reset is reported then either |
| LogTailRuns.BurstKeepsWholeLines | plugins/opnd-codex/scripts/lib/log-tail.mjs:101-135 | A burst past the cap with a newline in the slice: only whole lines survive, exactly the file's last ones, and the reader is in step again |
| LogTailRuns.BurstReadsAfterNewline | tests/log-tail-decoder-reset.test.mjs:54-80 | What such a read yields is what follows the slice's first newline, decoded from rest |
| LogTailRuns.BurstSliceBecomesPending | plugins/opnd-codex/scripts/lib/log-tail.mjs:132-144 | With no newline in the slice nothing is emitted and all of it is kept as pending |
| LogTailRuns.BurstWithoutNewlineTears | plugins/opnd-codex/scripts/lib/log-tail.mjs:126-145 | After such a burst behind an earlier newline the reader is in step with the file if and only if the slice does not begin with a byte-order mark and what was lost of the line, with the bytes of the slice that finish a character of it, reads as one replacement character for each of those bytes; for a slice that begins with a character that means that nothing of the line was lost. The header comment promises that the torn fragment is dropped |
| LogTailRuns.BurstInFirstLineTears | plugins/opnd-codex/scripts/lib/log-tail.mjs:126-145 | The same in a file without an earlier newline; for a slice that begins with a character, in step if and only if what was skipped is exactly the file's byte-order mark and the slice does not begin with another |
| LogTailRuns.CutReplacementStaysInStep | plugins/opnd-codex/scripts/lib/log-tail.mjs:126-145 | A cut inside a replacement character that the file holds itself leaves the reader in step |
| LogTail.ReadLogTailFromOffset | plugins/opnd-codex/scripts/lib/log-tail.mjs:78-146 | The reader with its decoder object computes the read of the tail value: lines, watermark, pending text, decoder state and reset flag, for missing, failing, unchanged, shrunken and grown files |
| LogTail.ReadBytes | plugins/opnd-codex/scripts/lib/log-tail.mjs:100-145 | The part that reads a slice, with the cap |
| LogTail.DecodeInto | plugins/opnd-codex/scripts/lib/log-tail.mjs:120-125 | Resets the decoder on a discontinuity, then decodes streaming, or to the end when there is no decoder |
| LogTail.SplitOff | plugins/opnd-codex/scripts/lib/log-tail.mjs:139-144 | The loop-free split: complete lines and the held-back rest |
| LogTail.SplitComputesLines | plugins/opnd-codex/scripts/lib/log-tail.mjs:139-144 | Replacing CR LF, splitting at LF and popping the last segment yields the lines and the rest of the text |
| LogTail.LinesConcat | plugins/opnd-codex/scripts/lib/log-tail.mjs:137-144 | Holding the rest back and prepending it later finds the lines of the whole, also when the cut falls between CR and LF |
| TextDecoding.TextDecoder.DecodeStream | plugins/opnd-codex/scripts/lib/log-tail.mjs:123-125 | The streaming decoder, byte by byte, computes the decoding function from its present state |
| TextDecoding.DecodeTextConcat | tests/log-tail-decoder-reset.test.mjs:24-30 | Decoding in two pieces is decoding at once |
| TextDecoding.NewlineForgets | plugins/opnd-codex/scripts/lib/log-tail.mjs:129-135 | A newline byte brings the decoder to rest whatever it held, after at most one replacement character |
| Utf8.WellFormedIffCleanDecode | tests/status-tail-watch.test.mjs:246-271 | Bytes decode without a replacement character and to rest if and only if they are the encoding of scalar values, as RFC 3629 section 3 defines it |
| Utf8.DecodeEncodeAll | tests/status-tail-watch.test.mjs:246-271 | Decoding the encoding of any text gives the text back |
| StatusWatch.RunStatusWatch | plugins/opnd-codex/scripts/codex-companion.mjs:2707-2790 | The watch loop over the polls writes what the watch function says and ends exactly when a poll sees a terminal job |
| StatusWatch.WatchWritesEveryLineOnce | tests/status-tail-watch.test.mjs:113-158 | Watching a growing log writes every line exactly once and in order, and the unterminated last one when the job ends |
| StatusWatch.WatchShowsTheEndIff | plugins/opnd-codex/scripts/codex-companion.mjs:2773-2778 | The final flush shows the file to its very end if and only if the file does not stop inside a character: what the decoder still holds is not written |
| StatusWatch.WatchCutsOnlyTheFirstPoll | plugins/opnd-codex/scripts/codex-companion.mjs:2743-2760 | What is written is the end of the file's lines: all of them when all are asked for or the first poll found no more than the number requested, otherwise exactly the last that many of the first poll's lines and every later one |
| StatusWatch.WatchEndsAtFirstTerminalPoll | plugins/opnd-codex/scripts/codex-companion.mjs:2773-2782 | The watch ends on a terminal status exactly when some poll sees one, and what it writes depends on nothing behind that poll |
| ProtocolLines.StripRemovesWellFormed | plugins/opnd-codex/scripts/lib/jsonl.mjs:45-61 | Of the sequences of ECMA-48 sections 5.4 to 5.6 and the escapes of ECMA-35, between any texts, every one is removed whole whose string body, if it has one, holds no line terminator and no BEL |
| ProtocolLines.StringIsMatchedWholeIff | plugins/opnd-codex/scripts/lib/jsonl.mjs:45-61 | A string sequence that is well formed under ECMA-48 section 5.6 is matched whole, whatever follows it, if and only if its body holds no line terminator and no BEL |
| ProtocolLines.StripGoesPieceByPiece | plugins/opnd-codex/scripts/lib/jsonl.mjs:60-77 | Of any line of plain text and sequences of the standards, whether they are matched whole or not, what is left is what each piece leaves on its own: no escape reaches over the end of a string sequence |
| ProtocolLines.StringLeaves | plugins/opnd-codex/scripts/lib/jsonl.mjs:51-61 | What a string sequence without ESC in its body leaves, command and character strings alike: nothing if the body is clear, what follows the first BEL if that comes before any line terminator, and otherwise the whole body with the BEL that should have ended it |
| ProtocolLines.CommandStringIsRemovedIff | plugins/opnd-codex/scripts/lib/jsonl.mjs:51-61 | A command string leaves nothing behind if and only if its body is clear in that sense; otherwise its body stays |
| ProtocolLines.NoisyRecordIsRecoveredIff | plugins/opnd-codex/scripts/lib/jsonl.mjs:73-86 | Between any two runs of well-formed sequences a record is recovered if and only if what each run leaves is white space; noise behind the record is never a reason to refuse the line, so a record damaged there goes to the parser |
| ProtocolLines.SequenceBesideRecordIff | plugins/opnd-codex/scripts/lib/jsonl.mjs:73-86 | One sequence of any kind, in front of a record or behind it, leaves the record to be recovered if and only if what it leaves itself is white space |
| ProtocolLines.CommandStringBesideRecordIff | tests/jsonl.test.mjs:62-87 | For a command string on either side of a record that means that its body is clear, or is white space altogether and ends with ST |
| ProtocolLines.ReturnInControlStringLosesRecord | plugins/opnd-codex/scripts/lib/jsonl.mjs:60-61 | A device control string with a carriage return in it is well formed; any record behind it is lost, and one before it is accepted with the string's body attached |
| ProtocolLines.BellInCharacterStringLosesRecord | plugins/opnd-codex/scripts/lib/jsonl.mjs:60-61 | A character string may hold a BEL; any record behind such a one is lost, and one before it is accepted damaged |
| ProtocolLines.NoisyRecordIsRecovered | tests/jsonl.test.mjs:34-87 | Around an ESC-free record that starts with a brace or bracket, any noise of such sequences before and after is removed and the trimmed record is what is left |
| ProtocolLines.StripRemovesOnlyEscapes | plugins/opnd-codex/scripts/lib/jsonl.mjs:60-77 | On every input only escapes are removed, and every other character is kept in order |
| ProtocolLines.AcceptedLinesAreClean | plugins/opnd-codex/scripts/lib/jsonl.mjs:73-86 | Every accepted line is trimmed, escape-free, starts like JSON, and is accepted again as it is |
| ProtocolLines.BareEscapeEatsTheBrace | plugins/opnd-codex/scripts/lib/jsonl.mjs:53-57 | A bare ESC in front of a record takes the record's brace along |
| SocketFraming.LineFramer.ProcessSocketChunk | plugins/opnd-codex/scripts/app-server-broker.mjs:361-507 | The frame loop computes the frames and the remainder of buffer and chunk, or reports the oversized frame; it ends because the buffer shrinks |
| SocketFraming.ChunkingDoesNotMatter | plugins/opnd-codex/scripts/app-server-broker.mjs:361-376 | A stream that fits the cap yields its frames under every chunking |
| SocketFraming.MessagesArrive | tests/broker-spawn-worker.test.mjs:20-45 | Newline-free messages, terminated and cut anywhere, arrive exactly and in order with nothing left over |
| SocketFraming.EveryChunkingWorksIffWithinCap | plugins/opnd-codex/scripts/app-server-broker.mjs:363-371 | They do so under every chunking if and only if none is longer than the cap |
| SocketFraming.NoisyRecordsArrive | plugins/opnd-codex/scripts/app-server-broker.mjs:374-385 | Framing and cleaning together: noisy records cut into any chunks are the records handed to the parser, for the noise that passes |
| Framing.FramesConcat | plugins/opnd-codex/scripts/app-server-broker.mjs:372-376 | Taking a stream in two pieces, holding the remainder back, finds the same frames |
| Framing.FramesOfTerminated | tests/broker-spawn-worker.test.mjs:20-45 | Splitting undoes terminating |
| JobPruning.PruneKeeps | plugins/opnd-codex/scripts/lib/state.mjs:487-503 | A save keeps every active job and the latest terminal ones that fit into the cap beside them; the list is ordered by the time of the last update, latest first, with the jobs without a time last |
| JobPruning.PruneKeepsActive | tests/job-lifecycle-fixes.test.mjs:37-68 | No running or queued job is evicted, and nothing enters that was not there |
| JobPruning.PruneDropsTheOldest | plugins/opnd-codex/scripts/lib/state.mjs:498-502 | A dropped job is neither running nor queued, and against any such job that is kept it has no time of update, or the kept one has one that is not earlier |
| JobPruning.PruneCaps | tests/job-lifecycle-fixes.test.mjs:85-97 | The exact number kept: all active jobs if they are fifty or more, otherwise all jobs up to fifty |
| JobPruning.PruneDropsNothingIff | plugins/opnd-codex/scripts/lib/state.mjs:493-502 | Nothing is dropped if and only if there are at most fifty jobs or all are running or queued |
| JobPruning.PruneIsIdempotent | plugins/opnd-codex/scripts/lib/state.mjs:487-503 | Pruning again changes nothing |
| JobStore.JobStore.SaveState | plugins/opnd-codex/scripts/lib/state.mjs:505-528 | Writes the pruned jobs and deletes file and log of exactly the previous jobs that are no longer there |
| JobStore.JobStore.SaveStateLocked | plugins/opnd-codex/scripts/lib/state.mjs:530-532 | The exported save: the same under the lock, nothing without it or over an unreadable index |
| JobStore.JobStore.WriteJobFile | plugins/opnd-codex/scripts/lib/state.mjs:763-772 | Writes one job's file under the lock, and nothing without it |
| JobStore.JobStore.UpsertJob | plugins/opnd-codex/scripts/lib/state.mjs:553-571 | Merges the patch, or puts a new job in front, and saves; nothing without the lock or over an unreadable index |
| JobStore.JobStore.FindDead | plugins/opnd-codex/scripts/lib/state.mjs:651-654 | The lock-free scan finds a job to reap if and only if there is one |
| JobStore.JobStore.MarkDead | plugins/opnd-codex/scripts/lib/state.mjs:663-695 | The loop ends exactly the dead jobs, each with its reason, and leaves the others as they are |
| JobStore.JobStore.UpdateJobFile | plugins/opnd-codex/scripts/lib/state.mjs:724-746 | Ends the job's own file unless it is missing, unreadable, completed or failed |
| JobStore.JobStore.RunLockedPass | plugins/opnd-codex/scripts/lib/state.mjs:659-748 | The pass under the lock: mark, save, mirror |
| JobStore.JobStore.Reap | plugins/opnd-codex/scripts/lib/state.mjs:639-748 | The reaper: the scan, then the locked pass only if it found something |
| JobStoreRuns.ScanRefinesLockedPassIff | tests/reaper-fast-path.test.mjs:43-109 | Scan and plain locked pass reap the same jobs on every store, clock and process table, and leave the same files if and only if something is dead, the lock is taken, the index is unreadable, or the index is already pruned |
| JobStoreRuns.ScanIsFaithfulInEveryRun | plugins/opnd-codex/scripts/lib/state.mjs:643-657 | In every run of these operations from a new workspace the index stays pruned, so the two agree on every file once there is an index |
| JobStoreRuns.ReapWritesIffSomethingDead | tests/reaper-fast-path.test.mjs:43-75 | The index is rewritten if and only if something is dead and the lock is free; otherwise nothing is touched, not even the lock |
| JobStoreRuns.ReapingTwiceIsReapingOnce | plugins/opnd-codex/scripts/lib/state.mjs:639-748 | A second pass against the same processes and clock finds and changes nothing |
| JobStoreRuns.ReapEndsOnlyTheDead | plugins/opnd-codex/scripts/lib/state.mjs:608-618 | Every job afterwards is a job from before, untouched or ended; no terminal job becomes active; every job that is active and not dead is still there, untouched |
| JobStoreRuns.JobIsReapedIff | plugins/opnd-codex/scripts/lib/state.mjs:252-275 | The law of the reaper, with the lock free and a readable index. A running or queued job with a process on record is reaped as died if and only if that process does not run, as reused if and only if it runs under another birth mark than the one recorded, both known; without a process a running one is always reaped, a queued one if and only if a minute has passed since its time on record; any other job never |
| JobStoreRuns.LiveJobsAreNeverReaped | tests/pid-liveness-reaper.test.mjs:100-126 | A running or queued job whose process runs, under the birth mark it recorded if both are known, or that is queued without a process for less than a minute, keeps its record untouched |
| JobStoreRuns.ReasonsAreTrue | plugins/opnd-codex/scripts/lib/state.mjs:668-680 | Each reported reason is true of a running or queued job of that id: lost after a minute without a process, running without one on record, another process under its pid, no process under it |
| JobStoreRuns.ReapedJobsKeepTheirRecords | plugins/opnd-codex/scripts/lib/state.mjs:668-695 | With at most fifty jobs the record of a reaped job stays in the index, ended field by field: failed, terminated, without a pid, completed now, with the reason reported as its failure reason and message unless it already had its own, and everything else as it was |
| JobStoreRuns.UpsertPatchesTheRecord | plugins/opnd-codex/scripts/lib/state.mjs:564-569 | A patch of a known job sets exactly the fields it gives and the present time as its update, whatever the patch says; the record is in the index if it fits or is running or queued, and so are the other records |
| JobStoreRuns.UpsertAddsTheRecord | plugins/opnd-codex/scripts/lib/state.mjs:556-563 | A job new to the index gets the fields of its patch, and the present time as creation and update where the patch gives none |
| JobStoreRuns.WritesReportWhetherTheyTookPlace | plugins/opnd-codex/scripts/lib/state.mjs:530-541 | A save or upsert takes place, and says so, exactly with the lock and over an index that can be read, the write of a job file exactly with the lock; otherwise every file stays as it was |
| JobStoreRuns.ReapKeepsEveryRecordIff | plugins/opnd-codex/scripts/lib/state.mjs:659-748 | A pass keeps as many records as there were, on every store, if and only if nothing is dead, the lock is taken, or there are at most fifty jobs |
| JobStoreRuns.LostRecordsAreReaped | plugins/opnd-codex/scripts/lib/state.mjs:487-503 | Over a pruned index a record is lost only beyond the cap, only that of a reaped job, and never while a job that is neither running nor queued and was updated earlier is kept |
| JobStoreRuns.RecordsLeftBeyondCap | plugins/opnd-codex/scripts/lib/state.mjs:487-503 | Beyond the cap as many records are left as jobs were not reaped, or as the cap allows if those are fewer |
| JobStoreRuns.ManyDeadJobsLoseTheirRecords | plugins/opnd-codex/scripts/lib/state.mjs:493-502 | The extreme case: of more than fifty dead jobs all are reported and exactly fifty records survive |
| JobStoreRuns.ReapedJobsEndInTheirFiles | plugins/opnd-codex/scripts/lib/state.mjs:721-746 | After a pass the file of a reaped job still in the index has ended too, field by field for a reason the pass reports, unless its lock was taken; one that had completed or failed keeps its own result |
| JobStoreRuns.DroppedJobFileGoesIff | plugins/opnd-codex/scripts/lib/state.mjs:523-530 | The file of a dropped job is deleted if and only if the previous index had the job |
| JobStoreRuns.LogGoesIff | plugins/opnd-codex/scripts/lib/state.mjs:523-530 | A log is deleted if and only if a job dropped from the previous index names it, whoever else does |
| JobStoreRuns.ArtifactsFollowTheIndex | plugins/opnd-codex/scripts/lib/state.mjs:505-532 | Over any sequence of saves, upserts, reaps and writes, from any store: a job's file is there if and only if it was written, or there at first, and the index has not dropped the job since; and a log if and only if the index has not since dropped a job that names it |
| JobStoreRuns.OpFollowsIndex | plugins/opnd-codex/scripts/lib/state.mjs:505-571 | One operation deletes exactly the files of the jobs it drops from the index and the logs those jobs name |
| JobStoreRuns.NewFinishedJobLeaksItsFiles | plugins/opnd-codex/scripts/lib/state.mjs:553-563 | With the cap full of active jobs a finished job new to the index is dropped by the save that introduces it, and its file stays |
| JobStoreRuns.ActiveJobOutlivesEveryRun | tests/job-lifecycle-fixes.test.mjs:37-83 | Over any sequence of saves, upserts, reaps and writes that leave it alone, an active job keeps its record, its file and its log, however many newer jobs there are |
| ReaperRaces.UndisturbedRaceIsReap | plugins/opnd-codex/scripts/lib/state.mjs:639-748 | The reaper among other writers, with nobody else writing, is the reaper as it stands alone |
| ReaperRaces.ReapsWhatTheLockSeesIff | plugins/opnd-codex/scripts/lib/state.mjs:651-668 | Whatever others write between scan and lock, and whichever processes come and go: the reaper ends exactly the jobs that a pass at the moment of the lock would end, if and only if the scan had found something, the lock is taken, or nothing is dead under the lock; and every reason is true of the store as the lock finds it |
| ReaperRaces.RevivedJobIsKept | plugins/opnd-codex/scripts/lib/state.mjs:663-668 | A job that is no longer dead when the lock is taken stays as others left it |
| ReaperRaces.NoUpdateIsLost | plugins/opnd-codex/scripts/lib/state.mjs:659-748 | However others write while the job files are mirrored outside the lock, the index ends as the one the pass saved with all that they wrote since |
| ReaperRaces.MirrorAmidKeepsIndex | plugins/opnd-codex/scripts/lib/state.mjs:721-746 | Mirroring disturbs no other writer: the index is what they would have made of it had no file been mirrored |
| ReaperRaces.MirrorSplitsIff | plugins/opnd-codex/scripts/lib/state.mjs:724-746 | Mirroring a reaped job leaves the index with a live job and its file with an ended one if and only if others had made the job active again before and its file is one that the mirror ends, or one that is over already |
| ReaperRaces.LateWorkerLosesItsFile | plugins/opnd-codex/scripts/lib/state.mjs:721-746 | A worker that starts after its job was reaped and before the job's file is mirrored has that file ended under it, over any store |
| WorkerDispatch.AtMostOneWorkerIff | plugins/opnd-codex/scripts/lib/broker-lifecycle.mjs:188-256 | Over every order of connecting, silence, replies, spawns and timeouts on both sides a job gets at most one worker, if and only if the client gives up no later than the broker does or the dispatcher spawns none itself |
| WorkerDispatch.DefiniteMeansExactlyOne | plugins/opnd-codex/scripts/codex-companion.mjs:1585-1623 | With the program's timeouts: a reported pid means exactly that worker; a definite no means exactly one local worker if its spawn succeeded and none otherwise, and none at all with the fallback disabled; an ambiguous outcome means no local worker, and one worker exactly when the broker's came up |
| WorkerDispatch.LocalSpawnsCount | plugins/opnd-codex/scripts/codex-companion.mjs:1660-1742 | The dispatcher spawns once at most, never with the fallback disabled, and has a worker exactly when that spawn succeeded |
| WorkerDispatch.RefusedDispatchEndsFailed | plugins/opnd-codex/scripts/codex-companion.mjs:1689-1728 | A definite no with the fallback disabled: the job's only record ends as failed with the dispatcher's own reason, no later pass of the reaper reports it, and the record is there whenever the index fits the cap |
| WorkerDispatch.LegalRunKeepsInv | plugins/opnd-codex/scripts/app-server-broker.mjs:74-164 | In every run a reply without a pid that can still be read means that no worker will come |
| WorkerDispatch.ImpatientBrokerLeadsToTwo | plugins/opnd-codex/scripts/app-server-broker.mjs:150-157 | With the fallback enabled, if the broker gave up first there would be a run with two workers |
| WorkerDispatch.SilentDispatchEndsAsLost | tests/job-lifecycle-fixes.test.mjs:106-139 | A silent dispatch without a worker stays queued for exactly the grace period after the dispatcher's last write, and the first pass after it ends the job as dispatch_lost |
| WorkerDispatch.LiveWorkerSurvivesIffItWritesLast | plugins/opnd-codex/scripts/codex-companion.mjs:1735-1742 | An ambiguous dispatch whose worker did come up: the running job survives if and only if the worker's first write lands after the dispatcher's last, whose null pid otherwise replaces the worker's and has the live job ended as no_pid_recorded |
| SpawnClient.SpawnWorkerCall.OnData | plugins/opnd-codex/scripts/lib/broker-lifecycle.mjs:230-253 | The buffer loop settles with the first line that answers the call, passing over malformed lines and other messages |
| SpawnClient.SpawnWorkerCall.OnConnect | plugins/opnd-codex/scripts/lib/broker-lifecycle.mjs:220-229 | Records the connection; a write that fails settles as ambiguous |
| SpawnClient.SpawnWorkerCall.OnNoReply | plugins/opnd-codex/scripts/lib/broker-lifecycle.mjs:216-218 | Timeout, error and close: ambiguous with a connection, null without |
| SpawnClient.SpawnWorkerCall.SettleWith | plugins/opnd-codex/scripts/lib/broker-lifecycle.mjs:200-215 | Only the first settlement counts |
| SpawnClient.ChunkingDoesNotMatter | plugins/opnd-codex/scripts/lib/broker-lifecycle.mjs:230-253 | However the bytes are cut, the call settles with the first answering line of the whole stream, or stays open with the whole remainder |
| SpawnClient.SettlesOnce | plugins/opnd-codex/scripts/lib/broker-lifecycle.mjs:198-215 | In every order of events the first outcome is final |
| SpawnClient.OpenExactlyUntilDecided | plugins/opnd-codex/scripts/lib/broker-lifecycle.mjs:198-256 | In every order of connecting, data, silence and errors the call is open exactly while no timer, error or close has come, no write has failed, and no complete line of the stream answers it |
| SpawnClient.DecidedByItsEvent | plugins/opnd-codex/scripts/lib/broker-lifecycle.mjs:216-253 | What the deciding event decides: silence is ambiguous with a connection and null without, a failed write ambiguous, and the first line that answers gives its result, or null if it is an error or has none |
| TelemetryRuns.EveryEmitIsAccountedFor | plugins/opnd-codex/scripts/lib/telemetry.mjs:198-244 | For every pattern of disk failures: calls made while enabled equal events appended, plus what markers report, plus what is pending, less the markers that could not be written; so the plain balance holds if and only if no marker write failed |
| TelemetryRuns.HistoryIsWhatWasEmitted | plugins/opnd-codex/scripts/lib/telemetry.mjs:294-350 | In every run the events in the ledger's history are those of the enabled, valid calls whose line could be written, with their name, origin and details, in the order of the calls |
| TelemetryRuns.ReaderSeesSuffix | plugins/opnd-codex/scripts/codex-efficiency-report.mjs:49-51 | Under one writer, whatever its failing appends leave in the files: each of the two files gives back exactly what was appended to it under the condition of `FileReadsBackIff`; if both do, the reader sees a suffix of everything appended, in order; and with no torn line at all, it sees all of it if and only if there was at most one rotation |
| TelemetryRuns.FileReadsBackIff | plugins/opnd-codex/scripts/codex-efficiency-report.mjs:33-43 | A file gives back exactly the lines appended to it if and only if no append to it failed on the way, or none succeeded and it cannot be read |
| TelemetryRuns.FileReadsAs | plugins/opnd-codex/scripts/codex-efficiency-report.mjs:33-43 | A file reads as all its records if every line but the last is whole and the last misses its newline at most, those counted as lost included, and as nothing otherwise |
| TelemetryRuns.TornLineLosesSegment | plugins/opnd-codex/scripts/codex-efficiency-report.mjs:33-43 | One line that an append left short, with another behind it, and the reader loses everything in the file, what came before included |
| TelemetryRuns.SegmentStaysNearTheCap | tests/telemetry-rotation-classify.test.mjs:168-180 | While renames work the current segment exceeds the cap by less than its last line, torn lines included |
| TelemetryRuns.OnlyFullSegmentsRotate | plugins/opnd-codex/scripts/lib/telemetry.mjs:257-282 | In every run a segment is moved aside only once it has reached the cap: rotations times the cap never exceed the bytes appended less those of the current segment, and the rotated segment is full |
| TelemetryRuns.BelowTwiceTheCapNothingIsLost | tests/telemetry-rotation-classify.test.mjs:168-180 | With less than twice the cap appended in all and no line torn, the reader sees every line that was appended |
| TelemetryRuns.EmitTellsWhetherItWrote | plugins/opnd-codex/scripts/lib/telemetry.mjs:225-244 | An emit answers true exactly when its own line went out whole; otherwise one more loss is pending unless telemetry is off, and a line that went out settles the pending losses by a marker, which adds itself if it fails |
| TelemetryRuns.ReportAddsUp | tests/efficiency-report-filter.test.mjs:82-132 | With at most one rotation, every marker written and no line torn: events read, dropped events reported and losses pending add up to the calls made while enabled |
| TelemetryRuns.Summarize | plugins/opnd-codex/scripts/codex-efficiency-report.mjs:53-88 | The report: kept and test-origin events partition the input, the dropped events are the markers' sum and not their number, and for every name the three tables give the number of kept events of that name, of that output profile (`none` without one), and of that failure class or, without one, error class, empty ones aside |
| TelemetryRuns.CountUnder | plugins/opnd-codex/scripts/codex-efficiency-report.mjs:62-70 | One table, counted in one loop: for each name that occurs under the heading its number of kept events, and no other name |
| TelemetryRuns.SumUp | plugins/opnd-codex/scripts/codex-efficiency-report.mjs:53-76 | The totals of the report, counted in one loop |
| Telemetry.TelemetryWriter.RotateIfNeeded | plugins/opnd-codex/scripts/lib/telemetry.mjs:257-282 | Moves the segment aside, replacing the one before, exactly when it has reached the cap and the rename works |
| Telemetry.TelemetryWriter.WriteEntry | plugins/opnd-codex/scripts/lib/telemetry.mjs:338-347 | Rotates if needed, then appends one line |
| Telemetry.TelemetryWriter.EmitEvent | plugins/opnd-codex/scripts/lib/telemetry.mjs:294-350 | One emit: nothing when disabled, a counted loss when invalid or unwritable, otherwise the event and then the marker that is due |
| Telemetry.TelemetryWriter.FlushDeferredWriteFailures | plugins/opnd-codex/scripts/lib/telemetry.mjs:225-244 | Records the pending losses in one marker; a marker that fails restores them and adds itself |
| VersionLaws.BumpMeansInSync | scripts/bump-version.mjs:159-193 | After a bump that succeeds: the check finds nothing, and the changed files are the ones the check named beforehand, if and only if no manifest is an array; a second bump changes nothing; everything outside the version fields, and every other file, is as before |
| VersionLaws.BumpSetsAllSixPlaces | scripts/bump-version.mjs:8-73 | After a bump that succeeds the version stands in all six places of the four files, told as paths, the plugin being the first of that name; an array in a manifest of one field is the exception |
| VersionLaws.TargetLaws | scripts/bump-version.mjs:8-73 | The same for one manifest of the table, array or object |
| VersionLaws.FieldLaws | scripts/bump-version.mjs:8-73 | Getter and setter of each field are a lens: what was set is read back, setting what is there changes nothing, setting again changes nothing, all else is kept, later plugins of the same name included |
| VersionLaws.BesideIsUndisturbed | scripts/bump-version.mjs:21-71 | The two fields of one manifest do not disturb each other |
| VersionLaws.ArrayManifestStaysOutOfDate | scripts/bump-version.mjs:15-17 | A manifest that is an array takes the version without an error and is still reported |
| VersionLaws.BumpChangesNothingIff | scripts/bump-version.mjs:175-193 | For any table of manifests: a bump leaves every file as it was, whether it succeeds or throws, if and only if every manifest before the first that throws already has the version |
| VersionLaws.FailedBumpChangesNothingIff | scripts/bump-version.mjs:175-193 | For the program's table: a bump that throws has changed nothing if and only if every manifest before the throw was an array or passed the check for that version |
| VersionLaws.BumpTouchesTargetsOnly | scripts/bump-version.mjs:178-190 | Whether it succeeds or throws, a bump touches no file that is not in the table |
| VersionLaws.FailedBumpKeepsEarlierWrites | scripts/bump-version.mjs:178-190 | A repository with the first manifest alone: the bump throws on the second, which is missing, and the first keeps the new version |
| VersionManifests.Repository.CheckVersions | scripts/bump-version.mjs:159-173 | The nested loops compute the mismatches, or throw on the first unreadable manifest or field |
| VersionManifests.Repository.BumpVersion | scripts/bump-version.mjs:175-193 | The loops compute the bumped files and the changed ones; files written before a failure stay written |
| VersionManifests.Repository.SetTarget | scripts/bump-version.mjs:179-184 | All setters of one manifest, in order |
| JsonPaths.PutThenLookup | scripts/bump-version.mjs:134-138 | An assignment at the end of a path is read back |
| JsonPaths.PutKeepsApart | scripts/bump-version.mjs:134-138 | An assignment leaves every path apart from its own as it was |
| SkipTaxonomy.LastTagIsReadBack | plugins/opnd-codex/scripts/lib/codex-skip-taxonomy.js:58-69 | Of any sequence of tags the last is read back: always for retry budget and timeout, for a context that is too large if and only if nothing about the error itself looks like a timeout |
| SkipTaxonomy.RetryInfoIsRightBiased | plugins/opnd-codex/scripts/lib/codex-skip-taxonomy.js:87-96 | Over any sequence of tags `retryInfo` is the right-biased merge, key by key, with `threadId` given by every tag that names a thread, and the error's thread is the latest non-empty one |
| SkipTaxonomy.ThreadsAgree | plugins/opnd-codex/scripts/lib/codex-skip-taxonomy.js:82-93 | Whenever a tag resolves to a non-empty id, error and `retryInfo` name the same thread |
| SkipTaxonomy.ThreadsDisagreeIff | plugins/opnd-codex/scripts/lib/codex-skip-taxonomy.js:82-96 | After any sequence of tags error and `retryInfo` name different threads if and only if some tag put another thread into `retryInfo` beside an empty id and every later one gave an empty id and no thread of its own, or they disagreed before and every tag was of that kind |
| SkipTaxonomy.OtherValuesKeepTheirMessageOnly | plugins/opnd-codex/scripts/lib/codex-skip-taxonomy.js:77-79 | A thrown value that is no error keeps nothing but its message through any tags: its code no longer counts as a timeout, and thread and retry info come from the tags alone |
| SkipTaxonomy.CodexSkipError.WithMetadata | plugins/opnd-codex/scripts/lib/codex-skip-taxonomy.js:77-99 | The assignments to the error's fields |

## Left out

- BrokerRuns.BusyExactlyWhenTaken: each socket's requests are serial, turn ids are not reused while live, a live turn's completion names that turn's thread, and a reply's ids name the turn's thread (`TurnOwnership.SettledIdsNameTheTurn`); beyond that any begin, reply, completion or close may come at any time.
- BrokerRuns.RequestExcludesOthers: the requests in flight are those begun through the ownership object; the turn control that another socket is allowed during a stream goes past it.
- BrokerRuns.LiveTurnIsProtected: says when turn control is open, not what the broker does with such a request, which goes past the ownership object.
- AppServerTurns.EveryTurnIsInOnePlace: the clock is not tied to the timers, so a timer may fire at any moment it is armed; the result holds for every such moment.
- AppServer.AppServer.Dispatch: item texts, model names, sandbox settings and the `last…` diagnostics of the state file are not modelled; account and configuration results are one constant.
- AppServer.AppServer.HandleLine: a line that is not JSON, or is null, ends the source's process and is not modelled; a turn's prompt is reduced to whether its input can be read.
- AppServer.AppServer.ImportSession: the content hash is a name for the content, so two contents with one hash are not considered; failing writes of the state and ledger files are not modelled.
- ImportLedger.VerbatimPathIsOneSource: the lower-casing of Windows paths is a parameter of the platform; the server's own comparison of paths is exact, as in the source.
- LogTail.ReadLogTailFromOffset: the file is its bytes at one moment; a rewrite of the same size is invisible to the source too.
- LogTailRuns.StreamingEqualsBatch: stated for readers with a streaming decoder; without one a character cut by a tick is lost, as the source's comment says.
- StatusWatch.RunStatusWatch: header, trace events and the closing line of the watch are not modelled, only the log lines; polls that read no job are not part of it.
- Utf8.WellFormedIffCleanDecode: texts are sequences of scalar values, not UTF-16 units.
- ProtocolLines.AcceptedLinesAreClean: characters are code units of the string; whether the accepted line parses as JSON is the parser's business.
- SocketFraming.LineFramer.ProcessSocketChunk: the cap counts characters of the buffer as the source does, although the constant's name says bytes; the handling of each line is not part of the loop's contract.
- JobPruning.PruneKeeps: times are numbers in place of ISO strings, whose order is the same for the format the program writes.
- JobStore.JobStore.SaveState: version and configuration of the index, the migration of the state directory, and the retry and staleness rules of the lock are not modelled; a lock is free or not when it is asked for.
- JobStore.JobStore.Reap: the terminated events it emits are not modelled, and of the error message only its beginning.
- ReaperRaces.ReapsWhatTheLockSeesIff: the processes are one table for the scan and one for the lock; they do not change within either.
- JobStoreRuns.ReapingTwiceIsReapingOnce: the second pass sees the same processes and clock; with a later clock a queued job may have left its grace period.
- WorkerDispatch.AtMostOneWorkerIff: a timer that is due is taken to fire before a later reply is read, as the event loop does; the broker does not crash between spawning and replying except as a closed connection.
- WorkerDispatch.SilentDispatchEndsAsLost: the `dispatchState` note is not a field of the modelled record, and its write is a patch that sets nothing.
- SpawnClient.SpawnWorkerCall.OnData: parsing a line is a parameter of the object.
- TelemetryRuns.ReaderSeesSuffix: one writer; two writers rotating at once are not modelled. That no part of a record, and no two pieces on one line, are JSON is taken from the shape of the records.
- TelemetryRuns.Summarize: which events are of test origin is a flag of the event, not its recognition by pattern; the sorting of the tables for output is not modelled.
- VersionLaws.BumpMeansInSync: writing a manifest and reading it again gives the same value; formatting, arguments and the version pattern are not modelled.
- SkipTaxonomy.LastTagIsReadBack: the message patterns and the codes that mean a timeout are flags of the error.
- Error classification by message pattern, rendering, locale handling, Git and Codex CLI calls, real sockets and process spawning: environment or plain text matching.
- The broker's life cycle apart from worker dispatch, the hooks and session bookkeeping: process management and file lookups without state of their own to keep.
