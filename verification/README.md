# Verified model of the gateway's core

The gateway receives Trello webhooks and drives one agent worker per card. This project
models its core in Dafny and proves what that core keeps in every run and for every input:

- **Dispatcher** — a small concurrent protocol. A mutex-guarded registry maps cards to
  worker handles; each handle has a bounded FIFO inbox, a `kill` channel closed once and one
  goroutine; `Dispatch`, `Stop` and `DeleteWorker` race against it. `DispatcherModel` is a
  state machine whose steps are the atomic actions (critical sections, branches of a
  `select`, channel operations, returns of session calls); a `select` may take any ready
  branch. `DispatcherInvariant` is the inductive invariant of every interleaving, and
  `DispatcherDelivery`, `DispatcherMessages`, `DispatcherRegistry`, `DispatcherTermination`,
  `DispatcherShutdown`, `DispatcherLoss`, `DispatcherOrder` and `DispatcherRaces` hold the theorems over all runs and over all
  continuations of a run. `Dispatcher` is the object itself: every method is one
  atomic block of the program and takes exactly one step of the machine.
- **Comments**, **CommentPages** — the cursor walk over an unseen comment server and the in-place insertion
  sort of what it fetched; exactly when the walk keeps to its cap.
- **Renderer**, **Playbook** — the hand-written playbook scanner, equal to a unique
  tokenisation of its source, with error positions and an attained size bound; what its
  references stand for, and why one stands for nothing.
- **Dedup** — the TTL cache of webhook deliveries, refined to the history of all calls.
- **Kanban**, **KanbanCases**, **KanbanCategories** — validation and resolution of the board's
  roles, to which case and blanks do not matter, and the
  partition of the board they produce.
- **Router**, **RouterDefaults**, **RouterExamples** — the first-match walk over guarded
  routes, the default table's agreement with that partition, and events on which they differ.
- **Ring**, **GlobalLog**, **Activity**, **ActivityPairing**, **ActivityStatus** — the two rotating logs and the
  tracker that labels interleaved tool calls.

`Common`, `Strings`, `Names` and `Numbers` hold an option type, the few string functions the code
calls, what those mean by positions and characters, and facts about products.

Clocks, the comment server, the outcome of session calls, the scheduler's choices and the
iteration order of Go maps are inputs of the model: every theorem holds for all of them.

## Where the code differs from what it says

The model follows the code. These statements of comments or documentation are not true of
it; the members named say what holds instead.

- "One worker per card" fails when an event arrives between `DeleteWorker`'s map delete and
  the old worker's `deregister`, which deletes by card id
  (`DispatcherRegistry.OneWorkerIffNoRace`, `DispatcherRaces.DeleteCanMakeTwoWorkers`).
- `Stop` is said to wait for every worker; it can return while one is running, undeleted,
  live or merely not yet exited. It can, in some continuation, exactly when at its critical
  section there is such a worker that the registry does not hold: one that `DeleteWorker` has
  unlinked and is still shutting down, or one whose entry another worker's `deregister` took
  out. A later `Stop` returns at once whatever is running
  (`DispatcherShutdown.StopLeavesIffUnseen`, `DispatcherRegistry.RegisteredIffNoMisfire`,
  `DispatcherRaces.StopCanMissAWorker`, `DispatcherRaces.StopCanMissAnUnlinkedWorker`,
  `DispatcherRaces.LaterStopReturnsAtOnce`).
- Same-card events are said to be delivered strictly in order. They are when no event
  registers the card during a `DeleteWorker` of it; in that race the later event can be
  delivered first (`DispatcherOrder.CardIsFifo`, `DispatcherOrder.CardOrderCanBreak`).
- An enqueue can report success for a message that is never received: exactly when the worker
  has left its loop, or its context is cancelled and a terminate message comes first
  (`DispatcherLoss.LostIffOutOfReach`, `DispatcherLoss.AcceptedCanBeLost`).
- A departure is said not to spawn a worker; it does, and so does a termination, exactly when
  the dispatcher is not stopped and the card's entry is removed between the existence check
  and the lock and not registered again (`DispatcherRaces.DepartureSpawnsIff`, `DispatcherRaces.DepartureCanSpawn`).
- A clock that steps backwards can let one delivery through twice within the TTL
  (`Dedup.DuplicateIffUnexpired`, `Dedup.BackwardClockForgets`).
- The hard cap of 5000 comments is looked at after a whole page, so up to 5999 are returned;
  a walk keeps to the cap exactly when the history holds no more, a page without comments
  comes first, or a page ends at exactly 5000 (`CommentPages.CapKeptIff`,
  `CommentPages.CapCanBeExceeded`).
- The default routes are said to match on ids, but a list's other name, as after it was
  renamed, counts too (`RouterDefaults.MoveFollowsCategory`,
  `RouterDefaults.CreateFollowsCategory`).
- The default routes lower-case a list name but do not trim it, unlike the lookup by name, and
  they notify a departure for a list of unknown category, which is said to be dropped
  (`RouterDefaults.NameOnlyMove`, `RouterDefaults.NameOnlyCreate`, `RouterDefaults.OffBoardMove`,
  `RouterExamples.PaddedNameDisagrees`, `RouterExamples.UnknownListDisagrees`).
- They match every comment when a configured prefix is empty, which the lookup skips
  (`RouterDefaults.CommentDropIsAgentComment`, `RouterExamples.EmptyPrefixDropsAll`).
- A worker that exits while a tool runs goes on showing that tool
  (`ActivityPairing.ExitKeepsTheTool`, `ActivityPairing.ToolShownAfterExit`).

## Model

| member | source | states |
|---|---|---|
| `Dispatcher.Dispatcher.constructor` | internal/app/dispatcher.go:146-157 | a new dispatcher is the initial state: empty registry, not stopped |
| `Dispatcher.Dispatcher.Decide` | internal/app/dispatcher.go:301-354 | the routing switch: a drop returns at once, a dispatch goes on to the lock, a departure or terminate goes on when the card has an entry at the check and returns without a worker otherwise |
| `Dispatcher.Dispatcher.EnqueueLock` | internal/app/dispatcher.go:358-381 | the critical section of enqueue: refuse when stopped, else find or make and register the handle, atomically |
| `Dispatcher.Dispatcher.EnqueueSelect` | internal/app/dispatcher.go:383-391 | each ready branch of the select has its own effect and outcome; only the send puts the message, at the end of an inbox of at most 64, with the request's event id and prompt and tagged terminate exactly for that route |
| `Dispatcher.Dispatcher.StopLock` | internal/app/dispatcher.go:537-548 | the critical section of Stop: set the flag once and snapshot the registered handles in any order; a later call returns at once |
| `Dispatcher.Dispatcher.DeleteLock` | internal/app/dispatcher.go:576-584 | the critical section of DeleteWorker: not found, or the entry is removed and its handle kept for shutdown |
| `Dispatcher.Dispatcher.Shutdown` | internal/app/dispatcher.go:88-93 | kill is closed by the first caller only, a later one passes once the first has completed, and afterwards it has been closed exactly once |
| `Dispatcher.Dispatcher.CancelCtx` | internal/app/dispatcher.go:88-93 | the context is cancelled after kill is closed, completing the once |
| `Dispatcher.Dispatcher.AwaitDone` | internal/app/dispatcher.go:550-556 | a waiting caller passes a handle only once its goroutine has exited |
| `Dispatcher.Dispatcher.WorkerSelect` | internal/app/dispatcher.go:420-456 | the worker's select: receive the oldest message, leave on kill, or disconnect the idle session and go on |
| `Dispatcher.Dispatcher.WorkerMessage` | internal/app/dispatcher.go:458-507 | with a message in hand: make the session or give up, send, and after the send go on, leave on a cancelled context, or leave after a delivered terminate |
| `Dispatcher.Dispatcher.WorkerDefer` | internal/app/dispatcher.go:397-418 | the defers run last in first out: disconnect, deregister by card id, close done |
| `Dispatcher.Dispatcher.Execute` | internal/app/dispatcher.go:301-610 | under any schedule the object goes through a run of the machine and ends in its invariant, so the theorems about runs hold of it |
| `DispatcherSessions.SessionCounts` | internal/app/dispatcher.go:408-486 | sessions created minus disconnected is 1 while one is open and 0 otherwise, for every well-used log |
| `DispatcherSessions.DisconnectedOnce` | internal/app/dispatcher.go:408-444 | no session is disconnected twice |
| `DispatcherSessions.PromptedWhileOpen` | internal/app/dispatcher.go:458-486 | every prompt goes to a session created before it and not yet disconnected |
| `DispatcherSessions.AllDisconnected` | internal/app/dispatcher.go:408-444 | a session that is no longer open has been disconnected |
| `DispatcherSessions.WorkerKeepsInv` | internal/app/dispatcher.go:397-508 | every action of the worker goroutine keeps its invariant: session use, received messages accounted for, nothing prompted after a delivered terminate |
| `DispatcherInvariant.StepKeepsInv` | internal/app/dispatcher.go:301-610 | every step of every goroutine keeps the invariant of workers, registry, callers and accepted messages |
| `DispatcherInvariant.RunKeepsInv` | internal/app/dispatcher.go:301-610 | every state of every run satisfies the invariant |
| `DispatcherInvariant.RunGrows` | internal/app/dispatcher.go:301-610 | nothing is taken back: stopped, killed, exited and returned stay so, and histories only get longer |
| `DispatcherDelivery.DeliveryIsFifo` | internal/app/dispatcher.go:383-507 | the messages whose enqueue returned nil are, in order, those received followed by the inbox, which never exceeds 64; those received are those prompted, then the one in hand or the one dropped when no session could be made |
| `DispatcherMessages.MessageIsItsRequest` | internal/app/dispatcher.go:312-352 | in every run the a-th message a handle accepted has the event id and prompt of the a-th request accepted, and is tagged terminate exactly when that was routed terminate |
| `DispatcherMessages.SendEndsTheLoopIff` | internal/app/dispatcher.go:482-507 | in every run: after a send without error the worker leaves its loop exactly when the message came from a terminate request, after a failed one exactly when its context is cancelled |
| `DispatcherMessages.WorkerWaitsIff` | internal/app/dispatcher.go:420-456 | in every run a worker is blocked exactly when it has exited, or is at its select with an empty inbox, kill open and no idle session to reap |
| `DispatcherMessages.SelectIsReadyIff` | internal/app/dispatcher.go:383-391 | in every run a caller in the select can send exactly while fewer than 64 messages are queued, is refused exactly once kill is closed, and can always give up |
| `DispatcherMessages.SessionKeptWithoutTimeout` | internal/app/dispatcher.go:408-456 | without an idle timeout a worker disconnects a session only past its loop |
| `DispatcherOrder.OlderWorkerIsDone` | internal/app/dispatcher.go:358-518 | without a racy registration of the card, an older worker receives nothing more once a newer worker of the card exists |
| `DispatcherOrder.CardIsFifo` | internal/app/dispatcher.go:358-507 | without a racy registration of the card: of two of its messages the one whose enqueue returned first is delivered first, unless it is never delivered, whichever workers took them |
| `DispatcherOrder.CardOrderCanBreak` | internal/app/dispatcher.go:358-595 | a run in which the later of two messages of a card is delivered first |
| `DispatcherDelivery.AcceptedInReturnOrder` | internal/app/dispatcher.go:383-391 | a message whose enqueue returned earlier comes earlier |
| `DispatcherDelivery.TerminateEndsTheWorker` | internal/app/dispatcher.go:486-507 | a terminate message sent without error is the last prompt and the worker has left its loop |
| `DispatcherDelivery.SessionsBalance` | internal/app/dispatcher.go:408-486 | in every run: created minus disconnected is 1 exactly while `session` is set, no session is disconnected twice, every prompt is on an open session |
| `DispatcherDelivery.DeregisteredMeansDisconnected` | internal/app/dispatcher.go:397-418 | a worker that has deregistered has disconnected every session it made |
| `DispatcherDelivery.KillClosedOnce` | internal/app/dispatcher.go:88-93 | no handle's kill is closed twice, however Stop and DeleteWorker race |
| `DispatcherRegistry.OneWorkerIffNoRace` | internal/app/dispatcher.go:358-595 | for every card: it has at most one live worker in all states of a run if and only if no enqueue of the run registers it while an unlinked worker of it is live |
| `DispatcherRegistry.RegisteredIffNoMisfire` | internal/app/dispatcher.go:358-518 | for every card: its live workers that nobody deleted are its registry entry in all states of a run if and only if no deregister of the run takes out the entry of another worker |
| `DispatcherRegistry.LiveWorkersAreTheRegistry` | internal/app/dispatcher.go:358-518 | without DeleteWorker a worker is live exactly when it is its card's registry entry, so no card has two |
| `DispatcherRegistry.StoppedRegistersNothing` | internal/app/dispatcher.go:359-363 | once stopped is set, no handle is made and no entry is added |
| `DispatcherRegistry.CalmIsAimed` | internal/app/dispatcher.go:358-518 | a run without a racy registration is one without such a deregister |
| `DispatcherRegistry.StopLeavesNothing` | internal/app/dispatcher.go:512-557 | if until the stop no deregister takes out another worker's entry: when the Stop call that set the flag returns, the registry is empty and every worker nobody deleted has disconnected its sessions and deregistered |
| `DispatcherRegistry.StopIsQuiescent` | internal/app/dispatcher.go:537-557 | without DeleteWorker that holds of every worker ever made |
| `DispatcherRegistry.DeleteWaitsForItsWorker` | internal/app/dispatcher.go:576-595 | DeleteWorker returns only after the worker it unlinked has exited, disconnected and left the registry |
| `DispatcherTermination.KilledIsUnobtainable` | internal/app/dispatcher.go:358-381 | once kill is closed no caller obtains the handle any more |
| `DispatcherTermination.StepLowersMeasure` | internal/app/dispatcher.go:383-507 | every action of a killed worker or of a caller in its select lowers a measure that no step raises |
| `DispatcherTermination.KilledWorkersTerminate` | internal/app/dispatcher.go:383-507 | a killed worker always has an action until it exits and exits within 6 actions per pending caller, 5 per queued message and 8 more, whatever branches are taken |
| `DispatcherTermination.ShutdownNeverStuck` | internal/app/dispatcher.go:537-595 | a Stop or DeleteWorker call in progress can always move, or the one goroutine it waits for can |
| `DispatcherShutdown.ShutdownIsBounded` | internal/app/dispatcher.go:537-595 | a Stop or DeleteWorker call returns after at most 3 actions of its own per handle, each handle's once is left at most once, and while it waits each of its workers takes a bounded number of actions |
| `DispatcherShutdown.CanReturn` | internal/app/dispatcher.go:537-595 | from every state of every run a call in progress can be brought to its return, leaving every handle but its own as it is |
| `DispatcherShutdown.SeenIsNotLeft` | internal/app/dispatcher.go:537-557 | the Stop call that sets the flag leaves no watched worker when its critical section finds every one in the registry, whether the undeleted, the live or all running ones are watched |
| `DispatcherShutdown.StopLeavesIffUnseen` | internal/app/dispatcher.go:512-595 | some continuation lets a Stop call return while a worker is undeleted and live, live, or running, if and only if at its critical section there is such a worker outside the registry, or any at all when the dispatcher was stopped before |
| `DispatcherLoss.NothingMoreIsReceived` | internal/app/dispatcher.go:397-508 | a worker past its loop stays there and receives nothing more in any run |
| `DispatcherLoss.LostIffOutOfReach` | internal/app/dispatcher.go:383-507 | no continuation receives the a-th accepted message if and only if it is not received and the worker has left its loop, or its context is cancelled and a terminate message is in hand or queued before it |
| `DispatcherLoss.AcceptedCanBeLost` | internal/app/dispatcher.go:383-387 | a run in which an enqueue returns nil for a message that no continuation receives |
| `DispatcherRaces.DepartureSpawnsOnlyThroughARace` | internal/app/dispatcher.go:319-381 | if a departure or termination makes a worker, the card had an entry at the existence check and it left the registry, by deregister or DeleteWorker, before the lock |
| `DispatcherRaces.DepartureSpawnsIff` | internal/app/dispatcher.go:319-381 | a departure or termination at the lock makes a worker exactly when the dispatcher is not stopped and since its check a step removed the entry and none registered the card again |
| `DispatcherRaces.DepartureCanSpawn` | internal/app/dispatcher.go:319-381 | for either route, a run in which it makes a worker |
| `DispatcherRaces.DroppedNeverReachesTheLock` | internal/app/dispatcher.go:307-309 | a dropped event never reaches the registry |
| `DispatcherRaces.DeleteCanMakeTwoWorkers` | internal/app/dispatcher.go:576-595 | a run in which DeleteWorker and an event leave a card with two live workers |
| `DispatcherRaces.StopCanMissAWorker` | internal/app/dispatcher.go:512-557 | a run in which Stop returns while a worker nobody deleted is live |
| `DispatcherRaces.StopCanMissAnUnlinkedWorker` | internal/app/dispatcher.go:537-595 | a run without any race in which Stop returns while a worker that DeleteWorker has unlinked is live |
| `DispatcherRaces.LaterStopReturnsAtOnce` | internal/app/dispatcher.go:537-542 | a run in which a second Stop call returns while the registered worker is live |
| `DispatcherRaces.RacyRunCanBeAimed` | internal/app/dispatcher.go:512-557 | a racy registration alone does not break Stop: a run with one and without a deregister of another's entry before the stop |
| `Comments.ReadPage` | internal/app/trelloclient/client.go:577-588 | the rows of a page that decode are appended in order, and the cursor is the last of them |
| `Comments.TurnPage` | internal/app/trelloclient/client.go:555-605 | one turn of the loop: request, read, and end for the first reason that applies in the order empty, single page, cap, short page, stall, or go on |
| `Comments.FetchCommentActions` | internal/app/trelloclient/client.go:550-607 | against any server at most 5000 requests; against a newest-first history exactly the decodable rows up to the end of the first page that stops the walk, whose place the rows alone determine: the whole history after a short or empty page, 5000 to 5999 comments after a cap exit, 1000 malformed rows at a stall |
| `Comments.NoCommentTwice` | internal/app/trelloclient/client.go:550-607 | no comment appears twice in what a walk returns, although rows may be fetched twice |
| `Comments.CommentsAreTheRows` | internal/app/trelloclient/client.go:550-607 | the comments of the first rows are those of the rows that decode, each once and in the order of the rows |
| `Comments.WholeHistory` | internal/app/trelloclient/client.go:550-607 | below the cap and without 1000 malformed rows in a row, every walk returns the whole history |
| `CommentPages.CapKeptIff` | internal/app/trelloclient/client.go:536-607 | a walk returns at most 5000 comments if and only if the history holds no more, a full page without comments comes before the cap, or a page ends at exactly 5000 |
| `CommentPages.DecodableRowsKeepTheCap` | internal/app/trelloclient/client.go:536-607 | when the newest 5000 rows decode, exactly 5000 are returned |
| `CommentPages.CapCanBeExceeded` | internal/app/trelloclient/client.go:536-607 | on 6000 or more rows of which only the newest is malformed every walk returns 5999 |
| `CommentPages.FetchMoreThanTheCap` | internal/app/trelloclient/client.go:550-607 | the walk over such a history, through the page loop |
| `Comments.GetLatestComment` | internal/app/trelloclient/client.go:328-350 | the first comment with the greatest instant on the newest page; no comments exactly when none of that page decodes |
| `Comments.InsertionSort` | internal/app/trelloclient/client.go:370-375 | the in-place sort ascends by instant and keeps the order of comments of one instant |
| `Comments.ListCommentsSince` | internal/app/trelloclient/client.go:352-377 | of the fetched comments exactly those strictly after `since`, or all for the zero time, each as often as fetched, ascending, those of one instant as fetched; of the whole history unless the walk was cut short |
| `Comments.StableSortUnique` | internal/app/trelloclient/client.go:370-375 | there is only one such sort |
| `Comments.StablePermutationSameMultiset` | internal/app/trelloclient/client.go:370-375 | a stable permutation holds every comment as often as the original |
| `Renderer.TokensTokenise` | internal/app/prompttmpl/renderer.go:325-429 | every source has a tokenisation |
| `Renderer.TokenisationIsUnique` | internal/app/prompttmpl/renderer.go:325-429 | and only one |
| `Renderer.TokensRoundTrip` | internal/app/prompttmpl/renderer.go:325-429 | its raw tokens concatenate back to the source |
| `Renderer.FindClose` | internal/app/prompttmpl/renderer.go:334-343 | the inner scan finds the first closing after an opening, or that there is none |
| `Renderer.Consume` | internal/app/prompttmpl/renderer.go:404-426 | line and column follow the consumed bytes |
| `Renderer.Scan` | internal/app/prompttmpl/renderer.go:325-429 | however replacements are found, the scanner equals its denotation, text, error and error position alike |
| `Renderer.FailureIsFirstBadReference` | internal/app/prompttmpl/renderer.go:325-429 | on failure every earlier reference resolves, and line and column are one plus the newlines before the bad one and its offset in its line |
| `Renderer.SucceedsIffAllResolve` | internal/app/prompttmpl/renderer.go:325-429 | it succeeds exactly when every reference resolves, with the concatenated replacements, none of them rescanned |
| `Renderer.UnterminatedIsVerbatim` | internal/app/prompttmpl/renderer.go:343-354 | after an unterminated opening the rest is copied byte for byte |
| `Renderer.RenderedSize` | internal/app/prompttmpl/renderer.go:256-429 | with replacements of at most m bytes, five times the output is at most the source times max(5, m) |
| `Renderer.SizeBoundIsTight` | internal/app/prompttmpl/renderer.go:325-429 | the bound is attained by every number of shortest references |
| `Playbook.ValidateBasename` | internal/app/prompttmpl/renderer.go:443-454 | accepted exactly when not empty, without separators and without two dots in a row; otherwise the first of these that is broken |
| `Playbook.RenderBytes` | internal/app/prompttmpl/renderer.go:325-429 | it succeeds exactly when every reference is a defined variable if it starts with "kanban." and else a plain name of a rendered playbook, each replaced by that variable or path; otherwise the error names the first that is not, the reason that holds of it, and its line and column |
| `Playbook.OneReason` | internal/app/prompttmpl/renderer.go:355-400 | the five reasons exclude one another and every reference that resolves |
| `Playbook.SingleReference` | internal/app/prompttmpl/renderer.go:325-429 | a name between blanks and braces renders to the variable or path of that name, or fails in line 1, column 1 |
| `Playbook.WorldsAreSeparate` | internal/app/prompttmpl/renderer.go:358-400 | references to variables do not depend on the playbooks, nor references to playbooks on the variables |
| `Playbook.RenderFile` | internal/app/prompttmpl/renderer.go:270-291 | the ceiling of 4 MiB is the only other failure, and a source of at most 1 MiB with replacements of at most 20 bytes never meets it |
| `Dedup.Runner.Prune` | internal/app/runner.go:511-519 | the scan removes exactly the entries older than the TTL |
| `Dedup.Runner.MarkActionSeen` | internal/app/runner.go:496-525 | one call's new cache and answer |
| `Dedup.Runner.Handle` | internal/app/runner.go:317-351 | a duplicate is dropped before anything else; any other delivery stays marked whatever becomes of it |
| `Dedup.Runner.HandleAll` | internal/app/runner.go:317-351 | over any run of deliveries exactly those the history lets through are dispatched |
| `Dedup.SeenIsHistory` | internal/app/runner.go:496-525 | the cache holds an id exactly when its latest miss has outlived every scan since, with that instant |
| `Dedup.DuplicateIffUnexpired` | internal/app/runner.go:496-525 | under any clock: true iff the id is not empty, was missed before, and no scan since that miss found it expired |
| `Dedup.DuplicateIffWithinTtl` | internal/app/runner.go:496-525 | with a clock that never runs backwards: iff the latest miss is at most TTL ago; duplicates do not refresh it |
| `Dedup.BackwardClockForgets` | internal/app/runner.go:496-525 | a clock running backwards lets one id through twice at one instant |
| `Dedup.DispatchesAreApart` | internal/app/runner.go:317-346 | two dispatches of one action id are more than TTL apart |
| `Dedup.RetryIsDroppedEvenAfterFailure` | internal/app/runner.go:317-351 | a retry within the TTL is dropped even when the first delivery failed after the gate |
| `Dedup.OccupancyBound` | internal/app/runner.go:511-524 | with calls at least delta apart the cache never holds more than TTL/delta + 1 entries |
| `Dedup.OccupancyBoundIsTight` | internal/app/runner.go:511-524 | the bound is attained by calls with different ids exactly delta apart |
| `Kanban.Validate` | internal/app/kanban/decode.go:47-75 | accepts exactly the configurations whose seven names have text and are pairwise not the same name; otherwise names the first role that breaks this, and the one it collides with |
| `Kanban.IndexByName` | internal/app/kanban/kanban.go:160-167 | the index holds, for every normalised name, the lists of that name in board order |
| `Kanban.LookUpRoles` | internal/app/kanban/kanban.go:193-212 | the loop over the roles finds each role's list, the missing and the ambiguous roles and their details |
| `Kanban.CollectUnclaimed` | internal/app/kanban/kanban.go:233-239 | exactly the lists no role claims are appended to wait, in board order |
| `Kanban.Resolve` | internal/app/kanban/kanban.go:155-242 | a view if and only if the configuration is valid and each role has the same name as exactly one list, showing those lists and every other one under wait; else the validation error, or a ResolveError with, sorted, each role no list matches, each role several match, and the names of those |
| `Kanban.SortStringsSorts` | internal/app/kanban/kanban.go:214-218 | the role names are in lexicographic order and none is lost |
| `Names.TrimIsCut` | internal/app/kanban/kanban.go:348-350 | trimming leaves exactly the stretch between the surrounding blanks |
| `Names.NormalisedIffSame` | internal/app/kanban/kanban.go:348-350 | two normalised names are equal exactly when, between their surrounding blanks, they have the same length and every pair of characters is equal or the two cases of one letter |
| `Names.VariantIsSame` | internal/app/kanban/kanban.go:348-350 | letters in the other case and blanks around it leave a name the same |
| `Names.SameNameIsEquivalence` | internal/app/kanban/kanban.go:348-350 | being the same name is reflexive, symmetric and transitive |
| `KanbanCases.CaseDoesNotMatter` | internal/app/kanban/kanban.go:155-242 | configurations and boards that differ only in case and blanks resolve alike: the same roles are at fault, missing or ambiguous, or all ids of the views are the same |
| `KanbanCategories.BoardPartition` | internal/app/kanban/kanban.go:220-242 | plan, action, wait and done ids together are a permutation of the board's ids, and the seven roles have seven distinct ids |
| `KanbanCategories.KnownIffOnBoard` | internal/app/kanban/kanban.go:279-296 | an id has a category exactly when it is the non-empty id of a list of the board |
| `KanbanCategories.CategoryById` | internal/app/kanban/kanban.go:279-296 | a board list's category by id is that of the role whose name it has, wait otherwise |
| `KanbanCategories.CategoryByName` | internal/app/kanban/kanban.go:302-327 | a name has a category exactly when it has text and is, up to case and blanks, that of a list of the board, and then it is that list's |
| `KanbanCategories.AgentCommentIff` | internal/app/kanban/kanban.go:332-346 | a comment is the agent's own exactly when its text, blanks skipped, begins with a configured prefix that is not empty |
| `KanbanCategories.CategoriesAgree` | internal/app/kanban/kanban.go:279-327 | the lookups by id and by name agree on a board list exactly when its id and its name are both given or both blank |
| `Router.BuildKanbanValue` | internal/app/router/engine.go:137-203 | the derived lists are the normalised names and the ids of the view, and an expression reads the view's role names; all empty without one |
| `Router.Evaluate` | internal/app/router/engine.go:81-113 | the walk returns the name, token and reason of the first route whose guard is the boolean true, and the drop without a route when there is none |
| `Router.FirstMatchIsFirst` | internal/app/router/engine.go:81-113 | the decision is that of the first route whose guard is the boolean true, and the synthetic drop when there is none |
| `Router.SilentRoutesDoNotMatter` | internal/app/router/engine.go:94-108 | inserting routes that err, yield null or a non-bool, or yield false, anywhere, never changes the decision |
| `Router.ConnectivesMean` | internal/app/router/engine.go:94-108 | when a conjunction or disjunction is true and when it raises a diagnostic, for strict and for short-circuiting operators |
| `RouterDefaults.GuardMeans` | internal/app/router/defaults.go:21-126 | what each of the 15 guards says of the event and the view |
| `RouterDefaults.DerivedNamesAreCategories` | internal/app/router/engine.go:137-203 | a derived name list holds exactly the normalised names whose category, by name, is the list's |
| `RouterDefaults.DerivedIdsAreCategories` | internal/app/router/engine.go:137-203 | a derived id list holds exactly the ids whose category is the list's |
| `RouterDefaults.DecisionSaysWhy` | internal/app/router/defaults.go:21-126 | the token and the reason of every decision of the default table follow from the event and the action taken |
| `RouterDefaults.TokensReadBack` | internal/app/dispatcher.go:281-292 | the dispatcher reads each of its three tokens as its action and no other string as one of them |
| `RouterDefaults.MoveFollowsCategory` | internal/app/router/defaults.go:34-71 | a valid card's move to the id of a board list: with the list's own name or none it is routed terminate, dispatch, dispatch or notify_departure exactly as the category is done, plan, action or wait; with any name that is so exactly when the list is for done, or the name is not that of done and, for wait, not that of plan or action |
| `RouterDefaults.MoveByCategories` | internal/app/router/defaults.go:34-71 | the route of every move that names a list, by the category of its id and that of its untrimmed name |
| `RouterDefaults.CreateFollowsCategory` | internal/app/router/defaults.go:73-95 | a card created in a board list: with its own name or none it is dispatched exactly when the category is plan or action; with any name that is so exactly when the category is one of the two or the name's is not |
| `RouterDefaults.NameOnlyCreate` | internal/app/router/defaults.go:73-95 | with a name only, or the id of no list of the board, the route of a creation agrees with the category by name exactly when the name has no blanks around it or is not that of plan or action |
| `RouterDefaults.NameOnlyMove` | internal/app/router/defaults.go:34-71 | with a name only, or the id of no list of the board, the route agrees with the category by name exactly when the name is known and has no blanks around it or its category is wait; otherwise a departure is notified |
| `RouterDefaults.OffBoardMove` | internal/app/router/defaults.go:67-71 | the id of no list of the board, without a name, is unknown to the lookup and notified as a departure |
| `RouterExamples.PaddedNameDisagrees` | internal/app/router/defaults.go:49-71 | a resolved board on which a blank before the plan list's name makes a move a departure |
| `RouterExamples.UnknownListDisagrees` | internal/app/router/defaults.go:67-71 | the same board with an id that is not on it |
| `RouterDefaults.CommentDropIsAgentComment` | internal/app/router/defaults.go:97-107 | a comment is dropped exactly when its text, blanks skipped, begins with a configured prefix; that is so iff it is the agent's own, exactly when it is the agent's own or no configured prefix is empty |
| `RouterExamples.EmptyPrefixDropsAll` | internal/app/router/defaults.go:97-107 | the same board with an empty prefix: any comment is dropped and none is the agent's own |
| `RouterDefaults.OnlyValidCardsAreRouted` | internal/app/router/defaults.go:22-32 | nothing but an event with a valid card id is ever acted on |
| `RouterDefaults.CardIDKeptIffValid` | internal/app/dispatcher.go:249-262 | the decision carries the card id exactly when it is given and valid, and none otherwise |
| `RouterDefaults.OtherActions` | internal/app/router/defaults.go:109-125 | a deleted card terminates, any other unknown action is dropped |
| `Ring.AppendKeeps` | internal/app/activity.go:413-420 | an append keeps the buffer equal to what is left of the history, also when the head wraps around |
| `Ring.AppendAll` | internal/app/activity.go:413-420 | after any number of appends to an empty buffer it holds what is left of the history |
| `Ring.ReadsBackTheLast` | internal/app/activity.go:413-433 | for every capacity and any number of appends the buffer reads back the last of them, oldest first |
| `GlobalLog.GlobalEventLog.constructor` | internal/app/globallog.go:27-32 | an empty log; a capacity that is not positive means 128 |
| `GlobalLog.GlobalEventLog.Record` | internal/app/globallog.go:35-45 | the event is added to the history the buffer holds |
| `GlobalLog.GlobalEventLog.Entries` | internal/app/globallog.go:48-63 | the last events of the history, at most the capacity, oldest first |
| `Activity.ActivityTracker.constructor` | internal/app/activity.go:106-132 | a fresh tracker; a ring size that is not positive means 64 |
| `Activity.ActivityTracker.AppendEntry` | internal/app/activity.go:413-420 | the entry is added to the history the ring holds |
| `Activity.ActivityTracker.Snapshot` | internal/app/activity.go:373-433 | the status and the last entries, at most the ring size, oldest first |
| `Activity.ActivityTracker.RecordEvent` | internal/app/activity.go:163-311 | after one event every field has the value that event gives or the one it had, and the entry added is the one that describes it, by kind and text; its labels and maps are those the statements about runs speak of |
| `Activity.ActivityTracker.MarkDisconnected` | internal/app/activity.go:343-350 | disconnected, both maps emptied, the current tool kept |
| `Activity.ActivityTracker.MarkSessionIdleReaped` | internal/app/activity.go:360-369 | disconnected, both maps emptied, the current tool cleared |
| `ActivityPairing.LogIsWhatWasRecorded` | internal/app/activity.go:386-389 | the history of entries grows by exactly one entry per call, which describes it, or none for the calls that record nothing; the snapshots show its end |
| `ActivityPairing.CallNamesAreLive` | internal/app/activity.go:226-256 | the call-name map holds exactly the calls started and not completed since the last reset, each under its latest start's label |
| `ActivityPairing.SubagentNamesAreLive` | internal/app/activity.go:279-298 | the same for the subagents' names |
| `ActivityPairing.LabelNamesTheSubagent` | internal/app/activity.go:226-242 | a start is labelled with its tool, and tagged exactly when a subagent made it, with that subagent's name if it is live and "?" otherwise |
| `ActivityPairing.CompletionUsesItsStart` | internal/app/activity.go:226-277 | a completion with a live start is recorded under that start's label, tagged exactly when it has a parent and the label has no tag; it equals the start's recorded label in all other cases |
| `ActivityPairing.OrphanCompletion` | internal/app/activity.go:247-266 | a completion without a live start takes the current tool's label when that has no blank, and no name when no tool is current |
| `ActivityPairing.CurrentToolIsLatestStart` | internal/app/activity.go:163-369 | there is a current tool exactly when the latest start was not cleared since, and it is that one, since that instant |
| `ActivityPairing.StateAgreesWithTool` | internal/app/activity.go:163-369 | running_tool implies a current tool; idle, and a session reaped for idleness, imply none |
| `ActivityPairing.ExitKeepsTheTool` | internal/app/activity.go:343-350 | a worker's exit shows no current tool exactly when none was current before |
| `ActivityPairing.ToolShownAfterExit` | internal/app/activity.go:343-350 | a tool start and the worker's exit: disconnected, with the tool shown |
| `ActivityStatus.StatusShowsLatest` | internal/app/activity.go:163-369 | after any run the state is that of the latest call that sets one, for all seven states; last error, model, session, preview and event time are the latest given; token counts are those of the latest usage since the latest user message, else zero |
| `ActivityStatus.Feed` | internal/app/activity.go:163-379 | a new tracker fed any run of calls shows exactly that, and the end of the entries recorded, so the statements about runs hold of it |
| `ActivityStatus.PreviewIsOneLine` | internal/app/session_logger.go:179-192 | a preview is the text on one line, of a long one its first characters and "..." |
| `ActivityStatus.DecimalReadsBack` | internal/app/activity.go:195-207 | a number in a summary is written in digits that stand for it, without leading zeros |

## Left out

- The branch of `runWorker` for a closed inbox: nothing in the repository closes an inbox.
- Session creation, prompt assembly, message slimming, the work directory that `DeleteWorker` removes and its error: foreign calls and I/O; a session call succeeds or fails as the schedule says.
- Wall-clock time: the idle timer is a step enabled while a session is open, and the instants of the dedup cache, the comments and the logs are inputs.
- The eventual processing of every accepted message: not true of the code, see `DispatcherLoss.AcceptedCanBeLost`.
- `evaluateRoute`'s reading of the webhook body and the list name in its decision: JSON access and log text.
- HTTP, JSON decoding and the query editor of the comment client: a response is a failed request or a page of rows that decode or do not.
- Strings.TrimSpace: trims ASCII blanks only, because characters beyond ASCII are not modelled.
- Strings.ToLower: lowers ASCII letters only, for the same reason.
- Router.Evaluate: the expression language is a small one without HCL's conversions of strings to booleans; both readings of `&&` and `||`, strict and short-circuiting, are covered by a parameter.
- Parsing of router.hcl, the rule engine and the GitHub classification: a parser and regular expressions.
- `DefaultLegacyKanbanView`: a constant without list ids that only tests use.
- A nil view in the category lookups and a nil global log: the guard at the top of each function.
- The text of validation, resolution and render errors beyond the names and positions they carry.
- Reading and writing the playbook files and the copy step that enforces the 1 MiB limit: I/O; the limit is a premise.
- Activity.ActivityTracker.RecordEvent: the rendering of a tool call's arguments is an input, because Go's `%v` format is not modelled; lengths are in characters.
- The per-worker activity log file, `SetClassification`, `SetWorkDir` and the inbox depth of a status: I/O and plain assignments.
- The locks of the tracker, the event log and the dedup cache: each method is one critical section and is modelled as atomic.
- The display code, the session logger, webhook registration, backoff, configuration and the local board: display, I/O or easy claims.
