# A verified model of the engagement backend

The backend polls social platforms for an organization's campaigns, drafts replies with language models and
queues them for human review; once a week it also writes an intelligence brief. It is a set of Celery
workers and FastAPI handlers that share Redis counters and Postgres rows. This project states what its
comments and documentation promise about interleavings, crashes, redeliveries and budgets, and proves it in
Dafny, or says exactly when the code keeps the promise.

`dafny verify dfyconfig.toml` checks everything.

## How the model is built

* Protocols between workers (daily caps, spend guards, fan-out, checkpoints, analyst runs, inbox, scheduler)
  are step machines: a `State`, an `Event`, a total `Step`, and `Exec` over an arbitrary list of events. A
  theorem about `Exec` holds for every interleaving, crash and schedule.
* Code that updates rows, counters or lists in place is written as classes and methods with loops, and each
  method is proved equal to a step or a function that the theorems are about.
* Language models, Apify, tokenizers, prices and regular expressions are arbitrary inputs.
* A Redis command and a database read or commit is one atomic step. Checks and writes that the code does not
  serialize are separate steps, with anything in between: the prefilter's look and the gate's commit, the
  check and the insert of a trigger or weekly tick, the read and the commit of the analyst reaper and of a
  failing task. The request handlers of inbox and campaigns are modelled twice: as atomic steps
  (`Inbox.dfy`, `Scheduler.dfy`), and as a look, a commit and Redis commands that overlap
  (`InboxRaces.dfy`, `SchedulerHandlers.dfy`), where a handler with nobody in between is proved to be the
  atomic step.
* Day and month are fixed. Money is counted in units of 1e-4 USD.

| file | what it holds |
|---|---|
| `DailyCap.dfy`, `DailyCapSafety.dfy` | the INCR, check, DECR protocol with any number of workers, and its guarantees |
| `PersistGate.dfy`, `GateUsage.dfy` | the atomic form of the gate, the reservation code on shared stores, redelivery; the cost check, row statuses and what a rerun records |
| `DailyCapSolo.dfy`, `DailyCapRedelivery.dfy` | a lone worker refines the atomic form; redelivery with and without interference |
| `Prefilter.dfy` | the peek at the caps, the greedy loop, and why the gate agrees with it |
| `Provenance.dfy`, `TokenBudget.dfy` | scout validation, batching, row contents; token budgeting |
| `DraftFormat.dfy`, `DraftAgain.dfy` | draft finalization; when finalizing twice changes nothing |
| `SpendGuard.dfy`, `ApifyBudget.dfy`, `FanOut.dfy` | check-then-record guards and the bounded fan-out |
| `Checkpoint.dfy`, `CheckpointOverlap.dfy`, `Keys.dfy` | crash and resume of the two graphs; overlapping deliveries of one thread; thread ids and counter keys |
| `AnalystRuns.dfy`, `AnalystStatus.dfy` | trigger, weekly tick, worker outcomes and reaper; what becomes of a run's status, open runs, the code |
| `Inbox.dfy`, `InboxApi.dfy` | status machine, lock leases, lock reaper; the handlers |
| `InboxDedup.dfy`, `InboxRaces.dfy` | dedup across overlapping pipeline runs, posted history; handlers that overlap |
| `Scheduler.dfy`, `SchedulerFiring.dfy`, `SchedulerTicks.dfy`, `SchedulerTurns.dfy` | the ZSET index, overlapping ticks, kill switch; double dispatches; whole ticks, pacing, the handlers and the tick; an undisturbed tick is the whole tick |
| `SchedulerLoss.dfy`, `SchedulerHandlers.dfy` | campaigns lost with a dying tick; the same with overlapping handlers that may be lost too |
| `IdCache.dfy` | the id cache and provisioning through it |

## Where the code and its documentation differ

* Redelivery is documented as safe. A delivery that runs alone commits no row exactly if, as it starts, each of
  its drafts would be refused or has its row (`DeliveryIsIdleExactly`), and a delivery whose drafts all have
  committed rows never adds one, whatever runs beside it (`SavedDraftsAreNeverAddedAgain`). So a redelivery
  with nobody in between is idle (`RedeliveryAloneIsIdle`), but a draft refused because of a claim that was
  later given back is inserted the second time (`InterferenceMakesRedeliveryInsert`).
* A rerun of the gate that adds no row may still record language model usage again: for every draft with a text
  if the counters have room and the organization has a configuration, else for none (`RerunRecordsAgain`).
* The comment on token totals counts a separator before each comment; the code counts one fewer. It may
  therefore keep one comment too many, never more, and does so exactly when some prefix of the comments
  leaves the budget less than a separator (`OneSeparatorShort`).
* `finalize_draft` calls itself idempotent. Where cleaning leaves the result alone, as it does for plain drafts
  and hooks, it is so exactly if the draft ended with the hook by itself, or the hook's lines that are not
  blank are all link lines, or none is (`FinalizeTwice`, `FinalizePlainTwice`). A sentence followed by a link
  is added twice to every plain draft that does not end with it (`SentenceAndLinkAreAddedTwice`), and a hook
  of which cleaning makes a plain word by taking its marks, such as a bold one, is added twice to every plain
  draft (`MarkedHookIsAddedTwice`, `BoldHookIsAddedTwice`).
* A poll that lists a post twice makes the prefilter count two slots where the gate takes one. A post dropped for
  a cap would be refused by the gate exactly if no survivor was listed twice (`CapDropsAreRight`).
* Dedup is documented as org-wide: two campaigns of an org must not both draft a post. They do exactly when one
  run commits a post that another campaign has drafted since that run's prefilter looked
  (`NoPostIsDraftedTwiceExactly`); runs in series never do (`SerialRunsStayApart`). For any two campaigns there
  is a run in which both drafts are posted and posted history shows one (`TwoCampaignsPostTwice`).
* `lock_draft` calls its locking atomic. A user keeps a draft until the lock lapses, unless a handler commits that
  looked at the row before it last changed (`LockIsKeptExactly`), and likewise a closed draft stays closed unless a handler
  commits that looked before it was closed (`ClosedStaysClosedExactly`). Two users who both look first can
  confirm and reject the same draft (`ConfirmedThenRejected`).
* A scout selection for a plain comment keeps its target comment id without a check. All targets that go through
  are comments of their posts exactly if the scout made none up for a plain comment
  (`TargetsAreRealExactly`). Replies to comments are checked.
* A terminal status of an analyst run is not final. It stands exactly as long as nobody commits the other one
  (`TerminalStatusStands`), and the last writer wins (`LastWriterWins`). There are two ways: a slow worker
  overwrites the reaper's FAILED, and a reaper or failing task that read the run before it was completed
  overwrites COMPLETED (`TerminalStatusCanBeOverwritten`).
* A second trigger for an org is meant to be refused. Two runs for one org and week are in flight exactly if one was
  inserted between the other's check and insert (`OneInFlightExactly`, `RacingTriggersBothRun`).
* An ingest that ends because the organization is missing or inactive leaves its run RUNNING. That row refuses the
  organization every trigger for two hours after its start, and none later, reaper or not
  (`OpenRunBlocksTwoHours`, `OpenRunRefusesTriggers`).
* Popping the due members before processing them is said to keep a slow or crashed tick from firing a campaign
  twice. A campaign is dispatched at most once for each time it is put into the ZSET, unless a tick reads it
  between another's read and pop (`EachEnqueueFiresOnce`, `OverlappingTicksFireTwice`). But an edit that
  changes status or frequency puts it in again while a slow tick still has it, and then both dispatch it
  (`EditFiresTwice`). These are the only two ways for two ticks to have it (`OneTickHasIt`).
* Popping first has its price: a tick that dies takes its campaigns with it. With atomic handlers an ACTIVE campaign
  is lost exactly if a tick dies that alone has it (`NoActiveCampaignIsLost`, `PoppedByADyingTick`), and it is
  never polled again until a handler touches it (`LostIsNotPolled`). With overlapping handlers there are two
  more ways: a handler is lost between its commit and its ZADD, or a kill switch between its ZREMs and its
  commit; or a ZREM comes late, as when a pause and a resume cross (`NoneDriftsExactly`,
  `PauseAndResumeCross`).
* A limit of zero in the language model settings means no limit, as for an unset one.

## Model

| member | source | states |
|---|---|---|
| DailyCapSafety.CapIsNeverExceeded | backend/pipeline/prefilter.py:173-220 | for any deliveries, any interleaving of single INCRs and DECRs and any crashes: each counter is the standing claims plus the overshoots not yet undone, never negative, and claims (leaked ones included) and committed rows stay within the cap |
| DailyCapSafety.QuiescentCountersAreRows | backend/pipeline/nodes.py:769-876 | once every delivery has committed and none crashed, each counter is exactly the slots its committed rows are charged |
| DailyCapSafety.OneRowPerCampaignAndPost | backend/models.py:286 | under any interleaving of deliveries and redeliveries there is at most one row per (campaign, post), rows of earlier days included, whether counted or told by workers and positions |
| DailyCapSafety.DraftIsAllOrNothing | backend/pipeline/prefilter.py:203-220 | whatever others do meanwhile, a worker's own commands between two drafts add up, on every key, to what its inserted rows are charged; a refused or duplicate draft nets zero |
| DailyCapSafety.NetIsOnTheBooks | backend/pipeline/prefilter.py:203-220 | along any run, what a worker's commands add to a counter equals the change of its held and overshot claims |
| DailyCap.CounterStepBalances | backend/pipeline/prefilter.py:188-200 | one Redis command moves the counter by exactly what it moves on the worker's account, and raises standing claims only if the counter then is within the cap |
| DailyCap.StepKeepsBooks | backend/pipeline/nodes.py:769-876 | every step of any worker, crash or delivery keeps the books balanced and the claims within the cap |
| DailyCap.StepKeepsRowsUnique | backend/pipeline/nodes.py:857-876 | every step keeps rows unique per (campaign, post), open transactions included |
| DailyCap.InsertIsExact | backend/pipeline/nodes.py:857-876 | a reserved draft waits while another open transaction has its (campaign, post), gives its claims back if a committed one has, and else is inserted |
| DailyCap.ExecKeepsInv | backend/pipeline/nodes.py:769-876 | the whole invariant holds after any run |
| PersistGate.ReserveDailySlot | backend/pipeline/prefilter.py:173-200 | grants exactly when Redis is there, the cap is set and positive and the counter is below it; moves that counter by one if granted and nothing else |
| PersistGate.ReserveDailySlots | backend/pipeline/prefilter.py:203-220 | grants exactly when every key has room in turn, and then debits each occurrence; refused, it leaves every counter as it was |
| PersistGate.PersistGateNode | backend/pipeline/nodes.py:769-876 | the loop leaves the counters and the table of the atomic form, and returns each inserted post once |
| PersistGate.RedeliveryChangesNothing | backend/tasks/workers.py:60-76 | after any runs of any gates in series, running one of them again, over any of its drafts and in any order, changes no row and no counter |
| PersistGate.RunIsIdleExactly | backend/pipeline/nodes.py:769-876 | a whole run changes nothing if and only if each of its drafts is refused as the counters stand or has its row |
| PersistGate.SettledMeans | backend/pipeline/nodes.py:774-782 | offering a draft changes nothing if and only if it is refused or a duplicate |
| PersistGate.SettledIsStable | backend/pipeline/nodes.py:857-876 | a refusal or duplicate stays one whatever any gate persists in between |
| GateUsage.RoundsKeepTheBooks | backend/pipeline/nodes.py:769-876 | the cost check changes nothing about caps and rows; each row written is new, and the spend counters move by exactly the recorded calls |
| GateUsage.RerunRecordsAgain | backend/pipeline/nodes.py:777-799 | a rerun over drafts already offered writes no row, and records usage for exactly the drafts with a text if there is a configuration and the counters have room, else for none |
| GateUsage.CheckDraft | backend/pipeline/nodes.py:784-799 | a blank text fails without a call; otherwise usage is recorded, and the row gets FAILED_COST_LIMIT exactly if there is a configuration and a limit, set and not zero, is less than its counter plus the estimate; else PENDING |
| GateUsage.PersistDrafts | backend/pipeline/nodes.py:769-876 | the loop leaves the counters, the table and the meter that the round-by-round specification gives, and each row it returns is that of the draft that inserted it, with its right status by the counters it started from and the calls recorded before |
| GateUsage.RowStatuses | backend/pipeline/nodes.py:784-799 | each row is that of the draft that inserted it, its status by limits and counters alone: FAILED iff the text is blank; FAILED_COST_LIMIT iff it is not and the start counter, the calls recorded before the row and its own estimate together exceed a set and non-zero limit; else PENDING |
| DailyCapSolo.SoloReserve | backend/pipeline/prefilter.py:203-220 | step by step and undisturbed, a reservation takes all its claims or drops the draft with none, as the atomic form says |
| DailyCapSolo.SoloDraft | backend/pipeline/nodes.py:769-876 | one draft of a lone worker on the step machine is one atomic `PersistOne` |
| DailyCapSolo.SoloRun | backend/pipeline/nodes.py:769-876 | whatever steps a lone worker takes to its commit on the step machine, it commits exactly the atomic result for all its drafts |
| DailyCapSolo.SoloRunCommits | backend/pipeline/nodes.py:769-876 | a lone worker does get to its commit |
| DailyCapSolo.OneWayToCommit | backend/pipeline/nodes.py:769-876 | any two runs of a lone worker that reach its commit end in the same state |
| DailyCapRedelivery.RedeliveryAloneIsIdle | backend/tasks/workers.py:60-76 | on the step machine, whatever steps two deliveries of a task take with no other writer, the second commits no row and leaves every counter where the first left it |
| DailyCapRedelivery.DeliveryIsIdleExactly | backend/tasks/workers.py:60-76 | after any history, interference and crashes included, any run of a delivery with no other transaction open commits no row if and only if, as it starts, each draft would be refused or has its row; and then no counter moves |
| DailyCapRedelivery.SavedDraftsAreNeverAddedAgain | backend/pipeline/nodes.py:857-876 | under any interleaving, a delivery whose drafts all have committed rows as it starts never commits a row |
| DailyCapRedelivery.InterferenceMakesRedeliveryInsert | backend/tasks/workers.py:60-76 | a concrete run in which, with another worker in between, the second delivery inserts a draft the first was refused |
| Prefilter.RemainingDailyCapacity | backend/pipeline/prefilter.py:146-170 | returns the slots left, none without Redis or without a positive cap, and changes nothing |
| Prefilter.RemainingCountsGrants | backend/pipeline/prefilter.py:146-170 | the peek is the number of further claims on its key that would be granted |
| Prefilter.PrefilterPosts | backend/pipeline/nodes.py:270-297 | the greedy loop: each survivor is in neither dedup set and matches the keywords; each drop has the first reason that applies, in the order posted, drafted, keywords, campaign cap, subreddit cap, and a cap only once as many survivors as it has slots are kept; kept and dropped together are the input in order |
| Prefilter.KeptAreTheFirstEligible | backend/pipeline/nodes.py:270-297 | the survivors are the first posts, in order, that are neither posted nor drafted and match the keywords, up to the smaller remaining capacity |
| Prefilter.NothingIsLost | backend/pipeline/nodes.py:270-297 | every post is kept or dropped, as often as it came in |
| Prefilter.SurvivorsAreNotRefused | backend/pipeline/nodes.py:774-782 | with nobody else on the keys, every drafted survivor gets its row however often and in whatever order it was selected, and each counter rises by the number of distinct drafted posts |
| Prefilter.PeekIsExact | backend/pipeline/nodes.py:252-268 | the prefilter and the gate together: no first draft of a survivor is refused for a cap |
| Prefilter.CapDropsAreRight | backend/pipeline/nodes.py:270-297 | once all survivors have rows, a post dropped for a cap would be refused by the gate if and only if the poll listed no survivor twice |
| Prefilter.CapKeyListIsApart | backend/pipeline/prefilter.py:138-143 | the campaign counter and the subreddit counter of a draft are different keys |
| Provenance.ValidateSelections | backend/pipeline/nodes.py:379-410 | the loop lets through the known posts and angles in order, replies to missing comments turned into plain comments, and drops the rest with a reason, one entry per selection |
| Provenance.ValidAreSound | backend/pipeline/nodes.py:384-399 | each valid selection names a surviving post and a known angle, a reply to a comment names a comment of that post, and it comes from a selection the scout made |
| Provenance.KnownAreValid | backend/pipeline/nodes.py:382-410 | every selection with a known post and angle is let through |
| Provenance.KnownGoThrough | backend/pipeline/nodes.py:382-399 | a selection with a known post and angle goes through as it is, or as a plain comment without a target if it replies to no comment of the post |
| Provenance.RejectedMeans | backend/pipeline/nodes.py:384-391 | each drop names a selection with an unknown post or angle, and says which |
| Provenance.TargetsAreRealExactly | backend/pipeline/nodes.py:382-410 | every target that goes through is a comment of its post if and only if the scout paired no plain comment on a known post and angle with a made-up one |
| Provenance.UncheckedTargetGoesThrough | backend/pipeline/nodes.py:393-399 | a concrete selection whose made-up target goes through |
| Provenance.LastPostWins | backend/pipeline/nodes.py:379 | of several posts with one id the dictionary holds the last |
| Provenance.ItemOf | backend/pipeline/nodes.py:553-575 | the prompt shows a target exactly for a reply whose target is among the budgeted comments, or among all where the post has no budgeted entry; and then that comment |
| Provenance.DraftBatch | backend/pipeline/nodes.py:613-639 | a batch gives one draft per item, in order: with the batch's text if that is not blank, else with the first text among the post's fallback calls that is not blank; blank only if all of them are |
| Provenance.TextUnlessAllFail | backend/pipeline/nodes.py:619-629 | a post ends up with a text if and only if the batch answer or one of its fallback calls gave a non-blank one |
| Provenance.AnyOrderGathersAll | backend/pipeline/nodes.py:653-656 | whatever the order in which batches finish, the gathered drafts are a permutation of all of them |
| Provenance.ChunksJoin | backend/pipeline/nodes.py:604 | batching cuts the items into runs of four, the last of one to four, that join to the whole |
| Provenance.DraftsArePermutation | backend/pipeline/nodes.py:553-656 | the drafts are a permutation of the items, one item per valid selection |
| Provenance.EveryRowIsGrounded | backend/pipeline/nodes.py:801-842 | every row names a surviving post and a known angle, those of its selection; a reply to a comment holds a scraped comment of that post and its text, whatever token budgeting cut |
| Provenance.HiddenTargetIsKept | backend/pipeline/nodes.py:804-812 | a concrete target hidden from the prompt by token budgeting and still found for the row |
| TokenBudget.TruncatePost | backend/pipeline/nodes.py:467-505 | the running total and the two lists agree with recounting: the longest comment prefix that fits is kept, or none; content is cut only when no comment is left and the post is still over budget, to its share of the budget, 500 characters at the least |
| TokenBudget.KeptIsTheLongest | backend/pipeline/nodes.py:481-491 | a prefix of the comments is kept within the result if and only if it fits |
| TokenBudget.OneSeparatorShort | backend/pipeline/nodes.py:456-483 | counting one separator too few keeps at most one comment more than fits once rendered, and none if and only if no prefix of the comments is within the budget by less than a separator |
| TokenBudget.KeptCanBeOver | backend/pipeline/nodes.py:481-483 | a concrete post that is over the budget once rendered |
| TokenBudget.TokenBudgetNode | backend/pipeline/nodes.py:426-507 | one entry per selected known post, each the longest fitting cut; none without a persona |
| DraftFormat.CleanDraft | backend/pipeline/draft_format.py:48-68 | the line loop computes the cleaned text |
| DraftFormat.LabelsAreDropped | backend/pipeline/draft_format.py:48-68 | cleaning drops the label lines and keeps the others, in order |
| DraftFormat.FinalizedShape | backend/pipeline/draft_format.py:92-113 | the result ends with the stripped hook; without a hook it has no link line and no triple newline, and neither has what stands before the hook |
| DraftAgain.FinalizeTwice | backend/pipeline/draft_format.py:92-113 | where cleaning leaves the result alone, finalizing twice is finalizing once if and only if the draft ended with the hook by itself, or the hook's non-blank lines are all link lines, or none is |
| DraftAgain.FinalizePlainTwice | backend/pipeline/draft_format.py:92-113 | the same for every draft and hook without marks, labels and stray white space, with no condition on the result |
| DraftAgain.PlainIsLeftAlone | backend/pipeline/draft_format.py:48-68 | such a draft and hook make a result that cleaning leaves alone |
| DraftAgain.OneLineHookIsAddedOnce | backend/pipeline/draft_format.py:99-113 | a hook of one line, link or not, is never added twice |
| DraftAgain.SentenceAndLinkAreAddedTwice | backend/pipeline/draft_format.py:95-113 | a sentence followed by a link is added twice to every plain draft that does not end with it |
| DraftAgain.InkOfFiltered | backend/pipeline/draft_format.py:102-105 | dropping link lines, collapsing and stripping loses exactly the characters of the link lines, white space apart |
| DraftAgain.MoreInkIsAnotherHook | backend/pipeline/draft_format.py:92-113 | for any rules, draft and hook: if the second body has more characters than the first, white space apart, and does not end with the hook, finalizing twice differs from once |
| DraftAgain.MarkedHookIsAddedTwice | backend/pipeline/draft_format.py:92-113 | a hook with a mark in it of which cleaning makes a plain word is added twice to every plain draft |
| DraftAgain.BoldHookIsAddedTwice | backend/pipeline/draft_format.py:92-113 | a concrete bold hook for which that is so |
| DraftFormat.DisclosedOnce | backend/pipeline/draft_format.py:116-133 | for any lower-casing that does not look across an empty line: with no name the text is unchanged; else the disclosure is there up to case, the text before it is untouched, and asking again adds nothing |
| DraftFormat.CollapseHasNoTriple | backend/pipeline/draft_format.py:66-67 | collapsing leaves no three newlines in a row |
| SpendGuard.OvershootIsBounded | backend/utils/cost_guard.py:118-166 | with k callers between read and record and estimates of at most m, spend let through plus in flight never exceeds a limit, set and not zero, by more than (k-1)m, for tokens against the daily and for cost against the monthly one; the counter is all recorded spend, breaching calls included |
| SpendGuard.SequentialCallersStayWithin | backend/utils/cost_guard.py:118-166 | one caller at a time never lets more than the limit through |
| SpendGuard.OvershootIsReached | backend/utils/cost_guard.py:118-166 | for every k and m some run overshoots by exactly that much, so the bound is tight |
| SpendGuard.LlmMeter.CheckAndRecord | backend/utils/cost_guard.py:113-166 | records the usage whether or not it breaches, then reports the daily breach before the monthly one, each against the counters as read; no configuration, no recording |
| SpendGuard.RecordLlmUsage | backend/utils/cost_guard.py:57-89 | meters actual usage without a limit, and nothing without a Redis client or for totals of zero or less |
| SpendGuard.UninterruptedCallIsTheMethod | backend/utils/cost_guard.py:118-166 | three undisturbed steps of the machine record the call, and let it through exactly if neither limit that is set and not zero would be exceeded, as the method does |
| ApifyBudget.BudgetOvershootIsBounded | backend/ingestion/service.py:166-177 | with k ingests between check and record, billed spend plus runs in flight never exceeds the budget by more than (k-1)m, and the counter is exactly the billed spend: failed runs leave nothing |
| ApifyBudget.OneIngestAtATimeStaysWithin | backend/ingestion/service.py:166-177 | one ingest at a time stays within the budget |
| ApifyBudget.BudgetOvershootIsReached | backend/ingestion/service.py:166-177 | for every k and m some run overshoots by exactly that much, so the bound is tight |
| ApifyBudget.UninterruptedIngest | backend/ingestion/service.py:166-177 | an ingest with nobody in between is let in exactly if spend plus estimate is within the budget, and billed its estimate exactly if it succeeds |
| ApifyBudget.SpendCounter.IngestCampaign | backend/ingestion/service.py:209-231 | the budget, the org's own or 50 USD, is checked before anything billable, and the estimate is recorded exactly when the actor run succeeded |
| FanOut.LateDispatchesAreFew | backend/pipeline/analyst_nodes.py:317-353 | under any schedule at most five calls are in flight, and at most four are dispatched after the first cap check that came back with a breach |
| FanOut.FlagMeans | backend/pipeline/analyst_nodes.py:327-334 | the flag is up if and only if some cap check of the schedule came back with a breach |
| FanOut.EachPostOnce | backend/pipeline/analyst_nodes.py:323-348 | without a breach, each post whose coroutine is past its check has been dispatched once, the others not at all |
| FanOut.NodeFinishes | backend/pipeline/analyst_nodes.py:317-350 | without a breach, whatever schedule it is in the middle of, a node can finish, with one call for each post |
| FanOut.NodesBreachIffOneDoes | backend/pipeline/analyst_nodes.py:400-434 | the run is terminal exactly if some cap check along some node's schedule came back with a breach; if none did, all calls of all nodes are dispatched |
| FanOut.CappedRunStopsAndWritesNoBrief | backend/pipeline/analyst_nodes.py:760-856 | a brief is written if and only if no cap check of any node came back with a breach, nor the last one, and the brief call was answered; and then every node has run |
| FanOut.LaterNodesAddNothing | backend/pipeline/analyst_nodes.py:471-504 | after the first breach of a run at most four calls are dispatched in all the rest of it, by that node; the later nodes dispatch none and no brief is written |
| Checkpoint.CrashesDoNotShow | backend/pipeline/graph.py:171-180 | for any crashes and redeliveries: completed nodes are a prefix of the crash-free path, none completes twice, a node begins at most once more than workers died inside it, and an ended thread holds the crash-free final state |
| Checkpoint.LostInNodeBeginsAgain | backend/pipeline/graph.py:171-180 | a worker lost inside a node runs nothing until the next delivery, and then the node begins again, so the bound on begins is reached |
| CheckpointOverlap.OverlapDoesNotShow | backend/pipeline/graph.py:171-180 | with any number of overlapping invocations of a thread: each that ends, and the checkpoint once ended, holds the crash-free final state, and no invocation begins a node twice |
| CheckpointOverlap.BothRunTheFirstNode | backend/pipeline/graph.py:171-180 | a run in which two overlapping deliveries both run the first node; and an invocation whose worker is lost runs no further |
| CheckpointOverlap.IngestIsNotRepeated | backend/pipeline/graph.py:171-180 | once some invocation has completed ingest, no later delivery runs it again, whichever slow invocation overwrites the checkpoint |
| Checkpoint.RedeliveryRecovers | backend/tasks/workers.py:60-76 | after any history, one undisturbed redelivery ends in the crash-free final state |
| Checkpoint.EndedThreadIsIdle | backend/tasks/workers.py:74-76 | a redelivery to an ended thread runs no node |
| Checkpoint.UndisturbedRunEnds | backend/pipeline/graph.py:171-180 | an undisturbed invocation reaches the end |
| Checkpoint.ReplyPath | backend/pipeline/graph.py:36-69 | the reply graph ends after ingest, prefilter or scout if that left nothing to do, else it visits all seven nodes |
| Checkpoint.AnalystPath | backend/pipeline/analyst_graph.py:82-107 | the analyst graph ends after ingest or visits all seven nodes |
| Keys.ReplyThreadInjective | backend/pipeline/graph.py:129-130 | thread ids of the reply graph tell (campaign, time) apart |
| Keys.AnalystThreadInjective | backend/pipeline/analyst_graph.py:115-116 | thread ids of the analyst graph tell (org, week, run) apart |
| Keys.ThreadsDisjoint | backend/pipeline/analyst_graph.py:115-116 | the two graphs never share a thread id |
| Keys.SubredditCapKeyInjective | backend/pipeline/prefilter.py:142-143 | subreddit counters tell (org, subreddit, day) apart, colons in the subreddit included |
| Keys.CampaignCapKeyInjective | backend/pipeline/prefilter.py:138-139 | campaign counters tell (campaign, day) apart |
| Keys.DecimalInjective | backend/pipeline/graph.py:129-130 | printed ids tell numbers apart |
| AnalystRuns.OneInFlightIsExact | backend/api/analyst.py:73-104 | one step keeps at most one fresh non-terminal run per (org, week) if and only if it does not insert a run for which another has become one since the check |
| AnalystRuns.OneInFlightExactly | backend/tasks/workers.py:258-296 | the same over whole runs of triggers, ticks, worker outcomes, reaper passes and time |
| AnalystRuns.OneRunInFlightPerOrgAndWeek | backend/pipeline/analyst_graph.py:65-79 | with each check followed by its insert before the next check, and worker outcomes, reaper passes and time in any order, there is at most one fresh non-terminal run per (org, week) |
| AnalystRuns.RacingTriggersBothRun | backend/api/analyst.py:73-104 | for any org and time, a run in which two triggers both check before either inserts and two runs are in flight |
| AnalystRuns.TriggerIsRefusedOnlyByAYoungRun | backend/api/analyst.py:73-86 | in every reachable state, a trigger is refused if and only if a run of the org started within the last two hours is RUNNING; else its insert creates one |
| AnalystRuns.ReaperIsUnobservable | backend/tasks/workers.py:325-337 | reaper reads and commits inserted anywhere change no later trigger or tick outcome |
| AnalystStatus.SecondTickCreatesNothing | backend/tasks/workers.py:258-296 | a second weekly tick at once creates no run, for any of the orgs in any order |
| AnalystStatus.UndisturbedPass | backend/tasks/workers.py:319-337 | a reaper pass of the machine with nobody in between fails exactly the RUNNING rows older than two hours |
| AnalystStatus.UndisturbedFailure | backend/tasks/workers.py:206-213 | a failing task with nobody in between fails its run exactly if that is not terminal, and no other |
| AnalystStatus.TerminalStatusChanges | backend/tasks/workers.py:319-337 | a step changes a terminal status if and only if a worker writes the other one, or it is COMPLETED and the reaper or a failing task commits the FAILED it decided on before |
| AnalystStatus.TerminalStatusStands | backend/tasks/workers.py:206-213 | over any run, a terminal status stands throughout if and only if nobody commits the other one |
| AnalystStatus.LastWriterWins | backend/pipeline/analyst_nodes.py:865-896 | a terminal run ends with the status committed last, by a worker, a reaper pass or a failing task, and stays terminal |
| AnalystStatus.TerminalStatusCanBeOverwritten | backend/pipeline/analyst_nodes.py:115-119 | for any org and time, a triggered run that goes stale ends COMPLETED after the reaper's FAILED, or FAILED after the worker's COMPLETED, by the order of the commits |
| AnalystStatus.OpenRunBlocksTwoHours | backend/pipeline/analyst_graph.py:65-79 | a RUNNING row that no worker ends blocks admission if and only if two hours have not passed since its start, reaper passes or not |
| AnalystStatus.OpenRunRefusesTriggers | backend/pipeline/analyst_nodes.py:238-247 | an ingest that ends without closing its run refuses the org every trigger for two hours |
| AnalystRuns.WeekOfMonday | backend/pipeline/analyst_graph.py:119-120 | the Monday on or before the day, within the same seven days |
| AnalystStatus.AnalystDb.TriggerAnalystRun | backend/api/analyst.py:73-104 | refused exactly when a run of the org is PENDING, or RUNNING and no older than two hours; else appends a RUNNING row for the Monday on or before the day |
| AnalystStatus.AnalystDb.AnalystWeeklyTick | backend/tasks/workers.py:257-298 | the loop over the orgs takes the machine's tick steps and counts the rows it creates: RUNNING, for the week's Monday, only for orgs with no run in flight that week, and every org has one afterwards |
| AnalystStatus.AnalystDb.ReapStaleAnalystRuns | backend/tasks/workers.py:319-337 | fails exactly the RUNNING rows older than 7200 seconds, in place |
| Inbox.ClearingLocksIsUnobservable | backend/tasks/workers.py:104-125 | lock reaper passes inserted anywhere change no reply, no posted history and no draft but for expired lock fields; the fifteen-minute boundary included |
| Inbox.ClearingDropsExpiredLocks | backend/tasks/workers.py:104-125 | a reaper pass clears the locks older than 900 seconds, and nothing else of a draft |
| Inbox.LeaseIsExclusive | backend/api/inbox.py:42-57 | over whole runs, once a user's action on a draft succeeds at t, nobody else's succeeds before t plus fifteen minutes |
| Inbox.LeaseEndsExactly | backend/api/inbox.py:42-57 | a lock is granted exactly to the right org, on an open draft without another user's live lock, and another user is then refused until exactly fifteen minutes later; each request is logged with its time and answer |
| Inbox.StepMovesStatus | backend/api/inbox.py:21-39 | a terminal draft never changes, and POSTED is entered only from AWAITING_CONFIRM by a confirmation |
| Inbox.TerminalIsAbsorbing | backend/api/inbox.py:24-39 | POSTED, REJECTED, IGNORED and both FAILED statuses are absorbing over any run, text included |
| Inbox.TextIsTheLastEdit | backend/api/inbox.py:149-175 | over whole runs, a draft's text is that of its last successful edit, else the one it was inserted with |
| InboxDedup.ApartIsExact | backend/pipeline/nodes.py:197-227 | one step keeps any two drafts of an org apart in (platform, post), across campaigns, if and only if it does not commit a post that came up in another campaign since the run's prefilter looked |
| InboxDedup.NoPostIsDraftedTwiceExactly | backend/pipeline/nodes.py:270-278 | the same over whole runs of overlapping pipelines, requests and reaper passes |
| InboxDedup.SerialRunsStayApart | backend/pipeline/nodes.py:197-227 | with pipeline runs in series no two drafts ever share (org, platform, post) |
| InboxDedup.PostedIsRecordedOnce | backend/api/inbox.py:213-239 | over any run, overlapping pipelines included, a key is in posted history once if some draft with it is POSTED, else not at all |
| InboxDedup.TwoCampaignsPostTwice | backend/pipeline/nodes.py:209-227 | for any two campaigns and any post, a run in which both draft it, both drafts are posted, and history has the post once |
| InboxDedup.InsertedAdds | backend/pipeline/nodes.py:857-876 | the drafts after the gate: the old ones, then rows of the run's survivors that the campaign did not have, with the status and text proposed and no lock |
| InboxRaces.UndisturbedIsAtomic | backend/api/inbox.py:33-57 | a handler whose look and commit have nothing in between leaves what the atomic step leaves |
| InboxRaces.CommitWritesChangedColumns | backend/api/inbox.py:149-175 | a commit writes the status, text and lock that its handler has changed, as it saw them, over the row as it is by then, keeps the rest, and happens once |
| InboxRaces.ReopeningIsExact | backend/api/inbox.py:33-39 | with overlapping handlers, a step changes a terminal status if and only if it commits a handler with another status to write, and that one looked before the draft was closed |
| InboxRaces.ClosedStaysClosedExactly | backend/api/inbox.py:24-39 | the same over whole runs of overlapping handlers and lock reaper passes |
| InboxRaces.LockLossIsExact | backend/api/inbox.py:42-57 | with overlapping handlers, a user loses a draft if and only if the fifteen minutes lapse or a handler takes it, and that one looked at another row |
| InboxRaces.LockIsKeptExactly | backend/api/inbox.py:127-146 | the same over whole runs |
| InboxRaces.ConfirmedThenRejected | backend/api/inbox.py:213-250 | for any two users on an unlocked draft, a run that confirms it for one and then rejects it for the other, its post in history |
| InboxApi.DraftReply.EnforceAndTakeOverLock | backend/api/inbox.py:42-57 | refuses exactly when another user's lock is younger than 900 seconds; else takes or refreshes it, and changes nothing else |
| InboxApi.DraftReply.Open | backend/api/inbox.py:33-57 | the guard of every handler: NotFound outside the org, Conflict from another status or under another's lock, else the lock is taken |
| InboxApi.LockDraft | backend/api/inbox.py:127-146 | takes the machine's step, and keeps every other user out until exactly the returned time |
| InboxApi.EditDraft | backend/api/inbox.py:149-175 | takes the machine's edit step: answered Ok, the draft has the text sent, its old status and the user's lock; otherwise nothing changes |
| InboxApi.OpenCopyDraft | backend/api/inbox.py:178-210 | takes the machine's open-copy step: AWAITING_CONFIRM, and returns the unchanged text |
| InboxApi.ConfirmPostedDraft | backend/api/inbox.py:213-250 | takes the machine's confirmation step: POSTED from AWAITING_CONFIRM only, text unchanged, the post in history once |
| InboxApi.UnconfirmDraft | backend/api/inbox.py:253-278 | takes the machine's step from AWAITING_CONFIRM back to PENDING, text unchanged |
| InboxApi.RejectDraft | backend/api/inbox.py:281-307 | takes the machine's step to REJECTED, text unchanged |
| InboxApi.IgnoreDraft | backend/api/inbox.py:310-334 | takes the machine's step to IGNORED, text unchanged |
| InboxApi.ClearExpiredLocks | backend/tasks/workers.py:104-125 | clears exactly the locks older than fifteen minutes, in place |
| Scheduler.ActiveIsQueuedOrInHand | backend/tasks/scheduler.py:33-95 | with ticks interleaved step by step among themselves and with the API, and none dying, every ACTIVE campaign is in the ZSET or in the hands of a tick that will put it back |
| SchedulerLoss.LossIsExact | backend/tasks/scheduler.py:40-95 | a step makes an ACTIVE campaign one that is in neither the ZSET nor a live tick if and only if a tick dies that alone has it |
| SchedulerLoss.RescueIsExact | backend/api/campaigns.py:114-119 | and it stays so if and only if no handler puts it back into the ZSET or takes it out of ACTIVE; ticks never do |
| SchedulerLoss.NoActiveCampaignIsLost | backend/tasks/scheduler.py:33-95 | over whole runs, exceptions and dying ticks included, an ACTIVE campaign is always in the ZSET or in a live tick if and only if no tick dies that alone has it |
| SchedulerLoss.LostIsNotPolled | backend/tasks/scheduler.py:33-42 | a lost campaign is never dispatched again, however many ticks come, until a handler touches it |
| SchedulerLoss.PoppedByADyingTick | backend/tasks/scheduler.py:40-42 | for any due campaign, a run in which a tick pops it and dies |
| SchedulerHandlers.DriftIsExact | backend/api/campaigns.py:106-119 | with handlers that commit and then send their Redis command, a step drops an ACTIVE campaign out of polling if and only if a ZREM comes late, or a tick or handler is lost that alone would keep it |
| SchedulerHandlers.NoneDriftsExactly | backend/api/campaigns.py:52-146 | the same over whole runs of overlapping handlers, kill switches and ticks |
| SchedulerHandlers.WholeHandlersAreAtomic | backend/api/campaigns.py:83-146 | a creation, update or deletion with nobody in between leaves what the atomic step leaves |
| SchedulerHandlers.UpdateCommits | backend/api/campaigns.py:83-121 | an update's commit, field by field: it waits for a kill switch that has the row locked, then writes only the columns it has changed and owes the ZSET what the row read first and the written one call for |
| SchedulerHandlers.WholeKillIsAtomic | backend/api/org.py:89-123 | and so does a kill switch, which removes before it commits |
| SchedulerHandlers.KillSwitchGoesOn | backend/api/org.py:97-112 | a kill switch waits for another's locks, locks the org's ACTIVE rows, removes the ids it had read one by one, and pauses the locked rows |
| SchedulerHandlers.PauseAndResumeCross | backend/api/campaigns.py:106-119 | for any ACTIVE campaign, a pause and a resume that overlap and leave it ACTIVE and unpolled, no process lost |
| Scheduler.KillSwitchStopsDispatch | backend/api/org.py:97-112 | after the kill switch, until somebody creates or resumes a campaign, the org gets at most those dispatches that a tick had already decided on, and no campaign of it is ACTIVE |
| Scheduler.KillSwitchSilences | backend/api/org.py:97-112 | if no tick had decided on a campaign of the org, none of it is dispatched from the kill switch on until somebody creates or resumes one |
| Scheduler.KillSwitchTouchesItsOrgOnly | backend/api/org.py:97-112 | the kill-switch step, row by row: an ACTIVE campaign of the org is PAUSED and leaves the ZSET; every other campaign, of this org or another, keeps its row and its score |
| Scheduler.OrgIsReadOnceATick | backend/tasks/scheduler.py:46-95 | a tick's next campaign goes out if it is ACTIVE and its org was on when the tick's session read it, which is afresh after an exception |
| SchedulerFiring.HeldOnceIsExact | backend/tasks/scheduler.py:33-42 | one step keeps a campaign out of two ticks' hands if and only if it does not read it in another tick's window and does not, as an edit, put it back while a tick has it |
| SchedulerFiring.OneTickHasIt | backend/tasks/scheduler.py:33-42 | the same over whole runs, slow and dead ticks included |
| SchedulerFiring.PaysIsExact | backend/tasks/scheduler.py:33-96 | from any state, one step keeps dispatches made and to come paid for by enqueues if and only if it does not read the campaign in another tick's window |
| SchedulerFiring.EachEnqueueFiresOnce | backend/tasks/scheduler.py:40-42 | over any run without such reads, edits and exceptions included, a campaign is dispatched at most once for each time it is put into the ZSET |
| SchedulerFiring.NoDoubleFire | backend/tasks/scheduler.py:40-42 | if one tick at most has the campaign, then until somebody puts it into the ZSET the log of dispatches has it at no two new places |
| SchedulerFiring.EnqueuesMeans | backend/tasks/scheduler.py:40-95 | what counts as an enqueue leaves the campaign in the ZSET, and no other step puts it there or changes its score |
| SchedulerFiring.EditFiresTwice | backend/api/campaigns.py:114-117 | a concrete run in which no tick reads in another's window, an edit re-enqueues the campaign while a slow tick has it, and both dispatch |
| SchedulerFiring.OverlappingTicksFireTwice | backend/tasks/scheduler.py:33-42 | a concrete run in which two ticks read before either pops, and both dispatch |
| Scheduler.StepKeepsIndexed | backend/tasks/scheduler.py:40-95 | each step of a tick or handler, a tick's death aside, keeps that index property |
| SchedulerTicks.ZsetIsTheActiveCampaigns | backend/api/campaigns.py:106-119 | with whole ticks and handlers one after the other, the ZSET members are exactly the ACTIVE campaigns |
| SchedulerTicks.DispatchesArePaced | backend/tasks/scheduler.py:30-95 | over any run of ticks and handlers, edits, pauses and resumes included, two dispatches of a campaign are at least min(60 times a poll frequency it never falls below, 300) seconds apart, the error path included |
| SchedulerTicks.PaceIsReached | backend/tasks/scheduler.py:76-95 | for any org and any frequency of five minutes or more, a run from an empty system in which two dispatches are exactly 300 seconds apart |
| SchedulerTicks.TickMeans | backend/tasks/scheduler.py:33-97 | the whole tick, campaign by campaign: who is dispatched and each new score, by due scores, statuses and frequencies alone |
| SchedulerTurns.TurnIsHandleDue | backend/tasks/scheduler.py:46-95 | with nobody in between, a campaign's steps in the machine dispatch it exactly if it and its org are active, and put it back by its frequency, by 300 seconds on an error, not at all without a row |
| SchedulerTurns.UndisturbedTickIsAtomic | backend/tasks/scheduler.py:33-97 | a tick of the step machine with nobody in between leaves the ZSET of the whole tick and dispatches the same campaigns |
| SchedulerTicks.SchedulerDb.SchedulerTick | backend/tasks/scheduler.py:33-97 | the loop leaves the ZSET of the tick step, and dispatches exactly the due campaigns that are active at the read, each once |
| SchedulerTicks.SchedulerDb.HandleDue | backend/tasks/scheduler.py:46-95 | one due campaign: dispatched exactly if it and its org are active and no error came before, rescheduled by its frequency, by 300 seconds on an error, not at all if its row is gone; the others' scores stand |
| SchedulerTicks.SchedulerDb.Create | backend/api/campaigns.py:45-71 | inserts an ACTIVE campaign, due at once |
| SchedulerTicks.SchedulerDb.Update | backend/api/campaigns.py:83-121 | sets the given fields; reschedules exactly when the campaign ends up ACTIVE with status or frequency changed, and removes exactly on leaving ACTIVE; another org's campaign is NotFound |
| SchedulerTicks.SchedulerDb.Delete | backend/api/campaigns.py:124-146 | removes the row and its ZSET member, of the own org only |
| SchedulerTicks.SchedulerDb.ActivateKillSwitch | backend/api/org.py:89-112 | row by row: each ACTIVE campaign of the org is PAUSED and leaves the ZSET; every other campaign keeps its row and its score |
| IdCache.IdCacheStore.Get | backend/utils/auth.py:42-50 | returns the value exactly if it is no older than 300 seconds, drops an expired entry, keeps the others |
| IdCache.IdCacheStore.Set | backend/utils/auth.py:53-60 | stores the value, evicting one oldest entry if a new key comes to 10000 entries, and keeps the others |
| IdCache.HitIsTheLastSet | backend/utils/auth.py:42-60 | over any run of the cache, a hit is the last value set for its key, and no older than the TTL |
| IdCache.SetIsHit | backend/utils/auth.py:42-60 | a value that was set is hit exactly until it is older than the TTL |
| IdCache.OrgCacheIsTransparent | backend/utils/auth.py:95-130 | an organization is found through the cache as without it, whatever the cache holds |
| IdCache.Provisioning.GetOrCreateOrganization | backend/utils/auth.py:95-130 | the code returns that row and leaves that table, for any cache contents and a lost create race |
| IdCache.UserCacheIsExact | backend/utils/auth.py:133-163 | a user is found through the cache as without it if and only if the live entry does not name another user's row |
| IdCache.Provisioning.GetOrCreateUser | backend/utils/auth.py:133-163 | the code returns the cache-free row if the cache is sound, and keeps it sound |
| IdCache.UserCacheIsTransparent | backend/utils/auth.py:133-163 | over any run of requests, inserts by others and rows lost to rollbacks, a user request is answered as without a cache |
| IdCache.VanishedRowIsNotUsed | backend/utils/auth.py:133-163 | a run in which a cached row vanishes, and the next request of that user gets the row another request has inserted |

## Left out

- HTTP, FastAPI, Clerk tokens, Svix, Celery, SQL, LangGraph beyond the resume rule, the audit and system logs, the frontend, migrations, schemas, seeding, prompts, encryption and simple CRUD: plumbing without a protocol of its own.
- Language models, Apify, tokenizers, prices and regular expressions: arbitrary answers or functions.
- Inbox.LeaseIsExclusive: handlers are atomic here, which the code does not enforce; `InboxRaces.LockIsKeptExactly` has them overlap.
- Inbox.TerminalIsAbsorbing: the same; `InboxRaces.ClosedStaysClosedExactly` has them overlap.
- InboxDedup.PostedIsRecordedOnce: the same; a handler that overlaps with a confirmation can take its draft out of POSTED (`InboxRaces.ConfirmedThenRejected`). Campaigns are not deleted.
- SchedulerLoss.NoActiveCampaignIsLost: campaign handlers are atomic; `SchedulerHandlers.NoneDriftsExactly` has them overlap. The theorems of `SchedulerFiring.dfy` and `SchedulerTicks.dfy` have atomic handlers too.
- Recovery of campaigns that a dead tick had popped: the code has none.
- Redis outages, which let the spend guards pass and the caps refuse; key expiry; day and month rollover within a run.
- Rounding of floating-point money: whole units of 1e-4 USD.
- Row deadlocks in Postgres: a victim's rollback is a crash of its worker.
- `purge_old_checkpoints`, `compute_momentum`, `poll_engagement_outcomes`, the classification helpers and the cost estimates: each would only add easy members.
- Changes of a cap during the day: an admin lowering a cap does not take back slots already granted.
- Checkpoint.CrashesDoNotShow: one invocation of a thread at a time; `CheckpointOverlap.dfy` has any number. Nodes are functions of the state: what a node's body does to the outside before a crash is covered for the persist gate by the daily-cap machine only.
- The regular expressions of `draft_format.py`: assumed are only that a blank line is no link line, that white space added at an end leaves a link line one, and, for plain drafts, that a text without emphasis or code marks has none to drop. Of `lower()`: that it treats the text after an empty line on its own.
- Interleaving of the cost check's own commands inside the gate: `GateUsage.dfy` runs the gate alone, `SpendGuard.dfy` the guard with any number of callers.
- Renaming of clerk ids: no code path does it.
