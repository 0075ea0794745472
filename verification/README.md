# Lintel: models and proofs

Dafny models of the parts of Lintel that hold an algorithm or a state machine, with proofs about all
inputs, all runs, or all reachable states. `dafny verify dfyconfig.toml` checks everything.

| file | models |
|---|---|
| `LineDiff.dfy` | the LCS line diff of the UI |
| `Scheduler.dfy`, `SchedulerOverlap.dfy`, `SchedulerQueue.dfy`, `SchedulerChains.dfy`, `SchedulerCron.dfy` | the automation scheduler; non-overlap; queueing; the chain-depth guard; the cron due check |
| `Redaction.dfy` | fingerprint redaction of model output |
| `BoardSync.dfy`, `BoardSyncRuns.dfy`, `BoardSyncItems.dfy` | the board sync engine and its mapping store; what runs of syncs keep; what a sync does with each item |
| `RateLimit.dfy` | the sliding-window rate limiter |
| `History.dfy` | message history trimming |
| `ToolLoop.dfy` | the agent tool loop |
| `HashChain.dfy` | the hash-chained audit store |
| `Sessions.dfy` | the session store and the revocation check |
| `Kanban.dfy` | the kanban view |
| `BotManager.dfy` | the bot lifecycle manager |
| `Common.dfy` | shared types |

Where the source updates an object in place, the model is a class with the same fields, and each method is
tied to a specification function of the old state; the lemmas are about that function over whole runs. What one
call leaves is stated a second time without that function, from the fields, the arguments and the log alone.
What comes from outside is an input: the answers of stores, callbacks, adapters, models and tools, generated
ids, clock readings, the latest occurrence of a cron schedule, and the content hash.

## Findings

Promises the code keeps only under a condition, or does not keep. Where a bullet says "exactly", the condition
is proved in both directions for every input; the other bullets say what is shown.

- For an automation that is never ALLOW, runs overlap exactly if a completion of another run arrives while one
  is active, something is queued, and the automation is still stored and enabled (otherwise the queued trigger
  is dropped): `mark_run_completed` dequeues whatever run it is told about
  (`SchedulerOverlap.OverlapExact`; an instance is `SchedulerOverlap.StaleCompletionOverlaps`). With ALLOW
  fires as well, the scheduler keeps knowing the live runs exactly if there is neither
  (`SchedulerOverlap.NonOverlap`); one ALLOW fire of an idle automation overlaps with nothing.
- A queue is served first come, first served exactly as long as no trigger is skipped, fired ahead of a
  different queued one, or popped when its automation can no longer be fired (`SchedulerQueue.FirstComeFirstServed`).
- The chain-depth guard counts direct fires only: the recorded depth counts all fires of a chain exactly if no
  trigger of the chain is fired out of a queue (`SchedulerChains.DepthCountsAllFires`). For every limit of one
  or more there are legal runs in which one chain fires any number of runs at a recorded depth of zero
  (`SchedulerChains.QueuedFiresEscapeGuard`); without the policy QUEUE the limit bounds the chain
  (`SchedulerChains.UnqueuedChainBound`).
- Queueing leaves no stamp: an occurrence stays due exactly if its step was skipped or queued
  (`SchedulerCron.DueAgainUnlessFired`), so while a run is active a QUEUE automation queues one cron occurrence
  at every tick (`SchedulerCron.OneOccurrenceQueuedAtEveryTick`).
- A fingerprint is absent from every cleaned text of every firewall that lists it exactly if it does not touch
  the marker, or contains a built-in one (`Redaction.AbsentFromAllExact`); otherwise the firewall it is the only
  extra fingerprint of already lets it through (`Redaction.OnlyExtraExact`). Touching means: empty, part of the
  marker or around it, starting with an end of it or ending with a beginning of it. In general, in any list, a
  fingerprint is safe if it or a part of it does not touch the marker and is listed, before it or after it
  (`Redaction.NoFingerprintSurvives`, `Redaction.ShieldedByPart`).
- With a provider that keeps to the adapter interface, board sync gives an external id two mappings exactly if
  a work item that is not mapped yet is pushed with an external id another mapping of the configuration holds
  (`BoardSyncRuns.ExternalUniqueness`). Pulling an item, saving it with its external id and pushing it does
  that (`BoardSyncRuns.PulledCopyDuplicatesExternal`), since the mapping a pull makes names no work item
  (`BoardSyncRuns.PulledItemIsPushedAnew`).
- History trimming with `preserve_system` settles after one application exactly unless a summary takes a place
  in a window the kept messages fill (`History.OneApplicationSettles`); without it, repeated application
  settles exactly if the window was over the token limit or some answer led to no summary
  (`History.UnpreservedSettles`); a window within the limit, with enough evicted before it to be summarised,
  never settles with a callback whose answers have 148 characters (`History.SummaryNeverSettlesUnpreserved`).
- The token limit is met exactly under `History.LimitMet` (`History.TokenLimit`): it is not looked at when the
  window evicts nothing, and the summary is not counted against it. Where the system messages leave a budget
  the condition is the sum of the parts with their carries; what simplifies it is that without a summary the
  limit is passed by at most one token (`History.TokenBound`), and that without a budget everything but the
  system messages must be less than a token. The class comment says recent messages are
  always kept; the limit drops some of them, unsummarised (`History.EvictionParts`) and not counted as evicted.
- The content hash leaves the link out, so a rewritten entry goes unnoticed in the last place, and everywhere
  else exactly if the next link is set to the new hash (`HashChain.RewriteDetected` with the links left alone,
  `HashChain.RewriteWithLinkUnnoticed` with that one changed). Verification accepts exactly the chains the
  store would have built from the same contents (`HashChain.AcceptedExactlyIfBuilt`), and so every chain with
  its end cut off (`HashChain.TruncationUnnoticed`).
- A refused refresh token is accepted again exactly if a session is created under its token id or session
  id once more (`Sessions.RevocationIsFinal`), and so never if ids are not reused (`Sessions.RefusedForGood`).
- The adapter registry stays in step with the connected bots except exactly when a reconnection finds a
  registered bot gone from the store (`BotManager.StepInStep`). Even then a registered bot stays managed, so
  stopping all bots clears their registrations after any run (`BotManager.StopAllClears`).

## Model

| member | source | states |
|---|---|---|
| LineDiff.ComputeLineDiff | ui/src/shared/utils/computeLineDiff.ts:12-51 | for all pairs of texts: the script rewrites one text to the other and gives both back when joined; its equal lines are a common subsequence and none is longer; no valid script has fewer added and removed lines; removals precede additions in every run of changes; and of several longest subsequences it is the one that keeps the last lines read wherever they are the same, so common lines at the end are kept at the end, and removes one only where adding instead would keep less |
| LineDiff.BacktrackChooses | ui/src/shared/utils/computeLineDiff.ts:34-48 | an entry is an equal one exactly where the last lines read on both sides are the same; a removed one stands only where no common subsequence without the other side's last line is as long; lines both texts end with end the script |
| LineDiff.DiffLines | ui/src/shared/utils/computeLineDiff.ts:31-50 | the loop emits, reversed, exactly the entries met on the way back from the last cell, whatever the table cells compare like |
| LineDiff.FillTable | ui/src/shared/utils/computeLineDiff.ts:19-29 | every cell holds the value of the LCS recurrence for its two prefixes |
| LineDiff.LcsLengthBounds | ui/src/shared/utils/computeLineDiff.ts:20-29 | no common subsequence of two prefixes, given by any embedding, is longer than their table cell |
| LineDiff.BacktrackTransforms | ui/src/shared/utils/computeLineDiff.ts:31-48 | from every cell, the old side of the script is the old prefix and the new side the new one |
| LineDiff.BacktrackKeeps | ui/src/shared/utils/computeLineDiff.ts:31-48 | from every cell, the script has as many equal entries as the cell says: backtracking stays on an optimal path |
| LineDiff.AnyScriptBound | ui/src/shared/utils/computeLineDiff.ts:3-4 | any script between two texts, however made, keeps at most the LCS length and changes at least the rest |
| LineDiff.BacktrackRemovalsFirst | ui/src/shared/utils/computeLineDiff.ts:41-47 | the tie-break never leaves an added line directly before a removed one |
| LineDiff.UnlinesLines | ui/src/shared/utils/computeLineDiff.ts:13-14 | joining the lines of a text on newline gives the text |
| LineDiff.LinesUnlines | ui/src/shared/utils/computeLineDiff.ts:13-14 | splitting newline-free lines joined on newline gives the lines |
| Scheduler.AutomationScheduler.IsDue | packages/automations/src/lintel/automations/scheduler.py:65-71 | due exactly if there is no stamp or it is older than the latest occurrence |
| Scheduler.AutomationScheduler.Apply | packages/automations/src/lintel/automations/scheduler.py:73-108 | field by field: a trigger is fired unless SKIP or QUEUE finds a run active; firing stamps the automation and, unless ALLOW, makes the run the active one; QUEUE appends it to the queue; the log has the arrival, a cancellation under CANCEL, and what became of it |
| Scheduler.AutomationScheduler.TickCron | packages/automations/src/lintel/automations/scheduler.py:40-63 | automation by automation, in order: those enabled, with a schedule, and not fired since its latest occurrence have their trigger applied, the others change nothing; the ids returned are those fired; if no id is listed twice, the ids acted on can be told from the stamps before the tick |
| Scheduler.TickReaches | packages/automations/src/lintel/automations/scheduler.py:46-61 | with distinct ids, the arrivals a tick logs are, in order, those of exactly the enabled automations with a schedule whose stamp is missing or older than the latest occurrence |
| Scheduler.AutomationScheduler.HandleEvent | packages/automations/src/lintel/automations/scheduler.py:110-133 | automation by automation, in order: those that are enabled and list the event type are skipped if the chain has reached their limit, and else have their trigger applied and a fire counted; the others change nothing |
| Scheduler.EventReaches | packages/automations/src/lintel/automations/scheduler.py:112-131 | the arrivals and refusals an event logs are, in order, those of exactly the listed automations that are enabled, have an event trigger and list its type |
| Scheduler.AutomationScheduler.MarkRunCompleted | packages/automations/src/lintel/automations/scheduler.py:135-146 | field by field: the active run is cleared only if it is the one named; then the head of the queue, if any, is popped, and fired if the automation is still stored and enabled, whichever run was named; no other automation changes |
| Scheduler.RunStepsLegal | packages/automations/src/lintel/automations/scheduler.py:40-146 | every run of operations unfolds into steps each of which was allowed when taken, so what holds of all runs of steps holds of all runs of operations |
| SchedulerOverlap.NonOverlap | packages/automations/src/lintel/automations/scheduler.py:73-146 | with fresh run ids, under any policies: after every step the live runs of an automation are the one in `_active_runs` or none, if and only if no step fires it under ALLOW and no completion of another run starts a queued one |
| SchedulerOverlap.OverlapExact | packages/automations/src/lintel/automations/scheduler.py:73-146 | for an automation never ALLOW, with fresh run ids: at most one run is live after every step, if and only if no completion of another run starts a queued one |
| SchedulerOverlap.StepInStep | packages/automations/src/lintel/automations/scheduler.py:73-146 | the same for one step from any state in step, in both directions |
| SchedulerOverlap.SkipAndCancelNeverOverlap | packages/automations/src/lintel/automations/scheduler.py:93-106 | an automation that is always SKIP or CANCEL never has two live runs, whatever completions arrive |
| SchedulerOverlap.StaleCompletionOverlaps | packages/automations/src/lintel/automations/scheduler.py:135-146 | under QUEUE, the completion of any run but the active one leaves two runs live, after a legal run of three steps |
| SchedulerQueue.Conservation | packages/automations/src/lintel/automations/scheduler.py:73-146 | in every run, under any policies: the triggers that arrived are, as a multiset, those fired, those queued, and those skipped or dropped |
| SchedulerQueue.FirstComeFirstServed | packages/automations/src/lintel/automations/scheduler.py:87-99 | what was fired followed by what is queued is the arrival sequence after every step, if and only if no step skips, drops, or fires ahead of a different queued trigger |
| SchedulerQueue.StepInOrder | packages/automations/src/lintel/automations/scheduler.py:135-146 | the same for one step, in both directions |
| SchedulerQueue.QueueAutomationIsFifo | packages/automations/src/lintel/automations/scheduler.py:97-99 | an always enabled, always QUEUE automation is served in arrival order, and has something queued only while a run is active |
| SchedulerChains.ChainBound | packages/automations/src/lintel/automations/scheduler.py:122-133 | over any run, the depth of a correlation id is the number of direct event fires carrying it and never passes the largest limit |
| SchedulerChains.GuardCountsFires | packages/automations/src/lintel/automations/scheduler.py:122-128 | the guard refuses an event exactly when its chain already has as many direct fires as the automation allows |
| SchedulerChains.FiresAreDepthAndQueued | packages/automations/src/lintel/automations/scheduler.py:122-146 | over any run, the fires for triggers of a chain, direct or out of a queue, are the recorded depth and the completions that fire one of its triggers out of a queue |
| SchedulerChains.DepthCountsAllFires | packages/automations/src/lintel/automations/scheduler.py:122-146 | the recorded depth is the number of all fires of the chain, if and only if no completion fires one of its triggers out of a queue |
| SchedulerChains.UnqueuedChainBound | packages/automations/src/lintel/automations/scheduler.py:122-133 | if no event of the chain meets the policy QUEUE, all fires of the chain stay within the largest limit |
| SchedulerChains.RunPendingAgrees | packages/automations/src/lintel/automations/scheduler.py:97-99 | the triggers the log says are waiting, each with the correlation id it came with, are those in the queue, in order |
| SchedulerChains.QueuedFiresEscapeGuard | packages/automations/src/lintel/automations/scheduler.py:135-146 | for every n, every limit of one or more and every QUEUE automation there is a legal run in which one chain fires n runs at a recorded depth of zero |
| SchedulerCron.DistinctOccurrences | packages/automations/src/lintel/automations/scheduler.py:40-71 | under a clock that does not run backwards, successive direct cron fires use increasing occurrences, each after the stamp of the fire before and before its own tick |
| SchedulerCron.CronRunStep | packages/automations/src/lintel/automations/scheduler.py:65-106 | the invariant behind it, kept by every step: fires are separated by stamps, and the last stamp is that of an earlier step |
| SchedulerCron.DueAgainUnlessFired | packages/automations/src/lintel/automations/scheduler.py:65-106 | after a due cron step the same occurrence is due again exactly if the step was skipped or queued behind an active run |
| SchedulerCron.OneOccurrenceQueuedAtEveryTick | packages/automations/src/lintel/automations/scheduler.py:97-99 | while a run is active, any number of ticks that find one occurrence the latest, each with its own clock reading, queue it that many times for a QUEUE automation |
| Redaction.PromptFirewall.ValidateOutput | packages/agents/src/lintel/agents/prompt_firewall.py:266-302 | the result and the log entry; modified exactly if a fingerprint occurs; one label for each listed fingerprint that occurs, in the order listed, with at most 30 characters of it; no detached fingerprint occurs in the cleaned text, whatever the others are |
| Redaction.LeakedInOrder | packages/agents/src/lintel/agents/prompt_firewall.py:271-275 | the leaked fingerprints are those listed at the positions, in increasing order, whose fingerprint occurs in the response |
| Redaction.RedactFirst | packages/agents/src/lintel/agents/prompt_firewall.py:289-292 | the fingerprints are replaced one after the other, the first one leaked in the response itself |
| Redaction.ReplaceFirst | packages/agents/src/lintel/agents/prompt_firewall.py:292 | replacing goes from left to right: the first occurrence is replaced, then the rest of the text after it |
| Redaction.ReplaceEmpty | packages/agents/src/lintel/agents/prompt_firewall.py:292 | replacing the empty string puts the marker before the text and after every character |
| Redaction.NoFingerprintSurvives | packages/agents/src/lintel/agents/prompt_firewall.py:271-292 | a listed fingerprint that can never share a character with a marker, leaked or not, does not occur in the cleaned text, whatever else is listed |
| Redaction.OnlyFingerprintsReplaced | packages/agents/src/lintel/agents/prompt_firewall.py:289-292 | if the leaked fingerprints are detached, the cleaned text is the response with occurrences of fingerprints, and nothing else, each replaced by one marker; the rest is kept in order |
| Redaction.ValidationSettles | packages/agents/src/lintel/agents/prompt_firewall.py:266-302 | if each fingerprint has a detached part, or is one, that is listed, validating a cleaned text again finds nothing and changes nothing |
| Redaction.AbsentFromAllExact | packages/agents/src/lintel/agents/prompt_firewall.py:271-292 | a fingerprint is absent from every cleaned text of every firewall that lists it, if and only if it does not touch the marker or contains a built-in fingerprint |
| Redaction.DetachedExact | packages/agents/src/lintel/agents/prompt_firewall.py:292 | never sharing a character with a marker, in any text, is exactly not touching it, which can be read off the fingerprint |
| Redaction.OnlyExtraExact | packages/agents/src/lintel/agents/prompt_firewall.py:271-292 | the same condition is already exact for the firewall whose only extra fingerprint it is |
| Redaction.ShieldedByPart | packages/agents/src/lintel/agents/prompt_firewall.py:289-292 | in any list, in any order, a fingerprint does not survive if a detached part of it is listed too |
| Redaction.BracketFreeIsDetached | packages/agents/src/lintel/agents/prompt_firewall.py:292 | a non-empty fingerprint without brackets that is not part of the word REDACTED never shares a character with a marker, in any text |
| Redaction.BuiltInsDetached | packages/agents/src/lintel/agents/prompt_firewall.py:81-86 | the built-in fingerprints qualify |
| Redaction.ReplaceAround | packages/agents/src/lintel/agents/prompt_firewall.py:291-292 | replacing a detached fingerprint acts independently on the two sides of a marker already placed |
| BoardSync.ExternalIdMappingStore.Set | packages/board-sync-api/src/lintel/board_sync_api/store.py:39-40 | a mapping is stored under its id, in place if present, at the end otherwise |
| BoardSync.ExternalIdMappingStore.GetByExternalId | packages/board-sync-api/src/lintel/board_sync_api/store.py:55-63 | the first mapping of the configuration with the external id |
| BoardSync.ExternalIdMappingStore.GetByWorkItem | packages/board-sync-api/src/lintel/board_sync_api/store.py:45-53 | the first mapping of the configuration with the work-item id |
| BoardSync.SyncEngine.Sync | packages/board-sync-api/src/lintel/board_sync_api/sync_engine.py:51-172 | the two refusals, which change nothing; otherwise the store, the calls made, the counts and the status of the two phases, including when the pull or a push raises |
| BoardSyncItems.SyncHandsOver | packages/board-sync-api/src/lintel/board_sync_api/sync_engine.py:82-119 | the items a sync hands over are, in order, those not mapped yet, all under pull only, and of the mapped ones, in both directions, exactly those newer than the first work item with the mapped id, if the last write wins; described by quantifiers over mappings and work items |
| BoardSyncItems.HandedOverExact | packages/board-sync-api/src/lintel/board_sync_api/sync_engine.py:20-37 | the same for one item |
| BoardSyncItems.BeforeExact | packages/board-sync-api/src/lintel/board_sync_api/sync_engine.py:35 | a timestamp is older if at the first place they differ it ends or has the smaller character |
| BoardSyncItems.PullStores | packages/board-sync-api/src/lintel/board_sync_api/sync_engine.py:89-119 | pulling a mapped item sets the time of its first mapping and nothing else; any other gets a new mapping, to no work item |
| BoardSyncItems.PushStores | packages/board-sync-api/src/lintel/board_sync_api/sync_engine.py:123-156 | pushing a mapped work item sets the time of its first mapping, and its external id unless the answer is empty; any other gets a new mapping to the answer |
| BoardSyncItems.PushesSend | packages/board-sync-api/src/lintel/board_sync_api/sync_engine.py:123-146 | the work items are sent in order, each as it is, with the status mapped and the external id of its first mapping at that time, if any |
| BoardSyncItems.StatusRoundTrip | packages/board-sync-api/src/lintel/board_sync_api/adapters.py:26-51 | a status comes back as it was sent exactly for the statuses the provider knows, and as open otherwise |
| BoardSyncRuns.SyncIsRun | packages/board-sync-api/src/lintel/board_sync_api/sync_engine.py:80-164 | a sync, complete or failed midway, leaves the store its answered steps lead to |
| BoardSyncRuns.CallsAreRun | packages/board-sync-api/src/lintel/board_sync_api/sync_engine.py:51-172 | any sequence of syncs is a run of steps, so what holds of all runs holds after all syncs |
| BoardSyncRuns.MappingUniqueness | packages/board-sync-api/src/lintel/board_sync_api/sync_engine.py:84-156 | in every run, whatever the provider answers: no work item has two mappings; and no external id ever has two if and only if no answer to a push is an id another mapping holds |
| BoardSyncRuns.ExternalUniqueness | packages/board-sync-api/src/lintel/board_sync_api/sync_engine.py:123-156 | with a provider that returns the id it is sent, and for an item sent without one an id no mapping holds: no external id ever has two mappings, if and only if no work item is pushed, before it is mapped, with an external id another mapping holds |
| BoardSyncRuns.PulledCopyDuplicatesExternal | packages/board-sync-api/src/lintel/board_sync_api/adapters.py:154-172 | the failing run: a pulled item, saved with its external id and pushed, has two mappings for that id |
| BoardSyncRuns.StepExtends | packages/board-sync-api/src/lintel/board_sync_api/sync_engine.py:84-156 | an item adds one mapping if it has none, none otherwise, and every other mapping keeps its place, configuration and work item |
| BoardSyncRuns.RunExtends | packages/board-sync-api/src/lintel/board_sync_api/sync_engine.py:84-156 | over any run no mapping is removed, moved or given to another work item |
| BoardSyncRuns.SecondSyncAddsNothing | packages/board-sync-api/src/lintel/board_sync_api/sync_engine.py:80-156 | after a complete sync, a second one on the same items adds no mapping, whether or not it completes, if the answers leave the external ids of mapped items alone |
| BoardSyncRuns.FaithfulSecondSync | packages/board-sync-api/src/lintel/board_sync_api/adapters.py:69-74 | so it does with any provider that keeps to the adapter interface |
| BoardSyncRuns.SyncCounts | packages/board-sync-api/src/lintel/board_sync_api/sync_engine.py:71-172 | pulled items are accepted or skipped; failure happens exactly if the pull or some push raises, and then at the first that does, which is the last one sent |
| BoardSyncRuns.BeforeIsTotal | packages/board-sync-api/src/lintel/board_sync_api/sync_engine.py:32-37 | of two different timestamps exactly one is newer |
| BoardSyncRuns.BeforeIsTransitive | packages/board-sync-api/src/lintel/board_sync_api/sync_engine.py:32-37 | newer than newer is newer |
| BoardSyncRuns.ManualPullsOnlyNew | packages/board-sync-api/src/lintel/board_sync_api/sync_engine.py:28-30 | under the manual strategy the items handed over are as many as the mappings made |
| BoardSyncRuns.PulledItemIsPushedAnew | packages/board-sync-api/src/lintel/board_sync_api/sync_engine.py:91-98 | pushing the local copy of a pulled item appends a second mapping beside the one of the pull, and sends the copy with its own external id: a creation if it has none, an update if it has one |
| RateLimit.SlidingWindow.CountAndAdd | packages/auth-api/src/lintel/auth_api/rate_limit.py:43-48 | expired timestamps go, the new one is added, the length is returned |
| RateLimit.RateLimiter.Dispatch | packages/auth-api/src/lintel/auth_api/rate_limit.py:68-106 | the list kept for every key stays the live part of its full history; a request is exempt exactly if its path starts with an excluded prefix or it comes from a loopback host that may pass; a counted one is rejected exactly if, with it, more requests than the limit of its kind fall in the 60 seconds up to it, and else admitted with what remains |
| RateLimit.VerdictByKind | packages/auth-api/src/lintel/auth_api/rate_limit.py:85-106 | the user limit and the requests of its user decide a request that names one, the host limit and those of its host, or of `unknown`, one that does not |
| RateLimit.AdmissionBound | packages/auth-api/src/lintel/auth_api/rate_limit.py:82-101 | in every half-open interval of 60 seconds no key is admitted more often than its limit, for any interleaving of keys |
| RateLimit.AdmissionBoundByKind | packages/auth-api/src/lintel/auth_api/rate_limit.py:85-101 | so a user never more often than the user limit, and a host without a user never more often than the host limit, counted as sets of requests |
| RateLimit.PruneAgain | packages/auth-api/src/lintel/auth_api/rate_limit.py:45-47 | pruning the already pruned list loses nothing that pruning the full one keeps |
| RateLimit.SinceCounts | packages/auth-api/src/lintel/auth_api/rate_limit.py:45-48 | the length returned is the number of requests of the key, admitted or not, in the window ending now |
| RateLimit.OtherKeysDoNotMatter | packages/auth-api/src/lintel/auth_api/rate_limit.py:85-95 | leaving all other keys out of the history does not change a decision |
| History.MessageHistoryManager.SplitSystem | packages/agents/src/lintel/agents/history.py:173-185 | the longest run of leading system messages, and the rest |
| History.MessageHistoryManager.TrimToTokenBudget | packages/agents/src/lintel/agents/history.py:187-194 | the loop drops from the front until the estimate fits |
| History.MessageHistoryManager.FormatForSummary | packages/agents/src/lintel/agents/history.py:45-53 | the messages with content, each with its role in brackets before it, joined by newlines |
| History.SummaryIsSaid | packages/agents/src/lintel/agents/history.py:134-157 | there is no summary if the text is short or the callback raises; otherwise its answer under the heading, or, without a callback, the notice with the decimal number of evicted messages |
| History.MessageHistoryManager.ApplyTo | packages/agents/src/lintel/agents/history.py:97-171 | one application, from the input alone, for any answer of the callback: how many messages are evicted, the text the callback is asked to summarise, what the summary says, which suffix is kept, the order of the parts, the number counted, and the estimate |
| History.ApplyIsApplication | packages/agents/src/lintel/agents/history.py:106-171 | the same of the function the other laws are about |
| History.EvictionParts | packages/agents/src/lintel/agents/history.py:106-131 | an eviction takes the input apart into system messages, evicted ones, those dropped for the budget, and the kept suffix; dropped and kept fill the window |
| History.LongestSuffixThatFits | packages/agents/src/lintel/agents/history.py:187-194 | with a positive budget the kept suffix fits and no longer one of the window does; without one the window is kept whole |
| History.TokenLimit | packages/agents/src/lintel/agents/history.py:106-171 | for every conversation and answer, exactly when the returned estimate is within the limit: if nothing is evicted, when the input is; if the system messages leave a budget, when the summary and the carries fit in what the kept suffix leaves of it; if they leave none, when they meet the limit exactly and all the rest is less than a token |
| History.LimitPassedBySummary | packages/agents/src/lintel/agents/history.py:118-123 | with budget left, an eviction passes the limit by at most the tokens of its summary and two |
| History.TokenBound | packages/agents/src/lintel/agents/history.py:39-42 | without a summary, and with budget left, the estimate is at most one over the limit, and over it exactly if the parts fill the limit and their remainders carry |
| History.ApplyShrinks | packages/agents/src/lintel/agents/history.py:106-171 | with `preserve_system`, an application returns its input or strictly shrinks the body |
| History.Convergence | packages/agents/src/lintel/agents/history.py:106-171 | repeated application, with any answers, is at a fixed point after one application fewer than there are body messages |
| History.OneApplicationSettles | packages/agents/src/lintel/agents/history.py:109-119 | with `preserve_system`, the first application is enough exactly unless the evicted text has 200 characters and its summary does not fail, and the kept messages leave no place for it |
| History.UnpreservedSettles | packages/agents/src/lintel/agents/history.py:106-178 | without `preserve_system`, for any answers: repeated application has settled if and only if the window was over the token limit or some answer led to no summary of what then stood before it |
| History.SummaryNeverSettlesUnpreserved | packages/agents/src/lintel/agents/history.py:136-146 | with a callback that always answers: it has settled if and only if the window was over the limit, the evicted text was short, or an answer before the last had fewer than 148 characters |
| History.NoticeSettlesUnpreserved | packages/agents/src/lintel/agents/history.py:152-159 | without a callback three applications are always enough |
| ToolLoop.ExecuteStep | packages/agents/src/lintel/agents/runtime.py:254-423 | for any model and tools: how many iterations, at most the limit and one model call more; the loop went on exactly while an answer asked for tools; the transcript records every iteration; the reply is the answer to all of it; and the token totals are the sums over all calls |
| ToolLoop.TranscriptFollowsProtocol | packages/agents/src/lintel/agents/runtime.py:310-355 | read by the tool protocol, the transcript leaves no call open: every tool call has exactly one reply with its id, in order, before anything else is said |
| ToolLoop.TranscriptRecords | packages/agents/src/lintel/agents/runtime.py:310-355 | read off the transcript: each iteration is the answer given to exactly what stands before it, followed for its k-th call by what the tool returned for that call, and nothing else is there |
| HashChain.HashChainAuditStore.Add | packages/audit-api/src/lintel/audit_api/hash_chain.py:45-60 | the entry is chained to the tip, and the store keeps a linked chain, its tip hash, and an index of it |
| HashChain.HashChainAuditStore.Get | packages/audit-api/src/lintel/audit_api/hash_chain.py:62-63 | the last chained entry with the id, or none if there is none |
| HashChain.HashChainAuditStore.VerifyChain | packages/audit-api/src/lintel/audit_api/hash_chain.py:78-96 | valid exactly if every link holds; otherwise the id of the first entry whose link does not |
| HashChain.AcceptedChainsAgree | packages/audit-api/src/lintel/audit_api/hash_chain.py:78-96 | with a collision-free hash, two accepted chains with the same links agree on all contents but possibly the last |
| HashChain.RewriteDetected | packages/audit-api/src/lintel/audit_api/hash_chain.py:83-91 | with the links left alone, a rewritten entry goes unnoticed exactly in the last place |
| HashChain.RewriteWithLinkUnnoticed | packages/audit-api/src/lintel/audit_api/hash_chain.py:35-43 | for any hash, any entry but the last and any content: rewriting it together with the next link goes unnoticed exactly if that link is the hash of the new content |
| HashChain.AcceptedExactlyIfBuilt | packages/audit-api/src/lintel/audit_api/hash_chain.py:45-96 | a chain is accepted if and only if it is the one the store would have built from its contents |
| HashChain.RemovalDetected | packages/audit-api/src/lintel/audit_api/hash_chain.py:83-91 | a removed entry goes unnoticed exactly if it was last or hashes to what its successor had to carry anyway, for any hash |
| HashChain.TruncationUnnoticed | packages/audit-api/src/lintel/audit_api/hash_chain.py:83-96 | every prefix of an accepted chain is accepted |
| Sessions.InMemorySessionStore.CreateSession | packages/auth-api/src/lintel/auth_api/store.py:47-51 | the three maps after a session is created |
| Sessions.InMemorySessionStore.GetByJti | packages/auth-api/src/lintel/auth_api/store.py:56-60 | the session the token id leads to, if any |
| Sessions.InMemorySessionStore.ListForUser | packages/auth-api/src/lintel/auth_api/store.py:62-64 | the stored sessions of the ids indexed for the user, in order |
| Sessions.ListIsCreated | packages/auth-api/src/lintel/auth_api/store.py:47-64 | in every run that reuses no id, a user's list has exactly the sessions created for that user, revoked ones included, in the order they were created, each as created but for its revocation |
| Sessions.InMemorySessionStore.RevokeOne | packages/auth-api/src/lintel/auth_api/store.py:66-75 | revokes the session and reports whether it existed |
| Sessions.InMemorySessionStore.RevokeAllForUser | packages/auth-api/src/lintel/auth_api/store.py:77-83 | the state after all indexed sessions are revoked, and how many existed |
| Sessions.IndexesAgree | packages/auth-api/src/lintel/auth_api/store.py:42-83 | in every run that reuses no id: the ids indexed for a user are exactly those of that user's sessions, each once, and a token id leads to the one session carrying it |
| Sessions.RevokeAllExact | packages/auth-api/src/lintel/auth_api/store.py:77-83 | exactly that user's sessions are revoked, and the count is the number of them |
| Sessions.RevocationIsFinal | packages/auth-api/src/lintel/auth_api/routes.py:161-165 | a refused token stays refused after every later operation if and only if no session is created under its token id or session id again |
| Sessions.RefusedForGood | packages/auth-api/src/lintel/auth_api/routes.py:161-165 | in a run that reuses no id, a token refused once is refused in every later state |
| Sessions.RevokedForGood | packages/auth-api/src/lintel/auth_api/store.py:66-75 | in such a run, the token of a revoked session is refused in every state from the revocation on |
| Kanban.GetKanbanView | packages/boards/src/lintel/boards/routes.py:309-339 | the board's columns by position, in board order where it is the same; a column whose id a later one has is empty; any other lists its items by position, and at each position those with one of the tags, in the order given |
| Kanban.ViewMeetsContract | packages/boards/src/lintel/boards/routes.py:309-339 | the same of any list of columns that meets the specification the other laws are about |
| Kanban.EachItemOnce | packages/boards/src/lintel/boards/routes.py:316-333 | an item whose column is on the board is in exactly one column, as often as given, and any other item in none, even with duplicate column ids |
| Kanban.ColumnsListInStableOrder | packages/boards/src/lintel/boards/routes.py:330-333 | a column lists its items by position, those at one position in the order given |
| Kanban.ColumnsInStableOrder | packages/boards/src/lintel/boards/routes.py:320-327 | the columns come by position, those at one position in board order |
| Kanban.TaggedCounts | packages/boards/src/lintel/boards/routes.py:310-312 | the tag filter keeps exactly the items with one of the tags |
| Kanban.SortedExact | packages/boards/src/lintel/boards/routes.py:320 | the sort used is in order, a permutation, and stable |
| BotManager.BotLifecycleManager.StartOne | packages/bot-runtime/src/lintel/bot_runtime/manager.py:114-170 | nothing changes if the store does not have the bot; otherwise it is managed on its platform, connected exactly if the factory returned an adapter and failed if not; a connected bot on Slack or Telegram is registered with that adapter, and any other is not registered, if it was in step before |
| BotManager.BotLifecycleManager.StopOne | packages/bot-runtime/src/lintel/bot_runtime/manager.py:177-195 | the bot and its registration are gone; whether it was managed |
| BotManager.BotLifecycleManager.HandleBotUpdated | packages/bot-runtime/src/lintel/bot_runtime/manager.py:212-229 | a bot stored as active ends as a start leaves it, any other is gone with its registration; no other bot or registration changes |
| BotManager.BotLifecycleManager.ReconnectOne | packages/bot-runtime/src/lintel/bot_runtime/manager.py:250-262 | a managed bot the store has ends as a start leaves it; one the store does not have is marked as reconnecting and stays so; for any other nothing changes |
| BotManager.BotLifecycleManager.StopThemAll | packages/bot-runtime/src/lintel/bot_runtime/manager.py:103-108 | stopped in any order, none stays managed, and exactly the registrations of managed bots go |
| BotManager.RegistryAgrees | packages/bot-runtime/src/lintel/bot_runtime/manager.py:114-262 | after every operation of a run a bot is registered exactly if it is managed, connected and on a platform with a channel, if and only if no reconnection meets a registered bot gone from the store |
| BotManager.StepInStep | packages/bot-runtime/src/lintel/bot_runtime/manager.py:250-262 | the same for one operation, in both directions |
| BotManager.StopAllExact | packages/bot-runtime/src/lintel/bot_runtime/manager.py:103-108 | from any state, stopping all clears the bot registrations if and only if every registered bot is managed |
| BotManager.RunAccounts | packages/bot-runtime/src/lintel/bot_runtime/manager.py:114-262 | every operation keeps that, stranding reconnections included |
| BotManager.StopAllClears | packages/bot-runtime/src/lintel/bot_runtime/manager.py:103-108 | after any run, stopping all leaves no managed bot, no bot registration, and every other registration as it was before the run |

## Left out

- Every operation is one step: interleavings at await points inside a scheduler fire, a sync, or a bot start or stop are not modelled.
- Callbacks that raise: the fire, skip and cancel callbacks of the scheduler are taken to return.
- Manual automation triggers bypass the scheduler; their runs are not among those fired here, though their completions may arrive.
- Mappings created by hand through the board sync routes are not steps of the runs in `BoardSyncRuns`.
- Clock arithmetic uses exact numbers: rounding in `now - 60.0` is not modelled.
- The scheduler's cron parser, event dispatch and store are inputs; so is the latest cron occurrence.
- The input scanner and boundary markers of the prompt firewall, the PII scanner, cost computation and the dispatch of a tool call to its server are not modelled.
- The mapping and work-item dictionaries keep the fields the algorithms read; other fields travel as one opaque body.
- Board sync configurations hold a known direction and strategy; other strings in those fields are not modelled.
- BotManager.BotLifecycleManager.StartOne: health is a value, not an object shared with callers, so heartbeats, error texts and attempt counters are not captured, and neither is the delay before a reconnection.
- Starting all stored bots is a sequence of starts, and is not modelled on its own.
- Kanban.GetKanbanView: columns are addressed by index, so the sharing of a column object between the lookup and the list is not captured.
- Sessions: creation and expiry times, user agent and address are not kept; an unknown token id passes the revocation check, as in the source.
- HashChain: exporting and listing entries are not modelled.
- Routing, request models, databases, object storage, chat platforms and the rest of the user interface are not part of this model.
