# A verified model of the durable stores and retry engines of fin-analyse

fin-analyse reads a teacher's articles, tags them, asks language models about
them and hands the results on. It keeps its durable state in small hand-written
stores and reaches its models through bounded retry loops. This project models
those stores and loops and proves what a user of them relies on.

| file | what it models |
|---|---|
| `Text.dfy` | characters, white space, Python's `strip` and substring test |
| `TagRows.dfy` | rows of the tag sidecar, the text they are written as, what is read back of it, and the last-write-wins overlay |
| `TagLog.dfy` | the tag sidecar as a concurrent system: appenders and compactors over paths, inodes and a directory lock |
| `TagRuns.dfy` | what each operation of that system comes to when no other process moves meanwhile |
| `TagCap.dfy` | how many manual tags the runs of that system can give an article |
| `TagStore.dfy` | the same log used by one process: admission, tombstones, compaction, the reconciler |
| `Retag.dfy` | what requests and passes of the reconciler do to the tags in force |
| `ArtifactPair.dfy` | the deep-read artifact pair: two files replaced one after the other, read without a lock |
| `Breaker.dfy` | the circuit breaker over backends |
| `Completion.dfy` | the unbounded and the bounded completion loop of the OpenAI-compatible backend |
| `Replies.dfy` | the same loops, said of the replies alone: which is returned, which is tried again, which failure is reported |
| `Escalation.dfy` | the escalation loop of the thesis extractor over the chain of backends |
| `Inbox.dfy`, `Push.dfy` | the adjudication inbox (items, event log, ledger of sends) and the daily push |
| `Capture.dfy` | the capture-folder consumer: inspection, selection, the importing pass, sequences of passes |
| `Queue.dfy` | the same queue, said of the files of the runs: which runs wait, and what polls and requested passes leave |
| `Slots.dfy` | the consumer's deadline and the poller's calendars |
| `Framing.dfy`, `Outbox.dfy` | UTF-8 newline framing of a JSONL log, and the two deduplicated outboxes on top of it, with crashes |
| `Dispatch.dfy` | the dispatch health check over jobs and status lines |
| `MacroIndex.dfy` | the in-place merge of the macro index |
| `MacroLaws.dfy` | what an update leaves in the file and reports, said of the rows, the rules and the entries before |
| `Execution.dfy` | the publication fence and the bounded executor |
| `Evidence.dfy`, `RuleUnits.dfy` | the verbatim-evidence check and the rule families that quote sentences |

Concurrent parts are state machines: a step function over events, a run over any
sequence of events (a step that is not enabled changes nothing), an invariant,
and theorems over every run. Objects that the program updates are classes whose
methods are proved against functions; the theorems are about those functions.
An outside party (a model, a platform, an importer, the clock of a request) is an
arbitrary function or an arbitrary event, so the theorems hold whatever it does.

Where the program does not do what its own comments say, the code is modelled as
it is, and the lemmas say when it does:

- The comment at `fin_analyse/claims/openai_backend.py:187-189` says a filtered
  request is never retried; lines 315 and 451 overwrite that mark, and a filtered
  request with a retryable status goes out three times.
- The comment at lines 25-27 of the same file says an empty reply doubles the
  token limit at most once; over all providers and endpoint lists that holds
  exactly from a configured limit of 4096 on.
- The tag sidecar too is read with `splitlines`, while its rows are written as JSON
  that leaves U+0085, U+2028 and U+2029 as they are. A row holding one of them is
  answered "added", is never in force, can be added without end, and leaves the
  file at the next compaction; all other rows behave as documented.
- The documented limit of ten manual tags an article holds for one tagger; k
  taggers whose count checks race reach 9 + k.
- The comment at `fin_analyse/adjudication/push.py:120-121` says what opened before
  a send is in its digest; it is not exactly when the opening was committed after
  the digest was listed, whenever its clock was read.
- `fin_analyse/cognition/priority_articles.py:1081` says a job is failed when its
  latest status is; an earlier acknowledgement makes it completed all the same.
- The JSONL outboxes split records with Python's `splitlines`, which breaks at
  three characters that JSON does not escape. Whatever is in the file, a row with
  such a character is forgotten by the event outbox, which accepts it over and
  over, and closes the job outbox to every later append.
- An importer that exits with 4 and reports nothing is recorded as a partial
  success, although every other success has to name its artifact.
- A macro-index entry stores at most 160 characters of its title and a count for
  a missing list of companies, so a later rules version can judge the entry
  differently from its row; the exact condition is in `MacroIndex.dfy`.

## Model

| member | source | states |
|---|---|---|
| Text.StripIs | fin_analyse/cognition/article_tags.py:299-300 | what trimming leaves, given the white space around it |
| Text.WhiteSpaceIs | fin_analyse/cognition/article_tags.py:299-300 | the characters that trimming removes |
| TagRows.SidecarIsLawful | fin_analyse/cognition/article_tags.py:166-261 | in a file that ends in a line break, an appended row is read back exactly when none of its texts holds U+0085, U+2028 or U+2029, and all other rows are read as before |
| TagRows.AppendedRowIsRead | fin_analyse/cognition/article_tags.py:166-261 | the same for one text and one row, from the splitting of the text into lines |
| TagRows.TornTailSwallowsTheRow | fin_analyse/cognition/article_tags.py:237-390 | behind a torn tail even a plain row is not read back: the append does not look for one |
| TagRows.DumpReads | fin_analyse/cognition/article_tags.py:398-432 | what a compaction writes reads back as its plain rows |
| TagRows.TornLinesChangeNothing | fin_analyse/cognition/article_tags.py:237-261 | torn lines anywhere in a file change nothing of what is read |
| TagRows.RowsAndTornLines | fin_analyse/cognition/article_tags.py:237-261 | every line with something on it is read as a row or counted as torn |
| TagRows.LostTombstoneRevivesItsTag | fin_analyse/cognition/article_tags.py:263-432 | a compaction loses a tombstone that some other writer wrote with an escaped separator, and its tag is in force again |
| TagLog.AcknowledgedRowsStay | fin_analyse/cognition/article_tags.py:369-432 | in every interleaving of appenders and compactors, with crashes between their steps and whatever rows the file held at first, a row whose append returned "added" is in the file at the path from then on exactly when it is plain, unless it was there before; the plain ones keep the order of the acknowledgements |
| TagLog.OpeningEarlyLosesARow | fin_analyse/cognition/article_tags.py:369-394 | with the path opened before the lock is taken, a run exists in which an acknowledged row is nowhere in the file: the order of the two calls is what the theorem rests on |
| TagRuns.ContentIsAdmitted | fin_analyse/cognition/article_tags.py:281-332 | undisturbed, a rule's row gets through exactly when its tag is not in force, or is in force by a rule that is to be replaced |
| TagRuns.ManualIsAdmitted | fin_analyse/cognition/article_tags.py:281-332 | a row by hand gets through exactly when its tag is not in force, has at most 24 characters and is not the eleventh by hand |
| TagRuns.RemovalIsAdmitted | fin_analyse/cognition/article_tags.py:335-360 | a tombstone gets through exactly when its tag is in force, and takes over its dimension |
| TagRuns.OddRowsAreRefused | fin_analyse/cognition/article_tags.py:281-332 | requests without a text or a rule, or by nobody who may make them, change nothing |
| TagRuns.ThreeTriesAreMade | fin_analyse/cognition/article_tags.py:369-386 | an append takes the lock at the first of three tries that finds it free, and gives up after the third |
| TagRuns.AdmittedRowsAreWritten | fin_analyse/cognition/article_tags.py:369-394 | an admitted row that nobody interrupts is appended to the file at the path, acknowledged, and read back last when it is plain; the lock is free again |
| TagRuns.CompactionsRewrite | fin_analyse/cognition/article_tags.py:398-432 | a compaction that nobody interrupts leaves exactly the rows it read, written out in order, and loses no acknowledgement |
| TagRuns.CompactorsWait | fin_analyse/cognition/article_tags.py:408-413 | a compaction waits for the lock as long as it takes |
| TagRuns.CrashesFreeTheLock | fin_analyse/cognition/article_tags.py:369-432 | a process that dies frees its lock, and what it wrote stays |
| TagCaps.ManualTagsAreCapped | fin_analyse/cognition/article_tags.py:281-441 | with k taggers whose checks read outside the lock, in a file of plain rows, an article never has more than 9 + k effective manual tags; ten with one tagger |
| TagCaps.TaggersReachTheCap | fin_analyse/cognition/article_tags.py:281-394 | the bound is met for every k: from nine tags, k taggers that all check before any of them writes leave 9 + k |
| TagStores.TagStore.ReadRows | fin_analyse/cognition/article_tags.py:237-261 | splits the text into lines, skips blank ones, and returns the decodable rows in order and the number of torn lines |
| TagStores.TagStore.EffectiveWins | fin_analyse/cognition/article_tags.py:263-269 | the last row for each key wins |
| TagStores.TagStore.TagArticle | fin_analyse/cognition/article_tags.py:281-333 | which status a request gets from the effective tags; the row's line is appended exactly when it is "added", and the effective tags then take it up exactly when it is plain |
| TagStores.SecondAddIsSkippedWhenPlain | fin_analyse/cognition/article_tags.py:281-333 | the second of two equal requests is skipped exactly when the first one's row is plain, and else is answered "added" again |
| TagStores.UnplainAddIsLost | fin_analyse/cognition/article_tags.py:281-432 | an unplain row is answered "added" any number of times, changes no effective tag, and is nowhere in the compacted file |
| TagStores.SeparatorTagIsLost | fin_analyse/cognition/article_tags.py:281-441 | a manual tag with U+2028 in the middle, on an empty sidecar: added, added again, and compacted to an empty file |
| TagStores.TagStore.RemoveTag | fin_analyse/cognition/article_tags.py:335-360 | appends a tombstone for exactly that key, which takes effect exactly when it is plain, or says why not |
| TagStores.TagStore.Compact | fin_analyse/cognition/article_tags.py:398-432 | rewrites the rows it read, tombstones included, and drops the torn lines; the rows are as before exactly when all are plain |
| TagStores.Reconcile | fin_analyse/cognition/article_tags.py:970-1067 | visits each target once, up to the first that is not in the index, which only refresh mode can meet; says of each whether its file or a rule was missing; appends the rows of the pass and nothing else |
| TagStores.PassOnlyAdds | fin_analyse/cognition/article_tags.py:1003-1067 | a pass drops no effective tag; what it changes are content rows of the current rule on its own targets |
| TagStores.PassFinishesTargets | fin_analyse/cognition/article_tags.py:1003-1067 | after a pass, asking for a target again appends nothing exactly when the row that the pass wrote for it, if any, is plain |
| TagStores.SecondTargetsWereFirst | fin_analyse/cognition/article_tags.py:985-1030 | whatever a second pass targets, the first one did, and superseding only shrinks |
| TagStores.ReconcileIsIdempotent | fin_analyse/cognition/article_tags.py:970-1067 | a second reconcile with the same index and rules, in either mode and any target order, appends nothing for what the first visited when that wrote plain rows only; without orphans and for ids without outer white space, nothing at all exactly then; an orphan is a target again |
| TagStores.StoreWritesTrimmedKeys | fin_analyse/cognition/article_tags.py:281-333 | tagging keeps every article id free of outer white space, which refresh needs |
| TagStores.UntrimmedIdIsRefreshedTwice | fin_analyse/cognition/article_tags.py:1003-1067 | an id with outer white space written by other means makes refresh append again on the second pass |
| Retags.RequestsAreAnswered | fin_analyse/cognition/article_tags.py:281-333 | the answer to any request from its texts and the tags in force: invalid, skipped or added, with the caps by value |
| Retags.TargetsAreStaleOrBare | fin_analyse/cognition/article_tags.py:985-1003 | the targets are the articles with a content tag of another rule or of the built-in rules in refresh mode, and otherwise those of the index without a content tag |
| Retags.VisitedTargetIsRetagged | fin_analyse/cognition/article_tags.py:1003-1067 | a visited, readable target with a rule has its tag in force afterwards: one by hand or of the current rules stands, any other or none is replaced by the row of the current rules, written once |
| Retags.ReconcileRetags | fin_analyse/cognition/article_tags.py:970-1067 | a reconciliation without orphans does that for every stale or bare article of the index |
| Retags.IndexHoldsTheLast | fin_analyse/cognition/article_tags.py:970-985 | of the index entries under one id the last counts, and none without an id |
| ArtifactPair.EveryPairSeenIsWhole | fin_analyse/cognition/deep_read_artifacts.py:359-413 | in every interleaving of writers and readers, under any file naming, every pair seen has both halves from one generation of exactly the requested article and content |
| ArtifactPair.LoadedPairIsWhole | fin_analyse/cognition/deep_read_artifacts.py:863-937 | whatever two halves a reader combines, a pair that passes its tests is one publication, and not retryable unless that was allowed |
| ArtifactPair.UninterruptedPublicationIsRead | fin_analyse/cognition/deep_read_artifacts.py:359-413 | a publication that no writer of its key interrupts is what the next reader gets; a failed extraction stays hidden |
| ArtifactPair.CrossedPublicationsHideEachOther | fin_analyse/cognition/deep_read_artifacts.py:373-390 | two publications whose replaces cross leave no readable pair |
| ArtifactPair.KeysStayInside | fin_analyse/cognition/deep_read_artifacts.py:205-219 | a file key never leaves its directory, and two ids share one only through a digest |
| ArtifactPair.PairsThatLoad | fin_analyse/cognition/deep_read_artifacts.py:863-937 | from any two files a pair is loaded exactly when both are of the article, the content and the current versions, each in its place, of one generation and time, and fit to be reused |
| ArtifactPair.PublishersWriteBothFiles | fin_analyse/cognition/deep_read_artifacts.py:373-390 | undisturbed, a new publication is in both files and then checked |
| ArtifactPair.WritersAreTold | fin_analyse/cognition/deep_read_artifacts.py:391-413 | a writer whose files no other replaces is told what it wrote: generated when nothing in it is retryable, and else retryable after a second look; with another's half there, failed |
| ArtifactPair.LoadersAreTold | fin_analyse/cognition/deep_read_artifacts.py:863-937 | a loader that no writer disturbs is told the pair when the files are one publication of what it asked for, and else that there is none |
| ArtifactPair.CrashesLeaveTheFiles | fin_analyse/cognition/deep_read_artifacts.py:373-390 | a process that dies leaves the two files as they are |
| Breaker.BackendCircuitBreaker.CanTry | fin_analyse/claims/backend_health.py:42-52 | refuses exactly while a cooldown runs, and forgets a backend whose cooldown is over |
| Breaker.BackendCircuitBreaker.RecordSuccess | fin_analyse/claims/backend_health.py:54-55 | the table stays the replay of all calls |
| Breaker.BackendCircuitBreaker.RecordFailure | fin_analyse/claims/backend_health.py:57-63 | the table stays the replay of all calls, and the new state is returned |
| Breaker.BackendsAreIndependent | fin_analyse/claims/backend_health.py:42-63 | a backend's state is the fold of its own history |
| Breaker.StateSummarisesFailures | fin_analyse/claims/backend_health.py:57-63 | a recorded count is the failures since some point with no success after it, and the cooldown is counted from the last of them |
| Breaker.RefusalLiesInCooldown | fin_analyse/claims/backend_health.py:42-63 | a refusal comes less than the cooldown after a failure that was at least the threshold-th in a row |
| Breaker.FailuresInARowBlock | fin_analyse/claims/backend_health.py:42-63 | conversely, enough failures in a row refuse every probe within the cooldown |
| Breaker.CountsStartAfresh | fin_analyse/claims/backend_health.py:42-63 | after a success, or a probe at the end of a cooldown, nothing is refused before the threshold-th new failure, whatever probes come in between, and that one refuses exactly the probes in its cooldown |
| Completion.OpenAICompatibleBackend.RunComplete | fin_analyse/claims/openai_backend.py:230-337 | the loop makes the requests, text and last failure of the specification, and exactly one breaker record, of the right kind |
| Completion.OpenAICompatibleBackend.TryEndpoint | fin_analyse/claims/openai_backend.py:259-323 | the attempts on one endpoint |
| Completion.OpenAICompatibleBackend.RunBounded | fin_analyse/claims/openai_backend.py:339-494 | finished: same requests, text, failure and record as the unbounded loop, by the deadline; out of budget: a prefix of its requests, one failure record; every request starts before the deadline and must end by it; with enough budget it never runs out |
| Completion.OpenAICompatibleBackend.Chain | fin_analyse/claims/openai_backend.py:356-494 | the endpoints in order within the budget: the unbounded trace by the deadline, or a prefix of its requests |
| Completion.OpenAICompatibleBackend.TryBounded | fin_analyse/claims/openai_backend.py:380-470 | the same for one endpoint |
| Completion.OpenAICompatibleBackend.TakeBounded | fin_analyse/claims/openai_backend.py:380-466 | the same for one attempt, with the time it may use |
| Completion.OpenAICompatibleBackend.Ask | fin_analyse/claims/openai_backend.py:382-409 | a request waits for the callback and is given the least of what is left, the wire timeout and the backend's own |
| Completion.OpenAICompatibleBackend.Pause | fin_analyse/claims/openai_backend.py:454-466 | a pause never reaches past the deadline |
| Completion.RequestsAreBounded | fin_analyse/claims/openai_backend.py:24-337 | at most three requests an endpoint, no two alike, endpoints in order, each token limit kept or doubled, never below the configured one nor doubled past 16384 |
| Completion.CompleteFollowsTheSchedule | fin_analyse/claims/openai_backend.py:234-323 | each request retries the endpoint before it or starts a later endpoint afresh |
| Completion.CompletionIsFaithful | fin_analyse/claims/openai_backend.py:259-300 | what is returned is the usable reply to the last request, and no usable reply was passed over |
| Completion.FailureIsTheLastEndpoints | fin_analyse/claims/openai_backend.py:322-337 | a failed completion reports a failure of its last endpoint; the placeholder for no failures is never used |
| Completion.RetriesAreCalledFor | fin_analyse/claims/openai_backend.py:259-321 | in every completion a request is followed by another on its endpoint exactly when attempts are left and its reply was truncated below the caps or failed with a retryable status or type |
| Completion.FilteredErrorsAreRetriedByStatus | fin_analyse/claims/openai_backend.py:155-321 | in every completion a request refused by a content filter is sent again exactly when attempts are left and its status or type is retryable |
| Completion.FilteredRequestIsSentThreeTimes | fin_analyse/claims/openai_backend.py:186-321 | a filtered request answered with 500 is sent three times |
| Completion.EmptyRepliesAreDoubledOnce | fin_analyse/claims/openai_backend.py:25-309 | over all providers, whatever else they reply in between, and all endpoint lists: at most one retry on an endpoint follows a reply that ran out of tokens with no text, exactly when the limit is 4096 or more |
| Completion.CompleteIsExplained | fin_analyse/claims/openai_backend.py:259-321 | two requests in a row on one endpoint: the reply between them was truncated and the limit doubled, or a retryable error and the limit kept |
| Replies.CompletionReturnsTheUsableReply | fin_analyse/claims/openai_backend.py:143-300 | a completion has an answer exactly when the reply to its last request did not stop at the limit, is not empty, and ends in a bracket or fence if it holds one, right-trimmed; it is that reply's text, and no earlier reply was such |
| Replies.RetriesFollowTheReplies | fin_analyse/claims/openai_backend.py:154-321 | a request is followed by another on its endpoint exactly when it was not the third and its reply was cut off below the caps, had one of the statuses 408, 409, 429 and 500 on, or had none and one of six error types; the limit is kept after an error and else doubled up to 16384 |
| Replies.FailureNamesTheReplies | fin_analyse/claims/openai_backend.py:294-337 | the whole failure that a failed completion reports, from the last endpoint and its replies |
| Replies.EndpointsAreAskedInTurn | fin_analyse/claims/openai_backend.py:234-262 | every endpoint with a client is asked with the configured limit until one has the answer; no other is |
| Escalation.Extract | fin_analyse/cognition/thesis_extractor.py:623-712 | the loop with its flag and list ends in the outcome of the specification |
| Escalation.FourCallsABackend | fin_analyse/cognition/thesis_extractor.py:634-676 | no backend is called more than four times, whatever it answers |
| Escalation.NoUnitsIsNeverAFailure | fin_analyse/cognition/thesis_extractor.py:634-730 | "no extractable units", which is not retried, is reported exactly when the last reply gave a reason, or every reply was bare and none had a backend failure behind it |
| Escalation.FailuresAreRetried | fin_analyse/cognition/thesis_extractor.py:662-695 | when all replies are bare, a failure behind one is reported as retryable; units are never passed over |
| Escalation.CallsFollowTheAnswers | fin_analyse/cognition/thesis_extractor.py:623-712 | the calls are exactly those that the answers call for: the same prompt again after the first unusable reply, a nudge after a bare one with no failure behind it, the next backend after any other bare one, and none after anything else; the outcome is the last answer's, with the latest failure behind a bare reply |
| Inboxes.AdjudicationInbox.Reconcile | fin_analyse/adjudication/inbox.py:253-337 | which text is missing, or what the truth makes of its item: open exactly when pending, with the content given last, closed by the producer otherwise, each change logged once and nothing else touched; the items stay the replay of the log |
| Inboxes.AdjudicationInbox.ResolveItem | fin_analyse/adjudication/inbox.py:341-374 | succeeds exactly on an open item, closes and logs that one alone, and keeps the items the replay of the log |
| Inboxes.AdjudicationInbox.RecordSent | fin_analyse/adjudication/inbox.py:439-451 | adds the send unless day and fingerprint are there already |
| Inboxes.AdjudicationInbox.LastSentAt | fin_analyse/adjudication/inbox.py:432-437 | the latest send of a day, if there is one |
| Inboxes.AdjudicationInbox.HasTransitionSince | fin_analyse/adjudication/inbox.py:453-462 | whether some submit or reopen event is at or after a time |
| Inboxes.EveryRunIsReplay | fin_analyse/adjudication/inbox.py:253-374 | over every run and any clock: the items table is the replay of the log; an item's events spell submit, then resolve and reopen in turn; status, reopen count, opening and resolution times and note are what they say |
| Inboxes.TableIsReplay | fin_analyse/adjudication/inbox.py:188-374 | the same, for any consistent store and item |
| Inboxes.LawfulLogsSpellLives | fin_analyse/adjudication/inbox.py:253-374 | the language of an item's events, from the step-by-step rules |
| Inboxes.ReplaysAddNoEvent | fin_analyse/adjudication/inbox.py:253-337 | saying the same truth again, with any content and time, adds no event and leaves every item's life alone |
| Inboxes.ReconcilingKeepsTheTruth | fin_analyse/adjudication/inbox.py:253-337 | the same of the operation on values: status, content, times, counts and events of the item, and every other item and the ledger as before |
| Inboxes.CallsDoWhatTheySay | fin_analyse/adjudication/inbox.py:253-374 | each call of a run does that, or closes an open item for its owner, or changes nothing |
| Pushes.Push | fin_analyse/adjudication/push.py:91-158 | which disposition an attempt ends in; the ledger changes exactly when the platform gave a message id, by exactly the digest's fingerprint |
| Pushes.DigestsAreDue | fin_analyse/adjudication/push.py:108-130 | a digest is due exactly when an item is open, these identifiers and titles were not recorded on the day, and something was submitted or reopened at or after every send of the day |
| Pushes.AttemptIsAPush | fin_analyse/adjudication/push.py:91-158 | an undisturbed attempt of the runs writes what one call of the push writes |
| Pushes.AttemptsMayEnd | fin_analyse/adjudication/push.py:131-158 | an attempt may end at any step, and changes nothing when the platform does not take its digest |
| Pushes.CallsAreCommitted | fin_analyse/adjudication/inbox.py:253-374 | a producer's or owner's call is committed as of the clock it read, however late |
| Pushes.SendsAreBounded | fin_analyse/adjudication/push.py:108-158 | in every run with one pusher and a strict clock: recorded fingerprints were confirmed, a day's are distinct, and a day has at most one send more than submit and reopen events after its first |
| Pushes.EveryRunKeeps | fin_analyse/adjudication/push.py:108-158 | the invariant of every interleaving of the pusher's steps with producers and owners, each of which reads its clock first and commits later |
| Pushes.DebouncedItemsWereShown | fin_analyse/adjudication/push.py:117-130 | when a push is debounced, an open item is missing from the day's last digest exactly when its first event committed after that digest was listed is an opening, stamped before the recorded send |
| Pushes.OpeningDuringASendIsHidden | fin_analyse/adjudication/push.py:117-157 | a run in which an opening is stamped before the listing and committed behind it: the item is in no digest and the next push is debounced |
| Capture.CaptureFolder.PendingArtifacts | scripts/consume_zsxq_capture_folder.py:349-417 | the selection in poller and in requested mode |
| Capture.CaptureFolder.StopAfter | scripts/consume_zsxq_capture_folder.py:779-802 | the result of the candidate, and a blocked result for the requested run behind it |
| Capture.CaptureFolder.ImportAll | scripts/consume_zsxq_capture_folder.py:924-980 | the importing loop: results, exit code and imports, candidate by candidate, up to the first that does not succeed |
| Capture.CaptureFolder.RunPass | scripts/consume_zsxq_capture_folder.py:858-980 | result files, exit code and imports of a whole pass |
| Capture.WrittenResultsAreRead | scripts/consume_zsxq_capture_folder.py:420-513 | every result written for a candidate is read back as that result |
| Capture.NextLookSeesTheResult | scripts/consume_zsxq_capture_folder.py:310-346 | after a write the run is found corrupt exactly when its summary carries another result's digest and does not call that one retryable |
| Capture.ExitsAreProven | scripts/consume_zsxq_capture_folder.py:813-855 | success exactly when the importer proves it landed this artifact; partial success likewise, or exit 4 without any report; other failures are passed on, and a duplicate is never reported as one |
| Capture.SelectIsWellChosen | scripts/consume_zsxq_capture_folder.py:349-417 | the chosen runs are unfinished, in order, the requested one last, and every other eligible run before it is final |
| Capture.FinalResultsAreKept | scripts/consume_zsxq_capture_folder.py:858-980 | no pass overwrites or imports again a run with a final result, and every write is one its reader accepts |
| Capture.ReadyComesInOrder | scripts/consume_zsxq_capture_folder.py:349-980 | when a run becomes ready, no earlier run from the cutover on is corrupt and every eligible one has a final result |
| Capture.FinalIsForever | scripts/consume_zsxq_capture_folder.py:858-980 | over every sequence of passes and changes to the folder, a final result stays and its run is never imported again |
| Capture.PollsMakeProgress | scripts/consume_zsxq_capture_folder.py:371-980 | each poll with an outcome that is not retryable leaves exactly one unfinished run less |
| Capture.QueueDrains | scripts/consume_zsxq_capture_folder.py:371-980 | n polls of a tidy folder with a deciding importer leave exactly n unfinished runs less, down to none |
| Queues.RunsThatWait | scripts/consume_zsxq_capture_folder.py:225-346 | from the files alone: a run waits exactly when it is a new or legacy capture without a result, or its result asks for another try; it is passed over exactly when nothing can be lost with it |
| Queues.RunsThatAreFinished | scripts/consume_zsxq_capture_folder.py:225-346 | a run has a final result exactly when the result fits its capture and the summary does not contradict it |
| Queues.RunsAreLookedAt | scripts/consume_zsxq_capture_folder.py:225-346 | a run that neither waits, nor is finished, nor harmless is found corrupt |
| Queues.ArrivedRunsDrain | scripts/consume_zsxq_capture_folder.py:349-980 | a folder of new and legacy captures is tidy; each poll with a deciding importer hands it the next run, and n polls leave the first n runs their results, final and field by field |
| Queues.RequestCatchesUp | scripts/consume_zsxq_capture_folder.py:371-980 | a requested pass whose imports all land makes every run from the cutover up to the requested one ready, in order |
| Queues.RequestStopsAtAFailure | scripts/consume_zsxq_capture_folder.py:371-980 | the first run that does not land stops a requested pass: the results of the runs before it, its own, and the blocked one of the requested run |
| Queues.PollsThatImportNothing | scripts/consume_zsxq_capture_folder.py:858-980 | the exit code of every poll that imports nothing, and that it writes nothing |
| Queues.RequestsThatImportNothing | scripts/consume_zsxq_capture_folder.py:858-980 | the exit code and the writes of every requested pass that imports nothing |
| Queues.RequestsForOtherRuns | scripts/consume_zsxq_capture_folder.py:275-417 | a request for an absent run, or for a capture of another commit |
| Queues.UnprovenExitsFail | scripts/consume_zsxq_capture_folder.py:813-855 | what every exit and report that is no proven success comes to |
| Queues.FoldersMayChange | scripts/consume_zsxq_capture_folder.py:858-980 | between passes the folder may become any sorted one that keeps the final results |
| Slots.EffectiveDeadline | scripts/consume_zsxq_capture_folder.py:55-78 | the configured budget, cut to end a minute before the true next slot, but never below 900 seconds |
| Slots.PollerTimerCalendars | scripts/zsxq_windows_incremental_scheduler.py:450-476 | the calendars of every slot, in order |
| Slots.CalendarsCoverTheWindows | scripts/zsxq_windows_incremental_scheduler.py:450-476 | the calendars fire at a minute of the day exactly when it is one of the 31 from some slot on |
| Slots.WindowsEndBeforeMidnight | scripts/zsxq_windows_incremental_scheduler.py:465-475 | all expressions of a slot are valid exactly when its window ends before midnight |
| Slots.PollerRunsInTheWindows | scripts/zsxq_windows_incremental_scheduler.py:50-476 | the minutes of the day at which the poller of the six capture times runs |
| Framing.DecodingInvertsEncoding | fin_analyse/cognition/priority_articles.py:33-47 | strict UTF-8: bytes decode to a text exactly when they are its encoding |
| Framing.LogRoundTrips | fin_analyse/cognition/priority_articles.py:33-47 | reading a log gives back its records exactly when none holds U+0085, U+2028 or U+2029 |
| Framing.JsonTextIsCleanBut | fin_analyse/cognition/priority_articles.py:33-47 | those three are the line breaks that JSON text can hold (section 7 of RFC 8259) |
| Framing.CharsAreEncoded | fin_analyse/cognition/priority_articles.py:33-47 | the bytes of each character are those of section 3 of RFC 3629 |
| Framing.LinesEnd | fin_analyse/cognition/priority_articles.py:42-47 | a line ends at each of Python's line breaks, a carriage return and a newline being one |
| Framing.PrefixIsRecords | fin_analyse/cognition/priority_articles.py:42-52 | the committed part of any byte prefix of a log is a whole number of its records, and the prefix is torn exactly when there is more |
| Framing.PrefixReadsAsPrefix | fin_analyse/cognition/priority_articles.py:42-148 | reading any byte prefix of a clean log gives a prefix of its records |
| Framing.AppendAfterCrash | fin_analyse/cognition/priority_articles.py:50-195 | after a crash an append adds one record to whole records, or is refused |
| Outboxes.Outbox.ReadIdentities | fin_analyse/cognition/priority_articles.py:704-723 | the identities by key of a file, or the first error |
| Outboxes.Outbox.Append | fin_analyse/cognition/priority_articles.py:725-739 | what an append answers, and that the file changes exactly by its frame when it answers true |
| Outboxes.AppendsAreJudged | fin_analyse/cognition/priority_articles.py:704-739 | the answer to an append to any file, from its lines: refused when torn, undecodable, not all records (strict) or not one row a key; added exactly when no record has the key |
| Outboxes.CrashesLeaveAPrefix | fin_analyse/cognition/priority_articles.py:725-739 | an append that dies leaves the first bytes of its frame |
| Outboxes.OutboxRefinesTable | fin_analyse/cognition/priority_articles.py:697-739 | over every sequence of locked appends, some cut short by a crash, the bytes refine a table of rows: same answers, same rows |
| Outboxes.AppendsAreExactlyOnce | fin_analyse/cognition/priority_articles.py:725-773 | after the append that returned true for a key, an equal one is a duplicate whatever its creation time, another a conflict, and after a torn write all are refused |
| Outboxes.ReadersFindEveryRowOnce | fin_analyse/cognition/priority_articles.py:741-761 | the readable rows have distinct keys and include every row whose append returned true |
| Outboxes.RetryIsRecognisedWhenClean | fin_analyse/cognition/priority_articles.py:355-386 | whatever is in the file, the skipping outbox recognises a retry of the row it just wrote exactly when the row's JSON holds none of the separators; otherwise that row changes no later answer |
| Outboxes.SeparatorRowIsForgotten | fin_analyse/cognition/priority_articles.py:355-386 | a row with a separator is accepted any number of times, and no append sees it |
| Outboxes.SeparatorClosesTheStrictOutbox | fin_analyse/cognition/priority_articles.py:704-739 | whatever is in the file, such a row closes the strict outbox to every later append |
| Dispatch.CheckHealth | fin_analyse/cognition/priority_articles.py:1072-1214 | the grouped, reversed and counted loops give the health of the specification |
| Dispatch.GroupHoldsTheBound | fin_analyse/cognition/priority_articles.py:1102-1127 | grouping by job id and then matching in full is matching in full |
| Dispatch.CompletedMeansAcknowledged | fin_analyse/cognition/priority_articles.py:907-1150 | completed exactly when some entry names the job in full and is a Hermes acknowledgement to Feishu |
| Dispatch.FailedMeansLatestFailed | fin_analyse/cognition/priority_articles.py:1072-1165 | failed exactly when the latest entry is and no entry is an acknowledgement |
| Dispatch.ForeignEntriesChangeNothing | fin_analyse/cognition/priority_articles.py:907-1127 | an entry that does not name the job in full changes nothing for it, even under its job id |
| Dispatch.TotalsAddUp | fin_analyse/cognition/priority_articles.py:1128-1214 | each job is in exactly one class, and something waits exactly when some job is neither completed nor failed |
| Dispatch.CompletedNeverFalls | fin_analyse/cognition/priority_articles.py:1128-1150 | appending lines never lowers the completed count |
| Dispatch.BadLinesOnlyCount | fin_analyse/cognition/priority_articles.py:987-1009 | an unreadable line changes the bad count and nothing else |
| Dispatch.JobsAreReported | fin_analyse/cognition/priority_articles.py:1128-1214 | each job in the report, from the last line that acknowledges it or else the last that names it |
| Dispatch.ReportFollowsDetails | fin_analyse/cognition/priority_articles.py:1128-1214 | the totals and the three lists of ids follow from the jobs' classes |
| MacroIndex.MacroStore.Update | fin_analyse/cognition/macro_index.py:181-332 | the three loops give the merged file and its counters; a busy lock changes nothing |
| MacroIndex.UpdatedEntries | fin_analyse/cognition/macro_index.py:224-329 | after any update no id is excluded, manual entries are kept ids, every version is current, and a rule entry was there before or requested |
| MacroIndex.CountersAddUp | fin_analyse/cognition/macro_index.py:224-332 | entries after are entries before plus tagged minus removed |
| MacroLaws.RowsThatBelong | fin_analyse/cognition/macro_index.py:90-133 | which rows belong in the index, under which source, reason and terms |
| MacroLaws.BaselineIsEntered | fin_analyse/cognition/macro_index.py:263-329 | an update of a file without a baseline enters every kept or daily row that is not excluded, made from the row; nothing else is new unless requested; the stamps of the file |
| MacroLaws.RequestedRowsAreJudged | fin_analyse/cognition/macro_index.py:283-316 | a requested row has an entry afterwards exactly when it belongs there and is not excluded |
| MacroLaws.RequestedEntriesAreReplaced | fin_analyse/cognition/macro_index.py:283-316 | a requested entry stays when it says what its row is judged as, and is otherwise made anew from the row |
| MacroLaws.OtherEntriesAreReviewed | fin_analyse/cognition/macro_index.py:224-261 | when an entry that was not requested stays, and what changes of it under other rules |
| MacroLaws.OneRequestIsCounted | fin_analyse/cognition/macro_index.py:283-332 | one request is counted once: as tagged, already there, updated or removed |
| MacroIndex.UpdateSettles | fin_analyse/cognition/macro_index.py:224-329 | every update ends in a settled file |
| MacroIndex.NothingToDoMeansSettled | fin_analyse/cognition/macro_index.py:224-332 | an update leaves the file alone exactly when it is settled |
| MacroIndex.UpdatingTwiceIsUpdatingOnce | fin_analyse/cognition/macro_index.py:156-332 | a second update with the same index, rules and ids changes and counts nothing, at any time |
| MacroIndex.SnapshotsClassifyAlike | fin_analyse/cognition/macro_index.py:90-407 | what an entry remembers classifies as its row under all rules with one company threshold, exactly when the row's companies reach it, or the title is uncut and the threshold at least one |
| MacroIndex.ForgottenRowIsRemoved | fin_analyse/cognition/macro_index.py:224-407 | every other row has rules that take it and yet remove its entry |
| MacroIndex.LaterRulesJudgeTheRow | fin_analyse/cognition/macro_index.py:224-269 | a later rules version removes or updates the entry of such a row as it judges the row itself |
| MacroIndex.CutTitleLosesItsTerm | fin_analyse/cognition/macro_index.py:248-400 | an example: a title of 161 characters whose entry the next rules version removes |
| Execution.NothingIsPublishedAfterCancel | fin_analyse/common/execution_control.py:97-123 | once cancel has returned no thread is or gets inside a section that was told it is open; sections never overlap; an open one was asked for in time |
| Execution.UninterruptedPublication | fin_analyse/common/execution_control.py:97-123 | with the lock free a thread gets in and is told that its section is open exactly when nobody cancelled and its time is before the deadline |
| Execution.UninterruptedCancel | fin_analyse/common/execution_control.py:97-103 | with the lock free a cancel sets the flag and returns |
| Execution.PermitsAreConserved | fin_analyse/common/execution_control.py:51-82 | free permits and outstanding submissions add up to the cap in every run, and no permit is given back twice |
| Execution.FreePermitsAreGranted | fin_analyse/common/execution_control.py:51-66 | a submission gets a permit exactly when one is free |
| Execution.SubmissionsGiveBack | fin_analyse/common/execution_control.py:59-82 | whatever the others do meanwhile, a permit comes back when submitting raises, and otherwise once the future is done and its callback attached, in either order |
| Evidence.AcceptedIsVerbatim | fin_analyse/cognition/thesis_extractor.py:369-427 | evidence put together from quotations with a sentence end or a stitch between each two is accepted exactly when each quotation is a connector, a number or a contiguous piece of the cleaned source, and not all are ignored |
| Evidence.EveryEvidenceIsPieces | fin_analyse/cognition/thesis_extractor.py:369-427 | any evidence is such quotations, which are the fragments of the check in order; accepted evidence, cleaned, is nothing but pieces of the source and connectors |
| Evidence.PiecesAreUnique | fin_analyse/cognition/thesis_extractor.py:394-421 | there is one way to cut evidence up at its sentence ends and stitches |
| Evidence.FragmentsAreQuoted | fin_analyse/cognition/thesis_extractor.py:415-421 | substituting the stitches and splitting at sentence ends gives exactly these quotations |
| Evidence.StitchedQuotesAreAccepted | fin_analyse/cognition/thesis_extractor.py:391-427 | two quoted stretches of the source with a stitched connector between are accepted unless both are ignored |
| Evidence.StitchIsCut | fin_analyse/cognition/thesis_extractor.py:394-416 | every closing mark, connector word and opening mark with white space between is cut out whole |
| Evidence.JoinedQuotesAreAccepted | fin_analyse/cognition/thesis_extractor.py:404-427 | any join of verbatim pieces of the source is accepted exactly when it has a real fragment |
| Evidence.FragmentsAreRuns | fin_analyse/cognition/thesis_extractor.py:415-421 | fragments are contiguous runs of the evidence without a sentence end |
| Evidence.StitchCleans | fin_analyse/cognition/thesis_extractor.py:394-396 | what the stitched-quote substitution removes cleans to its connector word |
| Evidence.EvidenceIsJudged | fin_analyse/cognition/thesis_extractor.py:369-427 | acceptance in the source's own connector words and digits |
| Evidence.CutsOfTheSource | fin_analyse/cognition/thesis_extractor.py:390-421 | the sentence ends, quotation marks and connector words that cut evidence up, by value |
| RuleUnits.SentenceContaining | fin_analyse/cognition/thesis_extractor.py:122-132 | the loops find the sentence of the specification |
| RuleUnits.SentenceCoversMatch | fin_analyse/cognition/thesis_extractor.py:122-132 | a quoted sentence is contiguous text and holds the whole match |
| RuleUnits.BeginsAfterAnEnd | fin_analyse/cognition/thesis_extractor.py:124-126 | the sentence starts right after a sentence end, with none before the match |
| RuleUnits.FinishesAtAnEnd | fin_analyse/cognition/thesis_extractor.py:127-131 | it stops at the next sentence end after the match |
| RuleUnits.OneSentenceForBoth | fin_analyse/cognition/thesis_extractor.py:122-132 | two matches without a sentence end between them are quoted by the same sentence |
| RuleUnits.SentenceIs | fin_analyse/cognition/thesis_extractor.py:122-132 | the sentence is the stretch around the match without a sentence end, with its closing mark unless that is a line break, trimmed |
| RuleUnits.Extract | fin_analyse/cognition/thesis_extractor.py:136-240 | the sentences of both families, discipline first |
| RuleUnits.NoSentenceTwice | fin_analyse/cognition/thesis_extractor.py:145-226 | over both families no sentence is quoted twice, all are contiguous text, and every match is quoted |
| RuleUnits.QuotedInOrder | fin_analyse/cognition/thesis_extractor.py:145-226 | sentences come in the order of their first matches |

## Left out

- File ownership, modes, links and descriptor identity: a replace or a locked append is one atomic step.
- JSON text, SHA-256, UUIDs and regular expressions: injective encoders, unique ids and given matches stand for them.
- Unicode normalisation: noise removal acts on each character by itself.
- Networks, vision, systemd, PowerShell, XML and subprocesses: a provider, platform or importer is an arbitrary oracle.
- Keyword classifiers, renderers, audit lines, command lines, MCP handlers and dataclass conversions: they would add easy members only.
- `daily_workspace_runner`, `instrument_scores`, `cognition_replay_lib`, `mainline_candidates` and `capture_ingest` are not part of this model.
- TagLog.AcknowledgedRowsStay: an append writes its line whole, the file ends in a line break when the run starts, and every read of an existing file succeeds; `read_rows` gives no rows when the system refuses to read the file, and a compaction would then replace it with an empty one. The sidecar, unlike the outboxes, does not look for a torn tail, and TagRows.TornTailSwallowsTheRow says what one costs.
- TagStores.TagStore.TagArticle: for a file that does not end in a line break only the answer and the appended line are stated.
- TagRows.SidecarIsLawful: JSON is an encoder whose text shows the separators as they are and of whose shards none is a row; bytes that are not UTF-8 are left out.
- TagStores.Reconcile: one process and a free lock; busy locks, write errors and the dry run are left out, and the counters are the list of outcomes.
- Tag refresh after a changed rule keeps the old tag's row effective; nothing is claimed about old rule ids disappearing.
- ArtifactPair.EveryPairSeenIsWhole: generation ids are unique, as UUIDs are.
- Completion.OpenAICompatibleBackend.TryEndpoint: the pauses between the attempts of the unbounded loop are taken but not stated; those of the bounded loop are.
- Completion.OpenAICompatibleBackend.RunBounded: the text of prompts and failures is left out; a request takes at most its timeout, sleeps are exact, and the callback before an attempt takes a bounded time.
- Inboxes.AdjudicationInbox.Reconcile: each transaction is one step and gets its clock reading from the caller, which in `Push.dfy` is an earlier step; SQLite errors and `add_manual` are left out.
- Pushes.Push: the open items are a set and their fingerprint the set of ids and titles, which is injective; the source joins them with separator characters that a title may itself hold. Order and rendering of the digest are left out.
- Pushes.SendsAreBounded: two pushers at once are not modelled, and no two clock readings are equal, since the comparison with the last send is not strict.
- Capture.CaptureFolder.RunPass: run ids are ranks of directory names; the folder changes only between passes, except that an artifact may differ when it is about to be imported; read errors and the content of audits are left out.
- Outboxes.OutboxRefinesTable: rows hold none of the three separators; the lemmas about rows that do assume that no shard of such a row is itself a record.
- MacroIndex.MacroStore.Update: the file is a map, so entries listed twice and the order of the list are left out, as are the texts of warnings.
- Evidence.AcceptedIsVerbatim: white space, sentence ends and quotes are noise and connector words, of one or two characters, are not, which PlainNormIsGood shows to be consistent; the empty fragments that a run of sentence ends would give are kept, as they count for nothing.
- RuleUnits.Extract: the matches of the patterns are given; titles and theses built around a sentence are left out.
- Slots.EffectiveDeadline: times are real seconds of a day of 86400, as in Shanghai, which has no daylight saving.
