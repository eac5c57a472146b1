# Email triage, verified

A Dafny model of the email triage system: scans publish messages to a queue, a classifier worker stores a
result for each and forwards it, a label worker edits Gmail and marks the row, rules decide the label, and
bearer tokens guard the API. The project states what the system promises across all of that and proves it.
`dafny verify dfyconfig.toml` checks everything.

## How it is laid out

| files | what they hold |
|---|---|
| `Pipeline` | the whole scan, classify and label pipeline as a transition system: scan runs, both queues, the tables, the mailbox, and a program counter for every handler in flight |
| `Invariants`, `Safety` | what every reachable state satisfies, and what a maintainer reads off it |
| `NoLostWork`, `FixedRules`, `MailboxAtRest`, `ExactlyOnce`, `Interleavings`, `Completion`, `Draining`, `LabelNames`, `Finishing` | the theorems about whole runs |
| `Traces`, `Counterexamples` | runs with their steps in hand, and the runs that show which conditions are needed |
| `Storage`, `Broker`, `GmailClient`, `Consumers`, `ScanApi`, `Handling` | the code in its imperative form, with its tables and queues as fields, proved to take only steps of the transition system |
| `LabelPool` | the label worker's goroutines, mutex, error channel and shutdown |
| `Text`, `Rules`, `Classifier`, `Matching`, `RuleChoice` | the rule engine, its loops, when a rule hits a message, and the declarative choice they compute |
| `Paging` | the page loop behind a scan |
| `Base64Url`, `Token`, `Bearer` | issuing and verifying tokens, and the header in front of them |
| `Common` | optional values, results, and sums over multisets |

## How faults are modelled

Handlers are cut where a process can stop: the classifier between reading the rules, the upsert, the publish
and the acknowledgement; the label worker between listing, creating, editing, marking and acknowledging; the
enqueue loop between every read, publish and write. At each of these points a handler may be refused
(`Requeue`), which also stands for a crash and for a lost connection after which it does not go on, or it may
lose its delivery to another consumer and go on without it (`Detach`), until it stops (`Abandon`). A delivery goes
back when its channel is gone, and the program publishes on the channel it consumes from and never opens another
(`internal/broker/rabbitmq.go:10-13`, `internal/broker/rabbitmq.go:65-120`): a handler without its delivery can
still write to the database and to Gmail, but it publishes and settles nothing. Writes may go through with the
answer lost. A label event is dropped only with the permanent Gmail error it was dropped for, and the drop is
recorded with that error. Runs interleave all of this freely, with any number of scans.

## Assumptions

- A publish returns nil exactly when the event is queued, and published events decode again.
- Gmail is changed by this system only; message contents do not change; a new message may arrive at any time.
- Label ids of triage labels differ from `INBOX` and `UNREAD`, and Gmail keeps label names apart under folding.
- The mode of a scan is `dry_run` or `apply`, which both entry points check (`internal/api/scans.go:72`, `internal/api/scans.go:113`).
- Lower-casing, case folding, white space, `net/mail.ParseAddress`, HMAC and JSON are functions the proofs know
  nothing about but what is said where they are used: the lower-case letters of the program's own constants are
  their own lower case and no white space, and JSON reads back what it wrote.
- Priorities fit the 32-bit column they are stored in; scores wrap at 64 bits.
- Times are whole nanoseconds without bound.

## Where code and documents part

- The documents call storage by user and message idempotent (`docs/architecture.md:90`). The result is, but a
  redelivered raw event turns an applied row back into a classified one until its second label event is
  handled. `NoLostWork.ServedUnlessStranded` shows when somebody still sees to every classified row: an unsettled
  event will mark it, or its label event was dropped for a permanent Gmail error since the row was last stored. That
  is so throughout a run if and only if the run has no step of one kind: a handler that lost its delivery stores its
  apply result when no unsettled event will mark the row. `Counterexamples.RowsCanBeStranded` is such a run. What it
  costs a scan is exactly that row: `ExactlyOnce.ScanFromRest` says that the outcome is the one of handling each
  message once if and only if no row of the scan is still classified, and `ExactlyOnce.UndroppedScan` that the
  Gmail labels are right even where such rows were stranded.
- With more than one label worker two of them can both find a label missing; the second create is then refused
  for good, its event dropped, and its row classified for ever. `Counterexamples.WorkersCanConflict` is such a run
  with two messages, two workers and no fault; `Counterexamples.CopiesCanConflict` one with a single message, for
  whatever rules. `LabelNames.ConflictFreeUnlessColliding` says exactly which runs are free of that,
  `LabelNames.OneWorkerNeverConflicts` that all runs of one worker are.
- `LabelWorker.Run` does not always return a worker's error: `LabelPool.ErrorCanBeLost`. `LabelPool.NilExactly`
  says when it does not: an error is in the channel at the moment when Run takes its other way out.
- The page loop stops on a repeated token only when it repeats at once. `Paging.EndsUnlessRevisiting` says that it
  ends if and only if no token is asked for twice or the visitor refuses a page.

## Model

| member | source | states |
|---|---|---|
| `Invariants.InvReachable` | internal/consumer/classifier_worker.go:60-135 | the joint invariant of runs, events, rows, both queues, the edit log and the mailbox holds in every reachable state, for every interleaving, fault and crash |
| `Invariants.InvKept` | internal/consumer/label_worker.go:98-159 | each single step, of any handler at any program point, keeps that invariant |
| `Invariants.MailModify` | internal/gmail/client.go:115-126 | the labels of a message depend on the set of edits made to it and not on their order: edited labels added, INBOX gone, UNREAD gone only if an edit asked for it |
| `Invariants.CreatedLabel` | internal/gmail/client.go:88-113 | a created label is the one its own name resolves to, and no other resolution changes |
| `Invariants.FindLabelFound` | internal/gmail/client.go:94-101 | the search finds the first label equal under folding if there is one, and none only if there is none |
| `Safety.ReferencesHold` | internal/consumer/label_worker.go:145-154 | at every crash point an unsettled label event has its row, so the row-not-found drop never happens; raw events and rows name existing runs, rows of the run's user |
| `Safety.RowsMatchMailbox` | internal/storage/email_messages.go:58-68 | a row is applied exactly when it has an applied label, and then the label that name resolves to is on the Gmail message and INBOX is not |
| `Safety.DryRunIsInert` | internal/consumer/classifier_worker.go:117-128 | every label event and every edit descends from an apply-mode raw event of the same run, user, message and read flag; without one a message keeps its labels, and without a mark_read one its UNREAD |
| `Safety.OnlyDryRuns` | internal/consumer/classifier_worker.go:89-128 | in a system of which only dry runs were asked, no message has changed, no label event was published and no row has an applied label |
| `Safety.DropsAreRefusals` | internal/gmail/client.go:128-135 | every drop on record carries an error answer of Gmail with a status from 400 to 499 other than 429 |
| `Safety.LabelNamesApart` | internal/gmail/client.go:94-112 | as Gmail refuses a name it has, label names stay distinct under folding through every create of every run, and names equal under folding resolve to one label |
| `Safety.ResolutionIsStable` | internal/gmail/client.go:88-113 | once a name resolves to a label, it resolves to that label in every state of every run from there |
| `NoLostWork.NoEventLost` | internal/consumer/classifier_worker.go:60-74 | in every reachable state each published raw event is still unsettled or its message has a row |
| `NoLostWork.NoEditLost` | internal/consumer/classifier_worker.go:117-128 | in every reachable state, stranded rows or not, each published apply event is unsettled, or its message has the edit of just this event, or its label event was dropped for a permanent error; at rest one of the last two |
| `NoLostWork.ServedStep` | internal/consumer/classifier_worker.go:95-132 | a step keeps every classified row seen to (by a raw or label event that has its delivery and will mark it, or by a drop since the row was last stored) if and only if it is not the stranding one: a late store of an apply result by a handler without its delivery when no unsettled event will mark the row |
| `NoLostWork.ServedUnlessStranded` | internal/consumer/classifier_worker.go:95-132 | over whole runs: classified rows are seen to in that sense in every state of a run if and only if no step of it strands one |
| `NoLostWork.NoRowLeftBehind` | internal/consumer/label_worker.go:130-156 | when both queues are empty and no step stranded a row, a row still classified had its label event dropped for a permanent Gmail error after the row was last stored |
| `Counterexamples.RowsCanBeStranded` | internal/consumer/classifier_worker.go:102-132 | a reachable state with both queues empty, nothing dropped and a row still classified, so the condition above is needed |
| `FixedRules.ResultsAreTriage` | internal/consumer/classifier_worker.go:87-128 | with fixed rules, over any overlapping scans and faults, every row's prediction, confidence and reason, every pending label event and every applied label is what the rule engine says of that message |
| `FixedRules.OneTriageLabel` | internal/consumer/label_worker.go:138-150 | when one user asks for all scans and rules are fixed, no message ever gets two different triage labels |
| `MailboxAtRest.MailAtRest` | internal/gmail/client.go:115-126 | with fixed rules, any users, overlapping scans and faults: at rest a message about which nothing was dropped has exactly the labels it arrived with, without INBOX if an apply event was published about it, without UNREAD if one asked to mark it read, and the existing label that the rules choose for each user who called for it |
| `MailboxAtRest.OneUserMailAtRest` | internal/consumer/label_worker.go:138-150 | with a single user that is one modification of each message called for, and none of any other |
| `ExactlyOnce.ScanFromRest` | internal/consumer/label_worker.go:98-159 | a scan from rest to rest, through any interleaving, redeliveries, refusals, permanent errors and crashes: rows and Gmail labels together are those of handling each distinct published message once, in order, if and only if no row of the scan is still classified; each single message has the labels of that reference, or is untouched, still classified and on record as dropped for a permanent error; no label names appear but those called for |
| `ExactlyOnce.UndroppedScan` | internal/gmail/client.go:88-126 | a scan that dropped nothing leaves the Gmail labels of the reference, stranded rows or not, and exactly the label names there were and those called for |
| `ExactlyOnce.UnstrandedScan` | internal/consumer/classifier_worker.go:95-132 | a scan without a stranding step leaves a row classified only if its label event was dropped since the row was last stored, and without such a drop it has the whole outcome of the reference |
| `ExactlyOnce.OutcomeByLastStores` | internal/storage/email_messages.go:30-82 | the condition along the run: the outcome is the reference's if and only if for no row the last of its stores and marks is the store of an apply result |
| `Interleavings.AnyTwoInterleavings` | internal/storage/email_messages.go:30-82 | two such runs that published the same messages, however they were interleaved: a message that was in the mailbox before the scan, and that both runs missed or neither did, has the same labels by name, and the tables are equal if and only if the same rows are still classified |
| `ExactlyOnce.FinalRow` | internal/consumer/classifier_worker.go:95-115 | the final row of a published message: dry-run results untouched, apply results marked with the predicted label |
| `ExactlyOnce.EditsAmountToOne` | internal/gmail/client.go:115-126 | all edits of one run to one message together amount to a single modification |
| `ExactlyOnce.FirstSeenOnce` | internal/storage/email_messages.go:36-44 | the reference handles no key twice |
| `Completion.CountersConserved` | internal/api/scans.go:149-228 | every stored run has found = processed + failed and processed at most what it published, exactly that once it is not enqueuing; queued means nothing failed, queued_with_errors that something did; neither publishes again |
| `Completion.CompleteIsExact` | internal/api/scans.go:282-291 | once a run is not enqueuing, it is reported complete if and only if it published something, no message twice, and every published message's row is still stamped with it; not_started if and only if it published nothing |
| `Completion.RunCompletes` | internal/api/scans.go:282-291 | a run with distinct messages no other run touched, and no raw event pending, is complete |
| `Completion.CountsAddUp` | internal/storage/email_messages.go:113-140 | the three status counts of a run add up to the rows stamped with it |
| `Completion.CountAfterWrite` | internal/storage/email_messages.go:113-140 | writing a row moves its share of the counts: a new key adds one to the count of its status, a rewritten row gives its one from the old status to the new, rows of other runs count for nothing |
| `Completion.NoRowsNoCounts` | internal/storage/email_messages.go:121-137 | an empty table has no counts, and a status is counted only if some row of the run has it |
| `Draining.DrainingBound` | internal/api/scans.go:178-198 | publishes and settlements of any run number at most 3 per unpublished message, 2 per raw event, 1 per label event, and 1 for each raw event that comes back after its label event was published |
| `Draining.SettledDeliveriesAreGone` | internal/consumer/label_worker.go:98-118 | what counts as a settlement is a delivery that the broker no longer waits for: the number held on both queues falls by exactly that, and rises by one with a published label event |
| `Draining.WorkIsBounded` | internal/consumer/classifier_worker.go:60-135 | the pipeline's own steps in any run are bounded by the work there was and the work that scans, pages and returning deliveries brought |
| `Draining.WorkEmptiesTheQueues` | internal/consumer/label_worker.go:98-118 | a run of work alone cannot go on for ever, and where it cannot be extended both queues are empty and every scan is enqueued |
| `Draining.LabelProgress` | internal/gmail/client.go:103-112 | a label task can always go on, and needs to be dropped only if somebody else created its label in between |
| `LabelNames.ConflictFreeUnlessColliding` | internal/gmail/client.go:88-113 | for any number of workers, a run has no state in which a worker is about to create a label that exists if and only if no create of it is for a label that another worker has also found missing |
| `LabelNames.OneWorkerNeverConflicts` | internal/consumer/label_worker.go:130-136 | with one label worker a create never meets an existing name, through any redeliveries and crashes |
| `Finishing.EveryScanCanFinish` | internal/consumer/label_worker.go:98-159 | for any number of label workers, a scan can be enqueued to its end and brought to rest from wherever its run has got to, dropping and stranding nothing more (a worker that would be refused its create starts its event over), and keeping to one label worker at a time if it did so far; so the exactly-once statements speak about every scan |
| `Finishing.EveryScanCanSucceed` | internal/api/scans.go:149-228 | and if it had dropped and stranded nothing, with exactly the outcome of handling each message once |
| `Counterexamples.WorkersCanConflict` | internal/gmail/client.go:88-113 | two messages of one scan whose labels are equal under folding, two workers, no fault: a worker that has its delivery is refused its create, its event is dropped, and with both queues empty its row is still classified |
| `Counterexamples.CopiesCanConflict` | internal/consumer/label_worker.go:98-136 | the same end for any message and any rules, with one lost delivery |
| `Storage.Store.UpsertEmailMessage` | internal/storage/email_messages.go:30-56 | the row of the key becomes the given one in every column, inserted or updated; other keys keep theirs; a lost answer is an error after the fact |
| `Storage.Store.MarkEmailLabelApplied` | internal/storage/email_messages.go:58-82 | only status and applied label of an existing row change; a missing row is reported and changes nothing |
| `Storage.Store.CountEmailMessagesByScanRun` | internal/storage/email_messages.go:113-140 | the map filled group by group holds, for each status that occurs in the run, the number of rows stamped with the run that have it, and nothing else |
| `Storage.Store.CreateScanRun` | internal/storage/scan_runs.go:11-26 | a fresh id with a zeroed enqueuing run under it, or nothing; a lost answer is an error after the fact |
| `Storage.Store.UpdateScanRunProgress` | internal/storage/scan_runs.go:43-55 | the three totals of one run are overwritten, its status kept; an unknown id changes nothing |
| `Storage.Store.CompleteScanRun` | internal/storage/scan_runs.go:28-41 | status and the three totals of one run are overwritten; an unknown id changes nothing |
| `GmailClient.Client.EnsureLabel` | internal/gmail/client.go:88-113 | the loop returns the first label equal under folding, else creates exactly one; errors and lost answers included |
| `GmailClient.Client.ApplyLabelToMessage` | internal/gmail/client.go:115-126 | one message gets the label and loses INBOX, and UNREAD when asked; nothing else changes; a missing message is a permanent error |
| `Broker.Queues.SettleRaw` | internal/consumer/classifier_worker.go:62-73 | one delivery leaves the queue on an acknowledgement that arrives, and is ready again otherwise |
| `Broker.Queues.SettleLabel` | internal/consumer/label_worker.go:100-117 | the same for a classified event |
| `Consumers.ClassifierWorker.ProcessRawEmail` | internal/consumer/classifier_worker.go:76-135 | succeeds exactly when rules were read, the upsert was heard and the publish, if any, queued; how far it gets is determined by what its calls meet with, and row and event carry the rule engine's result |
| `Consumers.ClassifierWorker.HandleDelivery` | internal/consumer/classifier_worker.go:60-74 | acknowledged exactly when processed, or not decodable, and the settlement arrives, else ready again; rows and queues end as the calls' outcomes say, and that is a run of the transition system made of acts of that event alone |
| `Consumers.LabelWorker.ProcessClassifiedEmail` | internal/consumer/label_worker.go:120-159 | by the first Gmail error: a status from 400 to 499 other than 429 drops the event, any other status and any other error tries it again; with none, it is tried again when the store does not answer and dropped when the row is missing; mailbox and row as far as it got |
| `Consumers.LabelWorker.HandleDelivery` | internal/consumer/label_worker.go:98-118 | ready again exactly when it is to be tried again or the settlement does not arrive; mailbox, rows, queue and the record of drops end as the calls' outcomes say, and that is a run of the transition system made of acts of that event alone |
| `Handling.RawSettledRun` | internal/consumer/classifier_worker.go:60-135 | every point a classifier handler can stop at, and its settlement, is reached by steps of the transition system with exactly that effect |
| `Handling.LabelSettledRun` | internal/consumer/label_worker.go:98-159 | the same for every point of a label handler, drops included |
| `ScanApi.Scanner.StartScan` | internal/api/scans.go:135-147 | a run of the transition system: the new scan with its loop; when the insert fails nothing, and when its answer is lost a run without a loop, as after a crash |
| `ScanApi.Scanner.PublishBatch` | internal/api/scans.go:178-198 | publishes exactly the events of the batch whose publish is queued, in order; counts those as processed and the others as failed |
| `ScanApi.Scanner.Visit` | internal/api/scans.go:175-205 | the visit callback publishes the batch and succeeds exactly when the progress write is heard; it is a fetch, its publishes and a progress write of the transition system, and a failed write fails the run next |
| `ScanApi.Scanner.EnqueueScan` | internal/api/scans.go:149-228 | the scan fails early if and only if a read fails or some page's progress write is not heard; it publishes exactly the queued events of the pages it read, in order, finds exactly their messages, and when its last write goes through the stored totals and status say so; all of it a run of acts of this scan that ends it |
| `ScanApi.Scanner.GetScan` | internal/api/scans.go:230-280 | not found exactly for an unknown run, forbidden exactly to those who neither own it nor administer, shown exactly when the store answers besides; then with the stored run, its counts, and the status they give |
| `ScanApi.PagesAsIterated` | internal/api/scans.go:175-211 | the enqueue loop reads as many pages as the reader's iteration feeds to a visit that fails with its progress write |
| `LabelPool.SettlementsAreExclusive` | internal/consumer/label_worker.go:98-118 | two goroutines are never both inside Ack or Nack, and nobody settles what was settled |
| `LabelPool.DefaultIsDead` | internal/consumer/label_worker.go:63-70 | for any number of goroutines, who reports an error finds room in the channel, so no error is given up in the default branch |
| `LabelPool.ReturnIsClean` | internal/consumer/label_worker.go:76-95 | when Run has returned all goroutines have exited, each received delivery was settled exactly once, and a returned error comes from a failed settlement |
| `LabelPool.WindsDown` | internal/consumer/label_worker.go:55-95 | once the caller has cancelled, deliveries have run out, a goroutine has left (as after a failed settlement) or Run waits for them, there is no deadlock: some step brings the pool nearer to its end until Run has returned |
| `LabelPool.NilExactly` | internal/consumer/label_worker.go:82-95 | by either way out that returns nil, with the pool done or the context cancelled, a failed settlement goes unreported if and only if an error is in the channel at that moment |
| `LabelPool.NilHidesAnError` | internal/consumer/label_worker.go:55-95 | after Run has returned nil, some settlement failed if and only if an error is still in the channel |
| `LabelPool.ErrorCanBeLost` | internal/consumer/label_worker.go:82-95 | Run can return nil with a worker's error still in the channel |
| `Rules.ToClassificationRules` | internal/consumer/classifier_worker.go:137-158 | one rule per stored rule, in order, with each of its fields; user-specific exactly when it has a user |
| `Rules.ListEnabledUserRules` | internal/storage/user_rules.go:10-50 | the scanned rows, with a null user read as a global rule, are sorted by the query's order, and hold each rule as often as the table does if it is enabled and the user's or global, and never otherwise |
| `Rules.OnlyAnswer` | internal/storage/user_rules.go:13-16 | the clauses of the query leave a single answer when ids are distinct |
| `Rules.SelectSpec` | internal/storage/user_rules.go:13-16 | the query returns exactly the enabled rules of the user and the global ones, user-specific first, then by priority, then by id |
| `Classifier.Classify` | internal/classifier/classifier.go:33-85 | the one-pass loop with its two accumulators computes the best user-specific match, else the best global one, else Unknown |
| `Matching.HitExactly` | internal/classifier/classifier.go:106-183 | a rule hits a message if and only if its priority is not negative, its value and label are not blank, its operator reads as equals or (also when blank) contains, and the normal form of just the field its type names (the parsed sender address or else the header, the part after the only @, the subject, the snippet, or the three joined) equals or contains the normal form of its value |
| `Matching.FiresExactly` | internal/storage/user_rules.go:13-16 | a stored rule fires for a user if and only if it is enabled, theirs or global, and hits |
| `Matching.ClassifyExactly` | internal/classifier/classifier.go:33-104 | for any list of rules, whatever their scopes and priorities: among those enabled, of a known scope and hitting, user-specific before global, the higher 64-bit score, the earlier one answers, with its label, the confidence of its score and itself as reason; without any the answer is Unknown at 0.5 |
| `Matching.ScoreInNumbers` | internal/classifier/classifier.go:185-210 | for stored priorities a score is a thousand times the priority and 50, 40, 30, 20 or 10 for the field and 20 more for equality |
| `Text.NormalForm` | internal/classifier/classifier.go:223-225 | the normal form of a text is what stands between the spaces around it, letter by letter in lower case |
| `Classifier.FirstMaxSpec` | internal/classifier/classifier.go:55-64 | each accumulator ends with the earliest of the highest-scoring matches |
| `RuleChoice.WinnerAnswers` | internal/classifier/classifier.go:49-85 | reading rules through the query and classifying gives the answer of the one rule that wins by user-specific before global, higher priority, higher specificity, lower id |
| `RuleChoice.SomeRuleWins` | internal/classifier/classifier.go:49-71 | there is such a winner as soon as one rule fires |
| `RuleChoice.NoRuleFires` | internal/classifier/classifier.go:68-78 | when none fires the result is Unknown with confidence 0.5 |
| `RuleChoice.WinnerExplained` | internal/classifier/classifier.go:170-221 | the result names the winner's label and the winner itself as reason, and its confidence tells the winner's priority band: 200 and up, 120 and up, below |
| `RuleChoice.ScoreExact` | internal/classifier/classifier.go:185-210 | for stored priorities the 64-bit score is exact and specificity never reaches the next priority |
| `RuleChoice.TableOrderIsIrrelevant` | internal/storage/user_rules.go:13-16 | permuting the table changes no result |
| `RuleChoice.LosersAreIrrelevant` | internal/classifier/classifier.go:49-71 | adding or removing rules that do not beat the winner changes neither label, confidence nor reason |
| `RuleChoice.GlobalsAreIrrelevant` | internal/classifier/classifier.go:68-71 | global rules do not matter to a message a user-specific rule matches |
| `RuleChoice.OnlyMatchesMatter` | internal/classifier/classifier.go:46-85 | the result depends on the message only through which rules it matches |
| `RuleChoice.PartMatchIsAnyMatch` | internal/classifier/classifier.go:106-119 | a contains-match on subject or body is one on the whole text |
| `RuleChoice.DomainMatchIsEmailMatch` | internal/classifier/classifier.go:249-255 | a contains-match on the sender's domain is one on the address |
| `RuleChoice.EqualsMatchIsContainsMatch` | internal/classifier/classifier.go:159-168 | an equals-match is also a contains-match |
| `Paging.IteratePages` | internal/reader/source.go:81-99 | wherever the loop ends at all, it has fed the visitor the non-empty pages in order up to its first refusal, and reports a refusal or a failed read |
| `Paging.IterateMessages` | internal/reader/source.go:65-100 | the same for the fixed source: one visit, none when it is empty |
| `Paging.NextPageIsAsked` | internal/reader/source.go:88-98 | along the tokens the loop asks for, a page that names another one is followed by that one, empty or not, as long as the visitor has refused nothing |
| `Paging.ListMessages` | internal/reader/source.go:53-63 | all messages in order, or the failure; from Gmail those of every page, where from the empty token on each page but the last names the next one, whatever it holds, and the last names none or itself |
| `Paging.ToMessages` | internal/reader/source.go:102-114 | one message per item, in order, with each of its fields |
| `Paging.EachBatchOnce` | internal/reader/source.go:88-93 | a visitor sees each non-empty page exactly once, in order |
| `Paging.NoPageIsLost` | internal/reader/source.go:88-98 | empty pages in the middle are skipped without stopping: the messages listed are those of all pages of the chain |
| `Paging.ChainIsAcyclic` | internal/reader/source.go:95-98 | a chain that ends repeats no token |
| `Paging.EndsUnlessRevisiting` | internal/reader/source.go:81-99 | for any visitor, where the mailbox hands out finitely many tokens, the page loop ends if and only if no token is asked for twice or the visitor refuses a page |
| `Paging.ChainUnlessRevisiting` | internal/reader/source.go:95-98 | and the tokens alone come to an end if and only if none is asked for twice |
| `Base64Url.RoundTrip` | internal/auth/jwt.go:150-167 | decoding undoes encoding for every byte string |
| `Base64Url.CanonicalText` | internal/auth/jwt.go:158-162 | encoding undoes decoding exactly for texts without line breaks and spare bits |
| `Base64Url.ThreeBytes` | internal/auth/jwt.go:150-156 | three bytes become four characters of six bits each, the highest first (section 4 of RFC 4648) |
| `Base64Url.TwoBytesLeft` | internal/auth/jwt.go:150-156 | two bytes left become three characters, filled up with zero bits and not padded; `Base64Url.OneByteLeft` says it of one |
| `Base64Url.LineBreaksOnly` | internal/auth/jwt.go:158-162 | the decoder skips carriage returns and line feeds wherever they stand, and no other character outside the alphabet |
| `Token.IssueVerify` | internal/auth/jwt.go:71-148 | a token verifies to its principal exactly when the user id is not empty, the role is user or admin, the audience fits and the second of `now` is before that of the expiry; otherwise it is refused |
| `Token.VerifyExactly` | internal/auth/jwt.go:101-148 | for every text: a principal is let through if and only if the text is three dotless segments, the third the signature of the first two under the secret, the first naming HS256, the second claims with the manager's issuer, the principal as subject with role user or admin, an expiry after now and the audience; everything else is refused as invalid |
| `Token.IssuedClaims` | internal/auth/jwt.go:71-99 | an issued token says HS256, the manager's issuer and audience, the principal, and the whole seconds of its issue and of its end |
| `Token.VerifySerialized` | internal/auth/jwt.go:101-148 | verification reads a correctly signed compact token down to its claims, for every header and claims in the serializer's own encoding |
| `Token.AcceptanceWindow` | internal/auth/jwt.go:76-84 | acceptance ends within the second before issue plus lifetime and never after it |
| `Token.NewManager` | internal/auth/jwt.go:45-69 | what is configured is kept, and whatever the configuration, issuer and audience are not empty and the lifetime is positive; the defaults are the system's two names and 24 hours |
| `Bearer.IssuedTokenAuthenticates` | internal/auth/middleware.go:8-30 | a header of any spelling of the scheme, a blank, an issued token and any padding lets through exactly the principals verification accepts |
| `Bearer.AuthenticateExactly` | internal/auth/middleware.go:8-30 | for every header: refused as missing if and only if it is empty, as invalid if and only if it is not Bearer in some spelling, a blank, and a text that is not all spaces, and else let through if and only if verification accepts what stands between the spaces |
| `Bearer.PaddedHeader` | internal/auth/middleware.go:15-25 | a well-formed header is judged by its token alone |

## Left out

- ScanFromRest: one scan at a time, with the rules fixed; overlapping scans with fixed rules are `FixedRules` and `MailboxAtRest`. Label ids are compared through the final label table, since Gmail chooses them.
- LabelNamesApart: that a create never makes a second label of an equal name is Gmail's doing and assumed; `LabelNames` is about what the workers add to it.
- IteratePages: is told the tokens along which it ends; `EndsUnlessRevisiting` says when there are such. A loop that does not end is not a run of it.
- `PublishRawEmail`, `PublishClassifiedEmail`: that nil means queued is an assumption about the broker, not a result.
- HTTP routing, request and response shapes, configuration, the commands, Docker and the Makefile: plumbing.
- AMQP, pgx, Gmail and OAuth client internals: only the effect of each call is kept. The prefetch limit of 10 is not modelled.
- The consumer loop of the classifier worker (`internal/consumer/classifier_worker.go:39-58`): it hands deliveries to the handler one by one; the transition system allows any number at once.
- Handlers in `Consumers` and the loop in `ScanApi` are shown to be runs by themselves; how they interleave with others is the business of the transition system.
- The audit reason is kept as data (scope, field, operator, value, score); printing it as text is not modelled. Rule types are an enumeration with a case for unknown text.
- Timestamps of rows and runs, and rows from before run stamps existed.
- `ListMessagesPage` and `headerValue`: a page's items are taken as given. A missing visit callback is not modelled.
- Telegram login, user lookup and the checks of request bodies and ids: short branches without a property across functions.
- The seed rules of the migrations, and the scheduled-scan ticker, which starts scans like any other caller.
- `InsertEmailMessage` and `GetEmailMessage`: no worker or API path calls them.
- Cryptographic claims: HMAC is an uninterpreted function.
