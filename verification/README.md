# BEB bridge: a verified model

The bridge stores what label printers (PLCs) report over MQTT, forwards it to Odoo, acknowledges it, keeps permanent
daily production counts, and passes commands from Odoo back to the PLCs. Its threads share nothing but a few SQLite
tables: the MQTT callback, one queue worker with an in-memory batch, a watchdog, startup reconciliation, retention
cleanup and the HTTP command handler. Each database function is one transaction; anything can happen in between,
including a crash.

The model has three layers.

* **Values.** `Store` gives the tables as values and what each transaction does to them; `DailySummary`, `Totals`,
  `Responses`, `MessageParser`, `AckReplay` and `Debounce` give the pure parts, each beside an independent reference
  definition (a plain aggregate of a log, a property of the whole check history, a printer for the parser).
* **State machines.** `System` interleaves every actor's transactions with crashes, abandoned batches, recoveries and
  row deletions; `CommandApi` does the same for HTTP requests at look-up, insert, publish, mark and save granularity.
  Histories that no table keeps (claims, submissions, commits, ACKs sent, commands published, counts applied) are
  recorded in the state, and `Invariant`, `Preservation` and `CommandSafety` show what every step keeps. `Guarantees`,
  `Accounting`, `Dashboard`, `Schedule`, `Progress`, `ReplayRuns`, `Retention`, `Reconciliation`, `DirectCompletion` and
  `CommandGuarantees` say what follows for all runs. `Outcomes`, `Duplicates`, `Columns` and `CommandColumns` say what every
  single step does, in the columns of the rows and the fields of payloads and responses alone, without naming the functions
  that compute it.
* **Objects.** `BridgeDatabase`, `Readiness`, `Bridge` and `CommandHandler` are the code in its own form: classes whose
  methods update fields statement by statement. The first two meet their functions above. `Bridge`
  and `CommandHandler` call an `OthersAct` method between transactions, whose contract lets other threads take any
  number of steps; their methods are proved to be runs of the two state machines, so every result about all runs holds
  of them.

`dafny verify dfyconfig.toml` checks everything. Times are integer microseconds and stored times whole seconds,
truncated exactly where the code truncates, and the clock may step back unless a statement says otherwise. A run starts
from any queue contents and an empty ledger, and keeps one configuration, also across crashes.

## What turned out not to hold as documented

* The status diagram in the repository's README (lines 240 to 246) lacks two edges: the watchdog may recover a row that
  the worker still holds, which then goes FAILED to COMPLETED, or FAILED to FAILED with two retries charged for one
  attempt. `UndocumentedEdges` gives runs from start-up that do so while every record is on time, and
  `DocumentedDiagramSuffices` the exact condition: the diagram is right for workers that commit each record within a given
  time of the one before it if and only if a whole batch at that pace fits into the stale timeout. The defaults (10
  records, 90 s each, stale after 300 s) do not meet it. `EveryStepFollowsTheDiagram` proves the corrected diagram.
* Line 277 there says that any successful XML-RPC return completes the row. The code also wants `success` to be true and
  an ACK to be present (`FinishCloses`, `VerdictIsWhatTheResponseSays`).
* Two publications under one idempotency key are not always a retention period apart: the time the first request waits
  between its receipt and its publication is lost. `PublishGapIsExact` gives the exact bound; measured from the receipt
  the period does hold (`PublicationsAreApart`), which is what the time to live needs (`TtlIsHonoured`). These bounds count
  to the highest clock reading so far, since a clock that steps back can undo them; with one that does not, that is the
  publication's own (`SteadyClockSees`).
* Stored responses are final for their time to live only when that is configured no longer than the retention
  (`StoredResponsesAreFinalExactly`).
* A request that dies between its insertion and its mark blocks its key for good, because cleanup spares RECEIVED rows
  (`DeadRequestBlocksKey`).
* A key does not become usable again when its time to live ends: until cleanup deletes its row, a request with it runs
  into the unique index and ends in an exception (`LapsedKeyRaises`).
* A dashboard filter that asks for a customer or operator id of -1 can miscount, unless it also asks for an empty batch
  number or an empty range of dates, which match nothing. Every other filter is exact on every run (`TrustedFilters`);
  with a queue filled through the parser alone, so is one that asks for a table or model no message can have
  (`TrustedFiltersOfGenuineQueues`).
* Reconciliation never reaches a row that has `limit` or more unreadable `completed_at` values below it
  (`ReachedExactlyWhenNotHidden`).
* With an empty machine id, direct completion and reconciliation put the same production in different groups
  (`DirectAndRebuiltAgree`).
* A value with trailing whitespace is accepted and queued, but every attempt to submit it fails
  (`QueuedMessageIsSubmittable`, `NeverSubmitted`).
* Raising max_retries at a restart reopens messages that a timeout had closed (`RaisedMaximumReopens`).
* ACK replays are 2 s and 30 s apart only in terms of the stored, truncated time. In real time the bound is more than
  one second (`ReplaysAreThrottled`, `BoundsAreTight`).

## Model

| member | source | states |
|---|---|---|
| Accounting.ProductionIsConserved | app/database.py:1516-1785 | After every run each committed success is counted, no message is counted twice, each count is explained by a committed success or by a row completed before the run, the daily counts add up to the number of messages counted, and the summary table is group by group the plain aggregate of the log, with one row per key |
| Accounting.CountedExactlyWhenCommitted | app/database.py:666-713 | A message that awaited no summary when the run began is counted if and only if its success was committed |
| Accounting.RunBalances | app/queue_worker.py:420-429 | Over every run no committed success is lost, and each count carries the ACK and metadata of its one committed response, or is rebuilt from a row completed before |
| Accounting.StepCounts | app/database.py:699-713 | Each transaction either commits one success and counts it, or commits none and counts only rows that awaited reconciliation |
| Dashboard.DashboardIsExact | app/database.py:1267-1302 | After every run a filter that asks for no sentinel id, or for an empty batch number, or for an empty date range is answered with the number, first and last time and first and last day of the logged productions completed within the days asked for whose asked columns are equal |
| Dashboard.TrustedFilters | app/database.py:1795-1825 | These are exactly the filters that every run from every queue answers so |
| Dashboard.TrustedFiltersOfGenuineQueues | app/mqtt_client.py:232-251 | When every row came through the parser, exactly these and the ones asking for a table or model that the parser never yields |
| Dashboard.UntrustedFilterMiscounts | app/database.py:1681-1697 | For every other filter, a start-up state after whose reconciliation the table answers 0 although one production of the log is asked for |
| Guarantees.AttemptsAreBounded | app/database.py:572-596 | Over any run with crashes and recoveries a message is submitted at most as often as it is claimed, and claimed at most max(1, max_retries) times |
| Guarantees.EveryStepFollowsTheDiagram | app/database.py:558-800 | No step of any actor moves a row along an edge outside the corrected status diagram, nor outside the documented one while no row was recovered out of the worker's hands; rows appear as NEW under an unused id and vanish only when COMPLETED; what was received never changes |
| Guarantees.CompletedIsAbsorbing | app/database.py:666-695 | A COMPLETED row keeps its status, response, completion time and ACK over every run until it is deleted, and its id never returns |
| Guarantees.AckFollowsCommit | app/queue_worker.py:420-432 | The step that sends an ACK for a message comes after the commit of that message's successful response |
| Guarantees.AcksAreTheCommittedOnes | app/mqtt_client.py:266-344 | Every ACK ever sent for a message, by the worker or by duplicate replay, is the one ACK of its single committed response |
| Guarantees.ClosedForever | app/queue_worker.py:335-359 | After a committed timeout, non-retryable error or missing ACK the row stays FAILED with its retries used up, is never claimed or submitted again, and no ACK is ever sent for it, as long as max_retries is not raised |
| Guarantees.FinishCloses | app/queue_worker.py:334-418 | A message is closed exactly by a timeout, by success true without a non-empty string ACK, and by success false whose stripped error is "Nothing to check the availability for." |
| Responses.VerdictIsWhatTheResponseSays | app/queue_worker.py:685-742 | A response is a success with an ACK exactly when success is true and result.ACK is that non-empty string; it must not be retried exactly when success is true without one or the stripped error is the one final text; every other non-success may be |
| Outcomes.FailureInColumns | app/queue_worker.py:335-418 | What a failure leaves: FAILED, retry_count up by one, or raised to max_retries after a closing outcome, the attempt time, the response if there was one, no other row changed and the next record due |
| Outcomes.SuccessInColumns | app/queue_worker.py:420-429 | What a success leaves: COMPLETED with the response, the truncated time and the ACK, which is then in hand |
| Outcomes.RecordIsAcknowledged | app/queue_worker.py:321-432 | A valid record whose response says success with an ACK is submitted once, completed, counted once and acknowledged once, and the next record is due |
| Outcomes.BeginInColumns | app/queue_worker.py:322-333 | A record is submitted exactly when its payload is one known type with a value ending in a known table; otherwise it fails with one retry charged |
| Responses.SubmissionIsThePayload | app/queue_worker.py:662-682 | What is handed to Odoo is the payload itself, type and value unchanged, exactly when it is {"MN": value} or {"MP": value} with a value ending in T01, T02 or T03 |
| Outcomes.SelectionInColumns | app/database.py:572-583 | A row is claimed exactly when it is NEW, or FAILED below max_retries, and fewer than batch_size such rows have smaller ids |
| Outcomes.ClaimInColumns | app/database.py:584-607 | The claimed rows become PROCESSING with the claim time and are taken in hand in id order; nothing else changes |
| Outcomes.WatchdogInColumns | app/queue_worker.py:441-452 | One watchdog step fails exactly the overdue rows that are not excluded, each with one more retry, and changes nothing else |
| Outcomes.ReceiveInColumns | app/database.py:429-489 | A message is inserted under the next id if and only if its topic and payload are not stored; otherwise the callback turns to the row that has them |
| Outcomes.CrashInColumns | app/queue_worker.py:251-257 | A crash or a stop loses what is in memory and no row |
| Schedule.DocumentedDiagramSuffices | app/queue_worker.py:441-477 | Every step of every run that commits record j of a batch within j times the pace of its claim stays on the documented edges, if and only if batch size times pace is within the stale timeout |
| Schedule.UndocumentedEdges | app/queue_worker.py:463-477 | Otherwise runs from start-up that keep the pace take FAILED to FAILED with a second retry charged, and FAILED to COMPLETED, the row having been recovered while it waited or while it was submitted |
| Guarantees.RaisedMaximumReopens | app/database.py:574-581 | A restart with another max_retries makes a closed message claimable if and only if the new maximum exceeds its retry count |
| Guarantees.NeverSubmitted | app/queue_worker.py:324-330 | Over every run, a message whose payload fails validation is never handed to Odoo nor completed |
| Guarantees.TrailingWhitespaceIsUnsubmittable | app/queue_worker.py:662-682 | Among rows that came through the parser these are exactly the ones whose value ends in whitespace |
| Preservation.RunKeeps | app/queue_worker.py:229-257 | The invariant tying tables, worker memory and history holds after every run |
| Preservation.StepKeeps | app/database.py:429-1130 | Every single transaction of every actor keeps that invariant |
| Preservation.CleanupSparesRememberedCounts | app/database.py:1043-1103 | A production row that remembers a count is deleted only when its source row is gone or goes in the same transaction, because of the order of the deletes, their shared batch and equal completion times |
| Preservation.SettleKeepsLedger | app/database.py:1534-1637 | Settling a completed, uncounted message counts it once and leaves a row that prevents counting it again |
| Preservation.CommitKeepsOwnership | app/database.py:666-758 | The unguarded updates of mark_completed and mark_failed only ever hit a PROCESSING or FAILED row the worker owns |
| Preservation.ClaimTakes | app/database.py:572-596 | A claim call takes distinct claimable rows, each once, and changes no other row |
| Invariant.InitEstablishes | app/database.py:180-260 | Start-up on any queue with an empty ledger meets the invariant |
| Progress.NewMessageIsClaimedInTime | app/database.py:572-596 | While a message stays NEW at most floor(B / batch_size) claim calls are made, B being what rows with smaller ids may still claim; nothing that happens meanwhile raises the bound |
| Progress.StepSpendsBudget | app/database.py:572-596 | Each claim call that misses a NEW row lowers that budget by a whole batch, and no other step raises it |
| Progress.RecoveryIsNeverEarly | app/queue_worker.py:441-452 | Despite truncation the watchdog recovers only claims older than the stale timeout, and every claim older by one second |
| Progress.LiveBatchIsSpared | app/queue_worker.py:441-477 | When (batch_size - 1) times the per-record time is within the stale timeout, no waiting row of a live batch is ever recovered, whatever else happens and however long the last record takes |
| Progress.FreshBatchIsUntouched | app/database.py:568-607 | A freshly claimed batch satisfies the hypothesis of the previous row |
| DailySummary.RebuildSummarises | app/database.py:1673-1785 | For every log, counting incrementally yields one row per coalesced key with the count, the minimum and maximum time, the ACK of the earliest-applied minimum and of the latest-applied maximum, and each label as the latest entry that has one gives it |
| DailySummary.IncrementSummarises | app/database.py:1745-1785 | One more count keeps the table equal to that aggregate, so the unique index never rejects an insert |
| DailySummary.KeysAreColumns | app/database.py:1681-1697 | A row and an entry share a grouping key exactly when the entry was completed on the UTC day of the row and machine, table, model, customer, batch and operator are equal, NULL counting as -1 or the empty text |
| DailySummary.IncrementCountsInto | app/database.py:1673-1785 | Counting adds one to the row of such a group and changes no other, or adds a row with the entry's columns and count one when there is none |
| DailySummary.RebuildCountsGroups | app/database.py:1745-1785 | After any log each row counts exactly the entries completed on its day with its columns |
| Totals.KeySelectionsAreExact | app/database.py:1290-1301 | Any selection on the grouping key gives over the table what it gives over the log |
| Totals.FilterIsExact | app/database.py:1795-1825 | A filter that asks for no sentinel is answered, for every log, with the count, times and days of exactly the entries completed within its UTC days with equal columns |
| Totals.AcceptsWhatIsAsked | app/database.py:1795-1825 | An entry is accepted exactly when date_from * 86400 <= completed_at < (date_to + 1) * 86400, where given, and every asked column is equal |
| Totals.AcceptsRowColumns | app/database.py:1795-1825 | A summary row is accepted by its own date and columns in the same way; a NULL is never equal |
| Totals.PlainTallyIsCounted | app/database.py:1267-1302 | The totals over a log are the number of entries asked for and the time and day of the first and the last of them, and no others are |
| Totals.SentinelFreeLogIsExact | app/database.py:1691-1697 | When no counted id equals a sentinel, every filter is answered so |
| Totals.ConflationMiscounts | app/database.py:1681-1683 | Of two productions with one grouping key of which a filter asks for the second alone, the table answers for the first |
| Totals.TrustedFilterIsExact | app/database.py:1795-1825 | When no logged batch number is empty, every filter without sentinel id is answered so, and every one asking for an empty batch or date range |
| Totals.OrderOfCountingIsIrrelevant | app/database.py:1746-1758 | Counting the same productions in another order gives each group the same count, first and last time |
| Totals.GrandTotal | app/database.py:1290-1301 | Unfiltered, the table counts every log entry once |
| Retention.CleanupDeletesExactly | app/database.py:1043-1103 | One call deletes exactly min(batch_size, eligible) rows over the three tables |
| Retention.BacklogShrinks | app/database.py:1069-1103 | One call takes exactly that many off what is still eligible |
| Retention.CleanupDrains | app/database.py:1069-1103 | At a fixed time the backlog is gone after ceil(eligible / batch_size) calls, no earlier |
| Retention.CleanupIsSafe | app/database.py:1048-1103 | No NEW, PROCESSING, FAILED or unsummarised row, no RECEIVED command and no summary is removed, and no kept row changes |
| Columns.CleanupInColumns | app/database.py:1043-1103 | A call with room for everything old deletes exactly the COMPLETED counted messages, the commands no longer RECEIVED and the counted production rows from before the cutoff second |
| Retention.ExpiryIsNeverEarly | app/database.py:1038-1057 | Despite truncation only rows older than the retention period expire, and every row older by one second |
| Reconciliation.ReachedExactlyWhenNotHidden | app/database.py:953-1005 | A row with a readable time is ever counted by repeated calls if and only if fewer than limit unreadable awaiting rows precede it |
| Reconciliation.ReconciliationDrains | app/database.py:953-1005 | With readable times n awaiting rows are drained after ceil(n / limit) calls, no earlier |
| Reconciliation.DrainedIsNoOp | app/database.py:953-968 | Once nothing awaits a summary, a call changes nothing |
| DirectCompletion.DirectAndReconciledTotalsAgree | app/database.py:615-713 | For distinct open rows with successful responses and a machine id, completing them directly in any order gives every group the same count, first and last time as storing the completed rows and reconciling in any batches, once nothing awaits a summary |
| DirectCompletion.DirectTotalsEqualReconciledTotals | app/database.py:940-1020 | When nothing else awaits a summary, direct completion by itself gives what drained reconciliation gives |
| Reconciliation.ReconciliationIsConfluent | app/database.py:953-1005 | However the calls are batched, once drained every group has the same count, first and last time |
| Reconciliation.DrainedLog | app/database.py:970-998 | What drained calls have added to the log is one entry for each row that awaited, built from the stored row |
| Reconciliation.DirectAndRebuiltAgree | app/database.py:699-713 | What mark_completed counts at once equals what reconciliation would rebuild from the stored row if and only if a machine id is configured |
| Reconciliation.CompletionCountsTheResponse | app/database.py:642-713 | A completion counts the table and model of the queue row and, column by column, the customer, operator and batch of the response, at the completion time and with the ACK given |
| Columns.SettlementInColumns | app/database.py:1534-1637 | Settling writes the production row of the message, under its old id or the next one, marks it applied, and counts the entry exactly when it was not applied before |
| Columns.CompletionWithoutAck | app/database.py:666-698 | A completion without an ACK changes the one row and counts nothing |
| Columns.GivenMetadataComesFirst | app/database.py:642-713 | Each column that is counted is the argument if given and otherwise what the stored text says; table and model are those of the row, and an empty machine id stands for BEB |
| Columns.ReconcileInColumns | app/database.py:940-1020 | A call with room for every candidate counts exactly the COMPLETED rows with a readable time, a response and an ACK that were not counted before |
| AckReplay.ReplaysAreThrottled | app/database.py:870-912 | Over any attempts and any clock, allowed replays go forward in time, more than 1 s apart, and any four span more than 33 s |
| AckReplay.ReplaysKeepStoredIntervals | app/database.py:56-58 | In terms of the stored earlier time the spacing is 2 s, and any four replays span at least 34 s |
| AckReplay.BoundsAreTight | app/database.py:1973-1976 | Two traces that exceed the real-time bounds by one microsecond |
| ReplayRuns.ReplaysOfARunAreThrottled | app/database.py:844-917 | Over every run of the bridge the replays of one message keep these bounds, whatever the clock does |
| ReplayRuns.RunFollows | app/database.py:870-912 | The replays of a message are those the throttle grants of its attempts: no other transaction touches its columns |
| Responses.MetadataSurvivesStorage | app/queue_worker.py:700-720 | Metadata taken from the live response and from the stored text agree, for every response |
| Responses.StoredAckIsExtractedAck | app/mqtt_client.py:475-497 | The ACK read back from a stored response is the one the worker extracted, and there is one exactly when the response was judged a success |
| Responses.StoredAckIsWhatTheTextSays | app/mqtt_client.py:475-497 | A stored text gives an ACK exactly when it is JSON or a Python literal with success true and that non-empty string as result.ACK |
| Duplicates.DuplicateIsAnswered | app/mqtt_client.py:266-344 | From the look-up of a COMPLETED row with a stored success and ACK, look-up, throttle and replay send that ACK once if and only if the throttle grants it, and the row counts the replay |
| Duplicates.DeliveryIsAnswered | app/mqtt_client.py:225-260 | The same from the delivery of the duplicate |
| Duplicates.LookUpDecides | app/mqtt_client.py:267-315 | Every look-up goes on to the throttle exactly when the row to answer from is completed with a stored success and ACK, and with that row and ACK |
| Duplicates.ThrottleInColumns | app/database.py:859-912 | A replay is granted exactly when none happened before or within 30 s, or fewer than three happened and none within 2 s; only then the count and the time are written |
| Responses.QueuedMessageIsSubmittable | app/queue_worker.py:662-682 | A queued message has the form {"MN": value} or {"MP": value} and is submittable if and only if the value has no trailing whitespace |
| Responses.ParsedMessageIsThePayload | app/message_parser.py:43-82 | A message is accepted with a type and parts exactly when it is the one-field object of that known type whose value parses to these parts |
| MessageParser.SpacedRoundTripIff | app/message_parser.py:112-121 | Parsing undoes spaced printing of (model, serial, table) for exactly the trimmed non-empty models, digit serials and supported tables |
| MessageParser.CompactRoundTripIff | app/message_parser.py:123-130 | Parsing undoes compact printing for exactly those whose model, in addition, ends in P and three digits and holds no blank or line feed |
| MessageParser.AdmissibleSplitIsUnique | app/message_parser.py:13 | A compact value has at most one admissible split, so greedy matching cannot change the answer |
| MessageParser.AcceptedShape | app/message_parser.py:90-110 | Every accepted value is, trimmed, its model, serial and table in order: either with whitespace containing a blank between model and serial and possibly other whitespace before the table, or joined when the model ends in P and three digits and holds no blank or line feed |
| MessageParser.AcceptedExactly | app/message_parser.py:90-130 | A value parses to given parts if and only if, trimmed, it is one of these two forms of clean parts |
| MessageParser.RejectedExactly | app/message_parser.py:90-130 | Which error any other value gives, by its table, by the blank before it and by what follows the last blank; the error of a missing model is never given |
| MessageParser.ParsedValuesAreCanonical | app/message_parser.py:90-130 | Printing a parsed value and parsing it again gives the same triple |
| MessageParser.AcceptedValueIsSubmittable | app/queue_worker.py:662-682 | Of the accepted values exactly those without trailing whitespace pass the table check before submission |
| Debounce.WatchMeetsHistory | app/readiness.py:216-303 | After any history the monitor is READY exactly when a success run lasted the recovery delay and no failure run lasted the disconnect delay since, UNKNOWN exactly when it was never READY and never saw a failure, and its timer is the first check of the run against the confirmed state |
| Debounce.PublishedAlternates | app/readiness.py:280-303 | BR publications strictly alternate, and the last one tells the confirmed state |
| Debounce.PublishedWhenConfirmed | app/readiness.py:280-303 | A check publishes exactly when it changes the confirmed state: 1 for READY and 0 otherwise, at its own time |
| Debounce.PublishRate | app/readiness.py:244-278 | With a clock that does not step back any interval of length L holds at most 2 * floor(L / (disconnect + recovery)) + 2 publications |
| Readiness.ReadinessMonitor.ValidMeetsHistory | app/readiness.py:38-52 | The fields of a valid monitor are those that the check history determines |
| Readiness.ReadinessMonitor.RunCheckOnce | app/readiness.py:178-199 | One check appends to the history and keeps every field, including the last-check fields and the last error, what that history determines; a disabled monitor changes nothing |
| Readiness.ReadinessMonitor.HandleSuccess | app/readiness.py:216-246 | The field updates amount to the success step of the history machine |
| Readiness.ReadinessMonitor.HandleFailure | app/readiness.py:248-278 | The field updates amount to the failure step of the history machine |
| Readiness.ReadinessMonitor.ConfirmState | app/readiness.py:280-303 | A new state clears both timers and publishes once; the same state changes nothing |
| CommandGuarantees.PublicationsAreApart | app/api.py:256-308 | In every interleaving and for any clock a request publishes at most once, and when a key is published again the highest clock reading so far is more than the retention period after the receipt of the earlier request |
| CommandGuarantees.SteadyClockSees | app/api.py:308 | With a clock that never steps back the highest reading at a publication is its own |
| CommandGuarantees.TtlIsHonoured | app/api.py:600-608 | No key is published twice within its time to live, counted to the highest clock reading so far, in all runs, if and only if the time to live is at most the retention period |
| CommandGuarantees.PublishGapIsExact | app/database.py:1071-1085 | Given that every request publishes within a latency of its receipt, a gap from a publication to the highest clock reading at the next one under its key is guaranteed in all runs if and only if it is at most retention minus latency |
| CommandGuarantees.StoredResponsesAreFinalExactly | app/api.py:572-597 | Every later look-up within the time to live of a key with a stored response returns exactly that response, changes no row and publishes nothing, in all interleavings if and only if the time to live is at most the retention period |
| CommandGuarantees.DeadRequestBlocksKey | app/database.py:1073-1085 | The RECEIVED row of a request that died stays for good, and nothing is ever published under its key again |
| CommandGuarantees.LookUpAnswers | app/api.py:580-597 | A look-up of a key within its time to live gives the stored response, or 409 before there is one, and changes and publishes nothing |
| CommandColumns.LookUpInColumns | app/api.py:580-597 | The code of an answer that is still to come is 409, with the id of the request it comes from |
| CommandColumns.LookUpLeadsOn | app/api.py:572-608 | A look-up without a key, with an empty one, without a row, or with one beyond its time to live leads on to the insertion, and the second time to an exception |
| CommandColumns.InsertMeetsTakenKey | app/api.py:256-275 | With a taken key nothing is inserted: a valid request looks it up again, a rejected one raises |
| CommandColumns.ValidRequestInColumns | app/api.py:241-345 | On its own, a valid request with a free key is published once, stored as PUBLISHED with 200 or as FAILED with 503, and answered so |
| CommandColumns.RejectedRequestInColumns | app/api.py:611-648 | On its own, a rejected request with a free key leaves a REJECTED row with its rejection, is answered with it, and publishes nothing |
| CommandColumns.PublishInColumns | app/api.py:276-345 | A publication that MQTT took is answered 200, one it did not take and a failed BR refresh 503, and the refresh publishes nothing |
| CommandColumns.StepsWithoutRow | app/api.py:651-663 | When the row is gone, marking and saving raise |
| CommandGuarantees.AnswersLast | app/database.py:406-426 | A stored response never changes, and its row outlives the retention period |
| CommandGuarantees.InsertionNeedsAFreeKey | app/api.py:256-275 | A request that raced past the look-up inserts and publishes nothing while the key has a row |
| CommandGuarantees.OnlyTheOwnerPublishes | app/api.py:308-315 | While a key has a row only the request that inserted it publishes under the key, and not after its response is stored |
| CommandGuarantees.LapsedKeyRaises | app/api.py:256-275 | While a key has a row, a lone valid request with it is answered if and only if the row is within its time to live, and otherwise ends in an exception |
| CommandGuarantees.TtlEndsOnTime | app/api.py:600-608 | Despite truncation the time to live never ends late, and at most a second early; without a positive one nothing is within it |
| CommandGuarantees.CleanupIsExpiry | app/database.py:1069-1085 | What a cleanup call does to api_commands is one expiry step of the request machine |
| CommandSafety.RunKeeps | app/api.py:186-345 | Unique keys, row ownership and the memory of every publication hold after every interleaving |
| CommandSafety.EarlierIsForgotten | app/api.py:256-265 | Whoever is about to publish under a key holds its row, so every earlier publication under it was received longer ago than the retention period |
| BridgeDatabase.Database.SaveMessage | app/database.py:429-489 | A message is inserted if and only if its hash is new; otherwise the existing row is reported and nothing changes |
| BridgeDatabase.Database.ClaimPendingMessages | app/database.py:558-612 | The claimed ids are the batch_size smallest claimable ones, and exactly these rows become PROCESSING |
| BridgeDatabase.Database.MarkCompletedRow | app/database.py:615-713 | The row, its production record and the summary after a completion, with metadata preferred from the caller; an unknown id changes nothing |
| BridgeDatabase.Database.MarkFailedRow | app/database.py:716-758 | The row after a failure, with retry_count raised to the maximum when it must not be retried; an unknown id changes nothing |
| BridgeDatabase.Database.ResetStaleProcessing | app/database.py:761-800 | Exactly the stale, not excluded PROCESSING rows become FAILED with one more retry, and their number is returned |
| BridgeDatabase.Database.RecordAckReplayAttempt | app/database.py:844-917 | The verdict is that of the throttle on the stored columns, and only an allowed attempt is recorded |
| BridgeDatabase.Database.UpsertProductionRecordAndSummary | app/database.py:1516-1637 | The record is written, the summary incremented if and only if it was not applied before, and the answer says which |
| BridgeDatabase.Database.IncrementDailySummary | app/database.py:1656-1785 | The search and the field updates amount to counting one entry, which `IncrementCountsInto` says in columns |
| BridgeDatabase.Database.ReconcileCompletedProductionRecords | app/database.py:940-1020 | Every scanned row is counted or skipped, recovered records equal recovered summaries and the number of entries added to the log |
| BridgeDatabase.Database.CleanupRawOperationalData | app/database.py:1023-1130 | Each table loses what is expired there as far as the shared batch allows, smallest ids first; a negative retention is refused |
| BridgeDatabase.Database.QueryProductionSummaryTotals | app/database.py:1267-1302 | The loop computes the sum over the rows selected by their own columns (`AcceptsRowColumns`), the first and last completion time and the first and last production date |
| BridgeDatabase.Database.CreateApiCommandRecord | app/database.py:270-327 | A row is created if and only if neither the request id nor the key is taken |
| BridgeDatabase.Database.GetApiCommandByIdempotencyKey | app/database.py:330-348 | A row is found if and only if one holds the key |
| BridgeDatabase.Database.UpdateApiCommandResult | app/database.py:1910-1939 | The status of the request's row is changed, and whether there was one is told |
| BridgeDatabase.Database.SaveApiResponse | app/database.py:406-426 | The response is stored in the request's row, and whether there was one is told |
| Selection.SelectFirstIds | app/database.py:572-583 | ORDER BY id LIMIT n, computed by a loop, is the unique selection of the n smallest ids |
| Selection.FirstAreUnique | app/database.py:572-583 | There is only one such selection |
| Bridge.Process.RunOnce | app/queue_worker.py:229-257 | With any other thread acting in between, one round is a claim of the batch_size smallest claimable ids, each record in turn up to the stop, and the rest abandoned, as a run of the state machine |
| Bridge.Process.ProcessBatch | app/queue_worker.py:251-257 | The loop processes the claimed records in order and stops exactly at the stop event |
| Bridge.Process.ProcessRecord | app/queue_worker.py:321-432 | One record costs one begin, a submission if and only if its payload is a known type with a known table, one commit of its outcome, an ACK if and only if a success was committed, and one heartbeat that tells which |
| Bridge.Process.BeginRecord | app/queue_worker.py:322-333 | A submittable payload is handed to the child unchanged and its time begins; any other fails the record |
| Bridge.Process.FinishSubmission | app/queue_worker.py:334-429 | The row after the outcome, in its columns: a timeout, a missing ACK and the one final error use up the retries, other errors charge exactly one, and a success completes the row and gives its ACK |
| Bridge.Process.RecoverStaleProcessing | app/queue_worker.py:441-477 | Every overdue PROCESSING row fails with one more retry and no other row changes, except that the row of a live child within the submission timeout, and only that one, is left alone; the number is returned |
| Bridge.Process.OnMessage | app/mqtt_client.py:225-260 | A rejected message changes nothing, a new one is queued as one row, and a duplicate of a completed message with a stored success and ACK is answered with that ACK if and only if the throttle grants it |
| Bridge.Process.HandleDuplicateMessage | app/mqtt_client.py:266-344 | The stored ACK is sent if and only if the row found at the look-up is completed with a success and an ACK and the throttle grants a replay when it is asked; otherwise nothing is sent |
| Bridge.Process.ValidIsSound | app/queue_worker.py:142-180 | Every reachable state of the object satisfies the invariant |
| Bridge.Process.ProcessKeepsItsPromises | app/queue_worker.py:142-180 | Conservation, nothing lost, bounded attempts and unique ACKs, read off the fields of the object |
| CommandHandler.PlcCommandHandler.PlcCommand | app/api.py:186-345 | One request, with any others in between, takes exactly the steps that a duplicate, a taken key, a rejection and a failed BR refresh call for, and ends answered or raised as a run of the request machine; a rejected one or one whose refresh failed publishes nothing |
| CommandHandler.PlcCommandHandler.ExecuteCommand | app/api.py:241-345 | The valid path: a duplicate is answered as stored; otherwise insert, second look-up on a clash, publish or fail, mark, save, with 200 exactly when MQTT took the command |
| CommandHandler.PlcCommandHandler.GetDuplicateResponse | app/api.py:572-597 | The answer of the look-up is the one the request machine gives |
| CommandHandler.PlcCommandHandler.MarkResult | app/database.py:1910-1939 | Marking a request's row never fails, because cleanup spares RECEIVED rows |
| CommandHandler.PlcCommandHandler.SaveResponse | app/api.py:651-663 | A response is answered if and only if it was stored |

## Left out

* `update_status` and `get_pending_messages`: legacy, not called by the running system.
* More than one worker on one database: after a watchdog recovery the code no longer keeps ownership exclusive.
* Agreement between the last BR value on the wire and the monitor across API refreshes: the handler's snapshot and
  publication are not atomic with the monitor. A refresh is only a success or a failure here.
* SQLite, WAL, VACUUM and schema migration: a transaction is atomic or has no effect. A transaction that raises in the
  middle of a batch appears as an abandoned batch or a crash in the state machine, not in `Bridge`.
* paho, FastAPI, XML-RPC, child processes and pickles: a submission is timed out, an error or a response value.
* JSON text, SHA-256 and timestamp text: JSON is a datatype with dump and load as inverses, the hash is injective on
  topic followed by payload, and times compare as numbers. Stored times in other readable formats are not modelled.
* Unicode digits and whitespace beyond ASCII.
* Authentication, logging, health snapshots, configuration, `validate_plc_command`, Odoo sessions, thread start-up.
* Columns nobody decides on: `received_at`, `processed_at`, `last_error`, the metadata copies on queue rows and the audit
  columns of commands.
* Guarantees.ClosedForever: one configuration for the whole run. Raising max_retries at a restart reopens closed messages,
  see `RaisedMaximumReopens`; the other results likewise keep one configuration.
* CommandGuarantees.PublicationsAreApart: nothing is claimed of a publication's own clock reading when the clock has stepped
  back, since cleanup then deletes by a reading that later ones contradict.
* The DISABLED label of a switched-off readiness monitor, and the locks around its fields.
* Second clock readings inside one call: recovery and claim use one reading where the code takes two.
* Bridge.Process.OthersAct: its body does nothing, so only its contract, which allows any steps of other threads, is used.
* CommandHandler.PlcCommandHandler.OthersAct: the same for other requests and cleanup.
