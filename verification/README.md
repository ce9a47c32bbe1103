# Assen: a verified model of its records

Assen keeps legal documents, inquiries and deadlines for a staffing business. This project models the parts of it
that must never go wrong, in Dafny, and proves what they promise over every input, every interleaving and every run.
`dafny verify dfyconfig.toml` checks all of it.

- **Canonical JSON** (`Json`, `JsonLaws`): the key-sorting printer behind every hash, down to UTF-16 code units and
  ECMAScript property order. A parser that undoes it shows that equal texts are equal data.
- **Audit chain** (`AuditChain`, `AuditTransactions`): the hash-linked log of each tenant, its verifying loop, and
  appends by concurrent read-committed transactions that hold advisory locks.
- **Line diff** (`Diff`): the table of longest common subsequences and the walk that turns it into a script.
- **Documents** (`Rules`, `Documents`, `DocumentRuns`, `DocumentOutcomes`, `DocumentSerial`, `DocumentOverlaps`): the
  seven operations on documents, approval requests and the audit log; approval is gated by the health of the subject's
  facts. Transactions stop between select and write and overlap on one document, which none of them locks.
- **Outbox** (`Outbox`, `OutboxRuns`, `OutboxProgress`): batches with retries and dead letters, and any number of
  workers that claim the oldest due rows, skip locked ones and crash anywhere; that rows settle, and which never.
- **Inquiries** (`Inquiries`, `InquiryRuns`, `InquiryOutcomes`, `InquirySerial`, `InquiryOverlaps`): the two-stage
  intake, whose promotion is three commits made safe by an idempotency key. Calls stop between their statements,
  overlap on one inquiry and under one key, and crash.
- **Calendar and reminders** (`Calendar`, `Maintenance`, `MaintenanceRuns`): month and day arithmetic as ECMAScript
  does it, the three deadlines of a dispatch, and the daily job that reminds of them exactly four times, job beside
  job and statement by statement.
- **Access token** (`Tokens`, `TokenRuns`): the single-flight refresh, with a step for each await.

What holds in every run is proved for every run; for what does not, there is the exact condition, a run from empty
tables that breaks it, and the runs of calls one after the other in which it always holds.

Where the program changes rows in place the model is a class whose methods are proved twice: against functions on
snapshots of the tables, and column by column, with the numbers written out, without them. The theorems about runs are
about those functions, and a call whose statements come one after the other with nothing in between is the method
(the lemmas named `InOneGo`). Ids, digests and texts that are only compared for
equality are numbers. The text hash is a parameter that the chain theorems require to be injective. Clocks, random
ids, the order in which a query returns rows, the outcome of handlers and the answers of servers are parameters or
steps of the environment.

Where the code and what is said about it differ, the model follows the code:

- The lazy close of an inquiry takes the deadline itself as passed and the bulk close does not
  (`Inquiries.BulkAndLazyCloseAgree`).
- `canonicalJsonString` loses a member named `__proto__` (`JsonLaws.ProtoMemberIsLost`).
- `addMonths` is 1900 years off in the years 0 to 99 (`Calendar.AddMonthsLands`).
- A recorded approval decision can be overwritten by "expired" (`DocumentRuns.DecisionChangesOnlyByLateExpiry`,
  `DocumentOverlaps.ApprovedThenExpired`), and the digest-mismatch void can never happen (`DocumentRuns.NoMismatch`).
- No transaction locks a document. So a superseded document can become approved again, a draft or under review, and an
  executed one a draft or under review, when a decision or a request that selected the row earlier commits. The exact
  conditions are `DocumentOutcomes.SupersededLeavesIff`, `DocumentOutcomes.ExecutedBreaksIff`, `DocumentOutcomes.SupersededForeverIff`
  and `DocumentOutcomes.ExecutedForeverIff`; `DocumentOverlaps.SupersededThenApproved` and
  `DocumentOverlaps.ExecutedThenRejected` are runs that do it.
- No write to an inquiry looks at the row again. So a promoted row need not have a complete set, a closed one need not
  be stale, neither status is final while a call is in flight, and seeker and inquiry can disagree on a date. The exact
  conditions are `InquiryOutcomes.PromotedCompleteIff`, `InquiryOutcomes.ClosedSoundIff`,
  `InquiryOutcomes.FinalStatusChangesIff`, `InquiryOutcomes.FinalForeverIff` and `InquiryOutcomes.DatesAgreeIff`; the
  runs that break each are in `InquiryOverlaps`.
- The key check of a confirm comes before its insert, so two confirms under one key can make two job seekers
  (`InquiryOutcomes.OneSeekerIff`, `InquiryOverlaps.OneKeyTwoSeekers`).
- A row that a crashed worker left in processing is never taken up again (`OutboxProgress.StrandedForever`).

## Model

| member | source | states |
|---|---|---|
| Json.SortKeysDeep | src/lib/hash.ts:26-38 | At every depth the own keys, `__proto__` aside, come out as array indices ascending by number and then the other keys by the first code unit in which they differ, a key before its extensions; arrays keep their order, and everything else comes back as it is. |
| Json.MapItems | src/lib/hash.ts:27-29 | The array branch sorts each item and keeps the order and the number of items. |
| Json.FillSorted | src/lib/hash.ts:30-35 | The loop that fills `sorted` leaves that order in the one object: every member but `__proto__`, with its sorted value, and no other. |
| Json.SortElements | src/lib/hash.ts:32 | Sorting the keys loses and invents none. |
| Json.LexLessByPosition | src/lib/hash.ts:32 | Array.prototype.sort puts one key before another if and only if they agree up to a position where the one ends and the other goes on, or has the smaller UTF-16 code unit. |
| Json.PrecedesTotal | src/lib/hash.ts:31-34 | The enumeration order of the refilled object is strict and total, so one set of members has only one order. |
| Json.AssembleOrdered | src/lib/hash.ts:31-34 | Assigning sorted keys one by one leaves exactly the assigned members but `__proto__`, in enumeration order. |
| JsonLaws.SortedKeepsMeaning | src/lib/hash.ts:26-38 | sortKeysDeep changes no data: the sorted value means the same as its input and its keys are in canonical order at every depth. |
| JsonLaws.CanonicalPrint | src/lib/hash.ts:22-24 | Two values in canonical order that mean the same print the same text (uniqueness of the sort). |
| JsonLaws.PrintJoins | src/lib/hash.ts:23 | JSON.stringify without a gap, as ECMA-262 has it: brackets, commas and colons by their code units, no white space, undefined members left out, and null for undefined items and non-finite numbers. |
| JsonLaws.EscapesAre | src/lib/hash.ts:23 | Strings unit by unit: the seven two-character escapes, `\u` and four lower-case digits for other controls and lone surrogates, and all else, surrogate pairs too, as it is. |
| JsonLaws.PrintParses | src/lib/hash.ts:23 | A JSON parser reads the printed text of a value back as its meaning and stops right after it, if nothing, a comma or a closing bracket follows (sections 2 to 7 of RFC 8259). |
| JsonLaws.CanonicalRoundTrip | src/lib/hash.ts:22-24 | Parsing canonicalJsonString(v) gives what v means and leaves nothing over; the text is well-formed UTF-16, so encoding it as UTF-8 loses nothing. |
| JsonLaws.CanonicalTextIffSameMeaning | src/lib/hash.ts:22-38 | For all values: canonicalJsonString gives equal texts if and only if the two values mean the same JSON data, objects read as maps. |
| JsonLaws.SameIffSameMeaning | src/lib/hash.ts:22-38 | For plain values (no undefined, non-finite number or `__proto__` key) meaning the same data is the same as being equal up to object key order at every depth. |
| JsonLaws.CanonicalTextIffSame | src/lib/hash.ts:22-38 | For plain values: equal canonical texts if and only if equal up to object key order at every depth. |
| JsonLaws.ProtoMemberIsLost | src/lib/hash.ts:31-34 | Outside plain values the law fails: an object with only a `__proto__` member has the text of the empty object. |
| AuditChain.HashedColumns | src/audit/hash-chain.ts:61-80 | What is hashed is the canonical text of an object with sixteen members: each column under its own name, and null for a column that is null. |
| AuditChain.EventHashInjective | src/audit/hash-chain.ts:61-80 | With a collision-free text hash, equal event hashes mean events equal in all sixteen hashed columns. |
| AuditChain.HasherInjective | src/audit/hash-chain.ts:61-80 | Hence the hasher built from canonicalJsonString is injective on events, which is what the chain theorems assume. |
| AuditChain.AuditLog.AppendAuditEvent | src/audit/hash-chain.ts:38-103 | Appends one row and changes no other: each column of its event is that column of the input, with the given id and time; its link is the hash of the last row of its tenant, or null if there is none; its hash is that of its event. |
| AuditChain.AuditLog.VerifyChain | src/audit/hash-chain.ts:115-118 | With a tenant the problems are those of that tenant's rows; without one, those of all rows ordered by tenant and sequence. |
| AuditChain.VerifyRows | src/audit/hash-chain.ts:120-163 | The loop with its map of expected hashes reports exactly: for each row whose link is not the hash of the last row of its tenant before it, a mismatch with that hash as expected and the link as actual; and for each row that does not recompute, a hash mismatch. |
| AuditChain.ReportedIff | src/audit/hash-chain.ts:123-163 | The same of the specification: a problem is reported if and only if some row has it. |
| AuditChain.ByTenantKeepsTenantRows | src/audit/hash-chain.ts:118 | Ordering by tenant keeps each tenant's rows and their order. |
| AuditChain.ByTenantInOrder | src/audit/hash-chain.ts:118 | All tenants: the rows come tenant by tenant, in the order of the tenants. |
| AuditChain.TenantIsolation | src/audit/hash-chain.ts:115-163 | On rows of many tenants interleaved in any way, the problems reported on one tenant's rows are those of running verifyChain on that tenant's rows alone. |
| AuditChain.TenantIsolationByIds | src/audit/hash-chain.ts:115-163 | The same, with the tenant's problems picked out by event ids, which are unique. |
| AuditChain.AllTenantsRun | src/audit/hash-chain.ts:115-118 | Checking all tenants at once finds for each tenant what checking that tenant finds. |
| AuditChain.VerifiesIffLinked | src/audit/hash-chain.ts:123-163 | verifyChain reports nothing on a tenant's rows if and only if each row recomputes and names the hash of the row before it, the first naming none. |
| AuditChain.AppendLinks | src/audit/hash-chain.ts:50-100 | An append keeps a well-linked chain well-linked. |
| AuditChain.LinkedPrefix | src/audit/hash-chain.ts:123-161 | Every prefix of a well-linked chain is well-linked. |
| AuditChain.SameHeadSameLog | src/audit/hash-chain.ts:115-164 | Two single-tenant logs that both verify and end in the same event hash are equal row by row. |
| AuditChain.SurvivesOnlyAsPrefix | src/audit/hash-chain.ts:123-161 | Rows taken from a genuine chain, in any order, number and repetition, verify if and only if they are its first rows in order. |
| AuditTransactions.StepKeepsInv | src/audit/hash-chain.ts:38-100 | Every statement of any transaction, under read-committed visibility and per-tenant locks that may collide, keeps the chains that each transaction sees well-linked. |
| AuditTransactions.EveryReachableLogVerifies | src/audit/hash-chain.ts:38-103 | In every reachable state of any interleaving of transactions, with aborts and several appends each, verifyChain finds no problem in the committed rows, of one tenant or of all. |
| AuditTransactions.CommittedChainOnlyGrows | src/audit/hash-chain.ts:38-103 | A tenant's committed chain only ever grows at its end. |
| AuditTransactions.CommittedRowsCarryTheirInput | src/audit/hash-chain.ts:38-103 | In every run each committed row carries, column by column, the input of the insert that wrote it, and links to the last row of its tenant that the inserting transaction saw. |
| AuditTransactions.AppendInOneGo | src/audit/hash-chain.ts:38-103 | A transaction that finds the lock of a tenant free can lock, read and insert, and with nothing in between it then sees what AppendAuditEvent leaves of the table it saw. |
| Diff.DiffLines | src/apps/approval-ui/diff-lines.ts:15-53 | The same and removed lines rebuild `before`, the same and added lines rebuild `after`, as many lines are the same as the longest common subsequence has, and at every position the script keeps equal lines and otherwise removes first unless adding first keeps strictly more. |
| Diff.FillTable | src/apps/approval-ui/diff-lines.ts:21-26 | The table filled backwards holds at i, j the length of the longest common subsequence of the two rests. |
| Diff.WalkTable | src/apps/approval-ui/diff-lines.ts:28-52 | The greedy walk over the table emits the script of the specification. |
| Diff.JoinSplit | src/apps/approval-ui/diff-lines.ts:16-17 | Splitting at newlines and joining again is the identity, and no line holds a newline. |
| Diff.LcsIsLongest | src/apps/approval-ui/diff-lines.ts:22-26 | No common subsequence of the two texts is longer than the table's first entry. |
| Diff.WalkRebuilds | src/apps/approval-ui/diff-lines.ts:31-52 | The script rebuilds both texts and keeps as many lines as the table says. |
| Diff.WalkIsRight | src/apps/approval-ui/diff-lines.ts:31-52 | Where removing and adding tie the removal comes first; an addition comes first only where it leaves strictly more lines to keep. |
| Diff.WalkIsOptimal | src/apps/approval-ui/diff-lines.ts:15-53 | No script that turns `before` into `after` keeps more lines or makes fewer edits. |
| Rules.GroupByField | src/services/rules/evaluate-subject.ts:62-68 | The grouping loop puts every assertion into the group of its field, in order, and lists the fields in order of first appearance. |
| Rules.CheckFactAssertionHealth | src/services/rules/evaluate-subject.ts:54-102 | There is a conflict finding, which is ambiguous, for exactly the fields with conflicting verified values, and a low-confidence one, which asks for expert review, for exactly those with nothing verified and something below 0.7; they come in the order in which the fields first appear. |
| Rules.ConflictIffTwoValues | src/services/rules/evaluate-subject.ts:71-83 | A field counts as conflicting if and only if two verified assertions on it carry different values. |
| Rules.LowConfidenceIff | src/services/rules/evaluate-subject.ts:85-98 | A field is doubtful if and only if none of its assertions is verified and some unverified one has a confidence below 0.7. |
| Rules.GateIffHealthy | src/services/rules/five-value-result.ts:29-37 | The approval gate opens if and only if no field of the subject has conflicting verified values and none rests on low-confidence unverified ones alone; missing required fields do not close it. |
| Documents.DocumentService.GenerateDocumentDraft | src/services/documents/generate-draft.ts:61-149 | A key that stands for a generated document returns it; otherwise one version-1 draft with the columns of the input, one event and one outbox row are written, or an unknown type or subject is refused and nothing changes. |
| Documents.DraftRetryIff | src/services/documents/generate-draft.ts:70-90 | A second call with the same key changes nothing if and only if the first found the key free or standing for a generated document. |
| Documents.DocumentService.RequestDocumentApproval | src/services/documents/request-approval.ts:39-114 | Refuses exactly unknown or ungenerated documents and those neither draft nor under review, without a trace; otherwise records a request for the digest, subject and version of the document, to be decided within 259,200,000 ms, moves it under review and appends the event. |
| Documents.DocumentService.Approve | src/services/documents/approve.ts:38-171 | In this order: unknown, decided, expired (and voided as expired), document gone, digest changed (and voided as rejected), each with its error; otherwise the locked decision. |
| Documents.DocumentService.DecideLocked | src/services/documents/approve.ts:82-170 | Of an approval that finds the request undecided and the document there: if a mapping file asks for the subject and its row is there, it throws ExpertReviewRequired exactly when the subject is not healthy, so that a success implies health; then the status is checked and the three writes are made, column by column. Nothing is written on any throw. |
| Documents.DocumentService.AttachExecuted | src/services/documents/attach-executed-copy.ts:30-69 | Refuses exactly unknown and unapproved documents; otherwise the digest and the execution status change, nothing else, and one event is appended. |
| Documents.DocumentService.Deliver | src/services/documents/record-delivery.ts:32-68 | The delivery status stays or takes one of its six allowed steps and one event with the delivered digest is appended; any other step is refused without a trace. |
| Documents.DocumentService.Supersede | src/services/documents/supersede.ts:37-105 | From approved or superseded only, and with a reason: inserts the next version as a draft of the same logical document, type and subject, retires and links the old one and appends two events, or fails without a trace. |
| DocumentOutcomes.ChangeInOneGo | src/services/documents/request-approval.ts:39-114 | Requesting, attaching, delivering and superseding: a select and a write with nothing in between leave what the method does, and the write is reached if and only if the method throws nothing. |
| DocumentOutcomes.DecisionInOneGo | src/services/documents/approve.ts:82-170 | The same for the locked decision: select, gate and commit with nothing in between are DecideLocked. |
| DocumentRuns.StepKeepsInv | src/services/documents/approve.ts:38-171 | Each step of any interleaving keeps the document invariants: every transaction split at its select, approveDocument also at its reads, clock, void writes and the two reads of its gate, the request locked from select to commit and the document never. |
| DocumentRuns.AuditLogRebuildsDocuments | src/services/documents/supersede.ts:59-101 | After any run of these split operations, overlapping on one document too, replaying its audit events in order gives exactly its version, three statuses and both digests. |
| DocumentRuns.AtMostOneDecision | src/services/documents/approve.ts:82-170 | However approveDocument calls interleave, at most one decision transaction commits per request. |
| DocumentRuns.ApprovedEventsAreGated | src/services/documents/approve.ts:106-148 | Every document.approved event was appended by a committed approval, for the digest its request recorded; if its call read a subject row, the subject was healthy by the facts its gate read. |
| DocumentRuns.DecisionsComeFromTheRun | src/services/documents/approve.ts:82-170 | The facts and the subject row a decision is said to have seen are those that the very call that committed it read at two earlier states; it has a row exactly if a mapping file asked for the subject and the table had one at the first of them, and it is that row. |
| DocumentRuns.ApprovalsAreHealthy | src/services/documents/approve.ts:106-148 | Every document.approved event of every run: if a mapping file asks for the subject of the document and the table had its row when the committing call read the subject, then the subject was healthy by the facts in the table when that call passed its gate. |
| DocumentRuns.DecisionsAreInTime | src/services/documents/approve.ts:57-60 | In every run a decision commits only for a call that looked at the clock at most 259,200,000 ms after the present for which the request was inserted. |
| DocumentRuns.DecisionChangesOnlyByLateExpiry | src/services/documents/approve.ts:57-60 | A recorded decision is changed if and only if the step is the unconditional expiry write of a call that had read the request undecided, and it was not expired yet. |
| DocumentRuns.NoMismatch | src/services/documents/approve.ts:71-80 | In no run is a call ever in the digest-mismatch branch: no digest in the documents table ever differs from the requested one. |
| DocumentRuns.DocumentsStaySound | src/services/documents/attach-executed-copy.ts:39-54 | In every run: approved, superseded, executed and replaced documents were once approved for their unchanged digest; a successor has the same logical document, type and subject and the next version; a delivered document was sent before, and queued before that. |
| DocumentRuns.RowsOnlyGrow | src/services/documents/state-machine.ts:17-62 | In every run: an executed document stays executed, a replaced one replaced, and digest, version and logical document never change. |
| DocumentRuns.Current | src/services/documents/supersede.ts:56-78 | In every run following supersededByDocumentId ends, in the same logical document with the same type and subject, at a row that nothing replaces. |
| DocumentOutcomes.SupersededLeavesIff | src/services/documents/approve.ts:97-156 | In every run a superseded document leaves that status at a step if and only if the step is the commit of a request or of a decision on it; that transaction had selected it in another status. |
| DocumentOutcomes.ExecutedBreaksIff | src/services/documents/attach-executed-copy.ts:32-54 | In every run a document comes to be executed without being approved or superseded at a step if and only if the step is the commit of a request or of a rejection on an executed one, or of an executed copy on one no longer approved; each had selected it in a status that allowed it. |
| DocumentOutcomes.SupersededForeverIff | src/services/documents/approve.ts:97-156 | A superseded document stays superseded in every continuation if and only if no request and no decision that may still write its status is in flight. |
| DocumentOutcomes.ExecutedForeverIff | src/services/documents/attach-executed-copy.ts:39-54 | An executed document that is approved or superseded stays so in every continuation if and only if no request and no rejection that may still write its status is in flight. |
| DocumentSerial.DocumentsStaySafe | src/services/documents/attach-executed-copy.ts:39-54 | In runs where a transaction on a document starts only when no other is in flight on it: executed implies approved or superseded, and replaced implies superseded. |
| DocumentSerial.FinalDocumentsStay | src/services/documents/supersede.ts:51-78 | In such runs superseded is absorbing, and an executed document stays executed and approved or superseded. |
| DocumentOverlaps.ApprovedThenExpired | src/services/documents/approve.ts:52-170 | From empty tables: one call reads its request in time, another too late; the first approves, and the second then writes "expired" over "approved", while the document stays approved. |
| DocumentOverlaps.SupersededThenApproved | src/services/documents/approve.ts:97-134 | From empty tables: a second approval selects a document when a first has approved it, a correction supersedes it, and the second writes "approved" over "superseded", the link staying. |
| DocumentOverlaps.ExecutedThenRejected | src/services/documents/approve.ts:97-156 | From empty tables: a rejection selects a document under review, another request is approved and an executed copy attached, and the rejection leaves an executed draft. |
| Outbox.BackoffBounds | src/services/outbox-worker/worker.ts:54-59 | The five-minute cap is never reached before the attempts run out, and the waits of one row total at most 254,000 ms. |
| Outbox.BackoffIs | src/services/outbox-worker/worker.ts:54-59 | The wait is 1000 * 2^n ms up to n = 8 and 300,000 ms from then on. |
| Outbox.TransactionalOutbox.SelectDue | src/services/outbox-worker/worker.ts:75-86 | At most batchSize pending rows whose retry time, if any, has come, distinct, in order of creation; fewer only if no such row is left, and no older one left out. |
| Outbox.TransactionalOutbox.ProcessOutboxBatch | src/services/outbox-worker/worker.ts:66-149 | Exactly the claimed rows are settled, the others untouched: dead without a handler, done on success, and after a failure with a attempts before it pending with a + 1 until 1000 * 2^(a+1) ms from then, or dead if a was 7 or more; `processed` counts the successes and `failed` the rest. |
| Outbox.TransactionalOutbox.SettleOne | src/services/outbox-worker/worker.ts:102-146 | The same for one claimed row, column by column. |
| Outbox.TransactionalOutbox.SettleClaimed | src/services/outbox-worker/worker.ts:102-148 | The settling loop leaves each claimed row as its own outcome says and counts the successes. |
| OutboxRuns.StepKeepsInv | src/services/outbox-worker/worker.ts:74-146 | Every step of any number of workers, crashes included, keeps the claim and attempt invariants. |
| OutboxRuns.HeldByAtMostOne | src/services/outbox-worker/worker.ts:74-100 | No row is held by two workers at once. |
| OutboxRuns.RunsAreBounded | src/services/outbox-worker/worker.ts:114-145 | Over a whole run at most 8 steps run the handler on a row, its attempt count is the number of failures written for it, and the waits written into its retry time, each counted from the time of its write, total at most 254,000 ms. |
| OutboxRuns.SettledRight | src/services/outbox-worker/worker.ts:102-146 | In every run each settled claim becomes what its own outcome says, column by column, whoever else is at work. |
| OutboxRuns.RetriesWait | src/services/outbox-worker/worker.ts:75-86 | In every run a row that fails with a < 7 attempts before is selected by nobody for 1000 * 2^(a+1) ms from the write of the failure on. |
| OutboxRuns.SelectedIsDue | src/services/outbox-worker/worker.ts:75-86 | In every run no row is selected unless it is pending and its retry time, if any, has come. |
| OutboxRuns.FinalRowsNeverChange | src/services/outbox-worker/worker.ts:109-137 | Done and dead rows never change again. |
| OutboxRuns.BatchInOneGo | src/services/outbox-worker/worker.ts:66-149 | A worker can claim what the query picks, settle every claim and finish, and with nothing in between the rows are those that the method leaves. |
| OutboxRuns.EnqueueInOneGo | src/services/outbox-worker/enqueue.ts:28-41 | A row can be enqueued exactly under a free key, and is then pending with no attempt and no retry time. |
| OutboxProgress.SettlingUsesUpWeight | src/services/outbox-worker/worker.ts:102-146 | A measure over the remaining attempts strictly decreases with each settled claim, and no other step but a new row raises it. |
| OutboxProgress.SettlesAreBounded | src/services/outbox-worker/worker.ts:102-146 | From any point of a run after which no rows arrive, no more claims are settled than the attempts that the rows have left in all. |
| OutboxProgress.ProgressUsesUpWork | src/services/outbox-worker/worker.ts:74-146 | A measure over remaining attempts and stages strictly decreases with every step that takes a row further: locking, marking, handling, a failing done-write and settling; without new rows and crashes no step raises it. |
| OutboxProgress.NeverStuck | src/services/outbox-worker/worker.ts:75-100 | A row no worker has crashed on can always be moved on: by its worker or, once due, by any new one, which locks it or else a full batch of rows no younger. |
| OutboxProgress.AllRowsCanSettle | src/services/outbox-worker/worker.ts:74-146 | From every state in which no row is stranded, workers with any batch size, each selecting the oldest due rows that are not locked, can go on without new rows and crashes until every row is done or dead. |
| OutboxProgress.AllRowsSettle | src/services/outbox-worker/worker.ts:74-146 | At every point of every run, with any batch size, all rows can still become done or dead if and only if no row is in processing without a worker that holds it; in a run without crashes there is no such row. |
| OutboxProgress.GoingOnSettles | src/services/outbox-worker/worker.ts:74-146 | Every endless continuation without new rows and crashes in which, while some row is not done or dead, some row is taken further sooner or later, comes to a point from which on every row is done or dead. |
| OutboxProgress.StrandedForever | src/services/outbox-worker/worker.ts:79-99 | A row in processing that no worker holds stays so whatever happens: nothing in the source takes it up again. |
| Inquiries.AnsweredIff | src/services/inquiries/inquiry-lifecycle.ts:98-107 | A direct-message answer counts if and only if it holds a character that trim does not remove. |
| Inquiries.CompleteIff | src/services/inquiries/inquiry-lifecycle.ts:109-123 | A set is complete if and only if form, resume, residence card and qualification papers are there and, for T2P, the prior consent. |
| Inquiries.InquiryDesk.RecordInquiry | src/services/inquiries/inquiry-lifecycle.ts:135-152 | A new open inquiry, column by column: no paper, nothing sent, and complete answers exactly if all six are given and not blank. |
| Inquiries.InquiryDesk.UpdateInquiry | src/services/inquiries/inquiry-lifecycle.ts:183-276 | Refuses exactly unknown and final inquiries and sending with an answer missing, and then changes nothing; otherwise every column is what was given or else what it was; a sent inquiry that lacks a paper is closed, unless the input says not to, exactly from 604,800,000 ms after the sending on. |
| Inquiries.OverwriteUnchanged | src/services/inquiries/inquiry-lifecycle.ts:217-260 | The columns an update writes, set on the very row it read, give its result: so one uninterrupted call is the read and the write of the run model with nothing in between. |
| Inquiries.InquiryDesk.ConfirmJobSeeker | src/services/documents/confirm-job-seeker.ts:68-131 | A known key changes nothing and returns its job seeker; otherwise one seeker with the given details and date, one event and one outbox row are written. |
| Inquiries.InquiryDesk.PromoteInquiry | src/services/inquiries/inquiry-lifecycle.ts:290-360 | Each early return, the date being that of the receipt if there is one; after the first commit what a confirm leaves, after the second the seeker's four columns, after the third the inquiry's four, and nothing else. |
| Inquiries.InquiryDesk.CloseStaleInquiries | src/services/inquiries/inquiry-lifecycle.ts:367-393 | Closes a row exactly when it is sent, was sent strictly more than 604,800,000 ms before now and lacks one of its papers, and counts those; in whatever order they come. |
| Inquiries.BulkAndLazyCloseAgree | src/services/inquiries/inquiry-lifecycle.ts:235-258 | An update without changes and the bulk close agree on a row if and only if it is not a sent, incomplete one at the very instant of its deadline (the one compares with >=, the other with <). |
| Inquiries.CrashAndRetry | src/services/inquiries/inquiry-lifecycle.ts:290-360 | After any number of crashes of promoteInquiry, each after any commit, a retry to the end with the same input gives the tables of one uninterrupted call apart from timestamps, with exactly one seeker, one event and one outbox row for the key. |
| Inquiries.AttemptsReach | src/services/inquiries/inquiry-lifecycle.ts:318-353 | After any list of crashed attempts the tables are those of one call stopped after the furthest commit reached, with the seeker of the first attempt that got to a commit. |
| InquiryRuns.StepKeepsInv | src/services/inquiries/inquiry-lifecycle.ts:183-393 | Each statement of any number of calls, updates and bulk closes split between read and write, promotions between their commits and confirms between key check and commit, overlapping on one inquiry and under one key too, with crashes anywhere, keeps the inquiry invariants. |
| InquiryRuns.UpdateInOneGo | src/services/inquiries/inquiry-lifecycle.ts:183-276 | A read and a write of an update with nothing in between are the method, and the write is possible if and only if the method refuses nothing. |
| InquiryRuns.PromoteInOneGo | src/services/inquiries/inquiry-lifecycle.ts:290-360 | The statements of a promotion are all possible one after the other, exactly if the method does not return early, and leave what the method leaves. |
| InquiryRuns.ConfirmInOneGo | src/services/documents/confirm-job-seeker.ts:68-131 | A key check and a commit with nothing in between are the method. |
| InquiryRuns.CloseInOneGo | src/services/inquiries/inquiry-lifecycle.ts:367-393 | A select and the writes of a bulk close with nothing in between are the method. |
| InquiryOutcomes.InquiriesStaySafe | src/services/inquiries/inquiry-lifecycle.ts:183-393 | In every run: the completeness flag is that of the answers; open implies never sent; sent implies a sending time; promoted implies a job seeker that was confirmed under a key of that inquiry and carries its id and channel. |
| InquiryOutcomes.KeysNameSeekers | src/services/documents/confirm-job-seeker.ts:68-131 | In every run: the outbox row of a confirm key names a job seeker confirmed under that key, so two keys never name one; every job seeker has exactly one event and a key with a row. |
| InquiryOutcomes.OneSeekerIff | src/services/documents/confirm-job-seeker.ts:70-78 | In every run a key has exactly one job seeker if and only if no confirm under it committed after another one had; the key check comes before the insert. |
| InquiryOutcomes.OneSeekerForeverIff | src/services/documents/confirm-job-seeker.ts:70-78 | A key with one job seeker keeps only that one in every continuation if and only if no confirm whose key check missed under it is in flight. |
| InquiryOutcomes.OverlappingPromotions | src/services/inquiries/inquiry-lifecycle.ts:318-353 | In every run promotions in flight that work on one job seeker were called with one key; under a key with one job seeker, if and only if. |
| InquiryOutcomes.PromotedBy | src/services/inquiries/inquiry-lifecycle.ts:343-351 | In every run a promoted row is what some earlier last commit left of the row it found. |
| InquiryOutcomes.PromotedCompleteIff | src/services/inquiries/inquiry-lifecycle.ts:343-351 | In every run a promoted row has a complete set if and only if the row that this last commit was taken on had one; the write does not look. |
| InquiryOutcomes.SeekerWrittenBy | src/services/inquiries/inquiry-lifecycle.ts:333-341 | In every run a job seeker that a promotion wrote carries the acceptance date of the promotion that wrote it last. |
| InquiryOutcomes.DatesAgreeIff | src/services/inquiries/inquiry-lifecycle.ts:318-351 | In every run a promoted inquiry and its job seeker agree on the acceptance date if and only if the promotion that wrote the inquiry last and the one that wrote the seeker last had the same date; both had one key. |
| InquiryOutcomes.ClosedSoundIff | src/services/inquiries/inquiry-lifecycle.ts:235-258 | In every run a closed row lacks a paper and was sent at least 604,800,000 ms before its closing if and only if its close came in an update, or in bulk on a row that was still so when written. |
| InquiryOutcomes.FinalStatusChangesIff | src/services/inquiries/inquiry-lifecycle.ts:183-393 | In every run a promoted row changes status at a step if and only if the step is the write of an update that read it earlier or of a bulk close that selected it earlier; a closed row, if and only if it is a last commit on it or such an update that does not close it again. |
| InquiryOutcomes.FinalForeverIff | src/services/inquiries/inquiry-lifecycle.ts:183-393 | A promoted or closed row stays the same in every continuation if and only if no call on that inquiry is in flight. |
| InquirySerial.FinalRowsAreSafe | src/services/inquiries/inquiry-lifecycle.ts:183-393 | In runs where a call on an inquiry starts only when none is in flight on it: promoted implies that no paper is lacking and a job seeker with the same channel, inquiry and acceptance date; closed implies that a paper is lacking and a closing at least 604,800,000 ms after the sending. |
| InquirySerial.FinalRowsNeverChange | src/services/inquiries/inquiry-lifecycle.ts:191-196 | In such runs promoted and closed are absorbing: from then on the row never changes at all. |
| InquirySerial.OneSeekerPerKey | src/services/documents/confirm-job-seeker.ts:68-131 | In such runs, with at most one plain confirm in flight under a key, every confirm key has exactly one job seeker. |
| InquiryOverlaps.LateUpdateUnpromotes | src/services/inquiries/inquiry-lifecycle.ts:183-260 | From empty tables: an update that reads a sent inquiry, waits out a whole promotion and then writes puts `set_sent` back over `promoted`. |
| InquiryOverlaps.DisturbedPromotionBreaks | src/services/inquiries/inquiry-lifecycle.ts:343-351 | From empty tables: an update that takes a document back during a promotion, followed by the bulk close, lets a closed inquiry become promoted without a complete set. |
| InquiryOverlaps.LateCloseBreaks | src/services/inquiries/inquiry-lifecycle.ts:369-391 | From empty tables: the bulk close closes a row whose set an update completed after the select. |
| InquiryOverlaps.OneKeyTwoDates | src/services/inquiries/inquiry-lifecycle.ts:318-351 | From empty tables: two promotions with one key and different dates end with one job seeker, who disagrees with the inquiry on the date. |
| InquiryOverlaps.TwoKeysTwoSeekers | src/services/inquiries/inquiry-lifecycle.ts:318-351 | From empty tables: two promotions of one inquiry with two keys end with two job seekers that both carry it. |
| InquiryOverlaps.OneKeyTwoSeekers | src/services/documents/confirm-job-seeker.ts:70-78 | From empty tables: two promotions with one key, both of whose key checks come before either commits, make two job seekers with an event each. |
| Calendar.MonthStartIsClosed | src/services/documents/confirm-dispatch-assignment.ts:37-44 | Counting days month by month from 1970 gives the closed form by which ECMAScript computes the day number of a month. |
| Calendar.DayNumberOrders | src/services/outbox-worker/daily-maintenance.ts:30-34 | Day numbers order valid dates by month and day, and equal day numbers mean equal dates. |
| Calendar.FromDayNumber | src/services/outbox-worker/daily-maintenance.ts:24-28 | Every day number belongs to a valid date with that day number. |
| Calendar.DaysRoundTrip | src/services/outbox-worker/daily-maintenance.ts:24-34 | addDays and daysBetween undo each other on valid dates. |
| Calendar.DaysBetweenIsDifference | src/services/outbox-worker/daily-maintenance.ts:30-34 | The rounded quotient of milliseconds is the exact difference in days. |
| Calendar.AddMonthsLands | src/services/documents/confirm-dispatch-assignment.ts:37-44 | addMonths gives the target month on min(day, its last day) if and only if the year is not 0 to 99, which Date.UTC reads as 1900 to 1999. |
| Calendar.AddMonthsMonotone | src/services/documents/confirm-dispatch-assignment.ts:37-44 | addMonths is weakly monotone in the date. |
| Calendar.AddMonthsTwice | src/services/documents/confirm-dispatch-assignment.ts:37-44 | Adding a months and then b months never lands after adding a + b at once. |
| Calendar.DeadlineTable.CreateT2pDeadlines | src/services/documents/confirm-dispatch-assignment.ts:210-231 | The loop reports the deadlines of the three policies and inserts the rows that are not there yet. |
| Calendar.DeadlinesAreRecorded | src/services/documents/confirm-dispatch-assignment.ts:212-231 | The table gains exactly the reported deadlines, and a row that was there before wins. |
| Calendar.T2pDeadlinesIncrease | src/services/documents/confirm-dispatch-assignment.ts:31-44 | The 4-, 5- and 6-month deadlines are strictly increasing, and the last is 181 to 184 days after the start. |
| Maintenance.KeyInjective | src/services/outbox-worker/daily-maintenance.ts:73 | Reminder keys of different deadlines or of different numbers of days differ. |
| Maintenance.KeyReads | src/services/outbox-worker/daily-maintenance.ts:73 | The key is the prefix `t2p.deadline_approaching:` and, each after a colon, tenant, deadline, number of days and the day of the run. |
| Maintenance.IsoTextReads | src/services/outbox-worker/daily-maintenance.ts:20-22 | A date reads as year, month and day in four, two and two digits with hyphens between. |
| Maintenance.OwedReads | src/services/outbox-worker/daily-maintenance.ts:49-78 | A reminder is owed exactly for an unfulfilled deadline 30, 14, 7 or 1 days from today, under its tenant, id, number of days and today, and names its id, due date and number of days. |
| Maintenance.MaintenanceJob.SelectUpcoming | src/services/outbox-worker/daily-maintenance.ts:49-52 | Exactly the tenant's unfulfilled deadlines due today up to 30 days ahead, each once. |
| Maintenance.MaintenanceJob.RemindTenant | src/services/outbox-worker/daily-maintenance.ts:44-78 | One tenant's turn adds a row for each reminder owed by the deadlines it got to and no other row, and counts them, new or not. |
| Maintenance.MaintenanceJob.EnqueueDailyMaintenance | src/services/outbox-worker/daily-maintenance.ts:36-90 | A run adds the reminders owed by the deadlines it got to, gets to all of a tenant's unless that tenant's turn fails, and a failure costs no other tenant anything. |
| MaintenanceRuns.HandleReminds | src/services/outbox-worker/daily-maintenance.ts:54-78 | One round of the loop of a job in the runs does what the method says of it: a row for the reminder owed, if there is none, and nothing else. |
| MaintenanceRuns.HandledWasUpcoming | src/services/outbox-worker/daily-maintenance.ts:49-52 | In every run what a job handles it had selected before, unfulfilled and upcoming by the day on which the job began. |
| MaintenanceRuns.ReminderIffFired | src/services/outbox-worker/daily-maintenance.ts:44-78 | After any run of jobs, which stop between any two rows, overlap, run past midnight and fail anywhere, the reminder of a deadline n days ahead exists if and only if a job that began on the day n days before it was due has handled the deadline. |
| MaintenanceRuns.FourReminders | src/services/outbox-worker/daily-maintenance.ts:36-78 | A deadline that stays unfulfilled, with a job through its tenant begun on the days 30, 14, 7 and 1 before it is due, has exactly those four reminder rows and no others, however many jobs run. |
| MaintenanceRuns.RunKeepsInv | src/services/outbox-worker/enqueue.ts:28-41 | Every reminder row in the outbox is under its own key and names a deadline, its due date and one of the four numbers of days. |
| MaintenanceRuns.TurnInOneGo | src/services/outbox-worker/daily-maintenance.ts:44-78 | A job can begin, select the rows of a tenant, handle them all and end, and with nothing in between it has added what the method says of one turn. |
| Tokens.TokenProvider.AfterStoreRead | src/integrations/freee/secret-manager-store.ts:100-111 | A stored token with more than 60 seconds left is cached and returned; otherwise a refresh is started, or the one in flight is joined, and the cache stays. |
| TokenRuns.StepKeepsInv | src/integrations/freee/secret-manager-store.ts:96-153 | Every step of any number of calls, with failing reads, writes and responses, keeps the single-flight and storage invariants. |
| TokenRuns.AtMostOneRefresh | src/integrations/freee/secret-manager-store.ts:105-110 | At every await at most one refresh is outstanding, and the field names it. |
| TokenRuns.RotatedTokenIsFound | src/integrations/freee/secret-manager-store.ts:135-142 | A refused refresh finds in the store the token the server accepts if and only if no rotation was lost, and returns and caches it if it is fresh. |
| TokenRuns.StoreIsCurrentIff | src/integrations/freee/secret-manager-store.ts:144-152 | Between refreshes the store holds the refresh token the server accepts if and only if no rotated token was lost on its way there. |
| TokenRuns.AnswersAreStored | src/integrations/freee/secret-manager-store.ts:96-153 | No call is answered with a token, and none is cached, that was not written to the store. |
| TokenRuns.DirectAnswersAreFresh | src/integrations/freee/secret-manager-store.ts:96-104 | In every run a call is answered from the cache, or from what it read of the store, exactly when that token has more than 60 seconds left. |
| TokenRuns.AnswersAreFreshOrNew | src/integrations/freee/secret-manager-store.ts:96-153 | In every run a call is only answered with a token that had more than 60 seconds left when last looked at, or with the one the server gave, dated from when its answer was read. |
| TokenRuns.LostIsForever | src/integrations/freee/secret-manager-store.ts:121-153 | Once a rotated token is lost, no later refresh is ever accepted. |
| TokenRuns.RefreshInOneGo | src/integrations/freee/secret-manager-store.ts:100-153 | A call that finds no fresh token and no refresh in flight can start one, and if the server accepts and nothing comes in between, the new token is stored, cached and answered. |

## Left out

- JsonLaws.CanonicalTextIffSame: plain values only; `JsonLaws.CanonicalTextIffSameMeaning` covers the rest. Values that JSON.stringify does not treat as data (functions, symbols, bigints, cycles, toJSON) are not modelled; number texts stand for numbers.
- AuditChain.EventHashInjective: takes the text hash to be injective, which SHA-256 is not, and tenant ids to be uuid text, so that the expected-hash map has no prototype keys.
- AuditTransactions.EveryReachableLogVerifies: the isolation level is the read-committed one of the source; sequence numbers are drawn at the insert.
- Documents.DraftRetryIff: the second call comes after the first; in the runs of `DocumentRuns` a draft is inserted whether or not its key is taken, as it is when two calls with one key overlap. Rendering and object storage are parameters.
- Documents.DocumentService.RequestDocumentApproval: role, nonce, proposed diff and the notification payload are left out.
- DocumentRuns.DocumentsStaySound: nothing is claimed about the uniqueness of versions or about writing an executed copy once, since self-transitions are allowed; that executed implies approved or superseded, and superseded is final, is not true of every run, and is stated by `DocumentOutcomes.ExecutedBreaksIff` and `DocumentOutcomes.SupersededLeavesIff`.
- Outbox.TransactionalOutbox.ProcessOutboxBatch: a status write that takes effect but is reported as failed is not modelled, nor is lastError.
- OutboxProgress.GoingOnSettles: that some worker is started again and again, so that a row that can be taken further is, is the caller's loop and a hypothesis here; `OutboxProgress.NeverStuck` shows that it can always be met.
- Inquiries.InquiryDesk.UpdateInquiry: display names, notes, source tags and source details are left out.
- Inquiries.InquiryDesk.CloseStaleInquiries: one tenant's rows; close reasons are left out.
- Inquiries.CrashAndRetry: the retry is of the same input with no update in between; encrypted personal data and the party snapshot are one opaque value.
- InquiryRuns.StepKeepsInv: each idempotency key has one use: one inquiry, plain confirms, or other producers.
- InquirySerial.FinalRowsNeverChange: only for runs in which calls on one inquiry do not overlap; `InquiryOutcomes.FinalForeverIff` is the statement for all runs.
- Calendar.AddMonthsMonotone: years from 100 on, because of the two-digit years of Date.UTC; dates after the year 9999, whose text form differs, are not modelled.
- Calendar.DeadlineTable.CreateT2pDeadlines: the rest of confirmDispatchAssignment, which inserts the assignment, its ledger entry and its snapshots, is left out.
- Maintenance.MaintenanceJob.EnqueueDailyMaintenance: the closing of stale inquiries it starts with is `Inquiries.InquiryDesk.CloseStaleInquiries`; a failure there is a failure before the tenant's first row.
- MaintenanceRuns.FourReminders: other producers of outbox rows do not use the prefix of the reminder keys.
- TokenRuns.RotatedTokenIsFound: one process; a second one that rotates the token between the two reads of the store is not modelled.
- processOutboxBatchForAllTenants, which only adds up the batches of each tenant.
- overallResult, the ledger and retention tracks, the required-field check and the mapping files: finite and flat.
- The staff mapping and partner exclusion readers, job scoring, KPI texts and form schemas: easy.
- The OAuth server, HTTP, MCP tools, Slack, freee calls, object storage, encryption, logging and row-level security.
