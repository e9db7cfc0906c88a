# Verified model of the case hub

A Dafny model of the compliance-case hub, with proofs about whole runs of it. `dafny verify
dfyconfig.toml` checks everything.

The system routes compliance cases to departments by versioned rules, escalates them when they are
overdue, re-evaluates them when rules change, and stores every change twice: as a line appended to
a day file (a *shard*), and as rows of an SQLite index that can be rebuilt from the shards. Beside
it stand a registry that hands out AI resources, a licence store with optimistic locking, and a
scheduler that retries background tasks.

## How it is modelled

A `Disk` is the shard files (`Path -> seq<Record>`) and the index tables. A service call reads the
index, and then is refused, or returns what is there, or hands a list of writes to one transaction:
its `Plan`. What that comes to is stated a second time, independently of the plans, in
`CaseAnswers`. `Workflow.Step` is one call on a disk, with any fault the store can have: an append that
fails, a statement that fails, a commit that fails. `Workflow.Run` is any sequence of calls.
The classes (`Repo.Store`, `Services.ItemService`, `Services.EscalationService`,
`Worker.ReevalWorker`, `Import.BatchService`, ...) are the source's objects, with its statements in
its order; each method is proved to do what the corresponding `Step` or `Run` does, and the theorems
are about those. The AI registry, the licence store and the shard writer are built in the same way.

| file | what it is about |
|---|---|
| `Domain.dfy`, `Dispatch.dfy` | entities, transitions, rule matching, choosing the rule |
| `Tables.dfy`, `Repo.dfy` | index tables and statements, append-then-index, transactions |
| `Workflow.dfy`, `Services.dfy`, `Worker.dfy`, `Import.dfy` | the service calls, the two sweeps, batch import |
| `Lifecycle.dfy`, `CaseTheorems.dfy`, `SweepTheorems.dfy` | what every run keeps, and what sweeps achieve |
| `CaseAnswers.dfy` | what every service call accepts, answers and stores, column by column |
| `RuleTheorems.dfy` | which rules re-evaluation can reach |
| `Agreement.dfy`, `LogTheorems.dfy`, `Filing.dfy` | shards against tables, and the lines a run files |
| `Rebuild.dfy`, `RebuildTheorems.dfy`, `Maintenance.dfy` | replay, rebuild and reconcile; what comes back, and rebuilds among calls |
| `Rollbacks.dfy`, `Recovery.dfy` | what rollbacks leave in the files, and what a lost index can then be rebuilt to |
| `Shard.dfy`, `ShardFiles.dfy`, `PathOrder.dfy` | shard files as bytes, rotation, their records, the order of shard paths |
| `AiRegistry.dfy`, `AiTheorems.dfy`, `AiAnswers.dfy` | the AI resource registry, its conservation laws, and what each call answers |
| `Licensing.dfy`, `Scheduler.dfy` | interleaved licence renewals, retry and backoff |

## What the proofs found

- `hubctl rebuild-index` on the store it is meant for works only while no rule has been created,
  in every state at all: the rules table is not cleared, so the first logged rule clashes
  (`Maintenance.RebuildNeedsNoRules`).
- A rolled-back transaction leaves its lines in the shards. A registration whose transaction fails
  anywhere after its first append comes back in every later rebuild
  (`Rollbacks.RegistrationAgreesExactly`, `RolledBackCaseComesBack`). The shards of a run, all of them
  readable, can be loaded into an empty index if and only if no external reference was filed by two
  registrations, which is what a retry after such a failure does
  (`Recovery.RunFilesLoadExactly`; `RebuildTheorems.RunFilesLoad` and
  `Rollbacks.RetriedRegistrationBlocksRebuild` are the cases without rollbacks and with such a retry).
  The repository's `README.legacy.md` says that a transaction leaves no half record; the model follows
  the code.
- A lost index that is rebuilt has exactly one current referral for a case if and only if the shards
  hold a referral of the case under exactly one key and no escalation of it, whatever was rolled back
  (`RebuildTheorems.SoleCurrentExactly`). Without rollbacks that is when the case was never re-routed:
  one escalation leaves it with none, one re-evaluation with two
  (`RebuildTheorems.OneCurrentAfterRebuild`). With them it can fail for a case whose tables show one
  referral (`Recovery.RolledBackRerouteSplitsCurrent`). When a superseded rule ended is lost
  (`RebuildTheorems.RulesComeBack`).
- With a positive shard limit (1 MiB by default) a rebuild misses every record of a day after its
  first rotation (`Shard.RotationHidesRecords`).
- After a crash inside a line the next record appended is lost with the fragment
  (`ShardFiles.CutLosesNextRecord`).
- A rule with a later effective date than a case's registration is never applied to it by
  re-evaluation, although re-evaluation is set off by such rules
  (`SweepTheorems.ReevaluationNeverReachesYoungerRules`); if all newer rules are such, the case keeps
  its rule while that is active, and every sweep re-routes it to that rule once more, with one more
  referral (`RuleTheorems.ReevaluationKeepsTheRule`, `StaleCaseStaysStale`).
- An escalation sweep, the store not failing, gets through if and only if no overdue case was returned
  for correction, and stops at the first that was (`SweepTheorems.SweepSucceedsExactly`,
  `SweepStopsAtReturned`).
- `CreateRule` accepts a supersede of a version that does not exist; the audit trail then names it as
  superseded, and once a rule of that version is created a rebuild takes it for superseded though it
  is active (`LogTheorems.SupersedeMustExist`, `RebuildTheorems.RulesOfRunComeBack`).
- No call of the AI registry returns or activates an application, so resubmitting and closing always
  fail; and an offer named in a submission takes none of its slots
  (`AiTheorems.NothingIsResubmittedOrClosed`, `AiTheorems.OversoldExactly`).
- The first-failure time of a scheduler's failure record fits the waits of exactly three attempts
  (`Scheduler.FirstFailureTime`).

## Model

The theorems come first, then what they rest on, and last the source's own objects, whose methods are
proved to do what the specification of each call says.

| member | source | states |
|---|---|---|
| CaseTheorems.ReachableInv | internal/service/case_service.go:52-261 | The invariant that ties cases, rules, referrals and escalations together holds in every state that service calls, with any faults, and in-place rebuilds of all the files can lead to from an empty data directory. |
| CaseTheorems.LeadFollowsRuleAndLevel | internal/service/escalation_service.go:50-88 | In every reachable state a case's lead is its rule's lead escalated through levels 1 to its level, its level is at most the maximum, and it is 0 while the case is registered, adjudicated or returned. |
| CaseTheorems.ReevaluationSparesEscalated | internal/worker/reeval.go:95-135 | Re-evaluation never changes an escalated case, its lead or its referrals, whatever the rules. |
| CaseTheorems.OneCurrentReferral | internal/index/writes.go:60-81 | In every such state exactly one referral of a case is current, and it carries the case's own lead, co-departments and rule version. (For an index rebuilt after it was lost: RebuildTheorems.OneCurrentAfterRebuild.) |
| CaseTheorems.EscalationChain | internal/service/escalation_service.go:58-102 | A case at level k has exactly the escalations 0 to 1, up to k-1 to k, at rising times, each taking over the last one's new lead, the first from the rule's lead, the last giving the case's lead. |
| CaseTheorems.EscalationNotBefore | internal/service/escalation_service.go:83-88 | The deadline after k escalations is at least registration plus the default deadline plus k extensions. |
| CaseTheorems.EscalationTiming | internal/index/queries.go:343-344 | The k-th escalation is later than registration plus the default deadline plus k-1 extensions. |
| CaseTheorems.ClosedCasesAreFrozen | internal/domain/compliance_case.go:55-94 | Once completed or cancelled, a case's status, text, routing, level, deadline, referrals and escalations survive every later call and rebuild in place; only a repeat of the same ending may refresh its own stamp, reason and update time. |
| CaseTheorems.CasesKeepIdentity | internal/index/writes.go:34-58 | No case disappears, and its id, reference and registration data never change, through any later calls and rebuilds in place. |
| CaseTheorems.ReferencesAreUnique | internal/service/case_service.go:63-69 | In every reachable state no two cases share an external reference. |
| CaseTheorems.StampsMatchStatus | internal/service/case_service.go:211-244 | CompletedAt is set exactly when completed, CancelledAt exactly when cancelled, and no stored case is left in Registered. |
| Domain.EscalatedLeadsDiffer | internal/domain/escalation.go:22-27 | Every escalation hands a case to a department name it never had before, whatever the base name is. |
| CaseAnswers.RegisterAnswers | internal/service/case_service.go:71-123 | A complete registration of an unknown reference is refused if and only if no rule in force is met by its category and keywords; otherwise the rule in force and met with the highest priority, then version, routes it, and unless the store fails the case with every column of the request, its referral and its audit entry are stored, and the case is the answer. |
| CaseAnswers.RegisterAnswersAtOnce | internal/service/case_service.go:52-69 | A registration is a validation error if and only if reference, title or registrant is missing; a complete one of a known reference is answered with its case. |
| CaseAnswers.EscalateAnswers | internal/service/escalation_service.go:50-111 | Only overdue open cases below the top level are listed; of these exactly the returned and registered ones cannot be raised; any other, unless the store fails, gets the next level, the supervisor of its lead, the new deadline and the status Escalated, with one escalation, one current referral and one audit entry, all columns given. |
| CaseAnswers.EscalatedMeansRaised | internal/domain/compliance_case.go:55-63 | In every reachable state an escalated case has been raised at least once, and an adjudicated or returned one never. |
| CaseAnswers.ReevaluateAnswers | internal/worker/reeval.go:95-157 | A case is re-routed if and only if it is registered or adjudicated, there is a younger rule, and some rule in force now and at its registration is met; then by the best such rule, all columns given; otherwise nothing changes. |
| CaseAnswers.StartProcessingAnswers | internal/service/case_service.go:125-139 | Accepted exactly on adjudicated, in-progress and escalated cases, and then only the status, now in progress, and the update time change; the audit entry in full. |
| CaseAnswers.ModifyAnswers | internal/service/case_service.go:141-175 | Accepted exactly on cases not closed; each field given replaces its own column, and nothing else but the update time changes. |
| CaseAnswers.ReturnForCorrectionAnswers | internal/service/case_service.go:177-191 | Accepted exactly on registered, adjudicated and returned cases; the reason goes to the audit entry. |
| CaseAnswers.ResubmitAnswers | internal/service/case_service.go:193-209 | Accepted exactly on returned and registered cases, which become adjudicated with the routing they had. |
| CaseAnswers.CancelAnswers | internal/service/case_service.go:211-227 | Accepted exactly on cases not completed, with stamp, reason and status. |
| CaseAnswers.CompleteAnswers | internal/service/case_service.go:229-244 | Accepted exactly on cases in progress, escalated or completed, with stamp and status. |
| CaseAnswers.ChoiceRoutes | internal/dispatch/adjudicator.go:28-58 | The adjudicator's choice is the rule in force and met, now and at registration, that no other such rule outranks by priority, then version; there is none if and only if no rule is. |
| CaseAnswers.CreateRuleAnswers | internal/service/rule_service.go:35-93 | Refused exactly for a missing name, lead or author; otherwise the next version is stored with every column of the request, the superseded one ends, all other rules stay, and the audit trail gets exactly these entries. |
| CaseAnswers.RecordBatchAnswers | internal/service/batch_service.go:57-79 | The batch record and its audit entry hold the store, date and counts given. |
| CaseAnswers.RetryFailureAnswers | internal/service/query_service.go:79-94 | Refused exactly for an unknown failure; a known one is marked retried, with the time. |
| RebuildTheorems.RebuildLostIndex | cmd/hubctl/main.go:200-242 | The commands on a store that lost its index, all files readable: the rebuild answers ok if and only if its commit succeeds, and then leaves the live tables in that sense, and the reconciliation right after it reports nothing; otherwise the index stays empty. |
| RebuildTheorems.RebuildRestoresRun | internal/repo/rebuild.go:91-200 | For every run without rollbacks whose store clock does not go back, and as long as no day file is rotated, whatever is loaded from the files is all seven tables, up to a rule's status and effective_to and a referral's is_current, the first right exactly for rules superseded or never named in the audit trail, the second for rules never named there, the third for cases with one referral. |
| RebuildTheorems.RulesOfRunComeBack | internal/repo/rebuild.go:187-200 | A rule of such a run comes back up to its effective_to if and only if some call superseded it when it existed or none superseded that version at all, and with its effective_to if and only if none did. |
| Recovery.RunFilesLoadExactly | internal/repo/rebuild.go:91-171 | For any run with any faults, rollbacks and clocks in which no registration draws an id that a line already carries: all its files can be loaded into an empty index if and only if no two registrations that got past the append of their case had the same external reference. |
| RebuildTheorems.SoleCurrentExactly | internal/repo/rebuild.go:187-200 | From any files whose lines are as the services log them, a rebuild into an empty index gives a case exactly one current referral if and only if exactly one key's latest record is a referral of it and no key's latest record is an escalation of it. |
| RebuildTheorems.SoleCurrentInTrace | internal/repo/rebuild.go:187-200 | That holds at every point of every trace of calls, with any faults, and in-place rebuilds. |
| Recovery.RolledBackRerouteSplitsCurrent | internal/worker/reeval.go:95-157 | After a rolled-back re-evaluation of a case with one referral, from agreeing files, no table has changed, and a rebuild of a lost index gives the case one current referral if and only if the failure came before the new referral's line was filed. |
| RebuildTheorems.RunFilesLoad | internal/repo/rebuild.go:91-171 | The files of every run without rollbacks, with a store clock that does not go back, can be loaded into an empty index. |
| RebuildTheorems.CurrencyIsGuessedRight | internal/repo/rebuild.go:187-200 | From files that agree with the tables, the rebuilt is_current of a case's referrals is right if and only if the case has exactly one referral. |
| RebuildTheorems.OneCurrentAfterRebuild | internal/repo/rebuild.go:187-200 | From files that agree with the tables, a rebuild of a lost index gives a case its one current referral, with the case's own routing, if and only if it has one referral in all. |
| RebuildTheorems.RulesComeBack | internal/repo/rebuild.go:187-200 | From agreeing files the same rules come back, superseded exactly if the audit trail names them; a rebuilt rule equals the live one up to effective_to if and only if the live one is superseded or not named there, and in full if and only if it is not named there. |
| RebuildTheorems.RebuiltCasesAreRouted | internal/repo/rebuild.go:91-200 | In the rebuilt tables a case's lead, co-departments, level and stamps still are those of its rule and its history. |
| RebuildTheorems.CommittedIdsAreReplayed | internal/repo/rebuild.go:41-48 | In every run at all, the keys recovered by replay include every key that has a row. |
| LogTheorems.FilesAgreeWithTables | internal/repo/store.go:147-270 | After any run without rollbacks whose store clock does not go back, reading the files in path order gives every row of every table. |
| LogTheorems.EveryRowIsLogged | internal/repo/store.go:45-67 | Write-ahead: in every run, rollbacks included, each row is a record already in the shards with the same key. |
| LogTheorems.SupersedeMustExist | internal/service/rule_service.go:35-93 | A committed CreateRule keeps the audit trail telling exactly the superseded rules if and only if the version it supersedes, if any, exists beforehand. |
| LogTheorems.AuditTellsSupersededRules | internal/repo/rebuild.go:187-200 | In every run whose supersedes name existing rules, the audit trail names exactly the superseded rules. |
| LogTheorems.SupersedeHistory | internal/service/rule_service.go:35-93 | In every run the audit trail names exactly the versions that some call answered Ok superseded, and the superseded rules are exactly those that existed when such a call did so. |
| Filing.RunAppends | internal/repo/store.go:147-270 | The files of any run, rollbacks included, are the lines its calls appended, in that order, and no others. |
| Filing.KeyAgreesExactly | internal/repo/rebuild.go:98-118 | After any run, a key whose lines were filed on days that do not go back agrees with its row if and only if the last line filed for it is that row as logged. |
| Filing.RunAgreesExactly | internal/repo/rebuild.go:98-118 | Which is so for every key but those of scheduler failures when the days of the calls do not go back. |
| Maintenance.TraceKeepsInv | internal/repo/rebuild.go:91-185 | Calls and in-place rebuilds in any order keep the case invariant, the write-ahead property, and that no case has been filed while there are no rules. |
| Maintenance.RebuildNeedsNoRules | internal/index/writes.go:216-239 | In every state, whatever was rolled back or rebuilt before, an in-place rebuild of all the files can load them if and only if there are no rules; then there is no case either, before or after it. |
| Maintenance.RunNeedsNoRules | internal/index/writes.go:216-239 | The same equivalence for every run of service calls alone. |
| Rollbacks.RollbackAgreesExactly | internal/repo/store.go:45-67 | A rolled-back transaction with fresh keys leaves files and tables in agreement if and only if every line it filed equals the row of its key as logged. |
| Rollbacks.CallAgreesExactly | internal/repo/store.go:45-67 | Any call with fresh keys keeps agreement if and only if it is refused, commits, or filed only lines that equal their rows. |
| Rollbacks.RegistrationAgreesExactly | internal/service/case_service.go:106-120 | A registration under a fresh id keeps agreement if and only if it is refused before its transaction, is answered Ok, or failed at its very first append; a failed commit, statement or later append always breaks it. |
| Rollbacks.RolledBackCaseComesBack | internal/repo/store.go:45-67 | After any other failed registration its case stays without a row and stays its id's latest record through every later run that uses no id twice, so every rebuild brings it back. |
| Rollbacks.RetriedRegistrationBlocksRebuild | internal/repo/store.go:147-159 | And once the reference is registered after all, by a retry or otherwise, neither an empty index nor any other can load the files, then or ever after. |
| Rebuild.RebuildIndex | internal/repo/rebuild.go:91-185 | Succeeds exactly when the commit does and nothing clashes; then the tables are the latest records post-processed; on any error the index is unchanged; the files are only read, and the report counts them. |
| Rebuild.Reconcile | internal/repo/rebuild.go:241-294 | For any files and manifest, records in readable files = IndexCount + OrphanedInShard - MissingInShard; there is one detail for every unreadable, unknown, miscounted and changed file, the changed ones being the checksum mismatches; and none exactly when every file matches its manifest entry. |
| Rebuild.FreshManifestReconciles | internal/repo/rebuild.go:202-294 | The manifest that a rebuild with all files readable has just written shows no discrepancy. |
| SweepTheorems.SweepClearsBacklog | internal/service/escalation_service.go:27-48 | A sweep that ends without error leaves no overdue case below the top level: a second sweep at the same moment lists nothing. |
| SweepTheorems.SweepSucceedsExactly | internal/service/escalation_service.go:27-48 | If the store does not fail before the sweep stops, all its escalations are answered Ok if and only if no listed case is returned for correction or still registered; then a second sweep at that moment lists nothing. |
| SweepTheorems.SweepStopsAtReturned | internal/domain/compliance_case.go:55-86 | Unless the store fails, a sweep gets past a listed case if and only if it is neither returned for correction nor still registered (which no stored case is), and where it stops every case before it is raised and no other. |
| SweepTheorems.SweepPrefix | internal/service/escalation_service.go:27-48 | After i successful escalations exactly the first i listed cases have risen, one level each. |
| SweepTheorems.ReevaluationIsIdempotent | internal/worker/reeval.go:29-157 | Repeating a sweep that met no failure changes no case's lead, co-departments, rule version or status. |
| SweepTheorems.SecondSweepIsIdle | internal/worker/reeval.go:95-157 | Once every stale case is settled, any sweep under the same rules moves nothing but update times. |
| SweepTheorems.SweepSparesOthers | internal/worker/reeval.go:29-157 | A re-evaluation sweep, wherever it stops and whatever faults it meets, leaves the row, referrals and escalations of every case it did not collect. |
| SweepTheorems.RunSparesOthers | internal/service/case_service.go:246-261 | So does any run of calls none of which is about the case. |
| SweepTheorems.ReevaluationNeverReachesYoungerRules | internal/dispatch/adjudicator.go:28-32 | If re-evaluation moves a case to another rule version, that rule was in force when the case was registered. |
| RuleTheorems.ReevaluationKeepsTheRule | internal/worker/reeval.go:95-135 | If every rule created after a case's registration has a later effective date, re-evaluation, after any run, leaves the case under the rule it was registered under as long as that is active and the case's category and keywords are as they were. |
| RuleTheorems.StaleCaseStaysStale | internal/worker/reeval.go:95-157 | Such a case, once any younger rule exists, is stale after its re-evaluation as before it, so every sweep files it one more referral to the same rule. |
| Worker.StaleRowsExactlyOnce | internal/worker/reeval.go:65-90 | Over a table of any size each stale case is collected exactly once, and nothing else. |
| Import.ImportingAgain | internal/service/batch_service.go:30-55 | Importing a batch again, whatever happened in between, answers each row that succeeded before with the same case and adds nothing for it. |
| Import.AnswerLasts | internal/service/case_service.go:63-69 | Once answered with a case, a reference is answered with that case after any later run. |
| Import.SameReferenceSameCase | internal/service/batch_service.go:38-55 | Rows of one batch that succeed under one reference get the same case id. |
| Import.RowResultsAre | internal/service/batch_service.go:37-55 | Each row's result has its index and reference, and success, case id and error as registering it was answered. |
| Shard.RotationHidesRecords | internal/shard/scanner.go:38-40 | After any sequence of appends to any day files the scanner sees all records of a day if and only if its day file was below the limit before the last append to that day. |
| Shard.DayOfRecords | internal/shard/writer.go:38-110 | After any sequence of appends to any day files, in any order, the generations of a day together hold exactly its records, and the day file the first of them. |
| Shard.RoundTrip | internal/shard/reader.go:16-39 | Reading what was appended returns exactly those records if and only if each is non-empty, free of newlines, not ending in a carriage return and below the token limit. |
| Shard.TornFile | internal/shard/reader.go:16-39 | A file cut at any byte reads as a prefix of its records and at most one partial record after it. |
| Shard.GluedRecord | internal/shard/reader.go:16-39 | After a cut inside a line the next record reads as one line with the fragment, or makes the file unreadable if that is too long; all records before and after are read as they are. |
| Shard.LocationsStay | internal/shard/writer.go:68-89 | A location reads back its own line after any later appends to any files. |
| ShardFiles.RunReadsBack | internal/shard/writer.go:38-110 | If the writer appends the lines of any run, rollbacks included, to an empty directory, the scanner sees exactly the day files that the store's theorems speak of, and the reader gets exactly its records from each if and only if there is no limit or the file was below it before its last line. |
| ShardFiles.AppendMirrors | internal/shard/writer.go:38-90 | An append to a day file below the limit keeps the bytes of all day files the encodings of their records, and no other day file there. |
| ShardFiles.MirrorReads | internal/shard/reader.go:16-39 | And reading such a file gives back exactly the day's records. |
| ShardFiles.CutLosesNextRecord | internal/shard/reader.go:16-39 | After a cut inside a line the next record appended, committed or not, is not read back, and every other one is. |
| PathOrder.PathTextOrder | internal/shard/writer.go:112-116 | Shard paths of one entity are in text order exactly when their dates are in time order. |
| AiTheorems.ComputeIsConserved | internal/hub/ai_service.go:55-116 | In every run a cluster's allocation is its starting value plus the live reservations on it, and never above its total unless it began so. |
| AiTheorems.ReleaseIsRefusedOnlyBelowZero | internal/hub/ai_service.go:102-109 | A release is refused exactly when a negative starting allocation is not made up for by the other live reservations; the cluster is never missing. |
| AiTheorems.ReleaseSucceeds | internal/hub/ai_service.go:92-116 | With non-negative starts every release succeeds in every run. |
| AiTheorems.ReleaseGivesBack | internal/hub/ai_service.go:92-116 | A release gives its cluster exactly what the reservation took, and touches no other cluster. |
| AiTheorems.SecondReleaseAndReserve | internal/hub/ai_service.go:76-101 | A second release, or a reserve while one is live, changes nothing, in any state. |
| AiTheorems.BandwidthIsCounted | internal/hub/ai_service.go:150-178 | In every run a route's bandwidth is its start plus everything granted on it, within its capacity. |
| AiTheorems.SlotsAreCounted | internal/hub/ai_service.go:232-254 | In every run an offer's used slots are its start plus its applications, within its capacity. |
| AiTheorems.HoldersAreCounted | internal/hub/ai_service.go:232-254 | In every run the applications naming an offer, plus those it was applied over, are exactly as many as its applications plus the submissions that already named it. |
| AiTheorems.OversoldExactly | internal/hub/ai_service.go:232-254 | So no more applications hold an offer than slots were taken if and only if no more submissions named it than holders were overwritten. |
| AiTheorems.SubmissionsTakeNoSlot | internal/hub/ai_service.go:26-48 | Otherwise they can: two submissions naming an offer with one slot hold it while none is used. |
| AiTheorems.SeatsAreCounted | internal/hub/ai_service.go:256-281 | In every run a community's members are exactly those it came with and everyone enrolled since, distinct and within capacity if they began so. |
| AiTheorems.ApplicationsAreTraced | internal/hub/ai_service.go:118-148 | In every run an application is pending or approved; its events are one submission and, exactly if approved, one approval; an approved one has a reservation record and its route, if named, exists and is active; what was submitted is never rewritten. |
| AiTheorems.NothingIsResubmittedOrClosed | internal/hub/ai_service.go:290-329 | In no run is a resubmission or a closing ever accepted. |
| AiAnswers.RoutesGoToTheirTenants | internal/hub/ai_service.go:167-178 | In every run an application whose route is not the one it was submitted with has a route of its own tenant and country. |
| AiAnswers.OffersServeTheirCountries | internal/hub/ai_service.go:232-254 | In every run an application whose offer is not the one it was submitted with has an offer that serves its country. |
| AiAnswers.AssignIsAccepted | internal/hub/ai_service.go:150-178 | In every run an assignment is accepted if and only if the bandwidth is positive, both sides exist, tenant and country are the same, and the route is active and has that much free. |
| AiAnswers.AssignAnswers | internal/hub/ai_service.go:150-178 | Every refusal of an assignment with its error, in order, and every field it changes. |
| AiAnswers.SubmitAnswers | internal/hub/ai_service.go:26-48 | A submission is accepted if and only if it is complete, of a listed country, within 5000 petaops, with materials, and its id is new; what is stored, field by field, and its event. |
| AiAnswers.ReserveAnswers | internal/hub/ai_service.go:55-90 | A reservation is accepted if and only if it is positive, for a pending or returned application, on a cluster with that much free; a live one is answered as it is. |
| AiAnswers.ReleaseAnswers | internal/hub/ai_service.go:92-116 | In every run the cluster of a live reservation exists, and a release either has nothing to do, is refused below zero, or changes exactly these fields. |
| AiAnswers.ApproveAnswers | internal/hub/ai_service.go:118-148 | An approval is accepted if and only if there is an actor, a pending application, a reservation on record, and any route it names is up; every error in order. |
| AiAnswers.ApplyAnswers | internal/hub/ai_service.go:232-254 | An offer is applied if and only if it runs at that time, has a slot free and serves the application's country. |
| AiAnswers.EnrollAnswers | internal/hub/ai_service.go:256-281 | A seat is given if and only if the member has a name, the community exists and has one free; a member who has one is answered with the community. |
| AiAnswers.ResubmitAnswers | internal/hub/ai_service.go:290-310 | A resubmission is accepted, from any registry, if and only if it has materials and the application is returned. |
| AiAnswers.CloseAnswers | internal/hub/ai_service.go:312-329 | A closing is accepted, from any registry, if and only if the application is active. |
| AiAnswers.AddClusterAnswers | internal/hub/ai_registry.go:52-66 | Which clusters are taken, and with which error the others are refused. |
| AiAnswers.AddRouteAnswers | internal/hub/ai_registry.go:68-82 | Likewise routes. |
| AiAnswers.AddOfferAnswers | internal/hub/ai_registry.go:84-99 | Likewise offers. |
| AiAnswers.AddCommunityAnswers | internal/hub/ai_registry.go:101-118 | Likewise communities. |
| AiAnswers.CountryIsNormalized | internal/hub/ai_policy.go:44-44 | A country is compared by the one text that is left of it without the blanks around it, in upper case. |
| AiAnswers.TrimSpaceTrims | internal/hub/ai_policy.go:44-44 | Trimming takes exactly the blanks at both ends. |
| Licensing.NoLostRenewal | internal/hub/service.go:140-161 | In every interleaving of any number of renewals, the licence ends at its start plus the successful extensions, its version has moved once per success, nothing else changed, and no two successes replaced one version. |
| Licensing.SaveSucceedsExactlyWhenCurrent | internal/hub/registry.go:26-40 | In every interleaving a save succeeds if and only if the stored licence is still the one that was read, and then stores what it answers; otherwise it changes nothing. |
| Licensing.RenewalAlone | internal/hub/service.go:140-161 | A renewal alone is granted if and only if the licence is stored, the extension positive, the licence active, for that store, inspected and without outstanding actions, its last 90 days have begun, and the store has all three parts; then exactly its end and version move. |
| Licensing.OnlyRenewableIsRenewed | internal/hub/license_policy.go:67-78 | However renewals interleave, one that succeeds met all these conditions on the licence as it was at the start, and came when its window was open. |
| Licensing.ReadAnswers | internal/hub/license_policy.go:67-78 | Which renewals pass the checks, and with which error the others are refused. |
| Scheduler.TotalWait | internal/scheduler/tasks.go:14-36 | m uncancelled failures wait base * (2^(m-1) - 1) in all up to m = 12, and base * (2047 + 1024 * (m - 12)) beyond. |
| Scheduler.BackoffFitsExactly | internal/scheduler/scheduler.go:109-118 | No wait overflows if and only if 1024 times the base fits in 64 bits. |
| Scheduler.FirstFailureTime | internal/scheduler/tasks.go:66-84 | The recorded first-failure time, in 64-bit arithmetic and counting running times: right for three attempts, or without backoff, exactly if they took no time; for two exactly if the second ran for the base; one attempt is dated too early by the base; more than three always too late. |
| Scheduler.FailureIsRecorded | internal/scheduler/tasks.go:66-84 | The stored failure record, column by column, is dated back by exactly the age that FirstFailureTime is about, and filed under that day. |
| Scheduler.Scheduler.RunWithRetry | internal/scheduler/tasks.go:14-36 | Ends within max(1, MaxRetries) calls, at the first success, a cancelled wait, or the last attempt; records a failure once, only then; and waits exactly the backoffs of the attempts before the last. |
| Domain.CastDecimal | internal/repo/rebuild.go:187-200 | A rule version printed into an audit entry reads back, through SQLite's CAST, as that version. |
| Domain.Matches | internal/domain/rule.go:45-75 | The loops and flags of rule matching decide exactly: a default rule always, otherwise every stated criterion met and at least one stated. |
| Dispatch.SortByRank | internal/dispatch/adjudicator.go:51-56 | Sorting leaves the same rules, ranked by priority and then version, highest first. |
| Dispatch.Adjudicate | internal/dispatch/adjudicator.go:21-72 | Fails exactly when nothing active matches; otherwise the referral names an eligible rule that no eligible rule beats, the unique choice when versions are distinct. The default fallback never adds a rule. |
| Dispatch.ChoiceExists | internal/dispatch/adjudicator.go:28-58 | Among rules with distinct versions there is a choice if and only if one is eligible. |
| Dispatch.ChoiceIgnoresOrder | internal/dispatch/adjudicator.go:28-58 | The rule chosen does not depend on the order or repetition of the rules given. |
| Dispatch.ChoiceIsFirstMatch | internal/index/queries.go:384-401 | Over the order in which the index returns active rules, the choice is the first eligible one. |
| Tables.InsertRow | internal/index/writes.go:11-205 | An accepted insert adds its row under its key and leaves the row of every other key as it was. |
| Tables.InsertIsTaken | internal/index/writes.go:11-205 | An insert is refused if and only if its key is in use, or the reference of its case. |
| Tables.ExecKeepsConstraints | internal/index/writes.go:11-214 | Every statement keeps the primary keys and the uniqueness of external references. |
| Repo.TransactIndex | internal/repo/store.go:45-67 | A committed transaction has executed all its statements; any other leaves the tables unchanged; it commits exactly when every statement is accepted and no fault strikes one of them or the commit. |
| Services.GetItemByExternalRef | internal/index/queries.go:256-266 | Finds the one case with a reference, or says that there is none. |
| Services.GetActiveRules | internal/index/queries.go:384-401 | Returns exactly the active rules, by priority and version, highest first. |
| Services.GetCurrentRuleVersion | internal/index/queries.go:403-407 | The greatest rule version, or 0 with no rules. |
| Services.FindOverdueItems | internal/index/queries.go:343-359 | Lists exactly the overdue cases below the top level in an escalable status, once each, by deadline. |
| Lifecycle.CaseStepKeeps | internal/service/case_service.go:125-244 | The six calls on an existing case leave its routing, level, deadline and identity alone and keep its stamps in step with its status. |
| Lifecycle.CallKeepsInv | internal/service/case_service.go:52-261 | Every plan that commits keeps the invariant that ties cases, rules, referrals and escalations together. |
| Lifecycle.StepKeepsInv | internal/repo/store.go:45-67 | Every call keeps that invariant, committed, rolled back or refused. |
| Lifecycle.RunKeepsInv | internal/service/case_service.go:52-261 | So does every run of any calls with any faults. |
| Lifecycle.StepTouches | internal/service/case_service.go:246-261 | A call changes no row, referral or escalation of any case but the one it is about. |
| SweepTheorems.EscalationOnRow | internal/service/escalation_service.go:50-111 | An escalation answered Ok raises exactly its row by one level; any other answer changes no table. |
| Worker.CollectStatus | internal/worker/reeval.go:65-90 | Paging through one status ends, and collects the older rows of every page in order. |
| Worker.ListItemsAnswers | internal/index/queries.go:268-342 | A page is the matching rows from the offset on, as many as asked for, 20 by default and at most 200, with the number of all. |
| Worker.ListedRowsMeet | internal/index/queries.go:268-342 | A listing holds exactly the rows that meet every criterion given. |
| Worker.CollectStaleItems | internal/worker/reeval.go:65-90 | However many pages there are, the stale rows of both statuses are collected. |
| Import.RegisterAgain | internal/service/case_service.go:63-69 | A reference that has a case is answered with it, and nothing is appended or stored. |
| Agreement.AppendLatest | internal/repo/rebuild.go:41-89 | A record appended where no later file mentions its key becomes the key's latest, and no other key's latest moves. |
| Agreement.ExecLoggedRow | internal/index/writes.go:11-214 | A statement changes the logged form of exactly the row whose line was appended. |
| Agreement.TransactAgrees | internal/repo/store.go:45-270 | A committed transaction keeps every row equal to the latest record of its key, up to the columns that change unlogged. |
| Rebuild.SortedFiles | internal/repo/rebuild.go:94-100 | Every day file once, in path order. |
| Rebuild.ReadingInOrderIsLatest | internal/repo/rebuild.go:98-118 | Reading sorted files one after another with last-writer-wins leaves each key's latest record. |
| Rebuild.Collect | internal/repo/rebuild.go:103-118 | The collector ends with the latest record of every key in the readable files, and the report counts files read and skipped. |
| Rebuild.InsertableIsLoadable | internal/repo/rebuild.go:126-171 | The collected records can all be inserted exactly if no logged rule version survives in the table and no two logged cases share a reference. |
| Rebuild.LoadTable | internal/repo/rebuild.go:130-171 | One insert loop, in any order of the map: it ends with every collected row of its table in, or fails at a clash. |
| Rebuild.LoadTables | internal/repo/rebuild.go:126-171 | The seven insert loops succeed exactly when nothing clashes, and then every row is a collected record or a surviving rule. |
| Rebuild.RebuildManifests | internal/repo/rebuild.go:202-233 | The manifest gets exactly one matching entry per file, readable or not, its table having been cleared. |
| RebuildTheorems.TablesComeBack | internal/repo/rebuild.go:91-185 | Cases, failures, audit and batches come back row by row. |
| RebuildTheorems.EscalationsComeBack | internal/repo/rebuild.go:91-185 | The same escalations come back. |
| RebuildTheorems.ReferralComesBack | internal/repo/rebuild.go:91-200 | Every referral comes back with all its columns but is_current. |
| Shard.ReadAll | internal/shard/reader.go:16-39 | The scan returns the non-blank lines without their carriage returns, or fails if a line is too long. |
| Shard.RecordCount | internal/shard/reader.go:73-92 | Counts as many records as ReadAll returns, and fails on the same files. |
| Shard.GenerationsDiffer | internal/shard/writer.go:100-101 | Different rotations of a file never share a name. |
| Shard.RotationSuffix | internal/shard/writer.go:100-101 | A rotation is named by its number, with zeros in front up to three digits and no further. |
| Shard.RotationsAreInvisible | internal/shard/scanner.go:23-48 | The scanner's suffix test accepts a day file and rejects each of its rotations. |
| Shard.AppendKeepsChain | internal/shard/writer.go:92-110 | Under a fixed positive limit all generations but the last stay full, and one after another they hold the lines in the order appended. |
| AiRegistry.OfferAvailable | internal/hub/ai_policy.go:46-59 | Decides the window, the free slots and the served country. |
| AiTheorems.LiveUpdate | internal/hub/ai_service.go:79-90 | Storing one reservation moves a cluster's live sum by the difference of its old and new weight. |
| Scheduler.CalculateBackoff | internal/scheduler/scheduler.go:109-118 | The wait for an attempt, in 64-bit arithmetic. |
| Maintenance.RunRebuildIndex | cmd/hubctl/main.go:222-242 | The rebuild-index command, all files readable, does what the rebuild act of those runs does, and succeeds exactly when the commit does and nothing clashes. |
| Shard.DaysAreApart | internal/shard/writer.go:92-116 | Different day files share no generation: a rotated name determines its day file and its number. |
| Repo.Store.Perform | internal/repo/store.go:147-270 | One store write: the line is appended first, and stays even if the statement on the table is then refused or fails. |
| Repo.Store.WithTx | internal/repo/store.go:45-67 | Exactly the transaction of the specification: it commits all its table changes or none, but keeps every line it appended. |
| Services.ItemService.Register | internal/service/case_service.go:52-123 | Does what the Register step does: validation, the known-reference reply, adjudication, and item, referral and audit in one transaction. |
| Services.ItemService.UpdateItemWithAudit | internal/service/case_service.go:246-261 | Stores the changed case and one audit entry in one transaction. |
| Services.ItemService.StartProcessing | internal/service/case_service.go:125-139 | Does to the store and answers what the StartProcessing step does. |
| Services.ItemService.Modify | internal/service/case_service.go:141-175 | Edits the given text fields only, and only for cases not yet closed, as the Modify step. |
| Services.ItemService.ReturnForCorrection | internal/service/case_service.go:177-191 | Does to the store and answers what the ReturnForCorrection step does. |
| Services.ItemService.Resubmit | internal/service/case_service.go:193-209 | Does to the store and answers what the Resubmit step does. |
| Services.ItemService.Cancel | internal/service/case_service.go:211-227 | Does to the store and answers what the Cancel step does, stamp and reason included. |
| Services.ItemService.Complete | internal/service/case_service.go:229-244 | Does to the store and answers what the Complete step does, stamp included. |
| Services.RuleService.CreateRule | internal/service/rule_service.go:35-93 | The next version is created, and the named one superseded with an audit entry, in one transaction. |
| Services.QueryService.RetryFailure | internal/service/query_service.go:79-94 | Marks a known failure as retried, with an audit entry, and rejects an unknown one. |
| Services.EscalationService.EscalateItem | internal/service/escalation_service.go:50-111 | Escalating a listed row is the Escalate step on its id: lead, level, deadline, status, referral, escalation and audit. |
| Services.EscalationService.CheckAndEscalate | internal/service/escalation_service.go:27-48 | The sweep is the run that escalates the listed rows in order up to its first error; the branch for a case at the top level is never taken. |
| Worker.ReevalWorker.StoreReroute | internal/worker/reeval.go:138-153 | The transaction of a re-evaluation: the old referral superseded, the new one, the case and the audit entry. |
| Worker.ReevalWorker.ReevaluateItem | internal/worker/reeval.go:95-157 | Does what the Reevaluate step does with the rules it is given, and counts it as re-evaluated or skipped. |
| Worker.ReevalWorker.Sweep | internal/worker/reeval.go:29-61 | The sweep is the run that re-evaluates the stale cases in order, going on after failures; its three counters grow by exactly the cases answered as re-routed, as left alone and with an error; it errs exactly if a query fails or its context is cancelled before the last case, and then has done exactly the cases before. |
| Import.BatchService.ImportRow | internal/service/batch_service.go:38-55 | Registers one row and reports its reply. |
| Import.BatchService.StoreBatch | internal/service/batch_service.go:57-79 | Stores the batch record and its audit entry as one call of its own. |
| Import.BatchService.RegisterRows | internal/service/batch_service.go:30-55 | The loop is the run of Register calls; every row gets its result in order, and the two counts add up to the rows. |
| Import.BatchService.Import | internal/service/batch_service.go:30-80 | Results, counts and total agree, and the stored batch record holds these counts; it follows as one more call, whose failure is the import's error although the rows stay. |
| Shard.Writer.RotateIfNeeded | internal/shard/writer.go:92-110 | The search ends, at the first generation that is missing or below the limit, all earlier ones being full. |
| Shard.Writer.Append | internal/shard/writer.go:38-90 | The line goes to the end of the target file and of no other, and the location says where it went. |
| AiRegistry.AIRegistry.AddCluster | internal/hub/ai_registry.go:52-66 | Refusals in the source's order, and otherwise exactly the new cluster added. |
| AiRegistry.AIRegistry.AddRoute | internal/hub/ai_registry.go:68-82 | Likewise for a route. |
| AiRegistry.AIRegistry.AddOffer | internal/hub/ai_registry.go:84-99 | Likewise for an offer. |
| AiRegistry.AIRegistry.AddCommunity | internal/hub/ai_registry.go:101-118 | Likewise for a community. |
| AiRegistry.AIServices.SubmitApplication | internal/hub/ai_service.go:26-48 | The whole new registry state and answer of a submission. |
| AiRegistry.AIServices.ReserveCompute | internal/hub/ai_service.go:55-90 | The whole new state and answer of a reservation, a live one being returned as it is. |
| AiRegistry.AIServices.ReleaseCompute | internal/hub/ai_service.go:92-116 | The whole new state and answer of a release. |
| AiRegistry.AIServices.ApproveApplication | internal/hub/ai_service.go:118-148 | The whole new state and answer of an approval. |
| AiRegistry.AIServices.AssignRoute | internal/hub/ai_service.go:150-178 | The whole new state and answer of a route assignment. |
| AiRegistry.AIServices.ApplyOffer | internal/hub/ai_service.go:232-254 | The whole new state and answer of applying an offer. |
| AiRegistry.AIServices.EnrollOPC | internal/hub/ai_service.go:256-281 | The whole new state and answer of an enrolment, a member being enrolled once. |
| AiRegistry.AIServices.ResubmitApplication | internal/hub/ai_service.go:290-310 | The whole new state and answer of a resubmission. |
| AiRegistry.AIServices.CloseApplication | internal/hub/ai_service.go:312-329 | The whole new state and answer of a closing. |
| Licensing.Registry.SaveLicense | internal/hub/registry.go:26-40 | Saves under the next version, or reports a conflict and changes nothing, by the stored version. |
| Licensing.Service.RenewLicense | internal/hub/service.go:140-161 | A renewal run alone is a caller's read step and save step. |
| Scheduler.Scheduler.RecordFailure | internal/scheduler/tasks.go:66-84 | Stores the failure record as one call. |

## Left out

- PathOrder.PathTextOrder: years 0 to 9999, which is what the four-digit layout writes with a fixed width; `Tables.Path` then names a file by its entity and day number, the calendar itself not being modelled.
- LogTheorems.FilesAgreeWithTables: needs scheduler failures that are not dated in the future, as a negative backoff, or a product of backoff and attempts that overflows, would do; the configuration does not rule them out.
- CaseTheorems.ReachableInv: not for states after the rebuild of a lost index, or of one past files that cannot be read: the first is what RebuildTheorems is about, and the second can load over live rules when their own files are the unreadable ones.
- CaseTheorems.LeadFollowsRuleAndLevel: for one service call at a time, because the code reads outside its transaction; interleavings within a call are not modelled.
- Shard.Writer.Append: a write that fails half way is covered as a torn file in Shard and ShardFiles; an append in `Repo` either happens or does not.
- RebuildTheorems.RebuildRestoresRun: `Repo.Files` has one file for a day. ShardFiles.RunReadsBack says exactly when that is what the scanner and the reader get; past the limit Shard.RotationHidesRecords says what is missing.
- Filing.RunAgreesExactly: not for scheduler failures, whose line is dated back to the first attempt; Filing.KeyAgreesExactly covers them where their days do not go back.
- Recovery.RunFilesLoadExactly: for registrations under ids that no line carries yet, which is what fresh UUIDs are for.
- Services.EscalationService.CheckAndEscalate: its query, like those of the other services, does not fail in the model; where it does, the call ends with an error and the store as it was.
- Worker.StaleRowsExactlyOnce: over a table whose order does not change between pages.
- Rebuild.RebuildIndex: whether a file can be read is a parameter, and so is the checksum; JSON round trips are assumed, and `Malformed` is a line that does not decode.
- Columns shard_path, shard_offset and data_version, which depend on where a line lies and on a constant.
- Time as text: SQL compares RFC 3339 strings, whose order is not always time order. Times are integers here, and a call has two clock readings, one at its start and one in its transaction.
- `ComplianceCase` objects are values: a service call changes a copy it alone holds.
- 64-bit wrap-around in the AI registry and the licence store; context cancellation there.
- Unicode: case folding and trimming of countries and names cover ASCII.
- The recordPermanentFailure branch of the escalation sweep, which is shown not to be taken.
- Scenes (publish, approve), inspections, catalogs, licence activation and the brand policies: single-branch checks or the same compare-and-save again.
- ListApplications: Go's map order is random. ListAudit, ListBatches, Export, GetBacklog and Diagnose: reports only.
- HTTP, authentication, configuration loading, logging, tickers and the start and stop of the loops.
