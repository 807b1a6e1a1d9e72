# Estimating server and administrative tools: a verified model

A Dafny model of the parts of the repository that hold algorithms or protocols, with proofs.
`dafny verify dfyconfig.toml` checks all of it.

| modules | what they model |
|---|---|
| Drafts, Lineage | parent links of estimates; the guard that walks every ancestor of an estimate before its status or price changes |
| ScopedLineage | the guard of references to estimates, with its explicit stack |
| HomologEvidence, HomologAgreement | the audits of the homologation identity protocol: what its writers leave, what its verifiers accept |
| HomologProtocol, HomologRuns, HomologHistory | the seven operations as decisions and transactions; what every run keeps; what a receipt says about the past |
| HomologWriter, HomologReadback | the executors with their write loop, and the checks they repeat after writing |
| HomologFindings | what an answered call of the protocol has found, and what a commit is made of, column by column |
| HomologPins, HomologStanding, HomologContinuation, Turns | the pins of a continuation manifest, and a run in which all seven operations commit |
| Rbac, RbacAgreement, RbacRuns, RbacWriter | the calculator role grant: apply, withdraw, verification, runs with outside edits, rollback |
| Texts, Json, SchemaCompare | canonical printing of catalog values and the comparison of two schema snapshots |
| AggregateScan | the paged scan under a budget shared by two readers |
| MigrationReconcile | the comparison of the migration journal with a database ledger |
| ActualsLedger, ActualsByCategory | the committed-cost cache and the cost dashboard |
| EstimateLifecycle | status changes, rejection, discounts, archiving and notes of an estimate, on top of Lineage |
| DailyLog, DailySummary | daily reports: rules, one log per day under overlapping calls, and the count of missing days |
| Wrappers, Strings, Collections | shared helpers |

How the model reads the program:

- A transaction is one atomic step and a thrown error is a rollback. The daily log opens none: there a
  call is a read and, later, one writing statement, and other calls may write in between. Programs that
  change rows step by step are class methods with the same loops and branches; each is proved equal to
  a function of the old state, or against the properties its row states, and the theorems are about
  these functions.
- A digest is injective: it is the datatype constructor `Digest`.
- Times are numbers (in the identity protocol, of microseconds), dates are day numbers, UUIDs are numbers. Columns that no modelled code reads
  are gathered in one opaque column (`rest`, `tag`, `stamp`, `text`).
- An evidence query returns rows in id order; ids are primary keys, so the set of rows and that list
  determine each other, and evidence is a set. `localeCompare` sorting before a comparison makes the
  comparison one of sets in the same way, since all expected audits differ.
- In the identity protocol the stages 0 to 6 are bootstrap, create, withdraw, cycle reactivate, cycle
  withdraw, continuation reactivate and continuation withdraw, all for one continuation manifest,
  which contains the manifests of the earlier stages.

Results that differ from what the source's own words suggest:

- The receipts of create and of the first withdrawal list the metadata of the bootstrap audits, not
  their contents. Of the bootstrap evidence they fix everything except the principal and the executor
  named in its receipt (`HomologHistory.CreatePins`, `HomologHistory.PrincipalStaysFree`), and the
  withdrawal receipt fixes nothing of the create (`HomologHistory.WithdrawalReads`). From the
  reactivation on, the whole evidence is fixed.
- The bootstrap looks for its evidence more narrowly than the later operations. An audit with the
  operation id as its record but another action escapes it, and then every later operation refuses
  what it commits (`HomologReadback.BootstrapVerifiedLater`, `HomologReadback.StrayAuditLocksOut`).
- Updates of a daily log are checked on the row they read and written without a transaction. Two that
  overlap can store a violation (`DailyLog.OverlapBreaksRules`); none does as long as no other update
  of the log names one of the four rule columns in between (`DailyLog.QuietIsUndisturbed`, and over
  whole runs `DailyLog.QuietRunsKeepSound`).
- A soft-deleted daily log keeps its day: the next create passes the duplicate check and then fails on
  the unique index, with a driver error instead of `DUPLICATE_LOG` (`DailyLog.DeletedDayBlocks`). So
  does the later of two overlapping creates (`DailyLog.OverlappingCreates`).
- `missingDays` is exact for projects with more than 2000 logs as well, for the span of the listed
  logs (`DailySummary.MissingDaysExact`).
- An array of a single hole prints like the empty array (`Json.ArraysAlike`).

## Model

| member | source | states |
|---|---|---|
| Lineage.AssertNonHistoricalLineage | server/estimate-mutation-db.ts:134-180 | the guard accepts a draft if and only if every row reachable through the two parent edges is valid, present, in scope, non-historical and usable, the reachable graph has no cycle, and it has at most 1000 rows; a historical refusal means a chain of usable rows to a historical row of the same scope, and any other refusal means an unusable row, a cycle or more than 1000 rows; when nothing of that second kind is reachable, the refusal is historical exactly when a historical row is; its outcome is always that of the naive traversal that counts loaded rows against the cap; no row is loaded twice, recursion is at most 1001 deep, an accepted walk makes at most 2001 visits |
| Lineage.LineageCheck.Visit | server/estimate-mutation-db.ts:141-178 | one recursive visit has the outcome, and leaves loaded the rows, of the naive traversal under the cap from the same row, path and loaded rows, although it skips completed rows; it terminates on every parent map; completed rows never lie on the path |
| Lineage.LineageCheck.VisitParents | server/estimate-mutation-db.ts:173-176 | the loop over the parents gives the first refusal in visiting order, with what each parent loaded kept for the next, and otherwise completes them all, within two visits plus two for each newly completed row |
| Lineage.LineageCheck.Enter | server/estimate-mutation-db.ts:142-143 | an invalid id, a repeat on the path or a completed row settles the visit as the naive traversal under the cap would; anything else goes on to the parents |
| Lineage.LineageCheck.Inspect | server/estimate-mutation-db.ts:144-172 | a row is loaded on first sight unless the cap is reached, and judged by scope, history, source and required parent, in that order |
| Lineage.LineageCheck.Finish | server/estimate-mutation-db.ts:177 | a row is completed only after all its parents |
| Lineage.CappedExplained | server/estimate-mutation-db.ts:142-172 | on every path and with any ancestors loaded, the traversal under the cap refuses only for a defect that is reached through usable rows |
| Lineage.OnlyHistory | server/estimate-mutation-db.ts:162-166 | a lineage whose only defect is a historical row is refused as historical |
| Lineage.ParentsInTurn | server/estimate-mutation-db.ts:175-176 | the superseded draft is visited before the change-order parent, and the first refusal is the outcome |
| Lineage.AcceptableMeans | server/estimate-mutation-db.ts:156-172 | acceptance in terms of the columns: ids, tenant, project, client, source, import links and required parents of every reached row |
| Lineage.GuardDecides | server/estimate-mutation-db.ts:146 | the traversal under the cap accepts exactly the acceptable drafts |
| Lineage.NaiveExact | server/estimate-mutation-db.ts:141-178 | the traversal without memo or cache accepts a row exactly when every chain of parents from it is made of usable rows and never meets the path or itself |
| Lineage.NaiveDecides | server/estimate-mutation-db.ts:133-180 | the naive traversal plus the row cap decides the declarative condition |
| Lineage.CappedWithin | server/estimate-mutation-db.ts:146 | while the ancestry fits the cap, the traversal under the cap and the naive traversal have the same outcome |
| Lineage.CleanMeansAcyclic | server/estimate-mutation-db.ts:142 | the path test excludes exactly the cyclic ancestries |
| Lineage.SettledAccepts | server/estimate-mutation-db.ts:143 | a completed row would be accepted again, loading nothing, on every path that the walk can reach it by |
| Lineage.SettledClosed | server/estimate-mutation-db.ts:175-177 | the ancestry of a completed row is completed |
| Lineage.LoadsBounded | server/estimate-mutation-db.ts:146-154 | fewer than 1000 rows are loaded, each once |
| ScopedLineage.AssertScopedCalculatedLineage | server/historical-estimate-guard.ts:74-127 | with a scope, an absent reference passes and any other passes if and only if every row reachable from it is present, in scope and non-historical, no cycle is reachable and at most 128 rows are; every refusal names a defect of a row reached through usable rows alone, and a historical refusal one of a row in scope, so that no foreign row is ever classified; the refusal is the first that the recursive traversal meets |
| ScopedLineage.ExplainedUnusable | server/historical-estimate-guard.ts:101-120 | whatever explains a refusal makes the ancestry unusable |
| ScopedLineage.ResumeFrames | server/historical-estimate-guard.ts:121-124 | frames pushed in reverse are taken in the order of the recursive traversal, the superseded draft first |
| ScopedLineage.SettledExplores | server/historical-estimate-guard.ts:103 | a verified row would be explored again without a refusal and without seeing anything new |
| ScopedLineage.UsableMeans | server/historical-estimate-guard.ts:112-119 | acceptance in terms of the columns of every reached row |
| ScopedLineage.WalkLeaves | server/historical-estimate-guard.ts:95-99 | popping a row to leave keeps the stack in order and marks the row verified only after its parents |
| ScopedLineage.WalkEnters | server/historical-estimate-guard.ts:120-124 | entering a row keeps it below its parents on the stack and counts it once |
| ScopedLineage.SettledUsable | server/historical-estimate-guard.ts:94-126 | when the stack is empty, everything reachable from the reference was inspected, is usable and lies on no cycle |
| ScopedLineage.CapExplained | server/historical-estimate-guard.ts:104-105 | the cap stops the walk only when more than 128 distinct rows are reachable |
| ScopedLineage.CycleExplained | server/historical-estimate-guard.ts:101-102 | meeting an active row means that it lies on a reachable cycle |
| HomologAgreement.WriterAccepted | scripts/homolog-read-proof.ts:642-682 | the audits left by any committed operation are accepted by its verifier and give back exactly the written rows |
| HomologAgreement.VerifiedIsWritten | scripts/homolog-read-proof.ts:1097-1143 | any audit set accepted for a read-proof, cycle or continuation operation is what its writer leaves for that before-state with some time, principal and audit ids |
| HomologAgreement.VerifiedBootstrapIsWritten | scripts/homolog-read-proof.ts:387-446 | the same of bootstrap evidence, whose receipt lists no row audits |
| HomologAgreement.AcceptedIffWritten | scripts/homolog-read-proof.ts:294-323 | acceptance of an audit set is exactly being writable |
| HomologAgreement.RowAuditTells | scripts/homolog-read-proof.ts:834-856 | the audit of a row carries its id, the row before and the row after under the operation and manifest digest; a withdrawal or reactivation changes activity and update time alone |
| HomologAgreement.ReceiptTells | scripts/homolog-read-proof.ts:593-616 | the receipt carries operation, manifest with digest, rows before and after, link, time, principal and, after the bootstrap, the audit id of every row |
| HomologRuns.VerifiedReads | scripts/homolog-read-proof.ts:1002-1022 | what a stage verifies to depends only on the evidence of that stage and of earlier ones |
| HomologRuns.VerifiedShape | scripts/homolog-read-proof.ts:642-682 | verified evidence is not empty, rests on verified evidence, and gives rows with the ids of the manifest |
| HomologRuns.WrittenMentions | scripts/homolog-read-proof.ts:258-263 | every audit of an operation is found by that operation's evidence query and by no other |
| HomologRuns.EvidenceGrows | scripts/homolog-read-proof.ts:841-855 | a commit adds its audits to its own evidence and leaves all other evidence alone |
| HomologRuns.CommitIsOk | scripts/homolog-read-proof.ts:841-855 | a writer lists one distinct new audit id for each written row, and another for the receipt |
| HomologRuns.CommitsInTurn | scripts/homolog-read-proof.ts:765-817 | when n operations have committed, a call commits if and only if it is operation n and its own conditions hold; it starts from the current identity rows; a replay is reported only for an operation whose rows are current, and a repeat of the last commit is a replay |
| HomologRuns.PlanByCount | scripts/homolog-read-proof.ts:765-830 | in a reachable database the decision on any call, every refusal with its reason included, is given by a table of the number of committed operations |
| HomologRuns.IdentitiesCreated | scripts/homolog-access-bootstrap.ts:138-178 | the bootstrap creates two tenants, two users in the first and one in the second, all active |
| HomologRuns.FixtureCreated | scripts/homolog-read-proof.ts:448-504 | create writes a client, its project owned by the first user, a draft of it and the second user's membership, all of the first tenant |
| HomologRuns.SeenWhenReached | scripts/homolog-read-proof.ts:1163-1211 | what a call reads in a reachable database: evidence for exactly the committed operations, and identity rows as the last of them left them |
| HomologRuns.LogGrows | scripts/homolog-read-proof.ts:144-147 | create appends 5 audits and every other operation 6, with ids new to the log |
| HomologRuns.CommitReaches | scripts/homolog-read-proof.ts:1211-1249 | a commit in turn leads to the state in which one more operation has committed, with all earlier evidence verifying as before |
| HomologHistory.CallReaches | scripts/homolog-read-proof.ts:740-940 | every call commits the next operation or changes nothing |
| HomologHistory.CallAppends | scripts/homolog-read-proof.ts:841-883 | over one call the log grows by 0, 5 or 6 audits and loses none |
| HomologHistory.RunInOrder | scripts/homolog-read-proof.ts:1170-1211 | in every run of calls and outside changes, the operations commit in order, each at most once |
| HomologHistory.FreshRun | scripts/homolog-read-proof.ts:1775-1819 | from a database without evidence a run commits a prefix of the seven operations |
| HomologHistory.NeverAgain | scripts/homolog-read-proof.ts:1172-1173 | what has committed never commits again; a withdrawn cycle is never reactivated |
| HomologHistory.IdentitiesFollow | scripts/homolog-read-proof.ts:990-1001 | the five identities are active exactly when the last commit was the bootstrap, the create or a reactivation, and differ from the bootstrap rows only in activity and update time |
| HomologHistory.VerifiedRows | scripts/homolog-read-proof.ts:511-518 | the rows any identity operation leaves are the bootstrap rows with one activity and one update time |
| HomologHistory.ReceiptLinks | scripts/homolog-read-proof.ts:1126-1137 | a verified receipt holds the digest of the evidence before it, the rows it started from and the rows it left |
| HomologHistory.ReactivationPins | scripts/homolog-read-proof.ts:1016-1021 | in any two databases where the same reactivation receipt verifies, bootstrap, create and withdrawal evidence are the same |
| HomologHistory.CycleWithdrawalPins | scripts/homolog-read-proof.ts:1189-1200 | in any two databases where the same cycle withdrawal receipt verifies, all evidence before it is the same |
| HomologHistory.ContinuationPins | scripts/homolog-read-proof.ts:1655-1666 | a continuation is carried out or replayed in two databases only if they agree on every audit outside the continuation |
| HomologHistory.ContinuationWithdrawalPins | scripts/homolog-read-proof.ts:1800-1804 | equal receipts of the last withdrawal force equal evidence and rows of the reactivation before it |
| HomologHistory.ContinuationReceiptsBind | scripts/homolog-read-proof.ts:1788-1804 | where a continuation is answered, its reactivation receipt holds the digest of every audit outside the continuation, and its withdrawal receipt that digest chained with the reactivation evidence |
| HomologHistory.CreatePins | scripts/homolog-read-proof.ts:593-622 | the same create or first withdrawal receipt fixes the bootstrap rows, and fixes the bootstrap evidence if and only if principal and executor in the two bootstrap receipts are the same |
| HomologHistory.PrincipalStaysFree | scripts/homolog-read-proof.ts:324-339 | from any log in which create or the first withdrawal verifies there is another one with any other principal or executor in its bootstrap receipt, the same evidence of all later operations, and the same verified rows and receipt |
| HomologHistory.WithdrawalReads | scripts/homolog-read-proof.ts:642-682 | the first withdrawal verifies from bootstrap and own evidence alone, so that its receipt says nothing of the create |
| HomologWriter.HomologDatabase.Execute | scripts/homolog-read-proof.ts:1154-1277 | one call makes exactly the planned decision and leaves exactly the planned database: one whole operation, written and then checked again, or no change |
| HomologWriter.HomologDatabase.Attempt | scripts/homolog-read-proof.ts:818-940 | the writes stay exactly when the checks after them pass; otherwise everything is as before |
| HomologWriter.HomologDatabase.CommitStage | scripts/homolog-read-proof.ts:818-883 | the transaction of one operation writes its rows over the old ones and adds its audits to the log |
| HomologWriter.HomologDatabase.Write | scripts/homolog-read-proof.ts:841-883 | the loop over the rows and the receipt after it write all rows of the next state and all audits of the operation, with the row audit ids in the receipt |
| HomologWriter.HomologDatabase.WriteRows | scripts/homolog-read-proof.ts:1216-1228 | the loop writes the rows one by one, each with its audit, and returns the audit ids by row |
| HomologWriter.WriteComplete | scripts/homolog-read-proof.ts:841-883 | writing row by row amounts to the whole operation |
| HomologReadback.PerformStarts | scripts/homolog-read-proof.ts:789-817 | in every database, a commit starts from the current five identity rows |
| HomologReadback.ReadbackPasses | scripts/homolog-read-proof.ts:884-940 | in every database in which an operation may commit, the bootstrap included, every check after its writes passes: its evidence is the written audits, it verifies to the rows now present, other evidence, fixture and protected rows are untouched, populations and pins hold |
| HomologReadback.PreservedAfter | scripts/homolog-read-proof.ts:1618-1724 | a continuation leaves the populations, the audit history and the pinned formations, rows, audits and columns, as they were |
| HomologReadback.HeldAfterCreate | scripts/homolog-read-proof.ts:549-565 | create turns a population without fixture into one with exactly one row in each fixture table |
| HomologReadback.HistoryUnchanged | scripts/homolog-read-proof.ts:1655-1666 | the audits of a continuation are not part of the history it pins |
| HomologReadback.BootstrapReplays | scripts/homolog-access-bootstrap.ts:276-344 | a committed bootstrap passes its own, different verification, so that a repeat is a replay |
| HomologReadback.BootstrapVerifiedLater | scripts/homolog-access-bootstrap.ts:261-275 | the bootstrap's evidence query is narrower than that of the later operations: what it commits verifies for them if and only if their query had found nothing before |
| HomologReadback.StrayAuditLocksOut | scripts/homolog-access-bootstrap.ts:368-386 | with one foreign audit that has the operation id as its record, the bootstrap commits and replays, and every later operation is refused |
| HomologFindings.FormationFound | scripts/homolog-read-proof.ts:1661-1723 | a continuation that is not refused has found each formation as created: rows, columns and the one audit of each row |
| HomologFindings.NoOtherRow | scripts/homolog-read-proof.ts:1624-1649 | it has found no other client, project, intake form, draft, membership or profile in the two tenants |
| HomologFindings.HistoryFound | scripts/homolog-read-proof.ts:1650-1660 | it has found all other audits to be the pinned ones, by number and digest |
| HomologFindings.PredecessorFound | scripts/homolog-read-proof.ts:1542-1587 | it has found the pinned receipts of the predecessor cycle and the pinned withdrawn rows |
| HomologFindings.ReplayExact | scripts/homolog-access-bootstrap.ts:276-344 | a repeated bootstrap is a replay if and only if there are six audits, one receipt with the manifest and the present rows, and one audit of the creation of each row |
| HomologFindings.EvidenceGap | scripts/homolog-access-bootstrap.ts:261-275 | the audits that only the later operations count as bootstrap evidence are those that have the operation id as record, another action, and do not name it |
| HomologFindings.ReceiptNames | scripts/homolog-read-proof.ts:642-682 | a verified receipt names its operation, family and manifest, one of seven, with the digest of that manifest |
| HomologFindings.CommitTells | scripts/homolog-read-proof.ts:841-855 | a commit records its time, the database's time for the bootstrap audits, its principal, and the new audit ids in writing order |
| HomologPins.HistoryEnough | scripts/homolog-read-proof.ts:1340 | once the first five operations have committed and two formations are present, at least 35 audits are history of the continuation, so the lower bound of the manifest refuses no genuine history |
| HomologPins.EvidenceSize | scripts/homolog-read-proof.ts:258-263 | verified evidence has the size of what was written, and none of its audits is found by another operation's query or belongs to a formation |
| HomologPins.PinsExist | scripts/homolog-read-proof.ts:1542-1724 | for whatever the first five operations and two formations left, with at most 10000 audits of history, some accepted manifest passes every pin and preservation check; it differs from the given one in its pins alone |
| HomologPins.BaseCall | scripts/homolog-read-proof.ts:765-817 | the pins of a continuation manifest have no influence on the first five operations |
| HomologStanding.BootstrapStands | scripts/homolog-access-bootstrap.ts:351-450 | on a database without evidence, colliding ids or tenant rows the bootstrap commits and leaves the populations that create requires |
| HomologStanding.BootstrapAddsOnly | scripts/homolog-access-bootstrap.ts:387-420 | a bootstrap overwrites no row and shares no id, slug or subject with an existing one |
| HomologStanding.CreateLeavesExactly | scripts/homolog-read-proof.ts:549-640 | a create overwrites no row, and the tenants then hold exactly its four rows and the three profiles |
| HomologStanding.NextCommits | scripts/homolog-read-proof.ts:740-968 | each operation, when those before it have committed, finds all it requires, commits, and leaves all that the next one requires |
| HomologContinuation.AllSevenCommit | scripts/homolog-read-proof.ts:1750-1940 | from a vacant database the first five operations commit in turn; after any two formations, under some manifest that differs in its pins alone, both continuation operations commit as well |
| HomologRuns.BootstrapReplayState | scripts/homolog-access-bootstrap.ts:261-344 | when both verifications accept, they show the same rows |
| RbacAgreement.AcceptedIffWritten | scripts/financial-executor-homologation-rbac.ts:353-371 | a history is accepted if and only if its audits are those of one possible apply, or of one possible apply and one possible withdrawal that fit together |
| RbacAgreement.PhaseAccepted | scripts/financial-executor-homologation-rbac.ts:242-352 | the audits of a possible receipt verify, whatever audits the other phase left |
| RbacAgreement.AcceptedPhase | scripts/financial-executor-homologation-rbac.ts:303-325 | whatever verifies for a phase contains one audit for each required change, as its receipt says, and the receipt's own audit |
| RbacAgreement.PhaseCount | scripts/financial-executor-homologation-rbac.ts:362 | an apply leaves 5 audits, a withdrawal 3 |
| RbacRuns.WriterPossible | scripts/financial-executor-homologation-rbac.ts:588-621 | a receipt written from a state that the executor may start from passes all receipt checks |
| RbacRuns.PossibleWritten | scripts/financial-executor-homologation-rbac.ts:242-352 | every receipt that passes the checks is one an executor writes from some such state |
| RbacRuns.CommitsInTurn | scripts/financial-executor-homologation-rbac.ts:471-499 | an apply commits if and only if nothing was applied before and target, window, deadline, role and absence of rows allow it; a withdrawal commits if and only if exactly an apply came before, the rows can be read and target and deadline allow it; a repeat of the last commit is a replay if and only if target, deadline and, for an apply, window allow it and the rows are those its receipt recorded; an apply after the withdrawal is TERMINAL |
| RbacRuns.RefusalsExact | scripts/financial-executor-homologation-rbac.ts:455-499 | every refusal is given if and only if its own condition on phase, count, window, deadline and rows holds |
| RbacRuns.StrayRefuses | scripts/financial-executor-homologation-rbac.ts:181-193 | an audit under a foreign action that is recorded under the operation's id, or carries it, makes every call refuse |
| RbacRuns.OthersIgnored | scripts/financial-executor-homologation-rbac.ts:181-193 | audits that neither are recorded under the id nor carry it change no decision |
| RbacRuns.ReadExact | scripts/financial-executor-homologation-rbac.ts:143-179 | a state is read if and only if the operator is active and alone with its subject and the nominal role, and at most one row names the role, the permission or the edge |
| RbacRuns.AcceptedHistory | scripts/financial-executor-homologation-rbac.ts:242-371 | an accepted history says that the operator got the nominal role with one permission through one edge, and lost that edge and role alone |
| RbacRuns.ApplyAudits | scripts/financial-executor-homologation-rbac.ts:501-630 | the five audits of an apply, one by one |
| RbacRuns.WithdrawAudits | scripts/financial-executor-homologation-rbac.ts:562-630 | the three audits of a withdrawal, one by one |
| RbacRuns.ApplyEffect | scripts/financial-executor-homologation-rbac.ts:501-593 | an apply changes the operator's role and adds one permission, one role and one edge to tables without them, and nothing else |
| RbacRuns.CallReaches | scripts/financial-executor-homologation-rbac.ts:425-666 | every call commits the next phase or changes nothing, and the invariant holds again |
| RbacRuns.WithdrawEffect | scripts/financial-executor-homologation-rbac.ts:562-601 | a withdrawal leaves the profile as it just was but with role user, removes the edge, and keeps the permission and role rows that the apply created |
| RbacRuns.EvidenceCount | scripts/financial-executor-homologation-rbac.ts:359-363 | there are 0, 5 or 8 evidence rows |
| RbacRuns.RunInOrder | scripts/financial-executor-homologation-rbac.ts:476-499 | every run of calls and outside edits commits a prefix of what remains: apply once, withdraw once, then nothing |
| RbacRuns.FreshRun | scripts/financial-executor-homologation-rbac.ts:471-499 | from a database without evidence, the evidence rows after a run are 0, 5 or 8 according to the committed phases |
| RbacRuns.ReadRows | scripts/financial-executor-homologation-rbac.ts:143-179 | a state that can be read holds the identified profile and, where they exist, the rows with the fixed ids |
| RbacRuns.StateReadBack | scripts/financial-executor-homologation-rbac.ts:588-595 | the state read after the writes is the one the receipt records |
| RbacWriter.RbacDatabase.Execute | scripts/financial-executor-homologation-rbac.ts:425-657 | one call makes exactly the planned decision and leaves exactly the planned database; history and state are read back after the writes, and a window that closes or a deadline that passes meanwhile undoes them all |
| RbacWriter.RbacDatabase.Write | scripts/financial-executor-homologation-rbac.ts:500-632 | the inserts or the delete, the role update, one audit after each and the receipt amount to the whole phase |
| RbacWriter.RbacDatabase.UpdateRole | scripts/financial-executor-homologation-rbac.ts:582-587 | the role changes exactly when the profile is still the identified, active one with the expected role; the change is then one that verification accepts, and no other profile is touched |
| RbacWriter.RbacDatabase.InsertRows | scripts/financial-executor-homologation-rbac.ts:501-561 | permission, role and edge are inserted in this order; after each insert the state reads back valid, and the audit holds the row as read |
| RbacWriter.RbacDatabase.DeleteRow | scripts/financial-executor-homologation-rbac.ts:562-581 | exactly the edge with the expected role and permission goes, no edge is read after it, and the audit keeps the old row |
| RbacWriter.RbacDatabase.ChangeProfile | scripts/financial-executor-homologation-rbac.ts:582-608 | after the role update the state reads back as before but for the role, the change is valid, and the audit holds both profiles |
| RbacWriter.RbacDatabase.ChangeAudit | scripts/financial-executor-homologation-rbac.ts:372-403 | the audit just appended is the only one of its action, if it is the first, and the one that verification accepts for the returned mutation; it belongs to the evidence of the operation, and audits of other actions are as before |
| RbacWriter.WritesReadBack | scripts/financial-executor-homologation-rbac.ts:634-647 | after the writes the history verifies and its last state is the state that is read |
| Json.CanonicalFaithful | scripts/migration-schema-compare.ts:15-23 | two values print the same text if and only if they are equal, with objects read as maps from key to value, arrays as lists, and an array of one hole as the empty array |
| Json.PrintFaithful | scripts/migration-schema-compare.ts:15-23 | the same over all values, sparse arrays included: the printer throws on one of them or is faithful |
| Json.ArraysAlike | scripts/migration-schema-compare.ts:18 | two arrays print alike if and only if they agree element by element, or each is empty or a single hole |
| Json.HoleLooksEmpty | scripts/migration-schema-compare.ts:18 | a single hole and no element at all both print as an empty list |
| Json.SoundMeans | scripts/migration-schema-compare.ts:16-22 | the printer throws exactly on values with a part that is neither JSON nor the hole of an array |
| Json.QuoteRoundTrip | scripts/migration-schema-compare.ts:16-20 | reading a quoted string back gives the string and the text after it, with the escapes of section 7 of RFC 8259 |
| Json.Prefix | scripts/migration-schema-compare.ts:15-23 | no canonical text is a proper prefix of another that is followed by a delimiter: where two texts agree, the values and the remaining texts agree |
| Json.FieldsAgree | scripts/migration-schema-compare.ts:20 | sorting the entries by key does not change the map they stand for |
| Json.Format | scripts/migration-schema-compare.ts:16-21 | the text is made of the words, brackets, commas and colons of JSON with keys in ascending order |
| Texts.LessMeans | scripts/migration-schema-compare.ts:20 | a text sorts before another when it is a proper prefix or smaller at the first differing unit |
| SchemaCompare.KeyInjective | scripts/migration-schema-compare.ts:24 | the identity text determines kind and name, colons in names included |
| SchemaCompare.Validate | scripts/migration-schema-compare.ts:26-37 | a snapshot is accepted if and only if it is not complete with omissions, has no empty or repeated identity and only printable definitions; its objects are then sorted by identity |
| SchemaCompare.Walk | scripts/migration-schema-compare.ts:43-49 | the counter and the list built by the loop are those of the declarative comparison |
| SchemaCompare.CompareSchemaSnapshots | scripts/migration-schema-compare.ts:39-60 | the comparison reports exactly when both snapshots are consistent, and all fields of its report are those that the rows below describe |
| SchemaCompare.StatusExact | scripts/migration-schema-compare.ts:50-59 | the status is incomplete if and only if a side is, and equal if and only if both are complete and their fingerprints agree; equality is claimed for that status alone, and nothing is authorized |
| SchemaCompare.DifferencesExact | scripts/migration-schema-compare.ts:43-49 | the list holds exactly the objects on one side alone, and those of both sides whose definitions differ in meaning |
| SchemaCompare.VerdictMatchesFingerprints | scripts/migration-schema-compare.ts:45-57 | no difference is reported if and only if the two fingerprints are equal |
| SchemaCompare.CountsAddUp | scripts/migration-schema-compare.ts:44-53 | matches plus differences is the size of the union of identities, and each side's count is matches plus changed plus its own-only entries |
| SchemaCompare.CompareSwaps | scripts/migration-schema-compare.ts:39-60 | exchanging the inputs exchanges the two one-sided dispositions and the fingerprints, and nothing else |
| AggregateScan.Scan | server/estimate-aggregate-db.ts:62-77 | the paging loop returns normally if and only if budget plus population is at most 100000, and then has consumed the population once, in order, with N div 500 plus 1 reads; otherwise it raises the budget error |
| AggregateScan.PageIsSlice | server/estimate-aggregate-db.ts:83-87 | the page after a cursor is the next slice of the population |
| AggregateScan.NextPage | server/estimate-aggregate-db.ts:69-75 | reading a page of any positive limit extends the consumed prefix of the population, and a short page ends it |
| AggregateScan.PopulationExact | server/estimate-aggregate-db.ts:79-111 | a population holds exactly the selected rows of the table, each once, in ascending id order |
| AggregateScan.EstimatesExact | server/estimate-aggregate-db.ts:79-91 | the estimates read are the tenant's, all of them |
| AggregateScan.OpenLeadsExact | server/estimate-aggregate-db.ts:93-111 | the leads read are the tenant's unconverted ones with a status other than won, lost, disqualified and converted, all of them |
| AggregateScan.GetExactEstimateStats | server/estimate-aggregate-db.ts:113-132 | statistics are computed from all estimates of the tenant or reported unavailable |
| AggregateScan.GetExactEstimatePipeline | server/estimate-aggregate-db.ts:134-142 | the two scans on one budget succeed together if and only if estimates plus open leads are at most 100000 |
| MigrationReconcile.LoadLocalMigrations | scripts/migration-history-reconcile.ts:51-71 | a journal loads if and only if its indexes are in order, its tags and times are unique and every file can be read |
| Collections.SizeMeansDistinct | scripts/migration-history-reconcile.ts:57-58 | comparing the size of a set with the length of the list is a test for repeats |
| MigrationReconcile.CountValues | scripts/migration-history-reconcile.ts:79-80 | the map holds each value once with its number of occurrences |
| MigrationReconcile.DuplicateValues | scripts/migration-history-reconcile.ts:78-82 | the result lists, in ascending order and once each, exactly the values that occur more than once |
| MigrationReconcile.ClassifyTags | scripts/migration-history-reconcile.ts:95-105 | the three lists hold, in journal order, the tags of the matched, missing and conflicting migrations |
| MigrationReconcile.FilterUnexpected | scripts/migration-history-reconcile.ts:106-107 | the count is the number of ledger rows that are no local migration |
| MigrationReconcile.UnexpectedExact | scripts/migration-history-reconcile.ts:106-107 | that number is the size of the set of ledger places whose time and hash are of no local migration |
| MigrationReconcile.TagsInOrder | scripts/migration-history-reconcile.ts:96-105 | each list holds tags of migrations with the property, at ascending places of the journal |
| MigrationReconcile.CleanIsPermutation | scripts/migration-history-reconcile.ts:108 | the four mismatch tests all pass if and only if the ledger rows are a permutation of the local migrations |
| MigrationReconcile.ReconcileMigrationHistory | scripts/migration-history-reconcile.ts:85-131 | the report says of every list and count what the two inputs determine; the tag lists of an unavailable ledger are empty |
| MigrationReconcile.MatchIsPermutation | scripts/migration-history-reconcile.ts:108-116 | MATCH if and only if the ledger is available and its rows are a permutation of the local migrations |
| MigrationReconcile.TagsPartition | scripts/migration-history-reconcile.ts:98-105 | matched and missing tags partition the local list if and only if the ledger is available or the list is empty; in an available ledger a tag is matched if and only if a row has its time and hash, missing otherwise, and conflicting if and only if a row has its time and another hash |
| ActualsLedger.Ledger.RefreshCommittedLedger | server/actuals-db.ts:762-828 | the cached total and its text become the sum of the live committed amounts, the stored variance is cleared, or nothing changes when a live row has another tenant or an unknown status |
| ActualsLedger.Ledger.Mutate | server/actuals-db.ts:465-710 | transition, deletion and variance review leave exactly the specified store, or no change on any error, the refresh included |
| ActualsLedger.SuccessSyncs | server/actuals-db.ts:602-607 | after every successful reject, void, delete or refresh the cache equals the sum over live committed rows |
| ActualsLedger.SucceedsExactly | server/actuals-db.ts:465-710 | a call succeeds if and only if its row is live, of the tenant and accessible, its status and note permit the call, and the cache can then be computed |
| ActualsLedger.RaisedExactly | server/actuals-db.ts:465-710 | every error is raised if and only if its own condition holds |
| ActualsLedger.CallEffect | server/actuals-db.ts:537-710 | a successful call changes the columns of its row that it names and no other row; the row's project keeps its owner, takes total and text of its rows and loses its variance, and no other project changes |
| ActualsLedger.ContributionMeans | server/actuals-db.ts:790-799 | live approved and paid rows count, each with its amount, and no others |
| ActualsLedger.FormatReads | shared/actuals-variance-engine.ts:54-58 | reading the text back gives the amount |
| ActualsLedger.FormatInjective | shared/actuals-variance-engine.ts:54-58 | the text of an amount determines it, sign included |
| ActualsLedger.TotalMoves | server/actuals-db.ts:537-710 | the sum falls by exactly the amount of a committed row that is voided and by nothing else; a delete leaves it unchanged |
| ActualsLedger.SyncedKept | server/actuals-db.ts:613-710 | a correct cache stays correct over every call, variance reviews included |
| ActualsLedger.RunKeeps | server/actuals-db.ts:537-760 | over every run the sum never rises for nonnegative amounts, no row disappears or changes identity or amount, and a correct cache stays correct |
| ActualsLedger.SumUpdate | server/actuals-db.ts:790-799 | replacing one row moves the sum by the difference of the two contributions |
| ActualsByCategory.GetActualsByCategory | server/actuals-db.ts:876-894 | the buckets have distinct categories, hold the amounts and counts of the committed rows of their category, add up to all committed rows, and are in descending amount order |
| ActualsByCategory.GroupsGrow | server/actuals-db.ts:882-889 | adding a row to its bucket keeps the grouping exact |
| ActualsByCategory.CategoryByRow | server/actuals-db.ts:883-889 | an approved or paid row counts once, with its amount, in its category or in other |
| ActualsByCategory.BookedPermutes | server/actuals-db.ts:879 | committed totals do not depend on the order of the listed rows |
| ActualsByCategory.DashboardMatchesLedger | server/actuals-db.ts:775-799 | for at most 2000 live rows with known statuses, the bucket amounts sum to the total that the refresh computes |
| EstimateLifecycle.EstimateDb.Perform | server/estimate-mutation-db.ts:38-102 | an edit inside the mutation boundary leaves exactly the specified store or no change |
| EstimateLifecycle.EstimateDb.ChangeStatusIn | server/estimate-db.ts:374-402 | a generic status change is refused for decided drafts, for historical ones except archiving, for refused lineages and for transitions outside the table, and otherwise sets the status alone |
| EstimateLifecycle.EstimateDb.RejectIn | server/estimate-db.ts:462-482 | a rejection needs an undecided draft, an accepted lineage and an allowed transition, and records who rejected and why |
| EstimateLifecycle.EstimateDb.DiscountIn | server/estimate-db.ts:420-444 | a discount needs an undecided, unlocked, current draft whose lineage is calculated throughout and whose subtotal is usable, in that order, and changes the money columns alone |
| EstimateLifecycle.DiscountNearest | shared/estimate-discount-engine.ts:34-58 | the discount is the whole unit nearest to the exact one, the upper of two, and never exceeds the subtotal |
| EstimateLifecycle.EstimateDb.CheckLineage | server/estimate-db.ts:391 | the guard decides the lineage condition of Lineage, and its refusal is explained as there |
| EstimateLifecycle.RaisedExactly | server/estimate-db.ts:372-482 | every error is raised if and only if its own condition holds; a historical ancestor and an unresolvable lineage raise different ones |
| EstimateLifecycle.EditEffect | server/estimate-db.ts:393-482 | a successful edit changes the columns of its row that it names, no other row and no other table |
| EstimateLifecycle.EditAuthorized | server/estimate-mutation-db.ts:38-102 | nobody edits across tenants, in a removed project, as an inactive user, or without the right that the edit needs |
| EstimateLifecycle.TransitionsListed | server/estimate-db.ts:352-360 | the fifteen permitted changes of status |
| EstimateLifecycle.EditKeeps | server/estimate-db.ts:365-495 | a successful edit changes its own row alone, never enters an approval status, and leaves status and money of a decided draft alone |
| EstimateLifecycle.HistoricalNotAcceptable | server/estimate-mutation-db.ts:162-166 | a draft with a historical ancestor fails the lineage guard with either option |
| EstimateLifecycle.RunKept | server/estimate-mutation-db.ts:105-131 | over every run of edits and recorded decisions, no draft newly enters an approval status, discount and final price go on adding up to the subtotal, a decided draft keeps status, money and rejection, and a draft with a historical ancestor can only be archived |
| EstimateLifecycle.HistoricalStaysArchived | server/estimate-db.ts:387-390 | a historical draft once archived stays archived |
| DailyLog.ValidateDailyLog | server/daily-log-db.ts:89-131 | a rule is reported if and only if it is broken, each once and in rule order; an empty report means a valid payload |
| DailyLog.PatchedSound | server/daily-log-db.ts:286-299 | the patched row satisfies the rules exactly when the merged payload breaks none |
| DailyLog.DescribedMeans | server/daily-log-db.ts:107-128 | a text is long enough when what lies between its outer blanks is |
| DailyLog.SoundMeans | server/daily-log-db.ts:106-128 | ten characters on a safety incident, five on a weather delay |
| DailyLog.PatchedColumns | server/daily-log-db.ts:311-345 | an update replaces the submitted columns alone; a photo list without a count is counted |
| DailyLog.NewColumns | server/daily-log-db.ts:206-233 | a new log holds what was submitted, and defaults elsewhere |
| DailyLog.RejectedExactly | server/daily-log-db.ts:181-300 | the reading half of a call ends with an error if and only if that error's condition holds; a rule error names the first broken rule |
| DailyLog.SoundAfter | server/daily-log-db.ts:288-299 | one writing statement keeps all rows free of violations if and only if it inserts no unsound log and patches no row into breaking a rule with what that row is at the write |
| DailyLog.InterleavingsKeepDays | server/daily-log-db.ts:206-233 | over every interleaving of reads and writes of any calls there is one log per project and day, and no log is lost or moved to another day |
| DailyLog.UndisturbedRunsKeepSound | server/daily-log-db.ts:283-345 | over every interleaving in which the rule columns of a row are at the write of each update those that it read, all logs stay free of violations |
| DailyLog.QuietIsUndisturbed | server/daily-log-db.ts:283-345 | that holds for an update when no other update of its log that names a rule column is written in between |
| DailyLog.QuietRunsKeepSound | server/daily-log-db.ts:283-345 | over every interleaving in which nobody else names a rule column of a log between the read and the write of an update of it, all logs stay free of violations |
| DailyLog.SoundThroughout | server/daily-log-db.ts:283-345 | every moment of a run is free of violations if and only if every issued statement was harmless for the rows at its moment |
| DailyLog.OverlapBreaksRules | server/daily-log-db.ts:279-345 | two overlapping updates that are each valid on what they read leave a log that breaks a rule |
| DailyLog.WholeCallsKeep | server/daily-log-db.ts:181-345 | over every run of calls that do not overlap, all logs stay free of violations |
| DailyLog.CreateOutcome | server/daily-log-db.ts:195-233 | a valid new log is accepted if and only if no row, deleted rows included, holds its day at the insert; a live row at the read gives DUPLICATE_LOG, any other the error of the index |
| DailyLog.DeletedDayBlocks | server/daily-log-db.ts:206-233 | create, remove, and create again on that day: the index refuses |
| DailyLog.OverlappingCreates | server/daily-log-db.ts:206-233 | of two creates for one day that both read before either inserts, the second meets the index |
| DailyLog.LogDb.CreateDailyLog | server/daily-log-db.ts:181-271 | whatever other calls write between its read and its insert, a create ends as CreateOutcome says, adds one sound row or none, and never a second row for a day |
| DailyLog.LogDb.UpdateDailyLog | server/daily-log-db.ts:279-345 | whatever is written in between, an update replaces the submitted columns of its row as it is by then and nothing else; the row is sound if and only if the patch fits it at that moment, and always when nobody else names a rule column of it in between; id, project and day never change |
| DailyLog.LogDb.DeleteDailyLog | server/daily-log-db.ts:427-450 | a delete marks its row and nothing else; the day is no longer live but stays taken |
| DailySummary.ListedDays | server/daily-log-db.ts:405-424 | a day inside the listed span has a live log if and only if it is listed, even past the limit of 2000 |
| DailySummary.ListingExact | server/daily-log-db.ts:405-424 | the listing holds live logs of the project alone, and leaves one out only behind 2000 more recent ones |
| DailySummary.TenthsNearest | server/daily-log-db.ts:537-539 | hours are shown as the nearest tenth, the upper of two |
| DailySummary.TotalsByColumn | server/daily-log-db.ts:513-525 | which columns each total of the summary adds up |
| DailySummary.MissingDaysExact | server/daily-log-db.ts:501-508 | span minus count is the number of days without a log, so the clamp at zero never acts |
| DailySummary.GetDailyLogSummary | server/daily-log-db.ts:480-545 | the summary counts listed logs, span, missing days, crew days, delay days, incidents and photos; labor and delay hours are the exact decimal sums rounded to a tenth |

## Left out

- SQL text, locks, isolation settings, driver errors and the three-attempt retry loops: a call is one attempt, and an attempt that fails on serialization changes nothing.
- Regex and zod shape checks, file reading, command lines, the readiness and visibility checks of a database principal: inputs are typed, and a refused shape has no counterpart. In the RBAC saga the connection facts other than the two user names are one flag.
- The four executors of the identity protocol have near-identical write loops; one loop stands for them, and the rows of a table are written in the order of the manifest instead of by id.
- Triggers of the database: the executors read back after each commit to catch one that interferes; without triggers the read-back is proved to pass.
- Numbers: a JSON number is its printed numeral, so that -0 and 0 print alike as in the source. Weather and free text columns of a daily log are not modelled.
- GetDailyLogSummary: labor and delay hours are summed as exact decimals, because the rounding of binary fractions is not modelled; where a sum lies at a rounding boundary the source's tenth can differ (5.1 and 0.05 give 5.2 here and 5.1 there).
- Notes and reasons are sequences of characters; a character outside the basic plane counts once here and twice in the source's length limit.
- A discount percentage arrives as its decimal digits and a subtotal as minor units; the texts they are read from are not modelled.
- The SQL renderer of the bootstrap writes the same evidence with its own executor mark: the verifiers accept it here, but only the direct executor is modelled as a writer.
- Of the rows that a continuation compares before and after, those of a private configuration table are not modelled.
- Access checks and reference checks of cost actuals are answers given by the caller; ScopedLineage models the guard behind the reference to an estimate. The status column of an actual is a canonical status or unknown text; the alias table is not modelled.
- The informational counters of the Supabase part of the ledger report, and the aggregation engines behind the two exact reads.
- Creation of estimates, decisions and imports: in runs of the estimate model they appear only as events that record evidence.
- Operations that only throw, routers, plain record keeping for clients, deals and drawings, search and pagination: they would only add easy members.
