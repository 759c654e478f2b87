# A verified model of the recruitment CRM

The CRM keeps students ("leads"), the agents they are assigned to, follow-ups, home and campus visits,
enrollments, and a queue of work items over all of them. This project models the parts of it whose
correctness depends on more than one function, and proves what those parts promise.

- **AssistantApproval** – a write proposed by the AI assistant waits for an operator's approval. Any number of
  approve and reject requests interleave, one database statement at a time, with other writers of the database
  and with the slow backup. The module is a step machine with invariants over every run, and the request code
  itself as a class whose every execution is shown to be a run of that machine.
- **AssistantRequest** – what one request of that machine does when nobody interferes, as one transaction, and what no
  run of it can skip.
- **AssistantTurn** – the bounded exchange with the AI provider that leads to such a proposal.
- **AssistantSession** – the turns of one session as their statements interleave: two reads, a committed run, and
  an outcome minutes later.
- **ApprovalToken** – the signed text an approval must carry: URL-safe base64 (RFC 4648 section 5, padding omitted
  as in section 3.2) and a keyed digest.
- **TerminalTasks**, **LegacyVisits** – two data migrations with an undo log: closing the tasks of students who
  are done, and folding an old table into two newer ones. Upgrade followed by downgrade is the identity exactly
  under conditions that can be checked before the upgrade.
- **DomainBackfill** – the migration that builds employment, assignment, work-item and outcome tables from legacy
  rows, against the independent audit of its result.
- **BackfillDue**, **BackfillAudit** – what that migration adds, and what its audit accepts, told of the columns of the
  rows; its notion of an open visit against the one of the live audit.
- **OwnerRepair** – the repair of work-item owners, against the live audit, whose SQL conditions are evaluated in
  three truth values.
- **StaleReassign** – the greedy loop that spreads stale leads over the agents, as a scheduler.
- **LoginGuard** – the sliding-window limit per IP address over a pruned table, and the lock of an account.
- **LoginRace** – the same lock when login requests of one account overlap between their read and their commit.
- **AssetGraph** – the work-list check that every file the frontend refers to is in the release.
- **DuplicateCleanup** – clearing shared phone numbers, against the detector that finds them.
- **BatchReview** – the per-agent funnel of an assignment batch, as a partition of the whole.
- **StudentDelete** – the cascade that deletes students under foreign keys checked after each statement.
- **StatusPolicy**, **Common** – status names and set facts the others share.

Database tables are maps from row id to row. Code that updates tables or fields in place is a class, or a method
with loops, proved against specification functions; the results are lemmas about those functions. Ids are unique
and a fresh id is one past the largest in its table. One transaction is one step unless the text says otherwise.

## Findings

Some promises hold only under a condition. Each is stated as an equivalence, and inputs on which it fails are shown.

- Undoing either migration restores the tables exactly when no earlier log of the same batch was there
  (TerminalTasks.ReopenUndoesClose, TerminalTasks.EarlierEntryIsUndoneToo), for the second one also only if no older
  row names a task id the upgrade hands out (LegacyVisits.RestoreUndoesFold, LegacyVisits.DanglingItemIsLost).
- The backfill fails its own audit for an invalid student whose outcome code was set by hand to a value outside the
  catalogue, and for no other reason (DomainBackfill.BackfillMeetsAudit, DomainBackfill.StrayCodeFailsAudit).
- The backfill and the live audit disagree on which visits are open exactly for a next action of nothing but spaces, on a
  visit that took place and has no follow-up date and no result that keeps it open by itself: work is added for it that
  the audit then counts as superfluous (BackfillDue.HomeOpenness, BackfillDue.CampusOpenness).
- A status detail that spells the catalogue code "child_declined" is not understood: the table that maps texts to codes
  has every code but that one and "legacy_unspecified", so the student gets "other" (BackfillDue.OutcomeGains).
- A committed execution can afterwards be recorded as rejected, expired or stale: those writes are unconditional. It
  stays recorded exactly when no other request is between reading the row and writing it
  (AssistantApproval.RecordSurvivesExactly). A request told that its call was cancelled was told the truth exactly
  when nothing was committed and no claimant could still reach its commit
  (AssistantApproval.CancelledReplyIsTrueExactly, AssistantApproval.CancelledReplyCanHideEffect).
- When the last preview check and the commit are not one step, every effect lands on a previewed state exactly when
  nothing can be approved, no state has the stored hash, or the tool itself refuses every other state
  (AssistantApproval.UnserialisedEffectMatchesExactly, AssistantApproval.UnserialisedEffectCanMissPreview).
- A committed effect is answered as rolled back exactly when the refresh after the commit raised: the handler that
  answers covers that refresh too (AssistantApproval.CommittedAnswer, AssistantApproval.CommittedEffectCanBeDenied).
- The refresh after the claim, and the handler's own statements, are covered by no handler. A request that raises
  there gets none of the service's answers, which the model calls crashed, as when its process dies. The call then
  stays executing forever, exactly when no other request that read it as pending may still write its status
  (AssistantApproval.StaysExecutingExactly, AssistantApproval.CallCanStayExecuting).
- The two reads before a turn do not keep a session to one waiting call. They do exactly when, at each turn's second
  read, no other turn has passed its reads without having committed its run, none is at work on a run older than five
  minutes, and no call was stored since this turn's first read (AssistantSession.AdmissionIsSafeExactly); two turns
  of a fresh session bring about each of the three (AssistantSession.TwoCallsCanWait).
- The reassignment levels a load that still counts the students being moved; it is the real load exactly when none of
  them is terminal or held by an active agent, and otherwise the result can be as lopsided as before
  (StaleReassign.CountedLoadIsReal, StaleReassign.LevellingCanUnlevel).
- Whether a visit is open is unknown to the database exactly when it took place, or failed to, and has no result (for
  a campus visit: and nothing planned next); the audit then never counts it, whatever its work item looks like
  (OwnerRepair.UnknownExactlyWithoutResult, OwnerRepair.UnknownIsNeverFlagged, OwnerRepair.CompletedVisitNeedsResult).
  The fold of the legacy visits writes such rows for exactly the completed visits (OwnerRepair.FoldedOpenness).
- The counters of the live audit that look at the owner of a source item miss a planned repair exactly when the student
  is not terminal and either the source is open and the item has the status due with the owner due, so that only a
  stale handover batch is to be cleared, or with no owner and not open, because null compares as unknown there; or the
  visit has no result and the item is not open under nobody active (OwnerRepair.AuditMissesExactly, with
  OwnerRepair.AuditMissesOwnerlessAndBatched and OwnerRepair.AuditMissesWrongOwner).
- The comment in app/student_delete.py says that the order of its deletes does not matter. It does: exactly the
  child-first orders work (StudentDelete.OrderMustBeChildFirst). The model follows the code, whose order is one of
  them. Under the keys the models declare, the deletes add nothing to deleting the students alone, and refuse more
  (StudentDelete.TenDeletesOnlyRefuseMore, StudentDelete.ReportBlocksTheDeletes).
- The lock of an account bounds failures to three in half-open windows. A closed window can hold six, and more than
  three only with a failure at its last instant (LoginGuard.ClosedWindowHoldsSix, LoginGuard.SixFailuresHappen). Both
  are of logins that do not overlap. The counter is written as an absolute value, so three is the bound exactly when
  no other check stands between its read and its commit (LoginRace.OverlapLosesExactly,
  LoginRace.WindowHoldsThreeExactly); any number of overlapping checks can count as one
  (LoginRace.AnyNumberCountsAsOne).

## Model

| member | source | states |
|---|---|---|
| AssistantApproval.StepKeepsInv | app/assistant_service.py:526-688 | every step of every request, crash or foreign write keeps the claim invariant: at most one claimant, pending means unclaimed, executing means the claimant is past its claim, and whoever passed the checks was entitled to |
| AssistantApproval.RunFrame | app/assistant_service.py:526-688 | in any run nothing of the call row but its status changes, and no request changes hands |
| AssistantApproval.EffectAtMostOnce | app/assistant_service.py:571-588 | however the requests interleave, the effect is committed at most once, and only for the call's operator with a valid token and phrase who read the row before expiry |
| AssistantApproval.NeverPendingAgain | app/assistant_service.py:546-589 | no step writes the pending status back, from any state, so the conditional claim can succeed only once |
| AssistantApproval.AnsweredClaimIsNotExecuting | app/assistant_service.py:591-661 | an approval that won the claim and was given one of the service's answers has left the call in a status other than executing |
| AssistantApproval.StaysExecutingExactly | app/assistant_service.py:571-661 | a call in execution stays so in every continuation if and only if its claimant ended without an answer and no other request that read it as pending may still write its status; a claimant that runs on takes it out of execution whatever fails |
| AssistantApproval.CallCanStayExecuting | app/assistant_service.py:588-592 | a run in which the claimant ends right after its claim and the call is executing in every continuation |
| AssistantApproval.AnswersAreTrue | app/assistant_service.py:537-661 | in every run whoever is answered "executed" committed the effect, "already executed" is answered only when some effect was committed, and whoever committed it and was answered otherwise had the refresh after the commit raise |
| AssistantApproval.CommittedAnswer | app/assistant_service.py:642-661 | an answered approval was told "executed" if and only if it committed and its refresh did not raise; if it committed and the refresh raised, it was told that the transaction was rolled back |
| AssistantApproval.CommittedEffectCanBeDenied | app/assistant_service.py:642-661 | a run in which the effect is committed and recorded and the request is told that it was rolled back |
| AssistantApproval.EffectMatchesPreview | app/assistant_service.py:592-613 | with the last check and the commit as one step, every effect is applied to a state whose preview hash is the stored one, whatever others do, backup included |
| AssistantApproval.UnserialisedEffectMatchesExactly | app/assistant_service.py:607-642 | from any fresh call, without that assumption, every effect of every run lands on a state with the stored hash if and only if no request can be approved, no state has the hash, or the tool executes only on states that have it |
| AssistantApproval.LastStepMatchesExactly | app/assistant_service.py:613-642 | the same for a claimant past its last check: if and only if the tool executes only on states with the stored hash |
| AssistantApproval.UnserialisedEffectCanMissPreview | app/assistant_service.py:607-642 | a run of six steps that commits the effect on a state nobody previewed |
| AssistantApproval.RecordSurvivesExactly | app/assistant_service.py:546-549 | a recorded execution stays recorded in every continuation if and only if no other request has read the row and may still write it unconditionally |
| AssistantApproval.CancelledReplyIsTrueExactly | app/assistant_service.py:664-688 | when a rejection writes and answers "cancelled", no effect is ever committed in any continuation if and only if none was and no claimant can still reach its commit |
| AssistantApproval.CancelledReplyCanHideEffect | app/assistant_service.py:664-688 | a run of seven steps in which the call is answered "cancelled" although the effect was committed |
| AssistantApproval.CommitCarriesSignedToken | app/assistant_service.py:552-559 | with the signed tokens of the application as the check, an effect is committed only for a request whose token carries the digest of its own text and names this call, its operator and its preview hash |
| AssistantRequest.AloneIsAtomic | app/assistant_service.py:526-688 | an approval or rejection with which nobody interferes ends within ten statements as one transaction: refused for another operator, a settled, expired, unsigned or unconfirmed call or a failing preview; stale when the preview differs; failed when a required backup, the tool or the commit fails; and otherwise executed |
| AssistantRequest.NoEffectWithoutBackup | app/assistant_service.py:602-613 | in every run of interleaved requests, a tool that requires a backup is executed only for a request that made one that worked, and found the previewed state after it |
| AssistantRequest.DifferingPreviewGoesStale | app/assistant_service.py:596-611 | a claimant that finds another state than the previewed one, before or after the backup, writes stale as its next step, whatever others do in between |
| AssistantApproval.AssistantDatabase.Approve | app/assistant_service.py:526-661 | every execution of the approve code among arbitrary others is a run of the step machine that ends with the answer the machine gives; it answers executed only when this request was entitled and its required backup, commit and refresh worked, and with a failed backup it adds no commit |
| AssistantApproval.AssistantDatabase.LoadCall | app/assistant_service.py:534-560 | goes on exactly for the operator's own pending, unexpired call with a valid token and phrase; an expired one is marked expired and refused as such; "already executed" is answered exactly for an executed one |
| AssistantApproval.AssistantDatabase.ClaimCall | app/assistant_service.py:571-588 | the conditional update succeeds exactly when the row is pending, and then marks it executing for this request |
| AssistantApproval.AssistantDatabase.BackUp | app/assistant_service.py:507-523 | a backup is made exactly when the environment lets it work |
| AssistantApproval.AssistantDatabase.CheckAgain | app/assistant_service.py:592-611 | goes on exactly when the preview then has the stored hash, to the backup or the execution, and commits nothing |
| AssistantApproval.AssistantDatabase.MarkStale | app/assistant_service.py:597-599 | writes stale over whatever status the row has and nothing else, and leads to the handler |
| AssistantApproval.AssistantDatabase.ExecuteClaimed | app/assistant_service.py:591-661 | a claimed call whose required backup fails is refused and gets no commit of this request |
| AssistantApproval.AssistantDatabase.CommitExecution | app/assistant_service.py:613-642 | the execution and the executed status are written together or not at all |
| AssistantApproval.AssistantDatabase.RefreshCall | app/assistant_service.py:643-648 | answers "executed", or goes to the handler when the refresh raises; the row, the data and the commit stay as they are |
| AssistantApproval.AssistantDatabase.HandleFailure | app/assistant_service.py:649-661 | refuses; a call still executing is marked failed, any other is left as it is |
| AssistantApproval.AssistantDatabase.Reject | app/assistant_service.py:664-688 | answers "cancelled" exactly for the operator's own call read as pending, and then leaves it rejected |
| AssistantTurn.TurnIsBounded | app/assistant_service.py:387-485 | whatever the provider sends, a turn asks it at most six times, stores at most eight finished reads, and stores a write only as its last act, waiting for confirmation |
| AssistantTurn.TurnEnds | app/assistant_service.py:387-505 | a turn runs through rounds of reads that all parse and do not crash, six rounds and eight reads at most; the first other round ends it: completed by an answer, waiting after exactly one write with valid arguments and a preview, failed otherwise; it has stored each read as executed or failed, those of a broken round up to the break |
| AssistantTurn.RoundGoes | app/assistant_service.py:388-482 | a response leads to another round exactly when it holds only reads that parse and do not crash, and no more than eight with those before; it completes the turn exactly when it holds no calls and makes it wait exactly when it holds one write with a preview |
| AssistantTurn.ConversationIsAnswered | app/assistant_service.py:387-482 | every conversation sent to the provider answers each of its tool calls, in order, before the next message |
| AssistantTurn.SessionKeepsOnePending | app/assistant_service.py:333-342 | when turns run one after another, a session has at most one call waiting over any sequence of turns and settled calls; no turn ever executes a write |
| AssistantTurn.Session.RunTurn | app/assistant_service.py:333-505 | refuses while a call waits; otherwise stores exactly the records of the specified exchange and one finished run, and what it last sent to the provider is the specified conversation, answered in full if the history was |
| AssistantTurn.Session.ReadRound | app/assistant_service.py:445-482 | the read loop stores the records up to the first call that raises, and answers each call otherwise |
| AssistantSession.CarefulRunsKeepOnePending | app/assistant_service.py:333-442 | over every interleaving of turns, crashes and settled calls, at most one call waits as long as no turn passes its second read over one of the three overlaps |
| AssistantSession.ChecksPassExactly | app/assistant_service.py:334-360 | a turn that reads twice undisturbed passes exactly when no call waits and every run still running is more than five minutes old |
| AssistantSession.SettledSessionGoesOn | app/assistant_service.py:334-360 | once the one waiting call is settled, the next turn passes unless such a run keeps it out |
| AssistantSession.AdmissionIsSafeExactly | app/assistant_service.py:333-382 | when a turn passes its second read in a session in order, one waiting call is kept in every continuation without another admission if and only if no other turn stands between its reads and its commit, none works on a run older than five minutes, and no call waits by then |
| AssistantSession.AdmittedIsOverlap | app/assistant_service.py:343-382 | a turn at work that the second read does not see is one of the first two overlaps |
| AssistantSession.OverlapStoresTwo | app/assistant_service.py:423-442 | from any admission over an overlap, in any session, two calls can come to wait |
| AssistantSession.TwoCallsCanWait | app/assistant_service.py:333-442 | two turns of a fresh session reach each of the three overlaps and then two waiting calls |
| ApprovalToken.StrippedRoundTrip | app/assistant_security.py:57-59 | for any bytes, stripping the padding and restoring it by -len % 4 decodes to the same bytes |
| ApprovalToken.DecodeEncode | app/assistant_security.py:57-59 | the decoder of the library undoes its encoder |
| ApprovalToken.GroupsAreNumbers | app/assistant_security.py:57-59 | every four symbols of the encoded text are the same number of twenty-four bits as the three bytes in their place, missing bytes being zero and symbols for them alone padding (RFC 4648 section 4) |
| ApprovalToken.OneSymbolOverIsRefused | app/assistant_security.py:77 | a text one symbol longer than whole groups is refused whatever padding is added |
| ApprovalToken.SignedTokenSplits | app/assistant_security.py:72 | splitting a signed token at its first dot gives exactly the payload text and the digest |
| ApprovalToken.SignedTokenIsAccepted | app/assistant_security.py:63-87 | a signed token is accepted if and only if call, operator and preview hash are those signed and the truncated time has not passed the truncated expiry |
| ApprovalToken.AcceptedTokenIsAuthentic | app/assistant_security.py:71-85 | whatever is accepted is its own text, a dot and the digest of that text, with a payload that says what was asked |
| ApprovalToken.TokenFixesApproval | app/assistant_security.py:41-60 | two approvals with the same token agree in call, operator, hash and second of expiry |
| ApprovalToken.ExpiryToTheSecond | app/assistant_security.py:55-84 | a signed token is never refused before its expiry and never accepted a second or more after it |
| TerminalTasks.ReopenUndoesClose | app/migration_data/terminal_tasks_20261020.py:92-274 | reopen after close gives back every table exactly when no earlier log of the batch was there |
| TerminalTasks.EarlierEntryIsUndoneToo | app/migration_data/terminal_tasks_20261020.py:225-274 | with one earlier entry of the batch, upgrade and downgrade lose it and reopen the follow-up it remembers, although the upgrade touched nothing |
| TerminalTasks.TouchedCoverTerminal | app/migration_data/terminal_tasks_20261020.py:107-157 | the students found chunk by chunk account for every row close selects for any terminal student |
| TerminalTasks.CloseLeavesNothingOpen | app/migration_data/terminal_tasks_20261020.py:78-89 | after close no terminal student has an open follow-up or an active follow-up or visit item, and an open visit is one that enrolled the student |
| TerminalTasks.CompletedFollowUps | app/migration_data/terminal_tasks_20261020.py:125-166 | exactly the open follow-ups of enrolled or invalid students are completed, and no other column changes |
| TerminalTasks.CancelledVisits | app/migration_data/terminal_tasks_20261020.py:78-89 | exactly the open visits of such students that have no enrolling result and no enrollment names are cancelled at this time, with every other column kept |
| TerminalTasks.CancelledItems | app/migration_data/terminal_tasks_20261020.py:175-185 | exactly their active follow-up and visit items are cancelled, without owner, completion time and batch, one version on |
| TerminalTasks.WrittenEntry | app/migration_data/terminal_tasks_20261020.py:187-216 | each new log entry names a touched student, says how many rows of each kind were closed, and remembers exactly the rows that differ with the values they had |
| TerminalTasks.ReportIsTrue | app/migration_data/terminal_tasks_20261020.py:217-222 | the report counts the students with a row that changed, the follow-ups, visits and items that changed |
| TerminalTasks.OthersUntouched | app/migration_data/terminal_tasks_20261020.py:128-185 | rows of other students, other kinds of work items and earlier logs are unchanged |
| TerminalTasks.SecondCloseWritesNothing | app/migration_data/terminal_tasks_20261020.py:92-222 | a second close, at any later time, changes no row and writes no log |
| TerminalTasks.OneEntryEach | app/migration_data/terminal_tasks_20261020.py:198-216 | close writes exactly one entry for each touched student |
| TerminalTasks.Gather | app/migration_data/terminal_tasks_20261020.py:118-157 | the chunked loops collect exactly the touched students, each with all the rows to be remembered |
| TerminalTasks.Connection.Close | app/migration_data/terminal_tasks_20261020.py:92-222 | closes exactly the selected rows, logs each touched student once and reports the counts |
| TerminalTasks.Connection.Reopen | app/migration_data/terminal_tasks_20261020.py:225-274 | restores every row an entry of the batch remembers and deletes those entries; fails, changing nothing, exactly when one is no undo data |
| TerminalTasks.OnlyItsEntriesLeave | app/migration_data/terminal_tasks_20261020.py:225-274 | reopen deletes exactly the log entries with both the action and the batch of close |
| TerminalTasks.UpgradeDowngrade | app/migration_data/terminal_tasks_20261020.py:92-274 | the two in sequence are the identity exactly when no earlier log was there |
| LegacyVisits.RestoreUndoesFold | app/migration_data/legacy_visits_20261016.py:168-329 | restore after fold gives back every table exactly when no earlier log of the batch was there and no older row names a task the fold created |
| LegacyVisits.DanglingItemIsLost | app/migration_data/legacy_visits_20261016.py:294-327 | a work item that names the task id given out next is deleted by upgrade and downgrade |
| LegacyVisits.ValidLinksNameNoNewTask | app/migration_data/legacy_visits_20261016.py:291-326 | data whose links name existing rows meets that condition |
| LegacyVisits.ItemExactlyForUnfinishedVisits | app/migration_data/legacy_visits_20261016.py:222-246 | a visit gets a work item exactly when it is neither completed nor cancelled, its student is not terminal, and the owner is employed and not offboarded |
| LegacyVisits.MovedHomeVisit | app/migration_data/legacy_visits_20261016.py:94-130 | after a fold the task of a home visit has the visit's status and the columns of visit and student, with the second phone when the first is empty; it is scheduled only if the visit was confirmed or completed |
| LegacyVisits.MovedCampusVisit | app/migration_data/legacy_visits_20261016.py:133-165 | the task of a campus visit is pending, scheduled, arrived or cancelled as the visit was pending, confirmed, completed or cancelled, with the columns of visit and student |
| LegacyVisits.MovedVisitItem | app/migration_data/legacy_visits_20261016.py:222-246 | its work item belongs to the student's agent, or else the visit's, in the state of his employment, urgent when it was due before now |
| LegacyVisits.MovedVisitLog | app/migration_data/legacy_visits_20261016.py:248-269 | its log entry holds the whole visit and the task it became |
| LegacyVisits.EntriesAreTheTrace | app/migration_data/legacy_visits_20261016.py:248-269 | the log entries of the batch name exactly the visits moved and the tasks they became |
| LegacyVisits.RestorableAfterFold | app/migration_data/legacy_visits_20261016.py:294-301 | after a fold every entry is a moved visit and no two name the same visit id, so the restore cannot fail |
| LegacyVisits.Connection.Fold | app/migration_data/legacy_visits_20261016.py:168-270 | adds exactly one task and one log per visit and an item where one is due, changes nothing else, counts each kind, and changes nothing at all when a visit cannot be moved |
| LegacyVisits.Connection.Restore | app/migration_data/legacy_visits_20261016.py:273-329 | brings back the remembered visits, removes their tasks, items and links and the log; fails exactly when an entry is no moved visit or a visit id is taken |
| LegacyVisits.OnlyItsEntriesLeave | app/migration_data/legacy_visits_20261016.py:273-329 | restore deletes exactly the log entries with both the action and the batch of the fold |
| LegacyVisits.UpgradeDowngrade | app/migration_data/legacy_visits_20261016.py:168-329 | on data with valid links and no earlier log, fold, dropping the table and restore succeed exactly when every visit can be moved, and leave every table as it was |
| DomainBackfill.BackfillMeetsAudit | app/migration_data/domain_backfill_20260711.py:544-637 | on linked data whose domain rows, if any, are sound, every counter of the audit is zero but the one of outcome codes, which is the number of codes set by hand outside the catalogue; the result is again linked and sound |
| BackfillAudit.AuditPassesExactly | app/migration_data/domain_backfill_20260711.py:544-642 | the audit passes if and only if every user is employed, active assignments are one a student at most and are the students' agents, open items have an active owner, no two items share a key, invalid students have a catalogued code, and every link names a row |
| BackfillDue.RunsExactly | app/migration_data/domain_backfill_20260711.py:298-316 | the run goes through if and only if the last active row of every assigned student names his agent and the student of every open row is there |
| BackfillDue.StatusTexts | app/migration_data/domain_backfill_20260711.py:34-51 | the texts taken as invalid or terminal, spaces aside, are exactly those the live policy maps so |
| BackfillDue.LeadGains | app/migration_data/domain_backfill_20260711.py:340-367 | a lead gains its item if and only if its key is free, it has an agent and is neither enrolled nor invalid; the item's columns follow from the lead's |
| BackfillDue.FollowUpGains | app/migration_data/domain_backfill_20260711.py:386-404 | a follow-up gains its item if and only if its key is free and it is not completed; it is due at its date and urgent once that has passed |
| BackfillDue.HomeOpenness | app/migration_data/domain_backfill_20260711.py:163-173 | a home visit is open to the backfill if and only if it is to the live audit, or only a blank next action makes it so |
| BackfillDue.CampusOpenness | app/migration_data/domain_backfill_20260711.py:176-186 | the same of a campus visit |
| BackfillDue.HomeVisitGains | app/migration_data/domain_backfill_20260711.py:406-431 | a home visit gains its item if and only if its key is free and it is open so; owner, state, due date and priority follow from its columns |
| BackfillDue.CampusVisitGains | app/migration_data/domain_backfill_20260711.py:433-451 | the same of a campus visit |
| BackfillDue.SettlementGains | app/migration_data/domain_backfill_20260711.py:453-473 | an enrollment gains its item if and only if its key is free and its settlement is open to the live audit; a disputed one is urgent |
| BackfillDue.HelpGains | app/migration_data/domain_backfill_20260711.py:475-494 | a student gains a help item if and only if its key is free, he needs help and has an agent |
| BackfillDue.NothingElseGained | app/migration_data/domain_backfill_20260711.py:334-497 | every new item has the key of such a row |
| BackfillDue.EmploymentGains | app/migration_data/domain_backfill_20260711.py:110-141 | a user without a record is active if he is; gone if a log tells of his dismissal by role, login and name and no unsettled lead is left with him; and suspended otherwise |
| BackfillDue.EventGains | app/migration_data/domain_backfill_20260711.py:269-289 | exactly the users without an event of the backfill get one, of the status they end with, and one only |
| BackfillDue.AssignmentGains | app/migration_data/domain_backfill_20260711.py:298-332 | exactly the assigned students without an active row get one, from when they were assigned, else created, else now |
| BackfillDue.StripIsMiddle | app/migration_data/domain_backfill_20260711.py:87-100 | stripping a text leaves what is between the white space at both ends |
| BackfillDue.OutcomeGains | app/migration_data/domain_backfill_20260711.py:95-100 | exactly the invalid students with a blank code get one and change in nothing else: that of the catalogue row their detail, or without one their status, stands for, else other, or without a detail legacy_unspecified |
| BackfillDue.CatalogueGains | app/migration_data/domain_backfill_20260711.py:498-516 | the catalogue then has its old rows and the seven codes; all new ones are terminal, and all but enrolled_elsewhere reclaimable |
| BackfillDue.ReportIsTrue | app/migration_data/domain_backfill_20260711.py:229-238 | the counters of the report are the numbers of rows that were not there before, of leads that wanted help without an agent, and of students who changed |
| DomainBackfill.StrayCodeFailsAudit | app/migration_data/domain_backfill_20260711.py:518-538 | one such code fails the audit on data valid in every other way |
| DomainBackfill.EmptyIsSound | app/migration_data/domain_backfill_20260711.py:224-541 | legacy data with valid keys and empty domain tables is a case of the above |
| DomainBackfill.ValidDataRuns | app/migration_data/domain_backfill_20260711.py:308-316 | on such data the backfill never raises |
| DomainBackfill.SecondRunChangesNothing | app/migration_data/domain_backfill_20260711.py:224-541 | a second run, at any time, changes no row and reports zero for everything but the items skipped for want of an owner, which are as many as the unassigned students who need help |
| DomainBackfill.MappedCodeIsCatalogued | app/migration_data/domain_backfill_20260711.py:95-100 | the code given to an invalid student without one is in the catalogue and not blank |
| DomainBackfill.OwedItem | app/migration_data/domain_backfill_20260711.py:189-221 | a row owed to a source has an owner, the status of that owner's employment, and an existing student, owner and creator |
| DomainBackfill.KeyIsTaken | app/migration_data/domain_backfill_20260711.py:334-497 | every source that is due a work item has one of its key after the run |
| DomainBackfill.OneItemPerKey | app/migration_data/domain_backfill_20260711.py:371-384 | no two items of the result share kind, source type and source |
| DomainBackfill.OneActiveRow | app/migration_data/domain_backfill_20260711.py:292-332 | no student of the result has two active assignments |
| DomainBackfill.OwnerlessIsHelp | app/migration_data/domain_backfill_20260711.py:475-494 | only a help request can be skipped for want of an owner |
| DomainBackfill.DomainStore.Backfill | app/migration_data/domain_backfill_20260711.py:224-541 | succeeds exactly when no recorded assignment disagrees and no open row lacks its student; then adds exactly the rows due, one for each key, maps the missing codes and reports the counts; otherwise changes nothing |
| DomainBackfill.CollectTable | app/migration_data/domain_backfill_20260711.py:340-494 | one loop over source rows queues exactly the rows due to them, in a list without two rows of one key |
| DomainBackfill.AddEmployment | app/migration_data/domain_backfill_20260711.py:247-270 | every user ends with the status recorded for him or else the derived one |
| DomainBackfill.ActiveByStudent | app/migration_data/domain_backfill_20260711.py:293-297 | the dict holds each student's latest active assignment |
| DomainBackfill.CollectAssignments | app/migration_data/domain_backfill_20260711.py:298-332 | queues an assignment for exactly the assigned students without one, or finds a disagreement |
| DomainBackfill.AddOutcomes | app/migration_data/domain_backfill_20260711.py:498-516 | adds exactly the catalogue rows whose code is missing |
| OwnerRepair.NothingPlannedAgain | scripts/repair_work_item_owners.py:73-135 | after the repair no item is planned again or blocks the plan |
| OwnerRepair.ExactlyThePlannedChange | scripts/repair_work_item_owners.py:206-215 | exactly the planned items change, each by one version and in no column but the six the repair writes |
| OwnerRepair.BlockedExactly | scripts/repair_work_item_owners.py:110-125 | the plan is refused exactly for an active source item of a student neither enrolled nor invalid whose agent, else owner, else creator is nobody, not employed or offboarded, and the code tells which |
| OwnerRepair.RepairedItemIs | scripts/repair_work_item_owners.py:73-135 | after the repair the item of an enrolled or invalid student is cancelled, without owner, batch and completion time; any other source item has that owner, is open, suspended or in handover as he is, and is in no batch; an item that was so already is unchanged |
| OwnerRepair.RepairedItemIsOwnedAsDemanded | app/domain_consistency.py:272-299 | a repaired item that is still active has the owner and status the audit demands, although the two fall back on different columns |
| OwnerRepair.UnknownExactlyWithoutResult | app/domain_consistency.py:372-423 | the openness of a source is null exactly for a completed home visit without a result, and for a campus visit arrived or missed without a result, a next action or a follow-up date |
| OwnerRepair.JoinedExactly | app/domain_consistency.py:281-288 | the items joined with a source are those whose kind, source type and source id name it |
| OwnerRepair.FlaggedExactly | app/domain_consistency.py:281-299 | the where clause in two truth values: an open source is flagged if and only if the item is of another student, its owner is not the one due and not null, or its status is not that of the employment due; a closed one if the item is active; one of unknown openness never |
| OwnerRepair.UnknownIsNeverFlagged | app/domain_consistency.py:256-311 | a visit without a result, of a student who is not terminal, is flagged with no item whatever and without one |
| OwnerRepair.RepairLeavesOnly | app/domain_consistency.py:281-311 | after the repair the audit flags a source with its item if and only if it is open and the item is inactive or of another student, or it is closed and the item is active; never when its openness is unknown |
| OwnerRepair.AuditAfterRepair | app/domain_consistency.py:256-311 | for every kind of source, after the repair the audit counts it, over all its joined items or none, exactly when it is open without an item, or open with an item inactive or of another student, or closed with an active item |
| OwnerRepair.HealthySourceIsClean | app/domain_consistency.py:256-311 | a source that is not closed, with an active item of its own student, is not flagged after the repair |
| OwnerRepair.AuditMissesExactly | app/domain_consistency.py:281-311 | a planned item with its source is seen by no counter if and only if the student is not terminal and either the source is open and the item has the status due and the owner due or, not being open, none; or the source is a visit without a result and the item is not open under nobody active. Of an open source, one with an owner is planned for its handover batch |
| OwnerRepair.TerminalItemIsSeen | app/domain_consistency.py:281-311 | a work item of a terminal student that the repair looks at is always planned and always flagged |
| OwnerRepair.AuditMissesOwnerlessAndBatched | app/domain_consistency.py:281-311 | a blocked item without an owner and an item with only a stale batch are both planned and both unseen |
| OwnerRepair.AuditMissesWrongOwner | app/domain_consistency.py:281-311 | the item of a completed visit without a result, blocked under the wrong agent, is planned and unseen |
| OwnerRepair.CompletedVisitNeedsResult | app/domain_consistency.py:372-396 | a completed visit with an active item is counted with a final result and not without one |
| OwnerRepair.FoldedOpenness | app/migration_data/legacy_visits_20261016.py:94-165 | of the tasks the fold makes, exactly those still to be done are open to the audit, and exactly those of completed visits are of unknown openness |
| OwnerRepair.UnhandledAreLeadsOrHelp | scripts/repair_work_item_owners.py:147-169 | once a plan exists, only lead and help items can be left under somebody not employed |
| OwnerRepair.RepairSession.CollectOwnerChanges | scripts/repair_work_item_owners.py:73-135 | lists every planned item once in order of id, counts them by source type, or names the first item that cannot be given an owner |
| OwnerRepair.RepairSession.Apply | scripts/repair_work_item_owners.py:206-215 | applying a plan gives exactly the repaired tables |
| OwnerRepair.RepairTwice | scripts/repair_work_item_owners.py:73-215 | collecting again after the repair finds nothing |
| StaleReassign.GreedyIsOptimal | app/routers/admin_stale.py:199-204 | if any other way of giving out as many students keeps every counted load within a bound, so does the greedy one |
| StaleReassign.PlanIsOptimal | app/routers/admin_stale.py:175-204 | the same of the plan, against every other placement of the same students with the active agents |
| StaleReassign.ReceiversEndLevel | app/routers/admin_stale.py:199-204 | an agent who gets a student ends at most one above any other |
| StaleReassign.PlanIsLevel | app/routers/admin_stale.py:199-204 | the same of the plan |
| StaleReassign.EveryStudentPlaced | app/routers/admin_stale.py:199-204 | exactly the requested students are placed, each with one active agent, and the load reported is the counted load and what the agent receives |
| StaleReassign.ReceiversAreActiveAgents | app/routers/admin_stale.py:175-204 | exactly the active users with the role of an agent have a load, and only they receive students |
| StaleReassign.ReportAddsUp | app/routers/admin_stale.py:191-204 | the distribution counts what agents of each name receive and adds up to the students |
| StaleReassign.FirstLeastIsFirst | app/routers/admin_stale.py:200 | ties go to the first agent of the dict |
| StaleReassign.CountedLoadIsRealLoadPlus | app/routers/admin_stale.py:182-190 | the levelled load is the real one plus the students taken from the agent and the terminal ones given to him |
| StaleReassign.CountedLoadIsReal | app/routers/admin_stale.py:182-204 | the two agree for every agent if and only if no requested student is terminal or held by an active agent |
| StaleReassign.LevellingCanUnlevel | app/routers/admin_stale.py:182-204 | four students of one agent all go to the other, where two each would have been level |
| StaleReassign.Reassign | app/routers/admin_stale.py:175-204 | the auto branch fails exactly for no ids, no students or no agents; otherwise it returns the greedy plan for the requested students in order of id |
| StaleReassign.Decide | app/routers/admin_stale.py:143-204 | of the three modes, fails exactly for no ids, no students, a manual agent missing or not active, or no agents in auto mode; otherwise every requested student goes to the pool, to the named active agent or by the greedy plan, and the report counts them; each failure has its message |
| LoginGuard.PrunedTableDecidesAlike | app/routers/auth.py:34-54 | with non-decreasing times the limiter on the pruned table decides every request as on the full history |
| LoginGuard.AtMostTwentyPerWindow | app/routers/auth.py:42-53 | in every run no address has more than twenty attempts admitted in a half-open quarter of an hour, closed on either side |
| LoginGuard.PrunedLimiterKeepsBound | app/routers/auth.py:34-54 | the same of what the pruning limiter admits |
| LoginGuard.CounterStaysSmall | app/routers/auth.py:90-101 | between requests the failure counter is 0, 1 or 2 |
| LoginGuard.AtMostThreeFailures | app/routers/auth.py:85-114 | when the logins of an account do not overlap, in any half-open five minutes without a successful login or a reset at most three password checks fail |
| LoginGuard.ClosedWindowHoldsSix | app/routers/auth.py:86 | when the logins of an account do not overlap, any closed five minutes without a success or a reset hold at most six failed checks, and more than three only if one falls on the last instant, where the lock has ended |
| LoginGuard.SixFailuresHappen | app/routers/auth.py:86-114 | three failures at an instant and three at the end of the lock are six in one closed window |
| LoginGuard.LoginService.CheckIpRateLimit | app/routers/auth.py:34-54 | refuses exactly when twenty attempts of the address fall in the last fifteen minutes, what the preceding delete removes included, and otherwise records this one; deletes what is older than seventy-five minutes |
| LoginGuard.LoginService.Login | app/routers/auth.py:74-114 | changes the attempts and the one account as specified, and no other account: nothing while the lock lasts, five minutes of lock at the third wrong password, both cleared by a right one unless the account is disabled |
| LoginRace.CommittedAtOnceIsLogin | app/routers/auth.py:80-101 | a failed check that commits before anybody else reads is a login of the one-step model |
| LoginRace.CarefulChecksKeepThree | app/routers/auth.py:80-101 | over every run of wrong passwords in which no check reads while another is uncommitted, at most three fail in any half-open five minutes, and never more than three without a lock |
| LoginRace.OverlapLosesExactly | app/routers/auth.py:80-101 | when a check is about to fail on an account in order, never more than three checks fail without a lock in every continuation without another overlap if and only if no other check stands between its read and its commit |
| LoginRace.WindowHoldsThreeExactly | app/routers/auth.py:80-101 | the same of any half-open five minutes that hold this check and every failure since the last lock |
| LoginRace.AnyNumberCountsAsOne | app/routers/auth.py:80-101 | any number of overlapping checks of a fresh account fail at one instant and leave the counter at one and no lock |
| AssetGraph.Verify | scripts/verify_production_release.py:109-149 | accepts if and only if the index is safe and names a script and a style and everything reachable is there and safe; returns exactly what is reachable, or a finding that is true |
| AssetGraph.Explore | scripts/verify_production_release.py:126-149 | the work list, which can hold duplicates, terminates with exactly the reachable files, or with a reachable file that is missing or has an unsafe reference |
| AssetGraph.ReachableStaysInside | scripts/verify_production_release.py:92-106 | every path met lies below frontend/dist and has no step up |
| AssetGraph.QueryAndPlaceIgnored | scripts/verify_production_release.py:92-106 | a query or fragment does not change what a reference means, nor does the place of one that starts at the root or the assets |
| AssetGraph.DotLeadsBeside | scripts/verify_production_release.py:100-101 | "./" and the string of any clean path is that path below the directory of the referring file, and unsafe with a step up |
| AssetGraph.RootLeadsToDist | scripts/verify_production_release.py:96-97 | a slash and the string is the path below frontend/dist |
| AssetGraph.BareLeadsBeside | scripts/verify_production_release.py:92-106 | the string alone is beside the referring file, but below frontend/dist when it starts with the assets directory, and nowhere when it is data |
| AssetGraph.ElsewhereIsIgnored | scripts/verify_production_release.py:93-95 | data, other sites, fragments, queries and the empty reference are not followed |
| AssetGraph.ScannedExactly | scripts/verify_production_release.py:135 | exactly the files whose names end in .js or .css, in any case and after something else, are searched for references |
| AssetGraph.PosixRoundTrip | scripts/verify_production_release.py:149 | the string returned for a path gives the path back |
| AssetGraph.ReachableIsClean | scripts/verify_production_release.py:92-149 | every path met has clean parts, so no two are reported as one string |
| DuplicateCleanup.NormalizeTwice | app/utils.py:66-75 | normalising is idempotent |
| DuplicateCleanup.NormalizeMeans | app/utils.py:66-75 | however it is written, a number of eleven digits that starts with 1, alone or after 86 or 0086, is normalised to itself, and any other text to its digits |
| DuplicateCleanup.DigitsJoin | app/utils.py:70 | the digits of a text are those of its parts |
| DuplicateCleanup.NoDuplicatesLeft | app/assistant_tools/destructive_tools.py:132-191 | after the cleanup the detector finds nothing at the same minimum, whatever the minimum and the flag |
| DuplicateCleanup.NumbersKept | app/assistant_tools/destructive_tools.py:50-66 | a surviving student has exactly the numbers he had that were not duplicates |
| DuplicateCleanup.CleanedColumns | app/assistant_tools/destructive_tools.py:42-66 | a student without a shared number is left as he is; of any other each column keeps its own number, normalised, or is emptied when that number is shared, and he is deleted exactly when that was asked for and both are then empty |
| DuplicateCleanup.DeletedHadNothingElse | app/assistant_tools/destructive_tools.py:143-147 | a student is deleted if and only if that was asked for, he shared a number, and he is left with none |
| DuplicateCleanup.CleanedTwice | app/assistant_tools/destructive_tools.py:132-191 | a second cleanup changes nothing |
| DuplicateCleanup.DuplicatePhoneGroups | app/assistant_tools/read_tools.py:223-241 | lists exactly the numbers with enough holders, each with all its holders in order of id, larger groups first and groups of one size by number |
| DuplicateCleanup.PhoneTools.Plan | app/assistant_tools/destructive_tools.py:42-66 | lists every affected student once, in order of id, with the numbers he keeps |
| DuplicateCleanup.PhoneTools.CleanUp | app/assistant_tools/destructive_tools.py:132-191 | succeeds exactly when the students left without numbers can be deleted, always when no deletion was asked for; then leaves exactly the cleaned students, no duplicates, the database of the deletion and one log for each affected student and one more, and cleared and deleted add up to affected; otherwise nothing changes |
| BatchReview.LastLogDecides | app/assignment_batch_review.py:137-146 | a student's last log decides his agent: by its note, or without one by the student's current agent |
| BatchReview.CountedExactly | app/assignment_batch_review.py:154-200 | dialed, handled and enrolled told of the rows: within the window from the first log, its end excluded; handled by a status somebody worked for, logged or current; enrolled by a record in the window or by the current status |
| BatchReview.AgentsAddUpToFunnel | app/assignment_batch_review.py:202-236 | for any records the agents' assigned, dialed, handled, enrolled, undialed and unhandled counts each add up to the funnel |
| BatchReview.ReviewIsTrue | app/assignment_batch_review.py:202-236 | the funnel counts, of the students the logs name, those dialed, handled, enrolled, not dialed and not handled; each agent's row the same of the students whose last log gave them to him |
| BatchReview.SharesAddUp | app/assignment_batch_review.py:210-229 | whatever students are counted, the agents' shares add up to all of them |
| BatchReview.ReadLogs | app/assignment_batch_review.py:125-146 | lists the students of the batch once each, with the agent of each one's last log |
| BatchReview.Group | app/assignment_batch_review.py:210-220 | the grouped dict holds, for each agent who got somebody, exactly his students and those dialed, handled and enrolled |
| BatchReview.Build | app/assignment_batch_review.py:92-260 | reports the funnel, each agent's row, the students still to be worked on and whether a trace is missing; nothing for a batch without logs |
| StudentDelete.CascadeRunsExactlyWhenDeletable | app/student_delete.py:75-79 | on a valid database every statement leaves the keys valid if and only if no other student's row names a deleted student's and no enrollment report names a deleted record |
| StudentDelete.RemainingIsValid | app/student_delete.py:75-76 | between any two statements of a child-first order every foreign key is valid |
| StudentDelete.OrderMustBeChildFirst | app/student_delete.py:30-43 | of the orders that clear the ten tables, exactly the child-first ones delete every deletable student of every valid database |
| StudentDelete.RelatedIsChildFirst | app/student_delete.py:32-43 | the order of the source is child-first |
| StudentDelete.EveryOrderEndsAlike | app/student_delete.py:75-79 | every order of deletes of any tables that runs through ends in the same database |
| StudentDelete.NothingOfTheDeletedIsLeft | app/student_delete.py:75-79 | whatever is cleared first, a cascade that runs through leaves no row of a deleted student in any table, every other student with exactly his rows, and every foreign key valid |
| StudentDelete.LeftToTheSchema | app/student_delete.py:32-43 | the only rows of the deleted that the ten deletes leave to the last statement are enrollment reports and group memberships |
| StudentDelete.TenDeletesOnlyRefuseMore | app/student_delete.py:75-79 | deleting the students alone runs exactly when no other student's row names theirs; with the ten deletes, exactly when besides no report names a record of theirs; and where both run they leave the same database |
| StudentDelete.ReportBlocksTheDeletes | app/student_delete.py:75-79 | one student with a report that names his record can be deleted alone and not by the ten deletes |
| StudentDelete.Store.DeleteCascade | app/student_delete.py:46-79 | succeeds exactly for deletable students, removing them with their rows and adding one log each; otherwise nothing changes |
| StatusPolicy.FrozenListIsThePolicy | app/migration_data/terminal_tasks_20261020.py:31-41 | the list the migrations froze is exactly the names the live policy maps to enrolled or invalid |

## Left out

- HTTP routing, permissions, request validation, response payloads, texts of messages and log contents, and the statistics and search queries: plumbing, or easy members.
- The AI provider, backups, the file system, HTML parsing and the regular expressions that find references, HMAC and JSON: they appear as parameters, or as arbitrary steps of the environment.
- Assignment, handover, work-item, finance and invalid-lead services that the modelled code calls: they are not part of this model.
- Alembic schema revisions; timestamps and JSON notes of the migrations are kept as values, so writing and reading them is the identity; the order of the rows inside one note is not kept.
- Columns filled with a constant default and read by nobody; Unicode digits in phone numbers.
- AssistantApproval.EffectMatchesPreview: takes the last preview check and the commit as one step, the assumption under which the property is promised; UnserialisedEffectMatchesExactly says when it holds without.
- AssistantTurn.Session.RunTurn: one turn at a time; interleaved turns, with the check for a turn still running, are AssistantSession's, whose working turn stores one outcome in one step. Token counts are not modelled.
- AssetGraph.Verify: takes the references of each file as given, and returns paths where the source returns their strings.
- BatchReview.Build: rates, agent names, alerts and the sorting of rows are not modelled.
- DomainBackfill.DomainStore.Backfill: the order in which rows of one table are read is left open; it decides nothing but the order of ids.
- DuplicateCleanup.PhoneTools.CleanUp: of the logs only their number is stated; DeleteCascade states those of the deletion.
- LegacyVisits.Connection.Fold: visits are moved in any order, where the source goes by id; it decides nothing but which ids are handed out.
- LoginGuard.LoginService.CheckIpRateLimit: two requests counting at the same moment in two processes are not modelled; one request's transaction is one step.
- LoginGuard.AtMostThreeFailures: one login is one step; overlapping ones are LoginRace's.
- LoginRace.CarefulChecksKeepThree: the runs lie between two successful logins or resets; a success or a reset that overlaps with a failed check, and a check whose commit fails, are not modelled.
- LoginGuard.LoginService.Login: device and address bookkeeping, the minutes named in the refusal and the login log are not modelled.
- OwnerRepair.RepairSession.Apply: the runs of the whole audit before and after, which can refuse the repair for other reasons, are not modelled.
- StaleReassign.Decide: the assignment service that applies what is decided is not modelled.
- StudentDelete.Store.DeleteCascade: foreign keys to users and handover batches, which these statements never delete, are not modelled.
