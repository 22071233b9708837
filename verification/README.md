# Verification of a governed control plane

This project models the parts of the organization's control plane where money, authority or concurrency is at stake, and
proves what every run of them keeps. Each protocol is a machine whose steps are single durable reads or writes; other
processes, operators, expiring leases and crashes are steps like any other, and the main theorems quantify over every
sequence of steps. Where the source updates state in place there is also a class whose methods are proved against the
machine's functions, or against its invariant with arbitrary interference between any two writes. Beside what runs keep, each
operation has a law that says when it succeeds and what it then records in terms of its inputs alone (the members ending in
`Exact` and `Iff`).

`dafny verify dfyconfig.toml` checks everything. The modules, by component:

| component | modules |
|---|---|
| agent budgets: 64-bit check-and-add, the tree of budgets | `AgentBudget`, `Ledger`, `LedgerTheorems`, `LedgerAccounts`, `LedgerSubagents`, `LedgerStore` |
| campaigns: approval, promotion to Executive, recovery | `ExecutionBudget`, `Campaign`, `CampaignTheorems`, `CampaignFreshness`, `CampaignApproval`, `CampaignGrants`, `CampaignRecovery`, `CampaignService`, `SubmitKey` |
| financial review execution | `FinanceReview`, `FinanceLaws`, `FinanceService` |
| capability policy and approval requests | `Policy`, `Approvals`, `ApprovalCurrency`, `ApprovalStore`, `ApprovalLaws`, `CanonicalEncoding` |
| program promotion worker | `ProgramPromotion`, `PromotionLaws`, `PromotionWorker` |
| cell worker, its backoff, the two-worker supervisor | `CellWorker`, `Backoff`, `Supervisor` |
| messages: duplicate keys, topology | `JsonKeys`, `Topology` |
| offset cursor | `OffsetCursor` |
| shared | `Prelude`, `Text`, `Decimal` |

## Where the code does not do what it says

The model follows the code. Each of these has a lemma with the failing case and a lemma that says for every input or run when
the promise does hold.

- Settlement (`internal/agentbudget/postgres/store.go:266-269`) says an overspend is recorded; the table's CHECK constraints
  refuse it (`OverspendIsRefused`). A correction that leaves the 64-bit range is applied and clamped to zero, erasing the account
  (`OverflowErasesTheAccount`, `OverflowHappens`); accounts stay exact if and only if every correction lands in range (`SettleKeeps`).
- Giving a child a row of its own (`internal/agentbudget/postgres/store.go:207-250`) takes one subagent from the parent, not the
  child's subagent ceiling, so a tree can attach more children than its root's ceiling (`SubagentsExceedTheRoot`). It can if and only
  if some child has a row of its own (`CeilingHoldsIffUndivided`); in every other cumulative dimension the root's ceiling holds for
  the whole tree (`TreeWithinRoot`).
- Promotion (`internal/campaign/promotion_service.go:146-159, 205-223`) checks the latest revision and the current floor before the
  root is created, not with it. A root is launched on the latest revision if and only if the lineage is not revised between the
  two (`LaunchIsFreshIff`, `StaleRevisionCanLaunch`), and at the host's floor if and only if no floor was set since the check or the
  last one set still admits its limits (`LaunchIsFundedIff`, `UnderfundedCanLaunch`).
- Approval (`internal/campaign/approval_service.go:137-187`) likewise checks revision, review and floor before it writes: a superseded
  revision or review can still be approved (`StaleApprovalIsRecorded`), and `ApprovalWasCurrent` says exactly when each still holds at
  the write.
- Financial review (`internal/campaign/finance_service.go:465-485`) never compares the task it is given with the request's own task,
  so a replay completes any task that awaits verification (`ReplayCompletesAnyTask`, `MismatchFromEmpty`); a completion for a request
  whose executions all name its own task has its review (`CompletionHasItsReview`). After a crash between recording the success and
  persisting the review (`CrashStrandsFromEmpty`), executing the request with its own task never produces the review while nobody
  moves that task (`StrandedUntilMoved`); moving the task (`MovedIsReviewed`), or executing the request with any other ready task of
  the reviewer (`OtherTaskRepairs`), does.
- The promotion worker (`cmd/orgctl/program_budget.go:319-432`) may record smoke-passed for a promotion it has rolled back
  (`PassedThoughRolledBack`); a promotion recorded so was rolled back if and only if the worker was stopped between restoring that
  promotion's ref and recording it (`PassedWasRolledBackIff`). Smoke-passed may also be recorded with the ref elsewhere when nothing was rolled back
  (`PassedElsewhere`); from any point at which the ref held the candidate, it holds it then if and only if the last write to it since,
  by anyone, is none or the candidate again (`PassedAtCandidateIff`, `PassedSinceMarkedIff`).
- The worker's receipt and mark follow the ref's swap in separate writes (`cmd/orgctl/program_budget.go:387-432`,
  `internal/staging/service.go:318-370`). Rolled-back, or applied, can be recorded with the ref elsewhere (`RolledBackElsewhere`,
  `AppliedElsewhere`); it is recorded with the ref in place if and only if no other actor's write since the swap left the ref elsewhere
  (`RolledBackAtBaseIff`, `MarkedAtCandidateIff`).
- The supervisor (`cmd/orgctl/executive_supervisor.go:40-46`) promises the original error; it is lost if and only if that error is a
  cancellation and the parent is cancelled before the outcome is classified (`OriginalErrorReturnedIff`, `OriginalErrorCanBeLost`).
- Evaluation trims a role's authority class and the check at consumption does not: they agree if and only if the class has no
  surrounding space (`TwoPoliciesAgree`). A grants key with surrounding space makes an authority whose grants are never found
  (`PaddedGrantsAreLost`); every listed grant is found if and only if whatever a padded key lists is also listed under the key
  without the space (`GrantsHonouredIff`).
- One recorded use of an approval backs any number of allow answers (`SettledCommandSettlesAgain`), also after the revision it was
  evaluated under is superseded (`SupersededAllow`). An allow is under the current revision and matrix if and only if it recorded the
  use or the registry still has what the evaluation saw (`AllowIsCurrentIff`).
- The semaphore bounds running dispatches, not the in-flight set (`InFlightCanExceedCapacity`), which is larger by exactly the
  goroutines that have returned their token and not yet removed their id (`InFlightCount`).
- Several cursors decode to the same offset (`SecondCursor`); exactly the canonical one is what the encoder writes
  (`AcceptedIsEncodedIffCanonical`).

## Model

| member | source | states |
|---|---|---|
| `AgentBudget.ReserveExact` | internal/agentbudget/types.go:68-118 | on wrapping 64-bit registers Reserve succeeds exactly when no delta is negative and every true sum (and the replaced depth) is within its limit, and then returns the true sums |
| `AgentBudget.ReservationRun` | internal/agentbudget/types.go:86-118 | along any run of successful reservations each cumulative dimension is the start plus the true total and never passes its limit |
| `AgentBudget.ReservationRunExact` | internal/agentbudget/types.go:86-118 | from an account within its limits a whole run of reservations succeeds if and only if every delta is admissible on its own and the totals fit, so the order of reservations, the order of checks and wrap-around do not matter |
| `Ledger.CreateRootKeeps` | internal/agentbudget/postgres/store.go:58-124 | creating a root keeps rows within ceilings, the forest, the log's keys and, in a balanced ledger, every account |
| `Ledger.ConsumeKeeps` | internal/agentbudget/postgres/store.go:337-378 | charging a model call keeps the ledger well formed and every account exactly its logged charges plus allocations (`ConsumeExact` says what is logged) |
| `Ledger.ShareKeeps` | internal/agentbudget/postgres/store.go:126-264 | attaching a child to the parent's own row keeps all accounts, counting each attached child once |
| `Ledger.AllocateKeeps` | internal/agentbudget/postgres/store.go:126-264 | giving a child a row of its own debits the parent by exactly the child's ceilings in every cumulative dimension but subagents, and by one subagent whatever the child's subagent ceiling is; the ledger stays well formed and balanced |
| `Ledger.SettleKeeps` | internal/agentbudget/postgres/store.go:270-335 | a settlement always leaves accounts within ceilings, and leaves a balanced ledger balanced if and only if the corrected account fits in 64 bits without going negative |
| `LedgerTheorems.ChargedOnce` | internal/agentbudget/ports.go:29-52 | a budget's own charges are the current charge of each distinct invocation, counted once, however often consume and settle were repeated |
| `LedgerTheorems.CommittedIsHanded` | internal/agentbudget/ports.go:17-28 | everything a tree has committed to children is everything handed to its non-root rows |
| `LedgerTheorems.TreeWithinRoot` | internal/agentbudget/ports.go:17-33 | conservation, in every cumulative dimension: own charges summed over the whole tree never exceed the root's usage, hence its limits; in subagents the tree's attachments never exceed the ceilings of its rows together, and equal the root's usage while no child has a row of its own |
| `LedgerTheorems.ApplyKeeps` | internal/agentbudget/ports.go:9-53 | every operation keeps the well-formed ledger, and the balance unless it is a settlement out of range |
| `LedgerAccounts.LedgerRun` | internal/agentbudget/ports.go:9-53 | after any run whose settlements are exact, usage equals what the admitted calls cost, each counted once at the amounts its own requests carried, plus children's allocations, and a tree's own charges stay within its root's limits; in subagents usage equals the attached children, and a tree's stay within its rows' ceilings together |
| `LedgerAccounts.ConsumeExact` | internal/agentbudget/postgres/store.go:337-378 | a new charge is accepted if and only if every amount is non-negative and every sum fits; it then adds exactly those amounts to that row and the log, and nothing else; repeated or refused it changes nothing |
| `LedgerAccounts.SettleExact` | internal/agentbudget/postgres/store.go:270-335 | a first settlement of an admitted call corrects dollars and tokens by spent less charged in 64 bits, clamped, or is refused past a ceiling; nothing else changes |
| `LedgerAccounts.CreateRootExact` | internal/agentbudget/postgres/store.go:58-124 | a root row carries the organization, role and limits asked for; under a task with a budget the same request finds it and one that differs in any field is a conflict |
| `LedgerAccounts.ShareExact` | internal/agentbudget/postgres/store.go:126-206 | a child shares the parent's row if and only if depth and subagents allow; the row gains one subagent and the greater depth only |
| `LedgerAccounts.AllocateExact` | internal/agentbudget/postgres/store.go:126-264 | a child gets its own row if and only if moreover it is new and every amount affordable; the parent pays exactly the allocation and one subagent |
| `LedgerAccounts.RunReflected` | internal/agentbudget/ports.go:29-52 | after any run the log's own charges of a budget are the costs of its calls as requests and replies alone tell them |
| `LedgerTheorems.ReportedIsExact` | internal/agentbudget/postgres/store.go:270-335 | a settlement that reports no negative cost and does not overflow is always exact |
| `LedgerTheorems.ReportedRunBalanced` | internal/agentbudget/ports.go:34-52 | runs that only ever report such costs keep every account exact, with nothing else asked of callers |
| `LedgerTheorems.RepetitionIsFree` | internal/agentbudget/ports.go:29-52 | a repeated charge or settlement succeeds and changes nothing, whatever amount it carries |
| `LedgerTheorems.AttachmentIsFree` | internal/agentbudget/postgres/store.go:126-264 | a repeated attachment returns the same budget and changes nothing |
| `LedgerTheorems.OverspendIsRefused` | internal/agentbudget/postgres/store.go:266-335 | a settlement that would pass a ceiling is refused and recorded nowhere, contrary to the comment |
| `LedgerTheorems.OverflowErasesTheAccount` | internal/agentbudget/postgres/store.go:270-335 | a settlement that overflows the register stores zero, whatever every other call had spent |
| `LedgerTheorems.OverflowHappens` | internal/agentbudget/postgres/store.go:270-335 | a run from an empty ledger, exact until its last operation, in which such a settlement erases an account of 7 |
| `LedgerSubagents.RunCounted` | internal/agentbudget/postgres/store.go:126-264 | after any run, exact or not, every row's subagents are its attached children and within its own ceiling |
| `LedgerSubagents.SharedTreeWithinRoot` | internal/agentbudget/postgres/store.go:126-264 | after any run in which every inheritance shares the parent's row, a tree's attachments are within its root's ceiling |
| `LedgerSubagents.DividedCanExceed` | internal/agentbudget/postgres/store.go:207-250 | after any run that gave a child of the tree a row of its own, some continuation of accepted attachments passes the root's ceiling |
| `LedgerSubagents.CeilingHoldsIffUndivided` | internal/agentbudget/postgres/store.go:207-250 | for every run and root: attaching by sharing can never pass the root's subagent ceiling if and only if no child of the tree has a row of its own |
| `LedgerSubagents.SubagentsExceedTheRoot` | internal/agentbudget/postgres/store.go:207-250 | a run from an empty ledger whose tree has more attachments than its root's ceiling of one |
| `LedgerStore.Store.CreateRootBudget` | internal/agentbudget/postgres/store.go:58-124 | the transaction, in place, is the root creation on values: same state, same reply, idempotent for the same budget |
| `LedgerStore.Store.InheritForChild` | internal/agentbudget/postgres/store.go:126-264 | the transaction, with its rollback, is the inheritance on values |
| `LedgerStore.Store.ConsumeModelCall` | internal/agentbudget/postgres/store.go:337-378 | the transaction, with its rollback, is the charge on values |
| `LedgerStore.Store.SettleModelCall` | internal/agentbudget/postgres/store.go:270-335 | the transaction, with its rollback on a violated CHECK, is the settlement on values |
| `ExecutionBudget.Shortfalls` | internal/campaign/execution_feasibility.go:135-168 | the check reports exactly the dimensions below the floor, so none if and only if the budget is feasible, and refuses a floor that is not positive |
| `ExecutionBudget.NeverRaised` | internal/campaign/executable_budget.go:24-47 | conversion changes no amount but dollars, and what passed Finance's gate at a floor reaches it in all seven amounts, and passes again under any lower floor |
| `ExecutionBudget.GateExact` | internal/campaign/finance_service.go:712-737 | a recommended output passes if and only if it has a budget, all its amounts and the floor's are positive, and each of the seven reaches the floor's; any other valid verdict if and only if it has no budget or a positive one |
| `ExecutionBudget.FeasibleExact` | internal/campaign/execution_feasibility.go:135-168 | feasible means a positive floor reached in each of the seven amounts |
| `ExecutionBudget.ToLimitsExact` | internal/campaign/executable_budget.go:24-47 | a budget converts if and only if every amount is positive, to those amounts |
| `Campaign.RunGrows` | internal/campaign/promotion_service.go:86-104 | no step of any run changes or loses a proposal, review, approval, root, budget or promotion |
| `CampaignTheorems.OneRootPerApproval` | internal/campaign/promotion_service.go:86-104 | in every interleaving of both promotion paths, retries and crashes an approval has at most one root, approvals never share one, and a promotion points to its approval's root whose budget is recorded |
| `CampaignTheorems.KeyHoldsOnlyItsOwnRoot` | internal/campaign/promotion_service.go:243-271 | with the real submit keys, a key can only hold the root of the approval that derives it |
| `CampaignTheorems.RootTracesToApproval` | internal/campaign/promotion_service.go:106-223 | every root traces to an approval binding one proposal and one recommended review by matching hashes, approver and reviewer different; its limits and recorded budget are the recommended amounts and reach, amount by amount, the floor its call read; goal, causation and key are the approval's, and its criteria are the host's one in the design phase followed by the owner's, in order, in the implementation phase |
| `CampaignTheorems.ModeIsFixed` | internal/campaign/promotion_service.go:86-101 | a durable promotion's mode is the mode its root was submitted with, and no continuation of the run changes either |
| `CampaignTheorems.UngrantedNeverGoverned` | internal/campaign/execution_mode.go:40-67 | no run without an owner's grant ever launches or records governed implementation |
| `CampaignTheorems.PromoteJustified` | internal/campaign/promotion_service.go:59-321 | each step of a promotion writes only records the invariant allows |
| `CampaignTheorems.ApproveJustified` | internal/campaign/approval_service.go:72-236 | each step of an approval writes only an approval bound to its proposal and recommended review by someone other than the reviewer |
| `CampaignApproval.ApprovalWasCurrent` | internal/campaign/approval_service.go:72-236 | in every run, an approval that becomes durable is what its call asked for, and comes from earlier steps of that call at which the proposal had the highest revision of its lineage and the review was its last, and at which every amount reached the floor read; each still holds at the write if and only if no revision, no review, and no floor that refuses it came in between |
| `CampaignApproval.ApproveAdvancesIff` | internal/campaign/approval_service.go:137-193 | an approval goes on from its first check if and only if proposal and review are current, and from its second if and only if the amounts reach the floor and the approver is not the reviewer |
| `CampaignApproval.ApprovalSucceeds` | internal/campaign/approval_service.go:72-236 | with both, and no row in the way, three steps write exactly its row |
| `CampaignApproval.LastUntilRereviewed` | internal/campaign/approval_service.go:149-155 | a proposal's last review stays last exactly until it is reviewed again |
| `CampaignApproval.StaleApprovalIsRecorded` | internal/campaign/approval_service.go:137-236 | a run from an empty store that approves a superseded revision by a superseded review |
| `CampaignApproval.RowsAreUnique` | internal/campaign/postgres/store_revision_approval.go:151-237 | in every run approvals are unique by key and by their pair of hashes, and promotions by key |
| `CampaignApproval.CallsAreIsolated` | internal/campaign/approval_service.go:72-236 | only its own steps change a call in flight, and none changes what it asked for |
| `CampaignGrants.GovernedWasGranted` | internal/campaign/execution_mode.go:40-67 | in every run, every governed root and promotion is of an approval promoted with the owner's grant of it to the role that asked |
| `CampaignGrants.TakenUpIff` | internal/campaign/promotion_service.go:44-85 | a promotion is taken up if and only if it names approval, role and key and its grant, if any, is for that approval and role |
| `CampaignGrants.PromoteAdvancesIff` | internal/campaign/promotion_service.go:87-223 | a promotion goes on from its first look if and only if there is none yet, from its second if and only if the approval's hashes are its records' own and its proposal leads its lineage, and from its third if and only if every amount is positive and reaches the floor; it then carries the approved limits and that floor |
| `CampaignTheorems.LineagesKept` | internal/campaign/postgres/store_revision_approval.go:79-149 | the head of a lineage stays its one revision with the highest number |
| `CampaignFreshness.LeadsUntilRevised` | internal/campaign/promotion_service.go:146-159 | over any run a leading proposal goes on leading exactly until its lineage gains a revision |
| `CampaignFreshness.LaunchIsFreshIff` | internal/campaign/promotion_service.go:146-271 | from a call's latest-revision check to its launch: launched on the latest revision if and only if the lineage was not revised in between, and at the floor if and only if the last floor set by the run's steps admits the limits |
| `CampaignFreshness.LaunchIsFundedIff` | internal/campaign/promotion_service.go:205-271 | from a call's floor check to its launch: the root carries the approved limits that passed the check, and is at the floor if and only if no floor was set in between or the last one set still admits them |
| `CampaignFreshness.StaleRevisionCanLaunch` | internal/campaign/promotion_service.go:146-271 | a run from an empty store that launches a superseded revision |
| `CampaignFreshness.UnderfundedCanLaunch` | internal/campaign/promotion_service.go:205-271 | a run from an empty store, for any floor above the approved budget, that launches below it |
| `CampaignRecovery.RetryConverges` | internal/campaign/promotion_service.go:59-321 | wherever earlier attempts crashed, asking again promotes the approval, onto the root an earlier attempt left if there is one, with exactly the asked role, key and granted mode |
| `CampaignService.Service.BuildCriteria` | internal/campaign/promotion_service.go:226-238 | the loop yields the host's criterion in the design phase followed by every owner criterion, in order, in the implementation phase, index by index |
| `CampaignService.Service.Check` | internal/campaign/promotion_service.go:106-223 | it passes if and only if, in the records it read, the approval is bound, sealed and its proposal the latest, and every approved amount reaches the floor it read; otherwise refused, or infeasible |
| `CampaignService.Service.Submit` | internal/executive/orchestrator.go:286-328 | under interference and crashes, a returned task is the approval's root under the asked mode with exactly these limits recorded; it is refused if and only if no key derives, and conflicts only with another root or budget |
| `CampaignService.Service.PromoteToExecutive` | internal/campaign/promotion_service.go:44-329 | under interference and crashes the records stay valid and only grow; a returned promotion is durable, points to the approval's root and runs under the granted mode; a promotion found at the first look is the answer, or a mode conflict; otherwise it is refused or infeasible exactly as the records and floor it read say |
| `CampaignService.Service.Persist` | internal/campaign/postgres/store_promotion.go:16-155 | exactly this row is inserted, or a conflict is returned if and only if its key or task is taken |
| `CampaignService.Service.ApproveForExecution` | internal/campaign/approval_service.go:62-237 | a returned approval binds this proposal and recommended review by hash, separate from the reviewer, under the hash this request computes; it gets there if and only if, in the records it read, the proposal led its lineage and the review was its last, and the amounts reached the floor it read |
| `CampaignService.Service.SealApproval` | internal/campaign/postgres/store_revision_approval.go:151-237 | inserts exactly this row if none is in the way; otherwise answers with a row found by key first, accepted only under the same hash, and changes nothing |
| `SubmitKey.ValidateApprovalAndHash` | internal/campaign/promotion_submit_key.go:74-89 | the scan accepts exactly positive approvals with sixteen leading lower-case hexadecimal characters |
| `SubmitKey.KeysDerived` | internal/campaign/promotion_submit_key.go:30-89 | both keys exist exactly for such approvals, the length and colon tests never refusing, and are the prefix, the decimal id and the sixteen characters |
| `SubmitKey.SubmitKeyIdentifiesApproval` | internal/campaign/promotion_submit_key.go:30-89 | equal submit keys, or equal causation keys, name the same approval |
| `SubmitKey.CausationIsTrustedRoot` | internal/executive/orchestrator.go:200-228 | every causation key is accepted by the trusted-root pattern and fits its length |
| `SubmitKey.AcceptsExact` | internal/executive/orchestrator.go:200-200 | the pattern accepts exactly the non-empty words of letters, digits and single separators, with no separator first, last or next to another |
| `FinanceReview.ReviewFollowsSuccess` | internal/campaign/finance_service.go:465-697 | in every run a review exists only after its attempt's success was recorded under a valid lease, for an output that passed the gate; a recommended one reached the floor it was judged by in all seven amounts |
| `FinanceReview.ReplayReturnsTheReview` | internal/campaign/finance_service.go:465-485 | every answer, first or replay, now or later, is the one review of its request |
| `FinanceReview.RunGrows` | internal/campaign/postgres/store.go:373-495 | a request's review, once there, never changes |
| `FinanceReview.CompletionHasItsReview` | internal/campaign/finance_service.go:686-697 | in every run, if the executions of the completion's request name that request's own task, the completed task is that one and no other request's, and has its review, by an attempt at that task; other executions may name anything |
| `FinanceReview.ReplayCompletesAnyTask` | internal/campaign/finance_service.go:465-485 | in any state, with any other task awaiting verification, a replay completes it, reviewed or not |
| `FinanceReview.MismatchFromEmpty` | internal/campaign/finance_service.go:465-485 | a run from an empty store that completes a task whose own request has no review |
| `FinanceReview.CrashStrands` | internal/campaign/finance_service.go:629-684 | a crash between the success and the review leaves the task awaiting and the request unreviewed |
| `FinanceReview.CrashStrandsFromEmpty` | internal/campaign/finance_service.go:629-684 | a run from an empty store, executing only its own task, that ends that way |
| `FinanceReview.StrandedUntilMoved` | internal/campaign/finance_service.go:487-506 | from then on, while nobody moves the task and executions of the request name it, none of them produces the review, however often repeated and whatever other executions name |
| `FinanceReview.WaitingUntilMoved` | internal/campaign/finance_service.go:487-506 | if moreover no execution of another request names the task, it goes on awaiting verification |
| `FinanceReview.MovedIsReviewed` | internal/campaign/finance_service.go:487-684 | blocked and made ready again by someone else, the next execution with the request's own task records the review |
| `FinanceReview.OtherTaskRepairs` | internal/campaign/finance_service.go:465-684 | executed with any other ready task of its reviewer, the request is reviewed with nobody moving anything |
| `FinanceReview.AdvanceJustified` | internal/campaign/finance_service.go:438-697 | each step of an execution writes only what the invariant allows |
| `FinanceLaws.ReviewerIsSeparate` | internal/campaign/postgres/store.go:386-399 | in every run every stored review was made at a task assigned to its request's reviewer, who is not the requester, the CEO or the owner |
| `FinanceLaws.ClaimIff` | internal/campaign/finance_service.go:487-506 | a claim succeeds if and only if the task is ready and assigned to the reviewer, and takes the next attempt and its lease |
| `FinanceLaws.JudgeIff` | internal/campaign/finance_service.go:588-627 | an output goes on if and only if it passes the gate, amount by amount; otherwise the attempt fails and nothing is recorded |
| `FinanceLaws.SuccessIff` | internal/tasks/postgres/queue.go:214-234 | a success is recorded if and only if the attempt holds the running task |
| `FinanceLaws.LapsedIsNotRecorded` | internal/tasks/postgres/queue.go:214-234 | a lease that lapses first costs the attempt: nothing is recorded and only the lease changes |
| `FinanceLaws.ExecutionsAreIsolated` | internal/campaign/finance_service.go:465-485 | only its own steps change an execution in flight, and none changes the task and request it was given |
| `FinanceLaws.StoreIff` | internal/campaign/postgres/store.go:373-495 | a first review is stored, the same one found, another refused, and none for a reviewer who is not separate |
| `FinanceLaws.FinishIff` | internal/campaign/finance_service.go:686-697 | a task is completed if and only if it awaits verification with nothing open, and the review answered anyway |
| `FinanceLaws.TransitionsExact` | internal/tasks/state_machine.go:1-40 | which tasks are done, and from where verification, running, leased, completed and cancelled are reached |
| `FinanceService.Service.Claim` | internal/campaign/finance_service.go:487-527 | refused if and only if the task it read was not ready or not the reviewer's; a returned attempt is the next one and holds the lease of the running task |
| `FinanceService.Service.RecordSuccess` | internal/tasks/postgres/queue.go:214-234 | exactly this success is recorded if and only if the attempt held the running task |
| `FinanceService.Service.RecordReview` | internal/campaign/postgres/store.go:373-495 | stored once, or the same one returned, or a conflict, or refused to requester, CEO and owner, exactly by what it read |
| `FinanceService.Service.Conclude` | internal/campaign/finance_service.go:588-697 | an output is refused as invalid if and only if it fails the gate, amount by amount; otherwise a returned review carries this output and is durable |
| `FinanceService.Service.ExecuteReviewTask` | internal/campaign/finance_service.go:438-697 | under interference and crashes the records stay sound and only grow; a returned review is the durable one of the request; not found if and only if the request was unknown, and a review found at the first look is the answer |
| `Policy.ReadCapabilities` | internal/authorization/authorizer.go:107-124 | the loop accepts exactly complete, distinct capabilities and tabulates their trimmed form |
| `Policy.ReadGrants` | internal/authorization/authorizer.go:125-139 | in any visiting order, accepts exactly known grants and collects the trimmed authorities |
| `Policy.CheckDenies` | internal/authorization/authorizer.go:140-151 | in any visiting order, accepts exactly denies of known authorities and capabilities |
| `Policy.NewAuthorizer` | internal/authorization/authorizer.go:100-153 | an authorizer is built exactly for the matrices some well-built authorizer has, and is that one |
| `Policy.CompleteExact` | internal/authorization/authorizer.go:109-123 | a capability is accepted if and only if, trimmed, it has an id and a risk and its mode is empty or one of the three |
| `Policy.Sha256Exact` | internal/authorization/validation.go:13-13 | the matrix hash is 64 characters, each one of the sixteen lower-case hexadecimal digits |
| `Policy.EvaluateExact` | internal/authorization/authorizer.go:166-249 | for a role that stands, evaluation is a hard deny if and only if the "*" list or its class's names the capability, otherwise demands approval if and only if the capability has a mode, otherwise allows if and only if its class's own entry lists it or "*"; nobody else is allowed |
| `Policy.DenyReasons` | internal/authorization/authorizer.go:166-230 | why whoever does not stand is denied: the first failing test |
| `Policy.DriftExact` | internal/authorization/service.go:142-179 | the check of a stored request passes if and only if it is current, the role may act under a known class, the capability needs approval in that mode and neither "*" nor the class as written is denied it |
| `Policy.ObjectionExact` | internal/authorization/service.go:207-268 | a consumption passes if and only if that check does, requester and action are the request's, and so is every filled-in field |
| `Policy.TwoPoliciesAgree` | internal/authorization/service.go:142-240 | for every matrix, registry and request the stored-request check passes if and only if a fresh evaluation demands approval in the same mode, the matrix hash is current and the class has no surrounding space (each side is characterised by `EvaluateExact` and `DriftExact`) |
| `Policy.ConsumptionImpliesApprovalRequired` | internal/authorization/service.go:207-268 | a consumption that passes is one a fresh evaluation would answer with approval required, of a capability neither everyone nor its class is hard-denied |
| `Policy.PaddedClassCannotConsume` | internal/authorization/authorizer.go:225-230 | a padded class is asked for an approval it can never use |
| `Policy.PaddedGrantsAreLost` | internal/authorization/authorizer.go:125-139 | a padded grants key makes a known authority that is granted nothing |
| `Policy.GrantsHonouredIff` | internal/authorization/authorizer.go:125-139 | for every matrix, every class is granted exactly what the keys of its authority list if and only if whatever a key with surrounding space lists is also listed under the key without it |
| `Approvals.StepFollows` | internal/authorization/state_machine.go:3-12 | every step moves every request along the transition relation or not at all, and never alters what was asked |
| `Approvals.TerminalIsFinal` | internal/authorization/domain.go:82-89 | a terminal request is unchanged by every continuation of every run |
| `Approvals.AtMostOneUse` | internal/authorization/postgres/transitions.go:12-135 | in every run a request has at most one decision and one use, and a use if and only if it is consumed |
| `Approvals.AllowHasOwnerApproval` | internal/authorization/service.go:39-82 | in every run each allow-by-approval is for exactly the stored question, approved earlier by the owner of the day, under the revision and matrix the evaluation found current, and still current at the answer if the answer recorded the use |
| `Approvals.FirstUseIsCurrent` | internal/authorization/service.go:207-268 | a first use is recorded only while unexpired and while a fresh evaluation still demands it |
| `Approvals.SettledCommandSettlesAgain` | internal/authorization/postgres/transitions.go:30-50 | a settled command settles again at any time, under any registry, writing nothing |
| `ApprovalCurrency.AllowIsCurrentIff` | internal/authorization/service.go:39-82 | for every run, question and answer: an allow is under the current revision and matrix if and only if it recorded the use or the last registry written since the evaluation still has the revision and hash it saw |
| `ApprovalCurrency.SupersededAllow` | internal/authorization/postgres/transitions.go:30-50 | a run from an empty store that answers an allow under any other registry |
| `Approvals.DecideShape` | internal/authorization/postgres/requests.go:137-218 | a decision does one of three things: nothing, expire, or record a ruling; an approval is by the owner under the request's revision and matrix |
| `Approvals.ConsumeShape` | internal/authorization/postgres/transitions.go:12-135 | a consumption does nothing, expires, or spends; it settles only on a matching use |
| `ApprovalStore.NewRequestIsApprovable` | internal/authorization/service.go:84-124 | a request just stored can be approved at once if and only if its role's class has no surrounding space |
| `ApprovalLaws.CreateExact` | internal/authorization/postgres/requests.go:14-98 | a request is stored if and only if revision and matrix are current, the requester may act and the key is new; a used key finds the same hash or conflicts |
| `ApprovalLaws.RequestExact` | internal/authorization/service.go:84-124 | what is stored is exactly what was asked, trimmed, under the current revision, and only if a fresh evaluation demands approval |
| `ApprovalLaws.DecideExact` | internal/authorization/postgres/requests.go:137-218 | a request is decided if and only if pending, unexpired, by the enabled unretired owner and, to approve, undrifted; the decision records who owned and under which revision |
| `ApprovalLaws.ConsumeExact` | internal/authorization/postgres/transitions.go:12-135 | a use is recorded if and only if the request is approved, unexpired and nothing objects; a consumed one settles again only on that very use |
| `ApprovalLaws.CancelExact` | internal/authorization/postgres/transitions.go:137-185 | a request newly ends cancelled if and only if pending or approved and the actor is an enabled unretired requester or owner |
| `ApprovalLaws.AskExact` | internal/authorization/service.go:39-60 | a question is taken up if and only if complete and in need of approval, with the revision and hash it was judged under |
| `ApprovalLaws.AnswerExact` | internal/authorization/service.go:60-82 | and is allowed if and only if the consumption settles |
| `ApprovalLaws.TransitionsExact` | internal/authorization/state_machine.go:3-12 | the transition relation, pair by pair |
| `ApprovalStore.SweepExact` | internal/authorization/postgres/transitions.go:187-225 | the sweep expires exactly the due requests it was given and changes no other |
| `ApprovalStore.Store.RequestApproval` | internal/authorization/service.go:84-124 | in place, equal to evaluating then creating on values |
| `ApprovalStore.Store.CreateRequest` | internal/authorization/postgres/requests.go:14-98 | in place, equal to the creation on values, keeping the invariant: one pending request and its key are added, or nothing changes, and a reused id is the one the key names, under the same hash |
| `ApprovalStore.Store.DecideRequest` | internal/authorization/postgres/requests.go:137-218 | in place, equal to the decision on values, keeping the invariant: no other request changes, this one moves along the transition relation, and a decision is recorded if and only if the call settles, on a pending unexpired request |
| `ApprovalStore.Store.ConsumeApproval` | internal/authorization/postgres/transitions.go:12-135 | in place, equal to the consumption on values, keeping the invariant: no other request changes, a use is recorded if and only if the call settles anew, settled means consumed, and a reused settlement changes nothing |
| `ApprovalStore.Store.CancelRequest` | internal/authorization/postgres/transitions.go:137-185 | in place, equal to the cancellation on values, keeping the invariant: no other request changes, no decision or use is added, it settles if and only if the organization's request ends cancelled, and anything changes only for an enabled unretired requester or owner |
| `ApprovalStore.Store.ExpireRequests` | internal/authorization/postgres/transitions.go:187-225 | the loop over due rows is the sweep on values, keeping the invariant: exactly the given requests become expired |
| `CanonicalEncoding.WriteFields` | internal/authorization/hash.go:11-34 | the loop writes the recursive encoding |
| `CanonicalEncoding.UniquelyDecodable` | internal/authorization/hash.go:11-34 | equal encodings come from equal lists of strings, digits, colons and bars included |
| `CanonicalEncoding.FormatExact` | internal/authorization/hash.go:11-34 | what is hashed is eleven fields in this order, each as decimal length, colon, bytes and bar |
| `CanonicalEncoding.HashIdentifiesRequest` | internal/authorization/hash.go:11-34 | under an injective digest equal request hashes mean equal fields |
| `ProgramPromotion.WorkerMovesOnlyItsOwn` | cmd/orgctl/program_budget.go:277-640 | in every run the worker moves a ref only between its promotion's base and candidate, after the pending receipt, and smokes only promotions with that receipt |
| `ProgramPromotion.WorkerReplacesOnlyWhatItExpects` | internal/staging/gitexec/backend.go:316-347 | a worker step changes a ref only by replacing the value its move expects |
| `ProgramPromotion.OneVerdictPerPromotion` | cmd/orgctl/program_budget.go:319-432 | in every run a promotion gets at most one of smoke-passed and rolled-back, once |
| `ProgramPromotion.PassedWasRolledBackIff` | cmd/orgctl/program_budget.go:387-432 | in every run, a promotion recorded smoke-passed was rolled back if and only if the worker was stopped between restoring that promotion's ref and recording it |
| `ProgramPromotion.InterruptedRollbackCanPass` | cmd/orgctl/program_budget.go:387-432 | stopped there, in any state, a passing smoke on return is recorded with the ref at its base |
| `ProgramPromotion.PassedThoughRolledBack` | cmd/orgctl/program_budget.go:387-432 | a run from an empty store that ends that way |
| `ProgramPromotion.PassedAtCandidateIff` | cmd/orgctl/program_budget.go:319-432 | in every run, from any point at which the ref holds the candidate to recording smoke-passed: it holds it then if and only if the last write to it since, by others or the worker, is none or the candidate |
| `ProgramPromotion.PassedSinceMarkedIff` | cmd/orgctl/program_budget.go:319-432 | the same from the step at which the worker itself saw the ref at the candidate before marking the promotion |
| `ProgramPromotion.PassedElsewhere` | cmd/orgctl/program_budget.go:319-432 | a run from an empty store, never stopped or rolled back, that records smoke-passed with the ref at any other commit |
| `ProgramPromotion.RolledBackAtBaseIff` | cmd/orgctl/program_budget.go:387-432 | in every run, on recording rolled-back the ref is at its base if and only if no other actor wrote it since the restore or the last of them put the base back |
| `ProgramPromotion.MarkedAtCandidateIff` | internal/staging/service.go:318-370 | in every run, on marking applied the ref holds the candidate if and only if no other actor wrote it since the swap or the last of them put the candidate back |
| `ProgramPromotion.RolledBackElsewhere` | cmd/orgctl/program_budget.go:387-432 | a run from an empty store that records rolled-back with the ref at any other commit |
| `ProgramPromotion.AppliedElsewhere` | internal/staging/service.go:318-370 | a run from an empty store that marks a promotion applied with the ref at any other commit |
| `PromotionLaws.PassesThrough` | cmd/orgctl/program_budget.go:493-640 | from any state with a fresh approved promotion at its base: pending, one move, applied, one smoke, smoke-passed, and nothing else |
| `PromotionLaws.RollsBack` | cmd/orgctl/program_budget.go:387-432 | and with a failing smoke: moved back, rolled-back, and nothing else |
| `PromotionLaws.Conflicts` | internal/staging/service.go:318-370 | with the ref elsewhere: conflicted, apply-failed, the ref untouched |
| `PromotionLaws.AlreadyThere` | internal/staging/gitexec/backend.go:316-347 | with the ref at the candidate: applied with no move |
| `PromotionLaws.CannotRestore` | cmd/orgctl/program_budget.go:387-432 | a failed smoke with the ref elsewhere: rollback-failed, nothing moved |
| `PromotionLaws.RestoredOrNot` | cmd/orgctl/program_budget.go:387-432 | a rollback that finds the ref at its base moves nothing and is rolled-back; one whose swap fails or finds it elsewhere is rollback-failed |
| `PromotionLaws.LostSwap` | internal/staging/service.go:318-370 | a ref moved elsewhere between look and swap is a conflict too and stays there |
| `PromotionLaws.TakesUpIff` | cmd/orgctl/program_budget.go:493-640 | which promotions are taken up, recovered and smoked |
| `PromotionLaws.ReceiptsAreUnique` | cmd/orgctl/program_budget.go:187-232 | in every run a promotion has each kind of receipt at most once |
| `PromotionWorker.Worker.Record` | cmd/orgctl/program_budget.go:187-232 | a receipt is written at most once and success means exactly that it is there |
| `PromotionWorker.Worker.PromoteRef` | internal/staging/gitexec/backend.go:316-347 | with other actors writing refs before the swap's last look, it is applied if and only if the ref was then at the expected value or the target, and moves it, once, if and only if at the expected one; the refs are then what they left, with this one at the target if applied |
| `PromotionWorker.Worker.Reconcile` | cmd/orgctl/program_budget.go:319-432 | with others acting between any two writes and a stop anywhere, the records stay valid and only grow; an unreceipted or judged promotion is left alone; the smoke is run once, smoke-passed is written only if it passed and rolled-back or rollback-failed only if not; rolled-back means the ref was at its base after the swap, and is still if and only if others' writes since left it there |
| `PromotionWorker.Worker.Swap` | internal/staging/service.go:318-370 | applied if and only if the swap found the ref at base or candidate and the mark was made, and otherwise marked conflicted if at all; the ref held the candidate at the swap, and still does if and only if others' writes since left it there |
| `PromotionWorker.Worker.Mark` | internal/staging/service.go:318-370 | the status changes if and only if the transition is allowed or already made, and nothing else does |
| `PromotionWorker.Worker.ApplyPromotion` | cmd/orgctl/program_budget.go:588-640 | an applied promotion is returned untouched; one neither applied nor approved fails with no move; an approved one moves its ref if and only if that was at its base as last read, and is applied only if it was there or at the candidate; the only receipt written is apply-failed, at most once, and a failed apply says whether it is there |
| `PromotionWorker.Worker.ApplyOne` | cmd/orgctl/program_budget.go:588-640 | every move made is this promotion's, with its pending receipt before it; an approved one moves forward if and only if its ref was at its base when the swap last looked; an applied one has, unless the worker stops, a verdict, and one that is not applied is never smoked |
| `PromotionWorker.Worker.Round` | cmd/orgctl/program_budget.go:493-640 | a round that runs through leaves a pending receipt on every approved promotion, and a verdict on every listed applied one that had that receipt and on every approved one it applied or found applied |
| `CellWorker.DispatchIsBounded` | internal/cellworker/worker.go:55-134 | in every interleaving at most Concurrency dispatches run, never two of one id |
| `CellWorker.AtMostOneLateStart` | internal/cellworker/worker.go:99-125 | however a run goes on after cancellation at most one more goroutine starts, and none unless the loop was past its re-check |
| `CellWorker.BreaksIff` | internal/cellworker/worker.go:76-143 | the loop stops taking work if and only if cancelled and before a poll, in a sleep cut short, or before or just after acquiring a token for a listed id |
| `CellWorker.ReturnLeavesNothingBehind` | internal/cellworker/worker.go:48-143 | Run returns only when cancelled, with every goroutine over, every token back and nothing in flight |
| `CellWorker.ShutdownProgresses` | internal/cellworker/worker.go:76-143 | after cancellation each loop step strictly approaches the return, at most seven of them, and something can always move |
| `CellWorker.InFlightCanExceedCapacity` | internal/cellworker/worker.go:64-72 | an interleaving with more ids in flight than tokens |
| `CellWorker.InFlightCount` | internal/cellworker/worker.go:64-134 | in every interleaving the ids in flight number the running dispatches, the id just marked and the goroutines that returned their token and not yet removed their id, and exceed the capacity exactly when those outnumber the free places |
| `CellWorker.BatchDispatched` | internal/cellworker/worker.go:84-134 | from any state with room, one poll dispatches exactly the listed ids not in flight, each once and in order, and then polls again at once if it dispatched any, or sleeps |
| `CellWorker.ToDispatchExact` | internal/cellworker/worker.go:111-125 | those are every listed id that was not in flight, once, and no other |
| `CellWorker.GoroutineEnds` | internal/cellworker/worker.go:64-72 | a goroutine gives back its token, then its id, then its wait-group count |
| `Backoff.BoundDoubles` | internal/cellworker/backoff.go:26-46 | the bound after k doublings, min(max, min times two to the k) in unbounded integers, is positive, at most max, and doubles up to max |
| `Backoff.Backoff.Next` | internal/cellworker/backoff.go:26-46 | wrap-around doubling with its overflow test computes that bound: after k calls it is min(max, min times two to the k), and the delay lies between zero and the bound before the call |
| `Backoff.Backoff.Reset` | internal/cellworker/backoff.go:48-50 | the streak starts again |
| `Supervisor.BothWorkersJoined` | cmd/orgctl/executive_supervisor.go:51-85 | in every interleaving the supervisor returns only after both workers ended, and waits for the second only with its context done or the parent's |
| `Supervisor.VerdictMeaning` | cmd/orgctl/executive_supervisor.go:87-117 | clean if and only if shut down without a real error; the fallback is unreachable; while the parent is active the first worker's error is returned; otherwise the first real error, of the first worker if it has one; never the sibling's cancellation |
| `Supervisor.TakenInOrder` | cmd/orgctl/executive_supervisor.go:51-85 | outcomes are taken in the order they were sent |
| `Supervisor.OutcomeExact` | cmd/orgctl/executive_supervisor.go:51-66 | a worker sends the error it returned, or the made-up one if and only if it returned nil while its context was live |
| `Supervisor.WorkersCancelledIff` | cmd/orgctl/executive_supervisor.go:51-85 | in every run the workers' context is done if and only if a cancellation of the parent reached it, or the first outcome was acted on before the parent was cancelled |
| `Supervisor.OriginalErrorReturnedIff` | cmd/orgctl/executive_supervisor.go:40-117 | the original error is returned if and only if the parent is still active at the end or the error is not a cancellation |
| `Supervisor.OriginalErrorCanBeLost` | cmd/orgctl/executive_supervisor.go:87-101 | an interleaving that reports an unexpected stop as clean |
| `Supervisor.EveryStepCounts` | cmd/orgctl/executive_supervisor.go:51-85 | every step but a cancellation strictly reduces what is left to do |
| `Supervisor.SupervisorProgresses` | cmd/orgctl/executive_supervisor.go:51-85 | once both functions have returned the supervisor cannot get stuck |
| `JsonKeys.RejectDuplicateKeys` | internal/agentmessaging/types.go:166-236 | the stack loop answers, for every value with this token stream, clean if no object at any depth repeats a name and duplicate otherwise |
| `JsonKeys.ScannerExact` | internal/agentmessaging/types.go:166-236 | the scanner equals the recursive definition on every JSON tree, and never calls one malformed |
| `JsonKeys.CleanIsBalanced` | internal/agentmessaging/types.go:166-236 | no stream is clean that does not close what it opens |
| `JsonKeys.AcceptedPayloadIsUnambiguous` | internal/agentmessaging/types.go:138-148 | first-name-wins and last-name-wins decoding agree on every accepted payload |
| `JsonKeys.RepeatedNameIsAmbiguous` | internal/agentmessaging/types.go:138-148 | a repeated name with two values is refused, and the two decodings differ on it |
| `Topology.EdgeStaysInUnit` | internal/agentmessaging/topology.go:80-137 | an accepted message between two roles other than the CEO stays in one unit |
| `Topology.EdgeExact` | internal/agentmessaging/topology.go:80-137 | which messages are accepted, exactly |
| `Topology.ChainStaysInUnit` | internal/agentmessaging/topology.go:80-165 | every chain of accepted messages that avoids the CEO stays in one unit |
| `Topology.CrossUnitChainPassesCEO` | internal/agentmessaging/topology.go:80-165 | every chain between units passes through the CEO |
| `Topology.CEOConnectsUnits` | internal/agentmessaging/topology.go:80-137 | and the CEO is enough: worker, leader, CEO, leader, worker is accepted |
| `OffsetCursor.OffsetRoundTrip` | internal/ceochat/cursor.go:18-41 | decoding an encoded positive offset returns it, through decimal printing and unpadded base64url (section 5 of RFC 4648); other offsets come back as zero |
| `OffsetCursor.LetterExact` | internal/ceochat/cursor.go:18-23 | the alphabet is the one of section 5 of RFC 4648, in its order |
| `OffsetCursor.GroupIsOneNumber` | internal/ceochat/cursor.go:18-23 | three bytes and their four groups are one number, most significant first |
| `OffsetCursor.DecodesAnyText` | internal/ceochat/cursor.go:25-41 | a cursor made of any text decodes to the number the text is, and is refused if it is none or negative |
| `OffsetCursor.LineBreaksIgnored` | internal/ceochat/cursor.go:25-41 | line breaks anywhere in a cursor's letters make no difference |
| `OffsetCursor.AcceptedIsEncodedIffCanonical` | internal/ceochat/cursor.go:25-41 | an accepted cursor is the encoder's own if and only if it is empty, or is for a positive offset and has no line break, stray bit, sign or leading zero |
| `OffsetCursor.SecondCursor` | internal/ceochat/cursor.go:25-41 | every positive offset has a second accepted cursor |

## Left out

- PostgreSQL itself: transactions, row locks and unique indexes are atomic steps and guards of the machines, not proved.
- SHA-256, JSON, YAML and regular-expression engines: digests are functions (injective only where a row says so); identifier patterns are reduced to "not blank" except the two keys and the matrix hash.
- `modelpricing.USDFromDollars` and the minimum-dollar search: dollars become nanos by an arbitrary function.
- Capability checks and owner resolution in front of approval and promotion: a call that begins is one they let through.
- Executive submissions made outside campaigns: assumed not to use a campaign's submit key.
- The evidence and acceptance records `Submit` writes between the task and its budget, goal text and instructions: text assembly and idempotent side records.
- The ledger's `version` column, role length checks, foreign keys and `ResolveBudgetForTask`.
- Harness runs, context building, dispatch assignment and parent lineage in financial review: an execution may stop there, which is a crash step.
- FinanceReview.CompletionHasItsReview: assumes each review task belongs to one request, as the lookup by task id says (internal/campaign/postgres/store.go:338-346).
- The workspace, actor and gate conditions in front of `ApplyPromotion`: success or failure of a gate is a free choice of the step.
- The shutdown-grace timer inside one dispatch, and the random draw of the backoff, which is a parameter.
- Unicode white space beyond Latin-1 in `strings.TrimSpace`, and case-insensitive field matching in `encoding/json`.
- Audit and outbox events, correlation ids, text of errors, and paging of lists.
- Several organizations: each machine is one organization.
- All other command handlers, tool registries, fixtures and the daemon.
