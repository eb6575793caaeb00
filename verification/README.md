# Verified models of the broker's authorization and deployment logic

This Dafny project models the provider-neutral logic of the repository whose guarantees hold over unbounded
inputs or unbounded runs, and proves them. `dafny verify dfyconfig.toml` checks all of it.

## The parts

**Host transactions** (`HostWorld`, `HostTransaction`, `HostHistory`). The journaled coordinator that applies
deployment steps. A `Host` object holds the journal file and the effects of the steps; an environment function
decides how every journal write, apply, undo and clean-up ends, including a crash at that point and a failed
write that took effect all the same. The contracts hold for every environment. Assumed: one process at a time,
fresh transaction identities, an undo that is safe to repeat and that removes its step from any state while its
material exists.

**Path patterns and request rules** (`Glob`, `Segments`, `RecursiveGlob`, `PathPatterns`, `PathLaws`, `Rules`,
`RuleMatching`, `RuleLaws`, `Ambiguity`, `AmbiguityLaws`, `RequestDecision`, `ManagedDecision`, `CoverageLaws`).
Two engines for path globs, an automaton over segments and a compiler to regular expressions, against one
declarative meaning; and the overlap check that makes it safe to take the first matching request rule, with what
it must report and what it must not. Then the whole decision: deny rules, active grants, static rules.

**The grant store** (`GrantData`, `GrantLifecycle`, `GrantOperations`, `GrantDecisions`, `GrantEvolution`,
`GrantRecords`, `GrantRuns`, `GrantFailures`, `GrantVerdicts`, `GrantCalls`, `GrantRequests`, `GrantCapacity`,
`GrantEvents`, `GrantRepeats`, `GrantHistory`, `GrantWaiters`, `GrantDeadlines`, `GrantQuery`, `GrantFile`,
`GrantStore`). `GrantFile.FileData` is the loaded file that operations change in place, `GrantStore.Store` the
object around the disk and the signal channel. Their methods are proved equal to functions on `Data`; the lemmas
about those functions and about runs of them state the guarantees. A run is any sequence of calls each of whose
writes may fail. Assumed: clock readings are nonzero and do not run backwards, new grant identities are in use
nowhere, and a save replaces the stored state atomically or not at all.

**Bounds on authority** (`Authority`). From the registry and the policy rule through the coordinator to the
store and its later states.

**Plans** (`Sorting`, `PlanOrder`, `PlanBuild`, `PlanContents`). The depth-first order of actions, and the plan under a digest.
The digest is any function from plans to texts of the digest form.

**Admission** (`Admission`, `AdmissionRuns`). The controller as an object, the fixed-window rate counter, and
the interleavings of admissions with durable work that the controller does not own.

## What the code does not do

Four expectations turned out to hold only under a condition. The lemmas named here state it exactly.

- A decision at the revision of a grant that has already failed is refused with an invalid-transition error,
  but still appends a decision record, without raising the revision, and its replay reports success
  (authorization/grants/v1_decisions.go:119-139). So two decisions commit at one revision of a grant if and only
  if it had failed before the first (`GrantRuns.OneDecisionPerRevision`, `GrantFailures.SecondCommitExactly`), and a
  run of four calls from the empty store gets there (`GrantFailures.TwoDecisionsAtOneRevision`). The revision is
  raised exactly otherwise (`GrantRuns.CommitRaisesExactly`).
- A decision that commits in a call whose preparation expired another grant, or retained its reservations, records
  those changes a second time, because only the decided grant is compared with its prepared state
  (authorization/grants/operator_decisions.go:28-46). A change is told twice if and only if preparation had recorded
  it (`GrantVerdicts.OthersAreToldAgain`), and a run of three calls from the empty store gets there
  (`GrantRepeats.ExpiryToldTwice`).
- The ambiguity check is sound exactly when no registered operation name that a rule can list is a glob that
  matches another one (`RequestDecision.ConflictFreeExactly`).
- A request rule with unlimited uses passes the finite use bound of an operation that does not forbid unlimited
  use and is not single-use (authorization/policy/parse.go:473-479; `Authority.UseCapHoldsExactly`).

A client may also be charged for almost two windows' submissions within one window's time: the bound is 2R - 1
and is met (`Admission.RateIsBounded`, `Admission.RateBoundIsTight`). docs/ADMISSION_CONTROL.md:4-5 speaks of
60 submissions per client per minute. And a request repeated after its approval was narrowed is an idempotency
conflict (`GrantRequests.RequestIsIdempotent`).

## Model

| member | source | states |
|---|---|---|
| `HostTransaction.Coordinator.ValidateSteps` | deployment/transaction/transaction.go:288-300 | accepts exactly 1 to 1024 steps with present, distinct identities, present kinds and all three of their functions |
| `HostTransaction.Coordinator.Run` | deployment/transaction/transaction.go:61-110 | a run of valid steps without a journal succeeds if and only if every step was applied, in order and once, when writes work, and always when the applies work too; a failed one that did not crash is undone at once if the undos work; and for every crash point and failing write the world left behind is durable, records the steps, and changes no final fate |
| `HostTransaction.Coordinator.RunStep` | deployment/transaction/transaction.go:88-107 | the running mark is on disk before the one apply call; the step succeeds if and only if the apply did, when writes work; and a failure at any of its actions leaves a sound uncommitted journal, or none and no effect |
| `HostTransaction.Coordinator.Recover` | deployment/transaction/transaction.go:147-179 | with a handler for every live step, working writes and undo needs of depth one an uncommitted transaction is undone completely; without one nothing is undone; otherwise it stays recoverable, marked so; a committed one is never touched |
| `HostTransaction.Coordinator.Finalize` | deployment/transaction/transaction.go:116-141 | with the finalizers present and working writes and clean-ups it discards the undo material of every completed step and clears the journal, and no failure in between loses an effect |
| `HostTransaction.Coordinator.Rollback` | deployment/transaction/transaction.go:198-228 | the journal is cleared only when every effect is absent and no record of a single pass was lost, the undo calls follow the order newest first with one more pass over the failures, with working writes and needs of depth one it completes, and otherwise the journal asks for recovery |
| `HostTransaction.Coordinator.Compensate` | deployment/transaction/transaction.go:232-245 | one undo call, recorded on disk if it succeeded; a lost record is an error but not a failed undo |
| `HostTransaction.Coordinator.PendingUndos` | deployment/transaction/transaction.go:201-206 | lists the running and complete steps, newest first |
| `HostTransaction.LiveStepsWithout` | deployment/transaction/transaction.go:201-228 | undoing one step removes exactly that step from what is left to undo |
| `HostTransaction.NeedsAreMet` | deployment/transaction/transaction.go:198-228 | after one pass over steps whose undo needs nothing, the needs of every other undo are met |
| `HostHistory.Drive` | deployment/transaction/transaction.go:61-179 | any script of Run, Recover and Finalize invocations, each with its own environment and crash, leaves a history of durable worlds in which fates only become final |
| `HostHistory.FateIsFinal` | deployment/transaction/transaction.go:61-245 | a committed transaction stays committed with every effect, an undone one stays undone with none, and an interrupted one is never committed later |
| `HostHistory.AllOrNothing` | deployment/transaction/transaction.go:61-245 | whenever no journal is on disk the host holds every effect of a started transaction or none of them |
| `HostHistory.UndoOrderMeans` | deployment/transaction/transaction.go:198-228 | a rollback undoes newest first in its first pass, repeats only undos that failed, and calls each step at most twice |
| `Segments.MatchIsDenotes` | authorization/policy/match.go:254-302 | the recursive reading of segment patterns is the declarative one: the values can be cut so that each `**` takes zero or more segments and each other pattern one |
| `Segments.CloseDoubleStarStates` | authorization/policy/match.go:296-302 | after the in-place pass a state is set exactly if a set state reaches it over `**` patterns |
| `Segments.AdvancePathStates` | authorization/policy/match.go:277-294 | one step of the automaton, with the self-loop of `**`, followed by the closure |
| `Segments.PathSegmentsMatch` | authorization/policy/match.go:267-275 | the automaton accepts exactly the values that the declarative meaning admits |
| `Segments.AdvanceKeepsAlive` | authorization/policy/match.go:277-294 | whether the rest of the values can still be matched survives a step, although a set state does not mean that a prefix of the patterns matched |
| `RecursiveGlob.CompactRecursiveSegments` | authorization/policy/match.go:175-184 | adjacent `**` segments are merged |
| `RecursiveGlob.RecursivePathExpression` | authorization/policy/match.go:156-173 | the compiled expression, for every position of `**` and every separator |
| `RecursiveGlob.ExpressionAgrees` | authorization/policy/match.go:156-204 | the compiled expression accepts a path exactly if the declarative meaning does |
| `RecursiveGlob.CompactKeepsMeaning` | authorization/policy/match.go:175-184 | merging adjacent `**` segments changes no match |
| `RecursiveGlob.SegmentAgrees` | authorization/policy/match.go:199-204 | the expression of one segment accepts what path.Match accepts |
| `PathPatterns.EnginesAgree` | authorization/policy/match.go:127-302 | for every pattern both validators accept and every value the two engines give the same answer |
| `PathPatterns.EnginesDifferOnEmbeddedDoubleStar` | authorization/policy/parse.go:595-658 | outside that domain they differ: `a**b` against `a/b` |
| `PathLaws.SharedDomain` | authorization/policy/parse.go:595-658 | both validators accept exactly the patterns of bounded size without brackets and backslashes whose segments are present, not dot-dot, and use `**` only as a whole |
| `PathLaws.PlainPathMatchesItself` | authorization/policy/match.go:127-302 | in both engines a plain path, as a pattern, matches itself and nothing else |
| `PathPatterns.RecursivePathValuesMatch` | authorization/policy/match.go:134-143 | all or any of the values match one of the patterns; no values match nothing |
| `PathPatterns.RecursivePathPatternsMatch` | authorization/policy/match.go:127-132 | some compiled pattern accepts the whole value |
| `Ambiguity.LiteralGlobValue` | authorization/policy/ambiguity.go:169-191 | the value a pattern without unescaped special characters stands for |
| `Ambiguity.GlobLiteralPrefix` | authorization/policy/ambiguity.go:202-221 | the literal prefix before the first unescaped special character |
| `Ambiguity.LiteralMatchesItself` | authorization/policy/ambiguity.go:169-191 | a literal pattern matches exactly its literal value |
| `Ambiguity.MatchesStartWithPrefix` | authorization/policy/ambiguity.go:202-221 | everything a pattern matches starts with its literal prefix |
| `Ambiguity.GlobOverlapIsSound` | authorization/policy/ambiguity.go:151-200 | two patterns that match one value are reported as overlapping |
| `Ambiguity.PathOverlapIsSound` | authorization/policy/ambiguity.go:114-149 | the same for path globs |
| `Ambiguity.RecursiveOverlapIsSound` | authorization/policy/ambiguity.go:114-134 | the same for recursive path globs |
| `Ambiguity.ValuesOverlapIsSound` | authorization/policy/ambiguity.go:97-145 | the same for lists of patterns in every match mode |
| `Ambiguity.OverlapIsSound` | authorization/policy/ambiguity.go:34-95 | two request rules that match one request are reported as overlapping |
| `AmbiguityLaws.LiteralOverlapIsExact` | authorization/policy/ambiguity.go:151-200 | with a literal on one side the check is exact: it reports an overlap if and only if some value matches both |
| `AmbiguityLaws.PrefixOverlapIsExact` | authorization/policy/ambiguity.go:151-221 | two prefixes followed by a star overlap exactly if one starts with the other, and then have a value in common within a segment |
| `AmbiguityLaws.PathLiteralIsExact` | authorization/policy/ambiguity.go:114-149 | the same for path globs whose literal is a path of its own pattern |
| `AmbiguityLaws.RecursiveLiteralIsExact` | authorization/policy/ambiguity.go:114-134 | the same for recursive path globs |
| `AmbiguityLaws.DisjointRulesAreAccepted` | authorization/policy/ambiguity.go:34-95 | rules that share no credential use, client, operation, target kind or literal field value are never reported |
| `RequestDecision.NoConflict` | authorization/policy/decide.go:46-97 | if the check accepts the rules, two request rules that match one valid request carry the same grant policy |
| `RequestDecision.ConflictFreeExactly` | authorization/policy/ambiguity.go:10-47 | the check rules out every conflict if and only if no registered operation name that a rule can list, read as a glob, matches another |
| `RequestDecision.GlobNameConflicts` | authorization/policy/ambiguity.go:34-47 | a registry whose operation name is a glob lets two conflicting rules through |
| `RequestDecision.FirstPolicyIsOfAMatch` | authorization/policy/decide.go:63-97 | the policy handed out belongs to the first matching request rule |
| `RequestDecision.OrderDoesNotMatter` | authorization/policy/decide.go:46-97 | reordering accepted rules changes neither the effect nor the grant policy of a decision |
| `RuleMatching.AllValues` | authorization/policy/match.go:92-108 | no values match nothing; a recursive mode, an any-of mode and the others as their meaning says |
| `RuleMatching.TargetFields` | authorization/policy/match.go:51-58 | every constrained field matches, in whatever order the fields are visited |
| `RuleMatching.Attributes` | authorization/policy/match.go:60-71 | every constrained attribute that concerns the operation is present and matches |
| `RuleMatching.Matches` | authorization/policy/match.go:18-24 | the five conditions of a rule |
| `RuleMatching.MatchingIds` | authorization/policy/decide.go:63-71 | the identities of the matching rules of one effect, in order |
| `RuleMatching.Decide` | authorization/policy/decide.go:46-61 | an allow rule decides; otherwise a request rule asks, or denies when no grant is requested |
| `ManagedDecision.GrantMatches` | authorization/policy/match.go:318-387 | a grant covers a request of its own client and operation: required fields, constrained fields and attributes, no other attribute but an omittable one, and a use left |
| `ManagedDecision.GrantAttrsMatch` | authorization/policy/match.go:331-361 | attributes agree as sets of values or match by their mode, and the early count of constraints refuses nothing that the conditions would accept |
| `ManagedDecision.FirstMatchingGrant` | authorization/policy/decide.go:73-87 | the first unexpired grant that covers the request |
| `ManagedDecision.DecideValidRequest` | authorization/policy/decide.go:22-61 | deny rules, then grants for managed credentials, then the static rules |
| `ManagedDecision.AllowedExactly` | authorization/policy/decide.go:22-61 | a request is allowed exactly if no deny rule matches and an allow rule or, for managed credentials, an active grant covers it |
| `ManagedDecision.OutcomeExactly` | authorization/policy/decide.go:22-97 | which requests are denied, asked about, allowed or unmatched, which grant and which rules are named, and that a grant policy is handed out exactly when a grant may be asked for, that of the first matching request rule |
| `ManagedDecision.NamedRules` | authorization/policy/decide.go:63-71 | the decision names exactly the matching rules of one effect |
| `RuleLaws.DenyCannotBeEvaded` | authorization/policy/match.go:18-90 | a deny rule that matches a request still matches it with more values |
| `RuleLaws.AllowNeedsEveryValue` | authorization/policy/match.go:73-108 | an allow or request rule that matches values matches every part of them, unless one value is enough for the mode |
| `RuleLaws.UseMatchesExactly` | authorization/policy/match.go:26-37 | a deny rule covers every credential use and any other normalized rule those it lists |
| `RuleLaws.MaximumMeans` | authorization/policy/match.go:304-316 | a natural number matches a ceiling exactly if it is not above it, and a negative one never does |
| `RuleLaws.OutsideMeans` | authorization/policy/match.go:219-227 | a path is outside a prefix exactly if its segments do not start with those of the prefix |
| `CoverageLaws.OwnRequestIsCovered` | authorization/policy/match.go:318-387 | the request that a grant was given for is covered exactly until the grant expires or its uses are spent |
| `CoverageLaws.CoveredIsNamed` | authorization/policy/match.go:318-387 | a grant covers only requests of its client, operation and kind, with every required field and every attribute it may not leave open constrained |
| `CoverageLaws.CoveredAgree` | authorization/policy/match.go:331-361 | two requests that one grant covers have the same values of every attribute constrained without a mode |
| `ManagedDecision.DecisionIgnoresOrder` | authorization/policy/decide.go:22-97 | neither the order of accepted rules nor that of the grants changes the effect, the permission or the grant policy |
| `GrantFile.AggregateGrantUses` | authorization/grants/uses.go:386-418 | the loop computes the fold of the use list |
| `GrantRuns.TallyCounts` | authorization/grants/uses.go:386-418 | the aggregate counts are the numbers of committed and of outstanding uses of the grant |
| `GrantRuns.TallyIsTimed` | authorization/grants/uses.go:386-418 | the aggregate times are the latest settlement and the earliest outstanding change, and the mark says that a use is retained |
| `GrantData.TallyUpdate` | authorization/grants/uses.go:98-121 | changing one use moves the counts and the revision total of its own grant only |
| `GrantData.LoaderAcceptsKept` | authorization/grants/grants.go:548-563 | a state with the invariant passes every check of the loader |
| `GrantFile.Validate` | authorization/grants/grants.go:548-563 | the loader accepts exactly the states with valid, distinct records, correct cached aggregates and ordered events |
| `GrantFile.ValidateLoadedGrants` | authorization/grants/grants.go:634-703 | every record is valid and the identities are distinct |
| `GrantFile.ValidateLoadedUseRecords` | authorization/grants/uses.go:319-344 | every use names a grant with its operation, has a valid lifecycle, and the request identities are distinct |
| `GrantFile.ValidateLoadedUseAggregates` | authorization/grants/uses.go:346-384 | every cached aggregate equals its recomputation |
| `GrantFile.NormalizeLoadedEvents` | authorization/grants/lifecycle.go:161-173 | the sequences increase strictly and end before the next one |
| `GrantFile.FileData.ExpireDue` | authorization/grants/grants.go:705-724 | expires exactly the due grants, in place, and reports a change exactly if there was one |
| `GrantFile.FileData.RetainStaleReservations` | authorization/grants/lifecycle_helpers.go:19-42 | retains the stale uses and recounts their grants, in whatever order the counted grants are visited |
| `GrantFile.FileData.RetainUses` | authorization/grants/lifecycle_helpers.go:22-32 | the first loop marks the stale uses and counts them by grant |
| `GrantFile.FileData.RecountGrants` | authorization/grants/lifecycle_helpers.go:33-40 | the second loop gives each counted grant its revisions and aggregates |
| `GrantFile.FileData.PrepareLifecycle` | authorization/grants/lifecycle_helpers.go:13-17 | expiry, then retention |
| `GrantFile.FileData.ReconcileLifecycle` | authorization/grants/lifecycle.go:83-104 | revises and records every changed grant, appending one event at a time to the bounded log |
| `GrantFile.FileData.AppendLifecycleEvent` | authorization/grants/lifecycle.go:140-159 | appends the next event and drops the oldest beyond the limit |
| `GrantLifecycle.ChangesAreTold` | authorization/grants/lifecycle.go:83-138 | a reconciliation records a kind of change for a grant exactly if that change happened, with the state it led to |
| `GrantLifecycle.PrepareKeeps` | authorization/grants/lifecycle_helpers.go:13-47 | preparation keeps the invariant, every identity and every revision |
| `GrantLifecycle.TallyOfRetained` | authorization/grants/lifecycle_helpers.go:19-42 | retention changes no count and raises the revision total by the number of retained uses |
| `GrantCalls.PreparedGrant` | authorization/grants/grants.go:705-724 | exactly the pending and active grants whose deadline has come expire, and nothing else of a grant changes but the count of its uses |
| `GrantCalls.PreparedUse` | authorization/grants/lifecycle_helpers.go:13-48 | exactly the reserved uses past their timeout are retained |
| `GrantCalls.NothingIsOverdue` | authorization/grants/lifecycle_helpers.go:13-48 | once prepared, no grant is past its deadline and no reservation past its timeout |
| `GrantLifecycle.ReconcileKeeps` | authorization/grants/lifecycle.go:83-104 | reconciliation completes the invariant: every grant is numbered and the events are consecutive |
| `GrantLifecycle.ReconcileRemembers` | authorization/grants/lifecycle.go:83-159 | the retained log stays the end of the full history of events |
| `GrantFile.FileData.Mutate` | authorization/grants/grants.go:250-320 | the in-place changes of request, revoke, cancel, reserve, settle and record, as functions of the loaded state |
| `GrantFile.FileData.CreateGrant` | authorization/grants/grants.go:250-296 | an existing request is returned or refused, capacity is checked, and a new grant is appended |
| `GrantFile.FileData.CloseForClient` | authorization/grants/client_actions.go:13-33 | cancel and revoke by the owner, with the errors of a foreign or unsuitable grant |
| `GrantFile.FileData.RevokeActive` | authorization/grants/grants.go:299-320 | revocation of an active grant |
| `GrantFile.FileData.ReserveExistingUse` | authorization/grants/uses.go:98-121 | only a released use is reserved again, and only if the grant can be used |
| `GrantFile.FileData.ReserveNewUse` | authorization/grants/uses.go:123-140 | a new use of a grant of the same operation that can be used |
| `GrantFile.FileData.SettleStoredUse` | authorization/grants/uses.go:170-214 | settles the named use once, in a state that can settle |
| `GrantFile.FileData.ApplyUseSettlement` | authorization/grants/uses.go:187-224 | the use, its grant's revisions and aggregates, and consumption of a spent budget |
| `GrantFile.PendingCapacityAvailable` | authorization/grants/grants.go:284-296 | both pending counts are below their limits |
| `GrantFile.FindIdempotentGrant` | authorization/grants/lifecycle_helpers.go:85-95 | the first live grant of the same client and request identity |
| `GrantOperations.NormalizeExactly` | authorization/grants/grants.go:413-486 | a request is accepted if and only if its values are valid and its bounds, completed by the defaults, are within the limits; what was asked is kept, what was left out is filled in, and normalizing again changes nothing |
| `GrantOperations.SameValuesMean` | authorization/grants/lifecycle_helpers.go:97-118 | two requests agree in their fields or attributes exactly if they name the same sets of values, whatever their order and repetitions |
| `GrantOperations.CreateKeeps` | authorization/grants/grants.go:257-277 | creating a grant keeps the invariant |
| `GrantOperations.ReserveExistingKeeps` | authorization/grants/uses.go:98-121 | reserving again keeps it |
| `GrantOperations.ReserveNewKeeps` | authorization/grants/uses.go:123-140 | reserving keeps it: the budget allows one more outstanding use |
| `GrantOperations.SettleKeeps` | authorization/grants/uses.go:170-224 | settling keeps it: a consumed grant has spent its budget and strands no reservation |
| `GrantOperations.UpdateKeeps` | authorization/grants/grants.go:519-546 | every update, accepted or refused, keeps it |
| `GrantCalls.CreateExactly` | authorization/grants/grants.go:257-296 | a request that no grant answers is granted a place exactly if fewer requests wait than the limits allow and an identity is available, and the new grant carries what was asked for |
| `GrantCalls.ReserveExactly` | authorization/grants/uses.go:123-140 | a reservation under a new identity succeeds exactly if its grant exists for that operation, is active and unexpired, and its committed and outstanding uses leave room; then one use is appended |
| `GrantCalls.ReserveAgainExactly` | authorization/grants/uses.go:98-121 | a known identity repeats an outstanding or committed use without a change and renews a released one exactly if its grant can be used |
| `GrantCalls.SettleExactly` | authorization/grants/uses.go:170-224 | an outstanding use is always settled, a repetition changes nothing, the other settlement is refused; the commit that spends a finite budget consumes the grant unless it was revoked |
| `GrantCalls.CloseExactly` | authorization/grants/client_actions.go:4-33 | a grant is canceled or revoked exactly if it is the caller's, in the required state and not due |
| `GrantEvolution.UpdateEvolves` | authorization/grants/grants.go:519-546 | through every update a grant's status only moves forward, its revision and committed uses only grow and its bounds only narrow |
| `GrantEvolution.ApplyDecisionEvolves` | authorization/grants/v1_decisions.go:148-271 | the same for every decision |
| `GrantRequests.ReleaseUndoesReserve` | authorization/grants/uses.go:123-224 | releasing a new reservation restores the grant but for its reservation revision |
| `GrantRequests.ClientsAreIsolated` | authorization/grants/client_actions.go:4-33 | over any run of one client's requests, cancellations and revocations and of reads, time is all that changes the grants of the other clients |
| `GrantRequests.RequestIsIdempotent` | authorization/grants/lifecycle_helpers.go:85-117 | after any run a request of the same client and identity creates no second grant while the first is not canceled; it is answered with the first if and only if it asks for the same and approval has not narrowed that, and is a conflict otherwise |
| `GrantRequests.RemainingAddsUp` | authorization/budget/limit.go:29-45 | committed, outstanding and remaining uses add up to a finite budget, and a usable grant has one left |
| `GrantCapacity.PendingIsBounded` | authorization/grants/grants.go:284-296 | in every reachable state no more requests are pending than allowed, in all and per client |
| `GrantRuns.RunKeeps` | authorization/grants/grants.go:519-546 | every run of calls, each of whose writes may fail, keeps the whole invariant and lets grants only evolve |
| `GrantRuns.EveryStateLoads` | authorization/grants/grants.go:548-563 | the store never writes a state that its own loader rejects |
| `GrantRuns.BudgetHolds` | authorization/grants/uses.go:90-224 | in every reachable state a finite budget covers all committed and outstanding uses, and an outstanding use belongs to an active, expired or revoked grant |
| `GrantRuns.OutstandingCanSettle` | authorization/grants/uses.go:142-216 | at every rest state an update that settles an outstanding use succeeds, either way, even if it finds the reservation stale or the grant expired |
| `GrantStore.Store.Load` | authorization/grants/grants.go:548-563 | a working copy of the disk, if the loader accepts it |
| `GrantStore.Store.Update` | authorization/grants/grants.go:515-546 | load, change, reconcile, save and signal: what is on disk afterwards, what is reported, when a save fails, and when waiters are signalled |
| `GrantStore.Store.Request` | authorization/grants/grants.go:250-282 | an invalid request touches nothing; a valid one is an update with its refusals, answered by a second read of the granted identity |
| `GrantStore.Store.Get` | authorization/grants/grants.go:351-374 | a read of one grant answers from the expired and reconciled state, saves it first if it differs, and saves nothing for an unknown identity |
| `GrantStore.Store.List` | authorization/grants/grants.go:377-396 | the same for all grants |
| `GrantStore.Store.GetUse` | authorization/grants/uses.go:227-258 | the same for a use and its grant, with stale reservations retained |
| `GrantStore.Store.ReconcileDueLifecycle` | authorization/grants/lifecycle.go:445-462 | a deadline saves only what reconciliation records, and reports a failed save |
| `GrantStore.Store.ApplyOperatorDecision` | authorization/grants/v1_decisions.go:76-103 | replay, resolution and commit of a decision against the disk: result and error in every case, including a rejected disk and a failed save |
| `GrantStore.Store.CommitOperatorDecision` | authorization/grants/v1_decisions.go:116-139 | the two-phase reconciliation and the appended record |
| `GrantStore.QuietUpdate` | authorization/grants/grants.go:529-539 | a refused update that is not saved changed nothing |
| `GrantStore.LoudUpdate` | authorization/grants/grants.go:529-539 | and one that is saved changed something |
| `GrantDecisions.ScopeIsInjective` | authorization/grants/v1_decisions.go:327-329 | the scope text determines grant, action and key |
| `GrantDecisions.DecideKeeps` | authorization/grants/v1_decisions.go:76-139 | every decision keeps the invariant |
| `GrantVerdicts.DecisionExactly` | authorization/grants/v1_decisions.go:116-238 | with a new key at the current revision a command commits if and only if it is granted, ruins the activation or finds the grant failed: a denial of a pending grant, a revocation of an active one, an approval of a pending one within its request whose check passes or fails for good; every field of the grant and the error are stated, and no other grant changes |
| `GrantVerdicts.OthersAreRefused` | authorization/grants/v1_decisions.go:90-113 | every other command changes nothing but what preparation does: a replay, a key conflict, an unknown grant or a revision conflict |
| `GrantVerdicts.RecordExactly` | authorization/grants/v1_decisions.go:119-139 | what is recorded of a command that commits is what it was answered with |
| `GrantVerdicts.OthersAreToldAgain` | authorization/grants/operator_decisions.go:28-46 | a commit records a change that preparation made to another grant if and only if preparation had recorded it already |
| `GrantRepeats.CommitTellsTwice` | authorization/grants/operator_decisions.go:28-46 | so after the commit the full history tells each such change twice |
| `GrantRepeats.ExpiryToldTwice` | authorization/grants/operator_decisions.go:28-46 | a run of three calls from the empty store ends with one expiry told twice |
| `GrantRecords.CommitRaises` | authorization/grants/operator_decisions.go:40-46 | after reconciliation the decided grant carries the decided state and, unless it had failed, the next revision |
| `GrantRecords.ApplyDecisionObeys` | authorization/grants/v1_decisions.go:148-271 | an approval activates within its constraints or fails, a denial denies, a revocation revokes |
| `GrantRecords.DecideKeepsRecords` | authorization/grants/v1_decisions.go:90-139 | the log keeps its meaning and its unique scopes, and grants only evolve |
| `GrantRecords.ReplayReturnsOriginal` | authorization/grants/v1_decisions.go:331-353 | a repeated command returns the grant, previous state and cursor recorded first |
| `GrantFailures.RunRests` | authorization/grants/grants.go:519-546 | no run changes a failed grant in any field |
| `GrantFailures.FailedGrantTakesDecision` | authorization/grants/v1_decisions.go:119-139 | at every rest state a command at the revision of a failed grant with a fresh scope is refused and yet committed, the grant unchanged, and its replay reports success |
| `GrantFailures.SecondCommitExactly` | authorization/grants/v1_decisions.go:105-139 | after a commit and any run, another command at the same revision with a fresh scope commits if and only if the grant had failed before the first |
| `GrantFailures.TwoDecisionsAtOneRevision` | authorization/grants/v1_decisions.go:119-139 | under every configuration a run of four calls from the empty store ends with two decisions at one revision |
| `GrantRuns.OneDecisionPerRevision` | authorization/grants/v1_decisions.go:105-139 | over every run scopes are unique and two decisions commit at one revision only of a grant that had failed |
| `GrantRuns.CommitRaisesExactly` | authorization/grants/v1_decisions.go:116-139 | committing raises the revision by exactly one if and only if the grant had not failed |
| `GrantRuns.ReplayAfterAnyRun` | authorization/grants/v1_decisions.go:331-353 | replay returns the original result after any further run |
| `GrantStore.FindDecisionRecord` | authorization/grants/v1_decisions.go:331-338 | the first record of a scope |
| `GrantEvents.EventPageAfter` | authorization/grants/lifecycle.go:216-238 | the loop that stops one event past the limit computes the page of all later events |
| `GrantEvents.PageIsNext` | authorization/grants/lifecycle.go:176-238 | a page shows the next unread events of the full history, or the cursor has expired exactly if some were dropped |
| `GrantEvents.CursorIsNow` | authorization/grants/v1_decisions.go:141-146 | the cursor that a decision returns stands at the end of the history, and reading from it shows exactly what happens afterwards |
| `GrantEvents.ExecutionIsRecorded` | authorization/grants/lifecycle.go:464-496 | an execution of a known grant adds one event of its kind, and then those of what preparation changed |
| `GrantHistory.EventsStayTrue` | authorization/grants/lifecycle.go:83-159 | in every reachable state each retained event names a stored grant whose status follows the one shown |
| `GrantEvents.RunRemembers` | authorization/grants/lifecycle.go:140-159 | over every run the history only grows and the log retains its end |
| `GrantEvents.ReaderSeesAll` | authorization/grants/lifecycle.go:176-238 | over any run of calls with pages read in between, the reader sees every event of the full history between its first and last cursor exactly once and in order |
| `GrantWaiters.NoMissedDecision` | authorization/grants/lifecycle.go:260-352 | under every interleaving a blocked waiter whose channel is open with no signal due has no event past its cursor and its grant is still pending |
| `GrantWaiters.FinishedIsDecided` | authorization/grants/lifecycle.go:280-352 | under every interleaving a waiter that is done has waited for a grant that is no longer pending |
| `GrantWaiters.ReadExactly` | authorization/grants/lifecycle.go:260-278 | a reading waiter blocks exactly if nothing has happened past its cursor, starts again exactly if the cursor has expired, and otherwise is done or moves its cursor on |
| `GrantWaiters.LatestMeans` | authorization/grants/lifecycle.go:240-258 | a waiter starts from the newest event of its own grant |
| `GrantWaiters.MoveKeeps` | authorization/grants/lifecycle.go:260-352 | each atomic step of a writer or a waiter keeps the invariant behind that |
| `GrantWaiters.PerformedHears` | authorization/grants/lifecycle.go:83-138 | a call that records no event leaves every pending grant pending |
| `GrantDeadlines.NextLifecycleDelay` | authorization/grants/lifecycle.go:361-422 | the loops compute the earliest deadline |
| `GrantDeadlines.DelayIsExact` | authorization/grants/lifecycle.go:361-422 | for unchanged data preparation changes something exactly from the reported delay on, and never without one |
| `GrantQuery.BuildGrantPage` | authorization/grants/query.go:98-116 | the first grants of the sorted filtered list, with the cursor of the last |
| `GrantQuery.NormalQueryMeans` | authorization/grants/query.go:118-208 | which queries are refused; an accepted one finds a grant whose stored field values are canonical exactly if it has the status, client, operation and sets of field values that were asked for |
| `GrantQuery.ListingMeans` | authorization/grants/query.go:98-116 | the list holds each matching grant once, newest first |
| `GrantQuery.PagesJoin` | authorization/grants/query.go:98-116 | on a fixed store the pages join to the whole list |
| `GrantQuery.ShownExactlyOnce` | authorization/grants/query.go:238-260 | a grant that matches throughout is shown exactly once, whatever else changes between the pages |
| `Authority.NormalizeGrantPolicy` | authorization/policy/parse.go:327-484 | a rule's policy is accepted exactly if its values, completed by the defaults, are consistent and within every operation's bounds |
| `Authority.ValidateOperationBounds` | authorization/policy/parse.go:467-484 | the bounds of every operation hold |
| `Authority.OperationGrantMode` | authorization/policy/parse.go:381-391 | the mode that all operations share |
| `Authority.OfferIsExact` | authorization/coordinator.go:211-240 | the coordinator lets through exactly what an accepted policy offers, up to its full duration, wait and uses |
| `Authority.UseCapHoldsExactly` | authorization/policy/parse.go:467-484 | every policy that can be given to a registered operation stays within its use bound if and only if the operation cannot be granted, forbids unlimited use or is single-use |
| `Authority.AuthorityOnlyNarrows` | authorization/coordinator.go:195-240 | in every later state a grant let through by the coordinator stays within its rule and its operations' minutes, and one for a single execution has at most one committed use |
| `PlanOrder.OrderSucceedsExactly` | deployment/plan/plan.go:194-241 | ordering succeeds exactly if identities are present and distinct, dependencies exist, and there is no cycle |
| `PlanOrder.OrderPermutes` | deployment/plan/plan.go:194-241 | the result is a permutation with sorted dependencies, each before its dependent |
| `PlanOrder.OrderIgnoresInputOrder` | deployment/plan/plan.go:194-241 | every order of the input gives the same result |
| `PlanOrder.OrderIsFixedPoint` | deployment/plan/plan.go:194-241 | ordering the result changes nothing |
| `PlanOrder.VisitFails` | deployment/plan/plan.go:210-219 | a failed visit has found a cycle or a missing action |
| `PlanOrder.VisitKeeps` | deployment/plan/plan.go:210-234 | finished actions are canonical, distinct and after their dependencies |
| `PlanBuild.Traversal.Visit` | deployment/plan/plan.go:210-234 | the recursive visit over mutable marks and result |
| `PlanBuild.Traversal.VisitEach` | deployment/plan/plan.go:225-239 | the loop over identities or dependencies |
| `PlanBuild.Order` | deployment/plan/plan.go:194-241 | the whole ordering, whatever order the identities are collected in |
| `PlanBuild.QualifyDependencies` | deployment/plan/plan.go:180-191 | unqualified dependencies get the component's prefix; the result is sorted |
| `PlanBuild.Build` | deployment/plan/plan.go:67-131 | the accumulation over the responses arrives at the canonical plan or at none |
| `PlanContents.EveryActionIsPlanned` | deployment/plan/plan.go:85-105 | each planned action has exactly one plan action, with the component's prefix, its own kind, risk, resource, digests and restart, and its qualified dependencies |
| `PlanContents.EveryActionHasSource` | deployment/plan/plan.go:85-105 | and the plan has no other action |
| `PlanContents.EveryComponentIsDescribed` | deployment/plan/plan.go:85-124 | one component for each response, with its plan digest, blocked reason, credentials and verification |
| `PlanContents.BuildSucceedsExactly` | deployment/plan/plan.go:67-131 | a plan is built exactly from a valid fingerprint and acceptable responses of different components whose actions can be ordered; it names what the snapshot names and carries the digest of the rest |
| `PlanBuild.BuiltKindMeans` | deployment/plan/plan.go:67-131 | a built plan is a no-op if and only if the wanted bundle is active, nothing is blocked and no component planned an action |
| `PlanBuild.Validate` | deployment/plan/plan.go:136-159 | accepts exactly valid identities, canonical order and a matching digest |
| `PlanBuild.BuildIgnoresResponseOrder` | deployment/plan/plan.go:67-131 | every order of the responses gives the same plan and digest |
| `PlanBuild.BuiltPlanIsValid` | deployment/plan/plan.go:133-159 | validation accepts every plan built from valid identity fields |
| `Sorting.SortedIsUnique` | deployment/plan/plan.go:120-124 | a sorted sequence is determined by its elements when the order tells them apart |
| `Sorting.TextOrderMeans` | deployment/plan/plan.go:120-124 | a prefix comes first, and otherwise the first difference decides |
| `Sorting.CanonicalAgrees` | internal/copyx/map.go:35-81 | the sorted, duplicate-free forms of two lists are equal exactly if the lists have the same elements |
| `Admission.Controller.ChargeRequest` | authorization/admission/admission.go:248-257 | opens a window, charges or refuses, and names the shortest wait of at least a second after which a submission is charged |
| `Admission.Controller.Admit` | authorization/admission/admission.go:202-273 | a configured client gets a permit if and only if its rate allows one more submission and all four limits leave room; the refusals in their order, and the reservation |
| `Admission.Controller.Release` | authorization/admission/admission.go:299-314 | only the first release of a permit has an effect |
| `Admission.RateIsBounded` | authorization/admission/admission.go:248-257 | any half-open interval of one window contains at most 2R - 1 charged submissions |
| `Admission.RateBoundIsTight` | authorization/admission/admission.go:248-257 | and that many are possible |
| `AdmissionRuns.DurableWorkIsBounded` | authorization/admission/admission.go:202-273 | under every interleaving durable work written under permits, with what permits may still add, stays within the limits, and all work exceeds a limit by no more than what was written without a permit |
| `AdmissionRuns.AdmittedExactly` | authorization/admission/admission.go:202-273 | under every interleaving a submission whose usage was read gets its permit if and only if none of the limits is reached |
| `AdmissionRuns.ReservationsAddUp` | authorization/admission/admission.go:202-314 | the global reservation is the number of unreleased permits and the sum of the clients' reservations |
| `AdmissionRuns.MoveKeeps` | authorization/admission/admission.go:202-314 | each step under the lock and each durable change beside it keeps the invariant |

## Left out

- Power loss below the file system, directory synchronization and SQLite: a journal or store write leaves the old or the new content.
- The journal's digests, bundle identities, timestamps and error texts, and journal encoding and decoding.
- Handlers of host transactions are named by their kind; what a handler does inside is the environment's choice.
- Go's path.Match and regexp internals, invalid UTF-8, and the limits on the number and size of patterns in a policy file.
- Parsing of policy files beyond path-glob validation and grant policies.
- Validation of requests against the registry beyond names and required fields, and the default credential use.
- Event timestamps, the projection of an event to its public form, and the text form of event and grant cursors; an undecodable cursor is an error before the modelled code runs.
- 64-bit wrap-around of event numbers and durations.
- Trimming of operator commands and client names, which arrive trimmed.
- Immutable plans stored beside a grant, and the SQLite form of the grant file.
- The payload that updates other than requests return besides errors.
- LatestEvent, ListUses, ListForClient, ActivePolicyGrants and other reads that only filter.
- Audit, metrics, observers and wire formats, including the JSON forms of use limits.
- agent/runtime/store.go and operation/runtime/runtime.go appear only as the durable operations and approvals that are written under a permit or without one.
- Validation of component responses (deployment/api/api.go) is a predicate given to `PlanBuild.Build`.
- `GrantWaiters` models the waiters as steps on values, not as threads; cancellation of a waiter by its context only ends it and is not a step.
- PathPatterns.RecursivePathPatternsMatch: compiles each pattern at each call instead of once per list.
