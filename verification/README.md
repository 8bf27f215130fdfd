# Atlantis: protocols and guarantees

A Dafny model of the stateful core of the Atlantis sales platform, with proofs about whole
runs of it. Each component is modelled twice where its Python changes things in place: as a
function from old to new state, and as a class or method with the same branches that is
proved equal to it. The theorems are lemmas about the functions.

* **Authorization chain** — `Crm`, `LockFreeEvidence`, `Policy`, `Authorization`, `TokenText`, `Chain`,
  `ContactScenario`. A
  campaign version is approved by the hash of its manifest; a contact decision is made once
  from evidence the CRM gave earlier, stored once, taken once, turned into one signed token,
  verified and consumed once by a channel adapter. `Chain` interleaves the request threads
  between all these steps, over any tenants and adapters, and proves that each decision leads
  to at most one dispatch, for exactly what was approved when its evidence was read, within a
  computable delay; `ContactScenario` shows that no smaller delay holds.
* **Model budget** — `Budget`, `Gateway`, `ModelServer`. Reservations, settlements and expiry
  sweeps keep each day's counters equal to the sums over the rows they summarise; the
  provider loop never charges more than was reserved; so reserved plus spent units never pass
  the daily limit.
* **Workflow** — `Workflow`, `DurableWorkflow`, `WorkflowEngine`, `WorkflowRefinement`. The
  PostgreSQL repository and the in-memory engine: numbered checkpoints, event
  deduplication, the human gate, restore; how far a run has come follows from its events; and exactly which calls
  the two answer alike.
* **Bounded stores and HTTP** — `Stores`, `Nonces`, `Http`, `RateLimit`, `Outbox`. The two
  idempotency stores refine one map of live entries; eviction goes by clock reading; no signed
  request is accepted twice exactly under a stated condition on the ttl; over either store,
  interleaved request threads answer one key alike.
* **Release gate** — `Json`, `Gate`, `GateAgreement`, `GateImages`, `GateApprovals`,
  `GateExactly`, `Candidate`, `ReleaseScenario`, `DirectoryHash`. Each validator reports no error
  and does not raise if and only if its document is good, and `GateExactly` spells out what that
  asks of the document; passing the gate implies agreement between the documents; and the
  documents generated from an accepted lock pass once its licenses are concluded.

Conventions. A SQL transaction is one atomic step, and a raise leaves the tables as they
were. Threads are steps in any order. Clocks are real numbers that do not go back within a
run, and `int(time.time())` is `Floor`; where the code reads a clock before it takes a lock,
readings come to the lock in any order. SHA-256 and HMAC signatures are symbolic and
injective (`TokenText` instead takes the HMAC and the JSON rendering as parameters). Fresh
UUIDs, provider answers, handler results and the SQL clock are inputs. Every lemma carries
`{:induction false}`: each induction is written out, and no proof rests on Dafny 4.11's
automatic induction hypotheses, which can contradict each other where two datatypes meet in
the arguments of one function.

What the model shows about the code, beyond what its documentation says:

* The gateway stamps its decision after the CRM has answered, so a suppression or an amendment
  that lands in between is not seen, and maximum decision age plus token lifetime is no bound
  on when it takes effect: `ContactScenario.DelayAloneIsNoBound`. The bound holds with the
  time between reading and deciding added (`Chain.SuppressionTakesEffect`,
  `Chain.AmendmentTakesEffect`), and not with less: `ContactScenario.BoundIsReached`.
* The in-memory CRM reads its evidence part by part without taking its lock. A contact that is
  suppressed after the suppression was read and before the version is approved reads as
  unsuppressed and approved, which it never was: `LockFreeEvidence.SuppressedContactReadAsClean`.
  As long as no manifest is written during the read that is the only way
  (`LockFreeEvidence.TornReadIsOfOneMomentExactly`); an amendment and its approval during the
  read pair the old content with the new approval (`LockFreeEvidence.OldContentReadAsApproved`).
* The in-memory stores read their clock before they take their lock and evict by that reading, so
  an entry that comes late to the lock can be the next to go, well within its ttl:
  `Stores.LateEntryIsEvictedNext`, and a replayed request in `Nonces.LateNonceIsReplayed`. What
  protects an entry is exactly that fewer than capacity minus one others outrank it
  (`Stores.InsertDropsExactly`). A late claim also makes the two idempotency stores answer
  differently: `Stores.StoresAnswerAlikeExactly`.
* `EvidenceClient.resolve` treats a missing `repep_enabled` as "off". For a promotional voice
  contact that the registry check would have stopped, losing that one answer can open the
  contact (`Policy.LosingTheSwitchCanOpen`); `Policy.MissingEvidenceOpensExactly` says that
  this is the only way.
* The in-memory nonce store's default ttl of 120 seconds is exactly twice the default skew of
  60, and protection needs more than twice, plus the time between checking a timestamp and
  remembering its nonce: `Nonces.MemoryAcceptsOnceExactly`. The PostgreSQL store only needs
  more than once, plus that time: `Nonces.TableAcceptsOnceExactly`.
* In shadow mode each adapter process remembers used tokens for itself, so two processes can
  each use one: `Chain.ShadowAdaptersDoNotShare`.
* The in-memory engine neither checks the length of a subject hash nor looks at expiry when
  deciding, and the repository does both: `WorkflowRefinement.AgreeExactlyWhenComparable`.
* The in-memory engine does not ask whose action is decided: a decision keeps a run at the stage
  its checkpoints give exactly when it is refused or the run waits, and approving an open action
  in the name of another run takes that run to CONTACT: `WorkflowEngine.DecisionKeepsStepExactly`.
  In the repository the stage always follows from the events: `DurableWorkflow.StageFollowsEvents`.
* A provider call that outlives the two-minute lease of its reservation is answered with an
  error and not charged: `ModelServer.ServedExactlyWhenCharged`.
* When an idempotency entry expires while its handler runs, or is evicted from the in-memory
  store under load, the handler runs twice: `Http.ExpiredKeyRunsTwice`, `Http.EvictedKeyRunsTwice`.
* The SPDX document generated from an accepted lock is refused only for its `NOASSERTION`
  conclusion; with any other resolved conclusion it is accepted: `Candidate.GeneratedSpdxVerdict`.

## Model

| member | source | states |
|---|---|---|
| Budget.ClampsAreIdle | services/model_gateway/app/postgres_usage.py:43-124 | in every reachable state both `GREATEST(0, ...)` clamps leave their argument as it is, and what the sweep leaves reserved is the sum of the live reservations |
| Budget.AdmissionIsExact | services/model_gateway/app/postgres_usage.py:28-85 | a reservation succeeds exactly when its units are positive, its run exists and live reservations plus spent plus units fit the limit; a refusal changes nothing, the sweep included; other days and tenants keep their counters |
| Budget.ReserveWrites | services/model_gateway/app/postgres_usage.py:43-84 | a reservation that succeeds writes its own row, open for two minutes, releases exactly the expired rows of its tenant and day, leaves every other row, call and run alone, and puts live plus new units on the day's counter |
| Budget.ReserveRefusal | services/model_gateway/app/postgres_usage.py:28-73 | which error a refused reservation ends in, in the code's order |
| Budget.ReserveConserves | services/model_gateway/app/postgres_usage.py:43-84 | reserving, with its expiry sweep, keeps reserved and spent equal to the sums over the rows of every tenant and day |
| Budget.SettleConserves | services/model_gateway/app/postgres_usage.py:87-142 | settling keeps them too, also when it comes on a later day than the reservation |
| Budget.SettleWrites | services/model_gateway/app/postgres_usage.py:87-142 | settling succeeds exactly for an open reservation of the tenant with a known run; it closes that row, SETTLED after a success and RELEASED after anything else, records one call with the charge and moves that day's counter by both; otherwise it names its error and changes nothing |
| Budget.ConservedInEveryRun | services/model_gateway/app/postgres_usage.py:28-142 | so does every interleaving of reserves, settles and sweeps |
| Budget.ClosedRowsNeverChange | services/model_gateway/app/postgres_usage.py:104-112 | a settled or swept reservation and the call it paid for never change again, in any run |
| Budget.StepCapped | services/model_gateway/app/postgres_usage.py:28-142 | with one daily limit, and charges within their reservations, no step takes a tenant's day above the limit |
| Budget.Repository.DoReserve | services/model_gateway/app/postgres_usage.py:28-85 | the transaction, statement by statement, has exactly the modelled effect and result |
| Budget.Repository.DoSettle | services/model_gateway/app/postgres_usage.py:87-142 | likewise for settling |
| Gateway.FreshCostIsBounded | services/model_gateway/app/gateway.py:166-194 | on a fresh ledger an answer never costs more than the request's maximum, which is at most the policy's |
| Gateway.CompleteKeepsPolicy | services/model_gateway/app/gateway.py:14-27 | one call keeps every tenant and task within the policy maximum, never clears a recorded health failure, and charges at most what remained |
| Gateway.RunsStayWithinPolicy | services/model_gateway/app/gateway.py:166-199 | over any run of calls spend per tenant and task stays within the policy maximum and the unhealthy set only grows, by names of providers |
| Gateway.AnswerIsCharged | services/model_gateway/app/gateway.py:14-22 | an answered call adds its cost to the spend of its own tenant and task and to no other; any other call leaves the ledger as it is |
| Gateway.SpendIsSumOfAnswers | services/model_gateway/app/gateway.py:14-22 | over any run of calls the spend of a tenant and task grows by exactly the sum of what its answered calls cost |
| Gateway.RefusedBeforeAnyProvider | services/model_gateway/app/gateway.py:166-178 | which requests are refused before any provider is looked at, and with which error |
| Gateway.AnswerIsEarned | services/model_gateway/app/gateway.py:178-199 | an answer comes from a healthy, allowed provider whose output has the schema's fields within what was left, and from the first such; without an answer there is none, unless nothing was left or a call raised |
| Gateway.FailuresAreSeen | services/model_gateway/app/gateway.py:185-199 | a provider newly marked unhealthy failed in this call, with an error that is neither about budget nor about structure; every reported error is a provider's own or says why its output was no answer |
| Gateway.FailuresAreRemembered | services/model_gateway/app/gateway.py:195-198 | every allowed provider the loop passed with such an error is unhealthy afterwards |
| Gateway.Round.FirstFit | services/model_gateway/app/gateway.py:166-199 | the loop answers from the first provider that is healthy, allowed and acceptable, adds exactly its cost to the tenant's task, and otherwise charges nothing and reports the collected errors |
| Gateway.ModelGateway.Complete | services/model_gateway/app/gateway.py:166-199 | the loop over fields `spent` and `unhealthy` computes exactly that outcome and state |
| ModelServer.CostWithinReservation | services/model_gateway/app/server.py:60-93 | the cost of an answered request is at most the units reserved for it |
| ModelServer.DailyCapInEveryRun | services/model_gateway/app/server.py:60-93 | whatever the interleaving of requests, answers, sweeps and day changes, reserved plus spent units of a tenant's day stay at or below the daily limit |
| ModelServer.DailyCapFromStart | services/model_gateway/app/server.py:60-93 | so from an empty server no tenant ever passes its limit on any day |
| ModelServer.ServedExactlyWhenCharged | services/model_gateway/app/server.py:68-93 | a client gets 200 exactly when a provider answered and the reservation was still open, and exactly then the day is charged that cost |
| ModelServer.InFlightExactlyWhenReserved | services/model_gateway/app/server.py:60-77 | a request goes on exactly when its units fit what is live and spent and its run is known, with an open reservation of its maximum cost; any other is answered at once and changes nothing |
| ModelServer.InFlightUntilFinished | services/model_gateway/app/server.py:60-93 | it stays in flight, unchanged, through whatever others do, until it is finished |
| ModelServer.FinishEnds | services/model_gateway/app/server.py:78-93 | what the client gets for each outcome, and whether its reservation ends settled, released or, on a 500, as it was |
| ModelServer.AnswersComeFromProviders | services/model_gateway/app/server.py:74-81 | with a gateway of its own each request is answered by a configured provider, at most at the request's maximum cost |
| Workflow.PayloadRoundTrip | services/orchestrator/app/postgres_workflow.py:32-42 | saving and loading a state gives it back, and a loadable payload is the saved form of what it loads to |
| DurableWorkflow.LockedIsHead | services/orchestrator/app/postgres_workflow.py:64-85 | in every reachable database a run of the tenant is read as its newest checkpoint, and any other run is not found |
| DurableWorkflow.AcceptedEvent | services/orchestrator/app/postgres_workflow.py:120-160 | a new event on an active run writes one numbered checkpoint and the event, and at APPROVE opens one pending action; which stage it moves to is `EventMovesOneStage` |
| DurableWorkflow.EventMovesOneStage | services/orchestrator/app/postgres_workflow.py:154-160 | outside APPROVE an accepted event moves the run to the next of the seven stages, spelled out, CLOSE staying at CLOSE, and changes nothing else of the state but event and number |
| DurableWorkflow.EventOpensAction | services/orchestrator/app/postgres_workflow.py:134-153 | at APPROVE it makes the run wait for the one new action, for a hash of 64 characters and a day's time |
| DurableWorkflow.RefusedEventChangesNothing | services/orchestrator/app/postgres_workflow.py:120-146 | duplicates answer with the newest state and everything else fails, with which error, and no table is changed |
| DurableWorkflow.AcceptedDecision | services/orchestrator/app/postgres_workflow.py:162-203 | a decision that goes through closes the run's own recorded action as approved, rejected or expired and writes one checkpoint |
| DurableWorkflow.DecisionEndsTheWait | services/orchestrator/app/postgres_workflow.py:177-203 | past its moment the action expires and the run is blocked; before it an approval takes the run to CONTACT and any other answer blocks it |
| DurableWorkflow.RefusedDecisionChangesNothing | services/orchestrator/app/postgres_workflow.py:162-181 | any other decision fails, with which error, and changes no table |
| DurableWorkflow.EveryRunKeeps | services/orchestrator/app/postgres_workflow.py:96-203 | in every run checkpoints are only appended, no stage moves backward, a blocked run never changes and no recorded event is forgotten |
| DurableWorkflow.HumanGate | services/orchestrator/app/postgres_workflow.py:120-203 | waiting means exactly one action, pending, the recorded one, at APPROVE; CONTACT or later means exactly one action, approved; blocked means exactly one, rejected or expired; checkpoints number one plus events plus closed actions |
| DurableWorkflow.HumanGateFromStart | services/orchestrator/app/postgres_workflow.py:96-203 | all of this of every run after any operations on an empty database |
| DurableWorkflow.StartsExactly | services/orchestrator/app/postgres_workflow.py:96-112 | starting writes one run and its first checkpoint, at QUALIFY; without a tenant or for a known run it is refused |
| DurableWorkflow.StageFollowsEvents | services/orchestrator/app/postgres_workflow.py:120-203 | after any operations on an empty database the number of events recorded for a run determines its stage: two take it to APPROVE, the third opens the action, and after an approval three more close it |
| DurableWorkflow.ARunCanClose | services/orchestrator/app/postgres_workflow.py:96-203 | in every reachable database a new run of any tenant gets to CLOSE by any six distinct events and one approval in time |
| DurableWorkflow.TamperedIsRefused | services/orchestrator/app/postgres_workflow.py:64-85 | in any database at all, a run whose newest checkpoint does not carry its own hash or names no stage takes no event and no decision |
| DurableWorkflow.OnlyApprovalOpensContact | services/orchestrator/app/postgres_workflow.py:162-203 | a run only reaches CONTACT by approving, before expiry, its own recorded action with that action's own subject hash |
| DurableWorkflow.RedeliveryIsNoOp | services/orchestrator/app/postgres_workflow.py:124-133 | an accepted event delivered again, after anything else, changes nothing and answers with the newest state |
| DurableWorkflow.Repository.LockedState | services/orchestrator/app/postgres_workflow.py:64-85 | the read with its loop over checkpoint rows returns the modelled state or error |
| DurableWorkflow.Repository.DoTransition | services/orchestrator/app/postgres_workflow.py:120-160 | the transaction has exactly the modelled effect and result |
| DurableWorkflow.Repository.DoDecide | services/orchestrator/app/postgres_workflow.py:162-203 | likewise for a human decision |
| WorkflowEngine.RestoreAcceptsValidChains | services/orchestrator/app/workflow.py:143-162 | `restore` succeeds exactly on non-empty lists numbered 1..n whose hashes and version fit and whose last stage exists |
| WorkflowEngine.RestoreNamesItsError | services/orchestrator/app/workflow.py:143-162 | the first checkpoint that `restore` cannot take names the error |
| WorkflowEngine.PrefixRestores | services/orchestrator/app/workflow.py:136-162 | restoring any non-empty prefix of a run's own checkpoints gives the state saved at that point |
| WorkflowEngine.RunsStayRestorable | services/orchestrator/app/workflow.py:56-162 | when each call gets the state last returned, checkpoints stay numbered and sealed after any calls, restores among them, and restoring returns exactly the current state |
| WorkflowEngine.EffectsKeepTheirKey | services/orchestrator/app/workflow.py:111-134 | an idempotency key keeps its first effect for good; only a cancellation is ever added |
| WorkflowEngine.CancelsExactly | services/orchestrator/app/workflow.py:111-121 | a cancellation marks exactly the run's uncancelled items and counts them; items of other runs stay as they are |
| WorkflowEngine.CancelIsOnce | services/orchestrator/app/workflow.py:111-121 | cancelling again finds nothing and changes nothing |
| WorkflowEngine.EnqueuesOnce | services/orchestrator/app/workflow.py:123-134 | a new key gets this effect of this run, a taken one answers with its item |
| WorkflowEngine.EventMovesOneStage | services/orchestrator/app/workflow.py:60-78 | the engine's transition moves one stage, spelled out, or opens one action for a day, for any state and engine |
| WorkflowEngine.DecisionEndsTheWait | services/orchestrator/app/workflow.py:84-93 | the engine's decision takes the run to CONTACT or blocks it, or names its error |
| WorkflowEngine.StageFollowsNumberFromStart | services/orchestrator/app/workflow.py:48-162 | after any calls, expiry passes and restores in which decisions that go through are for waiting runs, the checkpoint number of every run gives its stage |
| WorkflowEngine.DecisionKeepsStepExactly | services/orchestrator/app/workflow.py:84-93 | a decision keeps that exactly when it is refused or its run waits; approving an open action in the name of any other run takes that run past the gate |
| WorkflowEngine.WorkflowEngine.DoTransition | services/orchestrator/app/workflow.py:56-78 | the method on the engine's dictionaries has the modelled effect and result |
| WorkflowEngine.ExpireBlocksExactly | services/orchestrator/app/workflow.py:99-109 | the pass blocks exactly the runs whose action is overdue when it starts, the first run for each action, and touches no other |
| WorkflowEngine.ExpireBlocksEveryOverdue | services/orchestrator/app/workflow.py:99-109 | a run that shares its action with no run before it is blocked exactly when overdue, and otherwise left alone |
| WorkflowEngine.ExpiresExactly | services/orchestrator/app/workflow.py:99-109 | spelled out: such a run is blocked with one more checkpoint and its action expired exactly when that action is pending and its moment has come |
| WorkflowEngine.WorkflowEngine.DoExpire | services/orchestrator/app/workflow.py:95-109 | the loop over states has that effect on engine and states, and returns exactly the new states of the blocked runs, in order |
| WorkflowEngine.WorkflowEngine.DoCancel | services/orchestrator/app/workflow.py:111-121 | the loop cancels exactly the run's items that are not cancelled yet, and counts them |
| WorkflowEngine.WorkflowEngine.DoRestore | services/orchestrator/app/workflow.py:143-162 | the checking loop accepts and refuses as modelled |
| WorkflowRefinement.AgreeExactlyWhenComparable | services/orchestrator/app/workflow.py:56-93 | engine and repository answer a call alike exactly when the gate opens with a 64-character hash, and decisions come before expiry or are rejections with the right hash |
| WorkflowRefinement.SameAnswersInEveryRun | services/orchestrator/app/postgres_workflow.py:120-203 | over any sequence of such calls, duplicates and refusals included, both give the same answers and reach the same stage, status and checkpoint number |
| WorkflowRefinement.StartRelated | services/orchestrator/app/postgres_workflow.py:96-112 | a run started on both sides is in step |
| Crm.EveryExportVerifies | services/crm_api/app/domain.py:147-178 | however tenants interleave, each tenant's exported audit verifies in every reachable store |
| Crm.SameHeadSameHistory | services/crm_api/app/domain.py:150-159 | two verified lists ending in the same hash are the same list |
| Crm.PickedVerifiesOnlyAsPrefix | services/crm_api/app/domain.py:150-159 | entries picked from a verified chain in any order and number verify only as one of its prefixes |
| Crm.HeadPinsTheExport | services/crm_api/app/domain.py:147-178 | only the export itself verifies up to a tenant's recorded head |
| Crm.VerifyAudit | services/crm_api/app/domain.py:150-159 | the loop accepts exactly unbroken chains |
| Crm.ApprovedExactlyByLastApproval | services/crm_api/app/domain.py:33-61 | a version is approved exactly when some step approved the manifest it had, with no manifest written since |
| Crm.ApprovedManifestIsCurrent | services/crm_api/app/domain.py:44-61 | the manifest of an approved version is the one whose hash that approval named |
| Crm.SuppressionIsForGood | services/crm_api/app/domain.py:63-66 | a suppressed contact stays suppressed through any later operations of this store |
| Crm.RowsAreHistory | services/crm_api/app/domain.py:25-71 | a contact is known, suppressed, or has consented to a channel exactly when some operation of the history said so |
| Crm.ExportTellsHistory | services/crm_api/app/domain.py:147-178 | a tenant's export tells exactly its operations that went through, one entry each, in order, with what was done to what |
| Crm.RefusesExactly | services/crm_api/app/domain.py:20-71 | when an operation refuses, with which error, and that it then changes nothing |
| Crm.ManifestIsPending | services/crm_api/app/domain.py:33-61 | creating and amending leave that very manifest pending, amending with the next version number, and touch no other campaign |
| Crm.EvidenceIsOfTheStore | services/crm_api/app/domain.py:130-145 | each part of the evidence is what the store holds of that contact, channel and version; a registry reading is never answered |
| LockFreeEvidence.TornReadIsOfOneMomentExactly | services/crm_api/app/domain.py:130-145 | without a new manifest during the read, the lock-free evidence is, consent aside, that of one moment of the read exactly unless, between its last two reads, the contact is suppressed with the version not approved and the version approved after that |
| LockFreeEvidence.OutOfOrderReadsAsClean | services/crm_api/app/domain.py:130-145 | whenever it is not, it says unsuppressed and approved |
| LockFreeEvidence.OneMomentExactly | services/crm_api/app/domain.py:130-145 | with manifests written meanwhile, any evidence is that of one moment exactly when, in some stretch between two manifests, the manifest shows in it and the suppressions and approvals at the ends of and within the stretch allow the rest |
| LockFreeEvidence.SuppressedContactReadAsClean | services/crm_api/app/domain.py:130-145 | for every contact, version and manifest, a suppression and then an approval between the last two reads give clean evidence that no moment had |
| LockFreeEvidence.OldContentReadAsApproved | services/crm_api/app/domain.py:130-145 | for all manifests, an amendment and its approval during one read give the old content as approved |
| LockFreeEvidence.PartsAreOfTheirReads | services/crm_api/app/domain.py:130-145 | each part of the lock-free answer is what was held at the moment that part was read |
| Crm.CRMStore.DoApprove | services/crm_api/app/domain.py:44-53 | approving on the store's dictionaries has the modelled effect, and none on a hash mismatch |
| Crm.CRMStore.DoAmend | services/crm_api/app/domain.py:55-61 | amending replaces the manifest, withdraws the approval and raises the version |
| Crm.CRMStore.DoExport | services/crm_api/app/domain.py:147-148 | the filter returns exactly the tenant's entries in order |
| Policy.Decide | services/policy_gateway/app/policy.py:14-51 | the decision is ALLOW exactly when no reason applies, and lists exactly the reasons that apply, each spelled out in the request's own fields |
| Policy.CallersEvidenceIsIgnored | services/policy_gateway/app/evidence.py:4-18 | two bodies that differ only in the ten evidence fields resolve to the same request, and every other field is kept |
| Policy.PermittedExactly | services/policy_gateway/app/policy.py:14-46 | a resolved contact is permitted exactly when the caller's own fields and the service's answers allow it: which answer each evidence field must have, for every purpose and channel |
| Policy.MissingEvidenceOpensExactly | services/policy_gateway/app/evidence.py:4-18 | losing evidence turns DENY into ALLOW exactly when what is left is permitted, the contact is promotional voice, the registry switch is what was lost, and the registry would have blocked |
| Policy.MissingEvidenceNeverHelps | services/policy_gateway/app/evidence.py:4-18 | as long as the registry switch is answered, losing evidence never opens a contact |
| Policy.LosingTheSwitchCanOpen | services/policy_gateway/app/evidence.py:4-18 | a concrete contact that losing the switch opens |
| Authorization.PutHolds | services/policy_gateway/app/authorization.py:72-79 | after `put` the new context is last, at most the capacity is held, and below capacity every other live context is still there |
| Authorization.TakenIsGone | services/policy_gateway/app/authorization.py:81-93 | a taken or expired context is gone, others stay, and another tenant takes nothing |
| Authorization.TakesExactly | services/policy_gateway/app/authorization.py:81-93 | which error an unsuccessful `take` ends in; another tenant's context stays where it is |
| Authorization.PutDropsOldest | services/policy_gateway/app/authorization.py:72-79 | over capacity `put` keeps the newest contexts, in order |
| Authorization.IssuesExactly | services/policy_gateway/app/authorization.py:40-62 | a token is issued exactly for an ALLOW decision of the right age, the adapter of its channel and 1 to 300 seconds, with the decision's and request's own values; otherwise which error |
| Authorization.IssuedTokenVerifiesExactlyInItsWindow | services/policy_gateway/app/authorization.py:40-62 | issued claims verify exactly at their own channel's adapter, with their own values, from 30 seconds before issue until before expiry |
| Authorization.VerifiesExactly | shared/atlantis_contracts/token.py:62-72 | any token is accepted exactly when signed, by this issuer, for this audience, within its window and 300 seconds, and saying what the command says; otherwise which error |
| Authorization.PruneExpired | services/policy_gateway/app/authorization.py:95-97 | keeps exactly the unexpired contexts, in order |
| Authorization.DecisionContextStore.DoPut | services/policy_gateway/app/authorization.py:72-79 | prune, replace, append and the eviction loop have the modelled effect |
| Authorization.DecisionContextStore.DoTake | services/policy_gateway/app/authorization.py:81-93 | likewise for `take` with its three refusals |
| Authorization.AuthorizationTable.DoConsume | services/channel_adapters/app/postgres_token.py:19-40 | the row is consumed exactly when it is the tenant's, unused and unexpired |
| Authorization.ConsumesExactly | services/channel_adapters/app/postgres_token.py:19-40 | the tenant's own unused, unexpired row is consumed, and never again by anyone |
| Authorization.ShadowFirstUseConsumer.DoConsume | services/channel_adapters/app/postgres_token.py:43-51 | a token is new exactly once in one process |
| Authorization.ChannelAdapter.DoSend | services/channel_adapters/app/voice.py:10-17 | verify, consume, check the channel, dispatch, in that order and with those errors |
| TokenText.EncodeRoundTrip | shared/atlantis_contracts/token.py:16-21 | base64url without padding decodes back to the original for every byte string |
| TokenText.SplitRecovers | shared/atlantis_contracts/token.py:48-52 | splitting at the first dot recovers both halves |
| TokenText.AlphabetIs | shared/atlantis_contracts/token.py:16-21 | the characters are those of table 2 of RFC 4648, in both directions |
| TokenText.GroupIsNumber | shared/atlantis_contracts/token.py:16-17 | a group of three bytes and its four sextets are the same 24-bit number |
| TokenText.OpensExactly | shared/atlantis_contracts/token.py:48-61 | a text opens to claims exactly when its second part decodes to the MAC of what its first part decodes to, which parses to them |
| TokenText.SignedTextOpens | shared/atlantis_contracts/token.py:77-80 | the text of signed claims opens to exactly those claims |
| TokenText.IssuedTextVerifiesExactlyInItsWindow | shared/atlantis_contracts/token.py:48-74 | the whole token text is accepted exactly in its time window, for its audience and values |
| Chain.RunKeeps | services/policy_gateway/app/server.py:79-106 | every step of the CRM and of the threads that read evidence, decide, store, take, issue, verify and consume keeps the invariant linking readings, contexts, tokens, rows, dispatches and CRM history |
| Chain.AtMostOneDispatchPerDecision | services/policy_gateway/app/server.py:79-106 | in every run each decision leads to at most one dispatch; in shadow mode to at most one per adapter process |
| Chain.EveryDispatchIsAuthorized | services/policy_gateway/app/authorization.py:40-62 | every dispatch carries the values of one ALLOW decision; its token was verified from that decision on and strictly before decision time plus maximum age plus token lifetime, and with the shared table also consumed before that |
| Chain.EveryDispatchIsBacked | services/policy_gateway/app/server.py:79-90 | when the evidence of a dispatch was read, before the decision, the CRM knew the contact, had it unsuppressed and had exactly that content approved |
| Chain.PromotionsAreConsented | services/policy_gateway/app/policy.py:31-48 | a promotion goes out by WhatsApp only after a CRM operation before the reading granted the contact's consent, by voice only for a campaign exempted at the reading, and any contact within the allowed hours |
| Chain.StoresItsContext | services/policy_gateway/app/authorization.py:72-79 | storing a decision puts its context last, to be taken for the configured time |
| Chain.RegistersBeforeHandingOut | services/policy_gateway/app/authorization.py:40-64 | issuing takes the context in any case, and hands out a token only with its new row written |
| Chain.ConsumesInOrder | services/channel_adapters/app/voice.py:10-17 | in any state a used token is refused, one of another channel is used up unsent, any other is sent once with its claims |
| Chain.SuppressionTakesEffect | services/crm_api/app/domain.py:63-66 | no token is used for a suppressed contact later than the suppression plus the time between reading the evidence and deciding plus maximum age plus maximum token lifetime |
| Chain.SuppressionTakesEffectWithin | services/crm_api/app/domain.py:63-66 | in runs where every decision follows its evidence within some time, that time plus the delay bounds every suppression |
| Chain.LateAfterSuppressionStraddles | services/policy_gateway/app/server.py:79-90 | whatever is sent later than the delay alone was read before the suppression and decided after it |
| Chain.AmendmentTakesEffect | services/crm_api/app/domain.py:55-61 | what is sent later than that bound after a manifest was written was approved after the writing, with that content |
| Chain.LateAfterAmendmentStraddles | services/policy_gateway/app/server.py:79-90 | what is sent later than the delay alone without such an approval was read before the writing and decided after it |
| Chain.ChannelCheckNeverFires | services/channel_adapters/app/voice.py:13-14 | no issuer-made token reaches an adapter's channel check with another channel |
| Chain.MintedTokenVerifiesExactly | shared/atlantis_contracts/token.py:48-74 | in every reachable state a minted token verifies exactly at its adapter, with its values, in its window |
| Chain.CheckedTokenGoesThroughExactly | services/channel_adapters/app/postgres_token.py:19-51 | in every reachable state a verified token is sent exactly when unused: by anyone and before expiry with the shared table, otherwise by this process |
| ContactScenario.BoundIsReached | services/policy_gateway/app/server.py:79-106 | for every sensible configuration, gap, CRM operation inside the gap and margin there is a run with a contact that close to the bound |
| ContactScenario.DelayAloneIsNoBound | services/policy_gateway/app/server.py:79-90 | for every CRM operation landing between a reading and its decision there is a run with a contact later than the delay alone allows |
| ContactScenario.ContactCanBeMade | services/policy_gateway/app/server.py:79-106 | for every sensible configuration there is a run in which a contact is approved, allowed, authorized and made |
| Chain.ShadowAdaptersDoNotShare | services/channel_adapters/app/postgres_token.py:43-51 | in shadow mode two processes that have verified the same token, each without having used it, both send on it |
| Stores.StoresAnswerAlike | shared/atlantis_contracts/persistence.py:121-221 | below capacity, with clock readings in the order of the operations, both stores give every sequence of claims, finishes and abandons the answers of one map of live entries |
| Stores.StoresAnswerAlikeFromStart | shared/atlantis_contracts/persistence.py:121-221 | so they do when both start empty |
| Stores.StoresAnswerAlikeExactly | shared/atlantis_contracts/persistence.py:121-221 | below capacity, with readings in any order, the two stores answer alike exactly when no claim reads a row as live that an earlier claim has read as expired |
| Stores.InOrderIsNeverStale | shared/atlantis_contracts/persistence.py:121-199 | no claim does that when readings come in the order of the operations |
| Stores.LateClaimSeparates | shared/atlantis_contracts/persistence.py:121-199 | for all keys and readings, a claim whose reading is late for its expired entry is answered differently by the two |
| Stores.FinishingExpiredIsUnobservable | shared/atlantis_contracts/persistence.py:139-144 | finishing an expired entry of the in-memory store changes nothing that can be seen then or later |
| Stores.LateFinishIsUnobservable | shared/atlantis_contracts/persistence.py:139-210 | finishing an expired entry leaves stores that agree in agreement, on the same live entries |
| Stores.OldestIsFirst | shared/atlantis_contracts/persistence.py:133-135 | in expiry order, ties included, the minimum-expiry entry is the first inserted |
| Stores.MemoryStepSized | shared/atlantis_contracts/persistence.py:121-151 | the store never outgrows its capacity, whatever the clock readings |
| Stores.InsertDropsExactly | shared/atlantis_contracts/persistence.py:133-136 | an insertion drops an entry exactly when capacity minus one others outrank it: were read later, or at the same time and inserted later |
| Stores.ClaimDropsExactly | shared/atlantis_contracts/persistence.py:121-137 | a claim of another key loses an entry exactly when it reads it as expired, or inserts while all other live entries of a full store outrank it |
| Stores.MemoryStepOk | shared/atlantis_contracts/persistence.py:121-151 | with clock readings in lock order the store stays in expiry order and evicts first-in first-out |
| Stores.AcceptedEntrySurvives | shared/atlantis_contracts/persistence.py:121-151 | whatever the readings, within its ttl an accepted entry that is not abandoned outlives any operations that insert nothing more once capacity minus one others with readings not before its own were inserted |
| Stores.TimelyEntrySurvives | shared/atlantis_contracts/persistence.py:121-151 | one read no earlier than those already there outlives any operations with at most capacity minus one new insertions |
| Stores.LateEntryIsEvictedNext | shared/atlantis_contracts/persistence.py:121-137 | for every capacity from two on, an entry read before capacity minus one others but inserted after them is lost to the next insertion, within its ttl |
| Stores.KeepLive | shared/atlantis_contracts/persistence.py:125 | the rebuilt dictionary holds exactly the live entries, in order |
| Stores.OldestAt | shared/atlantis_contracts/persistence.py:133-135 | finds the first entry with the least expiry |
| Stores.MemoryIdempotencyStore.DoClaim | shared/atlantis_contracts/persistence.py:121-137 | prune, answer, evict and insert as modelled |
| Stores.MemoryIdempotencyStore.DoFinish | shared/atlantis_contracts/persistence.py:139-144 | stores the response in place, only under the same body hash |
| Stores.PostgresIdempotencyStore.DoClaim | shared/atlantis_contracts/persistence.py:171-199 | the transaction has the modelled effect and answer |
| Nonces.MemoryAcceptsOnceExactly | shared/atlantis_contracts/persistence.py:65-81 | below capacity, with readings in any order, no signed request is accepted twice in any run exactly when the ttl is at least twice the skew plus a second plus the longest delay between checking and remembering |
| Nonces.TableAcceptsOnceExactly | shared/atlantis_contracts/persistence.py:84-112 | with the PostgreSQL store exactly when the ttl is at least the skew plus a second plus that delay |
| Nonces.ReplayRefusedWhileRemembered | shared/atlantis_contracts/persistence.py:70-81 | at any load and with readings in any order, an accepted nonce stays refused within its ttl as long as nothing more is accepted once capacity minus one others with readings not before its own were |
| Nonces.TimelyReplayRefused | shared/atlantis_contracts/persistence.py:70-81 | one read no earlier than those already there stays refused until as many further requests as the capacity were accepted |
| Nonces.LateNonceIsReplayed | shared/atlantis_contracts/persistence.py:70-81 | for every configured service and capacity from two on, a nonce that comes late to the lock is forgotten with the next acceptance, and its request accepted again within the ttl |
| Nonces.MemoryVerdictExactly | shared/atlantis_contracts/security.py:85-104 | a request is accepted exactly when its service has a long enough secret, its timestamp is a number within the skew, it carries the MAC of its message, it names a tenant, and no unexpired entry has its nonce; otherwise the first that fails names the verdict |
| Nonces.MemoryAfterVerdict | shared/atlantis_contracts/persistence.py:70-81 | an earlier refusal leaves the store alone, a replay only drops expired entries, an acceptance puts its nonce last for the ttl and loses nothing below capacity |
| Nonces.TableVerdictExactly | shared/atlantis_contracts/security.py:85-104 | the same verdicts over the PostgreSQL store |
| Nonces.TableAfterVerdict | shared/atlantis_contracts/persistence.py:98-112 | an earlier refusal leaves the table alone; otherwise exactly the tenant's expired rows go, and an accepted nonce gets a row that expires the ttl after its timestamp |
| Nonces.WorkloadRequestVerifier.Verify | shared/atlantis_contracts/security.py:85-104 | the checks in their order, then the nonce, give the modelled verdict; without a valid signature, timestamp, secret and tenant the nonce is not even looked at |
| Http.EveryRunFollows | shared/atlantis_contracts/http.py:114-147 | over either store, however threads interleave, fail or die, while a key's entry is neither expired nor evicted at most one thread handles it and everything clients see of it is allowed by its phase |
| Http.EveryTableRunFollows | shared/atlantis_contracts/http.py:114-147 | over the table it is enough that every request finds the key's entry unexpired |
| Http.SameAnswerForGood | shared/atlantis_contracts/http.py:121-147 | after an answer below 500 the handler never runs again for that key: the same body gets the same status and body, another body the conflict |
| Http.RunsAgainOnlyAfterFailure | shared/atlantis_contracts/http.py:143-146 | between two handler runs for a key, with any bodies, there was a failure of 500 or above |
| Http.FailureFreesKey | shared/atlantis_contracts/http.py:145-146 | after such a failure the next request runs the handler |
| Http.RequestIsAnswered | shared/atlantis_contracts/http.py:114-130 | what a request gets for each state of its key's entry: the stored answer, in progress, conflict, or its handler started and the key reserved for the ttl |
| Http.CompletionIsAnswered | shared/atlantis_contracts/http.py:131-147 | what the client gets for each way a handler ends, 403, 400, 408, 500 or its own answer, and that below 500 it is kept in the reservation's own entry and otherwise that entry is given up |
| Http.DeathHoldsTheKey | shared/atlantis_contracts/http.py:114-147 | a thread that dies leaves its key reserved: until the entry expires requests are turned away |
| Http.StartsExactly | shared/atlantis_contracts/http.py:114-128 | a request starts the handler exactly when its key has no entry, or one that is expired at its reading |
| Http.TakesAwayExactly | shared/atlantis_contracts/http.py:114-128 | a request for another key takes an entry away exactly in the in-memory store, by expiry or because all others outrank it in the full store |
| Http.ExpiredKeyRunsTwice | shared/atlantis_contracts/http.py:114-147 | on either store, a run where the entry expires meanwhile and the handler runs twice |
| Http.EvictedKeyRunsTwice | shared/atlantis_contracts/http.py:114-128 | for every capacity, that many requests for other keys make the next request for a key being handled run the handler again |
| Http.Dispatch | shared/atlantis_contracts/http.py:114-147 | one request on the in-memory store object has exactly the effect of its claim and completion steps |
| RateLimit.AdmitsExactlyTheLimit | shared/atlantis_contracts/middleware.py:50-61 | pruning is never noticed: with calls at most a minute late, a call is admitted exactly when fewer than the limit of earlier calls had its identity and minute |
| RateLimit.AtMostTheLimitPerMinute | shared/atlantis_contracts/middleware.py:50-61 | in each minute of the clock an identity is admitted exactly as often as it calls, up to the limit |
| Outbox.DeliversAtMostOnce | services/orchestrator/app/resilience.py:47-69 | passing returned items back in, with whatever endings, dispatch returns at most once, and the item ends SENT exactly then |
| Outbox.TriesExactly | services/orchestrator/app/resilience.py:47-69 | which status one try ends in, for each ending and number of attempts |
| Outbox.WaitsExactly | services/orchestrator/app/resilience.py:17-19 | a retry waits from half of the capped doubling up to all of it, in proportion to the jitter |
| Outbox.TriesAreBounded | services/orchestrator/app/resilience.py:62-69 | an item passed back while it says RETRY is tried at most `max_attempts` times |
| Outbox.BackoffIsBounded | services/orchestrator/app/resilience.py:17-19 | the waiting adds up to at most the maximum per try and to at most the geometric sum of the base |
| Gate.ValidateLock | tools/compliance_gate.py:104-144 | reports no error exactly when the lock is approved, non-empty, with pinned, licensed, well-formed entries of distinct stripped and case-folded names, as `GateExactly.LockGoodExactly` spells out |
| GateExactly.LockGoodExactly | tools/compliance_gate.py:104-144 | the condition of the lock spelled out: approved, its twelve fields fixed, digests of 64 hexadecimal digits, no marked license, published own images, distinct names |
| GateExactly.MarkedLockIsRefused | tools/compliance_gate.py:134-135 | a lock with a license text that is one of the seven markers is refused |
| Gate.ValidateSbom | tools/compliance_gate.py:221-275 | reports no error and does not raise exactly when header, uniqueness and the comparison with the lock are good |
| Gate.ObjectsAre | tools/compliance_gate.py:231 | of a mixed list exactly the objects are looked at |
| GateExactly.CdxGoodExactly | tools/compliance_gate.py:221-275 | the condition of the CycloneDX list spelled out against an accepted lock: header, the lock's names each once, and version, SHA-256 hash and license of each entry |
| Gate.ValidateSpdx | tools/compliance_gate.py:278-326 | likewise for the SPDX list with its license checks, as `GateExactly.SpdxGoodExactly` spells out |
| GateExactly.SpdxGoodExactly | tools/compliance_gate.py:278-326 | likewise for the SPDX list: header, the lock's names each once, version, SHA256 checksum and declared license, and no open license |
| GateExactly.MarkedPackageIsRefused | tools/compliance_gate.py:293-297 | a package whose declared or concluded license text is one of the seven markers is refused |
| GateExactly.MissingLicenseIsNoError | tools/compliance_gate.py:40-41 | a package that states no license, or null, gets no error for it |
| GateExactly.PassingLicenses | tools/compliance_gate.py:498-521 | a passing release has no marked license in its lock or its SPDX list |
| GateExactly.NoAssertionIsRefused | tools/generate_distribution_candidate.py:586-610 | the document generated with its own NOASSERTION conclusion is refused for every accepted lock |
| GateImages.ValidateImages | tools/compliance_gate.py:329-398 | likewise for the image manifest and its two SBOM files per image |
| GateExactly.ImagesGoodExactly | tools/compliance_gate.py:329-398 | the condition of the image manifest spelled out against an accepted lock: a fixed scanner, a good entry with both files for each image, and no other entries |
| GateExactly.ImageLicenses | tools/compliance_gate.py:388-395 | the SPDX file an accepted manifest names for an image has no package with a marked license |
| GateApprovals.ValidateAttestation | tools/compliance_gate.py:448-495 | likewise for subject, recorded artifacts and approvals |
| GateExactly.AttestationGoodExactly | tools/compliance_gate.py:448-495 | the condition of the attestation spelled out: schema version, subject, the seven recorded files, and three good approvals of different roles and signers |
| GateApprovals.VerifyApproval | tools/compliance_gate.py:406-445 | adds no error exactly for complete metadata of a known role whose timestamp, key, encoding and signature are good |
| GateApprovals.DistributionErrors | tools/compliance_gate.py:498-521 | the gate ends without error exactly when every part is good |
| GateAgreement.LockIsDistinct | tools/compliance_gate.py:118-125 | an accepted lock holds only named objects with distinct case-folded names |
| GateAgreement.ListAgreesWithLock | tools/compliance_gate.py:235-275 | an accepted list has exactly the lock's names, each once, with the lock's revision, digest and license |
| GateAgreement.AcceptedDocumentsAgree | tools/compliance_gate.py:104-326 | lock, CycloneDX list and SPDX list have the same names, each once, and agree pairwise |
| GateImages.ImagesMatchLock | tools/compliance_gate.py:329-398 | image entries and OCI components are in bijection by name, with equal digests |
| GateApprovals.ExactlyThreeApprovals | tools/compliance_gate.py:471-495 | exactly three object approvals, one per role, by distinct signers, each over the same subject and artifacts |
| GateApprovals.PassingTheGate | tools/compliance_gate.py:498-521 | a passing release has all of these at once |
| ReleaseScenario.GeneratedReleasePasses | tools/compliance_gate.py:498-521 | for every accepted lock, the two lists generated from it under a resolved license conclusion pass the gate together with an accepted image manifest and attestation |
| ReleaseScenario.AReleaseCanPass | tools/compliance_gate.py:498-521 | there are documents that pass the whole gate |
| Json.AsciiIsLawful | tools/compliance_gate.py:118-125 | the ASCII string operations obey the laws assumed of `casefold`, `strip` and `upper` |
| Json.MentionsExactly | tools/compliance_gate.py:138-143 | a word is found in a value exactly when it occurs in one of its texts, at any depth, keys included |
| Json.StripIs | tools/compliance_gate.py:118 | stripping takes exactly the spaces at both ends |
| Common.ContainsExactly | services/model_gateway/app/gateway.py:197 | a text contains another exactly when that is one of its slices |
| Common.UpperFolds | services/policy_gateway/app/policy.py:31 | upper-casing leaves no small letter and changes nothing else |
| Candidate.CycloneDxComponents | tools/generate_distribution_candidate.py:555-579 | the loop builds one entry per component, field by field as the contract says, and raises exactly on a missing field it reads, a license or digest that is not text, or other hashes it needs and cannot visit |
| Candidate.GeneratedListIsAccepted | tools/generate_distribution_candidate.py:555-579 | from every accepted lock whose licenses and digests are text the CycloneDX list is generated without raising and is accepted against the lock |
| Candidate.SpdxDocumentPackages | tools/generate_distribution_candidate.py:586-610 | the loop builds one package per component, field by field as the contract says, and raises exactly on a missing field it reads, or a name, repository or digest that is not text |
| Candidate.GeneratedSpdxVerdict | tools/generate_distribution_candidate.py:586-610 | for every accepted lock, the SPDX document generated from it with some license conclusion is accepted against it exactly when that conclusion is resolved |
| Candidate.ImageLicenseGaps | tools/generate_distribution_candidate.py:156-185 | the total is the number of declarations and the sum of the groups' occurrences, and each group names exactly its images |
| Candidate.GroupsByIdentity | tools/generate_distribution_candidate.py:160-166 | each declaration counts for its own image, in the group of its package URL, or of its name without one, and its version |
| DirectoryHash.SameStreamSameFiles | tools/compliance_gate.py:52-58 | two directories whose digests hash the same bytes hold the same paths and contents |
| DirectoryHash.StreamIsConcatenation | tools/compliance_gate.py:52-58 | the stream is the files' one after the other, each its path, a zero byte and 32 bytes of digest |
| DirectoryHash.Feed | tools/compliance_gate.py:52-58 | the loop feeds exactly that stream |

## Left out

- SQL engine: row-level security, foreign keys to tenants, `bigint` overflow, lost connections and audit-table rows are not modelled; each transaction is its effect on the tables the theorems use.
- Cryptography: SHA-256 and HMAC are injective by construction, and forging is excluded by a hypothesis on runs (a presented signed token is one the issuer made); RS256 and OIDC are wrappers over an unseen library.
- Fresh identifiers: decision ids, action ids and token ids are inputs; runs assume decision ids are new, and collisions of token ids are handled as the table's constraint does.
- Clocks: one clock per run; skew between service, database and adapter clocks is not modelled.
- Chain.EveryDispatchIsBacked: the CRM answers in one step, as the single SELECT of the PostgreSQL repository does. The in-memory store's read is part by part; what that can make of an answer is `LockFreeEvidence`, which the chain does not use.
- Crm.SuppressionIsForGood: outside shadow mode the CRM is `PostgresCRMRepository` (services/crm_api/app/postgres.py:145-208), where suppressions can expire and also match by phone token or for all tenants; the chain, with or without the shared table of authorizations, is over the operations of the in-memory `CRMStore`.
- Chain.EveryDispatchIsAuthorized: a dispatch is the moment its token is consumed; how long the transport then takes is not modelled.
- Text: upper-casing, case folding and blank tests in `Policy` and channel names are ASCII; the gate takes the Unicode operations as parameters with stated laws.
- Decoding: `TokenText` decodes text in the alphabet only; the leniency of Python's decoder towards other characters is not modelled.
- Redaction and prompt-injection rules: only the byte length of the redacted prompt enters the gateway.
- Provider and channel transports, RabbitMQ, LangGraph, webhooks, REPEP snapshots, lead scoring, telemetry: network or one-branch code.
- Run fields that the engines only copy (facts, next action, policy decision) are one opaque value, and interactions, opportunities, memory facts and privacy requests of the CRM are their audit events.
- Policy decisions with an empty or unknown channel name, and decisions made in shadow mode without the evidence service, are not modelled.
- `InMemoryReplayLedger` and the decision repository: without PostgreSQL the adapters do not ask the ledger, and persisting a decision adds one row that no theorem reads.
- `max_entries` below 1: the stores raise on the first insertion; the theorems ask for at least 1.
- `BoundedTTLMap`, `BoundedTTLSet`: the same pruning and eviction as the two modelled stores; an entry overwritten there gets a new expiry in its old place, so its eviction is by expiry only.
- `CircuitBreaker`: three one-branch methods.
- Http.Dispatch: request parsing, size limits, middlewares and the reply itself are not modelled, nor an exception raised by the store; a thread that dies leaves its reservation pending.
- Http.EveryRunFollows: the condition that the key's entry neither expires nor is evicted is a hypothesis of the run, because without it the guarantee is false (Http.ExpiredKeyRunsTwice, Http.EvictedKeyRunsTwice).
- Outbox.DeliversAtMostOnce: delivery means that `dispatch` returned; an effect that took place although `dispatch` then raised is not seen, and the retry repeats it.
- Candidate.CycloneDxComponents: of other hashes given as an object, which the code would list by its keys, only the number is modelled.
- Nonces.MemoryAcceptsOnceExactly: a run below capacity is assumed; at capacity the nonce read earliest is forgotten early, as Nonces.ReplayRefusedWhileRemembered and Nonces.LateNonceIsReplayed state.
- Gate.ValidateLock: regular expressions for the words n8n and latest and for published images are parameters; the order and wording of error messages is not part of the theorems.
- GateApprovals.DistributionErrors: license files, notices and corresponding-source checks enter only as a list of further errors, and source scanning is not modelled.
- GateAgreement.ListAgreesWithLock: equality of JSON numbers is by their text, so 1 and 1.0 differ where Python finds them equal.
- `unknown_license_packages` and the other generator steps: filters, sorts and downloads around the two modelled list builders.
- Candidate.ImageLicenseGaps: the sorting of groups and image names is not modelled; only name, images and occurrences of a group are kept.
- Candidate.GeneratedSpdxVerdict: of a generated SPDX document only header and packages are modelled; namespace, creation info and relationships are not read by the gate.
