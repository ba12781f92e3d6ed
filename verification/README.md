# RoamBench: verified model of the task protocol

RoamBench hands tasks to coding agents. Two stores take part: a SQLite database with leases, human
decisions and copy-and-paste provenance, and one JSON document per user with projects, tasks, phase
attempts and history. The two are committed separately, so what the system promises are statements
about interleavings, retries, crashes and a moving clock. This project models those parts in Dafny
and proves the promises. Where the code does not keep one, the exact condition under which it does is
proved, with a concrete run that shows the failure where that is informative.

Run `dafny verify dfyconfig.toml` to check everything.

## Modules

| file | what it holds |
|---|---|
| `Basics.dfy`, `ProjectState.dfy` | shared types, the document and its lookups |
| `DependencyGraph.dfy`, `TaskContract.dfy`, `TaskRuns.dfy` | paths and cycles; the dependency search; creation, branching, composing and contract edits of tasks, and whole runs of them |
| `Pause.dfy`, `Takeover.dfy`, `TakeoverRuns.dfy` | the pause fixpoint and what it closes; lifecycle, milestones and takeover control, as functions and as the in-place operations; whole runs of them over a document |
| `LeaseTable.dfy` | leases: claim, heartbeat, release, sweep, revoke; authority over whole runs |
| `Protocol.dfy`, `ControlServer.dfy` | both stores together: every step of one user's server as a transition, and the server object whose methods are those transitions |
| `DecisionGateway.dfy`, `GatewayStore.dfy` | interactions, final answers, outbox and idempotency keys; the tables updated statement by statement |
| `Projection.dfy` | delivery of decisions into the document, with the takeover hook that pauses a task for a rejection: at least once, and effective once while its guard is retained |
| `DurableStore.dfy` | log entry, backup, rename: crash consistency of both file stores, and the recovery of interrupted tool runs at load |
| `Compaction.dfy`, `Archive.dfy` | retention of history; the pass over the lists |
| `Runbook.dfy`, `RunbookGate.dfy`, `RunbookEngine.dfy` | phases, evidence, tool runs and the chains they set off; which runbooks guarantee evidence at acceptance |
| `Handoff.dfy`, `Provenance.dfy` | pending handoffs, pinning, promotion, source references; whole runs over both tables |
| `PointerBlock.dfy` | rewriting the marked block in an agent's memory file |
| `Outcomes.dfy`, `ClaimOutcomes.dfy`, `Passing.dfy` | what a pause, a verdict, a release and an expiry do to each task, project and running piece of work; what a claim grants and to which task; that only a command the server ran marks a task passed |
| `ControlOutcomes.dfy`, `LifecycleOutcomes.dfy`, `ContractOutcomes.dfy`, `LeaseOutcomes.dfy` | takeover control, contract and task updates, revocation; lifecycle moves and milestone lists; the task contract in terms of walks along stored tasks; each lease, attribute by attribute |
| `DecisionOutcomes.dfy`, `AnswerOutcomes.dfy`, `RunbookOutcomes.dfy` | the table of decisions and the pause a failure causes; which answers, requests and cancellations are taken and what they write; evidence and every runbook operation |
| `StoreOutcomes.dfy`, `CompactionOutcomes.dfy`, `HandoffOutcomes.dfy` | which document a load finds, what it and a save leave; exactly what survives compaction; each row, reference and count of a promotion |

The parts that the source writes as updates in place are classes here; each method's `ensures` ties
the new state to a function of the old one, and the theorems are about those functions and about runs
built from them. The modules named Outcomes state what those functions mean without naming them: field
by field, with the literal kinds, reasons, limits and order. A database failure, a failed or half-done write and a crash are parameters or
separate steps, so "for every run" includes them.

## Results

- A verification is only ever committed under a lease that was active, unexpired and the task's own
  from the moment the request was loaded; the command that ran is still the task's command, no second
  verification ran, and no transaction that closes the task completed in between
  (`Protocol.VerifiedWorkWasHeldThroughout`). The proof goes backwards: lease and document, once out
  of agreement, never come back into agreement (`Protocol.AliveBefore`).
- A task carries the mark "passed" only because the server ran its acceptance command: whenever a task
  has the mark, and did not at the start of the run, there is a verdict "passed" in the run, of the very
  command the task still has, under a lease that was held from the load of the request to the verdict
  (`Passing.PassedMeansCommandRan`).
- A verdict passes its task, or counts a failure and pauses the task with everything that depends on it
  (`Outcomes.CommitMeans`). A claim grants the first stored task that was waiting, unpaused, low-risk,
  with all dependencies done and verified, in an open state or its project's milestone, and held by
  nobody, up to tasks that this very claim pauses (`ClaimOutcomes.GrantMeans`).
- After every transaction that returns without error no closed task has an active lease, and a
  granted lease survives its own transaction unless the task is a cancelled agent task.
- Authority windows never overlap; a lease ends early only by its own release or a revocation.
- The task graph stays acyclic over every run; the dependency check is exact; a pause closes exactly
  the least closed set.
- Over every run of a document takeover is paused exactly while the lifecycle is blocked, an accepted
  resume restores what was there before the first pause, and the milestone in execution stays a current
  one exactly while no update replaces it during a pause (`TakeoverRuns.RunKeepsMilestones`).
- One final answer per interaction; retries under a key give the first result and the first writes. An
  answer is accepted exactly when it is complete, new under its key, of an offered action and declared
  options in the right number, and to the request as it waits (`AnswerOutcomes.AcceptedExactly`).
- A decision takes effect on the document exactly once, as long as its guard is retained: its marker
  and, for a decision that pauses its task, also the event of the decision itself
  (`Projection.ExactlyOnce`). That is needed as well: after any run, nothing more can come of a
  decision exactly when the guard is there or the row is delivered and no worker holds it
  (`Projection.GuardIsExact`). Compaction retains it exactly while fewer than 64 events of the task
  are newer (`Projection.CompactionRetains`).
- A crash leaves the old document or the new one, but for tool runs that a load has cut off.
- Two loads of the project store with only loads in between, each cut anywhere, return the same
  document exactly when no tool run still going in the first is overdue, or older than the process,
  at the second (`DurableStore.LoadsAgree`); the workspace store always returns the same one.
- Compaction conserves history, keeps what is referenced, and is done after one pass. What survives is
  determined by counting younger items, and for artifacts older unneeded ones
  (`CompactionOutcomes.SurvivesExactly`, `CompactionOutcomes.ArtifactSurvivesExactly`).
- Tool chains end; running attempts follow the task. Tasks created in planning reach acceptance only
  with all evidence exactly when no rule can be avoided on a way there
  (`RunbookGate.GatedFromPlanExactly`). At every moment of every run a task of the code runbook that
  waits for acceptance has a passed test, review and completion check, and a plan and a diff summary
  that have not failed (`RunbookOutcomes.CodeTaskIsTested`).
- Pinned handoffs stay pinned. Every promoted handoff has its reference, at every moment of a run,
  exactly as long as no user discards the last one and no link takes along a handoff with another
  source (`Provenance.PromotedHaveReferences`).
- Pointer rewriting is idempotent and undoes cleanly.

## Where the code differs from its own comments

- `internal/server/project_lifecycle.go:455-458` says that old leases fail the execution gate even
  when a revocation has to be retried. A user pause leaves the dispatch state alone, so after a failed
  revocation and a resume the old lease passes the gate again: `Protocol.UnnoticedUserPause`. Of a
  verification that is under way only one whose command had already ended can profit, since the pause
  cancels a running command before it revokes. A cancelled task that an agent raised needs no resume:
  until a revocation succeeds its lease passes the gate (`Protocol.CancelledGate`,
  `Protocol.UnnoticedCancel`).
- `internal/server/agent_claims.go:240-241` says that a stale lease takes its task back to ready. In a
  managed project the task is paused instead; the model follows the code (`Protocol.ExpiredDocument`).
- `internal/server/task_projector.go:38-69` relies on a marker event that compaction may drop:
  `Projection.ForgottenGuard`.
- `internal/server/project_takeover.go:234-236` says that the same failure is not counted twice. A
  rejected final acceptance is recorded under the time of the response, so compaction may drop that
  event and keep the marker; the retry records it again, and the failure counts twice:
  `Projection.SecondFailure`.
- `internal/server/terminal_handoff.go:592-594` says that a new submission never inherits another
  goal's provenance. A link that finds its paste still waiting for an earlier task takes the row along
  to its own task: `Handoff.StrayingLink`.
- A block left open in front of another block swallows it: `PointerBlock.BlockBelowIsLost`.

## Model

| member | source | states |
|---|---|---|
| Protocol.VerifiedWorkWasHeldThroughout | internal/server/project_takeover.go:44-208 | for every run and every commit under a good lease: the request was loaded and begun before it, the lease was usable and the task claimed under it with the executed command at every moment since, no other request was verifying the task, and no completed transaction left the task closed |
| Protocol.AliveBefore | internal/server/project_lifecycle.go:234-255 | whatever lease and document agree on after a step they agreed on before it, with the same command: agreement is never restored |
| Protocol.StepEvolves | internal/server/agent_claims.go:59-150 | every step keeps rows' task and user, changes no closed row, extends no overdue lease of ours, and makes no task claimed but one without an active lease |
| Protocol.CommittedSweeps | internal/server/project_control.go:4775-4825 | after every transaction that returns without error no closed task has an active lease of the user |
| Protocol.RevokedRow | internal/server/project_lifecycle.go:459-473 | what a partial or complete revocation pass does to each lease: released exactly when active, the user's, and of a closed task reached so far |
| Protocol.GrantSurvivesItsClaim | internal/server/project_lifecycle.go:179-210 | a lease granted by a successful claim is active afterwards exactly when its task is not cancelled, and a cancelled one is an agent task |
| Protocol.SavedTakeoverPauseEndsClaims | internal/server/project_lifecycle.go:386-443 | a saved takeover pause or stop ends every claim in its scope even if no lease could be revoked |
| Protocol.SavedBlockEndsClaims | internal/server/project_lifecycle.go:313-371 | so does a saved contract update that moves the project to blocked |
| Protocol.UserPauseEndsClaim | internal/server/project_control.go:3250-3512 | a user pause ends the claim exactly when its revocation reaches the task, or when the update hook pauses the project of a high-risk task and that is saved |
| Protocol.UserCancelEndsClaim | internal/server/project_control.go:3375-3420 | a cancellation ends the claim exactly under the same conditions |
| Protocol.UnnoticedUserPause | internal/server/project_control.go:3250-3512 | from any claimed open task that the update hook does not pause: a user pause with failed revocation followed by a resume leaves the old lease good, for a verification whose command the pause came too late to cancel |
| Protocol.CancelledGate | internal/server/project_lifecycle.go:179-210 | after a saved cancellation whose revocation failed the lease gate is open exactly for a task that an agent raised |
| Protocol.UnnoticedCancel | internal/server/project_lifecycle.go:455-473 | from every good lease on such a task there is a cancellation after which the task is cancelled and the lease still good |
| Protocol.RollBackEnds | internal/server/agent_claims.go:121-127 | the rollback of a failed claim, whenever it comes, ends whatever claim is alive on its task and no other |
| Protocol.RunKeepsServer | internal/server/project_takeover.go:128-152 | over every run a verifying request is the one entered in the table of running validators, and requests and leases agree on the task |
| ControlServer.Service.AgentClaim | internal/server/agent_claims.go:59-121 | the claim in place, with risk scan, task scan, write and revocation, is the claim step of the protocol; a failed one leaves a lease to give back |
| ControlServer.Service.RollBackClaim | internal/server/agent_claims.go:121-127 | the lease of a failed claim is given back by task, as far as the database allows |
| ControlServer.Service.TryTask | internal/server/agent_claims.go:79-119 | one task of the scan: skipped, paused, its inputs recorded, or given the lease, as judged |
| ControlServer.Service.RevokeClosedClaims | internal/server/project_lifecycle.go:459-473 | revokes in stored order up to the database failure |
| ControlServer.Service.AgentHeartbeat | internal/server/agent_claims.go:152-193 | renews under a good lease, and answers that there is none exactly when no stored task has one under it |
| ControlServer.Service.SweepLeases | internal/controlplane/claims.go:280-329 | answers with exactly the overdue leases of the user, all expired by then |
| ControlServer.Service.ApplyExpired | internal/server/project_takeover.go:18-40 | pauses the task of a swept lease unless a newer lease is in force |
| ControlServer.Service.BeginVerification | internal/server/project_takeover.go:128-152 | entry is accepted at most once per task and leaves no closed task with a lease |
| ControlServer.Service.CommitVerification | internal/server/project_takeover.go:166-202 | the verdict changes the document only under a good lease |
| LeaseTable.AuthorityNeverOverlaps | internal/controlplane/claims.go:144-173 | over every run with a running clock no moment is covered by two leases of one task |
| LeaseTable.RunKeepsTable | internal/controlplane/claims.go:178-219 | over every run leases of a task are strictly one after the other and an active lease expires 120 s after its last update |
| LeaseTable.ClosedThroughRun | internal/controlplane/claims.go:224-269 | a released or expired lease never changes again |
| LeaseTable.OnlyReleaseOrRevokeEndsEarly | internal/controlplane/claims.go:224-269 | a lease that ends before its expiry was released by its holder or revoked by task |
| LeaseTable.SweepLeavesNothingOverdue | internal/controlplane/claims.go:280-329 | after a sweep nothing in its scope is overdue, and nothing that was not is changed |
| LeaseTable.ExactlyOneWinner | internal/controlplane/repository.go:276 | at most one active lease per task; a claim succeeds exactly when there is none and is usable for exactly the lease time |
| LeaseTable.ClaimTable.ClaimReadyTask | internal/controlplane/claims.go:117-142 | the first candidate that nobody holds is granted, and nothing is written otherwise |
| LeaseTable.ClaimTable.ExpireStale | internal/controlplane/claims.go:280-329 | closes exactly the overdue leases of the scope |
| TaskContract.ValidateTaskContract | internal/server/project_lifecycle.go:109-150 | accepts exactly when command and milestone are allowed, every reachable task is in the project and no cycle is reachable |
| TaskContract.DependencySearch.Visit | internal/server/project_lifecycle.go:120-143 | the recursive search with its path set decides soundness of everything reachable, and terminates |
| TaskContract.AddKeepsSound | internal/server/project_control.go:3090-3181 | adding a task with a fresh id and a valid contract keeps the whole graph acyclic and inside projects |
| TaskContract.EditKeepsSound | internal/server/project_control.go:3267-3285 | changing the dependencies of one task to a valid contract keeps the whole graph acyclic |
| TaskContract.SoundBoardRevalidates | internal/server/project_lifecycle.go:109-150 | on a sound board every stored task still passes the check |
| TaskContract.FreshContract | internal/server/project_lifecycle.go:109-150 | for a new task on a sound board the whole dependency check is that its own dependencies are tasks of its project |
| TaskContract.Board.CreateBranches | internal/server/project_control.go:2990-3027 | branches are accepted exactly when there are any, the parent and its project exist and no title is blank; all are stored or none, and the board stays sound |
| TaskContract.Board.ComposeTask | internal/server/project_control.go:3031-3068 | composing is accepted exactly for finished tasks of one existing project and a title that is not blank, and the board stays sound |
| TaskRuns.RunKeepsSound | internal/server/project_control.go:2990-3181 | over every run of creations, branches, compositions, contract edits and other changes, accepted or refused, dependencies stay inside their project and the whole graph is acyclic |
| DependencyGraph.RedirectKeepsAcyclic | internal/server/project_lifecycle.go:109-150 | redirecting one task's edges to sound targets creates no cycle anywhere |
| Pause.FindAffected | internal/server/project_lifecycle.go:386-410 | the sweeps end and find the least set that holds the task and is closed under "depends on" in the project |
| Pause.PauseClosesScope | internal/server/project_lifecycle.go:386-443 | after a pause nothing in scope but done work is claimed, ready or claimable, and no attempt or run in scope still runs |
| Takeover.ControlDocument.PauseControlState | internal/server/project_lifecycle.go:386-443 | the pause in place leaves exactly the paused document: projects, tasks, attempts and runs |
| Takeover.ValidateMilestones | internal/server/project_lifecycle.go:82-107 | accepts exactly the lists of distinct named milestones in the order finished, at most one current, to do |
| Takeover.LifecycleTransition | internal/server/project_lifecycle.go:257-311 | the transition is made exactly when allowed, with the stage to return to |
| Takeover.RunKeepsLifecycle | internal/server/project_lifecycle.go:498-627 | over every run takeover is paused exactly while the lifecycle is blocked, and the remembered stage is never blocked |
| Takeover.ResumeUndoesPauses | internal/server/project_lifecycle.go:498-627 | one project resume after any number of pauses restores stage and milestone from before the first |
| Takeover.OpKeepsExecutingMilestone | internal/server/project_lifecycle.go:313-371 | one operation keeps the milestone in execution current exactly unless it is an accepted update that replaces the list while blocked without it |
| Takeover.StaleMilestoneWitness | internal/server/project_lifecycle.go:313-371 | pause, replace, resume: execution of a milestone the project no longer has |
| TakeoverRuns.RunKeepsLifecycles | internal/server/project_lifecycle.go:498-627 | over every run from an empty document, in every project, takeover is paused exactly while the lifecycle is blocked |
| TakeoverRuns.RunKeepsMilestones | internal/server/project_lifecycle.go:313-371 | the milestone in execution is current at every moment of a run exactly when no step is such an update |
| TakeoverRuns.ResumeRestores | internal/server/project_lifecycle.go:386-443 | after a pause of a project and anything but its resume or stop, an accepted resume restores the lifecycle from before |
| TakeoverRuns.StepMoves | internal/server/project_lifecycle.go:498-627 | every step on the document is, for every project, one move of a single project or none |
| Takeover.ControlDocument.ControlTakeover | internal/server/project_lifecycle.go:498-627 | start, pause, resume and stop: accepted exactly when allowed, and the whole document afterwards |
| Takeover.ControlDocument.UpdateProjectContract | internal/server/project_lifecycle.go:313-371 | a contract update is accepted under the version and revalidation rules and changes nothing otherwise |
| Takeover.ControlDocument.AdvanceMilestoneReview | internal/server/project_takeover.go:210-232 | a project whose current milestone is done and verified goes to human acceptance, and no other |
| DecisionGateway.OneFinalAnswer | internal/controlplane/repository.go:597-698 | over every run: versions 1 and 2, exactly one response, decision and projection when resolved, one created and at most one terminal event, and every response answers the reviewed input validly and before expiry |
| DecisionGateway.FinalIsForever | internal/controlplane/repository.go:763-864 | an interaction with a final status never changes again |
| DecisionGateway.AnswerRetries | internal/controlplane/repository.go:615-627 | after a successful answer every call under the key gives its response and writes nothing, or conflicts when the answer differs beyond the order of options |
| DecisionGateway.CreateRetries | internal/controlplane/repository.go:488-529 | the same for creation |
| DecisionGateway.CancelRetries | internal/controlplane/repository.go:726-756 | the same for cancellation |
| DecisionGateway.CallTouches | internal/controlplane/repository.go:597-864 | a call closes no row but the pending ones it is about, with the final status of its kind and at the version asked for; expiry and session end close all of theirs |
| DecisionGateway.CreateGives | internal/controlplane/repository.go:445-534 | the first creation under a key, or one without, answers with the one stored row of the adapter request and the same reviewed input, and a high-risk one cannot be approved for a session |
| DecisionGateway.CallKeeps | internal/controlplane/repository.go:445-864 | every call keeps rows unique, events counted and responses, decisions, projections and keys in step |
| GatewayStore.Store.CreateInteraction | internal/controlplane/repository.go:445-534 | the statements of a creation amount to the create transaction |
| GatewayStore.Store.RespondTo | internal/controlplane/repository.go:597-698 | the statements of an answer amount to the respond transaction |
| GatewayStore.Store.CancelInteraction | internal/controlplane/repository.go:707-761 | the conditional update, outbox and key amount to the cancel transaction |
| GatewayStore.Store.ExpireDueInteractions | internal/controlplane/repository.go:763-806 | collects and closes exactly the due rows of the user |
| GatewayStore.Store.CancelPendingForSession | internal/controlplane/repository.go:808-864 | closes exactly the pending rows of the session |
| Projection.ExactlyOnce | internal/server/task_projector.go:12-85 | over every run with crashes, lost writes, retries and concurrent workers a decision takes effect on the document at most once, and exactly once when delivered, if compaction retains its guard while it can matter |
| Projection.GuardIsExact | internal/server/project_takeover.go:234-288 | after any run a decision can have no further effect without compaction exactly when its kind does not know its action, its guard is there, or its row is delivered and no worker is still to apply it |
| Projection.CompactionRetains | internal/server/project_control.go:4300-4353 | compaction retains a guard still needed exactly when fewer than 64 events of the task are newer than the marker and, for a decision that can pause its task, than its own event |
| Projection.ForgottenGuard | internal/server/task_projector.go:38-116 | for every decision, document and choice of kept events without the guard: a run in which the decision takes effect twice |
| Projection.SecondFailure | internal/server/project_takeover.go:257-286 | with the marker kept throughout, a rejection counted and paused for twice, the second time as the second failure |
| Projection.DecisionsMeanWhatTheySay | internal/server/task_projector.go:148-200 | the table of decisions: for each kind and action the acceptance, decision and archive ids, state, dispatch state and recorded inputs of the card, with every other field but the version as before; unless the decision pauses its task nothing else changes, and a pause leaves what was decided |
| Projection.RejectionPauses | internal/server/project_takeover.go:237-288 | a rejected final acceptance in an active project counts one failure, clears the passed mark and pauses the task and what depends on it, and changes no other task |
| Projection.RepeatIsHarmless | internal/server/task_projector.go:38-116 | an application leaves everything but the record of events as it was, on any document, exactly when the marker is there and the event of a decision that would now pause its task is there too |
| Projection.RepeatAtOnce | internal/server/task_projector.go:38-116 | a transaction repeated at once changes nothing at all, the record of events included |
| Projection.Projector.ApplyTaskProjection | internal/server/task_projector.go:38-85 | the loops over events and tasks amount to the callback of the projection transaction, refusals included |
| Projection.Projector.ApplyTakeoverEvents | internal/server/project_takeover.go:237-288 | the loop over the new events counts the failure and pauses exactly when the decision's event is new, its project active and its recorded action a failure |
| Projection.Projector.WithStateLocked | internal/server/project_control.go:4775-4801 | callback and hook in place amount to the whole transaction |
| Projection.MoveTallies | internal/controlplane/projection.go:49-67 | every step keeps guard, row state, worker verdict and count of effects in agreement |
| DurableStore.CutSaveIsAtomic | internal/server/project_control.go:4980-5013 | a save cut after any primitive step leaves the old or the new document exactly when it was safe; a completed one the new |
| DurableStore.CrashConsistent | internal/server/project_control.go:4916-5013 | after any run of cut saves and loads, none older than the document in force, that document is the last completed save or one interrupted since, but for runs that loads have cut off |
| DurableStore.ClockIsEnough | internal/server/project_control.go:4802-4803 | stamps of the time of the call and a clock that does not go back make every call of a run in time |
| DurableStore.LoadsAgree | internal/server/project_control.go:1978-2036 | with only loads in between, each cut anywhere, two loads of the project store agree exactly when no run going in the first is overdue at the second or older than its process |
| DurableStore.LoadsDisagree | internal/server/project_control.go:1978-1990 | one document with one running tool, loaded at once, after its time and after a restart: three different documents |
| DurableStore.WorkspaceLoadsAgree | internal/server/workspace_state.go:39-80 | what one load of the workspace store returns every later load returns until the next save, whatever the clock says |
| DurableStore.LostLogEntry | internal/server/workspace_state.go:82-133 | with a clock that went back and a save waiting in the log, a further save can lose both |
| DurableStore.FileStore.WriteAtomically | internal/server/project_control.go:4886-4914 | a write is all its steps or a prefix of them |
| DurableStore.FileStore.SaveLocked | internal/server/project_control.go:4980-5013 | the save in place is the script up to the failing step, and succeeds exactly when the document was renamed |
| DurableStore.FileStore.LoadLocked | internal/server/project_control.go:4916-4978 | the load returns the document in force with its interrupted runs cut off, which is then the stored one, and leaves a prefix of its recovery |
| DurableStore.FileStore.RecoverRuns | internal/server/project_control.go:1978-2036 | the loop cuts off exactly the runs that are going with no start, a start before the process, or more than 150 seconds ago |
| Compaction.HistoryIsConserved | internal/server/project_control.go:4631-4674 | per task and kind of history, kept plus counter is unchanged, and nothing new appears |
| Compaction.OldestIsFolded | internal/server/project_control.go:4300-4515 | only the oldest droppable items go, never running or needed ones, and the bounds hold |
| Compaction.SurvivesWhile | internal/server/project_control.go:4300-4515 | an event, attempt or run that is over survives a pass exactly while fewer of its task's items than the limit are newer |
| Compaction.WindowCovers | internal/server/project_control.go:4168-4182 | the memory window covers everything folded away |
| Compaction.ReferencesSurvive | internal/server/project_control.go:4517-4551 | an artifact named by a retained attempt or run is still there |
| Compaction.LatestSurvives | internal/server/project_control.go:4517-4551 | the latest artifact of a task and kind survives as the latest |
| Compaction.EvidenceSurvives | internal/server/project_control.go:1369-1393 | a task with artifacts of a kind has a latest one, the same after a pass; a kind whose latest artifact passes is not reported missing, and nothing missing becomes present |
| Compaction.SecondPassPrunesNothing | internal/server/project_control.go:4631-4674 | a second pass prunes nothing and changes no memory |
| Archive.Keeper.CompactNewest | internal/server/project_control.go:4300-4515 | grouping, sorting, cutting and folding in place amount to the compacted list and memories |
| Archive.Keeper.CompactArtifacts | internal/server/project_control.go:4553-4629 | the same for artifacts and their protection |
| Archive.Keeper.ProtectedIds | internal/server/project_control.go:4517-4551 | finds exactly the referenced and the latest artifacts |
| Archive.Keeper.Compact | internal/server/project_control.go:4631-4674 | the whole pass in place leaves the compacted history |
| Runbook.ChainsEnd | internal/server/project_control.go:1816-1976 | with distinct phases every chain of retries and automatic advances is bounded in advance and never comes back to recovery |
| Runbook.RepeatedPhaseNeverEnds | internal/server/project_control.go:978-1000 | with a repeated phase there are chains of every length |
| Runbook.RunningIsCurrent | internal/server/project_control.go:1246-1323 | over every run a running attempt is for its task's current phase, and is the only one |
| Runbook.GatedExactly | internal/server/project_control.go:2039-2113 | for tasks in any phase and with any evidence, stored ones included: entering acceptance always has all evidence exactly when the runbook is gated |
| RunbookGate.GatedFromPlanExactly | internal/server/project_control.go:2039-2113 | over every run in which tasks are created in planning, entering acceptance has all evidence exactly when no rule can be avoided on a way from planning |
| RunbookGate.GatedIsStronger | internal/server/project_control.go:978-1000 | a gated runbook has this property, and one that has it need not be gated |
| Runbook.BuiltInBooks | internal/server/project_control.go:794-824 | both built-in runbooks are gated and have distinct phases |
| Runbook.FindNext | internal/server/project_control.go:978-1000 | the loop finds the next phase that is neither unknown nor recovery |
| RunbookEngine.Engine.StartPhase | internal/server/project_control.go:1246-1323 | starts exactly the current phase, one attempt at a time |
| RunbookEngine.Engine.CompletePhase | internal/server/project_control.go:2039-2113 | completes with passing accepted evidence and moves on, or changes nothing |
| RunbookEngine.Engine.Fail | internal/server/project_control.go:2180-2225 | ends the running attempt and sends the task to recovery |
| RunbookEngine.Engine.ApplyResult | internal/server/project_control.go:1756-1814 | tool evidence completes, fails or stays with the phase |
| RunbookEngine.Engine.CompleteToolRun | internal/server/project_control.go:1816-1976 | the end of a tool run in place: the board and the run it sets off |
| RunbookEngine.Engine.RunChain | internal/server/project_control.go:1968-1976 | the chain one run sets off ends within its budget whatever the tools return |
| RunbookEngine.Engine.FindMissing | internal/server/project_control.go:1369-1393 | lists the rules without passing evidence |
| Handoff.PinnedForGood | internal/controlplane/handoff.go:400-429 | over every run without straying links a pinned handoff keeps its task, is promoted to no other, and a promoted one never changes |
| Handoff.StepFaithful | internal/server/terminal_handoff.go:432-465 | one step violates this exactly when it is a link that marks a row waiting for another task |
| Handoff.StrayingLink | internal/server/terminal_handoff.go:432-465 | a run from the empty table in which a paste pinned to one task becomes the provenance of another |
| Handoff.PlanPartitions | internal/server/terminal_handoff.go:596-660 | the two loops attach no row twice, pinned rows only to their own task, and try every row of the submission |
| Handoff.PromotionSettles | internal/server/terminal_handoff.go:596-660 | when nothing fails every row dealt with is promoted to the right task |
| Handoff.AddKeepsUnique | internal/controlplane/handoff.go:158-211 | at most one reference per user, target, source and relation, and the added one is there |
| Handoff.AddGrows | internal/controlplane/handoff.go:158-211 | adding keeps every pair that has a reference and changes nothing but the one added or refreshed |
| Handoff.Desk.RecordPending | internal/controlplane/handoff.go:271-316 | one active row per paste event |
| Handoff.Desk.PinPending | internal/controlplane/handoff.go:400-411 | pins exactly the unpinned waiting rows of the draft |
| Handoff.Desk.CancelHandoffDraft | internal/controlplane/handoff.go:415-420 | discards exactly the unpinned waiting rows of the draft |
| Handoff.Desk.AddSourceRef | internal/controlplane/handoff.go:158-211 | adds or refreshes one reference; refuses incomplete ones, and new ones under an id that is taken |
| Handoff.Desk.PromotePending | internal/server/terminal_handoff.go:596-660 | both loops in place: the rows marked by the plan, a reference for every attempt that marked its row, no reference but of attempts, and exact counts; a nameless request fails |
| Handoff.Desk.LinkSource | internal/server/terminal_handoff.go:432-465 | records, references and marks, cut short by failures; succeeds exactly when the reference is accepted and written, and leaves no trace without a copy or a source task |
| Provenance.PromotedHaveReferences | internal/server/terminal_handoff.go:596-660 | over a run every promoted handoff has the reference of its source to its task at every moment exactly when no deed discards the last one or links a handoff with another source |
| Provenance.DeedCredits | internal/server/terminal_handoff.go:432-465 | the same for one deed |
| Provenance.ReferencesHaveOrigins | internal/controlplane/handoff.go:158-211 | over every run each reference was made by a promotion attempt, a link or a supplement of that run |
| PointerBlock.ReplaceTwice | internal/agentmem/pointer.go:167-185 | writing a well-formed block again changes nothing, for any file content |
| PointerBlock.ReplaceKeepsTheRest | internal/agentmem/pointer.go:167-185 | an existing block is swapped and every other character stays |
| PointerBlock.ReplaceAdds | internal/agentmem/pointer.go:167-185 | a new block goes after the text, which loses only trailing newlines |
| PointerBlock.RemoveUndoesAdd | internal/agentmem/pointer.go:188-202 | removing a freshly added block gives the text back with one trailing newline |
| PointerBlock.BlockIsWellFormed | internal/agentmem/pointer.go:33-44 | keys and bodies in which no comment opens make well-formed blocks |
| PointerBlock.BlockBelowSurvives | internal/agentmem/pointer.go:167-185 | a block behind a closed block is kept |
| PointerBlock.BlockBelowIsLost | internal/agentmem/pointer.go:167-185 | a block behind one left open is swallowed |
| Passing.PassedMeansCommandRan | internal/server/project_takeover.go:42-208 | over every run: a task that has the mark "passed" and did not at the start was committed as passed in the run, under a lease good and a claim alive from the load of the request on, by a run of the command it still has |
| Passing.OtherNoNewMarks | internal/server/project_takeover.go:42-43 | no step but a verdict leaves a new mark, and a marked task keeps its command |
| Outcomes.CommitMeans | internal/server/project_takeover.go:166-202 | a verdict in force under a good lease: passed, no failures, done and nobody's, with the finished milestone sent to acceptance; or one failure more, not passed, released and paused as acceptance_failed or acceptance_failed_twice, with dependents paused and their work stopped; nothing else changes and the lease is released |
| Outcomes.LateCommitMeans | internal/server/project_takeover.go:166-202 | a verdict under a lease that no longer holds changes neither store |
| Outcomes.ReleaseMeans | internal/server/project_takeover.go:69-105 | a failed release pauses as task_failed without counting; one without a command is done and complete, its mark untouched |
| Outcomes.ExpireMeans | internal/server/project_takeover.go:18-40 | an expired lease pauses its task and dependents as heartbeat_lost, unless the task is gone or a newer lease of it is active |
| Outcomes.PauseMeans | internal/server/project_lifecycle.go:386-443 | every task, project, attempt and run after a pause, with the reach as a chain of dependencies or the whole project |
| Pause.AffectedByChains | internal/server/project_lifecycle.go:386-402 | the fixpoint holds exactly the tasks at the end of a chain of dependencies inside the project |
| ClaimOutcomes.AllowedIsFree | internal/server/project_lifecycle.go:179-210 | the claim test: not paused, low-risk, every dependency stored, done, unpaused and passed if it has a command; human work in an open state; agent work with a command in an active, executing project of its milestone |
| ClaimOutcomes.ClaimMeans | internal/server/agent_claims.go:59-121 | the course of a claim as a chain of documents: high-risk projects paused, then each task skipped, paused or recorded until the first that wins, which gets dispatch, runtime, baseline and a lease of two minutes |
| ClaimOutcomes.GrantMeans | internal/server/agent_claims.go:79-119 | seen from before the claim: what the granted task satisfied, what it and its lease are, that it is the only writer in its directory, and that every earlier task that would have won was paused by this claim |
| ClaimOutcomes.ClaimKeeps | internal/server/agent_claims.go:79-119 | no other task changes but by having its inputs recorded or by being paused |
| DecisionOutcomes.DeliveryMeans | internal/server/task_projector.go:12-85 | the whole delivery: the decided card by the table, exactly the four events of the decision, and the pause with its counted failure exactly when the action is new, a failure, and the project under takeover |
| DecisionOutcomes.CarriedWhen | internal/server/task_projector.go:148-200 | a decision is carried out exactly when the task exists and the marker is there, or the kind knows the action and inputs of a task made ready can be read |
| DecisionOutcomes.CauseIs | internal/server/project_takeover.go:237-270 | which kinds and actions count as which failure |
| AnswerOutcomes.StoredAnswers | internal/controlplane/repository.go:1019-1060 | over every run each stored answer has an offered action, none for a session at high risk, declared options in the right number, feedback of the right length and not blank where it is all, in time, for version 1 and the reviewed input |
| AnswerOutcomes.AcceptedExactly | internal/controlplane/repository.go:597-698 | an answer is accepted and no replay exactly when it is complete, its key unused, and it is such an answer to a request that waits at the expected version, in time, with the reviewed input |
| AnswerOutcomes.AnswerWrites | internal/controlplane/repository.go:597-698 | the row, response, decision, projection, three events and key it then writes; of all others only a late one writes, and expires the row |
| AnswerOutcomes.AnswerRefusals | internal/controlplane/repository.go:597-648 | which error each refused answer gets |
| AnswerOutcomes.SameAnswer | internal/controlplane/repository.go:1124-1134 | two answers are the same under a key exactly when they differ at most in the order of options |
| AnswerOutcomes.CreateTakesItsCourse | internal/controlplane/repository.go:445-534 | which requests are refused, answered with their earlier row, or stored as a new row with the offered actions, and what is written |
| AnswerOutcomes.CancelTakesItsCourse | internal/controlplane/repository.go:707-761 | the same for cancellations |
| AnswerOutcomes.ExpiryMeans | internal/controlplane/repository.go:763-806 | an expiry pass closes exactly the waiting rows of the user whose time is over, with one event each |
| AnswerOutcomes.SessionEndMeans | internal/controlplane/repository.go:808-864 | the end of a session closes exactly its waiting rows |
| RunbookOutcomes.WaitingIsShown | internal/server/project_control.go:1369-1393 | at every moment of every run under a gated book a task that waits for acceptance has evidence for every rule, passed for test, review and completion check and not failed for the others |
| RunbookOutcomes.CodeTaskIsTested | internal/server/project_control.go:794-824 | the same for the code runbook, with its five kinds written out |
| RunbookOutcomes.DocsTaskIsReviewed | internal/server/project_control.go:794-824 | the same for the documentation runbook |
| RunbookOutcomes.PassesIsGood | internal/server/project_control.go:1348-1357 | the three kinds that have to pass, and that any other must not have failed |
| RunbookOutcomes.CompleteMeans | internal/server/project_control.go:2039-2113 | a phase is completed exactly when it runs, its artifact is asked for and good, final validation finds every rule shown and a next phase exists; and what it leaves |
| RunbookOutcomes.NextIsFollowing | internal/server/project_control.go:978-1000 | which phase follows which, recovery included |
| RunbookOutcomes.StartMeans | internal/server/project_control.go:1246-1323 | when a phase starts, and what it leaves |
| RunbookOutcomes.FailMeans | internal/server/project_control.go:2180-2225 | when a phase fails, and what it leaves |
| RunbookOutcomes.ToolMeans | internal/server/project_control.go:1756-1814 | what a tool found completes, fails or only adds evidence to the phase |
| RunbookOutcomes.AcceptanceMeans | internal/server/project_control.go:690-731 | which direct changes of the acceptance status are accepted |
| RunbookEngine.FollowUp | internal/server/project_control.go:1816-1976 | what a tool run sets off is a hop of its chain, and attempts still follow the task |
| RunbookOutcomes.HopMeans | internal/server/project_control.go:1816-1976 | one tool run sets off a retry within its maximum, or the first fitting tool of the phase that follows, and no other |
| RunbookOutcomes.RunDoneMeans | internal/server/project_control.go:1816-1976 | when a tool run is retried, when it sets nothing off, and when the next phase and its tool are started |
| LifecycleOutcomes.TransitionMeans | internal/server/project_lifecycle.go:257-311 | the seven edges, the way back from blocked, the milestone execution is of, and completion with all milestones finished |
| LifecycleOutcomes.MilestonesMean | internal/server/project_lifecycle.go:82-107 | the accepted lists split into finished with evidence, at most one current, and to do |
| ControlOutcomes.ControlMeans | internal/server/project_lifecycle.go:498-627 | when start, pause, resume and stop are accepted, and what each leaves of the project, its tasks and their work |
| ControlOutcomes.ContractMeans | internal/server/project_lifecycle.go:313-371 | when a contract update is accepted, and the project and, for a block, the paused document it leaves |
| ControlOutcomes.UpdateMeans | internal/server/project_control.go:3250-3512 | contract edits, user pause, resume and cancellation of a task, and the pause of the project when a high-risk task is updated |
| ControlOutcomes.CreateMeans | internal/server/project_control.go:3090-3181 | when a task is created, and the task |
| ControlOutcomes.DispatchMeans | internal/server/task_projector.go:182-200 | a dispatch decision makes ready with the inputs recorded, or parks |
| ControlOutcomes.SweptMeans | internal/server/project_lifecycle.go:459-497 | after a transaction without error an active lease is for no paused, released or cancelled task and for no agent task outside takeover |
| ControlOutcomes.PassTakesOnlyShut | internal/server/project_lifecycle.go:459-497 | a revocation pass ends exactly the active leases of the user for such tasks among those it reached |
| ContractOutcomes.ContractStands | internal/server/project_lifecycle.go:109-150 | a contract stands exactly when its command names a program, its milestone is the project's, and no walk along dependencies repeats a task or leaves the stored tasks of the project |
| ContractOutcomes.BranchMeans | internal/server/project_control.go:2990-3027 | a branch waits for its parent unless the parent is claimed or running |
| ContractOutcomes.ComposedMeans | internal/server/project_control.go:3031-3068 | composing needs finished sources of one project, and the task waits for them |
| ContractOutcomes.EditMeans | internal/server/project_control.go:3267-3285 | a contract is edited only by a person, at the current version, while nobody works on the task, to one that stands |
| LeaseOutcomes.RowMeans | internal/controlplane/claims.go:144-329 | for each operation: which leases are new, given back, found overdue or renewed for two minutes, and that nothing else of a lease changes |
| StoreOutcomes.ViewMeans | internal/server/project_control.go:4868-4884 | which of log entry, document and older layout is in force |
| StoreOutcomes.LoadedMeans | internal/server/project_control.go:1983-1996 | every run settled: no start, begun more than a second before the process, or going for more than 150 seconds; data kept, stamped anew exactly when one was cut off |
| StoreOutcomes.SaveMeans | internal/server/project_control.go:4980-5013 | a complete save leaves the document, the one before as backup, and no log entry |
| StoreOutcomes.LoadMeans | internal/server/project_control.go:4916-4978 | a complete load leaves what it returns and no log entry, and changes nothing where nothing has to be written |
| CompactionOutcomes.SurvivesExactly | internal/server/project_control.go:4300-4515 | events, attempts and runs survive exactly while running, of no task, or with fewer than 64, 12 and 12 younger ones |
| CompactionOutcomes.ArtifactSurvivesExactly | internal/server/project_control.go:4553-4629 | an artifact survives exactly when it is needed, or its older unneeded ones bring the task down to 24 |
| CompactionOutcomes.MemoryMeans | internal/server/project_control.go:4631-4674 | memories only of existing tasks with something folded away, their window no wider than what was given away |
| HandoffOutcomes.RecordMeans | internal/controlplane/handoff.go:271-316 | what is recorded, and what counts as the same paste |
| HandoffOutcomes.PromoteMeans | internal/server/terminal_handoff.go:596-660 | for each row: for which task it is tried, and that it is promoted to that one or left alone |
| HandoffOutcomes.OnlyPlannedReferences | internal/server/terminal_handoff.go:596-660 | every new reference has the fields of an attempt: target, source, relation, text and terminals |
| HandoffOutcomes.EachCountedOnce | internal/server/terminal_handoff.go:596-660 | promoted, failed and given up together count each row that waits, has a source, and is pinned or in the draft, once |
| HandoffOutcomes.AddMeans | internal/controlplane/handoff.go:158-211 | a repeated reference keeps its place, and its content unless new text comes with it |
| HandoffOutcomes.LinkMeans | internal/server/terminal_handoff.go:432-465 | a link promotes the one row that waits for its paste |

## Left out

- Projects with an empty takeover mode: the lease gate and the milestone rules return early for them.
- HTTP handlers, web sockets, JSON text, UI snapshots, dashboards and replay views.
- Running commands, tmux, git, fingerprints of file trees and workspace clones: results are parameters, and cancelling a running command is covered by letting any verdict come back.
- SQL itself: tables are maps and sequences with the declared unique constraints, and a transaction is one step that may fail. A transaction that fails before its commit changes nothing and is not a separate step.
- Random ids are fresh by assumption and hashes are taken to be injective.
- Leading and trailing white space of inputs is stripped before the modelled code; the model starts from stripped strings. Blank tests look at space, tab, newline and carriage return. Lengths are counted in characters.
- Times are integers. Stamps that are compared as text in the document are compared as integers, and blank stamps of history items are not modelled.
- Human-readable fields: summaries, next steps and event details, except event ids that decide whether something is repeated.
- Workstreams, sessions and terminals of tasks; `bindTaskSessionExclusive` only moves labels.
- Legacy approval import, hydration of approvals and the older checkpoint decision path.
- Migration of legacy evidence before compaction: the model starts after it. A waiting tool run counts as closed, as in the source. Items are identified by numbers in the order of their ids, and the tasks of a document come as a list of distinct ids in sorted order.
- Normalisation of the document and of workspace records is one flag, `tidy`, in `DurableStore`. The completion time of a recovered tool run, and the version and event its task gets with it, are not told apart from the run's being cut off.
- Skill, runbook and workstream checks of task creation (`internal/server/project_control.go:3096-3106`), which can refuse a task as well.
- Operations on tasks that the protocol does not spell out are one step, admitted only if it claims nothing and marks nothing passed, keeps ids and projects, and keeps the command of a claimed or passed task; in the source only the claim sets that dispatch state and only the verdict sets that mark.
- The acceptance status, which can refuse a cancellation as well, is not part of the protocol's tasks; the runbook and the projection have their own. The step for other operations in `Protocol` may change dependencies freely; that they stay sound is proved in `TaskRuns` and not used there.
- Between projections other changes of the document may rewrite it freely, but they drop events only through compaction. A decision recorded under the name of an artifact event pauses nothing, since no artifact lacks an id.
- The path set of the dependency search is a field of a search object instead of a captured variable.
- Roles, write access and workspace kinds of phases only decide whether a tool can start, which is a parameter.
- The order of pending handoffs is the order of their creation.
- The check that one shared project directory has one writer is modelled at the claim; phase start checks it as well, and completing or failing a phase does not.
- A sweep followed by a crash before the expiry is handled loses the pause of the task; the run simply has no `Expire` step, and no safety statement depends on it.
- Auth, configuration, Telegram, file browser, roots, system statistics, agent configuration and probing, and the command line.
