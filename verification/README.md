# WorkBuddy: a verified model

WorkBuddy turns incoming mail into missions. A mission is planned as work items with dependencies, worked on by
agent runs, reviewed by a lead, approved by its owner and, if it is risky, ends in one external mail send. Around that
core stand an audit log with a hash chain, an outbox, metering and invoices, on-call schedules, release gates and an
observation window. This project models those parts in Dafny and proves what they promise.

How the parts are modelled:

- **One state, one outcome per call.** For the two mission protocols a specification function says what every call does
  to a database value, or that it raises. A raise changes nothing, because the request-scoped session rolls back
  (`src/workbuddy/api/deps.py:38-56`). Classes (`MissionDesk.Desk`, `SendDesk.Desk`, `GateDesk.Desk`, …) hold the rows as
  fields and change them step by step, in the order and with the branches of the services; each method is proved to do
  what the specification says and to keep the invariant of its rows (`Valid`). Runs are arbitrary sequences of calls,
  including calls that raise.
- **Ends and histories.** The specification functions are in turn proved against statements that do not use them:
  `MissionEffects` and `SendEffects` say when each call commits and what it leaves in statuses, edges, times, counts and
  outcomes of the provider; `MissionHistory`, `SendHistory` and `GateHistory` explain every row of every run by the calls
  that were made.
- **Provider sends survive a rollback.** The send log of `SendFlow` is ghost state that no raise undoes. Every call point
  of an execution (policy check, account, token, send, verify, evidence, usage record) has an arbitrary outcome, a broken
  database session included.
- **Branches on stored values** read what is stored: the risk level of the mission, the evidence requirements of its items,
  everything ever submitted for them, and the mail account and sender of the mail it answers. Those two change only when a
  mailbox is synchronised (`src/workbuddy/services/mail_sync.py:123-124`), which may happen at any point of a run; what can
  still be reached is stated with and without it. Settings, pauses, models, providers and people are free.
- **Hashes and signatures** are arbitrary injective functions of the value that is hashed or signed.
- **Times** are integers counted in microseconds, quantities are unbounded, transactions are serial.
- **Queries** with an ORDER BY are a stable sort (`Sorting`), proved to keep the rows and to put them in order; rows that tie
  keep their table order.

What the proofs show beyond the code's own claims:

- Some items can never be accepted any more: those that failed; those for which a disputed claim was ever submitted,
  since nothing takes evidence back; and those with prerequisites that were sent back, blocked, or submitted short of the
  quality gate. Their mission never reaches the lead review. `MissionTheorems.ReviewReachableIff` proves that this is
  exactly when it cannot, and `StuckRuns` that each of these cases happens to every item of every plan (to every item with
  prerequisites) in some run of a fresh mission. The WAITING branch of `start_work_item` is never the one that goes
  through: a waiting item always has an open prerequisite.
- The quality gate asks for 80 percent coverage but rounds first, so 79.5 percent pass (`Quality.PassesIff`). Accepted items
  keep their coverage (`MissionTheorems.AcceptedMeansVerified`).
- A timed-out run keeps its tool grants; every other closed run has them revoked (`OneLiveRunPerRunningItem`). Every item of
  every plan can time out (`StuckRuns.EveryItemCanTimeOut`).
- Over all services together, mail goes out only for a plan whose items are all accepted with the evidence they require
  (`JointRuns.MailNeedsFinishedPlan`), and `JointReach.MailReachableIff` says exactly when it can still go out. From a
  fresh mission it can iff the mission is at high risk and answers a mail that has a mail account and a sender
  (`FreshMailReachableIff`); otherwise there is never anything to approve (`SendTheorems.LowRiskNeverAsks`) or every
  operation is a demonstration (`UnanswerableNeverSends`). An approved mission whose stored action was rewritten before an
  operation was prepared is lost: it can only be cancelled.
- Writing INVALIDATED just before a raise has no effect: no reachable approval has that status (`SendSafety.ApprovalSound`).
- If the transaction of an execution cannot be completed after the mail went out (the flush of its gate evidence, the usage
  record or the final commit fails), it is rolled back and a retry sends again. `SendCounts.ExactSends` counts the sends
  exactly, and `SendCounts.EveryLossRepeatsSend` shows that any number of such losses happens.
- An invoice takes its quotas from the plan of the active subscription, not from the plan it bills. A cancelled subscription
  is billed without the overage it ran up (`CancelledOverageIsLost`). `OwnOveragesIff` gives the exact condition under
  which an invoice charges the overages of its own plan: both plans limit every metric with a rate alike.
- More usage can make an invoice cheaper exactly when the invoiced plan rates a metric negatively that the active plan
  entitles (`MonotoneUnlessCredited`).
- The verifier reads one tenant's rows. Moving the last event to another tenant, deleting it, rewriting it or adding one goes
  unnoticed if the chain is linked anew; every other change of one row is noticed, and `AuditChain.OneRowEdited` says at
  which event.
- A reset observation window never completes, and while it is observed no other window of its program can be started
  (`OnceResetNeverCompletes`); every window under observation is one check away from that (`EveryWindowCanBeReset`).
- For a period of no length `oncall_coverage_complete` answers true iff some primary shift overlaps it.

Modules: `Basics`, `Sorting`; `Graphs`, `Kahn`, `Planner`, `Governance` (plan graph); `Lifecycles` (transition tables);
`Quality` (quality gate); `MissionFlow`, `MissionSafety`, `MissionEffects`, `MissionHistory`, `MissionTheorems`,
`MissionMoves`, `StuckRuns`, `MissionDesk` (planning, execution, scheduler); `SendFlow`, `SendSafety`, `SendEffects`,
`SendHistory`, `SendTheorems`, `SendCounts`, `SendReach`, `SendDesk` (approval to send); `MissionBridge`, `JointRuns`,
`JointReach` (both together); `AuditChain`; `Subscriptions`, `Metering`, `Invoicing`, `PaidLedger`; `OnCall`; `Gates`,
`GateHistory`, `GateDesk`; `Observation`; `Outbox`; `SupportingTeams`.

## Model

| member | source | states |
|---|---|---|
| Planner.ValidateAcyclic | src/workbuddy/services/planner.py:15-34 | For any plan, duplicate keys, repeated dependencies and self-loops included: accepted iff all dependencies are known and no dependency cycle exists; otherwise names the first unknown one or reports a cycle |
| Planner.ReadDependencies | src/workbuddy/services/planner.py:16-23 | The reading loop fills in-degrees and adjacency lists with exactly the edges of the plan, or stops at the first unknown dependency |
| Planner.PlanEdgesAre | src/workbuddy/services/planner.py:19-23 | The edges of a plan run from every listed dependency to the item that lists it, and there are no others |
| Governance.DetectCycle | src/workbuddy/services/governance.py:94-104 | The last-in first-out check answers true iff the edges contain a cycle or start outside the node set |
| Governance.ChecksAgree | src/workbuddy/services/governance.py:94-104 | On every plan the first-in first-out and the last-in first-out check agree |
| Kahn.ZeroDegrees | src/workbuddy/services/planner.py:24 | The initial queue holds every node without incoming edges once |
| Kahn.Release | src/workbuddy/services/planner.py:28-31 | The inner loop keeps the queue equal to the released, untaken nodes, whatever the queue discipline |
| Kahn.TakeKeepsProgress | src/workbuddy/services/governance.py:99-100 | Taking any queued node keeps the taken nodes in topological order and every in-degree equal to its open edges |
| Kahn.EmptyQueueDecides | src/workbuddy/services/governance.py:104 | An empty queue with all nodes taken means no cycle, and the reverse |
| Graphs.StalledMeansCycle | src/workbuddy/services/planner.py:33-34 | A non-empty set of nodes that all have a predecessor in the set contains a cycle |
| Graphs.OrderMeansAcyclic | src/workbuddy/services/planner.py:33-34 | A topological order rules out every cycle |
| Graphs.FewerEdgesStayAcyclic | src/workbuddy/services/governance.py:81-91 | Removing a dependency cannot create a cycle |
| Graphs.NewEdgeClosesCycle | src/workbuddy/services/governance.py:68-71 | In an acyclic plan a new edge closes a cycle iff its target already leads to its source |
| Lifecycles.ActionStartedIsAbsorbing | src/workbuddy/domain/state_machine.py:107-112 | A legal status history that has started the external action, or was cancelled, stays within these statuses |
| Quality.PassesIff | src/workbuddy/services/quality.py:16-28 | An item with n evidence requirements and v verified claims over all its submissions passes the gate iff v > 0, 200 v >= 159 (n - 1) and none of its claims is disputed; an artifact is then there anyway |
| Quality.VerifiedIsCounted | src/workbuddy/services/quality.py:20-24 | The verified claims of a submission are counted one by one, repeated ones included |
| Quality.EnoughVerifiedPasses | src/workbuddy/services/quality.py:23-28 | As long as nothing is disputed, one more submission can make an item pass, whatever came before |
| Lifecycles.WhereApprovalIsReachable | src/workbuddy/domain/state_machine.py:96-113 | APPROVED is reachable by legal transitions iff the action has not started and the mission is not cancelled |
| Lifecycles.MissionSources | src/workbuddy/domain/state_machine.py:96-113 | From which statuses each mission status can be reached: the transition table read backwards |
| Lifecycles.WorkSources | src/workbuddy/domain/state_machine.py:115-125 | The same for work items |
| Lifecycles.RunSources | src/workbuddy/domain/state_machine.py:127-138 | The same for agent runs |
| Lifecycles.ApprovalSources | src/workbuddy/domain/state_machine.py:140-146 | The same for approval requests |
| Lifecycles.OperationSources | src/workbuddy/domain/state_machine.py:148-157 | The same for external operations |
| MissionDesk.Desk.constructor | src/workbuddy/services/mission_service.py:163-178 | A freshly routed mission satisfies the invariant |
| MissionDesk.Desk.CallKeepsValid | src/workbuddy/api/deps.py:38-56 | Every call, committed or rolled back, keeps the invariant and the foreign keys |
| MissionDesk.Desk.MissionTransition | src/workbuddy/services/_transitions.py:22-29 | Only a legal target is taken and it bumps the version; otherwise nothing changes |
| MissionDesk.Desk.WorkTransition | src/workbuddy/services/_transitions.py:32-39 | The same for one work item, all others untouched |
| MissionDesk.Desk.RunTransition | src/workbuddy/services/_transitions.py:42-49 | The same for one agent run |
| MissionDesk.Desk.AcceptMission | src/workbuddy/services/mission_service.py:229-232 | Version check, then ROUTED to LEAD_TRIAGE |
| MissionDesk.Desk.PlanMission | src/workbuddy/services/mission_service.py:235-253 | Replaces items, dependencies and runs by those of the plan, or rolls back on stale version, wrong status, missing resources, cycle, or a repeated key or dependency |
| MissionDesk.Desk.CreateItems | src/workbuddy/services/planner.py:95-130 | One draft row per plan entry; a repeated key is refused |
| MissionSafety.DraftsFollowPlan | src/workbuddy/services/planner.py:115-130 | In a plan without repeated keys every entry has a draft at version 1 with its own evidence requirements |
| MissionDesk.Desk.CreateDependencies | src/workbuddy/services/planner.py:131-137 | The dependency rows are exactly the plan's edges in order; a repeated pair is refused |
| MissionDesk.Desk.EditItem | src/workbuddy/services/governance.py:18-52 | Only while planning and at the expected version; sets the evidence requirements if given and bumps item, mission and plan versions |
| MissionDesk.Desk.AddDependency | src/workbuddy/services/governance.py:55-78 | Adds the edge from prerequisite to item iff both items are known and different, it is new and closes no cycle; an existing one is returned |
| MissionDesk.Desk.RemoveDependency | src/workbuddy/services/governance.py:81-91 | Removes exactly this edge while planning |
| MissionDesk.Desk.ApprovePlan | src/workbuddy/services/mission_service.py:256-267 | Items with prerequisites wait, the others are ready, the mission becomes READY; all or nothing |
| MissionDesk.Desk.StartExecution | src/workbuddy/services/mission_service.py:270-273 | Version and pause checks, then EXECUTING |
| MissionDesk.Desk.StartWorkItem | src/workbuddy/services/mission_service.py:276-311 | Starts iff all prerequisites are accepted and the status allows it, opening exactly one running run; otherwise raises the error of the branch taken |
| MissionDesk.Desk.Assign | src/workbuddy/services/mission_service.py:280-295 | Which statuses the start brings to ASSIGNED, with and without prerequisites |
| MissionDesk.Desk.SubmitAgentRun | src/workbuddy/services/mission_service.py:314-339 | Stores the artifact with the status of every claim, closes the run with context cleared and grants revoked and submits its item, or rolls everything back |
| MissionDesk.Desk.SaveArtifact | src/workbuddy/services/mission_service.py:320-333 | One artifact with one evidence row per claim, in order; an unreadable claim raises |
| MissionDesk.Desk.ExecuteAgentRun | src/workbuddy/services/executor.py:15-79 | A good output submits the item; a model failure closes the run and blocks its running item; a failure after the run left RUNNING raises and rolls back |
| MissionDesk.Desk.RequireWorkItemQuality | src/workbuddy/services/quality.py:16-28 | Passes iff the item has v > 0 verified claims over all its submissions, 200 v >= 159 (n - 1) for its n requirements, and no dispute |
| MissionDesk.Desk.ReviewWorkItem | src/workbuddy/services/mission_service.py:342-360 | Acceptance needs the quality gate over the stored evidence and releases exactly the waiting items whose last open prerequisite this was; refusal sends back |
| MissionDesk.Desk.ReleaseDownstream | src/workbuddy/services/mission_service.py:353-359 | The loop over dependent rows releases each such item once and no other |
| MissionDesk.Desk.SchedulerTick | src/workbuddy/services/scheduler.py:10-21 | Exactly the runs opened more than 600 seconds before close, exactly the running items with such a run fail, and the reply is the number of these runs |
| MissionDesk.ExpiredAreOverdue | src/workbuddy/services/scheduler.py:15-21 | The count of a tick is the number of running runs opened more than 600 seconds before |
| MissionDesk.Desk.LeadReviewMission | src/workbuddy/services/mission_service.py:363-372 | Passes only with at least one item and all of them accepted; asks for approval iff the stored risk level is high or critical, otherwise completes |
| MissionSafety.ReachableIsSound | src/workbuddy/services/mission_service.py:229-372 | In every run: the dependency rows are simple and acyclic, item statuses fit their prerequisites, runs fit their items, acceptance history is topological, every accepted item passes the quality gate, a reviewed mission has all items accepted |
| MissionSafety.StepKeepsSound | src/workbuddy/services/mission_service.py:229-372 | Every single call keeps all of this |
| MissionSafety.AcceptKeepsSound | src/workbuddy/services/mission_service.py:350-359 | Accepting an item keeps every waiting item waiting for something and every released item fully served |
| MissionSafety.DependencyEditsKeepSound | src/workbuddy/services/governance.py:55-91 | Adding and removing dependencies keeps the plan acyclic and without repeated rows |
| MissionEffects.StaleCallsRaise | src/workbuddy/services/mission_service.py:229-273 | A call that expects another version than the mission has raises a conflict, whatever else holds |
| MissionEffects.PausedStartsNothing | src/workbuddy/services/mission_service.py:270-311 | While paused neither the mission nor any item starts, and nothing changes |
| MissionEffects.PlanEnds | src/workbuddy/services/mission_service.py:235-253 | A plan is taken iff the version fits, the mission is in triage or planning, everything named exists, dependencies are known, without cycle or repetition, and no key occurs twice; what it leaves, versions included |
| MissionEffects.PlanRefusals | src/workbuddy/services/mission_service.py:235-253 | Which error a refused plan raises |
| MissionEffects.EditEnds | src/workbuddy/services/governance.py:18-52 | When an edit commits and every value it changes |
| MissionEffects.AddEnds | src/workbuddy/services/governance.py:55-78 | A dependency is added iff the mission is planning, both items are known and the item does not already lead to the prerequisite; afterwards the edge from prerequisite to item is there, and nothing else is new |
| MissionEffects.RemoveEnds | src/workbuddy/services/governance.py:81-91 | Exactly the named edge of a mission in planning is gone |
| MissionEffects.ApproveEnds | src/workbuddy/services/mission_service.py:256-267 | A plan is approved iff the version fits and the mission is planning with at least one item; items with a prerequisite wait, all others are ready |
| MissionEffects.StartEnds | src/workbuddy/services/mission_service.py:276-311 | An item starts iff it is known, not paused, all its prerequisites are accepted and its status is one the start leaves; it then runs, with one new run opened at that time |
| MissionEffects.StartRefusals | src/workbuddy/services/mission_service.py:276-295 | Which error a refused start raises |
| MissionEffects.SubmissionEnds | src/workbuddy/services/mission_service.py:314-339 | A submission commits iff the run is running and every claim can be read; the item is SUBMITTED, the run closed, cleared and without grants, the artifact stored |
| MissionEffects.ExecutionEnds | src/workbuddy/services/executor.py:15-79 | A readable model output whose usage is recorded ends SUBMITTED with its artifact, a model failure ends BLOCKED without one, and anything else raises |
| MissionEffects.RunRefusals | src/workbuddy/services/executor.py:60-79 | Which error a refused submission or execution raises; a run left half way cannot be closed by the handler |
| MissionEffects.ReviewEnds | src/workbuddy/services/mission_service.py:342-360 | A review commits iff the item is submitted and, to be accepted, has the evidence in plain numbers; the accepted item releases exactly the waiting items with no open prerequisite left |
| MissionEffects.TickEnds | src/workbuddy/services/scheduler.py:10-21 | A tick closes exactly the running runs opened more than 600 seconds before, leaves their grants and fails their items, and touches nothing else |
| MissionEffects.AcceptanceEnds | src/workbuddy/services/mission_service.py:229-232 | Commits iff the version fits and the mission is ROUTED; ends in LEAD_TRIAGE |
| MissionEffects.BeginningEnds | src/workbuddy/services/mission_service.py:270-273 | Commits iff the version fits, nothing is paused and the mission is ready, in lead review or waiting for approval; ends in EXECUTING |
| MissionEffects.LeadReviewEnds | src/workbuddy/services/mission_service.py:363-372 | Commits iff the version fits, the mission is executing and has items, all accepted; risk high or critical asks for approval, any other completes |
| MissionEffects.OtherRefusals | src/workbuddy/services/mission_service.py:342-372 | Which error every other refused call raises |
| MissionHistory.RunsWereStarted | src/workbuddy/services/mission_service.py:296-311 | In every run each agent run was opened by a committed start of its item at the time the run carries |
| MissionHistory.TimeOutsAreLate | src/workbuddy/services/scheduler.py:15-20 | In every run an agent run closed by the scheduler was opened by a start of its item at some time t and closed by a later tick at more than t + 600 seconds |
| MissionHistory.EarlyTicksSpare | src/workbuddy/services/scheduler.py:15-20 | A tick at most 600 seconds after the start of a run leaves the run and its item as they were |
| MissionHistory.StatusesHaveCauses | src/workbuddy/services/mission_service.py:256-360 | In every run each item has its status from a committed call that gives it: accepted by an accepting review, failed only by a tick that found its run overdue, and so on |
| MissionTheorems.TransitivePrereqsAccepted | src/workbuddy/services/mission_service.py:279-296 | Every transitive prerequisite of an item past waiting is accepted |
| MissionTheorems.AcceptanceIsTopological | src/workbuddy/services/mission_service.py:342-372 | In every run items are accepted in topological order, each once, and a mission at or past the lead review has all accepted |
| MissionTheorems.NoLostWakeUp | src/workbuddy/services/mission_service.py:352-359 | In every reachable state a waiting item has an open prerequisite, and starting it raises |
| MissionTheorems.AcceptedMeansVerified | src/workbuddy/services/quality.py:20-28 | In every run an accepted item has v > 0 verified claims, 200 v >= 159 (n - 1) for its n requirements, and no disputed claim, also later on |
| MissionTheorems.OneLiveRunPerRunningItem | src/workbuddy/services/mission_service.py:296-339 | In every run an item is RUNNING iff exactly one of its runs is, all its other runs are closed with context cleared, and only timed-out runs keep tool grants |
| MissionTheorems.SomethingCanMove | src/workbuddy/services/mission_service.py:276-296 | Some item unaccepted, and none failed, or sent back or blocked with prerequisites: some item is running, submitted or can be started |
| MissionTheorems.NoDeadlock | src/workbuddy/services/mission_service.py:256-296 | The same for every reachable state of an approved plan |
| MissionTheorems.StuckForever | src/workbuddy/services/mission_service.py:280-351 | A failed or disputed item, or one with prerequisites that was sent back, blocked or submitted short of the gate, is never accepted in any continuation |
| MissionTheorems.FinishAll | src/workbuddy/services/mission_service.py:276-360 | While nothing is stuck some sequence of calls, submissions that pass the gate among them, accepts every item |
| MissionTheorems.ReviewReachableIff | src/workbuddy/services/mission_service.py:276-372 | From any reachable approved state the lead review can still be reached iff no item failed, is disputed, or has prerequisites and was sent back, blocked or submitted short of the gate |
| MissionMoves.OnlyLegalMoves | src/workbuddy/services/scheduler.py:16-20 | Every call, the FAILED status the scheduler writes directly included, moves each item and run along the transition tables, with as many changes as its version grows |
| MissionMoves.EditsMoveNothing | src/workbuddy/services/governance.py:46-48 | An edit bumps the version of at most one item and changes no status |
| StuckRuns.PlanIsReached | src/workbuddy/services/mission_service.py:235-267 | From every drafted mission every valid plan can be planned and approved, with nothing stuck |
| StuckRuns.EveryItemCanTimeOut | src/workbuddy/services/scheduler.py:12-20 | From every fresh mission every item of every valid plan can time out, which leaves it stuck and its closed run with its tool grants |
| StuckRuns.EveryItemCanBeDisputed | src/workbuddy/services/mission_service.py:326-333 | The same for an item submitted with one disputed claim: it waits for a review that can never accept it |
| StuckRuns.EveryDependentItemCanStick | src/workbuddy/services/mission_service.py:280-351 | Every item with prerequisites can get stuck without any dispute: submitted without evidence, sent back, or blocked |
| SendDesk.Desk.MissionTransition | src/workbuddy/services/_transitions.py:22-29 | Legal target and version bump, or nothing |
| SendDesk.Desk.OperationTransition | src/workbuddy/services/external_actions.py:23-42 | Only a legal target is taken, other operations untouched |
| SendDesk.Desk.LeadReview | src/workbuddy/services/mission_service.py:363-400 | Below high risk the mission completes; otherwise the reply to the source mail, with its account, sender and title, is put up for approval, bound to the mission version and to its hash |
| SendDesk.Desk.DecideApproval | src/workbuddy/services/mission_service.py:403-423 | Approval approves request and mission, a rejection or a wish for changes returns the mission to execution; a changed mission version raises, and the INVALIDATED write before it does not survive |
| SendDesk.Desk.ExpireApprovals | src/workbuddy/services/scheduler.py:22-25 | Exactly the pending requests past their time expire |
| SendDesk.Desk.PrepareExternalOperation | src/workbuddy/services/external_actions.py:45-102 | Checks status, version and content hash, returns an existing operation for a known key, otherwise freezes the approved action; without a mail account it is a demonstration, a live one needs an addressee |
| SendDesk.Desk.ExecuteExternalOperation | src/workbuddy/services/external_actions.py:105-256 | The whole execution, refusals included, is the specified outcome for every behaviour of the provider |
| SendDesk.Desk.TryProvider | src/workbuddy/services/external_actions.py:175-256 | However the try block ends, operation, attempt and mission end in matching statuses; it raises only when the session is broken or usage recording fails after success |
| SendDesk.Desk.ProviderBlock | src/workbuddy/services/external_actions.py:176-222 | The first call point that fails decides; the send is logged iff it was reached |
| SendDesk.Desk.HandleException | src/workbuddy/services/external_actions.py:223-256 | A 4xx, policy or configuration error ends FAILED, everything else UNKNOWN; illegal once the operation had succeeded, impossible on a broken session |
| SendDesk.Desk.VerifyUnknownExternalOperation | src/workbuddy/services/external_actions.py:259-290 | Settles an unknown operation and its mission together as succeeded or failed; rolls back if the evidence of a success cannot be recorded |
| SendDesk.Desk.CallKeepsValid | src/workbuddy/services/external_actions.py:45-290 | Every call keeps the invariant of the protocol |
| SendSafety.HashesNameContent | src/workbuddy/services/policies.py:49-65 | Each of the four hashes agrees iff the part of the mail it stands for agrees, recipients up to order; equal parameters mean equal hashes throughout |
| SendSafety.FittingHashesFixContent | src/workbuddy/services/external_actions.py:127-133 | When the stored hashes fit, the parameters are the reviewed action and the mission is APPROVED |
| SendSafety.ExecuteKeepsSound | src/workbuddy/services/external_actions.py:105-256 | An execution keeps the invariant for every behaviour of the provider |
| SendSafety.StepKeepsSound | src/workbuddy/services/external_actions.py:45-290 | So does every call, every lost commit, and every rewriting of stored actions or parameters |
| SendSafety.ReachableIsSound | src/workbuddy/services/external_actions.py:45-290 | The invariant holds in every run |
| SendEffects.ReviewEnds | src/workbuddy/services/mission_service.py:363-400 | A review completes a mission, or at high or critical risk leaves one pending request for the reply to the source mail, bound to the present version, hashed as it is and open for two days |
| SendEffects.DecisionEnds | src/workbuddy/services/mission_service.py:403-423 | A decision commits iff the request is pending and bound to the present version; approve ends APPROVED/APPROVED, reject REJECTED/EXECUTING, a wish for changes CHANGES_REQUESTED/EXECUTING |
| SendEffects.ExpiryEnds | src/workbuddy/services/scheduler.py:22-25 | Exactly the pending requests past their time expire, and nothing else changes |
| SendEffects.PreparationEnds | src/workbuddy/services/external_actions.py:45-102 | A preparation commits iff the request is approved, the version fits and the hash is that of the stored action; a known key changes nothing, a new one adds one operation with the approved action, a demonstration unless live sending is on and the action names an account |
| SendEffects.LiveExecutionEnds | src/workbuddy/services/external_actions.py:175-256 | How a live execution ends, over the outcomes of its call points alone: SUCCEEDED iff everything worked, FAILED iff the first point not to go through is a policy violation, a missing send scope, an unsupported provider, a missing configuration or an HTTP status below 500, UNKNOWN otherwise, rolled back iff the session breaks |
| SendEffects.OfflineExecutionEnds | src/workbuddy/services/external_actions.py:149-170 | A simulated interruption ends UNKNOWN, a demonstration SUCCEEDED, and neither sends |
| SendEffects.VerificationEnds | src/workbuddy/services/external_actions.py:259-290 | Verifying commits iff the operation is unknown and, for a live success, its evidence is recorded; it settles operation and mission as told |
| SendEffects.ResyncEnds | src/workbuddy/services/mail_sync.py:123-124 | A synchronisation writes account and sender of the source mail and nothing else |
| SendHistory.RequestsWereDecided | src/workbuddy/services/mission_service.py:403-423 | In every run a request is approved, rejected or returned only by a committed decision that says so, and expired only by a tick after its time |
| SendHistory.RequestsWereMade | src/workbuddy/services/mission_service.py:380-395 | In every run each request was made by a committed lead review and expires two days after it |
| SendHistory.OperationsWerePrepared | src/workbuddy/services/external_actions.py:45-102 | In every run each operation was prepared by a committed call for its request and key, while the request was approved |
| SendHistory.KeysAreUnique | src/workbuddy/services/external_actions.py:66-68 | In every run no two operations carry the same key |
| SendHistory.SendsWereApproved | src/workbuddy/services/external_actions.py:105-182 | In every run every send was preceded by a committed approval of its request and a later preparation of its operation |
| SendHistory.RunsKeepHashes | src/workbuddy/services/external_actions.py:68-95 | In every run the stored hashes of an operation are those of the reviewed action |
| SendHistory.ExecutionsStartIff | src/workbuddy/services/external_actions.py:117-133 | In every run an execution is tried iff the operation is untried, its mission is approved and has not moved on, and its stored content is the reviewed one; after success it returns what is there, otherwise it raises |
| SendTheorems.AtMostOneSend | src/workbuddy/services/external_actions.py:105-156 | Over every run at most one send per mission, plus one per transaction rolled back after a send; one recorded attempt per mission |
| SendTheorems.SentContentWasApproved | src/workbuddy/services/external_actions.py:63-95 | Every sent payload is the action whose hash an approved request carries, whatever was rewritten in between; demonstration operations never send |
| SendTheorems.LowRiskNeverAsks | src/workbuddy/services/mission_service.py:369-372 | The risk level never changes, and below high risk no run contains a request, an operation or a send |
| SendTheorems.UnanswerableNeverSends | src/workbuddy/services/external_actions.py:71-95 | Without a mail account or a sender of the source mail, and no later synchronisation, every operation of every run is a demonstration and nothing is sent |
| SendTheorems.RequestsKeepTheirTerms | src/workbuddy/services/mission_service.py:388-395 | The reviewed action, hash and bound version of a request never change |
| SendTheorems.AttemptEndsInLockstep | src/workbuddy/services/external_actions.py:134-256 | A started attempt ends SUCCEEDED/COMPLETED, FAILED/FAILED or UNKNOWN/UNKNOWN with the send logged iff the provider was asked; it raises exactly when its transaction cannot be completed |
| SendTheorems.OnlyLegalTransitions | src/workbuddy/domain/state_machine.py:96-157 | Whatever the provider does, every call moves mission, approvals and operations along the transition tables only, the mission by exactly as many changes as its version grows |
| SendTheorems.OperationMovesAreLegal | src/workbuddy/domain/state_machine.py:148-157 | The move one call makes with an operation is a chain of legal transitions |
| SendTheorems.UnknownWaitsForVerification | src/workbuddy/services/external_actions.py:259-290 | Only verification leaves UNKNOWN, it settles operation and mission alike unless recording its evidence raises, and nothing is sent meanwhile |
| SendTheorems.StartedStaysStarted | src/workbuddy/domain/state_machine.py:107-112 | Once the external action started it stays started and no later call sends anything |
| SendCounts.ExactSends | src/workbuddy/services/external_actions.py:105-256 | In every run the number of sends is the number of transactions rolled back after a send, plus one iff a committed execution asked the provider, which happens at most once |
| SendCounts.EveryLossRepeatsSend | src/workbuddy/services/external_actions.py:206-222 | For every n there is a run with n lost transactions and n + 1 sends, so the bound is reached |
| SendReach.SendReachableIff | src/workbuddy/services/external_actions.py:45-156 | Seen from the sending side, some continuation still sends iff, before the approval, the mission is at high risk and its source mail has account and sender or such a request is waiting (or the mailbox may be synchronised again), and, while approved, a live operation fits or the request fits version and hash and can be sent |
| MissionBridge.SendStepsAreMoves | src/workbuddy/services/external_actions.py:45-290 | Every approval and sending call changes the mission row exactly by a chain of the moves that stand for it in the planning model |
| MissionBridge.MissionStepsAreStandIns | src/workbuddy/services/mission_service.py:229-372 | Every planning and execution call changes the mission row exactly by a chain of the events that stand for it in the sending model |
| JointRuns.JointRunsAreSound | src/workbuddy/services/mission_service.py:229-423 | In every interleaving of planning, execution, approval and sending calls both sides hold the same mission row and both invariants |
| JointRuns.MailNeedsFinishedPlan | src/workbuddy/services/external_actions.py:105-182 | A call that makes the provider send starts from an APPROVED mission with at least one item, all items accepted and all passing the quality gate |
| JointRuns.SentMeansFinished | src/workbuddy/services/external_actions.py:105-182 | Once mail was sent, every item stays accepted whatever is called |
| JointReach.MailReachableIff | src/workbuddy/services/external_actions.py:45-182 | Over all services, some continuation still sends iff, before the approval, no item is stuck, the risk is high, and the source mail has account and sender or such a request is waiting (or the mailbox may be synchronised again), and, while approved, a live operation or a sendable request still fits; afterwards never |
| JointReach.FreshMailReachableIff | src/workbuddy/services/mission_service.py:163-381 | From a fresh mission mail can be sent iff it is at high risk and its source mail has a mail account and a sender |
| AuditChain.AuditTrail.AppendAudit | src/workbuddy/services/audit.py:18-55 | Puts one event at the end of its tenant's log and one row into the outbox, leaves all other logs alone, and neither breaks nor repairs the chain |
| AuditChain.NoticeSaysIt | src/workbuddy/services/audit.py:48-53 | The outbox row carries the tenant, aggregate, time and payload of the event and its id, and is named after the action unless the caller names it otherwise |
| AuditChain.AuditTrail.VerifyAuditChain | src/workbuddy/services/audit.py:58-77 | Accepts exactly the tenants whose rows, in order of their numbers, are well linked; otherwise names the first event that breaks the chain |
| AuditChain.BuiltLogsAreAccepted | src/workbuddy/services/audit.py:26-55 | However appends of several tenants interleave, every tenant's log is accepted and holds exactly its entries in order |
| AuditChain.HashFixesHistory | src/workbuddy/services/audit.py:64-76 | Accepted logs that agree on one event hash at the same position agree on the whole history before it |
| AuditChain.OneRowEdited | src/workbuddy/services/audit.py:58-77 | For any edit of any one row of the whole table, its tenant and number included, what the verifier then says of each tenant accepted before: accepted, or which event it names |
| AuditChain.OneRowChanged | src/workbuddy/services/audit.py:58-77 | The same for any table that differs by one row of the tenant, such as one with a row deleted or inserted |
| AuditChain.RemovalIsNamed | src/workbuddy/services/audit.py:61-63 | A removed event is noticed at the one that took its place, iff it was not the last |
| Subscriptions.ActiveIsYoungestLive | src/workbuddy/services/commercial/billing.py:38-42 | The active subscription is the youngest live one, and there is none iff no subscription is live |
| Metering.Meter.RecordUsage | src/workbuddy/services/commercial/billing.py:89-103 | Negative amounts raise, a known key returns the stored record, otherwise one row under the active subscription is added |
| Metering.Meter.UsageSummary | src/workbuddy/services/commercial/billing.py:106-122 | The groups are exactly the sums of the period per metric, with the period's defaults, and there is one quota per numeric entitlement of the active plan |
| Metering.Meter.QuotaAllows | src/workbuddy/services/commercial/billing.py:125-130 | True without a limit on the active plan, otherwise iff the increment fits |
| Metering.GroupByMetric | src/workbuddy/services/commercial/billing.py:110-113 | Grouping yields one row per metric with its sums |
| Metering.WindowIsHalfOpen | src/workbuddy/services/commercial/billing.py:110-112 | A period holds exactly the records from its start up to, but not including, its end |
| Metering.FirstCallWins | src/workbuddy/services/commercial/billing.py:89-103 | After any calls the table holds exactly the first admissible call of every key, each once |
| Metering.ReplaysChangeNothing | src/workbuddy/services/commercial/billing.py:92-94 | Replays slipped anywhere into a stream of calls leave the table, and so every sum, unchanged |
| Metering.PeriodsAddUp | src/workbuddy/services/commercial/billing.py:110-112 | Usage and cost over [a,c) are the sums over [a,b) and [b,c) |
| Metering.GroupsAddUp | src/workbuddy/services/commercial/billing.py:152 | The costs of the groups, in any order, add up to the cost of all records of the period |
| Metering.QuotasBalance | src/workbuddy/services/commercial/billing.py:117-121 | consumed + remaining = included + overage for every quota, and one of the two slacks is zero |
| Metering.AllowedMeansNoOverage | src/workbuddy/services/commercial/billing.py:125-130 | An increment is allowed iff recording it leaves no overage |
| Invoicing.Biller.BuildInvoice | src/workbuddy/services/commercial/billing.py:133-177 | At most one invoice per subscription period and number; a new one is a draft over the period of the subscription, priced by the invoiced plan's cycle and rates on the usage of that period against the active plan's quotas |
| Invoicing.Biller.Drawn | src/workbuddy/services/commercial/billing.py:144-174 | Subtotal is the sum of the lines and the formula over usage; tax is the floor; total is their sum |
| Invoicing.Biller.OverageLines | src/workbuddy/services/commercial/billing.py:145-151 | The quota loop produces one line per overage with a rate and accumulates their amounts |
| Invoicing.LinesAddUp | src/workbuddy/services/commercial/billing.py:143-157 | The line amounts add up to base + sum over the active plan's quotas of overage times rate + max(0, cost - included) |
| Invoicing.LinesSayWhatIsCharged | src/workbuddy/services/commercial/billing.py:145-157 | Every overage of an active entitlement with a rate has its line, every line has its reason, one base line first, the model cost last |
| Invoicing.LinesArePriced | src/workbuddy/services/commercial/billing.py:143-157 | The first line is the annual or the monthly price; every rated use beyond an active limit has a line of quantity, rate and their product, and no other use has; the model cost line is the cost beyond what the plan includes, iff there is any |
| Invoicing.IncludedIsTheEntry | src/workbuddy/services/commercial/billing.py:153 | The included model cost is the plan's entry model_cost_cny_fen, and zero without one |
| Invoicing.RegionsPay | src/workbuddy/services/payments/tax_engine.py:15-38 | Singapore pays 9 percent, Hong Kong, the United States and the exempt nothing, every other region 13, in upper or lower case; without a region the given points count unless negative |
| Invoicing.OwnOveragesIff | src/workbuddy/services/commercial/billing.py:106-151 | For every usage table an invoice has the overage lines and the subtotal of its own plan's limits, iff the active plan has the same limit, or none, on every metric with a non-zero rate |
| Invoicing.ActiveChargesOwn | src/workbuddy/services/commercial/billing.py:38-42 | The condition holds for the active subscription |
| Invoicing.CancelledOverageIsLost | src/workbuddy/services/commercial/billing.py:106-151 | A cancelled subscription with 600 of 500 included runs is billed 99900 instead of 109900 |
| Invoicing.UsageNeverLowersTotal | src/workbuddy/services/commercial/billing.py:143-174 | Without negative rates on actively entitled metrics, records added anywhere in the period never lower the total |
| Invoicing.MonotoneUnlessCredited | src/workbuddy/services/commercial/billing.py:147-151 | The total is monotone in usage iff the invoiced plan rates no actively entitled metric negatively |
| PaidLedger.Ledger.TransitionInvoice | src/workbuddy/services/commercial/billing.py:180-197 | Legal targets only, payment needs a reference or evidence, one ledger event per key |
| PaidLedger.TransitionsAre | src/workbuddy/services/commercial/billing.py:184-189 | A draft is opened or voided, an open invoice voided, or paid with a reference or evidence; nothing else goes through |
| PaidLedger.Ledger.VerifyBillingWebhook | src/workbuddy/services/commercial/billing.py:200-220 | Pays only an OPEN invoice it names; every other webhook changes nothing; which reply is given when |
| PaidLedger.LedgerIsBalanced | src/workbuddy/services/commercial/billing.py:180-220 | Over any interleaving an invoice is PAID iff exactly one payment event exists for it, and payments add up to the totals of paid invoices |
| PaidLedger.PaidOnlyWithProof | src/workbuddy/services/commercial/billing.py:180-220 | In every run an invoice is PAID only after a call opened it and a later one paid it with a provider reference, evidence, or a verified webhook |
| PaidLedger.PaidAndVoidAreFinal | src/workbuddy/services/commercial/billing.py:184-189 | PAID and VOID are final, nothing but the status of an invoice changes, the ledger only grows |
| OnCall.OncallCoverageComplete | src/workbuddy/services/oncall.py:53-67 | For days > 0 true iff every instant of the period lies in some primary shift; for other periods iff some primary shift overlaps |
| OnCall.SelectedIsTheQuery | src/workbuddy/services/oncall.py:57 | The selected shifts are exactly the overlapping ones, in order of start |
| GateDesk.Desk.SubmitEvidence | src/workbuddy/services/pilot.py:127-150 | Unknown gates and types are refused; new evidence is pending |
| GateDesk.Desk.RecordSystemGateEvidence | src/workbuddy/services/pilot.py:456-488 | System evidence for gate D counts as verified at once, other types are ignored |
| GateDesk.Desk.VerifyEvidence | src/workbuddy/services/pilot.py:153-168 | Marks exactly one row; unknown ids and decisions are refused |
| GateDesk.Desk.AttestGate | src/workbuddy/services/pilot.py:282-310 | Only a required role; one row per gate and role with actor, decision and time, bound to the present snapshot and signed iff for general availability; all other rows stay |
| GateDesk.Desk.VerifiedEvidenceByType | src/workbuddy/services/gates.py:20-39 | One entry per verified type, the newest row of it |
| GateDesk.Desk.EvaluateGate | src/workbuddy/services/pilot.py:344-396 | Ready iff evidence, roles and automatic checks all hold; the missing lists and the three part results are exact; the production recursion ends |
| GateDesk.Desk.AutomaticChecks | src/workbuddy/services/pilot.py:361-382 | The checks of each pilot gate; the production gate asks the other three |
| GateDesk.Desk.ApprovedRoles | src/workbuddy/services/commercial/ga.py:85-103 | A role counts iff its attestation approves, carries the present snapshot and its signature, if any, verifies |
| Gates.OrderedByTypeAndTime | src/workbuddy/services/gates.py:46-52 | In the hashed list types stand in the order of their characters, and rows of one type by time of observation |
| GateDesk.Desk.GoNoGoReport | src/workbuddy/services/pilot.py:399-416 | GO iff all four gates are ready and no severe incident is open; the blockers name exactly the unready gates |
| Gates.SnapshotIsTheSet | src/workbuddy/services/gates.py:42-56 | Two snapshots of a growing table agree iff the verified evidence of the gate is the same set |
| Gates.SlotHoldsLastAttest | src/workbuddy/services/pilot.py:291-304 | The stored attestation is the one of the last attesting call |
| Gates.RoleApprovesIff | src/workbuddy/services/pilot.py:353-358 | In every run a role approves iff its last attestation was APPROVE over the evidence set that holds now (and, signed, under the key in force) |
| Gates.ApprovalFollowsEvidence | src/workbuddy/services/pilot.py:353-358 | Without a new attestation an approval counts iff the verified set, and where signed the key, is the one approved: any change suspends it, restoring the set restores it |
| GateHistory.RowsWereBrought | src/workbuddy/services/pilot.py:127-168 | In every run each evidence row was brought by a call under a new id, and is verified iff its last judgement says so, or it is the system's own and was never judged |
| GateHistory.WhatIsBroughtIsStored | src/workbuddy/services/pilot.py:127-150 | In every run every call that brings evidence under a new id has its row |
| GateHistory.HasEvidenceIff | src/workbuddy/services/gates.py:20-39 | In every run a gate has verified evidence of a type iff some call brought it and it stands |
| GateHistory.VerifiedIdsStand | src/workbuddy/services/gates.py:42-56 | The set an approval is bound to is exactly the evidence that stands |
| GateHistory.RoleApprovesWhatStands | src/workbuddy/services/pilot.py:353-358 | In every run a role approves iff its last attestation was APPROVE over exactly the evidence that stands now, signed ones under the key of the last rotation |
| GateHistory.StageGatesReadyIff | src/workbuddy/services/pilot.py:361-376 | In every run gates B, C and D are ready iff all their evidence stands, all their roles approved it, and the counts of each, written out, are met |
| GateHistory.ProductionReadyIff | src/workbuddy/services/pilot.py:376-386 | In every run PRODUCTION is ready iff evidence, roles and counts of B, C and D hold as well as its own, and no more severe incidents are open than tolerated |
| GateHistory.GaGatesReadyIff | src/workbuddy/services/commercial/ga.py:79-106 | In every run a general-availability gate is ready iff its evidence stands and its roles approved it |
| GateHistory.GoMeansApproved | src/workbuddy/services/pilot.py:399-416 | In every run GO iff the evidence of all four gates stands and is approved by all their roles, every count is met and no severe incident is open |
| GateHistory.GatesOfRoles | src/workbuddy/services/pilot.py:43-48 | Which gates ask for each role |
| Observation.Program.StartObservationWindow | src/workbuddy/services/commercial/operations.py:148-158 | Returns the window under observation or starts one |
| Observation.Program.CheckObservationWindow | src/workbuddy/services/commercial/operations.py:161-186 | Counts severe incidents of all three tables, resets or completes or leaves the window |
| Observation.CompletionIsEarned | src/workbuddy/services/commercial/operations.py:172-184 | Completed means never reset, full length elapsed, and no severe incident between start and completion |
| Observation.CompletesExactlyWhen | src/workbuddy/services/commercial/operations.py:172-184 | A check completes a window iff nothing of this stands in the way |
| Observation.QuietMeansNoneCounted | src/workbuddy/services/commercial/operations.py:161-171 | Support tickets and pilot incidents count with P0 and P1, status incidents with critical and major, from the start of the window up to now, both included |
| Observation.ResetGrantsThirtyDays | src/workbuddy/services/commercial/operations.py:172-179 | A check that finds more incidents than the last one restarts the window for thirty days, however long it was meant to be; no other check moves its bounds |
| Observation.OnceResetNeverCompletes | src/workbuddy/services/commercial/operations.py:150-180 | Once reset, a window is observed for ever and no further window of the program exists |
| Observation.EveryWindowCanBeReset | src/workbuddy/services/commercial/operations.py:171-179 | For every window under observation there is a check that resets it, and the first call of a program starts one |
| Outbox.Publication.PublishBatch | src/workbuddy/services/outbox.py:12-38 | Exactly the oldest pending rows up to the limit are attempted, with the specified effect; the reply counts the rows published now and those that failed once more |
| Outbox.Publication.Attempt | src/workbuddy/services/outbox.py:23-36 | Success publishes, failure counts and dead-letters at the fifth attempt |
| Outbox.OldestFirst | src/workbuddy/services/outbox.py:13-36 | A batch touches no settled row, attempts what it touches exactly once, and takes no row before an older pending one |
| Outbox.CountsAreTrue | src/workbuddy/services/outbox.py:22-38 | The two counters are the numbers of rows that became published and of rows with one failure more |
| Outbox.SettledStaysSettled | src/workbuddy/services/outbox.py:13-36 | Never published and dead-lettered, never more than five attempts, a settled event is never touched again |
| Outbox.NoStarvation | src/workbuddy/services/outbox.py:16-36 | A pending event with k older ones is attempted within 5 * floor(k / limit) + 1 batches, whatever the publisher does and whatever is appended |
| Outbox.BoundIsMet | src/workbuddy/services/outbox.py:31-36 | For every limit and every queue without attempts yet, a publisher that is down makes the event wait exactly that long |
| Outbox.QueueDrains | src/workbuddy/services/outbox.py:16-36 | Without new events the queue is empty after as many batches as it has attempts left |
| SupportingTeams.DispatchDecision.constructor | src/workbuddy/services/mission_service.py:126-131 | A marker entry is appended iff there are keys |
| SupportingTeams.DispatchDecision.ExtractSupportingTeamKeys | src/workbuddy/services/mission_service.py:32-49 | Collects the keys of all markers and rewrites the reasons only if there are any |
| SupportingTeams.SurvivesIff | src/workbuddy/services/mission_service.py:32-49 | Extraction gives back exactly the stored keys and reasons iff all keys are non-empty and comma-free and no reason looks like a marker; without keys, iff no reason is a marker naming a key |
| SupportingTeams.ExtractsOnce | src/workbuddy/services/mission_service.py:46-49 | A second extraction finds nothing and changes nothing |

## Left out

- Routes, schemas, authentication, command-line scripts, migrations and the feishu application: plumbing. Only the commit and rollback rule of the session is modelled.
- Gmail, Graph, Stripe, object store and model calls: foreign systems, represented by arbitrary outcomes.
- SHA-256, HMAC and canonical JSON: arbitrary injective functions of the value; collisions and rendering are not modelled.
- Concurrent transactions, locks and isolation levels: calls are serial.
- Live-send policy checks beyond the one for an addressee (recipient allowlists, send limits, pilot preflight): one yes-or-no outcome each, because their rules bind neither order nor content.
- A work item is identified with its plan key, and replanning deletes dependencies and runs with the items and detaches their artifacts, as the foreign keys say.
- Texts (titles, reasons, error messages, agent output, evidence claims): only whether they can be read matters, and the verification status of a claim.
- MissionDesk.Desk.EditItem: states the guards, the version bumps and the number of evidence requirements, not the new values of the other edited fields, which no other modelled rule reads.
- SendDesk.Desk.LeadReview: the body text is an arbitrary parameter, not the one composed from the artifacts' summaries; every theorem holds for any text.
- Reading an address out of a sender header (email.utils.parseaddr): a sender without a readable address counts as none.
- Threading headers and the evidence count of a request: hashed with it, but no modelled rule reads them.
- Floating point in the coverage percentage: the quotient is rounded as an exact one, to even on a tie.
- Rows of other tenants, programs and missions: each class but the audit trail holds the rows of one; an operation key of another mission is the flag `keyUsedElsewhere`.
- Pilot and mailbox lookups before system evidence is recorded: the model starts where both were found.
- Dispatch accuracy of gate B: its rounded percentage is one flag; the other automatic checks compare their counts and targets.
- The general-availability go/no-go report beyond its gates (onboarding, legal, penetration test and subscription checks): a list of independent look-ups.
- Invoice number rendering: a given string of the subscription, the same for its period; a collision raises as the unique constraint does. Time zones and due dates are not modelled.
- Overage rates and targets given as text: only integers are modelled; a model-cost entitlement that is no number raises.
- Dispatch scoring, the numeric quality score and its dashboard, natural-language text and JSON-schema validation: library behaviour or floating point.
- Collaboration requests, constitutions, skills, support tickets and onboarding: each is a short linear status table whose steps touch no other modelled row.
- Creating and transitioning subscriptions: the subscriptions of a tenant are given in any state, cancelled ones included.
- The list of startable items a scheduler tick returns: a query over the statuses the model has.
- Tenant deletion and demo reset: they erase the history the run theorems speak of.
- Database failures at places other than the call points of an execution: `SendFlow.ExecuteLost` lets the final commit of any execution fail; elsewhere a failure is a raise that changes nothing.
- Outbox.Publication.PublishBatch: the publisher is an arbitrary outcome per row, of which the simulated failure by event type is one; rows stand in order of their time of occurrence and are appended with later times.
