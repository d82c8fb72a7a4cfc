/** The status tables and what follows from them about whole status histories. */
module Lifecycles {
  datatype MissionStatus =
    | Ingested | DispatchReview | Routed | LeadTriage | Planning | Ready | Executing | LeadReview
    | ApprovalRequired | Approved | ActionExecuting | Verifying | Completed | NeedsInformation
    | Blocked | Failed | Cancelled | Unknown

  datatype WorkStatus =
    | Draft | Ready | WaitingDependency | Assigned | Running | Submitted | Accepted
    | RevisionRequired | Blocked | Failed | Cancelled

  datatype RunStatus =
    | Created | ContextPrepared | Running | ToolWait | OutputSubmitted | Closed | TimedOut
    | Failed | Cancelled | Quarantined

  datatype ApprovalStatus =
    | Draft | Pending | Approved | Rejected | ChangesRequested | Expired | Invalidated | Cancelled

  datatype OperationStatus =
    | Prepared | PolicyReviewed | ApprovalRequired | Approved | Executing | Verifying | Succeeded
    | Blocked | Failed | Unknown | Cancelled

  function MissionTargets(s: MissionStatus): set<MissionStatus> {
    match s
    case Ingested => {MissionStatus.DispatchReview, MissionStatus.Cancelled}
    case DispatchReview => {MissionStatus.Routed, MissionStatus.NeedsInformation, MissionStatus.Cancelled}
    case Routed => {MissionStatus.LeadTriage, MissionStatus.Cancelled}
    case LeadTriage => {MissionStatus.Planning, MissionStatus.NeedsInformation, MissionStatus.Blocked,
                        MissionStatus.Cancelled}
    case Planning => {MissionStatus.Ready, MissionStatus.NeedsInformation, MissionStatus.Blocked,
                      MissionStatus.Cancelled}
    case Ready => {MissionStatus.Executing, MissionStatus.Cancelled}
    case Executing => {MissionStatus.LeadReview, MissionStatus.Blocked, MissionStatus.Failed, MissionStatus.Cancelled}
    case LeadReview => {MissionStatus.Executing, MissionStatus.ApprovalRequired, MissionStatus.Completed,
                        MissionStatus.Blocked, MissionStatus.Cancelled}
    case ApprovalRequired => {MissionStatus.Approved, MissionStatus.Executing, MissionStatus.Cancelled}
    case Approved => {MissionStatus.ActionExecuting, MissionStatus.Cancelled}
    case ActionExecuting => {MissionStatus.Verifying, MissionStatus.Failed, MissionStatus.Unknown}
    case Verifying => {MissionStatus.Completed, MissionStatus.Failed, MissionStatus.Unknown}
    case NeedsInformation => {MissionStatus.LeadTriage, MissionStatus.Planning, MissionStatus.Cancelled}
    case Blocked => {MissionStatus.LeadTriage, MissionStatus.Planning, MissionStatus.Executing, MissionStatus.Cancelled}
    case Unknown => {MissionStatus.Verifying, MissionStatus.Completed, MissionStatus.Failed}
    case Failed => {}
    case Cancelled => {}
    case Completed => {}
  }

  function WorkTargets(s: WorkStatus): set<WorkStatus> {
    match s
    case Draft => {WorkStatus.Ready, WorkStatus.Cancelled}
    case Ready => {WorkStatus.WaitingDependency, WorkStatus.Assigned, WorkStatus.Cancelled}
    case WaitingDependency => {WorkStatus.Assigned, WorkStatus.Blocked, WorkStatus.Cancelled}
    case Assigned => {WorkStatus.Running, WorkStatus.Blocked, WorkStatus.Cancelled}
    case Running => {WorkStatus.Submitted, WorkStatus.Blocked, WorkStatus.Failed, WorkStatus.Cancelled}
    case Submitted => {WorkStatus.Accepted, WorkStatus.RevisionRequired, WorkStatus.Blocked}
    case RevisionRequired => {WorkStatus.Assigned, WorkStatus.Cancelled}
    case Blocked => {WorkStatus.Ready, WorkStatus.Assigned, WorkStatus.Cancelled}
    case Accepted => {}
    case Failed => {}
    case Cancelled => {}
  }

  function RunTargets(s: RunStatus): set<RunStatus> {
    match s
    case Created => {RunStatus.ContextPrepared, RunStatus.Cancelled}
    case ContextPrepared => {RunStatus.Running, RunStatus.Cancelled, RunStatus.Quarantined}
    case Running => {RunStatus.ToolWait, RunStatus.OutputSubmitted, RunStatus.TimedOut, RunStatus.Failed,
                     RunStatus.Cancelled, RunStatus.Quarantined}
    case ToolWait => {RunStatus.Running, RunStatus.TimedOut, RunStatus.Failed, RunStatus.Cancelled}
    case OutputSubmitted => {RunStatus.Closed, RunStatus.Quarantined}
    case TimedOut => {RunStatus.Closed}
    case Failed => {RunStatus.Closed}
    case Cancelled => {RunStatus.Closed}
    case Quarantined => {RunStatus.Closed}
    case Closed => {}
  }

  function ApprovalTargets(s: ApprovalStatus): set<ApprovalStatus> {
    match s
    case Draft => {ApprovalStatus.Pending, ApprovalStatus.Cancelled}
    case Pending => {ApprovalStatus.Approved, ApprovalStatus.Rejected, ApprovalStatus.ChangesRequested,
                     ApprovalStatus.Expired, ApprovalStatus.Invalidated, ApprovalStatus.Cancelled}
    case ChangesRequested => {ApprovalStatus.Invalidated}
    case Approved => {ApprovalStatus.Invalidated}
    case Rejected => {}
    case Expired => {}
    case Invalidated => {}
    case Cancelled => {}
  }

  function OperationTargets(s: OperationStatus): set<OperationStatus> {
    match s
    case Prepared => {OperationStatus.PolicyReviewed, OperationStatus.Blocked, OperationStatus.Cancelled}
    case PolicyReviewed => {OperationStatus.ApprovalRequired, OperationStatus.Approved, OperationStatus.Blocked,
                            OperationStatus.Cancelled}
    case ApprovalRequired => {OperationStatus.Approved, OperationStatus.Blocked, OperationStatus.Cancelled}
    case Approved => {OperationStatus.Executing, OperationStatus.Cancelled}
    case Executing => {OperationStatus.Verifying, OperationStatus.Failed, OperationStatus.Unknown}
    case Verifying => {OperationStatus.Succeeded, OperationStatus.Failed, OperationStatus.Unknown}
    case Unknown => {OperationStatus.Verifying, OperationStatus.Succeeded, OperationStatus.Failed}
    case Blocked => {}
    case Failed => {}
    case Succeeded => {}
    case Cancelled => {}
  }

  // ----- The tables read backwards: where each status can be reached from -----

  lemma {:induction false} MissionSources(s: MissionStatus, t: MissionStatus)
    ensures t in MissionTargets(s) <==>
              (match t
               case DispatchReview => s == MissionStatus.Ingested
               case Routed => s == MissionStatus.DispatchReview
               case LeadTriage => s in {MissionStatus.Routed, MissionStatus.NeedsInformation, MissionStatus.Blocked}
               case Planning => s in {MissionStatus.LeadTriage, MissionStatus.NeedsInformation, MissionStatus.Blocked}
               case Ready => s == MissionStatus.Planning
               case Executing => s in {MissionStatus.Ready, MissionStatus.LeadReview, MissionStatus.ApprovalRequired,
                                       MissionStatus.Blocked}
               case LeadReview => s == MissionStatus.Executing
               case ApprovalRequired => s == MissionStatus.LeadReview
               case Approved => s == MissionStatus.ApprovalRequired
               case ActionExecuting => s == MissionStatus.Approved
               case Verifying => s in {MissionStatus.ActionExecuting, MissionStatus.Unknown}
               case Completed => s in {MissionStatus.LeadReview, MissionStatus.Verifying, MissionStatus.Unknown}
               case NeedsInformation => s in {MissionStatus.DispatchReview, MissionStatus.LeadTriage,
                                              MissionStatus.Planning}
               case Blocked => s in {MissionStatus.LeadTriage, MissionStatus.Planning, MissionStatus.Executing,
                                     MissionStatus.LeadReview}
               case Failed => s in {MissionStatus.Executing, MissionStatus.ActionExecuting, MissionStatus.Verifying,
                                    MissionStatus.Unknown}
               case Cancelled => s in {MissionStatus.Ingested, MissionStatus.DispatchReview, MissionStatus.Routed,
                                       MissionStatus.LeadTriage, MissionStatus.Planning, MissionStatus.Ready,
                                       MissionStatus.Executing, MissionStatus.LeadReview,
                                       MissionStatus.ApprovalRequired, MissionStatus.Approved,
                                       MissionStatus.NeedsInformation, MissionStatus.Blocked}
               case Unknown => s in {MissionStatus.ActionExecuting, MissionStatus.Verifying}
               case _ => false)
  {}

  lemma {:induction false} WorkSources(s: WorkStatus, t: WorkStatus)
    ensures t in WorkTargets(s) <==>
              (match t
               case Ready => s in {WorkStatus.Draft, WorkStatus.Blocked}
               case WaitingDependency => s == WorkStatus.Ready
               case Assigned => s in {WorkStatus.Ready, WorkStatus.WaitingDependency, WorkStatus.RevisionRequired,
                                      WorkStatus.Blocked}
               case Running => s == WorkStatus.Assigned
               case Submitted => s == WorkStatus.Running
               case Accepted => s == WorkStatus.Submitted
               case RevisionRequired => s == WorkStatus.Submitted
               case Blocked => s in {WorkStatus.WaitingDependency, WorkStatus.Assigned, WorkStatus.Running,
                                     WorkStatus.Submitted}
               case Failed => s == WorkStatus.Running
               case Cancelled => s in {WorkStatus.Draft, WorkStatus.Ready, WorkStatus.WaitingDependency,
                                       WorkStatus.Assigned, WorkStatus.Running, WorkStatus.RevisionRequired,
                                       WorkStatus.Blocked}
               case _ => false)
  {}

  lemma {:induction false} RunSources(s: RunStatus, t: RunStatus)
    ensures t in RunTargets(s) <==>
              (match t
               case ContextPrepared => s == RunStatus.Created
               case Running => s in {RunStatus.ContextPrepared, RunStatus.ToolWait}
               case ToolWait => s == RunStatus.Running
               case OutputSubmitted => s == RunStatus.Running
               case Closed => s in {RunStatus.OutputSubmitted, RunStatus.TimedOut, RunStatus.Failed,
                                    RunStatus.Cancelled, RunStatus.Quarantined}
               case TimedOut => s in {RunStatus.Running, RunStatus.ToolWait}
               case Failed => s in {RunStatus.Running, RunStatus.ToolWait}
               case Cancelled => s in {RunStatus.Created, RunStatus.ContextPrepared, RunStatus.Running,
                                       RunStatus.ToolWait}
               case Quarantined => s in {RunStatus.ContextPrepared, RunStatus.Running, RunStatus.OutputSubmitted}
               case _ => false)
  {}

  lemma {:induction false} ApprovalSources(s: ApprovalStatus, t: ApprovalStatus)
    ensures t in ApprovalTargets(s) <==>
              (match t
               case Pending => s == ApprovalStatus.Draft
               case Approved => s == ApprovalStatus.Pending
               case Rejected => s == ApprovalStatus.Pending
               case ChangesRequested => s == ApprovalStatus.Pending
               case Expired => s == ApprovalStatus.Pending
               case Invalidated => s in {ApprovalStatus.Pending, ApprovalStatus.Approved,
                                         ApprovalStatus.ChangesRequested}
               case Cancelled => s in {ApprovalStatus.Draft, ApprovalStatus.Pending}
               case _ => false)
  {}

  lemma {:induction false} OperationSources(s: OperationStatus, t: OperationStatus)
    ensures t in OperationTargets(s) <==>
              (match t
               case PolicyReviewed => s == OperationStatus.Prepared
               case ApprovalRequired => s == OperationStatus.PolicyReviewed
               case Approved => s in {OperationStatus.PolicyReviewed, OperationStatus.ApprovalRequired}
               case Executing => s == OperationStatus.Approved
               case Verifying => s in {OperationStatus.Executing, OperationStatus.Unknown}
               case Succeeded => s in {OperationStatus.Verifying, OperationStatus.Unknown}
               case Blocked => s in {OperationStatus.Prepared, OperationStatus.PolicyReviewed,
                                     OperationStatus.ApprovalRequired}
               case Failed => s in {OperationStatus.Executing, OperationStatus.Verifying, OperationStatus.Unknown}
               case Unknown => s in {OperationStatus.Executing, OperationStatus.Verifying}
               case Cancelled => s in {OperationStatus.Prepared, OperationStatus.PolicyReviewed,
                                       OperationStatus.ApprovalRequired, OperationStatus.Approved}
               case _ => false)
  {}

  /** From the start of the external action on, or finished: no legal transition leads back from here. */
  predicate ActionStarted(s: MissionStatus) {
    s in {MissionStatus.ActionExecuting, MissionStatus.Verifying, MissionStatus.Unknown, MissionStatus.Completed,
          MissionStatus.Failed}
  }

  /** A status history in which every change is a legal transition. */
  ghost predicate IsMissionHistory(h: seq<MissionStatus>) {
    h != [] && forall i :: 0 <= i < |h| - 1 ==> h[i + 1] in MissionTargets(h[i])
  }

  ghost predicate CanBecome(from: MissionStatus, to: MissionStatus) {
    exists h :: IsMissionHistory(h) && h[0] == from && h[|h| - 1] == to
  }

  lemma {:induction false} ActionStartedIsAbsorbing(h: seq<MissionStatus>, i: nat, j: nat)
    requires IsMissionHistory(h) && i <= j < |h| && (ActionStarted(h[i]) || h[i].Cancelled?)
    ensures ActionStarted(h[j]) || h[j].Cancelled?
  {
    if i == j {
    } else {
      ActionStartedIsAbsorbing(h, i, j - 1);
      assert h[j - 1 + 1] in MissionTargets(h[j - 1]);
    }
  }

  ghost function TowardsApproval(s: MissionStatus): MissionStatus
    requires !ActionStarted(s) && !s.Cancelled? && !s.Approved?
  {
    match s
    case Ingested => MissionStatus.DispatchReview
    case DispatchReview => MissionStatus.Routed
    case Routed => MissionStatus.LeadTriage
    case LeadTriage => MissionStatus.Planning
    case NeedsInformation => MissionStatus.Planning
    case Blocked => MissionStatus.Planning
    case Planning => MissionStatus.Ready
    case Ready => MissionStatus.Executing
    case Executing => MissionStatus.LeadReview
    case LeadReview => MissionStatus.ApprovalRequired
    case ApprovalRequired => MissionStatus.Approved
  }

  ghost function StepsToApproval(s: MissionStatus): nat {
    match s
    case Ingested => 9
    case DispatchReview => 8
    case Routed => 7
    case LeadTriage => 6
    case NeedsInformation => 6
    case Blocked => 6
    case Planning => 5
    case Ready => 4
    case Executing => 3
    case LeadReview => 2
    case ApprovalRequired => 1
    case _ => 0
  }

  lemma {:induction false} RouteToApproval(s: MissionStatus) returns (h: seq<MissionStatus>)
    requires !ActionStarted(s) && !s.Cancelled?
    ensures IsMissionHistory(h) && h[0] == s && h[|h| - 1] == MissionStatus.Approved
    decreases StepsToApproval(s)
  {
    if s.Approved? {
      h := [s];
    } else {
      var next := TowardsApproval(s);
      var rest := RouteToApproval(next);
      h := [s] + rest;
    }
  }

  /** Approval can be reached from exactly the statuses before the external action, Cancelled excluded. */
  lemma {:induction false} WhereApprovalIsReachable(s: MissionStatus)
    ensures CanBecome(s, MissionStatus.Approved) <==> !ActionStarted(s) && !s.Cancelled?
  {
    if ActionStarted(s) || s.Cancelled? {
      forall h | IsMissionHistory(h) && h[0] == s ensures h[|h| - 1] != MissionStatus.Approved {
        ActionStartedIsAbsorbing(h, 0, |h| - 1);
      }
    } else {
      var h := RouteToApproval(s);
    }
  }
}
