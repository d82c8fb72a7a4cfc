/** What each service call does to one mission, its work items, dependencies, agent runs and
    artifacts. A call that raises leaves the database as it was. */
module MissionFlow {
  import opened Basics
  import opened Graphs
  import opened Planner
  import opened Lifecycles
  import opened Quality

  datatype Mission = Mission(status: MissionStatus, version: int, planVersion: int, riskLevel: string)

  /** requirements: the number of evidence requirements. */
  datatype Item = Item(status: WorkStatus, version: int, requirements: nat)

  datatype CloseReason = StillOpen | OutputSaved | ExecutionFailed | SchedulerTimeout

  datatype Run = Run(item: Id, status: RunStatus, version: int, contextCleared: bool,
                     grantsRevoked: bool, reason: CloseReason, updatedAt: int)

  /** deps: one row per dependency, Edge(prerequisite, dependent item).
      accepted: history of accepted items in the order of acceptance. */
  datatype Db = Db(mission: Mission, items: map<Id, Item>, deps: seq<Edge>, runs: seq<Run>,
                   artifacts: seq<Artifact>, accepted: seq<Id>)

  datatype Error = NotFound | Business | Conflict | IllegalTransition | Paused | Integrity | Malformed

  datatype Outcome = Done(db: Db) | Raised(error: Error)

  /** What the model call of an executor run produced. */
  datatype ModelOutcome = ModelRaised | Output(claims: seq<Claim>, usageRecorded: bool)

  const RUN_TIMEOUT := 600 * SECOND

  // ----- Small pieces -----

  function Moved(item: Item, target: WorkStatus, hops: int): Item {
    item.(status := target, version := item.version + hops)
  }

  predicate HasPrereqs(deps: seq<Edge>, i: Id) {
    exists e :: e in deps && e.target == i
  }

  predicate IsAccepted(items: map<Id, Item>, i: Id) {
    i in items && items[i].status == WorkStatus.Accepted
  }

  /** Every prerequisite of i other than `except` is accepted. */
  predicate OthersAccepted(items: map<Id, Item>, deps: seq<Edge>, i: Id, except: set<Id>) {
    forall e :: e in deps && e.target == i && e.source !in except ==> IsAccepted(items, e.source)
  }

  predicate PrereqsAccepted(items: map<Id, Item>, deps: seq<Edge>, i: Id) {
    OthersAccepted(items, deps, i, {})
  }

  predicate AllAccepted(items: map<Id, Item>) {
    forall i :: i in items ==> items[i].status == WorkStatus.Accepted
  }

  function NewRun(item: Id, now: int): Run {
    Run(item, RunStatus.Running, 3, false, false, StillOpen, now)
  }

  function ClosedRun(run: Run, revoke: bool, reason: CloseReason): Run {
    run.(status := RunStatus.Closed, version := run.version + 2, contextCleared := true,
         grantsRevoked := run.grantsRevoked || revoke, reason := reason)
  }

  predicate RunExpired(run: Run, now: int) {
    (run.status == RunStatus.Running || run.status == RunStatus.ToolWait) && now > run.updatedAt + RUN_TIMEOUT
  }

  function Without(deps: seq<Edge>, e: Edge): seq<Edge> {
    if deps == [] then []
    else if deps[0] == e then Without(deps[1..], e)
    else [deps[0]] + Without(deps[1..], e)
  }

  predicate Legal(m: Mission, target: MissionStatus) {
    target in MissionTargets(m.status)
  }

  /** A mission status change and its version bump. */
  function Advance(m: Mission, target: MissionStatus): Mission {
    m.(status := target, version := m.version + 1)
  }

  function PlanChanged(m: Mission): Mission {
    m.(version := m.version + 1, planVersion := m.planVersion + 1)
  }

  // ----- Planning calls -----

  function MissionChange(s: Db, expected: int, paused: bool, target: MissionStatus): Outcome {
    if s.mission.version != expected then Raised(Conflict)
    else if paused then Raised(Paused)
    else if !Legal(s.mission, target) then Raised(IllegalTransition)
    else Done(s.(mission := Advance(s.mission, target)))
  }

  ghost predicate UniqueKeys(specs: seq<Spec>) {
    forall i, j :: 0 <= i < j < |specs| ==> specs[i].key != specs[j].key
  }

  /** One draft row per spec, inserted in order. */
  function DraftItems(specs: seq<Spec>): (items: map<Id, Item>)
    ensures items.Keys == Keys(specs)
    ensures forall k :: k in items ==> items[k].status == WorkStatus.Draft && items[k].version == 1
  {
    if specs == [] then map[]
    else
      var n := |specs| - 1;
      assert specs == specs[..n] + [specs[n]];
      DraftItems(specs[..n])[specs[n].key := Item(WorkStatus.Draft, 1, specs[n].requirements)]
  }

  /** resourcesFound: workflow, active agents and published skills all exist. */
  ghost function PlanMission(s: Db, expected: int, specs: seq<Spec>, resourcesFound: bool): Outcome {
    var m := s.mission;
    if m.version != expected then Raised(Conflict)
    else if m.status != MissionStatus.LeadTriage && m.status != MissionStatus.Planning then Raised(Business)
    else if !resourcesFound then Raised(Business)
    else if !AllKnown(specs) || HasCycle(PlanEdges(specs)) then Raised(Business)
    else if !UniqueKeys(specs) || !Distinct(PlanEdges(specs)) then Raised(Integrity)
    else
      var drafted := if m.status == MissionStatus.LeadTriage then Advance(m, MissionStatus.Planning) else m;
      Done(Db(PlanChanged(drafted), DraftItems(specs), PlanEdges(specs), [], [], []))
  }

  function Edited(item: Item, requirements: Option<nat>): Item {
    item.(version := item.version + 1,
          requirements := if requirements.Some? then requirements.value else item.requirements)
  }

  /** requirements: how many evidence requirements the edit sets, if it sets them. */
  function EditItem(s: Db, i: Id, expectedItem: int, valid: bool, requirements: Option<nat>): Outcome {
    if i !in s.items then Raised(NotFound)
    else if s.mission.status != MissionStatus.Planning then Raised(Business)
    else if s.items[i].version != expectedItem then Raised(Conflict)
    else if !valid then Raised(Business)
    else Done(s.(mission := PlanChanged(s.mission),
                items := s.items[i := Edited(s.items[i], requirements)]))
  }

  ghost function AddDependency(s: Db, item: Id, on: Id): Outcome {
    if s.mission.status != MissionStatus.Planning || item == on || item !in s.items || on !in s.items
    then Raised(Business)
    else if Edge(on, item) in s.deps then Done(s)
    else if HasCycle(s.deps + [Edge(on, item)]) then Raised(Business)
    else Done(s.(mission := PlanChanged(s.mission), deps := s.deps + [Edge(on, item)]))
  }

  function RemoveDependency(s: Db, e: Edge): Outcome {
    if e !in s.deps then Raised(Business)
    else if s.mission.status != MissionStatus.Planning then Raised(Business)
    else Done(s.(mission := PlanChanged(s.mission), deps := Without(s.deps, e)))
  }

  /** An item of an approved plan waits if it has prerequisites, otherwise it is ready. */
  function Queued(deps: seq<Edge>, i: Id, item: Item): Item {
    if HasPrereqs(deps, i) then Moved(item, WorkStatus.WaitingDependency, 2) else Moved(item, WorkStatus.Ready, 1)
  }

  ghost function ApprovePlan(s: Db, expected: int): Outcome {
    if s.mission.version != expected then Raised(Conflict)
    else if s.items == map[] then Raised(Business)
    else if exists i :: i in s.items && WorkStatus.Ready !in WorkTargets(s.items[i].status)
    then Raised(IllegalTransition)
    else if !Legal(s.mission, MissionStatus.Ready) then Raised(IllegalTransition)
    else
      Done(s.(mission := Advance(s.mission, MissionStatus.Ready),
              items := map i | i in s.items :: Queued(s.deps, i, s.items[i])))
  }

  // ----- Execution calls -----

  /** Statuses from which a start goes through once prerequisites are settled. */
  predicate StartStatus(hasPrereqs: bool, status: WorkStatus) {
    if hasPrereqs then status == WorkStatus.WaitingDependency || status == WorkStatus.Assigned
    else status in {WorkStatus.Ready, WorkStatus.RevisionRequired, WorkStatus.Blocked, WorkStatus.Assigned}
  }

  predicate CanStart(s: Db, i: Id) {
    i in s.items && PrereqsAccepted(s.items, s.deps, i) && StartStatus(HasPrereqs(s.deps, i), s.items[i].status)
  }

  function StartItem(s: Db, i: Id, paused: bool, now: int): Outcome {
    if i !in s.items then Raised(NotFound)
    else if paused then Raised(Paused)
    else if !PrereqsAccepted(s.items, s.deps, i) then Raised(Conflict)
    else if !StartStatus(HasPrereqs(s.deps, i), s.items[i].status) then
      Raised(if HasPrereqs(s.deps, i) then IllegalTransition else Business)
    else
      var hops := if s.items[i].status == WorkStatus.Assigned then 1 else 2;
      Done(s.(items := s.items[i := Moved(s.items[i], WorkStatus.Running, hops)], runs := s.runs + [NewRun(i, now)]))
  }

  /** Saves the output as an artifact with its evidence, closes the run and submits the item. */
  function SubmitRun(s: Db, r: nat, claims: seq<Claim>): Outcome {
    if r >= |s.runs| then Raised(NotFound)
    else if s.runs[r].status != RunStatus.Running then Raised(Business)
    else if !Readable(claims) then Raised(Malformed)
    else
      var i := s.runs[r].item;
      if i !in s.items then Raised(NotFound)
      else if WorkStatus.Submitted !in WorkTargets(s.items[i].status) then Raised(IllegalTransition)
      else Done(s.(items := s.items[i := Moved(s.items[i], WorkStatus.Submitted, 1)],
                   runs := s.runs[r := ClosedRun(s.runs[r], true, OutputSaved)],
                   artifacts := s.artifacts + [Artifact(i, claims)]))
  }

  /** The model result is submitted; a model failure closes the run and blocks the item;
      a failure after the run left RUNNING cannot be closed and raises. */
  function ExecuteRun(s: Db, r: nat, model: ModelOutcome): Outcome {
    if r >= |s.runs| then Raised(NotFound)
    else if s.runs[r].status != RunStatus.Running then Raised(Business)
    else
      match model
      case ModelRaised =>
        var i := s.runs[r].item;
        Done(s.(runs := s.runs[r := ClosedRun(s.runs[r], true, ExecutionFailed)],
                items := if i in s.items && s.items[i].status == WorkStatus.Running
                         then s.items[i := Moved(s.items[i], WorkStatus.Blocked, 1)] else s.items))
      case Output(claims, usage) =>
        if !SubmitRun(s, r, claims).Done? || !usage then Raised(IllegalTransition) else SubmitRun(s, r, claims)
  }

  /** Item j is released by the acceptance of i: it waited, and i was its last open prerequisite. */
  predicate Released(s: Db, i: Id, j: Id) {
    && j in s.items && j != i && s.items[j].status == WorkStatus.WaitingDependency
    && Edge(i, j) in s.deps
    && OthersAccepted(s.items, s.deps, j, {i})
  }

  function AcceptItem(s: Db, i: Id): Db
    requires i in s.items
  {
    var items := map j | j in s.items ::
      if j == i then Moved(s.items[i], WorkStatus.Accepted, 1)
      else if Released(s, i, j) then Moved(s.items[j], WorkStatus.Assigned, 1)
      else s.items[j];
    s.(items := items, accepted := s.accepted + [i])
  }

  /** Whether item i would pass the quality gate. */
  predicate GatePasses(s: Db, i: Id) {
    i in s.items && Passes(s.artifacts, s.items[i].requirements, i)
  }

  function ReviewItem(s: Db, i: Id, accept: bool): Outcome {
    if i !in s.items then Raised(NotFound)
    else if s.items[i].status != WorkStatus.Submitted then Raised(Business)
    else if accept && !GatePasses(s, i) then Raised(Business)
    else if accept then Done(AcceptItem(s, i))
    else Done(s.(items := s.items[i := Moved(s.items[i], WorkStatus.RevisionRequired, 1)]))
  }

  ghost predicate HasExpiredRun(runs: seq<Run>, i: Id, now: int) {
    exists r :: 0 <= r < |runs| && runs[r].item == i && RunExpired(runs[r], now)
  }

  ghost function TimedOutItem(runs: seq<Run>, i: Id, item: Item, now: int): Item {
    if item.status == WorkStatus.Running && HasExpiredRun(runs, i, now) then Moved(item, WorkStatus.Failed, 1) else item
  }

  /** Time-out half of the scheduler: expired runs close, their running items fail. */
  ghost function Tick(s: Db, now: int): Db {
    var runs := seq(|s.runs|, r requires 0 <= r < |s.runs| =>
      if RunExpired(s.runs[r], now) then ClosedRun(s.runs[r], false, SchedulerTimeout) else s.runs[r]);
    s.(runs := runs, items := map i | i in s.items :: TimedOutItem(s.runs, i, s.items[i], now))
  }

  function LeadReviewMission(s: Db, expected: int): Outcome {
    if s.mission.version != expected then Raised(Conflict)
    else if s.items == map[] || !AllAccepted(s.items) then Raised(Conflict)
    else if !Legal(s.mission, MissionStatus.LeadReview) then Raised(IllegalTransition)
    else
      var target := if IsHighRisk(s.mission.riskLevel) then MissionStatus.ApprovalRequired else MissionStatus.Completed;
      Done(s.(mission := Advance(Advance(s.mission, MissionStatus.LeadReview), target)))
  }

  predicate AwaitingOrSending(status: MissionStatus) {
    status in {MissionStatus.ApprovalRequired, MissionStatus.Approved, MissionStatus.ActionExecuting,
               MissionStatus.Verifying, MissionStatus.Unknown}
  }

  /** One status change made by the approval and sending calls, whose own rules are in module SendFlow. */
  function ApprovalOrSendMove(s: Db, target: MissionStatus): Outcome {
    if AwaitingOrSending(s.mission.status) && Legal(s.mission, target)
    then Done(s.(mission := Advance(s.mission, target))) else Raised(IllegalTransition)
  }

  // ----- Runs of the whole flow -----

  datatype Event =
    | EAccept(expected: int)
    | EPlan(expected: int, specs: seq<Spec>, resourcesFound: bool)
    | EEdit(item: Id, expected: int, valid: bool, requirements: Option<nat>)
    | EAddDependency(item: Id, on: Id)
    | ERemoveDependency(edge: Edge)
    | EApprovePlan(expected: int)
    | EStartExecution(expected: int, paused: bool)
    | EStartItem(item: Id, paused: bool, now: int)
    | ESubmitRun(run: nat, claims: seq<Claim>)
    | EExecuteRun(run: nat, model: ModelOutcome)
    | EReview(item: Id, accept: bool)
    | ETick(now: int)
    | ELeadReview(expected: int)
    | EMove(target: MissionStatus)

  ghost function Step(s: Db, e: Event): Outcome {
    match e
    case EAccept(expected) => MissionChange(s, expected, false, MissionStatus.LeadTriage)
    case EPlan(expected, specs, found) => PlanMission(s, expected, specs, found)
    case EEdit(i, expected, valid, requirements) => EditItem(s, i, expected, valid, requirements)
    case EAddDependency(item, on) => AddDependency(s, item, on)
    case ERemoveDependency(edge) => RemoveDependency(s, edge)
    case EApprovePlan(expected) => ApprovePlan(s, expected)
    case EStartExecution(expected, paused) => MissionChange(s, expected, paused, MissionStatus.Executing)
    case EStartItem(i, paused, now) => StartItem(s, i, paused, now)
    case ESubmitRun(r, claims) => SubmitRun(s, r, claims)
    case EExecuteRun(r, model) => ExecuteRun(s, r, model)
    case EReview(i, accept) => ReviewItem(s, i, accept)
    case ETick(now) => Done(Tick(s, now))
    case ELeadReview(expected) => LeadReviewMission(s, expected)
    case EMove(target) => ApprovalOrSendMove(s, target)
  }

  /** A raised error rolls the transaction back. */
  ghost function After(s: Db, o: Outcome): Db {
    match o
    case Done(db) => db
    case Raised(_) => s
  }

  ghost function Exec(s: Db, events: seq<Event>): Db {
    if events == [] then s
    else
      var n := |events| - 1;
      var before := Exec(s, events[..n]);
      After(before, Step(before, events[n]))
  }

  /** A mission that has just been routed to a team. */
  ghost predicate Fresh(s: Db) {
    && s.mission.status == MissionStatus.Routed
    && s.items == map[] && s.deps == [] && s.runs == [] && s.artifacts == [] && s.accepted == []
  }
}
