/** What every reachable state of a mission satisfies. */
module MissionSafety {
  import opened Basics
  import opened Graphs
  import opened Planner
  import opened Lifecycles
  import opened Quality
  import opened MissionFlow

  predicate Drafting(status: MissionStatus) {
    status in {MissionStatus.Routed, MissionStatus.LeadTriage, MissionStatus.Planning}
  }

  /** Statuses of a mission whose work has been reviewed by the lead. */
  predicate Reviewed(status: MissionStatus) {
    ActionStarted(status) || status in {MissionStatus.LeadReview, MissionStatus.ApprovalRequired,
                                        MissionStatus.Approved, MissionStatus.Cancelled}
  }

  /** The dependency rows form a simple acyclic graph over the items. */
  ghost predicate PlanSound(s: Db) {
    && Distinct(s.deps)
    && (forall e :: e in s.deps ==> e.source in s.items && e.target in s.items)
    && !HasCycle(s.deps)
  }

  /** What the status of an item of an approved plan says about its prerequisites. */
  ghost predicate StageSound(s: Db, i: Id)
    requires i in s.items
  {
    match s.items[i].status
    case Draft => false
    case Cancelled => false
    case Ready => !HasPrereqs(s.deps, i)
    case WaitingDependency => !PrereqsAccepted(s.items, s.deps, i)
    case _ => PrereqsAccepted(s.items, s.deps, i)
  }

  ghost predicate StagesSound(s: Db) {
    if Drafting(s.mission.status) then
      && (forall i :: i in s.items ==> s.items[i].status == WorkStatus.Draft)
      && s.runs == [] && s.artifacts == [] && s.accepted == []
    else
      && s.items != map[]
      && (forall i :: i in s.items ==> StageSound(s, i))
  }

  ghost predicate MissionSound(s: Db) {
    && (Drafting(s.mission.status)
        || s.mission.status in {MissionStatus.Ready, MissionStatus.Executing}
        || Reviewed(s.mission.status))
    && (Reviewed(s.mission.status) ==> AllAccepted(s.items))
  }

  ghost predicate IsLive(runs: seq<Run>, r: int) {
    0 <= r < |runs| && runs[r].status == RunStatus.Running
  }

  ghost predicate HasLiveRun(runs: seq<Run>, i: Id) {
    exists r :: IsLive(runs, r) && runs[r].item == i
  }

  ghost predicate RunSound(run: Run) {
    match run.status
    case Running => !run.contextCleared && !run.grantsRevoked && run.reason == StillOpen
    case Closed => run.contextCleared && run.reason != StillOpen
      && (run.grantsRevoked <==> run.reason != SchedulerTimeout)
    case _ => false
  }

  ghost predicate RunsSound(s: Db) {
    && (forall r :: 0 <= r < |s.runs| ==> s.runs[r].item in s.items && RunSound(s.runs[r]))
    && (forall r, q :: IsLive(s.runs, r) && IsLive(s.runs, q) && s.runs[r].item == s.runs[q].item ==> r == q)
    && (forall i :: i in s.items ==> (s.items[i].status == WorkStatus.Running <==> HasLiveRun(s.runs, i)))
  }

  ghost predicate HistorySound(s: Db) {
    && Distinct(s.accepted)
    && (forall i :: i in s.accepted <==> IsAccepted(s.items, i))
    && IsTopological(s.deps, s.accepted)
  }

  /** Acceptance needs the quality gate, and nothing is submitted for an item once it is accepted. */
  ghost predicate GateSound(s: Db) {
    && (forall i :: IsAccepted(s.items, i) ==> GatePasses(s, i))
    && (forall a :: a in s.artifacts ==> a.item in s.items)
  }

  ghost predicate Sound(s: Db) {
    PlanSound(s) && StagesSound(s) && MissionSound(s) && RunsSound(s) && HistorySound(s) && GateSound(s)
  }

  // ----- Steps that touch only the mission row -----

  lemma {:induction false} MissionRowKeepsSound(s: Db, m: Mission)
    requires Sound(s)
    requires Drafting(m.status) == Drafting(s.mission.status)
    requires MissionSound(s.(mission := m))
    ensures Sound(s.(mission := m))
  {
    var t := s.(mission := m);
    assert forall i :: i in s.items ==> StageSound(t, i) == StageSound(s, i);
  }

  // ----- Planning steps -----

  lemma {:induction false} KeysOfPrefix(specs: seq<Spec>, n: nat)
    requires UniqueKeys(specs) && n < |specs|
    ensures specs[n].key !in Keys(specs[..n])
  {
    assert forall j :: 0 <= j < n ==> specs[..n][j] == specs[j];
  }

  /** Every entry of a plan without repeated keys becomes the draft it describes. */
  lemma {:induction false} DraftsFollowPlan(specs: seq<Spec>, n: nat)
    requires UniqueKeys(specs) && n < |specs|
    ensures specs[n].key in DraftItems(specs)
    ensures DraftItems(specs)[specs[n].key] == Item(WorkStatus.Draft, 1, specs[n].requirements)
  {
    var m := |specs| - 1;
    if n == m {
    } else {
      KeysOfPrefix(specs, m);
      DraftsFollowPlan(specs[..m], n);
    }
  }

  lemma {:induction false} WithoutFilters(deps: seq<Edge>, e: Edge)
    ensures forall x :: x in Without(deps, e) <==> x in deps && x != e
    ensures Distinct(deps) ==> Distinct(Without(deps, e))
  {
    if deps == [] {
    } else {
      WithoutFilters(deps[1..], e);
      assert deps == [deps[0]] + deps[1..];
      assert Distinct(deps) ==> Distinct(deps[1..]) && deps[0] !in deps[1..];
    }
  }

  lemma {:induction false} PlanKeepsSound(s: Db, expected: int, specs: seq<Spec>, found: bool)
    requires Sound(s)
    ensures Sound(After(s, PlanMission(s, expected, specs, found)))
  {
    PlanEdgesTargetKeys(specs);
  }

  lemma {:induction false} EditKeepsSound(s: Db, i: Id, expected: int, valid: bool, requirements: Option<nat>)
    requires Sound(s)
    ensures Sound(After(s, EditItem(s, i, expected, valid, requirements)))
  {
  }

  lemma {:induction false} DependencyEditsKeepSound(s: Db, item: Id, on: Id, e: Edge)
    requires Sound(s)
    ensures Sound(After(s, AddDependency(s, item, on)))
    ensures Sound(After(s, RemoveDependency(s, e)))
  {
    WithoutFilters(s.deps, e);
    FewerEdgesStayAcyclic(s.deps, Without(s.deps, e));
  }

  lemma {:induction false} ApprovedItems(s: Db, expected: int, t: Db)
    requires ApprovePlan(s, expected) == Done(t)
    ensures Drafting(s.mission.status) && t.mission.status == MissionStatus.Ready
    ensures t.items != map[] && t.items.Keys == s.items.Keys && t == s.(mission := t.mission, items := t.items)
    ensures forall i :: i in t.items ==> t.items[i] == Queued(s.deps, i, s.items[i])
  {
    var i :| i in s.items;
    assert i in t.items;
  }

  lemma {:induction false} ApprovedRestSound(s: Db, t: Db)
    requires Sound(s) && Drafting(s.mission.status) && t.mission.status == MissionStatus.Ready
    requires t.deps == s.deps && t.runs == s.runs && t.artifacts == s.artifacts && t.accepted == s.accepted
    requires t.items.Keys == s.items.Keys
    requires forall i :: !IsAccepted(t.items, i)
    requires forall i :: i in t.items ==> t.items[i].status != WorkStatus.Running
    ensures PlanSound(t) && MissionSound(t) && RunsSound(t) && HistorySound(t) && GateSound(t)
  {
    assert forall i :: !HasLiveRun(t.runs, i);
  }

  lemma {:induction false} QueuedStagesSound(s: Db, t: Db)
    requires t.deps == s.deps && t.items.Keys == s.items.Keys
    requires forall i :: i in t.items ==> t.items[i] == Queued(s.deps, i, s.items[i])
    ensures forall i :: i in t.items ==> StageSound(t, i)
    ensures forall i :: !IsAccepted(t.items, i)
    ensures forall i :: i in t.items ==> t.items[i].status != WorkStatus.Running
  {
    forall i | i in t.items ensures StageSound(t, i) {
      if HasPrereqs(s.deps, i) {
        var e :| e in s.deps && e.target == i;
        assert !IsAccepted(t.items, e.source);
      }
    }
  }

  lemma {:induction false} ApproveKeepsSound(s: Db, expected: int)
    requires Sound(s)
    ensures Sound(After(s, ApprovePlan(s, expected)))
  {
    if ApprovePlan(s, expected).Done? {
      var t := ApprovePlan(s, expected).db;
      ApprovedItems(s, expected, t);
      QueuedStagesSound(s, t);
      ApprovedRestSound(s, t);
    }
  }

  // ----- Execution steps -----

  /** Moving one item between statuses other than Accepted leaves the others' stages alone. */
  lemma {:induction false} ItemMoveKeepsStages(s: Db, i: Id, item: Item, runs: seq<Run>, artifacts: seq<Artifact>)
    requires Sound(s) && i in s.items && !Drafting(s.mission.status)
    requires s.items[i].status != WorkStatus.Accepted && item.status != WorkStatus.Accepted
    requires item.status !in {WorkStatus.Draft, WorkStatus.Cancelled, WorkStatus.Ready, WorkStatus.WaitingDependency}
    requires PrereqsAccepted(s.items, s.deps, i)
    ensures var t := s.(items := s.items[i := item], runs := runs, artifacts := artifacts);
            PlanSound(t) && StagesSound(t) && MissionSound(t) && HistorySound(t)
  {
    var t := s.(items := s.items[i := item], runs := runs, artifacts := artifacts);
    assert forall j :: IsAccepted(t.items, j) == IsAccepted(s.items, j);
    forall j | j in t.items ensures StageSound(t, j) {
      assert PrereqsAccepted(t.items, t.deps, j) == PrereqsAccepted(s.items, s.deps, j);
      assert StageSound(s, j);
    }
    assert !AllAccepted(s.items);
  }

  /** A move of an unaccepted item, possibly with a submission of its own, leaves the accepted ones passing. */
  lemma {:induction false} ItemMoveKeepsGate(s: Db, i: Id, item: Item, t: Db)
    requires GateSound(s) && i in s.items && t.items == s.items[i := item]
    requires s.items[i].status != WorkStatus.Accepted && item.status != WorkStatus.Accepted
    requires t.artifacts == s.artifacts || exists claims :: t.artifacts == s.artifacts + [Artifact(i, claims)]
    ensures GateSound(t)
  {
    forall j | IsAccepted(t.items, j)
      ensures GatePasses(t, j)
    {
      assert IsAccepted(s.items, j) && j != i;
      if t.artifacts != s.artifacts {
        var claims :| t.artifacts == s.artifacts + [Artifact(i, claims)];
        OthersSubmit(s.artifacts, Artifact(i, claims), s.items[j].requirements, j);
      }
    }
  }

  lemma {:induction false} StartKeepsSound(s: Db, i: Id, paused: bool, now: int)
    requires Sound(s)
    ensures Sound(After(s, StartItem(s, i, paused, now)))
  {
    var o := StartItem(s, i, paused, now);
    if o.Done? {
      var t := o.db;
      ItemMoveKeepsStages(s, i, t.items[i], t.runs, t.artifacts);
      ItemMoveKeepsGate(s, i, t.items[i], t);
      var r := |s.runs|;
      assert IsLive(t.runs, r) && t.runs[r].item == i;
      assert forall q :: q != r ==> IsLive(t.runs, q) == IsLive(s.runs, q);
      assert !HasLiveRun(s.runs, i);
      forall j | j in t.items ensures t.items[j].status == WorkStatus.Running <==> HasLiveRun(t.runs, j) {
        if j != i && HasLiveRun(s.runs, j) {
          var q :| IsLive(s.runs, q) && s.runs[q].item == j;
          assert IsLive(t.runs, q) && t.runs[q].item == j;
        }
      }
    }
  }

  /** Closing the live run of an item together with moving the item out of Running. */
  lemma {:induction false} CloseKeepsRuns(s: Db, r: nat, revoke: bool, reason: CloseReason, item: Item)
    requires RunsSound(s) && IsLive(s.runs, r)
    requires reason != StillOpen && (revoke <==> reason != SchedulerTimeout)
    requires item.status != WorkStatus.Running
    ensures RunsSound(s.(items := s.items[s.runs[r].item := item],
                         runs := s.runs[r := ClosedRun(s.runs[r], revoke, reason)]))
  {
    var i := s.runs[r].item;
    var t := s.(items := s.items[i := item], runs := s.runs[r := ClosedRun(s.runs[r], revoke, reason)]);
    assert RunSound(s.runs[r]) && RunSound(t.runs[r]);
    assert forall q :: IsLive(t.runs, q) <==> IsLive(s.runs, q) && q != r;
    forall j | j in t.items ensures t.items[j].status == WorkStatus.Running <==> HasLiveRun(t.runs, j) {
      if j != i && HasLiveRun(s.runs, j) {
        var q :| IsLive(s.runs, q) && s.runs[q].item == j;
        assert IsLive(t.runs, q) && t.runs[q].item == j;
      }
    }
  }

  lemma {:induction false} LiveItem(s: Db, r: nat)
    requires Sound(s) && IsLive(s.runs, r)
    ensures s.runs[r].item in s.items && s.items[s.runs[r].item].status == WorkStatus.Running
    ensures !Drafting(s.mission.status) && PrereqsAccepted(s.items, s.deps, s.runs[r].item)
  {
    var i := s.runs[r].item;
    assert HasLiveRun(s.runs, i);
    assert StageSound(s, i);
  }

  lemma {:induction false} SubmitKeepsSound(s: Db, r: nat, claims: seq<Claim>)
    requires Sound(s)
    ensures Sound(After(s, SubmitRun(s, r, claims)))
  {
    var o := SubmitRun(s, r, claims);
    if o.Done? {
      var i := s.runs[r].item;
      LiveItem(s, r);
      ItemMoveKeepsStages(s, i, o.db.items[i], o.db.runs, o.db.artifacts);
      ItemMoveKeepsGate(s, i, o.db.items[i], o.db);
      CloseKeepsRuns(s, r, true, OutputSaved, o.db.items[i]);
    }
  }

  lemma {:induction false} ExecuteKeepsSound(s: Db, r: nat, model: ModelOutcome)
    requires Sound(s)
    ensures Sound(After(s, ExecuteRun(s, r, model)))
  {
    var o := ExecuteRun(s, r, model);
    if o.Done? && model.ModelRaised? {
      var i := s.runs[r].item;
      LiveItem(s, r);
      ItemMoveKeepsStages(s, i, o.db.items[i], o.db.runs, o.db.artifacts);
      ItemMoveKeepsGate(s, i, o.db.items[i], o.db);
      CloseKeepsRuns(s, r, true, ExecutionFailed, o.db.items[i]);
    } else if o.Done? {
      SubmitKeepsSound(s, r, model.claims);
    }
  }

  lemma {:induction false} AcceptKeepsHistory(s: Db, i: Id)
    requires Sound(s) && i in s.items && s.items[i].status == WorkStatus.Submitted
    ensures HistorySound(AcceptItem(s, i))
  {
    var t := AcceptItem(s, i);
    assert StageSound(s, i);
    assert i !in s.accepted;
    assert forall j :: IsAccepted(t.items, j) <==> IsAccepted(s.items, j) || j == i;
    forall k, u | 0 <= k < |t.accepted| && Edge(u, t.accepted[k]) in t.deps ensures u in t.accepted[..k] {
      if k == |s.accepted| {
        assert Edge(u, i) in s.deps && IsAccepted(s.items, u);
        assert t.accepted[..k] == s.accepted;
      } else {
        assert t.accepted[..k] == s.accepted[..k];
      }
    }
  }

  lemma {:induction false} AcceptKeepsStages(s: Db, i: Id)
    requires Sound(s) && i in s.items && s.items[i].status == WorkStatus.Submitted
    ensures forall j :: j in AcceptItem(s, i).items ==> StageSound(AcceptItem(s, i), j)
  {
    var t := AcceptItem(s, i);
    assert StageSound(s, i);
    assert forall j :: IsAccepted(t.items, j) <==> IsAccepted(s.items, j) || j == i;
    forall j | j in t.items
      ensures StageSound(t, j)
    {
      assert StageSound(s, j);
      assert PrereqsAccepted(t.items, t.deps, j) <==> OthersAccepted(s.items, s.deps, j, {i});
      if s.items[j].status == WorkStatus.WaitingDependency && !Released(s, i, j) {
        assert Edge(i, j) !in s.deps ==>
                 (OthersAccepted(s.items, s.deps, j, {i}) <==> PrereqsAccepted(s.items, s.deps, j));
      }
    }
  }

  lemma {:induction false} AcceptKeepsGate(s: Db, i: Id)
    requires GateSound(s) && GatePasses(s, i)
    ensures GateSound(AcceptItem(s, i))
  {
    var t := AcceptItem(s, i);
    forall j | IsAccepted(t.items, j)
      ensures GatePasses(t, j)
    {
      assert j == i || IsAccepted(s.items, j);
    }
  }

  lemma {:induction false} AcceptKeepsRuns(s: Db, i: Id)
    requires RunsSound(s) && i in s.items && s.items[i].status == WorkStatus.Submitted
    ensures RunsSound(AcceptItem(s, i))
  {
    var t := AcceptItem(s, i);
    assert forall j :: j in s.items ==>
             (t.items[j].status == WorkStatus.Running <==> s.items[j].status == WorkStatus.Running);
  }

  lemma {:induction false} AcceptKeepsSound(s: Db, i: Id)
    requires Sound(s) && i in s.items && s.items[i].status == WorkStatus.Submitted && GatePasses(s, i)
    ensures Sound(AcceptItem(s, i))
  {
    assert StageSound(s, i) && !AllAccepted(s.items);
    AcceptKeepsHistory(s, i);
    AcceptKeepsStages(s, i);
    AcceptKeepsRuns(s, i);
    AcceptKeepsGate(s, i);
  }

  lemma {:induction false} ReviewKeepsSound(s: Db, i: Id, accept: bool)
    requires Sound(s)
    ensures Sound(After(s, ReviewItem(s, i, accept)))
  {
    var o := ReviewItem(s, i, accept);
    if o.Done? {
      assert StageSound(s, i);
      if accept {
        AcceptKeepsSound(s, i);
      } else {
        ItemMoveKeepsStages(s, i, o.db.items[i], s.runs, s.artifacts);
        ItemMoveKeepsGate(s, i, o.db.items[i], o.db);
        assert forall j :: j in s.items ==>
                 (o.db.items[j].status == WorkStatus.Running <==> s.items[j].status == WorkStatus.Running);
      }
    }
  }

  lemma {:induction false} TickKeepsStages(s: Db, now: int)
    requires Sound(s)
    ensures var t := Tick(s, now); PlanSound(t) && StagesSound(t) && MissionSound(t) && HistorySound(t) && GateSound(t)
  {
    var t := Tick(s, now);
    assert forall j :: IsAccepted(t.items, j) == IsAccepted(s.items, j);
    if !Drafting(s.mission.status) {
      forall j | j in t.items ensures StageSound(t, j) {
        assert StageSound(s, j);
        assert PrereqsAccepted(t.items, t.deps, j) == PrereqsAccepted(s.items, s.deps, j);
      }
    }
  }

  lemma {:induction false} TickedRunsSound(s: Db, t: Db, now: int)
    requires RunsSound(s) && t == Tick(s, now)
    ensures forall r :: IsLive(t.runs, r) <==> IsLive(s.runs, r) && !RunExpired(s.runs[r], now)
    ensures forall r :: 0 <= r < |t.runs| ==> t.runs[r].item in t.items && RunSound(t.runs[r])
  {
    forall r | 0 <= r < |t.runs| ensures t.runs[r].item in t.items && RunSound(t.runs[r]) {
      assert RunSound(s.runs[r]);
    }
  }

  lemma {:induction false} TickOnItem(s: Db, t: Db, now: int, j: Id)
    requires RunsSound(s) && t == Tick(s, now) && j in s.items
    requires forall r :: IsLive(t.runs, r) <==> IsLive(s.runs, r) && !RunExpired(s.runs[r], now)
    ensures t.items[j].status == WorkStatus.Running <==> HasLiveRun(t.runs, j)
  {
    if HasLiveRun(s.runs, j) {
      var q :| IsLive(s.runs, q) && s.runs[q].item == j;
      if RunExpired(s.runs[q], now) {
        assert HasExpiredRun(s.runs, j, now);
      } else {
        assert IsLive(t.runs, q) && t.runs[q].item == j;
        forall r | 0 <= r < |s.runs| && s.runs[r].item == j ensures !RunExpired(s.runs[r], now) {
          assert RunSound(s.runs[r]);
        }
      }
    }
  }

  lemma {:induction false} TickKeepsRuns(s: Db, now: int)
    requires RunsSound(s)
    ensures RunsSound(Tick(s, now))
  {
    var t := Tick(s, now);
    TickedRunsSound(s, t, now);
    forall j | j in t.items ensures t.items[j].status == WorkStatus.Running <==> HasLiveRun(t.runs, j) {
      TickOnItem(s, t, now, j);
    }
  }

  lemma {:induction false} TickKeepsSound(s: Db, now: int)
    requires Sound(s)
    ensures Sound(Tick(s, now))
  {
    TickKeepsStages(s, now);
    TickKeepsRuns(s, now);
  }

  /** The calls that change the mission row only. */
  lemma {:induction false} MissionMoveKeepsSound(s: Db, e: Event)
    requires Sound(s) && (e.EAccept? || e.EStartExecution? || e.ELeadReview? || e.EMove?)
    ensures Sound(After(s, Step(s, e)))
  {
    if Step(s, e).Done? {
      MissionRowKeepsSound(s, Step(s, e).db.mission);
    }
  }

  lemma {:induction false} StepKeepsSound(s: Db, e: Event)
    requires Sound(s)
    ensures Sound(After(s, Step(s, e)))
  {
    match e
    case EPlan(expected, specs, found) => PlanKeepsSound(s, expected, specs, found);
    case EEdit(i, expected, valid, requirements) => EditKeepsSound(s, i, expected, valid, requirements);
    case EAddDependency(item, on) => DependencyEditsKeepSound(s, item, on, Edge(on, item));
    case ERemoveDependency(edge) => DependencyEditsKeepSound(s, edge.target, edge.source, edge);
    case EApprovePlan(expected) => ApproveKeepsSound(s, expected);
    case EStartItem(i, paused, now) => StartKeepsSound(s, i, paused, now);
    case ESubmitRun(r, claims) => SubmitKeepsSound(s, r, claims);
    case EExecuteRun(r, model) => ExecuteKeepsSound(s, r, model);
    case EReview(i, accept) => ReviewKeepsSound(s, i, accept);
    case ETick(now) => TickKeepsSound(s, now);
    case _ => MissionMoveKeepsSound(s, e);
  }

  lemma {:induction false} RunKeepsSound(s: Db, events: seq<Event>)
    requires Sound(s)
    ensures Sound(Exec(s, events))
  {
    if events == [] {
    } else {
      var n := |events| - 1;
      RunKeepsSound(s, events[..n]);
      StepKeepsSound(Exec(s, events[..n]), events[n]);
    }
  }

  /** Every state of every run is sound, whatever calls are made and whichever raise. */
  lemma {:induction false} ReachableIsSound(start: Db, events: seq<Event>)
    requires Fresh(start)
    ensures Sound(Exec(start, events))
  {
    if events == [] {
      OrderMeansAcyclic(start.deps, []);
    } else {
      var n := |events| - 1;
      ReachableIsSound(start, events[..n]);
      StepKeepsSound(Exec(start, events[..n]), events[n]);
    }
  }
}
