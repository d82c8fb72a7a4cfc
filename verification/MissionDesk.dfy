/** The mission, planning and execution services over mutable rows. Every call either
    commits what module MissionFlow says, or restores the rows it had already changed. */
module MissionDesk {
  import opened Basics
  import opened Graphs
  import opened Planner
  import opened Governance
  import opened Lifecycles
  import opened Quality
  import opened MissionFlow
  import opened MissionSafety
  import opened MissionEffects

  datatype Reply = Ok | Error(error: MissionFlow.Error)

  ghost function ExpiredCount(runs: seq<Run>, now: int): nat {
    if runs == [] then 0
    else ExpiredCount(runs[..|runs| - 1], now) + if RunExpired(runs[|runs| - 1], now) then 1 else 0
  }

  /** The count is that of the runs opened more than 600 seconds before. */
  lemma {:induction false} ExpiredAreOverdue(runs: seq<Run>, now: int)
    requires forall run <- runs :: RunSound(run)
    ensures ExpiredCount(runs, now) == |OverdueRuns(runs, now)|
  {
    if runs == [] {
    } else {
      var n := |runs| - 1;
      ExpiredAreOverdue(runs[..n], now);
      assert RunSound(runs[n]);
      var before := OverdueRuns(runs[..n], now);
      assert forall r: nat :: r in OverdueRuns(runs, now) <==> r in before || (r == n && IsOverdue(runs[n], now));
      assert OverdueRuns(runs, now) == if IsOverdue(runs[n], now) then before + {n} else before;
    }
  }

  lemma {:induction false} ExpiredPrefix(runs: seq<Run>, r: nat, now: int)
    requires r < |runs|
    ensures forall i :: HasExpiredRun(runs[..r + 1], i, now) <==>
              HasExpiredRun(runs[..r], i, now) || (runs[r].item == i && RunExpired(runs[r], now))
    ensures ExpiredCount(runs[..r + 1], now) == ExpiredCount(runs[..r], now) + if RunExpired(runs[r], now) then 1 else 0
  {
    assert runs[..r + 1][..r] == runs[..r];
    forall i ensures HasExpiredRun(runs[..r + 1], i, now) <==>
                       HasExpiredRun(runs[..r], i, now) || (runs[r].item == i && RunExpired(runs[r], now))
    {
      if HasExpiredRun(runs[..r], i, now) {
        var q :| 0 <= q < r && runs[..r][q].item == i && RunExpired(runs[..r][q], now);
        assert runs[..r + 1][q] == runs[..r][q];
      }
      assert runs[..r + 1][r] == runs[r];
      if HasExpiredRun(runs[..r + 1], i, now) {
        var q :| 0 <= q < r + 1 && runs[..r + 1][q].item == i && RunExpired(runs[..r + 1][q], now);
        if q < r {
          assert runs[..r][q] == runs[..r + 1][q];
        }
      }
    }
  }

  class Desk {
    var mission: Mission
    var items: map<Id, Item>
    var deps: seq<Edge>
    var runs: seq<Run>
    var artifacts: seq<Artifact>
    ghost var accepted: seq<Id>

    ghost function State(): Db
      reads this
    {
      Db(mission, items, deps, runs, artifacts, accepted)
    }

    ghost predicate Valid()
      reads this
    {
      Sound(State())
    }

    /** What the foreign keys of the dependency table enforce. */
    ghost predicate ForeignKeys()
      reads this
    {
      forall e :: e in deps ==> e.source in items && e.target in items
    }

    /** The call ended as the flow prescribes for the state it started from. */
    ghost predicate Ended(before: Db, o: Outcome, reply: Reply)
      reads this
    {
      && State() == After(before, o)
      && reply == (match o case Done(_) => Ok case Raised(error) => Error(error))
    }

    constructor (version: int, riskLevel: string)
      ensures Valid() && Fresh(State()) && mission.version == version && mission.riskLevel == riskLevel
    {
      mission := Mission(MissionStatus.Routed, version, 0, riskLevel);
      items, deps, runs, artifacts, accepted := map[], [], [], [], [];
      new;
      ReachableIsSound(State(), []);
    }

    /** Whatever call was made, the rows are sound afterwards if they were before. */
    lemma CallKeepsValid(before: Db, e: Event, reply: Reply)
      requires Sound(before) && Ended(before, Step(before, e), reply)
      ensures Valid() && ForeignKeys()
    {
      StepKeepsSound(before, e);
    }

    // ----- Status helpers and rollback -----

    method MissionTransition(target: MissionStatus) returns (ok: bool)
      modifies this`mission
      ensures ok <==> Legal(old(mission), target)
      ensures mission == if ok then Advance(old(mission), target) else old(mission)
    {
      ok := target in MissionTargets(mission.status);
      if ok {
        mission := mission.(status := target, version := mission.version + 1);
      }
    }

    method WorkTransition(i: Id, target: WorkStatus) returns (ok: bool)
      requires i in items
      modifies this`items
      ensures ok <==> target in WorkTargets(old(items)[i].status)
      ensures items == if ok then old(items)[i := Moved(old(items)[i], target, 1)] else old(items)
    {
      ok := target in WorkTargets(items[i].status);
      if ok {
        items := items[i := items[i].(status := target, version := items[i].version + 1)];
      }
    }

    method RunTransition(r: nat, target: RunStatus) returns (ok: bool)
      requires r < |runs|
      modifies this`runs
      ensures ok <==> target in RunTargets(old(runs)[r].status)
      ensures runs ==
                if ok then old(runs)[r := old(runs)[r].(status := target, version := old(runs)[r].version + 1)]
                else old(runs)
    {
      ok := target in RunTargets(runs[r].status);
      if ok {
        runs := runs[r := runs[r].(status := target, version := runs[r].version + 1)];
      }
    }

    method Rollback(m: Mission, i: map<Id, Item>, d: seq<Edge>, r: seq<Run>, a: seq<Artifact>)
      modifies this`mission, this`items, this`deps, this`runs, this`artifacts
      ensures mission == m && items == i && deps == d && runs == r && artifacts == a
    {
      mission, items, deps, runs, artifacts := m, i, d, r, a;
    }

    // ----- Planning -----

    method AcceptMission(expected: int) returns (reply: Reply)
      requires Valid()
      modifies this
      ensures Valid()
      ensures Ended(old(State()), Step(old(State()), EAccept(expected)), reply)
    {
      StepKeepsSound(State(), EAccept(expected));
      if mission.version != expected { return Error(Conflict); }
      var ok := MissionTransition(MissionStatus.LeadTriage);
      reply := if ok then Ok else Error(IllegalTransition);
    }

    static lemma {:induction false} KeysGrow(specs: seq<Spec>, n: nat)
      requires n < |specs|
      ensures Keys(specs[..n + 1]) == Keys(specs[..n]) + {specs[n].key}
      ensures specs[n].key in Keys(specs[..n]) <==> exists j :: 0 <= j < n && specs[j].key == specs[n].key
    {
      assert specs[..n + 1] == specs[..n] + [specs[n]];
      assert forall i :: 0 <= i < n ==> specs[..n][i] in specs[..n];
    }

    /** One row per spec; a repeated key violates the unique constraint. */
    method CreateItems(specs: seq<Spec>) returns (ok: bool)
      requires items == map[]
      modifies this`items
      ensures ok <==> UniqueKeys(specs)
      ensures ok ==> items == DraftItems(specs)
    {
      for n := 0 to |specs|
        invariant forall i, j :: 0 <= i < j < n ==> specs[i].key != specs[j].key
        invariant items == DraftItems(specs[..n])
      {
        KeysGrow(specs, n);
        if specs[n].key in items { return false; }
        assert specs[..n + 1][..n] == specs[..n];
        items := items[specs[n].key := Item(WorkStatus.Draft, 1, specs[n].requirements)];
      }
      assert specs[..|specs|] == specs;
      ok := true;
    }

    /** One row per listed dependency; a repeated pair violates the unique constraint. */
    method CreateDependencies(specs: seq<Spec>) returns (ok: bool)
      requires deps == []
      modifies this`deps
      ensures ok <==> Distinct(PlanEdges(specs))
      ensures ok ==> deps == PlanEdges(specs)
    {
      ghost var all := PlanEdges(specs);
      for n := 0 to |specs|
        invariant |deps| == |PlanEdges(specs[..n])| <= |all|
        invariant deps == all[..|deps|] && Distinct(deps)
      {
        PlanEdgesAt(specs, n);
        ghost var base := |deps|;
        for k := 0 to |specs[n].dependsOn|
          invariant |deps| == base + k
          invariant deps == all[..|deps|] && Distinct(deps)
        {
          var e := Edge(specs[n].dependsOn[k], specs[n].key);
          assert all[|deps|] == e;
          if e in deps {
            var j :| 0 <= j < |deps| && deps[j] == e;
            assert all[j] == all[|deps|];
            return false;
          }
          deps := deps + [e];
        }
      }
      assert specs[..|specs|] == specs;
      ok := true;
    }

    method TryPlanMission(expected: int, specs: seq<Spec>, resourcesFound: bool) returns (reply: Reply)
      modifies this
      ensures Ended(old(State()), MissionFlow.PlanMission(old(State()), expected, specs, resourcesFound), reply)
    {
      var m, i, d, r, a := mission, items, deps, runs, artifacts;
      if mission.version != expected { return Error(Conflict); }
      if mission.status == MissionStatus.LeadTriage {
        var ok := MissionTransition(MissionStatus.Planning);
        assert ok;
      } else if mission.status != MissionStatus.Planning {
        return Error(Business);
      }
      var verdict := ValidateAcyclic(specs);
      if !resourcesFound || verdict != Verdict.Accepted {
        Rollback(m, i, d, r, a);
        return Error(Business);
      }
      // Deleting the old items deletes their dependencies and runs, and detaches their artifacts.
      items, deps, runs, artifacts, accepted := map[], [], [], [], [];
      var created := CreateItems(specs);
      if created {
        created := CreateDependencies(specs);
      }
      if !created {
        Rollback(m, i, d, r, a);
        accepted := old(accepted);
        return Error(Integrity);
      }
      mission := mission.(version := mission.version + 1, planVersion := mission.planVersion + 1);
      reply := Ok;
    }

    method PlanMission(expected: int, specs: seq<Spec>, resourcesFound: bool) returns (reply: Reply)
      requires Valid()
      modifies this
      ensures Valid()
      ensures Ended(old(State()), Step(old(State()), EPlan(expected, specs, resourcesFound)), reply)
    {
      reply := TryPlanMission(expected, specs, resourcesFound);
      CallKeepsValid(old(State()), EPlan(expected, specs, resourcesFound), reply);
    }

    method TryEditItem(i: Id, expected: int, valid: bool, requirements: Option<nat>) returns (reply: Reply)
      modifies this
      ensures Ended(old(State()), Step(old(State()), EEdit(i, expected, valid, requirements)), reply)
    {
      if i !in items { return Error(NotFound); }
      if mission.status != MissionStatus.Planning { return Error(Business); }
      if items[i].version != expected { return Error(Conflict); }
      if !valid { return Error(Business); }
      var item := items[i];
      match requirements {
        case Some(n) => item := item.(requirements := n);
        case None =>
      }
      items := items[i := item.(version := item.version + 1)];
      mission := mission.(version := mission.version + 1, planVersion := mission.planVersion + 1);
      reply := Ok;
    }

    method EditItem(i: Id, expected: int, valid: bool, requirements: Option<nat>) returns (reply: Reply)
      requires Valid()
      modifies this
      ensures Valid()
      ensures Ended(old(State()), Step(old(State()), EEdit(i, expected, valid, requirements)), reply)
    {
      reply := TryEditItem(i, expected, valid, requirements);
      CallKeepsValid(old(State()), EEdit(i, expected, valid, requirements), reply);
    }

    method AddDependency(item: Id, on: Id) returns (reply: Reply)
      requires Valid()
      modifies this
      ensures Valid()
      ensures Ended(old(State()), Step(old(State()), EAddDependency(item, on)), reply)
    {
      StepKeepsSound(State(), EAddDependency(item, on));
      if mission.status != MissionStatus.Planning { return Error(Business); }
      if item == on { return Error(Business); }
      if item !in items || on !in items { return Error(Business); }
      if Edge(on, item) in deps { return Ok; }
      var edges := deps + [Edge(on, item)];
      var cyclic := DetectCycle(items.Keys, edges);
      if cyclic { return Error(Business); }
      deps := edges;
      mission := mission.(version := mission.version + 1, planVersion := mission.planVersion + 1);
      reply := Ok;
    }

    method RemoveDependency(e: Edge) returns (reply: Reply)
      requires Valid()
      modifies this
      ensures Valid()
      ensures Ended(old(State()), Step(old(State()), ERemoveDependency(e)), reply)
    {
      StepKeepsSound(State(), ERemoveDependency(e));
      if e !in deps { return Error(Business); }
      if mission.status != MissionStatus.Planning { return Error(Business); }
      deps := Without(deps, e);
      mission := mission.(version := mission.version + 1, planVersion := mission.planVersion + 1);
      reply := Ok;
    }

    method TryApprovePlan(expected: int) returns (reply: Reply)
      modifies this
      ensures Ended(old(State()), MissionFlow.ApprovePlan(old(State()), expected), reply)
    {
      if mission.version != expected { return Error(Conflict); }
      if items == map[] { return Error(Business); }
      var m, before, d, r, a := mission, items, deps, runs, artifacts;
      var dependent := set e | e in deps && e.target in items :: e.target;
      forall i | i in items ensures i in dependent <==> HasPrereqs(deps, i) {
        if HasPrereqs(deps, i) {
          var e :| e in deps && e.target == i;
          assert e.target in dependent;
        }
      }
      var todo := items.Keys;
      while todo != {}
        invariant todo <= before.Keys == items.Keys
        invariant mission == m && deps == d && runs == r && artifacts == a && accepted == old(accepted)
        invariant forall i :: i in todo ==> items[i] == before[i]
        invariant forall i :: i in before.Keys - todo ==>
                    WorkStatus.Ready in WorkTargets(before[i].status) && items[i] == Queued(deps, i, before[i])
        decreases todo
      {
        var i :| i in todo;
        todo := todo - {i};
        var ok := WorkTransition(i, WorkStatus.Ready);
        if !ok {
          assert WorkStatus.Ready !in WorkTargets(before[i].status);
          Rollback(m, before, d, r, a);
          return Error(IllegalTransition);
        }
        if i in dependent {
          ok := WorkTransition(i, WorkStatus.WaitingDependency);
          assert ok;
        }
      }
      assert items == map i | i in before :: Queued(deps, i, before[i]);
      var moved := MissionTransition(MissionStatus.Ready);
      if !moved {
        Rollback(m, before, d, r, a);
        return Error(IllegalTransition);
      }
      reply := Ok;
    }

    method ApprovePlan(expected: int) returns (reply: Reply)
      requires Valid()
      modifies this
      ensures Valid()
      ensures Ended(old(State()), Step(old(State()), EApprovePlan(expected)), reply)
    {
      reply := TryApprovePlan(expected);
      CallKeepsValid(old(State()), EApprovePlan(expected), reply);
    }

    method StartExecution(expected: int, paused: bool) returns (reply: Reply)
      requires Valid()
      modifies this
      ensures Valid()
      ensures Ended(old(State()), Step(old(State()), EStartExecution(expected, paused)), reply)
    {
      StepKeepsSound(State(), EStartExecution(expected, paused));
      if mission.version != expected { return Error(Conflict); }
      if paused { return Error(Paused); }
      var ok := MissionTransition(MissionStatus.Executing);
      reply := if ok then Ok else Error(IllegalTransition);
    }

    // ----- Execution -----

    /** The status chain of a start: brings the item to ASSIGNED where its status allows it. */
    method Assign(i: Id, hasPrereqs: bool) returns (reply: Reply)
      requires i in items
      modifies this`items
      ensures reply == Ok || (reply == Error(Business) && items == old(items))
      ensures reply == Ok <==> hasPrereqs || StartStatus(false, old(items)[i].status)
      ensures reply == Ok ==>
                var item := old(items)[i];
                items == if StartStatus(hasPrereqs, item.status) && item.status != WorkStatus.Assigned
                         then old(items)[i := Moved(item, WorkStatus.Assigned, 1)]
                         else old(items)
    {
      var ok := true;
      if hasPrereqs {
        if items[i].status == WorkStatus.WaitingDependency {
          ok := WorkTransition(i, WorkStatus.Assigned);
        }
      } else if items[i].status == WorkStatus.Ready {
        ok := WorkTransition(i, WorkStatus.Assigned);
      } else if items[i].status == WorkStatus.RevisionRequired {
        ok := WorkTransition(i, WorkStatus.Assigned);
      } else if items[i].status == WorkStatus.Blocked {
        ok := WorkTransition(i, WorkStatus.Assigned);
      } else if items[i].status != WorkStatus.Assigned {
        return Error(Business);
      }
      assert ok;
      reply := Ok;
    }

    method OpenRun(i: Id, now: int)
      modifies this`runs
      ensures runs == old(runs) + [NewRun(i, now)]
    {
      runs := runs + [Run(i, RunStatus.Created, 1, false, false, StillOpen, now)];
      var ok := RunTransition(|runs| - 1, RunStatus.ContextPrepared);
      assert ok;
      ok := RunTransition(|runs| - 1, RunStatus.Running);
      assert ok;
    }

    /** Ids of the prerequisites of an item. */
    function PrereqIds(i: Id): (ids: set<Id>)
      reads this`deps
      ensures HasPrereqs(deps, i) <==> ids != {}
      ensures forall p :: p in ids <==> Edge(p, i) in deps
    {
      var ids := set e | e in deps && e.target == i :: e.source;
      assert forall e :: e in deps && e.target == i ==> e.source in ids;
      assert forall p :: p in ids ==> Edge(p, i) in deps;
      ids
    }

    /** Whether all prerequisites of an item are accepted. */
    method Settled(i: Id) returns (settled: bool)
      requires ForeignKeys()
      ensures settled <==> PrereqsAccepted(items, deps, i)
    {
      assert forall e :: e in deps && e.target == i ==> e == Edge(e.source, i);
      settled := forall p :: p in PrereqIds(i) ==> items[p].status == WorkStatus.Accepted;
    }

    /** The status chain of a start up to RUNNING, rolled back where it is illegal. */
    method BringToRunning(i: Id, hasPrereqs: bool) returns (reply: Reply)
      requires i in items
      modifies this`items
      ensures reply == if StartStatus(hasPrereqs, old(items)[i].status) then Ok
                       else Error(if hasPrereqs then IllegalTransition else Business)
      ensures reply != Ok ==> items == old(items)
      ensures reply == Ok ==>
                var item := old(items)[i];
                items == old(items)[i := Moved(item, WorkStatus.Running,
                                               if item.status == WorkStatus.Assigned then 1 else 2)]
    {
      var before := items;
      reply := Assign(i, hasPrereqs);
      if reply != Ok { return; }
      var ok := WorkTransition(i, WorkStatus.Running);
      if !ok {
        items := before;
        return Error(IllegalTransition);
      }
    }

    method StartWorkItem(i: Id, paused: bool, now: int) returns (reply: Reply)
      requires Valid()
      modifies this
      ensures Valid()
      ensures Ended(old(State()), Step(old(State()), EStartItem(i, paused, now)), reply)
    {
      StepKeepsSound(State(), EStartItem(i, paused, now));
      if i !in items { return Error(NotFound); }
      if paused { return Error(Paused); }
      var settled := Settled(i);
      if !settled { return Error(Conflict); }
      reply := BringToRunning(i, PrereqIds(i) != {});
      if reply == Ok {
        OpenRun(i, now);
      }
    }

    /** The artifact and, one by one, the rows of its evidence; an unreadable claim raises. */
    method SaveArtifact(i: Id, claims: seq<Claim>) returns (saved: bool)
      modifies this`artifacts
      ensures saved <==> Readable(claims)
      ensures saved ==> artifacts == old(artifacts) + [Artifact(i, claims)]
    {
      artifacts := artifacts + [Artifact(i, [])];
      var last := |artifacts| - 1;
      for k := 0 to |claims|
        invariant artifacts == old(artifacts) + [Artifact(i, claims[..k])] && Readable(claims[..k])
      {
        assert claims[..k + 1] == claims[..k] + [claims[k]];
        if claims[k] == Unreadable { return false; }
        artifacts := artifacts[last := Artifact(i, artifacts[last].evidence + [claims[k]])];
      }
      assert claims[..|claims|] == claims;
      saved := true;
    }

    /** The body of a submission without rollback. When it raises after the run has left
        RUNNING, the run stays wherever it was. */
    method SubmitBody(r: nat, claims: seq<Claim>) returns (reply: Reply)
      modifies this`runs, this`items, this`artifacts
      ensures var o := SubmitRun(old(State()), r, claims);
              && reply == (match o case Done(_) => Ok case Raised(error) => Error(error))
              && (o.Done? ==> State() == o.db)
              && (o.Raised? ==> |runs| == |old(runs)| && items == old(items))
              && (o.Raised? && r < |runs| && old(runs)[r].status == RunStatus.Running ==>
                    RunStatus.Failed !in RunTargets(runs[r].status))
              && (o.Raised? && !IsLive(old(runs), r) ==> runs == old(runs) && artifacts == old(artifacts))
    {
      if r >= |runs| { return Error(NotFound); }
      if runs[r].status != RunStatus.Running { return Error(Business); }
      var ok := RunTransition(r, RunStatus.OutputSubmitted);
      assert ok;
      var i := runs[r].item;
      var saved := SaveArtifact(i, claims);
      if !saved { return Error(Malformed); }
      ok := RunTransition(r, RunStatus.Closed);
      assert ok;
      runs := runs[r := runs[r].(grantsRevoked := true, contextCleared := true, reason := OutputSaved)];
      if i !in items { return Error(NotFound); }
      ok := WorkTransition(i, WorkStatus.Submitted);
      reply := if ok then Ok else Error(IllegalTransition);
    }

    method SubmitAgentRun(r: nat, claims: seq<Claim>) returns (reply: Reply)
      requires Valid()
      modifies this
      ensures Valid()
      ensures Ended(old(State()), Step(old(State()), ESubmitRun(r, claims)), reply)
    {
      StepKeepsSound(State(), ESubmitRun(r, claims));
      var m, i, d, q, a := mission, items, deps, runs, artifacts;
      reply := SubmitBody(r, claims);
      if reply != Ok {
        Rollback(m, i, d, q, a);
      }
    }

    /** The try/except of the executor: the handler runs on whatever the body left behind. */
    method TryExecuteAgentRun(r: nat, model: ModelOutcome) returns (reply: Reply)
      modifies this
      ensures Ended(old(State()), MissionFlow.ExecuteRun(old(State()), r, model), reply)
    {
      if r >= |runs| { return Error(NotFound); }
      if runs[r].status != RunStatus.Running { return Error(Business); }
      var m, i, d, q, a := mission, items, deps, runs, artifacts;
      if model.Output? {
        var submitted := SubmitBody(r, model.claims);
        if submitted == Ok && model.usageRecorded { return Ok; }
      }
      var ok := RunTransition(r, RunStatus.Failed);
      if !ok {
        Rollback(m, i, d, q, a);
        return Error(IllegalTransition);
      }
      runs := runs[r := runs[r].(grantsRevoked := true, contextCleared := true, reason := ExecutionFailed)];
      ok := RunTransition(r, RunStatus.Closed);
      assert ok;
      var item := runs[r].item;
      if item in items && items[item].status == WorkStatus.Running {
        ok := WorkTransition(item, WorkStatus.Blocked);
        assert ok;
      }
      reply := Ok;
    }

    method ExecuteAgentRun(r: nat, model: ModelOutcome) returns (reply: Reply)
      requires Valid()
      modifies this
      ensures Valid()
      ensures Ended(old(State()), Step(old(State()), EExecuteRun(r, model)), reply)
    {
      reply := TryExecuteAgentRun(r, model);
      CallKeepsValid(old(State()), EExecuteRun(r, model), reply);
    }

    /** With i the only item accepted since, j has all prerequisites accepted iff i was its last open one. */
    static lemma {:induction false} SettledMeansLast(before: map<Id, Item>, now: map<Id, Item>, deps: seq<Edge>, i: Id,
                                                     j: Id)
      requires forall p :: IsAccepted(now, p) <==> IsAccepted(before, p) || p == i
      ensures PrereqsAccepted(now, deps, j) <==> OthersAccepted(before, deps, j, {i})
    {}

    /** The loop over the rows that depend on a just accepted item. */
    method ReleaseDownstream(i: Id, ghost before: Db)
      requires ForeignKeys() && deps == before.deps && i in before.items
      requires items == before.items[i := Moved(before.items[i], WorkStatus.Accepted, 1)]
      modifies this`items
      ensures items == AcceptItem(before, i).items
    {
      ghost var target := AcceptItem(before, i).items;
      for k := 0 to |deps|
        invariant items.Keys == target.Keys
        invariant forall j :: j in items ==>
                    items[j] ==
                      (if Released(before, i, j) && Edge(i, j) !in deps[..k] then before.items[j] else target[j])
      {
        assert deps[..k + 1] == deps[..k] + [deps[k]];
        if deps[k].source == i {
          var j := deps[k].target;
          assert deps[k] == Edge(i, j) && j in items;
          SettledMeansLast(before.items, items, deps, i, j);
          var settled := Settled(j);
          if settled && items[j].status == WorkStatus.WaitingDependency {
            var ok := WorkTransition(j, WorkStatus.Assigned);
            assert ok;
          }
        }
      }
      assert deps[..|deps|] == deps;
      assert items == target;
    }

    /** The quality gate over everything submitted for an item. */
    method RequireWorkItemQuality(i: Id) returns (passed: bool)
      requires i in items
      ensures passed <==> GatePasses(State(), i)
      ensures passed <==> VerifiedFor(artifacts, i) > 0
                          && 200 * VerifiedFor(artifacts, i) >= 159 * (items[i].requirements - 1)
                          && !HasDisputed(artifacts, i)
    {
      PassesIff(artifacts, items[i].requirements, i);
      var coverage := Coverage(VerifiedFor(artifacts, i), Required(items[i].requirements));
      var hasArtifact := HasArtifact(artifacts, i);
      var noDisputed := !HasDisputed(artifacts, i);
      passed := hasArtifact && coverage >= 80 && noDisputed;
    }

    method TryReviewWorkItem(i: Id, accept: bool) returns (reply: Reply)
      requires ForeignKeys()
      modifies this
      ensures Ended(old(State()), Step(old(State()), EReview(i, accept)), reply)
    {
      if i !in items { return Error(NotFound); }
      if items[i].status != WorkStatus.Submitted { return Error(Business); }
      if accept {
        var passed := RequireWorkItemQuality(i);
        if !passed { return Error(Business); }
      }
      ghost var before := State();
      var ok := WorkTransition(i, if accept then WorkStatus.Accepted else WorkStatus.RevisionRequired);
      assert ok;
      if accept {
        accepted := accepted + [i];
        ReleaseDownstream(i, before);
      }
      reply := Ok;
    }

    method ReviewWorkItem(i: Id, accept: bool) returns (reply: Reply)
      requires Valid()
      modifies this
      ensures Valid()
      ensures Ended(old(State()), Step(old(State()), EReview(i, accept)), reply)
    {
      reply := TryReviewWorkItem(i, accept);
      CallKeepsValid(old(State()), EReview(i, accept), reply);
    }

    /** Closing one expired run and failing its item if that is still running. */
    method TimeOut(r: nat)
      requires r < |runs| && (runs[r].status == RunStatus.Running || runs[r].status == RunStatus.ToolWait)
      modifies this`runs, this`items
      ensures runs == old(runs)[r := ClosedRun(old(runs)[r], false, SchedulerTimeout)]
      ensures var i := old(runs)[r].item;
              items == if i in old(items) && old(items)[i].status == WorkStatus.Running
                       then old(items)[i := Moved(old(items)[i], WorkStatus.Failed, 1)] else old(items)
    {
      var ok := RunTransition(r, RunStatus.TimedOut);
      assert ok;
      ok := RunTransition(r, RunStatus.Closed);
      assert ok;
      runs := runs[r := runs[r].(contextCleared := true, reason := SchedulerTimeout)];
      var i := runs[r].item;
      if i in items && items[i].status == WorkStatus.Running {
        items := items[i := items[i].(status := WorkStatus.Failed, version := items[i].version + 1)];
      }
    }

    method TrySchedulerTick(now: int) returns (timedOut: nat)
      modifies this`runs, this`items
      ensures State() == Tick(old(State()), now)
      ensures timedOut == ExpiredCount(old(runs), now)
    {
      timedOut := 0;
      var selected := runs;
      ghost var before := items;
      for r := 0 to |selected|
        invariant |runs| == |selected| && items.Keys == before.Keys
        invariant forall q :: r <= q < |runs| ==> runs[q] == selected[q]
        invariant forall q :: 0 <= q < r ==>
                    runs[q] ==
                      if RunExpired(selected[q], now)
                      then ClosedRun(selected[q], false, SchedulerTimeout)
                      else selected[q]
        invariant forall i :: i in items ==> items[i] == TimedOutItem(selected[..r], i, before[i], now)
        invariant timedOut == ExpiredCount(selected[..r], now)
      {
        ExpiredPrefix(selected, r, now);
        if RunExpired(runs[r], now) {
          TimeOut(r);
          timedOut := timedOut + 1;
        }
      }
      assert selected[..|selected|] == selected;
      assert runs == Tick(old(State()), now).runs;
      assert items == Tick(old(State()), now).items;
    }

    method SchedulerTick(now: int) returns (timedOut: nat)
      requires Valid()
      modifies this
      ensures Valid()
      ensures State() == Tick(old(State()), now)
      ensures timedOut == |OverdueRuns(old(runs), now)|
    {
      ExpiredAreOverdue(runs, now);
      timedOut := TrySchedulerTick(now);
      TickKeepsSound(old(State()), now);
    }

    method LeadReviewMission(expected: int) returns (reply: Reply)
      requires Valid()
      modifies this
      ensures Valid()
      ensures Ended(old(State()), Step(old(State()), ELeadReview(expected)), reply)
    {
      StepKeepsSound(State(), ELeadReview(expected));
      if mission.version != expected { return Error(Conflict); }
      if items == map[] || exists i :: i in items && items[i].status != WorkStatus.Accepted { return Error(Conflict); }
      var ok := MissionTransition(MissionStatus.LeadReview);
      if !ok { return Error(IllegalTransition); }
      var target := if IsHighRisk(mission.riskLevel) then MissionStatus.ApprovalRequired else MissionStatus.Completed;
      ok := MissionTransition(target);
      assert ok;
      reply := Ok;
    }
  }
}
