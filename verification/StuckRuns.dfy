/** The states that block a mission for good do occur: every item of every plan can get there. */
module StuckRuns {
  import opened Graphs
  import opened Planner
  import opened Lifecycles
  import opened Quality
  import opened MissionFlow
  import opened MissionSafety
  import opened MissionTheorems

  // ----- Every valid plan is reached -----

  ghost predicate ValidPlan(specs: seq<Spec>) {
    && specs != [] && AllKnown(specs) && !HasCycle(PlanEdges(specs))
    && UniqueKeys(specs) && Distinct(PlanEdges(specs))
  }

  /** The items, dependencies and nothing else of a plan. */
  ghost function Planned(m: Mission, specs: seq<Spec>): Db {
    Db(m, DraftItems(specs), PlanEdges(specs), [], [], [])
  }

  /** The state after the plan was approved: dependent items wait, the others are ready. */
  ghost function Approved(m: Mission, specs: seq<Spec>): Db {
    var deps, drafts := PlanEdges(specs), DraftItems(specs);
    Db(m, map k | k in drafts :: Queued(deps, k, drafts[k]), deps, [], [], [])
  }

  /** Whatever was drafted before, a valid plan replaces it. */
  lemma {:induction false} PlanOnce(s: Db, specs: seq<Spec>)
    requires s.mission.status in {MissionStatus.LeadTriage, MissionStatus.Planning} && ValidPlan(specs)
    ensures var t := Exec(s, [EPlan(s.mission.version, specs, true)]);
            t == Planned(t.mission, specs) && t.mission.status == MissionStatus.Planning
  {
    var e := EPlan(s.mission.version, specs, true);
    ExecOne(s, e);
    assert Step(s, e) == PlanMission(s, s.mission.version, specs, true);
  }

  lemma {:induction false} ApproveOnce(m: Mission, specs: seq<Spec>)
    requires ValidPlan(specs) && m.status == MissionStatus.Planning
    ensures Exec(Planned(m, specs), [EApprovePlan(m.version)]) == Approved(Advance(m, MissionStatus.Ready), specs)
  {
    var s, t := Planned(m, specs), Approved(Advance(m, MissionStatus.Ready), specs);
    ExecOne(s, EApprovePlan(m.version));
    assert Step(s, EApprovePlan(m.version)) == ApprovePlan(s, m.version);
    assert specs[0].key in s.items;
    assert ApprovePlan(s, m.version).db.items == t.items;
  }

  lemma {:induction false} AcceptOnceRouted(s: Db)
    requires s.mission.status == MissionStatus.Routed
    ensures Exec(s, [EAccept(s.mission.version)]).mission.status == MissionStatus.LeadTriage
  {
    ExecOne(s, EAccept(s.mission.version));
  }

  /** The state is the one in which this plan has just been approved. */
  ghost predicate JustApproved(t: Db, specs: seq<Spec>) {
    t == Approved(t.mission, specs) && t.mission.status == MissionStatus.Ready
  }

  lemma {:induction false} PlanAndApprove(s: Db, specs: seq<Spec>) returns (events: seq<Event>)
    requires s.mission.status in {MissionStatus.LeadTriage, MissionStatus.Planning} && ValidPlan(specs)
    ensures JustApproved(Exec(s, events), specs) && forall e <- events :: !e.EMove?
  {
    var plan := [EPlan(s.mission.version, specs, true)];
    var t := Exec(s, plan);
    PlanOnce(s, specs);
    ApproveOnce(t.mission, specs);
    ExecJoins(s, plan, [EApprovePlan(t.mission.version)]);
    events := plan + [EApprovePlan(t.mission.version)];
  }

  lemma {:induction false} JustQueued(s: Db, specs: seq<Spec>, i: Id)
    requires JustApproved(s, specs) && i in Keys(specs)
    ensures i in s.items && s.items[i].status in {WorkStatus.Ready, WorkStatus.WaitingDependency}
  {
    assert s.items[i] == Queued(s.deps, i, DraftItems(specs)[i]);
  }

  lemma {:induction false} NothingStuckYet(s: Db, specs: seq<Spec>)
    requires JustApproved(s, specs)
    ensures !HasStuck(s) && Unfinished(s) == Untouched(s) == Keys(specs) && !Drafting(s.mission.status)
  {
    assert s.items.Keys == Keys(specs) && s.artifacts == [];
    forall i
      ensures i in Keys(specs) ==> i in Unfinished(s) && i in Untouched(s)
      ensures !Stuck(s, i)
    {
      if i in Keys(specs) { JustQueued(s, specs, i); }
    }
  }

  /** From every mission that is still drafted every valid plan can be planned and approved, and
      nothing is stuck then. */
  lemma {:induction false} PlanIsReached(s: Db, specs: seq<Spec>) returns (events: seq<Event>)
    requires Sound(s) && Drafting(s.mission.status) && ValidPlan(specs)
    ensures var t := Exec(s, events);
            JustApproved(t, specs) && Workable(t) && Unfinished(t) == Untouched(t) == Keys(specs)
    ensures forall e <- events :: !e.EMove?
  {
    if s.mission.status == MissionStatus.Routed {
      var accept := [EAccept(s.mission.version)];
      AcceptOnceRouted(s);
      var rest := PlanAndApprove(Exec(s, accept), specs);
      ExecJoins(s, accept, rest);
      events := accept + rest;
    } else {
      events := PlanAndApprove(s, specs);
    }
    RunKeepsSound(s, events);
    NothingStuckYet(Exec(s, events), specs);
  }

  // ----- Getting to an item -----

  /** Items in the way are finished until the untouched item i can start. */
  lemma {:induction false} WorkTowards(s: Db, i: Id) returns (events: seq<Event>)
    requires Workable(s) && i in Untouched(s)
    ensures var t := Exec(s, events); Workable(t) && t.deps == s.deps && i in Untouched(t) && CanStart(t, i)
    decreases Unfinished(s)
  {
    assert i in Unfinished(s);
    StrandedIsStuck(s);
    var j := SomethingCanMove(s);
    if j == i {
      events := [];
    } else {
      var first := FinishItem(s, j);
      var rest := WorkTowards(Exec(s, first), i);
      ExecJoins(s, first, rest);
      events := first + rest;
    }
  }

  /** Item i is in its first run, nothing is stuck, and this is the run. */
  ghost predicate InFirstRun(t: Db, i: Id, r: nat) {
    && Workable(t) && HasStatus(t, i, WorkStatus.Running) && !HasArtifact(t.artifacts, i)
    && IsLive(t.runs, r) && t.runs[r].item == i
  }

  /** Every item of every valid plan can be brought into work from a fresh mission. */
  lemma {:induction false} ReachFirstRun(start: Db, specs: seq<Spec>, i: Id) returns (events: seq<Event>, r: nat)
    requires Fresh(start) && ValidPlan(specs) && i in Keys(specs)
    ensures var t := Exec(start, events); InFirstRun(t, i, r) && t.deps == PlanEdges(specs)
  {
    ReachableIsSound(start, []);
    var plan := PlanIsReached(start, specs);
    var s := Exec(start, plan);
    var work := WorkTowards(s, i);
    var t := Exec(s, work);
    var begin := [EStartItem(i, false, 0)];
    StartBrings(t, i);
    var u := Exec(t, begin);
    assert HasLiveRun(u.runs, i);
    r :| IsLive(u.runs, r) && u.runs[r].item == i;
    ExecJoins(s, work, begin);
    ExecJoins(start, plan, work + begin);
    events := plan + (work + begin);
  }

  // ----- How a first run gets an item stuck -----

  ghost predicate ClosedByScheduler(run: Run, i: Id) {
    run.item == i && run.status == RunStatus.Closed && run.reason == SchedulerTimeout && !run.grantsRevoked
  }

  /** The item failed with a run that the scheduler closed and whose tool grants it left in force. */
  ghost predicate TimedOut(s: Db, i: Id) {
    && HasStatus(s, i, WorkStatus.Failed)
    && exists r :: 0 <= r < |s.runs| && ClosedByScheduler(s.runs[r], i)
  }

  lemma {:induction false} TickFails(s: Db, i: Id, r: nat, now: int)
    requires InFirstRun(s, i, r) && now > s.runs[r].updatedAt + RUN_TIMEOUT
    ensures TimedOut(Tick(s, now), i) && Stuck(Tick(s, now), i)
  {
    assert RunSound(s.runs[r]);
    assert HasExpiredRun(s.runs, i, now);
    assert ClosedByScheduler(Tick(s, now).runs[r], i);
  }

  lemma {:induction false} TickOne(s: Db, now: int)
    ensures Exec(s, [ETick(now)]) == Tick(s, now)
  {
    ExecOne(s, ETick(now));
  }

  lemma {:induction false} CanTimeOut(s: Db, i: Id, r: nat) returns (e: Event)
    requires InFirstRun(s, i, r)
    ensures var t := Exec(s, [e]); TimedOut(t, i) && Stuck(t, i)
  {
    var now := s.runs[r].updatedAt + RUN_TIMEOUT + 1;
    e := ETick(now);
    TickOne(s, now);
    TickFails(s, i, r, now);
  }

  lemma {:induction false} NothingVerifiedYet(artifacts: seq<Artifact>, i: Id)
    requires !HasArtifact(artifacts, i)
    ensures VerifiedFor(artifacts, i) == 0 && !HasDisputed(artifacts, i)
  {
    VerifiedMeansArtifact(artifacts, i);
  }

  lemma {:induction false} CanBreakDown(s: Db, i: Id, r: nat)
    requires InFirstRun(s, i, r)
    ensures var t := Exec(s, [EExecuteRun(r, ModelRaised)]);
            && HasStatus(t, i, WorkStatus.Blocked) && !HasDisputed(t.artifacts, i)
            && (HasPrereqs(s.deps, i) ==> Stuck(t, i))
  {
    NothingVerifiedYet(s.artifacts, i);
    ExecOne(s, EExecuteRun(r, ModelRaised));
    assert Step(s, EExecuteRun(r, ModelRaised)) == ExecuteRun(s, r, ModelRaised);
  }

  /** A first submission without verified claims. */
  lemma {:induction false} SubmitShort(s: Db, i: Id, r: nat, claims: seq<Claim>)
    requires InFirstRun(s, i, r) && Readable(claims) && Verified !in claims
    ensures var t := Exec(s, [ESubmitRun(r, claims)]);
            && HasStatus(t, i, WorkStatus.Submitted) && !GatePasses(t, i) && t.deps == s.deps
            && (HasDisputed(t.artifacts, i) <==> Disputed in claims)
            && (Disputed in claims || HasPrereqs(s.deps, i) ==> Stuck(t, i))
  {
    ExecOne(s, ESubmitRun(r, claims));
    assert Step(s, ESubmitRun(r, claims)) == SubmitRun(s, r, claims);
    NothingVerifiedYet(s.artifacts, i);
    UnverifiedDoesNotPass(s.artifacts, claims, s.items[i].requirements, i);
    Submitting(s.artifacts, Artifact(i, claims), i);
  }

  lemma {:induction false} RefusalSticks(s: Db, i: Id)
    requires HasStatus(s, i, WorkStatus.Submitted)
    ensures var t := ReviewItem(s, i, false).db;
            && HasStatus(t, i, WorkStatus.RevisionRequired) && t.artifacts == s.artifacts
            && (HasPrereqs(s.deps, i) ==> Stuck(t, i))
  {}

  lemma {:induction false} CanBeSentBack(s: Db, i: Id, r: nat)
    requires InFirstRun(s, i, r)
    ensures var t := Exec(s, [ESubmitRun(r, []), EReview(i, false)]);
            && HasStatus(t, i, WorkStatus.RevisionRequired) && !HasDisputed(t.artifacts, i)
            && (HasPrereqs(s.deps, i) ==> Stuck(t, i))
  {
    SubmitShort(s, i, r, []);
    var t := Exec(s, [ESubmitRun(r, [])]);
    RefuseOne(t, i);
    RefusalSticks(t, i);
    ExecJoins(s, [ESubmitRun(r, [])], [EReview(i, false)]);
    assert [ESubmitRun(r, [])] + [EReview(i, false)] == [ESubmitRun(r, []), EReview(i, false)];
  }

  // ----- From a fresh mission -----

  /** Some run from the fresh mission ends with item i stuck in this status, disputed or not. */
  ghost predicate CanStickIn(start: Db, i: Id, status: WorkStatus, disputed: bool) {
    exists events :: var t := Exec(start, events);
      Stuck(t, i) && HasStatus(t, i, status) && (HasDisputed(t.artifacts, i) <==> disputed)
  }

  lemma {:induction false} SticksVia(start: Db, first: seq<Event>, rest: seq<Event>, i: Id, status: WorkStatus,
                                     disputed: bool)
    requires var t := Exec(Exec(start, first), rest);
             Stuck(t, i) && HasStatus(t, i, status) && (HasDisputed(t.artifacts, i) <==> disputed)
    ensures CanStickIn(start, i, status, disputed)
  {
    ExecJoins(start, first, rest);
    assert Stuck(Exec(start, first + rest), i);
  }

  /** In every approved plan every item can time out, which leaves a closed run with its tool grants. */
  lemma {:induction false} EveryItemCanTimeOut(start: Db, specs: seq<Spec>, i: Id)
    requires Fresh(start) && ValidPlan(specs) && i in Keys(specs)
    ensures exists events :: TimedOut(Exec(start, events), i) && Stuck(Exec(start, events), i)
  {
    var first, r := ReachFirstRun(start, specs, i);
    var e := CanTimeOut(Exec(start, first), i, r);
    ExecJoins(start, first, [e]);
    assert TimedOut(Exec(start, first + [e]), i) && Stuck(Exec(start, first + [e]), i);
  }

  /** In every approved plan every item can be submitted with a dispute, and nothing makes up for it. */
  lemma {:induction false} EveryItemCanBeDisputed(start: Db, specs: seq<Spec>, i: Id)
    requires Fresh(start) && ValidPlan(specs) && i in Keys(specs)
    ensures CanStickIn(start, i, WorkStatus.Submitted, true)
  {
    var first, r := ReachFirstRun(start, specs, i);
    SubmitShort(Exec(start, first), i, r, [Disputed]);
    SticksVia(start, first, [ESubmitRun(r, [Disputed])], i, WorkStatus.Submitted, true);
  }

  /** In every approved plan every item with prerequisites can get stuck without any dispute: submitted
      without evidence, sent back, or blocked by a model failure. */
  lemma {:induction false} EveryDependentItemCanStick(start: Db, specs: seq<Spec>, i: Id)
    requires Fresh(start) && ValidPlan(specs) && i in Keys(specs) && HasPrereqs(PlanEdges(specs), i)
    ensures CanStickIn(start, i, WorkStatus.Submitted, false)
    ensures CanStickIn(start, i, WorkStatus.RevisionRequired, false)
    ensures CanStickIn(start, i, WorkStatus.Blocked, false)
  {
    var first, r := ReachFirstRun(start, specs, i);
    var s := Exec(start, first);
    SubmitShort(s, i, r, []);
    SticksVia(start, first, [ESubmitRun(r, [])], i, WorkStatus.Submitted, false);
    CanBeSentBack(s, i, r);
    SticksVia(start, first, [ESubmitRun(r, []), EReview(i, false)], i, WorkStatus.RevisionRequired, false);
    CanBreakDown(s, i, r);
    SticksVia(start, first, [EExecuteRun(r, ModelRaised)], i, WorkStatus.Blocked, false);
  }

  /** Such plans exist: a single item, and one item that depends on another. */
  lemma {:induction false} SmallPlansAreValid(a: Id, b: Id)
    requires a != b
    ensures ValidPlan([Spec(a, [], 0)])
    ensures var two := [Spec(a, [], 0), Spec(b, [a], 0)]; ValidPlan(two) && HasPrereqs(PlanEdges(two), b)
  {
    var one, two := [Spec(a, [], 0)], [Spec(a, [], 0), Spec(b, [a], 0)];
    assert one[..0] == [] && PlanEdges(one) == [];
    OrderMeansAcyclic([], []);
    assert two[..1] == one && PlanEdges(two) == [Edge(a, b)];
    assert two[0].key in Keys(two) && Edge(a, b) in PlanEdges(two);
    assert [a, b][..1] == [a];
    OrderMeansAcyclic([Edge(a, b)], [a, b]);
  }
}
