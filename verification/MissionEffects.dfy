/** What the planning and execution calls come to, told in statuses, edges, times and counts alone. */
module MissionEffects {
  import opened Basics
  import opened Graphs
  import opened Planner
  import opened Lifecycles
  import opened Quality
  import opened MissionFlow
  import opened MissionSafety

  /** The call commits. */
  ghost predicate Commits(s: Db, e: Event) {
    Step(s, e).Done?
  }

  /** Everything but the mission row, the items and the runs named stays as it is. */
  ghost predicate OthersStay(s: Db, t: Db, i: Id) {
    t.items.Keys == s.items.Keys && forall j :: j in s.items && j != i ==> t.items[j] == s.items[j]
  }

  ghost predicate IsNow(t: Db, i: Id, status: WorkStatus) {
    i in t.items && t.items[i].status == status
  }

  // ----- Refusals -----

  /** A call that expects another version than the mission has raises, whatever else holds. */
  lemma {:induction false} StaleCallsRaise(s: Db, e: Event)
    requires e.EAccept? || e.EPlan? || e.EApprovePlan? || e.EStartExecution? || e.ELeadReview?
    requires e.expected != s.mission.version
    ensures Step(s, e) == Raised(Conflict)
  {}

  /** While the mission is paused neither it nor any of its items starts. */
  lemma {:induction false} PausedStartsNothing(s: Db, e: Event)
    requires (e.EStartExecution? || e.EStartItem?) && e.paused
    ensures !Commits(s, e) && After(s, Step(s, e)) == s
  {}

  // ----- Planning -----

  ghost predicate PlanFits(s: Db, specs: seq<Spec>) {
    && (forall e :: e in PlanEdges(specs) ==> e.source in Keys(specs)) && !HasCycle(PlanEdges(specs))
    && (forall i, j :: 0 <= i < j < |specs| ==> specs[i].key != specs[j].key) && Distinct(PlanEdges(specs))
  }

  /** A plan is taken exactly in triage or planning, with everything it names at hand, known and simple
      dependencies, no cycle and no key twice. It leaves the mission planning and one plan version on. */
  lemma {:induction false} PlanEnds(s: Db, expected: int, specs: seq<Spec>, found: bool)
    ensures var e := EPlan(expected, specs, found);
            var t := After(s, Step(s, e));
            && (Commits(s, e) <==>
                  && expected == s.mission.version && found && PlanFits(s, specs)
                  && s.mission.status in {MissionStatus.LeadTriage, MissionStatus.Planning})
            && (Commits(s, e) ==>
                  && t.mission.status == MissionStatus.Planning && t.mission.planVersion == s.mission.planVersion + 1
                  && t.mission.version == s.mission.version + (if s.mission.status == t.mission.status then 1 else 2)
                  && t.mission.riskLevel == s.mission.riskLevel
                  && t.items.Keys == Keys(specs) && t.deps == PlanEdges(specs)
                  && t.runs == [] && t.artifacts == [] && t.accepted == [])
  {}

  /** An edit needs a planning mission and the present version of the item, and sets what it is given. */
  lemma {:induction false} EditEnds(s: Db, i: Id, expected: int, valid: bool, requirements: Option<nat>)
    ensures var e := EEdit(i, expected, valid, requirements);
            var t := After(s, Step(s, e));
            && (Commits(s, e) <==>
                  && i in s.items && s.mission.status == MissionStatus.Planning
                  && s.items[i].version == expected && valid)
            && (Commits(s, e) ==>
                  && OthersStay(s, t, i) && t.items[i].status == s.items[i].status
                  && t.items[i].version == s.items[i].version + 1
                  && (requirements.Some? ==> t.items[i].requirements == requirements.value)
                  && (requirements.None? ==> t.items[i].requirements == s.items[i].requirements)
                  && t.mission.version == s.mission.version + 1
                  && t.mission.planVersion == s.mission.planVersion + 1 && t.deps == s.deps)
  {}

  /** A dependency runs from the prerequisite to the item that waits for it. It is refused exactly when
      planning is over, an end is unknown, or the item already leads to the prerequisite. */
  lemma {:induction false} AddEnds(s: Db, item: Id, on: Id)
    requires Sound(s)
    ensures var e := EAddDependency(item, on);
            var t := After(s, Step(s, e));
            && (Commits(s, e) <==>
                  && s.mission.status == MissionStatus.Planning && item in s.items && on in s.items
                  && !LeadsTo(s.deps, item, on))
            && (Commits(s, e) ==>
                  && (forall x :: x in t.deps <==> x in s.deps || x == Edge(on, item))
                  && t.items == s.items
                  && t.mission.version == s.mission.version + (if Edge(on, item) in s.deps then 0 else 1)
                  && t.mission.planVersion - s.mission.planVersion == t.mission.version - s.mission.version)
  {
    NewEdgeClosesCycle(s.deps, Edge(on, item));
    assert [item] != [] && IsWalk(s.deps, [item]);
    if Edge(on, item) in s.deps && LeadsTo(s.deps, item, on) {
      var cycle :| IsCycle(s.deps + [Edge(on, item)], cycle);
      assert IsCycle(s.deps, cycle);
    }
  }

  lemma {:induction false} RemoveEnds(s: Db, x: Edge)
    ensures var e := ERemoveDependency(x);
            var t := After(s, Step(s, e));
            && (Commits(s, e) <==> x in s.deps && s.mission.status == MissionStatus.Planning)
            && (Commits(s, e) ==>
                  && (forall y :: y in t.deps <==> y in s.deps && y != x) && t.items == s.items
                  && t.mission.version == s.mission.version + 1
                  && t.mission.planVersion == s.mission.planVersion + 1)
  {
    WithoutFilters(s.deps, x);
  }

  ghost predicate HasPrerequisite(s: Db, i: Id) {
    exists p :: Edge(p, i) in s.deps
  }

  lemma {:induction false} PrerequisitesAre(s: Db, i: Id)
    ensures HasPrereqs(s.deps, i) <==> HasPrerequisite(s, i)
  {
    if HasPrereqs(s.deps, i) {
      var e :| e in s.deps && e.target == i;
      assert Edge(e.source, i) in s.deps;
    }
  }

  lemma {:induction false} ApprovalCommits(s: Db, expected: int)
    requires Sound(s)
    ensures Commits(s, EApprovePlan(expected)) <==>
              && expected == s.mission.version && s.items != map[] && s.mission.status == MissionStatus.Planning
  {
    assert Drafting(MissionStatus.Planning);
  }

  /** An approved plan leaves exactly the items with prerequisites waiting, the others ready. */
  lemma {:induction false} ApproveEnds(s: Db, expected: int)
    requires Sound(s)
    ensures var e := EApprovePlan(expected);
            var t := After(s, Step(s, e));
            && (Commits(s, e) <==>
                  && expected == s.mission.version && s.items != map[] && s.mission.status == MissionStatus.Planning)
            && (Commits(s, e) ==>
                  && t.mission.status == MissionStatus.Ready && t.mission.version == s.mission.version + 1
                  && t.items.Keys == s.items.Keys && t.deps == s.deps
                  && forall i :: i in s.items ==>
                       IsNow(t, i, if HasPrerequisite(s, i) then WorkStatus.WaitingDependency else WorkStatus.Ready))
  {
    var e := EApprovePlan(expected);
    ApprovalCommits(s, expected);
    if Commits(s, e) {
      var t := After(s, Step(s, e));
      assert t.items == map i | i in s.items :: Queued(s.deps, i, s.items[i]);
      forall i | i in s.items
        ensures IsNow(t, i, if HasPrerequisite(s, i) then WorkStatus.WaitingDependency else WorkStatus.Ready)
      {
        PrerequisitesAre(s, i);
      }
    }
  }

  /** Which error a plan meets first. */
  lemma {:induction false} PlanRefusals(s: Db, expected: int, specs: seq<Spec>, found: bool)
    requires !Commits(s, EPlan(expected, specs, found))
    ensures Step(s, EPlan(expected, specs, found)) ==
              Raised(if expected != s.mission.version then Conflict
                     else if s.mission.status in {MissionStatus.LeadTriage, MissionStatus.Planning} && found
                             && (forall e :: e in PlanEdges(specs) ==> e.source in Keys(specs))
                             && !HasCycle(PlanEdges(specs))
                     then Integrity
                     else Business)
  {}

  // ----- Execution -----

  ghost predicate AllPrerequisitesAccepted(s: Db, i: Id) {
    forall p :: Edge(p, i) in s.deps ==> IsNow(s, p, WorkStatus.Accepted)
  }

  /** A start goes through for an item that is known and not paused, has nothing open before it and is in
      a status the start leaves, which depends on whether anything was before it. It opens one run. */
  lemma {:induction false} StartEnds(s: Db, i: Id, paused: bool, now: int)
    ensures var e := EStartItem(i, paused, now);
            var t := After(s, Step(s, e));
            && (Commits(s, e) <==>
                  && i in s.items && !paused && AllPrerequisitesAccepted(s, i)
                  && if HasPrerequisite(s, i)
                     then s.items[i].status in {WorkStatus.WaitingDependency, WorkStatus.Assigned}
                     else s.items[i].status in {WorkStatus.Ready, WorkStatus.RevisionRequired, WorkStatus.Blocked,
                                                WorkStatus.Assigned})
            && (Commits(s, e) ==>
                  && IsNow(t, i, WorkStatus.Running) && OthersStay(s, t, i)
                  && |t.runs| == |s.runs| + 1 && t.runs[..|s.runs|] == s.runs
                  && var run := t.runs[|s.runs|];
                     && run.item == i && run.status == RunStatus.Running && run.updatedAt == now
                     && !run.contextCleared && !run.grantsRevoked)
  {
    assert PrereqsAccepted(s.items, s.deps, i) <==> AllPrerequisitesAccepted(s, i) by {
      forall x | x in s.deps && x.target == i && AllPrerequisitesAccepted(s, i)
        ensures IsAccepted(s.items, x.source)
      {
        assert Edge(x.source, i) in s.deps;
      }
    }
    PrerequisitesAre(s, i);
  }

  /** Which error a start meets first. */
  lemma {:induction false} StartRefusals(s: Db, i: Id, paused: bool, now: int)
    requires !Commits(s, EStartItem(i, paused, now))
    ensures Step(s, EStartItem(i, paused, now)) ==
              Raised(if i !in s.items then NotFound else if paused then Paused
                     else if !AllPrerequisitesAccepted(s, i) then Conflict
                     else if HasPrerequisite(s, i) then IllegalTransition else Business)
  {
    PrerequisitesAre(s, i);
    if AllPrerequisitesAccepted(s, i) {
      forall x | x in s.deps && x.target == i
        ensures IsAccepted(s.items, x.source)
      {
        assert Edge(x.source, i) in s.deps;
      }
    }
  }

  /** The run was closed, its context cleared and its grants revoked; the other runs are as they were. */
  ghost predicate ClosedCleanly(s: Db, t: Db, r: nat) {
    && r < |s.runs| == |t.runs| && t.runs == s.runs[r := t.runs[r]]
    && t.runs[r].status == RunStatus.Closed && t.runs[r].contextCleared && t.runs[r].grantsRevoked
  }

  lemma {:induction false} SubmissionEnds(s: Db, r: nat, claims: seq<Claim>)
    requires Sound(s)
    ensures var e := ESubmitRun(r, claims);
            var t := After(s, Step(s, e));
            && (Commits(s, e) <==> IsLive(s.runs, r) && Unreadable !in claims)
            && (Commits(s, e) ==>
                  && IsNow(t, s.runs[r].item, WorkStatus.Submitted) && OthersStay(s, t, s.runs[r].item)
                  && ClosedCleanly(s, t, r) && t.artifacts == s.artifacts + [Artifact(s.runs[r].item, claims)])
  {
    if IsLive(s.runs, r) { LiveItem(s, r); }
  }

  /** A model output that can be read and whose usage is recorded ends SUBMITTED with its evidence; a failure
      of the model ends BLOCKED without any; everything else raises. */
  lemma {:induction false} ExecutionEnds(s: Db, r: nat, model: ModelOutcome)
    requires Sound(s)
    ensures var e := EExecuteRun(r, model);
            var t := After(s, Step(s, e));
            && (Commits(s, e) <==>
                  IsLive(s.runs, r) && (model.ModelRaised? || (model.usageRecorded && Unreadable !in model.claims)))
            && (Commits(s, e) ==>
                  var i := s.runs[r].item;
                  && OthersStay(s, t, i) && ClosedCleanly(s, t, r)
                  && if model.ModelRaised? then IsNow(t, i, WorkStatus.Blocked) && t.artifacts == s.artifacts
                     else IsNow(t, i, WorkStatus.Submitted) && t.artifacts == s.artifacts + [Artifact(i, model.claims)])
  {
    if IsLive(s.runs, r) { LiveItem(s, r); }
  }

  /** Which error a submission or an execution meets first. A run that was left half way by a failing
      submission cannot be closed by the handler. */
  lemma {:induction false} RunRefusals(s: Db, r: nat, claims: seq<Claim>, usageRecorded: bool)
    requires Sound(s)
    ensures var o := Step(s, ESubmitRun(r, claims));
            o.Raised? ==> o.error == if r >= |s.runs| then NotFound
                                     else if s.runs[r].status != RunStatus.Running then Business else Malformed
    ensures var o := Step(s, EExecuteRun(r, Output(claims, usageRecorded)));
            o.Raised? ==> o.error == if r >= |s.runs| then NotFound
                                     else if s.runs[r].status != RunStatus.Running then Business else IllegalTransition
  {
    if IsLive(s.runs, r) { LiveItem(s, r); }
  }

  /** What a review needs: to be sent back nothing, to be accepted the evidence. */
  ghost predicate Reviewable(s: Db, i: Id, accept: bool) {
    && IsNow(s, i, WorkStatus.Submitted)
    && (accept ==>
          && VerifiedFor(s.artifacts, i) > 0
          && 200 * VerifiedFor(s.artifacts, i) >= 159 * (s.items[i].requirements - 1)
          && forall a <- s.artifacts :: a.item == i ==> Disputed !in a.evidence)
  }

  lemma {:induction false} WaitersWait(s: Db, i: Id, j: Id, accept: bool)
    requires Sound(s) && Reviewable(s, i, accept) && ReviewItem(s, i, accept).Done?
    requires j in s.items && j != i && s.items[j].status == WorkStatus.WaitingDependency
    ensures accept && Released(s, i, j) <==> AllPrerequisitesAccepted(ReviewItem(s, i, accept).db, j)
  {
    var t := ReviewItem(s, i, accept).db;
    assert StageSound(s, j);
    var open :| open in s.deps && open.target == j && !IsAccepted(s.items, open.source);
    assert Edge(open.source, j) in s.deps;
    assert forall p :: IsNow(t, p, WorkStatus.Accepted) <==> IsAccepted(s.items, p) || (accept && p == i);
    if AllPrerequisitesAccepted(t, j) {
      forall x | x in s.deps && x.target == j
        ensures x.source == i || IsAccepted(s.items, x.source)
      {
        assert Edge(x.source, j) in s.deps;
      }
    }
  }

  lemma {:induction false} ReviewCommits(s: Db, i: Id, accept: bool)
    requires Sound(s)
    ensures Commits(s, EReview(i, accept)) <==> Reviewable(s, i, accept)
  {
    if i in s.items { PassesIff(s.artifacts, s.items[i].requirements, i); }
  }

  /** A review accepts or sends back. An acceptance assigns exactly the waiting items that have nothing
      open before them any more, and moves no other item. */
  lemma {:induction false} ReviewEnds(s: Db, i: Id, accept: bool)
    requires Sound(s)
    ensures var e := EReview(i, accept);
            var t := After(s, Step(s, e));
            && (Commits(s, e) <==> Reviewable(s, i, accept))
            && (Commits(s, e) ==>
                  && IsNow(t, i, if accept then WorkStatus.Accepted else WorkStatus.RevisionRequired)
                  && t.items.Keys == s.items.Keys && t.runs == s.runs && t.artifacts == s.artifacts
                  && forall j :: j in s.items && j != i ==>
                       if s.items[j].status == WorkStatus.WaitingDependency && AllPrerequisitesAccepted(t, j)
                       then IsNow(t, j, WorkStatus.Assigned) else t.items[j] == s.items[j])
  {
    ReviewCommits(s, i, accept);
    if Reviewable(s, i, accept) {
      var t := After(s, Step(s, EReview(i, accept)));
      assert Step(s, EReview(i, accept)) == ReviewItem(s, i, accept);
      forall j | j in s.items && j != i && s.items[j].status == WorkStatus.WaitingDependency
        ensures accept && Released(s, i, j) <==> AllPrerequisitesAccepted(t, j)
      {
        WaitersWait(s, i, j, accept);
      }
    }
  }

  /** The run was opened more than 600 seconds before. */
  predicate IsOverdue(run: Run, now: int) {
    run.status == RunStatus.Running && now > run.updatedAt + 600_000_000
  }

  ghost function OverdueRuns(runs: seq<Run>, now: int): set<nat> {
    set r: nat | r < |runs| && IsOverdue(runs[r], now)
  }

  /** A tick closes exactly the running runs opened more than 600 seconds ago, leaves their grants as they
      are and fails their items; everything else stays as it is. */
  lemma {:induction false} TickEnds(s: Db, now: int)
    requires Sound(s)
    ensures var t := After(s, Step(s, ETick(now)));
            && |t.runs| == |s.runs| && t.items.Keys == s.items.Keys && t.mission == s.mission && t.deps == s.deps
            && (forall r :: 0 <= r < |s.runs| ==>
                  if IsOverdue(s.runs[r], now) then
                    && t.runs[r].status == RunStatus.Closed && t.runs[r].reason == SchedulerTimeout
                    && t.runs[r].contextCleared && t.runs[r].grantsRevoked == s.runs[r].grantsRevoked
                    && IsNow(t, s.runs[r].item, WorkStatus.Failed)
                  else t.runs[r] == s.runs[r])
            && (forall i :: i in s.items && t.items[i] != s.items[i] ==>
                  exists r :: 0 <= r < |s.runs| && s.runs[r].item == i && IsOverdue(s.runs[r], now))
  {
    var t := Tick(s, now);
    forall r | 0 <= r < |s.runs|
      ensures RunExpired(s.runs[r], now) <==> IsOverdue(s.runs[r], now)
      ensures IsOverdue(s.runs[r], now) ==> IsNow(t, s.runs[r].item, WorkStatus.Failed)
    {
      assert RunSound(s.runs[r]);
      if IsOverdue(s.runs[r], now) {
        LiveItem(s, r);
        assert HasExpiredRun(s.runs, s.runs[r].item, now);
      }
    }
  }

  // ----- The mission row -----

  /** An acceptance takes a routed mission into triage. */
  lemma {:induction false} AcceptanceEnds(s: Db, expected: int)
    requires Sound(s)
    ensures var e := EAccept(expected);
            var t := After(s, Step(s, e));
            && (Commits(s, e) <==> expected == s.mission.version && s.mission.status == MissionStatus.Routed)
            && (Commits(s, e) ==>
                  && t == s.(mission := t.mission) && t.mission.riskLevel == s.mission.riskLevel
                  && t.mission.status == MissionStatus.LeadTriage && t.mission.version == s.mission.version + 1)
  {}

  /** Execution begins from a ready mission and resumes after a review or a request for approval. */
  lemma {:induction false} BeginningEnds(s: Db, expected: int, paused: bool)
    requires Sound(s)
    ensures var e := EStartExecution(expected, paused);
            var t := After(s, Step(s, e));
            && (Commits(s, e) <==>
                  && expected == s.mission.version && !paused
                  && s.mission.status in {MissionStatus.Ready, MissionStatus.LeadReview,
                                          MissionStatus.ApprovalRequired})
            && (Commits(s, e) ==>
                  && t == s.(mission := t.mission) && t.mission.riskLevel == s.mission.riskLevel
                  && t.mission.status == MissionStatus.Executing && t.mission.version == s.mission.version + 1)
  {}

  /** The lead review needs every item accepted, and completes the mission unless its risk is high. */
  lemma {:induction false} LeadReviewEnds(s: Db, expected: int)
    ensures var e := ELeadReview(expected);
            var t := After(s, Step(s, e));
            && (Commits(s, e) <==>
                  && expected == s.mission.version && s.mission.status == MissionStatus.Executing
                  && s.items != map[] && forall i :: i in s.items ==> IsNow(s, i, WorkStatus.Accepted))
            && (Commits(s, e) ==>
                  && t == s.(mission := t.mission) && t.mission.riskLevel == s.mission.riskLevel
                  && t.mission.version == s.mission.version + 2
                  && t.mission.status == if s.mission.riskLevel in {"high", "critical"}
                                         then MissionStatus.ApprovalRequired else MissionStatus.Completed)
  {}

  /** Which error every other refused call raises. */
  lemma {:induction false} OtherRefusals(s: Db, e: Event)
    requires Step(s, e).Raised?
    ensures var error := Step(s, e).error;
            && (e.EEdit? || e.EReview? ==>
                  && (error == NotFound <==> e.item !in s.items) && error in {NotFound, Conflict, Business}
                  && (error == Conflict <==>
                        && e.EEdit? && e.item in s.items && s.mission.status == MissionStatus.Planning
                        && s.items[e.item].version != e.expected))
            && (e.EAddDependency? || e.ERemoveDependency? ==> error == Business)
            && (e.EAccept? || e.EStartExecution? || e.EApprovePlan? ==>
                  && error in {Conflict, Paused, Business, IllegalTransition}
                  && (error == Conflict <==> e.expected != s.mission.version)
                  && (error == Paused <==> e.EStartExecution? && e.paused && e.expected == s.mission.version)
                  && (error == Business <==> e.EApprovePlan? && s.items == map[] && e.expected == s.mission.version))
            && (e.ELeadReview? ==>
                  && error in {Conflict, IllegalTransition}
                  && (error == Conflict <==>
                        || e.expected != s.mission.version || s.items == map[]
                        || exists i :: i in s.items && s.items[i].status != WorkStatus.Accepted))
  {}
}
