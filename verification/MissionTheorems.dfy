/** The guarantees of the work-item scheduler over whole runs, and the exact point
    at which a mission can no longer be finished. */
module MissionTheorems {
  import opened Graphs
  import opened Lifecycles
  import opened Quality
  import opened MissionFlow
  import opened MissionSafety

  /** Past waiting: the item was released for work at least once. */
  predicate PastWaiting(status: WorkStatus) {
    status !in {WorkStatus.Draft, WorkStatus.Ready, WorkStatus.WaitingDependency}
  }

  // ----- Ordering -----

  /** A chain of dependencies that ends in a released item. */
  ghost predicate EndsReleased(s: Db, walk: seq<Id>) {
    && |walk| >= 2 && IsWalk(s.deps, walk)
    && walk[|walk| - 1] in s.items && PastWaiting(s.items[walk[|walk| - 1]].status)
  }

  /** All transitive prerequisites of a released item are accepted. */
  lemma {:induction false} TransitivePrereqsAccepted(s: Db, walk: seq<Id>)
    requires Sound(s) && EndsReleased(s, walk)
    ensures IsAccepted(s.items, walk[0])
  {
    var n := |walk| - 2;
    var i := walk[n + 1];
    assert Edge(walk[n], i) in s.deps;
    assert !Drafting(s.mission.status) && StageSound(s, i);
    if n == 0 {
    } else {
      TransitivePrereqsAccepted(s, walk[..n + 1]);
    }
  }

  /** In every run items are accepted in an order that respects all dependencies, a
      released item has its transitive prerequisites accepted, and a reviewed mission
      has nothing left to accept. */
  lemma {:induction false} AcceptanceIsTopological(start: Db, events: seq<Event>)
    requires Fresh(start)
    ensures var s := Exec(start, events);
            && IsTopological(s.deps, s.accepted) && Distinct(s.accepted)
            && (forall i :: i in s.accepted <==> IsAccepted(s.items, i))
            && (forall walk :: EndsReleased(s, walk) ==> IsAccepted(s.items, walk[0]))
            && (Reviewed(s.mission.status) ==> AllAccepted(s.items))
  {
    ReachableIsSound(start, events);
    var s := Exec(start, events);
    forall walk | EndsReleased(s, walk) ensures IsAccepted(s.items, walk[0])
    {
      TransitivePrereqsAccepted(s, walk);
    }
  }

  /** No lost wake-up: a waiting item always has an open prerequisite, so its release never
      depends on somebody starting it by hand, and starting it always raises. */
  lemma {:induction false} NoLostWakeUp(start: Db, events: seq<Event>, i: Id)
    requires Fresh(start)
    requires var s := Exec(start, events); i in s.items && s.items[i].status == WorkStatus.WaitingDependency
    ensures var s := Exec(start, events);
            && (exists e :: e in s.deps && e.target == i && !IsAccepted(s.items, e.source))
            && forall paused, now :: StartItem(s, i, paused, now).Raised?
  {
    ReachableIsSound(start, events);
    var s := Exec(start, events);
    assert !Drafting(s.mission.status) && StageSound(s, i);
  }

  // ----- Evidence -----

  /** In every run an accepted item has, over all its submissions, some verified claim, at least 79.5
      percent of one less than its evidence requirements, and not a single disputed one. */
  lemma {:induction false} AcceptedMeansVerified(start: Db, events: seq<Event>, i: Id)
    requires Fresh(start) && IsAccepted(Exec(start, events).items, i)
    ensures var s := Exec(start, events);
            && VerifiedFor(s.artifacts, i) > 0
            && 200 * VerifiedFor(s.artifacts, i) >= 159 * (s.items[i].requirements - 1)
            && forall a <- s.artifacts :: a.item == i ==> Disputed !in a.evidence
  {
    ReachableIsSound(start, events);
    var s := Exec(start, events);
    assert GatePasses(s, i);
    PassesIff(s.artifacts, s.items[i].requirements, i);
  }

  // ----- Agent runs -----

  ghost predicate Cleared(run: Run) {
    run.status == RunStatus.Closed && run.contextCleared
  }

  /** A running item has exactly one running run, every other run is closed with its
      context cleared, and tool grants outlive a run only when the scheduler timed it out. */
  lemma {:induction false} OneLiveRunPerRunningItem(start: Db, events: seq<Event>, i: Id)
    requires Fresh(start)
    requires i in Exec(start, events).items
    ensures var s := Exec(start, events);
            && (s.items[i].status == WorkStatus.Running <==>
                exists r :: IsLive(s.runs, r) && s.runs[r].item == i
                  && forall q :: 0 <= q < |s.runs| && s.runs[q].item == i && q != r ==> Cleared(s.runs[q]))
            && (s.items[i].status != WorkStatus.Running ==>
                forall q :: 0 <= q < |s.runs| && s.runs[q].item == i ==> Cleared(s.runs[q]))
            && (forall q :: 0 <= q < |s.runs| && s.runs[q].status == RunStatus.Closed ==>
                (s.runs[q].grantsRevoked <==> s.runs[q].reason != SchedulerTimeout))
  {
    ReachableIsSound(start, events);
    var s := Exec(start, events);
    assert forall q :: 0 <= q < |s.runs| ==> RunSound(s.runs[q]);
    assert forall q :: 0 <= q < |s.runs| ==> IsLive(s.runs, q) || Cleared(s.runs[q]);
    assert s.items[i].status == WorkStatus.Running <==> HasLiveRun(s.runs, i);
  }

  // ----- Progress -----

  ghost function Unfinished(s: Db): set<Id> {
    set i | i in s.items && s.items[i].status != WorkStatus.Accepted
  }

  /** An item no call can ever move again: it failed, or it has prerequisites and was sent
      back or blocked, because a start with prerequisites only leaves WAITING or ASSIGNED. */
  ghost predicate Stranded(s: Db, i: Id) {
    && i in s.items
    && (s.items[i].status == WorkStatus.Failed
        || (HasPrereqs(s.deps, i) && s.items[i].status in {WorkStatus.RevisionRequired, WorkStatus.Blocked}))
  }

  ghost predicate HasStranded(s: Db) {
    exists i :: Stranded(s, i)
  }

  /** An item that can never be accepted any more: it is stranded; or a dispute was submitted for it, which no
      call takes back; or it has prerequisites and was submitted short of the quality gate, so that sending it
      back is all that is left. */
  ghost predicate Stuck(s: Db, i: Id) {
    && i in s.items && s.items[i].status != WorkStatus.Accepted
    && (|| Stranded(s, i)
        || HasDisputed(s.artifacts, i)
        || (HasPrereqs(s.deps, i) && s.items[i].status == WorkStatus.Submitted && !GatePasses(s, i)))
  }

  ghost predicate HasStuck(s: Db) {
    exists i :: Stuck(s, i)
  }

  ghost predicate CanMove(s: Db, i: Id) {
    i in s.items && (s.items[i].status in {WorkStatus.Running, WorkStatus.Submitted} || CanStart(s, i))
  }

  /** The scheduler never deadlocks: while nothing is stranded and work remains, some item
      is running, submitted or can be started. */
  lemma {:induction false} SomethingCanMove(s: Db) returns (i: Id)
    requires Sound(s) && !Drafting(s.mission.status)
    requires !HasStranded(s) && Unfinished(s) != {}
    ensures i in Unfinished(s) && CanMove(s, i)
  {
    i := AcyclicHasSource(s.deps, Unfinished(s));
    forall e | e in s.deps && e.target == i ensures IsAccepted(s.items, e.source) {
      assert Edge(e.source, i) == e;
      assert e.source !in Unfinished(s);
    }
    assert StageSound(s, i);
    assert !Stranded(s, i);
  }

  lemma {:induction false} StrandedIsStuck(s: Db)
    ensures HasStranded(s) ==> HasStuck(s)
  {
    forall i
      ensures Stranded(s, i) ==> Stuck(s, i)
    {}
  }

  lemma {:induction false} NoDeadlock(start: Db, events: seq<Event>)
    requires Fresh(start)
    requires var s := Exec(start, events); !Drafting(s.mission.status) && !AllAccepted(s.items) && !HasStranded(s)
    ensures exists i :: CanMove(Exec(start, events), i)
  {
    ReachableIsSound(start, events);
    var s := Exec(start, events);
    var open :| open in s.items && s.items[open].status != WorkStatus.Accepted;
    assert open in Unfinished(s);
    var i := SomethingCanMove(s);
  }

  lemma {:induction false} StuckThroughSubmission(s: Db, r: nat, claims: seq<Claim>, i: Id)
    requires Sound(s) && Stuck(s, i) && !Drafting(s.mission.status)
    ensures var t := After(s, SubmitRun(s, r, claims)); !Drafting(t.mission.status) && Stuck(t, i)
  {
    if SubmitRun(s, r, claims).Done? {
      var a := Artifact(s.runs[r].item, claims);
      LiveItem(s, r);
      Submitting(s.artifacts, a, i);
      if a.item != i { OthersSubmit(s.artifacts, a, s.items[i].requirements, i); }
    }
  }

  lemma {:induction false} StuckThroughExecution(s: Db, r: nat, model: ModelOutcome, i: Id)
    requires Sound(s) && Stuck(s, i) && !Drafting(s.mission.status)
    ensures var t := After(s, ExecuteRun(s, r, model)); !Drafting(t.mission.status) && Stuck(t, i)
  {
    if model.Output? {
      StuckThroughSubmission(s, r, model.claims, i);
    } else if IsLive(s.runs, r) {
      LiveItem(s, r);
    }
  }

  lemma {:induction false} StuckIsNotApproved(s: Db, e: Event, i: Id)
    requires Sound(s) && Stuck(s, i) && !Drafting(s.mission.status) && e.EApprovePlan?
    ensures var t := After(s, Step(s, e)); !Drafting(t.mission.status) && Stuck(t, i)
  {
    assert !Legal(s.mission, MissionStatus.Ready);
  }

  lemma {:induction false} StuckThroughOthers(s: Db, e: Event, i: Id)
    requires Stuck(s, i) && !Drafting(s.mission.status) && (e.EStartItem? || e.ETick?)
    ensures var t := After(s, Step(s, e)); !Drafting(t.mission.status) && Stuck(t, i)
  {
  }

  lemma {:induction false} StuckThroughReview(s: Db, e: Event, i: Id)
    requires Stuck(s, i) && !Drafting(s.mission.status) && e.EReview?
    ensures var t := After(s, Step(s, e)); !Drafting(t.mission.status) && Stuck(t, i)
  {
  }

  lemma {:induction false} StuckThroughPlanning(s: Db, e: Event, i: Id)
    requires Sound(s) && Stuck(s, i) && !Drafting(s.mission.status)
    requires !e.ESubmitRun? && !e.EExecuteRun? && !e.EApprovePlan? && !e.EReview? && !e.ETick? && !e.EStartItem?
    ensures var t := After(s, Step(s, e)); !Drafting(t.mission.status) && Stuck(t, i)
  {
  }

  lemma {:induction false} StuckStep(s: Db, e: Event, i: Id)
    requires Sound(s) && !Drafting(s.mission.status) && Stuck(s, i)
    ensures var t := After(s, Step(s, e)); !Drafting(t.mission.status) && Stuck(t, i)
  {
    match e
    case ESubmitRun(r, claims) => StuckThroughSubmission(s, r, claims, i);
    case EExecuteRun(r, model) => StuckThroughExecution(s, r, model, i);
    case EApprovePlan(_) => StuckIsNotApproved(s, e, i);
    case EReview(_, _) => StuckThroughReview(s, e, i);
    case EStartItem(_, _, _) => StuckThroughOthers(s, e, i);
    case ETick(_) => StuckThroughOthers(s, e, i);
    case _ => StuckThroughPlanning(s, e, i);
  }

  /** A stuck item stays stuck in every continuation. */
  lemma {:induction false} StuckForever(s: Db, events: seq<Event>, i: Id)
    requires Sound(s) && !Drafting(s.mission.status) && Stuck(s, i)
    ensures var t := Exec(s, events); Sound(t) && !Drafting(t.mission.status) && Stuck(t, i)
  {
    if events == [] {
    } else {
      var n := |events| - 1;
      StuckForever(s, events[..n], i);
      var t := Exec(s, events[..n]);
      StepKeepsSound(t, events[n]);
      StuckStep(t, events[n], i);
    }
  }

  // ----- Finishing -----

  lemma {:induction false} ExecJoins(s: Db, first: seq<Event>, second: seq<Event>)
    ensures Exec(s, first + second) == Exec(Exec(s, first), second)
  {
    if second == [] {
      assert first + second == first;
    } else {
      var n := |second| - 1;
      ExecJoins(s, first, second[..n]);
      assert (first + second)[..|first + second| - 1] == first + second[..n];
    }
  }

  lemma {:induction false} ExecOne(s: Db, e: Event)
    ensures Exec(s, [e]) == After(s, Step(s, e))
  {
    assert [e][..0] == [] && Exec(s, []) == s;
  }

  /** Items that were never started. */
  ghost function Untouched(s: Db): set<Id> {
    set i | i in s.items && !HasArtifact(s.artifacts, i)
            && s.items[i].status in {WorkStatus.Ready, WorkStatus.WaitingDependency, WorkStatus.Assigned}
  }

  /** t is reached from s with item i accepted, the mission row as it was, no other item started and
      nothing stuck. */
  ghost predicate Advanced(s: Db, t: Db, i: Id) {
    && Sound(t) && t.mission == s.mission && t.deps == s.deps && !HasStuck(t)
    && Unfinished(t) == Unfinished(s) - {i} && Untouched(s) - {i} <= Untouched(t)
  }

  /** A state of an approved plan in which nothing is stuck. */
  ghost predicate Workable(s: Db) {
    Sound(s) && !Drafting(s.mission.status) && !HasStuck(s)
  }

  ghost predicate HasStatus(s: Db, i: Id, status: WorkStatus) {
    i in s.items && s.items[i].status == status
  }

  /** A step that brings item i to a status without finishing or blocking anything. */
  ghost predicate Brings(s: Db, t: Db, i: Id, status: WorkStatus) {
    && Workable(t) && t.mission == s.mission && t.deps == s.deps
    && HasStatus(t, i, status) && Unfinished(t) == Unfinished(s) && Untouched(s) - {i} <= Untouched(t)
  }

  lemma {:induction false} AdvancedVia(s: Db, t: Db, u: Db, i: Id)
    requires t.mission == s.mission && t.deps == s.deps && Unfinished(t) == Unfinished(s) && Advanced(t, u, i)
    requires Untouched(s) - {i} <= Untouched(t)
    ensures Advanced(s, u, i)
  {
  }

  // Accepting

  lemma {:induction false} AcceptSticksNothing(s: Db, i: Id)
    requires Sound(s) && !HasStuck(s) && HasStatus(s, i, WorkStatus.Submitted)
    ensures !HasStuck(AcceptItem(s, i))
  {
    var t := AcceptItem(s, i);
    forall j
      ensures !Stuck(t, j)
    {
      assert !Stuck(s, j);
    }
  }

  lemma {:induction false} AcceptAdvances(s: Db, i: Id)
    requires Workable(s) && HasStatus(s, i, WorkStatus.Submitted) && GatePasses(s, i)
    ensures Advanced(s, AcceptItem(s, i), i)
  {
    AcceptKeepsSound(s, i);
    AcceptSticksNothing(s, i);
  }

  lemma {:induction false} AcceptOne(s: Db, i: Id)
    requires HasStatus(s, i, WorkStatus.Submitted) && GatePasses(s, i)
    ensures Exec(s, [EReview(i, true)]) == AcceptItem(s, i)
  {
    ExecOne(s, EReview(i, true));
    assert Step(s, EReview(i, true)) == ReviewItem(s, i, true);
  }

  lemma {:induction false} AcceptSubmitted(s: Db, i: Id)
    requires Workable(s) && HasStatus(s, i, WorkStatus.Submitted) && GatePasses(s, i)
    ensures Advanced(s, Exec(s, [EReview(i, true)]), i)
  {
    AcceptOne(s, i);
    AcceptAdvances(s, i);
  }

  // Submitting

  lemma {:induction false} OthersStayUnstuck(s: Db, r: nat, claims: seq<Claim>, j: Id)
    requires !Stuck(s, j) && SubmitRun(s, r, claims).Done? && s.runs[r].item != j
    ensures !Stuck(SubmitRun(s, r, claims).db, j)
  {
    if j in s.items {
      var a := Artifact(s.runs[r].item, claims);
      Submitting(s.artifacts, a, j);
      OthersSubmit(s.artifacts, a, s.items[j].requirements, j);
    }
  }

  lemma {:induction false} SubmittedIsNotStuck(s: Db, r: nat, i: Id, claims: seq<Claim>)
    requires !Stuck(s, i) && SubmitRun(s, r, claims).Done? && s.runs[r].item == i && Disputed !in claims
    requires HasPrereqs(s.deps, i) ==> Passes(s.artifacts + [Artifact(i, claims)], s.items[i].requirements, i)
    ensures !Stuck(SubmitRun(s, r, claims).db, i)
  {
    Submitting(s.artifacts, Artifact(i, claims), i);
  }

  lemma {:induction false} SubmissionSticksNothing(s: Db, r: nat, i: Id, claims: seq<Claim>)
    requires !HasStuck(s) && SubmitRun(s, r, claims).Done? && s.runs[r].item == i && Disputed !in claims
    requires HasPrereqs(s.deps, i) ==> Passes(s.artifacts + [Artifact(i, claims)], s.items[i].requirements, i)
    ensures !HasStuck(SubmitRun(s, r, claims).db)
  {
    SubmittedIsNotStuck(s, r, i, claims);
    forall j | j != i
      ensures !Stuck(SubmitRun(s, r, claims).db, j)
    {
      OthersStayUnstuck(s, r, claims, j);
    }
  }

  lemma {:induction false} SubmissionTouchesOne(s: Db, r: nat, i: Id, claims: seq<Claim>)
    requires SubmitRun(s, r, claims).Done? && s.runs[r].item == i && HasStatus(s, i, WorkStatus.Running)
    ensures var t := SubmitRun(s, r, claims).db;
            && t.mission == s.mission && t.deps == s.deps
            && HasStatus(t, i, WorkStatus.Submitted) && Unfinished(t) == Unfinished(s)
            && Untouched(s) - {i} <= Untouched(t)
  {
    forall j
      ensures HasArtifact(s.artifacts + [Artifact(i, claims)], j) <==> HasArtifact(s.artifacts, j) || j == i
    {
      Submitting(s.artifacts, Artifact(i, claims), j);
    }
  }

  /** A submission without disputes, from a run of item i. */
  lemma {:induction false} SubmitBrings(s: Db, r: nat, i: Id, claims: seq<Claim>)
    requires Workable(s) && HasStatus(s, i, WorkStatus.Running) && IsLive(s.runs, r) && s.runs[r].item == i
    requires Readable(claims) && Disputed !in claims
    requires HasPrereqs(s.deps, i) ==> Passes(s.artifacts + [Artifact(i, claims)], s.items[i].requirements, i)
    ensures SubmitRun(s, r, claims).Done? && Brings(s, SubmitRun(s, r, claims).db, i, WorkStatus.Submitted)
  {
    SubmitKeepsSound(s, r, claims);
    SubmissionSticksNothing(s, r, i, claims);
    SubmissionTouchesOne(s, r, i, claims);
  }

  lemma {:induction false} SubmitOne(s: Db, r: nat, claims: seq<Claim>)
    requires SubmitRun(s, r, claims).Done?
    ensures Exec(s, [ESubmitRun(r, claims)]) == SubmitRun(s, r, claims).db
  {
    ExecOne(s, ESubmitRun(r, claims));
    assert Step(s, ESubmitRun(r, claims)) == SubmitRun(s, r, claims);
  }

  /** A running item that is not stuck can be submitted so that it passes the gate. */
  lemma {:induction false} SubmitRunning(s: Db, i: Id) returns (e: Event)
    requires Workable(s) && HasStatus(s, i, WorkStatus.Running)
    ensures e.ESubmitRun?
    ensures var t := Exec(s, [e]); Brings(s, t, i, WorkStatus.Submitted) && GatePasses(t, i)
  {
    assert HasLiveRun(s.runs, i) && !Stuck(s, i);
    var r :| IsLive(s.runs, r) && s.runs[r].item == i;
    var claims := AllVerified(Required(s.items[i].requirements));
    EnoughVerifiedPasses(s.artifacts, s.items[i].requirements, i);
    e := ESubmitRun(r, claims);
    SubmitBrings(s, r, i, claims);
    SubmitOne(s, r, claims);
  }

  // Starting

  lemma {:induction false} StartSticksNothing(s: Db, i: Id)
    requires !HasStuck(s) && CanStart(s, i)
    ensures StartItem(s, i, false, 0).Done? && !HasStuck(StartItem(s, i, false, 0).db)
  {
    var t := StartItem(s, i, false, 0).db;
    forall j
      ensures !Stuck(t, j)
    {
      assert !Stuck(s, j);
    }
  }

  lemma {:induction false} StartOne(s: Db, i: Id)
    requires CanStart(s, i)
    ensures StartItem(s, i, false, 0).Done? && Exec(s, [EStartItem(i, false, 0)]) == StartItem(s, i, false, 0).db
  {
    ExecOne(s, EStartItem(i, false, 0));
    assert Step(s, EStartItem(i, false, 0)) == StartItem(s, i, false, 0);
  }

  lemma {:induction false} StartTouchesOne(s: Db, i: Id)
    requires CanStart(s, i)
    ensures var t := StartItem(s, i, false, 0).db;
            && t.mission == s.mission && t.deps == s.deps && t.artifacts == s.artifacts
            && HasStatus(t, i, WorkStatus.Running) && Unfinished(t) == Unfinished(s)
            && Untouched(s) - {i} <= Untouched(t)
  {}

  lemma {:induction false} StartBrings(s: Db, i: Id)
    requires Workable(s) && CanStart(s, i)
    ensures var t := Exec(s, [EStartItem(i, false, 0)]);
            Brings(s, t, i, WorkStatus.Running) && t.artifacts == s.artifacts
  {
    StartOne(s, i);
    StartTouchesOne(s, i);
    StartSticksNothing(s, i);
    StartKeepsSound(s, i, false, 0);
    assert StartItem(s, i, false, 0).Done?;
  }

  // Sending back

  lemma {:induction false} RefusalSticksNothing(s: Db, i: Id)
    requires !HasStuck(s) && HasStatus(s, i, WorkStatus.Submitted) && !HasPrereqs(s.deps, i)
    ensures ReviewItem(s, i, false).Done? && !HasStuck(ReviewItem(s, i, false).db)
  {
    var t := ReviewItem(s, i, false).db;
    forall j
      ensures !Stuck(t, j)
    {
      assert !Stuck(s, j);
    }
  }

  lemma {:induction false} RefusalBrings(s: Db, i: Id)
    requires Workable(s) && HasStatus(s, i, WorkStatus.Submitted) && !HasPrereqs(s.deps, i)
    ensures ReviewItem(s, i, false).Done? && Brings(s, ReviewItem(s, i, false).db, i, WorkStatus.RevisionRequired)
  {
    ReviewKeepsSound(s, i, false);
    RefusalSticksNothing(s, i);
  }

  lemma {:induction false} RefuseOne(s: Db, i: Id)
    requires HasStatus(s, i, WorkStatus.Submitted)
    ensures ReviewItem(s, i, false).Done? && Exec(s, [EReview(i, false)]) == ReviewItem(s, i, false).db
  {
    ExecOne(s, EReview(i, false));
    assert Step(s, EReview(i, false)) == ReviewItem(s, i, false);
  }

  lemma {:induction false} BroughtTwice(s: Db, t: Db, u: Db, i: Id, via: WorkStatus, to: WorkStatus)
    requires Brings(s, t, i, via) && Brings(t, u, i, to)
    ensures Brings(s, u, i, to)
  {}

  /** Without prerequisites an item can be sent back and started again. */
  lemma {:induction false} RedoSubmitted(s: Db, i: Id) returns (events: seq<Event>)
    requires Workable(s) && HasStatus(s, i, WorkStatus.Submitted) && !HasPrereqs(s.deps, i)
    ensures forall e <- events :: !e.EMove?
    ensures Brings(s, Exec(s, events), i, WorkStatus.Running)
  {
    var refuse, start := [EReview(i, false)], [EStartItem(i, false, 0)];
    var t := Exec(s, refuse);
    RefuseOne(s, i);
    RefusalBrings(s, i);
    assert CanStart(t, i);
    StartBrings(t, i);
    BroughtTwice(s, t, Exec(t, start), i, WorkStatus.RevisionRequired, WorkStatus.Running);
    ExecJoins(s, refuse, start);
    events := refuse + start;
  }

  // Finishing

  lemma {:induction false} FinishRunning(s: Db, i: Id) returns (events: seq<Event>)
    requires Workable(s) && HasStatus(s, i, WorkStatus.Running)
    ensures forall e <- events :: !e.EMove?
    ensures Advanced(s, Exec(s, events), i)
  {
    var submit := SubmitRunning(s, i);
    var t := Exec(s, [submit]);
    AcceptSubmitted(t, i);
    AdvancedVia(s, t, Exec(t, [EReview(i, true)]), i);
    ExecJoins(s, [submit], [EReview(i, true)]);
    events := [submit] + [EReview(i, true)];
  }

  /** The calls that bring an item which can move into work. */
  lemma {:induction false} BringToRunning(s: Db, i: Id) returns (events: seq<Event>)
    requires Workable(s) && CanMove(s, i)
    requires s.items[i].status == WorkStatus.Submitted ==> !HasPrereqs(s.deps, i)
    ensures forall e <- events :: !e.EMove?
    ensures Brings(s, Exec(s, events), i, WorkStatus.Running)
  {
    if s.items[i].status == WorkStatus.Running {
      events := [];
    } else if s.items[i].status == WorkStatus.Submitted {
      events := RedoSubmitted(s, i);
    } else {
      StartBrings(s, i);
      events := [EStartItem(i, false, 0)];
    }
  }

  lemma {:induction false} FinishItem(s: Db, i: Id) returns (events: seq<Event>)
    requires Workable(s) && i in Unfinished(s) && CanMove(s, i)
    ensures forall e <- events :: !e.EMove?
    ensures Advanced(s, Exec(s, events), i)
  {
    assert !Stuck(s, i);
    if s.items[i].status == WorkStatus.Submitted && GatePasses(s, i) {
      events := [EReview(i, true)];
      AcceptSubmitted(s, i);
    } else {
      var first := BringToRunning(s, i);
      var t := Exec(s, first);
      var rest := FinishRunning(t, i);
      AdvancedVia(s, t, Exec(t, rest), i);
      ExecJoins(s, first, rest);
      events := first + rest;
    }
  }

  /** While nothing is stuck, calls of planning and execution alone accept every item. */
  lemma {:induction false} FinishAll(s: Db) returns (events: seq<Event>)
    requires Sound(s) && !Drafting(s.mission.status) && !HasStuck(s)
    ensures forall e <- events :: !e.EMove?
    ensures var t := Exec(s, events); Sound(t) && t.mission == s.mission && AllAccepted(t.items)
    decreases Unfinished(s)
  {
    if Unfinished(s) == {} {
      events := [];
      forall i | i in s.items ensures s.items[i].status == WorkStatus.Accepted {
        assert i !in Unfinished(s);
      }
    } else {
      StrandedIsStuck(s);
      var i := SomethingCanMove(s);
      var first := FinishItem(s, i);
      var rest := FinishAll(Exec(s, first));
      ExecJoins(s, first, rest);
      events := first + rest;
    }
  }

  /** From a fully accepted plan the lead review is one or two calls away. */
  lemma {:induction false} ReviewAccepted(s: Db) returns (events: seq<Event>)
    requires Sound(s) && !Drafting(s.mission.status) && AllAccepted(s.items)
    ensures Reviewed(Exec(s, events).mission.status)
  {
    var v := s.mission.version;
    var start, review := [EStartExecution(v, false)], [ELeadReview(v)];
    ExecOne(s, start[0]);
    ExecOne(s, review[0]);
    if Reviewed(s.mission.status) {
      events := [];
    } else if s.mission.status == MissionStatus.Executing {
      events := review;
      assert Exec(s, events) == LeadReviewMission(s, v).db;
    } else {
      var t := Exec(s, start);
      assert t == s.(mission := Advance(s.mission, MissionStatus.Executing));
      review := [ELeadReview(v + 1)];
      ExecOne(t, review[0]);
      assert Exec(t, review) == LeadReviewMission(t, v + 1).db;
      ExecJoins(s, start, review);
      events := start + review;
    }
  }

  /** Exactly when an approved mission can still be brought to the lead review: as long as no item is
      stuck. One timed-out run, one disputed claim, or one item with prerequisites that was sent back,
      blocked or submitted short of its evidence makes the mission unfinishable, whatever is called. */
  lemma {:induction false} ReviewReachableIff(start: Db, past: seq<Event>)
    requires Fresh(start) && !Drafting(Exec(start, past).mission.status)
    ensures var s := Exec(start, past);
            (exists events :: Reviewed(Exec(s, events).mission.status)) <==> !HasStuck(s)
  {
    ReachableIsSound(start, past);
    var s := Exec(start, past);
    if HasStuck(s) {
      var i :| Stuck(s, i);
      forall events ensures !Reviewed(Exec(s, events).mission.status) {
        StuckForever(s, events, i);
        var t := Exec(s, events);
        assert t.items[i].status != WorkStatus.Accepted;
      }
    } else {
      var work := FinishAll(s);
      var review := ReviewAccepted(Exec(s, work));
      ExecJoins(s, work, review);
      assert Reviewed(Exec(s, work + review).mission.status);
    }
  }
}
