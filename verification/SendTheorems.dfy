/** The guarantees of the approval-to-send protocol over whole runs. */
module SendTheorems {
  import opened Basics
  import opened Lifecycles
  import opened SendFlow
  import opened SendSafety

  ghost predicate WasAttempted(s: Db, i: int) {
    0 <= i < |s.operations| && s.operations[i].attempts > 0
  }

  /** However many approvals, operations, keys, retries, failures and rewrites a run contains,
      the provider is asked to send at most once, plus once for every transaction that
      was rolled back after a send. At most one operation is ever attempted, and only once. */
  lemma {:induction false} AtMostOneSend(h: Hasher, start: Db, events: seq<Event>)
    requires Injective(h) && Fresh(start)
    ensures var s := Exec(h, start, events);
            && |s.sends| <= s.lost + 1
            && (!ActionStarted(s.status) ==> |s.sends| <= s.lost)
            && (forall i :: 0 <= i < |s.operations| ==> s.operations[i].attempts <= 1)
            && (forall i, j :: WasAttempted(s, i) && WasAttempted(s, j) ==> i == j)
  {
    ReachableIsSound(h, start, events);
    var s := Exec(h, start, events);
    assert forall i :: 0 <= i < |s.operations| ==> OperationSound(s, s.operations[i]);
    assert forall i :: WasAttempted(s, i) ==> Executed(s, i);
  }

  /** Every sent payload is the action whose hash an approved request of the mission carries,
      no matter how stored actions or parameters were rewritten in between. It names a mail account
      and somebody to send to; no demo sends. */
  lemma {:induction false} SentContentWasApproved(h: Hasher, start: Db, events: seq<Event>, k: nat)
    requires Injective(h) && Fresh(start)
    requires k < |Exec(h, start, events).sends|
    ensures var s := Exec(h, start, events);
            var x := s.sends[k];
            && x.operation < |s.operations| && !s.operations[x.operation].demo
            && s.operations[x.operation].approval < |s.approvals|
            && var a := s.approvals[s.operations[x.operation].approval];
               && a.status == ApprovalStatus.Approved && x.payload == a.reviewed && h(Whole(x.payload)) == a.hash
               && Deliverable(x.payload)
  {
    ReachableIsSound(h, start, events);
    var s := Exec(h, start, events);
    var x := s.sends[k];
    assert SendSound(s, x);
    assert OperationSound(s, s.operations[x.operation]);
    assert ApprovalSound(h, s, s.approvals[s.operations[x.operation].approval]);
  }

  lemma {:induction false} StepKeepsTerms(h: Hasher, s: Db, e: Event, a: nat)
    requires a < |s.approvals|
    ensures var t := After(s, Step(h, s, e));
            && a < |t.approvals|
            && t.approvals[a].reviewed == s.approvals[a].reviewed
            && t.approvals[a].hash == s.approvals[a].hash
            && t.approvals[a].missionVersion == s.approvals[a].missionVersion
  {
  }

  /** The reviewed action, its hash and the bound version of a request never change. */
  lemma {:induction false} RequestsKeepTheirTerms(h: Hasher, s: Db, events: seq<Event>, a: nat)
    requires a < |s.approvals|
    ensures var t := Exec(h, s, events);
            && a < |t.approvals|
            && t.approvals[a].reviewed == s.approvals[a].reviewed
            && t.approvals[a].hash == s.approvals[a].hash
            && t.approvals[a].missionVersion == s.approvals[a].missionVersion
  {
    if events == [] {
    } else {
      var n := |events| - 1;
      RequestsKeepTheirTerms(h, s, events[..n], a);
      StepKeepsTerms(h, Exec(h, s, events[..n]), events[n], a);
    }
  }

  lemma {:induction false} RiskIsFixed(h: Hasher, s: Db, events: seq<Event>)
    ensures Exec(h, s, events).riskLevel == s.riskLevel
  {
    if events == [] {
    } else {
      var n := |events| - 1;
      RiskIsFixed(h, s, events[..n]);
      var t, e := Exec(h, s, events[..n]), events[n];
      assert After(t, Step(h, t, e)).riskLevel == t.riskLevel;
    }
  }

  lemma {:induction false} NothingToSend(h: Hasher, s: Db)
    requires Sound(h, s) && s.approvals == []
    ensures s.operations == [] && s.sends == []
  {
    assert |s.operations| > 0 ==> OperationSound(s, s.operations[0]);
    assert |s.sends| > 0 ==> SendSound(s, s.sends[0]);
  }

  /** The risk level of a mission is never changed, and below high risk there is nothing to approve,
      to prepare or to send, in no run. */
  lemma {:induction false} LowRiskNeverAsks(h: Hasher, start: Db, events: seq<Event>)
    requires Injective(h) && Fresh(start) && !IsHighRisk(start.riskLevel)
    ensures var s := Exec(h, start, events);
            s.riskLevel == start.riskLevel && s.approvals == [] && s.operations == [] && s.sends == []
  {
    ReachableIsSound(h, start, events);
    RiskIsFixed(h, start, events);
    NothingToSend(h, Exec(h, start, events));
  }

  /** Neither the source mail nor any request made so far names both a mail account and a sender. */
  ghost predicate Unanswerable(s: Db) {
    !Addressed(s.source) && forall a :: 0 <= a < |s.approvals| ==> !Deliverable(s.approvals[a].reviewed)
  }

  lemma {:induction false} StepKeepsUnanswerable(h: Hasher, s: Db, e: Event)
    requires Unanswerable(s) && !e.EResync?
    ensures Unanswerable(After(s, Step(h, s, e)))
  {
    if e.ELeadReview? {
      assert Step(h, s, e) == LeadReviewMission(h, s, e.expected, e.allAccepted, e.bodyText, e.now);
    } else {
      var t := After(s, Step(h, s, e));
      forall a | 0 <= a < |t.approvals|
        ensures a < |s.approvals| && t.approvals[a].reviewed == s.approvals[a].reviewed
      {}
    }
  }

  lemma {:induction false} RunKeepsUnanswerable(h: Hasher, s: Db, events: seq<Event>)
    requires Unanswerable(s) && forall e <- events :: !e.EResync?
    ensures Unanswerable(Exec(h, s, events))
  {
    if events == [] {
    } else {
      var n := |events| - 1;
      RunKeepsUnanswerable(h, s, events[..n]);
      StepKeepsUnanswerable(h, Exec(h, s, events[..n]), events[n]);
    }
  }

  /** A mission whose source mail came without a mail account, or without a sender, and is not synchronised
      later only ever gets demonstration operations and sends nothing, whatever is rewritten. */
  lemma {:induction false} UnanswerableNeverSends(h: Hasher, start: Db, events: seq<Event>)
    requires Injective(h) && Fresh(start) && !Addressed(start.source) && forall e <- events :: !e.EResync?
    ensures var s := Exec(h, start, events);
            s.sends == [] && forall i :: 0 <= i < |s.operations| ==> s.operations[i].demo
  {
    ReachableIsSound(h, start, events);
    RunKeepsUnanswerable(h, start, events);
    var s := Exec(h, start, events);
    assert forall i :: 0 <= i < |s.operations| ==> OperationSound(s, s.operations[i]);
    assert |s.sends| > 0 ==> SendSound(s, s.sends[0]);
  }

  ghost function ExpectedAttempt(op: OperationStatus): AttemptStatus {
    match op
    case Succeeded => AttemptSucceeded
    case Failed => AttemptFailed
    case _ => AttemptUnknown
  }

  /** The database after an attempt that did not raise: operation, attempt and mission in matching
      statuses, and the mail in the log iff the provider was asked to send it. */
  ghost predicate EndsTogether(s: Db, i: nat, asked: bool, t: Db)
    requires i < |s.operations|
  {
    && |t.operations| == |s.operations|
    && InLockstep(t.operations[i].status, t.status)
    && t.operations[i].attempts == 1
    && t.operations[i].lastAttempt == ExpectedAttempt(t.operations[i].status)
    && t.sends == s.sends + (if asked then [Send(i, s.operations[i].parameters)] else [])
    && t.lost == s.lost
  }

  ghost predicate IsLive(s: Db, i: nat, simulate: bool)
    requires i < |s.operations|
  {
    !simulate && !s.operations[i].demo
  }

  /** What an execution may come to. A broken session is the only way to raise after the start. */
  ghost predicate AttemptOutcome(h: Hasher, s: Db, i: nat, simulate: bool, o: Oracle, out: Outcome) {
    if i < |s.operations| && s.operations[i].status == OperationStatus.Succeeded then out == Done(s)
    else if !MayExecute(h, s, i) then out == Raised
    else if IsLive(s, i, simulate) && FateOf(o) == RolledBack then
      out == if ReachesSend(o) then RaisedAfterSend(Send(i, s.operations[i].parameters)) else Raised
    else out.Done? && EndsTogether(s, i, IsLive(s, i, simulate) && ReachesSend(o), out.db)
  }

  lemma {:induction false} LiveEndsTogether(s: Db, i: nat, o: Oracle)
    requires i < |s.operations| && s.operations[i].attempts == 0
    ensures var out := LiveAttempted(s, i, o);
            if FateOf(o) == RolledBack then
              out == if ReachesSend(o) then RaisedAfterSend(Send(i, s.operations[i].parameters)) else Raised
            else out.Done? && EndsTogether(s, i, ReachesSend(o), out.db)
  {}

  lemma {:induction false} OfflineEndsTogether(s: Db, i: nat, simulate: bool, o: Oracle)
    requires i < |s.operations| && s.operations[i].attempts == 0 && !IsLive(s, i, simulate)
    ensures var out := Attempted(s, i, simulate, o); out.Done? && EndsTogether(s, i, false, out.db)
  {}

  /** Wherever a provider call fails, a started attempt does not raise: it ends with operation,
      attempt and mission in matching statuses. The one exception is a transaction that cannot be
      completed any more. An attempt that may not start raises without reaching the provider. */
  lemma {:induction false} AttemptEndsInLockstep(h: Hasher, start: Db, events: seq<Event>, i: nat, simulate: bool,
                                                 o: Oracle)
    requires Injective(h) && Fresh(start)
    ensures var s := Exec(h, start, events); AttemptOutcome(h, s, i, simulate, o, Execute(h, s, i, simulate, o))
  {
    ReachableIsSound(h, start, events);
    var s := Exec(h, start, events);
    if MayExecute(h, s, i) {
      assert OperationSound(s, s.operations[i]);
      if IsLive(s, i, simulate) {
        LiveEndsTogether(s, i, o);
      } else {
        OfflineEndsTogether(s, i, simulate, o);
      }
    }
  }

  /** A verification of operation i that goes through. */
  ghost predicate Settles(s: Db, e: Event, i: nat)
    requires i < |s.operations|
  {
    && e.EVerify? && e.operation == i
    && (e.succeeded && NeedsEvidence(s.operations[i]) ==> e.evidenceRecorded)
  }

  ghost predicate StaysUnknown(s: Db, i: nat, t: Db) {
    && i < |t.operations| && t.operations[i].status == OperationStatus.Unknown
    && t.status == s.status && t.sends == s.sends
  }

  lemma {:induction false} UnknownIsNotDecided(h: Hasher, s: Db, i: nat, a: nat, d: Decision)
    requires Sound(h, s) && s.status == MissionStatus.Unknown && StaysUnknown(s, i, s)
    ensures StaysUnknown(s, i, After(s, Decide(s, a, d)))
  {
    if a < |s.approvals| { assert ApprovalSound(h, s, s.approvals[a]); }
  }

  lemma {:induction false} UnknownThroughOthers(h: Hasher, s: Db, i: nat, e: Event)
    requires s.status == MissionStatus.Unknown && StaysUnknown(s, i, s)
    requires !e.EVerify? && !e.EDecide? && !e.EExecute? && !e.EExecuteLost?
    ensures StaysUnknown(s, i, After(s, Step(h, s, e)))
  {}

  lemma {:induction false} UnknownStep(h: Hasher, s: Db, i: nat, e: Event)
    requires Injective(h) && Sound(h, s) && i < |s.operations| && s.operations[i].status == OperationStatus.Unknown
    requires s.status == MissionStatus.Unknown && !e.EVerify?
    ensures StaysUnknown(s, i, After(s, Step(h, s, e)))
  {
    match e
    case EDecide(a, d) =>
      assert Step(h, s, e) == Decide(s, a, d);
      UnknownIsNotDecided(h, s, i, a, d);
    case EExecute(j, _, _) =>
      if MayExecute(h, s, j) { FittingHashesFixContent(h, s, j); }
    case EExecuteLost(j, _, _) =>
      if MayExecute(h, s, j) { FittingHashesFixContent(h, s, j); }
    case _ => UnknownThroughOthers(h, s, i, e);
  }

  /** An unknown result holds mission and operation until it is verified: no other call moves
      them, and a verification, unless recording its evidence raises, settles both the same way. */
  lemma {:induction false} UnknownWaitsForVerification(h: Hasher, start: Db, events: seq<Event>, i: nat, e: Event)
    requires Injective(h) && Fresh(start)
    requires var s := Exec(h, start, events); i < |s.operations| && s.operations[i].status == OperationStatus.Unknown
    ensures var s := Exec(h, start, events);
            var t := After(s, Step(h, s, e));
            && s.status == MissionStatus.Unknown
            && i < |t.operations| && t.sends == s.sends
            && t.operations[i].status == (if !Settles(s, e, i) then OperationStatus.Unknown
                                          else if e.succeeded then OperationStatus.Succeeded
                                          else OperationStatus.Failed)
            && InLockstep(t.operations[i].status, t.status)
  {
    ReachableIsSound(h, start, events);
    var s := Exec(h, start, events);
    assert OperationSound(s, s.operations[i]);
    assert Executed(s, i);
    if e.EVerify? {
      if e.operation < |s.operations| && s.operations[e.operation].status == OperationStatus.Unknown {
        assert Executed(s, e.operation);
      }
    } else {
      UnknownStep(h, s, i, e);
    }
  }

  lemma {:induction false} StartedStep(h: Hasher, s: Db, e: Event)
    requires Injective(h) && Sound(h, s) && ActionStarted(s.status)
    ensures var t := After(s, Step(h, s, e)); ActionStarted(t.status) && t.sends == s.sends && t.lost == s.lost
  {
    if (e.EExecute? || e.EExecuteLost?) && MayExecute(h, s, e.operation) {
      FittingHashesFixContent(h, s, e.operation);
    }
  }

  /** Once the external action was started it stays started, and no later call sends anything. */
  lemma {:induction false} StartedStaysStarted(h: Hasher, s: Db, events: seq<Event>)
    requires Injective(h) && Sound(h, s) && ActionStarted(s.status)
    ensures var t := Exec(h, s, events);
            Sound(h, t) && ActionStarted(t.status) && t.sends == s.sends && t.lost == s.lost
  {
    if events == [] {
    } else {
      var n := |events| - 1;
      StartedStaysStarted(h, s, events[..n]);
      var t := Exec(h, s, events[..n]);
      StepKeepsSound(h, t, events[n]);
      StartedStep(h, t, events[n]);
    }
  }

  // ----- Only legal transitions -----

  /** A legal history of n changes leads from one status to the other. */
  ghost predicate StatusPath(from: MissionStatus, to: MissionStatus, n: int) {
    exists hist :: IsMissionHistory(hist) && hist[0] == from && hist[|hist| - 1] == to && |hist| == n + 1
  }

  ghost predicate IsOperationHistory(hist: seq<OperationStatus>) {
    hist != [] && forall i :: 0 <= i < |hist| - 1 ==> hist[i + 1] in OperationTargets(hist[i])
  }

  ghost predicate OperationPath(from: OperationStatus, to: OperationStatus) {
    exists hist :: IsOperationHistory(hist) && hist[0] == from && hist[|hist| - 1] == to
  }

  /** Where an operation may get to in one call. */
  ghost predicate OperationMove(from: OperationStatus, to: OperationStatus) {
    || from == to
    || (from == OperationStatus.Approved && to in {OperationStatus.Succeeded, OperationStatus.Failed,
                                                   OperationStatus.Unknown})
    || (from == OperationStatus.Unknown && to in {OperationStatus.Succeeded, OperationStatus.Failed})
  }

  ghost predicate ApprovalMove(from: ApprovalStatus, to: ApprovalStatus) {
    from == to || to in ApprovalTargets(from)
  }

  ghost predicate LegalMoves(s: Db, t: Db) {
    && StatusPath(s.status, t.status, t.version - s.version)
    && |s.operations| <= |t.operations| && |s.approvals| <= |t.approvals|
    && (forall i :: 0 <= i < |s.operations| ==> OperationMove(s.operations[i].status, t.operations[i].status))
    && (forall a :: 0 <= a < |s.approvals| ==> ApprovalMove(s.approvals[a].status, t.approvals[a].status))
  }

  lemma {:induction false} OneChange(from: MissionStatus, to: MissionStatus)
    requires to in MissionTargets(from)
    ensures StatusPath(from, to, 1)
  {
    var hist := [from, to];
    assert IsMissionHistory(hist) && hist[0] == from && hist[|hist| - 1] == to;
  }

  lemma {:induction false} TwoChanges(from: MissionStatus, via: MissionStatus, to: MissionStatus)
    requires via in MissionTargets(from) && to in MissionTargets(via)
    ensures StatusPath(from, to, 2)
  {
    var hist := [from, via, to];
    assert IsMissionHistory(hist) && hist[0] == from && hist[|hist| - 1] == to;
  }

  lemma {:induction false} NoChange(from: MissionStatus)
    ensures StatusPath(from, from, 0)
  {
    var hist := [from];
    assert IsMissionHistory(hist) && hist[0] == from && hist[|hist| - 1] == from;
  }

  /** The statuses an attempt takes an approved mission through. */
  lemma {:induction false} AttemptPath(to: MissionStatus, n: int) returns (targets: seq<MissionStatus>)
    requires to in {MissionStatus.Completed, MissionStatus.Failed, MissionStatus.Unknown}
    requires n == 3 || (n == 2 && !to.Completed?)
    ensures |targets| == n && targets[n - 1] == to && IsMissionHistory([MissionStatus.Approved] + targets)
    ensures forall k :: 0 <= k < n - 1 ==> targets[k] in {MissionStatus.ActionExecuting, MissionStatus.Verifying}
  {
    targets := [MissionStatus.ActionExecuting] + (if n == 2 then [] else [MissionStatus.Verifying]) + [to];
  }

  lemma {:induction false} SettlingMovesLegally(s: Db, i: nat, op: OperationStatus, to: MissionStatus,
                                                attempt: AttemptStatus, hops: int, sends: seq<Send>)
    requires i < |s.operations| && s.operations[i].status == OperationStatus.Approved
    requires s.status == MissionStatus.Approved
    requires InLockstep(op, to) && (hops == 3 || (hops == 2 && !to.Completed?))
    ensures LegalMoves(s, Settled(s, i, op, to, attempt, hops, sends))
  {
    var targets := AttemptPath(to, hops);
    var hist := [MissionStatus.Approved] + targets;
    assert hist[0] == MissionStatus.Approved && hist[|hist| - 1] == to && |hist| == hops + 1;
  }

  lemma {:induction false} AttemptMovesLegally(h: Hasher, s: Db, i: nat, simulate: bool, o: Oracle)
    requires Injective(h) && Sound(h, s)
    ensures LegalMoves(s, After(s, Execute(h, s, i, simulate, o)))
  {
    NoChange(s.status);
    if MayExecute(h, s, i) && Execute(h, s, i, simulate, o).Done? {
      FittingHashesFixContent(h, s, i);
      var op, m, attempt, hops, sends := ExecuteSettles(s, i, simulate, o);
      SettlingMovesLegally(s, i, op, m, attempt, hops, sends);
    }
  }

  lemma {:induction false} OthersMoveLegally(h: Hasher, s: Db, e: Event)
    requires !e.EEdit? && !e.EExecute? && !e.EVerify? && !e.EDecide? && !e.ELeadReview?
    ensures LegalMoves(s, After(s, Step(h, s, e)))
  {
    NoChange(s.status);
    if e.EMission? && e.target in MissionTargets(s.status) { OneChange(s.status, e.target); }
  }

  lemma {:induction false} VerificationMovesLegally(s: Db, i: nat, succeeded: bool, recorded: bool)
    ensures LegalMoves(s, After(s, Verify(s, i, succeeded, recorded)))
  {
    NoChange(s.status);
    TwoChanges(MissionStatus.Unknown, MissionStatus.Verifying,
               if succeeded then MissionStatus.Completed else MissionStatus.Failed);
  }

  lemma {:induction false} DecisionMovesLegally(s: Db, a: nat, d: Decision)
    ensures LegalMoves(s, After(s, Decide(s, a, d)))
  {
    NoChange(s.status);
    if Decide(s, a, d).Done? { OneChange(s.status, Decide(s, a, d).db.status); }
  }

  /** Rows are only added. */
  lemma {:induction false} AddingMovesNothing(s: Db, t: Db)
    requires StatusPath(s.status, t.status, t.version - s.version)
    requires t.operations == s.operations && s.approvals <= t.approvals
    ensures LegalMoves(s, t)
  {}

  lemma {:induction false} ReviewMovesLegally(h: Hasher, s: Db, expected: int, all: bool, body: string, now: int)
    ensures LegalMoves(s, After(s, LeadReviewMission(h, s, expected, all, body, now)))
  {
    var o := LeadReviewMission(h, s, expected, all, body, now);
    NoChange(s.status);
    if o.Done? {
      TwoChanges(s.status, MissionStatus.LeadReview, o.db.status);
      assert StatusPath(s.status, o.db.status, o.db.version - s.version);
    }
    AddingMovesNothing(s, After(s, o));
  }

  /** Whatever the provider does, every call moves approvals and operations along the transition
      tables only, and the mission too, by exactly as many legal changes as its version grows. */
  lemma {:induction false} OnlyLegalTransitions(h: Hasher, s: Db, e: Event)
    requires Injective(h) && Sound(h, s) && !e.EEdit?
    ensures LegalMoves(s, After(s, Step(h, s, e)))
  {
    match e
    case EExecute(i, simulate, o) => AttemptMovesLegally(h, s, i, simulate, o);
    case EVerify(i, succeeded, recorded) => VerificationMovesLegally(s, i, succeeded, recorded);
    case EDecide(a, d) => DecisionMovesLegally(s, a, d);
    case ELeadReview(expected, all, body, now) => ReviewMovesLegally(h, s, expected, all, body, now);
    case _ => OthersMoveLegally(h, s, e);
  }

  /** The moves of an operation are made of legal transitions. */
  lemma {:induction false} OperationMovesAreLegal(from: OperationStatus, to: OperationStatus)
    requires OperationMove(from, to)
    ensures OperationPath(from, to)
  {
    var hist := if from == to then [from]
                else if from == OperationStatus.Unknown then [from, OperationStatus.Verifying, to]
                else [from, OperationStatus.Executing, OperationStatus.Verifying, to];
    assert IsOperationHistory(hist) && hist[0] == from && hist[|hist| - 1] == to;
  }
}
