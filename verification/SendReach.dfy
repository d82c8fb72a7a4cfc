/** Exactly when the mail of a mission can still be sent. */
module SendReach {
  import opened Basics
  import opened Lifecycles
  import opened SendFlow
  import opened SendSafety
  import opened SendTheorems
  import opened SendCounts

  /** What a continuation may consist of: the calls of the services, and with `sync` synchronisations of
      the mailbox too. Nobody rewrites stored content behind their back. */
  predicate Allowed(e: Event, sync: bool) {
    !e.ETamperOperation? && !e.ETamperApproval? && (sync || !e.EResync?)
  }

  /** Deciding request a now makes the stored action a sendable one. */
  predicate Decidable(h: Hasher, s: Db, a: nat) {
    && a < |s.approvals| && s.approvals[a].status == ApprovalStatus.Pending
    && s.version == s.approvals[a].missionVersion
    && h(Whole(s.approvals[a].exactAction)) == s.approvals[a].hash && Deliverable(s.approvals[a].exactAction)
  }

  /** The source mail can be answered, or a request to answer it is already waiting for its decision. */
  ghost predicate CanAsk(h: Hasher, s: Db) {
    Addressed(s.source) || exists a: nat :: Decidable(h, s, a)
  }

  /** The approval still fits the mission, and the stored action still has the approved hash and can be sent. */
  predicate Preparable(h: Hasher, s: Db, a: nat) {
    && a < |s.approvals| && s.approvals[a].status == ApprovalStatus.Approved && VersionFits(s, s.approvals[a])
    && h(Whole(s.approvals[a].exactAction)) == s.approvals[a].hash && Deliverable(s.approvals[a].exactAction)
  }

  ghost predicate LiveOperation(h: Hasher, s: Db, i: nat) {
    MayExecute(h, s, i) && !s.operations[i].demo
  }

  ghost predicate CanSendNow(h: Hasher, s: Db) {
    && s.status == MissionStatus.Approved
    && ((exists i: nat :: LiveOperation(h, s, i)) || exists a: nat :: Preparable(h, s, a))
  }

  /** Neither approved yet, nor past its external action, nor cancelled. */
  predicate Open(status: MissionStatus) {
    !ActionStarted(status) && status != MissionStatus.Cancelled && status != MissionStatus.Approved
  }

  /** What decides whether the mail of the mission can still be sent. */
  ghost predicate Hopeful(h: Hasher, s: Db, sync: bool) {
    if Open(s.status) then IsHighRisk(s.riskLevel) && (sync || CanAsk(h, s)) else CanSendNow(h, s)
  }

  ghost predicate SendsMore(h: Hasher, s: Db, sync: bool, events: seq<Event>) {
    (forall e <- events :: Allowed(e, sync)) && |Exec(h, s, events).sends| > |s.sends|
  }

  // ----- Getting the mail sent -----

  function LongerThanAll(operations: seq<Operation>): (key: string)
    ensures forall o <- operations :: |o.key| < |key|
  {
    if operations == [] then "k"
    else
      var n := |operations| - 1;
      LongerThanAll(operations[..n]) + operations[n].key + "k"
  }

  lemma {:induction false} SendOperation(h: Hasher, s: Db, i: nat)
    requires LiveOperation(h, s, i)
    ensures SendsMore(h, s, false, [EExecute(i, false, ALL_GOOD)])
  {
    var e := EExecute(i, false, ALL_GOOD);
    ExecOne(h, s, e);
    assert Step(h, s, e) == LiveAttempted(s, i, ALL_GOOD);
  }

  lemma {:induction false} PrepareAdds(h: Hasher, s: Db, a: nat, key: string)
    requires Preparable(h, s, a) && forall o <- s.operations :: |o.key| < |key|
    ensures var t := After(s, Prepare(h, s, a, key, false, true, true));
            t.sends == s.sends && LiveOperation(h, t, |s.operations|)
  {
    forall i | 0 <= i < |s.operations|
      ensures s.operations[i].key != key
    {
      assert s.operations[i] in s.operations;
    }
    assert !HasKey(s, key);
  }

  lemma {:induction false} PrepareAndSend(h: Hasher, s: Db, a: nat) returns (events: seq<Event>)
    requires Preparable(h, s, a)
    ensures SendsMore(h, s, false, events) && forall e <- events :: e.EPrepare? || e.EExecute?
  {
    var key := LongerThanAll(s.operations);
    var prepare := EPrepare(a, key, false, true, true);
    var t, i := Exec(h, s, [prepare]), |s.operations|;
    ExecOne(h, s, prepare);
    PrepareAdds(h, s, a, key);
    var send := EExecute(i, false, ALL_GOOD);
    SendOperation(h, t, i);
    ExecJoins(h, s, [prepare], [send]);
    events := [prepare] + [send];
  }

  function Towards(status: MissionStatus): MissionStatus
    requires Open(status) && !status.Executing?
  {
    match status
    case Ingested => MissionStatus.DispatchReview
    case DispatchReview => MissionStatus.Routed
    case Routed => MissionStatus.LeadTriage
    case LeadTriage => MissionStatus.Planning
    case NeedsInformation => MissionStatus.Planning
    case Blocked => MissionStatus.Planning
    case Planning => MissionStatus.Ready
    case _ => MissionStatus.Executing
  }

  function Distance(status: MissionStatus): nat {
    match status
    case Ingested => 6
    case DispatchReview => 5
    case Routed => 4
    case LeadTriage => 3
    case NeedsInformation => 3
    case Blocked => 3
    case Planning => 2
    case Executing => 0
    case _ => 1
  }

  lemma {:induction false} BackToExecuting(h: Hasher, s: Db) returns (events: seq<Event>)
    requires Open(s.status)
    ensures forall e <- events :: Allowed(e, false)
    ensures var t := Exec(h, s, events);
            && t.status == MissionStatus.Executing && t.sends == s.sends
            && t.riskLevel == s.riskLevel && t.source == s.source
    decreases Distance(s.status)
  {
    if s.status.Executing? {
      events := [];
    } else {
      var e := EMission(Towards(s.status));
      ExecOne(h, s, e);
      var rest := BackToExecuting(h, Exec(h, s, [e]));
      ExecJoins(h, s, [e], rest);
      events := [e] + rest;
    }
  }

  /** A new request, approved at once. */
  lemma {:induction false} RequestAndApprove(h: Hasher, s: Db, body: string) returns (events: seq<Event>)
    requires s.status == MissionStatus.Executing && IsHighRisk(s.riskLevel) && Addressed(s.source)
    ensures events == [ELeadReview(s.version, true, body, 0)] + [EDecide(|s.approvals|, Approve)]
    ensures var t := Exec(h, s, events);
            t.status == MissionStatus.Approved && t.sends == s.sends && Preparable(h, t, |s.approvals|)
  {
    var request, decide := ELeadReview(s.version, true, body, 0), EDecide(|s.approvals|, Approve);
    var t := Exec(h, s, [request]);
    ExecOne(h, s, request);
    assert Step(h, s, request) == LeadReviewMission(h, s, s.version, true, body, 0);
    ExecOne(h, t, decide);
    assert Step(h, t, decide) == Decide(t, |s.approvals|, Approve);
    ExecJoins(h, s, [request], [decide]);
    events := [request] + [decide];
  }

  lemma {:induction false} SendMoreAfter(h: Hasher, s: Db, sync: bool, first: seq<Event>, rest: seq<Event>)
    requires (forall e <- first :: Allowed(e, sync)) && Exec(h, s, first).sends == s.sends
    requires SendsMore(h, Exec(h, s, first), sync, rest)
    ensures SendsMore(h, s, sync, first + rest)
  {
    ExecJoins(h, s, first, rest);
  }

  lemma {:induction false} AddressedCanSend(h: Hasher, s: Db) returns (events: seq<Event>)
    requires Open(s.status) && IsHighRisk(s.riskLevel) && Addressed(s.source)
    ensures SendsMore(h, s, false, events)
  {
    var back := BackToExecuting(h, s);
    var t := Exec(h, s, back);
    var approve := RequestAndApprove(h, t, "");
    var rest := PrepareAndSend(h, Exec(h, t, approve), |t.approvals|);
    SendMoreAfter(h, t, false, approve, rest);
    SendMoreAfter(h, s, false, back, approve + rest);
    events := back + (approve + rest);
  }

  lemma {:induction false} ApproveDecidable(h: Hasher, s: Db, a: nat)
    requires Sound(h, s) && Decidable(h, s, a)
    ensures var t := Exec(h, s, [EDecide(a, Approve)]); Preparable(h, t, a) && t.sends == s.sends
  {
    ExecOne(h, s, EDecide(a, Approve));
    assert Step(h, s, EDecide(a, Approve)) == Decide(s, a, Approve);
    assert ApprovalSound(h, s, s.approvals[a]);
  }

  lemma {:induction false} DecidableCanSend(h: Hasher, s: Db, a: nat) returns (events: seq<Event>)
    requires Sound(h, s) && Decidable(h, s, a)
    ensures SendsMore(h, s, false, events) && forall e <- events :: e.EDecide? || e.EPrepare? || e.EExecute?
  {
    var approve := [EDecide(a, Approve)];
    ApproveDecidable(h, s, a);
    var rest := PrepareAndSend(h, Exec(h, s, approve), a);
    SendMoreAfter(h, s, false, approve, rest);
    events := approve + rest;
  }

  /** A synchronisation that finds the source mail in a mailbox. */
  lemma {:induction false} SyncedCanSend(h: Hasher, s: Db) returns (events: seq<Event>)
    requires Open(s.status) && IsHighRisk(s.riskLevel)
    ensures SendsMore(h, s, true, events)
  {
    var sync := [EResync("mailbox", "somebody")];
    ExecOne(h, s, sync[0]);
    assert Step(h, s, sync[0]) == Done(Resynced(s, "mailbox", "somebody"));
    var rest := AddressedCanSend(h, Exec(h, s, sync));
    SendMoreAfter(h, s, true, sync, rest);
    events := sync + rest;
  }

  lemma {:induction false} NowCanSend(h: Hasher, s: Db) returns (events: seq<Event>)
    requires CanSendNow(h, s)
    ensures SendsMore(h, s, false, events) && forall e <- events :: e.EPrepare? || e.EExecute?
  {
    if i: nat :| LiveOperation(h, s, i) {
      SendOperation(h, s, i);
      events := [EExecute(i, false, ALL_GOOD)];
    } else {
      var a: nat :| Preparable(h, s, a);
      events := PrepareAndSend(h, s, a);
    }
  }

  lemma {:induction false} HopefulCanSend(h: Hasher, s: Db, sync: bool) returns (events: seq<Event>)
    requires Sound(h, s) && Hopeful(h, s, sync)
    ensures SendsMore(h, s, sync, events)
  {
    if !Open(s.status) {
      events := NowCanSend(h, s);
    } else if sync {
      events := SyncedCanSend(h, s);
    } else if Addressed(s.source) {
      events := AddressedCanSend(h, s);
    } else {
      var a: nat :| Decidable(h, s, a);
      events := DecidableCanSend(h, s, a);
    }
  }

  // ----- When it is too late: approved, or past approval -----

  ghost predicate Closed(h: Hasher, s: Db) {
    !Open(s.status) && !CanSendNow(h, s)
  }

  lemma {:induction false} ApprovedOnlyOnce(h: Hasher, s: Db)
    requires Sound(h, s) && (s.status == MissionStatus.Approved || s.status == MissionStatus.Cancelled)
    ensures forall a :: 0 <= a < |s.approvals| ==> s.version != s.approvals[a].missionVersion
    ensures forall a :: 0 <= a < |s.approvals| && s.approvals[a].status == ApprovalStatus.Approved ==>
              s.approvals[a].missionVersion < s.version
    ensures s.status == MissionStatus.Cancelled ==>
              forall a :: 0 <= a < |s.approvals| && s.approvals[a].status == ApprovalStatus.Approved ==>
                !VersionFits(s, s.approvals[a])
  {
    assert forall a :: 0 <= a < |s.approvals| ==> ApprovalSound(h, s, s.approvals[a]);
  }

  lemma {:induction false} ClosedExecution(h: Hasher, s: Db, i: nat, simulate: bool, o: Oracle)
    requires Injective(h) && Sound(h, s) && Closed(h, s) && !ActionStarted(s.status)
    ensures var e := EExecute(i, simulate, o);
            var t := After(s, Step(h, s, e)); Closed(h, t) && t.sends == s.sends
  {
    assert Step(h, s, EExecute(i, simulate, o)) == Execute(h, s, i, simulate, o);
    if MayExecute(h, s, i) {
      FittingHashesFixContent(h, s, i);
      assert !LiveOperation(h, s, i);
    }
  }

  lemma {:induction false} ClosedLoss(h: Hasher, s: Db, i: nat, simulate: bool, o: Oracle)
    requires Injective(h) && Sound(h, s) && Closed(h, s) && !ActionStarted(s.status)
    ensures Step(h, s, EExecuteLost(i, simulate, o)) == Raised
  {
    if MayExecute(h, s, i) {
      FittingHashesFixContent(h, s, i);
      assert !LiveOperation(h, s, i);
    }
  }

  /** Whatever is prepared now is a demonstration. */
  lemma {:induction false} ClosedPreparation(h: Hasher, s: Db, a: nat, key: string, elsewhere: bool, live: bool,
                                             passed: bool)
    requires Sound(h, s) && Closed(h, s) && !ActionStarted(s.status)
    ensures var t := After(s, Prepare(h, s, a, key, elsewhere, live, passed)); Closed(h, t) && t.sends == s.sends
  {
    ApprovedOnlyOnce(h, s);
    var t := After(s, Prepare(h, s, a, key, elsewhere, live, passed));
    if s.status == MissionStatus.Approved {
      assert !Preparable(h, s, a);
      forall i: nat
        ensures LiveOperation(h, t, i) ==> LiveOperation(h, s, i)
      {}
      forall b: nat
        ensures Preparable(h, t, b) ==> Preparable(h, s, b)
      {}
    }
  }

  lemma {:induction false} ClosedExpiry(h: Hasher, s: Db, now: int)
    requires Closed(h, s) && !ActionStarted(s.status)
    ensures var t := After(s, Step(h, s, EExpire(now))); Closed(h, t) && t.sends == s.sends
  {
    var t := Expire(s, now);
    forall i: nat
      ensures LiveOperation(h, t, i) ==> LiveOperation(h, s, i)
    {}
    forall a: nat
      ensures Preparable(h, t, a) ==> Preparable(h, s, a)
    {}
  }

  lemma {:induction false} ClosedSync(h: Hasher, s: Db, accountId: string, sender: string)
    requires Closed(h, s)
    ensures var t := Resynced(s, accountId, sender); Closed(h, t) && t.sends == s.sends
  {
    var t := Resynced(s, accountId, sender);
    forall i: nat
      ensures LiveOperation(h, t, i) <==> LiveOperation(h, s, i)
    {}
    forall a: nat
      ensures Preparable(h, t, a) <==> Preparable(h, s, a)
    {}
  }

  lemma {:induction false} ClosedOthers(h: Hasher, s: Db, e: Event)
    requires Sound(h, s) && Closed(h, s) && !ActionStarted(s.status)
    requires e.EMission? || e.EEdit? || e.ELeadReview? || e.EDecide? || e.EVerify?
    ensures var t := After(s, Step(h, s, e)); Closed(h, t) && t.sends == s.sends
  {
    ApprovedOnlyOnce(h, s);
    var t := After(s, Step(h, s, e));
    forall i: nat | e.EEdit?
      ensures !LiveOperation(h, t, i)
    {}
    forall a: nat | e.EEdit?
      ensures !Preparable(h, t, a)
    {}
  }

  lemma {:induction false} ClosedStep(h: Hasher, s: Db, e: Event)
    requires Injective(h) && Sound(h, s) && Closed(h, s) && Allowed(e, true)
    ensures var t := After(s, Step(h, s, e)); Closed(h, t) && t.sends == s.sends
  {
    if ActionStarted(s.status) {
      StartedStep(h, s, e);
    } else {
      match e
      case EExecute(i, simulate, o) => ClosedExecution(h, s, i, simulate, o);
      case EExecuteLost(i, simulate, o) => ClosedLoss(h, s, i, simulate, o);
      case EPrepare(a, key, elsewhere, live, passed) =>
        assert Step(h, s, e) == Prepare(h, s, a, key, elsewhere, live, passed);
        ClosedPreparation(h, s, a, key, elsewhere, live, passed);
      case EExpire(now) => ClosedExpiry(h, s, now);
      case EResync(accountId, sender) =>
        assert Step(h, s, e) == Done(Resynced(s, accountId, sender));
        ClosedSync(h, s, accountId, sender);
      case _ => ClosedOthers(h, s, e);
    }
  }

  // ----- When it is too late: before the approval -----

  lemma {:induction false} OpenIsNotExecuted(h: Hasher, s: Db, i: nat)
    requires Injective(h) && Sound(h, s) && Open(s.status)
    ensures !MayExecute(h, s, i)
  {
    if MayExecute(h, s, i) { FittingHashesFixContent(h, s, i); }
  }

  /** Before the approval nothing is sent, and only a decision approves. */
  lemma {:induction false} OpenStep(h: Hasher, s: Db, e: Event)
    requires Injective(h) && Sound(h, s) && Open(s.status)
    ensures var t := After(s, Step(h, s, e));
            && t.sends == s.sends && t.riskLevel == s.riskLevel && (!e.EResync? ==> t.source == s.source)
            && (!e.EDecide? ==> t.status != MissionStatus.Approved)
  {
    if e.EExecute? || e.EExecuteLost? {
      OpenIsNotExecuted(h, s, e.operation);
    }
  }

  lemma {:induction false} OthersMakeNothingDecidable(h: Hasher, s: Db, e: Event, a: nat)
    requires Injective(h) && Sound(h, s) && Open(s.status) && Allowed(e, false) && !e.ELeadReview?
    requires Decidable(h, After(s, Step(h, s, e)), a)
    ensures Decidable(h, s, a)
  {
    if e.EExecute? || e.EExecuteLost? {
      OpenIsNotExecuted(h, s, e.operation);
    }
    if a < |s.approvals| { assert ApprovalSound(h, s, s.approvals[a]); }
  }

  /** A new request is for the source mail as it is; the older ones are stale. */
  lemma {:induction false} ReviewMakesDecidable(h: Hasher, s: Db, e: Event, a: nat)
    requires Sound(h, s) && e.ELeadReview?
    requires Decidable(h, After(s, Step(h, s, e)), a)
    ensures Addressed(s.source) || Decidable(h, s, a)
  {
    var o := LeadReviewMission(h, s, e.expected, e.allAccepted, e.bodyText, e.now);
    assert Step(h, s, e) == o;
    if a < |s.approvals| { assert ApprovalSound(h, s, s.approvals[a]); }
  }

  lemma {:induction false} NothingNewToDecide(h: Hasher, s: Db, e: Event)
    requires Injective(h) && Sound(h, s) && Open(s.status) && Allowed(e, false) && !CanAsk(h, s)
    ensures !CanAsk(h, After(s, Step(h, s, e)))
  {
    var t := After(s, Step(h, s, e));
    OpenStep(h, s, e);
    forall a: nat
      ensures !Decidable(h, t, a)
    {
      if Decidable(h, t, a) {
        if e.ELeadReview? {
          ReviewMakesDecidable(h, s, e, a);
        } else {
          OthersMakeNothingDecidable(h, s, e, a);
        }
      }
    }
  }

  /** An approval that makes the mail sendable was decidable before. */
  lemma {:induction false} ApprovalNeedsDecidable(h: Hasher, s: Db, a: nat, d: Decision)
    requires Sound(h, s) && Open(s.status) && CanSendNow(h, After(s, Decide(s, a, d)))
    ensures Decidable(h, s, a)
  {
    var t := After(s, Decide(s, a, d));
    forall b | 0 <= b < |s.approvals|
      ensures t.approvals[b].status == ApprovalStatus.Approved && VersionFits(t, t.approvals[b]) ==> b == a
    {
      assert ApprovalSound(h, s, s.approvals[b]);
    }
    forall i | 0 <= i < |s.operations|
      ensures !LiveOperation(h, t, i)
    {
      assert OperationSound(s, s.operations[i]);
    }
  }

  lemma {:induction false} HopelessStep(h: Hasher, s: Db, e: Event, sync: bool)
    requires Injective(h) && Sound(h, s) && !Hopeful(h, s, sync) && Allowed(e, sync)
    ensures var t := After(s, Step(h, s, e)); !Hopeful(h, t, sync) && t.sends == s.sends
  {
    if !Open(s.status) {
      ClosedStep(h, s, e);
    } else {
      var t := After(s, Step(h, s, e));
      OpenStep(h, s, e);
      if !sync && !CanAsk(h, s) { NothingNewToDecide(h, s, e); }
      if e.EDecide? && CanSendNow(h, t) {
        assert Step(h, s, e) == Decide(s, e.approval, e.decision);
        ApprovalNeedsDecidable(h, s, e.approval, e.decision);
      }
    }
  }

  lemma {:induction false} HopelessForever(h: Hasher, s: Db, sync: bool, events: seq<Event>)
    requires Injective(h) && Sound(h, s) && !Hopeful(h, s, sync) && forall e <- events :: Allowed(e, sync)
    ensures var t := Exec(h, s, events); Sound(h, t) && !Hopeful(h, t, sync) && t.sends == s.sends
  {
    if events == [] {
    } else {
      var n := |events| - 1;
      var t := Exec(h, s, events[..n]);
      HopelessForever(h, s, sync, events[..n]);
      StepKeepsSound(h, t, events[n]);
      HopelessStep(h, t, events[n], sync);
    }
  }

  /** Exactly when some continuation of calls still gets the mail sent. Before the approval: the mission is
      at high risk, and its source mail has a mail account and a sender, or a request that names both is
      waiting (a later synchronisation of the mailbox could supply what is missing). While it is approved:
      a live operation with fitting hashes exists, or the approved request still fits version and hash and
      can be sent. Past the start of the action, and once cancelled: never. */
  lemma {:induction false} SendReachableIff(h: Hasher, start: Db, past: seq<Event>, sync: bool)
    requires Injective(h) && SendFlow.Fresh(start)
    ensures var s := Exec(h, start, past);
            (exists events :: SendsMore(h, s, sync, events)) <==>
              if Open(s.status) then IsHighRisk(s.riskLevel) && (sync || CanAsk(h, s)) else CanSendNow(h, s)
  {
    ReachableIsSound(h, start, past);
    var s := Exec(h, start, past);
    if Hopeful(h, s, sync) {
      var events := HopefulCanSend(h, s, sync);
    } else {
      forall events
        ensures !SendsMore(h, s, sync, events)
      {
        if forall e <- events :: Allowed(e, sync) {
          HopelessForever(h, s, sync, events);
        }
      }
    }
  }
}
