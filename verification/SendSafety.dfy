/** At most one provider send per mission, its content, and the end states of an attempt. */
module SendSafety {
  import opened Basics
  import opened Lifecycles
  import opened SendFlow

  ghost predicate ApprovalSound(h: Hasher, s: Db, a: Approval) {
    && a.status in {ApprovalStatus.Pending, ApprovalStatus.Approved, ApprovalStatus.Rejected,
                    ApprovalStatus.ChangesRequested, ApprovalStatus.Expired}
    && a.missionVersion <= s.version
    && (s.version == a.missionVersion ==> s.status == MissionStatus.ApprovalRequired)
    && a.hash == h(Whole(a.reviewed))
    && (a.status == ApprovalStatus.Approved ==> a.missionVersion < s.version)
    && (a.status == ApprovalStatus.Approved && s.version == a.missionVersion + 1 ==> s.status == MissionStatus.Approved)
  }

  /** Operation and mission end in matching statuses. */
  ghost predicate InLockstep(op: OperationStatus, mission: MissionStatus) {
    || (op == OperationStatus.Succeeded && mission == MissionStatus.Completed)
    || (op == OperationStatus.Failed && mission == MissionStatus.Failed)
    || (op == OperationStatus.Unknown && mission == MissionStatus.Unknown)
  }

  ghost predicate OperationSound(s: Db, o: Operation) {
    && o.approval < |s.approvals|
    && s.approvals[o.approval].status == ApprovalStatus.Approved
    && o.hashes.parameters == s.approvals[o.approval].hash
    && (o.status == OperationStatus.Approved ==> o.attempts == 0)
    && (o.status != OperationStatus.Approved ==> o.attempts == 1 && InLockstep(o.status, s.status))
    && (o.demo || Deliverable(s.approvals[o.approval].reviewed))
  }

  ghost predicate SendSound(s: Db, x: Send) {
    && x.operation < |s.operations| && !s.operations[x.operation].demo
    && s.operations[x.operation].approval < |s.approvals|
    && x.payload == s.approvals[s.operations[x.operation].approval].reviewed && Deliverable(x.payload)
  }

  ghost predicate Executed(s: Db, i: int) {
    0 <= i < |s.operations| && s.operations[i].status != OperationStatus.Approved
  }

  ghost predicate Sound(h: Hasher, s: Db) {
    && (forall a :: 0 <= a < |s.approvals| ==> ApprovalSound(h, s, s.approvals[a]))
    && (forall i :: 0 <= i < |s.operations| ==> OperationSound(s, s.operations[i]))
    && (forall i, j :: Executed(s, i) && Executed(s, j) ==> i == j)
    && (forall k :: 0 <= k < |s.sends| ==> SendSound(s, s.sends[k]))
    && (IsHighRisk(s.riskLevel) || s.approvals == [])
    && |s.sends| <= s.lost + (if ActionStarted(s.status) then 1 else 0)
  }

  /** What each of the four stored hashes stands for: the order of recipients is not part of it. */
  lemma {:induction false} HashesNameContent(h: Hasher, a: Action, b: Action)
    requires Injective(h)
    ensures var x, y := EmailHashes(h, a), EmailHashes(h, b);
            && (x.parameters == y.parameters <==> a == b)
            && (x.recipient == y.recipient <==>
                  && multiset(Addressees(a)) == multiset(Addressees(b))
                  && multiset(a.cc) == multiset(b.cc) && multiset(a.bcc) == multiset(b.bcc))
            && (x.body == y.body <==> a.subject == b.subject && a.bodyText == b.bodyText && a.bodyHtml == b.bodyHtml)
            && (x.attachment == y.attachment <==> a.attachments == b.attachments)
            && (x.parameters == y.parameters ==> x == y)
  {
    assert Whole(a) == Whole(b) <==> a == b;
  }

  /** While the hashes fit, the parameters are the reviewed action. */
  lemma {:induction false} FittingHashesFixContent(h: Hasher, s: Db, i: nat)
    requires Injective(h) && Sound(h, s) && MayExecute(h, s, i)
    ensures s.operations[i].parameters == s.approvals[s.operations[i].approval].reviewed
    ensures s.status == MissionStatus.Approved
  {
    var o := s.operations[i];
    assert OperationSound(s, o);
    assert ApprovalSound(h, s, s.approvals[o.approval]);
    assert h(Whole(o.parameters)) == h(Whole(s.approvals[o.approval].reviewed));
  }

  lemma {:induction false} SettleKeepsApprovals(h: Hasher, s: Db, i: nat, u: Db)
    requires Sound(h, s) && s.status == MissionStatus.Approved
    requires u.approvals == s.approvals && u.version > s.version + 1
    ensures forall a :: 0 <= a < |u.approvals| ==> ApprovalSound(h, u, u.approvals[a])
  {
    forall a | a in u.approvals ensures ApprovalSound(h, u, a) {
      assert ApprovalSound(h, s, a);
    }
  }

  lemma {:induction false} SettleKeepsOperations(h: Hasher, s: Db, i: nat, u: Db)
    requires Sound(h, s) && i < |s.operations| && s.operations[i].attempts == 0 && s.status == MissionStatus.Approved
    requires u.approvals == s.approvals && i < |u.operations| && u.operations == s.operations[i := u.operations[i]]
    requires InLockstep(u.operations[i].status, u.status)
    requires u.operations[i] == s.operations[i].(status := u.operations[i].status, attempts := 1,
                                                 lastAttempt := u.operations[i].lastAttempt)
    ensures forall j :: 0 <= j < |u.operations| ==> OperationSound(u, u.operations[j])
  {
    assert OperationSound(s, s.operations[i]);
    forall o | o in u.operations ensures OperationSound(u, o) {
      if o in s.operations { assert OperationSound(s, o); }
    }
  }

  lemma {:induction false} SettleKeepsSends(h: Hasher, s: Db, i: nat, u: Db, sends: seq<Send>)
    requires Sound(h, s) && i < |s.operations| && OperationSound(s, s.operations[i])
    requires u.approvals == s.approvals && |u.operations| == |s.operations| && u.sends == s.sends + sends
    requires forall j :: 0 <= j < |s.operations| ==>
               u.operations[j].approval == s.operations[j].approval && u.operations[j].demo == s.operations[j].demo
    requires sends == []
             || (!s.operations[i].demo && sends == [Send(i, s.approvals[s.operations[i].approval].reviewed)])
    ensures forall k :: 0 <= k < |u.sends| ==> SendSound(u, u.sends[k])
  {
    forall x | x in u.sends ensures SendSound(u, x) {
      if x in s.sends {
        assert SendSound(s, x);
      }
    }
  }

  lemma {:induction false} SettleKeepsSound(h: Hasher, s: Db, i: nat, op: OperationStatus, m: MissionStatus,
                                            t: AttemptStatus, hops: int, sends: seq<Send>)
    requires Injective(h) && Sound(h, s) && MayExecute(h, s, i)
    requires InLockstep(op, m) && hops > 1
    requires sends == [] || (!s.operations[i].demo && sends == [Send(i, s.operations[i].parameters)])
    ensures Sound(h, Settled(s, i, op, m, t, hops, sends))
  {
    FittingHashesFixContent(h, s, i);
    var u := Settled(s, i, op, m, t, hops, sends);
    SettleKeepsApprovals(h, s, i, u);
    SettleKeepsOperations(h, s, i, u);
    SettleKeepsSends(h, s, i, u, sends);
    forall j | 0 <= j < |s.operations| ensures !Executed(s, j) { assert OperationSound(s, s.operations[j]); }
    assert forall j :: Executed(u, j) <==> j == i;
  }

  /** An attempt that does not raise ends in matching statuses, after two or three status changes. */
  lemma {:induction false} ExecuteSettles(s: Db, i: nat, simulate: bool, o: Oracle)
    returns (op: OperationStatus, m: MissionStatus, attempt: AttemptStatus, hops: int, sends: seq<Send>)
    requires i < |s.operations| && Attempted(s, i, simulate, o).Done?
    ensures Attempted(s, i, simulate, o).db == Settled(s, i, op, m, attempt, hops, sends)
    ensures InLockstep(op, m) && (hops == 3 || (hops == 2 && !m.Completed?))
    ensures sends == [] || (!s.operations[i].demo && sends == [Send(i, s.operations[i].parameters)])
  {
    if simulate {
      op, m, attempt, hops, sends := OperationStatus.Unknown, MissionStatus.Unknown, AttemptUnknown, 2, [];
    } else if s.operations[i].demo {
      op, m, attempt, hops, sends := OperationStatus.Succeeded, MissionStatus.Completed, AttemptSucceeded, 3, [];
    } else {
      var end := EndOf(FateOf(o));
      op, m, attempt, hops := end.op, end.mission, end.attempt, if ProviderAccepts(o) then 3 else 2;
      sends := if ReachesSend(o) then [Send(i, s.operations[i].parameters)] else [];
    }
  }

  lemma {:induction false} LossKeepsSound(h: Hasher, s: Db, x: Send)
    requires Sound(h, s) && SendSound(s, x)
    ensures Sound(h, s.(sends := s.sends + [x], lost := s.lost + 1))
  {
    var u := s.(sends := s.sends + [x], lost := s.lost + 1);
    forall a | 0 <= a < |u.approvals|
      ensures ApprovalSound(h, u, u.approvals[a])
    {
      assert ApprovalSound(h, s, s.approvals[a]);
    }
    forall j | 0 <= j < |u.operations|
      ensures OperationSound(u, u.operations[j])
    {
      assert OperationSound(s, s.operations[j]);
    }
    forall k | 0 <= k < |u.sends| ensures SendSound(u, u.sends[k]) {
      if k < |s.sends| { assert SendSound(s, s.sends[k]); }
    }
    assert forall i :: Executed(u, i) == Executed(s, i);
  }

  lemma {:induction false} ExecuteKeepsSound(h: Hasher, s: Db, i: nat, simulate: bool, o: Oracle)
    requires Injective(h) && Sound(h, s)
    ensures Sound(h, After(s, Execute(h, s, i, simulate, o)))
  {
    if MayExecute(h, s, i) {
      var out := Execute(h, s, i, simulate, o);
      if out.RaisedAfterSend? {
        FittingHashesFixContent(h, s, i);
        LossKeepsSound(h, s, out.send);
      } else if out.Done? {
        var op, m, attempt, hops, sends := ExecuteSettles(s, i, simulate, o);
        SettleKeepsSound(h, s, i, op, m, attempt, hops, sends);
      }
    }
  }

  lemma {:induction false} ExecuteLostKeepsSound(h: Hasher, s: Db, i: nat, simulate: bool, o: Oracle)
    requires Injective(h) && Sound(h, s)
    ensures Sound(h, After(s, ExecuteLost(h, s, i, simulate, o)))
  {
    var out := ExecuteLost(h, s, i, simulate, o);
    if out.RaisedAfterSend? {
      FittingHashesFixContent(h, s, i);
      assert OperationSound(s, s.operations[i]);
      LossKeepsSound(h, s, out.send);
    }
  }

  /** A change of the mission row that bumps the version and starts no external action. */
  lemma {:induction false} BumpKeepsSound(h: Hasher, s: Db, status: MissionStatus, bump: int)
    requires Sound(h, s) && bump > 0
    requires ActionStarted(s.status) ==> status == s.status
    ensures Sound(h, s.(status := status, version := s.version + bump))
  {
    var u := s.(status := status, version := s.version + bump);
    forall a | 0 <= a < |u.approvals|
      ensures ApprovalSound(h, u, u.approvals[a])
    {
      assert ApprovalSound(h, s, s.approvals[a]);
    }
    forall j | 0 <= j < |u.operations|
      ensures OperationSound(u, u.operations[j])
    {
      assert OperationSound(s, s.operations[j]);
    }
    forall k | 0 <= k < |u.sends| ensures SendSound(u, u.sends[k]) { assert SendSound(s, s.sends[k]); }
    assert forall i :: Executed(u, i) == Executed(s, i);
  }

  lemma {:induction false} ReviewKeepsSound(h: Hasher, s: Db, e: Event)
    requires Sound(h, s) && e.ELeadReview?
    ensures Sound(h, After(s, Step(h, s, e)))
  {
    var out := Step(h, s, e);
    if out.Done? {
      BumpKeepsSound(h, s, out.db.status, 2);
      var u := s.(status := out.db.status, version := s.version + 2);
      forall j | 0 <= j < |u.operations|
        ensures OperationSound(out.db, out.db.operations[j])
      {
        assert OperationSound(u, u.operations[j]);
      }
      forall k | 0 <= k < |u.sends| ensures SendSound(out.db, out.db.sends[k]) { assert SendSound(u, u.sends[k]); }
      forall a | 0 <= a < |out.db.approvals| ensures ApprovalSound(h, out.db, out.db.approvals[a]) {
        if a < |s.approvals| { assert ApprovalSound(h, u, u.approvals[a]); }
      }
      assert forall i :: Executed(out.db, i) == Executed(s, i);
    }
  }

  lemma {:induction false} DecideKeepsSound(h: Hasher, s: Db, a: nat, d: Decision)
    requires Sound(h, s)
    ensures Sound(h, After(s, Decide(s, a, d)))
  {
    var out := Decide(s, a, d);
    if out.Done? {
      var u := out.db;
      assert ApprovalSound(h, s, s.approvals[a]);
      forall b | 0 <= b < |u.approvals|
        ensures ApprovalSound(h, u, u.approvals[b])
      {
        assert ApprovalSound(h, s, s.approvals[b]);
      }
      forall j | 0 <= j < |u.operations|
        ensures OperationSound(u, u.operations[j])
      {
        assert OperationSound(s, s.operations[j]);
      }
      forall k | 0 <= k < |u.sends| ensures SendSound(u, u.sends[k]) { assert SendSound(s, s.sends[k]); }
      assert forall i :: Executed(u, i) == Executed(s, i);
    }
  }

  lemma {:induction false} PrepareKeepsSound(h: Hasher, s: Db, e: Event)
    requires Injective(h) && Sound(h, s) && e.EPrepare?
    ensures Sound(h, After(s, Step(h, s, e)))
  {
    var out := Step(h, s, e);
    if out.Done? && out.db != s {
      var u := out.db;
      forall b | 0 <= b < |u.approvals|
        ensures ApprovalSound(h, u, u.approvals[b])
      {
        assert ApprovalSound(h, s, s.approvals[b]);
      }
      forall j | 0 <= j < |u.operations| ensures OperationSound(u, u.operations[j]) {
        if j < |s.operations| {
          assert OperationSound(s, s.operations[j]);
        } else {
          assert Whole(s.approvals[e.approval].exactAction) == Whole(s.approvals[e.approval].reviewed) by {
            assert ApprovalSound(h, s, s.approvals[e.approval]);
          }
        }
      }
      forall k | 0 <= k < |u.sends| ensures SendSound(u, u.sends[k]) { assert SendSound(s, s.sends[k]); }
      assert forall i :: Executed(u, i) == Executed(s, i);
    }
  }

  /** Rewritten rows that keep what the protocol knows of them. */
  ghost predicate SameTerms(s: Db, u: Db) {
    && u.status == s.status && u.version == s.version && u.riskLevel == s.riskLevel
    && u.sends == s.sends && u.lost == s.lost
    && |u.approvals| == |s.approvals| && |u.operations| == |s.operations|
    && (forall a :: 0 <= a < |s.approvals| ==>
          && u.approvals[a].reviewed == s.approvals[a].reviewed && u.approvals[a].hash == s.approvals[a].hash
          && u.approvals[a].missionVersion == s.approvals[a].missionVersion
          && (u.approvals[a].status == s.approvals[a].status
              || (s.approvals[a].status == ApprovalStatus.Pending && u.approvals[a].status == ApprovalStatus.Expired)))
    && (forall i :: 0 <= i < |s.operations| ==>
          u.operations[i] == s.operations[i].(parameters := u.operations[i].parameters))
  }

  /** Expiry, synchronisation and tampering rewrite rows in place. */
  lemma {:induction false} RewritesKeepSound(h: Hasher, s: Db, u: Db)
    requires Sound(h, s) && SameTerms(s, u)
    ensures Sound(h, u)
  {
    forall b | 0 <= b < |u.approvals|
      ensures ApprovalSound(h, u, u.approvals[b])
    {
      assert ApprovalSound(h, s, s.approvals[b]);
    }
    forall j | 0 <= j < |u.operations| ensures OperationSound(u, u.operations[j]) {
      assert OperationSound(s, s.operations[j]);
    }
    forall k | 0 <= k < |u.sends| ensures SendSound(u, u.sends[k]) { assert SendSound(s, s.sends[k]); }
    assert forall i :: Executed(u, i) == Executed(s, i);
  }

  lemma {:induction false} RewritingKeepsSound(h: Hasher, s: Db, e: Event)
    requires Sound(h, s) && (e.EExpire? || e.EResync? || e.ETamperOperation? || e.ETamperApproval?)
    ensures Sound(h, After(s, Step(h, s, e)))
  {
    RewritesKeepSound(h, s, After(s, Step(h, s, e)));
  }

  lemma {:induction false} MissionChangeKeepsSound(h: Hasher, s: Db, t: MissionStatus)
    requires Sound(h, s)
    ensures Sound(h, After(s, MissionChange(s, t)))
  {
    if MissionChange(s, t).Done? { BumpKeepsSound(h, s, t, 1); }
  }

  lemma {:induction false} VerifyKeepsRequests(h: Hasher, s: Db, i: nat, succeeded: bool, recorded: bool)
    requires Sound(h, s) && Verify(s, i, succeeded, recorded).Done?
    ensures var u := Verify(s, i, succeeded, recorded).db;
            && (forall a :: 0 <= a < |u.approvals| ==> ApprovalSound(h, u, u.approvals[a]))
            && (forall k :: 0 <= k < |u.sends| ==> SendSound(u, u.sends[k]))
  {
    var u := Verify(s, i, succeeded, recorded).db;
    forall b | 0 <= b < |u.approvals|
      ensures ApprovalSound(h, u, u.approvals[b])
    {
      assert ApprovalSound(h, s, s.approvals[b]);
    }
    forall k | 0 <= k < |u.sends| ensures SendSound(u, u.sends[k]) { assert SendSound(s, s.sends[k]); }
  }

  lemma {:induction false} VerifyKeepsOperations(h: Hasher, s: Db, i: nat, succeeded: bool, recorded: bool)
    requires Sound(h, s) && Verify(s, i, succeeded, recorded).Done?
    ensures var u := Verify(s, i, succeeded, recorded).db;
            && (forall j :: 0 <= j < |u.operations| ==> OperationSound(u, u.operations[j]))
            && (forall j :: Executed(u, j) == Executed(s, j))
  {
    var u := Verify(s, i, succeeded, recorded).db;
    assert Executed(s, i);
    forall j | 0 <= j < |u.operations| ensures OperationSound(u, u.operations[j]) {
      assert OperationSound(s, s.operations[j]);
      assert j != i ==> !Executed(s, j);
    }
  }

  lemma {:induction false} VerifyKeepsSound(h: Hasher, s: Db, i: nat, succeeded: bool, recorded: bool)
    requires Sound(h, s)
    ensures Sound(h, After(s, Verify(s, i, succeeded, recorded)))
  {
    if Verify(s, i, succeeded, recorded).Done? {
      VerifyKeepsRequests(h, s, i, succeeded, recorded);
      VerifyKeepsOperations(h, s, i, succeeded, recorded);
    }
  }

  lemma {:induction false} SendingKeepsSound(h: Hasher, s: Db, e: Event)
    requires Injective(h) && Sound(h, s) && (e.EExecute? || e.EExecuteLost? || e.EVerify?)
    ensures Sound(h, After(s, Step(h, s, e)))
  {
    match e
    case EExecute(i, simulate, o) =>
      assert Step(h, s, e) == Execute(h, s, i, simulate, o);
      ExecuteKeepsSound(h, s, i, simulate, o);
    case EExecuteLost(i, simulate, o) =>
      assert Step(h, s, e) == ExecuteLost(h, s, i, simulate, o);
      ExecuteLostKeepsSound(h, s, i, simulate, o);
    case EVerify(i, succeeded, recorded) =>
      assert Step(h, s, e) == Verify(s, i, succeeded, recorded);
      VerifyKeepsSound(h, s, i, succeeded, recorded);
  }

  lemma {:induction false} RequestingKeepsSound(h: Hasher, s: Db, e: Event)
    requires Injective(h) && Sound(h, s) && (e.ELeadReview? || e.EDecide? || e.EPrepare?)
    ensures Sound(h, After(s, Step(h, s, e)))
  {
    match e
    case ELeadReview(_, _, _, _) => ReviewKeepsSound(h, s, e);
    case EDecide(a, d) => DecideKeepsSound(h, s, a, d);
    case EPrepare(_, _, _, _, _) => PrepareKeepsSound(h, s, e);
  }

  lemma {:induction false} PlanningKeepsSound(h: Hasher, s: Db, e: Event)
    requires Sound(h, s) && (e.EMission? || e.EEdit?)
    ensures Sound(h, After(s, Step(h, s, e)))
  {
    match e
    case EMission(target) => MissionChangeKeepsSound(h, s, target);
    case EEdit(bumps) => BumpKeepsSound(h, s, s.status, 1 + bumps);
  }

  lemma {:induction false} StepKeepsSound(h: Hasher, s: Db, e: Event)
    requires Injective(h) && Sound(h, s)
    ensures Sound(h, After(s, Step(h, s, e)))
  {
    if e.EExecute? || e.EExecuteLost? || e.EVerify? {
      SendingKeepsSound(h, s, e);
    } else if e.ELeadReview? || e.EDecide? || e.EPrepare? {
      RequestingKeepsSound(h, s, e);
    } else if e.EMission? || e.EEdit? {
      PlanningKeepsSound(h, s, e);
    } else {
      RewritingKeepsSound(h, s, e);
    }
  }

  lemma {:induction false} RunKeepsSound(h: Hasher, s: Db, events: seq<Event>)
    requires Injective(h) && Sound(h, s)
    ensures Sound(h, Exec(h, s, events))
  {
    if events == [] {
    } else {
      var n := |events| - 1;
      RunKeepsSound(h, s, events[..n]);
      StepKeepsSound(h, Exec(h, s, events[..n]), events[n]);
    }
  }

  lemma {:induction false} ReachableIsSound(h: Hasher, start: Db, events: seq<Event>)
    requires Injective(h) && Fresh(start)
    ensures Sound(h, Exec(h, start, events))
  {
    if events == [] {
    } else {
      var n := |events| - 1;
      ReachableIsSound(h, start, events[..n]);
      StepKeepsSound(h, Exec(h, start, events[..n]), events[n]);
    }
  }
}
