/** The two mission models agree on the mission row: what one treats as an arbitrary move of the
    other is exactly what the other does to status and version. */
module MissionBridge {
  import opened Lifecycles
  import MissionFlow
  import SendFlow
  import SendSafety
  import SendTheorems

  /** Both databases hold the same mission row. */
  ghost predicate SameRow(s: SendFlow.Db, m: MissionFlow.Db) {
    m.mission.status == s.status && m.mission.version == s.version && m.mission.riskLevel == s.riskLevel
  }

  // ----- Approval and sending, seen from the planning side -----

  /** Only the mission row changes. */
  ghost predicate OnlyRow(m: MissionFlow.Db, n: MissionFlow.Db) {
    && n == m.(mission := n.mission)
    && n.mission.planVersion == m.mission.planVersion && n.mission.riskLevel == m.mission.riskLevel
  }

  lemma {:induction false} MoveOnce(m: MissionFlow.Db, moves: seq<MissionFlow.Event>, target: MissionStatus)
    requires var n := MissionFlow.Exec(m, moves);
             MissionFlow.AwaitingOrSending(n.mission.status) && target in MissionTargets(n.mission.status)
    ensures var n := MissionFlow.Exec(m, moves);
            MissionFlow.Exec(m, moves + [MissionFlow.EMove(target)]) ==
              n.(mission := MissionFlow.Advance(n.mission, target))
  {
    assert (moves + [MissionFlow.EMove(target)])[..|moves|] == moves;
  }

  ghost function Moves(targets: seq<MissionStatus>): (moves: seq<MissionFlow.Event>)
    ensures forall x <- moves :: x.EMove?
    ensures |moves| == |targets|
  {
    if targets == [] then [] else Moves(targets[..|targets| - 1]) + [MissionFlow.EMove(targets[|targets| - 1])]
  }

  /** A legal history within the approval and sending statuses. */
  ghost predicate IsSendingHistory(from: MissionStatus, targets: seq<MissionStatus>) {
    targets != [] ==>
      var k := |targets| - 1;
      var before := if k == 0 then from else targets[k - 1];
      && MissionFlow.AwaitingOrSending(before) && targets[k] in MissionTargets(before)
      && IsSendingHistory(from, targets[..k])
  }

  lemma {:induction false} MovesFollow(m: MissionFlow.Db, targets: seq<MissionStatus>)
    requires IsSendingHistory(m.mission.status, targets)
    ensures var n := MissionFlow.Exec(m, Moves(targets));
            && OnlyRow(m, n) && n.mission.version == m.mission.version + |targets|
            && n.mission.status == if targets == [] then m.mission.status else targets[|targets| - 1]
  {
    if targets == [] {
    } else {
      var k := |targets| - 1;
      MovesFollow(m, targets[..k]);
      MoveOnce(m, Moves(targets[..k]), targets[k]);
    }
  }

  /** The mission row of t is reached through these statuses, with one version for each. */
  ghost predicate LeadsTo(s: SendFlow.Db, targets: seq<MissionStatus>, t: SendFlow.Db) {
    && IsSendingHistory(s.status, targets) && t.version == s.version + |targets| && t.riskLevel == s.riskLevel
    && t.status == if targets == [] then s.status else targets[|targets| - 1]
  }

  lemma {:induction false} DecisionHistory(h: SendFlow.Hasher, s: SendFlow.Db, a: nat, d: SendFlow.Decision)
    returns (targets: seq<MissionStatus>)
    requires SendSafety.Sound(h, s)
    ensures LeadsTo(s, targets, SendFlow.After(s, SendFlow.Decide(s, a, d)))
  {
    var o := SendFlow.Decide(s, a, d);
    targets := if o.Done? then [o.db.status] else [];
    if o.Done? { assert SendSafety.ApprovalSound(h, s, s.approvals[a]); }
  }

  lemma {:induction false} VerificationHistory(s: SendFlow.Db, i: nat, succeeded: bool, recorded: bool)
    returns (targets: seq<MissionStatus>)
    ensures LeadsTo(s, targets, SendFlow.After(s, SendFlow.Verify(s, i, succeeded, recorded)))
  {
    var o := SendFlow.Verify(s, i, succeeded, recorded);
    targets := if o.Done? then [MissionStatus.Verifying, o.db.status] else [];
    if o.Done? { assert targets[..1] == [MissionStatus.Verifying] && targets[..1][..0] == []; }
  }

  /** A legal history whose inner statuses are those of the sending. */
  lemma {:induction false} HistoryIsSending(from: MissionStatus, targets: seq<MissionStatus>)
    requires MissionFlow.AwaitingOrSending(from) && IsMissionHistory([from] + targets)
    requires forall k :: 0 <= k < |targets| - 1 ==> MissionFlow.AwaitingOrSending(targets[k])
    ensures IsSendingHistory(from, targets)
  {
    if targets == [] {
    } else {
      var k := |targets| - 1;
      var hist := [from] + targets;
      assert hist[k + 1] in MissionTargets(hist[k]);
      assert [from] + targets[..k] == hist[..k + 1];
      HistoryIsSending(from, targets[..k]);
    }
  }

  lemma {:induction false} AttemptHistory(h: SendFlow.Hasher, s: SendFlow.Db, i: nat, simulate: bool,
                                          o: SendFlow.Oracle)
    returns (targets: seq<MissionStatus>)
    requires SendFlow.Injective(h) && SendSafety.Sound(h, s)
    ensures LeadsTo(s, targets, SendFlow.After(s, SendFlow.Execute(h, s, i, simulate, o)))
  {
    targets := [];
    if SendFlow.MayExecute(h, s, i) && SendFlow.Execute(h, s, i, simulate, o).Done? {
      SendSafety.FittingHashesFixContent(h, s, i);
      var op, m, attempt, hops, sends := SendSafety.ExecuteSettles(s, i, simulate, o);
      targets := SendTheorems.AttemptPath(m, hops);
      HistoryIsSending(MissionStatus.Approved, targets);
    }
  }

  lemma {:induction false} OthersKeepRow(h: SendFlow.Hasher, s: SendFlow.Db, e: SendFlow.Event)
    requires e.EExpire? || e.EPrepare? || e.EExecuteLost? || e.EResync? || e.ETamperOperation? || e.ETamperApproval?
    ensures LeadsTo(s, [], SendFlow.After(s, SendFlow.Step(h, s, e)))
  {}

  /** The statuses an approval or sending call takes the mission through. */
  lemma {:induction false} SendingHistory(h: SendFlow.Hasher, s: SendFlow.Db, e: SendFlow.Event)
    returns (targets: seq<MissionStatus>)
    requires SendFlow.Injective(h) && SendSafety.Sound(h, s) && !e.EMission? && !e.EEdit? && !e.ELeadReview?
    ensures LeadsTo(s, targets, SendFlow.After(s, SendFlow.Step(h, s, e)))
  {
    match e
    case EDecide(a, d) =>
      assert SendFlow.Step(h, s, e) == SendFlow.Decide(s, a, d);
      targets := DecisionHistory(h, s, a, d);
    case EExecute(i, simulate, o) =>
      assert SendFlow.Step(h, s, e) == SendFlow.Execute(h, s, i, simulate, o);
      targets := AttemptHistory(h, s, i, simulate, o);
    case EVerify(i, succeeded, recorded) =>
      assert SendFlow.Step(h, s, e) == SendFlow.Verify(s, i, succeeded, recorded);
      targets := VerificationHistory(s, i, succeeded, recorded);
    case _ =>
      targets := [];
      OthersKeepRow(h, s, e);
  }

  /** Every call of the approval and sending protocol, from any sound state, changes the mission row
      by a chain of the moves that stand for it in the planning model, and nothing else there. */
  lemma {:induction false} SendStepsAreMoves(h: SendFlow.Hasher, s: SendFlow.Db, e: SendFlow.Event, m: MissionFlow.Db)
    returns (moves: seq<MissionFlow.Event>)
    requires SendFlow.Injective(h) && SendSafety.Sound(h, s) && SameRow(s, m)
    requires !e.EMission? && !e.EEdit?
    requires e.ELeadReview? ==> (e.allAccepted <==> m.items != map[] && MissionFlow.AllAccepted(m.items))
    ensures forall x <- moves :: x.EMove? || x.ELeadReview?
    ensures var n := MissionFlow.Exec(m, moves); OnlyRow(m, n) && SameRow(SendFlow.After(s, SendFlow.Step(h, s, e)), n)
  {
    if e.ELeadReview? {
      var review := MissionFlow.ELeadReview(e.expected);
      moves := [review];
      assert moves[..0] == [] && MissionFlow.Exec(m, []) == m;
    } else {
      var targets := SendingHistory(h, s, e);
      moves := Moves(targets);
      MovesFollow(m, targets);
    }
  }

  // ----- Planning and execution, seen from the sending side -----

  /** Everything but the mission row and the requests of the lead review stays as it is. */
  ghost predicate OnlyRowAndRequests(s: SendFlow.Db, t: SendFlow.Db) {
    && t.operations == s.operations && t.sends == s.sends && t.lost == s.lost && t.source == s.source
    && |s.approvals| <= |t.approvals| && t.approvals[..|s.approvals|] == s.approvals
  }

  /** What a planning or execution call is for the sending protocol. */
  ghost function Stands(m: MissionFlow.Db, e: MissionFlow.Event, body: string, now: int): seq<SendFlow.Event>
    requires !e.EMove?
  {
    var o := MissionFlow.Step(m, e);
    if o.Raised? || o.db.mission == m.mission then []
    else
      match e
      case EPlan(_, _, _) =>
        if m.mission.status == MissionStatus.LeadTriage
        then [SendFlow.EMission(MissionStatus.Planning), SendFlow.EEdit(0)]
        else [SendFlow.EEdit(0)]
      case EEdit(_, _, _, _) => [SendFlow.EEdit(0)]
      case EAddDependency(_, _) => [SendFlow.EEdit(0)]
      case ERemoveDependency(_) => [SendFlow.EEdit(0)]
      case ELeadReview(expected) => [SendFlow.ELeadReview(expected, true, body, now)]
      case _ => [SendFlow.EMission(o.db.mission.status)]
  }

  lemma {:induction false} ExecTwo(h: SendFlow.Hasher, s: SendFlow.Db, d: SendFlow.Event, e: SendFlow.Event)
    ensures var t := SendFlow.After(s, SendFlow.Step(h, s, d));
            SendFlow.Exec(h, s, [d, e]) == SendFlow.After(t, SendFlow.Step(h, t, e))
  {
    assert [d, e][..1] == [d];
    SendFlow.ExecOne(h, s, d);
  }

  lemma {:induction false} PlanStandIn(h: SendFlow.Hasher, s: SendFlow.Db, m: MissionFlow.Db, e: MissionFlow.Event,
                                       body: string, now: int)
    requires SameRow(s, m) && e.EPlan?
    ensures var t := SendFlow.Exec(h, s, Stands(m, e, body, now));
            SameRow(t, MissionFlow.After(m, MissionFlow.Step(m, e))) && OnlyRowAndRequests(s, t)
  {
    var events := Stands(m, e, body, now);
    if |events| == 1 {
      SendFlow.ExecOne(h, s, events[0]);
    } else if |events| == 2 {
      ExecTwo(h, s, events[0], events[1]);
    }
  }

  lemma {:induction false} OtherStandIn(h: SendFlow.Hasher, s: SendFlow.Db, m: MissionFlow.Db, e: MissionFlow.Event,
                                        body: string, now: int)
    requires SameRow(s, m) && !e.EPlan? && !e.EMove?
    ensures var t := SendFlow.Exec(h, s, Stands(m, e, body, now));
            SameRow(t, MissionFlow.After(m, MissionFlow.Step(m, e))) && OnlyRowAndRequests(s, t)
  {
    var events := Stands(m, e, body, now);
    if events != [] {
      SendFlow.ExecOne(h, s, events[0]);
    }
  }

  lemma {:induction false} StandInsAreForeign(m: MissionFlow.Db, e: MissionFlow.Event, body: string, now: int)
    requires !e.EMove?
    ensures forall x <- Stands(m, e, body, now) :: x.EMission? || x.EEdit? || x.ELeadReview?
  {}

  /** Every planning and execution call changes the mission row by a chain of the events that stand
      for it in the sending model; of the requests there it adds at most the one of a lead review. */
  lemma {:induction false} MissionStepsAreStandIns(h: SendFlow.Hasher, s: SendFlow.Db, m: MissionFlow.Db,
                                                   e: MissionFlow.Event, body: string, now: int)
    requires SameRow(s, m) && !e.EMove?
    ensures forall x <- Stands(m, e, body, now) :: x.EMission? || x.EEdit? || x.ELeadReview?
    ensures var t := SendFlow.Exec(h, s, Stands(m, e, body, now));
            SameRow(t, MissionFlow.After(m, MissionFlow.Step(m, e))) && OnlyRowAndRequests(s, t)
  {
    StandInsAreForeign(m, e, body, now);
    if e.EPlan? {
      PlanStandIn(h, s, m, e, body, now);
    } else {
      OtherStandIn(h, s, m, e, body, now);
    }
  }
}
