/** Planning, execution, approval and sending together: runs over a pair of databases that share the
    mission row. What one side does is seen by the other as the moves that stand for it. */
module JointRuns {
  import opened Lifecycles
  import MissionSafety
  import MissionMoves
  import opened MissionBridge

  datatype Joint = Joint(m: MissionFlow.Db, s: SendFlow.Db)

  /** body and now: the text a lead review among the planning calls asks to have approved, and when. */
  datatype Call =
    | MissionCall(step: MissionFlow.Event, body: string, now: int)
    | SendCall(event: SendFlow.Event)

  /** Calls of the services; the stand-ins of the other side are none. */
  predicate IsService(c: Call) {
    match c
    case MissionCall(e, _, _) => !e.EMove?
    case SendCall(e) => !e.EMission? && !e.EEdit? && !e.ELeadReview?
  }

  ghost function Step(h: SendFlow.Hasher, j: Joint, c: Call): Joint
    requires IsService(c)
  {
    match c
    case MissionCall(e, body, now) =>
      Joint(MissionFlow.After(j.m, MissionFlow.Step(j.m, e)), SendFlow.Exec(h, j.s, Stands(j.m, e, body, now)))
    case SendCall(e) =>
      var t := SendFlow.After(j.s, SendFlow.Step(h, j.s, e));
      Joint(j.m.(mission := j.m.mission.(status := t.status, version := t.version)), t)
  }

  ghost function Exec(h: SendFlow.Hasher, j: Joint, calls: seq<Call>): Joint
    requires forall c <- calls :: IsService(c)
  {
    if calls == [] then j
    else
      var n := |calls| - 1;
      Step(h, Exec(h, j, calls[..n]), calls[n])
  }

  ghost predicate Sound(h: SendFlow.Hasher, j: Joint) {
    SameRow(j.s, j.m) && MissionSafety.Sound(j.m) && SendSafety.Sound(h, j.s)
  }

  ghost predicate Fresh(j: Joint) {
    SameRow(j.s, j.m) && MissionFlow.Fresh(j.m) && SendFlow.Fresh(j.s)
  }

  // ----- Both invariants, in every joint run -----

  lemma {:induction false} StepKeepsSound(h: SendFlow.Hasher, j: Joint, c: Call)
    requires SendFlow.Injective(h) && Sound(h, j) && IsService(c)
    ensures Sound(h, Step(h, j, c))
  {
    match c
    case MissionCall(e, body, now) =>
      MissionStepsAreStandIns(h, j.s, j.m, e, body, now);
      MissionSafety.StepKeepsSound(j.m, e);
      SendSafety.RunKeepsSound(h, j.s, Stands(j.m, e, body, now));
    case SendCall(e) =>
      var moves := SendStepsAreMoves(h, j.s, e, j.m);
      MissionSafety.RunKeepsSound(j.m, moves);
      assert Step(h, j, c).m == MissionFlow.Exec(j.m, moves);
      SendSafety.StepKeepsSound(h, j.s, e);
  }

  /** In every joint run both databases hold the same mission row and both are sound. */
  lemma {:induction false} JointRunsAreSound(h: SendFlow.Hasher, start: Joint, calls: seq<Call>)
    requires SendFlow.Injective(h) && Fresh(start) && forall c <- calls :: IsService(c)
    ensures Sound(h, Exec(h, start, calls))
  {
    if calls == [] {
      MissionSafety.ReachableIsSound(start.m, []);
      SendSafety.ReachableIsSound(h, start.s, []);
    } else {
      var n := |calls| - 1;
      JointRunsAreSound(h, start, calls[..n]);
      StepKeepsSound(h, Exec(h, start, calls[..n]), calls[n]);
    }
  }

  // ----- Mail goes out only for finished plans -----

  /** Every item, at least one, is accepted and has the evidence it requires, none of it disputed. */
  ghost predicate Finished(m: MissionFlow.Db) {
    && !MissionSafety.Drafting(m.mission.status) && m.items != map[] && MissionFlow.AllAccepted(m.items)
    && forall i :: i in m.items ==> MissionFlow.GatePasses(m, i)
  }

  lemma {:induction false} OthersSendNothing(h: SendFlow.Hasher, s: SendFlow.Db, e: SendFlow.Event)
    requires !e.EExecute?
    ensures !e.EExecuteLost? ==> SendFlow.After(s, SendFlow.Step(h, s, e)).sends == s.sends
  {}

  lemma {:induction false} SendingCallsAreApproved(h: SendFlow.Hasher, s: SendFlow.Db, e: SendFlow.Event)
    requires SendFlow.Injective(h) && SendSafety.Sound(h, s)
    requires SendFlow.After(s, SendFlow.Step(h, s, e)).sends != s.sends
    ensures s.status == MissionStatus.Approved
  {
    if e.EExecute? {
      assert SendFlow.Step(h, s, e) == SendFlow.Execute(h, s, e.operation, e.simulateUnknown, e.oracle);
      SendSafety.FittingHashesFixContent(h, s, e.operation);
    } else {
      OthersSendNothing(h, s, e);
      assert SendFlow.Step(h, s, e) == SendFlow.ExecuteLost(h, s, e.operation, e.simulateUnknown, e.oracle);
      SendSafety.FittingHashesFixContent(h, s, e.operation);
    }
  }

  /** A call that makes the provider send starts from an approved mission all of whose items, at least
      one, are accepted. */
  lemma {:induction false} MailNeedsFinishedPlan(h: SendFlow.Hasher, start: Joint, calls: seq<Call>, c: Call)
    requires SendFlow.Injective(h) && Fresh(start) && (forall x <- calls :: IsService(x)) && IsService(c)
    requires var j := Exec(h, start, calls); Step(h, j, c).s.sends != j.s.sends
    ensures var j := Exec(h, start, calls); Finished(j.m) && j.m.mission.status == MissionStatus.Approved
  {
    JointRunsAreSound(h, start, calls);
    var j := Exec(h, start, calls);
    match c
    case MissionCall(e, body, now) => MissionStepsAreStandIns(h, j.s, j.m, e, body, now);
    case SendCall(e) => SendingCallsAreApproved(h, j.s, e);
  }

  lemma {:induction false} AcceptedStays(a: MissionFlow.Item, b: MissionFlow.Item)
    requires MissionMoves.ItemMoves(a, b) && a.status == WorkStatus.Accepted
    ensures b.status == WorkStatus.Accepted
  {}

  lemma {:induction false} DraftingIsOver(m: MissionFlow.Db, e: MissionFlow.Event)
    requires MissionSafety.Sound(m) && !MissionSafety.Drafting(m.mission.status) && !e.EPlan? && !e.EEdit?
    ensures !MissionSafety.Drafting(MissionFlow.After(m, MissionFlow.Step(m, e)).mission.status)
  {}

  lemma {:induction false} FinishedStays(m: MissionFlow.Db, e: MissionFlow.Event)
    requires MissionSafety.Sound(m) && Finished(m)
    ensures Finished(MissionFlow.After(m, MissionFlow.Step(m, e)))
  {
    var n := MissionFlow.After(m, MissionFlow.Step(m, e));
    MissionSafety.StepKeepsSound(m, e);
    if e.EPlan? {
      assert MissionFlow.Step(m, e) == MissionFlow.PlanMission(m, e.expected, e.specs, e.resourcesFound);
    } else if e.EEdit? {
      assert MissionFlow.Step(m, e) == MissionFlow.EditItem(m, e.item, e.expected, e.valid, e.requirements);
    } else {
      MissionMoves.OnlyLegalMoves(m, e);
      forall i | i in n.items
        ensures n.items[i].status == WorkStatus.Accepted
      {
        AcceptedStays(m.items[i], n.items[i]);
      }
      DraftingIsOver(m, e);
    }
  }

  lemma {:induction false} FinishedThroughMoves(m: MissionFlow.Db, moves: seq<MissionFlow.Event>)
    requires MissionSafety.Sound(m) && Finished(m)
    ensures Finished(MissionFlow.Exec(m, moves))
  {
    if moves == [] {
    } else {
      var n := |moves| - 1;
      FinishedThroughMoves(m, moves[..n]);
      MissionSafety.RunKeepsSound(m, moves[..n]);
      FinishedStays(MissionFlow.Exec(m, moves[..n]), moves[n]);
    }
  }

  lemma {:induction false} FinishedThroughCall(h: SendFlow.Hasher, j: Joint, c: Call)
    requires SendFlow.Injective(h) && Sound(h, j) && IsService(c) && Finished(j.m)
    ensures Finished(Step(h, j, c).m)
  {
    StepKeepsSound(h, j, c);
    match c
    case MissionCall(e, _, _) => FinishedStays(j.m, e);
    case SendCall(e) =>
      var moves := SendStepsAreMoves(h, j.s, e, j.m);
      assert Step(h, j, c).m == MissionFlow.Exec(j.m, moves);
      FinishedThroughMoves(j.m, moves);
  }

  /** Once mail was sent, the plan it reports on stays finished whatever is called afterwards. */
  lemma {:induction false} SentMeansFinished(h: SendFlow.Hasher, start: Joint, calls: seq<Call>)
    requires SendFlow.Injective(h) && Fresh(start) && forall c <- calls :: IsService(c)
    ensures var j := Exec(h, start, calls); j.s.sends != [] ==> Finished(j.m)
  {
    if calls == [] {
    } else {
      var n := |calls| - 1;
      var before, c := calls[..n], calls[n];
      var j := Exec(h, start, before);
      SentMeansFinished(h, start, before);
      JointRunsAreSound(h, start, before);
      JointRunsAreSound(h, start, calls);
      if Step(h, j, c).s.sends != j.s.sends {
        MailNeedsFinishedPlan(h, start, before, c);
      }
      if Finished(j.m) {
        FinishedThroughCall(h, j, c);
      }
    }
  }
}
