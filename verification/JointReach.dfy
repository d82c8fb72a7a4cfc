/** Exactly when the services together can still get the mail of a mission sent. */
module JointReach {
  import opened Basics
  import opened Graphs
  import opened Planner
  import opened Lifecycles
  import MissionTheorems
  import StuckRuns
  import SendReach
  import opened MissionBridge
  import opened JointRuns

  /** Calls of the services, with `sync` synchronisations of the mailbox too, that leave stored content alone. */
  ghost predicate Honest(calls: seq<Call>, sync: bool) {
    forall c <- calls :: IsService(c) && (c.SendCall? ==> SendReach.Allowed(c.event, sync))
  }

  ghost predicate SendsMore(h: SendFlow.Hasher, j: Joint, sync: bool, calls: seq<Call>) {
    Honest(calls, sync) && |Exec(h, j, calls).s.sends| > |j.s.sends|
  }

  lemma {:induction false} ExecJoins(h: SendFlow.Hasher, j: Joint, first: seq<Call>, second: seq<Call>)
    requires (forall c <- first :: IsService(c)) && forall c <- second :: IsService(c)
    ensures Exec(h, j, first + second) == Exec(h, Exec(h, j, first), second)
  {
    if second == [] {
      assert first + second == first;
    } else {
      var n := |second| - 1;
      ExecJoins(h, j, first, second[..n]);
      assert (first + second)[..|first + second| - 1] == first + second[..n];
    }
  }

  lemma {:induction false} RunKeepsSound(h: SendFlow.Hasher, j: Joint, calls: seq<Call>)
    requires SendFlow.Injective(h) && Sound(h, j) && forall c <- calls :: IsService(c)
    ensures Sound(h, Exec(h, j, calls))
  {
    if calls == [] {
    } else {
      var n := |calls| - 1;
      RunKeepsSound(h, j, calls[..n]);
      StepKeepsSound(h, Exec(h, j, calls[..n]), calls[n]);
    }
  }

  // ----- Runs of one side -----

  function MissionCalls(events: seq<MissionFlow.Event>): (calls: seq<Call>)
    requires forall e <- events :: !e.EMove?
    ensures |calls| == |events| && forall c <- calls :: c.MissionCall? && IsService(c)
  {
    if events == [] then []
    else MissionCalls(events[..|events| - 1]) + [MissionCall(events[|events| - 1], "", 0)]
  }

  function SendCalls(events: seq<SendFlow.Event>): (calls: seq<Call>)
    requires forall e <- events :: !e.EMission? && !e.EEdit? && !e.ELeadReview?
    ensures |calls| == |events| && forall c <- calls :: IsService(c) && c.SendCall? && c.event in events
  {
    if events == [] then [] else SendCalls(events[..|events| - 1]) + [SendCall(events[|events| - 1])]
  }

  lemma {:induction false} MissionCallsRun(h: SendFlow.Hasher, j: Joint, events: seq<MissionFlow.Event>)
    requires SameRow(j.s, j.m) && forall e <- events :: !e.EMove?
    ensures var k := Exec(h, j, MissionCalls(events));
            && k.m == MissionFlow.Exec(j.m, events) && SameRow(k.s, k.m)
            && k.s.sends == j.s.sends && k.s.source == j.s.source
  {
    if events == [] {
    } else {
      var n := |events| - 1;
      MissionCallsRun(h, j, events[..n]);
      var calls := MissionCalls(events);
      assert calls[..n] == MissionCalls(events[..n]);
      var k := Exec(h, j, calls[..n]);
      MissionStepsAreStandIns(h, k.s, k.m, events[n], "", 0);
    }
  }

  lemma {:induction false} SendCallsRun(h: SendFlow.Hasher, j: Joint, events: seq<SendFlow.Event>)
    requires forall e <- events :: !e.EMission? && !e.EEdit? && !e.ELeadReview?
    ensures Exec(h, j, SendCalls(events)).s == SendFlow.Exec(h, j.s, events)
  {
    if events == [] {
    } else {
      var n := |events| - 1;
      SendCallsRun(h, j, events[..n]);
      assert SendCalls(events)[..n] == SendCalls(events[..n]);
    }
  }

  // ----- Getting there -----

  lemma {:induction false} RiskStays(m: MissionFlow.Db, events: seq<MissionFlow.Event>)
    ensures MissionFlow.Exec(m, events).mission.riskLevel == m.mission.riskLevel
  {
    if events == [] {
    } else {
      var n := |events| - 1;
      RiskStays(m, events[..n]);
      var t := MissionFlow.Exec(m, events[..n]);
      assert MissionFlow.After(t, MissionFlow.Step(t, events[n])).mission.riskLevel == t.mission.riskLevel;
    }
  }

  lemma {:induction false} BeginExecution(u: MissionFlow.Db) returns (events: seq<MissionFlow.Event>)
    requires MissionSafety.Sound(u) && SendReach.Open(u.mission.status)
    requires !MissionSafety.Drafting(u.mission.status)
    ensures forall e <- events :: !e.EMove?
    ensures var n := MissionFlow.Exec(u, events);
            n.mission.status == MissionStatus.Executing && n.items == u.items
  {
    if u.mission.status == MissionStatus.Executing {
      events := [];
    } else {
      var e := MissionFlow.EStartExecution(u.mission.version, false);
      MissionTheorems.ExecOne(u, e);
      events := [e];
    }
  }

  /** An open mission without stuck items, brought to EXECUTING with every item accepted. */
  lemma {:induction false} FinishPlan(m: MissionFlow.Db) returns (events: seq<MissionFlow.Event>)
    requires MissionSafety.Sound(m) && SendReach.Open(m.mission.status) && !MissionTheorems.HasStuck(m)
    ensures forall e <- events :: !e.EMove?
    ensures var n := MissionFlow.Exec(m, events);
            && MissionSafety.Sound(n) && n.mission.status == MissionStatus.Executing
            && n.items != map[] && MissionFlow.AllAccepted(n.items) && n.mission.riskLevel == m.mission.riskLevel
  {
    var plan: seq<MissionFlow.Event> := [];
    if MissionSafety.Drafting(m.mission.status) {
      StuckRuns.SmallPlansAreValid(Id("a"), Id("b"));
      plan := StuckRuns.PlanIsReached(m, [Spec(Id("a"), [], 0)]);
    }
    var t := MissionFlow.Exec(m, plan);
    var work := MissionTheorems.FinishAll(t);
    var u := MissionFlow.Exec(t, work);
    var start := BeginExecution(u);
    MissionTheorems.ExecJoins(m, plan, work);
    MissionTheorems.ExecJoins(m, plan + work, start);
    events := plan + work + start;
    MissionSafety.RunKeepsSound(m, events);
    RiskStays(m, events);
  }

  lemma {:induction false} ReviewRequests(h: SendFlow.Hasher, j: Joint)
    requires SameRow(j.s, j.m) && j.m.mission.status == MissionStatus.Executing
    requires j.m.items != map[] && MissionFlow.AllAccepted(j.m.items)
    ensures var review := MissionCall(MissionFlow.ELeadReview(j.m.mission.version), "", 0);
            var request := SendFlow.ELeadReview(j.s.version, true, "", 0);
            Exec(h, j, [review]).s == SendFlow.Exec(h, j.s, [request])
  {
    var review := MissionCall(MissionFlow.ELeadReview(j.m.mission.version), "", 0);
    assert [review][..0] == [];
    assert MissionFlow.Step(j.m, review.step) == MissionFlow.LeadReviewMission(j.m, j.m.mission.version);
  }

  lemma {:induction false} JoinsAssociate<T>(a: seq<T>, b: seq<T>, c: seq<T>)
    ensures a + (b + c) == (a + b) + c
  {}

  lemma {:induction false} ExecRegroups(h: SendFlow.Hasher, s: SendFlow.Db, a: seq<SendFlow.Event>,
                                        b: seq<SendFlow.Event>, c: seq<SendFlow.Event>)
    ensures SendFlow.Exec(h, SendFlow.Exec(h, s, a), b + c) == SendFlow.Exec(h, SendFlow.Exec(h, s, a + b), c)
  {
    SendFlow.ExecJoins(h, s, a, b + c);
    SendFlow.ExecJoins(h, s, a + b, c);
    JoinsAssociate(a, b, c);
  }

  /** The sending calls that follow the request of a lead review. */
  lemma {:induction false} SendRequested(h: SendFlow.Hasher, s: SendFlow.Db) returns (events: seq<SendFlow.Event>)
    requires s.status == MissionStatus.Executing && IsHighRisk(s.riskLevel) && SendFlow.Addressed(s.source)
    ensures forall e <- events :: e.EDecide? || e.EPrepare? || e.EExecute?
    ensures var t := SendFlow.Exec(h, s, [SendFlow.ELeadReview(s.version, true, "", 0)]);
            |SendFlow.Exec(h, t, events).sends| > |s.sends|
  {
    var request := SendFlow.ELeadReview(s.version, true, "", 0);
    var decide := SendFlow.EDecide(|s.approvals|, SendFlow.Approve);
    var both := SendReach.RequestAndApprove(h, s, "");
    var rest := SendReach.PrepareAndSend(h, SendFlow.Exec(h, s, both), |s.approvals|);
    events := [decide] + rest;
    ExecRegroups(h, s, [request], [decide], rest);
  }

  /** From a finished plan in execution: lead review, approval, preparation and the send itself. */
  lemma {:induction false} SendFinished(h: SendFlow.Hasher, j: Joint) returns (calls: seq<Call>)
    requires SameRow(j.s, j.m) && j.m.mission.status == MissionStatus.Executing
    requires j.m.items != map[] && MissionFlow.AllAccepted(j.m.items)
    requires IsHighRisk(j.s.riskLevel) && SendFlow.Addressed(j.s.source)
    ensures SendsMore(h, j, false, calls)
  {
    var first := [MissionCall(MissionFlow.ELeadReview(j.m.mission.version), "", 0)];
    ReviewRequests(h, j);
    var events := SendRequested(h, j.s);
    SendCallsRun(h, Exec(h, j, first), events);
    ExecJoins(h, j, first, SendCalls(events));
    calls := first + SendCalls(events);
  }

  lemma {:induction false} AddressedCanSend(h: SendFlow.Hasher, j: Joint) returns (calls: seq<Call>)
    requires Sound(h, j) && SendReach.Open(j.s.status) && !MissionTheorems.HasStuck(j.m)
    requires IsHighRisk(j.s.riskLevel) && SendFlow.Addressed(j.s.source)
    ensures SendsMore(h, j, false, calls)
  {
    var events := FinishPlan(j.m);
    var first := MissionCalls(events);
    MissionCallsRun(h, j, events);
    var rest := SendFinished(h, Exec(h, j, first));
    ExecJoins(h, j, first, rest);
    calls := first + rest;
  }

  lemma {:induction false} SyncTouchesSourceOnly(h: SendFlow.Hasher, j: Joint, accountId: string, sender: string)
    requires SameRow(j.s, j.m)
    ensures var sync := SendCall(SendFlow.EResync(accountId, sender));
            Exec(h, j, [sync]) == Joint(j.m, SendFlow.Resynced(j.s, accountId, sender))
  {
    var sync := SendCall(SendFlow.EResync(accountId, sender));
    assert [sync][..0] == [];
    assert SendFlow.Step(h, j.s, sync.event) == SendFlow.Done(SendFlow.Resynced(j.s, accountId, sender));
  }

  lemma {:induction false} SyncedCanSend(h: SendFlow.Hasher, j: Joint) returns (calls: seq<Call>)
    requires SendFlow.Injective(h) && Sound(h, j) && SendReach.Open(j.s.status) && IsHighRisk(j.s.riskLevel)
    requires !MissionTheorems.HasStuck(j.m)
    ensures SendsMore(h, j, true, calls)
  {
    var sync := [SendCall(SendFlow.EResync("mailbox", "somebody"))];
    SyncTouchesSourceOnly(h, j, "mailbox", "somebody");
    RunKeepsSound(h, j, sync);
    var rest := AddressedCanSend(h, Exec(h, j, sync));
    ExecJoins(h, j, sync, rest);
    calls := sync + rest;
  }

  /** A run of sending calls alone. */
  lemma {:induction false} SendingSide(h: SendFlow.Hasher, j: Joint, events: seq<SendFlow.Event>)
    requires forall e <- events :: e.EDecide? || e.EPrepare? || e.EExecute?
    requires |SendFlow.Exec(h, j.s, events).sends| > |j.s.sends|
    ensures SendsMore(h, j, false, SendCalls(events))
  {
    SendCallsRun(h, j, events);
  }

  /** What decides whether the mail of the mission can still be sent. */
  ghost predicate Hopeful(h: SendFlow.Hasher, j: Joint, sync: bool) {
    SendReach.Hopeful(h, j.s, sync) && (SendReach.Open(j.s.status) ==> !MissionTheorems.HasStuck(j.m))
  }

  lemma {:induction false} HopefulCanSend(h: SendFlow.Hasher, j: Joint, sync: bool) returns (calls: seq<Call>)
    requires SendFlow.Injective(h) && Sound(h, j) && Hopeful(h, j, sync)
    ensures SendsMore(h, j, sync, calls)
  {
    if !SendReach.Open(j.s.status) {
      var events := SendReach.NowCanSend(h, j.s);
      SendingSide(h, j, events);
      calls := SendCalls(events);
    } else if SendFlow.Addressed(j.s.source) {
      calls := AddressedCanSend(h, j);
    } else if sync {
      calls := SyncedCanSend(h, j);
    } else {
      var a: nat :| SendReach.Decidable(h, j.s, a);
      var events := SendReach.DecidableCanSend(h, j.s, a);
      SendingSide(h, j, events);
      calls := SendCalls(events);
    }
  }

  // ----- When it is too late -----

  lemma {:induction false} NoDraftIsStuck(m: MissionFlow.Db)
    requires MissionSafety.Sound(m) && MissionSafety.Drafting(m.mission.status)
    ensures !MissionTheorems.HasStuck(m)
  {}

  lemma {:induction false} StuckIsNotApproved(m: MissionFlow.Db, i: Id)
    requires MissionSafety.Sound(m) && MissionTheorems.Stuck(m, i)
    ensures m.mission.status != MissionStatus.Approved
  {}

  lemma {:induction false} StuckSendsNothing(h: SendFlow.Hasher, j: Joint, c: Call)
    requires SendFlow.Injective(h) && Sound(h, j) && IsService(c)
    requires !MissionSafety.Drafting(j.m.mission.status) && MissionTheorems.HasStuck(j.m)
    ensures var k := Step(h, j, c);
            MissionTheorems.HasStuck(k.m) && k.s.sends == j.s.sends && k.s.status != MissionStatus.Approved
  {
    StepKeepsSound(h, j, c);
    var i :| MissionTheorems.Stuck(j.m, i);
    match c
    case MissionCall(e, body, now) =>
      MissionTheorems.StuckStep(j.m, e, i);
      MissionStepsAreStandIns(h, j.s, j.m, e, body, now);
      StuckIsNotApproved(Step(h, j, c).m, i);
    case SendCall(e) =>
      var moves := SendStepsAreMoves(h, j.s, e, j.m);
      assert Step(h, j, c).m == MissionFlow.Exec(j.m, moves);
      MissionTheorems.StuckForever(j.m, moves, i);
      StuckIsNotApproved(Step(h, j, c).m, i);
      StuckIsNotApproved(j.m, i);
      if Step(h, j, c).s.sends != j.s.sends {
        SendingCallsAreApproved(h, j.s, e);
      }
  }

  lemma {:induction false} HopelessSideSendsNothing(h: SendFlow.Hasher, j: Joint, c: Call, sync: bool)
    requires SendFlow.Injective(h) && Sound(h, j) && Honest([c], sync) && !SendReach.Hopeful(h, j.s, sync)
    ensures var k := Step(h, j, c); !SendReach.Hopeful(h, k.s, sync) && k.s.sends == j.s.sends
  {
    assert c in [c];
    match c
    case MissionCall(e, body, now) =>
      MissionStepsAreStandIns(h, j.s, j.m, e, body, now);
      SendReach.HopelessForever(h, j.s, sync, Stands(j.m, e, body, now));
    case SendCall(e) => SendReach.HopelessStep(h, j.s, e, sync);
  }

  lemma {:induction false} HopelessForever(h: SendFlow.Hasher, j: Joint, sync: bool, calls: seq<Call>)
    requires SendFlow.Injective(h) && Sound(h, j) && Honest(calls, sync) && !Hopeful(h, j, sync)
    ensures var k := Exec(h, j, calls); !Hopeful(h, k, sync) && k.s.sends == j.s.sends
  {
    if calls == [] {
    } else {
      var n := |calls| - 1;
      var k, c := Exec(h, j, calls[..n]), calls[n];
      HopelessForever(h, j, sync, calls[..n]);
      RunKeepsSound(h, j, calls[..n]);
      assert c in calls;
      if !SendReach.Hopeful(h, k.s, sync) {
        HopelessSideSendsNothing(h, k, c, sync);
      } else {
        if MissionSafety.Drafting(k.m.mission.status) { NoDraftIsStuck(k.m); }
        StuckSendsNothing(h, k, c);
      }
    }
  }

  /** Exactly when the mail of a mission can still be sent, over all services together. Before the approval:
      no item of its plan is stuck, the mission is at high risk, and its source mail has a mail account and a
      sender, or a request that names both is waiting (or the mailbox is synchronised again). While it is
      approved: a live operation fits, or the approved request still fits version and hash and can be sent.
      Afterwards, and once cancelled: never. */
  lemma {:induction false} MailReachableIff(h: SendFlow.Hasher, start: Joint, past: seq<Call>, sync: bool)
    requires SendFlow.Injective(h) && Fresh(start) && forall c <- past :: IsService(c)
    ensures var j := Exec(h, start, past);
            (exists calls :: SendsMore(h, j, sync, calls)) <==>
              if SendReach.Open(j.s.status) then
                && !MissionTheorems.HasStuck(j.m)
                && IsHighRisk(j.s.riskLevel) && (sync || SendReach.CanAsk(h, j.s))
              else SendReach.CanSendNow(h, j.s)
  {
    JointRunsAreSound(h, start, past);
    var j := Exec(h, start, past);
    if Hopeful(h, j, sync) {
      var calls := HopefulCanSend(h, j, sync);
    } else {
      forall calls
        ensures !SendsMore(h, j, sync, calls)
      {
        if Honest(calls, sync) {
          HopelessForever(h, j, sync, calls);
        }
      }
    }
  }

  /** From a fresh mission on, for the services as they stand: mail can be sent iff the mission is at high
      risk and its source mail has a mail account and a sender. */
  lemma {:induction false} FreshMailReachableIff(h: SendFlow.Hasher, start: Joint)
    requires SendFlow.Injective(h) && Fresh(start)
    ensures (exists calls :: SendsMore(h, start, false, calls)) <==>
              IsHighRisk(start.m.mission.riskLevel) && SendFlow.Addressed(start.s.source)
  {
    JointRunsAreSound(h, start, []);
    NoDraftIsStuck(start.m);
    MailReachableIff(h, start, [], false);
  }
}
