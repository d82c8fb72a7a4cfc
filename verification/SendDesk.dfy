/** Approval, preparation, execution and verification over mutable rows. */
module SendDesk {
  import Basics
  import opened Lifecycles
  import opened SendFlow
  import opened SendSafety

  /** What the try block of an execution ran into. */
  datatype Exception = None | HttpStatusError(code: int) | RequestError | PolicyOrConfiguration | DatabaseError | Other

  class Desk {
    const h: Hasher
    const riskLevel: string
    var source: Source
    var status: MissionStatus
    var version: int
    var approvals: seq<Approval>
    var operations: seq<Operation>
    ghost var sends: seq<Send>
    ghost var lost: nat

    ghost function State(): Db
      reads this
    {
      Db(status, version, riskLevel, source, approvals, operations, sends, lost)
    }

    ghost predicate Valid()
      reads this
    {
      Injective(h) && Sound(h, State())
    }

    constructor (h: Hasher, status: MissionStatus, version: int, riskLevel: string, source: Source)
      requires Injective(h) && !ActionStarted(status)
      ensures Valid() && Fresh(State()) && this.h == h && this.riskLevel == riskLevel && this.source == source
    {
      this.h, this.status, this.version, this.riskLevel, this.source := h, status, version, riskLevel, source;
      approvals, operations, sends, lost := [], [], [], 0;
      new;
      ReachableIsSound(h, State(), []);
    }

    /** Whatever call was made, the rows are sound afterwards if they were before. */
    lemma CallKeepsValid(before: Db, e: Event)
      requires Injective(h) && Sound(h, before) && State() == After(before, Step(h, before, e))
      ensures Valid()
    {
      StepKeepsSound(h, before, e);
    }

    // ----- Status helpers -----

    method MissionTransition(target: MissionStatus) returns (ok: bool)
      modifies this`status, this`version
      ensures ok <==> target in MissionTargets(old(status))
      ensures status == (if ok then target else old(status)) && version == old(version) + (if ok then 1 else 0)
    {
      ok := target in MissionTargets(status);
      if ok {
        status, version := target, version + 1;
      }
    }

    method OperationTransition(i: nat, target: OperationStatus) returns (ok: bool)
      requires i < |operations|
      modifies this`operations
      ensures ok <==> target in OperationTargets(old(operations)[i].status)
      ensures operations == if ok then old(operations)[i := old(operations)[i].(status := target)] else old(operations)
    {
      ok := target in OperationTargets(operations[i].status);
      if ok {
        operations := operations[i := operations[i].(status := target)];
      }
    }

    // ----- Approvals -----

    method TryLeadReview(expected: int, allAccepted: bool, bodyText: string, now: int) returns (raised: bool)
      modifies this
      ensures var o := LeadReviewMission(h, old(State()), expected, allAccepted, bodyText, now);
              State() == After(old(State()), o) && (raised <==> o.Raised?)
    {
      if version != expected || !allAccepted { return true; }
      var ok := MissionTransition(MissionStatus.LeadReview);
      if !ok { return true; }
      if !Basics.IsHighRisk(riskLevel) {
        ok := MissionTransition(MissionStatus.Completed);
        assert ok;
        return false;
      }
      ok := MissionTransition(MissionStatus.ApprovalRequired);
      assert ok;
      var to := if source.sender != "" then [source.sender] else [];
      var exact := Action(source.accountId, to, [], [], [], "Re: " + source.title, bodyText, "", [], version);
      approvals := approvals + [Approval(ApprovalStatus.Pending, exact, h(Whole(exact)), version,
                                         now + APPROVAL_PERIOD, exact)];
      raised := false;
    }

    method LeadReview(expected: int, allAccepted: bool, bodyText: string, now: int) returns (raised: bool)
      requires Valid()
      modifies this
      ensures Valid()
      ensures var o := LeadReviewMission(h, old(State()), expected, allAccepted, bodyText, now);
              State() == After(old(State()), o) && (raised <==> o.Raised?)
    {
      raised := TryLeadReview(expected, allAccepted, bodyText, now);
      CallKeepsValid(old(State()), ELeadReview(expected, allAccepted, bodyText, now));
    }

    method TryDecideApproval(a: nat, decision: Decision) returns (raised: bool)
      modifies this
      ensures State() == After(old(State()), Decide(old(State()), a, decision))
      ensures raised <==> Decide(old(State()), a, decision).Raised?
    {
      if a >= |approvals| { return true; }
      var saved := approvals;
      if version != approvals[a].missionVersion {
        approvals := approvals[a := approvals[a].(status := ApprovalStatus.Invalidated)];
        approvals := saved; // rolled back by the raise
        return true;
      }
      var target := DecisionTarget(decision);
      if target !in ApprovalTargets(approvals[a].status) { return true; }
      approvals := approvals[a := approvals[a].(status := target)];
      var next := if target == ApprovalStatus.Approved then MissionStatus.Approved else MissionStatus.Executing;
      var ok := MissionTransition(next);
      if !ok {
        approvals := saved;
        return true;
      }
      raised := false;
    }

    method DecideApproval(a: nat, decision: Decision) returns (raised: bool)
      requires Valid()
      modifies this
      ensures Valid()
      ensures State() == After(old(State()), Decide(old(State()), a, decision))
      ensures raised <==> Decide(old(State()), a, decision).Raised?
    {
      raised := TryDecideApproval(a, decision);
      CallKeepsValid(old(State()), EDecide(a, decision));
    }

    method TryExpireApprovals(now: int)
      modifies this`approvals
      ensures State() == Expire(old(State()), now)
    {
      for a := 0 to |approvals|
        invariant |approvals| == |old(approvals)|
        invariant forall b :: 0 <= b < |approvals| ==>
                    approvals[b] == if b < a then ExpireOne(old(approvals)[b], now) else old(approvals)[b]
      {
        if approvals[a].status == ApprovalStatus.Pending && now > approvals[a].expiresAt {
          approvals := approvals[a := approvals[a].(status := ApprovalStatus.Expired)];
        }
      }
      assert approvals == Expire(old(State()), now).approvals;
    }

    method ExpireApprovals(now: int)
      requires Valid()
      modifies this`approvals
      ensures Valid()
      ensures State() == Expire(old(State()), now)
    {
      TryExpireApprovals(now);
      CallKeepsValid(old(State()), EExpire(now));
    }

    // ----- Operations -----

    /** A new row, walked through policy review to APPROVED. */
    method Insert(o: Operation)
      requires o.status == OperationStatus.Prepared
      modifies this`operations
      ensures operations == old(operations) + [o.(status := OperationStatus.Approved)]
    {
      operations := operations + [o];
      var last := |operations| - 1;
      var ok := OperationTransition(last, OperationStatus.PolicyReviewed);
      assert ok;
      ok := OperationTransition(last, OperationStatus.Approved);
      assert ok;
    }

    method TryPrepareExternalOperation(a: nat, key: string, keyUsedElsewhere: bool, live: bool,
                                    policyPassed: bool) returns (raised: bool)
      modifies this
      ensures var o := Prepare(h, old(State()), a, key, keyUsedElsewhere, live, policyPassed);
              State() == After(old(State()), o) && (raised <==> o.Raised?)
    {
      if a >= |approvals| || approvals[a].status != ApprovalStatus.Approved { return true; }
      if version != approvals[a].missionVersion && version != approvals[a].missionVersion + 1 { return true; }
      if h(Whole(approvals[a].exactAction)) != approvals[a].hash { return true; }
      if keyUsedElsewhere || exists i :: 0 <= i < |operations| && operations[i].key == key { return false; }
      var action := approvals[a].exactAction;
      var hashes := EmailHashes(h, action);
      var sending := false;
      if action.accountId != "" {
        sending := live;
      }
      if sending {
        var to := if action.to != [] then action.to else action.recipients;
        if to == [] || !policyPassed { return true; }
      }
      Insert(Operation(a, key, OperationStatus.Prepared, action, hashes, !sending, 0, NotAttempted));
      raised := false;
    }

    method PrepareExternalOperation(a: nat, key: string, keyUsedElsewhere: bool, live: bool,
                                    policyPassed: bool) returns (raised: bool)
      requires Valid()
      modifies this
      ensures Valid()
      ensures var o := Prepare(h, old(State()), a, key, keyUsedElsewhere, live, policyPassed);
              State() == After(old(State()), o) && (raised <==> o.Raised?)
    {
      raised := TryPrepareExternalOperation(a, key, keyUsedElsewhere, live, policyPassed);
      CallKeepsValid(old(State()), EPrepare(a, key, keyUsedElsewhere, live, policyPassed));
    }

    /** Both end statuses and the attempt row; legal from EXECUTING and from VERIFYING alike. */
    method Settle(i: nat, attempt: AttemptStatus, op: OperationStatus, mission: MissionStatus)
      requires i < |operations|
      requires op in OperationTargets(operations[i].status) && mission in MissionTargets(status)
      modifies this`operations, this`status, this`version
      ensures operations == old(operations)[i := old(operations)[i].(status := op, lastAttempt := attempt)]
      ensures status == mission && version == old(version) + 1
    {
      operations := operations[i := operations[i].(lastAttempt := attempt)];
      var ok := OperationTransition(i, op);
      assert ok;
      ok := MissionTransition(mission);
      assert ok;
    }

    ghost predicate Ended(i: nat, op: OperationStatus, attempt: AttemptStatus, mission: MissionStatus, hops: int,
                          before: seq<Operation>, v: int)
      reads this
    {
      && i < |before|
      && operations == before[i := before[i].(status := op, lastAttempt := attempt)]
      && status == mission && version == v + hops
    }

    static function Thrown(c: Call): Exception
      requires !c.Returns?
    {
      match c
      case Http(code) => HttpStatusError(code)
      case TransportError => RequestError
      case NotConfigured => PolicyOrConfiguration
      case SessionBroken => DatabaseError
      case UnexpectedError => Other
    }

    /** The try block around the provider. It stops at the first exception. */
    method ProviderBlock(i: nat, o: Oracle) returns (raised: Exception)
      requires i < |operations| && operations[i].status == OperationStatus.Executing
      requires operations[i].lastAttempt == NotAttempted && status == MissionStatus.ActionExecuting
      modifies this`operations, this`status, this`version, this`sends
      ensures sends == old(sends) + (if ReachesSend(o) then [Send(i, old(operations)[i].parameters)] else [])
      ensures |operations| == |old(operations)| && (raised == DatabaseError ==> FateOf(o) == RolledBack)
      ensures FateOf(o) == Succeeds ==>
                raised == None && Ended(i, OperationStatus.Succeeded, AttemptSucceeded, MissionStatus.Completed, 2,
                                        old(operations), old(version))
      ensures FateOf(o) == Uncertain && ProviderAccepts(o) && o.verify.Returns? && !o.verified ==>
                raised == None && Ended(i, OperationStatus.Unknown, AttemptUnknown, MissionStatus.Unknown, 2,
                                        old(operations), old(version))
      ensures FateOf(o) == RolledBack ==>
                raised == DatabaseError || (raised == Other && operations[i].status == OperationStatus.Succeeded)
      ensures FateOf(o) in {Refused, Uncertain} && !(ProviderAccepts(o) && o.verify.Returns? && !o.verified) ==>
                && raised != None
                && (FateOf(o) == Refused <==>
                      raised.PolicyOrConfiguration? || (raised.HttpStatusError? && raised.code < 500))
                && (if ProviderAccepts(o)
                    then Ended(i, OperationStatus.Verifying, NotAttempted, MissionStatus.Verifying, 1, old(operations),
                               old(version))
                    else operations == old(operations) && status == old(status) && version == old(version))
    {
      if o.policy.Violated? { return PolicyOrConfiguration; }
      if o.policy.PolicyCrashed? { return Other; }
      if o.policy.PolicySessionBroken? { return DatabaseError; }
      if !o.accountCanSend { return PolicyOrConfiguration; }
      if !o.providerKnown { return PolicyOrConfiguration; }
      if !o.token.Returns? { return Thrown(o.token); }
      sends := sends + [Send(i, operations[i].parameters)];
      if !o.send.Returns? { return Thrown(o.send); }
      var ok := OperationTransition(i, OperationStatus.Verifying);
      assert ok;
      if status == MissionStatus.ActionExecuting {
        ok := MissionTransition(MissionStatus.Verifying);
        assert ok;
      }
      if !o.verify.Returns? { return Thrown(o.verify); }
      if !o.verified {
        Settle(i, AttemptUnknown, OperationStatus.Unknown, MissionStatus.Unknown);
        return None;
      }
      if o.evidence.RecordingRaised? { return Other; }
      if o.evidence.RecordingSessionBroken? { return DatabaseError; }
      Settle(i, AttemptSucceeded, OperationStatus.Succeeded, MissionStatus.Completed);
      if !o.usageRecorded { return Other; }
      raised := None;
    }

    /** One handler body: illegal once the operation has already succeeded. */
    method Close(i: nat, attempt: AttemptStatus, op: OperationStatus, mission: MissionStatus) returns (raised: bool)
      requires i < |operations|
      requires op in {OperationStatus.Failed, OperationStatus.Unknown}
      requires mission in {MissionStatus.Failed, MissionStatus.Unknown}
      requires operations[i].status == OperationStatus.Succeeded
               || (operations[i].status in {OperationStatus.Executing, OperationStatus.Verifying}
                   && status in {MissionStatus.ActionExecuting, MissionStatus.Verifying})
      modifies this`operations, this`status, this`version
      ensures raised <==> old(operations)[i].status == OperationStatus.Succeeded
      ensures !raised ==> Ended(i, op, attempt, mission, 1, old(operations), old(version))
    {
      operations := operations[i := operations[i].(lastAttempt := attempt)];
      var ok := OperationTransition(i, op);
      if !ok { return true; }
      ok := MissionTransition(mission);
      assert ok;
      raised := false;
    }

    /** The except clauses, from the most to the least specific. On a broken session the first write
        of the last clause raises. */
    method HandleException(i: nat, e: Exception) returns (raised: bool)
      requires i < |operations|
      requires e == None || e == DatabaseError || operations[i].status == OperationStatus.Succeeded
               || (operations[i].status in {OperationStatus.Executing, OperationStatus.Verifying}
                   && status in {MissionStatus.ActionExecuting, MissionStatus.Verifying})
      modifies this`operations, this`status, this`version
      ensures e == None ==> !raised && operations == old(operations) && status == old(status) && version == old(version)
      ensures e != None ==> (raised <==> e == DatabaseError || old(operations)[i].status == OperationStatus.Succeeded)
      ensures e != None && !raised && (e.PolicyOrConfiguration? || (e.HttpStatusError? && e.code < 500)) ==>
                Ended(i, OperationStatus.Failed, AttemptFailed, MissionStatus.Failed, 1, old(operations), old(version))
      ensures e != None && !raised && !(e.PolicyOrConfiguration? || (e.HttpStatusError? && e.code < 500)) ==>
                Ended(i, OperationStatus.Unknown, AttemptUnknown, MissionStatus.Unknown, 1, old(operations),
                      old(version))
    {
      match e
      case None => return false;
      case HttpStatusError(code) =>
        if code >= 500 {
          raised := Close(i, AttemptUnknown, OperationStatus.Unknown, MissionStatus.Unknown);
        } else {
          raised := Close(i, AttemptFailed, OperationStatus.Failed, MissionStatus.Failed);
        }
      case RequestError =>
        raised := Close(i, AttemptUnknown, OperationStatus.Unknown, MissionStatus.Unknown);
      case PolicyOrConfiguration =>
        raised := Close(i, AttemptFailed, OperationStatus.Failed, MissionStatus.Failed);
      case DatabaseError => return true;
      case Other =>
        raised := Close(i, AttemptUnknown, OperationStatus.Unknown, MissionStatus.Unknown);
    }

    /** The try statement as a whole: whatever the provider does, operation, mission and attempt
        end together, unless the success itself could not be recorded. */
    method TryProvider(i: nat, o: Oracle) returns (raised: bool)
      requires i < |operations| && operations[i].status == OperationStatus.Executing
      requires operations[i].lastAttempt == NotAttempted && status == MissionStatus.ActionExecuting
      modifies this`operations, this`status, this`version, this`sends
      ensures sends == old(sends) + (if ReachesSend(o) then [Send(i, old(operations)[i].parameters)] else [])
      ensures raised <==> FateOf(o) == RolledBack
      ensures !raised ==>
                var end := EndOf(FateOf(o));
                Ended(i, end.op, end.attempt, end.mission, if ProviderAccepts(o) then 2 else 1, old(operations),
                      old(version))
    {
      var e := ProviderBlock(i, o);
      raised := HandleException(i, e);
    }

    /** What one whole attempt does to the operation rows. */
    static ghost function SettledRow(ops: seq<Operation>, i: nat, op: OperationStatus,
                                     attempt: AttemptStatus): seq<Operation>
      requires i < |ops|
    {
      ops[i := ops[i].(status := op, attempts := ops[i].attempts + 1, lastAttempt := attempt)]
    }

    /** Counts the attempt and moves operation and mission into execution. */
    method Begin(i: nat)
      requires i < |operations| && operations[i].status == OperationStatus.Approved && status == MissionStatus.Approved
      modifies this`operations, this`status, this`version
      ensures operations == SettledRow(old(operations), i, OperationStatus.Executing, NotAttempted)
      ensures status == MissionStatus.ActionExecuting && version == old(version) + 1
    {
      operations := operations[i := operations[i].(attempts := operations[i].attempts + 1,
                                                   lastAttempt := NotAttempted)];
      var ok := OperationTransition(i, OperationStatus.Executing);
      assert ok;
      if status == MissionStatus.Approved {
        ok := MissionTransition(MissionStatus.ActionExecuting);
        assert ok;
      }
    }

    /** The attempt that calls a provider. */
    method LiveAttempt(i: nat, o: Oracle) returns (raised: bool)
      requires i < |operations| && operations[i].status == OperationStatus.Approved && status == MissionStatus.Approved
      modifies this
      ensures State() == After(old(State()), LiveAttempted(old(State()), i, o))
      ensures raised <==> !LiveAttempted(old(State()), i, o).Done?
    {
      var s, v, ops := status, version, operations;
      Begin(i);
      raised := TryProvider(i, o);
      if raised {
        // The handler could not do its own writes: the transaction rolls back, the mail does not.
        status, version, operations := s, v, ops;
        lost := lost + (if ReachesSend(o) then 1 else 0);
      } else {
        assert operations == SettledRow(ops, i, EndOf(FateOf(o)).op, EndOf(FateOf(o)).attempt);
      }
    }

    /** The demonstration path: no provider is called. */
    method SimulateSuccess(i: nat)
      requires i < |operations| && operations[i].status == OperationStatus.Executing
      requires status == MissionStatus.ActionExecuting
      modifies this`operations, this`status, this`version
      ensures Ended(i, OperationStatus.Succeeded, AttemptSucceeded, MissionStatus.Completed, 2, old(operations),
                    old(version))
    {
      var ok := OperationTransition(i, OperationStatus.Verifying);
      assert ok;
      ok := MissionTransition(MissionStatus.Verifying);
      assert ok;
      Settle(i, AttemptSucceeded, OperationStatus.Succeeded, MissionStatus.Completed);
    }

    /** An execution from the point where the attempt is recorded. */
    method Attempt(i: nat, simulateUnknown: bool, o: Oracle) returns (raised: bool)
      requires i < |operations| && operations[i].status == OperationStatus.Approved && status == MissionStatus.Approved
      modifies this
      ensures var out := Attempted(old(State()), i, simulateUnknown, o);
              State() == After(old(State()), out) && (raised <==> !out.Done?)
    {
      if !simulateUnknown && !operations[i].demo {
        raised := LiveAttempt(i, o);
        return;
      }
      ghost var ops := operations;
      Begin(i);
      if simulateUnknown {
        Settle(i, AttemptUnknown, OperationStatus.Unknown, MissionStatus.Unknown);
        assert operations == SettledRow(ops, i, OperationStatus.Unknown, AttemptUnknown);
      } else {
        SimulateSuccess(i);
        assert operations == SettledRow(ops, i, OperationStatus.Succeeded, AttemptSucceeded);
      }
      raised := false;
    }

    method ExecuteExternalOperation(i: nat, simulateUnknown: bool, o: Oracle) returns (raised: bool)
      requires Valid()
      modifies this
      ensures Valid()
      ensures var out := Execute(h, old(State()), i, simulateUnknown, o);
              State() == After(old(State()), out) && (raised <==> !out.Done?)
    {
      ExecuteKeepsSound(h, State(), i, simulateUnknown, o);
      if i >= |operations| { return true; }
      if operations[i].status == OperationStatus.Succeeded { return false; }
      if operations[i].status != OperationStatus.Approved { return true; }
      var a := operations[i].approval;
      if a >= |approvals| || approvals[a].status != ApprovalStatus.Approved { return true; }
      if version != approvals[a].missionVersion && version != approvals[a].missionVersion + 1 { return true; }
      if !HashesFit(h, operations[i]) { return true; }
      FittingHashesFixContent(h, State(), i);
      assert OperationSound(State(), operations[i]);
      raised := Attempt(i, simulateUnknown, o);
    }

    method TryVerifyUnknownExternalOperation(i: nat, succeeded: bool, evidenceRecorded: bool) returns (raised: bool)
      requires i < |operations| && operations[i].status == OperationStatus.Unknown ==> status == MissionStatus.Unknown
      modifies this
      ensures State() == After(old(State()), Verify(old(State()), i, succeeded, evidenceRecorded))
      ensures raised <==> Verify(old(State()), i, succeeded, evidenceRecorded).Raised?
    {
      if i >= |operations| || operations[i].status != OperationStatus.Unknown { return true; }
      var s, v, ops := status, version, operations;
      var ok := OperationTransition(i, OperationStatus.Verifying);
      assert ok;
      if status == MissionStatus.Unknown {
        ok := MissionTransition(MissionStatus.Verifying);
        assert ok;
      }
      if succeeded {
        if operations[i].parameters.accountId != "" && !operations[i].demo && !evidenceRecorded {
          status, version, operations := s, v, ops;
          return true;
        }
        ok := OperationTransition(i, OperationStatus.Succeeded);
        assert ok;
        ok := MissionTransition(MissionStatus.Completed);
        assert ok;
      } else {
        ok := OperationTransition(i, OperationStatus.Failed);
        assert ok;
        ok := MissionTransition(MissionStatus.Failed);
        assert ok;
      }
      raised := false;
    }

    method VerifyUnknownExternalOperation(i: nat, succeeded: bool, evidenceRecorded: bool) returns (raised: bool)
      requires Valid()
      modifies this
      ensures Valid()
      ensures State() == After(old(State()), Verify(old(State()), i, succeeded, evidenceRecorded))
      ensures raised <==> Verify(old(State()), i, succeeded, evidenceRecorded).Raised?
    {
      if i < |operations| { assert OperationSound(State(), operations[i]); }
      raised := TryVerifyUnknownExternalOperation(i, succeeded, evidenceRecorded);
      CallKeepsValid(old(State()), EVerify(i, succeeded, evidenceRecorded));
    }
  }
}
