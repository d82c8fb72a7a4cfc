/** From the lead review of a mission to the provider send: approvals bound to a mission
    version and a content hash, operations frozen from them, and one execution attempt.
    A raise rolls the rows back, but mail that a provider was asked to send stays sent. */
module SendFlow {
  import opened Basics
  import opened Lifecycles

  datatype Attachment = Attachment(name: string, sha256: string, size: int)

  datatype Action = Action(accountId: string, to: seq<string>, recipients: seq<string>, cc: seq<string>,
                           bcc: seq<string>,
                           subject: string, bodyText: string, bodyHtml: string,
                           attachments: seq<Attachment>, contentVersion: int)

  /** The mail a mission answers: its mailbox and the address read from its sender, "" where there is
      none, and the title of the mission. */
  datatype Source = Source(accountId: string, sender: string, title: string)

  /** The reply the lead review asks to have approved. */
  function Reply(source: Source, bodyText: string, version: int): Action {
    Action(source.accountId, if source.sender != "" then [source.sender] else [], [], [], [],
           "Re: " + source.title, bodyText, "", [], version)
  }

  /** The values that get hashed. Sorting a recipient list keeps exactly its multiset. */
  datatype Content =
    | Whole(action: Action)
    | Recipients(to: multiset<string>, cc: multiset<string>, bcc: multiset<string>)
    | Body(subject: string, text: string, html: string)
    | Attachments(attachments: seq<Attachment>)

  type Hash = int
  type Hasher = Content -> Hash

  ghost predicate Injective(h: Hasher) {
    forall a, b :: h(a) == h(b) ==> a == b
  }

  datatype Hashes = Hashes(parameters: Hash, recipient: Hash, body: Hash, attachment: Hash)

  function Addressees(a: Action): seq<string> {
    if a.to != [] then a.to else a.recipients
  }

  predicate Addressed(source: Source) {
    source.accountId != "" && source.sender != ""
  }

  /** A live send needs a mail account and somebody to send to. */
  predicate Deliverable(a: Action) {
    a.accountId != "" && Addressees(a) != []
  }

  function EmailHashes(h: Hasher, a: Action): Hashes {
    Hashes(h(Whole(a)),
           h(Recipients(multiset(Addressees(a)), multiset(a.cc), multiset(a.bcc))),
           h(Body(a.subject, a.bodyText, a.bodyHtml)),
           h(Attachments(a.attachments)))
  }

  /** reviewed: the action that was hashed when the request was created; nothing stores it. */
  datatype Approval = Approval(status: ApprovalStatus, exactAction: Action, hash: Hash, missionVersion: int,
                               expiresAt: int, reviewed: Action)

  datatype AttemptStatus = NotAttempted | AttemptSucceeded | AttemptFailed | AttemptUnknown

  datatype Operation = Operation(approval: nat, key: string, status: OperationStatus, parameters: Action,
                                 hashes: Hashes,
                                 demo: bool, attempts: nat, lastAttempt: AttemptStatus)

  datatype Send = Send(operation: nat, payload: Action)

  /** sends: every send_message call ever made; lost: transactions rolled back after such a call. */
  datatype Db = Db(status: MissionStatus, version: int, riskLevel: string, source: Source, approvals: seq<Approval>,
                   operations: seq<Operation>, sends: seq<Send>, lost: nat)

  datatype Outcome = Done(db: Db) | Raised | RaisedAfterSend(send: Send)

  ghost function After(s: Db, o: Outcome): Db {
    match o
    case Done(db) => db
    case Raised => s
    case RaisedAfterSend(send) => s.(sends := s.sends + [send], lost := s.lost + 1)
  }

  // ----- The provider -----

  /** SessionBroken: a database failure, after which every write of the transaction raises. */
  datatype Call = Returns | Http(code: int) | TransportError | NotConfigured | UnexpectedError | SessionBroken

  datatype PolicyCheck = Passed | Violated | PolicyCrashed | PolicySessionBroken

  datatype Recording = Recorded | RecordingRaised | RecordingSessionBroken

  /** How every call point of one execution turns out. */
  datatype Oracle = Oracle(policy: PolicyCheck, accountCanSend: bool, providerKnown: bool,
                           token: Call, send: Call, verify: Call, verified: bool,
                           evidence: Recording, usageRecorded: bool)

  datatype Fate = Succeeds | Refused | Uncertain | RolledBack

  function FateOfCall(c: Call): Fate
    requires !c.Returns?
  {
    match c
    case Http(code) => if code >= 500 then Uncertain else Refused
    case NotConfigured => Refused
    case SessionBroken => RolledBack
    case _ => Uncertain
  }

  predicate ReachesSend(o: Oracle) {
    o.policy.Passed? && o.accountCanSend && o.providerKnown && o.token.Returns?
  }

  predicate ProviderAccepts(o: Oracle) {
    ReachesSend(o) && o.send.Returns?
  }

  /** The first call point that does not go through decides. */
  function FateOf(o: Oracle): Fate {
    if o.policy.Violated? then Refused
    else if o.policy.PolicyCrashed? then Uncertain
    else if o.policy.PolicySessionBroken? then RolledBack
    else if !o.accountCanSend || !o.providerKnown then Refused
    else if !o.token.Returns? then FateOfCall(o.token)
    else if !o.send.Returns? then FateOfCall(o.send)
    else if !o.verify.Returns? then FateOfCall(o.verify)
    else if !o.verified || o.evidence.RecordingRaised? then Uncertain
    else if o.evidence.RecordingSessionBroken? || !o.usageRecorded then RolledBack
    else Succeeds
  }

  datatype End = End(op: OperationStatus, mission: MissionStatus, attempt: AttemptStatus)

  function EndOf(f: Fate): End
    requires f != RolledBack
  {
    match f
    case Succeeds => End(OperationStatus.Succeeded, MissionStatus.Completed, AttemptSucceeded)
    case Refused => End(OperationStatus.Failed, MissionStatus.Failed, AttemptFailed)
    case Uncertain => End(OperationStatus.Unknown, MissionStatus.Unknown, AttemptUnknown)
  }

  // ----- Calls -----

  /** Status changes of the mission by the planning and execution services. */
  predicate OutsideTarget(t: MissionStatus) {
    t in {MissionStatus.DispatchReview, MissionStatus.Routed, MissionStatus.LeadTriage, MissionStatus.Planning,
          MissionStatus.NeedsInformation, MissionStatus.Blocked, MissionStatus.Ready, MissionStatus.Executing,
          MissionStatus.Cancelled}
  }

  function MissionChange(s: Db, t: MissionStatus): Outcome {
    if OutsideTarget(t) && t in MissionTargets(s.status)
    then Done(s.(status := t, version := s.version + 1))
    else Raised
  }

  const APPROVAL_PERIOD := 2 * DAY

  /** bodyText: the text made of the summaries of the last artifacts. */
  function LeadReviewMission(h: Hasher, s: Db, expected: int, allAccepted: bool, bodyText: string,
                             now: int): Outcome {
    if s.version != expected || !allAccepted || MissionStatus.LeadReview !in MissionTargets(s.status) then Raised
    else if !IsHighRisk(s.riskLevel) then Done(s.(status := MissionStatus.Completed, version := s.version + 2))
    else
      var exact := Reply(s.source, bodyText, s.version + 2);
      var request := Approval(ApprovalStatus.Pending, exact, h(Whole(exact)), s.version + 2, now + APPROVAL_PERIOD,
                              exact);
      Done(s.(status := MissionStatus.ApprovalRequired, version := s.version + 2, approvals := s.approvals + [request]))
  }

  datatype Decision = Approve | Reject | RequestChanges

  function DecisionTarget(d: Decision): ApprovalStatus {
    match d
    case Approve => ApprovalStatus.Approved
    case Reject => ApprovalStatus.Rejected
    case RequestChanges => ApprovalStatus.ChangesRequested
  }

  /** The write of INVALIDATED before a version conflict is rolled back with the raise. */
  function Decide(s: Db, a: nat, d: Decision): Outcome {
    if a >= |s.approvals| || s.version != s.approvals[a].missionVersion then Raised
    else if DecisionTarget(d) !in ApprovalTargets(s.approvals[a].status) then Raised
    else
      var target := if d.Approve? then MissionStatus.Approved else MissionStatus.Executing;
      if target !in MissionTargets(s.status) then Raised
      else Done(s.(status := target, version := s.version + 1,
                   approvals := s.approvals[a := s.approvals[a].(status := DecisionTarget(d))]))
  }

  function ExpireOne(a: Approval, now: int): Approval {
    if a.status == ApprovalStatus.Pending && now > a.expiresAt then a.(status := ApprovalStatus.Expired) else a
  }

  /** Approval half of the scheduler tick. */
  function Expire(s: Db, now: int): Db {
    s.(approvals := seq(|s.approvals|, a requires 0 <= a < |s.approvals| => ExpireOne(s.approvals[a], now)))
  }

  predicate VersionFits(s: Db, a: Approval) {
    s.version == a.missionVersion || s.version == a.missionVersion + 1
  }

  predicate HasKey(s: Db, key: string) {
    exists i :: 0 <= i < |s.operations| && s.operations[i].key == key
  }

  /** keyUsedElsewhere: the key names an operation of another mission, which is returned as is.
      live: live sending is configured, and the mail account named by the action, if it names one, may send.
      policyPassed: the policy has no objection but a missing addressee. */
  function Prepare(h: Hasher, s: Db, a: nat, key: string, keyUsedElsewhere: bool, live: bool,
                   policyPassed: bool): Outcome {
    if a >= |s.approvals| || s.approvals[a].status != ApprovalStatus.Approved then Raised
    else if !VersionFits(s, s.approvals[a]) then Raised
    else if h(Whole(s.approvals[a].exactAction)) != s.approvals[a].hash then Raised
    else if keyUsedElsewhere || HasKey(s, key) then Done(s)
    else
      var action := s.approvals[a].exactAction;
      var sending := live && action.accountId != "";
      if sending && !(policyPassed && Addressees(action) != []) then Raised
      else
        Done(s.(operations := s.operations + [Operation(a, key, OperationStatus.Approved, action,
                                                        EmailHashes(h, action), !sending, 0, NotAttempted)]))
  }

  predicate HashesFit(h: Hasher, o: Operation) {
    var current := EmailHashes(h, o.parameters);
    && current.parameters == o.hashes.parameters
    && current.recipient == o.hashes.recipient
    && current.body == o.hashes.body
  }

  predicate MayExecute(h: Hasher, s: Db, i: nat) {
    && i < |s.operations| && s.operations[i].status == OperationStatus.Approved
    && s.operations[i].approval < |s.approvals|
    && var a := s.approvals[s.operations[i].approval];
       a.status == ApprovalStatus.Approved && VersionFits(s, a) && HashesFit(h, s.operations[i])
  }

  /** The pair of end statuses of an attempt. */
  function Settled(s: Db, i: nat, op: OperationStatus, mission: MissionStatus, attempt: AttemptStatus, hops: int,
                   sends: seq<Send>): Db
    requires i < |s.operations|
  {
    s.(status := mission, version := s.version + hops, sends := s.sends + sends,
       operations := s.operations[i := s.operations[i].(status := op, attempts := s.operations[i].attempts + 1,
                                                        lastAttempt := attempt)])
  }

  function LiveAttempted(s: Db, i: nat, o: Oracle): Outcome
    requires i < |s.operations|
  {
    var sends := if ReachesSend(o) then [Send(i, s.operations[i].parameters)] else [];
    var hops := if ProviderAccepts(o) then 3 else 2;
    if FateOf(o) == RolledBack then
      if ReachesSend(o) then RaisedAfterSend(Send(i, s.operations[i].parameters)) else Raised
    else
      var end := EndOf(FateOf(o));
      Done(Settled(s, i, end.op, end.mission, end.attempt, hops, sends))
  }

  /** An execution whose attempt has been recorded: simulated, demonstration or live. */
  function Attempted(s: Db, i: nat, simulateUnknown: bool, o: Oracle): Outcome
    requires i < |s.operations|
  {
    if simulateUnknown then
      Done(Settled(s, i, OperationStatus.Unknown, MissionStatus.Unknown, AttemptUnknown, 2, []))
    else if s.operations[i].demo then
      Done(Settled(s, i, OperationStatus.Succeeded, MissionStatus.Completed, AttemptSucceeded, 3, []))
    else LiveAttempted(s, i, o)
  }

  function Execute(h: Hasher, s: Db, i: nat, simulateUnknown: bool, o: Oracle): Outcome {
    if i < |s.operations| && s.operations[i].status == OperationStatus.Succeeded then Done(s)
    else if !MayExecute(h, s, i) then Raised
    else Attempted(s, i, simulateUnknown, o)
  }

  /** An execution whose final commit fails, whatever it had come to. */
  function ExecuteLost(h: Hasher, s: Db, i: nat, simulateUnknown: bool, o: Oracle): Outcome {
    if MayExecute(h, s, i) && !simulateUnknown && !s.operations[i].demo && ReachesSend(o)
    then RaisedAfterSend(Send(i, s.operations[i].parameters)) else Raised
  }

  /** Success of a live operation with a mail account is recorded as gate evidence, which may raise. */
  predicate NeedsEvidence(o: Operation) {
    o.parameters.accountId != "" && !o.demo
  }

  function Verify(s: Db, i: nat, succeeded: bool, evidenceRecorded: bool): Outcome {
    if i >= |s.operations| || s.operations[i].status != OperationStatus.Unknown || s.status != MissionStatus.Unknown
    then Raised
    else if succeeded && NeedsEvidence(s.operations[i]) && !evidenceRecorded then Raised
    else
      var op := if succeeded then OperationStatus.Succeeded else OperationStatus.Failed;
      var mission := if succeeded then MissionStatus.Completed else MissionStatus.Failed;
      Done(s.(status := mission, version := s.version + 2,
              operations := s.operations[i := s.operations[i].(status := op)]))
  }

  /** A synchronisation of the mailbox may give the source mail another account or sender. */
  function Resynced(s: Db, accountId: string, sender: string): Db {
    s.(source := s.source.(accountId := accountId, sender := sender))
  }

  // ----- Stored content rewritten behind the services' back; the hashes stay -----

  function TamperOperation(s: Db, i: nat, p: Action): Outcome {
    if i >= |s.operations| then Raised
    else Done(s.(operations := s.operations[i := s.operations[i].(parameters := p)]))
  }

  function TamperApproval(s: Db, a: nat, action: Action): Outcome {
    if a >= |s.approvals| then Raised
    else Done(s.(approvals := s.approvals[a := s.approvals[a].(exactAction := action)]))
  }

  // ----- Runs -----

  datatype Event =
    | EMission(target: MissionStatus)
    | EEdit(bumps: nat)
    | ELeadReview(expected: int, allAccepted: bool, bodyText: string, now: int)
    | EDecide(approval: nat, decision: Decision)
    | EExpire(now: int)
    | EPrepare(approval: nat, key: string, keyUsedElsewhere: bool, live: bool, policyPassed: bool)
    | EExecute(operation: nat, simulateUnknown: bool, oracle: Oracle)
    | EExecuteLost(operation: nat, simulateUnknown: bool, oracle: Oracle)
    | EVerify(operation: nat, succeeded: bool, evidenceRecorded: bool)
    | EResync(accountId: string, sender: string)
    | ETamperOperation(operation: nat, parameters: Action)
    | ETamperApproval(approval: nat, action: Action)

  ghost function Step(h: Hasher, s: Db, e: Event): Outcome {
    match e
    case EMission(t) => MissionChange(s, t)
    case EEdit(bumps) => Done(s.(version := s.version + 1 + bumps))
    case ELeadReview(expected, all, bodyText, now) => LeadReviewMission(h, s, expected, all, bodyText, now)
    case EDecide(a, d) => Decide(s, a, d)
    case EExpire(now) => Done(Expire(s, now))
    case EPrepare(a, key, elsewhere, live, passed) => Prepare(h, s, a, key, elsewhere, live, passed)
    case EExecute(i, simulate, o) => Execute(h, s, i, simulate, o)
    case EExecuteLost(i, simulate, o) => ExecuteLost(h, s, i, simulate, o)
    case EVerify(i, ok, recorded) => Verify(s, i, ok, recorded)
    case EResync(accountId, sender) => Done(Resynced(s, accountId, sender))
    case ETamperOperation(i, p) => TamperOperation(s, i, p)
    case ETamperApproval(a, action) => TamperApproval(s, a, action)
  }

  ghost function Exec(h: Hasher, s: Db, events: seq<Event>): Db {
    if events == [] then s
    else
      var n := |events| - 1;
      var before := Exec(h, s, events[..n]);
      After(before, Step(h, before, events[n]))
  }

  lemma {:induction false} ExecAppend(h: Hasher, s: Db, events: seq<Event>, e: Event)
    ensures Exec(h, s, events + [e]) == After(Exec(h, s, events), Step(h, Exec(h, s, events), e))
  {
    assert (events + [e])[..|events + [e]| - 1] == events;
  }

  lemma {:induction false} ExecOne(h: Hasher, s: Db, e: Event)
    ensures Exec(h, s, [e]) == After(s, Step(h, s, e))
  {
    assert [e][..0] == [] && Exec(h, s, []) == s;
  }

  lemma {:induction false} ExecJoins(h: Hasher, s: Db, first: seq<Event>, second: seq<Event>)
    ensures Exec(h, s, first + second) == Exec(h, Exec(h, s, first), second)
    decreases |second|
  {
    if second == [] {
      assert first + second == first;
    } else {
      var n := |second| - 1;
      ExecJoins(h, s, first, second[..n]);
      assert (first + second)[..|first + second| - 1] == first + second[..n];
    }
  }

  /** A mission without approvals, operations or sends that has not reached its external action. */
  ghost predicate Fresh(s: Db) {
    s.approvals == [] && s.operations == [] && s.sends == [] && s.lost == 0 && !ActionStarted(s.status)
  }
}
