/** What the approval and sending calls come to, told in statuses, stored fields and answers of the
    provider alone. */
module SendEffects {
  import opened Lifecycles
  import opened SendFlow
  import opened SendSafety

  ghost predicate Commits(h: Hasher, s: Db, e: Event) {
    Step(h, s, e).Done?
  }

  // ----- The lead review -----

  /** The reply that is put up for approval. */
  ghost predicate AnswersSource(a: Action, source: Source, body: string, version: int) {
    && a.accountId == source.accountId && a.to == (if source.sender == "" then [] else [source.sender])
    && a.recipients == [] && a.cc == [] && a.bcc == [] && a.attachments == []
    && a.subject == "Re: " + source.title && a.bodyText == body && a.bodyHtml == "" && a.contentVersion == version
  }

  /** A fresh request for this action, open for two days. */
  ghost predicate IsRequest(h: Hasher, r: Approval, version: int, now: int) {
    && r.status == ApprovalStatus.Pending && r.reviewed == r.exactAction && r.hash == h(Whole(r.exactAction))
    && r.missionVersion == version && r.expiresAt == now + 172_800_000_000
  }

  /** A review of a finished plan completes the mission, unless its risk is high or critical: then it leaves
      one request for the reply to the source mail, bound to the version the mission now has. */
  lemma {:induction false} ReviewEnds(h: Hasher, s: Db, expected: int, all: bool, body: string, now: int)
    ensures var e := ELeadReview(expected, all, body, now);
            var t := After(s, Step(h, s, e));
            && (Commits(h, s, e) <==> expected == s.version && all && s.status == MissionStatus.Executing)
            && (Commits(h, s, e) ==>
                  && t.version == s.version + 2 && t.operations == s.operations && t.sends == s.sends
                  && if s.riskLevel !in {"high", "critical"} then
                       t.status == MissionStatus.Completed && t.approvals == s.approvals
                     else
                       && t.status == MissionStatus.ApprovalRequired
                       && |t.approvals| == |s.approvals| + 1 && t.approvals[..|s.approvals|] == s.approvals
                       && IsRequest(h, t.approvals[|s.approvals|], t.version, now)
                       && AnswersSource(t.approvals[|s.approvals|].exactAction, s.source, body, t.version))
  {}

  // ----- Decisions -----

  /** Only the status of request a may differ. */
  ghost predicate OnlyStatusOf(s: Db, t: Db, a: nat) {
    && |t.approvals| == |s.approvals| && a < |s.approvals|
    && t.approvals == s.approvals[a := s.approvals[a].(status := t.approvals[a].status)]
    && t.operations == s.operations && t.sends == s.sends
  }

  /** A decision counts exactly for a pending request of the present mission version. Approval approves
      request and mission; a rejection and a wish for changes send the mission back into execution. */
  lemma {:induction false} DecisionEnds(h: Hasher, s: Db, a: nat, d: Decision)
    requires Sound(h, s)
    ensures var e := EDecide(a, d);
            var t := After(s, Step(h, s, e));
            && (Commits(h, s, e) <==>
                  a < |s.approvals| && s.approvals[a].status == ApprovalStatus.Pending
                  && s.version == s.approvals[a].missionVersion)
            && (!Commits(h, s, e) ==> t == s)
            && (Commits(h, s, e) ==>
                  && OnlyStatusOf(s, t, a) && t.version == s.version + 1
                  && match d
                     case Approve =>
                       t.approvals[a].status == ApprovalStatus.Approved && t.status == MissionStatus.Approved
                     case Reject =>
                       t.approvals[a].status == ApprovalStatus.Rejected && t.status == MissionStatus.Executing
                     case RequestChanges =>
                       t.approvals[a].status == ApprovalStatus.ChangesRequested && t.status == MissionStatus.Executing)
  {
    if a < |s.approvals| { assert ApprovalSound(h, s, s.approvals[a]); }
  }

  /** Exactly the pending requests past their time expire, and nothing else changes. */
  lemma {:induction false} ExpiryEnds(h: Hasher, s: Db, now: int)
    ensures var t := After(s, Step(h, s, EExpire(now)));
            && t == s.(approvals := t.approvals) && |t.approvals| == |s.approvals|
            && forall a :: 0 <= a < |s.approvals| ==>
                 if s.approvals[a].status == ApprovalStatus.Pending && now > s.approvals[a].expiresAt
                 then t.approvals[a] == s.approvals[a].(status := ApprovalStatus.Expired)
                 else t.approvals[a] == s.approvals[a]
  {}

  // ----- Preparation -----

  ghost predicate KeyKnown(s: Db, key: string) {
    exists i :: 0 <= i < |s.operations| && s.operations[i].key == key
  }

  /** The request is approved, the mission has not moved on, and the stored action has the approved hash. */
  ghost predicate StillStands(h: Hasher, s: Db, a: nat) {
    && a < |s.approvals| && s.approvals[a].status == ApprovalStatus.Approved
    && s.version in {s.approvals[a].missionVersion, s.approvals[a].missionVersion + 1}
    && h(Whole(s.approvals[a].exactAction)) == s.approvals[a].hash
  }

  /** The frozen action, ready to be executed once; a demonstration unless live sending is on and the
      action names a mail account. */
  ghost predicate IsFrozen(s: Db, o: Operation, a: nat, key: string, live: bool)
    requires a < |s.approvals|
  {
    && o.approval == a && o.key == key && o.status == OperationStatus.Approved && o.attempts == 0
    && o.parameters == s.approvals[a].exactAction
    && (o.demo <==> !live || s.approvals[a].exactAction.accountId == "")
  }

  /** A preparation needs a request that still stands. A key that is known returns what it names; otherwise
      one operation is added, and a live one only with a passed policy and somebody to send to. */
  lemma {:induction false} PreparationEnds(h: Hasher, s: Db, a: nat, key: string, elsewhere: bool, live: bool,
                                           passed: bool)
    ensures var e := EPrepare(a, key, elsewhere, live, passed);
            var t := After(s, Step(h, s, e));
            && (Commits(h, s, e) <==>
                  && StillStands(h, s, a)
                  && (elsewhere || KeyKnown(s, key) || !live || s.approvals[a].exactAction.accountId == ""
                      || (passed && (s.approvals[a].exactAction.to != []
                                     || s.approvals[a].exactAction.recipients != []))))
            && (!Commits(h, s, e) || elsewhere || KeyKnown(s, key) ==> t == s)
            && (Commits(h, s, e) && !elsewhere && !KeyKnown(s, key) ==>
                  && t == s.(operations := t.operations)
                  && |t.operations| == |s.operations| + 1 && t.operations[..|s.operations|] == s.operations
                  && IsFrozen(s, t.operations[|s.operations|], a, key, live))
  {
    assert HasKey(s, key) <==> KeyKnown(s, key);
    assert Step(h, s, EPrepare(a, key, elsewhere, live, passed)) == Prepare(h, s, a, key, elsewhere, live, passed);
  }

  /** A synchronisation of the mailbox writes account and sender of the source mail and nothing else. */
  lemma {:induction false} ResyncEnds(h: Hasher, s: Db, accountId: string, sender: string)
    ensures var t := After(s, Step(h, s, EResync(accountId, sender)));
            && t == s.(source := t.source)
            && t.source.accountId == accountId && t.source.sender == sender && t.source.title == s.source.title
  {}

  // ----- What a live execution meets -----

  /** Everything before the send goes through, so the provider is asked to send. */
  predicate SendReached(o: Oracle) {
    o.policy == Passed && o.accountCanSend && o.providerKnown && o.token == Returns
  }

  /** The provider is not configured, or it answers with a status below 500. */
  predicate SaysNo(c: Call) {
    c == NotConfigured || (c.Http? && c.code < 500)
  }

  predicate EverythingWorks(o: Oracle) {
    && SendReached(o) && o.send == Returns && o.verify == Returns && o.verified
    && o.evidence == Recorded && o.usageRecorded
  }

  /** The first point not to go through is one that certainly prevented the mail or was refused. */
  predicate FirstSaysNo(o: Oracle) {
    || o.policy == Violated
    || (o.policy == Passed && (!o.accountCanSend || !o.providerKnown || SaysNo(o.token)))
    || (SendReached(o) && SaysNo(o.send))
    || (SendReached(o) && o.send == Returns && SaysNo(o.verify))
  }

  /** The database session breaks on the way, or the verified success cannot be recorded in it. */
  predicate SessionBreaks(o: Oracle) {
    || o.policy == PolicySessionBroken
    || (o.policy == Passed && o.accountCanSend && o.providerKnown && o.token == SessionBroken)
    || (SendReached(o) && o.send == SessionBroken)
    || (SendReached(o) && o.send == Returns && o.verify == SessionBroken)
    || (SendReached(o) && o.send == Returns && o.verify == Returns && o.verified
        && (o.evidence == RecordingSessionBroken || (o.evidence == Recorded && !o.usageRecorded)))
  }

  lemma {:induction false} FatesAre(o: Oracle)
    ensures FateOf(o) == Succeeds <==> EverythingWorks(o)
    ensures FateOf(o) == Refused <==> FirstSaysNo(o)
    ensures FateOf(o) == RolledBack <==> SessionBreaks(o)
    ensures ReachesSend(o) <==> SendReached(o)
  {}

  /** Operation, mission and attempt ended with these statuses, after one attempt. */
  ghost predicate EndedAs(s: Db, t: Db, i: nat, op: OperationStatus, m: MissionStatus, attempt: AttemptStatus)
    requires i < |s.operations|
  {
    && t.status == m && t.approvals == s.approvals
    && t.operations == s.operations[i := s.operations[i].(status := op, lastAttempt := attempt,
                                                          attempts := s.operations[i].attempts + 1)]
  }

  ghost predicate Mailed(s: Db, t: Db, i: nat, asked: bool)
    requires i < |s.operations|
  {
    t.sends == s.sends + if asked then [Send(i, s.operations[i].parameters)] else []
  }

  /** How a live execution that may start ends, whatever the provider does. It commits unless the session
      breaks; then it succeeded iff everything worked, failed iff the first point not to go through says no,
      and is unknown otherwise, an unverified mail and a broken line included. */
  lemma {:induction false} LiveExecutionEnds(h: Hasher, s: Db, i: nat, o: Oracle)
    requires MayExecute(h, s, i) && !s.operations[i].demo
    ensures var e := EExecute(i, false, o);
            var t := After(s, Step(h, s, e));
            && (Commits(h, s, e) <==> !SessionBreaks(o))
            && Mailed(s, t, i, SendReached(o))
            && (Commits(h, s, e) ==>
                  && t.lost == s.lost && t.version == s.version + (if SendReached(o) && o.send == Returns then 3 else 2)
                  && if EverythingWorks(o) then
                       EndedAs(s, t, i, OperationStatus.Succeeded, MissionStatus.Completed, AttemptSucceeded)
                     else if FirstSaysNo(o) then
                       EndedAs(s, t, i, OperationStatus.Failed, MissionStatus.Failed, AttemptFailed)
                     else EndedAs(s, t, i, OperationStatus.Unknown, MissionStatus.Unknown, AttemptUnknown))
            && (!Commits(h, s, e) ==>
                  t == s.(sends := t.sends, lost := s.lost + if SendReached(o) then 1 else 0))
  {
    FatesAre(o);
    assert Step(h, s, EExecute(i, false, o)) == LiveAttempted(s, i, o);
  }

  /** Without a provider: a simulated interruption ends unknown, a demonstration ends well, neither sends. */
  lemma {:induction false} OfflineExecutionEnds(h: Hasher, s: Db, i: nat, simulate: bool, o: Oracle)
    requires MayExecute(h, s, i) && (simulate || s.operations[i].demo)
    ensures var e := EExecute(i, simulate, o);
            var t := After(s, Step(h, s, e));
            && Commits(h, s, e) && Mailed(s, t, i, false) && t.lost == s.lost
            && if simulate then EndedAs(s, t, i, OperationStatus.Unknown, MissionStatus.Unknown, AttemptUnknown)
               else EndedAs(s, t, i, OperationStatus.Succeeded, MissionStatus.Completed, AttemptSucceeded)
  {
    assert Step(h, s, EExecute(i, simulate, o)) == Attempted(s, i, simulate, o);
  }

  /** Verifying settles an unknown operation and its mission as it was told to. */
  lemma {:induction false} VerificationEnds(h: Hasher, s: Db, i: nat, succeeded: bool, recorded: bool)
    requires Sound(h, s)
    ensures var e := EVerify(i, succeeded, recorded);
            var t := After(s, Step(h, s, e));
            && (Commits(h, s, e) <==>
                  && i < |s.operations| && s.operations[i].status == OperationStatus.Unknown
                  && (!succeeded || recorded || s.operations[i].demo || s.operations[i].parameters.accountId == ""))
            && (Commits(h, s, e) ==>
                  && t.sends == s.sends && t.approvals == s.approvals && t.version == s.version + 2
                  && t.operations == s.operations[i := s.operations[i].(status := t.operations[i].status)]
                  && t.operations[i].status == (if succeeded then OperationStatus.Succeeded else OperationStatus.Failed)
                  && t.status == if succeeded then MissionStatus.Completed else MissionStatus.Failed)
  {
    if i < |s.operations| { assert OperationSound(s, s.operations[i]); }
    assert Step(h, s, EVerify(i, succeeded, recorded)) == Verify(s, i, succeeded, recorded);
  }
}
