/** Which calls of a run stand behind its requests, operations and sends. */
module SendHistory {
  import opened Lifecycles
  import opened SendFlow
  import opened SendSafety
  import opened SendEffects

  /** The state in which call n of the run was made. */
  ghost function Before(h: Hasher, start: Db, events: seq<Event>, n: nat): Db
    requires n <= |events|
  {
    Exec(h, start, events[..n])
  }

  ghost predicate Committed(h: Hasher, start: Db, events: seq<Event>, n: nat) {
    n < |events| && Commits(h, Before(h, start, events, n), events[n])
  }

  lemma {:induction false} Earlier(h: Hasher, start: Db, events: seq<Event>, n: nat)
    requires events != [] && n < |events|
    ensures Before(h, start, events[..|events| - 1], n) == Before(h, start, events, n)
    ensures n < |events| - 1 ==>
              (Committed(h, start, events[..|events| - 1], n) <==> Committed(h, start, events, n))
  {
    assert events[..|events| - 1][..n] == events[..n];
  }

  // ----- Requests -----

  /** A call that brings request a to this status. */
  ghost predicate Explains(s: Db, e: Event, a: nat, status: ApprovalStatus) {
    match status
    case Pending => e.ELeadReview? && |s.approvals| == a
    case Approved => e == EDecide(a, Approve)
    case Rejected => e == EDecide(a, Reject)
    case ChangesRequested => e == EDecide(a, RequestChanges)
    case Expired => e.EExpire? && a < |s.approvals| && e.now > s.approvals[a].expiresAt
    case _ => false
  }

  ghost predicate BroughtBy(h: Hasher, start: Db, events: seq<Event>, a: nat, status: ApprovalStatus, n: nat) {
    Committed(h, start, events, n) && Explains(Before(h, start, events, n), events[n], a, status)
  }

  ghost predicate Explained(h: Hasher, s: Db, e: Event, a: nat) {
    var t := After(s, Step(h, s, e));
    a < |t.approvals| ==>
      || (a < |s.approvals| && t.approvals[a].status == s.approvals[a].status)
      || (Commits(h, s, e) && Explains(s, e, a, t.approvals[a].status))
  }

  lemma {:induction false} OthersLeaveRequests(h: Hasher, s: Db, e: Event)
    requires !e.ELeadReview? && !e.EDecide? && !e.EExpire?
    ensures var t := After(s, Step(h, s, e));
            |t.approvals| == |s.approvals|
            && forall a :: 0 <= a < |s.approvals| ==>
                 t.approvals[a].status == s.approvals[a].status && t.approvals[a].expiresAt == s.approvals[a].expiresAt
  {}

  lemma {:induction false} RequestsHaveCauses(h: Hasher, s: Db, e: Event, a: nat)
    requires Sound(h, s)
    ensures Explained(h, s, e, a)
  {
    match e
    case ELeadReview(expected, all, body, now) => ReviewEnds(h, s, expected, all, body, now);
    case EDecide(b, d) => DecisionEnds(h, s, b, d);
    case EExpire(now) => ExpiryEnds(h, s, now);
    case _ => OthersLeaveRequests(h, s, e);
  }

  /** In every run each request has the status some call gave it: it is approved, rejected or returned only
      by a committed decision that says so, and expired only by a tick after its time. */
  lemma {:induction false} RequestsWereDecided(h: Hasher, start: Db, events: seq<Event>, a: nat)
    requires Injective(h) && Fresh(start) && a < |Exec(h, start, events).approvals|
    ensures exists n: nat :: BroughtBy(h, start, events, a, Exec(h, start, events).approvals[a].status, n)
  {
    if events == [] {
    } else {
      var n := |events| - 1;
      var s, t := Exec(h, start, events[..n]), Exec(h, start, events);
      var status := t.approvals[a].status;
      ReachableIsSound(h, start, events[..n]);
      RequestsHaveCauses(h, s, events[n], a);
      if a < |s.approvals| && s.approvals[a].status == status {
        RequestsWereDecided(h, start, events[..n], a);
        var k: nat :| BroughtBy(h, start, events[..n], a, status, k);
        Earlier(h, start, events, k);
        assert BroughtBy(h, start, events, a, status, k);
      } else {
        assert BroughtBy(h, start, events, a, status, n);
      }
    }
  }

  /** Call n made request a, which stays open for two days from then. */
  ghost predicate RequestedBy(h: Hasher, start: Db, events: seq<Event>, a: nat, n: nat) {
    && Committed(h, start, events, n) && events[n].ELeadReview? && |Before(h, start, events, n).approvals| == a
    && a < |Exec(h, start, events).approvals|
    && Exec(h, start, events).approvals[a].expiresAt == events[n].now + 172_800_000_000
  }

  ghost predicate RequestsFollow(h: Hasher, s: Db, e: Event, t: Db) {
    && |s.approvals| <= |t.approvals|
    && (forall a :: 0 <= a < |s.approvals| ==> t.approvals[a].expiresAt == s.approvals[a].expiresAt)
    && (|t.approvals| > |s.approvals| ==>
          && e.ELeadReview? && Commits(h, s, e) && |t.approvals| == |s.approvals| + 1
          && t.approvals[|s.approvals|].expiresAt == e.now + 172_800_000_000)
  }

  lemma {:induction false} StepOnRequests(h: Hasher, s: Db, e: Event)
    requires Sound(h, s)
    ensures RequestsFollow(h, s, e, After(s, Step(h, s, e)))
  {
    match e
    case ELeadReview(expected, all, body, now) =>
      ReviewEnds(h, s, expected, all, body, now);
      var t := After(s, Step(h, s, e));
      assert forall a :: 0 <= a < |s.approvals| ==> t.approvals[a] == t.approvals[..|s.approvals|][a];
    case EDecide(b, d) => DecisionEnds(h, s, b, d);
    case EExpire(now) => ExpiryEnds(h, s, now);
    case _ => OthersLeaveRequests(h, s, e);
  }

  lemma {:induction false} RequestsWereMade(h: Hasher, start: Db, events: seq<Event>, a: nat)
    requires Injective(h) && Fresh(start) && a < |Exec(h, start, events).approvals|
    ensures exists n: nat :: RequestedBy(h, start, events, a, n)
  {
    if events == [] {
    } else {
      var n := |events| - 1;
      var s := Exec(h, start, events[..n]);
      ReachableIsSound(h, start, events[..n]);
      StepOnRequests(h, s, events[n]);
      if a < |s.approvals| {
        RequestsWereMade(h, start, events[..n], a);
        var k: nat :| RequestedBy(h, start, events[..n], a, k);
        Earlier(h, start, events, k);
        assert RequestedBy(h, start, events, a, k);
      } else {
        assert RequestedBy(h, start, events, a, n);
      }
    }
  }

  // ----- Operations -----

  /** Call n prepared operation i from its request under its key; a live one with live sending on. */
  ghost predicate PreparedBy(h: Hasher, start: Db, events: seq<Event>, i: nat, n: nat) {
    && Committed(h, start, events, n) && events[n].EPrepare? && |Before(h, start, events, n).operations| == i
    && i < |Exec(h, start, events).operations|
    && var o := Exec(h, start, events).operations[i];
       && o.approval == events[n].approval && o.key == events[n].key
       && (!o.demo ==> events[n].live && events[n].policyPassed)
  }

  ghost predicate OperationsFollow(h: Hasher, s: Db, e: Event, t: Db) {
    && |s.operations| <= |t.operations|
    && (forall i :: 0 <= i < |s.operations| ==>
          && t.operations[i].approval == s.operations[i].approval
          && t.operations[i].key == s.operations[i].key && t.operations[i].demo == s.operations[i].demo)
    && (|t.operations| > |s.operations| ==>
          && e.EPrepare? && Commits(h, s, e) && |t.operations| == |s.operations| + 1 && !KeyKnown(s, e.key)
          && var o := t.operations[|s.operations|];
             o.approval == e.approval && o.key == e.key && (!o.demo ==> e.live && e.policyPassed))
  }

  lemma {:induction false} PreparationFollows(h: Hasher, s: Db, e: Event)
    requires e.EPrepare?
    ensures OperationsFollow(h, s, e, After(s, Step(h, s, e)))
  {
    PreparationEnds(h, s, e.approval, e.key, e.keyUsedElsewhere, e.live, e.policyPassed);
    var t := After(s, Step(h, s, e));
    if t != s {
      assert forall i :: 0 <= i < |s.operations| ==> t.operations[i] == t.operations[..|s.operations|][i];
    }
  }

  lemma {:induction false} OthersPrepareNothing(h: Hasher, s: Db, e: Event)
    requires !e.EPrepare?
    ensures OperationsFollow(h, s, e, After(s, Step(h, s, e)))
  {}

  lemma {:induction false} StepOnOperations(h: Hasher, s: Db, e: Event)
    ensures OperationsFollow(h, s, e, After(s, Step(h, s, e)))
  {
    if e.EPrepare? {
      PreparationFollows(h, s, e);
    } else {
      OthersPrepareNothing(h, s, e);
    }
  }

  /** In every run each operation was prepared by a call of its own, a live one under live sending and a
      passed policy. */
  lemma {:induction false} OperationsWerePrepared(h: Hasher, start: Db, events: seq<Event>, i: nat)
    requires Fresh(start) && i < |Exec(h, start, events).operations|
    ensures exists n: nat :: PreparedBy(h, start, events, i, n)
  {
    if events == [] {
    } else {
      var n := |events| - 1;
      var s := Exec(h, start, events[..n]);
      StepOnOperations(h, s, events[n]);
      if i < |s.operations| {
        OperationsWerePrepared(h, start, events[..n], i);
        var k: nat :| PreparedBy(h, start, events[..n], i, k);
        Earlier(h, start, events, k);
        assert PreparedBy(h, start, events, i, k);
      } else {
        assert PreparedBy(h, start, events, i, n);
      }
    }
  }

  ghost predicate DistinctKeys(operations: seq<Operation>) {
    forall i, j :: 0 <= i < j < |operations| ==> operations[i].key != operations[j].key
  }

  lemma {:induction false} StepKeepsKeys(h: Hasher, s: Db, e: Event, t: Db)
    requires OperationsFollow(h, s, e, t) && DistinctKeys(s.operations)
    ensures DistinctKeys(t.operations)
  {
    forall i, j | 0 <= i < j < |t.operations|
      ensures t.operations[i].key != t.operations[j].key
    {
      assert t.operations[i].key == s.operations[i].key;
    }
  }

  /** In every run no two operations have the same key. */
  lemma {:induction false} KeysAreUnique(h: Hasher, start: Db, events: seq<Event>)
    requires Fresh(start)
    ensures DistinctKeys(Exec(h, start, events).operations)
  {
    if events == [] {
    } else {
      var n := |events| - 1;
      var s := Exec(h, start, events[..n]);
      KeysAreUnique(h, start, events[..n]);
      StepOnOperations(h, s, events[n]);
      StepKeepsKeys(h, s, events[n], Exec(h, start, events));
    }
  }

  // ----- Sends -----

  ghost predicate SendsFollow(s: Db, t: Db) {
    && |s.sends| <= |t.sends| <= |s.sends| + 1
    && (forall k :: 0 <= k < |s.sends| ==> t.sends[k] == s.sends[k])
    && (|t.sends| > |s.sends| ==>
          var i := t.sends[|s.sends|].operation;
          i < |s.operations| && s.operations[i].approval < |s.approvals|
          && s.approvals[s.operations[i].approval].status == ApprovalStatus.Approved)
  }

  lemma {:induction false} StepOnSends(h: Hasher, s: Db, e: Event)
    ensures SendsFollow(s, After(s, Step(h, s, e)))
  {
    if e.EExecute? {
      assert Step(h, s, e) == Execute(h, s, e.operation, e.simulateUnknown, e.oracle);
    } else if e.EExecuteLost? {
      assert Step(h, s, e) == ExecuteLost(h, s, e.operation, e.simulateUnknown, e.oracle);
    }
  }

  /** Send k came after call n, which approved the request its operation is for. */
  ghost predicate SentAfterApproval(h: Hasher, start: Db, events: seq<Event>, k: nat, n: nat) {
    var s := Exec(h, start, events);
    && k < |s.sends| && s.sends[k].operation < |s.operations|
    && BroughtBy(h, start, events, s.operations[s.sends[k].operation].approval, ApprovalStatus.Approved, n)
    && |Before(h, start, events, n).sends| <= k
  }

  lemma {:induction false} SendsNeverShrink(h: Hasher, start: Db, events: seq<Event>, n: nat)
    requires n <= |events|
    ensures |Before(h, start, events, n).sends| <= |Exec(h, start, events).sends|
  {
    if n == |events| {
      assert events[..n] == events;
    } else {
      var last := |events| - 1;
      SendsNeverShrink(h, start, events[..last], n);
      Earlier(h, start, events, n);
      StepOnSends(h, Exec(h, start, events[..last]), events[last]);
    }
  }

  lemma {:induction false} SentNow(h: Hasher, start: Db, events: seq<Event>) returns (m: nat)
    requires Injective(h) && Fresh(start) && events != []
    requires var s, t := Exec(h, start, events[..|events| - 1]), Exec(h, start, events);
             |t.sends| > |s.sends|
    ensures SentAfterApproval(h, start, events, |Exec(h, start, events[..|events| - 1]).sends|, m)
  {
    var n := |events| - 1;
    var s, t := Exec(h, start, events[..n]), Exec(h, start, events);
    StepOnSends(h, s, events[n]);
    StepOnOperations(h, s, events[n]);
    var a := s.operations[t.sends[|s.sends|].operation].approval;
    RequestsWereDecided(h, start, events[..n], a);
    m :| BroughtBy(h, start, events[..n], a, ApprovalStatus.Approved, m);
    SendsNeverShrink(h, start, events[..n], m);
    Earlier(h, start, events, m);
  }

  lemma {:induction false} StillSentAfter(h: Hasher, start: Db, events: seq<Event>, k: nat, n: nat)
    requires events != [] && SentAfterApproval(h, start, events[..|events| - 1], k, n)
    requires var s, t := Exec(h, start, events[..|events| - 1]), Exec(h, start, events);
             OperationsFollow(h, s, events[|events| - 1], t) && SendsFollow(s, t)
    ensures SentAfterApproval(h, start, events, k, n)
  {
    Earlier(h, start, events, n);
  }

  /** In every run every send was preceded by a committed approval of the request its operation is for. */
  lemma {:induction false} SendsWereApproved(h: Hasher, start: Db, events: seq<Event>, k: nat)
    requires Injective(h) && Fresh(start) && k < |Exec(h, start, events).sends|
    ensures exists n: nat :: SentAfterApproval(h, start, events, k, n)
  {
    if events == [] {
    } else {
      var last := |events| - 1;
      var s := Exec(h, start, events[..last]);
      StepOnSends(h, s, events[last]);
      if k < |s.sends| {
        SendsWereApproved(h, start, events[..last], k);
        var n: nat :| SentAfterApproval(h, start, events[..last], k, n);
        StepOnOperations(h, s, events[last]);
        StillSentAfter(h, start, events, k, n);
      } else {
        var n := SentNow(h, start, events);
        assert SentAfterApproval(h, start, events, k, n);
      }
    }
  }

  // ----- What an execution needs -----

  ghost predicate HashesKept(h: Hasher, s: Db) {
    forall o <- s.operations ::
      o.approval < |s.approvals| && o.hashes == EmailHashes(h, s.approvals[o.approval].reviewed)
  }

  lemma {:induction false} PreparationKeepsHashes(h: Hasher, s: Db, a: nat, key: string, elsewhere: bool, live: bool,
                                                  passed: bool)
    requires Injective(h) && Sound(h, s) && HashesKept(h, s)
    ensures HashesKept(h, After(s, Prepare(h, s, a, key, elsewhere, live, passed)))
  {
    if StillStands(h, s, a) {
      assert ApprovalSound(h, s, s.approvals[a]);
      assert Whole(s.approvals[a].exactAction) == Whole(s.approvals[a].reviewed);
    }
  }

  /** No operation was added, and none has other hashes or another request than before. */
  ghost predicate SameHashes(s: Db, t: Db) {
    && |t.operations| == |s.operations| && |t.approvals| >= |s.approvals|
    && (forall i :: 0 <= i < |s.operations| ==>
          t.operations[i].approval == s.operations[i].approval && t.operations[i].hashes == s.operations[i].hashes)
    && forall a :: 0 <= a < |s.approvals| ==> t.approvals[a].reviewed == s.approvals[a].reviewed
  }

  lemma {:induction false} OthersKeepHashes(h: Hasher, s: Db, e: Event)
    requires Sound(h, s) && !e.EPrepare?
    ensures SameHashes(s, After(s, Step(h, s, e)))
  {}

  lemma {:induction false} SameHashesAreKept(h: Hasher, s: Db, t: Db)
    requires HashesKept(h, s) && SameHashes(s, t)
    ensures HashesKept(h, t)
  {
    forall o | o in t.operations
      ensures o.approval < |t.approvals| && o.hashes == EmailHashes(h, t.approvals[o.approval].reviewed)
    {
      var i :| 0 <= i < |t.operations| && t.operations[i] == o;
      assert s.operations[i] in s.operations;
    }
  }

  lemma {:induction false} StepKeepsHashes(h: Hasher, s: Db, e: Event)
    requires Injective(h) && Sound(h, s) && HashesKept(h, s)
    ensures HashesKept(h, After(s, Step(h, s, e)))
  {
    if e.EPrepare? {
      var EPrepare(a, key, elsewhere, live, passed) := e;
      PreparationKeepsHashes(h, s, a, key, elsewhere, live, passed);
      assert Step(h, s, e) == Prepare(h, s, a, key, elsewhere, live, passed);
    } else {
      OthersKeepHashes(h, s, e);
      SameHashesAreKept(h, s, After(s, Step(h, s, e)));
    }
  }

  lemma {:induction false} RunsKeepHashes(h: Hasher, start: Db, events: seq<Event>)
    requires Injective(h) && Fresh(start)
    ensures HashesKept(h, Exec(h, start, events))
  {
    if events == [] {
    } else {
      var n := |events| - 1;
      RunsKeepHashes(h, start, events[..n]);
      ReachableIsSound(h, start, events[..n]);
      StepKeepsHashes(h, Exec(h, start, events[..n]), events[n]);
    }
  }

  /** The operation has not been tried, its mission is approved and has not moved on since, and its stored
      content is what was reviewed. */
  ghost predicate MayStart(s: Db, i: nat) {
    && i < |s.operations| && s.operations[i].status == OperationStatus.Approved
    && s.status == MissionStatus.Approved && s.operations[i].approval < |s.approvals|
    && s.version == s.approvals[s.operations[i].approval].missionVersion + 1
    && s.operations[i].parameters == s.approvals[s.operations[i].approval].reviewed
  }

  /** In every run an execution is tried exactly when it may start; a second one after success returns what
      there is, and every other call raises. */
  lemma {:induction false} ExecutionsStartIff(h: Hasher, start: Db, events: seq<Event>, i: nat, simulate: bool,
                                              o: Oracle)
    requires Injective(h) && Fresh(start)
    ensures var s := Exec(h, start, events);
            var e := EExecute(i, simulate, o);
            && (MayExecute(h, s, i) <==> MayStart(s, i))
            && (!MayStart(s, i) ==>
                  && After(s, Step(h, s, e)) == s
                  && (Commits(h, s, e) <==> i < |s.operations| && s.operations[i].status == OperationStatus.Succeeded))
  {
    var s := Exec(h, start, events);
    ReachableIsSound(h, start, events);
    RunsKeepHashes(h, start, events);
    if i < |s.operations| {
      assert s.operations[i] in s.operations && OperationSound(s, s.operations[i]);
      assert ApprovalSound(h, s, s.approvals[s.operations[i].approval]);
      if MayExecute(h, s, i) { FittingHashesFixContent(h, s, i); }
    }
  }
}
