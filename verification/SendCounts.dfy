/** How many times a mission's mail is sent: the exact number, and that the bound is reached. */
module SendCounts {
  import opened Basics
  import opened Lifecycles
  import opened SendFlow
  import opened SendTheorems

  // ----- The exact number -----

  /** A committed execution that asked the provider to send. */
  ghost predicate AsksAndCommits(h: Hasher, s: Db, e: Event) {
    && e.EExecute? && MayExecute(h, s, e.operation) && IsLive(s, e.operation, e.simulateUnknown)
    && ReachesSend(e.oracle) && FateOf(e.oracle) != RolledBack
  }

  ghost predicate CommittedSend(h: Hasher, start: Db, events: seq<Event>, n: int) {
    0 <= n < |events| && AsksAndCommits(h, Exec(h, start, events[..n]), events[n])
  }

  ghost function CommittedSends(h: Hasher, start: Db, events: seq<Event>): nat {
    if events == [] then 0
    else
      var n := |events| - 1;
      CommittedSends(h, start, events[..n]) + if CommittedSend(h, start, events, n) then 1 else 0
  }

  lemma {:induction false} StepIsCounted(h: Hasher, s: Db, e: Event)
    ensures var t := After(s, Step(h, s, e));
            |t.sends| - t.lost == |s.sends| - s.lost + if AsksAndCommits(h, s, e) then 1 else 0
  {
    if e.EExecute? {
      assert Step(h, s, e) == Execute(h, s, e.operation, e.simulateUnknown, e.oracle);
    } else if e.EExecuteLost? {
      assert Step(h, s, e) == ExecuteLost(h, s, e.operation, e.simulateUnknown, e.oracle);
    }
  }

  lemma {:induction false} SendsAreCounted(h: Hasher, start: Db, events: seq<Event>)
    requires Fresh(start)
    ensures var s := Exec(h, start, events); |s.sends| == s.lost + CommittedSends(h, start, events)
  {
    if events == [] {
    } else {
      var n := |events| - 1;
      SendsAreCounted(h, start, events[..n]);
      var s := Exec(h, start, events[..n]);
      StepIsCounted(h, s, events[n]);
    }
  }

  lemma {:induction false} CommitOfPrefix(h: Hasher, start: Db, events: seq<Event>, n: int)
    requires events != [] && n != |events| - 1
    ensures CommittedSend(h, start, events, n) <==> CommittedSend(h, start, events[..|events| - 1], n)
  {
    if 0 <= n < |events| - 1 {
      assert events[..|events| - 1][..n] == events[..n];
    }
  }

  /** The count is at least the number of committed sends one can point at. */
  lemma {:induction false} CommitsAreCounted(h: Hasher, start: Db, events: seq<Event>)
    ensures CommittedSends(h, start, events) > 0 <==> exists n :: CommittedSend(h, start, events, n)
    ensures CommittedSends(h, start, events) <= 1 ==>
              forall m, n :: CommittedSend(h, start, events, m) && CommittedSend(h, start, events, n) ==> m == n
  {
    if events == [] {
      assert forall n :: !CommittedSend(h, start, events, n);
    } else {
      var last := |events| - 1;
      CommitsAreCounted(h, start, events[..last]);
      forall n
        ensures CommittedSend(h, start, events, n) <==>
                CommittedSend(h, start, events[..last], n) || (n == last && CommittedSend(h, start, events, last))
      {
        if n != last { CommitOfPrefix(h, start, events, n); }
      }
    }
  }

  /** The exact number of sends: one for each transaction rolled back after a send, and one more iff
      some committed execution asked the provider, which happens at most once. */
  lemma {:induction false} ExactSends(h: Hasher, start: Db, events: seq<Event>)
    requires Injective(h) && Fresh(start)
    ensures var s := Exec(h, start, events);
            |s.sends| == s.lost + if exists n :: CommittedSend(h, start, events, n) then 1 else 0
    ensures forall m, n :: CommittedSend(h, start, events, m) && CommittedSend(h, start, events, n) ==> m == n
  {
    AtMostOneSend(h, start, events);
    SendsAreCounted(h, start, events);
    CommitsAreCounted(h, start, events);
  }

  // ----- The bound is tight -----

  const ALL_GOOD := Oracle(Passed, true, true, Returns, Returns, Returns, true, Recorded, true)

  /** A mission at high risk whose source mail can be answered. */
  predicate Answerable(riskLevel: string, source: Source) {
    IsHighRisk(riskLevel) && Addressed(source)
  }

  /** An executing mission at version 7, its approval request, the approval, the frozen operation. */
  ghost function Stage(h: Hasher, risk: string, source: Source, body: string, n: nat): Db {
    var exact := Reply(source, body, 9);
    var request := Approval(ApprovalStatus.Pending, exact, h(Whole(exact)), 9, APPROVAL_PERIOD, exact);
    var operation := Operation(0, "k", OperationStatus.Approved, exact, EmailHashes(h, exact), false, 0, NotAttempted);
    if n == 0 then Db(MissionStatus.Executing, 7, risk, source, [], [], [], 0)
    else if n == 1 then Db(MissionStatus.ApprovalRequired, 9, risk, source, [request], [], [], 0)
    else
      Db(MissionStatus.Approved, 10, risk, source, [request.(status := ApprovalStatus.Approved)],
         if n == 2 then [] else [operation], [], 0)
  }

  ghost function StageEvent(body: string, n: nat): Event {
    if n == 0 then ELeadReview(7, true, body, 0)
    else if n == 1 then EDecide(0, Approve)
    else EPrepare(0, "k", false, true, true)
  }

  lemma {:induction false} NextStage(h: Hasher, risk: string, source: Source, body: string, n: nat)
    requires Answerable(risk, source) && n < 3
    ensures var s := Stage(h, risk, source, body, n);
            After(s, Step(h, s, StageEvent(body, n))) == Stage(h, risk, source, body, n + 1)
  {
    assert !HasKey(Stage(h, risk, source, body, 2), "k");
  }

  ghost function StageEvents(body: string, n: nat): (events: seq<Event>)
    ensures |events| == n
  {
    if n == 0 then [] else StageEvents(body, n - 1) + [StageEvent(body, n - 1)]
  }

  lemma {:induction false} StageReached(h: Hasher, risk: string, source: Source, body: string, n: nat)
    requires Answerable(risk, source) && n <= 3
    ensures Exec(h, Stage(h, risk, source, body, 0), StageEvents(body, n)) == Stage(h, risk, source, body, n)
  {
    if n == 0 {
    } else {
      StageReached(h, risk, source, body, n - 1);
      ExecAppend(h, Stage(h, risk, source, body, 0), StageEvents(body, n - 1), StageEvent(body, n - 1));
      NextStage(h, risk, source, body, n - 1);
    }
  }

  function Repeat<T>(x: T, n: nat): (s: seq<T>)
    ensures |s| == n
  {
    if n == 0 then [] else Repeat(x, n - 1) + [x]
  }

  const LOSING := EExecute(0, false, ALL_GOOD.(usageRecorded := false))

  ghost predicate CanSend(h: Hasher, s: Db) {
    MayExecute(h, s, 0) && !s.operations[0].demo
  }

  lemma {:induction false} LoseOnce(h: Hasher, s: Db)
    requires CanSend(h, s)
    ensures var t := s.(sends := s.sends + [Send(0, s.operations[0].parameters)], lost := s.lost + 1);
            After(s, Step(h, s, LOSING)) == t && CanSend(h, t)
  {
    assert Step(h, s, LOSING) == LiveAttempted(s, 0, LOSING.oracle);
  }

  lemma {:induction false} SendOnce(h: Hasher, s: Db)
    requires CanSend(h, s)
    ensures var t := After(s, Step(h, s, EExecute(0, false, ALL_GOOD)));
            t.lost == s.lost && |t.sends| == |s.sends| + 1
  {
    assert Step(h, s, EExecute(0, false, ALL_GOOD)) == LiveAttempted(s, 0, ALL_GOOD);
  }

  /** Executions whose transaction is rolled back can be repeated, each with a send of its own. */
  lemma {:induction false} LossesRepeat(h: Hasher, s: Db, n: nat)
    requires CanSend(h, s)
    ensures var t := Exec(h, s, Repeat(LOSING, n)); CanSend(h, t) && t.lost == s.lost + n && |t.sends| == |s.sends| + n
  {
    if n == 0 {
    } else {
      LossesRepeat(h, s, n - 1);
      ExecAppend(h, s, Repeat(LOSING, n - 1), LOSING);
      LoseOnce(h, Exec(h, s, Repeat(LOSING, n - 1)));
    }
  }

  lemma {:induction false} LoseThenSend(h: Hasher, s: Db, n: nat)
    requires CanSend(h, s)
    ensures var t := Exec(h, s, Repeat(LOSING, n) + [EExecute(0, false, ALL_GOOD)]);
            t.lost == s.lost + n && |t.sends| == |s.sends| + n + 1
  {
    LossesRepeat(h, s, n);
    SendOnce(h, Exec(h, s, Repeat(LOSING, n)));
    ExecAppend(h, s, Repeat(LOSING, n), EExecute(0, false, ALL_GOOD));
  }

  lemma {:induction false} ReadyToSend(h: Hasher, risk: string, source: Source, body: string)
    requires Answerable(risk, source)
    ensures var s := Exec(h, Stage(h, risk, source, body, 0), StageEvents(body, 3));
            CanSend(h, s) && s.lost == 0 && s.sends == []
    ensures Fresh(Stage(h, risk, source, body, 0))
  {
    StageReached(h, risk, source, body, 3);
  }

  /** The bound is reached for every number of losses, whatever mail is to be answered: a transaction that
      cannot be completed after the send leaves the mission approved, so each retry sends again. */
  lemma {:induction false} EveryLossRepeatsSend(h: Hasher, risk: string, source: Source, n: nat)
    requires Answerable(risk, source)
    ensures exists start: Db, events ::
              && Fresh(start) && start.riskLevel == risk && start.source == source
              && var s := Exec(h, start, events); s.lost == n && |s.sends| == n + 1
  {
    var start, ready := Stage(h, risk, source, "", 0), StageEvents("", 3);
    var rest := Repeat(LOSING, n) + [EExecute(0, false, ALL_GOOD)];
    ReadyToSend(h, risk, source, "");
    LoseThenSend(h, Exec(h, start, ready), n);
    ExecJoins(h, start, ready, rest);
    assert Fresh(start) && Exec(h, start, ready + rest).lost == n;
  }
}
