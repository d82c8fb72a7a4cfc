/** Which calls of a run brought its work items and agent runs to where they are. */
module MissionHistory {
  import opened Graphs
  import opened Lifecycles
  import opened Quality
  import opened MissionFlow
  import opened MissionSafety
  import opened MissionEffects

  /** The state in which call n of the run was made. */
  ghost function Before(start: Db, events: seq<Event>, n: nat): Db
    requires n <= |events|
  {
    Exec(start, events[..n])
  }

  /** Call n of the run committed. */
  ghost predicate Committed(start: Db, events: seq<Event>, n: nat) {
    n < |events| && Commits(Before(start, events, n), events[n])
  }

  lemma {:induction false} Earlier(start: Db, events: seq<Event>, n: nat)
    requires events != [] && n < |events|
    ensures n <= |events| - 1 && Before(start, events[..|events| - 1], n) == Before(start, events, n)
    ensures n < |events| - 1 ==>
              (Committed(start, events[..|events| - 1], n) <==> Committed(start, events, n))
  {
    assert events[..|events| - 1][..n] == events[..n];
  }

  // ----- How runs begin -----

  /** Call m started the item and opened run r, at the time the run still carries. */
  ghost predicate OpenedBy(start: Db, events: seq<Event>, r: nat, m: nat) {
    && Committed(start, events, m) && events[m].EStartItem? && |Before(start, events, m).runs| == r
    && var runs := Exec(start, events).runs;
       r < |runs| && runs[r].item == events[m].item && runs[r].updatedAt == events[m].now
  }

  /** What a call does to the runs that were there: only replanning drops them, only a tick times them out,
      and only a start adds one. */
  ghost predicate RunsFollow(s: Db, e: Event, t: Db) {
    && (t.runs == [] || |t.runs| >= |s.runs|)
    && (forall r :: 0 <= r < |s.runs| && r < |t.runs| ==>
          && t.runs[r].item == s.runs[r].item && t.runs[r].updatedAt == s.runs[r].updatedAt
          && (t.runs[r].reason == SchedulerTimeout ==>
                s.runs[r].reason == SchedulerTimeout || (e.ETick? && IsOverdue(s.runs[r], e.now))))
    && (|t.runs| > |s.runs| ==>
          && e.EStartItem? && Commits(s, e) && |t.runs| == |s.runs| + 1
          && t.runs[|s.runs|].item == e.item && t.runs[|s.runs|].updatedAt == e.now
          && t.runs[|s.runs|].reason == StillOpen)
  }

  lemma {:induction false} StartFollows(s: Db, e: Event)
    requires e.EStartItem?
    ensures RunsFollow(s, e, After(s, Step(s, e)))
  {
    assert Step(s, e) == StartItem(s, e.item, e.paused, e.now);
  }

  lemma {:induction false} ClosingFollows(s: Db, e: Event)
    requires e.ESubmitRun? || e.EExecuteRun?
    ensures RunsFollow(s, e, After(s, Step(s, e)))
  {
    if e.ESubmitRun? {
      assert Step(s, e) == SubmitRun(s, e.run, e.claims);
    } else {
      assert Step(s, e) == ExecuteRun(s, e.run, e.model);
    }
  }

  lemma {:induction false} TickFollows(s: Db, e: Event)
    requires Sound(s) && e.ETick?
    ensures RunsFollow(s, e, After(s, Step(s, e)))
  {
    var t := After(s, Step(s, e));
    TickEnds(s, e.now);
    assert t == Tick(s, e.now);
    assert forall r :: 0 <= r < |s.runs| ==> t.runs[r].item == s.runs[r].item;
  }

  lemma {:induction false} OthersFollow(s: Db, e: Event)
    requires !e.ETick? && !e.EStartItem? && !e.ESubmitRun? && !e.EExecuteRun?
    ensures RunsFollow(s, e, After(s, Step(s, e)))
  {
    var t := After(s, Step(s, e));
    assert t.runs == [] || t.runs == s.runs;
  }

  lemma {:induction false} StepOnRuns(s: Db, e: Event)
    requires Sound(s)
    ensures RunsFollow(s, e, After(s, Step(s, e)))
  {
    match e
    case ETick(_) => TickFollows(s, e);
    case EStartItem(_, _, _) => StartFollows(s, e);
    case ESubmitRun(_, _) => ClosingFollows(s, e);
    case EExecuteRun(_, _) => ClosingFollows(s, e);
    case _ => OthersFollow(s, e);
  }

  /** Every run was opened by a committed start of its item. */
  lemma {:induction false} RunsWereStarted(start: Db, events: seq<Event>, r: nat)
    requires Fresh(start) && r < |Exec(start, events).runs|
    ensures exists m: nat :: OpenedBy(start, events, r, m)
  {
    if events == [] {
    } else {
      var n := |events| - 1;
      var s := Exec(start, events[..n]);
      ReachableIsSound(start, events[..n]);
      StepOnRuns(s, events[n]);
      assert events[..n + 1] == events;
      if r < |s.runs| {
        RunsWereStarted(start, events[..n], r);
        var m: nat :| OpenedBy(start, events[..n], r, m);
        Earlier(start, events, m);
        assert OpenedBy(start, events, r, m);
      } else {
        assert OpenedBy(start, events, r, n);
      }
    }
  }

  // ----- How runs time out -----

  /** Call n is a tick that found run r running. */
  ghost predicate TimedOutBy(start: Db, events: seq<Event>, r: nat, n: nat) {
    && n < |events| && events[n].ETick? && IsLive(Before(start, events, n).runs, r)
  }

  /** The run was started by call m and timed out by the later call n, more than 600 seconds after. */
  ghost predicate TimedOutLate(start: Db, events: seq<Event>, r: nat, m: nat, n: nat) {
    && OpenedBy(start, events, r, m) && TimedOutBy(start, events, r, n)
    && m < n && events[n].now > events[m].now + 600_000_000
  }

  lemma {:induction false} StillTimedOutLate(start: Db, events: seq<Event>, r: nat, m: nat, n: nat)
    requires Fresh(start) && events != [] && TimedOutLate(start, events[..|events| - 1], r, m, n)
    requires r < |Exec(start, events).runs|
    ensures TimedOutLate(start, events, r, m, n)
  {
    var last := |events| - 1;
    ReachableIsSound(start, events[..last]);
    StepOnRuns(Exec(start, events[..last]), events[last]);
    Earlier(start, events, m);
    Earlier(start, events, n);
  }

  lemma {:induction false} TimedOutNow(start: Db, events: seq<Event>, r: nat) returns (m: nat)
    requires Fresh(start) && events != []
    requires var s, t := Exec(start, events[..|events| - 1]), Exec(start, events);
             && RunsFollow(s, events[|events| - 1], t) && Sound(s)
             && r < |t.runs| && t.runs[r].reason == SchedulerTimeout
             && (r < |s.runs| ==> s.runs[r].reason != SchedulerTimeout)
    ensures TimedOutLate(start, events, r, m, |events| - 1)
  {
    var n := |events| - 1;
    assert r < |Exec(start, events[..n]).runs|;
    RunsWereStarted(start, events[..n], r);
    m :| OpenedBy(start, events[..n], r, m);
    Earlier(start, events, m);
    Earlier(start, events, n);
    assert OpenedBy(start, events, r, m);
  }

  /** Every run the scheduler closed was started by some call of the history and closed by a tick more
      than 600 seconds later. */
  lemma {:induction false} TimeOutsAreLate(start: Db, events: seq<Event>, r: nat)
    requires Fresh(start) && r < |Exec(start, events).runs|
    requires Exec(start, events).runs[r].reason == SchedulerTimeout
    ensures exists m: nat, n: nat :: TimedOutLate(start, events, r, m, n)
  {
    if events == [] {
    } else {
      var n := |events| - 1;
      var s := Exec(start, events[..n]);
      ReachableIsSound(start, events[..n]);
      StepOnRuns(s, events[n]);
      if r < |s.runs| && s.runs[r].reason == SchedulerTimeout {
        TimeOutsAreLate(start, events[..n], r);
        var m: nat, k: nat :| TimedOutLate(start, events[..n], r, m, k);
        StillTimedOutLate(start, events, r, m, k);
      } else {
        var m := TimedOutNow(start, events, r);
        assert TimedOutLate(start, events, r, m, n);
      }
    }
  }

  /** A tick that comes no later than 600 seconds after the start of a run leaves it as it was, and its
      item with it. */
  lemma {:induction false} EarlyTicksSpare(start: Db, events: seq<Event>, r: nat, m: nat, now: int)
    requires Fresh(start) && OpenedBy(start, events, r, m) && now <= events[m].now + 600_000_000
    ensures var s := Exec(start, events);
            var t := Exec(start, events + [ETick(now)]);
            && r < |t.runs| && t.runs[r] == s.runs[r]
            && (IsLive(s.runs, r) ==> s.runs[r].item in t.items && t.items[s.runs[r].item] == s.items[s.runs[r].item])
  {
    var s := Exec(start, events);
    ReachableIsSound(start, events);
    TickEnds(s, now);
    assert (events + [ETick(now)])[..|events|] == events;
    if IsLive(s.runs, r) { LiveItem(s, r); }
  }

  // ----- Why an item has its status -----

  /** A call that brings item i to this status. */
  ghost predicate Explains(s: Db, e: Event, i: Id, status: WorkStatus) {
    match status
    case Running => e.EStartItem? && e.item == i
    case Submitted =>
      || (e.ESubmitRun? && e.run < |s.runs| && s.runs[e.run].item == i)
      || (e.EExecuteRun? && e.model.Output? && e.run < |s.runs| && s.runs[e.run].item == i)
    case Blocked => e.EExecuteRun? && e.model.ModelRaised? && e.run < |s.runs| && s.runs[e.run].item == i
    case Accepted => e.EReview? && e.item == i && e.accept
    case RevisionRequired => e.EReview? && e.item == i && !e.accept
    case Failed => e.ETick? && exists r :: 0 <= r < |s.runs| && s.runs[r].item == i && IsOverdue(s.runs[r], e.now)
    case _ => true
  }

  ghost predicate BroughtBy(start: Db, events: seq<Event>, i: Id, status: WorkStatus, n: nat) {
    Committed(start, events, n) && Explains(Before(start, events, n), events[n], i, status)
  }

  /** Whatever status the call leaves item i in, it is the old one or one the call explains. */
  ghost predicate Explained(s: Db, e: Event, i: Id) {
    var t := After(s, Step(s, e));
    i in t.items ==>
      || (i in s.items && t.items[i].status == s.items[i].status)
      || (Commits(s, e) && Explains(s, e, i, t.items[i].status))
  }

  lemma {:induction false} TickExplains(s: Db, e: Event, i: Id)
    requires Sound(s) && e.ETick?
    ensures Explained(s, e, i)
  {
    TickEnds(s, e.now);
    var t := After(s, Step(s, e));
    if i in s.items && t.items[i] != s.items[i] {
      var r :| 0 <= r < |s.runs| && s.runs[r].item == i && IsOverdue(s.runs[r], e.now);
      assert t.items[i].status == WorkStatus.Failed;
      assert Explains(s, e, i, WorkStatus.Failed);
    }
  }

  lemma {:induction false} RunCallsExplain(s: Db, e: Event, i: Id)
    requires Sound(s) && (e.EStartItem? || e.ESubmitRun? || e.EExecuteRun?)
    ensures Explained(s, e, i)
  {
    match e
    case EStartItem(j, paused, now) => StartEnds(s, j, paused, now);
    case ESubmitRun(r, claims) => SubmissionEnds(s, r, claims);
    case EExecuteRun(r, model) => ExecutionEnds(s, r, model);
  }

  lemma {:induction false} ReviewExplains(s: Db, e: Event, i: Id)
    requires Sound(s) && e.EReview?
    ensures Explained(s, e, i)
  {
    ReviewEnds(s, e.item, e.accept);
  }

  lemma {:induction false} PlanningExplains(s: Db, e: Event, i: Id)
    requires !e.ETick? && !e.EStartItem? && !e.ESubmitRun? && !e.EExecuteRun? && !e.EReview?
    ensures Explained(s, e, i)
  {}

  lemma {:induction false} ChangesHaveCauses(s: Db, e: Event, i: Id)
    requires Sound(s)
    ensures Explained(s, e, i)
  {
    match e
    case ETick(_) => TickExplains(s, e, i);
    case EStartItem(_, _, _) => RunCallsExplain(s, e, i);
    case ESubmitRun(_, _) => RunCallsExplain(s, e, i);
    case EExecuteRun(_, _) => RunCallsExplain(s, e, i);
    case EReview(_, _) => ReviewExplains(s, e, i);
    case _ => PlanningExplains(s, e, i);
  }

  /** In every run each status of an item past assignment has its call: it runs because it was started, is
      submitted because its run was, is accepted or sent back because a review said so, is blocked because
      the model failed, and has failed because a tick came more than 600 seconds after its start. */
  lemma {:induction false} StatusesHaveCauses(start: Db, events: seq<Event>, i: Id)
    requires Fresh(start) && i in Exec(start, events).items
    ensures exists n: nat :: BroughtBy(start, events, i, Exec(start, events).items[i].status, n)
  {
    if events == [] {
    } else {
      var n := |events| - 1;
      var s, t := Exec(start, events[..n]), Exec(start, events);
      var status := t.items[i].status;
      ReachableIsSound(start, events[..n]);
      ChangesHaveCauses(s, events[n], i);
      if i in s.items && s.items[i].status == status {
        StatusesHaveCauses(start, events[..n], i);
        var k: nat :| BroughtBy(start, events[..n], i, status, k);
        Earlier(start, events, k);
        assert BroughtBy(start, events, i, status, k);
      } else {
        assert BroughtBy(start, events, i, status, n);
      }
    }
  }
}
