/** Work items and agent runs move along their transition tables only. */
module MissionMoves {
  import opened Graphs
  import opened Lifecycles
  import opened Quality
  import opened MissionFlow

  /** A chain of n legal changes leads from one status to the other. */
  ghost predicate WorkPath(from: WorkStatus, to: WorkStatus, n: int)
    decreases n
  {
    if n <= 0 then n == 0 && from == to
    else exists via :: via in WorkTargets(from) && WorkPath(via, to, n - 1)
  }

  ghost predicate RunPath(from: RunStatus, to: RunStatus, n: int)
    decreases n
  {
    if n <= 0 then n == 0 && from == to
    else exists via :: via in RunTargets(from) && RunPath(via, to, n - 1)
  }

  /** One legal change of status for each version an item grew. */
  ghost predicate ItemMoves(a: Item, b: Item) {
    WorkPath(a.status, b.status, b.version - a.version)
  }

  ghost predicate RunMoves(a: Run, b: Run) {
    RunPath(a.status, b.status, b.version - a.version) && b.item == a.item
  }

  ghost predicate ItemsMove(a: map<Id, Item>, b: map<Id, Item>) {
    b.Keys == a.Keys && forall i :: i in a ==> ItemMoves(a[i], b[i])
  }

  /** New runs come out of CREATED at version 1. */
  ghost predicate RunsMove(a: seq<Run>, b: seq<Run>) {
    && |a| <= |b|
    && (forall r :: 0 <= r < |a| ==> RunMoves(a[r], b[r]))
    && (forall r :: |a| <= r < |b| ==> RunPath(RunStatus.Created, b[r].status, b[r].version - 1))
  }

  ghost predicate Moves(s: Db, t: Db) {
    ItemsMove(s.items, t.items) && RunsMove(s.runs, t.runs)
  }

  // ----- Paths -----

  lemma {:induction false} MovedOnce(from: WorkStatus, to: WorkStatus)
    requires to in WorkTargets(from)
    ensures WorkPath(from, to, 1)
  {
    assert WorkPath(to, to, 0);
  }

  lemma {:induction false} MovedTwice(from: WorkStatus, via: WorkStatus, to: WorkStatus)
    requires via in WorkTargets(from) && to in WorkTargets(via)
    ensures WorkPath(from, to, 2)
  {
    MovedOnce(via, to);
  }

  lemma {:induction false} RanTwice(from: RunStatus, via: RunStatus, to: RunStatus)
    requires via in RunTargets(from) && to in RunTargets(via)
    ensures RunPath(from, to, 2)
  {
    assert RunPath(to, to, 0);
    assert RunPath(via, to, 1);
  }

  lemma {:induction false} ItemStays(item: Item)
    ensures ItemMoves(item, item)
  {}

  lemma {:induction false} RunStays(run: Run)
    ensures RunMoves(run, run)
  {}

  lemma {:induction false} OneItemMoves(items: map<Id, Item>, i: Id, item: Item)
    requires i in items && ItemMoves(items[i], item)
    ensures ItemsMove(items, items[i := item])
  {
    forall j | j in items
      ensures ItemMoves(items[j], items[i := item][j])
    {
      ItemStays(items[j]);
    }
  }

  lemma {:induction false} OneRunMoves(runs: seq<Run>, r: nat, run: Run)
    requires r < |runs| && RunMoves(runs[r], run)
    ensures RunsMove(runs, runs[r := run])
  {
    forall q | 0 <= q < |runs|
      ensures RunMoves(runs[q], runs[r := run][q])
    {
      RunStays(runs[q]);
    }
  }

  lemma {:induction false} OneRunOpens(runs: seq<Run>, run: Run)
    requires RunPath(RunStatus.Created, run.status, run.version - 1)
    ensures RunsMove(runs, runs + [run])
  {
    forall q | 0 <= q < |runs|
      ensures RunMoves(runs[q], (runs + [run])[q])
    {
      RunStays(runs[q]);
    }
  }

  lemma {:induction false} NothingMoves(items: map<Id, Item>, runs: seq<Run>)
    ensures ItemsMove(items, items) && RunsMove(runs, runs)
  {
    forall i | i in items
      ensures ItemMoves(items[i], items[i])
    {
      ItemStays(items[i]);
    }
    forall r | 0 <= r < |runs|
      ensures RunMoves(runs[r], runs[r])
    {
      RunStays(runs[r]);
    }
  }

  // ----- Calls -----

  lemma {:induction false} ApproveMoves(s: Db, expected: int)
    ensures Moves(s, After(s, ApprovePlan(s, expected)))
  {
    NothingMoves(s.items, s.runs);
    if ApprovePlan(s, expected).Done? {
      forall i | i in s.items
        ensures ItemMoves(s.items[i], Queued(s.deps, i, s.items[i]))
      {
        MovedOnce(s.items[i].status, WorkStatus.Ready);
        MovedTwice(s.items[i].status, WorkStatus.Ready, WorkStatus.WaitingDependency);
      }
    }
  }

  lemma {:induction false} StartedItemMoves(item: Item)
    requires item.status == WorkStatus.Assigned || WorkStatus.Assigned in WorkTargets(item.status)
    ensures ItemMoves(item, Moved(item, WorkStatus.Running, if item.status == WorkStatus.Assigned then 1 else 2))
  {
    if item.status == WorkStatus.Assigned {
      MovedOnce(item.status, WorkStatus.Running);
    } else {
      MovedTwice(item.status, WorkStatus.Assigned, WorkStatus.Running);
    }
  }

  lemma {:induction false} StartMoves(s: Db, i: Id, paused: bool, now: int)
    ensures Moves(s, After(s, StartItem(s, i, paused, now)))
  {
    NothingMoves(s.items, s.runs);
    if StartItem(s, i, paused, now).Done? {
      var t := StartItem(s, i, paused, now).db;
      StartedItemMoves(s.items[i]);
      OneItemMoves(s.items, i, t.items[i]);
      RanTwice(RunStatus.Created, RunStatus.ContextPrepared, RunStatus.Running);
      OneRunOpens(s.runs, NewRun(i, now));
    }
  }

  lemma {:induction false} SubmitMoves(s: Db, r: nat, claims: seq<Claim>)
    ensures Moves(s, After(s, SubmitRun(s, r, claims)))
  {
    NothingMoves(s.items, s.runs);
    if SubmitRun(s, r, claims).Done? {
      var i := s.runs[r].item;
      MovedOnce(s.items[i].status, WorkStatus.Submitted);
      OneItemMoves(s.items, i, Moved(s.items[i], WorkStatus.Submitted, 1));
      RanTwice(RunStatus.Running, RunStatus.OutputSubmitted, RunStatus.Closed);
      OneRunMoves(s.runs, r, ClosedRun(s.runs[r], true, OutputSaved));
    }
  }

  lemma {:induction false} ExecuteMoves(s: Db, r: nat, model: ModelOutcome)
    ensures Moves(s, After(s, ExecuteRun(s, r, model)))
  {
    NothingMoves(s.items, s.runs);
    if model.Output? {
      SubmitMoves(s, r, model.claims);
    } else if ExecuteRun(s, r, model).Done? {
      var i := s.runs[r].item;
      MovedOnce(WorkStatus.Running, WorkStatus.Blocked);
      if i in s.items && s.items[i].status == WorkStatus.Running {
        OneItemMoves(s.items, i, Moved(s.items[i], WorkStatus.Blocked, 1));
      }
      RanTwice(RunStatus.Running, RunStatus.Failed, RunStatus.Closed);
      OneRunMoves(s.runs, r, ClosedRun(s.runs[r], true, ExecutionFailed));
    }
  }

  lemma {:induction false} ReviewMoves(s: Db, i: Id, accept: bool)
    ensures Moves(s, After(s, ReviewItem(s, i, accept)))
  {
    NothingMoves(s.items, s.runs);
    if ReviewItem(s, i, accept).Done? {
      MovedOnce(WorkStatus.Submitted, WorkStatus.Accepted);
      MovedOnce(WorkStatus.Submitted, WorkStatus.RevisionRequired);
      MovedOnce(WorkStatus.WaitingDependency, WorkStatus.Assigned);
      if accept {
        var t := AcceptItem(s, i);
        forall j | j in s.items
          ensures ItemMoves(s.items[j], t.items[j])
        {
          ItemStays(s.items[j]);
        }
      } else {
        OneItemMoves(s.items, i, Moved(s.items[i], WorkStatus.RevisionRequired, 1));
      }
    }
  }

  lemma {:induction false} TickMoves(s: Db, now: int)
    ensures Moves(s, Tick(s, now))
  {
    var t := Tick(s, now);
    MovedOnce(WorkStatus.Running, WorkStatus.Failed);
    forall i | i in s.items
      ensures ItemMoves(s.items[i], t.items[i])
    {
      ItemStays(s.items[i]);
    }
    forall r | 0 <= r < |s.runs|
      ensures RunMoves(s.runs[r], t.runs[r])
    {
      RunStays(s.runs[r]);
      if RunExpired(s.runs[r], now) { RanTwice(s.runs[r].status, RunStatus.TimedOut, RunStatus.Closed); }
    }
  }

  /** Every call, the status the scheduler writes directly included, moves each item and each run
      along the transition tables, with as many changes as its version grows. Replanning replaces the
      items, and an edit bumps the version of one item without moving it. */
  lemma {:induction false} OnlyLegalMoves(s: Db, e: Event)
    requires !e.EPlan? && !e.EEdit?
    ensures Moves(s, After(s, Step(s, e)))
  {
    match e
    case EApprovePlan(expected) => ApproveMoves(s, expected);
    case EStartItem(i, paused, now) => StartMoves(s, i, paused, now);
    case ESubmitRun(r, claims) => SubmitMoves(s, r, claims);
    case EExecuteRun(r, model) => ExecuteMoves(s, r, model);
    case EReview(i, accept) => ReviewMoves(s, i, accept);
    case ETick(now) => TickMoves(s, now);
    case _ => NothingMoves(s.items, s.runs);
  }

  lemma {:induction false} EditsMoveNothing(s: Db, e: Event)
    requires e.EEdit?
    ensures var t := After(s, Step(s, e));
            && t.items.Keys == s.items.Keys && t.runs == s.runs
            && forall i :: i in s.items ==>
                 && t.items[i].status == s.items[i].status
                 && s.items[i].version <= t.items[i].version <= s.items[i].version + 1
  {
    var o := EditItem(s, e.item, e.expected, e.valid, e.requirements);
    assert Step(s, e) == o;
  }
}
