/** The outbox of a tenant: batches over the oldest pending events, retries, dead letters. */
module Outbox {
  import opened Basics

  datatype Row = Row(id: string, eventType: string, occurredAt: int, published: Option<int>, attempts: nat,
                     error: Option<string>, dead: bool)

  const MAX_ATTEMPTS := 5

  predicate Pending(r: Row) {
    r.published.None? && !r.dead
  }

  /** What the publisher does in one batch: the rows it raises on, with the message. */
  type Publisher = map<nat, string>

  function Outcome(publisher: Publisher, i: nat): Option<string> {
    if i in publisher then Some(publisher[i]) else None
  }

  function Attempted(r: Row, outcome: Option<string>, now: int): Row {
    match outcome
    case None => r.(published := Some(now), attempts := r.attempts + 1, error := None)
    case Some(message) => r.(attempts := r.attempts + 1, error := outcome,
                             dead := r.dead || r.attempts + 1 >= MAX_ATTEMPTS)
  }

  /** The row after one attempt: published, or one failure more with its message, and a dead letter from the
      fifth on. */
  predicate IsAttempted(r: Row, after: Row, outcome: Option<string>, now: int) {
    && after.id == r.id && after.eventType == r.eventType && after.occurredAt == r.occurredAt
    && after.attempts == r.attempts + 1
    && match outcome
       case None => after.published == Some(now) && after.error == None && after.dead == r.dead
       case Some(message) =>
         after.published == r.published && after.error == Some(message) && (after.dead <==> r.dead || r.attempts >= 4)
  }

  function PendingBefore(rows: seq<Row>, i: nat): nat
    requires i <= |rows|
  {
    if i == 0 then 0 else PendingBefore(rows, i - 1) + if Pending(rows[i - 1]) then 1 else 0
  }

  /** Row i is among the first limit pending rows. */
  predicate Chosen(rows: seq<Row>, limit: nat, i: nat)
    requires i < |rows|
  {
    Pending(rows[i]) && PendingBefore(rows, i) < limit
  }

  function RowAfter(rows: seq<Row>, limit: nat, publisher: Publisher, now: int, i: nat): Row
    requires i < |rows|
  {
    if Chosen(rows, limit, i) then Attempted(rows[i], Outcome(publisher, i), now) else rows[i]
  }

  function Batch(rows: seq<Row>, limit: nat, publisher: Publisher, now: int): (after: seq<Row>)
    ensures |after| == |rows| && forall i :: 0 <= i < |rows| ==> after[i] == RowAfter(rows, limit, publisher, now, i)
  {
    seq(|rows|, i requires 0 <= i < |rows| => RowAfter(rows, limit, publisher, now, i))
  }

  /** How many of these rows the publisher takes. */
  function Successes(queue: seq<nat>, publisher: Publisher): nat {
    if queue == [] then 0 else Successes(queue[1..], publisher) + if Outcome(publisher, queue[0]).None? then 1 else 0
  }

  function ChosenFrom(rows: seq<Row>, limit: nat, i: nat): seq<nat>
    requires i <= |rows|
    decreases |rows| - i
  {
    if i == |rows| then []
    else if Chosen(rows, limit, i) then [i] + ChosenFrom(rows, limit, i + 1)
    else ChosenFrom(rows, limit, i + 1)
  }

  lemma {:induction false} PendingUpTo(rows: seq<Row>, i: nat, j: nat)
    requires i <= j <= |rows|
    ensures PendingBefore(rows, i) <= PendingBefore(rows, j)
    ensures i < j && Pending(rows[i]) ==> PendingBefore(rows, i) < PendingBefore(rows, j)
  {
    if i < j {
      PendingUpTo(rows, i, j - 1);
    }
  }

  /** A batch touches no settled row, attempts what it touches once, and takes no row before an older one
      that is still to be sent. */
  lemma {:induction false} OldestFirst(rows: seq<Row>, limit: nat, publisher: Publisher, now: int, i: nat)
    requires i < |rows|
    ensures var after := Batch(rows, limit, publisher, now);
            && (rows[i].published.Some? || rows[i].dead ==> after[i] == rows[i])
            && (after[i] != rows[i] ==>
                  && IsAttempted(rows[i], after[i], if i in publisher then Some(publisher[i]) else None, now)
                  && forall j :: 0 <= j < i && rows[j].published.None? && !rows[j].dead ==>
                       after[j].attempts == rows[j].attempts + 1)
  {
    var after := Batch(rows, limit, publisher, now);
    forall j | 0 <= j < i && Chosen(rows, limit, i) && Pending(rows[j])
      ensures after[j].attempts == rows[j].attempts + 1
    {
      PendingUpTo(rows, j, i);
    }
  }

  lemma {:induction false} FirstChosen(rows: seq<Row>, limit: nat, i: nat)
    requires i <= |rows|
    ensures var queue := ChosenFrom(rows, limit, i);
            if queue == [] then forall x :: i <= x < |rows| ==> !Chosen(rows, limit, x)
            else
              && i <= queue[0] < |rows| && Chosen(rows, limit, queue[0])
              && (forall x :: i <= x < queue[0] ==> !Chosen(rows, limit, x))
              && queue[1..] == ChosenFrom(rows, limit, queue[0] + 1)
    decreases |rows| - i
  {
    if i == |rows| {
    } else {
      FirstChosen(rows, limit, i + 1);
    }
  }

  /** The batch has got as far as row done. */
  ghost predicate Partly(before: seq<Row>, after: seq<Row>, done: nat, rows: seq<Row>) {
    && |rows| == |after| == |before| && done <= |before|
    && rows[..done] == after[..done] && rows[done..] == before[done..]
  }

  lemma {:induction false} Advance(before: seq<Row>, after: seq<Row>, done: nat, i: nat, rows: seq<Row>)
    requires Partly(before, after, done, rows) && done <= i <= |before| && after[done..i] == before[done..i]
    ensures Partly(before, after, i, rows)
    ensures i < |before| ==> rows[i] == before[i] && Partly(before, after, i + 1, rows[i := after[i]])
  {
    forall k | 0 <= k < i
      ensures rows[k] == after[k]
    {
      if k < done {
        assert rows[..done][k] == after[..done][k];
      } else {
        assert rows[done..][k - done] == before[done..][k - done];
        assert after[done..i][k - done] == before[done..i][k - done];
      }
    }
    assert rows[i..] == rows[done..][i - done..] == before[done..][i - done..] == before[i..];
    if i < |before| {
      assert rows[i..][0] == before[i..][0];
      assert rows[i + 1..] == rows[i..][1..];
    }
  }

  lemma {:induction false} NoneChosenBetween(rows: seq<Row>, limit: nat, publisher: Publisher, now: int, a: nat, b: nat)
    requires a <= b <= |rows|
    requires forall i :: a <= i < b ==> !Chosen(rows, limit, i)
    ensures Batch(rows, limit, publisher, now)[a..b] == rows[a..b]
  {
    if a == b {
    } else {
      NoneChosenBetween(rows, limit, publisher, now, a, b - 1);
    }
  }

  lemma {:induction false} NothingLeft(before: seq<Row>, limit: nat, publisher: Publisher, now: int, done: nat,
                                       rows: seq<Row>)
    requires Partly(before, Batch(before, limit, publisher, now), done, rows) && ChosenFrom(before, limit, done) == []
    ensures rows == Batch(before, limit, publisher, now)
  {
    FirstChosen(before, limit, done);
    NoneChosenBetween(before, limit, publisher, now, done, |before|);
    Advance(before, Batch(before, limit, publisher, now), done, |before|, rows);
  }

  lemma {:induction false} OneMoreOutcome(i: nat, queue: seq<nat>, publisher: Publisher)
    ensures Successes([i] + queue, publisher) == Successes(queue, publisher) + if i !in publisher then 1 else 0
  {
    assert ([i] + queue)[1..] == queue;
  }

  /** The rows from i on that a batch attempts and the publisher takes, or does not take. */
  ghost function Attempts(rows: seq<Row>, limit: nat, publisher: Publisher, i: nat, taken: bool): set<nat> {
    set j: nat | i <= j < |rows| && Chosen(rows, limit, j) && (taken <==> j !in publisher)
  }

  lemma {:induction false} OneElementMore(all: set<nat>, rest: set<nat>, i: nat, extra: bool)
    requires i !in rest && forall j :: j in all <==> j in rest || (extra && j == i)
    ensures |all| == |rest| + if extra then 1 else 0
  {
    assert all == if extra then rest + {i} else rest;
  }

  lemma {:induction false} AttemptsFrom(rows: seq<Row>, limit: nat, publisher: Publisher, i: nat, taken: bool)
    requires i < |rows|
    ensures |Attempts(rows, limit, publisher, i, taken)| ==
            |Attempts(rows, limit, publisher, i + 1, taken)|
            + if Chosen(rows, limit, i) && (taken <==> i !in publisher) then 1 else 0
  {
    OneElementMore(Attempts(rows, limit, publisher, i, taken), Attempts(rows, limit, publisher, i + 1, taken), i,
                   Chosen(rows, limit, i) && (taken <==> i !in publisher));
  }

  lemma {:induction false} AttemptsAreCounted(rows: seq<Row>, limit: nat, publisher: Publisher, i: nat)
    requires i <= |rows|
    ensures var chosen := ChosenFrom(rows, limit, i);
            && Successes(chosen, publisher) == |Attempts(rows, limit, publisher, i, true)|
            && |chosen| - Successes(chosen, publisher) == |Attempts(rows, limit, publisher, i, false)|
    decreases |rows| - i
  {
    if i == |rows| {
      assert Attempts(rows, limit, publisher, i, true) == {} && Attempts(rows, limit, publisher, i, false) == {};
    } else {
      AttemptsAreCounted(rows, limit, publisher, i + 1);
      AttemptsFrom(rows, limit, publisher, i, true);
      AttemptsFrom(rows, limit, publisher, i, false);
      OneMoreOutcome(i, ChosenFrom(rows, limit, i + 1), publisher);
    }
  }

  ghost function NewlyPublished(before: seq<Row>, after: seq<Row>): set<nat>
    requires |after| == |before|
  {
    set j: nat | j < |before| && before[j].published.None? && after[j].published.Some?
  }

  ghost function NewlyFailed(before: seq<Row>, after: seq<Row>): set<nat>
    requires |after| == |before|
  {
    set j: nat | j < |before| && after[j].attempts > before[j].attempts && after[j].published.None?
  }

  /** The counts are those of the rows that were published now, and of those that failed once more. */
  lemma {:induction false} CountsAreTrue(rows: seq<Row>, limit: nat, publisher: Publisher, now: int)
    ensures var chosen, after := ChosenFrom(rows, limit, 0), Batch(rows, limit, publisher, now);
            && Successes(chosen, publisher) == |NewlyPublished(rows, after)|
            && |chosen| - Successes(chosen, publisher) == |NewlyFailed(rows, after)|
  {
    AttemptsAreCounted(rows, limit, publisher, 0);
    var after := Batch(rows, limit, publisher, now);
    assert Attempts(rows, limit, publisher, 0, true) == NewlyPublished(rows, after);
    assert Attempts(rows, limit, publisher, 0, false) == NewlyFailed(rows, after);
  }

  class Publication {
    var rows: seq<Row>

    constructor ()
      ensures rows == []
    {
      rows := [];
    }

    /** The try block around one row. */
    method Attempt(i: nat, outcome: Option<string>, now: int) returns (success: bool)
      requires i < |rows| && !rows[i].dead
      modifies this
      ensures rows == old(rows)[i := Attempted(old(rows)[i], outcome, now)] && success == outcome.None?
      ensures IsAttempted(old(rows)[i], rows[i], outcome, now)
    {
      match outcome
      case None =>
        rows := rows[i := rows[i].(published := Some(now), attempts := rows[i].attempts + 1, error := None)];
        success := true;
      case Some(message) =>
        rows := rows[i := rows[i].(attempts := rows[i].attempts + 1, error := Some(message))];
        if rows[i].attempts >= 5 {
          rows := rows[i := rows[i].(dead := true)];
        }
        success := false;
    }

    /** The next chosen row; the rows between stay as they are. */
    method AttemptNext(ghost before: seq<Row>, ghost done: nat, queue: seq<nat>, limit: nat, publisher: Publisher,
                       now: int) returns (success: bool)
      requires done <= |before| && queue != [] && queue == ChosenFrom(before, limit, done)
      requires Partly(before, Batch(before, limit, publisher, now), done, rows)
      modifies this
      ensures done <= queue[0] < |before| && queue[1..] == ChosenFrom(before, limit, queue[0] + 1)
      ensures Partly(before, Batch(before, limit, publisher, now), queue[0] + 1, rows)
      ensures Successes(queue, publisher) == Successes(queue[1..], publisher) + if success then 1 else 0
    {
      var i := queue[0];
      FirstChosen(before, limit, done);
      NoneChosenBetween(before, limit, publisher, now, done, i);
      Advance(before, Batch(before, limit, publisher, now), done, i, rows);
      success := Attempt(i, Outcome(publisher, i), now);
    }

    /** The indices of the chosen rows, oldest first. */
    method Query(limit: nat) returns (chosen: seq<nat>)
      ensures chosen == ChosenFrom(rows, limit, 0)
    {
      chosen := [];
      for i := 0 to |rows|
        invariant chosen + ChosenFrom(rows, limit, i) == ChosenFrom(rows, limit, 0)
        invariant |chosen| == if PendingBefore(rows, i) < limit then PendingBefore(rows, i) else limit
      {
        if rows[i].published.None? && !rows[i].dead && |chosen| < limit {
          chosen := chosen + [i];
        }
      }
    }

    method PublishBatch(limit: nat, publisher: Publisher, now: int) returns (published: nat, failed: nat)
      modifies this
      ensures rows == Batch(old(rows), limit, publisher, now)
      ensures published == |NewlyPublished(old(rows), rows)| && failed == |NewlyFailed(old(rows), rows)|
    {
      ghost var before := rows;
      var queue := Query(limit);
      published, failed := 0, 0;
      ghost var done: nat := 0;
      while queue != []
        invariant done <= |before| && queue == ChosenFrom(before, limit, done)
        invariant Partly(before, Batch(before, limit, publisher, now), done, rows)
        invariant published + Successes(queue, publisher) == Successes(ChosenFrom(before, limit, 0), publisher)
        invariant published + failed + |queue| == |ChosenFrom(before, limit, 0)|
        decreases |queue|
      {
        var success := AttemptNext(before, done, queue, limit, publisher, now);
        done, queue := queue[0] + 1, queue[1..];
        if success {
          published := published + 1;
        } else {
          failed := failed + 1;
        }
      }
      NothingLeft(before, limit, publisher, now, done, rows);
      CountsAreTrue(before, limit, publisher, now);
    }
  }

  // ----- Runs -----

  /** One batch, after some events were appended. */
  datatype Round = Round(appended: seq<Row>, limit: nat, publisher: Publisher, now: int)

  function Step(rows: seq<Row>, r: Round): seq<Row> {
    Batch(rows + r.appended, r.limit, r.publisher, r.now)
  }

  function Exec(rows: seq<Row>, rounds: seq<Round>): (result: seq<Row>)
    ensures |result| >= |rows|
  {
    if rounds == [] then rows else Step(Exec(rows, rounds[..|rounds| - 1]), rounds[|rounds| - 1])
  }

  predicate IsNew(r: Row) {
    r.published.None? && !r.dead && r.attempts == 0
  }

  predicate AppendsNewRows(r: Round) {
    forall x <- r.appended :: IsNew(x)
  }

  ghost predicate Sound(r: Row) {
    && r.attempts <= 5
    && !(r.published.Some? && r.dead)
    && (r.dead ==> r.attempts == 5)
    && (r.published.Some? ==> r.attempts >= 1)
    && (r.published.None? && !r.dead ==> r.attempts < 5)
  }

  ghost predicate AllSound(rows: seq<Row>) {
    forall i :: 0 <= i < |rows| ==> Sound(rows[i])
  }

  lemma {:induction false} AppendingChangesNothingBefore(rows: seq<Row>, more: seq<Row>, i: nat)
    requires i <= |rows|
    ensures PendingBefore(rows + more, i) == PendingBefore(rows, i)
  {
    if i == 0 {
    } else {
      AppendingChangesNothingBefore(rows, more, i - 1);
    }
  }

  /** What one round does to an event that was already there. */
  lemma {:induction false} StepAt(rows: seq<Row>, r: Round, i: nat)
    requires i < |rows|
    ensures Step(rows, r)[i] == RowAfter(rows, r.limit, r.publisher, r.now, i)
  {
    assert Step(rows, r)[i] == RowAfter(rows + r.appended, r.limit, r.publisher, r.now, i);
    AppendingChangesNothingBefore(rows, r.appended, i);
    assert (rows + r.appended)[i] == rows[i];
  }

  lemma {:induction false} StepKeepsSound(rows: seq<Row>, r: Round)
    requires AllSound(rows) && AppendsNewRows(r)
    ensures AllSound(Step(rows, r))
    ensures forall i :: 0 <= i < |rows| && !Pending(rows[i]) ==> Step(rows, r)[i] == rows[i]
    ensures forall i :: 0 <= i < |rows| ==> rows[i].attempts <= Step(rows, r)[i].attempts
  {
    var longer := rows + r.appended;
    forall i | 0 <= i < |longer|
      ensures Sound(Step(rows, r)[i])
    {
      if i >= |rows| {
        assert longer[i] in r.appended;
      }
      assert Sound(longer[i]);
      assert Step(rows, r)[i] == RowAfter(longer, r.limit, r.publisher, r.now, i);
    }
    forall i | 0 <= i < |rows|
      ensures !Pending(rows[i]) ==> Step(rows, r)[i] == rows[i]
      ensures rows[i].attempts <= Step(rows, r)[i].attempts
    {
      StepAt(rows, r, i);
    }
  }

  /** No event is published and dead-lettered, none is attempted more than five times, and an
      event that was published or dead-lettered is never touched again. */
  lemma {:induction false} SettledStaysSettled(rows: seq<Row>, rounds: seq<Round>)
    requires AllSound(rows) && forall r <- rounds :: AppendsNewRows(r)
    ensures AllSound(Exec(rows, rounds))
    ensures forall i :: 0 <= i < |rows| && (rows[i].published.Some? || rows[i].dead) ==>
              Exec(rows, rounds)[i] == rows[i]
    ensures forall i :: 0 <= i < |rows| ==> Exec(rows, rounds)[i].attempts >= rows[i].attempts
  {
    if rounds == [] {
    } else {
      var n := |rounds| - 1;
      SettledStaysSettled(rows, rounds[..n]);
      StepKeepsSound(Exec(rows, rounds[..n]), rounds[n]);
      assert forall i :: 0 <= i < |rows| && !Pending(rows[i]) ==> !Pending(Exec(rows, rounds[..n])[i]);
    }
  }

  // ----- Starvation -----

  lemma {:induction false} ExecJoins(rows: seq<Row>, first: seq<Round>, second: seq<Round>)
    ensures Exec(rows, first + second) == Exec(Exec(rows, first), second)
  {
    if second == [] {
      assert first + second == first;
    } else {
      var n := |second| - 1;
      ExecJoins(rows, first, second[..n]);
      assert (first + second)[..|first + second| - 1] == first + second[..n];
    }
  }

  function Min(a: nat, b: nat): nat {
    if a < b then a else b
  }

  lemma {:induction false} PendingShrinks(rows: seq<Row>, after: seq<Row>, i: nat)
    requires i <= |rows| <= |after|
    requires forall j :: 0 <= j < i && Pending(after[j]) ==> Pending(rows[j])
    ensures PendingBefore(after, i) <= PendingBefore(rows, i)
  {
    if i == 0 {
    } else {
      PendingShrinks(rows, after, i - 1);
    }
  }

  lemma {:induction false} RunShrinksPending(rows: seq<Row>, rounds: seq<Round>, i: nat)
    requires i <= |rows| && AllSound(rows) && forall r <- rounds :: AppendsNewRows(r)
    ensures PendingBefore(Exec(rows, rounds), i) <= PendingBefore(rows, i)
  {
    SettledStaysSettled(rows, rounds);
    PendingShrinks(rows, Exec(rows, rounds), i);
  }

  /** A row that no attempt was made on is the row it was. */
  lemma {:induction false} UnattemptedIsUnchanged(rows: seq<Row>, rounds: seq<Round>, i: nat)
    requires i < |rows| && AllSound(rows) && forall r <- rounds :: AppendsNewRows(r)
    requires Exec(rows, rounds)[i].attempts == rows[i].attempts
    ensures Exec(rows, rounds)[i] == rows[i]
  {
    if rounds == [] {
    } else {
      var n := |rounds| - 1;
      var s := Exec(rows, rounds[..n]);
      SettledStaysSettled(rows, rounds[..n]);
      StepKeepsSound(s, rounds[n]);
      UnattemptedIsUnchanged(rows, rounds[..n], i);
      StepAt(s, rounds[n], i);
    }
  }

  /** A row among the first limit pending ones is attempted in every batch until it is settled. */
  lemma {:induction false} FirstRowsAreWorkedOn(rows: seq<Row>, rounds: seq<Round>, limit: nat, j: nat)
    requires j < |rows| && AllSound(rows) && Chosen(rows, limit, j)
    requires forall r <- rounds :: AppendsNewRows(r) && r.limit >= limit
    ensures var after := Exec(rows, rounds)[j]; !Pending(after) || after.attempts >= rows[j].attempts + |rounds|
  {
    if rounds == [] {
    } else {
      var n := |rounds| - 1;
      var s := Exec(rows, rounds[..n]);
      FirstRowsAreWorkedOn(rows, rounds[..n], limit, j);
      SettledStaysSettled(rows, rounds[..n]);
      RunShrinksPending(rows, rounds[..n], j);
      StepKeepsSound(s, rounds[n]);
      StepAt(s, rounds[n], j);
    }
  }

  lemma {:induction false} SettledAreGone(rows: seq<Row>, after: seq<Row>, limit: nat, i: nat)
    requires i <= |rows| <= |after|
    requires forall j :: 0 <= j < i && Pending(after[j]) ==> Pending(rows[j]) && !Chosen(rows, limit, j)
    ensures PendingBefore(after, i) + Min(limit, PendingBefore(rows, i)) <= PendingBefore(rows, i)
  {
    if i == 0 {
    } else {
      SettledAreGone(rows, after, limit, i - 1);
    }
  }

  /** Five batches settle the first limit pending rows. */
  lemma {:induction false} FiveBatches(rows: seq<Row>, rounds: seq<Round>, limit: nat, i: nat)
    requires i <= |rows| && AllSound(rows) && |rounds| == MAX_ATTEMPTS
    requires forall r <- rounds :: AppendsNewRows(r) && r.limit >= limit
    ensures PendingBefore(Exec(rows, rounds), i) + Min(limit, PendingBefore(rows, i)) <= PendingBefore(rows, i)
  {
    var after := Exec(rows, rounds);
    SettledStaysSettled(rows, rounds);
    forall j | 0 <= j < i && Pending(after[j])
      ensures Pending(rows[j]) && !Chosen(rows, limit, j)
    {
      assert Sound(after[j]);
      if Chosen(rows, limit, j) { FirstRowsAreWorkedOn(rows, rounds, limit, j); }
    }
    SettledAreGone(rows, after, limit, i);
  }

  lemma {:induction false} FactorIsLess(a: int, b: int, c: int)
    requires c >= 1 && a * c < b * c
    ensures a < b
  {
    assert (b - a) * c > 0;
  }

  lemma {:induction false} OneGroupLess(k: nat, fewer: nat, limit: nat)
    requires limit >= 1 && fewer + limit <= k
    ensures fewer / limit + 1 <= k / limit
  {
    var q, p := fewer / limit, k / limit;
    assert q * limit <= fewer && k < p * limit + limit;
    FactorIsLess(q + 1, p + 1, limit);
  }

  /** A pending event with k older pending ones is attempted within 5 * floor(k / limit) + 1 batches,
      whatever the publisher does and however many events are appended meanwhile. */
  lemma {:induction false} NoStarvation(rows: seq<Row>, rounds: seq<Round>, i: nat, limit: nat)
    requires i < |rows| && AllSound(rows) && Pending(rows[i]) && limit >= 1
    requires forall r <- rounds :: AppendsNewRows(r) && r.limit >= limit
    requires |rounds| >= 5 * (PendingBefore(rows, i) / limit) + 1
    ensures Exec(rows, rounds)[i].attempts > rows[i].attempts
    decreases PendingBefore(rows, i)
  {
    var k := PendingBefore(rows, i);
    if k < limit {
      FirstRowsAreWorkedOn(rows, rounds, limit, i);
      SettledStaysSettled(rows, rounds);
      if Exec(rows, rounds)[i].attempts == rows[i].attempts { UnattemptedIsUnchanged(rows, rounds, i); }
    } else {
      assert k / limit >= 1 by { OneGroupLess(k, 0, limit); }
      var first, rest := rounds[..MAX_ATTEMPTS], rounds[MAX_ATTEMPTS..];
      var s := Exec(rows, first);
      assert rounds == first + rest;
      ExecJoins(rows, first, rest);
      SettledStaysSettled(rows, first);
      SettledStaysSettled(s, rest);
      if s[i].attempts == rows[i].attempts {
        UnattemptedIsUnchanged(rows, first, i);
        FiveBatches(rows, first, limit, i);
        OneGroupLess(k, PendingBefore(s, i), limit);
        NoStarvation(s, rest, i, limit);
      }
    }
  }

  // ----- The bound is met -----

  function AllDown(size: nat): (p: Publisher)
    ensures forall k: nat :: k < size ==> k in p && p[k] == "down"
  {
    if size == 0 then map[] else AllDown(size - 1)[size - 1 := "down"]
  }

  /** Batches in which every attempt fails and nothing is appended. */
  function Failing(n: nat, limit: nat, size: nat): (rounds: seq<Round>)
    ensures |rounds| == n && forall r <- rounds :: r == Round([], limit, AllDown(size), 0)
  {
    seq(n, _ => Round([], limit, AllDown(size), 0))
  }

  ghost predicate NothingAttempted(rows: seq<Row>) {
    forall j :: 0 <= j < |rows| && Pending(rows[j]) ==> rows[j].attempts == 0
  }

  /** The first limit pending rows have failed n times, the others are as they were. */
  ghost predicate FailedTimes(rows: seq<Row>, limit: nat, n: nat, s: seq<Row>) {
    && |s| == |rows|
    && forall j :: 0 <= j < |rows| ==>
         if Chosen(rows, limit, j) then
           s[j].published.None? && s[j].attempts == n && (s[j].dead <==> n >= MAX_ATTEMPTS)
         else s[j] == rows[j]
  }

  lemma {:induction false} FailuresStayPending(rows: seq<Row>, limit: nat, n: nat, s: seq<Row>, i: nat)
    requires FailedTimes(rows, limit, n, s) && n < MAX_ATTEMPTS && i <= |rows|
    ensures PendingBefore(s, i) == PendingBefore(rows, i)
  {
    if i == 0 {
    } else {
      FailuresStayPending(rows, limit, n, s, i - 1);
    }
  }

  lemma {:induction false} FailOnce(rows: seq<Row>, limit: nat, n: nat, s: seq<Row>)
    requires FailedTimes(rows, limit, n, s) && n < MAX_ATTEMPTS
    ensures FailedTimes(rows, limit, n + 1, Step(s, Round([], limit, AllDown(|rows|), 0)))
  {
    var r := Round([], limit, AllDown(|rows|), 0);
    assert s + r.appended == s;
    forall j | 0 <= j < |rows|
      ensures Step(s, r)[j] == if Chosen(rows, limit, j) then Attempted(s[j], Some("down"), 0) else s[j]
    {
      FailuresStayPending(rows, limit, n, s, j);
      StepAt(s, r, j);
    }
  }

  lemma {:induction false} FailingRun(rows: seq<Row>, limit: nat, n: nat)
    requires NothingAttempted(rows) && n <= MAX_ATTEMPTS
    ensures FailedTimes(rows, limit, n, Exec(rows, Failing(n, limit, |rows|)))
  {
    if n == 0 {
    } else {
      FailingRun(rows, limit, n - 1);
      assert Failing(n, limit, |rows|)[..n - 1] == Failing(n - 1, limit, |rows|);
      FailOnce(rows, limit, n - 1, Exec(rows, Failing(n - 1, limit, |rows|)));
    }
  }

  lemma {:induction false} OnlyFirstAreGone(rows: seq<Row>, limit: nat, s: seq<Row>, i: nat)
    requires FailedTimes(rows, limit, MAX_ATTEMPTS, s) && i <= |rows|
    ensures PendingBefore(s, i) == PendingBefore(rows, i) - Min(limit, PendingBefore(rows, i))
  {
    if i == 0 {
    } else {
      OnlyFirstAreGone(rows, limit, s, i - 1);
    }
  }

  lemma {:induction false} GroupsOf(k: nat, limit: nat)
    requires 1 <= limit <= k
    ensures (k - limit) / limit == k / limit - 1
  {
    var q, p := (k - limit) / limit, k / limit;
    OneGroupLess(k, k - limit, limit);
    assert p * limit <= k && k - limit < q * limit + limit;
    FactorIsLess(p, q + 2, limit);
  }

  /** The bound is met for every limit: if nothing was attempted yet and the publisher is down, the event is
      left alone for the whole 5 * floor(k / limit) batches and attempted in the one after them. */
  lemma {:induction false} BoundIsMet(rows: seq<Row>, i: nat, limit: nat)
    requires i < |rows| && NothingAttempted(rows) && Pending(rows[i]) && limit >= 1
    ensures var n := 5 * (PendingBefore(rows, i) / limit);
            && Exec(rows, Failing(n, limit, |rows|))[i] == rows[i]
            && Exec(rows, Failing(n + 1, limit, |rows|))[i].attempts == rows[i].attempts + 1
    decreases PendingBefore(rows, i)
  {
    var k := PendingBefore(rows, i);
    var n := MAX_ATTEMPTS * (k / limit);
    if k < limit {
      assert k / limit == 0;
      FailingRun(rows, limit, 1);
    } else {
      var group := Failing(MAX_ATTEMPTS, limit, |rows|);
      var s := Exec(rows, group);
      FailingRun(rows, limit, MAX_ATTEMPTS);
      OnlyFirstAreGone(rows, limit, s, i);
      GroupsOf(k, limit);
      BoundIsMet(s, i, limit);
      var left := n - MAX_ATTEMPTS;
      assert Failing(n, limit, |rows|) == group + Failing(left, limit, |rows|);
      assert Failing(n + 1, limit, |rows|) == group + Failing(left + 1, limit, |rows|);
      ExecJoins(rows, group, Failing(left, limit, |rows|));
      ExecJoins(rows, group, Failing(left + 1, limit, |rows|));
    }
  }

  // ----- Draining -----

  function Remaining(r: Row): nat {
    if Pending(r) && r.attempts < MAX_ATTEMPTS then MAX_ATTEMPTS - r.attempts else 0
  }

  /** Attempts that rows before i can still use up. */
  function WorkBefore(rows: seq<Row>, i: nat): nat
    requires i <= |rows|
  {
    if i == 0 then 0 else WorkBefore(rows, i - 1) + Remaining(rows[i - 1])
  }

  lemma {:induction false} WorkIsBounded(rows: seq<Row>, i: nat)
    requires i <= |rows| && AllSound(rows)
    ensures PendingBefore(rows, i) <= WorkBefore(rows, i) <= MAX_ATTEMPTS * PendingBefore(rows, i)
  {
    if i == 0 {
    } else {
      WorkIsBounded(rows, i - 1);
      assert Sound(rows[i - 1]);
    }
  }

  /** A batch takes at least one unit of work from every row it chooses before i. */
  lemma {:induction false} BatchUsesWork(rows: seq<Row>, r: Round, i: nat)
    requires i <= |rows| && AllSound(rows)
    ensures WorkBefore(Step(rows, r), i) + Min(PendingBefore(rows, i), r.limit) <= WorkBefore(rows, i)
  {
    if i == 0 {
    } else {
      BatchUsesWork(rows, r, i - 1);
      assert Sound(rows[i - 1]);
      StepAt(rows, r, i - 1);
    }
  }

  lemma {:induction false} WorkRunsOut(rows: seq<Row>, rounds: seq<Round>)
    requires AllSound(rows) && forall r <- rounds :: r.appended == [] && r.limit >= 1
    ensures |Exec(rows, rounds)| == |rows|
    ensures var left := WorkBefore(Exec(rows, rounds), |rows|);
            left == 0 || left + |rounds| <= WorkBefore(rows, |rows|)
  {
    if rounds == [] {
    } else {
      var n := |rounds| - 1;
      WorkRunsOut(rows, rounds[..n]);
      SettledStaysSettled(rows, rounds[..n]);
      var s := Exec(rows, rounds[..n]);
      BatchUsesWork(s, rounds[n], |s|);
      WorkIsBounded(s, |s|);
    }
  }

  lemma {:induction false} NonePending(rows: seq<Row>, i: nat)
    requires i <= |rows| && PendingBefore(rows, i) == 0
    ensures forall j :: 0 <= j < i ==> !Pending(rows[j])
  {
    if i == 0 {
    } else {
      NonePending(rows, i - 1);
    }
  }

  /** Remaining attempts are a measure: every batch over pending rows lowers it, so without new
      events a queue is empty after as many batches as it has attempts left. */
  lemma {:induction false} QueueDrains(rows: seq<Row>, rounds: seq<Round>)
    requires AllSound(rows) && forall r <- rounds :: r.appended == [] && r.limit >= 1
    requires |rounds| >= WorkBefore(rows, |rows|)
    ensures |Exec(rows, rounds)| == |rows| && forall r <- Exec(rows, rounds) :: !Pending(r)
  {
    WorkRunsOut(rows, rounds);
    var s := Exec(rows, rounds);
    SettledStaysSettled(rows, rounds);
    WorkIsBounded(s, |s|);
    NonePending(s, |s|);
  }
}
