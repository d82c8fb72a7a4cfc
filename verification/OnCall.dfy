/** On-call coverage: a sweep over sorted shifts against the meaning of "no gap". */
module OnCall {
  import opened Basics
  import opened Sorting

  datatype Shift = Shift(responder: string, role: string, start: int, end: int)

  predicate IsPrimary(s: Shift) {
    s.role == "primary"
  }

  /** Somebody has primary duty at this instant. */
  predicate Covered(shifts: seq<Shift>, t: int): (covered: bool)
    ensures covered <==> exists s :: s in shifts && s.role == "primary" && s.start <= t && t < s.end
  {
    exists i :: 0 <= i < |shifts| && IsPrimary(shifts[i]) && shifts[i].start <= t < shifts[i].end
  }

  predicate Overlaps(s: Shift, now: int, end: int) {
    s.end > now && s.start < end
  }

  predicate SortedByStart(shifts: seq<Shift>) {
    forall i, j :: 0 <= i < j < |shifts| ==> shifts[i].start <= shifts[j].start
  }

  // ----- The query -----

  predicate StartsAfter(a: Shift, b: Shift) {
    a.start > b.start
  }

  function Overlapping(shifts: seq<Shift>, now: int, end: int): seq<Shift> {
    if shifts == [] then []
    else (if Overlaps(shifts[0], now, end) then [shifts[0]] else []) + Overlapping(shifts[1..], now, end)
  }

  /** The shifts that overlap the period, in order of their starts. */
  function Selected(shifts: seq<Shift>, now: int, end: int): seq<Shift> {
    Sorted(StartsAfter, Overlapping(shifts, now, end))
  }

  lemma {:induction false} OverlappingAre(shifts: seq<Shift>, now: int, end: int)
    ensures forall x :: x in Overlapping(shifts, now, end) <==> x in shifts && Overlaps(x, now, end)
  {
    if shifts == [] {
    } else {
      OverlappingAre(shifts[1..], now, end);
      assert forall x :: x in shifts <==> x == shifts[0] || x in shifts[1..];
    }
  }

  lemma {:induction false} SelectedIsTheQuery(shifts: seq<Shift>, now: int, end: int)
    ensures SortedByStart(Selected(shifts, now, end))
    ensures forall x :: x in Selected(shifts, now, end) <==> x in shifts && x.end > now && x.start < end
  {
    OverlappingAre(shifts, now, end);
    SortedInOrder(StartsAfter, Overlapping(shifts, now, end));
    var rows := Selected(shifts, now, end);
    assert forall i, j :: 0 <= i < j < |rows| ==> !StartsAfter(rows[i], rows[j]);
  }

  function Primaries(shifts: seq<Shift>): seq<Shift> {
    if shifts == [] then [] else (if IsPrimary(shifts[0]) then [shifts[0]] else []) + Primaries(shifts[1..])
  }

  lemma {:induction false} PrimariesStaySorted(shifts: seq<Shift>)
    requires SortedByStart(shifts)
    ensures SortedByStart(Primaries(shifts))
    ensures forall x :: x in Primaries(shifts) <==> x in shifts && IsPrimary(x)
  {
    if shifts == [] {
    } else {
      var rest := Primaries(shifts[1..]);
      PrimariesStaySorted(shifts[1..]);
      assert shifts == [shifts[0]] + shifts[1..];
      forall k | 0 <= k < |rest|
        ensures shifts[0].start <= rest[k].start
      {
        assert rest[k] in rest;
        var j :| 0 <= j < |shifts[1..]| && shifts[1..][j] == rest[k];
        assert shifts[j + 1] == rest[k];
      }
    }
  }

  // ----- The sweep -----

  function Max(a: int, b: int): int {
    if a > b then a else b
  }

  /** Where the sweep stops short, nobody has duty. */
  lemma {:induction false} UncoveredAt(shifts: seq<Shift>, primaries: seq<Shift>, now: int, end: int, cursor: int,
                                       i: nat)
    requires now <= cursor && i <= |primaries| && SortedByStart(primaries)
    requires forall s :: s in primaries <==> s in shifts && IsPrimary(s) && Overlaps(s, now, end)
    requires forall j :: 0 <= j < i ==> primaries[j].end <= cursor
    requires i < |primaries| ==> primaries[i].start > cursor
    ensures cursor < end ==> !Covered(shifts, cursor)
  {
    forall k | 0 <= k < |shifts| && IsPrimary(shifts[k]) && cursor < end
      ensures !(shifts[k].start <= cursor < shifts[k].end)
    {
      if shifts[k] in primaries {
        var j :| 0 <= j < |primaries| && primaries[j] == shifts[k];
        assert j < i || primaries[i].start <= primaries[j].start;
      }
    }
  }

  /** For a period of positive length: no gap, at any instant, between any overlapping, nested or
      empty shifts. A period without instants counts as covered iff some primary shift overlaps it. */
  method OncallCoverageComplete(shifts: seq<Shift>, now: int, days: int) returns (complete: bool)
    ensures days > 0 ==>
              (complete <==> forall t :: now <= t < now + days * 86_400_000_000 ==> Covered(shifts, t))
    ensures days <= 0 ==>
              (complete <==> exists s :: s in shifts && s.role == "primary"
                                         && s.end > now && s.start < now + days * 86_400_000_000)
  {
    var end := now + days * DAY;
    SelectedIsTheQuery(shifts, now, end);
    PrimariesStaySorted(Selected(shifts, now, end));
    var rows := Selected(shifts, now, end);
    var primaries := Primaries(rows);
    assert forall s :: s in primaries <==> s in shifts && IsPrimary(s) && Overlaps(s, now, end);
    if primaries == [] {
      UncoveredAt(shifts, primaries, now, end, now, 0);
      return false;
    }
    var cursor := now;
    for i := 0 to |primaries|
      invariant cursor >= now && (i > 0 ==> now < cursor < end)
      invariant forall j :: 0 <= j < i ==> primaries[j].end <= cursor
      invariant forall t :: now <= t < cursor ==> Covered(shifts, t)
    {
      var shift := primaries[i];
      assert shift in primaries;
      if shift.start > cursor {
        UncoveredAt(shifts, primaries, now, end, cursor, i);
        return false;
      }
      var k :| 0 <= k < |shifts| && shifts[k] == shift;
      forall t | cursor <= t < shift.end
        ensures Covered(shifts, t)
      {
        assert shifts[k].start <= t < shifts[k].end;
      }
      cursor := Max(cursor, shift.end);
      if cursor >= end { return true; }
    }
    UncoveredAt(shifts, primaries, now, end, cursor, |primaries|);
    complete := cursor >= end;
  }
}
