/** The observation window of a release program: started, reset by severe incidents, completed. */
module Observation {
  import opened Basics

  datatype Status = Observing | Completed

  datatype Window = Window(start: int, end: int, status: Status, count: nat, resets: nat, completedAt: Option<int>)

  /** A support ticket, a service status incident or a pilot incident. */
  datatype Incident =
    | Support(severity: string, at: int)
    | ServiceStatus(impact: string, at: int)
    | Pilot(severity: string, at: int)

  predicate Severe(i: Incident) {
    match i
    case Support(s, _) => s == "P0" || s == "P1"
    case ServiceStatus(s, _) => s == "critical" || s == "major"
    case Pilot(s, _) => s == "P0" || s == "P1"
  }

  predicate Counted(i: Incident, start: int, now: int) {
    Severe(i) && start <= i.at <= now
  }

  function Total(incidents: seq<Incident>, start: int, now: int): nat {
    if incidents == [] then 0
    else Total(incidents[1..], start, now) + if Counted(incidents[0], start, now) then 1 else 0
  }

  function Current(windows: seq<Window>): Option<nat> {
    if windows == [] then None
    else
      var n := |windows| - 1;
      match Current(windows[..n])
      case Some(i) => Some(i)
      case None => if windows[n].status == Observing then Some(n) else None
  }

  function Fresh(days: int, now: int): Window {
    Window(now, now + days * DAY, Observing, 0, 0, None)
  }

  /** A reset always grants thirty days, whatever the window was started with. */
  function Checked(w: Window, incidents: seq<Incident>, now: int): Window {
    var total := Total(incidents, w.start, now);
    if total > w.count then w.(count := total, resets := w.resets + 1, start := now, end := now + 30 * DAY)
    else if now >= w.end && w.count == 0 then w.(status := Completed, completedAt := Some(now))
    else w
  }

  datatype Event = EStart(days: int, now: int) | ECheck(incidents: seq<Incident>, now: int)

  function Step(windows: seq<Window>, e: Event): seq<Window> {
    match e
    case EStart(days, now) => if Current(windows).Some? then windows else windows + [Fresh(days, now)]
    case ECheck(incidents, now) =>
      match Current(windows)
      case None => windows
      case Some(i) => if i < |windows| then windows[i := Checked(windows[i], incidents, now)] else windows
  }

  /** The windows of one program after a run; the incident tables may change between checks in any way. */
  function Exec(events: seq<Event>): seq<Window> {
    if events == [] then [] else Step(Exec(events[..|events| - 1]), events[|events| - 1])
  }

  method CountIncidents(incidents: seq<Incident>, start: int, now: int) returns (total: nat)
    ensures total == Total(incidents, start, now)
  {
    total := 0;
    for k := 0 to |incidents|
      invariant total + Total(incidents[k..], start, now) == Total(incidents, start, now)
    {
      if Severe(incidents[k]) && start <= incidents[k].at <= now {
        total := total + 1;
      }
    }
  }

  lemma {:induction false} FirstStaysCurrent(windows: seq<Window>, k: nat)
    requires k < |windows| && Current(windows[..k]) == None && windows[k].status == Observing
    ensures Current(windows) == Some(k)
  {
    var n := |windows| - 1;
    if k == n {
    } else {
      assert windows[..n][..k] == windows[..k];
      FirstStaysCurrent(windows[..n], k);
    }
  }

  class Program {
    var windows: seq<Window>

    constructor ()
      ensures windows == Exec([])
    {
      windows := [];
    }

    method FindCurrent() returns (i: Option<nat>)
      ensures i == Current(windows)
      ensures i.Some? ==> i.value < |windows| && windows[i.value].status == Observing
    {
      for k := 0 to |windows|
        invariant Current(windows[..k]) == None
      {
        assert windows[..k + 1][..k] == windows[..k];
        if windows[k].status == Observing {
          FirstStaysCurrent(windows, k);
          return Some(k);
        }
      }
      assert windows[..|windows|] == windows;
      i := None;
    }

    method StartObservationWindow(days: int, now: int) returns (window: Window)
      modifies this
      ensures windows == Step(old(windows), EStart(days, now))
      ensures window in windows && window.status == Observing
    {
      var i := FindCurrent();
      if i.Some? { return windows[i.value]; }
      window := Window(now, now + days * DAY, Observing, 0, 0, None);
      windows := windows + [window];
    }

    method CheckObservationWindow(incidents: seq<Incident>, now: int) returns (window: Option<Window>)
      modifies this
      ensures windows == Step(old(windows), ECheck(incidents, now))
      ensures window.None? <==> Current(old(windows)).None?
      ensures window.Some? ==> window.value in windows
    {
      var i := FindCurrent();
      if i.None? { return None; }
      var w := windows[i.value];
      var total := CountIncidents(incidents, w.start, now);
      if total > w.count {
        w := w.(count := total, resets := w.resets + 1, start := now, end := now + 30 * DAY);
      } else if now >= w.end && w.count == 0 {
        w := w.(status := Completed, completedAt := Some(now));
      }
      windows := windows[i.value := w];
      assert windows[i.value] == w;
      window := Some(w);
    }
  }

  lemma {:induction false} TotalIsZero(incidents: seq<Incident>, start: int, now: int)
    ensures Total(incidents, start, now) == 0 <==> forall i <- incidents :: !Counted(i, start, now)
  {
    if incidents == [] {
    } else {
      TotalIsZero(incidents[1..], start, now);
      assert forall i :: i in incidents <==> i == incidents[0] || i in incidents[1..];
    }
  }

  /** No incident of the period has one of the severities that count: P0 or P1 for support tickets and pilot
      incidents, critical or major for the service status. Both ends of the period belong to it. */
  ghost predicate IsQuiet(incidents: seq<Incident>, start: int, now: int) {
    forall at :: start <= at <= now ==>
      && Support("P0", at) !in incidents && Support("P1", at) !in incidents
      && ServiceStatus("critical", at) !in incidents && ServiceStatus("major", at) !in incidents
      && Pilot("P0", at) !in incidents && Pilot("P1", at) !in incidents
  }

  lemma {:induction false} QuietMeansNoneCounted(incidents: seq<Incident>, start: int, now: int)
    ensures IsQuiet(incidents, start, now) <==> forall i <- incidents :: !Counted(i, start, now)
  {
    if i :| i in incidents && Counted(i, start, now) {
      match i
      case Support(s, at) => assert s == "P0" || s == "P1";
      case ServiceStatus(s, at) => assert s == "critical" || s == "major";
      case Pilot(s, at) => assert s == "P0" || s == "P1";
    }
  }

  // ----- Runs -----

  /** The event that completed a window: late enough, and without any severe incident since its start. */
  ghost predicate CompletedBy(w: Window, e: Event) {
    && e.ECheck? && w.completedAt == Some(e.now) && w.end <= e.now
    && forall i <- e.incidents :: !Counted(i, w.start, e.now)
  }

  ghost predicate WindowSound(w: Window, events: seq<Event>) {
    && (w.resets == 0 <==> w.count == 0)
    && (w.resets == 0 ==> exists e :: e in events && e.EStart? && w.start == e.now && w.end == e.now + e.days * DAY)
    && (w.status == Completed ==> w.resets == 0 && exists e :: e in events && CompletedBy(w, e))
    && (w.status == Observing ==> w.completedAt == None)
  }

  /** Only the youngest window can be under observation. */
  ghost predicate Sound(windows: seq<Window>, events: seq<Event>) {
    && (forall w <- windows :: WindowSound(w, events))
    && (forall k :: 0 <= k < |windows| - 1 ==> windows[k].status == Completed)
  }

  lemma {:induction false} NoneBefore(windows: seq<Window>)
    requires forall k :: 0 <= k < |windows| ==> windows[k].status == Completed
    ensures Current(windows) == None
  {
    if windows == [] {
    } else {
      NoneBefore(windows[..|windows| - 1]);
    }
  }

  lemma {:induction false} CurrentIsLast(windows: seq<Window>)
    requires forall k :: 0 <= k < |windows| - 1 ==> windows[k].status == Completed
    ensures Current(windows) ==
            if windows != [] && windows[|windows| - 1].status == Observing then Some(|windows| - 1)
            else None
  {
    if windows != [] {
      NoneBefore(windows[..|windows| - 1]);
    }
  }

  lemma {:induction false} LaterEvents(w: Window, events: seq<Event>, e: Event)
    requires WindowSound(w, events)
    ensures WindowSound(w, events + [e])
  {
    assert forall x <- events :: x in events + [e];
  }

  lemma {:induction false} CheckKeepsSound(w: Window, events: seq<Event>, e: Event)
    requires WindowSound(w, events) && w.status == Observing && e.ECheck?
    ensures WindowSound(Checked(w, e.incidents, e.now), events + [e])
  {
    LaterEvents(w, events, e);
    TotalIsZero(e.incidents, w.start, e.now);
    assert e in events + [e];
    var v := Checked(w, e.incidents, e.now);
    assert v.status == Completed ==> CompletedBy(v, e);
  }

  lemma {:induction false} RunsAreSound(events: seq<Event>)
    ensures Sound(Exec(events), events)
  {
    if events == [] {
    } else {
      var n := |events| - 1;
      var before, e := events[..n], events[n];
      RunsAreSound(before);
      var s, t := Exec(before), Exec(events);
      assert events == before + [e];
      CurrentIsLast(s);
      forall w | w in t
        ensures WindowSound(w, events)
      {
        if w in s {
          LaterEvents(w, before, e);
        } else if e.ECheck? {
          assert s[|s| - 1] in s;
          CheckKeepsSound(s[|s| - 1], before, e);
        } else {
          assert e in events;
        }
      }
    }
  }

  /** A window completes only if it was never reset, after the full length it was started with,
      and by a check that saw no severe incident between its start and that moment. */
  lemma {:induction false} CompletionIsEarned(events: seq<Event>, w: Window)
    requires w in Exec(events) && w.status == Completed
    ensures w.resets == 0 && w.completedAt.Some?
    ensures exists started :: started in events && started.EStart? && started.now == w.start
                              && w.completedAt.value - w.start >= started.days * 86_400_000_000
    ensures exists check :: check in events && check.ECheck? && check.now == w.completedAt.value
                            && IsQuiet(check.incidents, w.start, w.completedAt.value)
  {
    RunsAreSound(events);
    var check :| check in events && CompletedBy(w, check);
    assert check.now == w.completedAt.value;
    QuietMeansNoneCounted(check.incidents, w.start, w.completedAt.value);
  }

  /** Conversely a check completes the window exactly when none of this stands in the way. */
  lemma {:induction false} CompletesExactlyWhen(events: seq<Event>, e: Event)
    requires e.ECheck? && Exec(events) != []
    ensures var w := Exec(events)[|Exec(events)| - 1];
            var after := Exec(events + [e])[|Exec(events)| - 1];
            w.status == Observing ==>
              (after.status == Completed <==>
                 w.resets == 0 && w.end <= e.now && IsQuiet(e.incidents, w.start, e.now))
  {
    RunsAreSound(events);
    var s := Exec(events);
    CurrentIsLast(s);
    assert s[|s| - 1] in s;
    assert (events + [e])[..|events|] == events;
    TotalIsZero(e.incidents, s[|s| - 1].start, e.now);
    QuietMeansNoneCounted(e.incidents, s[|s| - 1].start, e.now);
  }

  /** A check that finds more severe incidents than the one before it restarts the window for thirty days
      from then on, however long it was meant to be; no other check moves its bounds. */
  lemma {:induction false} ResetGrantsThirtyDays(events: seq<Event>, e: Event)
    requires e.ECheck? && Exec(events) != []
    ensures var w := Exec(events)[|Exec(events)| - 1];
            var after := Exec(events + [e])[|Exec(events)| - 1];
            w.status == Observing ==>
              if Total(e.incidents, w.start, e.now) > w.count then
                && after.status == Observing && after.resets == w.resets + 1
                && after.count == Total(e.incidents, w.start, e.now)
                && after.start == e.now && after.end == e.now + 2_592_000_000_000
              else after.resets == w.resets && after.count == w.count && after.start == w.start && after.end == w.end
  {
    RunsAreSound(events);
    CurrentIsLast(Exec(events));
    assert (events + [e])[..|events|] == events;
  }

  lemma {:induction false} ExecAppend(events: seq<Event>, e: Event)
    ensures Exec(events + [e]) == Step(Exec(events), e)
  {
    assert (events + [e])[..|events|] == events;
  }

  lemma {:induction false} StepOnReset(t: seq<Window>, events: seq<Event>, e: Event)
    requires Sound(t, events) && t != [] && t[|t| - 1].status == Observing && t[|t| - 1].resets > 0
    ensures var u := Step(t, e);
            && |u| == |t| && u[..|t| - 1] == t[..|t| - 1]
            && u[|t| - 1].status == Observing && u[|t| - 1].resets > 0
  {
    CurrentIsLast(t);
    assert t[|t| - 1] in t;
  }

  /** Once reset, a window is observed for ever, and because it is, no other window is ever
      started: the program never completes an observation again. */
  lemma {:induction false} OnceResetNeverCompletes(events: seq<Event>, later: seq<Event>)
    requires Exec(events) != [] && var w := Exec(events)[|Exec(events)| - 1]; w.status == Observing && w.resets > 0
    ensures var s, t := Exec(events), Exec(events + later);
            && |t| == |s| && t[..|s| - 1] == s[..|s| - 1]
            && t[|s| - 1].status == Observing && t[|s| - 1].resets > 0
  {
    if later == [] {
      assert events + later == events;
    } else {
      var n := |later| - 1;
      var before := events + later[..n];
      OnceResetNeverCompletes(events, later[..n]);
      RunsAreSound(before);
      StepOnReset(Exec(before), before, later[n]);
      ExecAppend(before, later[n]);
      assert events + later == before + [later[n]];
    }
  }

  function Incidents(n: nat, at: int): (incidents: seq<Incident>)
    ensures |incidents| == n
  {
    if n == 0 then [] else [Pilot("P0", at)] + Incidents(n - 1, at)
  }

  lemma {:induction false} IncidentsAreCounted(n: nat, start: int, at: int)
    requires start <= at
    ensures Total(Incidents(n, at), start, at) == n
  {
    if n == 0 {
    } else {
      IncidentsAreCounted(n - 1, start, at);
      assert Incidents(n, at)[1..] == Incidents(n - 1, at);
    }
  }

  /** Resets do happen: every window under observation is one check away from being observed for
      ever, and the first window of a program is started by its first call. */
  lemma {:induction false} EveryWindowCanBeReset(events: seq<Event>, now: int)
    requires Exec(events) != []
    requires var w := Exec(events)[|Exec(events)| - 1]; w.status == Observing && w.start <= now
    ensures exists e :: var t := Exec(events + [e]);
              |t| == |Exec(events)| && t[|t| - 1].status == Observing && t[|t| - 1].resets > 0
    ensures forall days, at :: Exec([EStart(days, at)]) == [Fresh(days, at)]
  {
    var s := Exec(events);
    var w := s[|s| - 1];
    var e := ECheck(Incidents(w.count + 1, now), now);
    RunsAreSound(events);
    CurrentIsLast(s);
    IncidentsAreCounted(w.count + 1, w.start, now);
    ExecAppend(events, e);
    assert Exec(events + [e])[|s| - 1] == Checked(w, e.incidents, now);
    forall days, at
      ensures Exec([EStart(days, at)]) == [Fresh(days, at)]
    {
      ExecAppend([], EStart(days, at));
      assert [] + [EStart(days, at)] == [EStart(days, at)];
    }
  }
}
