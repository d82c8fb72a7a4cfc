/** The audit log: an appending loop and a verifying loop over one hash chain per tenant. */
module AuditChain {
  import opened Basics
  import opened Sorting

  type Hash = string

  const GENESIS: Hash := "0000000000000000000000000000000000000000000000000000000000000000"

  /** What the caller says happened; times are rendered text. */
  datatype Entry = Entry(id: string, actorType: string, actorId: string, action: string,
                         aggregateType: string, aggregateId: string, aggregateVersion: int,
                         correlationId: string, causationId: Option<string>,
                         occurredAt: string, payload: map<string, string>)

  datatype AuditEvent = AuditEvent(tenantId: string, sequence: int, entry: Entry, previousHash: Hash, eventHash: Hash)

  /** The value under the hash: every stored field but the hash itself. */
  datatype Core = Core(tenantId: string, sequence: int, entry: Entry, previousHash: Hash)

  datatype OutboxRow = OutboxRow(tenantId: string, eventType: string, aggregateType: string, aggregateId: string,
                                 payload: map<string, string>, occurredAt: string)

  type Hasher = (Hash, Core) -> Hash

  ghost predicate Injective(h: Hasher) {
    forall p, c, q, d :: h(p, c) == h(q, d) ==> p == q && c == d
  }

  // ----- What a sound chain is -----

  function HashBefore(log: seq<AuditEvent>, k: nat): Hash
    requires k <= |log|
  {
    if k == 0 then GENESIS else log[k - 1].eventHash
  }

  predicate LinksAt(h: Hasher, log: seq<AuditEvent>, k: nat)
    requires k < |log|
  {
    var p, e := HashBefore(log, k), log[k];
    e.sequence == k + 1 && e.previousHash == p && e.eventHash == h(p, Core(e.tenantId, e.sequence, e.entry, p))
  }

  predicate WellLinked(h: Hasher, log: seq<AuditEvent>) {
    forall k :: 0 <= k < |log| ==> LinksAt(h, log, k)
  }

  predicate FirstBreak(h: Hasher, log: seq<AuditEvent>, k: nat) {
    k < |log| && WellLinked(h, log[..k]) && !LinksAt(h, log, k)
  }

  // ----- The query -----

  predicate NumberedAfter(a: AuditEvent, b: AuditEvent) {
    a.sequence > b.sequence
  }

  function OfTenant(table: seq<AuditEvent>, tenantId: string): seq<AuditEvent> {
    if table == [] then []
    else
      var n := |table| - 1;
      var before := OfTenant(table[..n], tenantId);
      if table[n].tenantId == tenantId then before + [table[n]] else before
  }

  /** The rows of a tenant in the order of their numbers: its log. */
  function Log(table: seq<AuditEvent>, tenantId: string): seq<AuditEvent> {
    Sorted(NumberedAfter, OfTenant(table, tenantId))
  }

  /** What the table's constraint enforces. */
  ghost predicate UniqueNumbers(table: seq<AuditEvent>) {
    forall i, j :: 0 <= i < j < |table| ==>
      table[i].tenantId != table[j].tenantId || table[i].sequence != table[j].sequence
  }

  ghost predicate InSequence(rows: seq<AuditEvent>) {
    forall i, j :: 0 <= i < j < |rows| ==> rows[i].sequence < rows[j].sequence
  }

  lemma {:induction false} OfTenantAre(table: seq<AuditEvent>, tenantId: string)
    ensures forall e :: e in OfTenant(table, tenantId) <==> e in table && e.tenantId == tenantId
  {
    if table == [] {
    } else {
      OfTenantAre(table[..|table| - 1], tenantId);
      assert table == table[..|table| - 1] + [table[|table| - 1]];
    }
  }

  lemma {:induction false} LogAre(table: seq<AuditEvent>, tenantId: string)
    ensures forall e :: e in Log(table, tenantId) <==> e in table && e.tenantId == tenantId
  {
    OfTenantAre(table, tenantId);
    SortedKeepsRows(NumberedAfter, OfTenant(table, tenantId));
  }

  lemma {:induction false} InsertedInSequence(x: AuditEvent, rows: seq<AuditEvent>)
    requires InSequence(rows) && forall y <- rows :: y.sequence != x.sequence
    ensures InSequence(Inserted(NumberedAfter, x, rows))
  {
    var n := |rows| - 1;
    if rows == [] || !NumberedAfter(rows[n], x) {
      assert rows != [] ==> rows[n] in rows;
    } else {
      var front := Inserted(NumberedAfter, x, rows[..n]);
      InsertedInSequence(x, rows[..n]);
      InsertedKeepsRows(NumberedAfter, x, rows[..n]);
      forall i | 0 <= i < |front|
        ensures front[i].sequence < rows[n].sequence
      {
        assert front[i] in front;
      }
    }
  }

  lemma {:induction false} LogOfLonger(table: seq<AuditEvent>, e: AuditEvent, tenantId: string)
    ensures Log(table + [e], tenantId) ==
            if e.tenantId == tenantId then Inserted(NumberedAfter, e, Log(table, tenantId)) else Log(table, tenantId)
  {
    assert (table + [e])[..|table|] == table;
    var before := OfTenant(table, tenantId);
    assert (before + [e])[..|before|] == before;
  }

  lemma {:induction false} LongerLogInSequence(table: seq<AuditEvent>, e: AuditEvent, tenantId: string)
    requires UniqueNumbers(table + [e]) && InSequence(Log(table, tenantId))
    ensures InSequence(Log(table + [e], tenantId))
  {
    LogOfLonger(table, e, tenantId);
    LogAre(table, tenantId);
    if e.tenantId == tenantId {
      forall x | x in Log(table, tenantId)
        ensures x.sequence != e.sequence
      {
        var i :| 0 <= i < |table| && table[i] == x;
        assert (table + [e])[i] == x && (table + [e])[|table|] == e;
      }
      InsertedInSequence(e, Log(table, tenantId));
    }
  }

  lemma {:induction false} LogInSequence(table: seq<AuditEvent>, tenantId: string)
    requires UniqueNumbers(table)
    ensures InSequence(Log(table, tenantId))
  {
    if table == [] {
    } else {
      var n := |table| - 1;
      LogInSequence(table[..n], tenantId);
      assert table == table[..n] + [table[n]];
      LongerLogInSequence(table[..n], table[n], tenantId);
    }
  }

  lemma {:induction false} LastIsSame(a: seq<AuditEvent>, b: seq<AuditEvent>)
    requires InSequence(a) && InSequence(b) && a != [] && b != [] && forall e :: e in a <==> e in b
    ensures a[|a| - 1] == b[|b| - 1]
  {
    var x, y := a[|a| - 1], b[|b| - 1];
    assert x in a && y in b;
    var i :| 0 <= i < |b| && b[i] == x;
    var j :| 0 <= j < |a| && a[j] == y;
  }

  /** A log is known by its rows. */
  lemma {:induction false} SameRowsSameLog(a: seq<AuditEvent>, b: seq<AuditEvent>)
    requires InSequence(a) && InSequence(b) && forall e :: e in a <==> e in b
    ensures a == b
  {
    assert a != [] ==> a[0] in a;
    assert b != [] ==> b[0] in b;
    if a == [] {
    } else {
      var m, n := |a| - 1, |b| - 1;
      LastIsSame(a, b);
      forall e
        ensures e in a[..m] <==> e in b[..n]
      {
        assert e in a <==> e in a[..m] || e == a[m];
        assert e in b <==> e in b[..n] || e == b[n];
      }
      SameRowsSameLog(a[..m], b[..n]);
    }
  }

  // ----- Appending -----

  function NextSequence(log: seq<AuditEvent>): int {
    if log == [] then 1 else log[|log| - 1].sequence + 1
  }

  function NextEvent(h: Hasher, tenantId: string, log: seq<AuditEvent>, entry: Entry): AuditEvent {
    var p, n := HashBefore(log, |log|), NextSequence(log);
    AuditEvent(tenantId, n, entry, p, h(p, Core(tenantId, n, entry, p)))
  }

  /** Keys of the caller's payload win over the event id. */
  function Notice(tenantId: string, entry: Entry, eventType: Option<string>): OutboxRow {
    OutboxRow(tenantId, if eventType.Some? && eventType.value != "" then eventType.value else entry.action,
              entry.aggregateType, entry.aggregateId,
              map["audit_event_id" := entry.id] + entry.payload, entry.occurredAt)
  }

  /** The notice of an event: named after its action unless the caller names it otherwise, with the payload
      and the id of the event. */
  predicate IsNoticeOf(row: OutboxRow, tenantId: string, entry: Entry, eventType: Option<string>) {
    && row.tenantId == tenantId && row.occurredAt == entry.occurredAt
    && row.aggregateType == entry.aggregateType && row.aggregateId == entry.aggregateId
    && row.eventType == (if eventType.UnwrapOr("") == "" then entry.action else eventType.value)
    && row.payload.Keys == entry.payload.Keys + {"audit_event_id"}
    && (forall key <- entry.payload :: row.payload[key] == entry.payload[key])
    && ("audit_event_id" !in entry.payload ==> row.payload["audit_event_id"] == entry.id)
  }

  lemma {:induction false} NoticeSaysIt(tenantId: string, entry: Entry, eventType: Option<string>)
    ensures IsNoticeOf(Notice(tenantId, entry, eventType), tenantId, entry, eventType)
  {}

  /** Links up to k depend only on the first k events. */
  lemma {:induction false} PrefixLinks(h: Hasher, log: seq<AuditEvent>, k: nat)
    requires k <= |log|
    ensures WellLinked(h, log[..k]) <==> forall j :: 0 <= j < k ==> LinksAt(h, log, j)
  {
    forall j | 0 <= j < k
      ensures LinksAt(h, log[..k], j) <==> LinksAt(h, log, j)
    {
      assert HashBefore(log[..k], j) == HashBefore(log, j);
    }
  }

  lemma {:induction false} LastSequence(h: Hasher, log: seq<AuditEvent>)
    requires WellLinked(h, log)
    ensures NextSequence(log) == |log| + 1
  {
    if log != [] {
      assert LinksAt(h, log, |log| - 1);
    }
  }

  /** An append neither breaks nor repairs the chain. */
  lemma {:induction false} AppendKeepsChain(h: Hasher, tenantId: string, log: seq<AuditEvent>, entry: Entry)
    ensures WellLinked(h, log + [NextEvent(h, tenantId, log, entry)]) <==> WellLinked(h, log)
  {
    var longer := log + [NextEvent(h, tenantId, log, entry)];
    PrefixLinks(h, longer, |log|);
    assert longer[..|log|] == log;
    if WellLinked(h, log) {
      LastSequence(h, log);
      assert HashBefore(longer, |log|) == HashBefore(log, |log|);
      assert LinksAt(h, longer, |log|);
    }
  }

  /** An append puts one event at the end of its tenant's log and leaves all others as they are. */
  lemma {:induction false} AppendExtendsLog(h: Hasher, table: seq<AuditEvent>, tenantId: string, entry: Entry)
    requires UniqueNumbers(table)
    ensures var e := NextEvent(h, tenantId, Log(table, tenantId), entry);
            && Log(table + [e], tenantId) == Log(table, tenantId) + [e]
            && (forall t :: t != tenantId ==> Log(table + [e], t) == Log(table, t))
            && UniqueNumbers(table + [e])
  {
    var log := Log(table, tenantId);
    var e := NextEvent(h, tenantId, log, entry);
    LogOfLonger(table, e, tenantId);
    forall t | t != tenantId
      ensures Log(table + [e], t) == Log(table, t)
    {
      LogOfLonger(table, e, t);
    }
    LogInSequence(table, tenantId);
    LogAre(table, tenantId);
    forall i | 0 <= i < |table| && table[i].tenantId == tenantId
      ensures table[i].sequence < e.sequence
    {
      assert table[i] in log;
      var k :| 0 <= k < |log| && log[k] == table[i];
    }
  }

  datatype Append = Append(tenantId: string, entry: Entry)

  /** The table after any number of appends of any tenants. */
  function TableOf(h: Hasher, appends: seq<Append>): seq<AuditEvent> {
    if appends == [] then []
    else
      var n := |appends| - 1;
      var before := TableOf(h, appends[..n]);
      before + [NextEvent(h, appends[n].tenantId, Log(before, appends[n].tenantId), appends[n].entry)]
  }

  function EntriesOf(appends: seq<Append>, tenantId: string): seq<Entry> {
    if appends == [] then []
    else
      var n := |appends| - 1;
      var before := EntriesOf(appends[..n], tenantId);
      if appends[n].tenantId == tenantId then before + [appends[n].entry] else before
  }

  /** However the appends of several tenants interleave, each tenant's log is accepted and holds
      exactly its entries in their order. */
  lemma {:induction false} BuiltLogsAreAccepted(h: Hasher, appends: seq<Append>, tenantId: string)
    ensures UniqueNumbers(TableOf(h, appends))
    ensures var log := Log(TableOf(h, appends), tenantId);
            && WellLinked(h, log) && |log| == |EntriesOf(appends, tenantId)|
            && forall k :: 0 <= k < |log| ==> log[k].entry == EntriesOf(appends, tenantId)[k]
  {
    if appends == [] {
    } else {
      var n := |appends| - 1;
      var before, last := TableOf(h, appends[..n]), appends[n];
      BuiltLogsAreAccepted(h, appends[..n], tenantId);
      AppendExtendsLog(h, before, last.tenantId, last.entry);
      if last.tenantId == tenantId {
        AppendKeepsChain(h, tenantId, Log(before, tenantId), last.entry);
      }
    }
  }

  // ----- The services -----

  class AuditTrail {
    const h: Hasher
    var table: seq<AuditEvent>
    var outbox: seq<OutboxRow>

    ghost predicate Valid()
      reads this
    {
      UniqueNumbers(table)
    }

    constructor (h: Hasher)
      ensures Valid() && this.h == h && table == [] && outbox == []
    {
      this.h, table, outbox := h, [], [];
    }

    method AppendAudit(tenantId: string, entry: Entry, eventType: Option<string>) returns (event: AuditEvent)
      requires Valid()
      modifies this
      ensures Valid()
      ensures table == old(table) + [event] && outbox == old(outbox) + [Notice(tenantId, entry, eventType)]
      ensures event == NextEvent(h, tenantId, old(Log(table, tenantId)), entry)
      ensures event.entry == entry && event.tenantId == tenantId
      ensures IsNoticeOf(outbox[|outbox| - 1], tenantId, entry, eventType)
      ensures Log(table, tenantId) == old(Log(table, tenantId)) + [event]
      ensures forall t :: t != tenantId ==> Log(table, t) == old(Log(table, t))
      ensures WellLinked(h, Log(table, tenantId)) <==> WellLinked(h, old(Log(table, tenantId)))
    {
      var rows := Log(table, tenantId);
      var sequence, previousHash := 1, GENESIS;
      if rows != [] {
        var last := rows[|rows| - 1];
        sequence, previousHash := last.sequence + 1, last.eventHash;
      }
      var core := Core(tenantId, sequence, entry, previousHash);
      event := AuditEvent(tenantId, sequence, entry, previousHash, h(previousHash, core));
      AppendExtendsLog(h, table, tenantId, entry);
      AppendKeepsChain(h, tenantId, rows, entry);
      table := table + [event];
      outbox := outbox + [Notice(tenantId, entry, eventType)];
      NoticeSaysIt(tenantId, entry, eventType);
    }

    /** Accepts exactly the well-linked logs, and names the first event that breaks the chain. */
    method VerifyAuditChain(tenantId: string) returns (ok: bool, broken: Option<string>)
      ensures ok <==> WellLinked(h, Log(table, tenantId))
      ensures ok <==> broken.None?
      ensures !ok ==>
                exists k: nat :: FirstBreak(h, Log(table, tenantId), k)
                                 && broken == Some(Log(table, tenantId)[k].entry.id)
    {
      var rows := Log(table, tenantId);
      var previous, expectedSequence := GENESIS, 1;
      for k := 0 to |rows|
        invariant previous == HashBefore(rows, k) && expectedSequence == k + 1
        invariant forall j :: 0 <= j < k ==> LinksAt(h, rows, j)
      {
        PrefixLinks(h, rows, k);
        var event := rows[k];
        if event.sequence != expectedSequence {
          assert FirstBreak(h, rows, k);
          return false, Some(event.entry.id);
        }
        var expected := h(previous, Core(event.tenantId, event.sequence, event.entry, previous));
        if event.previousHash != previous || event.eventHash != expected {
          assert FirstBreak(h, rows, k);
          return false, Some(event.entry.id);
        }
        previous, expectedSequence := event.eventHash, expectedSequence + 1;
      }
      return true, None;
    }
  }

  // ----- What verification is worth -----

  /** One hash fixes the whole history before it: accepted logs that agree on the hash of their
      n-th event agree on every event up to it. */
  lemma {:induction false} HashFixesHistory(h: Hasher, a: seq<AuditEvent>, b: seq<AuditEvent>, n: nat)
    requires Injective(h) && WellLinked(h, a) && WellLinked(h, b) && n <= |a| && n <= |b|
    requires HashBefore(a, n) == HashBefore(b, n)
    ensures a[..n] == b[..n]
  {
    if n == 0 {
    } else {
      assert LinksAt(h, a, n - 1) && LinksAt(h, b, n - 1);
      HashFixesHistory(h, a, b, n - 1);
      assert a[..n] == a[..n - 1] + [a[n - 1]] && b[..n] == b[..n - 1] + [b[n - 1]];
    }
  }

  lemma {:induction false} NumbersCountUp(h: Hasher, log: seq<AuditEvent>)
    requires WellLinked(h, log)
    ensures forall j :: 0 <= j < |log| ==> log[j].sequence == j + 1
  {
    forall j | 0 <= j < |log|
      ensures log[j].sequence == j + 1
    {
      assert LinksAt(h, log, j);
    }
  }

  /** Replacing event k of an accepted log, its sequence number kept, is accepted only if it is the
      last event and was linked anew; otherwise the break is at k, or at k + 1 when event k itself
      was linked anew. */
  lemma {:induction false} EditIsNamed(h: Hasher, log: seq<AuditEvent>, k: nat, forged: AuditEvent)
    requires Injective(h) && WellLinked(h, log) && k < |log| && forged != log[k]
    requires forged.sequence == log[k].sequence
    ensures var edited := log[k := forged];
            && (WellLinked(h, edited) <==> k == |log| - 1 && LinksAt(h, edited, k))
            && (!WellLinked(h, edited) ==> FirstBreak(h, edited, if LinksAt(h, edited, k) then k + 1 else k))
            && (LinksAt(h, edited, k) ==> forged.eventHash != log[k].eventHash)
  {
    var edited := log[k := forged];
    assert edited[..k] == log[..k];
    PrefixLinks(h, log, k);
    PrefixLinks(h, edited, k);
    assert LinksAt(h, log, k);
    assert HashBefore(edited, k) == HashBefore(log, k);
    if LinksAt(h, edited, k) {
      PrefixLinks(h, edited, k + 1);
      if k + 1 < |log| {
        assert LinksAt(h, log, k + 1);
        assert HashBefore(edited, k + 1) == forged.eventHash;
        assert !LinksAt(h, edited, k + 1);
      } else {
        assert edited[..k + 1] == edited;
      }
    }
  }

  /** Removing event k of an accepted log is noticed at the event that moved into its place,
      unless k was the last one: cutting the tail off leaves an accepted log. */
  lemma {:induction false} RemovalIsNamed(h: Hasher, log: seq<AuditEvent>, k: nat)
    requires WellLinked(h, log) && k < |log|
    ensures var shorter := log[..k] + log[k + 1..];
            && (WellLinked(h, shorter) <==> k == |log| - 1)
            && (k < |log| - 1 ==> FirstBreak(h, shorter, k))
  {
    var shorter := log[..k] + log[k + 1..];
    PrefixLinks(h, log, k);
    assert shorter[..k] == log[..k];
    if k < |log| - 1 {
      assert LinksAt(h, log, k + 1);
      assert shorter[k] == log[k + 1];
      assert !LinksAt(h, shorter, k);
    } else {
      assert shorter == log[..k];
    }
  }

  /** The verifier stops at row k of the log, which is this event. */
  ghost predicate Names(h: Hasher, log: seq<AuditEvent>, k: int, e: AuditEvent) {
    0 <= k < |log| && FirstBreak(h, log, k) && log[k] == e
  }

  /** The rows of this tenant differ by one that is gone and one that came. */
  ghost predicate Differ(before: seq<AuditEvent>, after: seq<AuditEvent>, tenantId: string,
                         gone: Option<AuditEvent>, came: Option<AuditEvent>) {
    && (gone.Some? ==> gone.value in before && gone.value.tenantId == tenantId)
    && (came.Some? ==> came.value.tenantId == tenantId && (came.value !in before || came == gone))
    && forall e: AuditEvent :: e.tenantId == tenantId ==>
         (e in after <==> came == Some(e) || (e in before && gone != Some(e)))
  }

  /** What the verifier says of an accepted log after such a change. Position k is the one of the
      row that is gone. */
  ghost predicate Verdict(h: Hasher, log: seq<AuditEvent>, gone: Option<AuditEvent>, came: Option<AuditEvent>,
                          now: seq<AuditEvent>) {
    var n := |log|;
    var k := if gone.Some? then gone.value.sequence - 1 else n;
    match came
    case None =>
      // A removed row is noticed unless it was the last one.
      if gone.None? then now == log
      else if 0 <= k == n - 1 then now == log[..k] && WellLinked(h, now)
      else 0 <= k < n - 1 && Names(h, now, k, log[k + 1])
    case Some(e) =>
      if gone == came then now == log
      // A row moved to the front is named itself.
      else if e.sequence < 1 then Names(h, now, 0, e)
      // An additional row fits only behind the last one.
      else if gone.None? then
        if e.sequence == n + 1 && now == log + [e] && LinksAt(h, now, n) then WellLinked(h, now)
        else Names(h, now, n, e)
      // A row moved to the back leaves a gap, unless it was the last one.
      else if e.sequence != gone.value.sequence then
        if k == n - 1 then Names(h, now, k, e) else 0 <= k < n - 1 && Names(h, now, k, log[k + 1])
      // A row rewritten in place fits only if it was linked anew, and then its successor does not.
      else if 0 <= k < |now| && LinksAt(h, now, k) then
        if k == n - 1 then WellLinked(h, now) else k < n - 1 && Names(h, now, k + 1, log[k + 1])
      else Names(h, now, k, e)
  }

  lemma {:induction false} PositionOf(h: Hasher, log: seq<AuditEvent>, e: AuditEvent)
    requires WellLinked(h, log) && e in log
    ensures 1 <= e.sequence <= |log| && log[e.sequence - 1] == e
  {
    NumbersCountUp(h, log);
    var k :| 0 <= k < |log| && log[k] == e;
  }

  /** The log after the change, spelled out. */
  function Changed(log: seq<AuditEvent>, gone: Option<AuditEvent>, came: Option<AuditEvent>): seq<AuditEvent>
    requires gone.Some? ==> 1 <= gone.value.sequence <= |log|
  {
    var rest := if gone.Some? then log[..gone.value.sequence - 1] + log[gone.value.sequence..] else log;
    match came
    case None => rest
    case Some(e) =>
      if e.sequence < 1 then [e] + rest
      else if gone.Some? && e.sequence == gone.value.sequence then log[e.sequence - 1 := e]
      else rest + [e]
  }

  /** The number of a row that came is not the number of a row that stayed. */
  ghost predicate FreeNumber(log: seq<AuditEvent>, gone: Option<AuditEvent>, e: AuditEvent) {
    forall x <- log :: gone != Some(x) ==> x.sequence != e.sequence
  }

  lemma {:induction false} NewNumberIsOutside(log: seq<AuditEvent>, gone: Option<AuditEvent>, e: AuditEvent)
    requires forall j :: 0 <= j < |log| ==> log[j].sequence == j + 1
    requires FreeNumber(log, gone, e)
    ensures 1 <= e.sequence <= |log| ==> gone.Some? && gone.value.sequence == e.sequence
  {
    if 1 <= e.sequence <= |log| {
      assert log[e.sequence - 1] in log;
    }
  }

  lemma {:induction false} RestRows(log: seq<AuditEvent>, gone: Option<AuditEvent>)
    requires forall j :: 0 <= j < |log| ==> log[j].sequence == j + 1
    requires gone.Some? ==> 1 <= gone.value.sequence <= |log| && log[gone.value.sequence - 1] == gone.value
    ensures var rest := Changed(log, gone, None);
            InSequence(rest) && forall e :: e in rest <==> e in log && gone != Some(e)
  {
    if gone.Some? {
      var k := gone.value.sequence - 1;
      assert log == (log[..k] + [log[k]]) + log[k + 1..];
    }
  }

  lemma {:induction false} ReplacedRows(log: seq<AuditEvent>, g: AuditEvent, e: AuditEvent)
    requires forall j :: 0 <= j < |log| ==> log[j].sequence == j + 1
    requires 1 <= g.sequence <= |log| && log[g.sequence - 1] == g && e.sequence == g.sequence
    ensures var edited := log[g.sequence - 1 := e];
            InSequence(edited) && forall x :: x in edited <==> x == e || (x in log && x != g)
  {
    var k := g.sequence - 1;
    assert log == (log[..k] + [log[k]]) + log[k + 1..];
    assert log[k := e] == (log[..k] + [e]) + log[k + 1..];
  }

  lemma {:induction false} ChangedRows(h: Hasher, log: seq<AuditEvent>, gone: Option<AuditEvent>,
                                       came: Option<AuditEvent>)
    requires WellLinked(h, log) && (forall j :: 0 <= j < |log| ==> log[j].sequence == j + 1)
    requires gone.Some? ==> 1 <= gone.value.sequence <= |log| && log[gone.value.sequence - 1] == gone.value
    requires came.Some? ==> FreeNumber(log, gone, came.value)
    ensures InSequence(Changed(log, gone, came))
    ensures forall e :: e in Changed(log, gone, came) <==> came == Some(e) || (e in log && gone != Some(e))
  {
    if came.Some? { NewNumberIsOutside(log, gone, came.value); }
    RestRows(log, gone);
    if came.Some? && gone.Some? && came.value.sequence == gone.value.sequence {
      ReplacedRows(log, gone.value, came.value);
    }
  }

  lemma {:induction false} ChangedIsTheLog(h: Hasher, log: seq<AuditEvent>, gone: Option<AuditEvent>,
                                           came: Option<AuditEvent>, now: seq<AuditEvent>)
    requires WellLinked(h, log) && InSequence(now)
    requires gone.Some? ==> gone.value in log
    requires came.Some? ==> FreeNumber(log, gone, came.value)
    requires forall e :: e in now <==> came == Some(e) || (e in log && gone != Some(e))
    ensures gone.Some? ==> 1 <= gone.value.sequence <= |log| && log[gone.value.sequence - 1] == gone.value
    ensures now == Changed(log, gone, came)
  {
    NumbersCountUp(h, log);
    if gone.Some? { PositionOf(h, log, gone.value); }
    ChangedRows(h, log, gone, came);
    SameRowsSameLog(now, Changed(log, gone, came));
  }

  lemma {:induction false} AdditionIsNamed(h: Hasher, log: seq<AuditEvent>, e: AuditEvent)
    requires WellLinked(h, log) && (e.sequence < 1 || e.sequence > |log|)
    ensures Verdict(h, log, None, Some(e), Changed(log, None, Some(e)))
  {
    var now := Changed(log, None, Some(e));
    if e.sequence < 1 {
      assert now[..0] == [];
    } else {
      assert now[..|log|] == log;
      PrefixLinks(h, now, |log|);
    }
  }

  /** An event with another number, before or behind all others. */
  lemma {:induction false} MoveIsNamed(h: Hasher, log: seq<AuditEvent>, k: nat, e: AuditEvent)
    requires WellLinked(h, log) && k < |log| && log[k].sequence == k + 1
    requires e.sequence < 1 || e.sequence > |log|
    ensures Verdict(h, log, Some(log[k]), Some(e), Changed(log, Some(log[k]), Some(e)))
  {
    var now := Changed(log, Some(log[k]), Some(e));
    if e.sequence < 1 {
      assert now[..0] == [];
    } else {
      assert now[..k] == log[..k];
      PrefixLinks(h, log, k);
      if k < |log| - 1 {
        assert now[k] == log[k + 1];
        NumbersCountUp(h, log);
      }
    }
  }

  lemma {:induction false} RemovalIsDecided(h: Hasher, log: seq<AuditEvent>, k: nat)
    requires WellLinked(h, log) && k < |log| && log[k].sequence == k + 1
    ensures Verdict(h, log, Some(log[k]), None, Changed(log, Some(log[k]), None))
  {
    RemovalIsNamed(h, log, k);
  }

  /** An event rewritten in place. */
  lemma {:induction false} EditIsDecided(h: Hasher, log: seq<AuditEvent>, k: nat, e: AuditEvent)
    requires Injective(h) && WellLinked(h, log) && k < |log| && log[k].sequence == e.sequence == k + 1 && e != log[k]
    ensures Verdict(h, log, Some(log[k]), Some(e), Changed(log, Some(log[k]), Some(e)))
  {
    EditIsNamed(h, log, k, e);
  }

  lemma {:induction false} ChangeIsDecided(h: Hasher, log: seq<AuditEvent>, gone: Option<AuditEvent>,
                                           came: Option<AuditEvent>)
    requires Injective(h) && WellLinked(h, log)
    requires gone.Some? ==> 1 <= gone.value.sequence <= |log| && log[gone.value.sequence - 1] == gone.value
    requires came.Some? ==> FreeNumber(log, gone, came.value)
    ensures Verdict(h, log, gone, came, Changed(log, gone, came))
  {
    NumbersCountUp(h, log);
    if came.Some? { NewNumberIsOutside(log, gone, came.value); }
    match (gone, came)
    case (None, None) =>
    case (Some(g), None) => RemovalIsDecided(h, log, g.sequence - 1);
    case (None, Some(e)) => AdditionIsNamed(h, log, e);
    case (Some(g), Some(e)) =>
      if g == e {
        assert log[g.sequence - 1 := g] == log;
      } else if e.sequence == g.sequence {
        EditIsDecided(h, log, g.sequence - 1, e);
      } else {
        MoveIsNamed(h, log, g.sequence - 1, e);
      }
  }

  /** The rows a tenant loses and gains when one row of the table is replaced. */
  function RowOf(row: AuditEvent, tenantId: string): Option<AuditEvent> {
    if row.tenantId == tenantId then Some(row) else None
  }

  lemma {:induction false} CopyIsRefused(table: seq<AuditEvent>, i: nat, forged: AuditEvent)
    requires i < |table| && forged in table && forged != table[i]
    ensures !UniqueNumbers(table[i := forged])
  {
    var edited := table[i := forged];
    var j :| 0 <= j < |table| && table[j] == forged;
    assert edited[j] == forged && edited[i] == forged;
  }

  lemma {:induction false} ReplacingDiffers(table: seq<AuditEvent>, i: nat, forged: AuditEvent, tenantId: string)
    requires i < |table| && UniqueNumbers(table) && UniqueNumbers(table[i := forged])
    ensures Differ(table, table[i := forged], tenantId, RowOf(table[i], tenantId), RowOf(forged, tenantId))
  {
    var edited := table[i := forged];
    if forged in table && forged != table[i] { CopyIsRefused(table, i, forged); }
    forall e: AuditEvent
      ensures e in edited <==> e == forged || (e in table && e != table[i])
    {
      if e in table && e != table[i] {
        var j :| 0 <= j < |table| && table[j] == e;
        assert edited[j] == e;
      }
      if e in edited && e != forged {
        var j :| 0 <= j < |edited| && edited[j] == e;
        assert table[j] == e;
      }
      assert edited[i] == forged;
    }
  }

  lemma {:induction false} NumbersTellApart(table: seq<AuditEvent>, x: AuditEvent, y: AuditEvent)
    requires UniqueNumbers(table) && x in table && y in table && x.tenantId == y.tenantId
    ensures x.sequence == y.sequence ==> x == y
  {
    var i :| 0 <= i < |table| && table[i] == x;
    var j :| 0 <= j < |table| && table[j] == y;
  }

  /** The same for any table that differs by one row, such as one with a row deleted or inserted. */
  lemma {:induction false} OneRowChanged(h: Hasher, before: seq<AuditEvent>, after: seq<AuditEvent>, tenantId: string,
                                         gone: Option<AuditEvent>, came: Option<AuditEvent>)
    requires Injective(h) && UniqueNumbers(before) && UniqueNumbers(after)
    requires Differ(before, after, tenantId, gone, came)
    requires WellLinked(h, Log(before, tenantId))
    ensures Verdict(h, Log(before, tenantId), gone, came, Log(after, tenantId))
  {
    var log, now := Log(before, tenantId), Log(after, tenantId);
    LogAre(before, tenantId);
    LogAre(after, tenantId);
    LogInSequence(after, tenantId);
    if came.Some? {
      forall x | x in log && gone != Some(x)
        ensures x.sequence != came.value.sequence
      {
        assert x in after && came.value in after && x != came.value;
        NumbersTellApart(after, x, came.value);
      }
    }
    ChangedIsTheLog(h, log, gone, came, now);
    ChangeIsDecided(h, log, gone, came);
  }

  /** One theorem for every edit of one row of the whole table, its tenant and its number included:
      what the verifier then says of any tenant whose log was accepted before. */
  lemma {:induction false} OneRowEdited(h: Hasher, table: seq<AuditEvent>, i: nat, forged: AuditEvent, tenantId: string)
    requires Injective(h) && i < |table|
    requires UniqueNumbers(table) && UniqueNumbers(table[i := forged])
    requires WellLinked(h, Log(table, tenantId))
    ensures Verdict(h, Log(table, tenantId), RowOf(table[i], tenantId), RowOf(forged, tenantId),
                    Log(table[i := forged], tenantId))
  {
    ReplacingDiffers(table, i, forged, tenantId);
    OneRowChanged(h, table, table[i := forged], tenantId, RowOf(table[i], tenantId), RowOf(forged, tenantId));
  }
}
