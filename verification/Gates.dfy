/** Release gates of one program: evidence, attestations bound to a snapshot of it, go or no-go.
    The pilot gates and the general-availability gates are two instances of the same engine. */
module Gates {
  import opened Basics
  import opened Sorting

  // ----- Tables -----

  datatype Engine = PilotGates | GaGates

  function GateKeys(engine: Engine): seq<string> {
    match engine
    case PilotGates => ["B", "C", "D", "PRODUCTION"]
    case GaGates => ["COMMERCIAL", "VALUE", "GA"]
  }

  function RequiredEvidence(engine: Engine, gate: string): seq<string>
    requires gate in GateKeys(engine)
  {
    match gate
    case "B" => ["cursor_recovery_drill", "mail_sync_stability", "dispatch_accuracy", "risk_recall"]
    case "C" => ["model_data_agreement", "agent_evaluation", "red_team", "evidence_coverage"]
    case "D" => ["live_send_verification", "unknown_recovery_drill", "duplicate_send_zero", "unapproved_send_zero"]
    case "PRODUCTION" => ["penetration_test", "privacy_review", "backup_restore_drill", "incident_response_drill",
                          "support_readiness"]
    case "COMMERCIAL" => ["billing_dry_run", "onboarding_rehearsal", "support_sla_drill", "legal_documents_published",
                          "tenant_exit_drill"]
    case "VALUE" => ["design_partner_results", "weekly_active_rate", "artifact_adoption_rate", "time_saved",
                     "conversion_rate", "unit_economics"]
    case "GA" => ["production_open_go", "penetration_test_current", "privacy_legal_approval", "thirty_day_no_p0_p1",
                  "support_oncall_ready", "customer_exit_verified"]
  }

  function RequiredRoles(engine: Engine, gate: string): seq<string>
    requires gate in GateKeys(engine)
  {
    match gate
    case "B" => ["product_owner", "it_admin"]
    case "C" => ["product_owner", "ai_platform_owner", "security_owner", "business_owner"]
    case "D" => ["operations_owner", "security_owner", "product_owner"]
    case "PRODUCTION" => ["product_owner", "platform_owner", "security_owner", "privacy_owner", "operations_owner"]
    case "COMMERCIAL" => ["product_owner", "finance_owner", "operations_owner", "privacy_owner"]
    case "VALUE" => ["product_owner", "business_owner", "finance_owner"]
    case "GA" => ["product_owner", "platform_owner", "security_owner", "privacy_owner", "operations_owner",
                  "finance_owner"]
  }

  // ----- Rows -----

  datatype EvidenceStatus = Pending | Verified | Rejected

  datatype Evidence = Evidence(id: string, gate: string, kind: string, hash: string, observedAt: int,
                               status: EvidenceStatus)

  datatype Decision = Approve | Reject

  type Hash = int

  datatype Attestation = Attestation(actor: string, decision: Decision, snapshot: Hash, signedAt: int,
                                     signature: Option<Hash>)

  datatype Slot = Slot(gate: string, role: string)

  /** key: the signing key in force. */
  datatype Db = Db(evidence: seq<Evidence>, attestations: map<Slot, Attestation>, key: int)

  /** The two one-way functions: over the listed evidence, and over key and attestation. */
  datatype Item = Item(id: string, kind: string, hash: string, status: EvidenceStatus)

  datatype Message = Message(role: string, decision: Decision, snapshot: Hash, actor: string, signedAt: int)

  datatype Crypto = Crypto(hash: seq<Item> -> Hash, sign: (int, Message) -> Hash)

  ghost predicate Injective(c: Crypto) {
    && (forall a, b :: c.hash(a) == c.hash(b) ==> a == b)
    && (forall k, m, l, n :: c.sign(k, m) == c.sign(l, n) ==> k == l && m == n)
  }

  // ----- The snapshot -----

  /** Character-wise order of strings. */
  predicate Precedes(a: string, b: string) {
    b != "" && (a == "" || a[0] < b[0] || (a[0] == b[0] && Precedes(a[1..], b[1..])))
  }

  /** Order of the snapshot query: by type, then by time of observation. */
  predicate Later(a: Evidence, b: Evidence) {
    Precedes(b.kind, a.kind) || (a.kind == b.kind && a.observedAt > b.observedAt)
  }

  function Ordered(rows: seq<Evidence>): seq<Evidence> {
    Sorted(Later, rows)
  }

  predicate Holds(e: Evidence, gate: string) {
    e.gate == gate && e.status == Verified
  }

  function VerifiedRows(rows: seq<Evidence>, gate: string): seq<Evidence> {
    if rows == [] then []
    else
      var e := rows[|rows| - 1];
      var before := VerifiedRows(rows[..|rows| - 1], gate);
      if Holds(e, gate) then before + [e] else before
  }

  function Items(rows: seq<Evidence>): seq<Item> {
    seq(|rows|, i requires 0 <= i < |rows| => Item(rows[i].id, rows[i].kind, rows[i].hash, rows[i].status))
  }

  function Snapshot(c: Crypto, rows: seq<Evidence>, gate: string): Hash {
    c.hash(Items(Ordered(VerifiedRows(rows, gate))))
  }

  /** The verified evidence of a gate. */
  ghost function VerifiedIds(rows: seq<Evidence>, gate: string): set<string> {
    set e <- rows | Holds(e, gate) :: e.id
  }

  // ----- Calls -----

  datatype Event =
    | ESubmit(id: string, gate: string, kind: string, hash: string, observedAt: int)
    | ESystemEvidence(id: string, kind: string, hash: string, observedAt: int)
    | EVerify(id: string, status: EvidenceStatus)
    | EAttest(gate: string, role: string, actor: string, decision: Decision, now: int)
    | ERotateKey(key: int)

  predicate HasId(rows: seq<Evidence>, id: string) {
    exists i :: 0 <= i < |rows| && rows[i].id == id
  }

  function Marked(rows: seq<Evidence>, id: string, decision: EvidenceStatus): seq<Evidence> {
    seq(|rows|, i requires 0 <= i < |rows| => if rows[i].id == id then rows[i].(status := decision) else rows[i])
  }

  predicate MayAttest(engine: Engine, gate: string, role: string) {
    gate in GateKeys(engine) && role in RequiredRoles(engine, gate)
  }

  /** Only the general-availability engine signs. */
  function NewAttestation(engine: Engine, c: Crypto, s: Db, e: Event): Attestation
    requires e.EAttest?
  {
    var snapshot := Snapshot(c, s.evidence, e.gate);
    var signature := c.sign(s.key, Message(e.role, e.decision, snapshot, e.actor, e.now));
    Attestation(e.actor, e.decision, snapshot, e.now, if engine == GaGates then Some(signature) else None)
  }

  /** A call that raises leaves everything as it was. */
  function Step(engine: Engine, c: Crypto, s: Db, e: Event): Db {
    match e
    case ESubmit(id, gate, kind, hash, at) =>
      if gate in GateKeys(engine) && kind in RequiredEvidence(engine, gate) && !HasId(s.evidence, id)
      then s.(evidence := s.evidence + [Evidence(id, gate, kind, hash, at, Pending)]) else s
    case ESystemEvidence(id, kind, hash, at) =>
      if engine == PilotGates && kind in RequiredEvidence(PilotGates, "D") && !HasId(s.evidence, id)
      then s.(evidence := s.evidence + [Evidence(id, "D", kind, hash, at, Verified)]) else s
    case EVerify(id, decision) =>
      if decision in {Verified, Rejected} then s.(evidence := Marked(s.evidence, id, decision)) else s
    case EAttest(gate, role, _, _, _) =>
      if MayAttest(engine, gate, role)
      then s.(attestations := s.attestations[Slot(gate, role) := NewAttestation(engine, c, s, e)])
      else s
    case ERotateKey(key) => s.(key := key)
  }

  function Exec(engine: Engine, c: Crypto, key: int, events: seq<Event>): Db {
    if events == [] then Db([], map[], key)
    else Step(engine, c, Exec(engine, c, key, events[..|events| - 1]), events[|events| - 1])
  }

  // ----- Evaluation -----

  /** An attestation without signature counts; one with a signature must verify under the present key. */
  predicate SignatureFits(c: Crypto, s: Db, role: string, a: Attestation) {
    a.signature.None? || a.signature.value == c.sign(s.key, Message(role, a.decision, a.snapshot, a.actor, a.signedAt))
  }

  predicate RoleApproves(c: Crypto, s: Db, gate: string, role: string) {
    && Slot(gate, role) in s.attestations
    && var a := s.attestations[Slot(gate, role)];
       a.decision == Approve && a.snapshot == Snapshot(c, s.evidence, gate) && SignatureFits(c, s, role, a)
  }

  predicate HasEvidence(s: Db, gate: string, kind: string) {
    exists i :: 0 <= i < |s.evidence| && Holds(s.evidence[i], gate) && s.evidence[i].kind == kind
  }

  /** Counts and targets the automatic checks of the pilot gates compare. */
  datatype Observations = Observations(successfulSyncs: nat, dispatchReviews: nat, stableDays: nat,
                                       stableDaysTarget: int,
                                       accuracyMet: bool, modelInvocations: nat, qualityEvaluations: nat,
                                       verifiedLiveSends: nat, openIncidents: nat, openIncidentsMax: int)

  predicate GateReady(engine: Engine, c: Crypto, s: Db, o: Observations, gate: string)
    requires gate in GateKeys(engine)
    decreases if gate == "PRODUCTION" then 1 else 0, 1
  {
    && (forall kind :: kind in RequiredEvidence(engine, gate) ==> HasEvidence(s, gate, kind))
    && (forall role :: role in RequiredRoles(engine, gate) ==> RoleApproves(c, s, gate, role))
    && AutomaticReady(engine, c, s, o, gate)
  }

  predicate AutomaticReady(engine: Engine, c: Crypto, s: Db, o: Observations, gate: string)
    requires gate in GateKeys(engine)
    decreases if gate == "PRODUCTION" then 1 else 0, 0
  {
    engine == PilotGates ==>
      match gate
      case "B" => o.successfulSyncs > 0 && o.dispatchReviews > 0 && o.stableDays >= o.stableDaysTarget && o.accuracyMet
      case "C" => o.modelInvocations > 0 && o.qualityEvaluations > 0
      case "D" => o.verifiedLiveSends > 0
      case _ =>
        && GateReady(engine, c, s, o, "B") && GateReady(engine, c, s, o, "C") && GateReady(engine, c, s, o, "D")
        && o.openIncidents <= o.openIncidentsMax
  }

  /** The pilot goes live exactly when all four gates are ready and no severe incident is open. */
  predicate Go(c: Crypto, s: Db, o: Observations) {
    && o.openIncidents == 0
    && forall gate :: gate in GateKeys(PilotGates) ==> GateReady(PilotGates, c, s, o, gate)
  }

  // ----- The snapshot names the set -----

  lemma {:induction false} PrecedesIsStrict(a: string, b: string)
    ensures !(Precedes(a, b) && Precedes(b, a))
    ensures a == b || Precedes(a, b) || Precedes(b, a)
    ensures a == b ==> !Precedes(a, b)
  {
    if a != "" && b != "" && a[0] == b[0] {
      PrecedesIsStrict(a[1..], b[1..]);
      assert a == [a[0]] + a[1..] && b == [b[0]] + b[1..];
    }
  }

  lemma {:induction false} PrecedesIsTransitive(a: string, b: string, c: string)
    requires Precedes(a, b) && Precedes(b, c)
    ensures Precedes(a, c)
  {
    if a != "" && a[0] == b[0] == c[0] {
      PrecedesIsTransitive(a[1..], b[1..], c[1..]);
    }
  }

  lemma {:induction false} LaterIsNegativelyTransitive(a: Evidence, b: Evidence, c: Evidence)
    requires Later(a, c)
    ensures Later(a, b) || Later(b, c)
  {
    PrecedesIsStrict(a.kind, b.kind);
    PrecedesIsStrict(b.kind, c.kind);
    if Precedes(a.kind, b.kind) && Precedes(b.kind, c.kind) {
      PrecedesIsTransitive(a.kind, b.kind, c.kind);
      PrecedesIsStrict(a.kind, c.kind);
    }
  }

  /** The first k characters agree, and then a ends or has the smaller one. */
  predicate DiffersAt(a: string, b: string, k: nat) {
    k <= |a| && k < |b| && a[..k] == b[..k] && (k == |a| || a[k] < b[k])
  }

  ghost predicate IsBefore(a: string, b: string) {
    exists k: nat :: DiffersAt(a, b, k)
  }

  lemma {:induction false} PrecedesIff(a: string, b: string)
    ensures Precedes(a, b) <==> IsBefore(a, b)
  {
    if a != "" && b != "" && a[0] == b[0] {
      PrecedesIff(a[1..], b[1..]);
      if k: nat :| DiffersAt(a[1..], b[1..], k) {
        assert a[..k + 1] == [a[0]] + a[1..][..k] && b[..k + 1] == [b[0]] + b[1..][..k];
        assert DiffersAt(a, b, k + 1);
      }
      if k: nat :| DiffersAt(a, b, k) {
        assert k > 0 && a[1..][..k - 1] == a[..k][1..] && b[1..][..k - 1] == b[..k][1..];
        assert DiffersAt(a[1..], b[1..], k - 1);
      }
    } else {
      assert b != "" && (a == "" || a[0] < b[0]) ==> DiffersAt(a, b, 0);
      assert forall k: nat :: DiffersAt(a, b, k) && k > 0 ==> a[..k][0] == b[..k][0];
    }
  }

  /** The hashed list is ordered by type and, within a type, by time of observation. */
  lemma {:induction false} OrderedByTypeAndTime(rows: seq<Evidence>)
    ensures InOrder(Later, Ordered(rows))
    ensures var list := Ordered(rows);
            forall i, j :: 0 <= i < j < |list| ==>
              && (list[i].kind == list[j].kind || IsBefore(list[i].kind, list[j].kind))
              && (list[i].kind == list[j].kind ==> list[i].observedAt <= list[j].observedAt)
  {
    forall a, b
      ensures Later(a, b) ==> !Later(b, a)
    {
      PrecedesIsStrict(a.kind, b.kind);
    }
    forall a, b, c
      ensures !Later(a, b) && !Later(b, c) ==> !Later(a, c)
    {
      if Later(a, c) { LaterIsNegativelyTransitive(a, b, c); }
    }
    SortedInOrder(Later, rows);
    var list := Ordered(rows);
    forall i, j | 0 <= i < j < |list|
      ensures list[i].kind == list[j].kind || IsBefore(list[i].kind, list[j].kind)
      ensures list[i].kind == list[j].kind ==> list[i].observedAt <= list[j].observedAt
    {
      assert !Later(list[i], list[j]);
      PrecedesIsStrict(list[i].kind, list[j].kind);
      PrecedesIff(list[i].kind, list[j].kind);
    }
  }

  lemma {:induction false} VerifiedRowsAre(rows: seq<Evidence>, gate: string)
    ensures forall x :: x in VerifiedRows(rows, gate) <==> x in rows && Holds(x, gate)
  {
    if rows == [] {
    } else {
      VerifiedRowsAre(rows[..|rows| - 1], gate);
      assert rows == rows[..|rows| - 1] + [rows[|rows| - 1]];
    }
  }

  /** The ids in the hashed list are the verified ids. */
  lemma {:induction false} ItemsNameTheSet(rows: seq<Evidence>, gate: string)
    ensures (set i <- Items(Ordered(VerifiedRows(rows, gate))) :: i.id) == VerifiedIds(rows, gate)
  {
    var ordered := Ordered(VerifiedRows(rows, gate));
    SortedKeepsRows(Later, VerifiedRows(rows, gate));
    VerifiedRowsAre(rows, gate);
    var items := Items(ordered);
    forall id
      ensures id in (set i <- items :: i.id) <==> id in VerifiedIds(rows, gate)
    {
      if id in VerifiedIds(rows, gate) {
        var e :| e in rows && Holds(e, gate) && e.id == id;
        assert e in ordered;
        var k :| 0 <= k < |ordered| && ordered[k] == e;
        assert items[k] in items;
      }
      if i :| i in items && i.id == id {
        var k :| 0 <= k < |items| && items[k] == i;
        assert ordered[k] in ordered;
      }
    }
  }

  /** now is a later table than past: rows were added, and of the old ones only statuses changed. */
  ghost predicate Grown(past: seq<Evidence>, now: seq<Evidence>) {
    && |past| <= |now|
    && (forall i :: 0 <= i < |past| ==> now[i] == past[i].(status := now[i].status))
    && (forall i, j :: 0 <= i < j < |now| ==> now[i].id != now[j].id)
  }

  lemma {:induction false} HoldsById(rows: seq<Evidence>, gate: string, k: nat)
    requires k < |rows| && forall i, j :: 0 <= i < j < |rows| ==> rows[i].id != rows[j].id
    ensures rows[k].id in VerifiedIds(rows, gate) <==> Holds(rows[k], gate)
  {
    if e :| e in rows && Holds(e, gate) && e.id == rows[k].id {
      var j :| 0 <= j < |rows| && rows[j] == e;
      assert j == k;
    }
  }

  lemma {:induction false} SameIdSameRow(past: seq<Evidence>, now: seq<Evidence>, gate: string, k: nat)
    requires Grown(past, now) && VerifiedIds(past, gate) == VerifiedIds(now, gate) && k < |past|
    ensures Holds(now[k], gate) <==> Holds(past[k], gate)
    ensures Holds(now[k], gate) ==> now[k] == past[k]
  {
    forall i, j | 0 <= i < j < |past|
      ensures past[i].id != past[j].id
    {
      assert now[i].id != now[j].id;
    }
    HoldsById(past, gate, k);
    HoldsById(now, gate, k);
  }

  lemma {:induction false} NewRowsAreNotIn(past: seq<Evidence>, now: seq<Evidence>, gate: string, k: nat)
    requires Grown(past, now) && VerifiedIds(past, gate) == VerifiedIds(now, gate) && |past| <= k < |now|
    ensures !Holds(now[k], gate)
  {
    forall e | e in past
      ensures e.id != now[k].id
    {
      var j :| 0 <= j < |past| && past[j] == e;
      assert now[j].id == e.id;
    }
    HoldsById(now, gate, k);
  }

  lemma {:induction false} VerifiedRowsGrow(rows: seq<Evidence>, gate: string, n: nat)
    requires 0 < n <= |rows|
    ensures VerifiedRows(rows[..n], gate) ==
            VerifiedRows(rows[..n - 1], gate) + if Holds(rows[n - 1], gate) then [rows[n - 1]] else []
  {
    assert rows[..n][..n - 1] == rows[..n - 1];
  }

  lemma {:induction false} SameSetSameRows(past: seq<Evidence>, now: seq<Evidence>, gate: string, n: nat)
    requires Grown(past, now) && VerifiedIds(past, gate) == VerifiedIds(now, gate) && n <= |now|
    ensures VerifiedRows(now[..n], gate) == VerifiedRows(past[..if n < |past| then n else |past|], gate)
  {
    if n == 0 {
    } else {
      SameSetSameRows(past, now, gate, n - 1);
      VerifiedRowsGrow(now, gate, n);
      if n <= |past| {
        VerifiedRowsGrow(past, gate, n);
        SameIdSameRow(past, now, gate, n - 1);
      } else {
        NewRowsAreNotIn(past, now, gate, n - 1);
      }
    }
  }

  /** Two snapshots of the same table agree iff the verified evidence of the gate is the same set:
      any change shows, and undoing the change restores the hash. */
  lemma {:induction false} SnapshotIsTheSet(c: Crypto, past: seq<Evidence>, now: seq<Evidence>, gate: string)
    requires Injective(c) && Grown(past, now)
    ensures Snapshot(c, past, gate) == Snapshot(c, now, gate) <==> VerifiedIds(past, gate) == VerifiedIds(now, gate)
  {
    ItemsNameTheSet(past, gate);
    ItemsNameTheSet(now, gate);
    if VerifiedIds(past, gate) == VerifiedIds(now, gate) {
      SameSetSameRows(past, now, gate, |now|);
      assert now[..|now|] == now && past[..|past|] == past;
    }
  }

  // ----- Runs -----

  lemma {:induction false} StepGrows(engine: Engine, c: Crypto, s: Db, e: Event)
    requires Grown(s.evidence, s.evidence)
    ensures Grown(s.evidence, Step(engine, c, s, e).evidence)
  {}

  lemma {:induction false} RunGrows(engine: Engine, c: Crypto, key: int, events: seq<Event>, k: nat)
    requires k <= |events|
    ensures Grown(Exec(engine, c, key, events[..k]).evidence, Exec(engine, c, key, events).evidence)
  {
    if k == |events| {
      assert events[..k] == events;
    }
    if events == [] {
    } else {
      var n := |events| - 1;
      RunGrows(engine, c, key, events[..n], if k <= n then k else n);
      StepGrows(engine, c, Exec(engine, c, key, events[..n]), events[n]);
      if k <= n {
        assert events[..n][..k] == events[..k];
      }
    }
  }

  predicate Attests(e: Event, gate: string, role: string) {
    e.EAttest? && e.gate == gate && e.role == role
  }

  /** Call k is the last one in which this role attested this gate. */
  ghost predicate LastAttest(events: seq<Event>, gate: string, role: string, k: nat) {
    && k < |events| && Attests(events[k], gate, role)
    && forall j :: k < j < |events| ==> !Attests(events[j], gate, role)
  }

  ghost predicate NeverAttested(events: seq<Event>, gate: string, role: string) {
    forall e <- events :: !Attests(e, gate, role)
  }

  ghost predicate StoredBy(engine: Engine, c: Crypto, key: int, events: seq<Event>, gate: string, role: string,
                           a: Attestation, k: nat) {
    && LastAttest(events, gate, role, k)
    && a == NewAttestation(engine, c, Exec(engine, c, key, events[..k]), events[k])
  }

  lemma {:induction false} StillStoredBy(engine: Engine, c: Crypto, key: int, events: seq<Event>, gate: string,
                                         role: string, a: Attestation, k: nat)
    requires events != [] && !Attests(events[|events| - 1], gate, role)
    requires StoredBy(engine, c, key, events[..|events| - 1], gate, role, a, k)
    ensures StoredBy(engine, c, key, events, gate, role, a, k)
  {
    assert events[..|events| - 1][..k] == events[..k];
  }

  lemma {:induction false} StepOnSlot(engine: Engine, c: Crypto, s: Db, e: Event, gate: string, role: string)
    requires MayAttest(engine, gate, role)
    ensures var before, after := s.attestations, Step(engine, c, s, e).attestations;
            if Attests(e, gate, role)
              then Slot(gate, role) in after && after[Slot(gate, role)] == NewAttestation(engine, c, s, e)
            else if Slot(gate, role) in before
              then Slot(gate, role) in after && after[Slot(gate, role)] == before[Slot(gate, role)]
            else Slot(gate, role) !in after
  {}

  /** The stored attestation is the one of the last attesting call. */
  lemma {:induction false} SlotHoldsLastAttest(engine: Engine, c: Crypto, key: int, events: seq<Event>, gate: string,
                                               role: string)
    requires MayAttest(engine, gate, role)
    ensures var slots := Exec(engine, c, key, events).attestations;
            if Slot(gate, role) in slots
              then exists k: nat :: StoredBy(engine, c, key, events, gate, role, slots[Slot(gate, role)], k)
            else NeverAttested(events, gate, role)
  {
    if events == [] {
    } else {
      var n := |events| - 1;
      SlotHoldsLastAttest(engine, c, key, events[..n], gate, role);
      StepOnSlot(engine, c, Exec(engine, c, key, events[..n]), events[n], gate, role);
      var slots := Exec(engine, c, key, events[..n]).attestations;
      if Attests(events[n], gate, role) {
        assert StoredBy(engine, c, key, events, gate, role,
                        Exec(engine, c, key, events).attestations[Slot(gate, role)], n);
      } else if Slot(gate, role) in slots {
        var k: nat :| StoredBy(engine, c, key, events[..n], gate, role, slots[Slot(gate, role)], k);
        StillStoredBy(engine, c, key, events, gate, role, slots[Slot(gate, role)], k);
      } else {
        assert events == events[..n] + [events[n]];
      }
    }
  }

  /** A role approves a gate iff its last attestation of it was an approval, over exactly the set of
      verified evidence that holds now, and, where attestations are signed, under the key in force. */
  ghost predicate ApprovedWhatHolds(engine: Engine, c: Crypto, key: int, events: seq<Event>, gate: string,
                                    role: string, k: nat) {
    && LastAttest(events, gate, role, k)
    && events[k].decision == Approve
    && var past, now := Exec(engine, c, key, events[..k]), Exec(engine, c, key, events);
       VerifiedIds(past.evidence, gate) == VerifiedIds(now.evidence, gate)
       && (engine == GaGates ==> past.key == now.key)
  }

  lemma {:induction false} RoleApprovesIff(engine: Engine, c: Crypto, key: int, events: seq<Event>, gate: string,
                                           role: string)
    requires Injective(c) && MayAttest(engine, gate, role)
    ensures RoleApproves(c, Exec(engine, c, key, events), gate, role) <==>
            exists k: nat :: ApprovedWhatHolds(engine, c, key, events, gate, role, k)
  {
    SlotHoldsLastAttest(engine, c, key, events, gate, role);
    var now := Exec(engine, c, key, events);
    if Slot(gate, role) in now.attestations {
      var k: nat :| StoredBy(engine, c, key, events, gate, role, now.attestations[Slot(gate, role)], k);
      var past := Exec(engine, c, key, events[..k]);
      RunGrows(engine, c, key, events, k);
      SnapshotIsTheSet(c, past.evidence, now.evidence, gate);
      assert RoleApproves(c, now, gate, role) <==> ApprovedWhatHolds(engine, c, key, events, gate, role, k);
      assert forall j: nat :: LastAttest(events, gate, role, j) ==> j == k;
    }
  }

  lemma {:induction false} StaysLastAttest(events: seq<Event>, later: seq<Event>, gate: string, role: string, k: nat)
    requires LastAttest(events, gate, role, k) && NeverAttested(later, gate, role)
    ensures LastAttest(events + later, gate, role, k)
    ensures (events + later)[..k] == events[..k]
    ensures forall j: nat :: LastAttest(events + later, gate, role, j) ==> j == k
  {
    forall j | k < j < |events + later|
      ensures !Attests((events + later)[j], gate, role)
    {
      if j >= |events| { assert later[j - |events|] in later; }
    }
  }

  /** While a role does not attest the gate again, its approval counts exactly as long as the set
      of verified evidence (and the signing key) is the one it approved: any change suspends the
      approval, and restoring the set restores it. */
  lemma {:induction false} ApprovalFollowsEvidence(engine: Engine, c: Crypto, key: int, events: seq<Event>,
                                                   later: seq<Event>, gate: string, role: string)
    requires Injective(c) && MayAttest(engine, gate, role)
    requires RoleApproves(c, Exec(engine, c, key, events), gate, role)
    requires NeverAttested(later, gate, role)
    ensures var past, now := Exec(engine, c, key, events), Exec(engine, c, key, events + later);
            RoleApproves(c, now, gate, role) <==>
              VerifiedIds(past.evidence, gate) == VerifiedIds(now.evidence, gate)
              && (engine == GaGates ==> past.key == now.key)
  {
    RoleApprovesIff(engine, c, key, events, gate, role);
    RoleApprovesIff(engine, c, key, events + later, gate, role);
    var k: nat :| ApprovedWhatHolds(engine, c, key, events, gate, role, k);
    StaysLastAttest(events, later, gate, role, k);
    var past, now := Exec(engine, c, key, events), Exec(engine, c, key, events + later);
    if VerifiedIds(past.evidence, gate) == VerifiedIds(now.evidence, gate)
       && (engine == GaGates ==> past.key == now.key) {
      assert ApprovedWhatHolds(engine, c, key, events + later, gate, role, k);
    }
    if j: nat :| ApprovedWhatHolds(engine, c, key, events + later, gate, role, j) {
      assert j == k;
    }
  }
}
