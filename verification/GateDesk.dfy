/** The services of a gate engine over mutable rows. */
module GateDesk {
  import opened Basics
  import opened Sorting
  import opened Gates

  predicate IsOlder(a: Evidence, b: Evidence) {
    a.observedAt < b.observedAt
  }

  ghost predicate NewestFirst(rows: seq<Evidence>) {
    forall i, j :: 0 <= i < j < |rows| ==> rows[i].observedAt >= rows[j].observedAt
  }

  function ByAge(rows: seq<Evidence>): seq<Evidence> {
    Sorted(IsOlder, rows)
  }

  lemma {:induction false} ByAgeIsSorted(rows: seq<Evidence>)
    ensures NewestFirst(ByAge(rows))
    ensures forall x :: x in ByAge(rows) <==> x in rows
  {
    SortedInOrder(IsOlder, rows);
    assert forall i, j :: 0 <= i < j < |ByAge(rows)| ==> !IsOlder(ByAge(rows)[i], ByAge(rows)[j]);
  }

  datatype Report = Report(ready: bool, evidenceReady: bool, automaticReady: bool, attestationReady: bool,
                           missingEvidence: seq<string>, missingAttestations: seq<string>)

  /** The setdefault loop: the first row of every kind stays. */
  method FirstOfEachKind(rows: seq<Evidence>) returns (latest: map<string, Evidence>)
    requires NewestFirst(rows)
    ensures forall kind <- latest :: latest[kind] in rows && latest[kind].kind == kind
    ensures forall e <- rows :: e.kind in latest && e.observedAt <= latest[e.kind].observedAt
  {
    latest := map[];
    for i := 0 to |rows|
      invariant forall kind <- latest :: latest[kind] in rows[..i] && latest[kind].kind == kind
      invariant forall k :: 0 <= k < i ==>
                  rows[k].kind in latest && rows[k].observedAt <= latest[rows[k].kind].observedAt
    {
      if rows[i].kind !in latest {
        latest := latest[rows[i].kind := rows[i]];
      }
    }
  }

  method Absent(required: seq<string>, present: set<string>) returns (missing: seq<string>)
    ensures forall x :: x in missing <==> x in required && x !in present
  {
    missing := [];
    for i := 0 to |required|
      invariant forall x :: x in missing <==> x in required[..i] && x !in present
    {
      if required[i] !in present {
        missing := missing + [required[i]];
      }
    }
  }

  lemma {:induction false} EmptyMeansNone(s: seq<string>)
    ensures s == [] <==> forall x :: x !in s
  {
    if s != [] {
      assert s[0] in s;
    }
  }

  class Desk {
    const engine: Engine
    const c: Crypto
    var evidence: seq<Evidence>
    var attestations: map<Slot, Attestation>
    var key: int

    ghost function State(): Db
      reads this
    {
      Db(evidence, attestations, key)
    }

    ghost predicate Valid()
      reads this
    {
      forall i, j :: 0 <= i < j < |evidence| ==> evidence[i].id != evidence[j].id
    }

    constructor (engine: Engine, c: Crypto, key: int)
      ensures Valid()
      ensures this.engine == engine && this.c == c && State() == Exec(engine, c, key, [])
    {
      this.engine, this.c, this.key := engine, c, key;
      evidence, attestations := [], map[];
    }

    method SubmitEvidence(id: string, gate: string, kind: string, hash: string, observedAt: int) returns (raised: bool)
      requires Valid()
      modifies this
      ensures Valid()
      ensures State() == Step(engine, c, old(State()), ESubmit(id, gate, kind, hash, observedAt))
      ensures !raised <==>
                gate in GateKeys(engine) && kind in RequiredEvidence(engine, gate) && !HasId(old(evidence), id)
    {
      if gate !in GateKeys(engine) { return true; }
      if kind !in RequiredEvidence(engine, gate) { return true; }
      if exists i :: 0 <= i < |evidence| && evidence[i].id == id { return true; }
      evidence := evidence + [Evidence(id, gate, kind, hash, observedAt, Pending)];
      raised := false;
    }

    /** Evidence the system gathers itself counts as verified at once. */
    method RecordSystemGateEvidence(id: string, kind: string, hash: string, observedAt: int)
      requires engine == PilotGates
      requires Valid()
      modifies this
      ensures Valid()
      ensures State() == Step(engine, c, old(State()), ESystemEvidence(id, kind, hash, observedAt))
    {
      if kind !in RequiredEvidence(PilotGates, "D") { return; }
      if exists i :: 0 <= i < |evidence| && evidence[i].id == id { return; }
      evidence := evidence + [Evidence(id, "D", kind, hash, observedAt, Verified)];
    }

    method VerifyEvidence(id: string, status: EvidenceStatus) returns (raised: bool)
      requires Valid()
      modifies this
      ensures Valid()
      ensures State() == Step(engine, c, old(State()), EVerify(id, status))
      ensures !raised <==> HasId(old(evidence), id) && status in {Verified, Rejected}
    {
      for i := 0 to |evidence|
        invariant evidence == old(evidence)
        invariant forall j :: 0 <= j < i ==> evidence[j].id != id
      {
        if evidence[i].id == id {
          if status !in {Verified, Rejected} { return true; }
          evidence := evidence[i := evidence[i].(status := status)];
          assert evidence == Marked(old(evidence), id, status);
          return false;
        }
      }
      assert Marked(evidence, id, status) == evidence;
      raised := true;
    }

    method AttestGate(gate: string, role: string, actor: string, decision: Decision, now: int) returns (raised: bool)
      requires Valid()
      modifies this
      ensures Valid()
      ensures State() == Step(engine, c, old(State()), EAttest(gate, role, actor, decision, now))
      ensures !raised <==> gate in GateKeys(engine) && role in RequiredRoles(engine, gate)
      ensures !raised ==>
                && Slot(gate, role) in attestations
                && attestations == old(attestations)[Slot(gate, role) := attestations[Slot(gate, role)]]
                && var a := attestations[Slot(gate, role)];
                   && a.actor == actor && a.decision == decision && a.signedAt == now
                   && a.snapshot == Snapshot(c, evidence, gate) && (a.signature.Some? <==> engine == GaGates)
    {
      if gate !in GateKeys(engine) { return true; }
      if role !in RequiredRoles(engine, gate) { return true; }
      var snapshot := Snapshot(c, evidence, gate);
      var signature := None;
      if engine == GaGates {
        signature := Some(c.sign(key, Message(role, decision, snapshot, actor, now)));
      }
      if Slot(gate, role) !in attestations {
        attestations := attestations[Slot(gate, role) := Attestation(actor, decision, snapshot, now, signature)];
      } else {
        var row := attestations[Slot(gate, role)];
        row := row.(actor := actor, decision := decision, snapshot := snapshot, signedAt := now,
                    signature := signature);
        attestations := attestations[Slot(gate, role) := row];
      }
      raised := false;
    }

    /** The newest verified row of every type that has one. */
    method VerifiedEvidenceByType(gate: string) returns (latest: map<string, Evidence>)
      ensures forall kind :: kind in latest <==> HasEvidence(State(), gate, kind)
      ensures forall kind <- latest ::
                latest[kind] in evidence && Holds(latest[kind], gate) && latest[kind].kind == kind
      ensures forall kind <- latest :: forall e <- evidence :: Holds(e, gate) && e.kind == kind ==>
                e.observedAt <= latest[kind].observedAt
    {
      var rows := ByAge(VerifiedRows(evidence, gate));
      VerifiedRowsAre(evidence, gate);
      ByAgeIsSorted(VerifiedRows(evidence, gate));
      latest := FirstOfEachKind(rows);
      forall kind | kind in latest
        ensures latest[kind] in evidence && Holds(latest[kind], gate) && latest[kind].kind == kind
        ensures HasEvidence(State(), gate, kind)
      {
        assert latest[kind] in rows;
        var j :| 0 <= j < |evidence| && evidence[j] == latest[kind];
      }
      forall e | e in evidence && Holds(e, gate)
        ensures e.kind in latest && e.observedAt <= latest[e.kind].observedAt
      {
        assert e in rows;
      }
    }

    /** Those of the roles whose attestation counts now. */
    method ApprovedRoles(gate: string, roles: seq<string>) returns (approved: set<string>)
      ensures forall role :: role in approved <==> role in roles && RoleApproves(c, State(), gate, role)
    {
      approved := {};
      var snapshot := Snapshot(c, evidence, gate);
      for i := 0 to |roles|
        invariant forall role :: role in approved <==> role in roles[..i] && RoleApproves(c, State(), gate, role)
      {
        if Slot(gate, roles[i]) in attestations {
          var a := attestations[Slot(gate, roles[i])];
          if a.decision == Approve && a.snapshot == snapshot {
            var message := Message(roles[i], a.decision, a.snapshot, a.actor, a.signedAt);
            if a.signature.None? || a.signature.value == c.sign(key, message) {
              approved := approved + {roles[i]};
            }
          }
        }
      }
    }

    method MissingAttestations(gate: string) returns (missing: seq<string>)
      requires gate in GateKeys(engine)
      ensures forall role :: role in missing <==>
                role in RequiredRoles(engine, gate) && !RoleApproves(c, State(), gate, role)
    {
      var approved := ApprovedRoles(gate, RequiredRoles(engine, gate));
      missing := Absent(RequiredRoles(engine, gate), approved);
    }

    /** Only pilot gates have automatic checks; the production gate asks for the other three. */
    method AutomaticChecks(gate: string, o: Observations) returns (ready: bool)
      requires gate in GateKeys(engine)
      ensures ready == AutomaticReady(engine, c, State(), o, gate)
      decreases if gate == "PRODUCTION" then 1 else 0, 0
    {
      if engine != PilotGates { return true; }
      match gate
      case "B" =>
        ready := o.successfulSyncs > 0 && o.dispatchReviews > 0;
        ready := ready && o.stableDays >= o.stableDaysTarget && o.accuracyMet;
      case "C" => ready := o.modelInvocations > 0 && o.qualityEvaluations > 0;
      case "D" => ready := o.verifiedLiveSends > 0;
      case _ =>
        var b := EvaluateGate("B", o);
        var c := EvaluateGate("C", o);
        var d := EvaluateGate("D", o);
        ready := b.value.ready && c.value.ready && d.value.ready && o.openIncidents <= o.openIncidentsMax;
    }

    method EvaluateGate(gate: string, o: Observations) returns (report: Option<Report>)
      ensures report.Some? <==> gate in GateKeys(engine)
      ensures report.Some? ==>
                && report.value.ready == GateReady(engine, c, State(), o, gate)
                && report.value.automaticReady == AutomaticReady(engine, c, State(), o, gate)
                && (report.value.evidenceReady <==> report.value.missingEvidence == [])
                && (report.value.attestationReady <==> report.value.missingAttestations == [])
                && (forall kind :: kind in report.value.missingEvidence <==>
                      kind in RequiredEvidence(engine, gate) && !HasEvidence(State(), gate, kind))
                && (forall role :: role in report.value.missingAttestations <==>
                      role in RequiredRoles(engine, gate) && !RoleApproves(c, State(), gate, role))
      decreases if gate == "PRODUCTION" then 1 else 0, 1
    {
      if gate !in GateKeys(engine) { return None; }
      var verified := VerifiedEvidenceByType(gate);
      var missingEvidence := Absent(RequiredEvidence(engine, gate), verified.Keys);
      var missingAttestations := MissingAttestations(gate);
      var automatic := AutomaticChecks(gate, o);
      var evidenceReady, attestationReady := missingEvidence == [], missingAttestations == [];
      EmptyMeansNone(missingEvidence);
      EmptyMeansNone(missingAttestations);
      report := Some(Report(evidenceReady && automatic && attestationReady, evidenceReady, automatic, attestationReady,
                            missingEvidence, missingAttestations));
    }

    /** The blockers name exactly the gates that are not ready; an open severe incident blocks too. */
    method GoNoGoReport(o: Observations) returns (go: bool, notReady: seq<string>)
      requires engine == PilotGates
      ensures go <==> Go(c, State(), o)
      ensures forall gate :: gate in notReady <==>
                gate in GateKeys(PilotGates) && !GateReady(PilotGates, c, State(), o, gate)
    {
      notReady := [];
      var gates := GateKeys(PilotGates);
      for i := 0 to |gates|
        invariant forall gate :: gate in notReady <==>
                    gate in gates[..i] && gate in GateKeys(PilotGates) && !GateReady(PilotGates, c, State(), o, gate)
      {
        var report := EvaluateGate(gates[i], o);
        if !report.value.ready {
          notReady := notReady + [gates[i]];
        }
      }
      EmptyMeansNone(notReady);
      go := notReady == [] && o.openIncidents == 0;
    }
  }
}
