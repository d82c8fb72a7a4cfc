/** What a gate report says in terms of the calls that were made: which evidence was brought and
    judged, which roles approved it, and which counts the automatic checks compare. */
module GateHistory {
  import opened Basics
  import opened Gates

  // ----- Which evidence counts -----

  /** A call that brings a required type of evidence; the system's own evidence is for gate D. */
  predicate Brings(engine: Engine, e: Event, gate: string) {
    || (e.ESubmit? && e.gate == gate && gate in GateKeys(engine) && e.kind in RequiredEvidence(engine, gate))
    || (e.ESystemEvidence? && gate == "D" && engine == PilotGates && e.kind in RequiredEvidence(PilotGates, "D"))
  }

  /** Call k brings evidence to the gate under an id that no earlier call used. */
  ghost predicate IsBrought(engine: Engine, events: seq<Event>, gate: string, k: nat) {
    && k < |events| && Brings(engine, events[k], gate)
    && forall j, other :: 0 <= j < k && Brings(engine, events[j], other) ==> events[j].id != events[k].id
  }

  predicate Judges(e: Event, id: string) {
    e.EVerify? && e.id == id && !e.status.Pending?
  }

  ghost predicate NotJudgedFrom(events: seq<Event>, id: string, k: nat) {
    forall j :: k <= j < |events| ==> !Judges(events[j], id)
  }

  /** Call v is the last judgement of the id, and it says verified. */
  ghost predicate LastVerifies(events: seq<Event>, id: string, v: nat) {
    v < |events| && events[v] == EVerify(id, Verified) && NotJudgedFrom(events, id, v + 1)
  }

  /** What call k brought counts: its last judgement says verified, or it is the system's own
      evidence and was never judged. */
  ghost predicate Stands(events: seq<Event>, k: nat)
    requires k < |events| && (events[k].ESubmit? || events[k].ESystemEvidence?)
  {
    || (events[k].ESystemEvidence? && NotJudgedFrom(events, events[k].id, k))
    || exists v: nat :: k < v && LastVerifies(events, events[k].id, v)
  }

  ghost predicate EvidenceStands(engine: Engine, events: seq<Event>, gate: string, kind: string) {
    exists k: nat :: IsBrought(engine, events, gate, k) && events[k].kind == kind && Stands(events, k)
  }

  /** The row that call k brought, with its present status. */
  ghost predicate IsRowOf(engine: Engine, events: seq<Event>, k: nat, row: Evidence) {
    && IsBrought(engine, events, row.gate, k)
    && row.id == events[k].id && row.kind == events[k].kind && row.hash == events[k].hash
    && row.observedAt == events[k].observedAt
    && (row.status == Verified <==> Stands(events, k))
  }

  ghost predicate WasBrought(engine: Engine, events: seq<Event>, row: Evidence) {
    exists k: nat :: IsRowOf(engine, events, k, row)
  }

  ghost predicate AllBrought(engine: Engine, events: seq<Event>, rows: seq<Evidence>) {
    forall i :: 0 <= i < |rows| ==> WasBrought(engine, events, rows[i])
  }

  ghost predicate HasRow(engine: Engine, events: seq<Event>, rows: seq<Evidence>, k: nat) {
    exists i :: 0 <= i < |rows| && IsRowOf(engine, events, k, rows[i])
  }

  lemma {:induction false} StandsOneLater(events: seq<Event>, k: nat)
    requires k < |events| - 1 && (events[k].ESubmit? || events[k].ESystemEvidence?)
    ensures var last, id := events[|events| - 1], events[k].id;
            Stands(events, k) <==>
              if Judges(last, id) then last.status == Verified else Stands(events[..|events| - 1], k)
  {
    var n := |events| - 1;
    var past, id := events[..n], events[k].id;
    assert forall v: nat :: v < n && !Judges(events[n], id) ==>
             (LastVerifies(events, id, v) <==> LastVerifies(past, id, v));
    if Judges(events[n], id) && events[n].status == Verified {
      assert LastVerifies(events, id, n);
    }
  }

  lemma {:induction false} StepOnRow(engine: Engine, c: Crypto, s: Db, e: Event, i: nat)
    requires i < |s.evidence|
    ensures var row, after := s.evidence[i], Step(engine, c, s, e).evidence;
            i < |after| && after[i] == if Judges(e, row.id) then row.(status := e.status) else row
  {}

  lemma {:induction false} RowOneLater(engine: Engine, c: Crypto, s: Db, events: seq<Event>, k: nat, i: nat)
    requires events != [] && i < |s.evidence| && IsRowOf(engine, events[..|events| - 1], k, s.evidence[i])
    ensures var after := Step(engine, c, s, events[|events| - 1]).evidence;
            i < |after| && IsRowOf(engine, events, k, after[i])
  {
    StandsOneLater(events, k);
    StepOnRow(engine, c, s, events[|events| - 1], i);
    assert forall j :: 0 <= j < |events| - 1 ==> events[..|events| - 1][j] == events[j];
    assert IsBrought(engine, events, s.evidence[i].gate, k);
  }

  /** An id is taken once a call brought evidence under it. */
  lemma {:induction false} IdsAreTaken(engine: Engine, c: Crypto, key: int, events: seq<Event>)
    ensures forall k, gate :: 0 <= k < |events| && Brings(engine, events[k], gate) ==>
              HasId(Exec(engine, c, key, events).evidence, events[k].id)
  {
    if events == [] {
    } else {
      var n := |events| - 1;
      IdsAreTaken(engine, c, key, events[..n]);
      var before, after := Exec(engine, c, key, events[..n]).evidence, Exec(engine, c, key, events).evidence;
      assert forall i :: 0 <= i < |before| ==> i < |after| && after[i].id == before[i].id;
      forall k, gate | 0 <= k < |events| && Brings(engine, events[k], gate)
        ensures HasId(after, events[k].id)
      {
        if k < n {
          assert HasId(before, events[..n][k].id);
        } else if !HasId(before, events[n].id) {
          assert after[|before|].id == events[n].id;
        }
      }
    }
  }

  /** The last call brings evidence exactly when it adds a row. */
  lemma {:induction false} NewRow(engine: Engine, c: Crypto, s: Db, events: seq<Event>, gate: string)
    requires events != [] && Brings(engine, events[|events| - 1], gate)
    requires AllBrought(engine, events[..|events| - 1], s.evidence)
    requires forall k, other :: 0 <= k < |events| - 1 && Brings(engine, events[k], other) ==>
               HasId(s.evidence, events[k].id)
    ensures var n, after := |events| - 1, Step(engine, c, s, events[|events| - 1]).evidence;
            if IsBrought(engine, events, gate, n)
              then |after| == |s.evidence| + 1 && IsRowOf(engine, events, n, after[|s.evidence|])
            else |after| == |s.evidence|
  {
    var last := events[|events| - 1];
    if i :| 0 <= i < |s.evidence| && s.evidence[i].id == last.id {
      var k: nat :| IsRowOf(engine, events[..|events| - 1], k, s.evidence[i]);
      assert Brings(engine, events[k], s.evidence[i].gate);
    }
  }

  lemma {:induction false} RowsStay(engine: Engine, c: Crypto, s: Db, events: seq<Event>, k: nat, gate: string)
    requires k < |events| - 1 && IsBrought(engine, events, gate, k)
    requires HasRow(engine, events[..|events| - 1], s.evidence, k)
    ensures HasRow(engine, events, Step(engine, c, s, events[|events| - 1]).evidence, k)
  {
    var i :| 0 <= i < |s.evidence| && IsRowOf(engine, events[..|events| - 1], k, s.evidence[i]);
    RowOneLater(engine, c, s, events, k, i);
  }

  lemma {:induction false} RowWasBrought(engine: Engine, c: Crypto, s: Db, events: seq<Event>, i: nat)
    requires events != [] && AllBrought(engine, events[..|events| - 1], s.evidence)
    requires forall k, gate :: 0 <= k < |events| - 1 && Brings(engine, events[k], gate) ==>
               HasId(s.evidence, events[k].id)
    requires i < |Step(engine, c, s, events[|events| - 1]).evidence|
    ensures WasBrought(engine, events, Step(engine, c, s, events[|events| - 1]).evidence[i])
  {
    if i < |s.evidence| {
      var k: nat :| IsRowOf(engine, events[..|events| - 1], k, s.evidence[i]);
      RowOneLater(engine, c, s, events, k, i);
    } else {
      NewRow(engine, c, s, events, Step(engine, c, s, events[|events| - 1]).evidence[i].gate);
    }
  }

  /** Every stored row was brought by a call, and is verified exactly when what was brought stands. */
  lemma {:induction false} RowsWereBrought(engine: Engine, c: Crypto, key: int, events: seq<Event>)
    ensures AllBrought(engine, events, Exec(engine, c, key, events).evidence)
  {
    if events == [] {
    } else {
      var n := |events| - 1;
      RowsWereBrought(engine, c, key, events[..n]);
      IdsAreTaken(engine, c, key, events[..n]);
      assert forall k :: 0 <= k < n ==> events[..n][k] == events[k];
      forall i | 0 <= i < |Exec(engine, c, key, events).evidence|
        ensures WasBrought(engine, events, Exec(engine, c, key, events).evidence[i])
      {
        RowWasBrought(engine, c, Exec(engine, c, key, events[..n]), events, i);
      }
    }
  }

  lemma {:induction false} WasBroughtBefore(engine: Engine, events: seq<Event>, gate: string, k: nat)
    requires k < |events| - 1 && IsBrought(engine, events, gate, k)
    ensures IsBrought(engine, events[..|events| - 1], gate, k)
  {
    assert forall j :: 0 <= j <= k ==> events[..|events| - 1][j] == events[j];
  }

  lemma {:induction false} LastIsStored(engine: Engine, c: Crypto, key: int, events: seq<Event>, gate: string)
    requires events != [] && IsBrought(engine, events, gate, |events| - 1)
    ensures HasRow(engine, events, Exec(engine, c, key, events).evidence, |events| - 1)
  {
    var n := |events| - 1;
    RowsWereBrought(engine, c, key, events[..n]);
    IdsAreTaken(engine, c, key, events[..n]);
    assert forall j :: 0 <= j < n ==> events[..n][j] == events[j];
    NewRow(engine, c, Exec(engine, c, key, events[..n]), events, gate);
  }

  /** Every call that brings evidence has its row. */
  lemma {:induction false} WhatIsBroughtIsStored(engine: Engine, c: Crypto, key: int, events: seq<Event>, gate: string,
                                                 k: nat)
    requires IsBrought(engine, events, gate, k)
    ensures HasRow(engine, events, Exec(engine, c, key, events).evidence, k)
  {
    var n := |events| - 1;
    if k < n {
      WasBroughtBefore(engine, events, gate, k);
      WhatIsBroughtIsStored(engine, c, key, events[..n], gate, k);
      RowsStay(engine, c, Exec(engine, c, key, events[..n]), events, k, gate);
    } else {
      LastIsStored(engine, c, key, events, gate);
    }
  }

  /** Evidence of a type is verified exactly when some call brought it to the gate and it stands. */
  lemma {:induction false} HasEvidenceIff(engine: Engine, c: Crypto, key: int, events: seq<Event>, gate: string,
                                          kind: string)
    ensures HasEvidence(Exec(engine, c, key, events), gate, kind) <==> EvidenceStands(engine, events, gate, kind)
  {
    var rows := Exec(engine, c, key, events).evidence;
    RowsWereBrought(engine, c, key, events);
    if i :| 0 <= i < |rows| && Holds(rows[i], gate) && rows[i].kind == kind {
      assert WasBrought(engine, events, rows[i]);
    }
    if k: nat :| IsBrought(engine, events, gate, k) && events[k].kind == kind && Stands(events, k) {
      WhatIsBroughtIsStored(engine, c, key, events, gate, k);
      assert forall other :: IsBrought(engine, events, other, k) ==> other == gate;
    }
  }

  /** The ids of the evidence that stands for a gate. */
  ghost predicate IdStands(engine: Engine, events: seq<Event>, gate: string, id: string) {
    exists k: nat :: IsBrought(engine, events, gate, k) && events[k].id == id && Stands(events, k)
  }

  lemma {:induction false} VerifiedIdStands(engine: Engine, c: Crypto, key: int, events: seq<Event>, gate: string,
                                            id: string)
    ensures id in VerifiedIds(Exec(engine, c, key, events).evidence, gate) <==> IdStands(engine, events, gate, id)
  {
    var rows := Exec(engine, c, key, events).evidence;
    if e :| e in rows && Holds(e, gate) && e.id == id {
      RowsWereBrought(engine, c, key, events);
      var i :| 0 <= i < |rows| && rows[i] == e;
      assert WasBrought(engine, events, rows[i]);
    }
    if k: nat :| IsBrought(engine, events, gate, k) && events[k].id == id && Stands(events, k) {
      WhatIsBroughtIsStored(engine, c, key, events, gate, k);
      assert forall other :: IsBrought(engine, events, other, k) ==> other == gate;
    }
  }

  /** The set an approval is bound to is the set of evidence that stands. */
  lemma {:induction false} VerifiedIdsStand(engine: Engine, c: Crypto, key: int, events: seq<Event>, gate: string)
    ensures forall id :: id in VerifiedIds(Exec(engine, c, key, events).evidence, gate) <==>
                           IdStands(engine, events, gate, id)
  {
    forall id
      ensures id in VerifiedIds(Exec(engine, c, key, events).evidence, gate) <==> IdStands(engine, events, gate, id)
    {
      VerifiedIdStands(engine, c, key, events, gate, id);
    }
  }

  // ----- Readiness -----

  /** The signing key in force: the one of the last rotation, the first one before any. */
  function KeyAfter(key: int, events: seq<Event>): int {
    if events == [] then key
    else
      var last := events[|events| - 1];
      if last.ERotateKey? then last.key else KeyAfter(key, events[..|events| - 1])
  }

  lemma {:induction false} KeyInForce(engine: Engine, c: Crypto, key: int, events: seq<Event>)
    ensures Exec(engine, c, key, events).key == KeyAfter(key, events)
  {
    if events == [] {
    } else {
      KeyInForce(engine, c, key, events[..|events| - 1]);
    }
  }

  /** Call k is the role's last attestation of the gate and approved exactly the evidence that stands
      now; a signed one was signed with the key now in force. */
  ghost predicate ApprovesWhatStands(engine: Engine, key: int, events: seq<Event>, gate: string, role: string, k: nat) {
    && LastAttest(events, gate, role, k) && events[k].decision == Approve
    && (forall id :: IdStands(engine, events[..k], gate, id) <==> IdStands(engine, events, gate, id))
    && (engine == GaGates ==> KeyAfter(key, events[..k]) == KeyAfter(key, events))
  }

  ghost predicate RoleStands(engine: Engine, key: int, events: seq<Event>, gate: string, role: string) {
    exists k: nat :: ApprovesWhatStands(engine, key, events, gate, role, k)
  }

  lemma {:induction false} SameSetMeansSameStanding(engine: Engine, c: Crypto, key: int, events: seq<Event>,
                                                    gate: string, role: string, k: nat)
    ensures ApprovedWhatHolds(engine, c, key, events, gate, role, k) <==>
            ApprovesWhatStands(engine, key, events, gate, role, k)
  {
    if LastAttest(events, gate, role, k) {
      VerifiedIdsStand(engine, c, key, events[..k], gate);
      VerifiedIdsStand(engine, c, key, events, gate);
      KeyInForce(engine, c, key, events[..k]);
      KeyInForce(engine, c, key, events);
    }
  }

  /** A role approves a gate exactly when its last attestation approved the evidence that stands. */
  lemma {:induction false} RoleApprovesWhatStands(engine: Engine, c: Crypto, key: int, events: seq<Event>,
                                                  gate: string, role: string)
    requires Injective(c) && MayAttest(engine, gate, role)
    ensures RoleApproves(c, Exec(engine, c, key, events), gate, role) <==> RoleStands(engine, key, events, gate, role)
  {
    RoleApprovesIff(engine, c, key, events, gate, role);
    if k: nat :| ApprovedWhatHolds(engine, c, key, events, gate, role, k) {
      SameSetMeansSameStanding(engine, c, key, events, gate, role, k);
    }
    if k: nat :| ApprovesWhatStands(engine, key, events, gate, role, k) {
      SameSetMeansSameStanding(engine, c, key, events, gate, role, k);
    }
  }

  /** All required evidence of the gate stands, and all its roles approved it. */
  ghost predicate GateStands(engine: Engine, key: int, events: seq<Event>, gate: string)
    requires gate in GateKeys(engine)
  {
    && (forall kind :: kind in RequiredEvidence(engine, gate) ==> EvidenceStands(engine, events, gate, kind))
    && (forall role :: role in RequiredRoles(engine, gate) ==> RoleStands(engine, key, events, gate, role))
  }

  lemma {:induction false} EvidenceAndRolesStand(engine: Engine, c: Crypto, key: int, events: seq<Event>, gate: string)
    requires Injective(c) && gate in GateKeys(engine)
    ensures var s := Exec(engine, c, key, events);
            GateStands(engine, key, events, gate) <==>
              && (forall kind :: kind in RequiredEvidence(engine, gate) ==> HasEvidence(s, gate, kind))
              && (forall role :: role in RequiredRoles(engine, gate) ==> RoleApproves(c, s, gate, role))
  {
    var s := Exec(engine, c, key, events);
    forall kind | kind in RequiredEvidence(engine, gate)
      ensures HasEvidence(s, gate, kind) <==> EvidenceStands(engine, events, gate, kind)
    {
      HasEvidenceIff(engine, c, key, events, gate, kind);
    }
    forall role | role in RequiredRoles(engine, gate)
      ensures RoleApproves(c, s, gate, role) <==> RoleStands(engine, key, events, gate, role)
    {
      RoleApprovesWhatStands(engine, c, key, events, gate, role);
    }
  }

  /** The gates of the pilot's stages: what stands, and the counts each compares. */
  lemma {:induction false} StageGatesReadyIff(c: Crypto, key: int, events: seq<Event>, o: Observations)
    requires Injective(c)
    ensures var s := Exec(PilotGates, c, key, events);
            && (GateReady(PilotGates, c, s, o, "B") <==>
                  && GateStands(PilotGates, key, events, "B") && o.successfulSyncs > 0 && o.dispatchReviews > 0
                  && o.stableDays >= o.stableDaysTarget && o.accuracyMet)
            && (GateReady(PilotGates, c, s, o, "C") <==>
                  && GateStands(PilotGates, key, events, "C") && o.modelInvocations > 0 && o.qualityEvaluations > 0)
            && (GateReady(PilotGates, c, s, o, "D") <==>
                  GateStands(PilotGates, key, events, "D") && o.verifiedLiveSends > 0)
  {
    EvidenceAndRolesStand(PilotGates, c, key, events, "B");
    EvidenceAndRolesStand(PilotGates, c, key, events, "C");
    EvidenceAndRolesStand(PilotGates, c, key, events, "D");
  }

  /** Production asks for its own evidence and roles, for those of the three stages with all their
      counts, and for no more open severe incidents than the program tolerates. */
  lemma {:induction false} ProductionReadyIff(c: Crypto, key: int, events: seq<Event>, o: Observations)
    requires Injective(c)
    ensures GateReady(PilotGates, c, Exec(PilotGates, c, key, events), o, "PRODUCTION") <==>
              && GateStands(PilotGates, key, events, "B") && GateStands(PilotGates, key, events, "C")
              && GateStands(PilotGates, key, events, "D") && GateStands(PilotGates, key, events, "PRODUCTION")
              && o.successfulSyncs > 0 && o.dispatchReviews > 0 && o.stableDays >= o.stableDaysTarget && o.accuracyMet
              && o.modelInvocations > 0 && o.qualityEvaluations > 0 && o.verifiedLiveSends > 0
              && o.openIncidents <= o.openIncidentsMax
  {
    StageGatesReadyIff(c, key, events, o);
    EvidenceAndRolesStand(PilotGates, c, key, events, "PRODUCTION");
  }

  /** The general-availability gates compare no counts. */
  lemma {:induction false} GaGatesReadyIff(c: Crypto, key: int, events: seq<Event>, o: Observations, gate: string)
    requires Injective(c) && gate in GateKeys(GaGates)
    ensures GateReady(GaGates, c, Exec(GaGates, c, key, events), o, gate) <==> GateStands(GaGates, key, events, gate)
  {
    EvidenceAndRolesStand(GaGates, c, key, events, gate);
  }

  /** GO exactly when all evidence stands and is approved at all four gates, every count is met and no
      severe incident is open, whatever number of them the program tolerates. */
  lemma {:induction false} GoMeansApproved(c: Crypto, key: int, events: seq<Event>, o: Observations)
    requires Injective(c)
    ensures Go(c, Exec(PilotGates, c, key, events), o) <==>
              && GateStands(PilotGates, key, events, "B") && GateStands(PilotGates, key, events, "C")
              && GateStands(PilotGates, key, events, "D") && GateStands(PilotGates, key, events, "PRODUCTION")
              && o.successfulSyncs > 0 && o.dispatchReviews > 0 && o.stableDays >= o.stableDaysTarget && o.accuracyMet
              && o.modelInvocations > 0 && o.qualityEvaluations > 0 && o.verifiedLiveSends > 0
              && o.openIncidents == 0 && 0 <= o.openIncidentsMax
  {
    StageGatesReadyIff(c, key, events, o);
    ProductionReadyIff(c, key, events, o);
  }

  /** Who must approve what, role by role. */
  lemma {:induction false} GatesOfRoles(engine: Engine, gate: string, role: string)
    requires gate in GateKeys(engine)
    ensures role in RequiredRoles(engine, gate) <==>
              match role
              case "product_owner" => true
              case "it_admin" => gate == "B"
              case "ai_platform_owner" => gate == "C"
              case "security_owner" => gate in {"C", "D", "PRODUCTION", "GA"}
              case "business_owner" => gate in {"C", "VALUE"}
              case "operations_owner" => gate in {"D", "PRODUCTION", "COMMERCIAL", "GA"}
              case "platform_owner" => gate in {"PRODUCTION", "GA"}
              case "privacy_owner" => gate in {"PRODUCTION", "COMMERCIAL", "GA"}
              case "finance_owner" => gate in {"COMMERCIAL", "VALUE", "GA"}
              case _ => false
  {}
}
