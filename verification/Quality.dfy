/** The quality gate of a work item: how much of the evidence it requires was ever submitted as
    verified, over all its runs, and whether anything submitted for it is disputed. */
module Quality {
  import opened Graphs

  /** Verification status of a submitted claim; an unreadable one lacks its text or its confidence
      is no number. Every status but the first and the third counts for nothing. */
  datatype Claim = Verified | Unverified | Disputed | Unreadable

  /** One row per submission, with the rows of its evidence. */
  datatype Artifact = Artifact(item: Id, evidence: seq<Claim>)

  predicate Readable(claims: seq<Claim>) {
    Unreadable !in claims
  }

  function VerifiedIn(claims: seq<Claim>): nat {
    if claims == [] then 0
    else VerifiedIn(claims[..|claims| - 1]) + if claims[|claims| - 1].Verified? then 1 else 0
  }

  /** Verified claims of item i over all its submissions. */
  function VerifiedFor(artifacts: seq<Artifact>, i: Id): nat {
    if artifacts == [] then 0
    else
      var last := artifacts[|artifacts| - 1];
      VerifiedFor(artifacts[..|artifacts| - 1], i) + if last.item == i then VerifiedIn(last.evidence) else 0
  }

  predicate HasArtifact(artifacts: seq<Artifact>, i: Id) {
    exists a :: a in artifacts && a.item == i
  }

  predicate HasDisputed(artifacts: seq<Artifact>, i: Id) {
    exists a :: a in artifacts && a.item == i && Disputed in a.evidence
  }

  /** How many verified claims make up full coverage for so many evidence requirements. */
  function Required(requirements: nat): (r: nat)
    ensures r >= 1
  {
    if requirements - 1 > 1 then requirements - 1 else 1
  }

  /** a / b rounded to the nearest integer, a tie to the even one. */
  function Rounded(a: nat, b: nat): nat
    requires b > 0
  {
    var q, r := a / b, a % b;
    if 2 * r > b || (2 * r == b && q % 2 == 1) then q + 1 else q
  }

  function Coverage(verified: nat, required: nat): nat
    requires required > 0
  {
    var percent := Rounded(100 * verified, required);
    if percent < 100 then percent else 100
  }

  predicate Passes(artifacts: seq<Artifact>, requirements: nat, i: Id) {
    && HasArtifact(artifacts, i)
    && Coverage(VerifiedFor(artifacts, i), Required(requirements)) >= 80
    && !HasDisputed(artifacts, i)
  }

  // ----- What the gate asks for -----

  lemma {:induction false} RoundedReaches80(a: nat, b: nat)
    requires b > 0
    ensures Rounded(a, b) >= 80 <==> 2 * a >= 159 * b
  {
    var q, r := a / b, a % b;
    assert a == q * b + r;
    if q >= 80 {
      assert q * b >= 80 * b;
    } else if q <= 78 {
      assert q * b <= 78 * b;
    }
  }

  lemma {:induction false} VerifiedMeansArtifact(artifacts: seq<Artifact>, i: Id)
    ensures VerifiedFor(artifacts, i) > 0 ==> HasArtifact(artifacts, i)
  {
    if artifacts == [] {
    } else {
      var n := |artifacts| - 1;
      VerifiedMeansArtifact(artifacts[..n], i);
      assert artifacts[n] in artifacts;
    }
  }

  /** The count is what it says: how often VERIFIED occurs among the claims. */
  lemma {:induction false} VerifiedIsCounted(claims: seq<Claim>)
    ensures VerifiedIn(claims) == multiset(claims)[Verified]
  {
    if claims == [] {
    } else {
      var n := |claims| - 1;
      VerifiedIsCounted(claims[..n]);
      assert claims == claims[..n] + [claims[n]];
    }
  }

  /** In plain numbers: some verified claim, at least 79.5 percent of one less than the requirements
      (the rounding lets them pass), and no dispute. An artifact is there anyway. */
  lemma {:induction false} PassesIff(artifacts: seq<Artifact>, requirements: nat, i: Id)
    ensures Passes(artifacts, requirements, i) <==>
              && VerifiedFor(artifacts, i) > 0
              && 200 * VerifiedFor(artifacts, i) >= 159 * (requirements - 1)
              && !HasDisputed(artifacts, i)
  {
    RoundedReaches80(100 * VerifiedFor(artifacts, i), Required(requirements));
    VerifiedMeansArtifact(artifacts, i);
  }

  // ----- Submissions -----

  /** A submission adds its verified claims and its disputes to its own item and to no other. */
  lemma {:induction false} Submitting(artifacts: seq<Artifact>, a: Artifact, i: Id)
    ensures var more := artifacts + [a];
            && VerifiedFor(more, i) == VerifiedFor(artifacts, i) + (if a.item == i then VerifiedIn(a.evidence) else 0)
            && (HasDisputed(more, i) <==> HasDisputed(artifacts, i) || (a.item == i && Disputed in a.evidence))
            && (HasArtifact(more, i) <==> HasArtifact(artifacts, i) || a.item == i)
  {
    var more := artifacts + [a];
    assert more[..|more| - 1] == artifacts;
    assert forall x :: x in more <==> x in artifacts || x == a;
  }

  lemma {:induction false} OthersSubmit(artifacts: seq<Artifact>, a: Artifact, requirements: nat, i: Id)
    requires a.item != i
    ensures Passes(artifacts + [a], requirements, i) <==> Passes(artifacts, requirements, i)
  {
    Submitting(artifacts, a, i);
  }

  function AllVerified(n: nat): (claims: seq<Claim>)
    ensures |claims| == n && forall c <- claims :: c.Verified?
  {
    if n == 0 then [] else AllVerified(n - 1) + [Verified]
  }

  lemma {:induction false} AllVerifiedCount(n: nat)
    ensures VerifiedIn(AllVerified(n)) == n
  {
    if n == 0 {
    } else {
      AllVerifiedCount(n - 1);
      assert AllVerified(n)[..n - 1] == AllVerified(n - 1);
    }
  }

  /** As long as nothing is disputed one submission can always make an item pass. */
  lemma {:induction false} EnoughVerifiedPasses(artifacts: seq<Artifact>, requirements: nat, i: Id)
    requires !HasDisputed(artifacts, i)
    ensures Passes(artifacts + [Artifact(i, AllVerified(Required(requirements)))], requirements, i)
  {
    var a := Artifact(i, AllVerified(Required(requirements)));
    AllVerifiedCount(Required(requirements));
    Submitting(artifacts, a, i);
    PassesIff(artifacts + [a], requirements, i);
  }

  lemma {:induction false} NoneVerified(claims: seq<Claim>)
    requires Verified !in claims
    ensures VerifiedIn(claims) == 0
  {
    if claims == [] {
    } else {
      NoneVerified(claims[..|claims| - 1]);
      assert claims[|claims| - 1] in claims;
    }
  }

  /** A submission without a verified claim leaves an item that had none before short. */
  lemma {:induction false} UnverifiedDoesNotPass(artifacts: seq<Artifact>, claims: seq<Claim>, requirements: nat,
                                                 i: Id)
    requires VerifiedFor(artifacts, i) == 0 && Verified !in claims
    ensures !Passes(artifacts + [Artifact(i, claims)], requirements, i)
  {
    var a := Artifact(i, claims);
    NoneVerified(claims);
    Submitting(artifacts, a, i);
    PassesIff(artifacts + [a], requirements, i);
  }
}
