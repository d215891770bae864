// aegis/pipeline/f5_risk_stepup.py: the verdict bands, the quorum a step-up
// asks for, and when a quorum can be met.
module StepUp {
  import opened Wrappers
  import opened Models
  import opened Context

  const LOW_BAND := 40.0
  const STEPUP_BAND := 75.0
  const HNP_LOW_BAND := 25.0
  const HNP_STEPUP_BAND := 65.0

  const UNATTENDED := Signal(Unattended, Low, false, 10.0)

  // `score` is None where the model raises.
  datatype RiskModel = RiskModel(name: string, version: string, score: Bundle -> Option<real>)

  function RequiredQuorum(score: real, lowBand: real, stepupBand: real): nat {
    if score >= (lowBand + stepupBand) / 2.0 then 3 else 2
  }

  function Others(guardians: seq<string>, initiator: string): seq<string> {
    if guardians == [] then []
    else
      var front := Others(guardians[..|guardians| - 1], initiator);
      if guardians[|guardians| - 1] != initiator then front + [guardians[|guardians| - 1]] else front
  }

  // The verdict for a final score.
  function Resolve(score: real, lowBand: real, stepupBand: real, eligible: nat): Verdict {
    if score < lowBand then Allow
    else if score >= stepupBand then Block
    else if eligible < RequiredQuorum(score, lowBand, stepupBand) then Block
    else Verdict.StepUp
  }

  // None where the model raises.
  datatype Resolved = Resolved(ctx: Ctx, verdict: Option<Verdict>)

  predicate Unbounded(b: Bundle) { !b.payment.humanPresent && b.intent.maxValueUsd.None? }

  function LowBand(b: Bundle): real { if b.payment.humanPresent then LOW_BAND else HNP_LOW_BAND }
  function StepUpBand(b: Bundle): real { if b.payment.humanPresent then STEPUP_BAND else HNP_STEPUP_BAND }

  // The model's score only adds; the sum falls in a band. `challengeId` and
  // `hashCart` stand for a fresh uuid and the hash of a cart.
  function Settle(ctx: Ctx, score: real, hashCart: Cart -> string, challengeId: string): Resolved {
    var b := ctx.bundle;
    var risk := Min(100.0, ctx.riskScore + score);
    var eligible := Others(b.guardians, b.payment.initiatorAgent);
    var verdict := Resolve(risk, LowBand(b), StepUpBand(b), |eligible|);
    var challenge :=
      Challenge(challengeId, hashCart(b.cart.(proof := None)), RequiredQuorum(risk, LowBand(b), StepUpBand(b)),
                               b.payment.initiatorAgent, eligible);
    Resolved(ctx.(riskScore := risk, stepup := if verdict.StepUp? then Some(challenge) else ctx.stepup), Some(verdict))
  }

  function F5(ctx: Ctx, model: RiskModel, hashCart: Cart -> string, challengeId: string): Resolved {
    var c1 := ctx.(modelsUsed := ctx.modelsUsed[model.name := model.version]);
    if Unbounded(ctx.bundle) then Resolved(WithSignal(c1, Hard(UnboundedAuthority)), Some(Block))
    else
      var c2 := if ctx.bundle.payment.humanPresent then c1 else WithSignal(c1, UNATTENDED);
      match model.score(ctx.bundle)
      case None => Resolved(c2, None)
      case Some(score) => Settle(c2, score, hashCart, challengeId)
  }

  method Run(ctx: DecisionContext, model: RiskModel, hashCart: Cart -> string, challengeId: string)
    returns (verdict: Option<Verdict>)
    modifies ctx
    ensures Resolved(ctx.Value(), verdict) == F5(old(ctx.Value()), model, hashCart, challengeId)
  {
    ctx.RecordModel(model.name, model.version);
    var hnp := !ctx.bundle.payment.humanPresent;
    if hnp {
      if ctx.bundle.intent.maxValueUsd.None? {
        ctx.AddSignal(Hard(UnboundedAuthority));
        return Some(Block);
      }
      ctx.AddSignal(UNATTENDED);
    }
    var lowBand := if hnp then HNP_LOW_BAND else LOW_BAND;
    var stepupBand := if hnp then HNP_STEPUP_BAND else STEPUP_BAND;
    var score := model.score(ctx.bundle);
    if score.None? { return None; }
    ctx.riskScore := Min(100.0, ctx.riskScore + score.value);
    if ctx.riskScore < lowBand { return Some(Allow); }
    if ctx.riskScore >= stepupBand { return Some(Block); }
    var initiator := ctx.bundle.payment.initiatorAgent;
    var eligible := Others(ctx.bundle.guardians, initiator);
    var m := RequiredQuorum(ctx.riskScore, lowBand, stepupBand);
    if |eligible| < m { return Some(Block); }
    ctx.stepup := Some(Challenge(challengeId, hashCart(ctx.bundle.cart.(proof := None)), m, initiator, eligible));
    return Some(Verdict.StepUp);
  }

  // ---- Quorums ----

  // Checks a signature on a cart hash, and a signer's own signature.
  datatype Seals = Seals(
    publicKey: string -> Option<string>, verify: (string, string, string) -> bool, sign: (string, string) -> string)

  predicate ValidSigner(ch: Challenge, seals: Seals, did: string, sig: string) {
    && did != ch.initiator && did in ch.eligibleApprovers
    && seals.publicKey(did).Some? && seals.verify(seals.publicKey(did).value, ch.cartHash, sig)
  }

  function ValidSigners(ch: Challenge, seals: Seals, contributions: map<string, string>): set<string> {
    set did | did in contributions && ValidSigner(ch, seals, did, contributions[did])
  }

  lemma OneMoreSigner(ch: Challenge, seals: Seals, contributions: map<string, string>, left: set<string>, did: string)
    requires did in contributions && did in left
    ensures ValidSigners(ch, seals, contributions - (left - {did}))
         == ValidSigners(ch, seals, contributions - left)
          + if ValidSigner(ch, seals, did, contributions[did]) then {did} else {}
  {
    var fewer, more := contributions - left, contributions - (left - {did});
    assert more.Keys == fewer.Keys + {did};
  }

  // `verify_quorum`, for any order of the contributions.
  method VerifyQuorum(ch: Challenge, contributions: map<string, string>, seals: Seals)
    returns (satisfied: bool, remaining: nat)
    ensures satisfied <==> |ValidSigners(ch, seals, contributions)| >= ch.requiredM
    ensures remaining == if satisfied then 0 else ch.requiredM - |ValidSigners(ch, seals, contributions)|
  {
    var valid: set<string> := {};
    var left := contributions.Keys;
    while left != {}
      invariant left <= contributions.Keys
      invariant valid == ValidSigners(ch, seals, contributions - left)
    {
      var did :| did in left;
      OneMoreSigner(ch, seals, contributions, left, did);
      left := left - {did};
      if did != ch.initiator && did in ch.eligibleApprovers {
        var pub := seals.publicKey(did);
        if pub.Some? && seals.verify(pub.value, ch.cartHash, contributions[did]) {
          valid := valid + {did};
        }
      }
    }
    assert contributions - {} == contributions;
    satisfied := |valid| >= ch.requiredM;
    remaining := if satisfied then 0 else ch.requiredM - |valid|;
  }

  // Who could sign validly at all.
  function Reachable(ch: Challenge): set<string> {
    set did | did in ch.eligibleApprovers && did != ch.initiator
  }

  ghost predicate EveryoneCanSign(ch: Challenge, seals: Seals) {
    forall did :: did in Reachable(ch) ==>
      seals.publicKey(did).Some? && seals.verify(seals.publicKey(did).value, ch.cartHash, seals.sign(did, ch.cartHash))
  }

  lemma NoOtherSigners(ch: Challenge, seals: Seals, contributions: map<string, string>)
    ensures ValidSigners(ch, seals, contributions) <= Reachable(ch)
  {
  }

  lemma SubsetSize(a: set<string>, b: set<string>)
    requires a <= b
    ensures |a| <= |b|
  {
    assert b == a + (b - a);
  }

  // Some contributions meet the quorum exactly when the distinct eligible
  // approvers are enough; a name listed twice can sign only once.
  lemma QuorumReachable(ch: Challenge, seals: Seals)
    requires EveryoneCanSign(ch, seals)
    ensures (exists contributions :: |ValidSigners(ch, seals, contributions)| >= ch.requiredM)
       <==> |Reachable(ch)| >= ch.requiredM
  {
    var all := map did | did in Reachable(ch) :: seals.sign(did, ch.cartHash);
    assert ValidSigners(ch, seals, all) == Reachable(ch);
    if contributions :| |ValidSigners(ch, seals, contributions)| >= ch.requiredM {
      NoOtherSigners(ch, seals, contributions);
      SubsetSize(ValidSigners(ch, seals, contributions), Reachable(ch));
    }
  }

  // Signs the cart of this challenge, validly, as one of those asked.
  predicate SignsFor(ch: Challenge, seals: Seals, contributions: map<string, string>, did: string) {
    && did in contributions && did in ch.eligibleApprovers && did != ch.initiator
    && seals.publicKey(did).Some? && seals.verify(seals.publicKey(did).value, ch.cartHash, contributions[did])
  }

  // A quorum is met exactly if so many different approvers do.
  lemma QuorumExactly(ch: Challenge, seals: Seals, contributions: map<string, string>)
    ensures |ValidSigners(ch, seals, contributions)| >= ch.requiredM <==>
      exists signers: set<string> ::
        |signers| >= ch.requiredM && forall did :: did in signers ==> SignsFor(ch, seals, contributions, did)
  {
    var valid := ValidSigners(ch, seals, contributions);
    assert forall did :: did in valid <==> SignsFor(ch, seals, contributions, did);
    if signers: set<string> :|
      |signers| >= ch.requiredM && forall did :: did in signers ==> SignsFor(ch, seals, contributions, did)
    {
      SubsetSize(signers, valid);
    }
  }

  lemma {:induction false} OthersAre(guardians: seq<string>, initiator: string)
    ensures forall g :: g in Others(guardians, initiator) <==> g in guardians && g != initiator
  {
    if guardians == [] {
    } else {
      OthersAre(guardians[..|guardians| - 1], initiator);
      assert guardians == guardians[..|guardians| - 1] + [guardians[|guardians| - 1]];
    }
  }

  // A step-up never asks the maker, and it can be met exactly when enough
  // distinct guardians other than the maker are listed.
  lemma StepUpChallenge(ctx: Ctx, model: RiskModel, hashCart: Cart -> string, challengeId: string)
    requires F5(ctx, model, hashCart, challengeId).verdict == Some(Verdict.StepUp)
    ensures F5(ctx, model, hashCart, challengeId).ctx.stepup.Some?
    ensures var ch := F5(ctx, model, hashCart, challengeId).ctx.stepup.value;
      && ch.initiator == ctx.bundle.payment.initiatorAgent && ch.initiator !in ch.eligibleApprovers
      && ch.cartHash == hashCart(ctx.bundle.cart.(proof := None))
      && ch.requiredM in {2, 3} && |ch.eligibleApprovers| >= ch.requiredM
      && Reachable(ch) == (set g | g in ctx.bundle.guardians && g != ctx.bundle.payment.initiatorAgent)
  {
    OthersAre(ctx.bundle.guardians, ctx.bundle.payment.initiatorAgent);
  }

  // One guardian listed twice passes the count, and then no quorum exists.
  lemma DuplicateGuardian(ctx: Ctx, model: RiskModel, hashCart: Cart -> string, challengeId: string, seals: Seals,
                          g: string)
    requires ctx.bundle.guardians == [g, g] && g != ctx.bundle.payment.initiatorAgent && ctx.bundle.payment.humanPresent
    requires ctx.riskScore == 45.0 && model.score(ctx.bundle) == Some(0.0)
    ensures F5(ctx, model, hashCart, challengeId).verdict == Some(Verdict.StepUp)
    ensures var ch := F5(ctx, model, hashCart, challengeId).ctx.stepup.value;
      forall contributions :: |ValidSigners(ch, seals, contributions)| < ch.requiredM
  {
    var guardians := ctx.bundle.guardians;
    assert guardians[..1] == [g] && [g][..0] == [];
    assert Others([g], ctx.bundle.payment.initiatorAgent) == [g];
    assert Others(guardians, ctx.bundle.payment.initiatorAgent) == [g, g];
    var ch := F5(ctx, model, hashCart, challengeId).ctx.stepup.value;
    assert Reachable(ch) == {g};
    forall contributions ensures |ValidSigners(ch, seals, contributions)| < ch.requiredM {
      NoOtherSigners(ch, seals, contributions);
      SubsetSize(ValidSigners(ch, seals, contributions), Reachable(ch));
    }
  }
}
