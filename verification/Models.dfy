// aegis/models.py and aegis/gateway/verify.py: what is submitted, what a
// decision is made of, and the signature check every evaluation starts with.
// Texts no decision depends on (details, rationales) are not part of it.
module Models {
  import opened Wrappers

  // ---- Inbound ----

  datatype Proof = Proof(verificationMethod: string, signature: string)
  datatype Party = Party(legalName: Option<string>, accountRef: Option<string>, wallet: Option<string>)
  datatype Role = Buyer | Merchant | Rail | DataResidency
  datatype Jurisdiction = Jurisdiction(iso: string, role: Role)

  datatype Intent = Intent(
    description: string, maxValueUsd: Option<real>, allowedMerchants: seq<string>, signerDid: string,
    originator: Party, beneficiary: Party, proof: Option<Proof>)

  datatype Cart = Cart(
    summary: string, totalUsd: real, merchantDid: string, merchantLegalName: Option<string>,
    beneficiary: Party, proof: Option<Proof>)

  datatype Payment = Payment(mandateId: string, humanPresent: bool, initiatorAgent: string, proof: Option<Proof>)

  datatype Bundle = Bundle(
    intent: Intent, cart: Cart, payment: Payment, touched: seq<Jurisdiction>, processingRegion: string,
    guardians: seq<string>)

  // `x and x != ""` for an optional text.
  predicate Given(text: Option<string>) { text.Some? && text.value != "" }

  // ---- Gate 0: the three signatures ----

  // A mandate with its proof taken out is what a signature covers.
  datatype Signed = OfIntent(intent: Intent) | OfCart(cart: Cart) | OfPayment(payment: Payment)

  datatype KeyRing = KeyRing(publicKey: string -> Option<string>, verify: (string, Signed, string) -> bool)

  // The DID URL up to its first '#'.
  function BaseDid(url: string): string {
    if url == "" || url[0] == '#' then "" else [url[0]] + BaseDid(url[1..])
  }

  predicate VerifyMandate(ring: KeyRing, content: Signed, proof: Option<Proof>, signer: string) {
    && proof.Some? && BaseDid(proof.value.verificationMethod) == signer
    && ring.publicKey(signer).Some? && ring.verify(ring.publicKey(signer).value, content, proof.value.signature)
  }

  predicate VerifyBundle(ring: KeyRing, b: Bundle) {
    && VerifyMandate(ring, OfIntent(b.intent.(proof := None)), b.intent.proof, b.intent.signerDid)
    && VerifyMandate(ring, OfCart(b.cart.(proof := None)), b.cart.proof, b.cart.merchantDid)
    && VerifyMandate(ring, OfPayment(b.payment.(proof := None)), b.payment.proof, b.payment.initiatorAgent)
  }

  // ---- Findings and verdicts ----

  datatype Code =
    | SigInvalid | RailIneligible | TravelRuleMissing | DataResidencyBreach
    | ProviderUnavailable | StaleList | PepEdd | SdnHit | Ofac50Pct
    | VelocityCapExceeded | StructuringSuspicion | IntentDrift
    | UnboundedAuthority | Unattended | StageSkipped | FailedClosed

  datatype Severity = Low | Medium | High

  datatype Signal = Signal(code: Code, severity: Severity, hardBlock: bool, riskDelta: real)

  function Hard(code: Code): Signal { Signal(code, High, true, 0.0) }

  datatype Verdict = Allow | StepUp | Block {
    function Rank(): nat { match this case Allow => 0 case StepUp => 1 case Block => 2 }
  }

  datatype Challenge = Challenge(
    challengeId: string, cartHash: string, requiredM: nat, initiator: string, eligibleApprovers: seq<string>)
}
