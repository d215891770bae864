// aegis/ap2/verifier.py: of any texts whatever, exactly which chains are
// accepted, and what a refusal says.
module Acceptance {
  import opened Wrappers
  import opened Json
  import opened Disclose
  import opened SdJwt
  import opened Constraints
  import opened Minimal
  import opened ChainVerifier

  // ---- What the texts say ----

  function Payload(c: Crypto, jwt: string): Json {
    match c.parseJws(jwt) case Some(jws) => jws.payload case None => Null
  }

  // The key that the open mandate endorses.
  function Endorsed(c: Crypto, open: Json): Json {
    Member(Member(open, "cnf"), "jwk")
  }

  ghost predicate SignedUnder(c: Crypto, jwt: string, key: Option<string>) {
    key.Some? && c.parseJws(jwt).Some? && c.checkSignature(jwt, key.value)
  }

  ghost predicate FullyDisclosed(c: Crypto, sd: SDJWT, payload: Json)
    requires c.Sound()
  {
    Outcomes(c.codec, payload, sd.disclosures).Disclosed? && Outcomes(c.codec, payload, sd.disclosures).ok
  }

  ghost predicate Says(c: Crypto, jwt: string, key: string, value: string) {
    GetMember(Payload(c, jwt), key) == Some(Str(value))
  }

  function KbOf(sd: SDJWT): string {
    match sd.kbJwt case Some(kb) => kb case None => ""
  }

  // ---- Step by step: what passing means, and what a refusal denies ----

  ghost predicate ConstraintsMet(c: Crypto, openM: SDJWT, open: Json, closed: Json, ctx: VerifyContext)
    requires c.Sound()
  {
    AllPass(ctx.registry, closed, ctx.ConstraintCtx(MerchantsIn(Outcomes(c.codec, open, openM.disclosures))))
  }

  ghost predicate MatchesCheckout(closed: Json, checkout: Json) {
    && Member(closed, "payment_amount") == Member(checkout, "amount")
    && Member(closed, "payee") == Member(checkout, "merchant")
    && Member(closed, "line_items") == Member(checkout, "line_items")
  }

  ghost predicate ContentDenied(c: Crypto, openM: SDJWT, open: Json, closed: Json, checkoutJwt: string,
                                ctx: VerifyContext, r: Reason)
    requires c.Sound()
  {
    var checkout := Payload(c, checkoutJwt);
    match r
    case CheckoutUnparseable => c.parseJws(checkoutJwt).None?
    case AmountDiffers => Member(closed, "payment_amount") != Member(checkout, "amount")
    case PayeeDiffers => Member(closed, "payee") != Member(checkout, "merchant")
    case LineItemsDiffer => Member(closed, "line_items") != Member(checkout, "line_items")
    case ConstraintUnresolved => !ConstraintsMet(c, openM, open, closed, ctx)
    case _ => false
  }

  lemma ContentIff(c: Crypto, openM: SDJWT, open: Json, closed: Json, checkoutJwt: string, ctx: VerifyContext)
    requires c.Sound()
    ensures var r := VerifyContent(c, openM, open, closed, checkoutJwt, ctx);
      && (r.Passed? <==> Payload(c, checkoutJwt).Obj? && MatchesCheckout(closed, Payload(c, checkoutJwt))
                         && ConstraintsMet(c, openM, open, closed, ctx))
      && (r.Passed? ==> r.closedPayload == closed)
      && (r.Failed? ==> ContentDenied(c, openM, open, closed, checkoutJwt, ctx, r.reason))
  {
    NoFalse(ctx.registry, closed, ctx.ConstraintCtx(MerchantsIn(Outcomes(c.codec, open, openM.disclosures))));
  }

  // A key-binding JWT under the endorsed key, for this nonce and this presentation.
  ghost predicate Bound(c: Crypto, closedM: SDJWT, jwk: Json, nonce: string) {
    var kb := KbOf(closedM);
    && SignedUnder(c, kb, c.rawKey(jwk))
    && GetMember(c.parseJws(kb).value.header, "typ") == Some(Str("kb+jwt"))
    && Says(c, kb, "nonce", nonce) && Says(c, kb, "sd_hash", c.Hash(PresentationWithoutKb(closedM)))
  }

  ghost predicate Locked(open: Json, closed: Json) {
    Member(open, "constraints") == Member(closed, "constraints") && Member(closed, "open_iat") == Member(open, "iat")
  }

  ghost predicate Hashed(c: Crypto, openM: SDJWT, closed: Json, checkoutJwt: string) {
    && Member(closed, "sd_hash") == Str(c.Hash(openM.issuerJwt))
    && Member(closed, "checkout_hash") == Str(c.Hash(checkoutJwt))
  }

  ghost predicate BindingsFault(c: Crypto, openM: SDJWT, closedM: SDJWT, open: Json, closed: Json, jwk: Json,
                                checkoutJwt: string, nonce: string, r: Reason)
  {
    match r
    case ClaimMutated => Member(open, "constraints") != Member(closed, "constraints")
    case OpenIatMismatch => Member(closed, "open_iat") != Member(open, "iat")
    case MissingKb => KbOf(closedM) == ""
    case KbFailed => !Bound(c, closedM, jwk, nonce)
    case Rebound => Member(closed, "sd_hash") != Str(c.Hash(openM.issuerJwt))
    case CheckoutHashMismatch => Member(closed, "checkout_hash") != Str(c.Hash(checkoutJwt))
    case _ => false
  }

  ghost predicate BindingsDenied(c: Crypto, openM: SDJWT, closedM: SDJWT, open: Json, closed: Json, jwk: Json,
                                 checkoutJwt: string, ctx: VerifyContext, r: Reason)
    requires c.Sound()
  {
    || BindingsFault(c, openM, closedM, open, closed, jwk, checkoutJwt, ctx.nonce, r)
    || ContentDenied(c, openM, open, closed, checkoutJwt, ctx, r)
  }

  lemma KbIff(c: Crypto, closedM: SDJWT, jwk: Json, nonce: string)
    requires closedM.kbJwt.Some?
    ensures VerifyKbJwt(c, closedM.kbJwt.value, jwk, nonce, SdHash(c, closedM)) <==> Bound(c, closedM, jwk, nonce)
  {
  }

  lemma BindingsIff(c: Crypto, openM: SDJWT, closedM: SDJWT, open: Json, closed: Json, jwk: Json,
                    checkoutJwt: string, ctx: VerifyContext)
    requires c.Sound()
    ensures var r := VerifyBindings(c, openM, closedM, open, closed, jwk, checkoutJwt, ctx);
      && (r.Passed? <==> Locked(open, closed) && KbOf(closedM) != "" && Bound(c, closedM, jwk, ctx.nonce)
                         && Hashed(c, openM, closed, checkoutJwt)
                         && VerifyContent(c, openM, open, closed, checkoutJwt, ctx).Passed?)
      && (r.Passed? ==> r.closedPayload == closed)
  {
    ContentIff(c, openM, open, closed, checkoutJwt, ctx);
    if closedM.kbJwt.Some? { KbIff(c, closedM, jwk, ctx.nonce); }
  }

  lemma BindingsFaulty(c: Crypto, openM: SDJWT, closedM: SDJWT, open: Json, closed: Json, jwk: Json,
                       checkoutJwt: string, ctx: VerifyContext, r: VerifyResult)
    requires c.Sound() && r == VerifyBindings(c, openM, closedM, open, closed, jwk, checkoutJwt, ctx) && r.Failed?
    ensures BindingsFault(c, openM, closedM, open, closed, jwk, checkoutJwt, ctx.nonce, r.reason)
      || r == VerifyContent(c, openM, open, closed, checkoutJwt, ctx)
  {
    if closedM.kbJwt.Some? { KbIff(c, closedM, jwk, ctx.nonce); }
  }

  lemma BindingsRefused(c: Crypto, openM: SDJWT, closedM: SDJWT, open: Json, closed: Json, jwk: Json,
                        checkoutJwt: string, ctx: VerifyContext, r: VerifyResult)
    requires c.Sound() && r == VerifyBindings(c, openM, closedM, open, closed, jwk, checkoutJwt, ctx) && r.Failed?
    ensures BindingsDenied(c, openM, closedM, open, closed, jwk, checkoutJwt, ctx, r.reason)
  {
    BindingsFaulty(c, openM, closedM, open, closed, jwk, checkoutJwt, ctx, r);
    ContentIff(c, openM, open, closed, checkoutJwt, ctx);
  }

  ghost predicate IssuerSigned(c: Crypto, openM: SDJWT, open: Json, ctx: VerifyContext) {
    open.Obj? && SignedUnder(c, openM.issuerJwt, ctx.issuerResolver(GetOr(open.fields, "iss", Str(""))))
  }

  ghost predicate CredentialsFault(c: Crypto, openM: SDJWT, closedM: SDJWT, open: Json, closed: Json,
                                   ctx: VerifyContext, r: Reason)
    requires c.Sound()
  {
    match r
    case OpenSignature => !IssuerSigned(c, openM, open, ctx)
    case MissingCnf => !Truthy(Endorsed(c, open))
    case MalformedCnf => c.rawKey(Endorsed(c, open)).None?
    case ClosedSignature => !SignedUnder(c, closedM.issuerJwt, c.rawKey(Endorsed(c, open)))
    case DisclosureMismatch => !FullyDisclosed(c, openM, open) || !FullyDisclosed(c, closedM, closed)
    case _ => false
  }

  ghost predicate CredentialsDenied(c: Crypto, openM: SDJWT, closedM: SDJWT, open: Json, closed: Json,
                                    checkoutJwt: string, ctx: VerifyContext, r: Reason)
    requires c.Sound()
  {
    || CredentialsFault(c, openM, closedM, open, closed, ctx, r)
    || BindingsDenied(c, openM, closedM, open, closed, Endorsed(c, open), checkoutJwt, ctx, r)
  }

  lemma CredentialsIff(c: Crypto, openM: SDJWT, closedM: SDJWT, open: Json, closed: Json, checkoutJwt: string,
                       ctx: VerifyContext)
    requires c.Sound() && c.parseJws(openM.issuerJwt).Some? && c.parseJws(closedM.issuerJwt).Some?
    ensures var r := VerifyCredentials(c, openM, closedM, open, closed, checkoutJwt, ctx);
      && (r.Passed? <==>
            && IssuerSigned(c, openM, open, ctx) && Truthy(Endorsed(c, open))
            && SignedUnder(c, closedM.issuerJwt, c.rawKey(Endorsed(c, open)))
            && FullyDisclosed(c, openM, open) && FullyDisclosed(c, closedM, closed)
            && VerifyBindings(c, openM, closedM, open, closed, Endorsed(c, open), checkoutJwt, ctx).Passed?)
      && (r.Passed? ==> r.closedPayload == closed)
  {
    BindingsIff(c, openM, closedM, open, closed, Endorsed(c, open), checkoutJwt, ctx);
  }

  lemma CredentialsFaulty(c: Crypto, openM: SDJWT, closedM: SDJWT, open: Json, closed: Json, checkoutJwt: string,
                          ctx: VerifyContext, r: VerifyResult)
    requires c.Sound() && c.parseJws(openM.issuerJwt).Some? && c.parseJws(closedM.issuerJwt).Some?
    requires r == VerifyCredentials(c, openM, closedM, open, closed, checkoutJwt, ctx) && r.Failed?
    ensures CredentialsFault(c, openM, closedM, open, closed, ctx, r.reason)
      || r == VerifyBindings(c, openM, closedM, open, closed, Endorsed(c, open), checkoutJwt, ctx)
  {
  }

  lemma CredentialsRefused(c: Crypto, openM: SDJWT, closedM: SDJWT, open: Json, closed: Json, checkoutJwt: string,
                           ctx: VerifyContext, r: VerifyResult)
    requires c.Sound() && c.parseJws(openM.issuerJwt).Some? && c.parseJws(closedM.issuerJwt).Some?
    requires r == VerifyCredentials(c, openM, closedM, open, closed, checkoutJwt, ctx) && r.Failed?
    ensures CredentialsDenied(c, openM, closedM, open, closed, checkoutJwt, ctx, r.reason)
  {
    CredentialsFaulty(c, openM, closedM, open, closed, checkoutJwt, ctx, r);
    if !CredentialsFault(c, openM, closedM, open, closed, ctx, r.reason) {
      BindingsRefused(c, openM, closedM, open, closed, Endorsed(c, open), checkoutJwt, ctx, r);
    }
  }

  // ---- Any chain ----

  // Signed by the issuer that the resolver knows for its `iss`; the closed
  // mandate and its key-binding JWT signed under the key endorsed in `cnf`; both
  // disclosed in full; and the content bound to both and passing.
  ghost predicate Acceptable(c: Crypto, chain: seq<string>, checkoutJwt: string, ctx: VerifyContext)
    requires c.Sound()
  {
    && |chain| >= 2
    && var openM, closedM := Parse(chain[0]), Parse(chain[|chain| - 1]);
       var open, closed := Payload(c, openM.issuerJwt), Payload(c, closedM.issuerJwt);
       && IssuerSigned(c, openM, open, ctx) && Truthy(Endorsed(c, open))
       && SignedUnder(c, closedM.issuerJwt, c.rawKey(Endorsed(c, open)))
       && FullyDisclosed(c, openM, open) && FullyDisclosed(c, closedM, closed)
       && KbOf(closedM) != "" && Bound(c, closedM, Endorsed(c, open), ctx.nonce)
       && Locked(open, closed) && Hashed(c, openM, closed, checkoutJwt)
       && Payload(c, checkoutJwt).Obj? && MatchesCheckout(closed, Payload(c, checkoutJwt))
       && ConstraintsMet(c, openM, open, closed, ctx)
  }

  // Whatever the texts are, the chain is accepted exactly then.
  lemma AcceptedIff(c: Crypto, chain: seq<string>, checkoutJwt: string, ctx: VerifyContext)
    requires c.Sound()
    ensures VerifyDelegationChain(c, chain, checkoutJwt, ctx).Passed? <==> Acceptable(c, chain, checkoutJwt, ctx)
  {
    if |chain| >= 2 {
      var openM, closedM := Parse(chain[0]), Parse(chain[|chain| - 1]);
      var open, closed := Payload(c, openM.issuerJwt), Payload(c, closedM.issuerJwt);
      if c.parseJws(openM.issuerJwt).Some? && c.parseJws(closedM.issuerJwt).Some? {
        CredentialsIff(c, openM, closedM, open, closed, checkoutJwt, ctx);
        BindingsIff(c, openM, closedM, open, closed, Endorsed(c, open), checkoutJwt, ctx);
        ContentIff(c, openM, open, closed, checkoutJwt, ctx);
      }
    }
  }

  ghost predicate Denied(c: Crypto, chain: seq<string>, checkoutJwt: string, ctx: VerifyContext, r: Reason)
    requires c.Sound()
  {
    if |chain| < 2 then r == TooShort
    else
      var openM, closedM := Parse(chain[0]), Parse(chain[|chain| - 1]);
      if c.parseJws(openM.issuerJwt).None? || c.parseJws(closedM.issuerJwt).None? then r == Unparseable
      else CredentialsDenied(c, openM, closedM, Payload(c, openM.issuerJwt), Payload(c, closedM.issuerJwt),
                             checkoutJwt, ctx, r)
  }

  // A refusal gives a reason that holds of the texts.
  lemma RefusedFor(c: Crypto, chain: seq<string>, checkoutJwt: string, ctx: VerifyContext)
    requires c.Sound() && VerifyDelegationChain(c, chain, checkoutJwt, ctx).Failed?
    ensures Denied(c, chain, checkoutJwt, ctx, VerifyDelegationChain(c, chain, checkoutJwt, ctx).reason)
  {
    if |chain| >= 2 {
      var openM, closedM := Parse(chain[0]), Parse(chain[|chain| - 1]);
      if c.parseJws(openM.issuerJwt).Some? && c.parseJws(closedM.issuerJwt).Some? {
        CredentialsRefused(c, openM, closedM, Payload(c, openM.issuerJwt), Payload(c, closedM.issuerJwt), checkoutJwt,
                           ctx, VerifyDelegationChain(c, chain, checkoutJwt, ctx));
      }
    }
  }
}
