// aegis/ap2/verifier.py: the gate that accepts or refuses an open-to-closed
// delegation chain, and what acceptance pins down.
module ChainVerifier {
  import opened Wrappers
  import opened Json
  import opened Disclose
  import opened SdJwt
  import opened Constraints
  import opened Minimal

  // ---- The verifier ----

  datatype VerifyContext = VerifyContext(
    now: real,
    nonce: string,
    registry: Registry,
    issuerResolver: Json -> Option<string>,
    executedFxRate: Option<real>,
    velocityObserved: Option<Observed>,
    halfPower: real -> real)
  {
    function ConstraintCtx(disclosedMerchants: Json): Ctx {
      Ctx(now, executedFxRate, velocityObserved, disclosedMerchants, halfPower)
    }
  }

  datatype Reason =
    | TooShort | Unparseable | OpenSignature | MissingCnf | MalformedCnf | ClosedSignature | DisclosureMismatch
    | ClaimMutated | OpenIatMismatch | MissingKb | KbFailed | Rebound | CheckoutHashMismatch | CheckoutUnparseable
    | AmountDiffers | PayeeDiffers | LineItemsDiffer | ConstraintUnresolved

  // `Raised` where the source lets an exception out instead of returning.
  datatype VerifyResult = Passed(closedPayload: Json) | Failed(reason: Reason) | Raised

  function VerifyDelegationChain(c: Crypto, chain: seq<string>, expectedCheckout: string,
                                 ctx: VerifyContext): VerifyResult
    requires c.Sound()
  {
    if |chain| < 2 then Failed(TooShort)
    else
      var openM, closedM := Parse(chain[0]), Parse(chain[|chain| - 1]);
      var o, d := c.parseJws(openM.issuerJwt), c.parseJws(closedM.issuerJwt);
      if o.None? || d.None? then Failed(Unparseable)
      else VerifyCredentials(c, openM, closedM, o.value.payload, d.value.payload, expectedCheckout, ctx)
  }

  // 1. Signatures and disclosure integrity.
  function VerifyCredentials(c: Crypto, openM: SDJWT, closedM: SDJWT, open: Json, closed: Json,
                             expectedCheckout: string, ctx: VerifyContext): VerifyResult
    requires c.Sound()
  {
    if !open.Obj? then Raised
    else
      var issuerPub := ctx.issuerResolver(GetOr(open.fields, "iss", Str("")));
      if issuerPub.None? || !VerifyJws(c, openM.issuerJwt, issuerPub.value) then Failed(OpenSignature)
      else
        var cnfClaim := GetOr(open.fields, "cnf", Obj([]));
        if !cnfClaim.Obj? then Raised
        else
          var cnf := Member(cnfClaim, "jwk");
          if !Truthy(cnf) then Failed(MissingCnf)
          else if c.rawKey(cnf).None? then Failed(MalformedCnf)
          else if !VerifyJws(c, closedM.issuerJwt, c.rawKey(cnf).value) then Failed(ClosedSignature)
          else
            match Outcomes(c.codec, open, openM.disclosures)
            case TypeError => Raised
            case Disclosed(_, ok) =>
              if !ok then Failed(DisclosureMismatch)
              else
                match Outcomes(c.codec, closed, closedM.disclosures)
                case TypeError => Raised
                case Disclosed(_, ok') =>
                  if !ok' then Failed(DisclosureMismatch)
                  else VerifyBindings(c, openM, closedM, open, closed, cnf, expectedCheckout, ctx)
  }

  // 2.-5. Locked claims, key binding, and the two hashes.
  function VerifyBindings(c: Crypto, openM: SDJWT, closedM: SDJWT, open: Json, closed: Json, cnf: Json,
                          expectedCheckout: string, ctx: VerifyContext): VerifyResult
    requires c.Sound()
  {
    if !closed.Obj? then Raised
    else if Member(open, "constraints") != Member(closed, "constraints") then Failed(ClaimMutated)
    else if Member(closed, "open_iat") != Member(open, "iat") then Failed(OpenIatMismatch)
    else if closedM.kbJwt.None? || closedM.kbJwt.value == [] then Failed(MissingKb)
    else if !VerifyKbJwt(c, closedM.kbJwt.value, cnf, ctx.nonce, SdHash(c, closedM)) then Failed(KbFailed)
    else if Member(closed, "sd_hash") != Str(IssuerHash(c, openM)) then Failed(Rebound)
    else if Member(closed, "checkout_hash") != Str(c.Hash(expectedCheckout)) then Failed(CheckoutHashMismatch)
    else VerifyContent(c, openM, open, closed, expectedCheckout, ctx)
  }

  // The hash-bound checkout, and 6. every constraint.
  function VerifyContent(c: Crypto, openM: SDJWT, open: Json, closed: Json, expectedCheckout: string,
                         ctx: VerifyContext)
    : VerifyResult
    requires c.Sound()
  {
    var checkoutJws := c.parseJws(expectedCheckout);
    if checkoutJws.None? then Failed(CheckoutUnparseable)
    else
      var checkout := checkoutJws.value.payload;
      if !checkout.Obj? then Raised
      else if Member(closed, "payment_amount") != Member(checkout, "amount") then Failed(AmountDiffers)
      else if Member(closed, "payee") != Member(checkout, "merchant") then Failed(PayeeDiffers)
      else if Member(closed, "line_items") != Member(checkout, "line_items") then Failed(LineItemsDiffer)
      else
        match Evaluated(ctx.registry, closed,
                        ctx.ConstraintCtx(MerchantsIn(Outcomes(c.codec, open, openM.disclosures))))
        case None => Raised
        case Some(results) => if false in results then Failed(ConstraintUnresolved) else Passed(closed)
  }

  function MerchantsIn(outcome: Outcome): Json {
    if outcome.Disclosed? && outcome.claims.Obj? then GetOr(outcome.claims.fields, MERCHANTS, Arr([])) else Arr([])
  }

  // ---- What acceptance pins down ----

  datatype Content = Content(
    constraints: Json, openIat: Json, sdHash: Json, checkoutHash: Json, amount: Json, payee: Json, lineItems: Json)

  function ContentOf(closed: Json): Content {
    Content(Member(closed, "constraints"), Member(closed, "open_iat"), Member(closed, "sd_hash"),
            Member(closed, "checkout_hash"), Member(closed, "payment_amount"), Member(closed, "payee"),
            Member(closed, "line_items"))
  }

  // The content that an open mandate and a checkout leave no choice about.
  function ContentDue(c: Crypto, openText: string, checkoutJwt: string): Content
    requires c.parseJws(Parse(openText).issuerJwt).Some? && c.parseJws(checkoutJwt).Some?
  {
    var open := c.parseJws(Parse(openText).issuerJwt).value.payload;
    var checkout := c.parseJws(checkoutJwt).value.payload;
    Content(Member(open, "constraints"), Member(open, "iat"), Str(IssuerHash(c, Parse(openText))),
            Str(c.Hash(checkoutJwt)), Member(checkout, "amount"), Member(checkout, "merchant"),
            Member(checkout, "line_items"))
  }

  // What each part of the verifier has checked when it passes.
  lemma ContentPassed(c: Crypto, openM: SDJWT, open: Json, closed: Json, checkoutJwt: string, ctx: VerifyContext)
    requires c.Sound() && VerifyContent(c, openM, open, closed, checkoutJwt, ctx).Passed?
    ensures VerifyContent(c, openM, open, closed, checkoutJwt, ctx) == Passed(closed)
    ensures c.parseJws(checkoutJwt).Some?
    ensures var checkout := c.parseJws(checkoutJwt).value.payload;
      && Member(closed, "payment_amount") == Member(checkout, "amount")
      && Member(closed, "payee") == Member(checkout, "merchant")
      && Member(closed, "line_items") == Member(checkout, "line_items")
  {
  }

  lemma BindingsPassed(c: Crypto, openM: SDJWT, closedM: SDJWT, open: Json, closed: Json, cnf: Json,
                       checkoutJwt: string, ctx: VerifyContext)
    requires c.Sound() && VerifyBindings(c, openM, closedM, open, closed, cnf, checkoutJwt, ctx).Passed?
    ensures VerifyBindings(c, openM, closedM, open, closed, cnf, checkoutJwt, ctx)
         == VerifyContent(c, openM, open, closed, checkoutJwt, ctx)
    ensures Member(closed, "constraints") == Member(open, "constraints")
      && Member(closed, "open_iat") == Member(open, "iat")
    ensures Member(closed, "sd_hash") == Str(IssuerHash(c, openM))
    ensures Member(closed, "checkout_hash") == Str(c.Hash(checkoutJwt))
    ensures closedM.kbJwt.Some? && VerifyKbJwt(c, closedM.kbJwt.value, cnf, ctx.nonce, SdHash(c, closedM))
  {
  }

  lemma CredentialsPassed(c: Crypto, openM: SDJWT, closedM: SDJWT, open: Json, closed: Json, checkoutJwt: string,
                          ctx: VerifyContext) returns (cnf: Json)
    requires c.Sound() && VerifyCredentials(c, openM, closedM, open, closed, checkoutJwt, ctx).Passed?
    ensures VerifyCredentials(c, openM, closedM, open, closed, checkoutJwt, ctx)
         == VerifyBindings(c, openM, closedM, open, closed, cnf, checkoutJwt, ctx)
  {
    cnf := Member(GetOr(open.fields, "cnf", Obj([])), "jwk");
  }

  lemma ChainPassed(c: Crypto, chain: seq<string>, checkoutJwt: string, ctx: VerifyContext)
    requires c.Sound() && VerifyDelegationChain(c, chain, checkoutJwt, ctx).Passed?
    ensures |chain| >= 2
    ensures c.parseJws(Parse(chain[0]).issuerJwt).Some? && c.parseJws(Parse(chain[|chain| - 1]).issuerJwt).Some?
    ensures VerifyDelegationChain(c, chain, checkoutJwt, ctx)
         == VerifyCredentials(c, Parse(chain[0]), Parse(chain[|chain| - 1]),
                              c.parseJws(Parse(chain[0]).issuerJwt).value.payload,
                              c.parseJws(Parse(chain[|chain| - 1]).issuerJwt).value.payload, checkoutJwt, ctx)
  {
  }

  lemma AcceptedContent(c: Crypto, chain: seq<string>, checkoutJwt: string, ctx: VerifyContext)
    requires c.Sound() && VerifyDelegationChain(c, chain, checkoutJwt, ctx).Passed?
    ensures |chain| >= 2 && c.parseJws(Parse(chain[0]).issuerJwt).Some? && c.parseJws(checkoutJwt).Some?
    ensures ContentOf(VerifyDelegationChain(c, chain, checkoutJwt, ctx).closedPayload)
      == ContentDue(c, chain[0], checkoutJwt)
  {
    ChainPassed(c, chain, checkoutJwt, ctx);
    var openM, closedM := Parse(chain[0]), Parse(chain[|chain| - 1]);
    var open, closed := c.parseJws(openM.issuerJwt).value.payload, c.parseJws(closedM.issuerJwt).value.payload;
    var cnf := CredentialsPassed(c, openM, closedM, open, closed, checkoutJwt, ctx);
    BindingsPassed(c, openM, closedM, open, closed, cnf, checkoutJwt, ctx);
    ContentPassed(c, openM, open, closed, checkoutJwt, ctx);
  }

  // However a closed mandate was re-signed or altered, and however the open one
  // is presented: if it is accepted for this open mandate and this checkout, its
  // content is the one content.
  lemma AcceptedContentUnique(c: Crypto, first: seq<string>, second: seq<string>, checkoutJwt: string,
                              ctx1: VerifyContext, ctx2: VerifyContext)
    requires c.Sound() && |first| >= 2 && |second| >= 2 && Parse(first[0]).issuerJwt == Parse(second[0]).issuerJwt
    requires VerifyDelegationChain(c, first, checkoutJwt, ctx1).Passed?
    requires VerifyDelegationChain(c, second, checkoutJwt, ctx2).Passed?
    ensures ContentOf(VerifyDelegationChain(c, first, checkoutJwt, ctx1).closedPayload)
         == ContentOf(VerifyDelegationChain(c, second, checkoutJwt, ctx2).closedPayload)
  {
    AcceptedContent(c, first, checkoutJwt, ctx1);
    AcceptedContent(c, second, checkoutJwt, ctx2);
  }

  // A closed mandate belongs to one issuer-signed open mandate, whatever
  // checkout and context it is shown with.
  lemma ClosedBelongsToOneOpen(c: Crypto, first: seq<string>, second: seq<string>, checkout1: string, checkout2: string,
                               ctx1: VerifyContext, ctx2: VerifyContext)
    requires c.Sound() && |first| >= 2 && |second| >= 2 && first[|first| - 1] == second[|second| - 1]
    requires VerifyDelegationChain(c, first, checkout1, ctx1).Passed?
    requires VerifyDelegationChain(c, second, checkout2, ctx2).Passed?
    ensures Parse(first[0]).issuerJwt == Parse(second[0]).issuerJwt && checkout1 == checkout2
  {
    AcceptedContent(c, first, checkout1, ctx1);
    AcceptedContent(c, second, checkout2, ctx2);
    SamePayload(c, first, second, checkout1, checkout2, ctx1, ctx2);
    assert c.codec.hash(Parse(first[0]).issuerJwt) == c.codec.hash(Parse(second[0]).issuerJwt);
    assert c.codec.hash(checkout1) == c.codec.hash(checkout2);
  }

  lemma SamePayload(c: Crypto, first: seq<string>, second: seq<string>, checkout1: string, checkout2: string,
                    ctx1: VerifyContext, ctx2: VerifyContext)
    requires c.Sound() && |first| >= 2 && |second| >= 2 && first[|first| - 1] == second[|second| - 1]
    requires VerifyDelegationChain(c, first, checkout1, ctx1).Passed?
    requires VerifyDelegationChain(c, second, checkout2, ctx2).Passed?
    ensures VerifyDelegationChain(c, first, checkout1, ctx1).closedPayload
         == VerifyDelegationChain(c, second, checkout2, ctx2).closedPayload
  {
    PassedPayload(c, first, checkout1, ctx1);
    PassedPayload(c, second, checkout2, ctx2);
  }

  lemma PassedPayload(c: Crypto, chain: seq<string>, checkoutJwt: string, ctx: VerifyContext)
    requires c.Sound() && VerifyDelegationChain(c, chain, checkoutJwt, ctx).Passed?
    ensures |chain| >= 2 && c.parseJws(Parse(chain[|chain| - 1]).issuerJwt).Some?
    ensures VerifyDelegationChain(c, chain, checkoutJwt, ctx).closedPayload
         == c.parseJws(Parse(chain[|chain| - 1]).issuerJwt).value.payload
  {
    ChainPassed(c, chain, checkoutJwt, ctx);
    var openM, closedM := Parse(chain[0]), Parse(chain[|chain| - 1]);
    var open, closed := c.parseJws(openM.issuerJwt).value.payload, c.parseJws(closedM.issuerJwt).value.payload;
    var cnf := CredentialsPassed(c, openM, closedM, open, closed, checkoutJwt, ctx);
    BindingsPassed(c, openM, closedM, open, closed, cnf, checkoutJwt, ctx);
    ContentPassed(c, openM, open, closed, checkoutJwt, ctx);
  }

  // The nonce and presentation a key-binding JWT vouches for.
  lemma PassedKb(c: Crypto, chain: seq<string>, checkoutJwt: string, ctx: VerifyContext)
    requires c.Sound() && VerifyDelegationChain(c, chain, checkoutJwt, ctx).Passed?
    ensures |chain| >= 2 && Parse(chain[|chain| - 1]).kbJwt.Some?
    ensures var closedM := Parse(chain[|chain| - 1]);
      && c.parseJws(closedM.kbJwt.value).Some?
      && GetMember(c.parseJws(closedM.kbJwt.value).value.payload, "sd_hash") == Some(Str(SdHash(c, closedM)))
      && GetMember(c.parseJws(closedM.kbJwt.value).value.payload, "nonce") == Some(Str(ctx.nonce))
  {
    ChainPassed(c, chain, checkoutJwt, ctx);
    var openM, closedM := Parse(chain[0]), Parse(chain[|chain| - 1]);
    var open, closed := c.parseJws(openM.issuerJwt).value.payload, c.parseJws(closedM.issuerJwt).value.payload;
    var cnf := CredentialsPassed(c, openM, closedM, open, closed, checkoutJwt, ctx);
    BindingsPassed(c, openM, closedM, open, closed, cnf, checkoutJwt, ctx);
  }

  // A key-binding JWT cannot be moved to another presentation or verifier nonce.
  lemma KbPinsPresentation(c: Crypto, first: seq<string>, second: seq<string>, checkout1: string, checkout2: string,
                           ctx1: VerifyContext, ctx2: VerifyContext)
    requires c.Sound() && |first| >= 2 && |second| >= 2
    requires VerifyDelegationChain(c, first, checkout1, ctx1).Passed?
    requires VerifyDelegationChain(c, second, checkout2, ctx2).Passed?
    requires Parse(first[|first| - 1]).kbJwt == Parse(second[|second| - 1]).kbJwt
    ensures Parse(first[|first| - 1]) == Parse(second[|second| - 1]) && ctx1.nonce == ctx2.nonce
  {
    var a, b := Parse(first[|first| - 1]), Parse(second[|second| - 1]);
    PassedKb(c, first, checkout1, ctx1);
    PassedKb(c, second, checkout2, ctx2);
    ParseIsCarriable(first[|first| - 1]);
    ParseIsCarriable(second[|second| - 1]);
    PresentationDetermines(c, a, b);
  }
}
