// aegis/ap2/mandates.py: building an open-to-closed delegation, and exactly
// when the verifier accepts one.
module Mandates {
  import opened Wrappers
  import opened Json
  import opened Disclose
  import opened SdJwt
  import opened Issue
  import opened Selective
  import opened Constraints
  import opened Minimal
  import opened ChainVerifier

  // ---- What is asked for, and what is drawn at random ----

  datatype Order = Order(
    constraints: seq<Json>,
    allowedMerchants: seq<string>,
    cartMerchant: Json,
    paymentAmount: Json,
    lineItems: seq<Json>,
    openIat: int,
    closedIat: int,
    nonce: string,
    aud: string,
    checkout: Option<Json>)

  // Keys, salts, decoy digests, and the orders that sorting and shuffling gave.
  datatype Draws = Draws(
    issuerKey: string,
    agentKey: string,
    merchantKey: string,
    salts: seq<string>,
    decoys: seq<string>,
    listed: seq<string>,
    merchantDecoys: seq<string>,
    slots: seq<string>)

  const ISSUER := "did:issuer:trusted-surface"
  const AGENT := "did:agent:shopping"

  function Int(n: int): Json { Num(Decimal(n, 0)) }

  function Typed(typ: string): Json { Obj([Field("typ", Str(typ))]) }

  // ---- Open mandates ----

  function OpenClaims(iss: string, openIat: int, agentJwk: Json, constraints: seq<Json>): seq<Field> {
    [Field("iss", Str(iss)), Field("iat", Int(openIat)), Field("cnf", Obj([Field("jwk", agentJwk)])),
     Field("constraints", Arr(constraints))]
  }

  function MerchantClaim(allowed: seq<string>, d: Draws): ArrayClaim
    requires |d.salts| == |allowed|
  {
    ArrayClaim(MERCHANTS, seq(|allowed|, i requires 0 <= i < |allowed| => Elem(d.salts[i], Str(allowed[i]))),
               d.merchantDecoys, d.slots)
  }

  function OpenRequest(iss: string, openIat: int, agentJwk: Json, constraints: seq<Json>, allowed: seq<string>,
                       d: Draws)
    : Request
    requires |d.salts| == |allowed|
  {
    Request(OpenClaims(iss, openIat, agentJwk, constraints), [], d.decoys, d.listed, [MerchantClaim(allowed, d)])
  }

  method BuildOpenMandate(c: Crypto, iss: string, openIat: int, agentJwk: Json, constraints: seq<Json>,
                          allowed: seq<string>, d: Draws) returns (openM: SDJWT)
    requires |d.salts| == |allowed| && Shuffled(c, OpenRequest(iss, openIat, agentJwk, constraints, allowed, d))
    ensures openM == Issued(c, d.issuerKey, Typed("open-mandate+sd-jwt"),
                            OpenRequest(iss, openIat, agentJwk, constraints, allowed, d))
  {
    openM := IssueSdJwt(c, d.issuerKey, Typed("open-mandate+sd-jwt"),
                        OpenRequest(iss, openIat, agentJwk, constraints, allowed, d));
  }

  // ---- Closed mandates ----

  function ClosedPayload(c: Crypto, iss: string, openM: SDJWT, openIat: int, constraints: seq<Json>,
                         checkoutJwt: string, amount: Json, payee: Json, lineItems: seq<Json>, closedIat: int): Json
  {
    Obj([Field("iss", Str(iss)), Field("iat", Int(closedIat)), Field("open_iat", Int(openIat)),
         Field("constraints", Arr(constraints)), Field("sd_hash", Str(IssuerHash(c, openM))),
         Field("checkout_hash", Str(c.Hash(checkoutJwt))), Field("payment_amount", amount), Field("payee", payee),
         Field("line_items", Arr(lineItems))])
  }

  function Unsealed(c: Crypto, payload: Json, key: string): SDJWT {
    SDJWT(c.signJws(Typed("closed-mandate+sd-jwt"), payload, key), [], None)
  }

  function Sealed(c: Crypto, payload: Json, key: string, nonce: string, aud: string, closedIat: int): SDJWT {
    var closedM := Unsealed(c, payload, key);
    closedM.(kbJwt := Some(MakeKbJwt(c, key, nonce, aud, Int(closedIat), SdHash(c, closedM))))
  }

  method SealClosed(c: Crypto, payload: Json, key: string, nonce: string, aud: string, closedIat: int)
    returns (closedM: SDJWT)
    ensures closedM == Sealed(c, payload, key, nonce, aud, closedIat)
    ensures SdHash(c, closedM) == SdHash(c, Unsealed(c, payload, key))
  {
    closedM := SDJWT(c.signJws(Typed("closed-mandate+sd-jwt"), payload, key), [], None);
    var kb := MakeKbJwt(c, key, nonce, aud, Int(closedIat), SdHash(c, closedM));
    closedM := closedM.(kbJwt := Some(kb));
  }

  method BuildClosedMandate(c: Crypto, agentKey: string, iss: string, openM: SDJWT, openIat: int,
                            constraints: seq<Json>,
                            checkoutJwt: string, amount: Json, payee: Json, lineItems: seq<Json>, closedIat: int,
                            nonce: string, aud: string) returns (closedM: SDJWT)
    ensures closedM
      == Sealed(c, ClosedPayload(c, iss, openM, openIat, constraints, checkoutJwt, amount, payee, lineItems,
                                               closedIat), agentKey, nonce, aud, closedIat)
  {
    var payload := ClosedPayload(c, iss, openM, openIat, constraints, checkoutJwt, amount, payee, lineItems, closedIat);
    closedM := SDJWT(c.signJws(Typed("closed-mandate+sd-jwt"), payload, agentKey), [], None);
    var kb := MakeKbJwt(c, agentKey, nonce, aud, Int(closedIat), SdHash(c, closedM));
    closedM := closedM.(kbJwt := Some(kb));
  }

  // ---- The chain ----

  datatype Delegation = Delegation(openM: SDJWT, closedM: SDJWT, checkoutJwt: string)

  function AgentJwk(c: Crypto, d: Draws): Json { c.jwk(c.pub(d.agentKey)) }

  function RequestOf(c: Crypto, o: Order, d: Draws): Request
    requires |d.salts| == |o.allowedMerchants|
  {
    OpenRequest(ISSUER, o.openIat, AgentJwk(c, d), o.constraints, o.allowedMerchants, d)
  }

  function OpenOf(c: Crypto, o: Order, d: Draws): SDJWT
    requires |d.salts| == |o.allowedMerchants|
  {
    Issued(c, d.issuerKey, Typed("open-mandate+sd-jwt"), RequestOf(c, o, d))
  }

  // `checkout or {...}`.
  function CheckoutOf(o: Order): Json {
    if o.checkout.Some? && Truthy(o.checkout.value) then o.checkout.value
    else
      Obj([Field("merchant", o.cartMerchant), Field("line_items", Arr(o.lineItems)), Field("amount", o.paymentAmount),
           Field("iat", Int(o.closedIat))])
  }

  function CheckoutJwt(c: Crypto, o: Order, d: Draws): string {
    c.signJws(Typed("checkout+jwt"), CheckoutOf(o), d.merchantKey)
  }

  function ClosedOf(c: Crypto, o: Order, d: Draws): Json
    requires |d.salts| == |o.allowedMerchants|
  {
    ClosedPayload(c, AGENT, OpenOf(c, o, d), o.openIat, o.constraints, CheckoutJwt(c, o, d), o.paymentAmount,
                  o.cartMerchant, o.lineItems, o.closedIat)
  }

  function Built(c: Crypto, o: Order, d: Draws): Delegation
    requires |d.salts| == |o.allowedMerchants|
  {
    Delegation(OpenOf(c, o, d), Sealed(c, ClosedOf(c, o, d), d.agentKey, o.nonce, o.aud, o.closedIat),
               CheckoutJwt(c, o, d))
  }

  method BuildChain(c: Crypto, o: Order, d: Draws) returns (chain: Delegation)
    requires |d.salts| == |o.allowedMerchants| && Shuffled(c, RequestOf(c, o, d))
    ensures chain == Built(c, o, d)
  {
    var openM := BuildOpenMandate(c, ISSUER, o.openIat, AgentJwk(c, d), o.constraints, o.allowedMerchants, d);
    var checkoutJwt := c.signJws(Typed("checkout+jwt"), CheckoutOf(o), d.merchantKey);
    var closedM :=
      BuildClosedMandate(c, d.agentKey, AGENT, openM, o.openIat, o.constraints, checkoutJwt, o.paymentAmount,
                                      o.cartMerchant, o.lineItems, o.closedIat, o.nonce, o.aud);
    return Delegation(openM, closedM, checkoutJwt);
  }

  // `as_list`.
  function Texts(openM: SDJWT, closedM: SDJWT): seq<string> {
    [Serialize(openM), Serialize(closedM)]
  }

  // ---- What the draws and the order may be ----

  // Nothing in the order is a disclosure marker; decoys hide nothing issued.
  ghost predicate Proper(c: Crypto, o: Order, d: Draws) {
    && |d.salts| == |o.allowedMerchants|
    && Shuffled(c, RequestOf(c, o, d)) && FreshDecoys(c, RequestOf(c, o, d))
    && Tame(Arr(o.constraints)) && Tame(Arr(o.lineItems)) && Tame(o.cartMerchant) && Tame(o.paymentAmount)
    && Tame(AgentJwk(c, d))
  }

  lemma OpenClaimsDistinct(iss: string, openIat: int, agentJwk: Json, constraints: seq<Json>)
    ensures DistinctKeys(OpenClaims(iss, openIat, agentJwk, constraints))
    ensures forall f :: f in OpenClaims(iss, openIat, agentJwk, constraints) ==> f.key != SD && f.key != MERCHANTS
  {
  }

  lemma OpenWellPosed(iss: string, openIat: int, agentJwk: Json, constraints: seq<Json>, allowed: seq<string>, d: Draws)
    requires |d.salts| == |allowed| && Tame(agentJwk) && Tame(Arr(constraints))
    ensures WellPosed(OpenRequest(iss, openIat, agentJwk, constraints, allowed, d))
  {
    OpenClaimsDistinct(iss, openIat, agentJwk, constraints);
    assert Tame(Obj([Field("jwk", agentJwk)]));
  }

  lemma ProperMandate(c: Crypto, o: Order, d: Draws)
    requires Proper(c, o, d)
    ensures MerchantMandate(c, RequestOf(c, o, d), MerchantClaim(o.allowedMerchants, d))
  {
    OpenWellPosed(ISSUER, o.openIat, AgentJwk(c, d), o.constraints, o.allowedMerchants, d);
    var rq := RequestOf(c, o, d);
    assert rq.arrays[0] in rq.arrays;
  }

  // ---- What the verifier reads back ----

  lemma ClaimRead(rq: Request, i: nat)
    requires WellPosed(rq) && i < |rq.claims|
    ensures Get(PayloadFields(rq), rq.claims[i].key) == Some(rq.claims[i].value)
  {
    PayloadShape(rq);
    GetAt(PayloadFields(rq), i);
  }

  lemma OpenRead(c: Crypto, o: Order, d: Draws)
    requires Proper(c, o, d)
    ensures var open := Obj(PayloadFields(RequestOf(c, o, d)));
      && Get(open.fields, "iss") == Some(Str(ISSUER)) && Member(open, "iat") == Int(o.openIat)
      && Get(open.fields, "cnf") == Some(Obj([Field("jwk", AgentJwk(c, d))]))
      && Member(open, "constraints") == Arr(o.constraints)
  {
    ProperMandate(c, o, d);
    var rq := RequestOf(c, o, d);
    ClaimRead(rq, 0);
    ClaimRead(rq, 1);
    ClaimRead(rq, 2);
    ClaimRead(rq, 3);
  }

  lemma ClosedDistinct(c: Crypto, o: Order, d: Draws)
    requires |d.salts| == |o.allowedMerchants|
    ensures DistinctKeys(ClosedOf(c, o, d).fields)
    ensures forall f :: f in ClosedOf(c, o, d).fields ==> f.key != SD
  {
  }

  lemma ClosedValues(c: Crypto, o: Order, d: Draws, f: Field)
    requires |d.salts| == |o.allowedMerchants| && f in ClosedOf(c, o, d).fields
    ensures f.value.Str? || f.value.Num? || f.value == Arr(o.constraints) || f.value == o.paymentAmount
      || f.value == o.cartMerchant || f.value == Arr(o.lineItems)
  {
  }

  lemma ObjTame(fields: seq<Field>)
    requires DistinctKeys(fields) && forall f :: f in fields ==> f.key != SD && Tame(f.value)
    ensures Tame(Obj(fields))
  {
  }

  lemma ClosedTame(c: Crypto, o: Order, d: Draws)
    requires Proper(c, o, d)
    ensures Tame(ClosedOf(c, o, d))
  {
    var closed := ClosedOf(c, o, d);
    ClosedDistinct(c, o, d);
    forall f | f in closed.fields ensures Tame(f.value) { ClosedValues(c, o, d, f); }
    ObjTame(closed.fields);
  }

  lemma ClosedRead(c: Crypto, o: Order, d: Draws)
    requires Proper(c, o, d)
    ensures ContentOf(ClosedOf(c, o, d)) ==
      Content(Arr(o.constraints), Int(o.openIat), Str(IssuerHash(c, OpenOf(c, o, d))),
              Str(c.Hash(CheckoutJwt(c, o, d))), o.paymentAmount, o.cartMerchant, Arr(o.lineItems))
  {
    var fields := ClosedOf(c, o, d).fields;
    ClosedDistinct(c, o, d);
    GetAt(fields, 2);
    GetAt(fields, 3);
    GetAt(fields, 4);
    GetAt(fields, 5);
    GetAt(fields, 6);
    GetAt(fields, 7);
    GetAt(fields, 8);
  }

  // A marker-free payload with no disclosures is disclosed as it stands.
  lemma NothingToDisclose(c: Codec, payload: Json)
    requires c.Acyclic() && Tame(payload)
    ensures Outcomes(c, payload, []) == Disclosed(payload, true)
  {
    TameHasNoRefs(payload);
    DMapRanked(c, [], payload);
    WalkTame(payload, DMapOf(c, [], 0), c.rank, RankSum(c, [], 0));
  }

  // A sealed mandate survives its text form, and its key binding is accepted
  // for the nonce it was sealed with and no other.
  lemma SealedParses(c: Crypto, payload: Json, key: string, nonce: string, aud: string, closedIat: int)
    requires c.Sound()
    ensures var closedM := Sealed(c, payload, key, nonce, aud, closedIat);
      Parse(Serialize(closedM)) == closedM
    ensures var closedM := Sealed(c, payload, key, nonce, aud, closedIat);
      c.parseJws(closedM.issuerJwt).Some? && c.parseJws(closedM.issuerJwt).value.payload == payload
  {
    RoundTrip(Sealed(c, payload, key, nonce, aud, closedIat));
  }

  lemma SealedBinds(c: Crypto, payload: Json, key: string, nonce: string, aud: string, closedIat: int, other: string)
    requires c.Sound()
    ensures var closedM := Sealed(c, payload, key, nonce, aud, closedIat);
      && closedM.kbJwt.Some? && closedM.kbJwt.value != []
      && (VerifyKbJwt(c, closedM.kbJwt.value, c.jwk(c.pub(key)), other, SdHash(c, closedM)) <==> nonce == other)
  {
    var bare := Unsealed(c, payload, key);
    KbBinds(c, key, nonce, aud, Int(closedIat), SdHash(c, bare), other, SdHash(c, bare));
    assert SdHash(c, Sealed(c, payload, key, nonce, aud, closedIat)) == SdHash(c, bare);
    assert Plain(MakeKbJwt(c, key, nonce, aud, Int(closedIat), SdHash(c, bare)));
  }

  lemma OpenParses(c: Crypto, o: Order, d: Draws, keep: set<string>)
    requires c.Sound() && Proper(c, o, d)
    ensures var openM := Present(c, OpenOf(c, o, d), keep);
      && Parse(Serialize(openM)) == openM && openM.issuerJwt == OpenOf(c, o, d).issuerJwt
      && openM.disclosures == Kept(c, Raws(c, RequestOf(c, o, d)), keep)
      && c.parseJws(openM.issuerJwt).Some?
      && c.parseJws(openM.issuerJwt).value.payload == Obj(PayloadFields(RequestOf(c, o, d)))
  {
    var rq, openM := RequestOf(c, o, d), Present(c, OpenOf(c, o, d), keep);
    forall i | 0 <= i < |openM.disclosures| ensures Plain(openM.disclosures[i]) {
      KeptRaws(c, rq, keep, openM.disclosures[i]);
    }
    RoundTrip(openM);
  }

  // ---- Exactly when a built chain is accepted ----

  predicate CheckoutAgrees(o: Order) {
    var checkout := CheckoutOf(o);
    && checkout.Obj?
    && Member(checkout, "amount") == o.paymentAmount && Member(checkout, "merchant") == o.cartMerchant
    && Member(checkout, "line_items") == Arr(o.lineItems)
  }

  lemma ContentExactly(c: Crypto, openM: SDJWT, open: Json, closed: Json, checkoutJwt: string, checkout: Json,
                       ctx: VerifyContext)
    requires c.Sound() && c.parseJws(checkoutJwt).Some? && c.parseJws(checkoutJwt).value.payload == checkout
    ensures VerifyContent(c, openM, open, closed, checkoutJwt, ctx).Passed? <==>
      && checkout.Obj? && Member(closed, "payment_amount") == Member(checkout, "amount")
      && Member(closed, "payee") == Member(checkout, "merchant")
      && Member(closed, "line_items") == Member(checkout, "line_items")
      && AllPass(ctx.registry, closed, ctx.ConstraintCtx(MerchantsIn(Outcomes(c.codec, open, openM.disclosures))))
  {
    NoFalse(ctx.registry, closed, ctx.ConstraintCtx(MerchantsIn(Outcomes(c.codec, open, openM.disclosures))));
  }

  lemma ContentStep(c: Crypto, o: Order, d: Draws, keep: set<string>, ctx: VerifyContext)
    requires c.Sound() && Proper(c, o, d)
    ensures var open := Obj(PayloadFields(RequestOf(c, o, d)));
      VerifyContent(c, Present(c, OpenOf(c, o, d), keep), open, ClosedOf(c, o, d), CheckoutJwt(c, o, d),
                    ctx).Passed? <==>
        CheckoutAgrees(o)
        && AllPass(ctx.registry, ClosedOf(c, o, d), ctx.ConstraintCtx(MerchantsSeen(c, RequestOf(c, o, d), keep)))
  {
    ProperMandate(c, o, d);
    ClosedRead(c, o, d);
    SeenMerchants(c, RequestOf(c, o, d), MerchantClaim(o.allowedMerchants, d), keep);
    ContentExactly(c, Present(c, OpenOf(c, o, d), keep), Obj(PayloadFields(RequestOf(c, o, d))), ClosedOf(c, o, d),
                   CheckoutJwt(c, o, d), CheckoutOf(o), ctx);
  }

  lemma BindingExactly(c: Crypto, openM: SDJWT, closedM: SDJWT, open: Json, closed: Json, cnf: Json,
                       checkoutJwt: string, ctx: VerifyContext)
    requires c.Sound() && closed.Obj? && Member(open, "constraints") == Member(closed, "constraints")
    requires Member(closed, "open_iat") == Member(open, "iat") && closedM.kbJwt.Some? && closedM.kbJwt.value != []
    requires Member(closed, "sd_hash") == Str(IssuerHash(c, openM))
    requires Member(closed, "checkout_hash") == Str(c.Hash(checkoutJwt))
    ensures VerifyBindings(c, openM, closedM, open, closed, cnf, checkoutJwt, ctx) ==
      if VerifyKbJwt(c, closedM.kbJwt.value, cnf, ctx.nonce, SdHash(c, closedM))
      then VerifyContent(c, openM, open, closed, checkoutJwt, ctx) else Failed(KbFailed)
  {
  }

  lemma BindingStep(c: Crypto, o: Order, d: Draws, keep: set<string>, ctx: VerifyContext)
    requires c.Sound() && Proper(c, o, d)
    ensures var open, openM := Obj(PayloadFields(RequestOf(c, o, d))), Present(c, OpenOf(c, o, d), keep);
      VerifyBindings(c, openM, Built(c, o, d).closedM, open, ClosedOf(c, o, d), AgentJwk(c, d), CheckoutJwt(c, o, d),
                     ctx)
      == if ctx.nonce == o.nonce then VerifyContent(c, openM, open, ClosedOf(c, o, d), CheckoutJwt(c, o, d), ctx)
         else Failed(KbFailed)
  {
    OpenRead(c, o, d);
    ClosedRead(c, o, d);
    SealedBinds(c, ClosedOf(c, o, d), d.agentKey, o.nonce, o.aud, o.closedIat, ctx.nonce);
    BindingExactly(c, Present(c, OpenOf(c, o, d), keep), Built(c, o, d).closedM, Obj(PayloadFields(RequestOf(c, o, d))),
                   ClosedOf(c, o, d), AgentJwk(c, d), CheckoutJwt(c, o, d), ctx);
  }

  // The issuer is known to the verifier under its own key.
  predicate Trusted(c: Crypto, d: Draws, ctx: VerifyContext) {
    ctx.issuerResolver(Str(ISSUER)) == Some(c.pub(d.issuerKey))
  }

  lemma CredentialExactly(c: Crypto, openM: SDJWT, closedM: SDJWT, open: Json, closed: Json, iss: Json, cnf: Json,
                          checkoutJwt: string, ctx: VerifyContext, pub: string)
    requires c.Sound() && open.Obj? && Get(open.fields, "iss") == Some(iss)
    requires ctx.issuerResolver(iss) == Some(pub) && VerifyJws(c, openM.issuerJwt, pub)
    requires Get(open.fields, "cnf") == Some(Obj([Field("jwk", cnf)])) && Truthy(cnf)
    requires c.rawKey(cnf).Some? && VerifyJws(c, closedM.issuerJwt, c.rawKey(cnf).value)
    requires Outcomes(c.codec, open, openM.disclosures).Disclosed? && Outcomes(c.codec, open, openM.disclosures).ok
    requires Outcomes(c.codec, closed, closedM.disclosures).Disclosed?
      && Outcomes(c.codec, closed, closedM.disclosures).ok
    ensures VerifyCredentials(c, openM, closedM, open, closed, checkoutJwt, ctx)
         == VerifyBindings(c, openM, closedM, open, closed, cnf, checkoutJwt, ctx)
  {
    GetAt([Field("jwk", cnf)], 0);
  }

  lemma CredentialStep(c: Crypto, o: Order, d: Draws, keep: set<string>, ctx: VerifyContext)
    requires c.Sound() && Proper(c, o, d) && Trusted(c, d, ctx)
    ensures var open, openM := Obj(PayloadFields(RequestOf(c, o, d))), Present(c, OpenOf(c, o, d), keep);
      VerifyCredentials(c, openM, Built(c, o, d).closedM, open, ClosedOf(c, o, d), CheckoutJwt(c, o, d), ctx)
      == VerifyBindings(c, openM, Built(c, o, d).closedM, open, ClosedOf(c, o, d), AgentJwk(c, d),
                        CheckoutJwt(c, o, d), ctx)
  {
    var rq, openM := RequestOf(c, o, d), Present(c, OpenOf(c, o, d), keep);
    ProperMandate(c, o, d);
    OpenRead(c, o, d);
    OpenParses(c, o, d, keep);
    SealedParses(c, ClosedOf(c, o, d), d.agentKey, o.nonce, o.aud, o.closedIat);
    SeenMerchants(c, rq, MerchantClaim(o.allowedMerchants, d), keep);
    ClosedTame(c, o, d);
    NothingToDisclose(c.codec, ClosedOf(c, o, d));
    CredentialExactly(c, openM, Built(c, o, d).closedM, Obj(PayloadFields(rq)), ClosedOf(c, o, d), Str(ISSUER),
                      AgentJwk(c, d), CheckoutJwt(c, o, d), ctx, c.pub(d.issuerKey));
  }

  // A built chain, whichever merchants the holder reveals, is accepted exactly
  // when the nonce is the verifier's, the checkout says what the closed mandate
  // says, and every constraint passes on the merchants revealed.
  lemma AcceptedExactly(c: Crypto, o: Order, d: Draws, keep: set<string>, ctx: VerifyContext)
    requires c.Sound() && Proper(c, o, d) && Trusted(c, d, ctx)
    ensures VerifyDelegationChain(c, Texts(Present(c, Built(c, o, d).openM, keep), Built(c, o, d).closedM),
                                  Built(c, o, d).checkoutJwt, ctx).Passed?
       <==> && ctx.nonce == o.nonce && CheckoutAgrees(o)
            && AllPass(ctx.registry, ClosedOf(c, o, d), ctx.ConstraintCtx(MerchantsSeen(c, RequestOf(c, o, d), keep)))
  {
    OpenParses(c, o, d, keep);
    SealedParses(c, ClosedOf(c, o, d), d.agentKey, o.nonce, o.aud, o.closedIat);
    CredentialStep(c, o, d, keep, ctx);
    BindingStep(c, o, d, keep, ctx);
    ContentStep(c, o, d, keep, ctx);
  }

  lemma DefaultCheckoutAgrees(o: Order)
    requires o.checkout.None?
    ensures CheckoutAgrees(o)
  {
    var fields := CheckoutOf(o).fields;
    assert DistinctKeys(fields);
    GetAt(fields, 0);
    GetAt(fields, 1);
    GetAt(fields, 2);
  }

  // ---- The whole mandate, and the least of it ----

  lemma {:induction false} KeptAll(c: Crypto, raws: seq<string>, keep: set<string>)
    requires forall raw :: raw in raws ==> c.Hash(raw) in keep
    ensures Kept(c, raws, keep) == raws
  {
    if raws == [] {
    } else {
      KeptAll(c, raws[..|raws| - 1], keep);
    }
  }

  lemma AllCandidatesKept(c: Crypto, o: Order, d: Draws)
    requires c.Sound() && Proper(c, o, d)
    ensures Present(c, OpenOf(c, o, d), Candidates(c, Raws(c, RequestOf(c, o, d)))) == OpenOf(c, o, d)
  {
    var rq := RequestOf(c, o, d);
    var raws := Raws(c, rq);
    forall raw | raw in raws ensures c.codec.parse(raw).Some? && c.codec.parse(raw).value.kind == Element {
      assert raw in ArrayRaws(c, rq.arrays);
      ArrayRawsMembers(c, rq.arrays);
    }
    KeptAll(c, raws, Candidates(c, raws));
  }

  // A chain as built, with the default checkout and the verifier's nonce, is
  // accepted exactly when its constraints pass on all allowed merchants.
  lemma BuiltAccepted(c: Crypto, o: Order, d: Draws, ctx: VerifyContext) returns (merchants: seq<Json>)
    requires c.Sound() && Proper(c, o, d) && Trusted(c, d, ctx) && ctx.nonce == o.nonce && o.checkout.None?
    ensures forall m :: m in merchants <==> m.Str? && m.s in o.allowedMerchants
    ensures VerifyDelegationChain(c, Texts(Built(c, o, d).openM, Built(c, o, d).closedM), Built(c, o, d).checkoutJwt,
                                  ctx).Passed?
       <==> AllPass(ctx.registry, ClosedOf(c, o, d), ctx.ConstraintCtx(Arr(merchants)))
  {
    var rq, a := RequestOf(c, o, d), MerchantClaim(o.allowedMerchants, d);
    var all := Candidates(c, Raws(c, rq));
    merchants := KeptValues(c, a.elems, all, a.slots);
    ProperMandate(c, o, d);
    SeenMerchants(c, rq, a, all);
    AllCandidatesKept(c, o, d);
    DefaultCheckoutAgrees(o);
    AcceptedExactly(c, o, d, all, ctx);
    forall m ensures m in merchants <==> m.Str? && m.s in o.allowedMerchants {
      KeptValuesExactly(c, rq, a, all, m);
      if e :| e in a.elems && ElemDigest(c, e) in all && e.value == m { AllowedElem(o, d, e); }
      if m.Str? && m.s in o.allowedMerchants {
        var e := ElemFor(o, d, m.s);
        CandidatesHold(c, rq, a, e);
      }
    }
  }

  lemma AllowedElem(o: Order, d: Draws, e: Elem)
    requires |d.salts| == |o.allowedMerchants| && e in MerchantClaim(o.allowedMerchants, d).elems
    ensures e.value.Str? && e.value.s in o.allowedMerchants
  {
  }

  lemma ElemFor(o: Order, d: Draws, merchant: string) returns (e: Elem)
    requires |d.salts| == |o.allowedMerchants| && merchant in o.allowedMerchants
    ensures e in MerchantClaim(o.allowedMerchants, d).elems && e.value == Str(merchant)
  {
    var i :| 0 <= i < |o.allowedMerchants| && o.allowedMerchants[i] == merchant;
    e := MerchantClaim(o.allowedMerchants, d).elems[i];
  }

  // The solver's test and the verifier's last step are the same.
  lemma SatisfiesIsAccepted(c: Crypto, o: Order, d: Draws, keep: set<string>, ctx: VerifyContext)
    requires c.Sound() && Proper(c, o, d) && Trusted(c, d, ctx) && ctx.nonce == o.nonce && CheckoutAgrees(o)
    ensures Satisfies(c, RequestOf(c, o, d), ctx.registry, ClosedOf(c, o, d), ctx.ConstraintCtx(Arr([])), keep)
       <==> VerifyDelegationChain(c, Texts(Present(c, Built(c, o, d).openM, keep), Built(c, o, d).closedM),
                                  Built(c, o, d).checkoutJwt, ctx).Passed?
  {
    ProperMandate(c, o, d);
    SeenMerchants(c, RequestOf(c, o, d), MerchantClaim(o.allowedMerchants, d), keep);
    AcceptedExactly(c, o, d, keep, ctx);
    NoFalse(ctx.registry, ClosedOf(c, o, d), ctx.ConstraintCtx(MerchantsSeen(c, RequestOf(c, o, d), keep)));
  }

  predicate Accepted(c: Crypto, chain: seq<string>, checkoutJwt: string, ctx: VerifyContext)
    requires c.Sound()
  {
    VerifyDelegationChain(c, chain, checkoutJwt, ctx).Passed?
  }

  lemma SameAcceptance(c: Crypto, o: Order, d: Draws, keep: set<string>, ctx: VerifyContext)
    requires c.Sound() && Proper(c, o, d) && Trusted(c, d, ctx)
    requires var test :=
      Satisfaction(c, RequestOf(c, o, d), ctx.registry, ClosedOf(c, o, d), ctx.ConstraintCtx(Arr([])));
      test(keep) == test(Candidates(c, Raws(c, RequestOf(c, o, d))))
    ensures var chain := Built(c, o, d);
      Accepted(c, Texts(Present(c, chain.openM, keep), chain.closedM), chain.checkoutJwt, ctx)
      <==> Accepted(c, Texts(chain.openM, chain.closedM), chain.checkoutJwt, ctx)
  {
    var all := Candidates(c, Raws(c, RequestOf(c, o, d)));
    AllCandidatesKept(c, o, d);
    if ctx.nonce == o.nonce && CheckoutAgrees(o) {
      SatisfiesIsAccepted(c, o, d, keep, ctx);
      SatisfiesIsAccepted(c, o, d, all, ctx);
    } else {
      AcceptedExactly(c, o, d, keep, ctx);
      AcceptedExactly(c, o, d, all, ctx);
    }
  }

  // Building a chain and revealing only what the solver keeps: the reduced
  // chain is accepted exactly if the whole one is, and then it reveals one
  // merchant if a constraint asks for it and none otherwise. The solver raises
  // only where evaluating the whole mandate does.
  method DelegateMinimally(c: Crypto, o: Order, d: Draws, ctx: VerifyContext, listing: seq<string>)
    returns (whole: Delegation, kept: Option<set<string>>)
    requires c.Sound() && Proper(c, o, d) && Trusted(c, d, ctx) && ctx.registry == DefaultVerifiers()
    requires AllOf(listing) == Candidates(c, Raws(c, RequestOf(c, o, d)))
    ensures whole == Built(c, o, d)
    ensures kept.Some? ==>
      (Accepted(c, Texts(Present(c, whole.openM, kept.value), whole.closedM), whole.checkoutJwt, ctx)
       <==> Accepted(c, Texts(whole.openM, whole.closedM), whole.checkoutJwt, ctx))
    ensures Accepted(c, Texts(whole.openM, whole.closedM), whole.checkoutJwt, ctx) ==>
      kept.Some? && |kept.value| == if AsksForMerchant(ClosedOf(c, o, d)) then 1 else 0
  {
    whole := BuildChain(c, o, d);
    ProperMandate(c, o, d);
    kept := SolveByDefault(c, RequestOf(c, o, d), MerchantClaim(o.allowedMerchants, d), ClosedOf(c, o, d),
                           ctx.ConstraintCtx(Arr([])), listing);
    if kept.Some? { SameAcceptance(c, o, d, kept.value, ctx); }
    WholeSatisfies(c, o, d, ctx);
  }

  lemma WholeSatisfies(c: Crypto, o: Order, d: Draws, ctx: VerifyContext)
    requires c.Sound() && Proper(c, o, d) && Trusted(c, d, ctx)
    ensures var chain := Built(c, o, d);
      Accepted(c, Texts(chain.openM, chain.closedM), chain.checkoutJwt, ctx) ==>
        Satisfies(c, RequestOf(c, o, d), ctx.registry, ClosedOf(c, o, d), ctx.ConstraintCtx(Arr([])),
                  Candidates(c, Raws(c, RequestOf(c, o, d))))
  {
    var all := Candidates(c, Raws(c, RequestOf(c, o, d)));
    AllCandidatesKept(c, o, d);
    AcceptedExactly(c, o, d, all, ctx);
    if ctx.nonce == o.nonce && CheckoutAgrees(o) { SatisfiesIsAccepted(c, o, d, all, ctx); }
  }

  // ---- What an observer can count ----

  // Placeholders in the top-level arrays of a payload.
  function SlotCount(items: seq<Json>): nat {
    if items == [] then 0
    else SlotCount(items[..|items| - 1]) + if IsPlaceholder(items[|items| - 1]) then 1 else 0
  }

  function SlotsIn(fields: seq<Field>): nat {
    if fields == [] then 0
    else
      var v := fields[|fields| - 1].value;
      SlotsIn(fields[..|fields| - 1]) + if v.Arr? then SlotCount(v.items) else 0
  }

  method ObservableSlots(fields: seq<Field>) returns (count: nat)
    ensures count == SlotsIn(fields)
  {
    count := 0;
    for i := 0 to |fields|
      invariant count == SlotsIn(fields[..i])
    {
      assert fields[..i + 1][..i] == fields[..i];
      if fields[i].value.Arr? {
        var items, here := fields[i].value.items, 0;
        for j := 0 to |items|
          invariant here == SlotCount(items[..j])
        {
          assert items[..j + 1][..j] == items[..j];
          if IsPlaceholder(items[j]) { here := here + 1; }
        }
        assert items[..|items|] == items;
        count := count + here;
      }
    }
    assert fields[..|fields|] == fields;
  }

  lemma {:induction false} SlotsInAppend(a: seq<Field>, b: seq<Field>)
    ensures SlotsIn(a + b) == SlotsIn(a) + SlotsIn(b)
  {
    if b == [] {
      assert a + b == a;
    } else {
      assert (a + b)[..|a + b| - 1] == a + b[..|b| - 1];
      SlotsInAppend(a, b[..|b| - 1]);
    }
  }

  lemma {:induction false} NoSlots(items: seq<Json>)
    requires forall item :: item in items ==> !IsPlaceholder(item)
    ensures SlotCount(items) == 0
  {
    if items == [] {
    } else {
      NoSlots(items[..|items| - 1]);
    }
  }

  lemma {:induction false} PlainFieldsHaveNoSlots(fields: seq<Field>)
    requires forall f :: f in fields ==> f.value.Arr? ==> forall item :: item in f.value.items ==> !IsPlaceholder(item)
    ensures SlotsIn(fields) == 0
  {
    if fields == [] {
    } else {
      PlainFieldsHaveNoSlots(fields[..|fields| - 1]);
      var f := fields[|fields| - 1];
      assert f in fields;
      if f.value.Arr? { NoSlots(f.value.items); }
    }
  }

  lemma {:induction false} AllSlots(slots: seq<string>)
    ensures SlotCount(Placeholders(slots)) == |slots|
  {
    if slots == [] {
    } else {
      assert Placeholders(slots)[..|slots| - 1] == Placeholders(slots[..|slots| - 1]);
      AllSlots(slots[..|slots| - 1]);
    }
  }

  lemma NoSlotsInClaims(rq: Request)
    requires WellPosed(rq)
    ensures SlotsIn(rq.claims + SdFields(rq)) == 0
  {
    forall f | f in rq.claims + SdFields(rq) && f.value.Arr?
      ensures forall item :: item in f.value.items ==> !IsPlaceholder(item)
    {
      if f in rq.claims { assert Tame(f.value); } else { assert f.value == Arr(Strs(rq.listed)); }
    }
    PlainFieldsHaveNoSlots(rq.claims + SdFields(rq));
  }

  // Every merchant and every decoy is one slot, so an observer counts their sum,
  // whatever is revealed.
  lemma SlotsAreMerchantsAndDecoys(c: Crypto, o: Order, d: Draws)
    requires Proper(c, o, d)
    ensures SlotsIn(PayloadFields(RequestOf(c, o, d))) == |o.allowedMerchants| + |d.merchantDecoys|
  {
    ProperMandate(c, o, d);
    var rq := RequestOf(c, o, d);
    PayloadShape(rq);
    NoSlotsInClaims(rq);
    var merchants := [Field(MERCHANTS, Arr(Placeholders(d.slots)))];
    assert ArrayFields(rq.arrays) == merchants;
    SlotsInAppend(rq.claims + SdFields(rq), merchants);
    assert merchants[..0] == [];
    AllSlots(d.slots);
    SlotTotal(c, o, d);
  }

  lemma SlotTotal(c: Crypto, o: Order, d: Draws)
    requires Proper(c, o, d)
    ensures |d.slots| == |o.allowedMerchants| + |d.merchantDecoys|
  {
    var a := MerchantClaim(o.allowedMerchants, d);
    assert a in RequestOf(c, o, d).arrays;
    SameLength(a.slots, Hashes(c, ElemRaws(c, a.elems)) + a.decoys);
    ElemCount(c, a.elems);
  }

  lemma {:induction false} ElemCount(c: Crypto, elems: seq<Elem>)
    ensures |Hashes(c, ElemRaws(c, elems))| == |elems|
  {
    if elems == [] {
    } else {
      ElemCount(c, elems[..|elems| - 1]);
      HashesSnoc(c, ElemRaws(c, elems[..|elems| - 1]), ElemRaw(c, elems[|elems| - 1]));
    }
  }
}
