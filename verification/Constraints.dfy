// aegis/ap2/constraints.py: constraint verifiers that read their parameters
// from the constraint object, and the registry that runs them.
module Constraints {
  import opened Wrappers
  import opened Json

  datatype Observed = Observed(count: int, value: real)

  // `halfPower` stands for x |-> 0.5 ** x.
  datatype Ctx = Ctx(
    now: real,
    executedFxRate: Option<real>,
    velocityObserved: Option<Observed>,
    disclosedMerchants: Json,
    halfPower: real -> real)

  // A verifier passes, fails, or raises on data it cannot read.
  datatype Check = Pass | Fail | Raise

  type Verifier = (Json, Json, Ctx) -> Check

  const TOLERANCE := 0.000000001
  const SPEND_CURVE := "com.aegis.spend_curve"
  const MCC_ALLOWLIST := "com.aegis.mcc_allowlist"
  const FX_SLIPPAGE := "com.aegis.fx_slippage_bound"
  const VELOCITY_ENVELOPE := "com.aegis.velocity_envelope"
  const ALLOWED_MERCHANTS := "checkout.allowed_merchants"

  // ---- Reading values the way Python does ----

  // d.get(k), where a missing key reads as None.
  function Member(j: Json, key: string): Json {
    if j.Obj? then GetOr(j.fields, key, Null) else Null
  }

  function AsNumber(j: Json): Option<real> {
    match j
    case Num(n) => Some(n.Value())
    case Bool(b) => Some(if b then 1.0 else 0.0)
    case _ => None
  }

  predicate Hashable(j: Json) {
    !j.Arr? && !j.Obj?
  }

  // set(j), or None where building it raises.
  function AsSet(j: Json): Option<set<Json>> {
    match j
    case Arr(items) =>
      if forall item :: item in items ==> Hashable(item) then Some(set item | item in items) else None
    case Str(s) => Some(set ch | ch in s :: Str([ch]))
    case Obj(fields) => Some(set f | f in fields :: Str(f.key))
    case _ => None
  }

  // closed["payment_amount"]["value_usd"] as a number.
  function ValueUsd(closed: Json): Option<real> {
    AsNumber(Member(Member(closed, "payment_amount"), "value_usd"))
  }

  // (closed.get("payee") or {}).get(key); None where a truthy payee is no dictionary.
  function PayeeMember(closed: Json, key: string): Option<Json> {
    var payee := Member(closed, "payee");
    if !Truthy(payee) then Some(Null)
    else if payee.Obj? then Some(Member(payee, key))
    else None
  }

  // ---- Verifiers ----

  function VerifySpendCurve(c: Json, closed: Json, ctx: Ctx): Check {
    SpendCurve(c, closed, ctx.now, ctx.halfPower)
  }

  function SpendCurve(c: Json, closed: Json, now: real, halfPower: real -> real): Check {
    var openIat := Member(closed, "open_iat");
    if openIat.Null? then Fail
    else if AsNumber(openIat).None? then Raise
    else
      WithinCurve((now - AsNumber(openIat).value) / 3600.0, AsNumber(Member(c, "initial_usd")),
                  AsNumber(Member(c, "half_life_hours")), ValueUsd(closed), halfPower)
  }

  function WithinCurve(ageHours: real, initial: Option<real>, halfLife: Option<real>, usd: Option<real>,
                       halfPower: real -> real): Check
  {
    if ageHours < 0.0 then Fail
    else if initial.None? || halfLife.None? || halfLife.value == 0.0 || usd.None? then Raise
    else if usd.value > initial.value * halfPower(ageHours / halfLife.value) + TOLERANCE then Fail
    else Pass
  }

  function VerifyMccAllowlist(c: Json, closed: Json, ctx: Ctx): Check {
    var mcc := PayeeMember(closed, "mcc");
    if mcc.None? then Raise
    else if mcc.value.Null? then Fail
    else
      var allowed := AsSet(Member(c, "allowed_mcc"));
      if allowed.None? || !Hashable(mcc.value) then Raise
      else if mcc.value !in allowed.value then Fail
      else Pass
  }

  function VerifyFxSlippage(c: Json, closed: Json, ctx: Ctx): Check {
    if ctx.executedFxRate.None? then
      var amount := Member(closed, "payment_amount");
      if !amount.Obj? then Raise
      else if Member(amount, "currency") == Member(c, "quote_currency") then Pass
      else Fail
    else
      var quoted, maxBps := AsNumber(Member(c, "quoted_rate")), AsNumber(Member(c, "max_bps"));
      if quoted.None? || quoted.value == 0.0 || maxBps.None? then Raise
      else
        var gap := ctx.executedFxRate.value - quoted.value;
        var bps := (if gap < 0.0 then -gap else gap) / quoted.value * 10000.0;
        if bps > maxBps.value then Fail else Pass
  }

  function VerifyMerchantAllowlist(c: Json, closed: Json, ctx: Ctx): Check {
    var payeeId := PayeeMember(closed, "id");
    var disclosed := if Truthy(ctx.disclosedMerchants) then AsSet(ctx.disclosedMerchants) else Some({});
    if payeeId.None? || disclosed.None? || !Hashable(payeeId.value) then Raise
    else if payeeId.value !in disclosed.value then Fail
    else Pass
  }

  function VerifyVelocityEnvelope(c: Json, closed: Json, ctx: Ctx): Check {
    var observed := match ctx.velocityObserved case Some(o) => o case None => Observed(0, 0.0);
    var maxCount, maxValue := AsNumber(Member(c, "max_count")), AsNumber(Member(c, "max_value_usd"));
    if ValueUsd(closed).None? || maxCount.None? then Raise
    else if (observed.count + 1) as real > maxCount.value then Fail
    else if maxValue.None? then Raise
    else if observed.value + ValueUsd(closed).value > maxValue.value + TOLERANCE then Fail
    else Pass
  }

  // ---- Registry ----

  type Registry = map<string, Verifier>

  function CheckOne(reg: Registry, c: Json, closed: Json, ctx: Ctx): Check {
    if !c.Obj? || !Hashable(Member(c, "type")) then Raise
    else
      var t := Member(c, "type");
      if t.Str? && t.s in reg then reg[t.s](c, closed, ctx) else Fail
  }

  // The constraints of a closed mandate; None where iterating them raises.
  function ConstraintsOf(closed: Json): Option<seq<Json>> {
    if !closed.Obj? then None
    else
      match GetOr(closed.fields, "constraints", Arr([]))
      case Arr(items) => Some(items)
      case Str(s) => Some(seq(|s|, i requires 0 <= i < |s| => Str([s[i]])))
      case Obj(fields) => Some(seq(|fields|, i requires 0 <= i < |fields| => Str(fields[i].key)))
      case _ => None
  }

  // One result per constraint, in order; None as soon as a verifier raises.
  function Results(reg: Registry, cs: seq<Json>, closed: Json, ctx: Ctx): Option<seq<bool>> {
    if cs == [] then Some([])
    else
      var front := Results(reg, cs[..|cs| - 1], closed, ctx);
      var last := CheckOne(reg, cs[|cs| - 1], closed, ctx);
      if front.None? || last.Raise? then None else Some(front.value + [last.Pass?])
  }

  function Evaluated(reg: Registry, closed: Json, ctx: Ctx): Option<seq<bool>> {
    match ConstraintsOf(closed) case Some(cs) => Results(reg, cs, closed, ctx) case None => None
  }

  class ConstraintRegistry {
    var v: Registry

    constructor ()
      ensures v == map[]
    {
      v := map[];
    }

    method Register(type_: string, verifier: Verifier)
      modifies this
      ensures v == old(v)[type_ := verifier]
    {
      v := v[type_ := verifier];
    }

    method Evaluate(closed: Json, ctx: Ctx) returns (results: Option<seq<bool>>)
      ensures results == Evaluated(v, closed, ctx)
    {
      var cs := ConstraintsOf(closed);
      if cs.None? { return None; }
      var oks: seq<bool> := [];
      for i := 0 to |cs.value|
        invariant Results(v, cs.value[..i], closed, ctx) == Some(oks)
      {
        assert cs.value[..i + 1][..i] == cs.value[..i];
        var r := CheckOne(v, cs.value[i], closed, ctx);
        if r.Raise? {
          ResultsRaise(v, cs.value, i + 1, closed, ctx);
          return None;
        }
        oks := oks + [r.Pass?];
      }
      assert cs.value[..|cs.value|] == cs.value;
      return Some(oks);
    }
  }

  lemma {:induction false} ResultsRaise(reg: Registry, cs: seq<Json>, n: nat, closed: Json, ctx: Ctx)
    requires n <= |cs| && Results(reg, cs[..n], closed, ctx).None?
    ensures Results(reg, cs, closed, ctx).None?
    decreases |cs| - n
  {
    if n == |cs| {
      assert cs[..n] == cs;
    } else {
      assert cs[..n + 1][..n] == cs[..n];
      ResultsRaise(reg, cs, n + 1, closed, ctx);
    }
  }

  function DefaultVerifiers(): Registry {
    map[SPEND_CURVE := (c, closed, ctx) => VerifySpendCurve(c, closed, ctx),
        MCC_ALLOWLIST := (c, closed, ctx) => VerifyMccAllowlist(c, closed, ctx),
        FX_SLIPPAGE := (c, closed, ctx) => VerifyFxSlippage(c, closed, ctx),
        VELOCITY_ENVELOPE := (c, closed, ctx) => VerifyVelocityEnvelope(c, closed, ctx),
        ALLOWED_MERCHANTS := (c, closed, ctx) => VerifyMerchantAllowlist(c, closed, ctx)]
  }

  // ---- Every constraint, and only known ones ----

  ghost predicate AllPass(reg: Registry, closed: Json, ctx: Ctx) {
    Evaluated(reg, closed, ctx).Some? && forall i :: 0 <= i < |Evaluated(reg, closed, ctx).value| ==>
      Evaluated(reg, closed, ctx).value[i]
  }

  lemma {:induction false} ResultsPass(reg: Registry, cs: seq<Json>, closed: Json, ctx: Ctx)
    ensures Results(reg, cs, closed, ctx).None? <==> exists c :: c in cs && CheckOne(reg, c, closed, ctx).Raise?
    ensures Results(reg, cs, closed, ctx).Some? ==>
      && |Results(reg, cs, closed, ctx).value| == |cs|
      && forall i :: 0 <= i < |cs| ==>
           (Results(reg, cs, closed, ctx).value[i] <==> CheckOne(reg, cs[i], closed, ctx).Pass?)
  {
    if cs == [] {
    } else {
      var front, last := cs[..|cs| - 1], cs[|cs| - 1];
      ResultsPass(reg, front, closed, ctx);
      assert cs == front + [last];
      if c :| c in cs && CheckOne(reg, c, closed, ctx).Raise? { assert c in front || c == last; }
      assert last in cs;
      assert forall c :: c in front ==> c in cs;
    }
  }

  lemma AllPassMeans(reg: Registry, closed: Json, ctx: Ctx)
    ensures AllPass(reg, closed, ctx) <==>
      ConstraintsOf(closed).Some? && forall c :: c in ConstraintsOf(closed).value ==>
        CheckOne(reg, c, closed, ctx).Pass?
  {
    if ConstraintsOf(closed).Some? {
      var cs := ConstraintsOf(closed).value;
      ResultsPass(reg, cs, closed, ctx);
      if AllPass(reg, closed, ctx) {
        forall c | c in cs ensures CheckOne(reg, c, closed, ctx).Pass? {
          var i :| 0 <= i < |cs| && cs[i] == c;
          assert Evaluated(reg, closed, ctx).value[i];
        }
      }
      assert forall i :: 0 <= i < |cs| ==> cs[i] in cs;
    }
  }

  // A constraint of an unregistered type fails the whole mandate.
  lemma UnknownTypeFails(reg: Registry, closed: Json, ctx: Ctx, c: Json)
    requires ConstraintsOf(closed).Some? && c in ConstraintsOf(closed).value
    requires forall t :: t in reg ==> Member(c, "type") != Str(t)
    ensures !AllPass(reg, closed, ctx)
  {
    AllPassMeans(reg, closed, ctx);
  }

  // ---- What the disclosed merchants can change ----

  predicate AsksForMerchant(closed: Json) {
    ConstraintsOf(closed).Some? &&
    exists c :: c in ConstraintsOf(closed).value && Member(c, "type") == Str(ALLOWED_MERCHANTS)
  }

  predicate MerchantShown(closed: Json, merchants: Json) {
    && PayeeMember(closed, "id").Some? && Hashable(PayeeMember(closed, "id").value)
    && merchants.Arr? && PayeeMember(closed, "id").value in merchants.items
  }

  lemma SpendCurveElsewhere(c: Json, closed: Json, ctx: Ctx, merchants: Json)
    ensures VerifySpendCurve(c, closed, ctx) == VerifySpendCurve(c, closed, ctx.(disclosedMerchants := merchants))
  {
  }

  lemma MccAllowlistElsewhere(c: Json, closed: Json, ctx: Ctx, merchants: Json)
    ensures VerifyMccAllowlist(c, closed, ctx) == VerifyMccAllowlist(c, closed, ctx.(disclosedMerchants := merchants))
  {
  }

  lemma FxSlippageElsewhere(c: Json, closed: Json, ctx: Ctx, merchants: Json)
    ensures VerifyFxSlippage(c, closed, ctx) == VerifyFxSlippage(c, closed, ctx.(disclosedMerchants := merchants))
  {
  }

  lemma VelocityEnvelopeElsewhere(c: Json, closed: Json, ctx: Ctx, merchants: Json)
    ensures VerifyVelocityEnvelope(c, closed, ctx)
      == VerifyVelocityEnvelope(c, closed, ctx.(disclosedMerchants := merchants))
  {
  }

  // Among the default verifiers only the merchant one looks at them.
  lemma CheckOneElsewhere(c: Json, closed: Json, ctx: Ctx, merchants: Json)
    requires Member(c, "type") != Str(ALLOWED_MERCHANTS)
    ensures CheckOne(DefaultVerifiers(), c, closed, ctx)
         == CheckOne(DefaultVerifiers(), c, closed, ctx.(disclosedMerchants := merchants))
  {
    SpendCurveElsewhere(c, closed, ctx, merchants);
    MccAllowlistElsewhere(c, closed, ctx, merchants);
    FxSlippageElsewhere(c, closed, ctx, merchants);
    VelocityEnvelopeElsewhere(c, closed, ctx, merchants);
  }

  lemma CheckOneMerchant(c: Json, closed: Json, ctx: Ctx)
    requires Member(c, "type") == Str(ALLOWED_MERCHANTS)
    requires ctx.disclosedMerchants.Arr? && forall m :: m in ctx.disclosedMerchants.items ==> Hashable(m)
    ensures CheckOne(DefaultVerifiers(), c, closed, ctx).Pass? <==> MerchantShown(closed, ctx.disclosedMerchants)
  {
  }
}
