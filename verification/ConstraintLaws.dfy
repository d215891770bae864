// aegis/ap2/constraints.py: what the default constraints come to, in amounts,
// ages, rates and counts, on mandates that can be read.
module ConstraintLaws {
  import opened Wrappers
  import opened Json
  import opened Constraints

  function Checked(c: Json, closed: Json, ctx: Ctx): Check {
    CheckOne(DefaultVerifiers(), c, closed, ctx)
  }

  predicate Typed(c: Json, name: string) {
    c.Obj? && Member(c, "type") == Str(name)
  }

  predicate Reads(c: Json, key: string, x: real) {
    AsNumber(Member(c, key)) == Some(x)
  }

  // ---- The spend curve ----

  predicate IsSpendCurve(c: Json, initialUsd: real, halfLifeHours: real) {
    && Typed(c, "com.aegis.spend_curve")
    && Reads(c, "initial_usd", initialUsd) && Reads(c, "half_life_hours", halfLifeHours)
  }

  // An amount paid on a mandate opened at this time.
  predicate Pays(closed: Json, openIat: real, usd: real) {
    Reads(closed, "open_iat", openIat) && ValueUsd(closed) == Some(usd)
  }

  // Passes exactly if the mandate is not from the future and the amount is
  // within the budget, which decays by its half-life in hours.
  lemma SpendCurvePasses(c: Json, initial: real, halfLife: real, closed: Json, ctx: Ctx, openIat: real, usd: real)
    requires IsSpendCurve(c, initial, halfLife) && Pays(closed, openIat, usd) && halfLife != 0.0
    ensures !Checked(c, closed, ctx).Raise?
    ensures Checked(c, closed, ctx).Pass? <==>
      openIat <= ctx.now && usd <= Budget(initial, halfLife, ctx.now - openIat, ctx.halfPower)
  {
    SpendCurveChecked(c, closed, ctx);
    SpendCurveReads(c, initial, halfLife, closed, ctx, openIat, usd);
    BudgetBinds(ctx.now - openIat, (ctx.now - openIat) / 3600.0, initial, halfLife, usd, ctx.halfPower);
  }

  lemma SpendCurveChecked(c: Json, closed: Json, ctx: Ctx)
    requires Typed(c, "com.aegis.spend_curve")
    ensures Checked(c, closed, ctx) == SpendCurve(c, closed, ctx.now, ctx.halfPower)
  {
  }

  lemma SpendCurveReads(c: Json, initial: real, halfLife: real, closed: Json, ctx: Ctx, openIat: real, usd: real)
    requires IsSpendCurve(c, initial, halfLife) && Pays(closed, openIat, usd)
    ensures SpendCurve(c, closed, ctx.now, ctx.halfPower)
         == WithinCurve((ctx.now - openIat) / 3600.0, Some(initial), Some(halfLife), Some(usd), ctx.halfPower)
  {
  }

  lemma BudgetBinds(seconds: real, hours: real, initial: real, halfLife: real, usd: real, halfPower: real -> real)
    requires halfLife != 0.0 && hours == seconds / 3600.0
    ensures WithinCurve(hours, Some(initial), Some(halfLife), Some(usd), halfPower) ==
      if seconds >= 0.0 && usd <= Budget(initial, halfLife, seconds, halfPower) then Pass else Fail
  {
    assert hours < 0.0 <==> seconds < 0.0;
  }

  function Budget(initial: real, halfLife: real, seconds: real, halfPower: real -> real): real
    requires halfLife != 0.0
  {
    initial * halfPower(seconds / 3600.0 / halfLife) + 0.000000001
  }

  // Half of it is left one half-life later: a doubled budget is then as good.
  lemma SpendCurveHalves(c: Json, c2: Json, initial: real, halfLife: real, closed: Json, ctx: Ctx, later: Ctx,
                         openIat: real, usd: real)
    requires IsSpendCurve(c, initial, halfLife) && IsSpendCurve(c2, 2.0 * initial, halfLife) && halfLife > 0.0
    requires Pays(closed, openIat, usd) && openIat <= ctx.now
    requires later.now == ctx.now + 3600.0 * halfLife && later.halfPower == ctx.halfPower
    requires forall x :: ctx.halfPower(x + 1.0) == ctx.halfPower(x) / 2.0
    ensures Checked(c2, closed, later) == Checked(c, closed, ctx)
  {
    SpendCurvePasses(c, initial, halfLife, closed, ctx, openIat, usd);
    SpendCurvePasses(c2, 2.0 * initial, halfLife, closed, later, openIat, usd);
    BudgetHalves(initial, halfLife, ctx.now - openIat, later.now - openIat, ctx.halfPower);
  }

  lemma BudgetHalves(initial: real, halfLife: real, age: real, older: real, halfPower: real -> real)
    requires halfLife > 0.0 && older == age + 3600.0 * halfLife
    requires forall x :: halfPower(x + 1.0) == halfPower(x) / 2.0
    ensures Budget(2.0 * initial, halfLife, older, halfPower) == Budget(initial, halfLife, age, halfPower)
  {
    OneMoreHalfLife(age / 3600.0, halfLife);
    assert older / 3600.0 == age / 3600.0 + halfLife;
    var x := age / 3600.0 / halfLife;
    Doubled(initial, halfPower(x), halfPower(x + 1.0));
  }

  lemma OneMoreHalfLife(hours: real, halfLife: real)
    requires halfLife > 0.0
    ensures (hours + halfLife) / halfLife == hours / halfLife + 1.0
  {
    var q := hours / halfLife;
    assert q * halfLife == hours;
    assert (q + 1.0) * halfLife == hours + halfLife;
    QuotientIs(hours + halfLife, halfLife, q + 1.0);
  }

  lemma QuotientIs(x: real, y: real, q: real)
    requires y > 0.0 && q * y == x
    ensures x / y == q
  {
  }

  lemma Doubled(a: real, p: real, q: real)
    requires q == p / 2.0
    ensures 2.0 * a * q == a * p
  {
  }

  // ---- Merchant categories ----

  predicate IsMccAllowlist(c: Json, allowed: seq<Json>) {
    && Typed(c, "com.aegis.mcc_allowlist") && Member(c, "allowed_mcc") == Arr(allowed)
    && forall x :: x in allowed ==> Hashable(x)
  }

  // Passes exactly for a payee of a listed category; one without any fails.
  lemma MccPasses(c: Json, allowed: seq<Json>, closed: Json, ctx: Ctx, mcc: Json)
    requires IsMccAllowlist(c, allowed) && PayeeMember(closed, "mcc") == Some(mcc) && Hashable(mcc)
    ensures !Checked(c, closed, ctx).Raise?
    ensures Checked(c, closed, ctx).Pass? <==> !mcc.Null? && mcc in allowed
  {
    assert Checked(c, closed, ctx) == VerifyMccAllowlist(c, closed, ctx);
  }

  // ---- Exchange rates ----

  predicate IsFxBound(c: Json, quoted: real, bps: real) {
    Typed(c, "com.aegis.fx_slippage_bound") && Reads(c, "quoted_rate", quoted) && Reads(c, "max_bps", bps)
  }

  // With an executed rate, passes exactly if it is off the quoted one, up or
  // down, by no more than so many ten-thousandths of it,
  lemma SlippagePasses(c: Json, quoted: real, bps: real, closed: Json, ctx: Ctx, rate: real)
    requires IsFxBound(c, quoted, bps) && quoted > 0.0 && ctx.executedFxRate == Some(rate)
    ensures !Checked(c, closed, ctx).Raise?
    ensures Checked(c, closed, ctx).Pass? <==>
      (rate - quoted) * 10000.0 <= bps * quoted && (quoted - rate) * 10000.0 <= bps * quoted
  {
    var gap := rate - quoted;
    assert Checked(c, closed, ctx) == VerifyFxSlippage(c, closed, ctx);
    var off := if gap < 0.0 then -gap else gap;
    OffBy(off, quoted, bps);
    assert quoted - rate == -gap;
  }

  lemma OffBy(off: real, quoted: real, bps: real)
    requires quoted > 0.0
    ensures off / quoted * 10000.0 > bps <==> off * 10000.0 > bps * quoted
  {
    var r := off / quoted;
    Cancels(off, quoted);
    Distributes(r, bps, quoted, off);
    SameSign(r * 10000.0 - bps, quoted);
  }

  lemma Cancels(off: real, quoted: real)
    requires quoted > 0.0
    ensures off / quoted * quoted == off
  {
  }

  lemma Distributes(r: real, bps: real, quoted: real, off: real)
    requires r * quoted == off
    ensures (r * 10000.0 - bps) * quoted == off * 10000.0 - bps * quoted
  {
  }

  lemma SameSign(x: real, y: real)
    requires y > 0.0
    ensures x > 0.0 <==> x * y > 0.0
  {
  }

  // and without one, exactly in the quoted currency.
  lemma OneCurrencyPasses(c: Json, closed: Json, ctx: Ctx)
    requires Typed(c, "com.aegis.fx_slippage_bound") && ctx.executedFxRate.None?
    requires Member(closed, "payment_amount").Obj?
    ensures !Checked(c, closed, ctx).Raise?
    ensures Checked(c, closed, ctx).Pass? <==>
      Member(Member(closed, "payment_amount"), "currency") == Member(c, "quote_currency")
  {
    assert Checked(c, closed, ctx) == VerifyFxSlippage(c, closed, ctx);
  }

  // ---- The velocity envelope, over a run ----

  predicate IsEnvelope(c: Json, maxCount: real, maxValue: real) {
    Typed(c, "com.aegis.velocity_envelope") && Reads(c, "max_count", maxCount) && Reads(c, "max_value_usd", maxValue)
  }

  lemma EnvelopePasses(c: Json, maxCount: real, maxValue: real, closed: Json, ctx: Ctx, usd: real)
    requires IsEnvelope(c, maxCount, maxValue) && ValueUsd(closed) == Some(usd)
    ensures var before := match ctx.velocityObserved case Some(o) => o case None => Observed(0, 0.0);
      && !Checked(c, closed, ctx).Raise?
      && (Checked(c, closed, ctx).Pass? <==>
            before.count as real + 1.0 <= maxCount && before.value + usd <= maxValue + 0.000000001)
  {
    assert Checked(c, closed, ctx) == VerifyVelocityEnvelope(c, closed, ctx);
  }

  function SumUpTo(usd: seq<real>, k: nat): real
    requires k <= |usd|
  {
    if k == 0 then 0.0 else SumUpTo(usd, k - 1) + usd[k - 1]
  }

  // The k-th payment, checked against those before it.
  predicate PassesAt(c: Json, closed: seq<Json>, usd: seq<real>, k: nat, ctx: Ctx)
    requires k < |closed| == |usd|
  {
    Checked(c, closed[k], ctx.(velocityObserved := Some(Observed(k, SumUpTo(usd, k))))).Pass?
  }

  predicate SumFits(usd: seq<real>, k: nat, maxValue: real)
    requires k < |usd|
  {
    SumUpTo(usd, k) + usd[k] <= maxValue + 0.000000001
  }

  lemma PassesAtExactly(c: Json, maxCount: real, maxValue: real, closed: seq<Json>, usd: seq<real>, ctx: Ctx, k: nat)
    requires IsEnvelope(c, maxCount, maxValue) && k < |closed| == |usd| && ValueUsd(closed[k]) == Some(usd[k])
    ensures PassesAt(c, closed, usd, k, ctx) <==> (k + 1) as real <= maxCount && SumFits(usd, k, maxValue)
  {
    EnvelopePasses(c, maxCount, maxValue, closed[k],
                   ctx.(velocityObserved := Some(Observed(k, SumUpTo(usd, k)))), usd[k]);
  }

  // A run of payments passes to the end exactly if they are no more than the
  // count and no sum of the first of them exceeds the value.
  lemma EnvelopeRun(c: Json, maxCount: real, maxValue: real, closed: seq<Json>, usd: seq<real>, ctx: Ctx)
    requires IsEnvelope(c, maxCount, maxValue) && |closed| == |usd| > 0
    requires forall k :: 0 <= k < |usd| ==> ValueUsd(closed[k]) == Some(usd[k])
    ensures (forall k: nat :: k < |usd| ==> PassesAt(c, closed, usd, k, ctx)) <==>
      |usd| as real <= maxCount && forall k: nat :: k < |usd| ==> SumFits(usd, k, maxValue)
  {
    forall k: nat | k < |usd|
      ensures PassesAt(c, closed, usd, k, ctx) <==> (k + 1) as real <= maxCount && SumFits(usd, k, maxValue)
      ensures (k + 1) as real <= |usd| as real
    {
      PassesAtExactly(c, maxCount, maxValue, closed, usd, ctx, k);
    }
    var last := |usd| - 1;
    if forall k: nat :: k < |usd| ==> PassesAt(c, closed, usd, k, ctx) { assert PassesAt(c, closed, usd, last, ctx); }
  }

  // ---- What the compilers write ----

  function CompileSpendCurve(initialUsd: Number, halfLifeHours: Number): Json {
    Obj([Field("type", Str("com.aegis.spend_curve")), Field("initial_usd", Num(initialUsd)),
         Field("half_life_hours", Num(halfLifeHours))])
  }

  function CompileMccAllowlist(allowed: seq<Json>): Json {
    Obj([Field("type", Str("com.aegis.mcc_allowlist")), Field("allowed_mcc", Arr(allowed))])
  }

  function CompileFxSlippageBound(quotedRate: Number, maxBps: Number, quoteCurrency: string): Json {
    Obj([Field("type", Str("com.aegis.fx_slippage_bound")), Field("quoted_rate", Num(quotedRate)),
         Field("max_bps", Num(maxBps)), Field("quote_currency", Str(quoteCurrency))])
  }

  function CompileVelocityEnvelope(maxCount: Number, maxValueUsd: Number, windowSeconds: Number): Json {
    Obj([Field("type", Str("com.aegis.velocity_envelope")), Field("max_count", Num(maxCount)),
         Field("max_value_usd", Num(maxValueUsd)), Field("window_seconds", Num(windowSeconds))])
  }

  lemma MemberAt(fields: seq<Field>, i: nat, key: string)
    requires DistinctKeys(fields) && i < |fields| && fields[i].key == key
    ensures Member(Obj(fields), key) == fields[i].value
  {
    GetAt(fields, i);
  }

  // They are read back as what they were compiled from.
  lemma SpendCurveIsRead(x: Number, y: Number)
    ensures IsSpendCurve(CompileSpendCurve(x, y), x.Value(), y.Value())
  {
    var fields := CompileSpendCurve(x, y).fields;
    MemberAt(fields, 0, "type");
    MemberAt(fields, 1, "initial_usd");
    MemberAt(fields, 2, "half_life_hours");
  }

  lemma MccAllowlistIsRead(allowed: seq<Json>)
    requires forall a :: a in allowed ==> Hashable(a)
    ensures IsMccAllowlist(CompileMccAllowlist(allowed), allowed)
  {
    var fields := CompileMccAllowlist(allowed).fields;
    MemberAt(fields, 0, "type");
    MemberAt(fields, 1, "allowed_mcc");
  }

  lemma FxBoundIsRead(x: Number, y: Number, currency: string)
    ensures IsFxBound(CompileFxSlippageBound(x, y, currency), x.Value(), y.Value())
    ensures Member(CompileFxSlippageBound(x, y, currency), "quote_currency") == Str(currency)
  {
    var fields := CompileFxSlippageBound(x, y, currency).fields;
    MemberAt(fields, 0, "type");
    MemberAt(fields, 1, "quoted_rate");
    MemberAt(fields, 2, "max_bps");
    MemberAt(fields, 3, "quote_currency");
  }

  lemma EnvelopeIsRead(x: Number, y: Number, z: Number)
    ensures IsEnvelope(CompileVelocityEnvelope(x, y, z), x.Value(), y.Value())
  {
    var fields := CompileVelocityEnvelope(x, y, z).fields;
    MemberAt(fields, 0, "type");
    MemberAt(fields, 1, "max_count");
    MemberAt(fields, 2, "max_value_usd");
  }

  // ---- When they raise ----

  lemma SpendCurveRaises(c: Json, closed: Json, ctx: Ctx)
    requires Typed(c, "com.aegis.spend_curve")
    ensures var openIat := AsNumber(Member(closed, "open_iat"));
      Checked(c, closed, ctx).Raise? <==>
        && !Member(closed, "open_iat").Null?
        && (openIat.None? || (openIat.value <= ctx.now
              && (AsNumber(Member(c, "initial_usd")).None? || ValueUsd(closed).None?
                  || AsNumber(Member(c, "half_life_hours")) in {None, Some(0.0)})))
  {
    assert Checked(c, closed, ctx) == SpendCurve(c, closed, ctx.now, ctx.halfPower);
    var openIat := AsNumber(Member(closed, "open_iat"));
    if openIat.Some? { assert (ctx.now - openIat.value) / 3600.0 < 0.0 <==> ctx.now < openIat.value; }
  }

  lemma MccRaises(c: Json, closed: Json, ctx: Ctx)
    requires Typed(c, "com.aegis.mcc_allowlist")
    ensures var mcc := PayeeMember(closed, "mcc");
      Checked(c, closed, ctx).Raise? <==>
        mcc.None? || (!mcc.value.Null? && (AsSet(Member(c, "allowed_mcc")).None? || !Hashable(mcc.value)))
  {
    assert Checked(c, closed, ctx) == VerifyMccAllowlist(c, closed, ctx);
  }

  lemma SlippageRaises(c: Json, closed: Json, ctx: Ctx)
    requires Typed(c, "com.aegis.fx_slippage_bound")
    ensures Checked(c, closed, ctx).Raise? <==>
      if ctx.executedFxRate.None? then !Member(closed, "payment_amount").Obj?
      else AsNumber(Member(c, "quoted_rate")) in {None, Some(0.0)} || AsNumber(Member(c, "max_bps")).None?
  {
    assert Checked(c, closed, ctx) == VerifyFxSlippage(c, closed, ctx);
  }

  lemma EnvelopeRaises(c: Json, closed: Json, ctx: Ctx)
    requires Typed(c, "com.aegis.velocity_envelope")
    ensures var seen := match ctx.velocityObserved case Some(o) => o.count case None => 0;
      var most := AsNumber(Member(c, "max_count"));
      Checked(c, closed, ctx).Raise? <==>
        || ValueUsd(closed).None? || most.None?
        || (seen as real + 1.0 <= most.value && AsNumber(Member(c, "max_value_usd")).None?)
  {
    assert Checked(c, closed, ctx) == VerifyVelocityEnvelope(c, closed, ctx);
  }
}
