// Verdicts only ever get stricter: with more signals, and with no human present.
module SeverityOrder {
  import opened Wrappers
  import opened Models
  import opened Screening
  import opened Context
  import opened Sanctions
  import opened Stages
  import opened StepUp
  import opened Decision
  import opened FailClosed
  import R = Replay
  import ScreenRuns
  import V = Velocity
  import St = Structuring

  // ---- Two evaluations to compare ----

  // The same transaction, attended in the second only if it is in the first.
  ghost predicate NoMoreAttended(a: Bundle, b: Bundle) {
    && b == a.(payment := b.payment)
    && b.payment == a.payment.(humanPresent := b.payment.humanPresent, proof := b.payment.proof)
    && (b.payment.humanPresent ==> a.payment.humanPresent)
  }

  // The second has at least the risk of the first, and its hard blocks.
  ghost predicate AtMost(a: Ctx, b: Ctx) {
    && NoMoreAttended(a.bundle, b.bundle) && a.now == b.now
    && 0.0 <= a.riskScore <= b.riskScore <= 100.0
    && (HardBlocked(a.signals) ==> HardBlocked(b.signals))
  }

  // The model does not score the unattended bundle lower, and raises on both or neither.
  ghost predicate ScoresNoLower(model: RiskModel, a: Bundle, b: Bundle) {
    match (model.score(a), model.score(b))
    case (Some(x), Some(y)) => 0.0 <= x <= y
    case (None, None) => true
    case _ => false
  }

  // An exception ends as a BLOCK.
  function Rank(verdict: Option<Verdict>): nat {
    match verdict case Some(v) => v.Rank() case None => Block.Rank()
  }

  lemma AtMostWithSignal(a: Ctx, b: Ctx, s: Signal)
    requires AtMost(a, b)
    ensures AtMost(WithSignal(a, s), WithSignal(b, s))
    ensures HardBlocked(b.signals) ==> HardBlocked(WithSignal(b, s).signals)
  {
    HardAfter(a, s);
    HardAfter(b, s);
  }

  // One more signal, graduated or hard, leaves a context with at least as much.
  lemma OneMoreSignal(a: Ctx, s: Signal)
    requires 0.0 <= a.riskScore <= 100.0
    ensures AtMost(a, WithSignal(a, s))
  {
    HardAfter(a, s);
  }

  // ---- Screening ----

  lemma {:induction false} WeighAtMost(cands: seq<Candidate>, j: nat, a: Ctx, b: Ctx)
    requires j <= |cands| && AtMost(a, b)
    ensures AtMost(Weigh(cands, j, a).ctx, Weigh(cands, j, b).ctx)
    ensures Weigh(cands, j, a).hit == Weigh(cands, j, b).hit
    decreases |cands| - j
  {
    if j == |cands| {
    } else {
      if cands[j].score < MATCH_THRESHOLD {
        WeighAtMost(cands, j + 1, a, b);
      } else if cands[j].isPep {
        AtMostWithSignal(a, b, PEP);
        WeighAtMost(cands, j + 1, WithSignal(a, PEP), WithSignal(b, PEP));
      } else {
        AtMostWithSignal(a, b, Hard(SdnHit));
      }
    }
  }

  ghost predicate StepsAlike<S>(a: Out<S>, b: Out<S>) {
    AtMost(a.ctx, b.ctx) && a.state == b.state && a.flow == b.flow
  }

  lemma {:induction false} ScreenAtMost<S>(names: seq<string>, i: nat, a: Ctx, b: Ctx, p: Provider<S>, s: S)
    requires i <= |names| && AtMost(a, b)
    ensures StepsAlike(ScreenFrom(names, i, a, p, s), ScreenFrom(names, i, b, p, s))
    decreases |names| - i
  {
    if i == |names| {
    } else {
      var r := p.screen(s, names[i]);
      match r.1
      case Failure(_) =>
      case Unavailable(message) => InterruptAtMost(a, b, message);
      case Got(cands) =>
        var a' := a.(screeningLog := a.screeningLog[names[i] := cands]);
        var b' := b.(screeningLog := b.screeningLog[names[i] := cands]);
        WeighAtMost(cands, 0, a', b');
        if !Weigh(cands, 0, a').hit {
          ScreenAtMost(names, i + 1, Weigh(cands, 0, a').ctx, Weigh(cands, 0, b').ctx, p, r.0);
        }
    }
  }

  lemma InterruptAtMost(a: Ctx, b: Ctx, message: string)
    requires AtMost(a, b)
    ensures AtMost(Interrupted(a, message), Interrupted(b, message))
  {
    AtMostWithSignal(a.(screeningError := Some(message)), b.(screeningError := Some(message)),
                     Hard(ProviderUnavailable));
  }

  lemma OwnershipAtMost<S>(a: Out<S>, b: Out<S>, share: string -> real)
    requires StepsAlike(a, b)
    ensures StepsAlike(OwnershipCheck(a, share), OwnershipCheck(b, share))
  {
    AtMostWithSignal(a.ctx, b.ctx, Hard(Ofac50Pct));
  }

  lemma AfterProvenanceAtMost<S>(a: Ctx, b: Ctx, prov: Provenance, p: Provider<S>, s: S, share: string -> real,
                                 lower: string -> string)
    requires AtMost(a, b)
    ensures StepsAlike(AfterProvenance(a, prov, p, s, share, lower), AfterProvenance(b, prov, p, s, share, lower))
  {
    if Stale(a.now, prov) {
      AtMostWithSignal(a, b, Hard(StaleList));
    } else {
      var names := CandidateNames(a.bundle, lower);
      ScreenAtMost(names, 0, a, b, p, s);
      OwnershipAtMost(ScreenFrom(names, 0, a, p, s), ScreenFrom(names, 0, b, p, s), share);
    }
  }

  lemma F2GotAtMost<S>(a: Ctx, b: Ctx, p: Provider<S>, s: S, share: string -> real, lower: string -> string,
                       prov: Provenance)
    requires AtMost(a, b) && p.provenance(s).1 == Got(prov)
    ensures StepsAlike(F2(a, p, s, share, lower), F2(b, p, s, share, lower))
  {
    ScreenRuns.F2Got(a, p, s, share, lower, prov);
    ScreenRuns.F2Got(b, p, s, share, lower, prov);
    AfterProvenanceAtMost(Flagged(a).(screeningProvenance := Some(prov)),
                          Flagged(b).(screeningProvenance := Some(prov)), prov, p, p.provenance(s).0, share, lower);
  }

  lemma F2NotGotAtMost<S>(a: Ctx, b: Ctx, p: Provider<S>, s: S, share: string -> real, lower: string -> string)
    requires AtMost(a, b) && !p.provenance(s).1.Got?
    ensures StepsAlike(F2(a, p, s, share, lower), F2(b, p, s, share, lower))
  {
    ScreenRuns.F2NotGot(a, p, s, share, lower);
    ScreenRuns.F2NotGot(b, p, s, share, lower);
    InterruptAtMost(Flagged(a), Flagged(b), p.provenance(s).1.message);
  }

  lemma F2AtMost<S>(a: Ctx, b: Ctx, p: Provider<S>, s: S, share: string -> real, lower: string -> string)
    requires AtMost(a, b)
    ensures StepsAlike(F2(a, p, s, share, lower), F2(b, p, s, share, lower))
  {
    if p.provenance(s).1.Got? {
      F2GotAtMost(a, b, p, s, share, lower, p.provenance(s).1.value);
    } else {
      F2NotGotAtMost(a, b, p, s, share, lower);
    }
  }

  // ---- The other stages ----

  lemma F1AtMost(a: Ctx, b: Ctx)
    requires AtMost(a, b)
    ensures AtMost(F1(a), F1(b))
  {
    if F1Finding(a.bundle).Some? { AtMostWithSignal(a, b, Hard(F1Finding(a.bundle).value)); }
  }

  lemma F3AtMost(a: Ctx, b: Ctx, stored: Stored)
    requires AtMost(a, b)
    ensures AtMost(F3(a, stored), F3(b, stored))
  {
    assert TransferOf(a) == TransferOf(b);
    AtMostWithSignal(a, b, Hard(VelocityCapExceeded));
    AtMostWithSignal(a, b, STRUCTURING);
    var w := Exchange(stored, TransferOf(a));
    F3Writes(a, w.struct, w.vel);
    F3Writes(b, w.struct, w.vel);
  }

  // Of what matters here, Feature 3 writes at most one signal, and the same one on both.
  lemma F3Writes(ctx: Ctx, struct: seq<V.Entry>, vel: seq<V.Entry>)
    ensures var out := F3Given(ctx, struct, vel);
      var written := match St.Assess(struct, vel, TransferOf(ctx).now, TransferOf(ctx).amount)
        case VelocityExceeded => WithSignal(ctx, Hard(VelocityCapExceeded))
        case StructuringSuspected => WithSignal(ctx, STRUCTURING)
        case Clear => ctx;
      out.signals == written.signals && out.riskScore == written.riskScore && out.bundle == ctx.bundle
        && out.now == ctx.now
  {
  }

  lemma F4AtMost(a: Ctx, b: Ctx, embedder: Embedder, injected: string -> bool)
    requires AtMost(a, b)
    ensures AtMost(F4(a, embedder, injected).ctx, F4(b, embedder, injected).ctx)
    ensures F4(a, embedder, injected).raised == F4(b, embedder, injected).raised
  {
    AtMostWithSignal(a, b, Hard(IntentDrift));
    AtMostWithSignal(a, b, DRIFT);
    F4Writes(a, embedder, injected);
    F4Writes(b, embedder, injected);
  }

  // Nor does Feature 4 write more than one signal.
  lemma F4Writes(ctx: Ctx, embedder: Embedder, injected: string -> bool)
    ensures var out := F4(ctx, embedder, injected).ctx;
      var sim := embedder.similarity(ctx.bundle.intent.description, ctx.bundle.cart.summary);
      var written :=
        if sim.None? then ctx
        else if injected(ctx.bundle.intent.description) || PriceBreach(ctx.bundle) then
          WithSignal(ctx, Hard(IntentDrift))
        else if 1.0 - sim.value > DRIFT_THRESHOLD then WithSignal(ctx, DRIFT)
        else ctx;
      out.signals == written.signals && out.riskScore == written.riskScore && out.bundle == ctx.bundle
        && out.now == ctx.now
  {
  }

  // ---- Bands and quorums ----

  // A higher score never resolves to a milder verdict, nor do the tightened
  // bands, even where the step-up fails for want of guardians.
  lemma ResolveMonotone(low: real, high: real, attended: bool, attended': bool, n: nat)
    requires low <= high && (attended' ==> attended)
    ensures Resolve(low, if attended then LOW_BAND else HNP_LOW_BAND,
                    if attended then STEPUP_BAND else HNP_STEPUP_BAND, n).Rank()
         <= Resolve(high, if attended' then LOW_BAND else HNP_LOW_BAND,
                    if attended' then STEPUP_BAND else HNP_STEPUP_BAND, n).Rank()
  {
  }

  lemma SettleMonotone(a: Ctx, b: Ctx, x: real, y: real, hashCart: Cart -> string, id1: string, id2: string)
    requires NoMoreAttended(a.bundle, b.bundle) && a.riskScore <= b.riskScore && x <= y
    ensures Rank(Settle(a, x, hashCart, id1).verdict) <= Rank(Settle(b, y, hashCart, id2).verdict)
  {
    ResolveMonotone(Min(100.0, a.riskScore + x), Min(100.0, b.riskScore + y),
                    a.bundle.payment.humanPresent, b.bundle.payment.humanPresent,
                    |Others(a.bundle.guardians, a.bundle.payment.initiatorAgent)|);
  }

  lemma BeforeScoreMonotone(a: Ctx, b: Ctx, model: RiskModel)
    requires AtMost(a, b)
    ensures R.BeforeScore(a, model).riskScore <= R.BeforeScore(b, model).riskScore
    ensures R.BeforeScore(a, model).bundle == a.bundle && R.BeforeScore(b, model).bundle == b.bundle
  {
  }

  lemma F5Monotone(a: Ctx, b: Ctx, model: RiskModel, hashCart: Cart -> string, id1: string, id2: string)
    requires AtMost(a, b) && ScoresNoLower(model, a.bundle, b.bundle)
    ensures Rank(F5(a, model, hashCart, id1).verdict) <= Rank(F5(b, model, hashCart, id2).verdict)
  {
    if !Unbounded(a.bundle) && !Unbounded(b.bundle) && model.score(a.bundle).Some? {
      var x, y := model.score(a.bundle).value, model.score(b.bundle).value;
      R.F5Is(a, model, x, hashCart, id1);
      R.F5Is(b, model, y, hashCart, id2);
      BeforeScoreMonotone(a, b, model);
      SettleMonotone(R.BeforeScore(a, model), R.BeforeScore(b, model), x, y, hashCart, id1, id2);
    }
  }

  // ---- The pipeline ----

  lemma JudgeMonotone(e: Engine, a: Ctx, b: Ctx, id1: string, id2: string)
    requires AtMost(a, b) && ScoresNoLower(e.model, a.bundle, b.bundle)
    ensures Rank(Judge(e, a, id1).verdict) <= Rank(Judge(e, b, id2).verdict)
  {
    F4AtMost(a, b, e.embedder, e.injected);
    F4Keeps(a, e.embedder, e.injected);
    F4Keeps(b, e.embedder, e.injected);
    F5Monotone(F4(a, e.embedder, e.injected).ctx, F4(b, e.embedder, e.injected).ctx, e.model, e.hashCart, id1, id2);
  }

  lemma AfterScreeningMonotone(e: Engine, a: Ctx, b: Ctx, stored: Stored, id1: string, id2: string)
    requires AtMost(a, b) && ScoresNoLower(e.model, a.bundle, b.bundle)
    ensures Rank(AfterScreening(e, a, stored, id1).verdict) <= Rank(AfterScreening(e, b, stored, id2).verdict)
  {
    F3AtMost(a, b, stored);
    F3Keeps(a, stored);
    F3Keeps(b, stored);
    JudgeMonotone(e, F3(a, stored), F3(b, stored), id1, id2);
  }

  lemma PastF2Monotone<S>(e: Engine, a: Out<S>, b: Out<S>, stored: Stored, id1: string, id2: string)
    requires StepsAlike(a, b) && ScoresNoLower(e.model, a.ctx.bundle, b.ctx.bundle)
    ensures Rank(PastF2(e, a, stored, id1).verdict) <= Rank(PastF2(e, b, stored, id2).verdict)
  {
    AfterScreeningMonotone(e, a.ctx, b.ctx, stored, id1, id2);
  }

  // From a context with at least the risk and the hard blocks, and with no
  // more human presence, the pipeline never ends in a milder verdict.
  lemma PipelineMonotone<S>(e: Engine, a: Ctx, b: Ctx, stored: Stored, p: Provider<S>, s: S, id1: string, id2: string)
    requires AtMost(a, b) && ScoresNoLower(e.model, a.bundle, b.bundle)
    requires a.screeningLog == map[] && b.screeningLog == map[]
    ensures Rank(Pipeline(e, a, stored, p, s, id1).verdict) <= Rank(Pipeline(e, b, stored, p, s, id2).verdict)
  {
    F1AtMost(a, b);
    if !HardBlocked(F1(b).signals) {
      F2AtMost(F1(a), F1(b), p, s, e.share, e.lower);
      ScreenRuns.F2Keeps(F1(a), p, s, e.share, e.lower);
      ScreenRuns.F2Keeps(F1(b), p, s, e.share, e.lower);
      PastF2Monotone(e, F2(F1(a), p, s, e.share, e.lower), F2(F1(b), p, s, e.share, e.lower),
                     stored, id1, id2);
    }
  }

  // Whatever signal is added before the pipeline runs.
  lemma SignalsOnlyTighten<S>(e: Engine, ctx: Ctx, extra: Signal, stored: Stored, p: Provider<S>, s: S, id1: string,
                              id2: string)
    requires 0.0 <= ctx.riskScore <= 100.0 && ctx.screeningLog == map[]
    requires e.model.score(ctx.bundle).Some? ==> e.model.score(ctx.bundle).value >= 0.0
    ensures Rank(Pipeline(e, ctx, stored, p, s, id1).verdict)
      <= Rank(Pipeline(e, WithSignal(ctx, extra), stored, p, s, id2).verdict)
  {
    OneMoreSignal(ctx, extra);
    PipelineMonotone(e, ctx, WithSignal(ctx, extra), stored, p, s, id1, id2);
  }

  lemma FinalRank<S(!new)>(e: Engine, b: Bundle, controls: Controls, now: real, stored: Stored, p: Provider<S>, s: S,
                           id: string)
    requires VerifyBundle(e.ring, b)
    ensures Decide(e, b, controls, now, stored, p, s, id).final.envelope.verdict.Rank()
         == Rank(Pipeline(e, FreshCtx(b, controls, now, e.hashSnapshot), stored, p, s, id).verdict)
  {
    var o := Pipeline(e, FreshCtx(b, controls, now, e.hashSnapshot), stored, p, s, id);
    NeverSkipped(e, b, controls, now, stored, p, s, id);
    ExceptionBlocks(o.ctx);
    if o.verdict.Some? { R.FinalKeeps(o.ctx, o.verdict.value); }
  }

  // The same transaction, validly signed both ways, is never decided milder
  // without a human present than with one.
  lemma UnattendedNeverMilder<S(!new)>(e: Engine, a: Bundle, b: Bundle, controls: Controls, now: real, stored: Stored,
                                       p: Provider<S>, s: S, id1: string, id2: string)
    requires VerifyBundle(e.ring, a) && VerifyBundle(e.ring, b)
    requires NoMoreAttended(a, b) && ScoresNoLower(e.model, a, b)
    ensures Decide(e, a, controls, now, stored, p, s, id1).final.envelope.verdict.Rank()
         <= Decide(e, b, controls, now, stored, p, s, id2).final.envelope.verdict.Rank()
  {
    FinalRank(e, a, controls, now, stored, p, s, id1);
    FinalRank(e, b, controls, now, stored, p, s, id2);
    PipelineMonotone(e, FreshCtx(a, controls, now, e.hashSnapshot), FreshCtx(b, controls, now, e.hashSnapshot), stored,
                     p, s, id1, id2);
  }

  // ---- Risk stays between 0 and 100 ----

  predicate InRange(risk: real) { 0.0 <= risk <= 100.0 }

  predicate ScoresNonNegative(model: RiskModel, b: Bundle) {
    model.score(b).Some? ==> model.score(b).value >= 0.0
  }

  lemma F5Range(ctx: Ctx, model: RiskModel, hashCart: Cart -> string, id: string)
    requires InRange(ctx.riskScore) && ScoresNonNegative(model, ctx.bundle)
    ensures InRange(F5(ctx, model, hashCart, id).ctx.riskScore)
  {
  }

  lemma AfterScreeningRange(e: Engine, ctx: Ctx, stored: Stored, id: string)
    requires InRange(ctx.riskScore) && ScoresNonNegative(e.model, ctx.bundle)
    ensures InRange(AfterScreening(e, ctx, stored, id).ctx.riskScore)
  {
    var c := F3(ctx, stored);
    F3AtMost(ctx, ctx, stored);
    F3Keeps(ctx, stored);
    F4AtMost(c, c, e.embedder, e.injected);
    F4Keeps(c, e.embedder, e.injected);
    F5Range(F4(c, e.embedder, e.injected).ctx, e.model, e.hashCart, id);
  }

  lemma PipelineRange<S>(e: Engine, ctx: Ctx, stored: Stored, p: Provider<S>, s: S, id: string)
    requires InRange(ctx.riskScore) && ScoresNonNegative(e.model, ctx.bundle) && ctx.screeningLog == map[]
    ensures InRange(Pipeline(e, ctx, stored, p, s, id).ctx.riskScore)
  {
    F1AtMost(ctx, ctx);
    F2AtMost(F1(ctx), F1(ctx), p, s, e.share, e.lower);
    ScreenRuns.F2Keeps(F1(ctx), p, s, e.share, e.lower);
    AfterScreeningRange(e, F2(F1(ctx), p, s, e.share, e.lower).ctx, stored, id);
  }

  lemma RiskStays<S>(e: Engine, b: Bundle, controls: Controls, now: real, stored: Stored, p: Provider<S>, s: S,
                     id: string)
    requires ScoresNonNegative(e.model, b)
    ensures InRange(Decide(e, b, controls, now, stored, p, s, id).final.envelope.riskScore)
  {
    PipelineRange(e, FreshCtx(b, controls, now, e.hashSnapshot), stored, p, s, id);
  }
}
