// aegis/pipeline/orchestrator.py: which reason code a BLOCK carries, by the
// first condition that fails.
module Reasons {
  import opened Wrappers
  import opened Models
  import opened Screening
  import opened Context
  import opened Sanctions
  import opened ScreenRuns
  import opened Stages
  import opened Decision
  import opened Verdicts
  import F = FailClosed
  import St = Structuring

  ghost predicate Gave(signals: seq<Signal>, code: Code) {
    exists i :: 0 <= i < |signals| && signals[i].code == code
  }

  lemma Gives(c: Ctx, s: Signal)
    ensures Gave(WithSignal(c, s).signals, s.code)
  {
    assert WithSignal(c, s).signals[|c.signals|] == s;
  }

  // ---- Feature 2 ----

  lemma {:induction false} HitGives(cands: seq<Candidate>, j: nat, c: Ctx)
    requires j <= |cands| && Weigh(cands, j, c).hit
    ensures Gave(Weigh(cands, j, c).ctx.signals, SdnHit)
    decreases |cands| - j
  {
    if cands[j].score < MATCH_THRESHOLD {
      HitGives(cands, j + 1, c);
    } else if cands[j].isPep {
      HitGives(cands, j + 1, WithSignal(c, PEP));
    } else {
      Gives(c, Hard(SdnHit));
    }
  }

  // What the first answer that is not clear leads to; None is an exception.
  function AnswerCause(a: Answer<seq<Candidate>>): Option<Code> {
    match a
    case Got(_) => Some(SdnHit)
    case Unavailable(_) => Some(ProviderUnavailable)
    case Failure(_) => None
  }

  lemma {:induction false} ScreenGives<S>(names: seq<string>, i: nat, c: Ctx, p: Provider<S>, start: S, k: nat,
                                          b: Bundle, now: real, total: real)
    requires i <= k < |names| && At(c, b, now, total) && !ClearAnswer(AnswerAt(p, start, names, k))
    requires forall l :: i <= l < k ==> ClearAnswer(AnswerAt(p, start, names, l))
    ensures var out := ScreenFrom(names, i, c, p, StateAt(p, start, names, i));
      var cause := AnswerCause(AnswerAt(p, start, names, k));
      && (cause.None? ==> out.flow == Raising)
      && (cause.Some? ==> out.flow == Returned && Gave(out.ctx.signals, cause.value))
    decreases |names| - i
  {
    var r := AnswerAt(p, start, names, i);
    assert StateAt(p, start, names, i + 1) == p.screen(StateAt(p, start, names, i), names[i]).0;
    if r.Got? {
      var next := c.(screeningLog := c.screeningLog[names[i] := r.value]);
      WeighExactly(r.value, 0, next, b, now, total);
      assert r.value[0..] == r.value;
      if i == k {
        HitGives(r.value, 0, next);
      } else {
        ScreenGives(names, i + 1, Weigh(r.value, 0, next).ctx, p, start, k, b, now,
                    total + 25.0 * PepsFrom(r.value, 0) as real);
      }
    } else if r.Unavailable? {
      Gives(c.(screeningError := Some(r.message)), Hard(ProviderUnavailable));
    }
  }

  // The first name that is not cleared, or their number.
  ghost function FirstUnclear<S>(p: Provider<S>, start: S, names: seq<string>, i: nat): (k: nat)
    requires i <= |names|
    ensures i <= k <= |names| && (k < |names| ==> !ClearAnswer(AnswerAt(p, start, names, k)))
    ensures forall l :: i <= l < k ==> ClearAnswer(AnswerAt(p, start, names, l))
    decreases |names| - i
  {
    if i == |names| || !ClearAnswer(AnswerAt(p, start, names, i)) then i else FirstUnclear(p, start, names, i + 1)
  }

  // Why a screen that is not clear ends.
  ghost function ScreenCause<S>(e: Engine, b: Bundle, now: real, p: Provider<S>, s: S): Option<Code> {
    var prov, names := p.provenance(s).1, CandidateNames(b, e.lower);
    match prov
    case Failure(_) => None
    case Unavailable(_) => Some(ProviderUnavailable)
    case Got(v) =>
      if v.generatedAt.Some? && now - v.generatedAt.value > 604800.0 then Some(StaleList)
      else
        var k := FirstUnclear(p, Started(p, s), names, 0);
        if k < |names| then AnswerCause(AnswerAt(p, Started(p, s), names, k)) else Some(Ofac50Pct)
  }

  ghost predicate Ends<S>(out: Out<S>, cause: Option<Code>) {
    && (cause.None? ==> out.flow == Raising)
    && (cause.Some? ==> out.flow == Returned && Gave(out.ctx.signals, cause.value))
  }

  lemma NamesEnd<S>(e: Engine, c: Ctx, prov: Provenance, p: Provider<S>, start: S, total: real, k: nat)
    requires At(c, c.bundle, c.now, total) && k == FirstUnclear(p, start, CandidateNames(c.bundle, e.lower), 0)
    requires AfterProvenance(c, prov, p, start, e.share, e.lower).flow != Completed
    ensures var names := CandidateNames(c.bundle, e.lower);
      Ends(AfterProvenance(c, prov, p, start, e.share, e.lower),
           if prov.generatedAt.Some? && c.now - prov.generatedAt.value > 604800.0 then Some(StaleList)
           else if k < |names| then AnswerCause(AnswerAt(p, start, names, k))
           else Some(Ofac50Pct))
  {
    var names := CandidateNames(c.bundle, e.lower);
    Gives(c, Hard(StaleList));
    assert StateAt(p, start, names, 0) == start;
    if k < |names| {
      ScreenGives(names, 0, c, p, start, k, c.bundle, c.now, total);
    } else {
      ScreenExactly(names, 0, c, p, start, c.bundle, c.now, total);
      Gives(ScreenFrom(names, 0, c, p, start).ctx, Hard(Ofac50Pct));
    }
  }

  lemma F2Ends<S>(e: Engine, c: Ctx, p: Provider<S>, s: S)
    requires At(c, c.bundle, c.now, 0.0) && !ScreenClear(e, c.bundle, c.now, p, s)
    ensures Ends(F2(c, p, s, e.share, e.lower), ScreenCause(e, c.bundle, c.now, p, s))
  {
    var r := p.provenance(s);
    F2Exactly(e, c, p, s, 0.0);
    if r.1.Got? {
      F2Got(c, p, s, e.share, e.lower, r.1.value);
      NamesEnd(e, Flagged(c).(screeningProvenance := Some(r.1.value)), r.1.value, p, r.0, 0.0,
               FirstUnclear(p, r.0, CandidateNames(c.bundle, e.lower), 0));
    } else {
      F2NotGot(c, p, s, e.share, e.lower);
      if r.1.Unavailable? { Gives(Flagged(c).(screeningError := Some(r.1.message)), Hard(ProviderUnavailable)); }
    }
  }

  // ---- Features 3 to 5 ----

  ghost function LateCause(e: Engine, b: Bundle, now: real, stored: Stored): Option<Code> {
    if Prior(stored, TransferIn(b, now)) == St.VelocityExceeded then Some(VelocityCapExceeded)
    else if e.embedder.similarity(b.intent.description, b.cart.summary).None? then None
    else if !ContentClear(e, b) then Some(IntentDrift)
    else if !AuthorityClear(b) then Some(UnboundedAuthority)
    else None
  }

  lemma LateEnds(e: Engine, c: Ctx, stored: Stored, id: string, total: real)
    requires At(c, c.bundle, c.now, total)
    requires Prior(stored, TransferIn(c.bundle, c.now)) == St.VelocityExceeded || !ContentClear(e, c.bundle)
      || !AuthorityClear(c.bundle) || e.model.score(c.bundle).None?
    ensures var t, cause := AfterScreening(e, c, stored, id), LateCause(e, c.bundle, c.now, stored);
      && (cause.None? ==> t.verdict.None?)
      && (cause.Some? ==> t.verdict == Some(Block) && Gave(t.ctx.signals, cause.value))
  {
    TransferIs(c);
    F3Exactly(c, stored, total);
    F3Keeps(c, stored);
    var c3 := F3(c, stored);
    if Prior(stored, TransferOf(c)) == St.VelocityExceeded {
      Gives(c.(velocitySnapshot := c3.velocitySnapshot), Hard(VelocityCapExceeded));
    } else {
      JudgeEnds(e, c3, id, Total(c3.signals));
    }
  }

  lemma JudgeEnds(e: Engine, c: Ctx, id: string, total: real)
    requires At(c, c.bundle, c.now, total)
    requires !ContentClear(e, c.bundle) || !AuthorityClear(c.bundle) || e.model.score(c.bundle).None?
    ensures var r, b := Judge(e, c, id), c.bundle;
      && (e.embedder.similarity(b.intent.description, b.cart.summary).None? ==> r.verdict.None?)
      && (e.embedder.similarity(b.intent.description, b.cart.summary).Some? && !ContentClear(e, b) ==>
            r.verdict == Some(Block) && Gave(r.ctx.signals, IntentDrift))
      && (ContentClear(e, b) && !AuthorityClear(b) ==>
            r.verdict == Some(Block) && Gave(r.ctx.signals, UnboundedAuthority))
      && (ContentClear(e, b) && AuthorityClear(b) ==> r.verdict.None?)
  {
    F4Exactly(e, c, total);
    F4Keeps(c, e.embedder, e.injected);
    var seen := c.(modelsUsed := c.modelsUsed[e.embedder.name := e.embedder.version]);
    Gives(seen, Hard(IntentDrift));
    if ContentClear(e, c.bundle) {
      var c4 := F4(c, e.embedder, e.injected).ctx;
      F5Exactly(e, c4, id, total + if Drifted(e, c.bundle) then 30.0 else 0.0);
      Gives(c4.(modelsUsed := c4.modelsUsed[e.model.name := e.model.version]), Hard(UnboundedAuthority));
    }
  }

  // ---- The decision ----

  // The code of the first condition that fails; an exception has its own.
  ghost function Cause<S>(e: Engine, b: Bundle, now: real, stored: Stored, p: Provider<S>, s: S): Code {
    if !AllSigned(e.ring, b) then SigInvalid
    else if TouchesRestricted(b) then RailIneligible
    else if TravelRuleApplies(b) && !Attested(b) then TravelRuleMissing
    else if LeavesEu(b) then DataResidencyBreach
    else
      var cause := if !ScreenClear(e, b, now, p, s) then ScreenCause(e, b, now, p, s) else LateCause(e, b, now, stored);
      match cause case Some(code) => code case None => FailedClosed
  }

  lemma PipelineEnds<S>(e: Engine, c: Ctx, stored: Stored, p: Provider<S>, s: S, id: string)
    requires At(c, c.bundle, c.now, 0.0) && AllSigned(e.ring, c.bundle) && JurisdictionsClear(c.bundle)
    requires !Clear(e, c.bundle, c.now, stored, p, s) || e.model.score(c.bundle).None?
    ensures var o := PastF2(e, F2(c, p, s, e.share, e.lower), stored, id);
      var cause := Cause(e, c.bundle, c.now, stored, p, s);
      (o.verdict.None? && cause == FailedClosed) || (o.verdict == Some(Block) && Gave(o.ctx.signals, cause))
  {
    F2Exactly(e, c, p, s, 0.0);
    var o := F2(c, p, s, e.share, e.lower);
    if ScreenClear(e, c.bundle, c.now, p, s) {
      LateEnds(e, o.ctx, stored, id, 25.0 * PepTotal(e, c.bundle, p, s) as real);
    } else {
      F2Ends(e, c, p, s);
      if o.flow == Returned { F2Returns(c, p, s, e.share, e.lower); }
    }
  }

  lemma GaveCode(c: Ctx, verdict: Verdict, code: Code)
    requires Gave(c.signals, code) && verdict == Block
    ensures code in Finalized(c, verdict).envelope.reasonCodes
  {
    F.CodesHold(c.signals);
  }

  // A decision that cannot be made for want of a condition, or of a score, is a
  // BLOCK that carries the code of the first condition that fails.
  lemma BlockedFor<S>(e: Engine, b: Bundle, controls: Controls, now: real, stored: Stored, p: Provider<S>, s: S,
                      id: string)
    requires !Clear(e, b, now, stored, p, s) || e.model.score(b).None?
    ensures var env := Decide(e, b, controls, now, stored, p, s, id).final.envelope;
      env.verdict == Block && Cause(e, b, now, stored, p, s) in env.reasonCodes
  {
    var c := FreshCtx(b, controls, now, e.hashSnapshot);
    SignedExactly(e.ring, b);
    F1Exactly(b);
    if !AllSigned(e.ring, b) {
      Gives(c, Hard(SigInvalid));
      GaveCode(WithSignal(c, Hard(SigInvalid)), Block, SigInvalid);
    } else if F1Finding(b).Some? {
      Gives(c, Hard(F1Finding(b).value));
      SignalAdds(c, Hard(F1Finding(b).value));
      GaveCode(F1(c), Block, F1Finding(b).value);
    } else {
      var o := Pipeline(e, c, stored, p, s, id);
      PipelineEnds(e, c, stored, p, s, id);
      F.ExceptionBlocks(o.ctx);
      if o.verdict.Some? { GaveCode(o.ctx, Block, Cause(e, b, now, stored, p, s)); }
    }
  }
}
