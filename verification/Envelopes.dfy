// aegis/pipeline/f7_reasoncodes.py: what the envelope carries when no condition
// of the table fails, and which names a bundle is screened for.
module Envelopes {
  import opened Wrappers
  import opened Models
  import opened Screening
  import opened Context
  import opened Sanctions
  import opened ScreenRuns
  import opened Stages
  import opened StepUp
  import opened Decision
  import opened Verdicts
  import F = FailClosed
  import St = Structuring
  import V = Velocity

  // ---- The names ----

  // No name before it is equal to it up to case.
  ghost predicate FirstAt(names: seq<Option<string>>, i: nat, x: string, lower: string -> string) {
    && i < |names| && names[i] == Some(x) && x != ""
    && forall h :: 0 <= h < i && Given(names[h]) ==> lower(names[h].value) != lower(x)
  }

  ghost predicate FirstAmong(names: seq<Option<string>>, x: string, lower: string -> string) {
    exists i: nat :: FirstAt(names, i, x, lower)
  }

  lemma {:induction false} UniqueExactly(names: seq<Option<string>>, lower: string -> string)
    ensures forall x :: x in Unique(names, lower) <==> FirstAmong(names, x, lower)
    ensures forall n :: n in names && Given(n) ==> lower(n.value) in Lowered(Unique(names, lower), lower)
  {
    if names == [] {
    } else {
      var front, last := names[..|names| - 1], names[|names| - 1];
      UniqueExactly(front, lower);
      assert names == front + [last];
      forall x ensures x in Unique(names, lower) <==> FirstAmong(names, x, lower) {
        FirstOfFront(front, last, x, lower);
      }
    }
  }

  lemma FirstOfFront(front: seq<Option<string>>, last: Option<string>, x: string, lower: string -> string)
    requires forall y :: y in Unique(front, lower) <==> FirstAmong(front, y, lower)
    requires forall n :: n in front && Given(n) ==> lower(n.value) in Lowered(Unique(front, lower), lower)
    ensures FirstAmong(front + [last], x, lower) <==>
      FirstAmong(front, x, lower) || (last == Some(x) && x != "" && lower(x) !in Lowered(Unique(front, lower), lower))
  {
    var names := front + [last];
    forall i: nat | i < |front| ensures FirstAt(names, i, x, lower) <==> FirstAt(front, i, x, lower) {
      assert forall h :: 0 <= h <= i ==> names[h] == front[h];
    }
    assert FirstAt(names, |front|, x, lower) <==>
             last == Some(x) && x != "" && lower(x) !in Lowered(Unique(front, lower), lower) by {
      if FirstAt(names, |front|, x, lower) {
        forall y | y in Unique(front, lower) ensures lower(y) != lower(x) {
          assert FirstAmong(front, y, lower);
          var k: nat :| FirstAt(front, k, y, lower);
          assert names[k] == front[k];
        }
      } else if last == Some(x) && x != "" {
        var h :| 0 <= h < |front| && Given(names[h]) && lower(names[h].value) == lower(x);
        assert front[h] in front && front[h] == names[h];
      }
    }
  }

  // The names screened are the merchant's legal name, the cart's beneficiary and
  // the intent's, where given, each in its first spelling.
  lemma NamesScreened(b: Bundle, lower: string -> string)
    ensures forall x :: x in CandidateNames(b, lower) <==>
      FirstAmong([b.cart.merchantLegalName, b.cart.beneficiary.legalName, b.intent.beneficiary.legalName], x, lower)
  {
    UniqueExactly(NamesIn(b), lower);
  }

  // ---- The signals, in the order of the stages ----

  function PepSignals(n: nat): seq<Signal> {
    seq(n, _ => Signal(PepEdd, Medium, false, 25.0))
  }

  // What the first context holds, these signals more, and nothing else that an
  // envelope shows but the risk.
  ghost predicate Adds(c: Ctx, d: Ctx, more: seq<Signal>) {
    && d.signals == c.signals + more && d.modelsUsed == c.modelsUsed && d.sarDraft == c.sarDraft
    && d.stepup == c.stepup && d.screeningProvenance == c.screeningProvenance && d.bundle == c.bundle && d.now == c.now
  }

  lemma {:induction false} WeighAdds(cands: seq<Candidate>, j: nat, c: Ctx)
    requires j <= |cands| && !Weigh(cands, j, c).hit
    ensures Adds(c, Weigh(cands, j, c).ctx, PepSignals(PepsFrom(cands, j)))
    decreases |cands| - j
  {
    if j == |cands| {
      assert c.signals + PepSignals(0) == c.signals;
    } else if cands[j].score < 0.90 {
      WeighAdds(cands, j + 1, c);
    } else {
      WeighAdds(cands, j + 1, WithSignal(c, PEP));
      OneMorePep(c.signals, PepsFrom(cands, j + 1));
    }
  }

  lemma OneMorePep(before: seq<Signal>, n: nat)
    ensures before + [PEP] + PepSignals(n) == before + PepSignals(1 + n)
  {
  }

  lemma MorePeps(before: seq<Signal>, m: nat, n: nat)
    ensures before + PepSignals(m) + PepSignals(n) == before + PepSignals(m + n)
  {
  }

  lemma {:induction false} ScreenAdds<S>(names: seq<string>, i: nat, c: Ctx, p: Provider<S>, start: S)
    requires i <= |names| && ScreenFrom(names, i, c, p, StateAt(p, start, names, i)).flow == Completed
    ensures Adds(c, ScreenFrom(names, i, c, p, StateAt(p, start, names, i)).ctx, PepSignals(Peps(p, start, names, i)))
    decreases |names| - i
  {
    if i == |names| {
      assert c.signals + PepSignals(0) == c.signals;
    } else {
      var r := AnswerAt(p, start, names, i);
      assert StateAt(p, start, names, i + 1) == p.screen(StateAt(p, start, names, i), names[i]).0;
      var next := c.(screeningLog := c.screeningLog[names[i] := r.value]);
      WeighAdds(r.value, 0, next);
      ScreenAdds(names, i + 1, Weigh(r.value, 0, next).ctx, p, start);
      MorePeps(c.signals, PepsFrom(r.value, 0), Peps(p, start, names, i + 1));
    }
  }

  lemma F2Adds<S>(e: Engine, c: Ctx, p: Provider<S>, s: S)
    requires F2(c, p, s, e.share, e.lower).flow == Completed
    ensures p.provenance(s).1.Got?
    ensures Adds(c.(screeningProvenance := Some(p.provenance(s).1.value)), F2(c, p, s, e.share, e.lower).ctx,
                 PepSignals(PepTotal(e, c.bundle, p, s)))
  {
    var r := p.provenance(s);
    if r.1.Got? {
      F2Got(c, p, s, e.share, e.lower, r.1.value);
      var names := CandidateNames(c.bundle, e.lower);
      assert StateAt(p, r.0, names, 0) == r.0;
      ScreenAdds(names, 0, Flagged(c).(screeningProvenance := Some(r.1.value)), p, r.0);
    } else {
      F2NotGot(c, p, s, e.share, e.lower);
    }
  }

  // ---- The stages after screening ----

  function StructuringSignals(f: St.Finding): seq<Signal> {
    if f == St.StructuringSuspected then [Signal(StructuringSuspicion, High, false, 45.0)] else []
  }

  function AmountsThen(window: seq<V.Entry>, amount: real): seq<real> {
    seq(|window|, i requires 0 <= i < |window| => window[i].amount) + [amount]
  }

  // The agent, the beneficiary, and every transfer of the cluster in the day,
  // this one last.
  function Draft(b: Bundle, now: real, stored: Stored): Sar {
    var t := TransferIn(b, now);
    var window := Exchange(stored, t).struct;
    Sar(t.agent, t.beneficiary, AmountsThen(window, t.amount), St.Sum(window) + t.amount)
  }

  lemma F3Adds(c: Ctx, stored: Stored)
    requires Prior(stored, TransferIn(c.bundle, c.now)) != St.VelocityExceeded
    ensures var f := Prior(stored, TransferIn(c.bundle, c.now));
      Adds(c.(sarDraft := if f == St.StructuringSuspected then Some(Draft(c.bundle, c.now, stored)) else c.sarDraft),
           F3(c, stored), StructuringSignals(f))
  {
    TransferIs(c);
    var w := Exchange(stored, TransferOf(c));
    F3GivenAdds(c, w.struct, w.vel);
    DraftIs(w.struct, c.now, c.bundle.cart.totalUsd);
  }

  lemma F3GivenAdds(c: Ctx, struct: seq<V.Entry>, vel: seq<V.Entry>)
    ensures var f, t := St.Assess(struct, vel, c.now, c.bundle.cart.totalUsd), TransferOf(c);
      f != St.VelocityExceeded ==>
        Adds(c.(sarDraft := if f == St.StructuringSuspected then Some(SarFor(t, struct + [V.Entry(t.now, t.amount)]))
                            else c.sarDraft), F3Given(c, struct, vel), StructuringSignals(f))
  {
  }

  lemma DraftIs(window: seq<V.Entry>, now: real, amount: real)
    ensures var longer := window + [V.Entry(now, amount)];
      && Amounts(longer) == AmountsThen(window, amount) && St.Sum(longer) == St.Sum(window) + amount
  {
    assert (window + [V.Entry(now, amount)])[..|window|] == window;
  }

  function DriftSignals(drifted: bool): seq<Signal> {
    if drifted then [Signal(IntentDrift, Medium, false, 30.0)] else []
  }

  lemma F4Adds(e: Engine, c: Ctx)
    requires ContentClear(e, c.bundle)
    ensures !F4(c, e.embedder, e.injected).raised
    ensures Adds(c.(modelsUsed := c.modelsUsed[e.embedder.name := e.embedder.version]),
                 F4(c, e.embedder, e.injected).ctx, DriftSignals(Drifted(e, c.bundle)))
  {
  }

  function AttendanceSignals(b: Bundle): seq<Signal> {
    if b.payment.humanPresent then [] else [Signal(Unattended, Low, false, 10.0)]
  }

  lemma F5Adds(e: Engine, c: Ctx, id: string)
    requires AuthorityClear(c.bundle) && e.model.score(c.bundle).Some?
    ensures var r := F5(c, e.model, e.hashCart, id);
      Adds(c.(modelsUsed := c.modelsUsed[e.model.name := e.model.version], stepup := r.ctx.stepup), r.ctx,
           AttendanceSignals(c.bundle))
  {
  }

  // ---- The envelope ----

  // What the last two stages add, both models on record.
  lemma JudgeAdds(e: Engine, c: Ctx, id: string, total: real)
    requires At(c, c.bundle, c.now, total)
    requires ContentClear(e, c.bundle) && AuthorityClear(c.bundle) && e.model.score(c.bundle).Some?
    ensures var d := Judge(e, c, id).ctx;
      Adds(c.(modelsUsed := c.modelsUsed[e.embedder.name := e.embedder.version][e.model.name := e.model.version],
              stepup := d.stepup), d, DriftSignals(Drifted(e, c.bundle)) + AttendanceSignals(c.bundle))
  {
    F4Exactly(e, c, total);
    F4Adds(e, c);
    var c4 := F4(c, e.embedder, e.injected).ctx;
    F5Adds(e, c4, id);
    AddedInTurn(c.signals, DriftSignals(Drifted(e, c.bundle)), AttendanceSignals(c.bundle));
  }

  lemma AddedInTurn(a: seq<Signal>, b: seq<Signal>, c: seq<Signal>)
    ensures a + b + c == a + (b + c)
  {
  }

  function LateSignals(f: St.Finding, drifted: bool, b: Bundle): seq<Signal> {
    StructuringSignals(f) + (DriftSignals(drifted) + AttendanceSignals(b))
  }

  lemma LateAdds(e: Engine, c: Ctx, stored: Stored, id: string, total: real)
    requires At(c, c.bundle, c.now, total) && Prior(stored, TransferIn(c.bundle, c.now)) != St.VelocityExceeded
    requires ContentClear(e, c.bundle) && AuthorityClear(c.bundle) && e.model.score(c.bundle).Some?
    ensures var d, f := AfterScreening(e, c, stored, id).ctx, Prior(stored, TransferIn(c.bundle, c.now));
      && d.signals == c.signals + LateSignals(f, Drifted(e, c.bundle), c.bundle)
      && d.modelsUsed == c.modelsUsed[e.embedder.name := e.embedder.version][e.model.name := e.model.version]
      && d.sarDraft == (if f == St.StructuringSuspected then Some(Draft(c.bundle, c.now, stored)) else c.sarDraft)
      && d.screeningProvenance == c.screeningProvenance && d.bundle == c.bundle
  {
    TransferIs(c);
    F3Exactly(c, stored, total);
    F3Adds(c, stored);
    var f := Prior(stored, TransferIn(c.bundle, c.now));
    JudgeAdds(e, F3(c, stored), id, total + if f == St.StructuringSuspected then 45.0 else 0.0);
    AddedInTurn(c.signals, StructuringSignals(f), DriftSignals(Drifted(e, c.bundle)) + AttendanceSignals(c.bundle));
  }

  lemma CodesAppend(signals: seq<Signal>, s: Signal)
    ensures Codes(signals + [s]) == if s.code in Codes(signals) then Codes(signals) else Codes(signals) + [s.code]
  {
    assert (signals + [s])[..|signals|] == signals;
  }

  lemma {:induction false} PepCodes(n: nat)
    ensures Codes(PepSignals(n)) == if n == 0 then [] else [PepEdd]
  {
    if n == 0 {
    } else {
      PepCodes(n - 1);
      assert PepSignals(n) == PepSignals(n - 1) + [Signal(PepEdd, Medium, false, 25.0)];
      CodesAppend(PepSignals(n - 1), Signal(PepEdd, Medium, false, 25.0));
    }
  }

  function CodesOf(more: seq<Signal>): seq<Code> {
    if more == [] then [] else [more[0].code]
  }

  lemma CodesMore(signals: seq<Signal>, more: seq<Signal>)
    requires |more| <= 1 && (more != [] ==> more[0].code !in Codes(signals))
    ensures Codes(signals + more) == Codes(signals) + CodesOf(more)
  {
    if more == [] {
      assert signals + more == signals;
    } else {
      assert more == [more[0]];
      CodesAppend(signals, more[0]);
    }
  }

  // Each reason once, in the order of the stages.
  lemma LateCodes(n: nat, f: St.Finding, drifted: bool, b: Bundle)
    ensures Codes(PepSignals(n) + LateSignals(f, drifted, b))
         == (if n == 0 then [] else [PepEdd]) + CodesOf(StructuringSignals(f)) + CodesOf(DriftSignals(drifted))
            + CodesOf(AttendanceSignals(b))
  {
    PepCodes(n);
    var s0, x, y, z := PepSignals(n), StructuringSignals(f), DriftSignals(drifted), AttendanceSignals(b);
    ThreeMore(s0, x, y, z);
  }

  lemma ThreeMore(s0: seq<Signal>, x: seq<Signal>, y: seq<Signal>, z: seq<Signal>)
    requires |x| <= 1 && |y| <= 1 && |z| <= 1
    requires forall s :: s in x ==> s.code == StructuringSuspicion && s.code !in Codes(s0)
    requires forall s :: s in y ==> s.code == IntentDrift && s.code !in Codes(s0)
    requires forall s :: s in z ==> s.code == Unattended && s.code !in Codes(s0)
    ensures Codes(s0 + (x + (y + z))) == Codes(s0) + CodesOf(x) + CodesOf(y) + CodesOf(z)
  {
    CodesMore(s0, x);
    CodesMore(s0 + x, y);
    CodesMore(s0 + x + y, z);
    AddedInTurn(s0 + x, y, z);
    AddedInTurn(s0, x, y + z);
  }

  // What the pipeline leaves for the envelope to show.
  ghost predicate Shows<S>(e: Engine, b: Bundle, now: real, stored: Stored, p: Provider<S>, s: S, d: Ctx) {
    var f := Prior(stored, TransferIn(b, now));
    && d.signals == PepSignals(PepTotal(e, b, p, s)) + LateSignals(f, Drifted(e, b), b)
    && d.modelsUsed == map[e.embedder.name := e.embedder.version][e.model.name := e.model.version]
    && d.sarDraft == (if f == St.StructuringSuspected then Some(Draft(b, now, stored)) else None)
    && p.provenance(s).1.Got? && d.screeningProvenance == Some(p.provenance(s).1.value) && d.bundle == b
  }

  lemma PipelineShows<S>(e: Engine, c: Ctx, stored: Stored, p: Provider<S>, s: S, id: string)
    requires At(c, c.bundle, c.now, 0.0) && c.signals == [] && c.modelsUsed == map[] && c.sarDraft.None?
    requires Clear(e, c.bundle, c.now, stored, p, s) && e.model.score(c.bundle).Some?
    ensures Shows(e, c.bundle, c.now, stored, p, s, Pipeline(e, c, stored, p, s, id).ctx)
  {
    F1Exactly(c.bundle);
    F2Exactly(e, c, p, s, 0.0);
    F2Adds(e, c, p, s);
    var o := F2(c, p, s, e.share, e.lower);
    assert o.ctx.signals == PepSignals(PepTotal(e, c.bundle, p, s));
    LateAdds(e, o.ctx, stored, id, 25.0 * PepTotal(e, c.bundle, p, s) as real);
  }

  lemma FinalShows(c: Ctx, verdict: Option<Verdict>)
    requires verdict.Some? && !Skipped(c, verdict.value)
    ensures var env := Concluded(c, verdict).envelope;
      && env.mandateId == c.bundle.payment.mandateId && env.reasonCodes == Codes(c.signals)
      && env.modelProvenance == c.modelsUsed && env.screening == c.screeningProvenance && env.sarDraft == c.sarDraft
  {
  }

  // Where no condition fails and the model answers, the envelope names the
  // mandate, gives each reason once, both models with their versions, the
  // provenance of the screen, and a SAR draft exactly on structuring.
  lemma EnvelopeExactly<S>(e: Engine, b: Bundle, controls: Controls, now: real, stored: Stored, p: Provider<S>, s: S,
                           id: string)
    requires Clear(e, b, now, stored, p, s) && e.model.score(b).Some?
    ensures var env := Decide(e, b, controls, now, stored, p, s, id).final.envelope;
      var f := Prior(stored, TransferIn(b, now));
      && env.mandateId == b.payment.mandateId
      && env.reasonCodes == (if PepTotal(e, b, p, s) == 0 then [] else [PepEdd])
           + CodesOf(StructuringSignals(f)) + CodesOf(DriftSignals(Drifted(e, b))) + CodesOf(AttendanceSignals(b))
      && env.modelProvenance == map[e.embedder.name := e.embedder.version][e.model.name := e.model.version]
      && env.screening == Some(p.provenance(s).1.value)
      && env.sarDraft == (if f == St.StructuringSuspected then Some(Draft(b, now, stored)) else None)
  {
    SignedExactly(e.ring, b);
    var c := FreshCtx(b, controls, now, e.hashSnapshot);
    var o := Pipeline(e, c, stored, p, s, id);
    PipelineShows(e, c, stored, p, s, id);
    PipelineExactly(e, c, stored, p, s, id);
    F.NeverSkipped(e, b, controls, now, stored, p, s, id);
    FinalShows(o.ctx, o.verdict);
    LateCodes(PepTotal(e, b, p, s), Prior(stored, TransferIn(b, now)), Drifted(e, b), b);
  }
}
