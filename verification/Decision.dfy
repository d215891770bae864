// aegis/pipeline/orchestrator.py and f7_reasoncodes.py on values: one
// evaluation, and one replay, as functions of what they start from.
module Decision {
  import opened Wrappers
  import opened Models
  import opened Screening
  import opened Context
  import opened Sanctions
  import opened Stages
  import opened StepUp
  import V = Velocity

  // What stays fixed between an evaluation and its replay.
  datatype Engine = Engine(
    ring: KeyRing, lower: string -> string, share: string -> real,
    embedder: Embedder, injected: string -> bool, model: RiskModel,
    hashCart: Cart -> string, hashSnapshot: Snapshot -> string)

  // ---- The pipeline; a verdict of None is an exception on its way out ----

  datatype Tail = Tail(ctx: Ctx, stored: Stored, verdict: Option<Verdict>)

  function Judge(e: Engine, ctx: Ctx, challengeId: string): Resolved {
    var r := F4(ctx, e.embedder, e.injected);
    if r.raised then Resolved(r.ctx, None)
    else if HardBlocked(r.ctx.signals) then Resolved(r.ctx, Some(Block))
    else F5(r.ctx, e.model, e.hashCart, challengeId)
  }

  function AfterScreening(e: Engine, ctx: Ctx, stored: Stored, challengeId: string): Tail {
    var c := F3(ctx, stored);
    var stored' := Exchange(stored, TransferOf(ctx)).stored;
    if HardBlocked(c.signals) then Tail(c, stored', Some(Block))
    else var r := Judge(e, c, challengeId); Tail(r.ctx, stored', r.verdict)
  }

  datatype Outcome<S> = Outcome(ctx: Ctx, stored: Stored, state: S, verdict: Option<Verdict>)

  function PastF2<S>(e: Engine, o: Out<S>, stored: Stored, challengeId: string): Outcome<S> {
    if o.flow == Raising then Outcome(o.ctx, stored, o.state, None)
    else if HardBlocked(o.ctx.signals) then Outcome(o.ctx, stored, o.state, Some(Block))
    else var t := AfterScreening(e, o.ctx, stored, challengeId); Outcome(t.ctx, t.stored, o.state, t.verdict)
  }

  function Pipeline<S>(e: Engine, ctx: Ctx, stored: Stored, p: Provider<S>, s: S, challengeId: string): Outcome<S> {
    var c := F1(ctx);
    if HardBlocked(c.signals) then Outcome(c, stored, s, Some(Block))
    else PastF2(e, F2(c, p, s, e.share, e.lower), stored, challengeId)
  }

  // ---- Envelopes and archives ----

  datatype Envelope = Envelope(
    mandateId: string, verdict: Verdict, reasonCodes: seq<Code>, signals: seq<Signal>, riskScore: real,
    modelProvenance: map<string, string>, screening: Option<Provenance>, stepup: Option<Challenge>,
    sarDraft: Option<Sar>, worldSnapshotHash: string)

  datatype Archive = Archive(bundle: Bundle, now: real, controls: Controls, velocitySnapshot: V.Data,
                             screening: Recording)

  // Each code once, where it first occurs.
  function Codes(signals: seq<Signal>): seq<Code> {
    if signals == [] then []
    else
      var front := Codes(signals[..|signals| - 1]);
      var code := signals[|signals| - 1].code;
      if code in front then front else front + [code]
  }

  function EnvelopeOf(ctx: Ctx, verdict: Verdict): Envelope {
    Envelope(ctx.bundle.payment.mandateId, verdict, Codes(ctx.signals), ctx.signals, ctx.riskScore, ctx.modelsUsed,
             ctx.screeningProvenance, ctx.stepup, ctx.sarDraft, ctx.worldSnapshotHash)
  }

  function ArchiveOf(ctx: Ctx): Archive {
    Archive(ctx.bundle, ctx.now, ctx.controls, ctx.velocitySnapshot,
            Recording(ctx.screeningProvenance, ctx.screeningLog, ctx.screeningError))
  }

  datatype Final = Final(envelope: Envelope, archive: Archive)

  // Nothing but BLOCK leaves without the provenance of a screen.
  predicate Skipped(ctx: Ctx, verdict: Verdict) {
    verdict != Block && ctx.screeningProvenance.None?
  }

  function Finalized(ctx: Ctx, verdict: Verdict): Final {
    var skipped := Skipped(ctx, verdict);
    var c := if skipped then WithSignal(ctx, Hard(StageSkipped)) else ctx;
    Final(EnvelopeOf(c, if skipped then Block else verdict), ArchiveOf(c))
  }

  function FinalizedClosed(ctx: Ctx): Final {
    Finalized(WithSignal(ctx, Hard(FailedClosed)), Block)
  }

  // ---- Evaluation ----

  datatype Decided<S> = Decided(final: Final, stored: Stored, state: S, raised: bool)

  // What becomes of a verdict, or of an exception.
  function Concluded(ctx: Ctx, verdict: Option<Verdict>): Final {
    match verdict case None => FinalizedClosed(ctx) case Some(v) => Finalized(ctx, v)
  }

  function Decide<S>(e: Engine, b: Bundle, controls: Controls, now: real, stored: Stored, p: Provider<S>, s: S,
                     challengeId: string): Decided<S>
  {
    var ctx := FreshCtx(b, controls, now, e.hashSnapshot);
    if !VerifyBundle(e.ring, b) then Decided(Finalized(WithSignal(ctx, Hard(SigInvalid)), Block), stored, s, false)
    else
      var o := Pipeline(e, ctx, stored, p, s, challengeId);
      Decided(Concluded(o.ctx, o.verdict), o.stored, o.state, o.verdict.None?)
  }

  // ---- Replay ----

  datatype Replayed = Replayed(verdict: Verdict, reasonCodes: seq<Code>, worldSnapshotHash: string)

  // None where the replay itself raises.
  function ReplayOf(e: Engine, a: Archive, challengeId: string): Option<Replayed> {
    var ctx := FreshCtx(a.bundle, a.controls, a.now, e.hashSnapshot);
    if !VerifyBundle(e.ring, a.bundle)
    then Some(Replayed(Block, Codes(WithSignal(ctx, Hard(SigInvalid)).signals), ctx.worldSnapshotHash))
    else
      var o := Pipeline(e, ctx, InMemory(a.velocitySnapshot), Recorded(a.screening), (), challengeId);
      match o.verdict
      case None => None
      case Some(v) => Some(Replayed(v, Codes(o.ctx.signals), o.ctx.worldSnapshotHash))
  }

  // ---- What the stages after screening leave alone ----

  lemma HardAfter(ctx: Ctx, s: Signal)
    ensures HardBlocked(WithSignal(ctx, s).signals) <==> HardBlocked(ctx.signals) || s.hardBlock
  {
    var before, after := ctx.signals, WithSignal(ctx, s).signals;
    assert after[|before|] == s;
    if i :| 0 <= i < |before| && before[i].hardBlock { assert after[i] == before[i]; }
    if i :| 0 <= i < |after| && after[i].hardBlock { assert i < |before| ==> after[i] == before[i]; }
  }

  // What was screened, and what is hashed, is as it was.
  ghost predicate SameEvidence(a: Ctx, b: Ctx) {
    && a.bundle == b.bundle && a.now == b.now && a.controls == b.controls && a.worldSnapshotHash == b.worldSnapshotHash
    && a.screeningProvenance == b.screeningProvenance && a.screeningLog == b.screeningLog
    && a.screeningError == b.screeningError
  }

  lemma F3Keeps(ctx: Ctx, stored: Stored)
    ensures SameEvidence(ctx, F3(ctx, stored))
  {
  }

  lemma F4Keeps(ctx: Ctx, embedder: Embedder, injected: string -> bool)
    ensures var c := F4(ctx, embedder, injected).ctx;
      SameEvidence(ctx, c) && c.velocitySnapshot == ctx.velocitySnapshot
  {
  }

  lemma F5Keeps(ctx: Ctx, model: RiskModel, hashCart: Cart -> string, challengeId: string)
    ensures var c := F5(ctx, model, hashCart, challengeId).ctx;
      SameEvidence(ctx, c) && c.velocitySnapshot == ctx.velocitySnapshot
  {
  }

  lemma JudgeKeeps(e: Engine, ctx: Ctx, challengeId: string)
    ensures var r := Judge(e, ctx, challengeId);
      SameEvidence(ctx, r.ctx) && r.ctx.velocitySnapshot == ctx.velocitySnapshot
  {
    F4Keeps(ctx, e.embedder, e.injected);
    F5Keeps(F4(ctx, e.embedder, e.injected).ctx, e.model, e.hashCart, challengeId);
  }

  lemma AfterScreeningKeeps(e: Engine, ctx: Ctx, stored: Stored, challengeId: string)
    ensures SameEvidence(ctx, AfterScreening(e, ctx, stored, challengeId).ctx)
    ensures AfterScreening(e, ctx, stored, challengeId).ctx.velocitySnapshot == F3(ctx, stored).velocitySnapshot
  {
    F3Keeps(ctx, stored);
    JudgeKeeps(e, F3(ctx, stored), challengeId);
  }

  lemma F5NotHard(ctx: Ctx, model: RiskModel, hashCart: Cart -> string, challengeId: string)
    requires !HardBlocked(ctx.signals)
    ensures var r := F5(ctx, model, hashCart, challengeId);
      r.verdict.Some? && r.verdict != Some(Block) ==> !HardBlocked(r.ctx.signals)
  {
    HardAfter(ctx.(modelsUsed := ctx.modelsUsed[model.name := model.version]), UNATTENDED);
  }

  // Past screening, too, a verdict other than BLOCK leaves no hard block behind.
  lemma AfterScreeningNotHard(e: Engine, ctx: Ctx, stored: Stored, challengeId: string)
    ensures var t := AfterScreening(e, ctx, stored, challengeId);
      t.verdict.Some? && t.verdict != Some(Block) ==> !HardBlocked(t.ctx.signals)
  {
    var c := F3(ctx, stored);
    var r := F4(c, e.embedder, e.injected);
    if !HardBlocked(r.ctx.signals) { F5NotHard(r.ctx, e.model, e.hashCart, challengeId); }
  }
}
