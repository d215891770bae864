// aegis/pipeline/orchestrator.py, `replay`: the archive of an evaluation gives
// its decision back, whatever the live provider did.
module Replay {
  import opened Wrappers
  import opened Models
  import opened Screening
  import opened Context
  import opened Sanctions
  import opened ScreenRuns
  import opened Stages
  import opened StepUp
  import opened Decision
  import opened FailClosed
  import V = Velocity
  import St = Structuring

  // ---- Contexts that later stages cannot tell apart ----

  ghost predicate Alike(a: Ctx, b: Ctx) {
    a.bundle == b.bundle && a.now == b.now && a.signals == b.signals && a.riskScore == b.riskScore
  }

  // ---- Weighing candidates ----

  lemma {:induction false} WeighAlike(cands: seq<Candidate>, j: nat, a: Ctx, b: Ctx)
    requires j <= |cands| && Alike(a, b)
    ensures Alike(Weigh(cands, j, a).ctx, Weigh(cands, j, b).ctx)
    ensures Weigh(cands, j, a).hit == Weigh(cands, j, b).hit
    decreases |cands| - j
  {
    if j == |cands| {
    } else {
      if cands[j].score < MATCH_THRESHOLD {
        WeighAlike(cands, j + 1, a, b);
      } else if cands[j].isPep {
        WeighAlike(cands, j + 1, WithSignal(a, PEP), WithSignal(b, PEP));
      }
    }
  }

  // ---- Screening again from the recording ----

  function Got1(names: seq<string>, i: nat, ctx: Ctx, cands: seq<Candidate>): Weighed
    requires i < |names|
  {
    Weigh(cands, 0, ctx.(screeningLog := ctx.screeningLog[names[i] := cands]))
  }

  lemma GotAlike(names: seq<string>, i: nat, ctx: Ctx, again: Ctx, cands: seq<Candidate>)
    requires i < |names| && Ahead(names, i, ctx) && Alike(ctx, again)
    ensures Ahead(names, i + 1, Got1(names, i, ctx, cands).ctx)
    ensures Alike(Got1(names, i, ctx, cands).ctx, Got1(names, i, again, cands).ctx)
    ensures Got1(names, i, ctx, cands).hit == Got1(names, i, again, cands).hit
    ensures Got1(names, i, ctx, cands).ctx.screeningLog == ctx.screeningLog[names[i] := cands]
  {
    AheadStep(names, i, ctx, cands);
    WeighKeeps(cands, 0, ctx.(screeningLog := ctx.screeningLog[names[i] := cands]));
    WeighAlike(cands, 0, ctx.(screeningLog := ctx.screeningLog[names[i] := cands]),
               again.(screeningLog := again.screeningLog[names[i] := cands]));
  }

  // The recorded provider takes the screen down the same path; where the live
  // one failed outright, the recording reads as unavailable.
  lemma {:induction false} RecordedScreen<S>(names: seq<string>, i: nat, ctx: Ctx, p: Provider<S>, s: S,
                                            again: Ctx, rec: Recording)
    requires i <= |names| && Ahead(names, i, ctx) && Alike(ctx, again)
    requires rec.queries == ScreenFrom(names, i, ctx, p, s).ctx.screeningLog
    ensures var live, replayed := ScreenFrom(names, i, ctx, p, s), ScreenFrom(names, i, again, Recorded(rec), ());
      if live.flow == Raising then replayed.flow == Returned && HardBlocked(replayed.ctx.signals)
      else replayed.flow == live.flow && Alike(live.ctx, replayed.ctx)
    decreases |names| - i
  {
    if i == |names| {
    } else {
      var r := p.screen(s, names[i]);
      if r.1.Got? {
        GotAlike(names, i, ctx, again, r.1.value);
        var w := Got1(names, i, ctx, r.1.value);
        if !w.hit {
          LogKept(names, i + 1, w.ctx, p, r.0);
          RecordedScreen(names, i + 1, w.ctx, p, r.0, Got1(names, i, again, r.1.value).ctx, rec);
        }
      } else {
        InterruptedIsHard(again, Recorded(rec).screen((), names[i]).1.message);
      }
    }
  }

  // ---- Feature 2 as a whole ----

  function RecordingOf(ctx: Ctx): Recording {
    Recording(ctx.screeningProvenance, ctx.screeningLog, ctx.screeningError)
  }

  ghost predicate Unscreened(ctx: Ctx) {
    ctx.screeningLog == map[] && ctx.screeningProvenance.None? && ctx.velocitySnapshot == map[]
  }

  lemma OwnershipKeeps<S>(out: Out<S>, share: string -> real)
    ensures RecordingOf(OwnershipCheck(out, share).ctx) == RecordingOf(out.ctx)
    ensures OwnershipCheck(out, share).flow == Raising <==> out.flow == Raising
  {
  }

  lemma OwnershipAlike<S, T>(a: Out<S>, b: Out<T>, share: string -> real)
    requires a.flow == b.flow && Alike(a.ctx, b.ctx)
    ensures OwnershipCheck(a, share).flow == OwnershipCheck(b, share).flow
    ensures Alike(OwnershipCheck(a, share).ctx, OwnershipCheck(b, share).ctx)
  {
  }

  // The second run ends as the first did; an outright failure ends as a block.
  ghost predicate SameEnd<S, T>(live: Out<S>, replayed: Out<T>) {
    if live.flow == Raising then replayed.flow == Returned && HardBlocked(replayed.ctx.signals)
    else replayed.flow == live.flow && Alike(live.ctx, replayed.ctx)
  }

  lemma RecordedNames<S>(known: Ctx, p: Provider<S>, s: S, share: string -> real, lower: string -> string, again: Ctx)
    requires known.screeningLog == map[] && Alike(known, again)
    ensures var names := CandidateNames(known.bundle, lower);
      var live := OwnershipCheck(ScreenFrom(names, 0, known, p, s), share);
      && live.ctx.screeningProvenance == known.screeningProvenance
      && SameEnd(live, OwnershipCheck(ScreenFrom(names, 0, again, Recorded(RecordingOf(live.ctx)), ()), share))
  {
    var names := CandidateNames(known.bundle, lower);
    NamesAhead(known, lower);
    LogKept(names, 0, known, p, s);
    var live := ScreenFrom(names, 0, known, p, s);
    OwnershipKeeps(live, share);
    var rec := RecordingOf(OwnershipCheck(live, share).ctx);
    RecordedScreen(names, 0, known, p, s, again, rec);
    if live.flow != Raising { OwnershipAlike(live, ScreenFrom(names, 0, again, Recorded(rec), ()), share); }
  }

  lemma RecordedAfterProvenance<S>(known: Ctx, prov: Provenance, p: Provider<S>, s: S, share: string -> real,
                                   lower: string -> string, again: Ctx)
    requires known.screeningLog == map[] && Alike(known, again)
    ensures var live := AfterProvenance(known, prov, p, s, share, lower);
      && live.ctx.screeningProvenance == known.screeningProvenance
      && SameEnd(live, AfterProvenance(again, prov, Recorded(RecordingOf(live.ctx)), (), share, lower))
  {
    if !Stale(known.now, prov) { RecordedNames(known, p, s, share, lower, again); }
  }

  lemma RecordedRefusal(again: Ctx, rec: Recording, share: string -> real, lower: string -> string)
    requires rec.provenance.None?
    ensures var out := F2(again, Recorded(rec), (), share, lower);
      && out.flow == Returned && HardBlocked(out.ctx.signals)
      && forall message :: Alike(Interrupted(Flagged(again), message), out.ctx)
  {
    InterruptedIsHard(Flagged(again), Recorded(rec).provenance(()).1.message);
  }

  lemma RecordedGot<S>(ctx: Ctx, p: Provider<S>, s: S, share: string -> real, lower: string -> string, again: Ctx,
                       prov: Provenance, live: Out<S>)
    requires Unscreened(ctx) && Alike(ctx, again) && p.provenance(s).1 == Got(prov)
    requires live == F2(ctx, p, s, share, lower)
    ensures SameEnd(live, F2(again, Recorded(RecordingOf(live.ctx)), (), share, lower))
  {
    var known, known' :=
      Flagged(ctx).(screeningProvenance := Some(prov)), Flagged(again).(screeningProvenance := Some(prov));
    F2Got(ctx, p, s, share, lower, prov);
    RecordedAfterProvenance(known, prov, p, p.provenance(s).0, share, lower, known');
    F2Got(again, Recorded(RecordingOf(live.ctx)), (), share, lower, prov);
  }

  lemma RecordedF2<S>(ctx: Ctx, p: Provider<S>, s: S, share: string -> real, lower: string -> string, again: Ctx,
                      live: Out<S>)
    requires Unscreened(ctx) && Alike(ctx, again) && live == F2(ctx, p, s, share, lower)
    ensures SameEnd(live, F2(again, Recorded(RecordingOf(live.ctx)), (), share, lower))
  {
    var r := p.provenance(s);
    if r.1.Got? {
      RecordedGot(ctx, p, s, share, lower, again, r.1.value, live);
    } else {
      F2NotGot(ctx, p, s, share, lower);
      RecordedRefusal(again, RecordingOf(live.ctx), share, lower);
    }
  }

  // ---- Reading the archived windows back ----

  lemma {:induction false} SinceAll(s: seq<V.Entry>, lo: real)
    requires forall e :: e in s ==> e.ts >= lo
    ensures V.Since(s, lo) == s
  {
    if s == [] {
    } else {
      SinceAll(s[..|s| - 1], lo);
    }
  }

  ghost predicate NotBefore(s: seq<V.Entry>, lo: real) {
    forall e :: e in s ==> e.ts >= lo
  }

  lemma {:induction false} BetweenBounds(s: seq<V.Entry>, lo: real, hi: real)
    ensures NotBefore(V.Between(s, lo, hi), lo)
  {
    if s == [] {
    } else {
      BetweenBounds(s[..|s| - 1], lo, hi);
    }
  }

  lemma {:induction false} SinceBounds(s: seq<V.Entry>, lo: real)
    ensures NotBefore(V.Since(s, lo), lo)
  {
    if s == [] {
    } else {
      SinceBounds(s[..|s| - 1], lo);
    }
  }

  lemma OrderBounds(s: seq<V.Entry>, lo: real)
    requires NotBefore(s, lo)
    ensures NotBefore(V.OrderByTs(s), lo)
  {
    V.OrderIsSorted(s);
    forall e | e in V.OrderByTs(s) ensures e.ts >= lo {
      assert e in multiset(V.OrderByTs(s)) && e in multiset(s);
    }
  }

  // Whichever store served it, a window holds nothing older than its start.
  lemma ServedBounds(stored: Stored, key: string, now: real, width: real)
    ensures NotBefore(Serve(stored, V.Window(key, now), width).answer, now - width)
  {
    match stored
    case InMemory(data) => SinceBounds(V.Lookup(data, key), now - width);
    case InTable(rows) =>
      var kept := V.OfKey(V.Expire(rows, key, now - width), key);
      BetweenBounds(kept, now - width, now);
      OrderBounds(V.Between(kept, now - width, now), now - width);
  }

  // A seeded store serves what it was seeded with, if none of it is too old.
  lemma SeededWindows(seed: V.Data, t: St.Transfer)
    requires St.StructKey(t) in seed && St.VelKey(t.agent) in seed
    requires forall e :: e in seed[St.StructKey(t)] || e in seed[St.VelKey(t.agent)] ==> e.ts >= t.now - St.DAY
    ensures Exchange(InMemory(seed), t).struct == seed[St.StructKey(t)]
    ensures Exchange(InMemory(seed), t).vel == seed[St.VelKey(t.agent)]
  {
    St.KeysApart(t, t.agent);
    SinceAll(seed[St.StructKey(t)], t.now - St.DAY);
    SinceAll(seed[St.VelKey(t.agent)], t.now - St.DAY);
  }

  // A store seeded with the two windows of an evaluation serves them again.
  lemma WindowsAgain(stored: Stored, t: St.Transfer)
    ensures var w := Exchange(stored, t);
      var again := Exchange(InMemory(map[St.StructKey(t) := w.struct, St.VelKey(t.agent) := w.vel]), t);
      again.struct == w.struct && again.vel == w.vel
  {
    var w := Exchange(stored, t);
    ServedBounds(stored, St.StructKey(t), t.now, St.DAY);
    ServedBounds(Serve(stored, V.Window(St.StructKey(t), t.now), St.DAY).stored, St.VelKey(t.agent), t.now, St.DAY);
    St.KeysApart(t, t.agent);
    SeededWindows(map[St.StructKey(t) := w.struct, St.VelKey(t.agent) := w.vel], t);
  }

  // ---- The stages after screening ----

  lemma F3Snapshot(ctx: Ctx, struct: seq<V.Entry>, vel: seq<V.Entry>)
    ensures F3Given(ctx, struct, vel).velocitySnapshot
         == map[St.StructKey(TransferOf(ctx)) := struct, St.VelKey(TransferOf(ctx).agent) := vel]
  {
  }

  lemma F3Again(ctx: Ctx, stored: Stored, again: Ctx)
    requires Alike(ctx, again)
    ensures Alike(F3(ctx, stored), F3(again, InMemory(F3(ctx, stored).velocitySnapshot)))
  {
    var w := Exchange(stored, TransferOf(ctx));
    F3Snapshot(ctx, w.struct, w.vel);
    WindowsAgain(stored, TransferOf(ctx));
    F3GivenAlike(ctx, again, w.struct, w.vel);
  }

  lemma F3GivenAlike(a: Ctx, b: Ctx, struct: seq<V.Entry>, vel: seq<V.Entry>)
    requires Alike(a, b)
    ensures Alike(F3Given(a, struct, vel), F3Given(b, struct, vel))
  {
  }

  lemma F4Alike(a: Ctx, b: Ctx, embedder: Embedder, injected: string -> bool)
    requires Alike(a, b)
    ensures Alike(F4(a, embedder, injected).ctx, F4(b, embedder, injected).ctx)
    ensures F4(a, embedder, injected).raised == F4(b, embedder, injected).raised
  {
  }

  lemma SettleAlike(a: Ctx, b: Ctx, score: real, hashCart: Cart -> string, id1: string, id2: string)
    requires Alike(a, b)
    ensures SameResolution(Settle(a, score, hashCart, id1), Settle(b, score, hashCart, id2))
  {
  }

  // What is on the context when the model's score comes in.
  function BeforeScore(ctx: Ctx, model: RiskModel): Ctx {
    var c := ctx.(modelsUsed := ctx.modelsUsed[model.name := model.version]);
    if ctx.bundle.payment.humanPresent then c else WithSignal(c, UNATTENDED)
  }

  lemma F5Is(ctx: Ctx, model: RiskModel, score: real, hashCart: Cart -> string, id: string)
    requires !Unbounded(ctx.bundle) && model.score(ctx.bundle) == Some(score)
    ensures F5(ctx, model, hashCart, id) == Settle(BeforeScore(ctx, model), score, hashCart, id)
  {
  }

  ghost predicate SameResolution(a: Resolved, b: Resolved) {
    Alike(a.ctx, b.ctx) && a.verdict == b.verdict
  }

  lemma F5Unscored(a: Ctx, b: Ctx, model: RiskModel, hashCart: Cart -> string, id1: string, id2: string)
    requires Alike(a, b) && (Unbounded(a.bundle) || model.score(a.bundle).None?)
    ensures SameResolution(F5(a, model, hashCart, id1), F5(b, model, hashCart, id2))
  {
  }

  lemma F5Alike(a: Ctx, b: Ctx, model: RiskModel, hashCart: Cart -> string, id1: string, id2: string)
    requires Alike(a, b)
    ensures SameResolution(F5(a, model, hashCart, id1), F5(b, model, hashCart, id2))
  {
    if Unbounded(a.bundle) || model.score(a.bundle).None? {
      F5Unscored(a, b, model, hashCart, id1, id2);
    } else {
      var score := model.score(a.bundle).value;
      F5Is(a, model, score, hashCart, id1);
      F5Is(b, model, score, hashCart, id2);
      SettleAlike(BeforeScore(a, model), BeforeScore(b, model), score, hashCart, id1, id2);
    }
  }

  lemma JudgeAlike(e: Engine, a: Ctx, b: Ctx, id1: string, id2: string)
    requires Alike(a, b)
    ensures SameResolution(Judge(e, a, id1), Judge(e, b, id2))
  {
    F4Alike(a, b, e.embedder, e.injected);
    F5Alike(F4(a, e.embedder, e.injected).ctx, F4(b, e.embedder, e.injected).ctx, e.model, e.hashCart, id1, id2);
  }

  lemma AfterScreeningAgain(e: Engine, ctx: Ctx, stored: Stored, id1: string, again: Ctx, id2: string)
    requires Alike(ctx, again)
    ensures var live := AfterScreening(e, ctx, stored, id1);
      var replayed := AfterScreening(e, again, InMemory(live.ctx.velocitySnapshot), id2);
      live.verdict == replayed.verdict && Alike(live.ctx, replayed.ctx)
  {
    AfterScreeningKeeps(e, ctx, stored, id1);
    F3Again(ctx, stored, again);
    JudgeAlike(e, F3(ctx, stored), F3(again, InMemory(F3(ctx, stored).velocitySnapshot)), id1, id2);
  }

  // ---- The pipeline ----

  // A replay ends as the evaluation did; after an exception it raises or blocks.
  ghost predicate Agrees<S, T>(live: Outcome<S>, replayed: Outcome<T>) {
    if live.verdict.Some? then replayed.verdict == live.verdict && replayed.ctx.signals == live.ctx.signals
    else replayed.verdict.None? || replayed.verdict == Some(Block)
  }

  lemma PastF2Again<S>(e: Engine, o: Out<S>, stored: Stored, id1: string, o': Out<()>, id2: string, live: Outcome<S>)
    requires SameEnd(o, o') && live == PastF2(e, o, stored, id1)
    ensures Agrees(live, PastF2(e, o', InMemory(live.ctx.velocitySnapshot), id2))
    ensures RecordingOf(live.ctx) == RecordingOf(o.ctx)
  {
    AfterScreeningKeeps(e, o.ctx, stored, id1);
    if o.flow != Raising && !HardBlocked(o.ctx.signals) { AfterScreeningAgain(e, o.ctx, stored, id1, o'.ctx, id2); }
  }

  lemma PipelineAgain<S>(e: Engine, ctx: Ctx, stored: Stored, p: Provider<S>, s: S, id1: string, again: Ctx,
                         id2: string, live: Outcome<S>)
    requires Unscreened(ctx) && Alike(ctx, again) && live == Pipeline(e, ctx, stored, p, s, id1)
    ensures Agrees(live,
                   Pipeline(e, again, InMemory(live.ctx.velocitySnapshot), Recorded(RecordingOf(live.ctx)), (), id2))
  {
    var c, c' := F1(ctx), F1(again);
    if !HardBlocked(c.signals) {
      var o := F2(c, p, s, e.share, e.lower);
      RecordedF2(c, p, s, e.share, e.lower, c', o);
      var o' := F2(c', Recorded(RecordingOf(o.ctx)), (), e.share, e.lower);
      PastF2Again(e, o, stored, id1, o', id2, live);
    }
  }

  // ---- Replay of an archive ----

  // Whether Feature 2 came to run at all.
  predicate ScreenRan(e: Engine, b: Bundle) {
    VerifyBundle(e.ring, b) && F1Finding(b).None?
  }

  lemma F1Blocks(ctx: Ctx)
    requires !HardBlocked(ctx.signals)
    ensures HardBlocked(F1(ctx).signals) <==> F1Finding(ctx.bundle).Some?
  {
    if F1Finding(ctx.bundle).Some? { HardAfter(ctx, Hard(F1Finding(ctx.bundle).value)); }
  }

  lemma PastF2Keeps<S>(e: Engine, o: Out<S>, stored: Stored, id: string)
    ensures SameEvidence(o.ctx, PastF2(e, o, stored, id).ctx)
  {
    AfterScreeningKeeps(e, o.ctx, stored, id);
  }

  lemma PipelineKeeps<S>(e: Engine, ctx: Ctx, stored: Stored, p: Provider<S>, s: S, id: string)
    requires Unscreened(ctx) && !HardBlocked(ctx.signals)
    ensures var o := Pipeline(e, ctx, stored, p, s, id);
      && o.ctx.bundle == ctx.bundle && o.ctx.now == ctx.now && o.ctx.worldSnapshotHash == ctx.worldSnapshotHash
      && o.ctx.controls == if F1Finding(ctx.bundle).None? then Flagged(ctx).controls else ctx.controls
  {
    F1Blocks(ctx);
    F2Keeps(F1(ctx), p, s, e.share, e.lower);
    PastF2Keeps(e, F2(F1(ctx), p, s, e.share, e.lower), stored, id);
  }

  // What a final decision records of the context it was made in.
  lemma FinalKeeps(ctx: Ctx, verdict: Verdict)
    ensures Finalized(ctx, verdict).archive == ArchiveOf(ctx)
    ensures Finalized(ctx, verdict).envelope.worldSnapshotHash == ctx.worldSnapshotHash
    ensures !Skipped(ctx, verdict) ==> Finalized(ctx, verdict).envelope == EnvelopeOf(ctx, verdict)
  {
  }

  lemma DecideIs<S>(e: Engine, b: Bundle, controls: Controls, now: real, stored: Stored, p: Provider<S>, s: S,
                    id: string)
    requires VerifyBundle(e.ring, b)
    ensures var o := Pipeline(e, FreshCtx(b, controls, now, e.hashSnapshot), stored, p, s, id);
      Decide(e, b, controls, now, stored, p, s, id).final.archive == ArchiveOf(o.ctx)
      && Decide(e, b, controls, now, stored, p, s, id).final.envelope.worldSnapshotHash == o.ctx.worldSnapshotHash
  {
    var o := Pipeline(e, FreshCtx(b, controls, now, e.hashSnapshot), stored, p, s, id);
    FinalKeeps(WithSignal(o.ctx, Hard(FailedClosed)), Block);
    if o.verdict.Some? { FinalKeeps(o.ctx, o.verdict.value); }
  }

  // The archive holds the inputs, except that the screening control is marked
  // once Feature 2 has run; the hash in the envelope is of the inputs.
  lemma ArchiveKeeps<S>(e: Engine, b: Bundle, controls: Controls, now: real, stored: Stored, p: Provider<S>, s: S,
                        id: string)
    ensures var a := Decide(e, b, controls, now, stored, p, s, id).final.archive;
      && a.bundle == b && a.now == now
      && a.controls == if ScreenRan(e, b) then controls.(pspRanSanctionsScreen := true) else controls
    ensures Decide(e, b, controls, now, stored, p, s, id).final.envelope.worldSnapshotHash
         == e.hashSnapshot(Snapshot(b, now, controls))
  {
    var ctx := FreshCtx(b, controls, now, e.hashSnapshot);
    if VerifyBundle(e.ring, b) {
      PipelineKeeps(e, ctx, stored, p, s, id);
      DecideIs(e, b, controls, now, stored, p, s, id);
    } else {
      FinalKeeps(WithSignal(ctx, Hard(SigInvalid)), Block);
    }
  }

  // ---- No stage emits the code of an exception ----

  ghost predicate Free(signals: seq<Signal>) {
    forall i :: 0 <= i < |signals| ==> signals[i].code != FailedClosed
  }

  lemma {:induction false} WeighFree(cands: seq<Candidate>, j: nat, ctx: Ctx)
    requires j <= |cands| && Free(ctx.signals)
    ensures Free(Weigh(cands, j, ctx).ctx.signals)
    decreases |cands| - j
  {
    if j == |cands| {
    } else {
      if cands[j].score < MATCH_THRESHOLD {
        WeighFree(cands, j + 1, ctx);
      } else if cands[j].isPep {
        WeighFree(cands, j + 1, WithSignal(ctx, PEP));
      }
    }
  }

  lemma {:induction false} ScreenFree<S>(names: seq<string>, i: nat, ctx: Ctx, p: Provider<S>, s: S)
    requires i <= |names| && Free(ctx.signals)
    ensures Free(ScreenFrom(names, i, ctx, p, s).ctx.signals)
    decreases |names| - i
  {
    if i == |names| {
    } else {
      var r := p.screen(s, names[i]);
      if r.1.Got? {
        WeighFree(r.1.value, 0, ctx.(screeningLog := ctx.screeningLog[names[i] := r.1.value]));
        var w := Got1(names, i, ctx, r.1.value);
        if !w.hit { ScreenFree(names, i + 1, w.ctx, p, r.0); }
      }
    }
  }

  lemma F2Free<S>(ctx: Ctx, p: Provider<S>, s: S, share: string -> real, lower: string -> string)
    requires Free(ctx.signals)
    ensures Free(F2(ctx, p, s, share, lower).ctx.signals)
  {
    var r := p.provenance(s);
    if r.1.Got? {
      var known := Flagged(ctx).(screeningProvenance := Some(r.1.value));
      ScreenFree(CandidateNames(ctx.bundle, lower), 0, known, p, r.0);
    }
  }

  lemma F3Free(ctx: Ctx, stored: Stored)
    requires Free(ctx.signals)
    ensures Free(F3(ctx, stored).signals)
  {
  }

  lemma JudgeFree(e: Engine, ctx: Ctx, id: string)
    requires Free(ctx.signals)
    ensures Free(Judge(e, ctx, id).ctx.signals)
  {
    var c := F4(ctx, e.embedder, e.injected).ctx;
    assert Free(c.signals);
    F5Free(c, e.model, e.hashCart, id);
  }

  lemma F5Free(ctx: Ctx, model: RiskModel, hashCart: Cart -> string, id: string)
    requires Free(ctx.signals)
    ensures Free(F5(ctx, model, hashCart, id).ctx.signals)
  {
  }

  lemma PastF2Free<S>(e: Engine, o: Out<S>, stored: Stored, id: string)
    requires Free(o.ctx.signals)
    ensures Free(PastF2(e, o, stored, id).ctx.signals)
  {
    F3Free(o.ctx, stored);
    JudgeFree(e, F3(o.ctx, stored), id);
  }

  lemma PipelineFree<S>(e: Engine, ctx: Ctx, stored: Stored, p: Provider<S>, s: S, id: string)
    requires Free(ctx.signals)
    ensures Free(Pipeline(e, ctx, stored, p, s, id).ctx.signals)
  {
    assert Free(F1(ctx).signals);
    F2Free(F1(ctx), p, s, e.share, e.lower);
    PastF2Free(e, F2(F1(ctx), p, s, e.share, e.lower), stored, id);
  }

  lemma ReplayFree(e: Engine, a: Archive, id: string)
    ensures ReplayOf(e, a, id).Some? ==> FailedClosed !in ReplayOf(e, a, id).value.reasonCodes
  {
    var ctx := FreshCtx(a.bundle, a.controls, a.now, e.hashSnapshot);
    PipelineFree(e, ctx, InMemory(a.velocitySnapshot), Recorded(a.screening), (), id);
    CodesHold(WithSignal(ctx, Hard(SigInvalid)).signals);
    CodesHold(Pipeline(e, ctx, InMemory(a.velocitySnapshot), Recorded(a.screening), (), id).ctx.signals);
  }

  // ---- The theorem ----

  ghost predicate Reproduces(env: Envelope, r: Option<Replayed>) {
    r.Some? && r.value.verdict == env.verdict && r.value.reasonCodes == env.reasonCodes
  }

  lemma ReplayWithoutException<S(!new)>(e: Engine, b: Bundle, controls: Controls, now: real, stored: Stored,
                                        p: Provider<S>, s: S, id1: string, id2: string)
    requires !Decide(e, b, controls, now, stored, p, s, id1).raised
    ensures var d := Decide(e, b, controls, now, stored, p, s, id1);
      Reproduces(d.final.envelope, ReplayOf(e, d.final.archive, id2))
  {
    var ctx := FreshCtx(b, controls, now, e.hashSnapshot);
    var a := Decide(e, b, controls, now, stored, p, s, id1).final.archive;
    ArchiveKeeps(e, b, controls, now, stored, p, s, id1);
    if VerifyBundle(e.ring, b) {
      var again := FreshCtx(b, a.controls, now, e.hashSnapshot);
      var live := Pipeline(e, ctx, stored, p, s, id1);
      NeverSkipped(e, b, controls, now, stored, p, s, id1);
      FinalKeeps(live.ctx, live.verdict.value);
      PipelineAgain(e, ctx, stored, p, s, id1, again, id2, live);
    }
  }

  lemma ReplayAfterException<S(!new)>(e: Engine, b: Bundle, controls: Controls, now: real, stored: Stored,
                                      p: Provider<S>, s: S, id1: string, id2: string)
    requires Decide(e, b, controls, now, stored, p, s, id1).raised
    ensures var d := Decide(e, b, controls, now, stored, p, s, id1);
      var r := ReplayOf(e, d.final.archive, id2);
      && d.final.envelope.verdict == Block && FailedClosed in d.final.envelope.reasonCodes
      && (r.Some? ==> r.value.verdict == Block && FailedClosed !in r.value.reasonCodes)
  {
    var ctx := FreshCtx(b, controls, now, e.hashSnapshot);
    var a := Decide(e, b, controls, now, stored, p, s, id1).final.archive;
    var live := Pipeline(e, ctx, stored, p, s, id1);
    ArchiveKeeps(e, b, controls, now, stored, p, s, id1);
    ExceptionBlocks(live.ctx);
    DecideIs(e, b, controls, now, stored, p, s, id1);
    PipelineAgain(e, ctx, stored, p, s, id1, FreshCtx(b, a.controls, now, e.hashSnapshot), id2, live);
    ReplayFree(e, a, id2);
  }

  // Under any provider, failing at any call: a replay that completes gives the
  // same verdict; it gives the same ordered reason codes exactly when no
  // exception interrupted the evaluation; and the world-snapshot hash matches
  // exactly when the control was set beforehand or Feature 2 never ran.
  lemma ReplayReproduces<S(!new)>(e: Engine, b: Bundle, controls: Controls, now: real, stored: Stored, p: Provider<S>,
                                  s: S, id1: string, id2: string)
    requires forall x, y :: e.hashSnapshot(Snapshot(b, now, x)) == e.hashSnapshot(Snapshot(b, now, y)) ==> x == y
    ensures var d := Decide(e, b, controls, now, stored, p, s, id1);
      var r := ReplayOf(e, d.final.archive, id2);
      && (Reproduces(d.final.envelope, r) <==> !d.raised)
      && (r.Some? ==> r.value.verdict == d.final.envelope.verdict)
      && (r.Some? ==> (r.value.worldSnapshotHash == d.final.envelope.worldSnapshotHash
                       <==> controls.pspRanSanctionsScreen || !ScreenRan(e, b)))
  {
    var d := Decide(e, b, controls, now, stored, p, s, id1);
    if d.raised { ReplayAfterException(e, b, controls, now, stored, p, s, id1, id2); }
    else { ReplayWithoutException(e, b, controls, now, stored, p, s, id1, id2); }
    ArchiveKeeps(e, b, controls, now, stored, p, s, id1);
    ReplayHash(e, d.final.archive, id2);
  }

  lemma ReplayHash(e: Engine, a: Archive, id: string)
    ensures ReplayOf(e, a, id).Some? ==>
      ReplayOf(e, a, id).value.worldSnapshotHash == e.hashSnapshot(Snapshot(a.bundle, a.now, a.controls))
  {
    var ctx := FreshCtx(a.bundle, a.controls, a.now, e.hashSnapshot);
    PipelineKeeps(e, ctx.(velocitySnapshot := map[]), InMemory(a.velocitySnapshot), Recorded(a.screening), (), id);
  }
}
