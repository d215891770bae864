// What any run of the sanctions screen keeps and establishes, whatever the
// provider answers.
module ScreenRuns {
  import opened Wrappers
  import opened Models
  import opened Screening
  import opened Context
  import opened Sanctions

  // Weighing writes signals and risk only.
  lemma {:induction false} WeighKeeps(cands: seq<Candidate>, j: nat, c: Ctx)
    requires j <= |cands|
    ensures Weigh(cands, j, c).ctx
      == c.(signals := Weigh(cands, j, c).ctx.signals, riskScore := Weigh(cands, j, c).ctx.riskScore)
    decreases |cands| - j
  {
    if j == |cands| {
    } else {
      if cands[j].score < MATCH_THRESHOLD {
        WeighKeeps(cands, j + 1, c);
      } else if cands[j].isPep {
        WeighKeeps(cands, j + 1, WithSignal(c, PEP));
      }
    }
  }

  // No name from the i-th on has been screened yet, and no name comes twice.
  ghost predicate Ahead(names: seq<string>, i: nat, ctx: Ctx)
    requires i <= |names|
  {
    && (forall k :: i <= k < |names| ==> names[k] !in ctx.screeningLog)
    && (forall k, l :: 0 <= k < l < |names| ==> names[k] != names[l])
  }

  lemma AheadStep(names: seq<string>, i: nat, ctx: Ctx, cands: seq<Candidate>)
    requires i < |names| && Ahead(names, i, ctx)
    ensures var next := ctx.(screeningLog := ctx.screeningLog[names[i] := cands]);
      Ahead(names, i + 1, Weigh(cands, 0, next).ctx)
  {
    WeighKeeps(cands, 0, ctx.(screeningLog := ctx.screeningLog[names[i] := cands]));
  }

  // What is logged stays logged, and the provenance is not touched.
  lemma {:induction false} LogKept<S>(names: seq<string>, i: nat, ctx: Ctx, p: Provider<S>, s: S)
    requires i <= |names| && Ahead(names, i, ctx)
    ensures var out := ScreenFrom(names, i, ctx, p, s).ctx;
      && out.screeningProvenance == ctx.screeningProvenance && out.bundle == ctx.bundle && out.now == ctx.now
      && out.controls == ctx.controls && out.worldSnapshotHash == ctx.worldSnapshotHash
      && out.velocitySnapshot == ctx.velocitySnapshot
      && (forall n :: n in ctx.screeningLog ==> n in out.screeningLog && out.screeningLog[n] == ctx.screeningLog[n])
    decreases |names| - i
  {
    if i == |names| {
    } else {
      var r := p.screen(s, names[i]);
      if r.1.Got? {
        var next := ctx.(screeningLog := ctx.screeningLog[names[i] := r.1.value]);
        WeighKeeps(r.1.value, 0, next);
        AheadStep(names, i, ctx, r.1.value);
        var w := Weigh(r.1.value, 0, next);
        if !w.hit { LogKept(names, i + 1, w.ctx, p, r.0); }
      }
    }
  }

  lemma LastIsHard(ctx: Ctx, code: Code)
    ensures HardBlocked(WithSignal(ctx, Hard(code)).signals)
  {
    assert WithSignal(ctx, Hard(code)).signals[|ctx.signals|] == Hard(code);
  }

  ghost predicate NoSameLower(u: seq<string>, lower: string -> string) {
    forall k, l :: 0 <= k < l < |u| ==> lower(u[k]) != lower(u[l])
  }

  lemma {:induction false} UniqueDistinct(names: seq<Option<string>>, lower: string -> string)
    ensures NoSameLower(Unique(names, lower), lower)
  {
    if names == [] {
    } else {
      var front, u := Unique(names[..|names| - 1], lower), Unique(names, lower);
      UniqueDistinct(names[..|names| - 1], lower);
      forall k, l | 0 <= k < l < |u| ensures lower(u[k]) != lower(u[l]) {
        if l == |front| { assert front[k] in front && lower(front[k]) in Lowered(front, lower); }
      }
    }
  }

  lemma NamesAhead(ctx: Ctx, lower: string -> string)
    requires ctx.screeningLog == map[]
    ensures Ahead(CandidateNames(ctx.bundle, lower), 0, ctx)
  {
    var names := CandidateNames(ctx.bundle, lower);
    UniqueDistinct(NamesIn(ctx.bundle), lower);
    forall k, l | 0 <= k < l < |names| ensures names[k] != names[l] {
      assert NoSameLower(names, lower);
    }
  }

  lemma InterruptedIsHard(ctx: Ctx, message: string)
    ensures HardBlocked(Interrupted(ctx, message).signals)
  {
    LastIsHard(ctx.(screeningError := Some(message)), ProviderUnavailable);
  }

  // ---- A return is a hard block ----

  lemma {:induction false} HitIsHard(cands: seq<Candidate>, j: nat, ctx: Ctx)
    requires j <= |cands| && Weigh(cands, j, ctx).hit
    ensures HardBlocked(Weigh(cands, j, ctx).ctx.signals)
    decreases |cands| - j
  {
    if j == |cands| {
    } else {
      if cands[j].score < MATCH_THRESHOLD {
        HitIsHard(cands, j + 1, ctx);
      } else if cands[j].isPep {
        HitIsHard(cands, j + 1, WithSignal(ctx, PEP));
      } else {
        LastIsHard(ctx, SdnHit);
      }
    }
  }

  lemma {:induction false} ScreenReturnIsHard<S>(names: seq<string>, i: nat, ctx: Ctx, p: Provider<S>, s: S)
    requires i <= |names| && ScreenFrom(names, i, ctx, p, s).flow == Returned
    ensures HardBlocked(ScreenFrom(names, i, ctx, p, s).ctx.signals)
    decreases |names| - i
  {
    if i == |names| {
    } else {
      var r := p.screen(s, names[i]);
      if r.1.Got? {
        var next := ctx.(screeningLog := ctx.screeningLog[names[i] := r.1.value]);
        if Weigh(r.1.value, 0, next).hit { HitIsHard(r.1.value, 0, next); }
        else { ScreenReturnIsHard(names, i + 1, Weigh(r.1.value, 0, next).ctx, p, r.0); }
      } else {
        InterruptedIsHard(ctx, r.1.message);
      }
    }
  }

  // ---- A completed screen has cleared every name ----

  // No candidate at or above the threshold that is not a PEP.
  ghost predicate NoMatch(cands: seq<Candidate>) {
    forall j :: 0 <= j < |cands| && cands[j].score >= MATCH_THRESHOLD ==> cands[j].isPep
  }

  lemma {:induction false} NoHitNoMatch(cands: seq<Candidate>, j: nat, ctx: Ctx)
    requires j <= |cands| && !Weigh(cands, j, ctx).hit
    ensures forall k :: j <= k < |cands| && cands[k].score >= MATCH_THRESHOLD ==> cands[k].isPep
    decreases |cands| - j
  {
    if j == |cands| {
    } else {
      if cands[j].score < MATCH_THRESHOLD {
        NoHitNoMatch(cands, j + 1, ctx);
      } else if cands[j].isPep {
        NoHitNoMatch(cands, j + 1, WithSignal(ctx, PEP));
      }
    }
  }

  // The state in which a provider started in s is asked for the k-th name.
  function StateAt<S>(p: Provider<S>, s: S, names: seq<string>, k: nat): S
    requires k <= |names|
  {
    if k == 0 then s else p.screen(StateAt(p, s, names, k - 1), names[k - 1]).0
  }

  // What it answers at that turn.
  function AnswerAt<S>(p: Provider<S>, s: S, names: seq<string>, k: nat): Answer<seq<Candidate>>
    requires k < |names|
  {
    p.screen(StateAt(p, s, names, k), names[k]).1
  }

  // The k-th name is logged with the answer given at its turn, which holds no match.
  ghost predicate ClearedAt<S>(log: map<string, seq<Candidate>>, p: Provider<S>, s: S, names: seq<string>, k: nat)
    requires k < |names|
  {
    names[k] in log && NoMatch(log[names[k]]) && AnswerAt(p, s, names, k) == Got(log[names[k]])
  }

  lemma {:induction false} CompletedClears<S>(names: seq<string>, i: nat, ctx: Ctx, p: Provider<S>, start: S)
    requires i <= |names| && Ahead(names, i, ctx)
    requires ScreenFrom(names, i, ctx, p, StateAt(p, start, names, i)).flow == Completed
    ensures var log := ScreenFrom(names, i, ctx, p, StateAt(p, start, names, i)).ctx.screeningLog;
      forall k :: i <= k < |names| ==> ClearedAt(log, p, start, names, k)
    decreases |names| - i
  {
    if i == |names| {
    } else {
      var r := p.screen(StateAt(p, start, names, i), names[i]);
      var cands := r.1.value;
      var next := ctx.(screeningLog := ctx.screeningLog[names[i] := cands]);
      var w := Weigh(cands, 0, next);
      WeighKeeps(cands, 0, next);
      NoHitNoMatch(cands, 0, next);
      AheadStep(names, i, ctx, cands);
      LogKept(names, i + 1, w.ctx, p, r.0);
      CompletedClears(names, i + 1, w.ctx, p, start);
    }
  }

  // ---- The stage as a whole ----

  // What it does on a provider that has, or has not, its provenance.
  lemma F2Got<S>(ctx: Ctx, p: Provider<S>, s: S, share: string -> real, lower: string -> string, prov: Provenance)
    requires p.provenance(s).1 == Got(prov)
    ensures F2(ctx, p, s, share, lower)
         == AfterProvenance(Flagged(ctx).(screeningProvenance := Some(prov)), prov, p, p.provenance(s).0, share, lower)
  {
  }

  lemma F2NotGot<S>(ctx: Ctx, p: Provider<S>, s: S, share: string -> real, lower: string -> string)
    requires !p.provenance(s).1.Got?
    ensures F2(ctx, p, s, share, lower) ==
      if p.provenance(s).1.Failure? then Out(Flagged(ctx), p.provenance(s).0, Raising)
      else Out(Interrupted(Flagged(ctx), p.provenance(s).1.message), p.provenance(s).0, Returned)
  {
  }

  lemma F2Returns<S>(ctx: Ctx, p: Provider<S>, s: S, share: string -> real, lower: string -> string)
    requires F2(ctx, p, s, share, lower).flow == Returned
    ensures HardBlocked(F2(ctx, p, s, share, lower).ctx.signals)
  {
    var r := p.provenance(s);
    if r.1.Got? {
      AfterProvenanceReturns(Flagged(ctx).(screeningProvenance := Some(r.1.value)), r.1.value, p, r.0, share, lower);
    } else {
      InterruptedIsHard(Flagged(ctx), r.1.message);
    }
  }

  lemma AfterProvenanceReturns<S>(known: Ctx, prov: Provenance, p: Provider<S>, s: S, share: string -> real,
                                  lower: string -> string)
    requires AfterProvenance(known, prov, p, s, share, lower).flow == Returned
    ensures HardBlocked(AfterProvenance(known, prov, p, s, share, lower).ctx.signals)
  {
    if Stale(known.now, prov) {
      LastIsHard(known, StaleList);
    } else {
      var names := CandidateNames(known.bundle, lower);
      var out := ScreenFrom(names, 0, known, p, s);
      if out.flow == Returned { ScreenReturnIsHard(names, 0, known, p, s); }
      LastIsHard(out.ctx, Ofac50Pct);
    }
  }

  // What stands when the stage has run to its end, screening from state s on.
  ghost predicate Screened<S>(ctx: Ctx, p: Provider<S>, s: S, share: string -> real, lower: string -> string) {
    && ctx.screeningProvenance.Some? && !Stale(ctx.now, ctx.screeningProvenance.value)
    && AllCleared(ctx.screeningLog, p, s, CandidateNames(ctx.bundle, lower))
    && BeneficiaryShare(ctx.bundle, share) < BLOCK_RATIO
  }

  ghost predicate AllCleared<S>(log: map<string, seq<Candidate>>, p: Provider<S>, s: S, names: seq<string>) {
    forall k :: 0 <= k < |names| ==> ClearedAt(log, p, s, names, k)
  }

  // The state after the call for the provenance, where screening starts.
  function Started<S>(p: Provider<S>, s: S): S { p.provenance(s).0 }

  lemma F2Completes<S>(ctx: Ctx, p: Provider<S>, s: S, share: string -> real, lower: string -> string)
    requires ctx.screeningLog == map[] && F2(ctx, p, s, share, lower).flow == Completed
    ensures Screened(F2(ctx, p, s, share, lower).ctx, p, Started(p, s), share, lower)
    ensures p.provenance(s).1 == Got(F2(ctx, p, s, share, lower).ctx.screeningProvenance.value)
  {
    var r := p.provenance(s);
    var known := Flagged(ctx).(screeningProvenance := Some(r.1.value));
    var names := CandidateNames(known.bundle, lower);
    NamesAhead(known, lower);
    LogKept(names, 0, known, p, r.0);
    CompletedClears(names, 0, known, p, r.0);
  }

  // It leaves the bundle, the clock and the snapshot hash alone, and marks its control.
  lemma F2Keeps<S>(ctx: Ctx, p: Provider<S>, s: S, share: string -> real, lower: string -> string)
    requires ctx.screeningLog == map[]
    ensures var out := F2(ctx, p, s, share, lower).ctx;
      && out.bundle == ctx.bundle && out.now == ctx.now && out.worldSnapshotHash == ctx.worldSnapshotHash
      && out.controls == Flagged(ctx).controls && out.velocitySnapshot == ctx.velocitySnapshot
  {
    var r := p.provenance(s);
    if r.1.Got? {
      var known := Flagged(ctx).(screeningProvenance := Some(r.1.value));
      NamesAhead(known, lower);
      LogKept(CandidateNames(known.bundle, lower), 0, known, p, r.0);
    }
  }
}
