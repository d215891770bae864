// Over every provider behaviour and every stage exception: what must have
// happened before anything but BLOCK is returned.
module FailClosed {
  import opened Wrappers
  import opened Models
  import opened Screening
  import opened Context
  import opened Sanctions
  import opened ScreenRuns
  import opened Stages
  import opened Decision

  // What a verdict other than BLOCK rests on, screening from state s on.
  ghost predicate Grounded<S>(e: Engine, ctx: Ctx, p: Provider<S>, s: S) {
    Screened(ctx, p, s, e.share, e.lower) && !HardBlocked(ctx.signals)
  }

  lemma AfterScreeningGrounded<S>(e: Engine, ctx: Ctx, stored: Stored, p: Provider<S>, s: S, challengeId: string)
    requires Screened(ctx, p, s, e.share, e.lower)
    ensures var t := AfterScreening(e, ctx, stored, challengeId);
      t.verdict.Some? && t.verdict != Some(Block) ==> Grounded(e, t.ctx, p, s)
  {
    AfterScreeningKeeps(e, ctx, stored, challengeId);
    AfterScreeningNotHard(e, ctx, stored, challengeId);
    ScreenedStays(ctx, AfterScreening(e, ctx, stored, challengeId).ctx, p, s, e.share, e.lower);
  }

  lemma F2Outcome<S>(e: Engine, ctx: Ctx, p: Provider<S>, s: S)
    requires ctx.screeningLog == map[]
    ensures var o := F2(ctx, p, s, e.share, e.lower);
      && o.ctx.bundle == ctx.bundle && o.ctx.now == ctx.now
      && (o.flow != Raising && !HardBlocked(o.ctx.signals) ==> Screened(o.ctx, p, Started(p, s), e.share, e.lower))
  {
    var o := F2(ctx, p, s, e.share, e.lower);
    F2Keeps(ctx, p, s, e.share, e.lower);
    if o.flow == Returned { F2Returns(ctx, p, s, e.share, e.lower); }
    if o.flow == Completed { F2Completes(ctx, p, s, e.share, e.lower); }
  }

  lemma PastF2Grounded<S>(e: Engine, o: Out<S>, stored: Stored, p: Provider<S>, s: S, challengeId: string)
    requires o.flow != Raising && !HardBlocked(o.ctx.signals) ==> Screened(o.ctx, p, s, e.share, e.lower)
    ensures var r := PastF2(e, o, stored, challengeId);
      && r.ctx.bundle == o.ctx.bundle && r.ctx.now == o.ctx.now
      && (r.verdict.Some? && r.verdict != Some(Block) ==> Grounded(e, r.ctx, p, s))
  {
    AfterScreeningKeeps(e, o.ctx, stored, challengeId);
    if o.flow != Raising && !HardBlocked(o.ctx.signals) {
      AfterScreeningGrounded(e, o.ctx, stored, p, s, challengeId);
    }
  }

  // Nothing but a completed screen leads past Feature 2.
  lemma PipelineScreened<S>(e: Engine, ctx: Ctx, stored: Stored, p: Provider<S>, s: S, challengeId: string)
    requires ctx.screeningLog == map[]
    ensures var o := Pipeline(e, ctx, stored, p, s, challengeId);
      && o.ctx.bundle == ctx.bundle && o.ctx.now == ctx.now
      && (o.verdict.Some? && o.verdict != Some(Block) ==> Grounded(e, o.ctx, p, Started(p, s)))
  {
    F2Outcome(e, F1(ctx), p, s);
    PastF2Grounded(e, F2(F1(ctx), p, s, e.share, e.lower), stored, p, Started(p, s), challengeId);
  }

  lemma ScreenedStays<S>(a: Ctx, b: Ctx, p: Provider<S>, s: S, share: string -> real, lower: string -> string)
    requires Screened(a, p, s, share, lower) && SameEvidence(a, b)
    ensures Screened(b, p, s, share, lower)
  {
  }

  // An exception, from whatever stage and however far it had come, is a BLOCK.
  lemma ExceptionBlocks(ctx: Ctx)
    ensures FinalizedClosed(ctx).envelope.verdict == Block
    ensures FailedClosed in FinalizedClosed(ctx).envelope.reasonCodes
  {
    CodesHold(WithSignal(ctx, Hard(FailedClosed)).signals);
    assert WithSignal(ctx, Hard(FailedClosed)).signals[|ctx.signals|].code == FailedClosed;
  }

  // The reason codes are the codes of the signals, each once.
  lemma {:induction false} CodesHold(signals: seq<Signal>)
    ensures forall code :: code in Codes(signals) <==> exists i :: 0 <= i < |signals| && signals[i].code == code
    ensures forall i, j :: 0 <= i < j < |Codes(signals)| ==> Codes(signals)[i] != Codes(signals)[j]
  {
    if signals == [] {
    } else {
      var front := signals[..|signals| - 1];
      CodesHold(front);
      forall code ensures code in Codes(signals) <==> exists i :: 0 <= i < |signals| && signals[i].code == code {
        if i :| 0 <= i < |front| && front[i].code == code { assert signals[i].code == code; }
        if i :| 0 <= i < |signals| && signals[i].code == code { assert i < |front| ==> front[i].code == code; }
      }
    }
  }

  // ---- The theorem ----

  // Every name in the bundle was screened, under a spelling equal up to case,
  // and the answer the provider gave at its turn held no match other than PEPs.
  ghost predicate NamesCleared<S>(e: Engine, b: Bundle, queries: map<string, seq<Candidate>>, p: Provider<S>, s: S) {
    forall n :: n in NamesIn(b) && Given(n) ==> NameCleared(e, CandidateNames(b, e.lower), n.value, queries, p, s)
  }

  ghost predicate NameCleared<S>(e: Engine, names: seq<string>, name: string, queries: map<string, seq<Candidate>>,
                                 p: Provider<S>, s: S)
  {
    exists k :: 0 <= k < |names| && ClearedAt(queries, p, s, names, k) && names[k] != ""
      && e.lower(names[k]) == e.lower(name)
  }

  lemma {:induction false} UniqueNotEmpty(names: seq<Option<string>>, lower: string -> string)
    ensures "" !in Unique(names, lower)
  {
    if names == [] {
    } else {
      UniqueNotEmpty(names[..|names| - 1], lower);
    }
  }

  lemma {:induction false} EveryNameListed(names: seq<Option<string>>, lower: string -> string, n: Option<string>)
    requires n in names && Given(n)
    ensures exists m :: m in Unique(names, lower) && m != "" && lower(m) == lower(n.value)
  {
    var front, last := names[..|names| - 1], names[|names| - 1];
    if n in front {
      EveryNameListed(front, lower, n);
      var m :| m in Unique(front, lower) && m != "" && lower(m) == lower(n.value);
      assert m in Unique(names, lower);
    } else {
      assert n == last;
      if lower(n.value) !in Lowered(Unique(front, lower), lower) {
        assert n.value in Unique(names, lower);
      } else {
        UniqueNotEmpty(front, lower);
        var m :| m in Unique(front, lower) && m != "" && lower(m) == lower(n.value);
        assert m in Unique(names, lower);
      }
    }
  }

  lemma ScreenedNames<S>(e: Engine, ctx: Ctx, p: Provider<S>, s: S)
    requires Screened(ctx, p, s, e.share, e.lower)
    ensures NamesCleared(e, ctx.bundle, ctx.screeningLog, p, s)
  {
    var names := CandidateNames(ctx.bundle, e.lower);
    forall n | n in NamesIn(ctx.bundle) && Given(n) ensures NameCleared(e, names, n.value, ctx.screeningLog, p, s) {
      EveryNameListed(NamesIn(ctx.bundle), e.lower, n);
      var k :| 0 <= k < |names| && names[k] != "" && e.lower(names[k]) == e.lower(n.value);
      assert ClearedAt(ctx.screeningLog, p, s, names, k);
    }
  }

  // A decision other than BLOCK was made without an exception, on valid
  // signatures, without a hard-block signal, on list data within its freshness
  // bound, with every name cleared by the answer this run got for it, and the
  // ownership share under one half.
  lemma DecisionFailsClosed<S>(e: Engine, b: Bundle, controls: Controls, now: real, stored: Stored, p: Provider<S>,
                                     s: S, challengeId: string)
    ensures var d := Decide(e, b, controls, now, stored, p, s, challengeId);
      d.final.envelope.verdict != Block ==>
        && !d.raised && VerifyBundle(e.ring, b) && !HardBlocked(d.final.envelope.signals)
        && d.final.envelope.screening.Some? && !Stale(now, d.final.envelope.screening.value)
        && NamesCleared(e, b, d.final.archive.screening.queries, p, Started(p, s))
        && BeneficiaryShare(b, e.share) < BLOCK_RATIO
  {
    var d := Decide(e, b, controls, now, stored, p, s, challengeId);
    if d.final.envelope.verdict != Block {
      var ctx := FreshCtx(b, controls, now, e.hashSnapshot);
      PipelineScreened(e, ctx, stored, p, s, challengeId);
      ScreenedNames(e, Pipeline(e, ctx, stored, p, s, challengeId).ctx, p, Started(p, s));
    }
  }

  // So the guard against a skipped screen never fires on this pipeline.
  lemma NeverSkipped<S>(e: Engine, b: Bundle, controls: Controls, now: real, stored: Stored, p: Provider<S>, s: S,
                              challengeId: string)
    ensures var o := Pipeline(e, FreshCtx(b, controls, now, e.hashSnapshot), stored, p, s, challengeId);
      o.verdict.Some? ==> !Skipped(o.ctx, o.verdict.value)
  {
    PipelineScreened(e, FreshCtx(b, controls, now, e.hashSnapshot), stored, p, s, challengeId);
  }
}
