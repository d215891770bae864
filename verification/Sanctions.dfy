// aegis/pipeline/f2_sanctions.py: screening every name in a bundle, failing
// closed whenever the screen cannot be completed.
module Sanctions {
  import opened Wrappers
  import opened Models
  import opened Screening
  import opened Context
  import opened Ownership

  const MATCH_THRESHOLD := 0.90
  const MAX_LIST_AGE_SECONDS := 604800.0
  const BLOCK_RATIO := 0.50

  // ---- The names to screen ----

  function NamesIn(b: Bundle): seq<Option<string>> {
    [b.cart.merchantLegalName, b.cart.beneficiary.legalName, b.intent.beneficiary.legalName]
  }

  // Names differing only in case are screened once, in their first spelling.
  function Unique(names: seq<Option<string>>, lower: string -> string): seq<string> {
    if names == [] then []
    else
      var front := Unique(names[..|names| - 1], lower);
      var n := names[|names| - 1];
      if Given(n) && lower(n.value) !in Lowered(front, lower) then front + [n.value] else front
  }

  function Lowered(names: seq<string>, lower: string -> string): set<string> {
    set n | n in names :: lower(n)
  }

  function CandidateNames(b: Bundle, lower: string -> string): seq<string> {
    Unique(NamesIn(b), lower)
  }

  method CollectNames(b: Bundle, lower: string -> string) returns (unique: seq<string>)
    ensures unique == CandidateNames(b, lower)
  {
    var names := NamesIn(b);
    var seen: set<string> := {};
    unique := [];
    for i := 0 to |names|
      invariant unique == Unique(names[..i], lower) && seen == Lowered(unique, lower)
    {
      assert names[..i + 1][..i] == names[..i];
      if Given(names[i]) && lower(names[i].value) !in seen {
        seen := seen + {lower(names[i].value)};
        unique := unique + [names[i].value];
      }
    }
    assert names[..|names|] == names;
  }

  // ---- The stage on values ----

  // Whether the stage ran to its end, returned early, or raised.
  datatype Flow = Completed | Returned | Raising

  datatype Out<S> = Out(ctx: Ctx, state: S, flow: Flow)

  const PEP := Signal(PepEdd, Medium, false, 25.0)

  function Interrupted(ctx: Ctx, message: string): Ctx {
    WithSignal(ctx.(screeningError := Some(message)), Hard(ProviderUnavailable))
  }

  datatype Weighed = Weighed(ctx: Ctx, hit: bool)

  // The candidates from the j-th on: PEPs raise risk, the first other match ends it.
  function Weigh(cands: seq<Candidate>, j: nat, ctx: Ctx): Weighed
    requires j <= |cands|
    decreases |cands| - j
  {
    if j == |cands| then Weighed(ctx, false)
    else if cands[j].score < MATCH_THRESHOLD then Weigh(cands, j + 1, ctx)
    else if cands[j].isPep then Weigh(cands, j + 1, WithSignal(ctx, PEP))
    else Weighed(WithSignal(ctx, Hard(SdnHit)), true)
  }

  function ScreenFrom<S>(names: seq<string>, i: nat, ctx: Ctx, p: Provider<S>, s: S): Out<S>
    requires i <= |names|
    decreases |names| - i
  {
    if i == |names| then Out(ctx, s, Completed)
    else
      var r := p.screen(s, names[i]);
      match r.1
      case Failure(_) => Out(ctx, r.0, Raising)
      case Unavailable(message) => Out(Interrupted(ctx, message), r.0, Returned)
      case Got(cands) =>
        var w := Weigh(cands, 0, ctx.(screeningLog := ctx.screeningLog[names[i] := cands]));
        if w.hit then Out(w.ctx, r.0, Returned) else ScreenFrom(names, i + 1, w.ctx, p, r.0)
  }

  predicate Stale(now: real, prov: Provenance) {
    prov.generatedAt.Some? && now - prov.generatedAt.value > MAX_LIST_AGE_SECONDS
  }

  // The sanctioned share of an entity, as the ownership graph computes it.
  ghost predicate IsShare(share: string -> real, graph: OwnershipGraph)
    reads graph
  {
    forall id {:trigger Share(graph.byOwned, graph.sanctioned, id, MAX_EDGES)} ::
      share(id) == Share(graph.byOwned, graph.sanctioned, id, MAX_EDGES)
  }

  // The beneficiary entity, where it is identified by id.
  function BeneficiaryShare(b: Bundle, share: string -> real): real {
    if Given(b.cart.beneficiary.accountRef) then share(b.cart.beneficiary.accountRef.value) else 0.0
  }

  function OwnershipCheck<S>(out: Out<S>, share: string -> real): Out<S> {
    if out.flow == Completed && BeneficiaryShare(out.ctx.bundle, share) >= BLOCK_RATIO
    then Out(WithSignal(out.ctx, Hard(Ofac50Pct)), out.state, Returned)
    else out
  }


  function F2<S>(ctx: Ctx, p: Provider<S>, s: S, share: string -> real, lower: string -> string): Out<S> {
    var r := p.provenance(s);
    match r.1
    case Failure(_) => Out(Flagged(ctx), r.0, Raising)
    case Unavailable(message) => Out(Interrupted(Flagged(ctx), message), r.0, Returned)
    case Got(prov) =>
      AfterProvenance(Flagged(ctx).(screeningProvenance := Some(prov)), prov, p, r.0, share, lower)
  }

  function AfterProvenance<S>(known: Ctx, prov: Provenance, p: Provider<S>, s: S, share: string -> real,
                              lower: string -> string): Out<S>
  {
    if Stale(known.now, prov) then Out(WithSignal(known, Hard(StaleList)), s, Returned)
    else OwnershipCheck(ScreenFrom(CandidateNames(known.bundle, lower), 0, known, p, s), share)
  }

  // The control is marked as met before anything is screened.
  function Flagged(ctx: Ctx): Ctx {
    ctx.(controls := ctx.controls.(pspRanSanctionsScreen := true))
  }

  // ---- The stage on the context object ----

  method Interrupt(ctx: DecisionContext, message: string)
    modifies ctx
    ensures ctx.Value() == Interrupted(old(ctx.Value()), message)
  {
    ctx.screeningError := Some(message);
    ctx.AddSignal(Hard(ProviderUnavailable));
  }

  method WeighAll(ctx: DecisionContext, cands: seq<Candidate>) returns (hit: bool)
    modifies ctx
    ensures Weighed(ctx.Value(), hit) == Weigh(cands, 0, old(ctx.Value()))
  {
    for j := 0 to |cands|
      invariant Weigh(cands, 0, old(ctx.Value())) == Weigh(cands, j, ctx.Value())
    {
      if cands[j].score >= MATCH_THRESHOLD {
        if cands[j].isPep {
          ctx.AddSignal(PEP);
        } else {
          ctx.AddSignal(Hard(SdnHit));
          return true;
        }
      }
    }
    return false;
  }

  method ScreenNames<S>(ctx: DecisionContext, screener: Screener<S>, names: seq<string>) returns (flow: Flow)
    modifies ctx, screener
    ensures Out(ctx.Value(), screener.state, flow)
         == ScreenFrom(names, 0, old(ctx.Value()), screener.provider, old(screener.state))
  {
    for i := 0 to |names|
      invariant ScreenFrom(names, 0, old(ctx.Value()), screener.provider, old(screener.state))
             == ScreenFrom(names, i, ctx.Value(), screener.provider, screener.state)
    {
      var answer := screener.Screen(names[i]);
      match answer {
        case Failure(_) => return Raising;
        case Unavailable(message) =>
          Interrupt(ctx, message);
          return Returned;
        case Got(cands) =>
          ctx.screeningLog := ctx.screeningLog[names[i] := cands];
          var hit := WeighAll(ctx, cands);
          if hit { return Returned; }
      }
    }
    return Completed;
  }

  method Run<S>(ctx: DecisionContext, screener: Screener<S>, graph: OwnershipGraph, lower: string -> string,
                ghost share: string -> real)
    returns (flow: Flow)
    requires IsShare(share, graph)
    modifies ctx, screener
    ensures Out(ctx.Value(), screener.state, flow)
         == F2(old(ctx.Value()), screener.provider, old(screener.state), share, lower)
  {
    ctx.controls := ctx.controls.(pspRanSanctionsScreen := true);
    var answer := screener.ListProvenance();
    if answer.Failure? { return Raising; }
    if answer.Unavailable? {
      Interrupt(ctx, answer.message);
      return Returned;
    }
    ctx.screeningProvenance := Some(answer.value);
    if Stale(ctx.now, answer.value) {
      ctx.AddSignal(Hard(StaleList));
      return Returned;
    }
    var names := CollectNames(ctx.bundle, lower);
    flow := ScreenNames(ctx, screener, names);
    if flow == Completed && Given(ctx.bundle.cart.beneficiary.accountRef) {
      var owned := graph.SanctionedShare(ctx.bundle.cart.beneficiary.accountRef.value);
      if owned >= BLOCK_RATIO {
        ctx.AddSignal(Hard(Ofac50Pct));
        return Returned;
      }
    }
  }
}
