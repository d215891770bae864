// aegis/ap2/disclosure.py: the greedy shrink of the disclosed set, and why it
// ends at a smallest one.
module Minimal {
  import opened Wrappers
  import opened Json
  import opened Disclose
  import opened SdJwt
  import opened Issue
  import opened Selective
  import opened Constraints

  // ---- The shrink, for any test of a subset ----

  // A test of a subset, or None where running it raises.
  type Test = set<string> -> Option<bool>

  // Revealing more never breaks a satisfied test.
  ghost predicate UpwardClosed(test: Test) {
    forall a, b :: a <= b && test(a) == Some(true) ==> test(b) == Some(true)
  }

  function AllOf(candidates: seq<string>): set<string> {
    set d | d in candidates
  }

  // `for d in list(candidates)`, in whatever order the set is listed.
  method Shrink(candidates: seq<string>, test: Test) returns (result: Option<set<string>>)
    ensures result.None? ==> exists s :: s <= AllOf(candidates) && test(s).None?
    ensures test(AllOf(candidates)).None? ==> result.None?
    ensures result.Some? ==> result.value <= AllOf(candidates)
    ensures test(AllOf(candidates)) == Some(false) ==> result == Some(AllOf(candidates))
    ensures test(AllOf(candidates)) == Some(true) && result.Some? ==> test(result.value) == Some(true)
    ensures test(AllOf(candidates)) == Some(true) && result.Some? && UpwardClosed(test) ==>
      forall s :: s < result.value ==> test(s) != Some(true)
  {
    var all := AllOf(candidates);
    var open := test(all);
    if open.None? { return None; }
    if !open.value { return Some(all); }
    var working := all;
    for i := 0 to |candidates|
      invariant working <= all && test(working) == Some(true)
      invariant UpwardClosed(test) ==> Needed(candidates, i, test, working)
    {
      var trial := working - {candidates[i]};
      var ok := test(trial);
      if ok.None? { return None; }
      if UpwardClosed(test) { NeededStep(candidates, i, test, working, ok.value); }
      if ok.value { working := trial; }
    }
    if UpwardClosed(test) {
      forall s | s < working ensures test(s) != Some(true) {
        var d :| d in working && d !in s;
        assert s <= working - {d} && d in all;
      }
    }
    return Some(working);
  }

  // No candidate already tried can be dropped from what is left.
  ghost predicate Needed(candidates: seq<string>, i: nat, test: Test, working: set<string>)
    requires i <= |candidates|
  {
    forall d :: d in working && d !in candidates[i..] ==> test(working - {d}) != Some(true)
  }

  lemma NeededStep(candidates: seq<string>, i: nat, test: Test, working: set<string>, dropped: bool)
    requires i < |candidates| && UpwardClosed(test) && Needed(candidates, i, test, working)
    requires test(working - {candidates[i]}) == Some(dropped)
    ensures Needed(candidates, i + 1, test, if dropped then working - {candidates[i]} else working)
  {
    var next := if dropped then working - {candidates[i]} else working;
    assert candidates[i..] == [candidates[i]] + candidates[i + 1..];
    forall d | d in next && d !in candidates[i + 1..] ensures test(next - {d}) != Some(true) {
      assert next - {d} <= working - {d};
    }
  }

  // ---- The test for an issued open mandate ----

  const MERCHANTS := "allowed_merchants"

  // Digests of the array elements among the disclosures.
  function Candidates(c: Crypto, raws: seq<string>): set<string> {
    set raw | raw in raws && c.codec.parse(raw).Some? && c.codec.parse(raw).value.kind == Element :: c.Hash(raw)
  }

  // The merchants seen when only `keep` is presented.
  function MerchantsSeen(c: Crypto, rq: Request, keep: set<string>): Json
    requires c.Sound()
  {
    match Presented(c, rq, keep)
    case Disclosed(claims, ok) => if claims.Obj? then GetOr(claims.fields, MERCHANTS, Arr([])) else Arr([])
    case TypeError => Null
  }

  // The nested `satisfies`, for one mandate, registry and context.
  function Satisfaction(c: Crypto, rq: Request, reg: Registry, closed: Json, ctx: Ctx): Test
    requires c.Sound()
  {
    keep =>
      if Presented(c, rq, keep).TypeError? then None
      else if !Presented(c, rq, keep).ok then Some(false)
      else
        match Evaluated(reg, closed, ctx.(disclosedMerchants := MerchantsSeen(c, rq, keep)))
        case None => None
        case Some(results) => Some(false !in results)
  }

  ghost predicate Satisfies(c: Crypto, rq: Request, reg: Registry, closed: Json, ctx: Ctx, keep: set<string>)
    requires c.Sound()
  {
    Satisfaction(c, rq, reg, closed, ctx)(keep) == Some(true)
  }

  // An issued mandate with the merchants' array, its elements being merchant ids.
  ghost predicate MerchantMandate(c: Crypto, rq: Request, a: ArrayClaim) {
    && Shuffled(c, rq) && WellPosed(rq) && FreshDecoys(c, rq)
    && a in rq.arrays && a.name == MERCHANTS && forall e :: e in a.elems ==> e.value.Str?
  }

  lemma SeenMerchants(c: Crypto, rq: Request, a: ArrayClaim, keep: set<string>)
    requires c.Sound() && MerchantMandate(c, rq, a)
    ensures MerchantsSeen(c, rq, keep) == Arr(KeptValues(c, a.elems, keep, a.slots))
    ensures Presented(c, rq, keep).Disclosed? && Presented(c, rq, keep).ok
    ensures forall m :: m in KeptValues(c, a.elems, keep, a.slots) ==> m.Str?
  {
    ArraysAsKept(c, rq, keep, a);
    forall m | m in KeptValues(c, a.elems, keep, a.slots) ensures m.Str? {
      KeptValuesExactly(c, rq, a, keep, m);
    }
  }

  // The constraints that do not look at merchants are met.
  ghost predicate OthersPass(closed: Json, ctx: Ctx) {
    && ConstraintsOf(closed).Some?
    && forall k :: k in ConstraintsOf(closed).value && Member(k, "type") != Str(ALLOWED_MERCHANTS) ==>
         CheckOne(DefaultVerifiers(), k, closed, ctx).Pass?
  }

  // A kept element names the payee.
  ghost predicate PayeeKept(c: Crypto, a: ArrayClaim, closed: Json, keep: set<string>) {
    && PayeeMember(closed, "id").Some? && Hashable(PayeeMember(closed, "id").value)
    && exists e :: e in a.elems && ElemDigest(c, e) in keep && e.value == PayeeMember(closed, "id").value
  }

  // What satisfying the default constraints with a kept set comes down to.
  lemma SatisfiesExactly(c: Crypto, rq: Request, a: ArrayClaim, closed: Json, ctx: Ctx, keep: set<string>)
    requires c.Sound() && MerchantMandate(c, rq, a)
    ensures Satisfies(c, rq, DefaultVerifiers(), closed, ctx, keep) <==>
      OthersPass(closed, ctx) && (AsksForMerchant(closed) ==> PayeeKept(c, a, closed, keep))
  {
    SeenMerchants(c, rq, a, keep);
    var ctx' := ctx.(disclosedMerchants := MerchantsSeen(c, rq, keep));
    AllPassMeans(DefaultVerifiers(), closed, ctx');
    NoFalse(DefaultVerifiers(), closed, ctx');
    if ConstraintsOf(closed).Some? {
      var cs := ConstraintsOf(closed).value;
      forall k | k in cs
        ensures CheckOne(DefaultVerifiers(), k, closed, ctx').Pass? <==>
          if Member(k, "type") == Str(ALLOWED_MERCHANTS) then PayeeKept(c, a, closed, keep)
          else CheckOne(DefaultVerifiers(), k, closed, ctx).Pass?
      {
        ShownIsPayeeKept(c, rq, a, closed, keep);
        if Member(k, "type") == Str(ALLOWED_MERCHANTS) {
          CheckOneMerchant(k, closed, ctx');
        } else {
          CheckOneElsewhere(k, closed, ctx, ctx'.disclosedMerchants);
        }
      }
    }
  }

  lemma NoFalse(reg: Registry, closed: Json, ctx: Ctx)
    ensures AllPass(reg, closed, ctx)
      <==> Evaluated(reg, closed, ctx).Some? && false !in Evaluated(reg, closed, ctx).value
  {
  }

  lemma ShownIsPayeeKept(c: Crypto, rq: Request, a: ArrayClaim, closed: Json, keep: set<string>)
    requires c.Sound() && MerchantMandate(c, rq, a)
    ensures MerchantShown(closed, Arr(KeptValues(c, a.elems, keep, a.slots))) <==> PayeeKept(c, a, closed, keep)
  {
    if PayeeMember(closed, "id").Some? {
      KeptValuesExactly(c, rq, a, keep, PayeeMember(closed, "id").value);
    }
  }

  lemma DefaultUpwardClosed(c: Crypto, rq: Request, a: ArrayClaim, closed: Json, ctx: Ctx, small: set<string>,
                            large: set<string>)
    requires c.Sound() && MerchantMandate(c, rq, a) && small <= large
    requires Satisfies(c, rq, DefaultVerifiers(), closed, ctx, small)
    ensures Satisfies(c, rq, DefaultVerifiers(), closed, ctx, large)
  {
    SatisfiesExactly(c, rq, a, closed, ctx, small);
    SatisfiesExactly(c, rq, a, closed, ctx, large);
  }

  lemma CandidatesHold(c: Crypto, rq: Request, a: ArrayClaim, e: Elem)
    requires c.Sound() && a in rq.arrays && e in a.elems
    ensures ElemDigest(c, e) in Candidates(c, Raws(c, rq))
  {
    ArrayRawsMembers(c, rq.arrays);
    assert ElementOf(rq.arrays, e);
    assert ElemRaw(c, e) in ArrayRaws(c, rq.arrays);
    assert ElemRaw(c, e) in Raws(c, rq);
  }

  // `minimal_disclosure_set`, for any registry: the result still satisfies,
  // and if satisfaction is upward closed no proper subset does.
  method MinimalDisclosureSet(c: Crypto, rq: Request, reg: Registry, closed: Json, ctx: Ctx, listing: seq<string>)
    returns (result: Option<set<string>>)
    requires c.Sound() && AllOf(listing) == Candidates(c, Raws(c, rq))
    ensures var all, test := Candidates(c, Raws(c, rq)), Satisfaction(c, rq, reg, closed, ctx);
      && (result.None? ==> exists s :: s <= all && test(s).None?)
      && (test(all).None? ==> result.None?)
      && (result.Some? ==> result.value <= all)
      && (test(all) == Some(false) ==> result == Some(all))
      && (test(all) == Some(true) && result.Some? ==> test(result.value) == Some(true))
      && (test(all) == Some(true) && result.Some? && UpwardClosed(test) ==>
            forall s :: s < result.value ==> test(s) != Some(true))
  {
    result := Shrink(listing, Satisfaction(c, rq, reg, closed, ctx));
  }

  lemma SmallestOf(test: Test, c: Crypto, a: ArrayClaim, closed: Json, asks: bool, working: set<string>)
    requires forall keep :: test(keep) == Some(true) <==> (asks ==> PayeeKept(c, a, closed, keep))
    requires test(working) == Some(true) && forall s :: s < working ==> test(s) != Some(true)
    ensures |working| == if asks then 1 else 0
  {
    var smaller: set<string> := {};
    if asks {
      var e :| e in a.elems && ElemDigest(c, e) in working && e.value == PayeeMember(closed, "id").value;
      smaller := {ElemDigest(c, e)};
      assert PayeeKept(c, a, closed, smaller);
    }
    assert test(smaller) == Some(true);
    assert smaller <= working && !(smaller < working);
    assert working == smaller;
  }

  // With the default registry a set from which nothing can be dropped is the
  // smallest there is: one merchant if a constraint asks for it, none otherwise.
  lemma DefaultSmallest(c: Crypto, rq: Request, a: ArrayClaim, closed: Json, ctx: Ctx, working: set<string>)
    requires c.Sound() && MerchantMandate(c, rq, a)
    requires var test := Satisfaction(c, rq, DefaultVerifiers(), closed, ctx);
      test(working) == Some(true) && forall s :: s < working ==> test(s) != Some(true)
    ensures |working| == if AsksForMerchant(closed) then 1 else 0
  {
    var test := Satisfaction(c, rq, DefaultVerifiers(), closed, ctx);
    SatisfiesExactly(c, rq, a, closed, ctx, working);
    forall keep ensures test(keep) == Some(true) <==> (AsksForMerchant(closed) ==> PayeeKept(c, a, closed, keep)) {
      SatisfiesExactly(c, rq, a, closed, ctx, keep);
    }
    SmallestOf(test, c, a, closed, AsksForMerchant(closed), working);
  }

  // Whether the default verifiers raise does not depend on what is kept.
  lemma DefaultRaisesUniformly(c: Crypto, rq: Request, a: ArrayClaim, closed: Json, ctx: Ctx, k1: set<string>,
                               k2: set<string>)
    requires c.Sound() && MerchantMandate(c, rq, a)
    ensures var test := Satisfaction(c, rq, DefaultVerifiers(), closed, ctx);
      test(k1).None? <==> test(k2).None?
  {
    SeenMerchants(c, rq, a, k1);
    SeenMerchants(c, rq, a, k2);
    var c1 := ctx.(disclosedMerchants := MerchantsSeen(c, rq, k1));
    var c2 := ctx.(disclosedMerchants := MerchantsSeen(c, rq, k2));
    if ConstraintsOf(closed).Some? {
      var cs := ConstraintsOf(closed).value;
      ResultsPass(DefaultVerifiers(), cs, closed, c1);
      ResultsPass(DefaultVerifiers(), cs, closed, c2);
      forall k | k in cs
        ensures CheckOne(DefaultVerifiers(), k, closed, c1).Raise?
          <==> CheckOne(DefaultVerifiers(), k, closed, c2).Raise?
      {
        if Member(k, "type") != Str(ALLOWED_MERCHANTS) {
          CheckOneElsewhere(k, closed, c1, c2.disclosedMerchants);
        } else {
          MerchantRaises(k, closed, c1);
          MerchantRaises(k, closed, c2);
        }
      }
    }
  }

  lemma MerchantRaises(k: Json, closed: Json, ctx: Ctx)
    requires Member(k, "type") == Str(ALLOWED_MERCHANTS)
    requires ctx.disclosedMerchants.Arr? && forall m :: m in ctx.disclosedMerchants.items ==> m.Str?
    ensures CheckOne(DefaultVerifiers(), k, closed, ctx).Raise? <==>
      PayeeMember(closed, "id").None? || !Hashable(PayeeMember(closed, "id").value)
  {
  }

  // The two together, whatever the listing order: the default solver raises
  // exactly where evaluating the whole mandate does, keeps everything where it
  // is not satisfied, and otherwise returns a smallest satisfying set.
  method SolveByDefault(c: Crypto, rq: Request, ghost a: ArrayClaim, closed: Json, ctx: Ctx, listing: seq<string>)
    returns (kept: Option<set<string>>)
    requires c.Sound() && MerchantMandate(c, rq, a) && AllOf(listing) == Candidates(c, Raws(c, rq))
    ensures var all, test := Candidates(c, Raws(c, rq)), Satisfaction(c, rq, DefaultVerifiers(), closed, ctx);
      && (kept.None? <==> test(all).None?)
      && (kept.Some? ==> kept.value <= all && test(kept.value) == test(all))
      && (test(all) == Some(false) ==> kept == Some(all))
      && (test(all) == Some(true) ==> |kept.value| == if AsksForMerchant(closed) then 1 else 0)
  {
    kept := MinimalDisclosureSet(c, rq, DefaultVerifiers(), closed, ctx, listing);
    ghost var all, test := Candidates(c, Raws(c, rq)), Satisfaction(c, rq, DefaultVerifiers(), closed, ctx);
    DefaultUpward(c, rq, a, closed, ctx);
    if kept.None? {
      ghost var s :| test(s).None?;
      DefaultRaisesUniformly(c, rq, a, closed, ctx, s, all);
    } else if test(all) == Some(true) {
      DefaultSmallest(c, rq, a, closed, ctx, kept.value);
    }
  }

  lemma DefaultUpward(c: Crypto, rq: Request, a: ArrayClaim, closed: Json, ctx: Ctx)
    requires c.Sound() && MerchantMandate(c, rq, a)
    ensures UpwardClosed(Satisfaction(c, rq, DefaultVerifiers(), closed, ctx))
  {
    forall small, large | small <= large && Satisfies(c, rq, DefaultVerifiers(), closed, ctx, small)
      ensures Satisfies(c, rq, DefaultVerifiers(), closed, ctx, large)
    {
      DefaultUpwardClosed(c, rq, a, closed, ctx, small, large);
    }
  }

  // No set of disclosures that satisfies the constraints is smaller.
  lemma NothingSmaller(c: Crypto, rq: Request, a: ArrayClaim, closed: Json, ctx: Ctx, keep: set<string>)
    requires c.Sound() && MerchantMandate(c, rq, a) && Satisfies(c, rq, DefaultVerifiers(), closed, ctx, keep)
    ensures |keep| >= if AsksForMerchant(closed) then 1 else 0
  {
    SatisfiesExactly(c, rq, a, closed, ctx, keep);
  }
}
