// aegis/pipeline/orchestrator.py, `evaluate`, as one table: what must hold of the
// inputs for anything but BLOCK, how the risk adds up, and the verdict it gives.
// Every figure is written out here again.
module Verdicts {
  import opened Wrappers
  import opened Models
  import opened Screening
  import opened Context
  import opened Sanctions
  import opened ScreenRuns
  import opened Stages
  import opened StepUp
  import opened Decision
  import F = FailClosed
  import St = Structuring
  import V = Velocity

  // ---- The risk is a sum, cut off at 100 ----

  function Total(signals: seq<Signal>): real {
    if signals == [] then 0.0 else Total(signals[..|signals| - 1]) + Max(0.0, signals[|signals| - 1].riskDelta)
  }

  ghost predicate Totalled(c: Ctx) {
    Total(c.signals) >= 0.0 && c.riskScore == Min(100.0, Total(c.signals))
  }

  lemma SignalAdds(c: Ctx, s: Signal)
    requires Totalled(c)
    ensures Totalled(WithSignal(c, s)) && Total(WithSignal(c, s).signals) == Total(c.signals) + Max(0.0, s.riskDelta)
    ensures HardBlocked(WithSignal(c, s).signals) <==> HardBlocked(c.signals) || s.hardBlock
  {
    assert (c.signals + [s])[..|c.signals|] == c.signals;
    HardAfter(c, s);
  }

  // The context of a stage that has blocked nothing so far, at this total.
  ghost predicate At(c: Ctx, b: Bundle, now: real, total: real) {
    Totalled(c) && Total(c.signals) == total && !HardBlocked(c.signals) && c.bundle == b && c.now == now
  }

  // ---- Gate 0 ----

  ghost predicate SignedBy(ring: KeyRing, content: Signed, proof: Option<Proof>, signer: string) {
    && proof.Some? && ring.publicKey(signer).Some?
    && ring.verify(ring.publicKey(signer).value, content, proof.value.signature)
    && (proof.value.verificationMethod == signer || signer + "#" <= proof.value.verificationMethod)
    && '#' !in signer
  }

  ghost predicate AllSigned(ring: KeyRing, b: Bundle) {
    && SignedBy(ring, OfIntent(b.intent.(proof := None)), b.intent.proof, b.intent.signerDid)
    && SignedBy(ring, OfCart(b.cart.(proof := None)), b.cart.proof, b.cart.merchantDid)
    && SignedBy(ring, OfPayment(b.payment.(proof := None)), b.payment.proof, b.payment.initiatorAgent)
  }

  lemma {:induction false} BaseDidIs(url: string, signer: string)
    ensures BaseDid(url) == signer <==> '#' !in signer && (url == signer || signer + "#" <= url)
  {
    if url == "" {
    } else if url[0] == '#' {
      if signer == "" { PrefixHead('#', "", url); } else { PrefixHead(signer[0], signer[1..] + "#", url); }
      assert signer != "" ==> signer + "#" == [signer[0]] + (signer[1..] + "#");
    } else {
      if signer == "" {
        PrefixHead('#', "", url);
      } else {
        BaseDidIs(url[1..], signer[1..]);
        assert signer == [signer[0]] + signer[1..] && url == [url[0]] + url[1..];
        assert signer + "#" == [signer[0]] + (signer[1..] + "#");
        PrefixHead(signer[0], signer[1..] + "#", url);
      }
    }
  }

  lemma PrefixHead(x: char, rest: string, url: string)
    requires url != ""
    ensures [x] + rest <= url <==> x == url[0] && rest <= url[1..]
  {
    assert ([x] + rest)[1..] == rest;
    if x == url[0] && rest <= url[1..] { assert url == [url[0]] + url[1..]; }
    if [x] + rest <= url { assert ([x] + rest)[0] == url[0]; }
  }

  lemma SignedExactly(ring: KeyRing, b: Bundle)
    ensures VerifyBundle(ring, b) <==> AllSigned(ring, b)
  {
    if b.intent.proof.Some? { BaseDidIs(b.intent.proof.value.verificationMethod, b.intent.signerDid); }
    if b.cart.proof.Some? { BaseDidIs(b.cart.proof.value.verificationMethod, b.cart.merchantDid); }
    if b.payment.proof.Some? { BaseDidIs(b.payment.proof.value.verificationMethod, b.payment.initiatorAgent); }
  }

  // ---- Feature 1 ----

  ghost predicate TouchesRestricted(b: Bundle) {
    exists j :: j in b.touched && j.iso in {"IR", "KP", "SY", "CU"}
  }

  // 3000 in the US, and 1000 anywhere else or nowhere.
  ghost predicate TravelRuleApplies(b: Bundle) {
    || (b.touched == [] && b.cart.totalUsd >= 1000.0)
    || (exists j :: j in b.touched && b.cart.totalUsd >= if j.iso == "US" then 3000.0 else 1000.0)
  }

  ghost predicate Attested(b: Bundle) {
    Given(b.intent.originator.legalName) && Given(b.intent.originator.accountRef) && Given(b.cart.beneficiary.legalName)
  }

  ghost predicate LeavesEu(b: Bundle) {
    b.processingRegion != "EU" && exists j :: j in b.touched && j.role == Buyer && j.iso in MemberStates()
  }

  // The 27 member states, and "EU" itself.
  function MemberStates(): set<string> {
    {"AT", "BE", "BG", "CY", "CZ", "DE", "DK", "EE", "ES", "FI", "FR", "GR", "HR", "HU", "IE", "IT", "LT", "LU", "LV",
     "MT", "NL", "PL", "PT", "RO", "SE", "SI", "SK", "EU"}
  }

  lemma MembersAgree()
    ensures EU_ISO == MemberStates()
  {
  }

  lemma F1Exactly(b: Bundle)
    ensures F1Finding(b) == Some(RailIneligible) <==> TouchesRestricted(b)
    ensures F1Finding(b) == Some(TravelRuleMissing) <==>
      !TouchesRestricted(b) && TravelRuleApplies(b) && !Attested(b)
    ensures F1Finding(b) == Some(DataResidencyBreach) <==>
      !TouchesRestricted(b) && (TravelRuleApplies(b) ==> Attested(b)) && LeavesEu(b)
    ensures F1Finding(b).None? <==>
      !TouchesRestricted(b) && (TravelRuleApplies(b) ==> Attested(b)) && !LeavesEu(b)
  {
    StrictestBinds(b.touched, b.cart.totalUsd);
    MembersAgree();
    forall iso ensures TravelRuleThreshold(iso) == if iso == "US" then 3000.0 else 1000.0 {}
    if TravelRuleApplies(b) && b.touched != [] {
      var j :| j in b.touched && b.cart.totalUsd >= if j.iso == "US" then 3000.0 else 1000.0;
      var i :| 0 <= i < |b.touched| && b.touched[i] == j;
      assert b.cart.totalUsd >= TravelRuleThreshold(b.touched[i].iso);
    }
  }

  // ---- Feature 2 ----

  // At or above 0.90 there are only politically exposed persons.
  ghost predicate OnlyPeps(cands: seq<Candidate>) {
    forall c :: c in cands && c.score >= 0.90 ==> c.isPep
  }

  function PepsFrom(cands: seq<Candidate>, j: nat): nat
    requires j <= |cands|
    decreases |cands| - j
  {
    if j == |cands| then 0
    else (if cands[j].score >= 0.90 && cands[j].isPep then 1 else 0) + PepsFrom(cands, j + 1)
  }

  lemma {:induction false} WeighExactly(cands: seq<Candidate>, j: nat, c: Ctx, b: Bundle, now: real, total: real)
    requires j <= |cands| && At(c, b, now, total)
    ensures var w := Weigh(cands, j, c);
      && (w.hit <==> !OnlyPeps(cands[j..]))
      && (!w.hit ==> At(w.ctx, b, now, total + 25.0 * PepsFrom(cands, j) as real))
    decreases |cands| - j
  {
    if j == |cands| {
    } else {
      assert cands[j..] == [cands[j]] + cands[j + 1..];
      assert forall x :: x in cands[j..] <==> x == cands[j] || x in cands[j + 1..];
      if cands[j].score < 0.90 {
        WeighExactly(cands, j + 1, c, b, now, total);
      } else if cands[j].isPep {
        SignalAdds(c, PEP);
        WeighExactly(cands, j + 1, WithSignal(c, PEP), b, now, total + 25.0);
      }
    }
  }

  ghost predicate ClearAnswer(a: Answer<seq<Candidate>>) {
    a.Got? && OnlyPeps(a.value)
  }

  // How many PEPs the answers hold, from the i-th name on.
  function Peps<S>(p: Provider<S>, s: S, names: seq<string>, i: nat): nat
    requires i <= |names|
    decreases |names| - i
  {
    if i == |names| then 0
    else
      (match AnswerAt(p, s, names, i) case Got(cands) => PepsFrom(cands, 0) case _ => 0) + Peps(p, s, names, i + 1)
  }

  lemma {:induction false} ScreenExactly<S>(names: seq<string>, i: nat, c: Ctx, p: Provider<S>, start: S,
                                            b: Bundle, now: real, total: real)
    requires i <= |names| && At(c, b, now, total)
    ensures var out := ScreenFrom(names, i, c, p, StateAt(p, start, names, i));
      && (out.flow == Completed <==> forall k :: i <= k < |names| ==> ClearAnswer(AnswerAt(p, start, names, k)))
      && (out.flow == Completed ==> At(out.ctx, b, now, total + 25.0 * Peps(p, start, names, i) as real))
    decreases |names| - i
  {
    if i == |names| {
    } else {
      var r := AnswerAt(p, start, names, i);
      assert StateAt(p, start, names, i + 1) == p.screen(StateAt(p, start, names, i), names[i]).0;
      if r.Got? {
        var next := c.(screeningLog := c.screeningLog[names[i] := r.value]);
        WeighExactly(r.value, 0, next, b, now, total);
        assert r.value[0..] == r.value;
        if OnlyPeps(r.value) {
          ScreenExactly(names, i + 1, Weigh(r.value, 0, next).ctx, p, start, b, now,
                        total + 25.0 * PepsFrom(r.value, 0) as real);
        }
      }
    }
  }

  ghost predicate AllClear<S>(p: Provider<S>, start: S, names: seq<string>) {
    forall k :: 0 <= k < |names| ==> ClearAnswer(AnswerAt(p, start, names, k))
  }

  // Fresh provenance, every name cleared at its turn, and less than half owned
  // by the sanctioned.
  ghost predicate ScreenClear<S>(e: Engine, b: Bundle, now: real, p: Provider<S>, s: S) {
    var prov, names := p.provenance(s).1, CandidateNames(b, e.lower);
    && prov.Got? && (prov.value.generatedAt.Some? ==> now - prov.value.generatedAt.value <= 604800.0)
    && AllClear(p, Started(p, s), names)
    && (Given(b.cart.beneficiary.accountRef) ==> e.share(b.cart.beneficiary.accountRef.value) < 0.50)
  }

  function PepTotal<S>(e: Engine, b: Bundle, p: Provider<S>, s: S): nat {
    Peps(p, Started(p, s), CandidateNames(b, e.lower), 0)
  }

  lemma F2Exactly<S>(e: Engine, c: Ctx, p: Provider<S>, s: S, total: real)
    requires At(c, c.bundle, c.now, total)
    ensures var out := F2(c, p, s, e.share, e.lower);
      && (out.flow == Completed <==> ScreenClear(e, c.bundle, c.now, p, s))
      && (out.flow == Completed ==> At(out.ctx, c.bundle, c.now, total + 25.0 * PepTotal(e, c.bundle, p, s) as real))
  {
    var r := p.provenance(s);
    if r.1.Got? {
      F2Got(c, p, s, e.share, e.lower, r.1.value);
      NamesExactly(e, Flagged(c).(screeningProvenance := Some(r.1.value)), r.1.value, p, r.0, total);
    } else {
      F2NotGot(c, p, s, e.share, e.lower);
    }
  }

  lemma NamesExactly<S>(e: Engine, c: Ctx, prov: Provenance, p: Provider<S>, start: S, total: real)
    requires At(c, c.bundle, c.now, total)
    ensures var out, names := AfterProvenance(c, prov, p, start, e.share, e.lower), CandidateNames(c.bundle, e.lower);
      && (out.flow == Completed <==>
            && (prov.generatedAt.Some? ==> c.now - prov.generatedAt.value <= 604800.0)
            && AllClear(p, start, names)
            && (Given(c.bundle.cart.beneficiary.accountRef) ==>
                  e.share(c.bundle.cart.beneficiary.accountRef.value) < 0.50))
      && (out.flow == Completed ==> At(out.ctx, c.bundle, c.now, total + 25.0 * Peps(p, start, names, 0) as real))
  {
    ScreenExactly(CandidateNames(c.bundle, e.lower), 0, c, p, start, c.bundle, c.now, total);
    assert StateAt(p, start, CandidateNames(c.bundle, e.lower), 0) == start;
    ScreenKeepsBundle(CandidateNames(c.bundle, e.lower), 0, c, p, start);
  }

  lemma {:induction false} ScreenKeepsBundle<S>(names: seq<string>, i: nat, c: Ctx, p: Provider<S>, s: S)
    requires i <= |names|
    ensures ScreenFrom(names, i, c, p, s).ctx.bundle == c.bundle
    decreases |names| - i
  {
    if i == |names| {
    } else {
      var r := p.screen(s, names[i]);
      if r.1.Got? {
        var next := c.(screeningLog := c.screeningLog[names[i] := r.1.value]);
        WeighKeeps(r.1.value, 0, next);
        if !Weigh(r.1.value, 0, next).hit { ScreenKeepsBundle(names, i + 1, Weigh(r.1.value, 0, next).ctx, p, r.0); }
      }
    }
  }

  // ---- Features 3 and 4 ----

  function Prior(stored: Stored, t: St.Transfer): St.Finding {
    St.Assess(Exchange(stored, t).struct, Exchange(stored, t).vel, t.now, t.amount)
  }

  lemma F3Exactly(c: Ctx, stored: Stored, total: real)
    requires At(c, c.bundle, c.now, total)
    ensures var out := F3(c, stored);
      var f := Prior(stored, TransferOf(c));
      && (HardBlocked(out.signals) <==> f == St.VelocityExceeded)
      && (f != St.VelocityExceeded ==>
            At(out, c.bundle, c.now, total + if f == St.StructuringSuspected then 45.0 else 0.0))
  {
    F3GivenExactly(c, Exchange(stored, TransferOf(c)).struct, Exchange(stored, TransferOf(c)).vel, total);
  }

  lemma F3GivenExactly(c: Ctx, struct: seq<V.Entry>, vel: seq<V.Entry>, total: real)
    requires At(c, c.bundle, c.now, total)
    ensures var out := F3Given(c, struct, vel);
      var f := St.Assess(struct, vel, c.now, c.bundle.cart.totalUsd);
      && (HardBlocked(out.signals) <==> f == St.VelocityExceeded)
      && (f != St.VelocityExceeded ==>
            At(out, c.bundle, c.now, total + if f == St.StructuringSuspected then 45.0 else 0.0))
  {
    var seen := c.(velocitySnapshot := F3Given(c, struct, vel).velocitySnapshot);
    SignalAdds(seen, Hard(VelocityCapExceeded));
    SignalAdds(seen, STRUCTURING);
  }

  // No injection, and no more than the signed cap.
  ghost predicate ContentClear(e: Engine, b: Bundle) {
    && e.embedder.similarity(b.intent.description, b.cart.summary).Some?
    && !e.injected(b.intent.description)
    && (b.intent.maxValueUsd.Some? ==> b.cart.totalUsd <= b.intent.maxValueUsd.value)
  }

  // Less than 0.15 alike.
  ghost predicate Drifted(e: Engine, b: Bundle) {
    var sim := e.embedder.similarity(b.intent.description, b.cart.summary);
    sim.Some? && sim.value < 0.15
  }

  lemma F4Exactly(e: Engine, c: Ctx, total: real)
    requires At(c, c.bundle, c.now, total)
    ensures var r := F4(c, e.embedder, e.injected);
      && (!r.raised && !HardBlocked(r.ctx.signals) <==> ContentClear(e, c.bundle))
      && (ContentClear(e, c.bundle) ==> At(r.ctx, c.bundle, c.now, total + if Drifted(e, c.bundle) then 30.0 else 0.0))
  {
    var seen := c.(modelsUsed := c.modelsUsed[e.embedder.name := e.embedder.version]);
    SignalAdds(seen, Hard(IntentDrift));
    SignalAdds(seen, DRIFT);
  }

  // ---- Feature 5 ----

  ghost predicate AuthorityClear(b: Bundle) {
    b.payment.humanPresent || b.intent.maxValueUsd.Some?
  }

  ghost function Approvers(b: Bundle): set<nat> {
    set i: nat | i < |b.guardians| && b.guardians[i] != b.payment.initiatorAgent
  }

  lemma {:induction false} OthersCount(guardians: seq<string>, initiator: string)
    ensures |Others(guardians, initiator)| == |set i: nat | i < |guardians| && guardians[i] != initiator|
  {
    if guardians == [] {
    } else {
      var n := |guardians| - 1;
      OthersCount(guardians[..n], initiator);
      var before := set i: nat | i < n && guardians[..n][i] != initiator;
      assert (set i: nat | i < |guardians| && guardians[i] != initiator)
          == if guardians[n] != initiator then before + {n} else before;
    }
  }

  // The verdict for a risk: below 40 ALLOW, from 75 on BLOCK, in between a
  // step-up with two approvers, three from the middle on, if so many are listed;
  // 25 and 65 with nobody present.
  ghost function VerdictFor(b: Bundle, risk: real): Verdict {
    var attended := b.payment.humanPresent;
    if risk < (if attended then 40.0 else 25.0) then Allow
    else if risk >= (if attended then 75.0 else 65.0) then Block
    else if |Approvers(b)| >= Signers(b, risk) then Verdict.StepUp
    else Block
  }

  ghost function Signers(b: Bundle, risk: real): nat {
    if risk >= (if b.payment.humanPresent then 57.5 else 45.0) then 3 else 2
  }

  lemma F5Exactly(e: Engine, c: Ctx, id: string, total: real)
    requires At(c, c.bundle, c.now, total)
    ensures var r := F5(c, e.model, e.hashCart, id);
      var b, x := c.bundle, e.model.score(c.bundle);
      && (!AuthorityClear(b) ==> r.verdict == Some(Block) && HardBlocked(r.ctx.signals))
      && (AuthorityClear(b) && x.None? ==> r.verdict.None?)
      && (AuthorityClear(b) && x.Some? ==>
            var risk := Min(100.0, Min(100.0, total + if b.payment.humanPresent then 0.0 else 10.0) + x.value);
            && r.ctx.riskScore == risk && r.verdict == Some(VerdictFor(b, risk)) && !HardBlocked(r.ctx.signals)
            && (r.verdict == Some(Verdict.StepUp) ==> ChallengeFor(e, b, risk, id, r.ctx.stepup)))
  {
    var c1 := c.(modelsUsed := c.modelsUsed[e.model.name := e.model.version]);
    SignalAdds(c1, Hard(UnboundedAuthority));
    SignalAdds(c1, UNATTENDED);
    if AuthorityClear(c.bundle) && e.model.score(c.bundle).Some? {
      SettleExactly(e, if c.bundle.payment.humanPresent then c1 else WithSignal(c1, UNATTENDED),
                    e.model.score(c.bundle).value, id);
    }
  }

  lemma SettleExactly(e: Engine, c: Ctx, x: real, id: string)
    ensures var r, risk := Settle(c, x, e.hashCart, id), Min(100.0, c.riskScore + x);
      && r.ctx.riskScore == risk && r.verdict == Some(VerdictFor(c.bundle, risk)) && r.ctx.signals == c.signals
      && (r.verdict == Some(Verdict.StepUp) ==> ChallengeFor(e, c.bundle, risk, id, r.ctx.stepup))
  {
    OthersCount(c.bundle.guardians, c.bundle.payment.initiatorAgent);
  }

  ghost predicate ChallengeFor(e: Engine, b: Bundle, risk: real, id: string, stepup: Option<Challenge>) {
    stepup == Some(Challenge(id, e.hashCart(b.cart.(proof := None)), Signers(b, risk), b.payment.initiatorAgent,
                             Others(b.guardians, b.payment.initiatorAgent)))
  }

  // ---- The whole decision ----

  function FirstGiven(texts: seq<Option<string>>, otherwise: string): string {
    if texts == [] then otherwise else if Given(texts[0]) then texts[0].value else FirstGiven(texts[1..], otherwise)
  }

  // To the account, wallet, or name of the beneficiary, or else to the merchant.
  function TransferIn(b: Bundle, now: real): St.Transfer {
    var to := b.cart.beneficiary;
    St.Transfer(b.payment.initiatorAgent, FirstGiven([to.accountRef, to.wallet, to.legalName], b.cart.merchantDid),
                b.cart.totalUsd, now)
  }

  lemma TransferIs(c: Ctx)
    ensures TransferOf(c) == TransferIn(c.bundle, c.now)
  {
    var to, m := c.bundle.cart.beneficiary, c.bundle.cart.merchantDid;
    GivenFirst(to.legalName, [], m);
    GivenFirst(to.wallet, [to.legalName] + [], m);
    GivenFirst(to.accountRef, [to.wallet] + ([to.legalName] + []), m);
    assert [to.accountRef, to.wallet, to.legalName] == [to.accountRef] + ([to.wallet] + ([to.legalName] + []));
  }

  lemma GivenFirst(text: Option<string>, rest: seq<Option<string>>, otherwise: string)
    ensures FirstGiven([text] + rest, otherwise) == if Given(text) then text.value else FirstGiven(rest, otherwise)
  {
    assert ([text] + rest)[1..] == rest;
  }

  ghost predicate JurisdictionsClear(b: Bundle) {
    !TouchesRestricted(b) && (TravelRuleApplies(b) ==> Attested(b)) && !LeavesEu(b)
  }

  // What anything but BLOCK takes before the model is asked.
  ghost predicate Clear<S>(e: Engine, b: Bundle, now: real, stored: Stored, p: Provider<S>, s: S) {
    && AllSigned(e.ring, b) && JurisdictionsClear(b) && ScreenClear(e, b, now, p, s)
    && Prior(stored, TransferIn(b, now)) != St.VelocityExceeded && ContentClear(e, b) && AuthorityClear(b)
  }

  // 25 for each PEP, 45 for structuring, 30 for drift, 10 with nobody present.
  ghost function Accumulated<S>(e: Engine, b: Bundle, now: real, stored: Stored, p: Provider<S>, s: S): real {
    25.0 * PepTotal(e, b, p, s) as real + AfterScreen(e, b, now, stored)
  }

  ghost function AfterScreen(e: Engine, b: Bundle, now: real, stored: Stored): real {
    (if Prior(stored, TransferIn(b, now)) == St.StructuringSuspected then 45.0 else 0.0)
    + (if Drifted(e, b) then 30.0 else 0.0)
    + (if b.payment.humanPresent then 0.0 else 10.0)
  }

  lemma PastF2Exactly<S>(e: Engine, o: Out<S>, stored: Stored, id: string, total: real)
    requires o.flow == Completed && At(o.ctx, o.ctx.bundle, o.ctx.now, total)
    ensures var r, b := PastF2(e, o, stored, id), o.ctx.bundle;
      var f := Prior(stored, TransferIn(b, o.ctx.now));
      && (f == St.VelocityExceeded ==> r.verdict == Some(Block))
      && (f != St.VelocityExceeded ==>
            Judged(e, b, total + AfterScreen(e, b, o.ctx.now, stored), id, r.ctx, r.verdict))
  {
    TransferIs(o.ctx);
    F3Exactly(o.ctx, stored, total);
    var c := F3(o.ctx, stored);
    F3Keeps(o.ctx, stored);
    if Prior(stored, TransferOf(o.ctx)) != St.VelocityExceeded {
      var more := total + if Prior(stored, TransferOf(o.ctx)) == St.StructuringSuspected then 45.0 else 0.0;
      JudgeExactly(e, c, id, more);
    }
  }

  // The last two stages at this total, the ten for nobody present included.
  ghost predicate Judged(e: Engine, b: Bundle, sum: real, id: string, c: Ctx, verdict: Option<Verdict>) {
    var x := e.model.score(b);
    && (ContentClear(e, b) && AuthorityClear(b) && x.Some? ==>
          var risk := Min(100.0, Min(100.0, sum) + x.value);
          && c.riskScore == risk && verdict == Some(VerdictFor(b, risk)) && !HardBlocked(c.signals)
          && (verdict == Some(Verdict.StepUp) ==> ChallengeFor(e, b, risk, id, c.stepup)))
    && (!ContentClear(e, b) || !AuthorityClear(b) ==> verdict.None? || verdict == Some(Block))
    && (ContentClear(e, b) && AuthorityClear(b) && x.None? ==> verdict.None?)
  }

  lemma JudgeExactly(e: Engine, c: Ctx, id: string, total: real)
    requires At(c, c.bundle, c.now, total)
    ensures var r, b := Judge(e, c, id), c.bundle;
      var sum := total + (if Drifted(e, b) then 30.0 else 0.0) + (if b.payment.humanPresent then 0.0 else 10.0);
      Judged(e, b, sum, id, r.ctx, r.verdict)
  {
    F4Exactly(e, c, total);
    F4Keeps(c, e.embedder, e.injected);
    if ContentClear(e, c.bundle) {
      F5Exactly(e, F4(c, e.embedder, e.injected).ctx, id, total + if Drifted(e, c.bundle) then 30.0 else 0.0);
    }
  }

  // The outcome of the pipeline on a fresh context.
  ghost predicate Table<S>(e: Engine, b: Bundle, now: real, stored: Stored, p: Provider<S>, s: S, id: string,
                           c: Ctx, verdict: Option<Verdict>)
  {
    var x := e.model.score(b);
    && (!Clear(e, b, now, stored, p, s) ==> verdict.None? || verdict == Some(Block))
    && (Clear(e, b, now, stored, p, s) && x.None? ==> verdict.None?)
    && (Clear(e, b, now, stored, p, s) && x.Some? ==>
          var risk := Min(100.0, Min(100.0, Accumulated(e, b, now, stored, p, s)) + x.value);
          && c.riskScore == risk && verdict == Some(VerdictFor(b, risk))
          && (verdict == Some(Verdict.StepUp) ==> ChallengeFor(e, b, risk, id, c.stepup)))
  }

  lemma PipelineExactly<S>(e: Engine, c: Ctx, stored: Stored, p: Provider<S>, s: S, id: string)
    requires At(c, c.bundle, c.now, 0.0) && c.screeningLog == map[] && AllSigned(e.ring, c.bundle)
    ensures var o := Pipeline(e, c, stored, p, s, id);
      Table(e, c.bundle, c.now, stored, p, s, id, o.ctx, o.verdict)
  {
    F1Exactly(c.bundle);
    if F1Finding(c.bundle).Some? {
      SignalAdds(c, Hard(F1Finding(c.bundle).value));
    } else {
      ScreenedExactly(e, c, stored, p, s, id);
    }
  }

  lemma ScreenedExactly<S>(e: Engine, c: Ctx, stored: Stored, p: Provider<S>, s: S, id: string)
    requires At(c, c.bundle, c.now, 0.0) && c.screeningLog == map[]
    requires AllSigned(e.ring, c.bundle) && JurisdictionsClear(c.bundle)
    ensures var o := PastF2(e, F2(c, p, s, e.share, e.lower), stored, id);
      Table(e, c.bundle, c.now, stored, p, s, id, o.ctx, o.verdict)
  {
    F2Exactly(e, c, p, s, 0.0);
    var o := F2(c, p, s, e.share, e.lower);
    if o.flow == Completed {
      var r := PastF2(e, o, stored, id);
      CompletedExactly(e, o, stored, p, s, id, c.bundle, c.now, r.ctx, r.verdict,
                       25.0 * PepTotal(e, c.bundle, p, s) as real);
    } else if o.flow == Returned {
      F2Returns(c, p, s, e.share, e.lower);
    }
  }

  lemma CompletedExactly<S>(e: Engine, o: Out<S>, stored: Stored, p: Provider<S>, s: S, id: string, b: Bundle,
                            now: real, c: Ctx, verdict: Option<Verdict>, total: real)
    requires AllSigned(e.ring, b) && JurisdictionsClear(b) && ScreenClear(e, b, now, p, s) && o.flow == Completed
    requires total == 25.0 * PepTotal(e, b, p, s) as real && At(o.ctx, b, now, total)
    requires c == PastF2(e, o, stored, id).ctx && verdict == PastF2(e, o, stored, id).verdict
    ensures Table(e, b, now, stored, p, s, id, c, verdict)
  {
    PastF2Exactly(e, o, stored, id, total);
    assert Accumulated(e, b, now, stored, p, s) == total + AfterScreen(e, b, now, stored);
    TableFrom(e, b, now, stored, p, s, id, c, verdict);
  }

  lemma TableFrom<S>(e: Engine, b: Bundle, now: real, stored: Stored, p: Provider<S>, s: S, id: string, c: Ctx,
                     verdict: Option<Verdict>)
    requires AllSigned(e.ring, b) && JurisdictionsClear(b) && ScreenClear(e, b, now, p, s)
    requires Prior(stored, TransferIn(b, now)) == St.VelocityExceeded ==> verdict == Some(Block)
    requires Prior(stored, TransferIn(b, now)) != St.VelocityExceeded ==>
      Judged(e, b, Accumulated(e, b, now, stored, p, s), id, c, verdict)
    ensures Table(e, b, now, stored, p, s, id, c, verdict)
  {
  }

  // Over every provider and every store, the verdict is this table: BLOCK where
  // a condition fails, a stage raises, or the model does; and otherwise what the
  // accumulated risk plus the score of the model comes to.
  lemma DecidedExactly<S>(e: Engine, b: Bundle, controls: Controls, now: real, stored: Stored, p: Provider<S>, s: S,
                          id: string)
    ensures var d, x := Decide(e, b, controls, now, stored, p, s, id), e.model.score(b);
      var risk := Min(100.0, Min(100.0, Accumulated(e, b, now, stored, p, s)) + if x.Some? then x.value else 0.0);
      && (d.final.envelope.verdict != Block ==> Clear(e, b, now, stored, p, s) && x.Some?)
      && (Clear(e, b, now, stored, p, s) && x.Some? ==>
            && d.final.envelope.verdict == VerdictFor(b, risk) && d.final.envelope.riskScore == risk
            && (VerdictFor(b, risk) == Verdict.StepUp ==> ChallengeFor(e, b, risk, id, d.final.envelope.stepup)))
  {
    SignedExactly(e.ring, b);
    if AllSigned(e.ring, b) {
      var o := Pipeline(e, FreshCtx(b, controls, now, e.hashSnapshot), stored, p, s, id);
      PipelineExactly(e, FreshCtx(b, controls, now, e.hashSnapshot), stored, p, s, id);
      F.NeverSkipped(e, b, controls, now, stored, p, s, id);
      FinalIs(o.ctx, o.verdict);
      TableDecides(e, b, now, stored, p, s, id, o.ctx, o.verdict, Concluded(o.ctx, o.verdict).envelope);
    }
  }

  lemma TableDecides<S>(e: Engine, b: Bundle, now: real, stored: Stored, p: Provider<S>, s: S, id: string, c: Ctx,
                        verdict: Option<Verdict>, env: Envelope)
    requires Table(e, b, now, stored, p, s, id, c, verdict)
    requires env.verdict == (if verdict.None? then Block else verdict.value)
    requires verdict.Some? ==> env.riskScore == c.riskScore && env.stepup == c.stepup
    ensures var x := e.model.score(b);
      var risk := Min(100.0, Min(100.0, Accumulated(e, b, now, stored, p, s)) + if x.Some? then x.value else 0.0);
      && (env.verdict != Block ==> Clear(e, b, now, stored, p, s) && x.Some?)
      && (Clear(e, b, now, stored, p, s) && x.Some? ==>
            && env.verdict == VerdictFor(b, risk) && env.riskScore == risk
            && (VerdictFor(b, risk) == Verdict.StepUp ==> ChallengeFor(e, b, risk, id, env.stepup)))
  {
  }

  lemma FinalIs(c: Ctx, verdict: Option<Verdict>)
    requires verdict.Some? ==> !Skipped(c, verdict.value)
    ensures var env := Concluded(c, verdict).envelope;
      && env.verdict == (if verdict.None? then Block else verdict.value)
      && (verdict.Some? ==> env.riskScore == c.riskScore && env.stepup == c.stepup)
  {
  }

  // So, with a score of at least zero: ALLOW means a score under 40, anything
  // but BLOCK one under 75; 25 and 65 with nobody present; and the risk on the
  // envelope is no less than the score, up to 100.
  lemma ScoreBinds<S>(e: Engine, b: Bundle, controls: Controls, now: real, stored: Stored, p: Provider<S>, s: S,
                      id: string, x: real)
    requires e.model.score(b) == Some(x) && x >= 0.0
    ensures var env := Decide(e, b, controls, now, stored, p, s, id).final.envelope;
      && (env.verdict == Allow ==> x < if b.payment.humanPresent then 40.0 else 25.0)
      && (env.verdict != Block ==> x < if b.payment.humanPresent then 75.0 else 65.0)
      && (env.verdict != Block ==> env.riskScore >= Min(100.0, x))
  {
    DecidedExactly(e, b, controls, now, stored, p, s, id);
    BandsBind(b, Accumulated(e, b, now, stored, p, s), x);
  }

  lemma BandsBind(b: Bundle, sum: real, x: real)
    requires sum >= 0.0 && x >= 0.0
    ensures var risk := Min(100.0, Min(100.0, sum) + x);
      && risk >= Min(100.0, x)
      && (VerdictFor(b, risk) == Allow ==> x < if b.payment.humanPresent then 40.0 else 25.0)
      && (VerdictFor(b, risk) != Block ==> x < if b.payment.humanPresent then 75.0 else 65.0)
  {
  }
}
