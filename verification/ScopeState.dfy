// The state machine of aegis/ap2/scope_ledger.py on values, and what holds
// over every run of it.
module ScopeState {
  import opened Wrappers

  datatype Scope = Scope(
    mandateId: string,
    remainingCount: int,
    remainingValue: real,
    consumed: set<string>,
    outstanding: set<string>)

  datatype Error = DoubleSpend | ScopeExceeded | ReceiptInvalid

  datatype Receipt = Receipt(reference: string, result: string, amount: real, rawJwt: string)

  const TOLERANCE := 0.000000001

  function Fresh(mandateId: string, count: int, value: real): Scope {
    Scope(mandateId, count, value, {}, {})
  }

  // Why a reservation is refused, if it is.
  function Refusal(s: Scope, hash: string, amount: real): Option<Error> {
    if hash in s.consumed then Some(DoubleSpend)
    else if s.outstanding != {} && hash !in s.outstanding then Some(DoubleSpend)
    else if hash in s.outstanding then Some(DoubleSpend)
    else if s.remainingCount < 1 then Some(ScopeExceeded)
    else if amount > s.remainingValue + TOLERANCE then Some(ScopeExceeded)
    else None
  }

  function Reserve(s: Scope, hash: string, amount: real): Scope {
    if Refusal(s, hash, amount).None? then s.(outstanding := s.outstanding + {hash}) else s
  }

  function Genuine(r: Receipt, signed: string -> bool): bool {
    r.rawJwt != "" && signed(r.rawJwt)
  }

  // A success counts once per hash; any other result only releases the hash.
  function Settle(s: Scope, r: Receipt): Scope {
    var s' := s.(outstanding := s.outstanding - {r.reference});
    if r.result == "success" && r.reference !in s.consumed
    then s'.(consumed := s.consumed + {r.reference},
             remainingCount := s.remainingCount - 1,
             remainingValue := s.remainingValue - r.amount)
    else s'
  }

  // ---- Runs ----

  datatype Event = TryReserve(hash: string, amount: real) | Receive(receipt: Receipt)

  function Step(s: Scope, e: Event, signed: string -> bool): Scope {
    match e
    case TryReserve(hash, amount) => Reserve(s, hash, amount)
    case Receive(r) => if Genuine(r, signed) then Settle(s, r) else s
  }

  // The exception an event raises, if any.
  function Outcome(s: Scope, e: Event, signed: string -> bool): Option<Error> {
    match e
    case TryReserve(hash, amount) => Refusal(s, hash, amount)
    case Receive(r) => if Genuine(r, signed) then None else Some(ReceiptInvalid)
  }

  function Run(s: Scope, es: seq<Event>, signed: string -> bool): Scope {
    if es == [] then s else Step(Run(s, es[..|es| - 1], signed), es[|es| - 1], signed)
  }

  // The outcome of every event of a run, in order.
  function Outcomes(s: Scope, es: seq<Event>, signed: string -> bool): seq<Option<Error>> {
    if es == [] then []
    else
      var front := es[..|es| - 1];
      Outcomes(s, front, signed) + [Outcome(Run(s, front, signed), es[|es| - 1], signed)]
  }

  lemma {:induction false} OutcomeAt(s: Scope, es: seq<Event>, signed: string -> bool, i: nat)
    requires i < |es|
    ensures |Outcomes(s, es, signed)| == |es|
    ensures Outcomes(s, es, signed)[i] == Outcome(Run(s, es[..i], signed), es[i], signed)
  {
    var front := es[..|es| - 1];
    OutcomesLength(s, front, signed);
    if i == |front| {
    } else {
      OutcomeAt(s, front, signed, i);
      assert front[..i] == es[..i];
    }
  }

  lemma {:induction false} OutcomesLength(s: Scope, es: seq<Event>, signed: string -> bool)
    ensures |Outcomes(s, es, signed)| == |es|
  {
    if es == [] {
    } else {
      OutcomesLength(s, es[..|es| - 1], signed);
    }
  }

  // The event is the first genuine success receipt for its hash.
  predicate Pays(s: Scope, e: Event, signed: string -> bool) {
    e.Receive? && Genuine(e.receipt, signed) && e.receipt.result == "success" && e.receipt.reference !in s.consumed
  }

  // Total paid out by a run: the amounts of first success receipts.
  function Spent(s: Scope, es: seq<Event>, signed: string -> bool): real {
    if es == [] then 0.0
    else
      var before := es[..|es| - 1];
      var last := es[|es| - 1];
      Spent(s, before, signed) + if Pays(Run(s, before, signed), last, signed) then last.receipt.amount else 0.0
  }

  ghost predicate Accounted(s0: Scope, s: Scope, spent: real) {
    && |s.outstanding| <= 1
    && s.outstanding !! s.consumed
    && s0.consumed <= s.consumed
    && s.remainingCount == s0.remainingCount - |s.consumed - s0.consumed|
    && s.remainingValue == s0.remainingValue - spent
    && s.mandateId == s0.mandateId
  }

  lemma ReserveAccounted(s0: Scope, s: Scope, hash: string, amount: real, spent: real)
    requires Accounted(s0, s, spent)
    ensures Accounted(s0, Reserve(s, hash, amount), spent)
  {
    if Refusal(s, hash, amount).None? { assert s.outstanding + {hash} == {hash}; }
  }

  lemma SettleAccounted(s0: Scope, s: Scope, r: Receipt, spent: real)
    requires Accounted(s0, s, spent)
    ensures Accounted(s0, Settle(s, r),
      spent + if r.result == "success" && r.reference !in s.consumed then r.amount else 0.0)
    ensures s.consumed <= Settle(s, r).consumed
  {
    var released := s.outstanding - {r.reference};
    assert released == s.outstanding || |released| == |s.outstanding| - 1;
    if r.result == "success" && r.reference !in s.consumed {
      assert (s.consumed + {r.reference}) - s0.consumed == (s.consumed - s0.consumed) + {r.reference};
    }
  }

  lemma StepAccounted(s0: Scope, s: Scope, e: Event, signed: string -> bool, spent: real)
    requires Accounted(s0, s, spent)
    ensures Accounted(s0, Step(s, e, signed), spent + if Pays(s, e, signed) then e.receipt.amount else 0.0)
    ensures s.consumed <= Step(s, e, signed).consumed
  {
    match e
    case TryReserve(hash, amount) => ReserveAccounted(s0, s, hash, amount, spent);
    case Receive(r) => SettleAccounted(s0, s, r, spent);
  }

  // Over every run: at most one open reservation, never on a settled hash;
  // settled hashes are never forgotten; count and value are what was granted
  // less one, and less its amount, per settled hash.
  lemma {:induction false} RunAccounted(s0: Scope, es: seq<Event>, signed: string -> bool)
    requires s0.outstanding == {}
    ensures Accounted(s0, Run(s0, es, signed), Spent(s0, es, signed))
    ensures forall k: nat :: k <= |es| ==> Run(s0, es[..k], signed).consumed <= Run(s0, es, signed).consumed
  {
    if es == [] {
      assert s0.consumed - s0.consumed == {};
      assert forall k: nat :: k <= |es| ==> es[..k] == es;
    } else {
      var front := es[..|es| - 1];
      RunAccounted(s0, front, signed);
      StepAccounted(s0, Run(s0, front, signed), es[|es| - 1], signed, Spent(s0, front, signed));
      forall k: nat | k <= |es| ensures Run(s0, es[..k], signed).consumed <= Run(s0, es, signed).consumed {
        if k == |es| { assert es[..k] == es; } else { assert es[..k] == front[..k]; }
      }
    }
  }

  // A settled hash is refused ever after, whatever happens in between.
  lemma SettledNeverReserved(s0: Scope, es: seq<Event>, k: nat, signed: string -> bool, hash: string, amount: real)
    requires s0.outstanding == {} && k <= |es| && hash in Run(s0, es[..k], signed).consumed
    ensures Refusal(Run(s0, es, signed), hash, amount) == Some(DoubleSpend)
  {
    RunAccounted(s0, es, signed);
  }

  // ---- Spending within the grant ----

  // The amount under which the open reservation was made.
  function Pending(s: Scope, es: seq<Event>, signed: string -> bool): real {
    if es == [] then 0.0
    else
      var before := es[..|es| - 1];
      var last := es[|es| - 1];
      if last.TryReserve? && Refusal(Run(s, before, signed), last.hash, last.amount).None?
      then last.amount else Pending(s, before, signed)
  }

  // A receipt that pays names the open reservation and pays at most what was reserved.
  ghost predicate PaysReserved(s: Scope, before: seq<Event>, e: Event, signed: string -> bool) {
    Pays(Run(s, before, signed), e, signed) ==>
      && e.receipt.reference in Run(s, before, signed).outstanding
      && e.receipt.amount <= Pending(s, before, signed)
  }

  ghost predicate Disciplined(s: Scope, es: seq<Event>, signed: string -> bool) {
    forall k :: 0 <= k < |es| ==> PaysReserved(s, es[..k], es[k], signed)
  }

  // An open reservation still fits what remains.
  ghost predicate Covered(s: Scope, pending: real) {
    && s.remainingCount >= 0 && s.remainingValue >= -TOLERANCE
    && (s.outstanding != {} ==> s.remainingCount >= 1 && pending <= s.remainingValue + TOLERANCE)
  }

  lemma {:induction false} DisciplinedCovered(s0: Scope, es: seq<Event>, signed: string -> bool)
    requires s0.outstanding == {} && s0.remainingCount >= 0 && s0.remainingValue >= 0.0
    requires Disciplined(s0, es, signed)
    ensures Covered(Run(s0, es, signed), Pending(s0, es, signed))
  {
    if es == [] {
    } else {
      var front, last := es[..|es| - 1], es[|es| - 1];
      forall k | 0 <= k < |front| ensures PaysReserved(s0, front[..k], front[k], signed) {
        assert front[..k] == es[..k] && front[k] == es[k];
        assert PaysReserved(s0, es[..k], es[k], signed);
      }
      DisciplinedCovered(s0, front, signed);
      RunAccounted(s0, front, signed);
      assert PaysReserved(s0, es[..|front|], es[|front|], signed);
      CoveredStep(Run(s0, front, signed), last, signed, Pending(s0, front, signed), Pending(s0, es, signed));
    }
  }

  lemma CoveredStep(s: Scope, e: Event, signed: string -> bool, pending: real, pending': real)
    requires Covered(s, pending) && |s.outstanding| <= 1
    requires Pays(s, e, signed) ==> e.receipt.reference in s.outstanding && e.receipt.amount <= pending
    requires pending' == if e.TryReserve? && Refusal(s, e.hash, e.amount).None? then e.amount else pending
    ensures Covered(Step(s, e, signed), pending')
  {
    if Pays(s, e, signed) { OnlyOne(s.outstanding, e.receipt.reference); }
  }

  lemma OnlyOne(hashes: set<string>, hash: string)
    requires |hashes| <= 1 && hash in hashes
    ensures hashes == {hash}
  {
    assert |hashes - {hash}| == 0;
  }

  // Then the grant is never overdrawn, and the rounding slack is granted once,
  // not once per transaction.
  lemma SpendWithinGrant(s0: Scope, es: seq<Event>, signed: string -> bool)
    requires s0.outstanding == {} && s0.remainingCount >= 0 && s0.remainingValue >= 0.0
    requires Disciplined(s0, es, signed)
    ensures Run(s0, es, signed).remainingCount >= 0
    ensures Spent(s0, es, signed) <= s0.remainingValue + TOLERANCE
  {
    RunAccounted(s0, es, signed);
    DisciplinedCovered(s0, es, signed);
  }

  // ---- Exactly when the grant holds ----

  // Nothing is overdrawn.
  predicate Solvent(s: Scope) {
    s.remainingCount >= 0 && s.remainingValue >= -TOLERANCE
  }

  // What a caller can read off the scope before handing in a receipt.
  predicate Affords(s: Scope, r: Receipt) {
    s.remainingCount >= 1 && r.amount <= s.remainingValue + TOLERANCE
  }

  predicate AffordsStep(s: Scope, e: Event, signed: string -> bool) {
    Pays(s, e, signed) ==> Affords(s, e.receipt)
  }

  lemma SolventStep(s: Scope, e: Event, signed: string -> bool)
    requires Solvent(s)
    ensures Solvent(Step(s, e, signed)) <==> AffordsStep(s, e, signed)
  {
  }

  ghost predicate SolventThroughout(s0: Scope, es: seq<Event>, signed: string -> bool) {
    forall k: nat :: k <= |es| ==> Solvent(Run(s0, es[..k], signed))
  }

  ghost predicate AffordsThroughout(s0: Scope, es: seq<Event>, signed: string -> bool) {
    forall k: nat :: k < |es| ==> AffordsStep(Run(s0, es[..k], signed), es[k], signed)
  }

  lemma SolventSnoc(s0: Scope, front: seq<Event>, e: Event, signed: string -> bool)
    ensures SolventThroughout(s0, front + [e], signed)
       <==> SolventThroughout(s0, front, signed) && Solvent(Run(s0, front + [e], signed))
  {
    var es := front + [e];
    assert es[..|es|] == es;
    assert forall k: nat :: k <= |front| ==> es[..k] == front[..k];
  }

  lemma AffordsSnoc(s0: Scope, front: seq<Event>, e: Event, signed: string -> bool)
    ensures AffordsThroughout(s0, front + [e], signed)
       <==> AffordsThroughout(s0, front, signed) && AffordsStep(Run(s0, front, signed), e, signed)
  {
    var es := front + [e];
    assert es[..|front|] == front && es[|front|] == e;
    assert forall k: nat :: k < |front| ==> es[..k] == front[..k] && es[k] == front[k];
  }

  // Started solvent, a scope is solvent after every event of a run exactly if
  // every receipt that pays is affordable when it arrives.
  lemma {:induction false} SolventExactly(s0: Scope, es: seq<Event>, signed: string -> bool)
    requires Solvent(s0)
    ensures SolventThroughout(s0, es, signed) <==> AffordsThroughout(s0, es, signed)
  {
    if es == [] {
      assert forall k: nat :: k <= |es| ==> es[..k] == [];
    } else {
      var front, e := es[..|es| - 1], es[|es| - 1];
      assert es == front + [e] && front[..|front|] == front;
      SolventExactly(s0, front, signed);
      SolventSnoc(s0, front, e, signed);
      AffordsSnoc(s0, front, e, signed);
      if Solvent(Run(s0, front, signed)) { SolventStep(Run(s0, front, signed), e, signed); }
    }
  }

  // In terms of what was granted: no more first successes than the count, and
  // no more spent than the value and one tolerance.
  lemma SolventIsWithinGrant(s0: Scope, es: seq<Event>, signed: string -> bool)
    requires s0.outstanding == {}
    ensures Solvent(Run(s0, es, signed)) <==>
      && |Run(s0, es, signed).consumed - s0.consumed| <= s0.remainingCount
      && Spent(s0, es, signed) <= s0.remainingValue + TOLERANCE
  {
    RunAccounted(s0, es, signed);
  }

  // Without a reservation behind it, a genuine success receipt overdraws:
  // the ledger itself never asks for one.
  lemma UnreservedReceiptOverdraws(signed: string -> bool, jwt: string)
    requires jwt != "" && signed(jwt)
    ensures var s := Fresh("open-1", 0, 0.0);
      var s' := Run(s, [Receive(Receipt("h", "success", 5.0, jwt))], signed);
      s'.remainingCount == -1 && s'.remainingValue == -5.0
  {
    var s := Fresh("open-1", 0, 0.0);
    var es := [Receive(Receipt("h", "success", 5.0, jwt))];
    assert es[..0] == [] && Run(s, es[..0], signed) == s;
  }

  // ---- Handles that are not the live one ----

  // Whether the event writes the handle back.
  predicate Writes(handle: Scope, e: Event, signed: string -> bool) {
    Outcome(handle, e, signed).None?
  }

  // What is stored after the event was performed on a handle in some state.
  function StoredAfter(stored: Option<Scope>, handle: Scope, e: Event, signed: string -> bool): Option<Scope> {
    if Writes(handle, e, signed) then Some(Step(handle, e, signed)) else stored
  }

  // The event has the outcome, and leaves stored what it would, on the live scope.
  predicate StepAgrees(stored: Scope, handle: Scope, e: Event, signed: string -> bool) {
    && Outcome(handle, e, signed) == Outcome(stored, e, signed)
    && StoredAfter(Some(stored), handle, e, signed) == Some(Step(stored, e, signed))
  }

  function Released(s: Scope, hash: string): Scope {
    s.(outstanding := s.outstanding - {hash})
  }

  // The handle is the stored scope up to the outstanding reference of the
  // receipt, or one of the two is the other with the receipt already applied.
  predicate SameForReceipt(stored: Scope, handle: Scope, r: Receipt) {
    if r.result != "success" || (r.reference in stored.consumed <==> r.reference in handle.consumed)
    then Released(handle, r.reference) == Released(stored, r.reference)
    else if r.reference in handle.consumed then Released(handle, r.reference) == Settle(stored, r)
    else Released(stored, r.reference) == Settle(handle, r)
  }

  // A reservation that both refuse for one reason, or that is made on the very
  // state stored; a receipt that is not genuine, or does not tell the two apart.
  predicate Indistinguishable(stored: Scope, handle: Scope, e: Event, signed: string -> bool) {
    match e
    case TryReserve(hash, amount) =>
      && Refusal(handle, hash, amount) == Refusal(stored, hash, amount)
      && (Refusal(stored, hash, amount).None? ==> handle == stored)
    case Receive(r) => Genuine(r, signed) ==> SameForReceipt(stored, handle, r)
  }

  // Exactly then does a step on a handle agree with the live scope.
  lemma StepAgreesExactly(stored: Scope, handle: Scope, e: Event, signed: string -> bool)
    requires stored.mandateId == handle.mandateId
    ensures StepAgrees(stored, handle, e, signed) <==> Indistinguishable(stored, handle, e, signed)
  {
    match e
    case TryReserve(hash, amount) =>
      if Refusal(handle, hash, amount).None? && Refusal(stored, hash, amount).None? {
        assert handle.outstanding == {} == stored.outstanding;
      }
    case Receive(r) => SettlesAlike(stored, handle, r);
  }

  lemma SettlesAlike(stored: Scope, handle: Scope, r: Receipt)
    requires stored.mandateId == handle.mandateId
    ensures Settle(handle, r) == Settle(stored, r) <==> SameForReceipt(stored, handle, r)
  {
    if r.result == "success" && r.reference !in stored.consumed && r.reference !in handle.consumed {
      assert (stored.consumed + {r.reference}) - {r.reference} == stored.consumed;
      assert (handle.consumed + {r.reference}) - {r.reference} == handle.consumed;
    }
  }
}
