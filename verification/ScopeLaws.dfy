// aegis/ap2/scope_ledger.py: nothing within the grant is refused.
module ScopeLaws {
  import opened Wrappers
  import opened ScopeState

  // A payment reserved and then confirmed by a receipt.
  datatype Payment = Payment(hash: string, amount: real, jwt: string)

  function Paid(ps: seq<Payment>): seq<Event> {
    if ps == [] then []
    else
      var p := ps[|ps| - 1];
      Paid(ps[..|ps| - 1]) + [TryReserve(p.hash, p.amount), Receive(Receipt(p.hash, "success", p.amount, p.jwt))]
  }

  function SumOf(ps: seq<Payment>): real {
    if ps == [] then 0.0 else SumOf(ps[..|ps| - 1]) + ps[|ps| - 1].amount
  }

  function Hashes(ps: seq<Payment>): set<string> {
    set p | p in ps :: p.hash
  }

  // The k-th payment is reserved when its turn comes.
  ghost predicate Accepted(s: Scope, ps: seq<Payment>, k: nat, signed: string -> bool)
    requires k < |ps|
  {
    Refusal(Run(s, Paid(ps[..k]), signed), ps[k].hash, ps[k].amount).None?
  }

  // A hash of its own, a transaction left, and what remains of the value, up to 1e-9.
  ghost predicate Fits(s: Scope, ps: seq<Payment>, k: nat)
    requires k < |ps|
  {
    && ps[k].hash !in s.consumed && ps[k].hash !in Hashes(ps[..k])
    && k + 1 <= s.remainingCount && SumOf(ps[..k]) + ps[k].amount <= s.remainingValue + 0.000000001
  }

  function AfterPaying(s: Scope, ps: seq<Payment>): Scope {
    Scope(s.mandateId, s.remainingCount - |ps|, s.remainingValue - SumOf(ps), s.consumed + Hashes(ps), {})
  }

  lemma HashesSnoc(front: seq<Payment>, p: Payment)
    ensures Hashes(front + [p]) == Hashes(front) + {p.hash}
  {
    assert forall x :: x in front + [p] <==> x in front || x == p;
  }

  lemma OnePayment(s: Scope, p: Payment, signed: string -> bool)
    requires s.outstanding == {} && p.hash !in s.consumed && p.jwt != "" && signed(p.jwt)
    requires Refusal(s, p.hash, p.amount).None?
    ensures var after := Step(Step(s, TryReserve(p.hash, p.amount), signed),
                              Receive(Receipt(p.hash, "success", p.amount, p.jwt)), signed);
      after == Scope(s.mandateId, s.remainingCount - 1, s.remainingValue - p.amount, s.consumed + {p.hash}, {})
  {
    assert s.outstanding + {p.hash} - {p.hash} == {};
  }

  lemma RunTwo(s: Scope, es: seq<Event>, a: Event, b: Event, signed: string -> bool)
    ensures Run(s, es + [a, b], signed) == Step(Step(Run(s, es, signed), a, signed), b, signed)
  {
    assert (es + [a, b])[..|es| + 1] == es + [a] && (es + [a])[..|es|] == es;
  }

  lemma {:induction false} PaidState(s: Scope, ps: seq<Payment>, signed: string -> bool)
    requires s.outstanding == {} && forall k :: 0 <= k < |ps| ==> ps[k].jwt != "" && signed(ps[k].jwt)
    requires forall k: nat :: k < |ps| ==> Fits(s, ps, k)
    ensures Run(s, Paid(ps), signed) == AfterPaying(s, ps)
  {
    if ps == [] {
      assert Hashes(ps) == {};
    } else {
      var front, p := ps[..|ps| - 1], ps[|ps| - 1];
      forall k: nat | k < |front| ensures Fits(s, front, k) {
        assert Fits(s, ps, k) && front[..k] == ps[..k];
      }
      PaidState(s, front, signed);
      assert Fits(s, ps, |front|) && ps == front + [p];
      HashesSnoc(front, p);
      var receipt := Receipt(p.hash, "success", p.amount, p.jwt);
      RunTwo(s, Paid(front), TryReserve(p.hash, p.amount), Receive(receipt), signed);
      OnePayment(AfterPaying(s, front), p, signed);
    }
  }

  // Payments one after the other are all accepted exactly if each fits: hashes
  // not used before, no more of them than the count, no more in sum than the value.
  lemma {:induction false} GrantUsable(s: Scope, ps: seq<Payment>, signed: string -> bool)
    requires s.outstanding == {} && forall k :: 0 <= k < |ps| ==> ps[k].jwt != "" && signed(ps[k].jwt)
    ensures (forall k: nat :: k < |ps| ==> Accepted(s, ps, k, signed))
       <==> (forall k: nat :: k < |ps| ==> Fits(s, ps, k))
  {
    if ps == [] {
    } else {
      var front, n := ps[..|ps| - 1], |ps| - 1;
      GrantUsable(s, front, signed);
      forall k: nat | k < n
        ensures Accepted(s, front, k, signed) <==> Accepted(s, ps, k, signed)
        ensures Fits(s, front, k) <==> Fits(s, ps, k)
      {
        assert front[..k] == ps[..k];
      }
      if forall k: nat :: k < n ==> Fits(s, front, k) {
        PaidState(s, front, signed);
        LastFits(s, ps, signed);
      }
    }
  }

  lemma LastFits(s: Scope, ps: seq<Payment>, signed: string -> bool)
    requires ps != [] && s.outstanding == {}
    requires Run(s, Paid(ps[..|ps| - 1]), signed) == AfterPaying(s, ps[..|ps| - 1])
    ensures Accepted(s, ps, |ps| - 1, signed) <==> Fits(s, ps, |ps| - 1)
  {
  }

  // While a reservation is open every other one is refused as a double spend.
  lemma OpenBlocks(s: Scope, hash: string, amount: real, other: string, more: real)
    requires Refusal(s, hash, amount).None?
    ensures Refusal(Reserve(s, hash, amount), other, more) == Some(DoubleSpend)
  {
    assert hash in Reserve(s, hash, amount).outstanding;
  }

  // On one without any, a hash never settled is refused only for the grant.
  lemma RefusedByGrant(s: Scope, hash: string, amount: real)
    requires s.outstanding == {} && hash !in s.consumed
    ensures Refusal(s, hash, amount) ==
      if s.remainingCount >= 1 && amount <= s.remainingValue + 0.000000001 then None else Some(ScopeExceeded)
  {
  }
}
