// aegis/ml/risk_model.py: the logistic blend, with its curves left open.
module Risk {
  import opened Wrappers
  import opened Models
  import opened Context
  import opened Stages
  import opened StepUp
  import opened SeverityOrder

  const HIGHER_RISK := {"RU", "BY", "VE", "MM"}

  // `amount` stands for the log-scaled amount feature, `squash` for the
  // rounded logistic curve on a 0..100 scale.
  datatype Curves = Curves(amount: real -> real, squash: real -> real) {
    ghost predicate Sound() {
      && (forall x, y :: x <= y ==> squash(x) <= squash(y))
      && (forall x :: 0.0 <= squash(x) <= 100.0)
    }
  }

  function Corridor(touched: seq<Jurisdiction>): real {
    if touched == [] then 0.0
    else
      var before, iso := Corridor(touched[..|touched| - 1]), touched[|touched| - 1].iso;
      if iso in RESTRICTED then 1.0 else if iso in HIGHER_RISK then Max(before, 0.6) else before
  }

  method CorridorFeature(touched: seq<Jurisdiction>) returns (feature: real)
    ensures feature == Corridor(touched)
  {
    feature := 0.0;
    for i := 0 to |touched|
      invariant feature == Corridor(touched[..i])
    {
      assert touched[..i + 1][..i] == touched[..i];
      if touched[i].iso in RESTRICTED {
        feature := 1.0;
      } else if touched[i].iso in HIGHER_RISK {
        feature := Max(feature, 0.6);
      }
    }
    assert touched[..|touched|] == touched;
  }

  function Flag(b: bool): real { if b then 1.0 else 0.0 }

  function Logit(curves: Curves, b: Bundle): real {
    -1.4 + 2.2 * curves.amount(b.cart.totalUsd) + 2.6 * Corridor(b.touched)
      + 1.1 * Flag(b.cart.merchantDid !in b.intent.allowedMerchants) + 0.7 * Flag(!b.payment.humanPresent)
  }

  function Logistic(curves: Curves): RiskModel {
    RiskModel("aegis-risk-scorer", "logistic-blend-v1", (b: Bundle) => Some(curves.squash(Logit(curves, b))))
  }

  // The corridor feature does not depend on the order of the jurisdictions.
  lemma {:induction false} CorridorIsWorst(touched: seq<Jurisdiction>)
    ensures Corridor(touched) ==
      if exists j :: j in touched && j.iso in RESTRICTED then 1.0
      else if exists j :: j in touched && j.iso in HIGHER_RISK then 0.6
      else 0.0
  {
    if touched == [] {
    } else {
      var front, last := touched[..|touched| - 1], touched[|touched| - 1];
      CorridorIsWorst(front);
      assert touched == front + [last];
      assert forall j :: j in touched <==> j in front || j == last;
    }
  }

  // The shipped model meets what the order of severity asks of a model.
  lemma LogisticScoresNoLower(curves: Curves, a: Bundle, b: Bundle)
    requires curves.Sound() && NoMoreAttended(a, b)
    ensures ScoresNoLower(Logistic(curves), a, b)
  {
    assert Logit(curves, a) <= Logit(curves, b);
  }

  // The weights: what each feature adds to the logit, other things equal.
  lemma Weights(curves: Curves, b: Bundle, total: real, merchant: string, touched: seq<Jurisdiction>)
    ensures Logit(curves, b.(cart := b.cart.(totalUsd := total))) - Logit(curves, b)
         == 2.2 * (curves.amount(total) - curves.amount(b.cart.totalUsd))
    ensures Logit(curves, b.(touched := touched)) - Logit(curves, b) == 2.6 * (Corridor(touched) - Corridor(b.touched))
    ensures b.cart.merchantDid in b.intent.allowedMerchants && merchant !in b.intent.allowedMerchants ==>
      Logit(curves, b.(cart := b.cart.(merchantDid := merchant))) - Logit(curves, b) == 1.1
    ensures b.payment.humanPresent ==>
      Logit(curves, b.(payment := b.payment.(humanPresent := false))) - Logit(curves, b) == 0.7
    ensures (curves.amount(b.cart.totalUsd) == 0.0 && b.touched == [] && b.payment.humanPresent
      && b.cart.merchantDid in b.intent.allowedMerchants) ==> Logit(curves, b) == -1.4
  {
  }
}
