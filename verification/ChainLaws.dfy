// aegis/ledger/store.py, `verify_chain`: what a verifying chain has of every
// entry, and which changes to one are noticed.
module ChainLaws {
  import opened DecisionLedger

  // The hash each entry has to name: sixty-four zeros, then that of the one before.
  function Before<C>(es: seq<Entry<C>>, i: nat): string
    requires i < |es|
  {
    if i == 0 then seq(64, k => '0') else es[i - 1].thisHash
  }

  ghost predicate EntryHolds<C(!new)>(suite: Suite<C>, pub: string, es: seq<Entry<C>>, i: nat)
    requires i < |es|
  {
    && es[i].sealed.body.prevHash == Before(es, i)
    && suite.verify(pub, es[i].sealed.body, es[i].sealed.signature)
    && suite.hash(es[i].sealed) == es[i].thisHash
  }

  lemma EntryLinked<C(!new)>(suite: Suite<C>, pub: string, es: seq<Entry<C>>, i: nat)
    requires i < |es|
    ensures LinkedAt(suite, pub, es, i) <==> EntryHolds(suite, pub, es, i)
  {
    if i > 0 { assert es[..i][|es[..i]| - 1] == es[i - 1]; }
    assert GenesisHash() == seq(64, k => '0');
  }

  // A chain verifies exactly if every entry names the one before, is signed
  // under the key, and has the hash that it is said to have.
  lemma IntactExactly<C(!new)>(suite: Suite<C>, pub: string, es: seq<Entry<C>>)
    ensures Intact(suite, pub, es) <==> forall i: nat :: i < |es| ==> EntryHolds(suite, pub, es, i)
  {
    forall i: nat | i < |es| ensures LinkedAt(suite, pub, es, i) <==> EntryHolds(suite, pub, es, i) {
      EntryLinked(suite, pub, es, i);
    }
    if forall i: nat :: i < |es| ==> EntryHolds(suite, pub, es, i) {
      forall i | 0 <= i < |es| ensures LinkedAt(suite, pub, es, i) { assert EntryHolds(suite, pub, es, i); }
    }
    if Intact(suite, pub, es) {
      forall i: nat | i < |es| ensures EntryHolds(suite, pub, es, i) { assert LinkedAt(suite, pub, es, i); }
    }
  }

  // An entry whose signature does not verify is noticed, whatever else was
  // recomputed around it.
  lemma ForgeryNoticed<C(!new)>(suite: Suite<C>, pub: string, es: seq<Entry<C>>, i: nat)
    requires i < |es| && !suite.verify(pub, es[i].sealed.body, es[i].sealed.signature)
    ensures !Intact(suite, pub, es)
  {
    IntactExactly(suite, pub, es);
    assert !EntryHolds(suite, pub, es, i);
  }

  // Any other entry in the place of one that is not the last is noticed, signed
  // and hashed as it may be, unless the two collide.
  lemma ReplacementNoticed<C(!new)>(suite: Suite<C>, pub: string, es: seq<Entry<C>>, i: nat, x: Entry<C>)
    requires Intact(suite, pub, es) && i + 1 < |es| && x != es[i]
    requires suite.NoCollision([x], es)
    ensures !Intact(suite, pub, es[i := x])
  {
    var changed := es[i := x];
    IntactExactly(suite, pub, es);
    IntactExactly(suite, pub, changed);
    assert EntryHolds(suite, pub, es, i) && EntryHolds(suite, pub, es, i + 1);
    assert Before(changed, i + 1) == x.thisHash && Before(es, i + 1) == es[i].thisHash;
    assert x in [x] && es[i] in es;
    assert suite.hash(x.sealed) == suite.hash(es[i].sealed) ==> x.sealed == es[i].sealed;
    assert !EntryHolds(suite, pub, changed, i) || !EntryHolds(suite, pub, changed, i + 1);
  }
}
