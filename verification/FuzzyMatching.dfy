// The matching at the heart of Jaro similarity, described per character as a
// merge of two sorted lists of positions. The merge is visibly
// symmetric, and it is what the greedy windowed scan of
// aegis/matching/fuzzy.py computes (see Jaro.dfy).
module FuzzyMatching {

  type Pair = (nat, nat)

  predicate InWindow(p: nat, q: nat, d: nat) {
    p <= q + d && q <= p + d
  }

  ghost predicate Increasing(ps: seq<nat>) {
    forall a, b :: 0 <= a < b < |ps| ==> ps[a] < ps[b]
  }

  function Firsts(m: set<Pair>): set<nat> {
    set pr | pr in m :: pr.0
  }

  function Seconds(m: set<Pair>): set<nat> {
    set pr | pr in m :: pr.1
  }

  function Flip(m: set<Pair>): set<Pair> {
    set pr | pr in m :: (pr.1, pr.0)
  }

  // Walk both lists; heads that see each other are paired, otherwise the
  // smaller head can never be paired again and is dropped.
  function Merge(ps: seq<nat>, qs: seq<nat>, d: nat): set<Pair>
    decreases |ps| + |qs|
  {
    if ps == [] || qs == [] then {}
    else if InWindow(ps[0], qs[0], d) then {(ps[0], qs[0])} + Merge(ps[1..], qs[1..], d)
    else if qs[0] < ps[0] then Merge(ps, qs[1..], d)
    else Merge(ps[1..], qs, d)
  }

  lemma {:induction false} MergeWithin(ps: seq<nat>, qs: seq<nat>, d: nat)
    ensures forall pr :: pr in Merge(ps, qs, d) ==> pr.0 in ps && pr.1 in qs && InWindow(pr.0, pr.1, d)
    decreases |ps| + |qs|
  {
    if ps == [] || qs == [] {
    } else if InWindow(ps[0], qs[0], d) {
      MergeWithin(ps[1..], qs[1..], d);
    } else if qs[0] < ps[0] {
      MergeWithin(ps, qs[1..], d);
    } else {
      MergeWithin(ps[1..], qs, d);
    }
  }

  lemma {:induction false} MergeSymmetric(ps: seq<nat>, qs: seq<nat>, d: nat)
    ensures Merge(qs, ps, d) == Flip(Merge(ps, qs, d))
    decreases |ps| + |qs|
  {
    if ps == [] || qs == [] {
    } else if InWindow(ps[0], qs[0], d) {
      MergeSymmetric(ps[1..], qs[1..], d);
    } else if qs[0] < ps[0] {
      MergeSymmetric(ps, qs[1..], d);
    } else {
      MergeSymmetric(ps[1..], qs, d);
    }
  }

  ghost predicate OneToOne(n: set<Pair>) {
    forall x, y :: x in n && y in n && (x.0 == y.0 || x.1 == y.1) ==> x == y
  }

  lemma {:induction false} OneToOneEnds(n: set<Pair>)
    requires OneToOne(n)
    ensures |Firsts(n)| == |n| == |Seconds(n)|
  {
    if n == {} {
    } else {
      var x :| x in n;
      var rest := n - {x};
      OneToOneEnds(rest);
      SplitEnds(n, x);
      assert x.0 !in Firsts(rest) && x.1 !in Seconds(rest);
    }
  }

  lemma SplitEnds(n: set<Pair>, x: Pair)
    requires x in n
    ensures Firsts(n) == Firsts(n - {x}) + {x.0} && Seconds(n) == Seconds(n - {x}) + {x.1}
  {
  }

  // No position is used twice.
  lemma {:induction false} MergeOneToOne(ps: seq<nat>, qs: seq<nat>, d: nat)
    requires Increasing(ps) && Increasing(qs)
    ensures OneToOne(Merge(ps, qs, d))
    decreases |ps| + |qs|
  {
    if ps == [] || qs == [] {
    } else if InWindow(ps[0], qs[0], d) {
      MergeOneToOne(ps[1..], qs[1..], d);
      MergeWithin(ps[1..], qs[1..], d);
      assert Untouched(Merge(ps[1..], qs[1..], d), ps[0], qs[0]);
    } else if qs[0] < ps[0] {
      MergeOneToOne(ps, qs[1..], d);
    } else {
      MergeOneToOne(ps[1..], qs, d);
    }
  }

  ghost predicate Untouched(n: set<Pair>, p: nat, q: nat) {
    forall x :: x in n ==> x.0 != p && x.1 != q
  }

  // q is the first position of qs that p can still take.
  ghost predicate FirstFree(ps: seq<nat>, p: nat, qs: seq<nat>, d: nat, q: nat) {
    && q in qs && InWindow(p, q, d) && q !in Seconds(Merge(ps, qs, d))
    && forall r :: r in qs && r < q ==> !InWindow(p, r, d) || r in Seconds(Merge(ps, qs, d))
  }

  ghost predicate NoneFree(ps: seq<nat>, p: nat, qs: seq<nat>, d: nat) {
    forall r :: r in qs ==> !InWindow(p, r, d) || r in Seconds(Merge(ps, qs, d))
  }

  // Extending the left list by a later position p adds exactly the pair the
  // greedy scan would add: an earlier q left unpaired is out of p's reach.
  lemma {:induction false} MergeSnocMatch(ps: seq<nat>, p: nat, qs: seq<nat>, d: nat, q: nat)
    requires Increasing(ps + [p]) && Increasing(qs) && FirstFree(ps, p, qs, d, q)
    ensures Merge(ps + [p], qs, d) == Merge(ps, qs, d) + {(p, q)}
    decreases |ps| + |qs|
  {
    var ext := ps + [p];
    if ps == [] {
      if q != qs[0] {
        assert q in qs[1..];
        MergeSnocMatch(ps, p, qs[1..], d, q);
      }
    } else {
      assert ext[0] == ps[0] && ext[1..] == ps[1..] + [p];
      assert p == ext[|ps|] && ps[0] < p;
      assert q in qs[1..] || q == qs[0];
      if InWindow(ps[0], qs[0], d) {
        assert (ps[0], qs[0]) in Merge(ps, qs, d);
        MergeWithin(ps[1..], qs[1..], d);
        forall r | r in qs[1..]
          ensures r in Seconds(Merge(ps, qs, d)) <==> r in Seconds(Merge(ps[1..], qs[1..], d))
        {}
        MergeSnocMatch(ps[1..], p, qs[1..], d, q);
      } else if qs[0] < ps[0] {
        MergeSnocMatch(ps, p, qs[1..], d, q);
      } else {
        MergeSnocMatch(ps[1..], p, qs, d, q);
      }
    }
  }

  lemma {:induction false} MergeSnocNone(ps: seq<nat>, p: nat, qs: seq<nat>, d: nat)
    requires Increasing(ps + [p]) && Increasing(qs) && NoneFree(ps, p, qs, d)
    ensures Merge(ps + [p], qs, d) == Merge(ps, qs, d)
    decreases |ps| + |qs|
  {
    var ext := ps + [p];
    if qs == [] {
    } else if ps == [] {
      assert qs[0] in qs;
      MergeSnocNone(ps, p, qs[1..], d);
    } else {
      assert ext[0] == ps[0] && ext[1..] == ps[1..] + [p];
      assert p == ext[|ps|] && ps[0] < p;
      if InWindow(ps[0], qs[0], d) {
        MergeWithin(ps[1..], qs[1..], d);
        forall r | r in qs[1..]
          ensures r in Seconds(Merge(ps, qs, d)) <==> r in Seconds(Merge(ps[1..], qs[1..], d))
        {}
        MergeSnocNone(ps[1..], p, qs[1..], d);
      } else if qs[0] < ps[0] {
        MergeSnocNone(ps, p, qs[1..], d);
      } else {
        MergeSnocNone(ps[1..], p, qs, d);
      }
    }
  }

  // ---- The merge pairs as many positions as any pairing can ----

  ghost predicate PairingOf(n: set<Pair>, ps: seq<nat>, qs: seq<nat>, d: nat) {
    OneToOne(n) && forall x :: x in n ==> x.0 in ps && x.1 in qs && InWindow(x.0, x.1, d)
  }

  // Exchange step: a pairing that uses p0 and q0 with other partners can pair
  // those partners with each other instead, losing one pair.
  lemma Reroute(n: set<Pair>, p0: nat, q0: nat, p: nat, q: nat) returns (n': set<Pair>)
    requires OneToOne(n) && (p0, q) in n && (p, q0) in n && p != p0 && q != q0
    ensures OneToOne(n') && |n'| == |n| - 1 && Untouched(n', p0, q0)
    ensures forall x :: x in n' ==> x in n || x == (p, q)
  {
    var base := n - {(p0, q)} - {(p, q0)};
    assert (p0, q) != (p, q0);
    assert |base| == |n| - 2;
    forall x | x in base ensures x.0 != p0 && x.1 != q0 && x.0 != p && x.1 != q {}
    n' := base + {(p, q)};
    assert (p, q).0 == p;
    assert (p, q) !in base;
  }

  lemma Isolate(n: set<Pair>, p0: nat, q0: nat, y: Pair) returns (n': set<Pair>)
    requires OneToOne(n) && y in n
    requires forall x :: x in n && (x.0 == p0 || x.1 == q0) ==> x == y
    ensures OneToOne(n') && |n| == |n'| + 1 && Untouched(n', p0, q0) && n' <= n
  {
    n' := n - {y};
  }

  lemma TailPairing(n: set<Pair>, ps: seq<nat>, qs: seq<nat>, d: nat)
    requires ps != [] && qs != [] && PairingOf(n, ps, qs, d) && Untouched(n, ps[0], qs[0])
    ensures PairingOf(n, ps[1..], qs[1..], d)
  {
    forall x | x in n ensures x.0 in ps[1..] && x.1 in qs[1..] {}
  }

  lemma Exchange(n: set<Pair>, ps: seq<nat>, qs: seq<nat>, d: nat) returns (n': set<Pair>)
    requires ps != [] && qs != [] && Increasing(ps) && Increasing(qs)
    requires InWindow(ps[0], qs[0], d) && PairingOf(n, ps, qs, d)
    ensures PairingOf(n', ps[1..], qs[1..], d) && |n| <= |n'| + 1
  {
    var p0, q0 := ps[0], qs[0];
    if x: Pair, y: Pair :| x in n && y in n && x.0 == p0 && y.1 == q0 && x != y {
      assert y.0 != p0 && x.1 != q0;
      assert p0 < y.0 && q0 < x.1;
      n' := Reroute(n, p0, q0, y.0, x.1);
    } else if x: Pair :| x in n && (x.0 == p0 || x.1 == q0) {
      n' := Isolate(n, p0, q0, x);
    } else {
      n' := n;
    }
    TailPairing(n', ps, qs, d);
  }

  lemma {:induction false} MergeIsMaximum(n: set<Pair>, ps: seq<nat>, qs: seq<nat>, d: nat)
    requires Increasing(ps) && Increasing(qs) && PairingOf(n, ps, qs, d)
    ensures |n| <= |Merge(ps, qs, d)|
    decreases |ps| + |qs|
  {
    if ps == [] || qs == [] {
      assert forall x :: x in n ==> x.0 in ps && x.1 in qs;
    } else if InWindow(ps[0], qs[0], d) {
      var n' := Exchange(n, ps, qs, d);
      MergeIsMaximum(n', ps[1..], qs[1..], d);
      MergeWithin(ps[1..], qs[1..], d);
      assert (ps[0], qs[0]) !in Merge(ps[1..], qs[1..], d);
    } else if qs[0] < ps[0] {
      forall x | x in n ensures x.1 in qs[1..] { assert x.1 != qs[0]; }
      MergeIsMaximum(n, ps, qs[1..], d);
    } else {
      forall x | x in n ensures x.0 in ps[1..] { assert x.0 != ps[0]; }
      MergeIsMaximum(n, ps[1..], qs, d);
    }
  }

  // ---- Positions of one character ----

  // Positions below n at which s holds c, in increasing order.
  function Positions(s: string, c: char, n: nat): seq<nat>
    requires n <= |s|
  {
    if n == 0 then []
    else if s[n - 1] == c then Positions(s, c, n - 1) + [n - 1]
    else Positions(s, c, n - 1)
  }

  lemma {:induction false} PositionsExact(s: string, c: char, n: nat)
    requires n <= |s|
    ensures Increasing(Positions(s, c, n))
    ensures forall k: nat :: k in Positions(s, c, n) <==> k < n && s[k] == c
  {
    if n == 0 {
    } else {
      PositionsExact(s, c, n - 1);
      if s[n - 1] == c {
        var ps := Positions(s, c, n - 1);
        assert forall a :: 0 <= a < |ps| ==> ps[a] in ps;
        var more := ps + [n - 1];
        assert forall a :: 0 <= a < |ps| ==> more[a] == ps[a];
        assert more[|ps|] == n - 1;
        assert forall k: nat :: k in more <==> k in ps || k == n - 1;
      }
    }
  }

  // The pairing, for character c, of the first n positions of s1 with s2.
  function CharMerge(s1: string, s2: string, d: nat, c: char, n: nat): set<Pair>
    requires n <= |s1|
  {
    Merge(Positions(s1, c, n), Positions(s2, c, |s2|), d)
  }

  lemma CharMergeWithin(s1: string, s2: string, d: nat, c: char, n: nat)
    requires n <= |s1|
    ensures forall pr :: pr in CharMerge(s1, s2, d, c, n) ==>
      pr.0 < n && pr.1 < |s2| && s1[pr.0] == c == s2[pr.1] && InWindow(pr.0, pr.1, d)
  {
    PositionsExact(s1, c, n);
    PositionsExact(s2, c, |s2|);
    MergeWithin(Positions(s1, c, n), Positions(s2, c, |s2|), d);
  }
}
