// aegis/matching/fuzzy.py, `jaro_similarity`: values that the score must have,
// stated of the strings alone. They fix its reach and its weights.
module JaroValues {
  import opened FuzzyMatching
  import opened Jaro

  // ---- When nothing matches ----

  // At most half the longer length apart, less one; the same position always counts.
  predicate Near(i: nat, j: nat, longest: nat) {
    i == j || (2 * (i - j + 1) <= longest && 2 * (j - i + 1) <= longest)
  }

  ghost predicate ShareNearby(s1: string, s2: string) {
    exists i: nat, j: nat :: i < |s1| && j < |s2| && s1[i] == s2[j] && Near(i, j, Max(|s1|, |s2|))
  }

  lemma NearIsWindow(i: nat, j: nat, n1: nat, n2: nat)
    ensures Near(i, j, Max(n1, n2)) <==> InWindow(i, j, MatchDistance(n1, n2))
  {
  }

  lemma NoneMatched(s1: string, s2: string, d: nat)
    ensures MatchCount(s1, s2, d) == 0 <==>
      forall i: nat, j: nat :: i < |s1| && j < |s2| && s1[i] == s2[j] ==> !InWindow(i, j, d)
  {
    forall i: nat, j: nat | i < |s1| && j < |s2| && s1[i] == s2[j] && InWindow(i, j, d)
      ensures MatchCount(s1, s2, d) > 0
    {
      GreedyIsMaximum({(i, j)}, s1, s2, d);
    }
    if MatchCount(s1, s2, d) > 0 {
      var n := GreedyIsAPairing(s1, s2, d);
      var x :| x in n;
      assert s1[x.0] == s2[x.1] && InWindow(x.0, x.1, d);
    }
  }

  lemma ScorePositive(m: nat, t: nat, n1: nat, n2: nat)
    requires 0 < m && t <= m && n1 > 0 && n2 > 0
    ensures Score(m, t, n1, n2) > 0.0
  {
    Positive(m, n1);
    Positive(m, n2);
    NotNegative(m - t, m);
  }

  lemma Positive(a: nat, b: nat)
    requires a > 0 && b > 0
    ensures a as real / b as real > 0.0
  {
  }

  lemma NotNegative(a: nat, b: nat)
    requires b > 0
    ensures a as real / b as real >= 0.0
  {
  }

  // Different strings score 0 exactly if no character they share stands in both
  // within reach of itself.
  lemma ZeroExactly(s1: string, s2: string)
    requires s1 != s2
    ensures Similarity(s1, s2) == 0.0 <==> !ShareNearby(s1, s2)
  {
    if s1 != [] && s2 != [] {
      var d := MatchDistance(|s1|, |s2|);
      NoneMatched(s1, s2, d);
      forall i: nat, j: nat ensures Near(i, j, Max(|s1|, |s2|)) <==> InWindow(i, j, d) {
        NearIsWindow(i, j, |s1|, |s2|);
      }
      if MatchCount(s1, s2, d) > 0 {
        SelectionsRearranged(s1, s2, d);
        ScorePositive(MatchCount(s1, s2, d), Transpositions(s1, s2, d) / 2, |s1|, |s2|);
      }
    }
  }

  // ---- A prefix of the other string ----

  lemma {:induction false} PrefixPositions(s1: string, s2: string, c: char, n: nat)
    requires n <= |s1| <= |s2| && s1 == s2[..|s1|]
    ensures Positions(s2, c, n) == Positions(s1, c, n)
  {
    if n == 0 {
    } else {
      PrefixPositions(s1, s2, c, n - 1);
      assert s1[n - 1] == s2[n - 1];
    }
  }

  lemma {:induction false} LaterPositions(s: string, c: char, m: nat, n: nat) returns (more: seq<nat>)
    requires m <= n <= |s|
    ensures Positions(s, c, n) == Positions(s, c, m) + more
  {
    if m == n {
      more := [];
    } else {
      more := LaterPositions(s, c, m, n - 1);
      if s[n - 1] == c { more := more + [n - 1]; }
    }
  }

  // Equal lists, one possibly longer, are merged position by position.
  lemma {:induction false} MergeItself(ps: seq<nat>, more: seq<nat>, d: nat)
    ensures Firsts(Merge(ps, ps + more, d)) == (set p | p in ps)
    ensures Seconds(Merge(ps, ps + more, d)) == (set p | p in ps)
  {
    if ps == [] {
    } else {
      MergeItself(ps[1..], more, d);
      assert (ps + more)[1..] == ps[1..] + more;
      assert ps == [ps[0]] + ps[1..];
      var rest := Merge(ps[1..], ps[1..] + more, d);
      assert Merge(ps, ps + more, d) == {(ps[0], ps[0])} + rest;
      OneMoreEnd(rest, (ps[0], ps[0]));
    }
  }

  lemma OneMoreEnd(m: set<Pair>, x: Pair)
    ensures Firsts({x} + m) == {x.0} + Firsts(m) && Seconds({x} + m) == {x.1} + Seconds(m)
  {
  }

  lemma PrefixEnds(s1: string, s2: string, d: nat, c: char, k: nat)
    requires |s1| <= |s2| && s1 == s2[..|s1|]
    ensures k in Firsts(CharMerge(s1, s2, d, c, |s1|)) <==> k < |s1| && s1[k] == c
    ensures k in Seconds(CharMerge(s1, s2, d, c, |s1|)) <==> k < |s1| && s1[k] == c
  {
    PrefixPositions(s1, s2, c, |s1|);
    var more := LaterPositions(s2, c, |s1|, |s2|);
    MergeItself(Positions(s1, c, |s1|), more, d);
    PositionsExact(s1, c, |s1|);
  }

  lemma PrefixFlags(s1: string, s2: string, d: nat)
    requires |s1| <= |s2| && s1 == s2[..|s1|]
    ensures forall k :: 0 <= k < |s1| ==> Flags1(s1, s2, d, |s1|)[k]
    ensures forall k :: 0 <= k < |s2| ==> (Flags2(s1, s2, d, |s1|)[k] <==> k < |s1|)
  {
    forall k: nat | k < |s1| ensures Flags1(s1, s2, d, |s1|)[k] { PrefixEnds(s1, s2, d, s1[k], k); }
    forall k: nat | k < |s2| ensures Flags2(s1, s2, d, |s1|)[k] <==> k < |s1| {
      PrefixEnds(s1, s2, d, s2[k], k);
      assert k < |s1| ==> s1[k] == s2[..|s1|][k];
    }
  }

  lemma {:induction false} AllTrue(flags: seq<bool>, n: nat)
    requires n <= |flags| && forall k :: 0 <= k < n ==> flags[k]
    ensures CountTrue(flags, n) == n
  {
    if n == 0 {
    } else {
      AllTrue(flags, n - 1);
    }
  }

  lemma {:induction false} NoneSelected(s: string, flags: seq<bool>, m: nat, n: nat)
    requires m <= n <= |s| == |flags| && forall k :: m <= k < n ==> !flags[k]
    ensures Selected(s, flags, n) == Selected(s, flags, m)
  {
    if m == n {
    } else {
      NoneSelected(s, flags, m, n - 1);
    }
  }

  lemma {:induction false} NoMismatchWithItself(a: string)
    ensures Mismatches(a, a) == 0
  {
    if a == [] {
    } else {
      NoMismatchWithItself(a[..|a| - 1]);
    }
  }

  lemma PrefixCounts(s1: string, s2: string, d: nat)
    requires |s1| <= |s2| && s1 == s2[..|s1|]
    ensures MatchCount(s1, s2, d) == |s1| && Transpositions(s1, s2, d) == 0
  {
    var f1, f2 := Flags1(s1, s2, d, |s1|), Flags2(s1, s2, d, |s1|);
    PrefixFlags(s1, s2, d);
    AllTrue(f1, |s1|);
    AllTrue(f2, |s1|);
    AllFlagged(s1, f1, |s1|);
    AllFlagged(s2, f2, |s1|);
    NoneSelected(s2, f2, |s1|, |s2|);
    assert s1[..|s1|] == s1;
    NoMismatchWithItself(s1);
  }

  // A proper prefix: matched whole, in order.
  lemma PrefixValue(s1: string, s2: string)
    requires 0 < |s1| < |s2| && s1 == s2[..|s1|]
    ensures Similarity(s1, s2) == (2.0 + |s1| as real / |s2| as real) / 3.0
  {
    PrefixCounts(s1, s2, MatchDistance(|s1|, |s2|));
    FractionOfOne(|s1|, |s1|);
  }

  // ---- Two neighbours swapped ----

  function Swapped(s: string, k: nat): (r: string)
    requires k + 1 < |s|
    ensures |r| == |s|
  {
    s[k := s[k + 1]][k + 1 := s[k]]
  }

  // Where position i of the string went.
  function SwapAt(i: nat, k: nat): nat {
    if i == k then k + 1 else if i == k + 1 then k else i
  }

  ghost function SwapPairs(k: nat, n: nat): set<Pair> {
    if n == 0 then {} else SwapPairs(k, n - 1) + {(n - 1, SwapAt(n - 1, k))}
  }

  lemma {:induction false} SwapPairsAre(k: nat, n: nat)
    ensures forall x :: x in SwapPairs(k, n) ==> x.0 < n && x.1 == SwapAt(x.0, k)
    ensures |SwapPairs(k, n)| == n
  {
    if n == 0 {
    } else {
      SwapPairsAre(k, n - 1);
    }
  }

  // Two strings that differ in the two places k and k + 1 alone.
  lemma {:induction false} TwoMismatches(a: string, b: string, k: nat)
    requires |a| == |b| && k + 1 < |a| && a[k] != b[k] && a[k + 1] != b[k + 1]
    requires forall i :: 0 <= i < |a| && i != k && i != k + 1 ==> a[i] == b[i]
    ensures Mismatches(a, b) == 2
  {
    var a', b' := a[..|a| - 1], b[..|b| - 1];
    if k + 2 < |a| {
      TwoMismatches(a', b', k);
    } else {
      assert a'[..k] == b'[..k];
      NoMismatchWithItself(a'[..k]);
      assert Mismatches(a', b') == 1;
    }
  }

  lemma SwapMismatches(s: string, k: nat)
    requires k + 1 < |s| && s[k] != s[k + 1]
    ensures Mismatches(s, Swapped(s, k)) == 2
  {
    TwoMismatches(s, Swapped(s, k), k);
  }

  // Where all characters of both strings are matched, the mismatches are those
  // of the strings themselves.
  lemma AllMatched(s: string, r: string, d: nat)
    requires |s| == |r| == MatchCount(s, r, d)
    ensures Transpositions(s, r, d) == Mismatches(s, r)
  {
    SelectionsRearranged(s, r, d);
    AllFlagged(s, Flags1(s, r, d, |s|), |s|);
    AllFlagged(r, Flags2(s, r, d, |s|), |r|);
    assert s[..|s|] == s && r[..|r|] == r;
  }

  lemma SwapPair(s: string, k: nat, d: nat, i: nat)
    requires k + 1 < |s| && d >= 1 && i < |s|
    ensures SwapAt(i, k) < |s| && SwapAt(SwapAt(i, k), k) == i
    ensures s[i] == Swapped(s, k)[SwapAt(i, k)] && InWindow(i, SwapAt(i, k), d)
  {
  }

  lemma SwapPairing(s: string, k: nat, d: nat)
    requires k + 1 < |s| && d >= 1
    ensures Pairing(SwapPairs(k, |s|), s, Swapped(s, k), d)
  {
    var n, r := SwapPairs(k, |s|), Swapped(s, k);
    SwapPairsAre(k, |s|);
    forall x | x in n ensures x.1 < |r| && s[x.0] == r[x.1] && InWindow(x.0, x.1, d) && SwapAt(x.1, k) == x.0 {
      SwapPair(s, k, d, x.0);
    }
    assert OneToOne(n);
  }

  lemma SwapCounts(s: string, k: nat, d: nat)
    requires k + 1 < |s| && s[k] != s[k + 1] && d >= 1
    ensures MatchCount(s, Swapped(s, k), d) == |s| && Transpositions(s, Swapped(s, k), d) == 2
  {
    SwapPairing(s, k, d);
    SwapPairsAre(k, |s|);
    GreedyIsMaximum(SwapPairs(k, |s|), s, Swapped(s, k), d);
    AllMatched(s, Swapped(s, k), d);
    SwapMismatches(s, k);
  }

  // One transposition among n matches: from four characters on the two
  // neighbours are within reach of each other.
  lemma SwapValue(s: string, k: nat)
    requires |s| >= 4 && k + 1 < |s| && s[k] != s[k + 1]
    ensures Similarity(s, Swapped(s, k)) == 1.0 - 1.0 / (3.0 * |s| as real)
  {
    SwapCounts(s, k, MatchDistance(|s|, |s|));
    OneOf(|s|);
    assert Swapped(s, k)[k] != s[k];
  }

  lemma OneOf(n: nat)
    requires n > 0
    ensures Score(n, 1, n, n) == 1.0 - 1.0 / (3.0 * n as real)
  {
    var x := n as real;
    assert x / x == 1.0;
    assert (x - 1.0) / x == 1.0 - 1.0 / x;
    assert (1.0 / x) / 3.0 == 1.0 / (3.0 * x);
  }

  // ---- The boost ----

  // What is missing to 1 shrinks by the boost,
  lemma BoostCloses(jaro: real, p: nat, w: real)
    ensures 1.0 - Boosted(jaro, Boost(p, w)) == (1.0 - p as real * w) * (1.0 - jaro)
  {
  }

  // and the boost is that of the p characters, at most four, that both begin with.
  lemma WinklerIs(s1: string, s2: string, p: nat, w: real)
    requires p <= 4 && p <= |s1| && p <= |s2| && s1[..p] == s2[..p]
    requires p == 4 || p == |s1| || p == |s2| || s1[p] != s2[p]
    ensures Winkler(s1, s2, w) == Boosted(Similarity(s1, s2), Boost(p, w))
  {
    LongestIs(s1, s2, p);
  }

  lemma LongestIs(s1: string, s2: string, p: nat)
    requires p <= 4 && p <= |s1| && p <= |s2| && s1[..p] == s2[..p]
    requires p == 4 || p == |s1| || p == |s2| || s1[p] != s2[p]
    ensures CommonPrefix(s1, s2, 4) == p
  {
    CommonPrefixLongest(s1, s2, 4);
    var q := CommonPrefix(s1, s2, 4);
    assert forall m :: 0 <= m < q ==> s1[..q][m] == s2[..q][m];
  }
}
