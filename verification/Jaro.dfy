// aegis/matching/fuzzy.py, `jaro_similarity` and `jaro_winkler_similarity`.
// The methods keep the source's loops over boolean arrays and are proved equal
// to a definition built on the symmetric merge of FuzzyMatching.
module Jaro {
  import opened FuzzyMatching

  function Max(a: int, b: int): int { if a < b then b else a }
  function Min(a: int, b: int): int { if a < b then a else b }

  function MatchDistance(n1: nat, n2: nat): nat {
    Max(Max(n1, n2) / 2 - 1, 0)
  }

  // ---- Flags, selection, mismatches ----

  // Which positions of s1 are matched after its first n characters were tried.
  function Flags1(s1: string, s2: string, d: nat, n: nat): (flags: seq<bool>)
    requires n <= |s1|
    ensures |flags| == |s1|
  {
    seq(|s1|, k requires 0 <= k < |s1| => k in Firsts(CharMerge(s1, s2, d, s1[k], n)))
  }

  function Flags2(s1: string, s2: string, d: nat, n: nat): (flags: seq<bool>)
    requires n <= |s1|
    ensures |flags| == |s2|
  {
    seq(|s2|, k requires 0 <= k < |s2| => k in Seconds(CharMerge(s1, s2, d, s2[k], n)))
  }

  function CountTrue(flags: seq<bool>, n: nat): (count: nat)
    requires n <= |flags|
    ensures count <= n
  {
    if n == 0 then 0 else CountTrue(flags, n - 1) + if flags[n - 1] then 1 else 0
  }

  // The characters of s[..n] whose flag is set, in order.
  function Selected(s: string, flags: seq<bool>, n: nat): string
    requires n <= |s| == |flags|
  {
    if n == 0 then []
    else if flags[n - 1] then Selected(s, flags, n - 1) + [s[n - 1]]
    else Selected(s, flags, n - 1)
  }

  function Mismatches(a: string, b: string): (count: nat)
    requires |a| == |b|
    ensures count <= |a|
  {
    if a == [] then 0
    else Mismatches(a[..|a| - 1], b[..|b| - 1]) + if a[|a| - 1] != b[|b| - 1] then 1 else 0
  }

  ghost function Flagged(s: string, flags: seq<bool>, c: char, n: nat): set<nat>
    requires n <= |s| == |flags|
  {
    set k: nat | k < n && flags[k] && s[k] == c
  }

  lemma {:induction false} SelectedLength(s: string, flags: seq<bool>, n: nat)
    requires n <= |s| == |flags|
    ensures |Selected(s, flags, n)| == CountTrue(flags, n)
  {
    if n == 0 {
    } else {
      SelectedLength(s, flags, n - 1);
    }
  }

  lemma {:induction false} SelectedCount(s: string, flags: seq<bool>, c: char, n: nat)
    requires n <= |s| == |flags|
    ensures multiset(Selected(s, flags, n))[c] == |Flagged(s, flags, c, n)|
  {
    if n == 0 {
    } else {
      SelectedCount(s, flags, c, n - 1);
      FlaggedStep(s, flags, c, n);
    }
  }

  lemma FlaggedStep(s: string, flags: seq<bool>, c: char, n: nat)
    requires 0 < n <= |s| == |flags|
    ensures |Flagged(s, flags, c, n)|
         == |Flagged(s, flags, c, n - 1)| + if flags[n - 1] && s[n - 1] == c then 1 else 0
  {
    var before := Flagged(s, flags, c, n - 1);
    assert Flagged(s, flags, c, n) == if flags[n - 1] && s[n - 1] == c then before + {n - 1} else before;
  }

  // ---- The two selections are rearrangements of one another ----

  lemma FlaggedAreEnds(s1: string, s2: string, d: nat, c: char)
    ensures var m := CharMerge(s1, s2, d, c, |s1|);
      && Flagged(s1, Flags1(s1, s2, d, |s1|), c, |s1|) == Firsts(m)
      && Flagged(s2, Flags2(s1, s2, d, |s1|), c, |s2|) == Seconds(m)
      && |Firsts(m)| == |m| == |Seconds(m)|
  {
    CharMergeWithin(s1, s2, d, c, |s1|);
    PositionsExact(s1, c, |s1|);
    PositionsExact(s2, c, |s2|);
    MergeOneToOne(Positions(s1, c, |s1|), Positions(s2, c, |s2|), d);
    OneToOneEnds(CharMerge(s1, s2, d, c, |s1|));
  }

  lemma SelectionsRearranged(s1: string, s2: string, d: nat)
    ensures var a := Selected(s1, Flags1(s1, s2, d, |s1|), |s1|);
            var b := Selected(s2, Flags2(s1, s2, d, |s1|), |s2|);
      && multiset(a) == multiset(b) && |a| == |b|
      && |a| == CountTrue(Flags1(s1, s2, d, |s1|), |s1|) && |b| == CountTrue(Flags2(s1, s2, d, |s1|), |s2|)
  {
    var f1, f2 := Flags1(s1, s2, d, |s1|), Flags2(s1, s2, d, |s1|);
    var a, b := Selected(s1, f1, |s1|), Selected(s2, f2, |s2|);
    forall c: char
      ensures multiset(a)[c] == multiset(b)[c]
    {
      SelectedCount(s1, f1, c, |s1|);
      SelectedCount(s2, f2, c, |s2|);
      FlaggedAreEnds(s1, s2, d, c);
    }
    SelectedLength(s1, f1, |s1|);
    SelectedLength(s2, f2, |s2|);
    assert multiset(a) == multiset(b);
    assert |multiset(a)| == |multiset(b)|;
  }

  // Swapping the strings swaps the two flag arrays.
  lemma FlagsSymmetric(s1: string, s2: string, d: nat)
    ensures Flags1(s2, s1, d, |s2|) == Flags2(s1, s2, d, |s1|)
    ensures Flags2(s2, s1, d, |s2|) == Flags1(s1, s2, d, |s1|)
  {
    forall c: char
      ensures Firsts(CharMerge(s2, s1, d, c, |s2|)) == Seconds(CharMerge(s1, s2, d, c, |s1|))
      ensures Seconds(CharMerge(s2, s1, d, c, |s2|)) == Firsts(CharMerge(s1, s2, d, c, |s1|))
    {
      MergeSymmetric(Positions(s1, c, |s1|), Positions(s2, c, |s2|), d);
      FlipEnds(CharMerge(s1, s2, d, c, |s1|));
    }
  }

  lemma FlipEnds(m: set<Pair>)
    ensures Firsts(Flip(m)) == Seconds(m) && Seconds(Flip(m)) == Firsts(m)
  {
    forall pr | pr in m ensures pr.1 in Firsts(Flip(m)) && pr.0 in Seconds(Flip(m)) {
      assert (pr.1, pr.0) in Flip(m);
      assert (pr.1, pr.0).0 in Firsts(Flip(m)) && (pr.1, pr.0).1 in Seconds(Flip(m));
    }
  }

  // ---- The similarity ----

  function Score(m: nat, t: nat, n1: nat, n2: nat): real
    requires m > 0 && n1 > 0 && n2 > 0
  {
    (m as real / n1 as real + m as real / n2 as real + (m - t) as real / m as real) / 3.0
  }

  function MatchCount(s1: string, s2: string, d: nat): nat {
    CountTrue(Flags1(s1, s2, d, |s1|), |s1|)
  }

  function Transpositions(s1: string, s2: string, d: nat): nat {
    SelectionsRearranged(s1, s2, d);
    Mismatches(Selected(s1, Flags1(s1, s2, d, |s1|), |s1|), Selected(s2, Flags2(s1, s2, d, |s1|), |s2|))
  }

  function Similarity(s1: string, s2: string): real {
    if s1 == s2 then 1.0
    else if s1 == [] || s2 == [] then 0.0
    else
      var d := MatchDistance(|s1|, |s2|);
      if MatchCount(s1, s2, d) == 0 then 0.0
      else Score(MatchCount(s1, s2, d), Transpositions(s1, s2, d) / 2, |s1|, |s2|)
  }

  lemma {:induction false} MismatchesSymmetric(a: string, b: string)
    requires |a| == |b|
    ensures Mismatches(a, b) == Mismatches(b, a)
  {
    if a == [] {
    } else {
      MismatchesSymmetric(a[..|a| - 1], b[..|b| - 1]);
    }
  }

  lemma ScoreSymmetric(m: nat, t: nat, n1: nat, n2: nat)
    requires m > 0 && n1 > 0 && n2 > 0
    ensures Score(m, t, n1, n2) == Score(m, t, n2, n1)
  {
  }

  lemma CountsSymmetric(s1: string, s2: string, d: nat)
    ensures MatchCount(s1, s2, d) == MatchCount(s2, s1, d) && Transpositions(s1, s2, d) == Transpositions(s2, s1, d)
  {
    SelectionsRearranged(s1, s2, d);
    FlagsSymmetric(s1, s2, d);
    MismatchesSymmetric(Selected(s1, Flags1(s1, s2, d, |s1|), |s1|), Selected(s2, Flags2(s1, s2, d, |s1|), |s2|));
  }

  lemma SimilaritySymmetric(s1: string, s2: string)
    ensures Similarity(s1, s2) == Similarity(s2, s1)
  {
    if s1 != s2 && s1 != [] && s2 != [] {
      var d := MatchDistance(|s1|, |s2|);
      CountsSymmetric(s1, s2, d);
      if MatchCount(s1, s2, d) > 0 {
        ScoreSymmetric(MatchCount(s1, s2, d), Transpositions(s1, s2, d) / 2, |s1|, |s2|);
      }
    }
  }

  // ---- No pairing beats the greedy count ----

  ghost predicate Pairing(n: set<Pair>, s1: string, s2: string, d: nat) {
    && OneToOne(n)
    && forall x :: x in n ==> x.0 < |s1| && x.1 < |s2| && s1[x.0] == s2[x.1] && InWindow(x.0, x.1, d)
  }

  lemma {:induction false} CountIsCardinality(flags: seq<bool>, n: nat)
    requires n <= |flags|
    ensures CountTrue(flags, n) == |set k: nat | k < n && flags[k]|
  {
    if n == 0 {
    } else {
      CountIsCardinality(flags, n - 1);
      var before := set k: nat | k < n - 1 && flags[k];
      assert (set k: nat | k < n && flags[k]) == if flags[n - 1] then before + {n - 1} else before;
    }
  }

  // Per character a pairing has no more pairs than the merge.
  lemma PairingPerCharacter(n: set<Pair>, s1: string, s2: string, d: nat, c: char)
    requires Pairing(n, s1, s2, d)
    ensures var nc := set x | x in n && s1[x.0] == c;
      OneToOne(nc) && |nc| <= |CharMerge(s1, s2, d, c, |s1|)|
  {
    var nc := set x | x in n && s1[x.0] == c;
    PositionsExact(s1, c, |s1|);
    PositionsExact(s2, c, |s2|);
    MergeIsMaximum(nc, Positions(s1, c, |s1|), Positions(s2, c, |s2|), d);
  }

  lemma GreedyIsMaximum(n: set<Pair>, s1: string, s2: string, d: nat)
    requires Pairing(n, s1, s2, d)
    ensures |n| <= MatchCount(s1, s2, d)
  {
    // Compare, character by character, the letters used by n with the letters matched.
    var used := seq(|s1|, k requires 0 <= k < |s1| => k in Firsts(n));
    var f1 := Flags1(s1, s2, d, |s1|);
    forall c: char
      ensures multiset(Selected(s1, used, |s1|))[c] <= multiset(Selected(s1, f1, |s1|))[c]
    {
      UsedPerCharacter(n, s1, s2, d, used, c);
    }
    NoLonger(Selected(s1, used, |s1|), Selected(s1, f1, |s1|));
    SelectedLength(s1, f1, |s1|);
    UsedCount(n, s1, s2, d, used);
  }

  lemma UsedCount(n: set<Pair>, s1: string, s2: string, d: nat, used: seq<bool>)
    requires Pairing(n, s1, s2, d)
    requires |used| == |s1| && forall k :: 0 <= k < |s1| ==> used[k] == (k in Firsts(n))
    ensures |Selected(s1, used, |s1|)| == |n|
  {
    SelectedLength(s1, used, |s1|);
    CountIsCardinality(used, |s1|);
    OneToOneEnds(n);
    assert (set k: nat | k < |s1| && used[k]) == Firsts(n);
  }

  lemma NoLonger(a: string, b: string)
    requires forall c :: multiset(a)[c] <= multiset(b)[c]
    ensures |a| <= |b|
  {
    assert multiset(b) == multiset(a) + (multiset(b) - multiset(a));
    assert |multiset(a)| == |a| && |multiset(b)| == |b|;
  }

  lemma UsedEnds(n: set<Pair>, s1: string, s2: string, d: nat, used: seq<bool>, c: char)
    requires Pairing(n, s1, s2, d)
    requires |used| == |s1| && forall k :: 0 <= k < |s1| ==> used[k] == (k in Firsts(n))
    ensures Flagged(s1, used, c, |s1|) == Firsts(set x | x in n && s1[x.0] == c)
  {
    var nc := set x | x in n && s1[x.0] == c;
    forall k | k in Flagged(s1, used, c, |s1|) ensures k in Firsts(nc) {
      var x :| x in n && x.0 == k;
      assert x in nc;
    }
  }

  lemma UsedPerCharacter(n: set<Pair>, s1: string, s2: string, d: nat, used: seq<bool>, c: char)
    requires Pairing(n, s1, s2, d)
    requires |used| == |s1| && forall k :: 0 <= k < |s1| ==> used[k] == (k in Firsts(n))
    ensures multiset(Selected(s1, used, |s1|))[c]
         <= multiset(Selected(s1, Flags1(s1, s2, d, |s1|), |s1|))[c]
  {
    PairingPerCharacter(n, s1, s2, d, c);
    OneToOneEnds(set x | x in n && s1[x.0] == c);
    UsedEnds(n, s1, s2, d, used, c);
    FlaggedAreEnds(s1, s2, d, c);
    SelectedCount(s1, used, c, |s1|);
    SelectedCount(s1, Flags1(s1, s2, d, |s1|), c, |s1|);
  }

  // The count is reached: the merges of all characters form a pairing of that size.
  lemma GreedyIsAPairing(s1: string, s2: string, d: nat) returns (n: set<Pair>)
    ensures Pairing(n, s1, s2, d) && |n| == MatchCount(s1, s2, d)
  {
    var f1 := Flags1(s1, s2, d, |s1|);
    var ok := (x: Pair) => Merged(s1, s2, d, x);
    forall i | 0 <= i < |s1| && f1[i] ensures exists y: Pair :: y.0 == i && ok(y) {
      var y: Pair :| y in CharMerge(s1, s2, d, s1[i], |s1|) && y.0 == i;
      assert ok(y);
    }
    n := CollectPairs(ok, f1, |s1|);
    MergedIsPairing(n, s1, s2, d, |s1|);
  }

  // x is the pair the merge of its own character gives it.
  ghost predicate Merged(s1: string, s2: string, d: nat, x: Pair) {
    x.0 < |s1| && x in CharMerge(s1, s2, d, s1[x.0], |s1|)
  }

  lemma MergedFacts(s1: string, s2: string, d: nat, x: Pair, y: Pair)
    requires Merged(s1, s2, d, x) && Merged(s1, s2, d, y)
    ensures x.1 < |s2| && s1[x.0] == s2[x.1] && InWindow(x.0, x.1, d)
    ensures x.0 == y.0 || x.1 == y.1 ==> x == y
  {
    var c := s1[x.0];
    CharMergeWithin(s1, s2, d, c, |s1|);
    CharMergeWithin(s1, s2, d, s1[y.0], |s1|);
    PositionsExact(s1, c, |s1|);
    PositionsExact(s2, c, |s2|);
    MergeOneToOne(Positions(s1, c, |s1|), Positions(s2, c, |s2|), d);
  }

  ghost predicate MergedBelow(n: set<Pair>, s1: string, s2: string, d: nat, k: nat) {
    forall x :: x in n ==> x.0 < k && Merged(s1, s2, d, x)
  }

  lemma MergedIsPairing(n: set<Pair>, s1: string, s2: string, d: nat, k: nat)
    requires MergedBelow(n, s1, s2, d, k)
    ensures Pairing(n, s1, s2, d)
  {
    forall x, y | x in n && y in n
      ensures x.1 < |s2| && s1[x.0] == s2[x.1] && InWindow(x.0, x.1, d)
      ensures x.0 == y.0 || x.1 == y.1 ==> x == y
    {
      MergedFacts(s1, s2, d, x, y);
    }
  }

  // One acceptable pair per flagged position.
  lemma {:induction false} CollectPairs(ok: Pair -> bool, f1: seq<bool>, k: nat) returns (n: set<Pair>)
    requires k <= |f1|
    requires forall i :: 0 <= i < k && f1[i] ==> exists y: Pair :: y.0 == i && ok(y)
    ensures forall x :: x in n ==> x.0 < k && ok(x)
    ensures |n| == CountTrue(f1, k)
  {
    if k == 0 {
      n := {};
    } else {
      n := CollectPairs(ok, f1, k - 1);
      if f1[k - 1] {
        var y: Pair :| y.0 == k - 1 && ok(y);
        n := n + {y};
      }
    }
  }

  // ---- Range, and the value 1 ----

  lemma FractionOfOne(a: nat, b: nat)
    requires a <= b && b > 0
    ensures 0.0 <= a as real / b as real <= 1.0
    ensures a as real / b as real == 1.0 <==> a == b
  {
    var q := a as real / b as real;
    assert q * b as real == a as real;
  }

  lemma ScoreRange(m: nat, t: nat, n1: nat, n2: nat)
    requires 0 < m <= n1 && m <= n2 && t <= m
    ensures 0.0 <= Score(m, t, n1, n2) <= 1.0
    ensures Score(m, t, n1, n2) == 1.0 <==> m == n1 == n2 && t == 0
  {
    FractionOfOne(m, n1);
    FractionOfOne(m, n2);
    FractionOfOne(m - t, m);
  }

  lemma {:induction false} NoMismatch(a: string, b: string)
    requires |a| == |b| && Mismatches(a, b) == 0
    ensures a == b
  {
    if a == [] {
    } else {
      NoMismatch(a[..|a| - 1], b[..|b| - 1]);
      assert a == a[..|a| - 1] + [a[|a| - 1]] && b == b[..|b| - 1] + [b[|b| - 1]];
    }
  }

  lemma LastCounted(a: string, x: char)
    requires a != []
    ensures multiset(a)[x] == multiset(a[..|a| - 1])[x] + if a[|a| - 1] == x then 1 else 0
  {
    assert a == a[..|a| - 1] + [a[|a| - 1]];
  }

  // A single mismatch shows up in the letter counts.
  lemma {:induction false} OneMismatch(a: string, b: string) returns (x: char)
    requires |a| == |b| && Mismatches(a, b) == 1
    ensures multiset(a)[x] != multiset(b)[x]
  {
    var a', b' := a[..|a| - 1], b[..|b| - 1];
    if a[|a| - 1] == b[|b| - 1] {
      x := OneMismatch(a', b');
    } else {
      NoMismatch(a', b');
      x := a[|a| - 1];
    }
    LastCounted(a, x);
    LastCounted(b, x);
  }

  lemma {:induction false} AllFlagged(s: string, flags: seq<bool>, n: nat)
    requires n <= |s| == |flags| && CountTrue(flags, n) == n
    ensures Selected(s, flags, n) == s[..n]
  {
    if n == 0 {
    } else {
      AllFlagged(s, flags, n - 1);
      assert s[..n] == s[..n - 1] + [s[n - 1]];
    }
  }

  // Halving the mismatch count hides nothing: rearrangements of one
  // another never differ in exactly one place.
  lemma FullScoreMeansEqual(s1: string, s2: string, d: nat)
    requires MatchCount(s1, s2, d) == |s1| == |s2| && Transpositions(s1, s2, d) / 2 == 0
    ensures s1 == s2
  {
    SelectionsRearranged(s1, s2, d);
    var f1, f2 := Flags1(s1, s2, d, |s1|), Flags2(s1, s2, d, |s1|);
    AllFlagged(s1, f1, |s1|);
    AllFlagged(s2, f2, |s2|);
    assert s1[..|s1|] == s1 && s2[..|s2|] == s2;
    if Mismatches(s1, s2) == 0 { NoMismatch(s1, s2); } else { var _ := OneMismatch(s1, s2); }
  }

  lemma SimilarityRange(s1: string, s2: string)
    ensures 0.0 <= Similarity(s1, s2) <= 1.0
    ensures Similarity(s1, s2) == 1.0 <==> s1 == s2
  {
    if s1 != s2 && s1 != [] && s2 != [] {
      var d := MatchDistance(|s1|, |s2|);
      SelectionsRearranged(s1, s2, d);
      var m, t := MatchCount(s1, s2, d), Transpositions(s1, s2, d);
      if m > 0 {
        ScoreRange(m, t / 2, |s1|, |s2|);
        if m == |s1| == |s2| && t / 2 == 0 { FullScoreMeansEqual(s1, s2, d); }
      }
    }
  }

  // ---- Jaro-Winkler ----

  function CommonPrefix(s1: string, s2: string, limit: nat): nat {
    if limit == 0 || s1 == [] || s2 == [] || s1[0] != s2[0] then 0
    else 1 + CommonPrefix(s1[1..], s2[1..], limit - 1)
  }

  // It is the longest shared prefix of at most `limit` characters.
  lemma {:induction false} CommonPrefixLongest(s1: string, s2: string, limit: nat)
    ensures var p := CommonPrefix(s1, s2, limit);
      && p <= limit && p <= |s1| && p <= |s2| && s1[..p] == s2[..p]
      && forall q: nat :: q <= limit && q <= |s1| && q <= |s2| && s1[..q] == s2[..q] ==> q <= p
    ensures CommonPrefix(s1, s2, limit) == CommonPrefix(s2, s1, limit)
  {
    if limit == 0 || s1 == [] || s2 == [] {
    } else if s1[0] != s2[0] {
      forall q: nat | 0 < q <= |s1| && q <= |s2| ensures s1[..q] != s2[..q] {
        assert s1[..q][0] != s2[..q][0];
      }
    } else {
      CommonPrefixLongest(s1[1..], s2[1..], limit - 1);
      var p := CommonPrefix(s1[1..], s2[1..], limit - 1);
      assert s1[..p + 1] == [s1[0]] + s1[1..][..p] && s2[..p + 1] == [s2[0]] + s2[1..][..p];
      forall q: nat | 0 < q <= limit && q <= |s1| && q <= |s2| && s1[..q] == s2[..q] ensures q <= p + 1 {
        assert s1[1..][..q - 1] == s1[..q][1..] && s2[1..][..q - 1] == s2[..q][1..];
      }
    }
  }

  // How much of the distance to 1 the shared prefix closes.
  function Boost(prefix: nat, weight: real): real {
    prefix as real * weight
  }

  function Boosted(jaro: real, boost: real): real {
    jaro + boost * (1.0 - jaro)
  }

  function Winkler(s1: string, s2: string, prefixWeight: real): real {
    Boosted(Similarity(s1, s2), Boost(CommonPrefix(s1, s2, 4), prefixWeight))
  }

  lemma WinklerSymmetric(s1: string, s2: string, w: real)
    ensures Winkler(s1, s2, w) == Winkler(s2, s1, w)
  {
    CommonPrefixLongest(s1, s2, 4);
    assert CommonPrefix(s1, s2, 4) == CommonPrefix(s2, s1, 4);
    assert Similarity(s1, s2) == Similarity(s2, s1) by { SimilaritySymmetric(s1, s2); }
  }

  lemma Product(x: real, y: real)
    requires y > 0.0
    ensures x > 0.0 <==> x * y > 0.0
    ensures x == 0.0 <==> x * y == 0.0
    ensures x >= 0.0 ==> x * y >= 0.0
  {
  }

  lemma BoostBounds(jaro: real, boost: real)
    requires 0.0 <= jaro <= 1.0
    ensures Boosted(jaro, boost) <= 1.0 <==> jaro == 1.0 || boost <= 1.0
    ensures Boosted(jaro, boost) == 1.0 <==> jaro == 1.0 || boost == 1.0
    ensures boost >= 0.0 ==> Boosted(jaro, boost) >= jaro
  {
    var slack := 1.0 - jaro;
    assert 1.0 - Boosted(jaro, boost) == (1.0 - boost) * slack;
    assert Boosted(jaro, boost) - 1.0 == (boost - 1.0) * slack;
    if jaro < 1.0 {
      Product(1.0 - boost, slack);
      Product(boost - 1.0, slack);
      Product(boost, slack);
    }
  }

  // For any weight: the boosted score passes 1 exactly when the strings differ
  // and the whole boost does, and it is 1 exactly for equal strings or a full boost.
  lemma WinklerBounds(s1: string, s2: string, w: real)
    ensures Winkler(s1, s2, w) <= 1.0 <==> s1 == s2 || Boost(CommonPrefix(s1, s2, 4), w) <= 1.0
    ensures Winkler(s1, s2, w) == 1.0 <==> s1 == s2 || Boost(CommonPrefix(s1, s2, 4), w) == 1.0
    ensures Boost(CommonPrefix(s1, s2, 4), w) >= 0.0 ==> Winkler(s1, s2, w) >= Similarity(s1, s2)
  {
    SimilarityRange(s1, s2);
    BoostBounds(Similarity(s1, s2), Boost(CommonPrefix(s1, s2, 4), w));
  }

  lemma CommonPrefixShort(s1: string, s2: string, limit: nat)
    ensures CommonPrefix(s1, s2, limit) <= limit
  {
  }

  lemma DefaultWeight(s1: string, s2: string)
    ensures 0.0 <= Winkler(s1, s2, 0.1) <= 1.0
    ensures Winkler(s1, s2, 0.1) == 1.0 <==> s1 == s2
  {
    SimilarityRange(s1, s2);
    WinklerBounds(s1, s2, 0.1);
    CommonPrefixShort(s1, s2, 4);
  }
}
