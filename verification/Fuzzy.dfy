// The loops of aegis/matching/fuzzy.py, run in place on the boolean arrays,
// and the promises a caller relies on: symmetry, the range [0, 1], and the
// value 1 for equal strings only.
module Fuzzy {
  import opened FuzzyMatching
  import opened Jaro

  // ---- One step of the greedy scan ----

  // j is the first position in reach of i that is free and holds the same character.
  ghost predicate FirstHit(s1: string, s2: string, d: nat, i: nat, flags2: seq<bool>, j: nat)
    requires i < |s1| && |flags2| == |s2|
  {
    && j < |s2| && InWindow(i, j, d) && !flags2[j] && s1[i] == s2[j]
    && forall r: nat :: r < j && InWindow(i, r, d) ==> flags2[r] || s1[i] != s2[r]
  }

  ghost predicate NoHit(s1: string, s2: string, d: nat, i: nat, flags2: seq<bool>)
    requires i < |s1| && |flags2| == |s2|
  {
    forall r: nat :: r < |s2| && InWindow(i, r, d) ==> flags2[r] || s1[i] != s2[r]
  }

  lemma MergeStep(s1: string, s2: string, d: nat, i: nat, c: char)
    requires i < |s1|
    ensures c != s1[i] ==> CharMerge(s1, s2, d, c, i + 1) == CharMerge(s1, s2, d, c, i)
    ensures forall j: nat :: c == s1[i] && FirstHit(s1, s2, d, i, Flags2(s1, s2, d, i), j) ==>
      CharMerge(s1, s2, d, c, i + 1) == CharMerge(s1, s2, d, c, i) + {(i, j)}
    ensures c == s1[i] && NoHit(s1, s2, d, i, Flags2(s1, s2, d, i)) ==>
      CharMerge(s1, s2, d, c, i + 1) == CharMerge(s1, s2, d, c, i)
  {
    var ps, qs := Positions(s1, c, i), Positions(s2, c, |s2|);
    PositionsExact(s1, c, i + 1);
    PositionsExact(s2, c, |s2|);
    if c == s1[i] {
      forall j: nat | FirstHit(s1, s2, d, i, Flags2(s1, s2, d, i), j)
        ensures Merge(ps + [i], qs, d) == Merge(ps, qs, d) + {(i, j)}
      {
        MergeSnocMatch(ps, i, qs, d, j);
      }
      if NoHit(s1, s2, d, i, Flags2(s1, s2, d, i)) {
        MergeSnocNone(ps, i, qs, d);
      }
    }
  }

  lemma EndsAdd(m: set<Pair>, i: nat, j: nat)
    ensures Firsts(m + {(i, j)}) == Firsts(m) + {i} && Seconds(m + {(i, j)}) == Seconds(m) + {j}
  {
    assert (i, j) in m + {(i, j)} && (i, j).0 == i && (i, j).1 == j;
    forall pr | pr in m ensures pr.0 in Firsts(m + {(i, j)}) && pr.1 in Seconds(m + {(i, j)}) {
      assert pr in m + {(i, j)};
    }
  }

  lemma HitEnds(s1: string, s2: string, d: nat, i: nat, j: nat, c: char)
    requires i < |s1| && FirstHit(s1, s2, d, i, Flags2(s1, s2, d, i), j)
    ensures c != s1[i] ==> CharMerge(s1, s2, d, c, i + 1) == CharMerge(s1, s2, d, c, i)
    ensures c == s1[i] ==>
      && Firsts(CharMerge(s1, s2, d, c, i + 1)) == Firsts(CharMerge(s1, s2, d, c, i)) + {i}
      && Seconds(CharMerge(s1, s2, d, c, i + 1)) == Seconds(CharMerge(s1, s2, d, c, i)) + {j}
  {
    MergeStep(s1, s2, d, i, c);
    EndsAdd(CharMerge(s1, s2, d, c, i), i, j);
  }

  lemma SameFlags(f: seq<bool>, g: seq<bool>, i: nat)
    requires |f| == |g| && i < |g| && forall k :: 0 <= k < |f| ==> f[k] == (g[k] || k == i)
    ensures f == g[i := true]
  {
    forall k | 0 <= k < |f| ensures f[k] == g[i := true][k] {}
  }

  lemma HitStep(s1: string, s2: string, d: nat, i: nat, j: nat)
    requires i < |s1| && FirstHit(s1, s2, d, i, Flags2(s1, s2, d, i), j)
    ensures Flags1(s1, s2, d, i + 1) == Flags1(s1, s2, d, i)[i := true]
    ensures Flags2(s1, s2, d, i + 1) == Flags2(s1, s2, d, i)[j := true]
  {
    forall k | 0 <= k < |s1| ensures Flags1(s1, s2, d, i + 1)[k] == (Flags1(s1, s2, d, i)[k] || k == i) {
      HitEnds(s1, s2, d, i, j, s1[k]);
    }
    SameFlags(Flags1(s1, s2, d, i + 1), Flags1(s1, s2, d, i), i);
    forall k | 0 <= k < |s2| ensures Flags2(s1, s2, d, i + 1)[k] == (Flags2(s1, s2, d, i)[k] || k == j) {
      HitEnds(s1, s2, d, i, j, s2[k]);
    }
    SameFlags(Flags2(s1, s2, d, i + 1), Flags2(s1, s2, d, i), j);
  }

  lemma MissStep(s1: string, s2: string, d: nat, i: nat)
    requires i < |s1| && NoHit(s1, s2, d, i, Flags2(s1, s2, d, i))
    ensures Flags1(s1, s2, d, i + 1) == Flags1(s1, s2, d, i)
    ensures Flags2(s1, s2, d, i + 1) == Flags2(s1, s2, d, i)
  {
    forall c: char ensures CharMerge(s1, s2, d, c, i + 1) == CharMerge(s1, s2, d, c, i) {
      MergeStep(s1, s2, d, i, c);
    }
  }

  lemma UntriedUnflagged(s1: string, s2: string, d: nat, i: nat)
    requires i <= |s1|
    ensures forall k :: i <= k < |s1| ==> !Flags1(s1, s2, d, i)[k]
  {
    forall k | i <= k < |s1| ensures !Flags1(s1, s2, d, i)[k] {
      CharMergeWithin(s1, s2, d, s1[k], i);
    }
  }

  lemma {:induction false} CountPrefix(f: seq<bool>, g: seq<bool>, n: nat)
    requires n <= |f| && n <= |g| && forall k :: 0 <= k < n ==> f[k] == g[k]
    ensures CountTrue(f, n) == CountTrue(g, n)
  {
    if n == 0 {
    } else {
      CountPrefix(f, g, n - 1);
    }
  }

  // ---- The greedy loop ----

  // Position i found its partner, and just these two flags were set.
  ghost predicate Hit(s1: string, s2: string, d: nat, i: nat,
                      f1: seq<bool>, f2: seq<bool>, g1: seq<bool>, g2: seq<bool>)
    requires i < |s1| == |f1| && |f2| == |s2|
  {
    exists j: nat :: FirstHit(s1, s2, d, i, f2, j) && g1 == f1[i := true] && g2 == f2[j := true]
  }

  lemma HitOutcome(s1: string, s2: string, d: nat, i: nat, g1: seq<bool>, g2: seq<bool>)
    requires i < |s1| && Hit(s1, s2, d, i, Flags1(s1, s2, d, i), Flags2(s1, s2, d, i), g1, g2)
    ensures g1 == Flags1(s1, s2, d, i + 1) && g2 == Flags2(s1, s2, d, i + 1)
    ensures CountTrue(Flags1(s1, s2, d, i + 1), i + 1) == CountTrue(Flags1(s1, s2, d, i), i) + 1
  {
    var f1, f2 := Flags1(s1, s2, d, i), Flags2(s1, s2, d, i);
    var j: nat :| FirstHit(s1, s2, d, i, f2, j) && g1 == f1[i := true] && g2 == f2[j := true];
    HitStep(s1, s2, d, i, j);
    CountPrefix(f1, g1, i);
  }

  lemma MissOutcome(s1: string, s2: string, d: nat, i: nat)
    requires i < |s1| && NoHit(s1, s2, d, i, Flags2(s1, s2, d, i))
    ensures Flags1(s1, s2, d, i) == Flags1(s1, s2, d, i + 1) && Flags2(s1, s2, d, i) == Flags2(s1, s2, d, i + 1)
    ensures CountTrue(Flags1(s1, s2, d, i + 1), i + 1) == CountTrue(Flags1(s1, s2, d, i), i)
  {
    MissStep(s1, s2, d, i);
    UntriedUnflagged(s1, s2, d, i);
  }

  // The inner loop: look for a partner of i in its window and take the first.
  method MatchOne(s1: string, s2: string, d: nat, i: nat, s1Matches: array<bool>, s2Matches: array<bool>)
    returns (hit: bool)
    requires s1Matches != s2Matches && s1Matches.Length == |s1| && s2Matches.Length == |s2| && i < |s1|
    modifies s1Matches, s2Matches
    ensures !hit ==> NoHit(s1, s2, d, i, old(s2Matches[..]))
    ensures !hit ==> s1Matches[..] == old(s1Matches[..]) && s2Matches[..] == old(s2Matches[..])
    ensures hit ==> Hit(s1, s2, d, i, old(s1Matches[..]), old(s2Matches[..]), s1Matches[..], s2Matches[..])
  {
    var start, end := Max(0, i - d), Min(i + d + 1, |s2|);
    var j := start;
    while j < end
      invariant start <= j && (j <= end || j == start)
      invariant forall r :: start <= r < j ==> s2Matches[r] || s1[i] != s2[r]
      invariant s1Matches[..] == old(s1Matches[..]) && s2Matches[..] == old(s2Matches[..])
    {
      if !s2Matches[j] && s1[i] == s2[j] {
        assert FirstHit(s1, s2, d, i, old(s2Matches[..]), j);
        s1Matches[i] := true;
        s2Matches[j] := true;
        return true;
      }
      j := j + 1;
    }
    return false;
  }

  method GreedyMatch(s1: string, s2: string, d: nat, s1Matches: array<bool>, s2Matches: array<bool>)
    returns (matches: nat)
    requires s1Matches != s2Matches && s1Matches.Length == |s1| && s2Matches.Length == |s2|
    requires forall k :: 0 <= k < |s1| ==> !s1Matches[k]
    requires forall k :: 0 <= k < |s2| ==> !s2Matches[k]
    modifies s1Matches, s2Matches
    ensures s1Matches[..] == Flags1(s1, s2, d, |s1|)
    ensures s2Matches[..] == Flags2(s1, s2, d, |s1|)
    ensures matches == MatchCount(s1, s2, d)
  {
    matches := 0;
    for i := 0 to |s1|
      invariant s1Matches[..] == Flags1(s1, s2, d, i)
      invariant s2Matches[..] == Flags2(s1, s2, d, i)
      invariant matches == CountTrue(Flags1(s1, s2, d, i), i)
    {
      var hit := MatchOne(s1, s2, d, i, s1Matches, s2Matches);
      if hit {
        HitOutcome(s1, s2, d, i, s1Matches[..], s2Matches[..]);
        matches := matches + 1;
      } else {
        MissOutcome(s1, s2, d, i);
      }
    }
  }

  // ---- The transposition scan ----

  lemma {:induction false} CountGrows(f: seq<bool>, m: nat, n: nat)
    requires m <= n <= |f|
    ensures CountTrue(f, m) <= CountTrue(f, n)
    ensures (forall k :: m <= k < n ==> !f[k]) ==> CountTrue(f, m) == CountTrue(f, n)
  {
    if m == n {
    } else {
      CountGrows(f, m, n - 1);
    }
  }

  lemma {:induction false} SkipUnselected(s: string, f: seq<bool>, m: nat, n: nat)
    requires m <= n <= |s| == |f| && forall k :: m <= k < n ==> !f[k]
    ensures Selected(s, f, m) == Selected(s, f, n)
  {
    if m == n {
    } else {
      SkipUnselected(s, f, m, n - 1);
    }
  }

  // While the left array still has a flag to visit, so has the right one.
  lemma NextFlag(f1: seq<bool>, f2: seq<bool>, i: nat, k: nat) returns (stop: nat)
    requires CountTrue(f1, |f1|) == CountTrue(f2, |f2|)
    requires i < |f1| && f1[i] && k <= |f2| && CountTrue(f1, i) == CountTrue(f2, k)
    ensures k <= stop < |f2| && f2[stop]
  {
    CountGrows(f1, i + 1, |f1|);
    CountGrows(f2, k, |f2|);
    stop :| k <= stop < |f2| && f2[stop];
  }

  lemma NoFlagLeft(f: seq<bool>, k: nat)
    requires k <= |f| && CountTrue(f, k) == CountTrue(f, |f|)
    ensures forall r :: k <= r < |f| ==> !f[r]
  {
    forall r | k <= r < |f| ensures !f[r] {
      CountGrows(f, k, r);
      CountGrows(f, r + 1, |f|);
    }
  }

  // The inner `while not s2_matches[k]` is guarded by no bound in the source.
  // Equal numbers of flags are what keeps it inside the array.
  method CountTranspositions(s1: string, s2: string, s1Matches: array<bool>, s2Matches: array<bool>)
    returns (transpositions: nat)
    requires s1Matches.Length == |s1| && s2Matches.Length == |s2|
    requires CountTrue(s1Matches[..], |s1|) == CountTrue(s2Matches[..], |s2|)
    ensures |Selected(s1, s1Matches[..], |s1|)| == |Selected(s2, s2Matches[..], |s2|)|
    ensures transpositions
         == Mismatches(Selected(s1, s1Matches[..], |s1|), Selected(s2, s2Matches[..], |s2|))
  {
    ghost var f1, f2 := s1Matches[..], s2Matches[..];
    SelectedLength(s1, f1, |s1|);
    SelectedLength(s2, f2, |s2|);
    transpositions := 0;
    var k := 0;
    for i := 0 to |s1|
      invariant k <= |s2| && CountTrue(f1, i) == CountTrue(f2, k)
      invariant |Selected(s1, f1, i)| == |Selected(s2, f2, k)|
      invariant transpositions == Mismatches(Selected(s1, f1, i), Selected(s2, f2, k))
    {
      if s1Matches[i] {
        ghost var k0 := k;
        ghost var stop := NextFlag(f1, f2, i, k);
        while !s2Matches[k]
          invariant k0 <= k <= stop && forall r :: k0 <= r < k ==> !f2[r]
          decreases stop - k
        {
          k := k + 1;
        }
        SkipUnselected(s2, f2, k0, k);
        CountGrows(f2, k0, k);
        ghost var a, b := Selected(s1, f1, i), Selected(s2, f2, k);
        assert (a + [s1[i]])[..|a|] == a && (b + [s2[k]])[..|b|] == b;
        if s1[i] != s2[k] {
          transpositions := transpositions + 1;
        }
        k := k + 1;
      }
    }
    NoFlagLeft(f2, k);
    SkipUnselected(s2, f2, k, |s2|);
  }

  method JaroSimilarity(s1: string, s2: string) returns (score: real)
    ensures score == Similarity(s1, s2)
  {
    if s1 == s2 { return 1.0; }
    if s1 == [] || s2 == [] { return 0.0; }
    var len1, len2 := |s1|, |s2|;
    var matchDistance := Max(len1, len2) / 2 - 1;
    matchDistance := Max(matchDistance, 0);

    var s1Matches := new bool[len1](_ => false);
    var s2Matches := new bool[len2](_ => false);
    var matches := GreedyMatch(s1, s2, matchDistance, s1Matches, s2Matches);
    if matches == 0 { return 0.0; }

    SelectionsRearranged(s1, s2, matchDistance);
    var transpositions := CountTranspositions(s1, s2, s1Matches, s2Matches);
    transpositions := transpositions / 2;
    return Score(matches, transpositions, len1, len2);
  }

  // Counts the common prefix up to four characters.
  method PrefixLength(s1: string, s2: string) returns (prefix: nat)
    ensures prefix == CommonPrefix(s1, s2, 4)
  {
    prefix := 0;
    while prefix < |s1| && prefix < |s2|
      invariant prefix <= |s1| && prefix <= |s2| && prefix < 4
      invariant CommonPrefix(s1, s2, 4) == prefix + CommonPrefix(s1[prefix..], s2[prefix..], 4 - prefix)
      decreases |s1| - prefix
    {
      if s1[prefix] != s2[prefix] { break; }
      assert s1[prefix..][1..] == s1[prefix + 1..] && s2[prefix..][1..] == s2[prefix + 1..];
      prefix := prefix + 1;
      if prefix == 4 { break; }
    }
  }

  method JaroWinklerSimilarity(s1: string, s2: string, prefixWeight: real := 0.1) returns (score: real)
    ensures score == Winkler(s1, s2, prefixWeight)
  {
    var jaro := JaroSimilarity(s1, s2);
    var prefix := PrefixLength(s1, s2);
    return Boosted(jaro, Boost(prefix, prefixWeight));
  }
}
