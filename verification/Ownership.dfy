// aegis/data/reference.py, `OwnershipGraph`: the sanctioned share of an entity
// as a sum over ownership paths, on graphs that may be cyclic.
module Ownership {

  datatype Edge = Edge(ownerId: string, ownedId: string, pct: real)
  datatype Stake = Stake(owner: string, pct: real)
  type Owners = map<string, seq<Stake>>

  // `_depth > 4` stops the recursion, so a query follows at most five edges.
  const MAX_EDGES := 5

  function OwnersOf(g: Owners, entity: string): seq<Stake> {
    if entity in g then g[entity] else []
  }

  function Times(x: real, y: real): real { x * y }

  // ---- The share, and the class that computes it ----

  function Share(g: Owners, bad: set<string>, entity: string, budget: nat): real
    decreases budget, 0
  {
    if budget == 0 then 0.0
    else ShareOver(g, bad, OwnersOf(g, entity), |OwnersOf(g, entity)|, budget - 1)
  }

  function ShareOver(g: Owners, bad: set<string>, stakes: seq<Stake>, n: nat, budget: nat): real
    requires n <= |stakes|
    decreases budget, 2, n
  {
    if n == 0 then 0.0
    else ShareOver(g, bad, stakes, n - 1, budget) + Part(g, bad, stakes[n - 1], budget)
  }

  function Part(g: Owners, bad: set<string>, stake: Stake, budget: nat): real
    decreases budget, 1, 0
  {
    if stake.owner in bad then stake.pct else Times(stake.pct, Share(g, bad, stake.owner, budget))
  }

  // The stakes in an entity, in the order the edges were listed.
  function StakesIn(edges: seq<Edge>, entity: string): seq<Stake> {
    if edges == [] then []
    else
      var e := edges[|edges| - 1];
      if e.ownedId == entity then StakesIn(edges[..|edges| - 1], entity) + [Stake(e.ownerId, e.pct)]
      else StakesIn(edges[..|edges| - 1], entity)
  }

  class OwnershipGraph {
    var byOwned: Owners
    var sanctioned: set<string>

    constructor (edges: seq<Edge>, sanctionedIds: set<string>)
      ensures sanctioned == sanctionedIds
      ensures forall entity :: OwnersOf(byOwned, entity) == StakesIn(edges, entity)
    {
      var owned: Owners := map[];
      for i := 0 to |edges|
        invariant forall entity :: OwnersOf(owned, entity) == StakesIn(edges[..i], entity)
      {
        var e := edges[i];
        assert edges[..i + 1][..i] == edges[..i];
        owned := owned[e.ownedId := OwnersOf(owned, e.ownedId) + [Stake(e.ownerId, e.pct)]];
      }
      assert edges[..|edges|] == edges;
      byOwned := owned;
      sanctioned := sanctionedIds;
    }

    method SanctionedShare(entityId: string, depth: nat := 0) returns (total: real)
      ensures total == if depth > 4 then 0.0 else Share(byOwned, sanctioned, entityId, MAX_EDGES - depth)
      decreases 6 - depth
    {
      if depth > 4 { return 0.0; }
      total := 0.0;
      var stakes := OwnersOf(byOwned, entityId);
      for i := 0 to |stakes|
        invariant total == ShareOver(byOwned, sanctioned, stakes, i, MAX_EDGES - depth - 1)
      {
        if stakes[i].owner in sanctioned {
          total := total + stakes[i].pct;
        } else {
          var indirect := SanctionedShare(stakes[i].owner, depth + 1);
          total := total + stakes[i].pct * indirect;
        }
      }
    }
  }

  // ---- Ownership paths ----

  // A path names, hop by hop, which stake is followed up to the owner.
  type Path = seq<nat>

  // It runs through owners that are not sanctioned and stops at the first one that is.
  ghost predicate IsPath(g: Owners, bad: set<string>, entity: string, p: Path)
    decreases |p|
  {
    && p != [] && p[0] < |OwnersOf(g, entity)|
    && var owner := OwnersOf(g, entity)[p[0]].owner;
       if |p| == 1 then owner in bad else owner !in bad && IsPath(g, bad, owner, p[1..])
  }

  ghost function Weight(g: Owners, entity: string, p: Path): real
    decreases |p|
  {
    if p == [] || p[0] >= |OwnersOf(g, entity)| then 1.0
    else
      var stake := OwnersOf(g, entity)[p[0]];
      Times(stake.pct, Weight(g, stake.owner, p[1..]))
  }

  ghost function Total(g: Owners, entity: string, ps: seq<Path>): real {
    if ps == [] then 0.0 else Total(g, entity, ps[..|ps| - 1]) + Weight(g, entity, ps[|ps| - 1])
  }

  ghost predicate Distinct(ps: seq<Path>) {
    forall i, j :: 0 <= i < j < |ps| ==> ps[i] != ps[j]
  }

  // ps lists, each once, the paths from entity of at most `budget` edges.
  ghost predicate Lists(g: Owners, bad: set<string>, entity: string, budget: nat, ps: seq<Path>) {
    Distinct(ps) && forall p :: p in ps <==> IsPath(g, bad, entity, p) && |p| <= budget
  }

  // The same, for paths whose first hop is one of the first n stakes.
  ghost predicate ListsFrom(g: Owners, bad: set<string>, entity: string, budget: nat, n: nat, ps: seq<Path>) {
    Distinct(ps) && forall p :: p in ps <==> IsPath(g, bad, entity, p) && |p| <= budget && p[0] < n
  }

  ghost function Prepend(k: nat, ps: seq<Path>): seq<Path> {
    seq(|ps|, i requires 0 <= i < |ps| => [k] + ps[i])
  }

  lemma {:induction false} TotalConcat(g: Owners, entity: string, a: seq<Path>, b: seq<Path>)
    ensures Total(g, entity, a + b) == Total(g, entity, a) + Total(g, entity, b)
  {
    if b == [] {
      assert a + b == a;
    } else {
      var front := b[..|b| - 1];
      TotalConcat(g, entity, a, front);
      assert (a + b)[..|a + b| - 1] == a + front;
    }
  }

  lemma {:induction false} TotalPrepend(g: Owners, entity: string, k: nat, ps: seq<Path>)
    requires k < |OwnersOf(g, entity)|
    ensures var stake := OwnersOf(g, entity)[k];
      Total(g, entity, Prepend(k, ps)) == Times(stake.pct, Total(g, stake.owner, ps))
  {
    if ps == [] {
    } else {
      var stake := OwnersOf(g, entity)[k];
      var front, last := ps[..|ps| - 1], ps[|ps| - 1];
      TotalPrepend(g, entity, k, front);
      assert Prepend(k, ps)[..|ps| - 1] == Prepend(k, front);
      assert ([k] + last)[1..] == last;
      assert Weight(g, entity, [k] + last) == Times(stake.pct, Weight(g, stake.owner, last));
      Distribute(stake.pct, Total(g, stake.owner, front), Weight(g, stake.owner, last));
    }
  }

  lemma Distribute(x: real, y: real, z: real)
    ensures Times(x, y + z) == Times(x, y) + Times(x, z)
  {
  }

  lemma PrependLists(g: Owners, bad: set<string>, entity: string, budget: nat, k: nat, ps: seq<Path>)
    requires k < |OwnersOf(g, entity)| && OwnersOf(g, entity)[k].owner !in bad
    requires Lists(g, bad, OwnersOf(g, entity)[k].owner, budget, ps)
    ensures Distinct(Prepend(k, ps))
    ensures forall p :: p in Prepend(k, ps) <==> IsPath(g, bad, entity, p) && |p| <= budget + 1 && p[0] == k
  {
    var pre := Prepend(k, ps);
    var owner := OwnersOf(g, entity)[k].owner;
    forall i, j | 0 <= i < j < |pre| ensures pre[i] != pre[j] {
      assert pre[i][1..] == ps[i] && pre[j][1..] == ps[j];
    }
    forall p | p in pre ensures IsPath(g, bad, entity, p) && |p| <= budget + 1 && p[0] == k {
      var i :| 0 <= i < |pre| && pre[i] == p;
      assert p[1..] == ps[i] && ps[i] in ps;
      assert IsPath(g, bad, owner, ps[i]);
    }
    forall p | IsPath(g, bad, entity, p) && |p| <= budget + 1 && p[0] == k ensures p in pre {
      assert |p| > 1 && IsPath(g, bad, owner, p[1..]);
      var i :| 0 <= i < |ps| && ps[i] == p[1..];
      assert pre[i] == p;
    }
  }

  lemma OneHop(g: Owners, bad: set<string>, entity: string, k: nat, hop: Path)
    requires k < |OwnersOf(g, entity)| && OwnersOf(g, entity)[k].owner in bad && hop == [k]
    ensures forall p :: IsPath(g, bad, entity, p) && p[0] == k <==> p == hop
    ensures Total(g, entity, [hop]) == OwnersOf(g, entity)[k].pct
  {
    var ps := [hop];
    assert ps[..0] == [];
    assert Weight(g, OwnersOf(g, entity)[k].owner, hop[1..]) == 1.0;
  }

  // The part of the enumeration whose first hop is stake k.
  lemma {:induction false} PathsThrough(g: Owners, bad: set<string>, entity: string, budget: nat, k: nat)
    returns (ps: seq<Path>)
    requires k < |OwnersOf(g, entity)|
    ensures Distinct(ps)
    ensures forall p :: p in ps <==> IsPath(g, bad, entity, p) && |p| <= budget + 1 && p[0] == k
    ensures Total(g, entity, ps) == Part(g, bad, OwnersOf(g, entity)[k], budget)
    decreases budget, 1, 0
  {
    var stake := OwnersOf(g, entity)[k];
    if stake.owner in bad {
      ps := [[k]];
      OneHop(g, bad, entity, k, [k]);
    } else {
      var up := Enumerate(g, bad, stake.owner, budget);
      ps := Prepend(k, up);
      PrependLists(g, bad, entity, budget, k, up);
      TotalPrepend(g, entity, k, up);
    }
  }

  lemma {:induction false} EnumerateFrom(g: Owners, bad: set<string>, entity: string, budget: nat, n: nat)
    returns (ps: seq<Path>)
    requires n <= |OwnersOf(g, entity)|
    ensures ListsFrom(g, bad, entity, budget + 1, n, ps)
    ensures Total(g, entity, ps) == ShareOver(g, bad, OwnersOf(g, entity), n, budget)
    decreases budget, 2, n
  {
    if n == 0 {
      ps := [];
    } else {
      var front := EnumerateFrom(g, bad, entity, budget, n - 1);
      var back := PathsThrough(g, bad, entity, budget, n - 1);
      ps := front + back;
      TotalConcat(g, entity, front, back);
      DistinctConcat(front, back);
    }
  }

  lemma DistinctConcat(a: seq<Path>, b: seq<Path>)
    requires Distinct(a) && Distinct(b) && forall p :: p in a ==> p !in b
    ensures Distinct(a + b)
  {
    forall i, j | 0 <= i < |a| && 0 <= j < |b| ensures a[i] != b[j] {
      assert a[i] in a && b[j] in b;
    }
  }

  lemma {:induction false} Enumerate(g: Owners, bad: set<string>, entity: string, budget: nat) returns (ps: seq<Path>)
    ensures Lists(g, bad, entity, budget, ps) && Total(g, entity, ps) == Share(g, bad, entity, budget)
    decreases budget, 0
  {
    if budget == 0 {
      ps := [];
    } else {
      ps := EnumerateFrom(g, bad, entity, budget - 1, |OwnersOf(g, entity)|);
    }
  }

  lemma {:induction false} TotalRemove(g: Owners, entity: string, ps: seq<Path>, k: nat)
    requires k < |ps|
    ensures Total(g, entity, ps) == Total(g, entity, ps[..k] + ps[k + 1..]) + Weight(g, entity, ps[k])
  {
    assert ps == ps[..k] + ([ps[k]] + ps[k + 1..]);
    TotalConcat(g, entity, ps[..k], [ps[k]] + ps[k + 1..]);
    TotalConcat(g, entity, [ps[k]], ps[k + 1..]);
    TotalConcat(g, entity, ps[..k], ps[k + 1..]);
    var one := [ps[k]];
    assert one[..0] == [];
  }

  // Two listings of the same paths have the same total, whatever their order.
  lemma {:induction false} OrderIrrelevant(g: Owners, entity: string, a: seq<Path>, b: seq<Path>)
    requires Distinct(a) && Distinct(b) && forall p :: p in a <==> p in b
    ensures Total(g, entity, a) == Total(g, entity, b)
    decreases |a|
  {
    assert forall i :: 0 <= i < |b| ==> b[i] in b;
    if a == [] {
    } else {
      var front, last := a[..|a| - 1], a[|a| - 1];
      assert last in b;
      var k :| 0 <= k < |b| && b[k] == last;
      var rest := b[..k] + b[k + 1..];
      forall p ensures p in front <==> p in rest {
        if p in front { assert p in a && p != last; var i :| 0 <= i < |b| && b[i] == p; assert i != k;
          if i < k { assert rest[i] == p; } else { assert rest[i - 1] == p; } }
        if p in rest { assert p in b && p != last; }
      }
      OrderIrrelevant(g, entity, front, rest);
      TotalRemove(g, entity, b, k);
    }
  }

  // The share is the sum, over the ownership paths of at most five edges that
  // end at their first sanctioned owner, of the products of the percentages.
  lemma ShareIsPathSum(g: Owners, bad: set<string>, entity: string, ps: seq<Path>)
    requires Lists(g, bad, entity, 5, ps)
    ensures Share(g, bad, entity, MAX_EDGES) == Total(g, entity, ps)
  {
    var qs := Enumerate(g, bad, entity, MAX_EDGES);
    OrderIrrelevant(g, entity, ps, qs);
  }

  // Such a listing exists for every graph, cyclic or not.
  lemma PathsAreListable(g: Owners, bad: set<string>, entity: string) returns (ps: seq<Path>)
    ensures Lists(g, bad, entity, MAX_EDGES, ps)
  {
    ps := Enumerate(g, bad, entity, MAX_EDGES);
  }

  // ---- Range and monotonicity ----

  function Held(stakes: seq<Stake>, n: nat): real
    requires n <= |stakes|
  {
    if n == 0 then 0.0 else Held(stakes, n - 1) + stakes[n - 1].pct
  }

  // No entity is owned for more than the whole.
  ghost predicate Proper(g: Owners) {
    forall entity :: entity in g ==>
      Held(g[entity], |g[entity]|) <= 1.0 && forall i :: 0 <= i < |g[entity]| ==> g[entity][i].pct >= 0.0
  }

  lemma Scale(pct: real, x: real, y: real)
    requires 0.0 <= pct && 0.0 <= x <= y <= 1.0
    ensures 0.0 <= Times(pct, x) <= Times(pct, y) <= pct
  {
  }

  lemma {:induction false} ShareRange(g: Owners, bad: set<string>, entity: string, budget: nat)
    requires Proper(g)
    ensures 0.0 <= Share(g, bad, entity, budget) <= 1.0
    decreases budget, 0
  {
    if budget > 0 {
      ShareOverRange(g, bad, OwnersOf(g, entity), |OwnersOf(g, entity)|, budget - 1);
    }
  }

  lemma {:induction false} PartRange(g: Owners, bad: set<string>, stake: Stake, budget: nat)
    requires Proper(g) && stake.pct >= 0.0
    ensures 0.0 <= Part(g, bad, stake, budget) <= stake.pct
    decreases budget, 1, 0
  {
    ShareRange(g, bad, stake.owner, budget);
    Scale(stake.pct, Share(g, bad, stake.owner, budget), 1.0);
  }

  lemma {:induction false} ShareOverRange(g: Owners, bad: set<string>, stakes: seq<Stake>, n: nat, budget: nat)
    requires Proper(g) && n <= |stakes| && forall i :: 0 <= i < |stakes| ==> stakes[i].pct >= 0.0
    ensures 0.0 <= ShareOver(g, bad, stakes, n, budget) <= Held(stakes, n)
    decreases budget, 2, n
  {
    if n == 0 {
    } else {
      ShareOverRange(g, bad, stakes, n - 1, budget);
      PartRange(g, bad, stakes[n - 1], budget);
    }
  }

  // More sanctioned entities, or a deeper search, never lower the share.
  lemma {:induction false} ShareMonotone(g: Owners, bad: set<string>, worse: set<string>, entity: string,
                                         budget: nat, deeper: nat)
    requires Proper(g) && bad <= worse && budget <= deeper
    ensures Share(g, bad, entity, budget) <= Share(g, worse, entity, deeper)
    decreases budget, 0
  {
    ShareRange(g, worse, entity, deeper);
    if budget > 0 {
      var stakes := OwnersOf(g, entity);
      ShareOverMonotone(g, bad, worse, stakes, |stakes|, budget - 1, deeper - 1);
    }
  }

  lemma {:induction false} PartMonotone(g: Owners, bad: set<string>, worse: set<string>, stake: Stake,
                                        budget: nat, deeper: nat)
    requires Proper(g) && bad <= worse && budget <= deeper && stake.pct >= 0.0
    ensures Part(g, bad, stake, budget) <= Part(g, worse, stake, deeper)
    decreases budget, 1, 0
  {
    PartRange(g, bad, stake, budget);
    if stake.owner !in worse {
      ShareMonotone(g, bad, worse, stake.owner, budget, deeper);
      ShareRange(g, bad, stake.owner, budget);
      ShareRange(g, worse, stake.owner, deeper);
      Scale(stake.pct, Share(g, bad, stake.owner, budget), Share(g, worse, stake.owner, deeper));
    }
  }

  lemma {:induction false} ShareOverMonotone(g: Owners, bad: set<string>, worse: set<string>, stakes: seq<Stake>,
                                             n: nat, budget: nat, deeper: nat)
    requires Proper(g) && bad <= worse && budget <= deeper
    requires n <= |stakes| && forall i :: 0 <= i < |stakes| ==> stakes[i].pct >= 0.0
    ensures ShareOver(g, bad, stakes, n, budget) <= ShareOver(g, worse, stakes, n, deeper)
    decreases budget, 2, n
  {
    if n == 0 {
    } else {
      ShareOverMonotone(g, bad, worse, stakes, n - 1, budget, deeper);
      PartMonotone(g, bad, worse, stakes[n - 1], budget, deeper);
    }
  }
}
