// aegis/pipeline/f3_structuring.py: the findings of a run in terms of the
// transfers themselves, with every figure written out.
module StructuringLaws {
  import opened Velocity
  import opened Structuring

  // ---- Which transfers a window holds ----

  predicate SameCluster(u: Transfer, t: Transfer) {
    "struct:" + u.agent + ":" + u.beneficiary == "struct:" + t.agent + ":" + t.beneficiary
  }

  predicate WithinDay(u: Transfer, t: Transfer) {
    t.now - 86400.0 <= u.now <= t.now
  }

  // Of these transfers, in the closed day up to t: those of its agent, or those
  // of its cluster.
  function OfAgent(ts: seq<Transfer>, t: Transfer): seq<Entry> {
    if ts == [] then []
    else
      var u := ts[|ts| - 1];
      if u.agent == t.agent && WithinDay(u, t) then OfAgent(ts[..|ts| - 1], t) + [Entry(u.now, u.amount)]
      else OfAgent(ts[..|ts| - 1], t)
  }

  function OfCluster(ts: seq<Transfer>, t: Transfer): seq<Entry> {
    if ts == [] then []
    else
      var u := ts[|ts| - 1];
      if SameCluster(u, t) && WithinDay(u, t) then OfCluster(ts[..|ts| - 1], t) + [Entry(u.now, u.amount)]
      else OfCluster(ts[..|ts| - 1], t)
  }

  lemma BothRows(log: Table, u: Transfer, key: string)
    requires StructKey(u) != key || VelKey(u.agent) != key
    ensures OfKey(log + RowsOf(u), key) ==
      if StructKey(u) == key || VelKey(u.agent) == key then OfKey(log, key) + [Entry(u.now, u.amount)]
      else OfKey(log, key)
  {
    var log1 := log + [Row(StructKey(u), u.now, u.amount)];
    OfKeySnoc(log, Row(StructKey(u), u.now, u.amount), key);
    OfKeySnoc(log1, Row(VelKey(u.agent), u.now, u.amount), key);
    assert log1 + [Row(VelKey(u.agent), u.now, u.amount)] == log + RowsOf(u);
  }

  lemma {:induction false} AgentWindow(ts: seq<Transfer>, t: Transfer)
    ensures Between(OfKey(LogOf(ts), VelKey(t.agent)), t.now - 86400.0, t.now) == OfAgent(ts, t)
  {
    if ts == [] {
    } else {
      var front, u := ts[..|ts| - 1], ts[|ts| - 1];
      AgentWindow(front, t);
      KeysApart(u, t.agent);
      BothRows(LogOf(front), u, VelKey(t.agent));
      BetweenSnoc(OfKey(LogOf(front), VelKey(t.agent)), Entry(u.now, u.amount), t.now - 86400.0, t.now);
    }
  }

  lemma {:induction false} ClusterWindow(ts: seq<Transfer>, t: Transfer)
    ensures Between(OfKey(LogOf(ts), StructKey(t)), t.now - 86400.0, t.now) == OfCluster(ts, t)
  {
    if ts == [] {
    } else {
      var front, u := ts[..|ts| - 1], ts[|ts| - 1];
      ClusterWindow(front, t);
      KeysApart(t, u.agent);
      BothRows(LogOf(front), u, StructKey(t));
      BetweenSnoc(OfKey(LogOf(front), StructKey(t)), Entry(u.now, u.amount), t.now - 86400.0, t.now);
    }
  }

  // ---- The findings ----

  // More than 50 in the day, or more than 250,000.
  predicate OverCaps(before: seq<Entry>, amount: real) {
    |before| + 1 > 50 || Sum(before) + amount > 250000.0
  }

  // Three or more, each under 10,000, that come to as much together.
  predicate LooksSplit(before: seq<Entry>, amount: real) {
    && |before| + 1 >= 3 && Sum(before) + amount >= 10000.0
    && amount < 10000.0 && forall e :: e in before ==> e.amount < 10000.0
  }

  lemma AssessExactly(struct: seq<Entry>, vel: seq<Entry>, now: real, amount: real)
    ensures Assess(struct, vel, now, amount) == VelocityExceeded <==> OverCaps(vel, amount)
    ensures Assess(struct, vel, now, amount) == StructuringSuspected <==>
      !OverCaps(vel, amount) && LooksSplit(struct, amount)
  {
    var e := Entry(now, amount);
    SumSnoc(struct, e);
    SumSnoc(vel, e);
    assert forall x :: x in struct + [e] <==> x in struct || x == e;
  }

  // With either pruning store, over any run with a clock that never goes back:
  // a transfer exceeds the caps exactly by what its agent sent in the day, and
  // looks like structuring exactly by what went to its beneficiary.
  lemma FoundExactly(ts: seq<Transfer>, k: nat)
    requires NonDecreasing(ts) && k < |ts|
    ensures var t, before := ts[k], ts[..k];
      && MemFindings(ts)[k] == SqlFindings(ts)[k]
      && (MemFindings(ts)[k] == VelocityExceeded <==> OverCaps(OfAgent(before, t), t.amount))
      && (MemFindings(ts)[k] == StructuringSuspected <==>
            !OverCaps(OfAgent(before, t), t.amount) && LooksSplit(OfCluster(before, t), t.amount))
  {
    var t, before := ts[k], ts[..k];
    FindingsFromHistory(ts, k);
    AgentWindow(before, t);
    ClusterWindow(before, t);
    AssessExactly(OfCluster(before, t), OfAgent(before, t), t.now, t.amount);
  }

  // ---- What a cluster is ----

  // For one agent it is the beneficiary;
  lemma ClusterOfOneAgent(u: Transfer, t: Transfer)
    requires u.agent == t.agent
    ensures SameCluster(u, t) <==> u.beneficiary == t.beneficiary
  {
    var head := "struct:" + u.agent + ":";
    assert (head + u.beneficiary)[|head|..] == u.beneficiary && (head + t.beneficiary)[|head|..] == t.beneficiary;
  }

  // and agents whose names hold no colon keep apart.
  lemma ClustersApart(u: Transfer, t: Transfer)
    requires ':' !in u.agent && ':' !in t.agent
    ensures SameCluster(u, t) <==> u.agent == t.agent && u.beneficiary == t.beneficiary
  {
    var a, b := u.agent + ":" + u.beneficiary, t.agent + ":" + t.beneficiary;
    assert ("struct:" + u.agent + ":" + u.beneficiary)[7..] == a;
    assert ("struct:" + t.agent + ":" + t.beneficiary)[7..] == b;
    if |u.agent| < |t.agent| {
      ShorterDiffers(u.agent, u.beneficiary, t.agent, t.beneficiary);
    } else if |t.agent| < |u.agent| {
      ShorterDiffers(t.agent, t.beneficiary, u.agent, u.beneficiary);
    } else if u.agent == t.agent {
      ClusterOfOneAgent(u, t);
    } else {
      assert a[..|u.agent|] == u.agent && b[..|t.agent|] == t.agent;
    }
  }

  lemma ShorterDiffers(a: string, x: string, b: string, y: string)
    requires |a| < |b| && ':' !in b
    ensures a + ":" + x != b + ":" + y
  {
    assert (a + ":" + x)[|a|] == ':' && (b + ":" + y)[|a|] == b[|a|];
  }

  // With a colon two agents can share one.
  lemma ClustersCanMeet(amount: real, now: real)
    ensures var u, t := Transfer("did:a", "b", amount, now), Transfer("did", "a:b", amount, now);
      u.agent != t.agent && SameCluster(u, t)
  {
    assert "struct:" + "did:a" + ":" + "b" == "struct:" + "did" + ":" + "a:b";
  }
}
