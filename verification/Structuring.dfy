// aegis/pipeline/f3_structuring.py: what Feature 3 finds about a transfer, and
// what its caps guarantee over a whole run.
module Structuring {
  import opened Velocity

  const DAY := 86400.0
  const CTR_THRESHOLD_USD := 10000.0
  const MIN_CLUSTER := 3
  const MAX_COUNT_24H := 50
  const MAX_VALUE_24H_USD := 250000.0

  datatype Transfer = Transfer(agent: string, beneficiary: string, amount: real, now: real)

  function StructKey(t: Transfer): string { "struct:" + t.agent + ":" + t.beneficiary }
  function VelKey(agent: string): string { "vel:" + agent }

  datatype Finding = VelocityExceeded | StructuringSuspected | Clear

  function Sum(s: seq<Entry>): real {
    if s == [] then 0.0 else Sum(s[..|s| - 1]) + s[|s| - 1].amount
  }

  function Assess(priorStruct: seq<Entry>, priorVel: seq<Entry>, now: real, amount: real): Finding {
    var structWindow := priorStruct + [Entry(now, amount)];
    var velWindow := priorVel + [Entry(now, amount)];
    if |velWindow| > MAX_COUNT_24H || Sum(velWindow) > MAX_VALUE_24H_USD then VelocityExceeded
    else if
      && |structWindow| >= MIN_CLUSTER
      && (forall e :: e in structWindow ==> e.amount < CTR_THRESHOLD_USD)
      && Sum(structWindow) >= CTR_THRESHOLD_USD
    then StructuringSuspected
    else Clear
  }

  // ---- A run: each transfer reads two windows, then records twice ----

  function OpsOf(t: Transfer): seq<Op> {
    [Window(StructKey(t), t.now), Window(VelKey(t.agent), t.now),
     Record(StructKey(t), t.now, t.amount), Record(VelKey(t.agent), t.now, t.amount)]
  }

  function AllOps(ts: seq<Transfer>): (ops: seq<Op>)
    ensures |ops| == 4 * |ts|
  {
    if ts == [] then [] else OpsOf(ts[0]) + AllOps(ts[1..])
  }

  function Findings(ts: seq<Transfer>, answers: seq<seq<Entry>>): (fs: seq<Finding>)
    requires |answers| == 4 * |ts|
    ensures |fs| == |ts|
  {
    if ts == [] then []
    else [Assess(answers[0], answers[1], ts[0].now, ts[0].amount)] + Findings(ts[1..], answers[4..])
  }

  function MemFindings(ts: seq<Transfer>): (fs: seq<Finding>)
    ensures |fs| == |ts|
  {
    Findings(ts, MemRun(map[], AllOps(ts), Always(DAY)))
  }

  function SqlFindings(ts: seq<Transfer>): (fs: seq<Finding>)
    ensures |fs| == |ts|
  {
    Findings(ts, SqlRun([], AllOps(ts), Always(DAY)))
  }

  ghost predicate NonDecreasing(ts: seq<Transfer>) {
    forall i, j :: 0 <= i < j < |ts| ==> ts[i].now <= ts[j].now
  }

  // ---- The reference: what the whole unpruned history says ----

  function RowsOf(t: Transfer): Table {
    [Row(StructKey(t), t.now, t.amount), Row(VelKey(t.agent), t.now, t.amount)]
  }

  function LogOf(ts: seq<Transfer>): Table {
    if ts == [] then []
    else
      var t := ts[|ts| - 1];
      LogOf(ts[..|ts| - 1]) + RowsOf(t)
  }

  function FindingGiven(log: Table, t: Transfer): Finding {
    Assess(Between(OfKey(log, StructKey(t)), t.now - DAY, t.now),
           Between(OfKey(log, VelKey(t.agent)), t.now - DAY, t.now), t.now, t.amount)
  }

  function HistoryFinding(ts: seq<Transfer>, k: nat): Finding
    requires k < |ts|
  {
    FindingGiven(LogOf(ts[..k]), ts[k])
  }

  lemma {:induction false} OpsClock(ts: seq<Transfer>, t0: real)
    requires NonDecreasing(ts) && forall i :: 0 <= i < |ts| ==> t0 <= ts[i].now
    ensures ClockFrom(AllOps(ts), t0)
  {
    if ts == [] {
    } else {
      var rest := AllOps(ts[1..]);
      OpsClock(ts[1..], ts[0].now);
      var ops := AllOps(ts);
      assert forall i :: 0 <= i < |rest| ==> ops[i + 4] == rest[i];
      forall i | 0 <= i < |ops| ensures ops[i].Time() >= ts[0].now && (i < 4 ==> ops[i].Time() == ts[0].now) {
        if i >= 4 { assert ops[i] == rest[i - 4]; }
      }
      forall i, j | 0 <= i < j < |ops| ensures ops[i].Time() <= ops[j].Time() {
        if i >= 4 { assert ops[i] == rest[i - 4] && ops[j] == rest[j - 4]; }
      }
    }
  }

  lemma LogRunCons(log: Table, op: Op, rest: seq<Op>, width: string -> real)
    ensures var r := LogStep(log, op, width);
      LogRun(log, [op] + rest, width) == [r.answer] + LogRun(r.state, rest, width)
  {
    assert ([op] + rest)[1..] == rest;
  }

  // Two windows leave the log alone.
  lemma LogRunReads(log: Table, t: Transfer, rest: seq<Op>)
    ensures var width := Always(DAY);
      LogRun(log, [Window(StructKey(t), t.now)] + ([Window(VelKey(t.agent), t.now)] + rest), width)
      == [Between(OfKey(log, StructKey(t)), t.now - DAY, t.now)]
       + ([Between(OfKey(log, VelKey(t.agent)), t.now - DAY, t.now)] + LogRun(log, rest, width))
  {
    LogRunCons(log, Window(VelKey(t.agent), t.now), rest, Always(DAY));
    LogRunCons(log, Window(StructKey(t), t.now), [Window(VelKey(t.agent), t.now)] + rest, Always(DAY));
  }

  lemma LogRunRecords(log: Table, t: Transfer, rest: seq<Op>)
    ensures var width := Always(DAY);
      LogRun(log, [Record(StructKey(t), t.now, t.amount)] + ([Record(VelKey(t.agent), t.now, t.amount)] + rest), width)
      == [[]] + ([[]] + LogRun(log + RowsOf(t), rest, width))
  {
    var o3, o4 := Record(StructKey(t), t.now, t.amount), Record(VelKey(t.agent), t.now, t.amount);
    var log1 := log + [Row(StructKey(t), t.now, t.amount)];
    assert log1 + [Row(VelKey(t.agent), t.now, t.amount)] == log + RowsOf(t);
    LogRunCons(log1, o4, rest, Always(DAY));
    LogRunCons(log, o3, [o4] + rest, Always(DAY));
  }

  // The answers of the log to the four operations of one transfer.
  function AnswersOf(log: Table, t: Transfer): (answers: seq<seq<Entry>>)
    ensures |answers| == 4 && Assess(answers[0], answers[1], t.now, t.amount) == FindingGiven(log, t)
  {
    [Between(OfKey(log, StructKey(t)), t.now - DAY, t.now), Between(OfKey(log, VelKey(t.agent)), t.now - DAY, t.now),
     [], []]
  }

  lemma LogRunOne(log: Table, t: Transfer, rest: seq<Op>)
    ensures LogRun(log, OpsOf(t) + rest, Always(DAY)) == AnswersOf(log, t) + LogRun(log + RowsOf(t), rest, Always(DAY))
  {
    var o := OpsOf(t);
    var tail := [o[2]] + ([o[3]] + rest);
    assert o + rest == [o[0]] + ([o[1]] + tail);
    LogRunReads(log, t, tail);
    LogRunRecords(log, t, rest);
  }

  // What the log finds, one transfer after the other.
  function LogFound(log: Table, ts: seq<Transfer>): (fs: seq<Finding>)
    ensures |fs| == |ts|
    decreases |ts|
  {
    if ts == [] then [] else [FindingGiven(log, ts[0])] + LogFound(log + RowsOf(ts[0]), ts[1..])
  }

  lemma FindingsCons(ts: seq<Transfer>, first: seq<seq<Entry>>, later: seq<seq<Entry>>)
    requires ts != [] && |first| == 4 && |later| == 4 * (|ts| - 1)
    ensures Findings(ts, first + later)
         == [Assess(first[0], first[1], ts[0].now, ts[0].amount)] + Findings(ts[1..], later)
  {
    assert (first + later)[4..] == later;
  }

  lemma {:induction false} FindingsAreFound(log: Table, ts: seq<Transfer>)
    ensures Findings(ts, LogRun(log, AllOps(ts), Always(DAY))) == LogFound(log, ts)
    decreases |ts|
  {
    if ts == [] {
    } else {
      FindingsAreFound(log + RowsOf(ts[0]), ts[1..]);
      FoundHead(log, ts);
    }
  }

  lemma FoundHead(log: Table, ts: seq<Transfer>)
    requires ts != []
    ensures Findings(ts, LogRun(log, AllOps(ts), Always(DAY)))
         == [FindingGiven(log, ts[0])]
          + Findings(ts[1..], LogRun(log + RowsOf(ts[0]), AllOps(ts[1..]), Always(DAY)))
  {
    var ops := AllOps(ts[1..]);
    LogRunOne(log, ts[0], ops);
    FindingsCons(ts, AnswersOf(log, ts[0]), LogRun(log + RowsOf(ts[0]), ops, Always(DAY)));
  }

  lemma LogOfSnoc(done: seq<Transfer>, t: Transfer)
    ensures LogOf(done + [t]) == LogOf(done) + RowsOf(t)
  {
    assert (done + [t])[..|done|] == done;
  }

  lemma HistoryHere(done: seq<Transfer>, rest: seq<Transfer>)
    requires rest != []
    ensures HistoryFinding(done + rest, |done|) == FindingGiven(LogOf(done), rest[0])
  {
    assert (done + rest)[..|done|] == done;
  }

  lemma {:induction false} FoundFromHistory(done: seq<Transfer>, rest: seq<Transfer>, i: nat)
    requires i < |rest|
    ensures LogFound(LogOf(done), rest)[i] == HistoryFinding(done + rest, |done| + i)
    decreases |rest|
  {
    if i == 0 {
      HistoryHere(done, rest);
    } else {
      LogOfSnoc(done, rest[0]);
      FoundFromHistory(done + [rest[0]], rest[1..], i - 1);
      assert done + [rest[0]] + rest[1..] == done + rest;
    }
  }

  // With either pruning store, every transfer is judged as if the store had
  // kept everything.
  lemma FindingsFromHistory(ts: seq<Transfer>, k: nat)
    requires NonDecreasing(ts) && k < |ts|
    ensures MemFindings(ts)[k] == SqlFindings(ts)[k] == HistoryFinding(ts, k)
  {
    OpsClock(ts, ts[0].now);
    StoresAgree(AllOps(ts), ts[0].now, Always(DAY));
    FindingsAreFound([], ts);
    FoundFromHistory([], ts, k);
    assert [] + ts == ts;
  }

  // ---- Safety of the velocity caps ----

  // The transfers of an agent, among the first k, that fall in the closed day
  // starting at `start` and were let through, as (time, amount) entries.
  function LetThrough(ts: seq<Transfer>, fs: seq<Finding>, agent: string, start: real, k: nat): seq<Entry>
    requires k <= |ts| == |fs|
  {
    if k == 0 then []
    else
      var t := ts[k - 1];
      if t.agent == agent && start <= t.now <= start + DAY && fs[k - 1] != VelocityExceeded
      then LetThrough(ts, fs, agent, start, k - 1) + [Entry(t.now, t.amount)]
      else LetThrough(ts, fs, agent, start, k - 1)
  }

  lemma KeysApart(t: Transfer, agent: string)
    ensures StructKey(t) != VelKey(agent)
    ensures VelKey(t.agent) == VelKey(agent) <==> t.agent == agent
  {
    assert StructKey(t)[0] == 's' && VelKey(agent)[0] == 'v';
    assert VelKey(agent)[4..] == agent && VelKey(t.agent)[4..] == t.agent;
  }

  // The velocity history of an agent grows by exactly its own transfers.
  lemma VelHistoryStep(ts: seq<Transfer>, k: nat, agent: string)
    requires k < |ts|
    ensures var before, after := OfKey(LogOf(ts[..k]), VelKey(agent)), OfKey(LogOf(ts[..k + 1]), VelKey(agent));
      after == if ts[k].agent == agent then before + [Entry(ts[k].now, ts[k].amount)] else before
  {
    var t := ts[k];
    var log := LogOf(ts[..k]);
    assert ts[..k + 1][..k] == ts[..k];
    KeysApart(t, agent);
    OfKeySnoc(log, Row(StructKey(t), t.now, t.amount), VelKey(agent));
    OfKeySnoc(log + [Row(StructKey(t), t.now, t.amount)], Row(VelKey(t.agent), t.now, t.amount), VelKey(agent));
    assert log + RowsOf(t)
        == log + [Row(StructKey(t), t.now, t.amount)] + [Row(VelKey(t.agent), t.now, t.amount)];
  }

  lemma BetweenSnoc(s: seq<Entry>, e: Entry, lo: real, hi: real)
    ensures Between(s + [e], lo, hi) == if lo <= e.ts <= hi then Between(s, lo, hi) + [e] else Between(s, lo, hi)
  {
    assert (s + [e])[..|s|] == s;
  }

  lemma SumSnoc(s: seq<Entry>, e: Entry)
    ensures Sum(s + [e]) == Sum(s) + e.amount
  {
    assert (s + [e])[..|s|] == s;
  }

  // A window reaching back to `start` or before contains every transfer let through that day.
  lemma {:induction false} DayWithinWindow(ts: seq<Transfer>, fs: seq<Finding>, agent: string, start: real,
                                           lo: real, hi: real, k: nat)
    requires k <= |ts| == |fs| && lo <= start
    requires forall i :: 0 <= i < k ==> ts[i].now <= hi && ts[i].amount >= 0.0
    ensures var day := LetThrough(ts, fs, agent, start, k);
            var window := Between(OfKey(LogOf(ts[..k]), VelKey(agent)), lo, hi);
      |day| <= |window| && Sum(day) <= Sum(window)
  {
    if k == 0 {
      assert ts[..0] == [];
    } else {
      DayWithinWindow(ts, fs, agent, start, lo, hi, k - 1);
      var t := ts[k - 1];
      var e := Entry(t.now, t.amount);
      var history := OfKey(LogOf(ts[..k - 1]), VelKey(agent));
      VelHistoryStep(ts, k - 1, agent);
      BetweenSnoc(history, e, lo, hi);
      SumSnoc(Between(history, lo, hi), e);
      SumSnoc(LetThrough(ts, fs, agent, start, k - 1), e);
    }
  }

  // A transfer let through fits its own window under both caps.
  lemma Fits(priorStruct: seq<Entry>, priorVel: seq<Entry>, now: real, amount: real)
    requires Assess(priorStruct, priorVel, now, amount) != VelocityExceeded
    ensures |priorVel| + 1 <= MAX_COUNT_24H && Sum(priorVel) + amount <= MAX_VALUE_24H_USD
  {
    SumSnoc(priorVel, Entry(now, amount));
  }

  // The last transfer of the day let through saw the whole day in its own window.
  lemma LastSawTheDay(ts: seq<Transfer>, fs: seq<Finding>, agent: string, start: real, k: nat)
    requires k < |ts| == |fs| && NonDecreasing(ts)
    requires forall i :: 0 <= i < |ts| ==> ts[i].amount >= 0.0
    requires ts[k].agent == agent && start <= ts[k].now <= start + DAY
    requires FindingGiven(LogOf(ts[..k]), ts[k]) != VelocityExceeded
    ensures var day := LetThrough(ts, fs, agent, start, k);
      |day| + 1 <= MAX_COUNT_24H && Sum(day) + ts[k].amount <= MAX_VALUE_24H_USD
  {
    var t, log := ts[k], LogOf(ts[..k]);
    DayWithinWindow(ts, fs, agent, start, t.now - DAY, t.now, k);
    Fits(Between(OfKey(log, StructKey(t)), t.now - DAY, t.now),
         Between(OfKey(log, VelKey(agent)), t.now - DAY, t.now), t.now, t.amount);
  }

  lemma {:induction false} CapsHoldUpTo(ts: seq<Transfer>, fs: seq<Finding>, agent: string, start: real, k: nat)
    requires k <= |ts| == |fs| && NonDecreasing(ts)
    requires forall i :: 0 <= i < |ts| ==> ts[i].amount >= 0.0
    requires forall i :: 0 <= i < |ts| ==> fs[i] == HistoryFinding(ts, i)
    ensures |LetThrough(ts, fs, agent, start, k)| <= MAX_COUNT_24H
    ensures Sum(LetThrough(ts, fs, agent, start, k)) <= MAX_VALUE_24H_USD
  {
    if k == 0 {
    } else {
      CapsHoldUpTo(ts, fs, agent, start, k - 1);
      var t := ts[k - 1];
      if t.agent == agent && start <= t.now <= start + DAY && fs[k - 1] != VelocityExceeded {
        LastSawTheDay(ts, fs, agent, start, k - 1);
        SumSnoc(LetThrough(ts, fs, agent, start, k - 1), Entry(t.now, t.amount));
      }
    }
  }

  // With either store: at most 50 transfers and 250,000 USD of one agent in
  // any closed 24 hours, whatever was pruned on the way.
  lemma VelocityCapsHold(ts: seq<Transfer>, agent: string, start: real, fs: seq<Finding>)
    requires NonDecreasing(ts) && forall i :: 0 <= i < |ts| ==> ts[i].amount >= 0.0
    requires fs == MemFindings(ts) || fs == SqlFindings(ts)
    ensures |LetThrough(ts, fs, agent, start, |ts|)| <= MAX_COUNT_24H
    ensures Sum(LetThrough(ts, fs, agent, start, |ts|)) <= MAX_VALUE_24H_USD
  {
    forall k | 0 <= k < |ts| ensures fs[k] == HistoryFinding(ts, k) {
      FindingsFromHistory(ts, k);
    }
    CapsHoldUpTo(ts, fs, agent, start, |ts|);
  }
}
