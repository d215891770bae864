// aegis/state/velocity.py and aegis/storage/velocity_sqlite.py: two stores that
// prune as they answer, measured against a log that never forgets.
module Velocity {

  datatype Entry = Entry(ts: real, amount: real)

  // ---- Windows over a list of entries ----

  function Since(s: seq<Entry>, lo: real): seq<Entry> {
    if s == [] then []
    else if s[|s| - 1].ts >= lo then Since(s[..|s| - 1], lo) + [s[|s| - 1]]
    else Since(s[..|s| - 1], lo)
  }

  // The closed interval [lo, hi].
  function Between(s: seq<Entry>, lo: real, hi: real): seq<Entry> {
    if s == [] then []
    else if lo <= s[|s| - 1].ts <= hi then Between(s[..|s| - 1], lo, hi) + [s[|s| - 1]]
    else Between(s[..|s| - 1], lo, hi)
  }

  ghost predicate UpTo(s: seq<Entry>, hi: real) {
    forall i :: 0 <= i < |s| ==> s[i].ts <= hi
  }

  ghost predicate Chronological(s: seq<Entry>) {
    forall i, j :: 0 <= i < j < |s| ==> s[i].ts <= s[j].ts
  }

  lemma SinceSnoc(s: seq<Entry>, e: Entry, lo: real)
    ensures Since(s + [e], lo) == if e.ts >= lo then Since(s, lo) + [e] else Since(s, lo)
  {
    assert (s + [e])[..|s|] == s;
  }

  lemma {:induction false} SinceSince(s: seq<Entry>, lo: real, lo': real)
    requires lo <= lo'
    ensures Since(Since(s, lo), lo') == Since(s, lo')
  {
    if s == [] {
    } else {
      SinceSince(s[..|s| - 1], lo, lo');
      SinceSnoc(Since(s[..|s| - 1], lo), s[|s| - 1], lo');
    }
  }

  lemma {:induction false} SinceIsBetween(s: seq<Entry>, lo: real, hi: real)
    requires UpTo(s, hi)
    ensures Since(s, lo) == Between(s, lo, hi)
  {
    if s == [] {
    } else {
      SinceIsBetween(s[..|s| - 1], lo, hi);
    }
  }

  lemma {:induction false} BetweenChronological(s: seq<Entry>, lo: real, hi: real)
    requires Chronological(s)
    ensures Chronological(Between(s, lo, hi))
    ensures forall e :: e in Between(s, lo, hi) ==> e in s
  {
    if s == [] {
    } else {
      var front, last := s[..|s| - 1], s[|s| - 1];
      BetweenChronological(front, lo, hi);
      var b := Between(front, lo, hi);
      forall i | 0 <= i < |b| ensures b[i].ts <= last.ts {
        assert b[i] in front;
      }
    }
  }

  // ---- The in-memory store ----

  type Data = map<string, seq<Entry>>

  function Lookup(data: Data, key: string): seq<Entry> {
    if key in data then data[key] else []
  }

  class VelocityStore {
    var data: Data

    constructor ()
      ensures data == map[]
    {
      data := map[];
    }

    method Record(key: string, ts: real, amount: real)
      modifies this
      ensures Step(data, []) == MemStep(old(data), Op.Record(key, ts, amount), Always(0.0))
    {
      data := data[key := Lookup(data, key) + [Entry(ts, amount)]];
    }

    // Prunes for good what falls before the window; looks at no upper bound.
    method Window(key: string, now: real, windowSeconds: real) returns (entries: seq<Entry>)
      modifies this
      ensures Step(data, entries) == MemStep(old(data), Op.Window(key, now), Always(windowSeconds))
    {
      entries := Since(Lookup(data, key), now - windowSeconds);
      data := data[key := entries];
    }

    method Seed(mapping: Data)
      modifies this
      ensures data == old(data) + mapping
    {
      var left := mapping.Keys;
      while left != {}
        invariant left <= mapping.Keys
        invariant data == old(data) + (mapping - left)
      {
        var key :| key in left;
        data := data[key := mapping[key]];
        left := left - {key};
      }
      assert mapping - {} == mapping;
    }
  }

  // ---- The SQLite store ----

  datatype Row = Row(key: string, ts: real, amount: real)

  // Rows in the order of their autoincremented id.
  type Table = seq<Row>

  function Expire(rows: Table, key: string, cutoff: real): Table {
    if rows == [] then []
    else
      var last := rows[|rows| - 1];
      if last.key == key && last.ts < cutoff then Expire(rows[..|rows| - 1], key, cutoff)
      else Expire(rows[..|rows| - 1], key, cutoff) + [last]
  }

  function OfKey(rows: Table, key: string): seq<Entry> {
    if rows == [] then []
    else
      var last := rows[|rows| - 1];
      if last.key == key then OfKey(rows[..|rows| - 1], key) + [Entry(last.ts, last.amount)]
      else OfKey(rows[..|rows| - 1], key)
  }

  // ORDER BY ts, id: entries come in id order, so equal times keep their order.
  function OrderByTs(s: seq<Entry>): seq<Entry> {
    if s == [] then [] else InsertByTs(OrderByTs(s[..|s| - 1]), s[|s| - 1])
  }

  function InsertByTs(s: seq<Entry>, e: Entry): seq<Entry> {
    if s == [] || s[|s| - 1].ts <= e.ts then s + [e]
    else InsertByTs(s[..|s| - 1], e) + [s[|s| - 1]]
  }

  lemma {:induction false} OrderIsSorted(s: seq<Entry>)
    ensures Chronological(OrderByTs(s)) && multiset(OrderByTs(s)) == multiset(s)
  {
    if s == [] {
    } else {
      var front, last := s[..|s| - 1], s[|s| - 1];
      OrderIsSorted(front);
      InsertKeeps(OrderByTs(front), last);
      InsertKeepsOrder(OrderByTs(front), last);
      assert s == front + [last];
    }
  }

  lemma {:induction false} InsertKeeps(s: seq<Entry>, e: Entry)
    ensures multiset(InsertByTs(s, e)) == multiset(s) + multiset{e}
  {
    if s == [] || s[|s| - 1].ts <= e.ts {
    } else {
      InsertKeeps(s[..|s| - 1], e);
      assert s == s[..|s| - 1] + [s[|s| - 1]];
    }
  }

  lemma {:induction false} InsertKeepsOrder(s: seq<Entry>, e: Entry)
    requires Chronological(s)
    ensures Chronological(InsertByTs(s, e))
  {
    if s == [] || s[|s| - 1].ts <= e.ts {
    } else {
      var front, last := s[..|s| - 1], s[|s| - 1];
      InsertKeepsOrder(front, e);
      var ins := InsertByTs(front, e);
      forall i | 0 <= i < |ins| ensures ins[i].ts <= last.ts {
        InsertKeeps(front, e);
        assert ins[i] in multiset(front) + multiset{e};
      }
    }
  }

  lemma {:induction false} AlreadyOrdered(s: seq<Entry>)
    requires Chronological(s)
    ensures OrderByTs(s) == s
  {
    if s == [] {
    } else {
      var front := s[..|s| - 1];
      AlreadyOrdered(front);
      assert front != [] ==> s[|front| - 1].ts <= s[|s| - 1].ts;
      assert s == front + [s[|s| - 1]];
    }
  }

  class SqliteVelocityStore {
    var rows: Table

    constructor ()
      ensures rows == []
    {
      rows := [];
    }

    method Record(key: string, ts: real, amount: real)
      modifies this
      ensures Step(rows, []) == SqlStep(old(rows), Op.Record(key, ts, amount), Always(0.0))
    {
      rows := rows + [Row(key, ts, amount)];
    }

    method Window(key: string, now: real, windowSeconds: real) returns (entries: seq<Entry>)
      modifies this
      ensures Step(rows, entries) == SqlStep(old(rows), Op.Window(key, now), Always(windowSeconds))
    {
      var cutoff := now - windowSeconds;
      rows := Expire(rows, key, cutoff);
      entries := OrderByTs(Between(OfKey(rows, key), cutoff, now));
    }
  }

  // ---- Runs ----

  datatype Op =
    | Record(key: string, ts: real, amount: real)
    | Window(key: string, now: real)
  {
    function Time(): real { if Record? then ts else now }
  }

  // One width for every key.
  function Always(windowSeconds: real): string -> real {
    _ => windowSeconds
  }

  datatype Step<S> = Step(state: S, answer: seq<Entry>)

  function MemStep(data: Data, op: Op, width: string -> real): Step<Data> {
    match op
    case Record(key, ts, amount) => Step(data[key := Lookup(data, key) + [Entry(ts, amount)]], [])
    case Window(key, now) =>
      var entries := Since(Lookup(data, key), now - width(key));
      Step(data[key := entries], entries)
  }

  function SqlStep(rows: Table, op: Op, width: string -> real): Step<Table> {
    match op
    case Record(key, ts, amount) => Step(rows + [Row(key, ts, amount)], [])
    case Window(key, now) =>
      var rows' := Expire(rows, key, now - width(key));
      Step(rows', OrderByTs(Between(OfKey(rows', key), now - width(key), now)))
  }

  // The reference: nothing is ever dropped, and a window is a closed interval.
  function LogStep(log: Table, op: Op, width: string -> real): Step<Table> {
    match op
    case Record(key, ts, amount) => Step(log + [Row(key, ts, amount)], [])
    case Window(key, now) => Step(log, Between(OfKey(log, key), now - width(key), now))
  }

  function MemRun(data: Data, ops: seq<Op>, width: string -> real): (answers: seq<seq<Entry>>)
    ensures |answers| == |ops|
    decreases |ops|
  {
    if ops == [] then []
    else var r := MemStep(data, ops[0], width); [r.answer] + MemRun(r.state, ops[1..], width)
  }

  function SqlRun(rows: Table, ops: seq<Op>, width: string -> real): (answers: seq<seq<Entry>>)
    ensures |answers| == |ops|
    decreases |ops|
  {
    if ops == [] then []
    else var r := SqlStep(rows, ops[0], width); [r.answer] + SqlRun(r.state, ops[1..], width)
  }

  function LogRun(log: Table, ops: seq<Op>, width: string -> real): (answers: seq<seq<Entry>>)
    ensures |answers| == |ops|
    decreases |ops|
  {
    if ops == [] then []
    else var r := LogStep(log, ops[0], width); [r.answer] + LogRun(r.state, ops[1..], width)
  }

  ghost predicate ClockFrom(ops: seq<Op>, t: real) {
    && (forall i :: 0 <= i < |ops| ==> t <= ops[i].Time())
    && (forall i, j :: 0 <= i < j < |ops| ==> ops[i].Time() <= ops[j].Time())
  }

  // ---- What a pruned list still knows ----

  // From the horizon of any window asked at time t or later, the list kept
  // for a key and the full history of the key look the same.
  ghost predicate SameAhead(kept: seq<Entry>, history: seq<Entry>, horizon: real) {
    forall lo :: lo >= horizon ==> Since(kept, lo) == Since(history, lo)
  }

  ghost predicate LogUpTo(log: Table, t: real) {
    forall key :: UpTo(OfKey(log, key), t) && Chronological(OfKey(log, key))
  }

  ghost predicate MemAgrees(data: Data, log: Table, t: real, width: string -> real) {
    forall key :: SameAhead(Lookup(data, key), OfKey(log, key), t - width(key))
  }

  ghost predicate SqlAgrees(rows: Table, log: Table, t: real, width: string -> real) {
    forall key :: SameAhead(OfKey(rows, key), OfKey(log, key), t - width(key))
  }

  lemma SameAheadRecord(kept: seq<Entry>, history: seq<Entry>, horizon: real, e: Entry)
    requires SameAhead(kept, history, horizon)
    ensures SameAhead(kept + [e], history + [e], horizon)
  {
    forall lo | lo >= horizon ensures Since(kept + [e], lo) == Since(history + [e], lo) {
      SinceSnoc(kept, e, lo);
      SinceSnoc(history, e, lo);
    }
  }

  lemma SameAheadLater(kept: seq<Entry>, history: seq<Entry>, horizon: real, later: real)
    requires SameAhead(kept, history, horizon) && horizon <= later
    ensures SameAhead(kept, history, later)
  {
  }

  lemma SameAheadPrune(kept: seq<Entry>, history: seq<Entry>, horizon: real)
    requires SameAhead(kept, history, horizon)
    ensures SameAhead(Since(kept, horizon), history, horizon)
  {
    forall lo | lo >= horizon ensures Since(Since(kept, horizon), lo) == Since(history, lo) {
      SinceSince(kept, horizon, lo);
    }
  }

  lemma OfKeySnoc(rows: Table, row: Row, key: string)
    ensures OfKey(rows + [row], key)
         == if row.key == key then OfKey(rows, key) + [Entry(row.ts, row.amount)] else OfKey(rows, key)
  {
    assert (rows + [row])[..|rows|] == rows;
  }

  lemma {:induction false} ExpireView(rows: Table, key: string, cutoff: real, other: string)
    ensures OfKey(Expire(rows, key, cutoff), other)
         == if other == key then Since(OfKey(rows, key), cutoff) else OfKey(rows, other)
  {
    if rows == [] {
    } else {
      var front, last := rows[..|rows| - 1], rows[|rows| - 1];
      ExpireView(front, key, cutoff, other);
      OfKeySnoc(Expire(front, key, cutoff), last, other);
      SinceSnoc(OfKey(front, key), Entry(last.ts, last.amount), cutoff);
    }
  }

  lemma LaterEntry(s: seq<Entry>, e: Entry, t: real)
    requires UpTo(s, t) && Chronological(s) && t <= e.ts
    ensures UpTo(s, e.ts) && UpTo(s + [e], e.ts) && Chronological(s + [e])
  {
  }

  lemma LogAdvances(log: Table, row: Row, t: real)
    requires LogUpTo(log, t) && t <= row.ts
    ensures LogUpTo(log + [row], row.ts)
  {
    forall key ensures UpTo(OfKey(log + [row], key), row.ts) && Chronological(OfKey(log + [row], key)) {
      OfKeySnoc(log, row, key);
      LaterEntry(OfKey(log, key), Entry(row.ts, row.amount), t);
    }
  }

  lemma LogStepKeeps(log: Table, op: Op, t: real, width: string -> real)
    requires LogUpTo(log, t) && t <= op.Time()
    ensures LogUpTo(LogStep(log, op, width).state, op.Time())
  {
    match op
    case Record(key, ts, amount) => LogAdvances(log, Row(key, ts, amount), t);
    case Window(key, now) => forall k ensures UpTo(OfKey(log, k), now) && Chronological(OfKey(log, k)) {
        assert UpTo(OfKey(log, k), t) && Chronological(OfKey(log, k));
      }
  }

  lemma MemStepAgrees(data: Data, log: Table, op: Op, t: real, width: string -> real)
    requires MemAgrees(data, log, t, width) && LogUpTo(log, t) && t <= op.Time()
    ensures MemStep(data, op, width).answer == LogStep(log, op, width).answer
    ensures MemAgrees(MemStep(data, op, width).state, LogStep(log, op, width).state, op.Time(), width)
  {
    var data', log' := MemStep(data, op, width).state, LogStep(log, op, width).state;
    forall key ensures SameAhead(Lookup(data', key), OfKey(log', key), op.Time() - width(key)) {
      assert SameAhead(Lookup(data, key), OfKey(log, key), t - width(key));
      if op.Record? {
        OfKeySnoc(log, Row(op.key, op.ts, op.amount), key);
        SameAheadRecord(Lookup(data, key), OfKey(log, key), t - width(key), Entry(op.ts, op.amount));
      } else if key == op.key {
        SameAheadPrune(Lookup(data, key), OfKey(log, key), op.now - width(key));
      }
    }
    if op.Window? {
      assert SameAhead(Lookup(data, op.key), OfKey(log, op.key), t - width(op.key));
      assert UpTo(OfKey(log, op.key), t);
      SinceIsBetween(OfKey(log, op.key), op.now - width(op.key), op.now);
    }
  }

  lemma SqlAnswer(kept: seq<Entry>, history: seq<Entry>, lo: real, now: real)
    requires Since(kept, lo) == Since(history, lo) && UpTo(history, now) && Chronological(history)
    ensures OrderByTs(Between(Since(kept, lo), lo, now)) == Between(history, lo, now)
  {
    SinceIsBetween(history, lo, now);
    BetweenChronological(history, lo, now);
    var answer := Between(history, lo, now);
    SinceSince(kept, lo, lo);
    forall i | 0 <= i < |answer| ensures answer[i].ts <= now { assert answer[i] in history; }
    SinceIsBetween(answer, lo, now);
    AlreadyOrdered(answer);
  }

  lemma SqlStepAgrees(rows: Table, log: Table, op: Op, t: real, width: string -> real)
    requires SqlAgrees(rows, log, t, width) && LogUpTo(log, t) && t <= op.Time()
    ensures SqlStep(rows, op, width).answer == LogStep(log, op, width).answer
    ensures SqlAgrees(SqlStep(rows, op, width).state, LogStep(log, op, width).state, op.Time(), width)
  {
    match op
    case Record(key, ts, amount) => SqlRecordAgrees(rows, log, Row(key, ts, amount), t, width);
    case Window(key, now) => SqlWindowAgrees(rows, log, key, now, t, width);
  }

  lemma SqlRecordAgrees(rows: Table, log: Table, row: Row, t: real, width: string -> real)
    requires SqlAgrees(rows, log, t, width) && t <= row.ts
    ensures SqlAgrees(rows + [row], log + [row], row.ts, width)
  {
    forall key ensures SameAhead(OfKey(rows + [row], key), OfKey(log + [row], key), row.ts - width(key)) {
      OfKeySnoc(rows, row, key);
      OfKeySnoc(log, row, key);
      SameAheadRecord(OfKey(rows, key), OfKey(log, key), t - width(key), Entry(row.ts, row.amount));
    }
  }

  lemma SqlWindowAgrees(rows: Table, log: Table, key: string, now: real, t: real, width: string -> real)
    requires SqlAgrees(rows, log, t, width) && LogUpTo(log, t) && t <= now
    ensures SqlStep(rows, Window(key, now), width).answer == LogStep(log, Window(key, now), width).answer
    ensures SqlAgrees(SqlStep(rows, Window(key, now), width).state, log, now, width)
  {
    SqlExpireAgrees(rows, log, key, now, t, width);
    assert SameAhead(OfKey(rows, key), OfKey(log, key), t - width(key));
    assert UpTo(OfKey(log, key), t) && Chronological(OfKey(log, key));
    ExpireView(rows, key, now - width(key), key);
    SqlAnswer(OfKey(rows, key), OfKey(log, key), now - width(key), now);
  }

  lemma SqlExpireAgrees(rows: Table, log: Table, key: string, now: real, t: real, width: string -> real)
    requires SqlAgrees(rows, log, t, width) && t <= now
    ensures SqlAgrees(Expire(rows, key, now - width(key)), log, now, width)
  {
    var rows' := Expire(rows, key, now - width(key));
    forall other ensures SameAhead(OfKey(rows', other), OfKey(log, other), now - width(other)) {
      ExpireView(rows, key, now - width(key), other);
      SameAheadLater(OfKey(rows, other), OfKey(log, other), t - width(other), now - width(other));
      SameAheadPrune(OfKey(rows, other), OfKey(log, other), now - width(other));
    }
  }

  // ---- Whole runs ----

  lemma {:induction false} RunsAgree(data: Data, rows: Table, log: Table, ops: seq<Op>, t: real, width: string -> real)
    requires MemAgrees(data, log, t, width) && SqlAgrees(rows, log, t, width) && LogUpTo(log, t)
    requires ClockFrom(ops, t)
    ensures MemRun(data, ops, width) == LogRun(log, ops, width) == SqlRun(rows, ops, width)
    decreases |ops|
  {
    if ops == [] {
    } else {
      var op := ops[0];
      LogStepKeeps(log, op, t, width);
      MemStepAgrees(data, log, op, t, width);
      SqlStepAgrees(rows, log, op, t, width);
      RunsAgree(MemStep(data, op, width).state, SqlStep(rows, op, width).state,
                LogStep(log, op, width).state, ops[1..], op.Time(), width);
    }
  }

  // Started empty and driven by a clock that never goes back, the pruning
  // stores answer every window exactly as the full log would.
  lemma StoresAgree(ops: seq<Op>, t: real, width: string -> real)
    requires ClockFrom(ops, t)
    ensures MemRun(map[], ops, width) == LogRun([], ops, width) == SqlRun([], ops, width)
  {
    RunsAgree(map[], [], [], ops, t, width);
  }

  // ---- Exactly when they agree ----

  // Operations that read the clock at these times, one after the other.
  ghost predicate Reads(ops: seq<Op>, ts: seq<real>) {
    |ops| == |ts| && forall i :: 0 <= i < |ts| ==> ops[i].Time() == ts[i]
  }

  ghost predicate NeverBack(ts: seq<real>) {
    forall i, j :: 0 <= i < j < |ts| ==> ts[i] <= ts[j]
  }

  ghost predicate AllAgree(ops: seq<Op>, windowSeconds: real) {
    MemRun(map[], ops, Always(windowSeconds)) == LogRun([], ops, Always(windowSeconds))
      == SqlRun([], ops, Always(windowSeconds))
  }

  // For any readings of the clock and any width: the three stores answer alike
  // whatever is recorded and asked at those readings exactly if the clock never
  // goes back.
  lemma AgreeExactly(ts: seq<real>, windowSeconds: real)
    requires windowSeconds >= 0.0
    ensures (forall ops :: Reads(ops, ts) ==> AllAgree(ops, windowSeconds)) <==> NeverBack(ts)
  {
    if NeverBack(ts) {
      forall ops | Reads(ops, ts) ensures AllAgree(ops, windowSeconds) {
        StoresAgree(ops, if ts == [] then 0.0 else ts[0], Always(windowSeconds));
      }
    } else {
      var i, j :| 0 <= i < j < |ts| && ts[i] > ts[j];
      assert Reads(Witness(ts, i, j), ts);
      WitnessParts(ts, i, j, windowSeconds);
    }
  }

  const HERE := "a"
  const ELSEWHERE := "b"

  // Records at reading i, asks for it at reading j, and looks elsewhere otherwise.
  function WitnessOp(ts: seq<real>, i: nat, j: nat, k: nat): Op
    requires k < |ts|
  {
    if k == i then Record(HERE, ts[k], 0.0) else if k == j then Window(HERE, ts[k]) else Window(ELSEWHERE, ts[k])
  }

  function Witness(ts: seq<real>, i: nat, j: nat): (ops: seq<Op>)
    ensures |ops| == |ts| && forall k :: 0 <= k < |ts| ==> ops[k] == WitnessOp(ts, i, j, k)
  {
    seq(|ts|, k requires 0 <= k < |ts| => WitnessOp(ts, i, j, k))
  }

  // The state that the n-th operation of a run finds.
  function MemAfter(data: Data, ops: seq<Op>, n: nat, width: string -> real): Data
    requires n <= |ops|
  {
    if n == 0 then data else MemStep(MemAfter(data, ops, n - 1, width), ops[n - 1], width).state
  }

  function LogAfter(log: Table, ops: seq<Op>, n: nat, width: string -> real): Table
    requires n <= |ops|
  {
    if n == 0 then log else LogStep(LogAfter(log, ops, n - 1, width), ops[n - 1], width).state
  }

  lemma {:induction false} MemAfterHead(data: Data, ops: seq<Op>, n: nat, width: string -> real)
    requires 0 < n <= |ops|
    ensures MemAfter(data, ops, n, width) == MemAfter(MemStep(data, ops[0], width).state, ops[1..], n - 1, width)
  {
    if n == 1 {
      assert MemAfter(data, ops, 0, width) == data;
    } else {
      MemAfterHead(data, ops, n - 1, width);
    }
  }

  lemma {:induction false} LogAfterHead(log: Table, ops: seq<Op>, n: nat, width: string -> real)
    requires 0 < n <= |ops|
    ensures LogAfter(log, ops, n, width) == LogAfter(LogStep(log, ops[0], width).state, ops[1..], n - 1, width)
  {
    if n == 1 {
      assert LogAfter(log, ops, 0, width) == log;
    } else {
      LogAfterHead(log, ops, n - 1, width);
    }
  }

  lemma {:induction false} MemAnswer(data: Data, ops: seq<Op>, n: nat, width: string -> real)
    requires n < |ops|
    ensures MemRun(data, ops, width)[n] == MemStep(MemAfter(data, ops, n, width), ops[n], width).answer
    decreases n
  {
    if n == 0 {
    } else {
      MemAfterHead(data, ops, n, width);
      MemAnswer(MemStep(data, ops[0], width).state, ops[1..], n - 1, width);
    }
  }

  lemma {:induction false} LogAnswer(log: Table, ops: seq<Op>, n: nat, width: string -> real)
    requires n < |ops|
    ensures LogRun(log, ops, width)[n] == LogStep(LogAfter(log, ops, n, width), ops[n], width).answer
    decreases n
  {
    if n == 0 {
    } else {
      LogAfterHead(log, ops, n, width);
      LogAnswer(LogStep(log, ops[0], width).state, ops[1..], n - 1, width);
    }
  }

  // What both hold here before reading j: nothing, and after reading i the one entry.
  lemma {:induction false} KeptHere(ts: seq<real>, i: nat, j: nat, n: nat, width: string -> real)
    requires i < j < |ts| && n <= j
    ensures Lookup(MemAfter(map[], Witness(ts, i, j), n, width), HERE) == if n <= i then [] else [Entry(ts[i], 0.0)]
    ensures OfKey(LogAfter([], Witness(ts, i, j), n, width), HERE) == if n <= i then [] else [Entry(ts[i], 0.0)]
  {
    if n == 0 {
    } else {
      var ops := Witness(ts, i, j);
      KeptHere(ts, i, j, n - 1, width);
      assert ops[n - 1] == WitnessOp(ts, i, j, n - 1);
      OneStepHere(MemAfter(map[], ops, n - 1, width), LogAfter([], ops, n - 1, width), ops[n - 1], width);
    }
  }

  lemma OneStepHere(data: Data, log: Table, op: Op, width: string -> real)
    requires op.key == HERE ==> op.Record?
    ensures var added := if op.key == HERE then [Entry(op.ts, op.amount)] else [];
      && Lookup(MemStep(data, op, width).state, HERE) == Lookup(data, HERE) + added
      && OfKey(LogStep(log, op, width).state, HERE) == OfKey(log, HERE) + added
  {
    if op.Record? { OfKeySnoc(log, Row(op.key, op.ts, op.amount), HERE); }
  }

  // The entry lies after the reading at which it is asked for: memory returns
  // it, and the log does not.
  lemma WitnessParts(ts: seq<real>, i: nat, j: nat, windowSeconds: real)
    requires i < j < |ts| && ts[i] > ts[j] && windowSeconds >= 0.0
    ensures !AllAgree(Witness(ts, i, j), windowSeconds)
  {
    WitnessInMemory(ts, i, j, Always(windowSeconds));
    WitnessInLog(ts, i, j, Always(windowSeconds));
  }

  lemma WitnessInMemory(ts: seq<real>, i: nat, j: nat, width: string -> real)
    requires i < j < |ts| && ts[i] > ts[j] && width(HERE) >= 0.0
    ensures MemRun(map[], Witness(ts, i, j), width)[j] == [Entry(ts[i], 0.0)]
  {
    var ops := Witness(ts, i, j);
    assert ops[j] == Window(HERE, ts[j]);
    KeptHere(ts, i, j, j, width);
    MemAnswer(map[], ops, j, width);
    MemFinds(MemAfter(map[], ops, j, width), HERE, Entry(ts[i], 0.0), ts[j], width);
  }

  lemma WitnessInLog(ts: seq<real>, i: nat, j: nat, width: string -> real)
    requires i < j < |ts| && ts[i] > ts[j]
    ensures LogRun([], Witness(ts, i, j), width)[j] == []
  {
    var ops := Witness(ts, i, j);
    assert ops[j] == Window(HERE, ts[j]);
    KeptHere(ts, i, j, j, width);
    LogAnswer([], ops, j, width);
    LogMisses(LogAfter([], ops, j, width), HERE, Entry(ts[i], 0.0), ts[j], width);
  }

  lemma MemFinds(data: Data, key: string, e: Entry, now: real, width: string -> real)
    requires Lookup(data, key) == [e] && now < e.ts && width(key) >= 0.0
    ensures MemStep(data, Window(key, now), width).answer == [e]
  {
    SinceOne(e, now - width(key));
  }

  lemma LogMisses(log: Table, key: string, e: Entry, now: real, width: string -> real)
    requires OfKey(log, key) == [e] && now < e.ts
    ensures LogStep(log, Window(key, now), width).answer == []
  {
    BetweenOne(e, now - width(key), now);
  }

  lemma SinceOne(e: Entry, lo: real)
    ensures Since([e], lo) == if e.ts >= lo then [e] else []
  {
    SinceSnoc([], e, lo);
    assert [] + [e] == [e];
  }

  lemma BetweenOne(e: Entry, lo: real, hi: real)
    ensures Between([e], lo, hi) == if lo <= e.ts <= hi then [e] else []
  {
    assert [e][..0] == [];
  }

  lemma OfKeyOne(row: Row)
    ensures OfKey([row], row.key) == [Entry(row.ts, row.amount)]
  {
    OfKeySnoc([], row, row.key);
    assert [] + [row] == [row];
  }

  lemma ExpireOne(row: Row, cutoff: real)
    ensures Expire([row], row.key, cutoff) == if row.ts < cutoff then [] else [row]
  {
    assert [row][..0] == [];
  }

  // Two ways in which they part. Where a window was asked for late, an entry
  // too old for it is gone from memory and SQLite when the clock comes back,
  // but not from the log.
  lemma PrunedForGood(width: string -> real, key: string, amount: real, t: real, late: real, now: real)
    requires now - width(key) <= t <= now && t < late - width(key)
    ensures var e, row := Entry(t, amount), Row(key, t, amount);
      && MemStep(MemStep(map[key := [e]], Window(key, late), width).state, Window(key, now), width).answer == []
      && SqlStep(SqlStep([row], Window(key, late), width).state, Window(key, now), width).answer == []
      && LogStep(LogStep([row], Window(key, late), width).state, Window(key, now), width).answer == [e]
  {
    MemPrunes(width, map[key := [Entry(t, amount)]], key, late, now);
    SqlPrunes(width, Row(key, t, amount), late, now);
    OfKeyOne(Row(key, t, amount));
    BetweenOne(Entry(t, amount), now - width(key), now);
  }

  lemma MemPrunes(width: string -> real, data: Data, key: string, late: real, now: real)
    requires |Lookup(data, key)| == 1 && Lookup(data, key)[0].ts < late - width(key)
    ensures MemStep(MemStep(data, Window(key, late), width).state, Window(key, now), width).answer == []
  {
    SinceOne(Lookup(data, key)[0], late - width(key));
    assert Lookup(data, key) == [Lookup(data, key)[0]];
    assert Lookup(MemStep(data, Window(key, late), width).state, key) == [];
  }

  lemma SqlPrunes(width: string -> real, row: Row, late: real, now: real)
    requires row.ts < late - width(row.key)
    ensures SqlStep(SqlStep([row], Window(row.key, late), width).state, Window(row.key, now), width).answer == []
  {
    ExpireOne(row, late - width(row.key));
    assert SqlStep([row], Window(row.key, late), width).state == [];
  }

  lemma SqlMisses(rows: Table, key: string, e: Entry, now: real, width: string -> real)
    requires OfKey(rows, key) == [e] && now < e.ts && width(key) >= 0.0
    ensures SqlStep(rows, Window(key, now), width).answer == []
  {
    var cutoff := now - width(key);
    ExpireView(rows, key, cutoff, key);
    SinceOne(e, cutoff);
    BetweenOne(e, cutoff, now);
  }

  // And memory returns entries recorded at later readings, the others do not.
  lemma BackwardClockParts(width: string -> real, key: string, amount: real, t: real, now: real)
    requires now < t && width(key) >= 0.0
    ensures var e, row := Entry(t, amount), Row(key, t, amount);
      && MemStep(map[key := [e]], Window(key, now), width).answer == [e]
      && SqlStep([row], Window(key, now), width).answer == []
      && LogStep([row], Window(key, now), width).answer == []
  {
    var e, row := Entry(t, amount), Row(key, t, amount);
    OfKeyOne(row);
    MemFinds(map[key := [e]], key, e, now, width);
    SqlMisses([row], key, e, now, width);
    LogMisses([row], key, e, now, width);
  }
}
