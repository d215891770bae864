// Over any run of evaluations on one velocity store, the decisions of an agent
// that are not blocked stay within the caps in every closed 24 hours.
module RunSafety {
  import opened Wrappers
  import opened Models
  import opened Screening
  import opened Context
  import opened Stages
  import opened Decision
  import opened FailClosed
  import opened Velocity
  import V = Velocity
  import St = Structuring
  import Sanctions

  // ---- Either store answers as its full history would ----

  ghost predicate Faithful(stored: Stored, log: Table, t: real) {
    && LogUpTo(log, t)
    && match stored
       case InMemory(data) => MemAgrees(data, log, t, Always(St.DAY))
       case InTable(rows) => SqlAgrees(rows, log, t, Always(St.DAY))
  }

  lemma ServeFaithful(stored: Stored, log: Table, op: Op, t: real, width: real)
    requires Faithful(stored, log, t) && t <= op.Time() && (op.Window? ==> width == St.DAY)
    ensures Serve(stored, op, width).answer == LogStep(log, op, Always(St.DAY)).answer
    ensures Faithful(Serve(stored, op, width).stored, LogStep(log, op, Always(St.DAY)).state, op.Time())
  {
    LogStepKeeps(log, op, t, Always(St.DAY));
    match stored
    case InMemory(data) =>
      MemStepAgrees(data, log, op, t, Always(St.DAY));
      assert MemStep(data, op, Always(width)) == MemStep(data, op, Always(St.DAY));
    case InTable(rows) =>
      SqlStepAgrees(rows, log, op, t, Always(St.DAY));
      assert SqlStep(rows, op, Always(width)) == SqlStep(rows, op, Always(St.DAY));
  }

  lemma RecordsFaithful(stored: Stored, log: Table, tr: St.Transfer)
    requires Faithful(stored, log, tr.now)
    ensures Faithful(BothRecorded(stored, tr), log + St.RowsOf(tr), tr.now)
  {
    var o3, o4 := Record(St.StructKey(tr), tr.now, tr.amount), Record(St.VelKey(tr.agent), tr.now, tr.amount);
    var log3 := log + [Row(St.StructKey(tr), tr.now, tr.amount)];
    ServeFaithful(stored, log, o3, tr.now, 0.0);
    ServeFaithful(Serve(stored, o3, 0.0).stored, log3, o4, tr.now, 0.0);
    assert log3 + [Row(St.VelKey(tr.agent), tr.now, tr.amount)] == log + St.RowsOf(tr);
  }

  lemma WindowFaithful(stored: Stored, log: Table, key: string, now: real, t: real)
    requires Faithful(stored, log, t) && t <= now
    ensures Serve(stored, Window(key, now), St.DAY).answer == Between(OfKey(log, key), now - St.DAY, now)
    ensures Faithful(Serve(stored, Window(key, now), St.DAY).stored, log, now)
  {
    ServeFaithful(stored, log, Window(key, now), t, St.DAY);
    LogWindow(log, key, now);
  }

  lemma LogWindow(log: Table, key: string, now: real)
    ensures LogStep(log, Window(key, now), Always(St.DAY)) == V.Step(log, Between(OfKey(log, key), now - St.DAY, now))
  {
  }

  // The store between the two windows of a transfer, and after both.
  function AfterStruct(stored: Stored, tr: St.Transfer): Stored {
    Serve(stored, Window(St.StructKey(tr), tr.now), St.DAY).stored
  }

  function AfterReads(stored: Stored, tr: St.Transfer): Stored {
    Serve(AfterStruct(stored, tr), Window(St.VelKey(tr.agent), tr.now), St.DAY).stored
  }

  lemma ExchangeUnfolds(stored: Stored, tr: St.Transfer)
    ensures Exchange(stored, tr).struct == Serve(stored, Window(St.StructKey(tr), tr.now), St.DAY).answer
    ensures Exchange(stored, tr).vel
         == Serve(AfterStruct(stored, tr), Window(St.VelKey(tr.agent), tr.now), St.DAY).answer
    ensures Exchange(stored, tr).stored == BothRecorded(AfterReads(stored, tr), tr)
  {
  }

  lemma StructRead(stored: Stored, log: Table, tr: St.Transfer, t: real)
    requires Faithful(stored, log, t) && t <= tr.now
    ensures Exchange(stored, tr).struct == Between(OfKey(log, St.StructKey(tr)), tr.now - St.DAY, tr.now)
    ensures Faithful(AfterStruct(stored, tr), log, tr.now)
  {
    ExchangeUnfolds(stored, tr);
    WindowFaithful(stored, log, St.StructKey(tr), tr.now, t);
  }

  lemma VelRead(stored: Stored, log: Table, tr: St.Transfer)
    requires Faithful(AfterStruct(stored, tr), log, tr.now)
    ensures Exchange(stored, tr).vel == Between(OfKey(log, St.VelKey(tr.agent)), tr.now - St.DAY, tr.now)
    ensures Faithful(AfterReads(stored, tr), log, tr.now)
  {
    ExchangeUnfolds(stored, tr);
    WindowFaithful(AfterStruct(stored, tr), log, St.VelKey(tr.agent), tr.now, tr.now);
  }

  lemma ExchangeFaithful(stored: Stored, log: Table, tr: St.Transfer, t: real)
    requires Faithful(stored, log, t) && t <= tr.now
    ensures Faithful(Exchange(stored, tr).stored, log + St.RowsOf(tr), tr.now)
  {
    StructRead(stored, log, tr, t);
    VelRead(stored, log, tr);
    RecordsFaithful(AfterReads(stored, tr), log, tr);
    ExchangeUnfolds(stored, tr);
  }

  lemma ExchangeReads(stored: Stored, log: Table, tr: St.Transfer, t: real)
    requires Faithful(stored, log, t) && t <= tr.now
    ensures Exchange(stored, tr).struct == Between(OfKey(log, St.StructKey(tr)), tr.now - St.DAY, tr.now)
    ensures Exchange(stored, tr).vel == Between(OfKey(log, St.VelKey(tr.agent)), tr.now - St.DAY, tr.now)
  {
    StructRead(stored, log, tr, t);
    VelRead(stored, log, tr);
  }

  function Found(stored: Stored, tr: St.Transfer): St.Finding {
    St.Assess(Exchange(stored, tr).struct, Exchange(stored, tr).vel, tr.now, tr.amount)
  }

  // A transfer is judged by the full history.
  lemma JudgedByHistory(stored: Stored, log: Table, tr: St.Transfer, t: real)
    requires Faithful(stored, log, t) && t <= tr.now
    ensures Found(stored, tr) == St.FindingGiven(log, tr)
  {
    ExchangeReads(stored, log, tr, t);
  }

  // ---- One evaluation ----

  datatype Input = Input(bundle: Bundle, controls: Controls, now: real, challengeId: string) {
    function Transfer(): St.Transfer {
      St.Transfer(bundle.payment.initiatorAgent, BeneficiaryRef(bundle), bundle.cart.totalUsd, now)
    }
  }

  function Decided1<S>(e: Engine, x: Input, p: Provider<S>, stored: Stored, s: S): Decided<S> {
    Decide(e, x.bundle, x.controls, x.now, stored, p, s, x.challengeId)
  }

  // Whether Feature 3 comes to run.
  predicate ReachesF3<S>(e: Engine, x: Input, p: Provider<S>, s: S) {
    var c := F1(FreshCtx(x.bundle, x.controls, x.now, e.hashSnapshot));
    && VerifyBundle(e.ring, x.bundle) && !HardBlocked(c.signals)
    && var o := Sanctions.F2(c, p, s, e.share, e.lower);
       o.flow != Sanctions.Raising && !HardBlocked(o.ctx.signals)
  }

  function Verdict1<S>(e: Engine, x: Input, p: Provider<S>, stored: Stored, s: S): Verdict {
    Decided1(e, x, p, stored, s).final.envelope.verdict
  }

  lemma PastF2Stores<S(!new)>(e: Engine, o: Sanctions.Out<S>, stored: Stored, id: string)
    requires o.flow != Sanctions.Raising && !HardBlocked(o.ctx.signals)
    ensures var tr := TransferOf(o.ctx);
      var w := Exchange(stored, tr);
      && PastF2(e, o, stored, id).stored == w.stored
      && (Found(stored, tr) == St.VelocityExceeded ==> PastF2(e, o, stored, id).verdict == Some(Block))
  {
    var w := Exchange(stored, TransferOf(o.ctx));
    HardAfter(o.ctx.(velocitySnapshot := F3(o.ctx, stored).velocitySnapshot), Hard(VelocityCapExceeded));
  }

  // The store changes exactly by the transfers that reach Feature 3, and only
  // those of them within the caps can be decided as anything but BLOCK.
  lemma StoredBy<S(!new)>(e: Engine, x: Input, p: Provider<S>, stored: Stored, s: S)
    ensures var d := Decided1(e, x, p, stored, s);
      var w := Exchange(stored, x.Transfer());
      && d.stored == (if ReachesF3(e, x, p, s) then w.stored else stored)
      && (d.final.envelope.verdict != Block ==>
            ReachesF3(e, x, p, s) && Found(stored, x.Transfer()) != St.VelocityExceeded)
  {
    var ctx := FreshCtx(x.bundle, x.controls, x.now, e.hashSnapshot);
    if VerifyBundle(e.ring, x.bundle) && !HardBlocked(F1(ctx).signals) {
      var o := Sanctions.F2(F1(ctx), p, s, e.share, e.lower);
      F2Outcome(e, F1(ctx), p, s);
      if ReachesF3(e, x, p, s) { PastF2Stores(e, o, stored, x.challengeId); }
    }
  }

  // ---- Runs of evaluations ----

  datatype Run<S> = Run(stored: Stored, state: S, reached: seq<St.Transfer>)

  function Step<S>(e: Engine, x: Input, p: Provider<S>, run: Run<S>): Run<S> {
    var d := Decided1(e, x, p, run.stored, run.state);
    Run(d.stored, d.state, if ReachesF3(e, x, p, run.state) then run.reached + [x.Transfer()] else run.reached)
  }

  function After<S>(e: Engine, xs: seq<Input>, p: Provider<S>, stored: Stored, s: S): Run<S> {
    if xs == [] then Run(stored, s, []) else Step(e, xs[|xs| - 1], p, After(e, xs[..|xs| - 1], p, stored, s))
  }

  // Decided other than BLOCK, for the agent, in the closed day from `start`.
  predicate Passes<S>(e: Engine, x: Input, p: Provider<S>, run: Run<S>, agent: string, start: real) {
    Verdict1(e, x, p, run.stored, run.state) != Block && x.Transfer().agent == agent && start <= x.now <= start + St.DAY
  }

  function PassedDay<S>(e: Engine, xs: seq<Input>, p: Provider<S>, stored: Stored, s: S, agent: string,
                        start: real): seq<Entry> {
    if xs == [] then []
    else
      var front := PassedDay(e, xs[..|xs| - 1], p, stored, s, agent, start);
      var x := xs[|xs| - 1];
      if Passes(e, x, p, After(e, xs[..|xs| - 1], p, stored, s), agent, start)
      then front + [Entry(x.now, x.Transfer().amount)] else front
  }

  ghost predicate Clock(xs: seq<Input>) {
    forall i, j :: 0 <= i < j < |xs| ==> xs[i].now <= xs[j].now
  }

  function LastNow(xs: seq<Input>, t0: real): real { if xs == [] then t0 else xs[|xs| - 1].now }

  ghost predicate FreshStore(stored: Stored) { stored == InMemory(map[]) || stored == InTable([]) }

  function History(ts: seq<St.Transfer>): (fs: seq<St.Finding>)
    ensures |fs| == |ts|
  {
    seq(|ts|, i requires 0 <= i < |ts| => St.HistoryFinding(ts, i))
  }

  lemma HistorySnoc(ts: seq<St.Transfer>, t: St.Transfer)
    ensures History(ts + [t]) == History(ts) + [St.FindingGiven(St.LogOf(ts), t)]
  {
    assert forall i :: 0 <= i < |ts| ==> (ts + [t])[..i] == ts[..i];
    assert (ts + [t])[..|ts|] == ts;
  }

  lemma {:induction false} LetThroughPrefix(ts: seq<St.Transfer>, fs: seq<St.Finding>, t: St.Transfer, f: St.Finding,
                                            agent: string, start: real, k: nat)
    requires k <= |ts| == |fs|
    ensures St.LetThrough(ts + [t], fs + [f], agent, start, k) == St.LetThrough(ts, fs, agent, start, k)
  {
    if k == 0 {
    } else {
      LetThroughPrefix(ts, fs, t, f, agent, start, k - 1);
    }
  }

  // What the caps are proved of: the transfers let through by Feature 3.
  function Through(ts: seq<St.Transfer>, agent: string, start: real): seq<Entry> {
    St.LetThrough(ts, History(ts), agent, start, |ts|)
  }

  lemma ThroughSnoc(ts: seq<St.Transfer>, t: St.Transfer, agent: string, start: real)
    ensures Through(ts + [t], agent, start) ==
      if t.agent == agent && start <= t.now <= start + St.DAY && St.FindingGiven(St.LogOf(ts), t) != St.VelocityExceeded
      then Through(ts, agent, start) + [Entry(t.now, t.amount)] else Through(ts, agent, start)
  {
    HistorySnoc(ts, t);
    LetThroughPrefix(ts, History(ts), t, St.FindingGiven(St.LogOf(ts), t), agent, start, |ts|);
  }

  // No more passes than Feature 3 let through.
  ghost predicate Covered(passed: seq<Entry>, through: seq<Entry>) {
    |passed| <= |through| && St.Sum(passed) <= St.Sum(through)
  }

  // The invariant of a run.
  ghost predicate Good<S>(run: Run<S>, now: real) {
    && Faithful(run.stored, St.LogOf(run.reached), now)
    && St.NonDecreasing(run.reached)
    && (forall i :: 0 <= i < |run.reached| ==> run.reached[i].now <= now && run.reached[i].amount >= 0.0)
  }

  lemma FreshFaithful(stored: Stored, t: real)
    requires FreshStore(stored)
    ensures Faithful(stored, [], t)
  {
  }

  lemma GoodReached<S>(run: Run<S>, tr: St.Transfer, now: real, state: S)
    requires Good(run, now) && now <= tr.now && tr.amount >= 0.0
    ensures Good(Run(Exchange(run.stored, tr).stored, state, run.reached + [tr]), tr.now)
  {
    ExchangeFaithful(run.stored, St.LogOf(run.reached), tr, now);
    St.LogOfSnoc(run.reached, tr);
    assert St.LogOf(run.reached + [tr]) == St.LogOf(run.reached) + St.RowsOf(tr);
  }

  lemma GoodStep<S(!new)>(e: Engine, x: Input, p: Provider<S>, run: Run<S>, now: real)
    requires Good(run, now) && now <= x.now && x.Transfer().amount >= 0.0
    ensures Good(Step(e, x, p, run), x.now)
  {
    StoredBy(e, x, p, run.stored, run.state);
    var d := Decided1(e, x, p, run.stored, run.state);
    GoodReached(run, x.Transfer(), now, d.state);
    StaysFaithful(run.stored, St.LogOf(run.reached), now, x.now);
  }

  lemma StaysFaithful(stored: Stored, log: Table, t: real, t': real)
    requires Faithful(stored, log, t) && t <= t'
    ensures Faithful(stored, log, t')
  {
    forall key ensures UpTo(OfKey(log, key), t') && Chronological(OfKey(log, key)) {
      assert UpTo(OfKey(log, key), t) && Chronological(OfKey(log, key));
    }
    match stored
    case InMemory(data) =>
      forall key ensures SameAhead(Lookup(data, key), OfKey(log, key), t' - St.DAY) {
        assert SameAhead(Lookup(data, key), OfKey(log, key), t - Always(St.DAY)(key));
      }
    case InTable(rows) =>
      forall key ensures SameAhead(OfKey(rows, key), OfKey(log, key), t' - St.DAY) {
        assert SameAhead(OfKey(rows, key), OfKey(log, key), t - Always(St.DAY)(key));
      }
  }

  lemma CoveredStep<S(!new)>(e: Engine, x: Input, p: Provider<S>, run: Run<S>, now: real, passed: seq<Entry>,
                             agent: string, start: real)
    requires Good(run, now) && now <= x.now && x.Transfer().amount >= 0.0
    requires Covered(passed, Through(run.reached, agent, start))
    ensures Covered(if Passes(e, x, p, run, agent, start) then passed + [Entry(x.now, x.Transfer().amount)] else passed,
                    Through(Step(e, x, p, run).reached, agent, start))
  {
    StoredBy(e, x, p, run.stored, run.state);
    JudgedByHistory(run.stored, St.LogOf(run.reached), x.Transfer(), now);
    ThroughSnoc(run.reached, x.Transfer(), agent, start);
    St.SumSnoc(passed, Entry(x.now, x.Transfer().amount));
    St.SumSnoc(Through(run.reached, agent, start), Entry(x.now, x.Transfer().amount));
  }

  lemma {:induction false} RunGood<S(!new)>(e: Engine, xs: seq<Input>, p: Provider<S>, stored: Stored, s: S, t0: real,
                                            agent: string, start: real)
    requires FreshStore(stored) && Clock(xs)
    requires forall i :: 0 <= i < |xs| ==> t0 <= xs[i].now && xs[i].Transfer().amount >= 0.0
    ensures Good(After(e, xs, p, stored, s), LastNow(xs, t0))
    ensures Covered(PassedDay(e, xs, p, stored, s, agent, start),
                    Through(After(e, xs, p, stored, s).reached, agent, start))
  {
    if xs == [] {
      FreshFaithful(stored, t0);
    } else {
      var front, x := xs[..|xs| - 1], xs[|xs| - 1];
      RunGood(e, front, p, stored, s, t0, agent, start);
      var run := After(e, front, p, stored, s);
      GoodStep(e, x, p, run, LastNow(front, t0));
      CoveredStep(e, x, p, run, LastNow(front, t0), PassedDay(e, front, p, stored, s, agent, start), agent, start);
    }
  }

  // Whatever the provider answers and whatever else is blocked or raises: with
  // a clock that never goes back and no negative amounts, at most 50 decisions
  // of an agent in any closed day are other than BLOCK, for at most 250,000 USD.
  lemma PassedWithinCaps<S(!new)>(e: Engine, xs: seq<Input>, p: Provider<S>, stored: Stored, s: S, agent: string,
                                  start: real)
    requires FreshStore(stored) && Clock(xs)
    requires forall i :: 0 <= i < |xs| ==> xs[i].Transfer().amount >= 0.0
    ensures |PassedDay(e, xs, p, stored, s, agent, start)| <= St.MAX_COUNT_24H
    ensures St.Sum(PassedDay(e, xs, p, stored, s, agent, start)) <= St.MAX_VALUE_24H_USD
  {
    RunGood(e, xs, p, stored, s, if xs == [] then 0.0 else xs[0].now, agent, start);
    var ts := After(e, xs, p, stored, s).reached;
    St.CapsHoldUpTo(ts, History(ts), agent, start, |ts|);
  }
}
