// Whole sessions on the objects of aegis/pipeline/orchestrator.py: what the
// ledger shows after any number of evaluations, from empty stores on.
module Sessions {
  import opened Models
  import opened Screening
  import opened Ownership
  import opened Stages
  import opened Decision
  import opened L = DecisionLedger
  import opened Orchestration
  import F2 = Sanctions
  import R = RunSafety
  import St = Structuring
  import V = Velocity

  function InputOf(job: Job): R.Input {
    R.Input(job.bundle, job.controls, job.now, job.challengeId)
  }

  function Inputs(jobs: seq<Job>): (xs: seq<R.Input>)
    ensures |xs| == |jobs| && forall i :: 0 <= i < |jobs| ==> xs[i] == InputOf(jobs[i])
  {
    seq(|jobs|, i requires 0 <= i < |jobs| => InputOf(jobs[i]))
  }

  // The velocity store and the provider move as in a run of decisions.
  lemma {:induction false} MovesAsDecided<S>(e: Engine, suite: Suite<Envelope>, key: string, jobs: seq<Job>,
                                             p: Provider<S>, was: Standing<S>)
    ensures var now, run := After(e, suite, key, jobs, p, was), R.After(e, Inputs(jobs), p, was.stored, was.state);
      now.stored == run.stored && now.state == run.state
  {
    if jobs == [] {
    } else {
      MovesAsDecided(e, suite, key, jobs[..|jobs| - 1], p, was);
      assert Inputs(jobs)[..|jobs| - 1] == Inputs(jobs[..|jobs| - 1]);
    }
  }

  // The transfers that the first k entries of a ledger record as decided other
  // than BLOCK, for the agent, in the closed day from `start`.
  function LetPass(es: seq<Entry<Envelope>>, jobs: seq<Job>, agent: string, start: real, k: nat): seq<V.Entry>
    requires k <= |jobs| <= |es|
  {
    if k == 0 then []
    else
      LetPass(es, jobs, agent, start, k - 1)
      + Passing(es[k - 1].sealed.body.content.verdict, InputOf(jobs[k - 1]), agent, start)
  }

  function Passing(verdict: Verdict, x: R.Input, agent: string, start: real): seq<V.Entry> {
    if verdict != Block && x.Transfer().agent == agent && start <= x.now <= start + St.DAY
    then [V.Entry(x.now, x.Transfer().amount)] else []
  }

  // The verdict that a run of decisions comes to at the i-th job.
  function VerdictAt<S>(e: Engine, jobs: seq<Job>, i: nat, p: Provider<S>, stored: Stored, s: S): Verdict
    requires i < |jobs|
  {
    var run := R.After(e, Inputs(jobs[..i]), p, stored, s);
    R.Verdict1(e, InputOf(jobs[i]), p, run.stored, run.state)
  }

  // The last job adds one entry, with the verdict decided in the state before it.
  lemma LastJob<S>(e: Engine, suite: Suite<Envelope>, key: string, jobs: seq<Job>, p: Provider<S>, was: Standing<S>)
    requires jobs != []
    ensures var n := |jobs| - 1;
      var before, es := After(e, suite, key, jobs[..n], p, was), After(e, suite, key, jobs, p, was).books.entries;
      && |es| == |before.books.entries| + 1 && es[..|es| - 1] == before.books.entries
      && es[|es| - 1].sealed.body.content.verdict == R.Verdict1(e, InputOf(jobs[n]), p, before.stored, before.state)
  {
    Recorded1(e, suite, key, jobs[|jobs| - 1], p, After(e, suite, key, jobs[..|jobs| - 1], p, was));
  }

  lemma {:induction false} OneEntryEach<S>(e: Engine, suite: Suite<Envelope>, key: string, jobs: seq<Job>,
                                           p: Provider<S>, was: Standing<S>)
    requires was.books.entries == []
    ensures |After(e, suite, key, jobs, p, was).books.entries| == |jobs|
  {
    if jobs == [] {
    } else {
      OneEntryEach(e, suite, key, jobs[..|jobs| - 1], p, was);
      LastJob(e, suite, key, jobs, p, was);
    }
  }

  lemma LastRecorded<S>(e: Engine, suite: Suite<Envelope>, key: string, jobs: seq<Job>, p: Provider<S>,
                        was: Standing<S>)
    requires jobs != [] && |jobs| == |After(e, suite, key, jobs, p, was).books.entries|
    ensures After(e, suite, key, jobs, p, was).books.entries[|jobs| - 1].sealed.body.content.verdict
         == VerdictAt(e, jobs, |jobs| - 1, p, was.stored, was.state)
  {
    LastJob(e, suite, key, jobs, p, was);
    MovesAsDecided(e, suite, key, jobs[..|jobs| - 1], p, was);
  }

  lemma VerdictStays<S>(e: Engine, jobs: seq<Job>, i: nat, p: Provider<S>, stored: Stored, s: S)
    requires i < |jobs| - 1
    ensures VerdictAt(e, jobs[..|jobs| - 1], i, p, stored, s) == VerdictAt(e, jobs, i, p, stored, s)
  {
    assert jobs[..|jobs| - 1][..i] == jobs[..i];
  }

  // Its verdict is the one decided then.
  lemma {:induction false} RecordedAt<S>(e: Engine, suite: Suite<Envelope>, key: string, jobs: seq<Job>, i: nat,
                                         p: Provider<S>, was: Standing<S>)
    requires was.books.entries == [] && i < |jobs| == |After(e, suite, key, jobs, p, was).books.entries|
    ensures After(e, suite, key, jobs, p, was).books.entries[i].sealed.body.content.verdict
         == VerdictAt(e, jobs, i, p, was.stored, was.state)
  {
    if i == |jobs| - 1 {
      LastRecorded(e, suite, key, jobs, p, was);
    } else {
      LastJob(e, suite, key, jobs, p, was);
      RecordedAt(e, suite, key, jobs[..|jobs| - 1], i, p, was);
      VerdictStays(e, jobs, i, p, was.stored, was.state);
    }
  }

  ghost predicate Recorded<S>(e: Engine, es: seq<Entry<Envelope>>, jobs: seq<Job>, p: Provider<S>, stored: Stored,
                              s: S) {
    && |es| == |jobs|
    && forall i :: 0 <= i < |jobs| ==> es[i].sealed.body.content.verdict == VerdictAt(e, jobs, i, p, stored, s)
  }

  // Such a ledger shows as let through what the run decided so.
  lemma {:induction false} RecordsWhatPassed<S>(e: Engine, es: seq<Entry<Envelope>>, jobs: seq<Job>, p: Provider<S>,
                                                stored: Stored, s: S, agent: string, start: real, k: nat)
    requires Recorded(e, es, jobs, p, stored, s) && k <= |jobs|
    ensures LetPass(es, jobs, agent, start, k) == R.PassedDay(e, Inputs(jobs[..k]), p, stored, s, agent, start)
  {
    if k == 0 {
    } else {
      RecordsWhatPassed(e, es, jobs, p, stored, s, agent, start, k - 1);
      assert Inputs(jobs[..k])[..k - 1] == Inputs(jobs[..k - 1]);
      PassedSnoc(e, Inputs(jobs[..k]), p, stored, s, agent, start);
    }
  }

  lemma PassedSnoc<S>(e: Engine, xs: seq<R.Input>, p: Provider<S>, stored: Stored, s: S, agent: string, start: real)
    requires xs != []
    ensures var front, x := xs[..|xs| - 1], xs[|xs| - 1];
      var run := R.After(e, front, p, stored, s);
      R.PassedDay(e, xs, p, stored, s, agent, start)
      == R.PassedDay(e, front, p, stored, s, agent, start)
       + Passing(R.Verdict1(e, x, p, run.stored, run.state), x, agent, start)
  {
  }

  lemma SessionRecorded<S>(e: Engine, suite: Suite<Envelope>, key: string, jobs: seq<Job>, p: Provider<S>,
                           was: Standing<S>)
    requires was.books.entries == []
    ensures Recorded(e, After(e, suite, key, jobs, p, was).books.entries, jobs, p, was.stored, was.state)
  {
    OneEntryEach(e, suite, key, jobs, p, was);
    forall i | 0 <= i < |jobs|
      ensures After(e, suite, key, jobs, p, was).books.entries[i].sealed.body.content.verdict
           == VerdictAt(e, jobs, i, p, was.stored, was.state)
    {
      RecordedAt(e, suite, key, jobs, i, p, was);
    }
  }

  ghost predicate ClockOf(jobs: seq<Job>) {
    forall i, j :: 0 <= i < j < |jobs| ==> jobs[i].now <= jobs[j].now
  }

  predicate WithinCaps(passed: seq<V.Entry>) {
    |passed| <= St.MAX_COUNT_24H && St.Sum(passed) <= St.MAX_VALUE_24H_USD
  }

  lemma SessionWithinCaps<S(!new)>(e: Engine, es: seq<Entry<Envelope>>, jobs: seq<Job>, p: Provider<S>,
                                   stored: Stored, s: S, agent: string, start: real)
    requires Recorded(e, es, jobs, p, stored, s) && R.FreshStore(stored) && ClockOf(jobs)
    requires forall i :: 0 <= i < |jobs| ==> jobs[i].bundle.cart.totalUsd >= 0.0
    ensures WithinCaps(LetPass(es, jobs, agent, start, |jobs|))
  {
    RecordsWhatPassed(e, es, jobs, p, stored, s, agent, start, |jobs|);
    assert jobs[..|jobs|] == jobs;
    R.PassedWithinCaps(e, Inputs(jobs), p, stored, s, agent, start);
  }

  // From empty stores, over any jobs with fresh ids, on either velocity store:
  // the ledger verifies, and the transfers it records as anything but BLOCK
  // stay within both caps for every agent in every closed day.
  method RunSession<S(!new)>(engine: Engine, graph: OwnershipGraph, suite: Suite<Envelope>, key: string, durable: bool,
                             provider: Provider<S>, state: S, jobs: seq<Job>)
    returns (es: seq<Entry<Envelope>>)
    requires F2.IsShare(engine.share, graph) && suite.SignsOwn() && ClockOf(jobs)
    requires forall i, j :: 0 <= i < j < |jobs| ==> jobs[i].decisionId != jobs[j].decisionId
    requires forall i :: 0 <= i < |jobs| ==> jobs[i].bundle.cart.totalUsd >= 0.0
    ensures |es| == |jobs| && Intact(suite, suite.pub(key), es)
    ensures forall agent, start :: WithinCaps(LetPass(es, jobs, agent, start, |jobs|))
  {
    var o := Begin(engine, graph, suite, key, durable, provider, state);
    ghost var was := o.Now();
    o.EvaluateAll(jobs);
    es := o.ledger.entries;
    RunVerifies(engine, suite, key, jobs, provider, was);
    SessionRecorded(engine, suite, key, jobs, provider, was);
    forall agent, start ensures WithinCaps(LetPass(es, jobs, agent, start, |jobs|)) {
      SessionWithinCaps(engine, es, jobs, provider, was.stored, was.state, agent, start);
    }
  }
}
