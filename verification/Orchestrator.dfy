// aegis/pipeline/orchestrator.py and aegis/state/stepup.py: the objects that an
// evaluation writes to, and what holds of them over any run of evaluations.
module Orchestration {
  import opened Wrappers
  import opened Models
  import opened Screening
  import opened Context
  import opened Ownership
  import opened Stages
  import opened Decision
  import opened Replay
  import opened L = DecisionLedger
  import F2 = Sanctions
  import F5 = StepUp
  import V = Velocity

  class StepUpStore {
    var data: map<string, Challenge>

    constructor ()
      ensures data == map[]
    {
      data := map[];
    }

    method Put(challenge: Challenge)
      modifies this
      ensures data == old(data)[challenge.challengeId := challenge]
    {
      data := data[challenge.challengeId := challenge];
    }
  }

  // A step-up's challenge is kept until enough approvals have come in.
  function Challenged(data: map<string, Challenge>, env: Envelope): map<string, Challenge> {
    if env.verdict == Verdict.StepUp && env.stepup.Some?
    then data[env.stepup.value.challengeId := env.stepup.value]
    else data
  }

  type Row = LedgerRow<Envelope, Archive>

  // What is on record: the ledger in memory, its table, and the open challenges.
  datatype Books = Books(entries: seq<Entry<Envelope>>, rows: seq<Row>, challenges: map<string, Challenge>)

  // One more decision, chained, signed, and appended with its archive.
  function Entered(books: Books, suite: Suite<Envelope>, key: string, decisionId: string, final: Final): Books {
    var entry := Seal(suite, key, Head(books.entries), decisionId, final.envelope);
    Books(books.entries + [entry], books.rows + [LedgerRow(entry, Some(final.archive))],
          Challenged(books.challenges, final.envelope))
  }

  // A recorded decision leaves a verifying ledger verifying.
  lemma EnteredIntact(books: Books, suite: Suite<Envelope>, key: string, decisionId: string, final: Final)
    requires suite.SignsOwn() && Intact(suite, suite.pub(key), books.entries)
    ensures Intact(suite, suite.pub(key), Entered(books, suite, key, decisionId, final).entries)
  {
    AppendKeepsIntact(suite, key, books.entries, decisionId, final.envelope);
  }

  // ---- What every archived decision promises ----

  // Decided on these control flags: the envelope has the hash of the inputs as
  // they were given, and the archive has the screening flag as the run left it.
  ghost predicate MadeWith(e: Engine, env: Envelope, a: Archive, controls: Controls) {
    && env.worldSnapshotHash == e.hashSnapshot(Snapshot(a.bundle, a.now, controls))
    && a.controls == if ScreenRan(e, a.bundle) then controls.(pspRanSanctionsScreen := true) else controls
  }

  // A replay that completes gives the verdict back, and it reproduces the
  // reason codes too exactly when no exception was recorded.
  ghost predicate Audited(e: Engine, env: Envelope, a: Archive) {
    && (exists controls :: MadeWith(e, env, a, controls))
    && forall id :: (ReplayOf(e, a, id).Some? ==> ReplayOf(e, a, id).value.verdict == env.verdict)
         && (Reproduces(env, ReplayOf(e, a, id)) <==> FailedClosed !in env.reasonCodes)
  }

  lemma DecidedAudited<S(!new)>(e: Engine, b: Bundle, controls: Controls, now: real, stored: Stored, p: Provider<S>,
                                s: S, id: string)
    ensures var d := Decide(e, b, controls, now, stored, p, s, id);
      && Audited(e, d.final.envelope, d.final.archive) && MadeWith(e, d.final.envelope, d.final.archive, controls)
      && (d.raised <==> FailedClosed in d.final.envelope.reasonCodes)
  {
    var d := Decide(e, b, controls, now, stored, p, s, id);
    ArchiveKeeps(e, b, controls, now, stored, p, s, id);
    assert MadeWith(e, d.final.envelope, d.final.archive, controls);
    forall again ensures var r := ReplayOf(e, d.final.archive, again);
      && (r.Some? ==> r.value.verdict == d.final.envelope.verdict)
      && (Reproduces(d.final.envelope, r) <==> !d.raised)
      && (d.raised <==> FailedClosed in d.final.envelope.reasonCodes)
    {
      if d.raised {
        ReplayAfterException(e, b, controls, now, stored, p, s, id, again);
      } else {
        ReplayWithoutException(e, b, controls, now, stored, p, s, id, again);
        ReplayFree(e, d.final.archive, again);
      }
    }
    assert d.raised <==> FailedClosed in d.final.envelope.reasonCodes by {
      assert Reproduces(d.final.envelope, ReplayOf(e, d.final.archive, id)) <==> !d.raised;
    }
  }

  ghost predicate AllAudited(e: Engine, rows: seq<Row>) {
    forall i :: 0 <= i < |rows| ==>
      rows[i].archive.Some? && Audited(e, rows[i].entry.sealed.body.content, rows[i].archive.value)
  }

  function IdOf(row: Row): string { row.entry.sealed.body.decisionId }

  ghost predicate UniqueIds(rows: seq<Row>) {
    forall i, j :: 0 <= i < j < |rows| ==> IdOf(rows[i]) != IdOf(rows[j])
  }

  lemma {:induction false} IndexFinds(es: seq<Entry<Envelope>>, id: string)
    ensures id in Ledger<Envelope, Archive>.Index(es) <==> HasId(es, id)
    ensures id in Ledger<Envelope, Archive>.Index(es) ==>
      exists i :: 0 <= i < |es| && es[i].sealed.body.decisionId == id
        && Ledger<Envelope, Archive>.Index(es)[id] == es[i]
  {
    if es == [] {
    } else {
      var front := es[..|es| - 1];
      IndexFinds(front, id);
      if HasId(front, id) {
        var i :| 0 <= i < |front| && front[i].sealed.body.decisionId == id;
        assert es[i].sealed.body.decisionId == id;
      }
      if HasId(es, id) && es[|es| - 1].sealed.body.decisionId != id {
        var i :| 0 <= i < |es| && es[i].sealed.body.decisionId == id;
        assert front[i].sealed.body.decisionId == id;
      }
      if id in Ledger<Envelope, Archive>.Index(es) && es[|es| - 1].sealed.body.decisionId != id {
        var i :| 0 <= i < |front| && front[i].sealed.body.decisionId == id
          && Ledger<Envelope, Archive>.Index(front)[id] == front[i];
        assert es[i] == front[i];
      }
    }
  }

  lemma {:induction false} ArchiveFinds(rows: seq<Row>, i: nat)
    requires i < |rows| && UniqueIds(rows)
    ensures FindArchive(rows, IdOf(rows[i])) == rows[i].archive
  {
    if i == 0 {
    } else {
      assert IdOf(rows[0]) != IdOf(rows[i]);
      forall j, k | 0 <= j < k < |rows[1..]| ensures IdOf(rows[1..][j]) != IdOf(rows[1..][k]) {
        assert IdOf(rows[j + 1]) != IdOf(rows[k + 1]);
      }
      ArchiveFinds(rows[1..], i - 1);
    }
  }

  // ---- Runs of evaluations ----

  // `decisionId` and `challengeId` stand for fresh uuids.
  datatype Job = Job(bundle: Bundle, controls: Controls, now: real, decisionId: string, challengeId: string)

  datatype Standing<S> = Standing(books: Books, stored: Stored, state: S)

  function Next<S>(e: Engine, suite: Suite<Envelope>, key: string, job: Job, p: Provider<S>,
                   was: Standing<S>): Standing<S> {
    var d := Decide(e, job.bundle, job.controls, job.now, was.stored, p, was.state, job.challengeId);
    Standing(Entered(was.books, suite, key, job.decisionId, d.final), d.stored, d.state)
  }

  function After<S>(e: Engine, suite: Suite<Envelope>, key: string, jobs: seq<Job>, p: Provider<S>, was: Standing<S>):
    Standing<S>
  {
    if jobs == [] then was
    else Next(e, suite, key, jobs[|jobs| - 1], p, After(e, suite, key, jobs[..|jobs| - 1], p, was))
  }

  lemma OneMoreJob<S>(e: Engine, suite: Suite<Envelope>, key: string, jobs: seq<Job>, i: nat, p: Provider<S>,
                      was: Standing<S>)
    requires i < |jobs|
    ensures After(e, suite, key, jobs[..i + 1], p, was)
         == Next(e, suite, key, jobs[i], p, After(e, suite, key, jobs[..i], p, was))
  {
    assert jobs[..i + 1][..i] == jobs[..i];
  }

  lemma Recorded1<S>(e: Engine, suite: Suite<Envelope>, key: string, job: Job, p: Provider<S>, was: Standing<S>)
    ensures var es := Next(e, suite, key, job, p, was).books.entries;
      && es[..|was.books.entries|] == was.books.entries && |es| == |was.books.entries| + 1
      && es[|was.books.entries|].sealed.body.content
         == Decide(e, job.bundle, job.controls, job.now, was.stored, p, was.state, job.challengeId).final.envelope
  {
  }

  ghost predicate NewIds(es: seq<Entry<Envelope>>, jobs: seq<Job>) {
    && (forall i :: 0 <= i < |jobs| ==> !HasId(es, jobs[i].decisionId))
    && (forall i, j :: 0 <= i < j < |jobs| ==> jobs[i].decisionId != jobs[j].decisionId)
  }

  lemma NextIsNew(rows: seq<Row>, jobs: seq<Job>)
    requires jobs != [] && NewIds(EntriesOf(rows), jobs)
    ensures !HasId(EntriesOf(rows), jobs[0].decisionId)
  {
  }

  lemma StillNew(books: Books, suite: Suite<Envelope>, key: string, jobs: seq<Job>, later: Books)
    requires jobs != [] && NewIds(EntriesOf(books.rows), jobs)
    requires exists final :: later == Entered(books, suite, key, jobs[0].decisionId, final)
    ensures NewIds(EntriesOf(later.rows), jobs[1..])
  {
    var row := later.rows[|books.rows|];
    assert later.rows == books.rows + [row];
    TableSnoc(books.rows, row);
    forall i | 0 <= i < |jobs[1..]| ensures !HasId(EntriesOf(later.rows), jobs[1..][i].decisionId) {
      assert !HasId(EntriesOf(books.rows), jobs[i + 1].decisionId);
    }
  }

  // However long the run, the ledger verifies.
  lemma {:induction false} RunVerifies<S>(e: Engine, suite: Suite<Envelope>, key: string, jobs: seq<Job>,
                                          p: Provider<S>, was: Standing<S>)
    requires suite.SignsOwn() && Intact(suite, suite.pub(key), was.books.entries)
    ensures Intact(suite, suite.pub(key), After(e, suite, key, jobs, p, was).books.entries)
  {
    if jobs == [] {
    } else {
      var front, job := jobs[..|jobs| - 1], jobs[|jobs| - 1];
      RunVerifies(e, suite, key, front, p, was);
      var before := After(e, suite, key, front, p, was);
      var d := Decide(e, job.bundle, job.controls, job.now, before.stored, p, before.state, job.challengeId);
      EnteredIntact(before.books, suite, key, job.decisionId, d.final);
    }
  }

  datatype ReplayResult = ReplayResult(
    originalVerdict: Verdict, reproducedVerdict: Verdict, matchesOriginal: bool, worldSnapshotMatches: bool,
    reasonCodesMatch: bool)

  datatype ReplayError = NoSuchRecord | StageRaised

  class Orchestrator<S(!new)> {
    const engine: Engine
    const graph: OwnershipGraph
    const ledger: Ledger<Envelope, Archive>
    const store: Store
    const stepups: StepUpStore
    const screener: Screener<S>

    constructor (engine: Engine, graph: OwnershipGraph, ledger: Ledger<Envelope, Archive>, store: Store,
                 stepups: StepUpStore, screener: Screener<S>)
      ensures this.engine == engine && this.graph == graph && this.ledger == ledger && this.store == store
      ensures this.stepups == stepups && this.screener == screener
      ensures F2.IsShare(engine.share, graph) && ledger.backend.rows == [] && ledger.entries == []
        && ledger.byId == map[]
        ==> Valid()
    {
      this.engine, this.graph, this.ledger := engine, graph, ledger;
      this.store, this.stepups, this.screener := store, stepups, screener;
    }

    // The default graph is the engine's; memory, index and table agree; ids are
    // unique; and every recorded decision can be audited.
    ghost predicate Valid()
      reads graph, ledger, ledger.backend
    {
      && F2.IsShare(engine.share, graph)
      && ledger.entries == EntriesOf(ledger.backend.rows)
      && ledger.byId == Ledger<Envelope, Archive>.Index(ledger.entries)
      && UniqueIds(ledger.backend.rows) && AllAudited(engine, ledger.backend.rows)
    }

    function OnRecord(): Books
      reads ledger, ledger.backend, stepups
    {
      Books(ledger.entries, ledger.backend.rows, stepups.data)
    }

    function Footprint(): set<object> {
      {ledger, ledger.backend, stepups, screener} + store.Objects()
    }

    // No two of the objects written to are one.
    predicate Apart() {
      && screener !in store.Objects() && ledger !in store.Objects() && ledger.backend !in store.Objects()
      && stepups !in store.Objects() && graph !in store.Objects()
    }

    // `_run_pipeline`, live or on a recording.
    method RunPipeline<T>(ctx: DecisionContext, store: Store, screener: Screener<T>, challengeId: string)
      returns (verdict: Option<Verdict>)
      requires F2.IsShare(engine.share, graph)
      requires ctx !in store.Objects() && screener !in store.Objects()
      modifies ctx, screener, store.Objects()
      ensures Outcome(ctx.Value(), store.Contents(), screener.state, verdict)
           == Pipeline(engine, old(ctx.Value()), old(store.Contents()), screener.provider, old(screener.state),
                       challengeId)
    {
      RunF1(ctx);
      var blocked := ctx.HasHardBlock();
      if blocked { return Some(Block); }
      var flow := F2.Run(ctx, screener, graph, engine.lower, engine.share);
      if flow == F2.Raising { return None; }
      blocked := ctx.HasHardBlock();
      if blocked { return Some(Block); }
      RunF3(ctx, store);
      blocked := ctx.HasHardBlock();
      if blocked { return Some(Block); }
      var raised := RunF4(ctx, engine.embedder, engine.injected);
      if raised { return None; }
      blocked := ctx.HasHardBlock();
      if blocked { return Some(Block); }
      verdict := F5.Run(ctx, engine.model, engine.hashCart, challengeId);
    }

    // `_finalize`: checked once more, appended with its archive, and its
    // challenge put where approvals look for it.
    method Finalize(ctx: DecisionContext, verdict: Verdict, decisionId: string) returns (entry: Entry<Envelope>)
      requires !HasId(EntriesOf(ledger.backend.rows), decisionId)
      requires Apart() && ctx !in store.Objects()
      modifies ctx, ledger, ledger.backend, stepups
      ensures store.Contents() == old(store.Contents())
      ensures OnRecord()
           == Entered(old(OnRecord()), ledger.suite, ledger.signingKey, decisionId,
                      Finalized(old(ctx.Value()), verdict))
      ensures ledger.entries != [] && entry == ledger.entries[|ledger.entries| - 1]
      ensures ledger.byId == old(ledger.byId)[decisionId := entry]
    {
      var v := verdict;
      if v != Block && ctx.screeningProvenance.None? {
        ctx.AddSignal(Hard(StageSkipped));
        v := Block;
      }
      var env := EnvelopeOf(ctx.Value(), v);
      var archive := ArchiveOf(ctx.Value());
      var r := ledger.Append(decisionId, env, Some(archive));
      if v == Verdict.StepUp && ctx.stepup.Some? { stepups.Put(ctx.stepup.value); }
      return r.value;
    }

    // An exception becomes a hard block.
    method Close(ctx: DecisionContext, answer: Option<Verdict>) returns (verdict: Verdict)
      requires ctx !in store.Objects()
      modifies ctx
      ensures Finalized(ctx.Value(), verdict) == Concluded(old(ctx.Value()), answer)
      ensures store.Contents() == old(store.Contents())
    {
      if answer.None? {
        ctx.AddSignal(Hard(FailedClosed));
        return Block;
      }
      return answer.value;
    }

    // A bundle whose signatures do not verify goes no further.
    method Refuse(ctx: DecisionContext)
      requires ctx !in store.Objects()
      modifies ctx
      ensures ctx.Value() == WithSignal(old(ctx.Value()), Hard(SigInvalid))
      ensures store.Contents() == old(store.Contents())
    {
      ctx.AddSignal(Hard(SigInvalid));
    }

    method AssessVerified(ctx: DecisionContext, challengeId: string) returns (verdict: Verdict)
      requires F2.IsShare(engine.share, graph)
      requires ctx !in store.Objects() && screener !in store.Objects()
      modifies ctx, screener, store.Objects()
      ensures var o :=
        Pipeline(engine, old(ctx.Value()), old(store.Contents()), screener.provider, old(screener.state), challengeId);
        && Finalized(ctx.Value(), verdict) == Concluded(o.ctx, o.verdict)
        && store.Contents() == o.stored && screener.state == o.state
    {
      var answer := RunPipeline(ctx, store, screener, challengeId);
      verdict := Close(ctx, answer);
    }

    // Everything up to `_finalize`.
    method Assess(b: Bundle, controls: Controls, now: real, challengeId: string)
      returns (ctx: DecisionContext, verdict: Verdict)
      requires Valid() && Apart()
      modifies screener, store.Objects()
      ensures Valid() && OnRecord() == old(OnRecord()) && fresh(ctx) && ctx !in store.Objects()
      ensures var d :=
        Decide(engine, b, controls, now, old(store.Contents()), screener.provider, old(screener.state), challengeId);
        Finalized(ctx.Value(), verdict) == d.final && store.Contents() == d.stored && screener.state == d.state
    {
      ghost var stored, state := store.Contents(), screener.state;
      ctx := new DecisionContext(b, controls, now, engine.hashSnapshot);
      assert store.Contents() == stored && screener.state == state;
      if !VerifyBundle(engine.ring, b) {
        Refuse(ctx);
        verdict := Block;
      } else {
        ghost var o := Pipeline(engine, ctx.Value(), stored, screener.provider, state, challengeId);
        verdict := AssessVerified(ctx, challengeId);
        assert store.Contents() == o.stored && screener.state == o.state;
      }
    }

    method AssessAudited(b: Bundle, controls: Controls, now: real, challengeId: string)
      returns (ctx: DecisionContext, verdict: Verdict)
      requires Valid() && Apart()
      modifies screener, store.Objects()
      ensures Valid() && OnRecord() == old(OnRecord()) && fresh(ctx) && ctx !in store.Objects()
      ensures var d :=
        Decide(engine, b, controls, now, old(store.Contents()), screener.provider, old(screener.state), challengeId);
        Finalized(ctx.Value(), verdict) == d.final && store.Contents() == d.stored && screener.state == d.state
      ensures Audited(engine, Finalized(ctx.Value(), verdict).envelope, Finalized(ctx.Value(), verdict).archive)
    {
      DecidedAudited(engine, b, controls, now, store.Contents(), screener.provider, screener.state, challengeId);
      ctx, verdict := Assess(b, controls, now, challengeId);
    }

    // An audited decision is recorded, and the books stay in order.
    method Record(ctx: DecisionContext, verdict: Verdict, decisionId: string)
      requires Valid() && Apart() && ctx !in store.Objects() && !HasId(EntriesOf(ledger.backend.rows), decisionId)
      requires Audited(engine, Finalized(ctx.Value(), verdict).envelope, Finalized(ctx.Value(), verdict).archive)
      modifies ctx, ledger, ledger.backend, stepups
      ensures Valid() && store.Contents() == old(store.Contents())
      ensures OnRecord()
           == Entered(old(OnRecord()), ledger.suite, ledger.signingKey, decisionId,
                      Finalized(old(ctx.Value()), verdict))
    {
      ghost var final := Finalized(ctx.Value(), verdict);
      var entry := Finalize(ctx, verdict, decisionId);
      StillValid(old(ledger.backend.rows), LedgerRow(entry, Some(final.archive)));
    }

    // `decisionId` and `challengeId` stand for fresh uuids.
    method Evaluate(b: Bundle, controls: Controls, now: real, decisionId: string, challengeId: string)
      returns (entry: Entry<Envelope>)
      requires Valid() && Apart() && !HasId(EntriesOf(ledger.backend.rows), decisionId)
      modifies Footprint()
      ensures Valid()
      ensures var d :=
        Decide(engine, b, controls, now, old(store.Contents()), screener.provider, old(screener.state), challengeId);
        && OnRecord() == Entered(old(OnRecord()), ledger.suite, ledger.signingKey, decisionId, d.final)
        && store.Contents() == d.stored && screener.state == d.state
      ensures ledger.entries != [] && entry == ledger.entries[|ledger.entries| - 1]
    {
      var ctx, verdict := AssessAudited(b, controls, now, challengeId);
      assert ledger.backend.rows == old(ledger.backend.rows);
      assert Valid();
      assert Apart() && ctx !in store.Objects();
      assert !HasId(EntriesOf(ledger.backend.rows), decisionId);
      Record(ctx, verdict, decisionId);
      entry := ledger.entries[|ledger.entries| - 1];
    }

    ghost predicate ReadyFor(jobs: seq<Job>)
      reads graph, ledger, ledger.backend
    {
      Valid() && Apart() && NewIds(EntriesOf(ledger.backend.rows), jobs)
    }

    // The first job of those left.
    method EvaluateFirst(jobs: seq<Job>)
      requires ReadyFor(jobs) && jobs != []
      modifies Footprint()
      ensures ReadyFor(jobs[1..])
      ensures Now() == Next(engine, ledger.suite, ledger.signingKey, jobs[0], screener.provider, old(Now()))
    {
      ghost var before := OnRecord();
      NextIsNew(before.rows, jobs);
      var entry := Evaluate(jobs[0].bundle, jobs[0].controls, jobs[0].now, jobs[0].decisionId, jobs[0].challengeId);
      StillNew(before, ledger.suite, ledger.signingKey, jobs, OnRecord());
    }

    // One evaluation after the other.
    method EvaluateAll(jobs: seq<Job>)
      requires ReadyFor(jobs)
      modifies Footprint()
      ensures Valid()
      ensures Now() == After(engine, ledger.suite, ledger.signingKey, jobs, screener.provider, old(Now()))
    {
      for i := 0 to |jobs|
        invariant ReadyFor(jobs[i..])
        invariant Now() == After(engine, ledger.suite, ledger.signingKey, jobs[..i], screener.provider, old(Now()))
      {
        EvaluateFirst(jobs[i..]);
        OneMoreJob(engine, ledger.suite, ledger.signingKey, jobs, i, screener.provider, old(Now()));
        assert jobs[i..][1..] == jobs[i + 1..];
      }
      assert jobs[..|jobs|] == jobs;
    }

    // The books, the velocity store, and the provider as they stand.
    function Now(): Standing<S>
      reads ledger, ledger.backend, stepups, screener, store.Objects()
    {
      Standing(OnRecord(), store.Contents(), screener.state)
    }

    lemma StillValid(rows: seq<Row>, row: Row)
      requires UniqueIds(rows) && AllAudited(engine, rows) && !HasId(EntriesOf(rows), IdOf(row))
      requires row.archive.Some? && Audited(engine, row.entry.sealed.body.content, row.archive.value)
      ensures UniqueIds(rows + [row]) && AllAudited(engine, rows + [row])
      ensures EntriesOf(rows + [row]) == EntriesOf(rows) + [row.entry]
      ensures Ledger<Envelope, Archive>.Index(EntriesOf(rows) + [row.entry])
           == Ledger<Envelope, Archive>.Index(EntriesOf(rows))[IdOf(row) := row.entry]
    {
      TableSnoc(rows, row);
      var es := EntriesOf(rows);
      assert (es + [row.entry])[..|es|] == es;
      forall i, j | 0 <= i < j < |rows + [row]| ensures IdOf((rows + [row])[i]) != IdOf((rows + [row])[j]) {
        if j == |rows| { assert es[i].sealed.body.decisionId != IdOf(row); }
      }
    }

    // The pipeline again, on an isolated store seeded with the archived windows
    // and a provider that only repeats what was recorded.
    method ReplayArchive(a: Archive, challengeId: string) returns (r: Option<Replayed>)
      requires F2.IsShare(engine.share, graph)
      ensures r == ReplayOf(engine, a, challengeId)
    {
      var ctx := new DecisionContext(a.bundle, a.controls, a.now, engine.hashSnapshot);
      var isolated := new V.VelocityStore();
      isolated.Seed(a.velocitySnapshot);
      assert isolated.data == a.velocitySnapshot;
      var seeded := MemoryStore(isolated);
      var recorded := new Screener(Recorded(a.screening), ());
      if !VerifyBundle(engine.ring, a.bundle) {
        ctx.AddSignal(Hard(SigInvalid));
        return Some(Replayed(Block, Codes(ctx.signals), ctx.worldSnapshotHash));
      }
      var verdict := RunPipeline(ctx, seeded, recorded, challengeId);
      if verdict.None? { return None; }
      return Some(Replayed(verdict.value, Codes(ctx.signals), ctx.worldSnapshotHash));
    }

    // Re-derives a recorded decision from its archive alone.
    method ReplayDecision(decisionId: string, challengeId: string) returns (r: Result<ReplayResult, ReplayError>)
      requires Valid()
      ensures r == Err(NoSuchRecord) <==> !HasId(ledger.entries, decisionId)
      ensures r != Err(NoSuchRecord) ==>
        exists row :: row in ledger.backend.rows && IdOf(row) == decisionId
          && Confirms(engine, row, r, challengeId)
    {
      IndexFinds(ledger.entries, decisionId);
      if decisionId !in ledger.byId { return Err(NoSuchRecord); }
      var original := ledger.byId[decisionId].sealed.body.content;
      ghost var i :| 0 <= i < |ledger.entries| && ledger.entries[i].sealed.body.decisionId == decisionId
        && ledger.byId[decisionId] == ledger.entries[i];
      ghost var row := ledger.backend.rows[i];
      ArchiveFinds(ledger.backend.rows, i);
      var found := ledger.backend.ArchiveFor(decisionId);
      r := Compare(original, found.value, challengeId);
      assert row in ledger.backend.rows && Confirms(engine, row, r, challengeId);
    }

    // The archive run again beside what was recorded of it.
    method Compare(original: Envelope, archive: Archive, challengeId: string)
      returns (r: Result<ReplayResult, ReplayError>)
      requires F2.IsShare(engine.share, graph) && Audited(engine, original, archive)
      ensures r != Err(NoSuchRecord) && ConfirmsRecord(engine, original, archive, r, challengeId)
    {
      var replayed := ReplayArchive(archive, challengeId);
      ReplayHash(engine, archive, challengeId);
      if replayed.None? { return Err(StageRaised); }
      var p := replayed.value;
      r := Ok(ReplayResult(original.verdict, p.verdict, p.verdict == original.verdict,
                           p.worldSnapshotHash == original.worldSnapshotHash, p.reasonCodes == original.reasonCodes));
      SnapshotExactly(engine, original, archive, r.value.worldSnapshotMatches);
    }
  }

  // Everything from nothing: an empty ledger under its key, a store, a provider.
  method Begin<S(!new)>(engine: Engine, graph: OwnershipGraph, suite: Suite<Envelope>, key: string, durable: bool,
                        provider: Provider<S>, state: S)
    returns (o: Orchestrator<S>)
    requires F2.IsShare(engine.share, graph)
    ensures fresh(o.Footprint()) && o.Valid() && o.Apart()
    ensures o.engine == engine && o.ledger.suite == suite && o.ledger.signingKey == key
    ensures o.screener.provider == provider
    ensures o.Now() == Standing(Books([], [], map[]), if durable then InTable([]) else InMemory(map[]), state)
  {
    var backend := new SqliteLedgerBackend<Envelope, Archive>();
    var ledger := Ledger.Open(suite, key, suite.pub(key), backend);
    var stepups := new StepUpStore();
    var screener := new Screener(provider, state);
    var store;
    if durable {
      var sqlite := new V.SqliteVelocityStore();
      store := SqliteStore(sqlite);
    } else {
      var memory := new V.VelocityStore();
      store := MemoryStore(memory);
    }
    o := new Orchestrator(engine, graph, ledger.value, store, stepups, screener);
  }

  // The hash over inputs that differ in the control flags alone tells them apart.
  ghost predicate TellsControls(e: Engine, a: Archive) {
    forall x, y ::
      e.hashSnapshot(Snapshot(a.bundle, a.now, x)) == e.hashSnapshot(Snapshot(a.bundle, a.now, y)) ==> x == y
  }

  // It answers exactly if no stage raises again. The answer confirms the verdict
  // of the row, and its reason codes exactly when no exception was recorded; and
  // it confirms the snapshot exactly when the archived inputs hash to what was
  // recorded: when the screening flag was set beforehand, or Feature 2 never ran.
  ghost predicate Confirms(e: Engine, row: Row, r: Result<ReplayResult, ReplayError>, id: string) {
    row.archive.Some? && ConfirmsRecord(e, row.entry.sealed.body.content, row.archive.value, r, id)
  }

  ghost predicate ConfirmsRecord(e: Engine, env: Envelope, a: Archive, r: Result<ReplayResult, ReplayError>,
                                 id: string)
  {
    && (r.Ok? <==> ReplayOf(e, a, id).Some?)
    && (r.Ok? ==> r.value.matchesOriginal && r.value.originalVerdict == r.value.reproducedVerdict == env.verdict)
    && (r.Ok? && r.value.reasonCodesMatch <==> FailedClosed !in env.reasonCodes)
    && (r.Ok? ==> SnapshotConfirmed(e, env, a, r.value.worldSnapshotMatches))
  }

  ghost predicate SnapshotConfirmed(e: Engine, env: Envelope, a: Archive, matches: bool) {
    && (matches <==> e.hashSnapshot(Snapshot(a.bundle, a.now, a.controls)) == env.worldSnapshotHash)
    && (TellsControls(e, a) ==> forall controls :: MadeWith(e, env, a, controls) ==>
          (matches <==> controls.pspRanSanctionsScreen || !ScreenRan(e, a.bundle)))
  }

  lemma SnapshotExactly(e: Engine, env: Envelope, a: Archive, matches: bool)
    requires matches <==> e.hashSnapshot(Snapshot(a.bundle, a.now, a.controls)) == env.worldSnapshotHash
    ensures SnapshotConfirmed(e, env, a, matches)
  {
    if TellsControls(e, a) {
      forall controls | MadeWith(e, env, a, controls)
        ensures matches <==> controls.pspRanSanctionsScreen || !ScreenRan(e, a.bundle)
      {
        assert matches <==> a.controls == controls;
      }
    }
  }
}
