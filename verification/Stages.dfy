// aegis/pipeline/f1_jurisdiction.py, f3_structuring.py and f4_adversarial.py,
// as functions of a context's value and as methods that write on the context.
module Stages {
  import opened Wrappers
  import opened Models
  import opened Context
  import V = Velocity
  import S = Structuring

  // ---- Feature 1: jurisdictions ----

  const DEFAULT_THRESHOLD := 1000.0
  const THRESHOLDS := map["US" := 3000.0, "EU" := 1000.0, "GB" := 1000.0, "SG" := 1000.0, "JP" := 1000.0,
                          "CH" := 1000.0, "AE" := 1000.0]
  const RESTRICTED := {"IR", "KP", "SY", "CU"}
  const EU_ISO := {"AT", "BE", "BG", "HR", "CY", "CZ", "DK", "EE", "FI", "FR", "DE", "GR", "HU", "IE", "IT", "LV",
                   "LT", "LU", "MT", "NL", "PL", "PT", "RO", "SK", "SI", "ES", "SE", "EU"}

  function TravelRuleThreshold(iso: string): real {
    if iso in THRESHOLDS then THRESHOLDS[iso] else DEFAULT_THRESHOLD
  }

  // min() over the touched jurisdictions, or the default if there is none.
  function ApplicableThreshold(touched: seq<Jurisdiction>): real {
    if touched == [] then TravelRuleThreshold("")
    else if |touched| == 1 then TravelRuleThreshold(touched[0].iso)
    else Min(ApplicableThreshold(touched[..|touched| - 1]), TravelRuleThreshold(touched[|touched| - 1].iso))
  }

  // A cart always carries a beneficiary object, so the intent's is never used.
  predicate AttestationPresent(b: Bundle) {
    && Given(b.intent.originator.legalName) && Given(b.intent.originator.accountRef)
    && Given(b.cart.beneficiary.legalName)
  }

  predicate Restricted(touched: seq<Jurisdiction>) {
    exists i :: 0 <= i < |touched| && touched[i].iso in RESTRICTED
  }

  predicate EuBuyer(touched: seq<Jurisdiction>) {
    exists i :: 0 <= i < |touched| && touched[i].role == Buyer && touched[i].iso in EU_ISO
  }

  function F1Finding(b: Bundle): Option<Code> {
    if Restricted(b.touched) then Some(RailIneligible)
    else if b.cart.totalUsd >= ApplicableThreshold(b.touched) && !AttestationPresent(b) then Some(TravelRuleMissing)
    else if EuBuyer(b.touched) && b.processingRegion != "EU" then Some(DataResidencyBreach)
    else None
  }

  function F1(ctx: Ctx): Ctx {
    match F1Finding(ctx.bundle) case Some(code) => WithSignal(ctx, Hard(code)) case None => ctx
  }

  method RunF1(ctx: DecisionContext)
    modifies ctx
    ensures ctx.Value() == F1(old(ctx.Value()))
  {
    var touched := ctx.bundle.touched;
    for i := 0 to |touched|
      invariant forall j :: 0 <= j < i ==> touched[j].iso !in RESTRICTED
      invariant ctx.Value() == old(ctx.Value())
    {
      if touched[i].iso in RESTRICTED {
        ctx.AddSignal(Hard(RailIneligible));
        return;
      }
    }
    if ctx.bundle.cart.totalUsd >= ApplicableThreshold(touched) && !AttestationPresent(ctx.bundle) {
      ctx.AddSignal(Hard(TravelRuleMissing));
      return;
    }
    if EuBuyer(touched) && ctx.bundle.processingRegion != "EU" {
      ctx.AddSignal(Hard(DataResidencyBreach));
    }
  }

  // The strictest threshold binds: the amount reaches it as soon as it reaches
  // that of one touched jurisdiction.
  lemma {:induction false} StrictestBinds(touched: seq<Jurisdiction>, amount: real)
    ensures amount >= ApplicableThreshold(touched) <==>
      if touched == [] then amount >= DEFAULT_THRESHOLD
      else exists i :: 0 <= i < |touched| && amount >= TravelRuleThreshold(touched[i].iso)
  {
    if |touched| <= 1 {
    } else {
      var front := touched[..|touched| - 1];
      StrictestBinds(front, amount);
      if i :| 0 <= i < |front| && amount >= TravelRuleThreshold(front[i].iso) { assert touched[i] == front[i]; }
      if i :| 0 <= i < |touched| - 1 && amount >= TravelRuleThreshold(touched[i].iso) { assert touched[i] == front[i]; }
    }
  }

  // ---- Feature 3: structuring and velocity, over either store ----

  datatype Stored = InMemory(data: V.Data) | InTable(rows: V.Table)

  datatype Served = Served(stored: Stored, answer: seq<V.Entry>)

  function Serve(stored: Stored, op: V.Op, width: real): Served {
    match stored
    case InMemory(data) => var r := V.MemStep(data, op, V.Always(width)); Served(InMemory(r.state), r.answer)
    case InTable(rows) => var r := V.SqlStep(rows, op, V.Always(width)); Served(InTable(r.state), r.answer)
  }

  datatype Store = MemoryStore(memory: V.VelocityStore) | SqliteStore(sqlite: V.SqliteVelocityStore) {
    function Objects(): set<object> {
      match this case MemoryStore(m) => {m} case SqliteStore(q) => {q}
    }

    function Contents(): Stored
      reads Objects()
    {
      match this case MemoryStore(m) => InMemory(m.data) case SqliteStore(q) => InTable(q.rows)
    }

    method Record(key: string, ts: real, amount: real)
      modifies Objects()
      ensures Served(Contents(), []) == Serve(old(Contents()), V.Op.Record(key, ts, amount), 0.0)
    {
      match this
      case MemoryStore(m) => m.Record(key, ts, amount);
      case SqliteStore(q) => q.Record(key, ts, amount);
    }

    method Window(key: string, now: real, windowSeconds: real) returns (entries: seq<V.Entry>)
      modifies Objects()
      ensures Served(Contents(), entries) == Serve(old(Contents()), V.Op.Window(key, now), windowSeconds)
    {
      match this
      case MemoryStore(m) => entries := m.Window(key, now, windowSeconds);
      case SqliteStore(q) => entries := q.Window(key, now, windowSeconds);
    }
  }

  function BeneficiaryRef(b: Bundle): string {
    var p := b.cart.beneficiary;
    if Given(p.accountRef) then p.accountRef.value
    else if Given(p.wallet) then p.wallet.value
    else if Given(p.legalName) then p.legalName.value
    else b.cart.merchantDid
  }

  function TransferOf(ctx: Ctx): S.Transfer {
    S.Transfer(ctx.bundle.payment.initiatorAgent, BeneficiaryRef(ctx.bundle), ctx.bundle.cart.totalUsd, ctx.now)
  }

  datatype Windows = Windows(struct: seq<V.Entry>, vel: seq<V.Entry>, stored: Stored)

  // Both records of one transfer.
  function BothRecorded(stored: Stored, t: S.Transfer): Stored {
    var r := Serve(stored, V.Record(S.StructKey(t), t.now, t.amount), 0.0);
    Serve(r.stored, V.Record(S.VelKey(t.agent), t.now, t.amount), 0.0).stored
  }

  // The two windows read, and the store once both records are made.
  function Exchange(stored: Stored, t: S.Transfer): Windows {
    var r1 := Serve(stored, V.Window(S.StructKey(t), t.now), S.DAY);
    var r2 := Serve(r1.stored, V.Window(S.VelKey(t.agent), t.now), S.DAY);
    Windows(r1.answer, r2.answer, BothRecorded(r2.stored, t))
  }

  function Amounts(s: seq<V.Entry>): seq<real> {
    seq(|s|, i requires 0 <= i < |s| => s[i].amount)
  }

  const STRUCTURING := Signal(StructuringSuspicion, High, false, 45.0)

  function SarFor(t: S.Transfer, window: seq<V.Entry>): Sar {
    Sar(t.agent, t.beneficiary, Amounts(window), S.Sum(window))
  }

  // What the stage writes once it knows the two prior windows.
  function F3Given(ctx: Ctx, struct: seq<V.Entry>, vel: seq<V.Entry>): Ctx {
    var t := TransferOf(ctx);
    var seen := ctx.(velocitySnapshot := map[S.StructKey(t) := struct, S.VelKey(t.agent) := vel]);
    match S.Assess(struct, vel, t.now, t.amount)
    case VelocityExceeded => WithSignal(seen, Hard(VelocityCapExceeded))
    case StructuringSuspected =>
      WithSignal(seen, STRUCTURING).(sarDraft := Some(SarFor(t, struct + [V.Entry(t.now, t.amount)])))
    case Clear => seen
  }

  function F3(ctx: Ctx, stored: Stored): Ctx {
    var w := Exchange(stored, TransferOf(ctx));
    F3Given(ctx, w.struct, w.vel)
  }

  method RunF3(ctx: DecisionContext, store: Store)
    requires ctx !in store.Objects()
    modifies ctx, store.Objects()
    ensures ctx.Value() == F3(old(ctx.Value()), old(store.Contents()))
    ensures store.Contents() == Exchange(old(store.Contents()), TransferOf(old(ctx.Value()))).stored
  {
    var t := TransferOf(ctx.Value());
    var priorStruct := store.Window(S.StructKey(t), t.now, S.DAY);
    var priorVel := store.Window(S.VelKey(t.agent), t.now, S.DAY);
    ctx.velocitySnapshot := map[S.StructKey(t) := priorStruct, S.VelKey(t.agent) := priorVel];
    store.Record(S.StructKey(t), t.now, t.amount);
    store.Record(S.VelKey(t.agent), t.now, t.amount);
    var finding := S.Assess(priorStruct, priorVel, t.now, t.amount);
    if finding == S.VelocityExceeded {
      ctx.AddSignal(Hard(VelocityCapExceeded));
      return;
    }
    if finding == S.StructuringSuspected {
      ctx.AddSignal(STRUCTURING);
      ctx.sarDraft := Some(SarFor(t, priorStruct + [V.Entry(t.now, t.amount)]));
    }
  }

  // ---- Feature 4: drift and injection ----

  const DRIFT_THRESHOLD := 0.85
  const DRIFT := Signal(IntentDrift, Medium, false, 30.0)

  // `similarity` is None where the embedder raises.
  datatype Embedder = Embedder(name: string, version: string, similarity: (string, string) -> Option<real>)

  datatype Stage = Stage(ctx: Ctx, raised: bool)

  predicate PriceBreach(b: Bundle) {
    b.intent.maxValueUsd.Some? && b.cart.totalUsd > b.intent.maxValueUsd.value
  }

  function F4(ctx: Ctx, embedder: Embedder, injected: string -> bool): Stage {
    var c := ctx.(modelsUsed := ctx.modelsUsed[embedder.name := embedder.version]);
    var sim := embedder.similarity(c.bundle.intent.description, c.bundle.cart.summary);
    if sim.None? then Stage(c, true)
    else if injected(c.bundle.intent.description) || PriceBreach(c.bundle) then
      Stage(WithSignal(c, Hard(IntentDrift)), false)
    else if 1.0 - sim.value > DRIFT_THRESHOLD then Stage(WithSignal(c, DRIFT), false)
    else Stage(c, false)
  }

  method RunF4(ctx: DecisionContext, embedder: Embedder, injected: string -> bool) returns (raised: bool)
    modifies ctx
    ensures Stage(ctx.Value(), raised) == F4(old(ctx.Value()), embedder, injected)
  {
    ctx.RecordModel(embedder.name, embedder.version);
    var sim := embedder.similarity(ctx.bundle.intent.description, ctx.bundle.cart.summary);
    if sim.None? { return true; }
    var drift := 1.0 - sim.value;
    if injected(ctx.bundle.intent.description) || PriceBreach(ctx.bundle) {
      ctx.AddSignal(Hard(IntentDrift));
      return false;
    }
    if drift > DRIFT_THRESHOLD { ctx.AddSignal(DRIFT); }
    return false;
  }
}
