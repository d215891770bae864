// aegis/pipeline/context.py: the snapshot a decision is a function of, and the
// accumulators the stages write into.
module Context {
  import opened Wrappers
  import opened Models
  import opened Screening
  import opened Velocity

  datatype Controls = Controls(
    merchantVerifiedPaymentChallenge: bool, userCompletedRequiredStepup: bool,
    agentSdkPinnedIntentConstraints: bool, pspRanSanctionsScreen: bool)

  // What the world-snapshot hash covers; the ruleset version is a constant.
  datatype Snapshot = Snapshot(bundle: Bundle, now: real, controls: Controls)

  datatype Sar = Sar(agent: string, beneficiary: string, amounts: seq<real>, total: real)

  // The value of a decision context.
  datatype Ctx = Ctx(
    bundle: Bundle, controls: Controls, now: real, worldSnapshotHash: string,
    signals: seq<Signal>, riskScore: real, modelsUsed: map<string, string>,
    stepup: Option<Challenge>, sarDraft: Option<Sar>, velocitySnapshot: Data,
    screeningProvenance: Option<Provenance>, screeningLog: map<string, seq<Candidate>>, screeningError: Option<string>)

  function FreshCtx(bundle: Bundle, controls: Controls, now: real, hash: Snapshot -> string): Ctx {
    Ctx(bundle, controls, now, hash(Snapshot(bundle, now, controls)),
        [], 0.0, map[], None, None, map[], None, map[], None)
  }

  function Max(x: real, y: real): real { if x < y then y else x }
  function Min(x: real, y: real): real { if x < y then x else y }

  // Signals only ever raise the score.
  function Raised(risk: real, delta: real): real {
    if delta != 0.0 then Min(100.0, risk + Max(0.0, delta)) else risk
  }

  function WithSignal(c: Ctx, s: Signal): Ctx {
    c.(signals := c.signals + [s], riskScore := Raised(c.riskScore, s.riskDelta))
  }

  predicate HardBlocked(signals: seq<Signal>) {
    exists i :: 0 <= i < |signals| && signals[i].hardBlock
  }

  class DecisionContext {
    const bundle: Bundle
    const now: real
    const worldSnapshotHash: string
    var controls: Controls
    var signals: seq<Signal>
    var riskScore: real
    var modelsUsed: map<string, string>
    var stepup: Option<Challenge>
    var sarDraft: Option<Sar>
    var velocitySnapshot: Data
    var screeningProvenance: Option<Provenance>
    var screeningLog: map<string, seq<Candidate>>
    var screeningError: Option<string>

    function Value(): Ctx
      reads this
    {
      Ctx(bundle, controls, now, worldSnapshotHash, signals, riskScore, modelsUsed, stepup, sarDraft, velocitySnapshot,
          screeningProvenance, screeningLog, screeningError)
    }

    constructor (bundle: Bundle, controls: Controls, now: real, hash: Snapshot -> string)
      ensures Value() == FreshCtx(bundle, controls, now, hash)
    {
      this.bundle, this.controls, this.now := bundle, controls, now;
      worldSnapshotHash := hash(Snapshot(bundle, now, controls));
      signals, riskScore, modelsUsed, stepup, sarDraft := [], 0.0, map[], None, None;
      velocitySnapshot, screeningProvenance, screeningLog, screeningError := map[], None, map[], None;
    }

    method AddSignal(s: Signal)
      modifies this
      ensures Value() == WithSignal(old(Value()), s)
    {
      signals := signals + [s];
      if s.riskDelta != 0.0 {
        riskScore := Min(100.0, riskScore + Max(0.0, s.riskDelta));
      }
    }

    method RecordModel(name: string, version: string)
      modifies this
      ensures Value() == old(Value()).(modelsUsed := old(modelsUsed)[name := version])
    {
      modelsUsed := modelsUsed[name := version];
    }

    method HasHardBlock() returns (blocked: bool)
      ensures blocked == HardBlocked(signals)
    {
      for i := 0 to |signals|
        invariant !HardBlocked(signals[..i])
      {
        if signals[i].hardBlock { return true; }
      }
      assert signals[..|signals|] == signals;
      return false;
    }
  }
}
