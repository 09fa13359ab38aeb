/** The stateless gate chain and the authority that puts the stateful gates before it. */
module Engine {
  import opened Prelude
  import opened Floats
  import opened Clock
  import opened State
  import opened GateMachines
  import opened StatefulGates
  import opened StatelessGates
  import opened LossScan

  // ----- The stateless chain -----

  /** The earliest rejection, or a pass when there is none. */
  function FirstReject(verdicts: seq<Verdict>): (v: Verdict)
    ensures v.Pass? <==> forall i | 0 <= i < |verdicts| :: verdicts[i].Pass?
    ensures v.Reject? ==> exists i | 0 <= i < |verdicts| ::
              verdicts[i] == v && forall j | 0 <= j < i :: verdicts[j].Pass?
  {
    if verdicts == [] then Pass
    else if verdicts[0].Reject? then verdicts[0]
    else
      var rest := verdicts[1..];
      assert forall i | 0 <= i < |rest| :: rest[i] == verdicts[i + 1];
      FirstReject(rest)
  }

  lemma FirstOfThree(a: Verdict, b: Verdict, c: Verdict)
    ensures FirstReject([a, b, c])
         == if a.Reject? then a else if b.Reject? then b else c
  {
    assert [a, b, c][1..] == [b, c];
    assert [b, c][1..] == [c];
    assert [c][1..] == [];
    assert FirstReject([c]) == c;
    assert FirstReject([b, c]) == if b.Reject? then b else c;
  }

  lemma FirstOfFour(a: Verdict, b: Verdict, c: Verdict, d: Verdict)
    ensures FirstReject([a, b, c, d])
         == if a.Reject? then a else if b.Reject? then b else if c.Reject? then c else d
  {
    assert [a, b, c, d][1..] == [b, c, d];
    FirstOfThree(b, c, d);
  }

  /** The four pure gates, each on its own, in the order the chain runs them. */
  ghost function GateVerdicts(ctx: RiskContext, t: Trade): seq<Verdict> {
    [ ExpectedValueVerdict(ctx, t.expectedValue),
      DrawdownVerdict(ctx, t.dailyRealizedPnl, t.equity),
      ConsecutiveLossVerdict(ctx, t.tradeOutcomes, t.currentTime),
      ConcentrationVerdict(ctx, t.targetFamily, t.proposedCost, t.openPositions) ]
  }

  ghost predicate ClusterPasses(t: Trade) {
    t.clusterCap.Some? ==>
      ClusterDecision(t.clusterCap.value).Success? && ClusterDecision(t.clusterCap.value).value.approved
  }

  predicate Approved(r: Result<Decision, Error>) {
    r.Success? && r.value.approved
  }

  /** The gates, then the optional cluster cap, then the time spent. */
  ghost function StatelessDecision(ctx: RiskContext, t: Trade, elapsedUs: int)
    : Result<Decision, Error>
  {
    if !t.proposedCost.Fin? then Failure(ValueError("suggested_size"))
    else
      var start := Decision(true, Okay, t.proposedCost.r);
      var gates := FirstReject(GateVerdicts(ctx, t));
      if gates.Reject? then Success(Apply(start, gates))
      else if !ClusterPasses(t) then
        var capped := ClusterDecision(t.clusterCap.value);
        if capped.Failure? then Failure(capped.error)
        else Success(Apply(start, Reject(capped.value.reason)))
      else if elapsedUs > ctx.latencyBudgetUs then
        Success(Apply(start, Reject(LatencyBudget(elapsedUs, ctx.latencyBudgetUs))))
      else
        Success(start)
  }

  method EvaluateStateless(ctx: RiskContext, t: Trade, elapsedUs: int)
    returns (r: Result<RiskDecision, Error>)
    ensures r.Success? <==> StatelessDecision(ctx, t, elapsedUs).Success?
    ensures r.Success? ==>
      fresh(r.value) && r.value.View() == StatelessDecision(ctx, t, elapsedUs).value
    ensures r.Failure? ==> r.error == StatelessDecision(ctx, t, elapsedUs).error
  {
    r := RiskDecision.Make(true, Okay, t.proposedCost);
    if r.Failure? {
      return;
    }
    var decision := r.value;
    ghost var gates := GateVerdicts(ctx, t);
    FirstOfFour(gates[0], gates[1], gates[2], gates[3]);
    var ok := EvaluateExpectedValue(ctx, t.expectedValue, decision);
    if !ok {
      return;
    }
    ok := EvaluateDrawdown(ctx, t.dailyRealizedPnl, t.equity, decision);
    if !ok {
      return;
    }
    ok := EvaluateConsecutiveLosses(ctx, t.tradeOutcomes, t.currentTime, decision);
    if !ok {
      return;
    }
    ok := EvaluateConcentration(ctx, t.targetFamily, t.proposedCost, t.openPositions, decision);
    if !ok {
      return;
    }
    if t.clusterCap.Some? {
      var capped := EvaluateClusterCap(t.clusterCap.value);
      if capped.Failure? {
        return Failure(capped.error);
      }
      if !capped.value.approved {
        decision.Reject(capped.value.reasonCode);
        return;
      }
    }
    if elapsedUs > ctx.latencyBudgetUs {
      decision.Reject(LatencyBudget(elapsedUs, ctx.latencyBudgetUs));
    }
  }

  // ----- The authority's steps -----

  datatype Gates = Gates(
    killSwitch: Option<KillSwitchState>,
    timedBreaker: Option<TimedCircuitBreakerState>,
    lossGate: Option<ConsecutiveLossGateState>)
  {
    predicate Valid() {
      && (timedBreaker.Some? ==> timedBreaker.value.Valid())
      && (lossGate.Some? ==> lossGate.value.Valid())
    }
  }

  /** `armed` says whether a callback is installed. */
  datatype AuthorityState = AuthorityState(gates: Gates, armed: bool, lastTrip: Option<Reason>)

  function KillPart(g: Gates): Verdict {
    if g.killSwitch.Some? then KillVerdict(g.killSwitch.value) else Pass
  }

  function BreakerPart(g: Gates, now: Option<Timestamp>): Verdict {
    if g.timedBreaker.Some? then BreakerVerdict(g.timedBreaker.value, now) else Pass
  }

  function LossGatePart(g: Gates): Verdict {
    if g.lossGate.Some? then LossGateVerdict(g.lossGate.value) else Pass
  }

  function StatefulVerdict(g: Gates, now: Option<Timestamp>): Verdict {
    FirstReject([KillPart(g), BreakerPart(g, now), LossGatePart(g)])
  }

  /** A check may clear the breaker, but only once the kill switch has let it pass. */
  function AfterCheck(g: Gates, now: Option<Timestamp>): Gates {
    if KillPart(g).Reject? || g.timedBreaker.None? then g
    else g.(timedBreaker := Some(BreakerCheck(g.timedBreaker.value, now)))
  }

  function AfterRecord(g: Gates, pnl: Number, at: Option<Timestamp>): Gates
    requires g.Valid()
  {
    g.(timedBreaker := if g.timedBreaker.Some?
                       then Some(BreakerRecord(g.timedBreaker.value, pnl, at)) else None,
       lossGate := if g.lossGate.Some?
                   then Some(LossGateRecord(g.lossGate.value, pnl)) else None)
  }

  /** What one evaluation leaves behind, returns, and passes to the callback. */
  datatype Evaluation = Evaluation(
    state: AuthorityState, result: Result<Decision, Error>, fired: seq<Decision>)

  /** A rejection fires unless its reason is the one fired last. */
  predicate Fires(s: AuthorityState, reason: Reason) {
    s.armed && s.lastTrip != Some(reason)
  }

  ghost function Evaluate(s: AuthorityState, ctx: RiskContext, t: Trade, elapsedUs: int)
    : Evaluation
  {
    var v := StatefulVerdict(s.gates, t.currentTime);
    var checked := s.(gates := AfterCheck(s.gates, t.currentTime));
    if !t.proposedCost.Fin? then
      Evaluation(s, Failure(ValueError("suggested_size")), [])
    else if v.Pass? then
      Evaluation(checked, StatelessDecision(ctx, t, elapsedUs), [])
    else
      var d := Decision(false, v.reason, t.proposedCost.r);
      if Fires(s, v.reason) then
        Evaluation(checked.(lastTrip := Some(v.reason)), Success(d), [d])
      else
        Evaluation(checked, Success(d), [])
  }

  /** The state an authority starts in when rebuilt from a snapshot. */
  function Restored(state: RiskState, armed: bool): AuthorityState {
    AuthorityState(
      Gates(state.killSwitch, state.timedBreaker, state.consecutiveLossGate), armed, None)
  }

  // ----- The authority -----

  /** The caller's `on_trip`, which keeps what it was called with. */
  class TripCallback {
    var calls: seq<Decision>

    constructor ()
      ensures calls == []
    {
      calls := [];
    }

    method Call(decision: RiskDecision)
      modifies this
      ensures calls == old(calls) + [decision.View()]
    {
      calls := calls
        + [Decision(decision.approved, decision.reasonCode, decision.suggestedSize)];
    }
  }

  class RiskAuthority {
    var killSwitch: KillSwitch?
    var timedBreaker: TimedCircuitBreaker?
    var consecutiveLossGate: ConsecutiveLossGate?
    var onTrip: TripCallback?
    var lastTripReason: Option<Reason>

    constructor (
      killSwitch: KillSwitch?,
      timedBreaker: TimedCircuitBreaker?,
      consecutiveLossGate: ConsecutiveLossGate?,
      onTrip: TripCallback?)
      ensures this.killSwitch == killSwitch && this.timedBreaker == timedBreaker
      ensures this.consecutiveLossGate == consecutiveLossGate && this.onTrip == onTrip
      ensures lastTripReason == None
    {
      this.killSwitch := killSwitch;
      this.timedBreaker := timedBreaker;
      this.consecutiveLossGate := consecutiveLossGate;
      this.onTrip := onTrip;
      this.lastTripReason := None;
    }

    ghost function GateStates(): Gates
      reads this, killSwitch, timedBreaker, consecutiveLossGate
    {
      Gates(
        if killSwitch == null then None else Some(killSwitch.ToState()),
        if timedBreaker == null then None else Some(timedBreaker.ToState()),
        if consecutiveLossGate == null then None else Some(consecutiveLossGate.ToState()))
    }

    ghost function State(): AuthorityState
      reads this, killSwitch, timedBreaker, consecutiveLossGate
    {
      AuthorityState(GateStates(), onTrip != null, lastTripReason)
    }

    ghost predicate Valid()
      reads this, killSwitch, timedBreaker, consecutiveLossGate
    {
      GateStates().Valid()
    }

    method MaybeFireTrip(decision: RiskDecision)
      modifies this`lastTripReason, onTrip
      ensures lastTripReason == if Fires(old(State()), decision.reasonCode)
                                then Some(decision.reasonCode) else old(lastTripReason)
      ensures onTrip != null ==>
        onTrip.calls == old(onTrip.calls)
          + if Fires(old(State()), decision.reasonCode) then [decision.View()] else []
    {
      if onTrip == null || lastTripReason == Some(decision.reasonCode) {
        return;
      }
      lastTripReason := Some(decision.reasonCode);
      onTrip.Call(decision);
    }

    /** The three desk-level gates in their order, stopping at the first rejection. */
    method CheckStatefulGates(decision: RiskDecision, now: Option<Timestamp>) returns (ok: bool)
      requires Valid()
      modifies timedBreaker, decision
      ensures Valid() && GateStates() == AfterCheck(old(GateStates()), now)
      ensures ok == StatefulVerdict(old(GateStates()), now).Pass?
      ensures decision.View() == Apply(old(decision.View()), StatefulVerdict(old(GateStates()), now))
    {
      ghost var g := GateStates();
      FirstOfThree(KillPart(g), BreakerPart(g, now), LossGatePart(g));
      if killSwitch != null {
        ok := killSwitch.Check(decision);
        if !ok {
          return;
        }
      }
      if timedBreaker != null {
        ok := timedBreaker.Check(decision, now);
        if !ok {
          return;
        }
      }
      if consecutiveLossGate != null {
        ok := consecutiveLossGate.Check(decision);
        if !ok {
          return;
        }
      }
      ok := true;
    }

    method EvaluateWithState(ctx: RiskContext, t: Trade, elapsedUs: int)
      returns (r: Result<RiskDecision, Error>)
      requires Valid()
      modifies this`lastTripReason, timedBreaker, onTrip
      ensures Valid() && State() == Evaluate(old(State()), ctx, t, elapsedUs).state
      ensures r.Success? <==> Evaluate(old(State()), ctx, t, elapsedUs).result.Success?
      ensures r.Success? ==>
        fresh(r.value)
        && r.value.View() == Evaluate(old(State()), ctx, t, elapsedUs).result.value
      ensures r.Failure? ==> r.error == Evaluate(old(State()), ctx, t, elapsedUs).result.error
      ensures onTrip != null ==>
        onTrip.calls == old(onTrip.calls) + Evaluate(old(State()), ctx, t, elapsedUs).fired
    {
      r := RiskDecision.Make(true, Okay, t.proposedCost);
      if r.Failure? {
        return;
      }
      var ok := CheckStatefulGates(r.value, t.currentTime);
      if !ok {
        MaybeFireTrip(r.value);
        return;
      }
      r := EvaluateStateless(ctx, t, elapsedUs);
    }

    method RecordResolvedTrade(pnl: Number, at: Option<Timestamp>)
      requires Valid()
      modifies timedBreaker, consecutiveLossGate
      ensures Valid() && GateStates() == AfterRecord(old(GateStates()), pnl, at)
      ensures State() == old(State()).(gates := GateStates())
    {
      if timedBreaker != null {
        timedBreaker.Record(pnl, at);
      }
      if consecutiveLossGate != null {
        consecutiveLossGate.Record(pnl);
      }
    }

    /** The snapshot of a valid authority always passes its own validation. */
    method SnapshotState(ctx: RiskContext) returns (s: RiskState)
      requires Valid() && ctx.Valid()
      ensures s.Valid() && s.context == ctx && s.schemaVersion == 1
      ensures Restored(s, onTrip != null).gates == GateStates()
    {
      s := RiskState(
        RISK_STATE_SCHEMA_VERSION,
        ctx,
        if killSwitch != null then Some(killSwitch.ToState()) else None,
        if timedBreaker != null then Some(timedBreaker.ToState()) else None,
        if consecutiveLossGate != null then Some(consecutiveLossGate.ToState()) else None);
    }

    /** Rebuilds an authority whose gates are new objects, shared with no other authority. */
    static method FromState(state: RiskState, onTrip: TripCallback?) returns (a: RiskAuthority)
      requires state.Valid()
      ensures fresh(a) && a.Valid() && a.onTrip == onTrip
      ensures a.State() == Restored(state, onTrip != null)
      ensures a.killSwitch != null ==> fresh(a.killSwitch)
      ensures a.timedBreaker != null ==> fresh(a.timedBreaker)
      ensures a.consecutiveLossGate != null ==> fresh(a.consecutiveLossGate)
    {
      var k: KillSwitch? := null;
      var b: TimedCircuitBreaker? := null;
      var g: ConsecutiveLossGate? := null;
      if state.killSwitch.Some? {
        k := KillSwitch.FromState(state.killSwitch.value);
      }
      if state.timedBreaker.Some? {
        b := TimedCircuitBreaker.FromState(state.timedBreaker.value);
      }
      if state.consecutiveLossGate.Some? {
        g := ConsecutiveLossGate.FromState(state.consecutiveLossGate.value);
      }
      a := new RiskAuthority(k, b, g, onTrip);
    }
  }
}
