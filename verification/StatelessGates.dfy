/** The expected-value, drawdown, concentration and cluster-cap gates. */
module StatelessGates {
  import opened Prelude
  import opened Floats
  import opened State

  // ----- What each gate decides -----

  ghost function ExpectedValueVerdict(ctx: RiskContext, expectedValue: Float): Verdict {
    if !(expectedValue.Fin? && ctx.minExpectedValue.Fin?) then
      Reject(InvalidFloatExpectedValue)
    else if expectedValue.r >= ctx.minExpectedValue.r then
      Pass
    else
      Reject(ExpectedValueTooLow(expectedValue.r, ctx.minExpectedValue.r))
  }

  /** The loss limit without a quotient: the day's PnL against the limit's share of equity. */
  ghost function DrawdownVerdict(ctx: RiskContext, dailyPnl: Float, equity: Float): Verdict {
    if !(equity.Fin? && dailyPnl.Fin? && ctx.maxDailyDrawdownPct.Fin?) then
      Reject(InvalidFloatDrawdown)
    else if equity.r <= 0.0 then
      Reject(ZeroOrNegativeEquity)
    else if dailyPnl.r + ctx.maxDailyDrawdownPct.r * equity.r >= 0.0 then
      Pass
    else
      Reject(DailyDrawdown(dailyPnl.r / equity.r, -ctx.maxDailyDrawdownPct.r))
  }

  predicate Unresolved(p: Position, family: string) {
    !p.isResolved && p.family == family
  }

  /** Every position that counts towards the family has a finite cost. */
  ghost predicate FiniteExposure(positions: seq<Position>, family: string) {
    forall p | p in positions && Unresolved(p, family) :: p.costBasis.Fin?
  }

  /** The capital still at risk in a family. */
  ghost function Exposure(positions: seq<Position>, family: string): real {
    if positions == [] then 0.0
    else
      var p := positions[|positions| - 1];
      Exposure(positions[..|positions| - 1], family)
      + if Unresolved(p, family) && p.costBasis.Fin? then p.costBasis.r else 0.0
  }

  ghost function ConcentrationVerdict(
    ctx: RiskContext, family: string, cost: Float, positions: seq<Position>): Verdict
  {
    if !(cost.Fin? && ctx.maxCorrelatedExposure.Fin? && FiniteExposure(positions, family)) then
      Reject(InvalidFloatConcentration)
    else if Exposure(positions, family) + cost.r <= ctx.maxCorrelatedExposure.r then
      Pass
    else
      Reject(ConcentrationExceeded(family, ctx.maxCorrelatedExposure.r))
  }

  const UNKNOWN_CLUSTER := "unknown"

  /** The cap applies only to a known cluster and a cost that is not zero or negative. */
  ghost predicate CapApplies(c: ClusterCapContext) {
    c.clusterId != UNKNOWN_CLUSTER && !AtMost(c.proposedCost, Fin(0.0))
  }

  ghost predicate CapBreached(c: ClusterCapContext) {
    || AtMost(c.maxClusterUsd, Fin(0.0))
    || Less(c.maxClusterUsd, Plus(c.clusterOpenUsd, c.proposedCost))
  }

  /** A breach is reported with size zero; any other cost must be finite to be returned. */
  ghost function ClusterDecision(c: ClusterCapContext): Result<Decision, Error> {
    if CapApplies(c) && CapBreached(c) then
      Success(Decision(
        false,
        if AtMost(c.maxClusterUsd, Fin(0.0)) then ClusterCapNotPositive(c.maxClusterUsd)
        else ClusterCapExceeded(
          c.clusterId, Plus(c.clusterOpenUsd, c.proposedCost), c.maxClusterUsd),
        0.0))
    else if c.proposedCost.Fin? then
      Success(Decision(true, Okay, c.proposedCost.r))
    else
      Failure(ValueError("suggested_size"))
  }

  /** A cap of zero or less rejects, as documented of all trades, exactly where it applies. */
  lemma NonPositiveCapRejectsIff(c: ClusterCapContext)
    requires AtMost(c.maxClusterUsd, Fin(0.0))
    ensures (ClusterDecision(c).Success? && !ClusterDecision(c).value.approved)
       <==> c.clusterId != UNKNOWN_CLUSTER && !AtMost(c.proposedCost, Fin(0.0))
    ensures ClusterDecision(ClusterCapContext(UNKNOWN_CLUSTER, Fin(0.0), Fin(10.0), Fin(0.0)))
         == Success(Decision(true, Okay, 10.0))
    ensures ClusterDecision(ClusterCapContext("BTC", Fin(0.0), Fin(-10.0), Fin(0.0)))
         == Success(Decision(true, Okay, -10.0))
  {
  }

  // ----- The gates -----

  method EvaluateExpectedValue(ctx: RiskContext, expectedValue: Float, decision: RiskDecision)
    returns (ok: bool)
    modifies decision
    ensures ok == ExpectedValueVerdict(ctx, expectedValue).Pass?
    ensures decision.View()
         == Apply(old(decision.View()), ExpectedValueVerdict(ctx, expectedValue))
  {
    if !expectedValue.Fin? || !ctx.minExpectedValue.Fin? {
      decision.Reject(InvalidFloatExpectedValue);
      return false;
    }
    if expectedValue.r < ctx.minExpectedValue.r {
      decision.Reject(ExpectedValueTooLow(expectedValue.r, ctx.minExpectedValue.r));
      return false;
    }
    return true;
  }

  /** A ratio is below `-limit` exactly when the loss exceeds that share of equity. */
  lemma RatioBelow(pnl: real, equity: real, limit: real)
    requires equity > 0.0
    ensures pnl / equity < -limit <==> pnl + limit * equity < 0.0
  {
  }

  method EvaluateDrawdown(ctx: RiskContext, dailyPnl: Float, equity: Float, decision: RiskDecision)
    returns (ok: bool)
    modifies decision
    ensures ok == DrawdownVerdict(ctx, dailyPnl, equity).Pass?
    ensures decision.View() == Apply(old(decision.View()), DrawdownVerdict(ctx, dailyPnl, equity))
  {
    if !equity.Fin? || !dailyPnl.Fin? || !ctx.maxDailyDrawdownPct.Fin? {
      decision.Reject(InvalidFloatDrawdown);
      return false;
    }
    if equity.r <= 0.0 {
      decision.Reject(ZeroOrNegativeEquity);
      return false;
    }
    var ratio := dailyPnl.r / equity.r;
    RatioBelow(dailyPnl.r, equity.r, ctx.maxDailyDrawdownPct.r);
    if ratio < -ctx.maxDailyDrawdownPct.r {
      decision.Reject(DailyDrawdown(ratio, -ctx.maxDailyDrawdownPct.r));
      return false;
    }
    return true;
  }

  method EvaluateConcentration(
    ctx: RiskContext, family: string, cost: Float, positions: seq<Position>, decision: RiskDecision)
    returns (ok: bool)
    modifies decision
    ensures ok == ConcentrationVerdict(ctx, family, cost, positions).Pass?
    ensures decision.View()
         == Apply(old(decision.View()), ConcentrationVerdict(ctx, family, cost, positions))
  {
    if !cost.Fin? || !ctx.maxCorrelatedExposure.Fin? {
      decision.Reject(InvalidFloatConcentration);
      return false;
    }
    var exposure := 0.0;
    for i := 0 to |positions|
      invariant FiniteExposure(positions[..i], family)
      invariant exposure == Exposure(positions[..i], family)
      invariant decision.View() == old(decision.View())
    {
      var p := positions[i];
      assert positions[..i + 1] == positions[..i] + [p];
      if !p.isResolved && p.family == family {
        if !p.costBasis.Fin? {
          assert p in positions && Unresolved(p, family);
          decision.Reject(InvalidFloatConcentration);
          return false;
        }
        exposure := exposure + p.costBasis.r;
      }
    }
    assert positions[..|positions|] == positions;
    if exposure + cost.r > ctx.maxCorrelatedExposure.r {
      decision.Reject(ConcentrationExceeded(family, ctx.maxCorrelatedExposure.r));
      return false;
    }
    return true;
  }

  method EvaluateClusterCap(c: ClusterCapContext) returns (r: Result<RiskDecision, Error>)
    ensures r.Success? <==> ClusterDecision(c).Success?
    ensures r.Success? ==> fresh(r.value) && r.value.View() == ClusterDecision(c).value
    ensures r.Failure? ==> r.error == ClusterDecision(c).error
  {
    if c.clusterId == UNKNOWN_CLUSTER {
      r := RiskDecision.Make(true, Okay, c.proposedCost);
      return;
    }
    if AtMost(c.proposedCost, Fin(0.0)) {
      r := RiskDecision.Make(true, Okay, c.proposedCost);
      return;
    }
    if AtMost(c.maxClusterUsd, Fin(0.0)) {
      r := RiskDecision.Make(false, ClusterCapNotPositive(c.maxClusterUsd), Fin(0.0));
      return;
    }
    var exposure := Plus(c.clusterOpenUsd, c.proposedCost);
    if Less(c.maxClusterUsd, exposure) {
      r := RiskDecision.Make(
        false, ClusterCapExceeded(c.clusterId, exposure, c.maxClusterUsd), Fin(0.0));
      return;
    }
    r := RiskDecision.Make(true, Okay, c.proposedCost);
  }
}
