/** Value structs of the engine, their validity conditions, and the decision object. */
module State {
  import opened Prelude
  import opened Floats
  import opened Clock

  const RISK_STATE_SCHEMA_VERSION := 1

  /** A reason code with its payload. Comparing the reasons of the desk gates, the only ones that the
      callback's memory compares, stands for comparing their texts. */
  datatype Reason =
    | Okay
    | InvalidFloatExpectedValue
    | ExpectedValueTooLow(value: real, floor: real)
    | InvalidFloatDrawdown
    | ZeroOrNegativeEquity
    | DailyDrawdown(ratio: real, floor: real)
    | InvalidConsecutiveLossContext
    | TimezoneMixed
    | InvalidFloatConsecutiveLosses
    | InvalidTimeOrder
    | ConsecutiveLossLimit(losses: int, minutes: Float)
    | InvalidFloatConcentration
    | ConcentrationExceeded(family: string, limit: real)
    | ClusterCapNotPositive(max: Float)
    | ClusterCapExceeded(cluster: string, exposure: Float, cap: Float)
    | LatencyBudget(elapsedUs: int, budgetUs: int)
    | KillSwitchManual
    | CustomHalt(text: string)
    | BreakerTripped(streak: int, cooldownHours: real)
    | LossGateTripped(windowLosses: int, windowTrades: int, maxLosses: int)

  /** What one gate says about a trade. */
  datatype Verdict = Pass | Reject(reason: Reason)

  /** The policy; every float field is finite once constructed. */
  datatype RiskContext = RiskContext(
    maxDailyDrawdownPct: Float,
    maxWeeklyDrawdownPct: Float,
    maxCorrelatedExposure: Float,
    minExpectedValue: Float,
    latencyBudgetUs: int,
    consecutiveLossLimit: int,
    consecutiveLossWindowMinutes: Float)
  {
    predicate Valid() {
      && maxDailyDrawdownPct.Fin?
      && maxWeeklyDrawdownPct.Fin?
      && maxCorrelatedExposure.Fin?
      && minExpectedValue.Fin?
      && consecutiveLossWindowMinutes.Fin?
    }
  }

  datatype Position = Position(
    ticker: string, family: string, costBasis: Float, currentValue: Float, isResolved: bool)

  datatype TradeOutcome = TradeOutcome(timestamp: Timestamp, pnl: Float)

  datatype ClusterCapContext = ClusterCapContext(
    clusterId: string, clusterOpenUsd: Float, proposedCost: Float, maxClusterUsd: Float)

  /** The arguments of one evaluation besides the policy. */
  datatype Trade = Trade(
    dailyRealizedPnl: Float,
    equity: Float,
    targetFamily: string,
    proposedCost: Float,
    openPositions: seq<Position>,
    expectedValue: Float,
    tradeOutcomes: Option<seq<TradeOutcome>>,
    currentTime: Option<Timestamp>,
    clusterCap: Option<ClusterCapContext>)

  datatype KillSwitchState = KillSwitchState(
    tripped: bool, reason: Reason, trippedAt: Option<Timestamp>)

  datatype TimedCircuitBreakerState = TimedCircuitBreakerState(
    consecutiveLossThreshold: int,
    cooldownHours: real,
    lossStreak: int,
    tripped: bool,
    trippedAt: Option<Timestamp>)
  {
    predicate Valid() {
      consecutiveLossThreshold >= 1 && cooldownHours > 0.0 && lossStreak >= 0
    }
  }

  datatype ConsecutiveLossGateState = ConsecutiveLossGateState(
    maxLosses: int, windowTrades: int, history: seq<bool>)
  {
    predicate Valid() {
      1 <= maxLosses <= windowTrades && |history| <= windowTrades
    }
  }

  datatype RiskState = RiskState(
    schemaVersion: int,
    context: RiskContext,
    killSwitch: Option<KillSwitchState>,
    timedBreaker: Option<TimedCircuitBreakerState>,
    consecutiveLossGate: Option<ConsecutiveLossGateState>)
  {
    predicate Valid() {
      && schemaVersion == RISK_STATE_SCHEMA_VERSION
      && context.Valid()
      && (timedBreaker.Some? ==> timedBreaker.value.Valid())
      && (consecutiveLossGate.Some? ==> consecutiveLossGate.value.Valid())
    }
  }

  /** The value of a decision object at one moment. */
  datatype Decision = Decision(approved: bool, reason: Reason, size: real)

  /** A gate's effect on a decision: a pass leaves it alone, a rejection keeps only the size. */
  function Apply(d: Decision, v: Verdict): Decision {
    if v.Pass? then d else Decision(false, v.reason, d.size)
  }

  /** The decision object that the gates write into. */
  class RiskDecision {
    var approved: bool
    var reasonCode: Reason
    var suggestedSize: real

    ghost function View(): Decision
      reads this
    {
      Decision(approved, reasonCode, suggestedSize)
    }

    constructor (approved: bool, reasonCode: Reason, suggestedSize: real)
      ensures View() == Decision(approved, reasonCode, suggestedSize)
    {
      this.approved := approved;
      this.reasonCode := reasonCode;
      this.suggestedSize := suggestedSize;
    }

    /** Construction with its check: a size that is not finite raises. */
    static method Make(approved: bool, reasonCode: Reason, suggestedSize: Float)
      returns (r: Result<RiskDecision, Error>)
      ensures r.Success? <==> suggestedSize.Fin?
      ensures r.Success? ==>
        fresh(r.value) && r.value.View() == Decision(approved, reasonCode, suggestedSize.r)
      ensures r.Failure? ==> r.error == ValueError("suggested_size")
    {
      if suggestedSize.Fin? {
        var d := new RiskDecision(approved, reasonCode, suggestedSize.r);
        r := Success(d);
      } else {
        r := Failure(ValueError("suggested_size"));
      }
    }

    /** The two writes every rejecting gate performs. */
    method Reject(reason: Reason)
      modifies this
      ensures View() == Apply(old(View()), Verdict.Reject(reason))
    {
      approved := false;
      reasonCode := reason;
    }
  }
}
