/** What the gates decide, described a second time on the figures themselves. */
module Figures {
  import opened Prelude
  import opened Floats
  import opened Clock
  import opened State
  import opened StatelessGates
  import opened LossScan
  import opened LossScanLaws
  import opened GateMachines
  import opened Engine
  import GateRuns

  // ----- Comparing floats -----

  /** A strict order of everything but NaN, with the infinities at its ends; NaN stands outside. */
  lemma FloatOrder(a: Float, b: Float, c: Float)
    ensures a.NaN? || b.NaN? ==> !Less(a, b) && !AtMost(a, b)
    ensures a.Fin? && b.Fin? ==> (Less(a, b) <==> a.r < b.r) && (AtMost(a, b) <==> a.r <= b.r)
    ensures a.Fin? ==> Less(NegInf, a) && Less(a, PosInf) && Less(NegInf, PosInf)
    ensures !(Less(a, b) && Less(b, a))
    ensures Less(a, b) && Less(b, c) ==> Less(a, c)
    ensures !a.NaN? && !b.NaN? ==> (AtMost(a, b) <==> !Less(b, a))
  {
  }

  /** Sums of finite floats are real sums; an infinity absorbs all but NaN and its opposite. */
  lemma FloatSums(a: Float, b: Float)
    ensures a.Fin? && b.Fin? ==> Plus(a, b) == Fin(a.r + b.r)
    ensures Plus(a, b) == Plus(b, a)
    ensures Plus(a, b).NaN? <==>
            a.NaN? || b.NaN? || (!a.Fin? && !b.Fin? && a != b)
    ensures a.PosInf? && (b.Fin? || b.PosInf?) ==> Plus(a, b) == PosInf
    ensures a.NegInf? && (b.Fin? || b.NegInf?) ==> Plus(a, b) == NegInf
  {
  }

  // ----- Consecutive losses -----

  /** A loss later than every outcome that is none; at equal times the later in the list. */
  ghost predicate TrailsAll(xs: seq<TradeOutcome>, i: nat) {
    && i < |xs| && xs[i].pnl.Fin? && xs[i].pnl.r < 0.0
    && forall j: nat | j < |xs| && xs[j].pnl.Fin? && xs[j].pnl.r >= 0.0 ::
         || xs[j].timestamp.us < xs[i].timestamp.us
         || (xs[j].timestamp.us == xs[i].timestamp.us && j < i)
  }

  /** `now` as the gate takes it: the given time, or else the latest of the list. */
  ghost predicate WindowEnd(xs: seq<TradeOutcome>, given: Option<Timestamp>, now: Timestamp) {
    if given.Some? then given.value == now
    else
      && (exists k: nat :: k < |xs| && xs[k].timestamp == now)
      && forall k: nat | k < |xs| :: xs[k].timestamp.us <= now.us
  }

  /** Among the losses that trail: at most `minutes` old, a minute being sixty million
      microseconds, and not ahead of the clock. */
  ghost function CountedLosses(xs: seq<TradeOutcome>, now: Timestamp, minutes: real): set<nat> {
    set i: nat | i < |xs| && TrailsAll(xs, i)
                 && 0 <= now.us - xs[i].timestamp.us
                 && (now.us - xs[i].timestamp.us) as real <= minutes * 60000000.0
  }

  /** The scanned part: a loss ahead of the clock that trails all wins is an error; otherwise the
      counted losses decide. */
  lemma LossWindow(
    ctx: RiskContext, xs: seq<TradeOutcome>, given: Option<Timestamp>, now: Timestamp,
    minutes: real)
    requires ctx.consecutiveLossLimit > 0
    requires ctx.consecutiveLossWindowMinutes == Fin(minutes) && minutes >= 0.0
    requires xs != [] && WindowEnd(xs, given, now)
    requires forall k: nat | k < |xs| :: xs[k].pnl.Fin? && xs[k].timestamp.mode == now.mode
    ensures ConsecutiveLossVerdict(ctx, Some(xs), given)
         == if exists i: nat :: TrailsAll(xs, i) && xs[i].timestamp.us > now.us then
              Reject(InvalidTimeOrder)
            else if |CountedLosses(xs, now, minutes)| >= ctx.consecutiveLossLimit then
              Reject(ConsecutiveLossLimit(ctx.consecutiveLossLimit, Fin(minutes)))
            else Pass
  {
    assert Comparable(xs, now) && AllFinite(xs);
    assert xs[0] in xs;
    WindowEndIsEffective(xs, given, now);
    FutureOnFigures(xs, now);
    CountedOnFigures(xs, now, minutes);
    ScannedVerdict(ctx, xs, given);
  }

  lemma FutureOnFigures(xs: seq<TradeOutcome>, now: Timestamp)
    requires Comparable(xs, now)
    requires forall k: nat | k < |xs| :: xs[k].pnl.Fin?
    ensures FutureLoss(xs, now)
       <==> exists i: nat :: TrailsAll(xs, i) && xs[i].timestamp.us > now.us
  {
    forall i: nat | i < |xs| ensures InTrailingRun(xs, i) <==> TrailsAll(xs, i) {
      TrailingRunOnFigures(xs, i);
    }
    if i: nat :| TrailsAll(xs, i) && xs[i].timestamp.us > now.us {
      assert InTrailingRun(xs, i) && Since(now, xs[i].timestamp) < 0;
    }
  }

  lemma CountedOnFigures(xs: seq<TradeOutcome>, now: Timestamp, minutes: real)
    requires Comparable(xs, now)
    requires forall k: nat | k < |xs| :: xs[k].pnl.Fin?
    ensures RecentLosses(xs, now, Fin(minutes)) == CountedLosses(xs, now, minutes)
  {
    forall i: nat | i < |xs|
      ensures i in RecentLosses(xs, now, Fin(minutes)) <==> i in CountedLosses(xs, now, minutes)
    {
      TrailingRunOnFigures(xs, i);
      InWindowOnFigures(xs[i], now, minutes);
    }
  }

  lemma InWindowOnFigures(o: TradeOutcome, now: Timestamp, minutes: real)
    requires o.timestamp.mode == now.mode
    ensures InWindow(o, now, Fin(minutes)) <==>
            0 <= now.us - o.timestamp.us
            && (now.us - o.timestamp.us) as real <= minutes * 60000000.0
  {
  }

  lemma TrailingRunOnFigures(xs: seq<TradeOutcome>, i: nat)
    requires i < |xs| && Uniform(xs)
    requires forall k: nat | k < |xs| :: xs[k].pnl.Fin?
    ensures InTrailingRun(xs, i) <==> TrailsAll(xs, i)
  {
    if InTrailingRun(xs, i) {
      forall j: nat | j < |xs| && xs[j].pnl.r >= 0.0
        ensures xs[j].timestamp.us < xs[i].timestamp.us
             || (xs[j].timestamp.us == xs[i].timestamp.us && j < i)
      {
        assert After(xs, i, j);
      }
    }
  }

  lemma WindowEndIsEffective(
    xs: seq<TradeOutcome>, given: Option<Timestamp>, now: Timestamp)
    requires xs != [] && WindowEnd(xs, given, now) && Comparable(xs, now)
    ensures Effective(xs, given) == now
  {
    if given.None? {
      var k: nat :| k < |xs| && xs[k].timestamp == now;
      assert xs[k] in xs;
      var o := NewestOutcome(xs);
    }
  }

  /** The guards before the scan, in their order, on any list and clock. */
  lemma LossGuards(ctx: RiskContext, outcomes: Option<seq<TradeOutcome>>, given: Option<Timestamp>)
    requires ctx.consecutiveLossWindowMinutes.Fin?
    ensures var v := ConsecutiveLossVerdict(ctx, outcomes, given);
            var xs := if outcomes.Some? then outcomes.value else [];
            if ctx.consecutiveLossLimit < 0 || ctx.consecutiveLossWindowMinutes.r < 0.0 then
              v == Reject(InvalidConsecutiveLossContext)
            else if ctx.consecutiveLossLimit == 0 || |xs| == 0 then
              v == Pass
            else if exists i: nat, j: nat ::
                      i < |xs| && j < |xs| && xs[i].timestamp.mode != xs[j].timestamp.mode then
              v == Reject(TimezoneMixed)
            else if exists i: nat :: i < |xs| && !xs[i].pnl.Fin? then
              v == Reject(InvalidFloatConsecutiveLosses)
            else if given.Some? && given.value.mode != xs[0].timestamp.mode then
              v == Reject(TimezoneMixed)
            else
              v == Pass || v == Reject(InvalidTimeOrder)
              || v == Reject(ConsecutiveLossLimit(
                               ctx.consecutiveLossLimit, ctx.consecutiveLossWindowMinutes))
  {
    if outcomes.Some? {
      var xs := outcomes.value;
      if i: nat, j: nat :|
           i < |xs| && j < |xs| && xs[i].timestamp.mode != xs[j].timestamp.mode {
        assert xs[i] in xs && xs[j] in xs;
      } else if i: nat :| i < |xs| && !xs[i].pnl.Fin? {
        assert xs[i] in xs;
      }
    }
  }

  // ----- The stateless chain -----

  /** The costs of the family's unresolved positions, added up from the front. */
  ghost function AtRisk(positions: seq<Position>, family: string): real {
    if positions == [] then 0.0
    else
      var p := positions[0];
      (if !p.isResolved && p.family == family && p.costBasis.Fin? then p.costBasis.r else 0.0)
      + AtRisk(positions[1..], family)
  }

  lemma {:induction false} AtRiskAppend(
    positions: seq<Position>, p: Position, family: string)
    ensures AtRisk(positions + [p], family)
         == AtRisk(positions, family)
            + if !p.isResolved && p.family == family && p.costBasis.Fin?
              then p.costBasis.r else 0.0
  {
    if positions == [] {
      assert ([] + [p])[1..] == [];
    } else {
      AtRiskAppend(positions[1..], p, family);
      assert (positions + [p])[1..] == positions[1..] + [p];
    }
  }

  lemma {:induction false} AtRiskIsExposure(positions: seq<Position>, family: string)
    ensures AtRisk(positions, family) == Exposure(positions, family)
  {
    if positions != [] {
      var n := |positions| - 1;
      AtRiskIsExposure(positions[..n], family);
      AtRiskAppend(positions[..n], positions[n], family);
      assert positions == positions[..n] + [positions[n]];
    }
  }

  /** Some position that counts has a cost that is not finite. */
  ghost predicate UnknownCost(positions: seq<Position>, family: string) {
    exists i: nat :: i < |positions| && !positions[i].isResolved
                     && positions[i].family == family && !positions[i].costBasis.Fin?
  }

  lemma UnknownCostIff(positions: seq<Position>, family: string)
    ensures UnknownCost(positions, family) <==> !FiniteExposure(positions, family)
  {
    if i: nat :| i < |positions| && !positions[i].isResolved
                 && positions[i].family == family && !positions[i].costBasis.Fin? {
      assert positions[i] in positions;
    }
  }

  /** The cluster cap on finite figures: exactly at the cap is still allowed. */
  lemma ClusterOnFigures(id: string, open: real, cost: real, max: real)
    ensures ClusterDecision(ClusterCapContext(id, Fin(open), Fin(cost), Fin(max)))
         == Success(
              if id == "unknown" || cost <= 0.0 then Decision(true, Okay, cost)
              else if max <= 0.0 then Decision(false, ClusterCapNotPositive(Fin(max)), 0.0)
              else if open + cost > max then
                Decision(false, ClusterCapExceeded(id, Fin(open + cost), Fin(max)), 0.0)
              else Decision(true, Okay, cost))
  {
  }

  /** On any figures: a cap or an open amount of NaN is no obstacle, only a cost must be finite. */
  lemma ClusterApprovesIff(c: ClusterCapContext)
    ensures (ClusterDecision(c).Success? && ClusterDecision(c).value.approved) <==>
      && c.proposedCost.Fin?
      && (|| c.clusterId == "unknown"
          || c.proposedCost.r <= 0.0
          || c.maxClusterUsd.NaN? || c.maxClusterUsd.PosInf?
          || (c.maxClusterUsd.Fin? && c.maxClusterUsd.r > 0.0
              && (|| c.clusterOpenUsd.NaN? || c.clusterOpenUsd.NegInf?
                  || (c.clusterOpenUsd.Fin?
                      && c.clusterOpenUsd.r + c.proposedCost.r <= c.maxClusterUsd.r))))
    ensures ClusterDecision(c).Failure? ==>
      !c.proposedCost.Fin? && ClusterDecision(c).error == ValueError("suggested_size")
  {
  }

  /** The whole chain on any figures under a valid policy: the first gate to object gives the
      reason, a figure that is not finite objects at its own gate, and the limits are inclusive. */
  lemma ChainOnFigures(ctx: RiskContext, t: Trade, elapsedUs: int)
    requires ctx.Valid()
    requires t.clusterCap.Some? ==>
      && t.clusterCap.value.clusterOpenUsd.Fin?
      && t.clusterCap.value.proposedCost.Fin?
      && t.clusterCap.value.maxClusterUsd.Fin?
    ensures !t.proposedCost.Fin? ==>
      StatelessDecision(ctx, t, elapsedUs) == Failure(ValueError("suggested_size"))
    ensures t.proposedCost.Fin? ==>
      var cost := t.proposedCost.r;
      var losses := ConsecutiveLossVerdict(ctx, t.tradeOutcomes, t.currentTime);
      StatelessDecision(ctx, t, elapsedUs) == Success(
        if !t.expectedValue.Fin? then
          Decision(false, InvalidFloatExpectedValue, cost)
        else if t.expectedValue.r < ctx.minExpectedValue.r then
          Decision(false, ExpectedValueTooLow(t.expectedValue.r, ctx.minExpectedValue.r), cost)
        else if !t.equity.Fin? || !t.dailyRealizedPnl.Fin? then
          Decision(false, InvalidFloatDrawdown, cost)
        else if t.equity.r <= 0.0 then
          Decision(false, ZeroOrNegativeEquity, cost)
        else if t.dailyRealizedPnl.r / t.equity.r < -ctx.maxDailyDrawdownPct.r then
          Decision(false, DailyDrawdown(t.dailyRealizedPnl.r / t.equity.r,
                                        -ctx.maxDailyDrawdownPct.r), cost)
        else if losses.Reject? then
          Decision(false, losses.reason, cost)
        else if UnknownCost(t.openPositions, t.targetFamily) then
          Decision(false, InvalidFloatConcentration, cost)
        else if AtRisk(t.openPositions, t.targetFamily) + cost > ctx.maxCorrelatedExposure.r then
          Decision(false, ConcentrationExceeded(t.targetFamily, ctx.maxCorrelatedExposure.r), cost)
        else if t.clusterCap.Some? && t.clusterCap.value.clusterId != "unknown"
                && t.clusterCap.value.proposedCost.r > 0.0
                && t.clusterCap.value.maxClusterUsd.r <= 0.0 then
          Decision(false, ClusterCapNotPositive(t.clusterCap.value.maxClusterUsd), cost)
        else if t.clusterCap.Some? && t.clusterCap.value.clusterId != "unknown"
                && t.clusterCap.value.proposedCost.r > 0.0
                && t.clusterCap.value.clusterOpenUsd.r + t.clusterCap.value.proposedCost.r
                   > t.clusterCap.value.maxClusterUsd.r then
          Decision(false, ClusterCapExceeded(
            t.clusterCap.value.clusterId,
            Fin(t.clusterCap.value.clusterOpenUsd.r + t.clusterCap.value.proposedCost.r),
            t.clusterCap.value.maxClusterUsd), cost)
        else if elapsedUs > ctx.latencyBudgetUs then
          Decision(false, LatencyBudget(elapsedUs, ctx.latencyBudgetUs), cost)
        else
          Decision(true, Okay, cost))
  {
    var v := GateVerdicts(ctx, t);
    FirstOfFour(v[0], v[1], v[2], v[3]);
    AtRiskIsExposure(t.openPositions, t.targetFamily);
    UnknownCostIff(t.openPositions, t.targetFamily);
    if t.equity.Fin? && t.dailyRealizedPnl.Fin? && t.equity.r > 0.0 {
      RatioBelow(t.dailyRealizedPnl.r, t.equity.r, ctx.maxDailyDrawdownPct.r);
    }
    if t.clusterCap.Some? {
      var c := t.clusterCap.value;
      ClusterOnFigures(c.clusterId, c.clusterOpenUsd.r, c.proposedCost.r, c.maxClusterUsd.r);
    }
  }

  // ----- The desk gates -----

  /** The cooldown is over: both times known, on clocks of one mode, and the hours gone by. */
  predicate CooledDown(b: TimedCircuitBreakerState, now: Option<Timestamp>) {
    && b.trippedAt.Some? && now.Some? && b.trippedAt.value.mode == now.value.mode
    && GateRuns.HoursPassed(now.value.us - b.trippedAt.value.us, b.cooldownHours)
  }

  /** How many entries of the history are losses. */
  ghost function LossCount(history: seq<bool>): nat {
    |set i: nat | i < |history| && history[i]|
  }

  lemma LossCountIsSum(history: seq<bool>)
    ensures LossCount(history) == Losses(history)
  {
    GateRuns.LossesArePositions(history, 0);
    assert history[0..] == history;
    assert (set i: nat | 0 <= i < |history| && history[i])
        == (set i: nat | i < |history| && history[i]);
  }

  /** An evaluation in full: what each desk gate says and does, before the chain is asked. */
  lemma DeskOnFigures(s: AuthorityState, ctx: RiskContext, t: Trade, elapsedUs: int)
    requires t.proposedCost.Fin?
    ensures var e := Evaluate(s, ctx, t, elapsedUs);
            var halt := r => Success(Decision(false, r, t.proposedCost.r));
            var k, b, g := s.gates.killSwitch, s.gates.timedBreaker, s.gates.lossGate;
            if k.Some? && k.value.tripped then
              e.result == halt(k.value.reason) && e.state.gates == s.gates
            else if b.Some? && b.value.tripped && !CooledDown(b.value, t.currentTime) then
              && e.state.gates == s.gates
              && e.result == halt(
                   if b.value.trippedAt.Some? && t.currentTime.Some?
                      && b.value.trippedAt.value.mode != t.currentTime.value.mode then TimezoneMixed
                   else BreakerTripped(b.value.lossStreak, b.value.cooldownHours))
            else
              && e.state.gates == s.gates.(
                   timedBreaker := if b.Some? && b.value.tripped then
                     Some(TimedCircuitBreakerState(
                       b.value.consecutiveLossThreshold, b.value.cooldownHours, 0, false, None))
                   else b)
              && e.result ==
                 if g.Some? && |g.value.history| >= g.value.windowTrades
                    && LossCount(g.value.history) > g.value.maxLosses then
                   halt(LossGateTripped(
                     LossCount(g.value.history), g.value.windowTrades, g.value.maxLosses))
                 else StatelessDecision(ctx, t, elapsedUs)
  {
    FirstOfThree(KillPart(s.gates), BreakerPart(s.gates, t.currentTime), LossGatePart(s.gates));
    if s.gates.lossGate.Some? {
      LossCountIsSum(s.gates.lossGate.value.history);
    }
    if s.gates.timedBreaker.Some? {
      GateRuns.CheckOnFigures(s.gates.timedBreaker.value, t.currentTime);
    }
  }
}
