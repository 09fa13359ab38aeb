/** The kill switch, the timed circuit breaker and the rolling loss gate as objects. */
module StatefulGates {
  import opened Prelude
  import opened Floats
  import opened Clock
  import opened State
  import opened GateMachines

  class KillSwitch {
    var tripped: bool
    var trippedAt: Option<Timestamp>
    var reason: Reason

    constructor (reason: Reason)
      ensures ToState() == KillSwitchState(false, reason, None)
    {
      this.tripped := false;
      this.trippedAt := None;
      this.reason := reason;
    }

    function ToState(): KillSwitchState
      reads this
    {
      KillSwitchState(tripped, reason, trippedAt)
    }

    method Trip(at: Option<Timestamp>)
      modifies this
      ensures ToState() == KillTrip(old(ToState()), at)
    {
      if !tripped {
        tripped := true;
        trippedAt := at;
      }
    }

    method Reset()
      modifies this
      ensures ToState() == KillReset(old(ToState()))
    {
      tripped := false;
      trippedAt := None;
    }

    method Check(decision: RiskDecision) returns (ok: bool)
      modifies decision
      ensures ok == KillVerdict(ToState()).Pass?
      ensures decision.View() == Apply(old(decision.View()), KillVerdict(ToState()))
    {
      if tripped {
        decision.Reject(reason);
        return false;
      }
      return true;
    }

    static method FromState(state: KillSwitchState) returns (k: KillSwitch)
      ensures fresh(k) && k.ToState() == state
    {
      k := new KillSwitch(state.reason);
      k.tripped := state.tripped;
      k.trippedAt := state.trippedAt;
    }
  }

  class TimedCircuitBreaker {
    var consecutiveLossThreshold: int
    var cooldownHours: real
    var lossStreak: int
    var tripped: bool
    var trippedAt: Option<Timestamp>

    constructor (threshold: int, cooldownHours: real)
      ensures ToState() == FreshBreaker(threshold, cooldownHours)
    {
      this.consecutiveLossThreshold := threshold;
      this.cooldownHours := cooldownHours;
      this.lossStreak := 0;
      this.tripped := false;
      this.trippedAt := None;
    }

    /** Construction with its checks: a bad threshold or cooldown raises. */
    static method Make(threshold: int, cooldownHours: real)
      returns (r: Result<TimedCircuitBreaker, Error>)
      ensures r.Success? <==> threshold >= 1 && cooldownHours > 0.0
      ensures r.Success? ==>
        fresh(r.value) && r.value.Valid() && r.value.ToState() == FreshBreaker(threshold, cooldownHours)
        && r.value.lossStreak == 0 && !r.value.tripped && r.value.trippedAt.None?
      ensures r.Failure? ==> r.error == ValueError(
        if threshold < 1 then "consecutive_loss_threshold" else "cooldown_hours")
    {
      if threshold < 1 {
        return Failure(ValueError("consecutive_loss_threshold"));
      }
      if cooldownHours <= 0.0 {
        return Failure(ValueError("cooldown_hours"));
      }
      var b := new TimedCircuitBreaker(threshold, cooldownHours);
      r := Success(b);
    }

    function ToState(): TimedCircuitBreakerState
      reads this
    {
      TimedCircuitBreakerState(
        consecutiveLossThreshold, cooldownHours, lossStreak, tripped, trippedAt)
    }

    ghost predicate Valid()
      reads this
    {
      ToState().Valid()
    }

    method Record(pnl: Number, at: Option<Timestamp>)
      requires Valid()
      modifies this
      ensures Valid() && ToState() == BreakerRecord(old(ToState()), pnl, at)
      ensures tripped && !old(tripped) ==>
        && pnl.PyFloat? && pnl.f.Fin? && pnl.f.r < 0.0
        && lossStreak == old(lossStreak) + 1 >= consecutiveLossThreshold && trippedAt == at
    {
      if !IsFinite(pnl) {
        return;
      }
      if tripped {
        return;
      }
      if pnl.f.r < 0.0 {
        lossStreak := lossStreak + 1;
        if lossStreak >= consecutiveLossThreshold {
          tripped := true;
          trippedAt := at;
        }
      } else {
        lossStreak := 0;
      }
    }

    method Check(decision: RiskDecision, now: Option<Timestamp>) returns (ok: bool)
      requires Valid()
      modifies this, decision
      ensures Valid() && ToState() == BreakerCheck(old(ToState()), now)
      ensures ok == BreakerVerdict(old(ToState()), now).Pass?
      ensures decision.View() == Apply(old(decision.View()), BreakerVerdict(old(ToState()), now))
    {
      if tripped && trippedAt.Some? && now.Some? {
        if now.value.mode != trippedAt.value.mode {
          decision.Reject(TimezoneMixed);
          return false;
        }
        var elapsed := Since(now.value, trippedAt.value);
        if elapsed >= HoursToUs(cooldownHours) {
          tripped := false;
          trippedAt := None;
          lossStreak := 0;
          return true;
        }
      }
      if tripped {
        decision.Reject(BreakerTripped(lossStreak, cooldownHours));
        return false;
      }
      return true;
    }

    method Reset()
      requires Valid()
      modifies this
      ensures Valid() && ToState() == BreakerReset(old(ToState()))
    {
      lossStreak := 0;
      tripped := false;
      trippedAt := None;
    }

    static method FromState(state: TimedCircuitBreakerState) returns (b: TimedCircuitBreaker)
      requires state.Valid()
      ensures fresh(b) && b.Valid() && b.ToState() == state
    {
      b := new TimedCircuitBreaker(state.consecutiveLossThreshold, state.cooldownHours);
      b.lossStreak := state.lossStreak;
      b.tripped := state.tripped;
      b.trippedAt := state.trippedAt;
    }
  }

  class ConsecutiveLossGate {
    var maxLosses: int
    var windowTrades: int
    var history: seq<bool>

    constructor (maxLosses: int, windowTrades: int)
      ensures ToState() == FreshLossGate(maxLosses, windowTrades)
    {
      this.maxLosses := maxLosses;
      this.windowTrades := windowTrades;
      this.history := [];
    }

    /** Construction with its checks, in their order. */
    static method Make(maxLosses: int, windowTrades: int)
      returns (r: Result<ConsecutiveLossGate, Error>)
      ensures r.Success? <==> 1 <= maxLosses <= windowTrades
      ensures r.Success? ==>
        fresh(r.value) && r.value.Valid() && r.value.ToState() == FreshLossGate(maxLosses, windowTrades)
        && r.value.history == []
      ensures r.Failure? ==> r.error == ValueError(
        if maxLosses >= 1 && windowTrades < 1 then "window_trades" else "max_losses")
    {
      if maxLosses < 1 {
        return Failure(ValueError("max_losses"));
      }
      if windowTrades < 1 {
        return Failure(ValueError("window_trades"));
      }
      if maxLosses > windowTrades {
        return Failure(ValueError("max_losses"));
      }
      var g := new ConsecutiveLossGate(maxLosses, windowTrades);
      r := Success(g);
    }

    function ToState(): ConsecutiveLossGateState
      reads this
    {
      ConsecutiveLossGateState(maxLosses, windowTrades, history)
    }

    ghost predicate Valid()
      reads this
    {
      ToState().Valid()
    }

    method Record(pnl: Number)
      requires Valid()
      modifies this
      ensures Valid() && ToState() == LossGateRecord(old(ToState()), pnl)
    {
      if !IsFinite(pnl) {
        return;
      }
      history := history + [pnl.f.r < 0.0];
      if |history| > windowTrades {
        history := history[|history| - windowTrades..];
      }
    }

    method Check(decision: RiskDecision) returns (ok: bool)
      requires Valid()
      modifies decision
      ensures ok == LossGateVerdict(ToState()).Pass?
      ensures decision.View() == Apply(old(decision.View()), LossGateVerdict(ToState()))
    {
      if |history| < windowTrades {
        return true;
      }
      var losses := Losses(history);
      if losses > maxLosses {
        decision.Reject(LossGateTripped(losses, windowTrades, maxLosses));
        return false;
      }
      return true;
    }

    method Reset()
      requires Valid()
      modifies this
      ensures Valid() && ToState() == LossGateReset(old(ToState()))
    {
      history := [];
    }

    static method FromState(state: ConsecutiveLossGateState) returns (g: ConsecutiveLossGate)
      requires state.Valid()
      ensures fresh(g) && g.Valid() && g.ToState() == state
    {
      g := new ConsecutiveLossGate(state.maxLosses, state.windowTrades);
      g.history := state.history;
    }
  }
}
