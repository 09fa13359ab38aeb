/** The steps of the stateful gates, on their snapshots. */
module GateMachines {
  import opened Prelude
  import opened Floats
  import opened Clock
  import opened State

  // ----- Kill switch -----

  /** Only the first trip is recorded. */
  function KillTrip(s: KillSwitchState, at: Option<Timestamp>): KillSwitchState {
    if s.tripped then s else s.(tripped := true, trippedAt := at)
  }

  function KillReset(s: KillSwitchState): KillSwitchState {
    s.(tripped := false, trippedAt := None)
  }

  function KillVerdict(s: KillSwitchState): Verdict {
    if s.tripped then Reject(s.reason) else Pass
  }

  // ----- Timed circuit breaker -----

  function FreshBreaker(threshold: int, cooldownHours: real): TimedCircuitBreakerState {
    TimedCircuitBreakerState(threshold, cooldownHours, 0, false, None)
  }

  /** A finite PnL moves an untripped breaker: a loss counts, anything else clears the streak. */
  function BreakerRecord(b: TimedCircuitBreakerState, pnl: Number, at: Option<Timestamp>)
    : TimedCircuitBreakerState
  {
    if b.tripped || !IsFinite(pnl) then b
    else if !IsLoss(pnl) then b.(lossStreak := 0)
    else if b.lossStreak + 1 < b.consecutiveLossThreshold then b.(lossStreak := b.lossStreak + 1)
    else b.(lossStreak := b.lossStreak + 1, tripped := true, trippedAt := at)
  }

  predicate ModesClash(b: TimedCircuitBreakerState, now: Option<Timestamp>) {
    b.tripped && b.trippedAt.Some? && now.Some? && now.value.mode != b.trippedAt.value.mode
  }

  /** The cooldown since the trip is over, on a clock that can tell. */
  predicate Expired(b: TimedCircuitBreakerState, now: Option<Timestamp>) {
    && b.tripped && b.trippedAt.Some? && now.Some?
    && now.value.mode == b.trippedAt.value.mode
    && Since(now.value, b.trippedAt.value) >= HoursToUs(b.cooldownHours)
  }

  function BreakerReset(b: TimedCircuitBreakerState): TimedCircuitBreakerState {
    b.(lossStreak := 0, tripped := false, trippedAt := None)
  }

  function BreakerCheck(b: TimedCircuitBreakerState, now: Option<Timestamp>)
    : TimedCircuitBreakerState
  {
    if Expired(b, now) then BreakerReset(b) else b
  }

  function BreakerVerdict(b: TimedCircuitBreakerState, now: Option<Timestamp>): Verdict {
    if !b.tripped || Expired(b, now) then Pass
    else if ModesClash(b, now) then Reject(TimezoneMixed)
    else Reject(BreakerTripped(b.lossStreak, b.cooldownHours))
  }

  // ----- Rolling loss gate -----

  function FreshLossGate(maxLosses: int, windowTrades: int): ConsecutiveLossGateState {
    ConsecutiveLossGateState(maxLosses, windowTrades, [])
  }

  /** The last `n` elements, or all of them. */
  function Last<T>(s: seq<T>, n: nat): seq<T> {
    if |s| <= n then s else s[|s| - n..]
  }

  /** `sum(history)`: how many entries are losses. */
  function Losses(flags: seq<bool>): (n: nat)
    ensures n <= |flags|
  {
    if flags == [] then 0
    else Losses(flags[..|flags| - 1]) + if flags[|flags| - 1] then 1 else 0
  }

  function LossGateRecord(g: ConsecutiveLossGateState, pnl: Number): ConsecutiveLossGateState
    requires g.Valid()
  {
    if IsFinite(pnl) then
      g.(history := Last(g.history + [IsLoss(pnl)], g.windowTrades))
    else g
  }

  function LossGateReset(g: ConsecutiveLossGateState): ConsecutiveLossGateState {
    g.(history := [])
  }

  function LossGateVerdict(g: ConsecutiveLossGateState): Verdict {
    if |g.history| >= g.windowTrades && Losses(g.history) > g.maxLosses then
      Reject(LossGateTripped(Losses(g.history), g.windowTrades, g.maxLosses))
    else Pass
  }
}
