/** What the breaker and the loss gate do over whole runs. */
module GateRuns {
  import opened Prelude
  import opened Floats
  import opened Clock
  import opened State
  import opened GateMachines

  // ----- Runs of the circuit breaker -----

  datatype BreakerOp =
    | Record(pnl: Number, at: Option<Timestamp>)
    | Check(now: Option<Timestamp>)
    | Reset

  function Step(b: TimedCircuitBreakerState, op: BreakerOp): TimedCircuitBreakerState {
    match op
    case Record(pnl, at) => BreakerRecord(b, pnl, at)
    case Check(now) => BreakerCheck(b, now)
    case Reset => BreakerReset(b)
  }

  function Run(b: TimedCircuitBreakerState, ops: seq<BreakerOp>): TimedCircuitBreakerState {
    if ops == [] then b else Step(Run(b, ops[..|ops| - 1]), ops[|ops| - 1])
  }

  lemma {:induction false} RunConcat(
    b: TimedCircuitBreakerState, ops: seq<BreakerOp>, more: seq<BreakerOp>)
    ensures Run(b, ops + more) == Run(Run(b, ops), more)
  {
    if more == [] {
      assert ops + more == ops;
    } else {
      RunConcat(b, ops, more[..|more| - 1]);
      assert (ops + more)[..|ops + more| - 1] == ops + more[..|more| - 1];
    }
  }

  /** The operation ends a trip: a reset, or a check after the cooldown. */
  predicate Unlocks(b: TimedCircuitBreakerState, op: BreakerOp) {
    op.Reset? || (op.Check? && Expired(b, op.now))
  }

  /** The loss flags of all finite PnLs since the run began, was reset, or was last cleared. */
  ghost function Log(b: TimedCircuitBreakerState, ops: seq<BreakerOp>): seq<bool> {
    if ops == [] then []
    else
      var before, op := ops[..|ops| - 1], ops[|ops| - 1];
      if Unlocks(Run(b, before), op) then []
      else if op.Record? && IsFinite(op.pnl) then Log(b, before) + [IsLoss(op.pnl)]
      else Log(b, before)
  }

  /** The length of the run of losses at the end. */
  ghost function TrailingLosses(flags: seq<bool>): (n: nat)
    ensures n <= |flags|
    ensures forall i | |flags| - n <= i < |flags| :: flags[i]
    ensures n < |flags| ==> !flags[|flags| - n - 1]
  {
    if flags == [] || !flags[|flags| - 1] then 0
    else
      var rest := flags[..|flags| - 1];
      var n := TrailingLosses(rest);
      assert forall i | |rest| - n <= i < |rest| :: flags[i] == rest[i];
      n + 1
  }

  /** How often the breaker goes from clear to tripped. */
  ghost function Trips(b: TimedCircuitBreakerState, ops: seq<BreakerOp>): nat {
    if ops == [] then 0
    else
      var before := ops[..|ops| - 1];
      Trips(b, before) + if !Run(b, before).tripped && Run(b, ops).tripped then 1 else 0
  }

  ghost function LossesRecorded(ops: seq<BreakerOp>): nat {
    if ops == [] then 0
    else
      var op := ops[|ops| - 1];
      LossesRecorded(ops[..|ops| - 1]) + if op.Record? && IsLoss(op.pnl) then 1 else 0
  }

  /** The shape of every breaker that started fresh. */
  predicate Sound(b: TimedCircuitBreakerState) {
    && b.Valid()
    && b.lossStreak <= b.consecutiveLossThreshold
    && (b.tripped <==> b.lossStreak == b.consecutiveLossThreshold)
    && (!b.tripped ==> b.trippedAt.None?)
  }

  lemma {:induction false} RunStaysSound(
    threshold: int, cooldown: real, ops: seq<BreakerOp>)
    requires threshold >= 1 && cooldown > 0.0
    ensures var b := Run(FreshBreaker(threshold, cooldown), ops);
            && Sound(b)
            && b.consecutiveLossThreshold == threshold && b.cooldownHours == cooldown
  {
    if ops != [] {
      RunStaysSound(threshold, cooldown, ops[..|ops| - 1]);
    }
  }

  /** While clear, the streak is exactly the trailing run of losses in the log. */
  lemma {:induction false} StreakIsTrailingRun(
    threshold: int, cooldown: real, ops: seq<BreakerOp>)
    requires threshold >= 1 && cooldown > 0.0
    ensures var b := FreshBreaker(threshold, cooldown);
            !Run(b, ops).tripped ==> Run(b, ops).lossStreak == TrailingLosses(Log(b, ops))
  {
    if ops != [] {
      var b := FreshBreaker(threshold, cooldown);
      var before, op := ops[..|ops| - 1], ops[|ops| - 1];
      RunStaysSound(threshold, cooldown, before);
      StreakIsTrailingRun(threshold, cooldown, before);
      if op.Record? && IsFinite(op.pnl) {
        var flags := Log(b, before) + [IsLoss(op.pnl)];
        assert flags[..|flags| - 1] == Log(b, before);
      }
    }
  }

  lemma OneMore(threshold: int, trips: nat)
    ensures threshold * (trips + 1) == threshold * trips + threshold
  {
  }

  /** Every trip is paid for by `threshold` losses of its own. */
  lemma {:induction false} TripsCostLosses(threshold: int, cooldown: real, ops: seq<BreakerOp>)
    requires threshold >= 1 && cooldown > 0.0
    ensures var b := FreshBreaker(threshold, cooldown);
            threshold * Trips(b, ops) + (if Run(b, ops).tripped then 0 else Run(b, ops).lossStreak)
            <= LossesRecorded(ops)
  {
    if ops != [] {
      var b := FreshBreaker(threshold, cooldown);
      var before := ops[..|ops| - 1];
      RunStaysSound(threshold, cooldown, before);
      TripsCostLosses(threshold, cooldown, before);
      OneMore(threshold, Trips(b, before));
    }
  }

  // ----- Cooldown safety -----

  /** A tripped breaker stays exactly as it is, rejecting every check, until an unlocking step. */
  lemma {:induction false} LockedUntilUnlocked(b: TimedCircuitBreakerState, ops: seq<BreakerOp>)
    requires b.tripped
    requires forall k | 0 <= k < |ops| :: !Unlocks(b, ops[k])
    ensures Run(b, ops) == b
    ensures forall k | 0 <= k < |ops| && ops[k].Check? ::
              BreakerVerdict(Run(b, ops[..k]), ops[k].now).Reject?
  {
    if ops != [] {
      var n := |ops| - 1;
      LockedUntilUnlocked(b, ops[..n]);
      assert forall k | 0 <= k <= n :: ops[..n][..k] == ops[..k];
      assert forall k | 0 <= k < n :: ops[..n][k] == ops[k];
    }
  }

  /** A tripped breaker is clear at some point of a run exactly when some step unlocks it. */
  lemma ClearedOnlyByUnlocking(b: TimedCircuitBreakerState, ops: seq<BreakerOp>)
    requires b.tripped
    ensures (exists k :: 0 <= k <= |ops| && !Run(b, ops[..k]).tripped)
       <==> (exists k :: 0 <= k < |ops| && Unlocks(b, ops[k]))
  {
    if exists k :: 0 <= k < |ops| && Unlocks(b, ops[k]) {
      var k := FirstUnlock(b, ops);
      UnlockClears(b, ops, k);
    } else {
      forall k | 0 <= k <= |ops| ensures Run(b, ops[..k]) == b {
        LockedUntilUnlocked(b, ops[..k]);
      }
    }
  }

  lemma {:induction false} FirstUnlock(b: TimedCircuitBreakerState, ops: seq<BreakerOp>)
    returns (k: nat)
    requires exists k :: 0 <= k < |ops| && Unlocks(b, ops[k])
    ensures k < |ops| && Unlocks(b, ops[k]) && forall j | 0 <= j < k :: !Unlocks(b, ops[j])
  {
    if i: nat :| i < |ops| - 1 && Unlocks(b, ops[i]) {
      assert ops[..|ops| - 1][i] == ops[i];
      k := FirstUnlock(b, ops[..|ops| - 1]);
    } else {
      k := |ops| - 1;
    }
  }

  /** The first unlocking step leaves the breaker clear with an empty streak; a check approves. */
  lemma UnlockClears(b: TimedCircuitBreakerState, ops: seq<BreakerOp>, k: nat)
    requires b.tripped && k < |ops|
    requires Unlocks(b, ops[k]) && forall j | 0 <= j < k :: !Unlocks(b, ops[j])
    ensures Run(b, ops[..k + 1]) == BreakerReset(b)
    ensures ops[k].Check? ==> BreakerVerdict(Run(b, ops[..k]), ops[k].now).Pass?
  {
    LockedUntilUnlocked(b, ops[..k]);
    assert ops[..k + 1][..k] == ops[..k];
  }

  /** Checks that all reject, without a reset among them, unlock nothing. */
  lemma RejectionsDoNotUnlock(b: TimedCircuitBreakerState, ops: seq<BreakerOp>)
    requires b.tripped
    requires forall j | 0 <= j < |ops| :: !ops[j].Reset?
    requires forall j | 0 <= j < |ops| && ops[j].Check? ::
               BreakerVerdict(Run(b, ops[..j]), ops[j].now).Reject?
    ensures forall j | 0 <= j < |ops| :: !Unlocks(b, ops[j])
  {
    if j :| 0 <= j < |ops| && Unlocks(b, ops[j]) {
      var f := FirstUnlock(b, ops);
      UnlockClears(b, ops, f);
    }
  }

  /** Without a reset, the first approval after a trip comes at least the cooldown later. */
  lemma CooldownSafety(b: TimedCircuitBreakerState, ops: seq<BreakerOp>, now: Option<Timestamp>)
    requires b.tripped
    requires forall j | 0 <= j < |ops| :: !ops[j].Reset?
    requires forall j | 0 <= j < |ops| && ops[j].Check? ::
               BreakerVerdict(Run(b, ops[..j]), ops[j].now).Reject?
    requires BreakerVerdict(Run(b, ops), now).Pass?
    ensures b.trippedAt.Some? && now.Some? && now.value.mode == b.trippedAt.value.mode
    ensures (now.value.us - b.trippedAt.value.us) as real >= b.cooldownHours * 3600000000.0 - 0.5
  {
    RejectionsDoNotUnlock(b, ops);
    LockedUntilUnlocked(b, ops);
  }

  // ----- Which losses trip the breaker, and for how long -----

  /** A finite float below zero, and one that is not: what moves a streak. */
  predicate RecordsLoss(op: BreakerOp) {
    op.Record? && op.pnl.PyFloat? && op.pnl.f.Fin? && op.pnl.f.r < 0.0
  }

  predicate RecordsNonLoss(op: BreakerOp) {
    op.Record? && op.pnl.PyFloat? && op.pnl.f.Fin? && op.pnl.f.r >= 0.0
  }

  /** One record on a breaker in any state, restored ones included. */
  lemma RecordOnFigures(b: TimedCircuitBreakerState, pnl: Number, at: Option<Timestamp>)
    ensures var next := BreakerRecord(b, pnl, at);
            if b.tripped || !pnl.PyFloat? || !pnl.f.Fin? then next == b
            else if pnl.f.r >= 0.0 then
              next == TimedCircuitBreakerState(
                b.consecutiveLossThreshold, b.cooldownHours, 0, false, b.trippedAt)
            else if b.lossStreak + 1 >= b.consecutiveLossThreshold then
              next == TimedCircuitBreakerState(
                b.consecutiveLossThreshold, b.cooldownHours, b.lossStreak + 1, true, at)
            else
              next == TimedCircuitBreakerState(
                b.consecutiveLossThreshold, b.cooldownHours, b.lossStreak + 1, false, b.trippedAt)
  {
  }

  /** `run` lists the losses in `ops[from..end]`, where nothing ends a streak. */
  ghost predicate Streak(ops: seq<BreakerOp>, from: nat, end: nat, run: seq<nat>) {
    && from <= end <= |ops|
    && (forall i | from <= i < end :: !ops[i].Reset? && !RecordsNonLoss(ops[i]))
    && (forall a, c | 0 <= a < c < |run| :: run[a] < run[c])
    && (forall a | 0 <= a < |run| :: from <= run[a] < end && RecordsLoss(ops[run[a]]))
    && (forall i: nat | from <= i < end && RecordsLoss(ops[i]) :: i in run)
  }

  lemma StreakGrows(ops: seq<BreakerOp>, from: nat, run: seq<nat>, op: BreakerOp)
    requires Streak(ops, from, |ops|, run) && !op.Reset? && !RecordsNonLoss(op)
    ensures Streak(ops + [op], from, |ops| + 1, if RecordsLoss(op) then run + [|ops|] else run)
  {
    var more := if RecordsLoss(op) then run + [|ops|] else run;
    forall i: nat | from <= i < |ops| + 1 && RecordsLoss((ops + [op])[i]) ensures i in more {
      if i < |ops| {
        assert i in run;
      } else {
        assert more[|run|] == i;
      }
    }
  }

  lemma StreakStays(ops: seq<BreakerOp>, from: nat, end: nat, run: seq<nat>, op: BreakerOp)
    requires Streak(ops, from, end, run)
    ensures Streak(ops + [op], from, end, run)
  {
  }

  /** What the operation before a streak was: a reset, a non-loss, or a check that cleared a trip. */
  ghost predicate EndsStreak(b: TimedCircuitBreakerState, op: BreakerOp) {
    op.Reset? || (!b.tripped && RecordsNonLoss(op)) || (b.tripped && op.Check?)
  }

  /** The streak counts the losses in `run`; the one that completes it stamps the trip with its
      own time, and nothing after it resets the breaker. */
  ghost predicate Stamped(
    threshold: int, cooldown: real, ops: seq<BreakerOp>, from: nat, end: nat, run: seq<nat>,
    b: TimedCircuitBreakerState)
  {
    && Streak(ops, from, end, run)
    && |run| <= threshold
    && (if |run| == threshold && threshold > 0 then
          && end == run[threshold - 1] + 1
          && b == TimedCircuitBreakerState(
                    threshold, cooldown, threshold, true, ops[run[threshold - 1]].at)
        else
          && end == |ops|
          && b == TimedCircuitBreakerState(threshold, cooldown, |run|, false, None))
    && forall i | end <= i < |ops| :: !ops[i].Reset?
  }

  lemma StampedStays(
    threshold: int, cooldown: real, ops: seq<BreakerOp>, from: nat, end: nat, run: seq<nat>,
    b: TimedCircuitBreakerState, op: BreakerOp)
    requires threshold >= 1 && Stamped(threshold, cooldown, ops, from, end, run, b)
    requires |run| == threshold && !op.Reset?
    ensures Stamped(threshold, cooldown, ops + [op], from, end, run, b)
  {
    StreakStays(ops, from, end, run, op);
    assert (ops + [op])[run[threshold - 1]] == ops[run[threshold - 1]];
  }

  lemma StampedGrows(
    threshold: int, cooldown: real, ops: seq<BreakerOp>, from: nat, run: seq<nat>,
    b: TimedCircuitBreakerState, op: BreakerOp)
    requires threshold >= 1 && Stamped(threshold, cooldown, ops, from, |ops|, run, b)
    requires |run| < threshold && !op.Reset? && !RecordsNonLoss(op)
    ensures Stamped(threshold, cooldown, ops + [op], from, |ops| + 1,
                    if RecordsLoss(op) then run + [|ops|] else run, Step(b, op))
  {
    StreakGrows(ops, from, run, op);
    if op.Record? {
      RecordOnFigures(b, op.pnl, op.at);
    }
  }

  lemma StampedStep(
    threshold: int, cooldown: real, ops: seq<BreakerOp>, from: nat, end: nat, run: seq<nat>,
    b: TimedCircuitBreakerState, op: BreakerOp)
    returns (from': nat, end': nat, run': seq<nat>)
    requires threshold >= 1 && Stamped(threshold, cooldown, ops, from, end, run, b)
    ensures Stamped(threshold, cooldown, ops + [op], from', end', run', Step(b, op))
    ensures from' == from || (from' == |ops| + 1 && EndsStreak(b, op))
  {
    if Unlocks(b, op) || (!b.tripped && RecordsNonLoss(op)) {
      from', end', run' := |ops| + 1, |ops| + 1, [];
      assert Streak(ops + [op], from', end', run');
    } else if b.tripped {
      StampedStays(threshold, cooldown, ops, from, end, run, b, op);
      from', end', run' := from, end, run;
    } else {
      StampedGrows(threshold, cooldown, ops, from, run, b, op);
      from', end' := from, |ops| + 1;
      run' := if RecordsLoss(op) then run + [|ops|] else run;
    }
  }

  /** A fresh breaker's streak counts exactly the losses since it last ended, and its trip carries
      the time of the loss that completed them. */
  lemma {:induction false} TripIsStamped(threshold: int, cooldown: real, ops: seq<BreakerOp>)
    returns (from: nat, end: nat, run: seq<nat>)
    requires threshold >= 1
    ensures Stamped(threshold, cooldown, ops, from, end, run,
                    Run(FreshBreaker(threshold, cooldown), ops))
    ensures from > 0 ==>
      && from <= |ops|
      && EndsStreak(Run(FreshBreaker(threshold, cooldown), ops[..from - 1]), ops[from - 1])
  {
    if ops == [] {
      from, end, run := 0, 0, [];
    } else {
      var n := |ops| - 1;
      var before := ops[..n];
      var from0, end0, run0 := TripIsStamped(threshold, cooldown, before);
      assert from0 > 0 ==> before[..from0 - 1] == ops[..from0 - 1];
      from, end, run := StampedStep(
        threshold, cooldown, before, from0, end0, run0,
        Run(FreshBreaker(threshold, cooldown), before), ops[n]);
      assert ops == before + [ops[n]];
    }
  }

  /** `timedelta(hours=hours)` has passed: rounding decides only at half a microsecond. */
  predicate HoursPassed(us: int, hours: real) {
    || us as real > hours * 3600000000.0 - 0.5
    || (us as real == hours * 3600000000.0 - 0.5 && us % 2 == 0)
  }

  lemma HoursPassedIff(us: int, hours: real)
    ensures us >= HoursToUs(hours) <==> HoursPassed(us, hours)
  {
  }

  /** One check on a breaker in any state, restored ones included. */
  lemma CheckOnFigures(b: TimedCircuitBreakerState, now: Option<Timestamp>)
    ensures var timed := b.tripped && b.trippedAt.Some? && now.Some?;
            if !b.tripped then
              BreakerVerdict(b, now) == Pass && BreakerCheck(b, now) == b
            else if timed && now.value.mode != b.trippedAt.value.mode then
              BreakerVerdict(b, now) == Reject(TimezoneMixed) && BreakerCheck(b, now) == b
            else if timed && HoursPassed(now.value.us - b.trippedAt.value.us, b.cooldownHours) then
              && BreakerVerdict(b, now) == Pass
              && BreakerCheck(b, now) == TimedCircuitBreakerState(
                   b.consecutiveLossThreshold, b.cooldownHours, 0, false, None)
            else
              && BreakerVerdict(b, now) == Reject(BreakerTripped(b.lossStreak, b.cooldownHours))
              && BreakerCheck(b, now) == b
  {
    if b.trippedAt.Some? && now.Some? {
      HoursPassedIff(now.value.us - b.trippedAt.value.us, b.cooldownHours);
    }
  }

  lemma LastLossTrips(threshold: int, cooldown: real, ops: seq<BreakerOp>, last: BreakerOp)
    requires threshold >= 1 && cooldown > 0.0 && RecordsLoss(last)
    requires Run(FreshBreaker(threshold, cooldown), ops).lossStreak == threshold - 1
    ensures Run(FreshBreaker(threshold, cooldown), ops + [last])
         == TimedCircuitBreakerState(threshold, cooldown, threshold, true, last.at)
  {
    RunStaysSound(threshold, cooldown, ops);
    assert (ops + [last])[..|ops + [last]| - 1] == ops;
    RecordOnFigures(Run(FreshBreaker(threshold, cooldown), ops), last.pnl, last.at);
  }

  /** After the loss that trips at `t`, and whatever happens short of a reset or an approval, a
      check approves exactly on a clock of `t`'s mode that shows the whole cooldown. */
  lemma CooldownExact(
    threshold: int, cooldown: real, ops: seq<BreakerOp>, last: BreakerOp, t: Timestamp,
    later: seq<BreakerOp>, now: Option<Timestamp>, b: TimedCircuitBreakerState)
    requires threshold >= 1 && cooldown > 0.0 && RecordsLoss(last) && last.at == Some(t)
    requires Run(FreshBreaker(threshold, cooldown), ops).lossStreak == threshold - 1
    requires b == TimedCircuitBreakerState(threshold, cooldown, threshold, true, Some(t))
    requires forall j | 0 <= j < |later| :: !later[j].Reset?
    requires forall j | 0 <= j < |later| && later[j].Check? ::
               BreakerVerdict(Run(b, later[..j]), later[j].now).Reject?
    ensures Run(FreshBreaker(threshold, cooldown), ops + [last] + later) == b
    ensures BreakerVerdict(b, now)
         == if now.Some? && now.value.mode != t.mode then Reject(TimezoneMixed)
            else if now.Some? && HoursPassed(now.value.us - t.us, cooldown) then Pass
            else Reject(BreakerTripped(threshold, cooldown))
    ensures BreakerVerdict(b, now).Pass? ==>
      BreakerCheck(b, now) == TimedCircuitBreakerState(threshold, cooldown, 0, false, None)
  {
    LastLossTrips(threshold, cooldown, ops, last);
    RunConcat(FreshBreaker(threshold, cooldown), ops + [last], later);
    RejectionsDoNotUnlock(b, later);
    LockedUntilUnlocked(b, later);
    CheckOnFigures(b, now);
  }

  // ----- Runs of the loss gate -----

  function Feed(g: ConsecutiveLossGateState, pnls: seq<Number>): (r: ConsecutiveLossGateState)
    requires g.Valid()
    ensures r.Valid() && r.windowTrades == g.windowTrades && r.maxLosses == g.maxLosses
  {
    if pnls == [] then g else LossGateRecord(Feed(g, pnls[..|pnls| - 1]), pnls[|pnls| - 1])
  }

  /** The loss flags of the finite PnLs: an unbounded history. */
  ghost function Flags(pnls: seq<Number>): seq<bool> {
    if pnls == [] then []
    else
      var p := pnls[|pnls| - 1];
      Flags(pnls[..|pnls| - 1]) + if IsFinite(p) then [IsLoss(p)] else []
  }

  lemma LastOfLast<T>(s: seq<T>, t: seq<T>, n: nat)
    ensures Last(Last(s, n) + t, n) == Last(s + t, n)
  {
  }

  /** The bounded window refines the unbounded history, from any starting point. */
  lemma {:induction false} WindowRefinesHistory(g: ConsecutiveLossGateState, pnls: seq<Number>)
    requires g.Valid()
    ensures Feed(g, pnls).history == Last(g.history + Flags(pnls), g.windowTrades)
  {
    if pnls == [] {
      assert g.history + [] == g.history;
    } else {
      var n := |pnls| - 1;
      WindowRefinesHistory(g, pnls[..n]);
      if IsFinite(pnls[n]) {
        LastOfLast(g.history + Flags(pnls[..n]), [IsLoss(pnls[n])], g.windowTrades);
        assert g.history + Flags(pnls) == g.history + Flags(pnls[..n]) + [IsLoss(pnls[n])];
      }
    }
  }

  /** A fresh gate rejects exactly when its window is full and holds too many losses. */
  lemma RejectsOnHistory(maxLosses: int, windowTrades: int, pnls: seq<Number>)
    requires 1 <= maxLosses <= windowTrades
    ensures var g := Feed(FreshLossGate(maxLosses, windowTrades), pnls);
            && g.history == Last(Flags(pnls), windowTrades)
            && (LossGateVerdict(g).Reject? <==>
                |Flags(pnls)| >= windowTrades && Losses(Last(Flags(pnls), windowTrades)) > maxLosses)
  {
    WindowRefinesHistory(FreshLossGate(maxLosses, windowTrades), pnls);
    assert [] + Flags(pnls) == Flags(pnls);
  }

  /** `at` lists the positions of the finite floats, in their order. */
  ghost predicate FiniteAt(pnls: seq<Number>, at: seq<nat>) {
    && (forall a, c | 0 <= a < c < |at| :: at[a] < at[c])
    && (forall a | 0 <= a < |at| :: at[a] < |pnls|)
    && (forall a | 0 <= a < |at| :: pnls[at[a]].PyFloat? && pnls[at[a]].f.Fin?)
    && (forall i: nat | i < |pnls| && pnls[i].PyFloat? && pnls[i].f.Fin? :: i in at)
  }

  lemma LastOfAscending(at: seq<nat>, n: nat, a: nat)
    requires forall c, d | 0 <= c < d < |at| :: at[c] < at[d]
    requires forall c | 0 <= c < |at| :: at[c] <= n
    requires a < |at| && at[a] == n
    ensures a == |at| - 1
  {
    var last := at[|at| - 1];
  }

  lemma FirstPosition(at: seq<nat>, n: int)
    requires at != [] && forall a | 0 <= a < |at| :: at[a] < n
    ensures n > 0
  {
    var first := at[0];
  }

  /** The positions without the last PnL, which is the last of them or none. */
  lemma FiniteBefore(pnls: seq<Number>, at: seq<nat>) returns (fewer: seq<nat>)
    requires pnls != [] && FiniteAt(pnls, at)
    ensures FiniteAt(pnls[..|pnls| - 1], fewer)
    ensures at == if IsFinite(pnls[|pnls| - 1]) then fewer + [|pnls| - 1] else fewer
  {
    var n := |pnls| - 1;
    if IsFinite(pnls[n]) {
      assert n in at;
      var a: nat :| a < |at| && at[a] == n;
      LastOfAscending(at, n, a);
      fewer := at[..a];
      DropLastPosition(pnls, at);
    } else {
      fewer := at;
      assert forall a | 0 <= a < |at| :: at[a] != n;
    }
  }

  lemma DropLastPosition(pnls: seq<Number>, at: seq<nat>)
    requires pnls != [] && at != [] && FiniteAt(pnls, at) && at[|at| - 1] == |pnls| - 1
    ensures FiniteAt(pnls[..|pnls| - 1], at[..|at| - 1])
  {
    var n, before, fewer := |pnls| - 1, pnls[..|pnls| - 1], at[..|at| - 1];
    forall i: nat | i < n && before[i].PyFloat? && before[i].f.Fin? ensures i in fewer {
      assert pnls[i] == before[i] && i in at;
      var a: nat :| a < |at| && at[a] == i;
      assert fewer[a] == i;
    }
  }

  lemma {:induction false} FlagsAreSigns(pnls: seq<Number>, at: seq<nat>)
    requires FiniteAt(pnls, at)
    ensures |Flags(pnls)| == |at|
    ensures forall a | 0 <= a < |at| :: pnls[at[a]].PyFloat? && pnls[at[a]].f.Fin?
                                     && Flags(pnls)[a] == (pnls[at[a]].f.r < 0.0)
  {
    if pnls != [] {
      var fewer := FiniteBefore(pnls, at);
      FlagsAreSigns(pnls[..|pnls| - 1], fewer);
    } else if at != [] {
      FirstPosition(at, 0);
      assert false;
    }
  }

  lemma SignsFrom(pnls: seq<Number>, at: seq<nat>, low: nat)
    requires FiniteAt(pnls, at)
    ensures (set a: nat | low <= a < |at| && pnls[at[a]].PyFloat?
                          && pnls[at[a]].f.Fin? && pnls[at[a]].f.r < 0.0)
         == (set i: nat | low <= i < |Flags(pnls)| && Flags(pnls)[i])
  {
    FlagsAreSigns(pnls, at);
  }

  /** The losses from `low` on, counted as positions. */
  lemma {:induction false} LossesArePositions(flags: seq<bool>, low: nat)
    requires low <= |flags|
    ensures |set i: nat | low <= i < |flags| && flags[i]| == Losses(flags[low..])
  {
    var n := |flags| - 1;
    var all := set i: nat | low <= i < |flags| && flags[i];
    if low == |flags| {
      assert all == {};
    } else {
      LossesArePositions(flags[..n], low);
      var before := set i: nat | low <= i < n && flags[..n][i];
      assert all == if flags[n] then before + {n} else before;
      assert flags[low..][..|flags[low..]| - 1] == flags[..n][low..];
    }
  }

  /** In plain figures: of the last `windowTrades` finite floats more than `maxLosses` are below
      zero. Integers, NaN and infinities take no place in the window. */
  lemma LossGateOnFigures(maxLosses: int, windowTrades: int, pnls: seq<Number>, at: seq<nat>)
    requires 1 <= maxLosses <= windowTrades && FiniteAt(pnls, at)
    ensures var low := |at| - windowTrades;
            var losses := set a: nat | low <= a < |at| && pnls[at[a]].PyFloat?
                                       && pnls[at[a]].f.Fin? && pnls[at[a]].f.r < 0.0;
            LossGateVerdict(Feed(FreshLossGate(maxLosses, windowTrades), pnls))
            == if low >= 0 && |losses| > maxLosses
               then Reject(LossGateTripped(|losses|, windowTrades, maxLosses)) else Pass
  {
    FlagsAreSigns(pnls, at);
    if |at| >= windowTrades {
      SignsFrom(pnls, at, |at| - windowTrades);
    }
    LossGateOnFlags(maxLosses, windowTrades, pnls);
  }

  lemma LossGateOnFlags(maxLosses: int, windowTrades: int, pnls: seq<Number>)
    requires 1 <= maxLosses <= windowTrades
    ensures var flags := Flags(pnls);
            var low := |flags| - windowTrades;
            var losses := set i: nat | low <= i < |flags| && flags[i];
            LossGateVerdict(Feed(FreshLossGate(maxLosses, windowTrades), pnls))
            == if low >= 0 && |losses| > maxLosses
               then Reject(LossGateTripped(|losses|, windowTrades, maxLosses)) else Pass
  {
    RejectsOnHistory(maxLosses, windowTrades, pnls);
    var flags := Flags(pnls);
    if |flags| >= windowTrades {
      LossesArePositions(flags, |flags| - windowTrades);
      assert flags[|flags| - windowTrades..] == Last(flags, windowTrades);
    }
  }

  lemma {:induction false} LossesAppend(a: seq<bool>, b: seq<bool>)
    ensures Losses(a + b) == Losses(a) + Losses(b)
  {
    if b == [] {
      assert a + b == a;
    } else {
      LossesAppend(a, b[..|b| - 1]);
      assert (a + b)[..|a + b| - 1] == a + b[..|b| - 1];
    }
  }

  predicate FiniteNonLosses(pnls: seq<Number>) {
    forall p | p in pnls :: IsFinite(p) && !IsLoss(p)
  }

  lemma {:induction false} NonLossFlags(pnls: seq<Number>)
    requires FiniteNonLosses(pnls)
    ensures |Flags(pnls)| == |pnls| && Losses(Flags(pnls)) == 0
  {
    if pnls != [] {
      var n := |pnls| - 1;
      NonLossFlags(pnls[..n]);
      LossesAppend(Flags(pnls[..n]), [false]);
    }
  }

  lemma LastKeepsEnd<T>(s: seq<T>, t: seq<T>, n: nat)
    requires |t| <= n
    ensures Last(s + t, n) == Last(s, n - |t|) + t
  {
  }

  /** What stays in the window after `r` further trades that lose nothing. */
  lemma LossesAfterWins(g: ConsecutiveLossGateState, pnls: seq<Number>)
    requires g.Valid() && FiniteNonLosses(pnls) && |pnls| <= g.windowTrades
    ensures Losses(Feed(g, pnls).history) == Losses(Last(g.history, g.windowTrades - |pnls|))
    ensures |Feed(g, pnls).history| == |Last(g.history + Flags(pnls), g.windowTrades)|
  {
    WindowRefinesHistory(g, pnls);
    NonLossFlags(pnls);
    LastKeepsEnd(g.history, Flags(pnls), g.windowTrades);
    LossesAppend(Last(g.history, g.windowTrades - |pnls|), Flags(pnls));
  }

  /** From any state, `windowTrades - maxLosses` such trades in a row make the gate approve. */
  lemma RecoveryBound(g: ConsecutiveLossGateState, pnls: seq<Number>)
    requires g.Valid() && FiniteNonLosses(pnls) && |pnls| == g.windowTrades - g.maxLosses
    ensures LossGateVerdict(Feed(g, pnls)).Pass?
  {
    LossesAfterWins(g, pnls);
  }

  predicate AllTrue(flags: seq<bool>) {
    forall i | 0 <= i < |flags| :: flags[i]
  }

  lemma {:induction false} AllLosses(flags: seq<bool>)
    requires AllTrue(flags)
    ensures Losses(flags) == |flags|
  {
    if flags != [] {
      AllLosses(flags[..|flags| - 1]);
    }
  }

  /** From a window full of losses the gate approves after exactly that many, and no fewer. */
  lemma RecoveryBoundIsTight(g: ConsecutiveLossGateState, pnls: seq<Number>)
    requires g.Valid() && FiniteNonLosses(pnls) && |pnls| <= g.windowTrades
    requires |g.history| == g.windowTrades && AllTrue(g.history)
    ensures LossGateVerdict(Feed(g, pnls)).Pass? <==> |pnls| >= g.windowTrades - g.maxLosses
  {
    var kept := Last(g.history, g.windowTrades - |pnls|);
    LossesAfterWins(g, pnls);
    assert AllTrue(kept) && |kept| == g.windowTrades - |pnls|;
    AllLosses(kept);
  }

  // ----- Integer PnLs -----

  /** An integer read as the finite number it is. */
  function AsFloat(x: Number): Number {
    if x.PyInt? then PyFloat(Fin(x.i as real)) else x
  }

  /** The breaker steps as documented iff the PnL is no integer that would have moved it. */
  lemma IntegerPnlBreakerIff(b: TimedCircuitBreakerState, x: Number, at: Option<Timestamp>)
    ensures BreakerRecord(b, x, at) == BreakerRecord(b, AsFloat(x), at)
       <==> !(x.PyInt? && !b.tripped && (x.i < 0 || b.lossStreak != 0))
  {
  }

  lemma {:induction false} ShiftedIsConstant(h: seq<bool>, f: bool)
    requires h != [] && h[1..] + [f] == h
    ensures forall i | 0 <= i < |h| :: h[i] == f
  {
    if |h| > 1 {
      var t := h[1..];
      assert t[1..] + [f] == (t + [f])[1..] == h[1..] == t;
      ShiftedIsConstant(t, f);
      assert h[0] == (t + [f])[0] == t[0];
      assert forall i | 1 <= i < |h| :: h[i] == t[i - 1];
    }
  }

  /** The loss gate does iff the PnL is no integer, or its window is full of that very flag. */
  lemma IntegerPnlLossGateIff(g: ConsecutiveLossGateState, x: Number)
    requires g.Valid()
    ensures LossGateRecord(g, x) == LossGateRecord(g, AsFloat(x))
       <==> !(x.PyInt? && !(|g.history| == g.windowTrades
                            && forall i | 0 <= i < |g.history| :: g.history[i] == (x.i < 0)))
  {
    if x.PyInt? && |g.history| == g.windowTrades {
      var f := x.i < 0;
      var shifted := g.history[1..] + [f];
      assert Last(g.history + [f], g.windowTrades) == shifted;
      if shifted == g.history {
        ShiftedIsConstant(g.history, f);
      }
      if forall i | 0 <= i < |g.history| :: g.history[i] == f {
        assert shifted == g.history;
      }
    }
  }

  /** An integer loss that should trip a breaker, and one that should fill a window, do nothing. */
  lemma IntegerLossIsIgnored()
    ensures BreakerRecord(FreshBreaker(1, 24.0), PyInt(-1), None) == FreshBreaker(1, 24.0)
    ensures BreakerRecord(FreshBreaker(1, 24.0), AsFloat(PyInt(-1)), None).tripped
    ensures LossGateRecord(FreshLossGate(1, 1), PyInt(-1)) == FreshLossGate(1, 1)
    ensures LossGateRecord(FreshLossGate(1, 1), AsFloat(PyInt(-1))).history == [true]
  {
  }
}
