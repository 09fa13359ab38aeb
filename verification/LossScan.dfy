/** The gate against consecutive losses inside a time window. */
module LossScan {
  import opened Prelude
  import opened Floats
  import opened Clock
  import opened State

  // ----- What the gate decides, without sorting or scanning -----

  predicate Loss(o: TradeOutcome) {
    Less(o.pnl, Fin(0.0))
  }

  /** All datetimes are of one mode, so any two can be compared. */
  predicate Uniform(xs: seq<TradeOutcome>) {
    forall a, b | a in xs && b in xs :: a.timestamp.mode == b.timestamp.mode
  }

  predicate AllFinite(xs: seq<TradeOutcome>) {
    forall o | o in xs :: o.pnl.Fin?
  }

  /** Outcome `i` comes after outcome `j`; equal times keep the order of the list. */
  predicate After(xs: seq<TradeOutcome>, i: nat, j: nat)
    requires i < |xs| && j < |xs| && Uniform(xs)
  {
    || Since(xs[i].timestamp, xs[j].timestamp) > 0
    || (Since(xs[i].timestamp, xs[j].timestamp) == 0 && i > j)
  }

  /** Outcome `i` is a loss that comes after every outcome that is not. */
  ghost predicate InTrailingRun(xs: seq<TradeOutcome>, i: nat)
    requires i < |xs| && Uniform(xs)
  {
    Loss(xs[i]) && forall j: nat | j < |xs| && !Loss(xs[j]) :: After(xs, i, j)
  }

  /** `o` happened at most `minutes` before `now`, and not after it. */
  predicate InWindow(o: TradeOutcome, now: Timestamp, minutes: Float)
    requires o.timestamp.mode == now.mode
  {
    var us := Since(now, o.timestamp);
    us >= 0 && AtMost(Fin(us as real / 1000000.0), Scale(minutes, 60.0))
  }

  ghost predicate Comparable(xs: seq<TradeOutcome>, now: Timestamp) {
    Uniform(xs) && forall o | o in xs :: o.timestamp.mode == now.mode
  }

  /** The losses that count: the trailing run, cut to the window. */
  ghost function RecentLosses(xs: seq<TradeOutcome>, now: Timestamp, minutes: Float): set<nat>
    requires Comparable(xs, now)
  {
    set i: nat | i < |xs| && InTrailingRun(xs, i) && InWindow(xs[i], now, minutes)
  }

  /** Some loss of the trailing run is dated after `now`. */
  ghost predicate FutureLoss(xs: seq<TradeOutcome>, now: Timestamp)
    requires Comparable(xs, now)
  {
    exists i: nat :: i < |xs| && InTrailingRun(xs, i) && Since(now, xs[i].timestamp) < 0
  }

  /** The latest datetime of a nonempty list. */
  function Newest(xs: seq<TradeOutcome>): (t: Timestamp)
    requires xs != [] && Uniform(xs)
    ensures exists o | o in xs :: o.timestamp == t
    ensures forall o | o in xs :: o.timestamp.mode == t.mode && Since(t, o.timestamp) >= 0
  {
    var n := |xs| - 1;
    if n == 0 then
      assert xs[0] in xs; xs[0].timestamp
    else
      var t := Newest(xs[..n]);
      assert xs == xs[..n] + [xs[n]];
      assert xs[n] in xs;
      if Since(xs[n].timestamp, t) > 0 then xs[n].timestamp else t
  }

  /** The datetime the window ends at. */
  function Effective(xs: seq<TradeOutcome>, now: Option<Timestamp>): Timestamp
    requires xs != [] && Uniform(xs)
  {
    if now.Some? then now.value else Newest(xs)
  }

  /** The verdict on comparable datetimes: future losses first, then the count. */
  ghost function RunVerdict(limit: int, minutes: Float, xs: seq<TradeOutcome>, now: Timestamp)
    : Verdict
    requires Comparable(xs, now)
  {
    if FutureLoss(xs, now) then Reject(InvalidTimeOrder)
    else if |RecentLosses(xs, now, minutes)| >= limit then
      Reject(ConsecutiveLossLimit(limit, minutes))
    else Pass
  }

  /** The verdict on a nonempty list once the limit is in force. */
  ghost function ScanVerdict(
    limit: int, minutes: Float, xs: seq<TradeOutcome>, now: Option<Timestamp>): Verdict
    requires limit > 0 && xs != []
  {
    if !Uniform(xs) then
      Reject(TimezoneMixed)
    else if !AllFinite(xs) then
      Reject(InvalidFloatConsecutiveLosses)
    else if now.Some? && now.value.mode != xs[0].timestamp.mode then
      Reject(TimezoneMixed)
    else
      RunVerdict(limit, minutes, xs, Effective(xs, now))
  }

  ghost function ConsecutiveLossVerdict(
    ctx: RiskContext, outcomes: Option<seq<TradeOutcome>>, now: Option<Timestamp>): Verdict
  {
    if ctx.consecutiveLossLimit < 0 || Less(ctx.consecutiveLossWindowMinutes, Fin(0.0)) then
      Reject(InvalidConsecutiveLossContext)
    else if ctx.consecutiveLossLimit == 0 || outcomes.None? || outcomes.value == [] then
      Pass
    else
      ScanVerdict(ctx.consecutiveLossLimit, ctx.consecutiveLossWindowMinutes, outcomes.value, now)
  }

  // ----- Stable chronological order -----

  /** Puts position `i`, higher than any in `order`, behind everything not newer than it. */
  function Insert(xs: seq<TradeOutcome>, order: seq<nat>, i: nat): (r: seq<nat>)
    requires i < |xs| && Uniform(xs)
    requires forall a: nat | a < |order| :: order[a] < i
    ensures |r| == |order| + 1
    ensures forall a: nat | a < |r| :: r[a] <= i
    ensures forall j :: j in r <==> j in order || j == i
  {
    if order == [] then [i]
    else
      var n := |order| - 1;
      assert order == order[..n] + [order[n]];
      if Since(xs[i].timestamp, xs[order[n]].timestamp) >= 0 then order + [i]
      else Insert(xs, order[..n], i) + [order[n]]
  }

  ghost predicate Ascending(xs: seq<TradeOutcome>, order: seq<nat>)
    requires Uniform(xs)
  {
    && (forall a: nat | a < |order| :: order[a] < |xs|)
    && forall a: nat, b: nat | a < b < |order| :: After(xs, order[b], order[a])
  }

  /** `order` lists every position of `xs` once, from oldest to newest. */
  ghost predicate Chronological(xs: seq<TradeOutcome>, order: seq<nat>)
    requires Uniform(xs)
  {
    && |order| == |xs|
    && (forall i: nat | i < |xs| :: i in order)
    && Ascending(xs, order)
  }

  lemma AscendingAppend(xs: seq<TradeOutcome>, order: seq<nat>, i: nat)
    requires i < |xs| && Uniform(xs) && Ascending(xs, order)
    requires forall a: nat | a < |order| :: After(xs, i, order[a])
    ensures Ascending(xs, order + [i])
  {
  }

  lemma {:induction false} InsertAscending(xs: seq<TradeOutcome>, order: seq<nat>, i: nat)
    requires i < |xs| && Uniform(xs) && Ascending(xs, order)
    requires forall a: nat | a < |order| :: order[a] < i
    ensures Ascending(xs, Insert(xs, order, i))
  {
    if order == [] {
      AscendingAppend(xs, [], i);
      assert [] + [i] == [i];
    } else {
      var n := |order| - 1;
      var last := order[n];
      if Since(xs[i].timestamp, xs[last].timestamp) >= 0 {
        assert forall a: nat | a < n :: After(xs, last, order[a]);
        AscendingAppend(xs, order, i);
      } else {
        InsertAscending(xs, order[..n], i);
        var r := Insert(xs, order[..n], i);
        forall a: nat | a < |r| ensures After(xs, last, r[a]) {
          assert r[a] in r;
          assert r[a] == i || r[a] in order[..n];
        }
        AscendingAppend(xs, r, last);
      }
    }
  }

  /** The stable sort by timestamp of the first `k` outcomes, as positions. */
  function StableOrder(xs: seq<TradeOutcome>, k: nat): (order: seq<nat>)
    requires k <= |xs| && Uniform(xs)
    ensures |order| == k
    ensures forall a: nat | a < k :: order[a] < k
    ensures forall j: nat | j < k :: j in order
  {
    if k == 0 then [] else Insert(xs, StableOrder(xs, k - 1), k - 1)
  }

  lemma {:induction false} StableOrderChronological(xs: seq<TradeOutcome>, k: nat)
    requires k <= |xs| && Uniform(xs)
    ensures Ascending(xs, StableOrder(xs, k))
    ensures k == |xs| ==> Chronological(xs, StableOrder(xs, k))
  {
    if k > 0 {
      StableOrderChronological(xs, k - 1);
      InsertAscending(xs, StableOrder(xs, k - 1), k - 1);
    }
  }

  // ----- The scan against the declarative meaning -----

  /** Trailing-run membership is: everything from here on, in order, is a loss. */
  lemma TrailingRunInOrder(xs: seq<TradeOutcome>, order: seq<nat>, k: nat)
    requires Uniform(xs) && Chronological(xs, order) && k < |xs|
    ensures InTrailingRun(xs, order[k]) <==> forall m: nat | k <= m < |xs| :: Loss(xs[order[m]])
  {
    if forall m: nat | k <= m < |xs| :: Loss(xs[order[m]]) {
      forall j: nat | j < |xs| && !Loss(xs[j]) ensures After(xs, order[k], j) {
        assert j in order;
        var m: nat :| m < |xs| && order[m] == j;
        assert m < k;
      }
    }
  }

  /** The last `|xs| - k` outcomes in order all count, so at least so many do. */
  lemma AtLeast(xs: seq<TradeOutcome>, order: seq<nat>, k: nat, now: Timestamp, minutes: Float)
    requires Comparable(xs, now) && Chronological(xs, order) && k <= |xs|
    requires forall m: nat | k <= m < |xs| ::
               Loss(xs[order[m]]) && InWindow(xs[order[m]], now, minutes)
    ensures |RecentLosses(xs, now, minutes)| >= |xs| - k
  {
    var tail := order[k..];
    var members := set i | i in tail;
    DistinctCount(tail);
    forall i | i in members ensures i in RecentLosses(xs, now, minutes) {
      var m: nat :| k <= m < |xs| && order[m] == i;
      TrailingRunInOrder(xs, order, m);
    }
    SubsetCount(members, RecentLosses(xs, now, minutes));
  }

  /** An outcome that ends the scan leaves only the later ones to count. */
  lemma AtMostAfter(
    xs: seq<TradeOutcome>, order: seq<nat>, k: nat, now: Timestamp, minutes: Float)
    requires Comparable(xs, now) && Chronological(xs, order) && k < |xs|
    requires !Loss(xs[order[k]])
          || (Since(now, xs[order[k]].timestamp) >= 0 && !InWindow(xs[order[k]], now, minutes))
    ensures |RecentLosses(xs, now, minutes)| <= |xs| - k - 1
  {
    var tail := order[k + 1..];
    var members := set i | i in tail;
    DistinctCount(tail);
    forall i | i in RecentLosses(xs, now, minutes) ensures i in members {
      assert i in order;
      var m: nat :| m < |xs| && order[m] == i;
      TrailingRunInOrder(xs, order, m);
      assert m > k;
      assert order[m] == tail[m - k - 1];
    }
    SubsetCount(RecentLosses(xs, now, minutes), members);
  }

  lemma AtMostAll(xs: seq<TradeOutcome>, order: seq<nat>, now: Timestamp, minutes: Float)
    requires Comparable(xs, now) && Chronological(xs, order)
    ensures |RecentLosses(xs, now, minutes)| <= |xs|
  {
    var members := set i | i in order;
    DistinctCount(order);
    assert RecentLosses(xs, now, minutes) <= members;
    SubsetCount(RecentLosses(xs, now, minutes), members);
  }

  /** Only the newest outcome decides whether a loss lies in the future. */
  lemma FutureLossIsNewest(xs: seq<TradeOutcome>, order: seq<nat>, now: Timestamp)
    requires xs != [] && Comparable(xs, now) && Chronological(xs, order)
    ensures var newest := xs[order[|xs| - 1]];
            FutureLoss(xs, now) <==> Loss(newest) && Since(now, newest.timestamp) < 0
  {
    var last := |xs| - 1;
    TrailingRunInOrder(xs, order, last);
    if FutureLoss(xs, now) {
      var i: nat :| i < |xs| && InTrailingRun(xs, i) && Since(now, xs[i].timestamp) < 0;
      assert i in order;
      var m: nat :| m < |xs| && order[m] == i;
      TrailingRunInOrder(xs, order, m);
      assert m == last || After(xs, order[last], order[m]);
    }
  }

  /** More than one mode occurs exactly when the list is not uniform. */
  lemma ModeCount(xs: seq<TradeOutcome>)
    ensures |set o | o in xs :: o.timestamp.mode| > 1 <==> !Uniform(xs)
  {
    var modes := set o | o in xs :: o.timestamp.mode;
    if Uniform(xs) && xs != [] {
      assert modes <= {xs[0].timestamp.mode};
      SubsetCount(modes, {xs[0].timestamp.mode});
    } else if xs != [] {
      var a, b :| a in xs && b in xs && a.timestamp.mode != b.timestamp.mode;
      SubsetCount({a.timestamp.mode, b.timestamp.mode}, modes);
    } else {
      assert modes == {};
    }
  }

  /** The loop over the sorted outcomes, newest first. */
  method ScanBackwards(limit: int, minutes: Float, xs: seq<TradeOutcome>, now: Timestamp)
    returns (v: Verdict)
    requires limit > 0 && xs != [] && Comparable(xs, now)
    ensures v == RunVerdict(limit, minutes, xs, now)
  {
    var order := StableOrder(xs, |xs|);
    StableOrderChronological(xs, |xs|);
    FutureLossIsNewest(xs, order, now);
    var losses := 0;
    var limitSeconds := Scale(minutes, 60.0);
    for k := |xs| downto 0
      invariant losses == |xs| - k < limit
      invariant forall m: nat | k <= m < |xs| ::
          Loss(xs[order[m]]) && InWindow(xs[order[m]], now, minutes)
    {
      var outcome := xs[order[k]];
      if Less(outcome.pnl, Fin(0.0)) {
        var diff := Since(now, outcome.timestamp);
        assert k < |xs| - 1 ==> After(xs, order[k + 1], order[k]);
        if diff < 0 {
          return Reject(InvalidTimeOrder);
        }
        if AtMost(Fin(diff as real / 1000000.0), limitSeconds) {
          losses := losses + 1;
          if losses >= limit {
            AtLeast(xs, order, k, now, minutes);
            return Reject(ConsecutiveLossLimit(losses, minutes));
          }
        } else {
          AtMostAfter(xs, order, k, now, minutes);
          return Pass;
        }
      } else {
        AtMostAfter(xs, order, k, now, minutes);
        return Pass;
      }
    }
    AtMostAll(xs, order, now, minutes);
    return Pass;
  }

  method EvaluateConsecutiveLosses(
    ctx: RiskContext,
    outcomes: Option<seq<TradeOutcome>>,
    currentTime: Option<Timestamp>,
    decision: RiskDecision)
    returns (ok: bool)
    modifies decision
    ensures ok == ConsecutiveLossVerdict(ctx, outcomes, currentTime).Pass?
    ensures decision.View()
         == Apply(old(decision.View()), ConsecutiveLossVerdict(ctx, outcomes, currentTime))
  {
    if ctx.consecutiveLossLimit < 0 || Less(ctx.consecutiveLossWindowMinutes, Fin(0.0)) {
      decision.Reject(InvalidConsecutiveLossContext);
      return false;
    }
    if ctx.consecutiveLossLimit <= 0 {
      return true;
    }
    if outcomes.None? || |outcomes.value| == 0 {
      return true;
    }
    var xs := outcomes.value;

    var modes := set o | o in xs :: o.timestamp.mode;
    ModeCount(xs);
    if |modes| > 1 {
      decision.Reject(TimezoneMixed);
      return false;
    }
    if exists o | o in xs :: !o.pnl.Fin? {
      decision.Reject(InvalidFloatConsecutiveLosses);
      return false;
    }
    assert xs[0].timestamp.mode in modes;
    var now;
    if currentTime.None? {
      now := Newest(xs);
    } else {
      now := currentTime.value;
      if now.mode !in modes {
        decision.Reject(TimezoneMixed);
        return false;
      }
    }
    var verdict := ScanBackwards(
      ctx.consecutiveLossLimit, ctx.consecutiveLossWindowMinutes, xs, now);
    if verdict.Reject? {
      decision.Reject(verdict.reason);
    }
    return verdict.Pass?;
  }
}
