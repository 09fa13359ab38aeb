/** How the consecutive-loss verdict depends on the list of outcomes. */
module LossScanLaws {
  import opened Prelude
  import opened Floats
  import opened Clock
  import opened State
  import opened LossScan

  // ----- Reordering the list -----

  /** A loss later than every other outcome that is no loss, or at least as late as it. */
  ghost predicate Trails(xs: seq<TradeOutcome>, strict: bool, o: TradeOutcome) {
    && Loss(o)
    && forall b | b in xs && !Loss(b) ::
         if strict then o.timestamp.us > b.timestamp.us else o.timestamp.us >= b.timestamp.us
  }

  /** Membership in the counted losses, read off the outcome and the set of outcomes alone. */
  ghost function Counter(xs: seq<TradeOutcome>, strict: bool, now: Timestamp, minutes: Float)
    : TradeOutcome -> bool
  {
    o => Trails(xs, strict, o) && o.timestamp.mode == now.mode && InWindow(o, now, minutes)
  }

  /** How many losses count whatever the order (strict), and in the least favourable one. */
  ghost function RunCount(xs: seq<TradeOutcome>, strict: bool, now: Timestamp, minutes: Float): nat {
    Count(Counter(xs, strict, now, minutes), xs)
  }

  ghost predicate RunInFuture(xs: seq<TradeOutcome>, strict: bool, now: Timestamp) {
    exists o :: o in xs && Trails(xs, strict, o) && now.us < o.timestamp.us
  }

  /** What the order of equal timestamps cannot change. */
  ghost predicate OrderSettled(
    limit: int, minutes: Float, xs: seq<TradeOutcome>, now: Timestamp)
  {
    || RunInFuture(xs, true, now)
    || (!RunInFuture(xs, false, now)
        && (RunCount(xs, true, now, minutes) >= limit || RunCount(xs, false, now, minutes) < limit))
  }

  lemma SameMembers(xs: seq<TradeOutcome>, ys: seq<TradeOutcome>)
    requires multiset(xs) == multiset(ys)
    ensures forall o :: o in xs <==> o in ys
    ensures |xs| == |ys|
  {
    assert forall o :: o in xs <==> o in multiset(xs);
    assert forall o :: o in ys <==> o in multiset(ys);
    assert |xs| == |multiset(xs)|;
    assert |ys| == |multiset(ys)|;
  }

  lemma RunPermuted(
    xs: seq<TradeOutcome>, ys: seq<TradeOutcome>, strict: bool, now: Timestamp, minutes: Float)
    requires multiset(xs) == multiset(ys)
    ensures RunCount(xs, strict, now, minutes) == RunCount(ys, strict, now, minutes)
    ensures RunInFuture(xs, strict, now) == RunInFuture(ys, strict, now)
  {
    SameMembers(xs, ys);
    var p, q := Counter(xs, strict, now, minutes), Counter(ys, strict, now, minutes);
    CountPermuted(p, xs, ys);
    CountAgrees(p, q, ys);
  }

  /** Every order keeps the trailing run between the strict run and the tied one. */
  lemma TrailingBetween(xs: seq<TradeOutcome>, i: nat)
    requires Uniform(xs) && i < |xs|
    ensures Trails(xs, true, xs[i]) ==> InTrailingRun(xs, i)
    ensures InTrailingRun(xs, i) ==> Trails(xs, false, xs[i])
  {
    assert xs[i] in xs;
    if InTrailingRun(xs, i) {
      forall b | b in xs && !Loss(b) ensures xs[i].timestamp.us >= b.timestamp.us {
        var j: nat :| j < |xs| && xs[j] == b;
        assert After(xs, i, j);
      }
    }
    if Trails(xs, true, xs[i]) {
      forall j: nat | j < |xs| && !Loss(xs[j]) ensures After(xs, i, j) {
        assert xs[j] in xs;
      }
    }
  }

  lemma CountBetween(xs: seq<TradeOutcome>, now: Timestamp, minutes: Float)
    requires Comparable(xs, now)
    ensures RunCount(xs, true, now, minutes) <= |RecentLosses(xs, now, minutes)|
                                             <= RunCount(xs, false, now, minutes)
    ensures RunInFuture(xs, true, now) ==> FutureLoss(xs, now)
    ensures FutureLoss(xs, now) ==> RunInFuture(xs, false, now)
  {
    forall i: nat | i < |xs|
      ensures Trails(xs, true, xs[i]) ==> InTrailingRun(xs, i)
      ensures InTrailingRun(xs, i) ==> Trails(xs, false, xs[i])
    {
      TrailingBetween(xs, i);
    }
    var low, high := Counter(xs, true, now, minutes), Counter(xs, false, now, minutes);
    CountPositions(low, xs);
    CountPositions(high, xs);
    SubsetCount(Positions(low, xs), RecentLosses(xs, now, minutes));
    SubsetCount(RecentLosses(xs, now, minutes), Positions(high, xs));
    FutureBetween(xs, now);
  }

  lemma FutureBetween(xs: seq<TradeOutcome>, now: Timestamp)
    requires Comparable(xs, now)
    ensures RunInFuture(xs, true, now) ==> FutureLoss(xs, now)
    ensures FutureLoss(xs, now) ==> RunInFuture(xs, false, now)
  {
    if RunInFuture(xs, true, now) {
      var o :| o in xs && Trails(xs, true, o) && now.us < o.timestamp.us;
      var i: nat :| i < |xs| && xs[i] == o;
      TrailingBetween(xs, i);
    }
    if FutureLoss(xs, now) {
      var i: nat :| i < |xs| && InTrailingRun(xs, i) && Since(now, xs[i].timestamp) < 0;
      TrailingBetween(xs, i);
      assert xs[i] in xs;
    }
  }

  /** The outcomes that are losses, or those that are not, in their order. */
  ghost function Only(xs: seq<TradeOutcome>, losses: bool): (ys: seq<TradeOutcome>)
    ensures forall o | o in ys :: Loss(o) == losses
  {
    if xs == [] then []
    else
      Only(xs[..|xs| - 1], losses)
      + if Loss(xs[|xs| - 1]) == losses then [xs[|xs| - 1]] else []
  }

  lemma {:induction false} OnlySplits(xs: seq<TradeOutcome>)
    ensures multiset(Only(xs, true)) + multiset(Only(xs, false)) == multiset(xs)
  {
    if xs != [] {
      OnlySplits(xs[..|xs| - 1]);
      assert xs == xs[..|xs| - 1] + [xs[|xs| - 1]];
    }
  }

  /** The order that breaks every tie against counting (strict) or in favour of it. */
  ghost function Extreme(xs: seq<TradeOutcome>, strict: bool): (ys: seq<TradeOutcome>)
    ensures multiset(ys) == multiset(xs)
  {
    OnlySplits(xs);
    Only(xs, strict) + Only(xs, !strict)
  }

  lemma ExtremeTrails(xs: seq<TradeOutcome>, strict: bool, i: nat)
    requires Uniform(Extreme(xs, strict)) && i < |xs|
    ensures |Extreme(xs, strict)| == |xs|
    ensures var ys := Extreme(xs, strict); InTrailingRun(ys, i) <==> Trails(ys, strict, ys[i])
  {
    var ys, front := Extreme(xs, strict), Only(xs, strict);
    SameMembers(xs, ys);
    TrailingBetween(ys, i);
    assert forall k: nat | k < |front| :: ys[k] in front && Loss(ys[k]) == strict;
    assert forall k: nat | |front| <= k < |ys| :: ys[k] in Only(xs, !strict) && Loss(ys[k]) != strict;
    if strict && InTrailingRun(ys, i) {
      forall b | b in ys && !Loss(b) ensures ys[i].timestamp.us > b.timestamp.us {
        var j: nat :| j < |ys| && ys[j] == b;
        assert After(ys, i, j);
      }
    }
    if !strict && Trails(ys, false, ys[i]) {
      forall j: nat | j < |ys| && !Loss(ys[j]) ensures After(ys, i, j) {
        assert ys[j] in ys;
      }
    }
  }

  lemma ExtremeRecent(xs: seq<TradeOutcome>, strict: bool, now: Timestamp, minutes: Float)
    requires Comparable(Extreme(xs, strict), now)
    ensures var ys := Extreme(xs, strict);
            RecentLosses(ys, now, minutes) == Positions(Counter(ys, strict, now, minutes), ys)
  {
    var ys := Extreme(xs, strict);
    SameMembers(xs, ys);
    forall i: nat | i < |ys|
      ensures i in RecentLosses(ys, now, minutes)
         <==> i in Positions(Counter(ys, strict, now, minutes), ys)
    {
      ExtremeTrails(xs, strict, i);
      assert ys[i] in ys;
    }
  }

  /** The two extreme orders reach the two counts. */
  lemma ExtremeCounts(xs: seq<TradeOutcome>, strict: bool, now: Timestamp, minutes: Float)
    requires Comparable(xs, now)
    ensures Comparable(Extreme(xs, strict), now)
    ensures |RecentLosses(Extreme(xs, strict), now, minutes)| == RunCount(xs, strict, now, minutes)
    ensures FutureLoss(Extreme(xs, strict), now) <==> RunInFuture(xs, strict, now)
  {
    var ys := Extreme(xs, strict);
    SameMembers(xs, ys);
    RunPermuted(xs, ys, strict, now, minutes);
    ExtremeRecent(xs, strict, now, minutes);
    CountPositions(Counter(ys, strict, now, minutes), ys);
    ExtremeFuture(xs, strict, now);
  }

  lemma ExtremeFuture(xs: seq<TradeOutcome>, strict: bool, now: Timestamp)
    requires Comparable(Extreme(xs, strict), now)
    ensures var ys := Extreme(xs, strict); FutureLoss(ys, now) <==> RunInFuture(ys, strict, now)
  {
    var ys := Extreme(xs, strict);
    SameMembers(xs, ys);
    if FutureLoss(ys, now) {
      var i: nat :| i < |ys| && InTrailingRun(ys, i) && Since(now, ys[i].timestamp) < 0;
      ExtremeTrails(xs, strict, i);
      assert ys[i] in ys;
    }
    if RunInFuture(ys, strict, now) {
      var o :| o in ys && Trails(ys, strict, o) && now.us < o.timestamp.us;
      var i: nat :| i < |ys| && ys[i] == o;
      ExtremeTrails(xs, strict, i);
    }
  }

  lemma SettledVerdict(
    limit: int, minutes: Float, xs: seq<TradeOutcome>, ys: seq<TradeOutcome>, now: Timestamp)
    requires multiset(xs) == multiset(ys) && Comparable(xs, now)
    requires OrderSettled(limit, minutes, xs, now)
    ensures Comparable(ys, now)
    ensures RunVerdict(limit, minutes, xs, now) == RunVerdict(limit, minutes, ys, now)
  {
    SameMembers(xs, ys);
    RunPermuted(xs, ys, true, now, minutes);
    RunPermuted(xs, ys, false, now, minutes);
    CountBetween(xs, now, minutes);
    CountBetween(ys, now, minutes);
  }

  /** Otherwise the two extreme orders are decided differently. */
  lemma UnsettledDiffers(limit: int, minutes: Float, xs: seq<TradeOutcome>, now: Timestamp)
    requires Comparable(xs, now) && !OrderSettled(limit, minutes, xs, now)
    ensures Comparable(Extreme(xs, true), now) && Comparable(Extreme(xs, false), now)
    ensures RunVerdict(limit, minutes, Extreme(xs, true), now)
         != RunVerdict(limit, minutes, Extreme(xs, false), now)
  {
    ExtremeCounts(xs, true, now, minutes);
    ExtremeCounts(xs, false, now, minutes);
  }

  /** The list reaches the scan: the gate is on and every guard before the sort passes. */
  ghost predicate Scanned(ctx: RiskContext, xs: seq<TradeOutcome>, now: Option<Timestamp>) {
    && ctx.consecutiveLossLimit > 0 && !Less(ctx.consecutiveLossWindowMinutes, Fin(0.0))
    && xs != [] && Uniform(xs) && AllFinite(xs)
    && (now.Some? ==> now.value.mode == xs[0].timestamp.mode)
  }

  lemma ScannedVerdict(ctx: RiskContext, xs: seq<TradeOutcome>, now: Option<Timestamp>)
    requires Scanned(ctx, xs, now)
    ensures Comparable(xs, Effective(xs, now))
    ensures ConsecutiveLossVerdict(ctx, Some(xs), now)
         == RunVerdict(ctx.consecutiveLossLimit, ctx.consecutiveLossWindowMinutes, xs,
                       Effective(xs, now))
  {
    assert xs[0] in xs;
  }

  lemma ScannedPermuted(
    ctx: RiskContext, xs: seq<TradeOutcome>, ys: seq<TradeOutcome>, now: Option<Timestamp>)
    requires multiset(xs) == multiset(ys)
    ensures Scanned(ctx, xs, now) == Scanned(ctx, ys, now)
    ensures Scanned(ctx, xs, now) ==> Effective(xs, now) == Effective(ys, now)
    ensures !Scanned(ctx, xs, now) ==>
      ConsecutiveLossVerdict(ctx, Some(xs), now) == ConsecutiveLossVerdict(ctx, Some(ys), now)
  {
    SameMembers(xs, ys);
    assert Uniform(xs) == Uniform(ys) && AllFinite(xs) == AllFinite(ys);
    if xs != [] {
      assert xs[0] in ys && ys[0] in xs;
    }
  }

  /** Every order of the list gets one verdict. */
  ghost predicate OrderFree(ctx: RiskContext, xs: seq<TradeOutcome>, now: Option<Timestamp>) {
    forall ys | multiset(ys) == multiset(xs) ::
      ConsecutiveLossVerdict(ctx, Some(ys), now) == ConsecutiveLossVerdict(ctx, Some(xs), now)
  }

  /** The order of a list matters exactly when it is scanned and its ties are not settled. */
  lemma OrderFreeIff(ctx: RiskContext, xs: seq<TradeOutcome>, now: Option<Timestamp>)
    ensures OrderFree(ctx, xs, now) <==>
            (Scanned(ctx, xs, now) ==>
               OrderSettled(ctx.consecutiveLossLimit, ctx.consecutiveLossWindowMinutes, xs,
                            Effective(xs, now)))
  {
    var limit, minutes := ctx.consecutiveLossLimit, ctx.consecutiveLossWindowMinutes;
    if !Scanned(ctx, xs, now) {
      forall ys | multiset(ys) == multiset(xs)
        ensures ConsecutiveLossVerdict(ctx, Some(ys), now)
             == ConsecutiveLossVerdict(ctx, Some(xs), now)
      {
        ScannedPermuted(ctx, xs, ys, now);
      }
    } else {
      var t := Effective(xs, now);
      ScannedVerdict(ctx, xs, now);
      if OrderSettled(limit, minutes, xs, t) {
        forall ys | multiset(ys) == multiset(xs)
          ensures ConsecutiveLossVerdict(ctx, Some(ys), now)
               == ConsecutiveLossVerdict(ctx, Some(xs), now)
        {
          ScannedPermuted(ctx, xs, ys, now);
          ScannedVerdict(ctx, ys, now);
          SettledVerdict(limit, minutes, xs, ys, t);
        }
      } else {
        UnsettledDiffers(limit, minutes, xs, t);
        var low, high := Extreme(xs, true), Extreme(xs, false);
        ScannedPermuted(ctx, xs, low, now);
        ScannedPermuted(ctx, xs, high, now);
        ScannedVerdict(ctx, low, now);
        ScannedVerdict(ctx, high, now);
      }
    }
  }

  /** Outcomes of the same time agree on being losses. */
  ghost predicate TiesAgree(xs: seq<TradeOutcome>) {
    forall a, b | a in xs && b in xs && a.timestamp == b.timestamp :: Loss(a) == Loss(b)
  }

  /** When ties agree the two runs are one, so reordering any list changes nothing. */
  lemma PermutationInvariance(
    ctx: RiskContext, xs: seq<TradeOutcome>, ys: seq<TradeOutcome>, now: Option<Timestamp>)
    requires multiset(xs) == multiset(ys) && TiesAgree(xs)
    ensures ConsecutiveLossVerdict(ctx, Some(xs), now) == ConsecutiveLossVerdict(ctx, Some(ys), now)
  {
    OrderFreeIff(ctx, xs, now);
    if Scanned(ctx, xs, now) {
      var t, minutes := Effective(xs, now), ctx.consecutiveLossWindowMinutes;
      assert forall o | o in xs :: Trails(xs, true, o) == Trails(xs, false, o);
      CountAgrees(Counter(xs, true, t, minutes), Counter(xs, false, t, minutes), xs);
    }
    assert OrderFree(ctx, xs, now);
  }

  /** With a tie between a loss and a win the order of the list does matter. */
  lemma TiesMatter(ctx: RiskContext, t: Timestamp)
    requires ctx.consecutiveLossLimit == 1 && ctx.consecutiveLossWindowMinutes == Fin(15.0)
    ensures var loss, win := TradeOutcome(t, Fin(-1.0)), TradeOutcome(t, Fin(1.0));
            && ConsecutiveLossVerdict(ctx, Some([win, loss]), Some(t)).Reject?
            && ConsecutiveLossVerdict(ctx, Some([loss, win]), Some(t)).Pass?
  {
    var loss, win := TradeOutcome(t, Fin(-1.0)), TradeOutcome(t, Fin(1.0));
    var xs, ys := [win, loss], [loss, win];
    assert InTrailingRun(xs, 1);
    assert 1 in RecentLosses(xs, t, Fin(15.0));
    SubsetCount({1}, RecentLosses(xs, t, Fin(15.0)));
    assert !InTrailingRun(ys, 0) && !InTrailingRun(ys, 1) by {
      assert !Loss(ys[1]) && !After(ys, 0, 1);
    }
    assert RecentLosses(ys, t, Fin(15.0)) == {};
  }

  // ----- Dropping and adding old outcomes -----

  /** `keep` names positions of `xs` in their order. */
  ghost predicate Selects(xs: seq<TradeOutcome>, keep: seq<nat>) {
    && (forall k: nat | k < |keep| :: keep[k] < |xs|)
    && (forall a: nat, b: nat | a < b < |keep| :: keep[a] < keep[b])
  }

  ghost function Selected(xs: seq<TradeOutcome>, keep: seq<nat>): (ys: seq<TradeOutcome>)
    requires Selects(xs, keep)
    ensures |ys| == |keep|
    ensures forall k: nat | k < |keep| :: ys[k] == xs[keep[k]]
    ensures forall o | o in ys :: o in xs
  {
    seq(|keep|, k requires 0 <= k < |keep| => xs[keep[k]])
  }

  lemma {:induction false} ImageCount(s: set<nat>, keep: seq<nat>)
    requires forall k | k in s :: k < |keep|
    requires forall a: nat, b: nat | a < b < |keep| :: keep[a] < keep[b]
    ensures |set k | k in s :: keep[k]| == |s|
  {
    var image := set k | k in s :: keep[k];
    if s == {} {
      assert image == {};
    } else {
      var x :| x in s;
      var rest := set k | k in s - {x} :: keep[k];
      ImageCount(s - {x}, keep);
      assert keep[x] !in rest;
      assert image == rest + {keep[x]};
    }
  }

  /** An outcome further back than the window reaches. */
  ghost predicate Stale(o: TradeOutcome, now: Timestamp, minutes: Float)
    requires o.timestamp.mode == now.mode
  {
    Since(now, o.timestamp) > 0 && !InWindow(o, now, minutes)
  }

  /** Nothing dropped is newer than the window's far end. */
  ghost predicate DropsOnlyStale(
    xs: seq<TradeOutcome>, keep: seq<nat>, now: Timestamp, minutes: Float)
    requires Comparable(xs, now)
  {
    Selects(xs, keep) && forall j: nat | j < |xs| && j !in keep :: Stale(xs[j], now, minutes)
  }

  /** Positions that count survive the drop, and the drop creates no others. */
  lemma StaleDropKeepsRun(
    xs: seq<TradeOutcome>, keep: seq<nat>, k: nat, now: Timestamp, minutes: Float)
    requires Comparable(xs, now) && DropsOnlyStale(xs, keep, now, minutes) && k < |keep|
    requires !Stale(xs[keep[k]], now, minutes)
    ensures InTrailingRun(xs, keep[k]) <==> InTrailingRun(Selected(xs, keep), k)
  {
  }

  lemma CountWithoutStale(
    xs: seq<TradeOutcome>, keep: seq<nat>, now: Timestamp, minutes: Float)
    requires Comparable(xs, now) && DropsOnlyStale(xs, keep, now, minutes)
    ensures Comparable(Selected(xs, keep), now)
    ensures |RecentLosses(xs, now, minutes)| == |RecentLosses(Selected(xs, keep), now, minutes)|
  {
    var ys := Selected(xs, keep);
    var before, after := RecentLosses(xs, now, minutes), RecentLosses(ys, now, minutes);
    var image := set k | k in after :: keep[k];
    forall i | i in before ensures i in image {
      assert i in keep;
      var k: nat :| k < |keep| && keep[k] == i;
      StaleDropKeepsRun(xs, keep, k, now, minutes);
      assert k in after;
    }
    forall k | k in after ensures keep[k] in before {
      assert xs[keep[k]] == ys[k];
      StaleDropKeepsRun(xs, keep, k, now, minutes);
    }
    assert before == image;
    ImageCount(after, keep);
  }

  lemma FutureWithoutStale(
    xs: seq<TradeOutcome>, keep: seq<nat>, now: Timestamp, minutes: Float)
    requires Comparable(xs, now) && DropsOnlyStale(xs, keep, now, minutes)
    ensures Comparable(Selected(xs, keep), now)
    ensures FutureLoss(xs, now) == FutureLoss(Selected(xs, keep), now)
  {
    var ys := Selected(xs, keep);
    if FutureLoss(xs, now) {
      var i: nat :| i < |xs| && InTrailingRun(xs, i) && Since(now, xs[i].timestamp) < 0;
      assert i in keep;
      var k: nat :| k < |keep| && keep[k] == i;
      StaleDropKeepsRun(xs, keep, k, now, minutes);
    }
    if FutureLoss(ys, now) {
      var k: nat :| k < |ys| && InTrailingRun(ys, k) && Since(now, ys[k].timestamp) < 0;
      assert xs[keep[k]] == ys[k];
      StaleDropKeepsRun(xs, keep, k, now, minutes);
    }
  }

  lemma NewestIs(xs: seq<TradeOutcome>, o: TradeOutcome)
    requires Uniform(xs) && o in xs
    requires forall b | b in xs :: b.timestamp.us <= o.timestamp.us
    ensures Newest(xs) == o.timestamp
  {
  }

  /** The newest outcome is never stale, so it stays. */
  lemma NewestIsKept(xs: seq<TradeOutcome>, keep: seq<nat>, minutes: Float)
    requires xs != [] && Uniform(xs) && Comparable(xs, Newest(xs))
    requires DropsOnlyStale(xs, keep, Newest(xs), minutes)
    ensures Selected(xs, keep) != [] && Uniform(Selected(xs, keep))
    ensures Newest(Selected(xs, keep)) == Newest(xs)
  {
  }

  lemma RunVerdictWithoutStale(
    limit: int, minutes: Float, xs: seq<TradeOutcome>, keep: seq<nat>, now: Timestamp)
    requires Comparable(xs, now) && DropsOnlyStale(xs, keep, now, minutes)
    ensures Comparable(Selected(xs, keep), now)
    ensures RunVerdict(limit, minutes, xs, now)
         == RunVerdict(limit, minutes, Selected(xs, keep), now)
    ensures limit > 0 && Selected(xs, keep) == [] ==> RunVerdict(limit, minutes, xs, now).Pass?
  {
    CountWithoutStale(xs, keep, now, minutes);
    FutureWithoutStale(xs, keep, now, minutes);
    if Selected(xs, keep) == [] {
      assert RecentLosses([], now, minutes) == {};
    }
  }

  lemma ScanVerdictWithoutStale(
    limit: int, minutes: Float, xs: seq<TradeOutcome>, keep: seq<nat>, now: Option<Timestamp>)
    requires limit > 0 && xs != [] && Uniform(xs) && AllFinite(xs)
    requires Comparable(xs, Effective(xs, now))
    requires DropsOnlyStale(xs, keep, Effective(xs, now), minutes)
    ensures ScanVerdict(limit, minutes, xs, now)
         == if Selected(xs, keep) == [] then Pass
            else ScanVerdict(limit, minutes, Selected(xs, keep), now)
  {
    var ys := Selected(xs, keep);
    RunVerdictWithoutStale(limit, minutes, xs, keep, Effective(xs, now));
    assert xs[0] in xs;
    if now.None? {
      NewestIsKept(xs, keep, minutes);
    }
    if ys != [] {
      assert ys[0] in ys && ys[0] in xs;
    }
  }

  /** Any outcomes older than the window may be deleted from a valid list. */
  lemma StaleOutcomesAreIrrelevant(
    ctx: RiskContext, xs: seq<TradeOutcome>, keep: seq<nat>, now: Option<Timestamp>)
    requires xs != [] && Uniform(xs) && AllFinite(xs)
    requires Comparable(xs, Effective(xs, now))
    requires DropsOnlyStale(xs, keep, Effective(xs, now), ctx.consecutiveLossWindowMinutes)
    ensures ConsecutiveLossVerdict(ctx, Some(xs), now)
         == ConsecutiveLossVerdict(ctx, Some(Selected(xs, keep)), now)
  {
    if ctx.consecutiveLossLimit > 0 {
      ScanVerdictWithoutStale(
        ctx.consecutiveLossLimit, ctx.consecutiveLossWindowMinutes, xs, keep, now);
    }
  }

  lemma OlderKeepsRun(older: seq<TradeOutcome>, xs: seq<TradeOutcome>, k: nat)
    requires Uniform(older + xs) && Uniform(xs) && k < |xs|
    requires forall a, b | a in older && b in xs :: a.timestamp.us <= b.timestamp.us
    ensures InTrailingRun(older + xs, |older| + k) <==> InTrailingRun(xs, k)
  {
    var all, n := older + xs, |older|;
    if InTrailingRun(all, n + k) {
      forall j: nat | j < |xs| && !Loss(xs[j]) ensures After(xs, k, j) {
        assert After(all, n + k, n + j);
      }
    }
    if InTrailingRun(xs, k) {
      forall j: nat | j < |all| && !Loss(all[j]) ensures After(all, n + k, j) {
        if j < n {
          assert all[j] in older && all[n + k] in xs;
        } else {
          assert After(xs, k, j - n);
        }
      }
    }
  }

  lemma RecentLossesWithOlder(
    older: seq<TradeOutcome>, xs: seq<TradeOutcome>, now: Timestamp, minutes: Float)
    requires Comparable(older + xs, now) && Comparable(xs, now)
    requires forall a, b | a in older && b in xs :: a.timestamp.us <= b.timestamp.us
    ensures |RecentLosses(xs, now, minutes)| <= |RecentLosses(older + xs, now, minutes)|
  {
    var all := older + xs;
    var shift: seq<nat> := seq(|xs|, k => |older| + k);
    var more, few := RecentLosses(all, now, minutes), RecentLosses(xs, now, minutes);
    forall k | k in few ensures shift[k] in more {
      OlderKeepsRun(older, xs, k);
    }
    ImageCount(few, shift);
    SubsetCount(set k | k in few :: shift[k], more);
  }

  lemma FutureLossWithOlder(
    older: seq<TradeOutcome>, xs: seq<TradeOutcome>, now: Timestamp)
    requires Comparable(older + xs, now) && Comparable(xs, now)
    requires forall a, b | a in older && b in xs :: a.timestamp.us <= b.timestamp.us
    requires FutureLoss(xs, now)
    ensures FutureLoss(older + xs, now)
  {
    var k: nat :| k < |xs| && InTrailingRun(xs, k) && Since(now, xs[k].timestamp) < 0;
    OlderKeepsRun(older, xs, k);
    assert (older + xs)[|older| + k] == xs[k];
  }

  lemma RunVerdictWithOlder(
    limit: int, minutes: Float, older: seq<TradeOutcome>, xs: seq<TradeOutcome>, now: Timestamp)
    requires Comparable(older + xs, now) && Comparable(xs, now)
    requires forall a, b | a in older && b in xs :: a.timestamp.us <= b.timestamp.us
    requires RunVerdict(limit, minutes, xs, now).Reject?
    ensures RunVerdict(limit, minutes, older + xs, now).Reject?
  {
    RecentLossesWithOlder(older, xs, now, minutes);
    if FutureLoss(xs, now) {
      FutureLossWithOlder(older, xs, now);
    }
  }

  lemma NewestOutcome(xs: seq<TradeOutcome>) returns (o: TradeOutcome)
    requires xs != [] && Uniform(xs)
    ensures o in xs && o.timestamp == Newest(xs)
  {
    var t := Newest(xs);
    o :| o in xs && o.timestamp == t;
  }

  lemma NewestWithOlder(older: seq<TradeOutcome>, xs: seq<TradeOutcome>)
    requires xs != [] && Uniform(xs) && Uniform(older + xs)
    requires forall a, b | a in older && b in xs :: a.timestamp.us <= b.timestamp.us
    ensures Newest(older + xs) == Newest(xs)
  {
    var o := NewestOutcome(xs);
    forall b | b in older + xs ensures b.timestamp.us <= o.timestamp.us {
      if b in xs {
        assert Since(Newest(xs), b.timestamp) >= 0;
      }
    }
    NewestIs(older + xs, o);
  }

  lemma ScanVerdictWithOlder(
    limit: int, minutes: Float, older: seq<TradeOutcome>, xs: seq<TradeOutcome>,
    now: Option<Timestamp>)
    requires limit > 0 && xs != []
    requires forall a, b | a in older && b in xs :: a.timestamp.us <= b.timestamp.us
    requires Uniform(older + xs) && AllFinite(older + xs)
    requires ScanVerdict(limit, minutes, xs, now).Reject?
    ensures ScanVerdict(limit, minutes, older + xs, now).Reject?
  {
    var all := older + xs;
    assert xs[0] in all && all[0] in all;
    if now.None? || now.value.mode == all[0].timestamp.mode {
      assert Uniform(xs) by { assert forall o | o in xs :: o in all; }
      NewestWithOlder(older, xs);
      RunVerdictWithOlder(limit, minutes, older, xs, Effective(all, now));
    }
  }

  /** Learning of older outcomes never turns a rejection into an approval. */
  lemma OlderOutcomesNeverApprove(
    ctx: RiskContext, older: seq<TradeOutcome>, xs: seq<TradeOutcome>, now: Option<Timestamp>)
    requires forall a, b | a in older && b in xs :: a.timestamp.us <= b.timestamp.us
    requires ConsecutiveLossVerdict(ctx, Some(xs), now).Reject?
    ensures ConsecutiveLossVerdict(ctx, Some(older + xs), now).Reject?
  {
    if ctx.consecutiveLossLimit > 0 && !Less(ctx.consecutiveLossWindowMinutes, Fin(0.0))
       && xs != [] && Uniform(older + xs) && AllFinite(older + xs) {
      ScanVerdictWithOlder(
        ctx.consecutiveLossLimit, ctx.consecutiveLossWindowMinutes, older, xs, now);
    }
  }
}
