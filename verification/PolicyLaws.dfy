/** Monotonicity of the stateless chain, and how far exposure can grow over a session. */
module PolicyLaws {
  import opened Prelude
  import opened RealProducts
  import opened Floats
  import opened State
  import opened StatelessGates
  import opened LossScan
  import opened Engine

  // ----- Loosening the policy or the trade -----

  /** `b` is finite and at least `a`. */
  predicate Raised(a: Float, b: Float) {
    a.Fin? && b.Fin? && a.r <= b.r
  }

  /** `loose` asks for no more than `strict` does; a disabled loss limit asks for nothing. */
  predicate LooserPolicy(strict: RiskContext, loose: RiskContext) {
    && strict.Valid() && loose.Valid()
    && Raised(strict.maxDailyDrawdownPct, loose.maxDailyDrawdownPct)
    && Raised(strict.maxCorrelatedExposure, loose.maxCorrelatedExposure)
    && Raised(loose.minExpectedValue, strict.minExpectedValue)
    && strict.latencyBudgetUs <= loose.latencyBudgetUs
    && (loose.consecutiveLossLimit == 0
        || 0 < strict.consecutiveLossLimit <= loose.consecutiveLossLimit)
    && 0.0 <= loose.consecutiveLossWindowMinutes.r
    && Raised(loose.consecutiveLossWindowMinutes, strict.consecutiveLossWindowMinutes)
  }

  predicate LooserCap(strict: Option<ClusterCapContext>, loose: Option<ClusterCapContext>) {
    loose.Some? ==>
      && strict.Some?
      && strict.value.clusterId == loose.value.clusterId
      && Raised(loose.value.clusterOpenUsd, strict.value.clusterOpenUsd)
      && Raised(loose.value.proposedCost, strict.value.proposedCost)
      && Raised(strict.value.maxClusterUsd, loose.value.maxClusterUsd)
  }

  /** The same trade with better figures; more equity helps only a nonnegative drawdown limit. */
  ghost predicate SaferTrade(ctx: RiskContext, t: Trade, safer: Trade) {
    && Raised(t.dailyRealizedPnl, safer.dailyRealizedPnl)
    && Raised(t.equity, safer.equity)
    && (t.equity == safer.equity || !Less(ctx.maxDailyDrawdownPct, Fin(0.0)))
    && Raised(t.expectedValue, safer.expectedValue)
    && Raised(safer.proposedCost, t.proposedCost)
    && t.targetFamily == safer.targetFamily
    && FiniteExposure(safer.openPositions, t.targetFamily)
    && Exposure(safer.openPositions, t.targetFamily) <= Exposure(t.openPositions, t.targetFamily)
    && t.tradeOutcomes == safer.tradeOutcomes && t.currentTime == safer.currentTime
    && LooserCap(t.clusterCap, safer.clusterCap)
  }

  lemma DrawdownMonotone(strict: RiskContext, loose: RiskContext, t: Trade, safer: Trade)
    requires LooserPolicy(strict, loose) && SaferTrade(strict, t, safer)
    requires DrawdownVerdict(strict, t.dailyRealizedPnl, t.equity).Pass?
    ensures DrawdownVerdict(loose, safer.dailyRealizedPnl, safer.equity).Pass?
  {
  }

  lemma ShorterWindow(limit: int, limit': int, minutes: Float, minutes': Float,
                      xs: seq<TradeOutcome>, now: Clock.Timestamp)
    requires Comparable(xs, now) && Raised(minutes', minutes) && limit <= limit'
    requires RunVerdict(limit, minutes, xs, now).Pass?
    ensures RunVerdict(limit', minutes', xs, now).Pass?
  {
    SubsetCount(RecentLosses(xs, now, minutes'), RecentLosses(xs, now, minutes));
  }

  lemma ConsecutiveLossesMonotone(strict: RiskContext, loose: RiskContext, t: Trade)
    requires LooserPolicy(strict, loose)
    requires ConsecutiveLossVerdict(strict, t.tradeOutcomes, t.currentTime).Pass?
    ensures ConsecutiveLossVerdict(loose, t.tradeOutcomes, t.currentTime).Pass?
  {
    if loose.consecutiveLossLimit != 0 && t.tradeOutcomes.Some? && t.tradeOutcomes.value != [] {
      var xs := t.tradeOutcomes.value;
      assert xs[0] in xs;
      ShorterWindow(
        strict.consecutiveLossLimit, loose.consecutiveLossLimit,
        strict.consecutiveLossWindowMinutes, loose.consecutiveLossWindowMinutes,
        xs, Effective(xs, t.currentTime));
    }
  }

  lemma ClusterMonotone(t: Trade, safer: Trade)
    requires LooserCap(t.clusterCap, safer.clusterCap) && ClusterPasses(t)
    ensures ClusterPasses(safer)
  {
  }

  /** A trade approved under a policy stays approved when both are loosened together. */
  lemma ChainMonotone(
    strict: RiskContext, loose: RiskContext, t: Trade, safer: Trade, us: int, us': int)
    requires LooserPolicy(strict, loose) && SaferTrade(strict, t, safer) && us' <= us
    requires Approved(StatelessDecision(strict, t, us))
    ensures Approved(StatelessDecision(loose, safer, us'))
  {
    var gates := GateVerdicts(strict, t);
    assert gates[0].Pass? && gates[1].Pass? && gates[2].Pass? && gates[3].Pass?;
    DrawdownMonotone(strict, loose, t, safer);
    ConsecutiveLossesMonotone(strict, loose, t);
    ClusterMonotone(t, safer);
  }

  /** With a negative drawdown limit, more equity can turn an approval into a rejection. */
  lemma MoreEquityCanReject(ctx: RiskContext)
    requires ctx.maxDailyDrawdownPct == Fin(-0.1)
    ensures DrawdownVerdict(ctx, Fin(10.0), Fin(100.0)).Pass?
    ensures DrawdownVerdict(ctx, Fin(10.0), Fin(200.0)).Reject?
  {
  }

  /** Under a negative limit a day that passed fails at the equity where it earns one too little. */
  lemma EquityTooLarge(limit: real, pnl: real, equity: real) returns (more: real)
    requires limit < 0.0 && equity > 0.0 && pnl + limit * equity >= 0.0
    ensures more >= equity && pnl + limit * more < 0.0
  {
    var gap := -limit;
    more := equity + (pnl + limit * equity + 1.0) / gap;
    assert gap * ((pnl + limit * equity + 1.0) / gap) == pnl + limit * equity + 1.0;
  }

  lemma EnoughEquity(limit: real, pnl: real, equity: real, more: real)
    requires limit >= 0.0 && equity <= more && pnl + limit * equity >= 0.0
    ensures pnl + limit * more >= 0.0
  {
    ProductMonotone(equity, more, limit);
  }

  /** More equity keeps every approval exactly when the drawdown limit is not negative. */
  lemma EquityMonotoneIff(ctx: RiskContext, pnl: real, equity: real)
    requires ctx.maxDailyDrawdownPct.Fin?
    requires DrawdownVerdict(ctx, Fin(pnl), Fin(equity)).Pass?
    ensures (forall e: real | e >= equity :: DrawdownVerdict(ctx, Fin(pnl), Fin(e)).Pass?)
       <==> ctx.maxDailyDrawdownPct.r >= 0.0
  {
    var limit := ctx.maxDailyDrawdownPct.r;
    if limit >= 0.0 {
      forall e: real | e >= equity ensures DrawdownVerdict(ctx, Fin(pnl), Fin(e)).Pass? {
        EnoughEquity(limit, pnl, equity, e);
      }
    } else {
      var more := EquityTooLarge(limit, pnl, equity);
      assert DrawdownVerdict(ctx, Fin(pnl), Fin(more)).Reject?;
    }
  }

  /** The same of the whole chain: no other gate reads the equity. */
  lemma ChainEquityIff(ctx: RiskContext, t: Trade, us: int)
    requires Approved(StatelessDecision(ctx, t, us))
    ensures t.equity.Fin? && ctx.maxDailyDrawdownPct.Fin?
    ensures (forall e: real | e >= t.equity.r ::
               Approved(StatelessDecision(ctx, t.(equity := Fin(e)), us)))
       <==> ctx.maxDailyDrawdownPct.r >= 0.0
  {
    var gates := GateVerdicts(ctx, t);
    assert gates[0].Pass? && gates[1].Pass? && gates[2].Pass? && gates[3].Pass?;
    EquityMonotoneIff(ctx, t.dailyRealizedPnl.r, t.equity.r);
    forall e: real
      ensures Approved(StatelessDecision(ctx, t.(equity := Fin(e)), us))
         <==> DrawdownVerdict(ctx, t.dailyRealizedPnl, Fin(e)).Pass?
    {
      var other := GateVerdicts(ctx, t.(equity := Fin(e)));
      FirstOfFour(other[0], other[1], other[2], other[3]);
    }
  }

  // ----- Exposure over a session -----

  datatype Booking =
    | Take(trade: Trade, elapsedUs: int)
    | Resolve(index: nat)

  function Settle(book: seq<Position>, index: nat): seq<Position>
    requires index < |book|
  {
    book[index := book[index].(isResolved := true)]
  }

  /** An approved trade is booked at its cost; resolving may name any position. */
  ghost function Book(ctx: RiskContext, book: seq<Position>, op: Booking): seq<Position> {
    match op
    case Take(t, us) =>
      if Approved(StatelessDecision(ctx, t.(openPositions := book), us)) then
        book + [Position("", t.targetFamily, t.proposedCost, t.proposedCost, false)]
      else book
    case Resolve(i) => if i < |book| then Settle(book, i) else book
  }

  ghost function Session(ctx: RiskContext, book: seq<Position>, ops: seq<Booking>)
    : seq<Position>
  {
    if ops == [] then book
    else Book(ctx, Session(ctx, book, ops[..|ops| - 1]), ops[|ops| - 1])
  }

  predicate NoNegativeCost(book: seq<Position>) {
    forall i | 0 <= i < |book| :: book[i].costBasis.Fin? && book[i].costBasis.r >= 0.0
  }

  predicate NoNegativeTrade(ops: seq<Booking>) {
    forall op | op in ops :: op.Take? ==> !Less(op.trade.proposedCost, Fin(0.0))
  }

  lemma {:induction false} SettleLowersExposure(
    book: seq<Position>, index: nat, family: string)
    requires NoNegativeCost(book) && index < |book|
    ensures NoNegativeCost(Settle(book, index))
    ensures Exposure(Settle(book, index), family) <= Exposure(book, family)
  {
    var n := |book| - 1;
    var settled := Settle(book, index);
    if index < n {
      assert settled[..n] == Settle(book[..n], index);
      SettleLowersExposure(book[..n], index, family);
    } else {
      assert settled[..n] == book[..n];
    }
  }

  /** One booking keeps every family at or below the cap, or below where it was. */
  lemma BookWithinCap(ctx: RiskContext, book: seq<Position>, op: Booking, family: string)
    requires ctx.maxCorrelatedExposure.Fin? && NoNegativeCost(book) && NoNegativeTrade([op])
    ensures NoNegativeCost(Book(ctx, book, op))
    ensures Exposure(Book(ctx, book, op), family)
         <= Max(ctx.maxCorrelatedExposure.r, Exposure(book, family))
  {
    match op
    case Take(t, us) =>
      assert op in [op];
      var here := t.(openPositions := book);
      if Approved(StatelessDecision(ctx, here, us)) {
        var p := Position("", t.targetFamily, t.proposedCost, t.proposedCost, false);
        assert GateVerdicts(ctx, here)[3].Pass?;
        assert (book + [p])[..|book + [p]| - 1] == book;
      }
    case Resolve(i) =>
      if i < |book| {
        SettleLowersExposure(book, i, family);
      }
  }

  /** No session takes a family past the larger of its cap and where it began. */
  lemma {:induction false} ExposureSafety(
    ctx: RiskContext, book: seq<Position>, ops: seq<Booking>, family: string)
    requires ctx.maxCorrelatedExposure.Fin? && NoNegativeCost(book) && NoNegativeTrade(ops)
    ensures NoNegativeCost(Session(ctx, book, ops))
    ensures Exposure(Session(ctx, book, ops), family)
         <= Max(ctx.maxCorrelatedExposure.r, Exposure(book, family))
  {
    if ops != [] {
      var before, op := ops[..|ops| - 1], ops[|ops| - 1];
      assert op in ops && forall o | o in before :: o in ops;
      ExposureSafety(ctx, book, before, family);
      BookWithinCap(ctx, Session(ctx, book, before), op, family);
    }
  }

  // ----- Costs of any sign -----

  /** What the family would have at risk if only its positive costs were left. */
  ghost function GrossExposure(book: seq<Position>, family: string): real {
    if book == [] then 0.0
    else
      var p := book[|book| - 1];
      GrossExposure(book[..|book| - 1], family)
      + if Unresolved(p, family) && p.costBasis.Fin? then Max(0.0, p.costBasis.r) else 0.0
  }

  lemma {:induction false} ExposureWithinGross(book: seq<Position>, family: string)
    ensures Exposure(book, family) <= GrossExposure(book, family)
  {
    if book != [] {
      ExposureWithinGross(book[..|book| - 1], family);
    }
  }

  lemma {:induction false} SettleLowersGross(book: seq<Position>, index: nat, family: string)
    requires index < |book|
    ensures GrossExposure(Settle(book, index), family) <= GrossExposure(book, family)
  {
    var n := |book| - 1;
    var settled := Settle(book, index);
    if index < n {
      assert settled[..n] == Settle(book[..n], index);
      SettleLowersGross(book[..n], index, family);
    } else {
      assert settled[..n] == book[..n];
    }
  }

  predicate OnlyResolves(ops: seq<Booking>) {
    forall i | 0 <= i < |ops| :: ops[i].Resolve?
  }

  lemma {:induction false} ResolvesLowerGross(
    ctx: RiskContext, book: seq<Position>, ops: seq<Booking>, family: string)
    requires OnlyResolves(ops)
    ensures GrossExposure(Session(ctx, book, ops), family) <= GrossExposure(book, family)
  {
    if ops != [] {
      var before, op := ops[..|ops| - 1], ops[|ops| - 1];
      ResolvesLowerGross(ctx, book, before, family);
      var now := Session(ctx, book, before);
      if op.index < |now| {
        SettleLowersGross(now, op.index, family);
      }
    }
  }

  /** Resolves every position among the first `k` whose cost is negative. */
  function ResolveNegatives(book: seq<Position>, k: nat): (ops: seq<Booking>)
    requires k <= |book|
    ensures OnlyResolves(ops)
  {
    if k == 0 then []
    else
      ResolveNegatives(book, k - 1)
      + if Less(book[k - 1].costBasis, Fin(0.0)) then [Resolve(k - 1)] else []
  }

  ghost function NegativesSettled(book: seq<Position>, k: nat): seq<Position> {
    seq(|book|, i requires 0 <= i < |book| =>
      if i < k && Less(book[i].costBasis, Fin(0.0)) then book[i].(isResolved := true) else book[i])
  }

  lemma SessionAppend(ctx: RiskContext, book: seq<Position>, ops: seq<Booking>, op: Booking)
    ensures Session(ctx, book, ops + [op]) == Book(ctx, Session(ctx, book, ops), op)
  {
    assert (ops + [op])[..|ops + [op]| - 1] == ops;
  }

  lemma NegativesStep(book: seq<Position>, k: nat)
    requires 0 < k <= |book|
    ensures NegativesSettled(book, k)
         == if Less(book[k - 1].costBasis, Fin(0.0)) then Settle(NegativesSettled(book, k - 1), k - 1)
            else NegativesSettled(book, k - 1)
  {
  }

  lemma {:induction false} ResolveNegativesSettles(ctx: RiskContext, book: seq<Position>, k: nat)
    requires k <= |book|
    ensures Session(ctx, book, ResolveNegatives(book, k)) == NegativesSettled(book, k)
  {
    if k == 0 {
      assert NegativesSettled(book, 0) == book;
    } else {
      var before := ResolveNegatives(book, k - 1);
      ResolveNegativesSettles(ctx, book, k - 1);
      NegativesStep(book, k);
      if Less(book[k - 1].costBasis, Fin(0.0)) {
        SessionAppend(ctx, book, before, Resolve(k - 1));
      } else {
        assert before + [] == before;
      }
    }
  }

  lemma {:induction false} GrossIsReached(book: seq<Position>, k: nat, family: string)
    requires |book| <= k
    ensures Exposure(NegativesSettled(book, k), family) == GrossExposure(book, family)
  {
    if book != [] {
      var n := |book| - 1;
      GrossIsReached(book[..n], k, family);
      assert NegativesSettled(book, k)[..n] == NegativesSettled(book[..n], k);
    }
  }

  /** Whatever is resolved next, the family stays within a cap iff its positive costs do. */
  lemma SafeUnderResolutionIff(
    ctx: RiskContext, book: seq<Position>, family: string, cap: real)
    ensures (forall ops | OnlyResolves(ops) :: Exposure(Session(ctx, book, ops), family) <= cap)
       <==> GrossExposure(book, family) <= cap
  {
    forall ops | OnlyResolves(ops)
      ensures Exposure(Session(ctx, book, ops), family) <= GrossExposure(book, family)
    {
      ExposureWithinGross(Session(ctx, book, ops), family);
      ResolvesLowerGross(ctx, book, ops, family);
    }
    ResolveNegativesSettles(ctx, book, |book|);
    GrossIsReached(book, |book|, family);
    assert OnlyResolves(ResolveNegatives(book, |book|));
  }

  /** An approval keeps its family within the cap for good iff the positive costs fit, its own too. */
  lemma ApprovalSafeIff(ctx: RiskContext, book: seq<Position>, t: Trade, us: int)
    requires Approved(StatelessDecision(ctx, t.(openPositions := book), us))
    ensures ctx.maxCorrelatedExposure.Fin? && t.proposedCost.Fin?
    ensures var after := Book(ctx, book, Take(t, us));
            (forall ops | OnlyResolves(ops) ::
               Exposure(Session(ctx, after, ops), t.targetFamily) <= ctx.maxCorrelatedExposure.r)
            <==> GrossExposure(book, t.targetFamily) + Max(0.0, t.proposedCost.r)
                 <= ctx.maxCorrelatedExposure.r
  {
    assert GateVerdicts(ctx, t.(openPositions := book))[3].Pass?;
    var after := Book(ctx, book, Take(t, us));
    assert after[..|after| - 1] == book;
    SafeUnderResolutionIff(ctx, after, t.targetFamily, ctx.maxCorrelatedExposure.r);
  }

  /** The booking leaves room for the family's positive costs, if it is an approval for it at all. */
  ghost predicate FitsGross(ctx: RiskContext, book: seq<Position>, op: Booking, family: string)
    requires ctx.maxCorrelatedExposure.Fin?
  {
    op.Take? && op.trade.targetFamily == family && op.trade.proposedCost.Fin?
    && Approved(StatelessDecision(ctx, op.trade.(openPositions := book), op.elapsedUs)) ==>
      GrossExposure(book, family) + Max(0.0, op.trade.proposedCost.r)
      <= ctx.maxCorrelatedExposure.r
  }

  ghost predicate AllFitGross(
    ctx: RiskContext, book: seq<Position>, ops: seq<Booking>, family: string)
    requires ctx.maxCorrelatedExposure.Fin?
  {
    ops == []
    || (AllFitGross(ctx, book, ops[..|ops| - 1], family)
        && FitsGross(ctx, Session(ctx, book, ops[..|ops| - 1]), ops[|ops| - 1], family))
  }

  /** With costs of any sign, a session whose approvals all leave that room respects the cap. */
  lemma {:induction false} GrossSafety(
    ctx: RiskContext, book: seq<Position>, ops: seq<Booking>, family: string)
    requires ctx.maxCorrelatedExposure.Fin? && AllFitGross(ctx, book, ops, family)
    ensures Exposure(Session(ctx, book, ops), family)
         <= GrossExposure(Session(ctx, book, ops), family)
         <= Max(ctx.maxCorrelatedExposure.r, GrossExposure(book, family))
  {
    ExposureWithinGross(Session(ctx, book, ops), family);
    if ops != [] {
      var before, op := ops[..|ops| - 1], ops[|ops| - 1];
      GrossSafety(ctx, book, before, family);
      BookWithinGross(ctx, Session(ctx, book, before), op, family);
    }
  }

  lemma BookWithinGross(ctx: RiskContext, book: seq<Position>, op: Booking, family: string)
    requires ctx.maxCorrelatedExposure.Fin? && FitsGross(ctx, book, op, family)
    ensures GrossExposure(Book(ctx, book, op), family)
         <= Max(ctx.maxCorrelatedExposure.r, GrossExposure(book, family))
  {
    match op
    case Take(t, us) =>
      if Approved(StatelessDecision(ctx, t.(openPositions := book), us)) {
        var after := Book(ctx, book, op);
        assert after[..|after| - 1] == book;
      }
    case Resolve(i) =>
      if i < |book| {
        SettleLowersGross(book, i, family);
      }
  }

  const CAP_OF_100 := RiskContext(Fin(0.1), Fin(0.2), Fin(100.0), Fin(0.0), 500, 0, Fin(15.0))

  function SampleTrade(cost: real): Trade {
    Trade(Fin(0.0), Fin(1000.0), "F", Fin(cost), [], Fin(1.0), None, None, None)
  }

  /** A trade of negative cost makes room that resolving it takes away again. */
  lemma NegativeCostBreaksCap()
    ensures var ctx := CAP_OF_100;
            var first := Book(ctx, [], Take(SampleTrade(-50.0), 0));
            var second := Book(ctx, first, Take(SampleTrade(150.0), 0));
            && |first| == 1 && |second| == 2
            && Exposure(second, "F") == 100.0
            && Exposure(Book(ctx, second, Resolve(0)), "F") == 150.0
  {
    var ctx := CAP_OF_100;
    var a, b := SampleTrade(-50.0), SampleTrade(150.0);
    var p := Position("", "F", Fin(-50.0), Fin(-50.0), false);
    var q := Position("", "F", Fin(150.0), Fin(150.0), false);
    assert Approved(StatelessDecision(ctx, a.(openPositions := []), 0));
    assert Book(ctx, [], Take(a, 0)) == [p];
    assert Exposure([p], "F") == -50.0;
    assert Approved(StatelessDecision(ctx, b.(openPositions := [p]), 0));
    assert Book(ctx, [p], Take(b, 0)) == [p, q];
    assert [p, q][..1] == [p];
    var settled := Settle([p, q], 0);
    assert settled == [p.(isResolved := true), q] && settled[..1] == [p.(isResolved := true)];
    assert Exposure(settled[..1], "F") == 0.0;
  }

  // ----- A cluster over a session -----

  datatype ClusterOp = Open(cost: real) | Close(usd: real)

  /** A known cluster's open dollars after one approval or close. */
  ghost function ClusterStep(id: string, cap: real, open: real, op: ClusterOp): real {
    match op
    case Open(cost) =>
      if Approved(ClusterDecision(ClusterCapContext(id, Fin(open), Fin(cost), Fin(cap))))
      then open + cost else open
    case Close(usd) => open - usd
  }

  ghost function ClusterOpen(id: string, cap: real, open: real, ops: seq<ClusterOp>): real {
    if ops == [] then open
    else ClusterStep(id, cap, ClusterOpen(id, cap, open, ops[..|ops| - 1]), ops[|ops| - 1])
  }

  /** No session takes a known cluster past the larger of its cap and where it began. */
  lemma {:induction false} ClusterSafety(id: string, cap: real, open: real, ops: seq<ClusterOp>)
    requires id != UNKNOWN_CLUSTER
    requires forall i | 0 <= i < |ops| :: ops[i].Close? ==> ops[i].usd >= 0.0
    ensures ClusterOpen(id, cap, open, ops) <= Max(cap, open)
  {
    if ops != [] {
      ClusterSafety(id, cap, open, ops[..|ops| - 1]);
    }
  }
}
