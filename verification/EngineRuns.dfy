/** Whole runs of an authority: decisions, recovery after a crash, and the callback's trace. */
module EngineRuns {
  import opened Prelude
  import opened Floats
  import opened Clock
  import opened State
  import opened GateMachines
  import opened StatelessGates
  import opened Engine
  import GateRuns

  // ----- One evaluation -----

  /** Everything that must hold for a trade to proceed. */
  ghost predicate MayProceed(s: AuthorityState, ctx: RiskContext, t: Trade, elapsedUs: int) {
    && t.proposedCost.Fin?
    && KillPart(s.gates).Pass?
    && BreakerPart(s.gates, t.currentTime).Pass?
    && LossGatePart(s.gates).Pass?
    && (forall i | 0 <= i < 4 :: GateVerdicts(ctx, t)[i].Pass?)
    && ClusterPasses(t)
    && elapsedUs <= ctx.latencyBudgetUs
  }

  /** Approval needs every gate; a rejection names the first desk gate, then the first pure one. */
  lemma ApprovedIffAllPass(s: AuthorityState, ctx: RiskContext, t: Trade, elapsedUs: int)
    ensures var r := Evaluate(s, ctx, t, elapsedUs).result;
            && (Approved(r) <==> MayProceed(s, ctx, t, elapsedUs))
            && (r.Success? ==> r.value.size == t.proposedCost.r)
            && (r.Success? && r.value.approved ==> r.value.reason == Okay)
            && (r.Success? && StatefulVerdict(s.gates, t.currentTime).Reject? ==>
                  !r.value.approved
                  && r.value.reason == StatefulVerdict(s.gates, t.currentTime).reason)
            && (r.Success? && StatefulVerdict(s.gates, t.currentTime).Pass?
                && FirstReject(GateVerdicts(ctx, t)).Reject? ==>
                  !r.value.approved && r.value.reason == FirstReject(GateVerdicts(ctx, t)).reason)
    ensures StatefulVerdict(s.gates, t.currentTime)
         == if KillPart(s.gates).Reject? then KillPart(s.gates)
            else if BreakerPart(s.gates, t.currentTime).Reject? then
              BreakerPart(s.gates, t.currentTime)
            else LossGatePart(s.gates)
  {
    FirstOfThree(KillPart(s.gates), BreakerPart(s.gates, t.currentTime), LossGatePart(s.gates));
  }

  /** A tripped kill switch shields the other two gates from the check. */
  lemma KillSwitchShields(s: AuthorityState, ctx: RiskContext, t: Trade, elapsedUs: int)
    requires s.gates.killSwitch.Some? && s.gates.killSwitch.value.tripped
    ensures Evaluate(s, ctx, t, elapsedUs).state.gates == s.gates
    ensures !Approved(Evaluate(s, ctx, t, elapsedUs).result)
  {
    ApprovedIffAllPass(s, ctx, t, elapsedUs);
  }

  lemma CheckTwice(g: Gates, now: Option<Timestamp>)
    ensures AfterCheck(AfterCheck(g, now), now) == AfterCheck(g, now)
    ensures StatefulVerdict(AfterCheck(g, now), now) == StatefulVerdict(g, now)
  {
    var g' := AfterCheck(g, now);
    FirstOfThree(KillPart(g), BreakerPart(g, now), LossGatePart(g));
    FirstOfThree(KillPart(g'), BreakerPart(g', now), LossGatePart(g'));
  }

  /** Asking again at once gives the same answer, changes nothing and calls nobody. */
  lemma EvaluateIdempotent(s: AuthorityState, ctx: RiskContext, t: Trade, elapsedUs: int)
    ensures var once := Evaluate(s, ctx, t, elapsedUs);
            var again := Evaluate(once.state, ctx, t, elapsedUs);
            again == Evaluation(once.state, once.result, [])
  {
    CheckTwice(s.gates, t.currentTime);
  }

  // ----- Runs -----

  datatype Op =
    | TripKill(at: Option<Timestamp>)
    | ResetKill
    | ResetBreaker
    | ResetLossGate
    | Record(pnl: Number, at: Option<Timestamp>)
    | Propose(ctx: RiskContext, trade: Trade, elapsedUs: int)

  /** The gates after an operation that is not an evaluation; an absent gate stays absent. */
  function Operated(g: Gates, op: Op): Gates
    requires g.Valid() && !op.Propose?
  {
    match op
    case TripKill(at) =>
      if g.killSwitch.None? then g
      else g.(killSwitch := Some(KillTrip(g.killSwitch.value, at)))
    case ResetKill =>
      if g.killSwitch.None? then g
      else g.(killSwitch := Some(KillReset(g.killSwitch.value)))
    case ResetBreaker =>
      if g.timedBreaker.None? then g
      else g.(timedBreaker := Some(BreakerReset(g.timedBreaker.value)))
    case ResetLossGate =>
      if g.lossGate.None? then g
      else g.(lossGate := Some(LossGateReset(g.lossGate.value)))
    case Record(pnl, at) => AfterRecord(g, pnl, at)
  }

  ghost function After(s: AuthorityState, op: Op): (r: AuthorityState)
    requires s.gates.Valid()
    ensures r.gates.Valid() && r.armed == s.armed
  {
    if op.Propose? then Evaluate(s, op.ctx, op.trade, op.elapsedUs).state
    else s.(gates := Operated(s.gates, op))
  }

  /** What the operation makes the callback hear. */
  ghost function Fired(s: AuthorityState, op: Op): seq<Decision> {
    if op.Propose? then Evaluate(s, op.ctx, op.trade, op.elapsedUs).fired else []
  }

  /** What the operation returns, if it is an evaluation. */
  ghost function Returned(s: AuthorityState, op: Op): seq<Result<Decision, Error>> {
    if op.Propose? then [Evaluate(s, op.ctx, op.trade, op.elapsedUs).result] else []
  }

  /** The rejection by a desk gate that this operation meets, if any. */
  ghost function DeskRejection(g: Gates, op: Op): seq<Decision> {
    if op.Propose? && op.trade.proposedCost.Fin?
       && StatefulVerdict(g, op.trade.currentTime).Reject? then
      [Decision(false, StatefulVerdict(g, op.trade.currentTime).reason, op.trade.proposedCost.r)]
    else []
  }

  /** Every operation keeps the gates valid, so a snapshot can be taken at any time. */
  ghost function Run(s: AuthorityState, ops: seq<Op>): (r: AuthorityState)
    requires s.gates.Valid()
    ensures r.gates.Valid() && r.armed == s.armed
  {
    if ops == [] then s else After(Run(s, ops[..|ops| - 1]), ops[|ops| - 1])
  }

  /** What the evaluations of a run returned. */
  ghost function Results(s: AuthorityState, ops: seq<Op>): seq<Result<Decision, Error>>
    requires s.gates.Valid()
  {
    if ops == [] then []
    else
      var before, op := ops[..|ops| - 1], ops[|ops| - 1];
      Results(s, before) + Returned(Run(s, before), op)
  }

  /** What the callback was called with. */
  ghost function Calls(s: AuthorityState, ops: seq<Op>): seq<Decision>
    requires s.gates.Valid()
  {
    if ops == [] then []
    else
      var before, op := ops[..|ops| - 1], ops[|ops| - 1];
      Calls(s, before) + Fired(Run(s, before), op)
  }

  /** All rejections by desk gates, repeated or not. */
  ghost function DeskRejections(s: AuthorityState, ops: seq<Op>): seq<Decision>
    requires s.gates.Valid()
  {
    if ops == [] then []
    else
      var before, op := ops[..|ops| - 1], ops[|ops| - 1];
      DeskRejections(s, before) + DeskRejection(Run(s, before).gates, op)
  }

  // ----- Crash recovery -----

  lemma SameGatesSameStep(s: AuthorityState, r: AuthorityState, op: Op)
    requires s.gates == r.gates && s.gates.Valid()
    ensures After(s, op).gates == After(r, op).gates
    ensures Returned(s, op) == Returned(r, op)
  {
  }

  /** Authorities with equal gates decide alike for ever, whatever they last reported. */
  lemma {:induction false} SameGatesSameDecisions(
    s: AuthorityState, r: AuthorityState, ops: seq<Op>)
    requires s.gates == r.gates && s.gates.Valid()
    ensures Run(s, ops).gates == Run(r, ops).gates
    ensures Results(s, ops) == Results(r, ops)
    ensures DeskRejections(s, ops) == DeskRejections(r, ops)
  {
    if ops != [] {
      var before := ops[..|ops| - 1];
      SameGatesSameDecisions(s, r, before);
      SameGatesSameStep(Run(s, before), Run(r, before), ops[|ops| - 1]);
    }
  }

  /** The snapshot an authority in state `s` would take. */
  function SnapshotOf(s: AuthorityState, ctx: RiskContext): RiskState {
    RiskState(RISK_STATE_SCHEMA_VERSION, ctx,
              s.gates.killSwitch, s.gates.timedBreaker, s.gates.lossGate)
  }

  /** Rebuilding after any run and going on from there decides as if nothing had happened. */
  lemma CrashRecovery(
    s: AuthorityState, ops: seq<Op>, ctx: RiskContext, armed: bool, later: seq<Op>)
    requires s.gates.Valid() && ctx.Valid()
    ensures SnapshotOf(Run(s, ops), ctx).Valid()
    ensures Restored(SnapshotOf(Run(s, ops), ctx), armed).gates.Valid()
    ensures Results(Restored(SnapshotOf(Run(s, ops), ctx), armed), later)
         == Results(Run(s, ops), later)
    ensures Run(Restored(SnapshotOf(Run(s, ops), ctx), armed), later).gates
         == Run(Run(s, ops), later).gates
  {
    SameGatesSameDecisions(
      Run(s, ops), Restored(SnapshotOf(Run(s, ops), ctx), armed), later);
  }

  // ----- The callback's trace -----

  /** The reason that precedes the last of `ds`, starting from `last`. */
  ghost function Previous(last: Option<Reason>, ds: seq<Decision>): Option<Reason>
    requires ds != []
  {
    if |ds| == 1 then last else Some(ds[|ds| - 2].reason)
  }

  /** `ds` without those that repeat the reason just before them. */
  ghost function Collapse(last: Option<Reason>, ds: seq<Decision>): seq<Decision> {
    if ds == [] then []
    else
      var d := ds[|ds| - 1];
      Collapse(last, ds[..|ds| - 1])
      + if Previous(last, ds) == Some(d.reason) then [] else [d]
  }

  /** One step's call and what it remembers, in terms of the desk rejection it meets. */
  lemma StepTrace(s: AuthorityState, op: Op)
    requires s.gates.Valid()
    ensures var met := DeskRejection(s.gates, op);
            && Fired(s, op) == (if s.armed then Collapse(s.lastTrip, met) else [])
            && After(s, op).lastTrip
               == (if s.armed && met != [] then Some(met[0].reason) else s.lastTrip)
  {
  }

  lemma {:induction false} LastTripIsLastRejection(s: AuthorityState, ops: seq<Op>)
    requires s.gates.Valid() && s.armed
    ensures var ds := DeskRejections(s, ops);
            Run(s, ops).lastTrip == if ds == [] then s.lastTrip else Some(ds[|ds| - 1].reason)
  {
    if ops != [] {
      var before := ops[..|ops| - 1];
      LastTripIsLastRejection(s, before);
      StepTrace(Run(s, before), ops[|ops| - 1]);
    }
  }

  /** Collapsing goes on where the first part ended. */
  lemma CollapseAppend(last: Option<Reason>, ds: seq<Decision>, met: seq<Decision>)
    requires |met| <= 1
    ensures Collapse(last, ds + met)
         == Collapse(last, ds)
            + Collapse(if ds == [] then last else Some(ds[|ds| - 1].reason), met)
  {
    if met == [] {
      assert ds + met == ds;
    } else {
      assert met[..0] == [];
      assert (ds + met)[..|ds + met| - 1] == ds;
    }
  }

  /** The calls are the desk rejections with immediate repeats collapsed, and nothing else. */
  lemma {:induction false} CallTrace(s: AuthorityState, ops: seq<Op>)
    requires s.gates.Valid()
    ensures Calls(s, ops)
         == if s.armed then Collapse(s.lastTrip, DeskRejections(s, ops)) else []
  {
    if ops != [] {
      var before, op := ops[..|ops| - 1], ops[|ops| - 1];
      CallTrace(s, before);
      StepTrace(Run(s, before), op);
      if s.armed {
        LastTripIsLastRejection(s, before);
        CollapseAppend(
          s.lastTrip, DeskRejections(s, before), DeskRejection(Run(s, before).gates, op));
      }
    }
  }

  /** A rejection is reported exactly when the one before it, if any, had another reason. */
  lemma RejectionFiresIff(s: AuthorityState, ops: seq<Op>, op: Op)
    requires s.gates.Valid() && s.armed && s.lastTrip == None
    requires DeskRejection(Run(s, ops).gates, op) != []
    ensures var ds, d := DeskRejections(s, ops), DeskRejection(Run(s, ops).gates, op)[0];
            Fired(Run(s, ops), op)
            == if ds != [] && ds[|ds| - 1].reason == d.reason then [] else [d]
  {
    StepTrace(Run(s, ops), op);
    LastTripIsLastRejection(s, ops);
    var met := DeskRejection(Run(s, ops).gates, op);
    assert met[..0] == [];
  }

  /** The starting reason can only suppress the first call. */
  lemma {:induction false} CollapseFrom(last: Option<Reason>, ds: seq<Decision>)
    ensures Collapse(None, ds)
         == (if ds != [] && last == Some(ds[0].reason) then [ds[0]] else []) + Collapse(last, ds)
  {
    if |ds| > 1 {
      CollapseFrom(last, ds[..|ds| - 1]);
    } else if |ds| == 1 {
      assert ds[..0] == [];
      assert Collapse(None, ds) == [ds[0]];
    }
  }

  /** A rebuilt authority calls back as the original would, but may repeat the last report. */
  lemma CallsAfterRecovery(s: AuthorityState, ctx: RiskContext, later: seq<Op>)
    requires s.gates.Valid() && ctx.Valid() && s.armed
    ensures var ds := DeskRejections(s, later);
            Calls(Restored(SnapshotOf(s, ctx), true), later)
            == (if ds != [] && s.lastTrip == Some(ds[0].reason) then [ds[0]] else [])
               + Calls(s, later)
  {
    var r := Restored(SnapshotOf(s, ctx), true);
    SameGatesSameDecisions(s, r, later);
    CallTrace(s, later);
    CallTrace(r, later);
    CollapseFrom(s.lastTrip, DeskRejections(s, later));
  }

  /** No two calls carry the same reason. */
  ghost predicate OncePerReason(ds: seq<Decision>) {
    forall i, j | 0 <= i < j < |ds| :: ds[i].reason != ds[j].reason
  }

  /** No reason comes back after a different one. */
  ghost predicate NoReasonReturns(ds: seq<Decision>) {
    forall i, j, k | 0 <= i < j < k < |ds| && ds[i].reason == ds[k].reason ::
      ds[j].reason == ds[i].reason
  }

  ghost predicate Mentions(ds: seq<Decision>, reason: Reason) {
    exists i :: 0 <= i < |ds| && ds[i].reason == reason
  }

  lemma MentionsAppend(ds: seq<Decision>, d: Decision, reason: Reason)
    ensures Mentions(ds + [d], reason) <==> Mentions(ds, reason) || d.reason == reason
  {
    var all := ds + [d];
    if Mentions(ds, reason) {
      var i :| 0 <= i < |ds| && ds[i].reason == reason;
      assert all[i].reason == reason;
    }
    if d.reason == reason {
      assert all[|ds|].reason == reason;
    }
  }

  lemma {:induction false} CollapseKeepsReasons(ds: seq<Decision>, reason: Reason)
    ensures Mentions(Collapse(None, ds), reason) <==> Mentions(ds, reason)
  {
    if ds != [] {
      var n := |ds| - 1;
      var before := ds[..n];
      CollapseKeepsReasons(before, reason);
      assert ds == before + [ds[n]];
      MentionsAppend(before, ds[n], reason);
      if Previous(None, ds) == Some(ds[n].reason) {
        assert Collapse(None, before) + [] == Collapse(None, before);
        assert before[n - 1].reason == ds[n].reason;
      } else {
        MentionsAppend(Collapse(None, before), ds[n], reason);
      }
    }
  }

  /** One call per distinct reason, as documented, holds exactly when no reason returns. */
  lemma {:induction false} OncePerReasonIff(ds: seq<Decision>)
    ensures OncePerReason(Collapse(None, ds)) <==> NoReasonReturns(ds)
  {
    if ds != [] {
      var n := |ds| - 1;
      var d, before := ds[n], ds[..n];
      OncePerReasonIff(before);
      var c := Collapse(None, before);
      if Previous(None, ds) == Some(d.reason) {
        RepeatReturnsNothing(ds);
        assert c + [] == c;
      } else {
        CollapseKeepsReasons(before, d.reason);
        AppendOnce(c, d);
        NewReasonReturns(ds);
      }
    }
  }

  lemma AppendOnce(c: seq<Decision>, d: Decision)
    ensures OncePerReason(c + [d]) <==> OncePerReason(c) && !Mentions(c, d.reason)
  {
    var all := c + [d];
    assert forall i | 0 <= i < |c| :: all[i] == c[i];
    assert all[|c|] == d;
    if OncePerReason(c) && !Mentions(c, d.reason) {
      forall i, j | 0 <= i < j < |all| ensures all[i].reason != all[j].reason {
        assert all[i] == c[i];
      }
    }
  }

  lemma RepeatReturnsNothing(ds: seq<Decision>)
    requires |ds| > 1 && ds[|ds| - 1].reason == ds[|ds| - 2].reason
    ensures NoReasonReturns(ds) <==> NoReasonReturns(ds[..|ds| - 1])
  {
  }

  lemma NewReasonReturns(ds: seq<Decision>)
    requires ds != [] && Previous(None, ds) != Some(ds[|ds| - 1].reason)
    ensures var n := |ds| - 1;
            NoReasonReturns(ds) <==>
            NoReasonReturns(ds[..n]) && !Mentions(ds[..n], ds[n].reason)
  {
  }

  /** The documented promise on whole runs of a fresh authority, with its exact condition. */
  lemma FiresOncePerReasonIff(s: AuthorityState, ops: seq<Op>)
    requires s.gates.Valid() && s.armed && s.lastTrip == None
    ensures OncePerReason(Calls(s, ops)) <==> NoReasonReturns(DeskRejections(s, ops))
  {
    CallTrace(s, ops);
    OncePerReasonIff(DeskRejections(s, ops));
  }

  /** A proposal that a desk gate rejects without changing any gate. */
  lemma Halted(s: AuthorityState, p: Op, reason: Reason)
    requires s.gates.Valid() && p.Propose? && p.trade.proposedCost.Fin?
    requires StatefulVerdict(s.gates, p.trade.currentTime) == Reject(reason)
    requires AfterCheck(s.gates, p.trade.currentTime) == s.gates
    ensures DeskRejection(s.gates, p) == [Decision(false, reason, p.trade.proposedCost.r)]
    ensures After(s, p).gates == s.gates
  {
  }

  /** One reason can be reported twice: another gate's report in between is enough. */
  lemma ReasonCanFireTwice(ctx: RiskContext, t: Trade)
    requires t.proposedCost.Fin?
    ensures var b := TimedCircuitBreakerState(1, 1.0, 1, true, None);
            var g := Gates(Some(KillSwitchState(true, KillSwitchManual, None)), Some(b), None);
            var s := AuthorityState(g, true, None);
            var p := Propose(ctx, t, 0);
            !OncePerReason(Calls(s, [p, ResetKill, p, TripKill(None), p]))
  {
    var b := TimedCircuitBreakerState(1, 1.0, 1, true, None);
    var g := Gates(Some(KillSwitchState(true, KillSwitchManual, None)), Some(b), None);
    var open := g.(killSwitch := Some(KillSwitchState(false, KillSwitchManual, None)));
    var s := AuthorityState(g, true, None);
    var p := Propose(ctx, t, 0);
    var kill := [Decision(false, KillSwitchManual, t.proposedCost.r)];
    var halt := [Decision(false, BreakerTripped(1, 1.0), t.proposedCost.r)];
    FirstOfThree(KillPart(open), BreakerPart(open, t.currentTime), LossGatePart(open));
    Halted(s, p, KillSwitchManual);
    var ops1 := StepInto(s, [], p, [], kill, g);
    var ops2 := StepInto(s, ops1, ResetKill, kill, [], open);
    Halted(Run(s, ops2), p, BreakerTripped(1, 1.0));
    var ops3 := StepInto(s, ops2, p, kill, halt, open);
    var ops4 := StepInto(s, ops3, TripKill(None), kill + halt, [], g);
    Halted(Run(s, ops4), p, KillSwitchManual);
    var ops5 := StepInto(s, ops4, p, kill + halt, kill, g);
    assert ops5 == [p, ResetKill, p, TripKill(None), p];
    KillHaltKill(kill[0], halt[0]);
    FiresOncePerReasonIff(s, ops5);
  }

  lemma KillHaltKill(kill: Decision, halt: Decision)
    requires kill.reason != halt.reason
    ensures !NoReasonReturns([kill] + [halt] + [kill])
  {
    var ds := [kill] + [halt] + [kill];
    assert ds[0].reason == ds[2].reason != ds[1].reason;
  }

  /** Appends one operation to a run whose gates and desk rejections are known. */
  lemma StepInto(
    s: AuthorityState, ops: seq<Op>, op: Op,
    ds: seq<Decision>, met: seq<Decision>, g: Gates)
    returns (more: seq<Op>)
    requires s.gates.Valid() && DeskRejections(s, ops) == ds
    requires DeskRejection(Run(s, ops).gates, op) == met && After(Run(s, ops), op).gates == g
    ensures more == ops + [op]
    ensures DeskRejections(s, more) == ds + met && Run(s, more).gates == g
  {
    more := ops + [op];
    assert more[..|more| - 1] == ops;
  }

  // ----- The gates inside an authority -----

  /** What one operation asks of the breaker: a check comes only past the kill switch. */
  ghost function AskedOfBreaker(g: Gates, op: Op): seq<GateRuns.BreakerOp> {
    match op
    case Record(pnl, at) => [GateRuns.Record(pnl, at)]
    case ResetBreaker => [GateRuns.Reset]
    case Propose(_, t, _) =>
      if t.proposedCost.Fin? && KillPart(g).Pass? then [GateRuns.Check(t.currentTime)] else []
    case _ => []
  }

  ghost function BreakerOps(s: AuthorityState, ops: seq<Op>): seq<GateRuns.BreakerOp>
    requires s.gates.Valid()
  {
    if ops == [] then []
    else
      var before := ops[..|ops| - 1];
      BreakerOps(s, before) + AskedOfBreaker(Run(s, before).gates, ops[|ops| - 1])
  }

  lemma StepBreaker(s: AuthorityState, op: Op)
    requires s.gates.Valid() && s.gates.timedBreaker.Some?
    ensures After(s, op).gates.timedBreaker
         == Some(GateRuns.Run(s.gates.timedBreaker.value, AskedOfBreaker(s.gates, op)))
  {
    var asked := AskedOfBreaker(s.gates, op);
    assert asked != [] ==> asked[..0] == [];
  }

  /** In an authority the breaker lives through a run of its own, so its laws hold there. */
  lemma {:induction false} BreakerInsideAuthority(
    s: AuthorityState, b: TimedCircuitBreakerState, ops: seq<Op>)
    requires s.gates.Valid() && s.gates.timedBreaker == Some(b)
    ensures Run(s, ops).gates.timedBreaker == Some(GateRuns.Run(b, BreakerOps(s, ops)))
  {
    if ops != [] {
      var before, op := ops[..|ops| - 1], ops[|ops| - 1];
      BreakerInsideAuthority(s, b, before);
      StepBreaker(Run(s, before), op);
      GateRuns.RunConcat(b, BreakerOps(s, before), AskedOfBreaker(Run(s, before).gates, op));
    }
  }

  /** The PnLs recorded since the loss gate was last reset. */
  ghost function PnlsSinceReset(ops: seq<Op>): seq<Number> {
    if ops == [] then []
    else
      var before, op := ops[..|ops| - 1], ops[|ops| - 1];
      if op.ResetLossGate? then []
      else if op.Record? then PnlsSinceReset(before) + [op.pnl]
      else PnlsSinceReset(before)
  }

  lemma StepLossGate(s: AuthorityState, op: Op)
    requires s.gates.Valid() && s.gates.lossGate.Some?
    ensures var g := s.gates.lossGate.value;
            After(s, op).gates.lossGate
            == Some(if op.ResetLossGate? then LossGateReset(g)
                    else if op.Record? then LossGateRecord(g, op.pnl)
                    else g)
  {
  }

  lemma FeedAppend(g: ConsecutiveLossGateState, pnls: seq<Number>, pnl: Number)
    requires g.Valid()
    ensures GateRuns.Feed(g, pnls + [pnl]) == LossGateRecord(GateRuns.Feed(g, pnls), pnl)
  {
    assert (pnls + [pnl])[..|pnls + [pnl]| - 1] == pnls;
  }

  /** A fresh loss gate in an authority remembers the last window since its reset. */
  lemma {:induction false} LossGateInsideAuthority(
    s: AuthorityState, maxLosses: int, windowTrades: int, ops: seq<Op>)
    requires s.gates.Valid() && s.gates.lossGate == Some(FreshLossGate(maxLosses, windowTrades))
    ensures Run(s, ops).gates.lossGate
         == Some(GateRuns.Feed(FreshLossGate(maxLosses, windowTrades), PnlsSinceReset(ops)))
  {
    if ops != [] {
      var before, op := ops[..|ops| - 1], ops[|ops| - 1];
      LossGateInsideAuthority(s, maxLosses, windowTrades, before);
      StepLossGate(Run(s, before), op);
      if op.Record? {
        FeedAppend(FreshLossGate(maxLosses, windowTrades), PnlsSinceReset(before), op.pnl);
      }
    }
  }

  lemma StepKillSwitch(s: AuthorityState, op: Op)
    requires s.gates.Valid() && s.gates.killSwitch.Some?
    ensures var k := s.gates.killSwitch.value;
            After(s, op).gates.killSwitch
            == Some(if op.ResetKill? then KillSwitchState(false, k.reason, None)
                    else if op.TripKill? && !k.tripped then KillSwitchState(true, k.reason, op.at)
                    else k)
  {
  }

  /** A kill switch that starts clear is tripped iff someone tripped it since the last reset, and
      then it holds the time of the first such trip. */
  lemma {:induction false} KillSwitchInsideAuthority(
    s: AuthorityState, reason: Reason, ops: seq<Op>)
    returns (from: nat, first: nat)
    requires s.gates.Valid()
    requires s.gates.killSwitch == Some(KillSwitchState(false, reason, None))
    ensures from <= first <= |ops|
    ensures from > 0 ==> ops[from - 1].ResetKill?
    ensures forall i | from <= i < |ops| :: !ops[i].ResetKill?
    ensures forall i | from <= i < first :: !ops[i].TripKill?
    ensures first < |ops| ==> ops[first].TripKill?
    ensures Run(s, ops).gates.killSwitch
         == Some(if first < |ops| then KillSwitchState(true, reason, ops[first].at)
                 else KillSwitchState(false, reason, None))
  {
    if ops == [] {
      from, first := 0, 0;
    } else {
      var n := |ops| - 1;
      from, first := KillSwitchInsideAuthority(s, reason, ops[..n]);
      StepKillSwitch(Run(s, ops[..n]), ops[n]);
      if ops[n].ResetKill? {
        from, first := n + 1, n + 1;
      } else if first == n && !ops[n].TripKill? {
        first := n + 1;
      }
    }
  }

  // ----- The desk halt over runs -----

  /** While the breaker's cooldown runs and nobody resets it, no proposal is approved. */
  lemma {:induction false} HaltedDuringCooldown(
    s: AuthorityState, b: TimedCircuitBreakerState, ops: seq<Op>)
    requires s.gates.Valid() && s.gates.timedBreaker == Some(b) && b.tripped
    requires forall k | 0 <= k < |ops| ::
               !ops[k].ResetBreaker? && (ops[k].Propose? ==> !Expired(b, ops[k].trade.currentTime))
    ensures Run(s, ops).gates.timedBreaker == Some(b)
    ensures forall r | r in Results(s, ops) :: !Approved(r)
  {
    if ops != [] {
      var before, op := ops[..|ops| - 1], ops[|ops| - 1];
      assert forall k | 0 <= k < |before| :: before[k] == ops[k];
      HaltedDuringCooldown(s, b, before);
      if op.Propose? {
        ApprovedIffAllPass(Run(s, before), op.ctx, op.trade, op.elapsedUs);
      }
    }
  }

  /** From a fresh breaker, over any run: an approval never falls into the cooldown after a losing
      streak that nothing ended. The streak is named by the records that make it up. */
  lemma NoApprovalInCooldown(
    s: AuthorityState, threshold: int, cooldown: real, ops: seq<Op>, p: Op)
    returns (asked: seq<GateRuns.BreakerOp>, from: nat, end: nat, run: seq<nat>)
    requires s.gates.Valid() && s.gates.timedBreaker == Some(FreshBreaker(threshold, cooldown))
    requires p.Propose? && Approved(Evaluate(Run(s, ops), p.ctx, p.trade, p.elapsedUs).result)
    ensures asked == BreakerOps(s, ops)
    ensures GateRuns.Streak(asked, from, end, run) && |run| <= threshold
    ensures |run| < threshold ==> end == |asked|
    ensures |run| == threshold ==>
      var last, now := asked[run[threshold - 1]].at, p.trade.currentTime;
      && last.Some? && now.Some? && now.value.mode == last.value.mode
      && GateRuns.HoursPassed(now.value.us - last.value.us, cooldown)
  {
    asked := BreakerOps(s, ops);
    from, end, run := GateRuns.TripIsStamped(threshold, cooldown, asked);
    BreakerInsideAuthority(s, FreshBreaker(threshold, cooldown), ops);
    ApprovedIffAllPass(Run(s, ops), p.ctx, p.trade, p.elapsedUs);
    GateRuns.CheckOnFigures(
      GateRuns.Run(FreshBreaker(threshold, cooldown), asked), p.trade.currentTime);
  }

  /** Once the kill switch is tripped nothing is approved until a reset, and its first trip stays. */
  lemma {:induction false} HaltedUntilReset(s: AuthorityState, k: KillSwitchState, ops: seq<Op>)
    requires s.gates.Valid() && s.gates.killSwitch == Some(k) && k.tripped
    requires forall i | 0 <= i < |ops| :: !ops[i].ResetKill?
    ensures Run(s, ops).gates.killSwitch == Some(k)
    ensures forall r | r in Results(s, ops) :: !Approved(r)
  {
    if ops != [] {
      var before, op := ops[..|ops| - 1], ops[|ops| - 1];
      HaltedUntilReset(s, k, before);
      if op.Propose? {
        KillSwitchShields(Run(s, before), op.ctx, op.trade, op.elapsedUs);
      }
    }
  }
}
