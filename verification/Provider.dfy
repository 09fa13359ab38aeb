/** The provider: validated requests, the audit report, and what advice can influence. */
module Provider {
  import opened Prelude
  import opened Floats
  import opened Clock
  import opened State
  import opened StatelessGates
  import opened LossScan
  import opened Engine
  import opened Receipts
  import EngineRuns

  const PROVIDER_API_VERSION := 1

  // ----- Requests -----

  /** A request that passed validation: its figures are finite by type. */
  datatype RiskProviderRequest = RiskProviderRequest(
    runId: string,
    dailyRealizedPnl: real,
    equity: real,
    targetFamily: string,
    proposedCost: real,
    expectedValue: real,
    openPositions: seq<Position>,
    tradeOutcomes: seq<TradeOutcome>,
    currentTime: Option<Timestamp>,
    advisory: Option<seq<(string, Value)>>)
  {
    predicate Valid() {
      !Blank(runId) && !Blank(targetFamily)
    }
  }

  /** An argument of any type: `None`, of the expected type, or of another. */
  datatype Raw<T> = Absent | Typed(value: T) | Mistyped

  /** What a caller passes before anything is checked. */
  datatype RawRequest = RawRequest(
    runId: Raw<string>,
    dailyRealizedPnl: Number,
    equity: Number,
    targetFamily: Raw<string>,
    proposedCost: Number,
    expectedValue: Number,
    openPositions: Raw<seq<Raw<Position>>>,
    tradeOutcomes: Raw<seq<Raw<TradeOutcome>>>,
    currentTime: Raw<Timestamp>,
    advisory: Raw<seq<(string, Value)>>)

  predicate Identifies(s: Raw<string>) {
    s.Typed? && !Blank(s.value)
  }

  /** A finite real number; a bool is not one although it is an int. */
  predicate FiniteNumber(x: Number) {
    x.PyInt? || IsFinite(x)
  }

  /** A sequence whose items are all of the expected type. */
  predicate AllTyped<T>(items: Raw<seq<Raw<T>>>) {
    items.Typed? && forall i | 0 <= i < |items.value| :: items.value[i].Typed?
  }

  function ToReal(x: Number): real
    requires FiniteNumber(x)
  {
    if x.PyInt? then x.i as real else x.f.r
  }

  function ToItems<T>(items: Raw<seq<Raw<T>>>): seq<T>
    requires AllTyped(items)
  {
    seq(|items.value|, i requires 0 <= i < |items.value| => items.value[i].value)
  }

  function ToOption<T>(x: Raw<T>): Option<T>
    requires !x.Mistyped?
  {
    if x.Typed? then Some(x.value) else None
  }

  /** `q` holds what the caller passed, each argument under its own name. */
  ghost predicate Carries(raw: RawRequest, q: RiskProviderRequest) {
    && raw.runId == Typed(q.runId) && raw.targetFamily == Typed(q.targetFamily)
    && CarriesNumber(raw.dailyRealizedPnl, q.dailyRealizedPnl)
    && CarriesNumber(raw.equity, q.equity)
    && CarriesNumber(raw.proposedCost, q.proposedCost)
    && CarriesNumber(raw.expectedValue, q.expectedValue)
    && CarriesItems(raw.openPositions, q.openPositions)
    && CarriesItems(raw.tradeOutcomes, q.tradeOutcomes)
    && raw.currentTime
       == (match q.currentTime case None => Absent case Some(now) => Typed(now))
    && raw.advisory
       == (match q.advisory case None => Absent case Some(hints) => Typed(hints))
  }

  predicate CarriesNumber(x: Number, r: real) {
    x == PyFloat(Fin(r)) || (x.PyInt? && x.i as real == r)
  }

  ghost predicate CarriesItems<T>(items: Raw<seq<Raw<T>>>, typed: seq<T>) {
    && items.Typed? && |items.value| == |typed|
    && forall k | 0 <= k < |typed| :: items.value[k] == Typed(typed[k])
  }

  /** The fields in the order they are checked. */
  function Checks(raw: RawRequest): seq<(string, bool)> {
    [ ("run_id", Identifies(raw.runId)),
      ("target_family", Identifies(raw.targetFamily)),
      ("daily_realized_pnl", FiniteNumber(raw.dailyRealizedPnl)),
      ("equity", FiniteNumber(raw.equity)),
      ("proposed_cost", FiniteNumber(raw.proposedCost)),
      ("expected_value", FiniteNumber(raw.expectedValue)),
      ("open_positions", AllTyped(raw.openPositions)),
      ("trade_outcomes", AllTyped(raw.tradeOutcomes)),
      ("current_time", !raw.currentTime.Mistyped?),
      ("advisory", !raw.advisory.Mistyped?) ]
  }

  function MakeRequest(raw: RawRequest): (r: Result<RiskProviderRequest, Error>)
    ensures r.Success? <==> forall i | 0 <= i < 10 :: Checks(raw)[i].1
    ensures r.Success? ==> r.value.Valid() && Carries(raw, r.value)
    ensures r.Failure? ==> exists i | 0 <= i < 10 ::
              !Checks(raw)[i].1 && r.error == ValueError(Checks(raw)[i].0)
              && forall j | 0 <= j < i :: Checks(raw)[j].1
  {
    var checks := Checks(raw);
    if !checks[0].1 then Failure(ValueError("run_id"))
    else if !checks[1].1 then Failure(ValueError("target_family"))
    else if !checks[2].1 then Failure(ValueError("daily_realized_pnl"))
    else if !checks[3].1 then Failure(ValueError("equity"))
    else if !checks[4].1 then Failure(ValueError("proposed_cost"))
    else if !checks[5].1 then Failure(ValueError("expected_value"))
    else if !checks[6].1 then Failure(ValueError("open_positions"))
    else if !checks[7].1 then Failure(ValueError("trade_outcomes"))
    else if !checks[8].1 then Failure(ValueError("current_time"))
    else if !checks[9].1 then Failure(ValueError("advisory"))
    else Success(RiskProviderRequest(
      raw.runId.value, ToReal(raw.dailyRealizedPnl), ToReal(raw.equity), raw.targetFamily.value,
      ToReal(raw.proposedCost), ToReal(raw.expectedValue),
      ToItems(raw.openPositions), ToItems(raw.tradeOutcomes),
      ToOption(raw.currentTime), ToOption(raw.advisory)))
  }

  /** A bool, a value that is no number, NaN and the infinities. */
  predicate BadNumber(x: Number) {
    x.PyBool? || x.NotANumber? || (x.PyFloat? && !x.f.Fin?)
  }

  ghost predicate BadSequence<T>(items: Raw<seq<Raw<T>>>) {
    !items.Typed? || exists i: nat :: i < |items.value| && !items.value[i].Typed?
  }

  /** The first argument to be refused, in the order of the checks. */
  lemma FirstBadField(raw: RawRequest)
    ensures MakeRequest(raw).Failure? ==> MakeRequest(raw).error == ValueError(
      if !raw.runId.Typed? || Blank(raw.runId.value) then "run_id"
      else if !raw.targetFamily.Typed? || Blank(raw.targetFamily.value) then "target_family"
      else if BadNumber(raw.dailyRealizedPnl) then "daily_realized_pnl"
      else if BadNumber(raw.equity) then "equity"
      else if BadNumber(raw.proposedCost) then "proposed_cost"
      else if BadNumber(raw.expectedValue) then "expected_value"
      else if BadSequence(raw.openPositions) then "open_positions"
      else if BadSequence(raw.tradeOutcomes) then "trade_outcomes"
      else if raw.currentTime.Mistyped? then "current_time"
      else "advisory")
    ensures MakeRequest(raw).Success? <==>
      && raw.runId.Typed? && !Blank(raw.runId.value)
      && raw.targetFamily.Typed? && !Blank(raw.targetFamily.value)
      && !BadNumber(raw.dailyRealizedPnl) && !BadNumber(raw.equity)
      && !BadNumber(raw.proposedCost) && !BadNumber(raw.expectedValue)
      && !BadSequence(raw.openPositions) && !BadSequence(raw.tradeOutcomes)
      && !raw.currentTime.Mistyped? && !raw.advisory.Mistyped?
  {
  }

  /** The trade as the authority sees it: an empty list of outcomes becomes none at all. */
  function ToTrade(q: RiskProviderRequest): Trade {
    Trade(Fin(q.dailyRealizedPnl), Fin(q.equity), q.targetFamily, Fin(q.proposedCost),
          q.openPositions, Fin(q.expectedValue),
          if q.tradeOutcomes == [] then None else Some(q.tradeOutcomes), q.currentTime, None)
  }

  // ----- The audit report -----

  datatype GateOutcome = GateOutcome(gate: string, approved: bool, reason: Reason)

  const STATELESS_GATES: seq<string> := [
    "evaluate_expected_value",
    "evaluate_drawdown",
    "evaluate_consecutive_losses",
    "evaluate_concentration"
  ]

  ghost function OutcomeOf(gate: string, v: Verdict): GateOutcome {
    GateOutcome(gate, v.Pass?, if v.Pass? then Okay else v.reason)
  }

  /** The report lists every gate's own verdict, past the first rejection too. */
  ghost function Report(ctx: RiskContext, q: RiskProviderRequest): (r: seq<GateOutcome>)
    ensures |r| == 4
  {
    seq(4, i requires 0 <= i < 4 => OutcomeOf(STATELESS_GATES[i], GateVerdicts(ctx, ToTrade(q))[i]))
  }

  method GateReport(ctx: RiskContext, q: RiskProviderRequest) returns (outcomes: seq<GateOutcome>)
    ensures outcomes == Report(ctx, q)
  {
    outcomes := [];
    for i := 0 to |STATELESS_GATES|
      invariant |outcomes| == i
      invariant forall j | 0 <= j < i :: outcomes[j] == Report(ctx, q)[j]
    {
      var name := STATELESS_GATES[i];
      var scratch := new RiskDecision(true, Okay, q.proposedCost);
      var ok;
      if name == "evaluate_expected_value" {
        ok := EvaluateExpectedValue(ctx, Fin(q.expectedValue), scratch);
      } else if name == "evaluate_drawdown" {
        ok := EvaluateDrawdown(ctx, Fin(q.dailyRealizedPnl), Fin(q.equity), scratch);
      } else if name == "evaluate_consecutive_losses" {
        ok := EvaluateConsecutiveLosses(ctx, Some(q.tradeOutcomes), q.currentTime, scratch);
      } else {
        ok := EvaluateConcentration(
          ctx, q.targetFamily, Fin(q.proposedCost), q.openPositions, scratch);
      }
      GateNumber(ctx, q, i);
      outcomes := outcomes + [GateOutcome(name, scratch.approved, scratch.reasonCode)];
    }
  }

  /** Which gate stands at which place of the report; an empty list of outcomes is no list. */
  lemma GateNumber(ctx: RiskContext, q: RiskProviderRequest, i: nat)
    requires i < 4
    ensures GateVerdicts(ctx, ToTrade(q))[i]
         == if i == 0 then ExpectedValueVerdict(ctx, Fin(q.expectedValue))
            else if i == 1 then DrawdownVerdict(ctx, Fin(q.dailyRealizedPnl), Fin(q.equity))
            else if i == 2 then ConsecutiveLossVerdict(ctx, Some(q.tradeOutcomes), q.currentTime)
            else ConcentrationVerdict(
              ctx, q.targetFamily, Fin(q.proposedCost), q.openPositions)
    ensures STATELESS_GATES[i] == "evaluate_expected_value" <==> i == 0
    ensures STATELESS_GATES[i] == "evaluate_drawdown" <==> i == 1
    ensures STATELESS_GATES[i] == "evaluate_consecutive_losses" <==> i == 2
  {
  }

  // ----- Evaluation -----

  datatype RiskProviderResult = RiskProviderResult(
    approved: bool,
    reason: Reason,
    suggestedSize: real,
    gateOutcomes: seq<GateOutcome>,
    stateSchemaVersion: int,
    elapsedUs: int,
    receipt: Receipt,
    apiVersion: int)

  function OutcomeValue(o: GateOutcome): Value {
    VMap([("gate", VText(o.gate)), ("approved", VFlag(o.approved)), ("reason_code", VReason(o.reason))])
  }

  /** Advice is recorded as given; an empty mapping counts as none. */
  function AdvisoryValue(q: RiskProviderRequest): Value {
    if q.advisory.Some? && q.advisory.value != [] then VMap(q.advisory.value) else VNull
  }

  function Details(q: RiskProviderRequest, reason: Reason, outcomes: seq<GateOutcome>): Value {
    VMap([
      ("advisory", AdvisoryValue(q)),
      ("reason_code", VReason(reason)),
      ("gate_outcomes",
       VList(seq(|outcomes|, i requires 0 <= i < |outcomes| => OutcomeValue(outcomes[i])))),
      ("api_version", VNumber(PROVIDER_API_VERSION))
    ])
  }

  function Packaged(
    q: RiskProviderRequest, d: Decision, outcomes: seq<GateOutcome>, elapsedUs: int)
    : Result<RiskProviderResult, Error>
  {
    var receipt := BuildRiskReceipt(
      q.runId, if d.approved then "approved" else "rejected", VMap([]),
      Details(q, d.reason, outcomes));
    if receipt.Failure? then Failure(receipt.error)
    else Success(RiskProviderResult(
      d.approved, d.reason, d.size, outcomes, RISK_STATE_SCHEMA_VERSION, elapsedUs,
      receipt.value, PROVIDER_API_VERSION))
  }

  /** A validated request cannot make the authority raise. */
  lemma RequestNeverRaises(
    s: AuthorityState, ctx: RiskContext, q: RiskProviderRequest, engineUs: int)
    ensures Evaluate(s, ctx, ToTrade(q), engineUs).result.Success?
  {
  }

  ghost function Provided(
    s: AuthorityState, ctx: RiskContext, q: RiskProviderRequest, engineUs: int, totalUs: int)
    : Result<RiskProviderResult, Error>
  {
    RequestNeverRaises(s, ctx, q, engineUs);
    Packaged(q, Evaluate(s, ctx, ToTrade(q), engineUs).result.value, Report(ctx, q), totalUs)
  }

  class RiskProvider {
    const ctx: RiskContext
    const authority: RiskAuthority

    constructor (ctx: RiskContext, authority: RiskAuthority)
      ensures this.ctx == ctx && this.authority == authority
    {
      this.ctx := ctx;
      this.authority := authority;
    }

    method EvaluateRequest(q: RiskProviderRequest, engineUs: int, totalUs: int)
      returns (r: Result<RiskProviderResult, Error>)
      requires authority.Valid() && q.Valid()
      modifies authority`lastTripReason, authority.timedBreaker, authority.onTrip
      ensures authority.Valid()
      ensures authority.State()
           == Evaluate(old(authority.State()), ctx, ToTrade(q), engineUs).state
      ensures authority.onTrip != null ==>
        authority.onTrip.calls == old(authority.onTrip.calls)
          + Evaluate(old(authority.State()), ctx, ToTrade(q), engineUs).fired
      ensures r == Provided(old(authority.State()), ctx, q, engineUs, totalUs)
      ensures r.Success? ==>
        Evaluate(old(authority.State()), ctx, ToTrade(q), engineUs).result
        == Success(Decision(r.value.approved, r.value.reason, r.value.suggestedSize))
    {
      RequestNeverRaises(authority.State(), ctx, q, engineUs);
      var answer := authority.EvaluateWithState(ctx, ToTrade(q), engineUs);
      var decision := answer.value;
      var outcomes := GateReport(ctx, q);
      r := Packaged(
        q, Decision(decision.approved, decision.reasonCode, decision.suggestedSize),
        outcomes, totalUs);
    }
  }

  // ----- The report and the decision agree -----

  /** The report's first rejection is the decision's reason, unless the desk halted trading. */
  lemma ReportAgreesWithDecision(
    s: AuthorityState, ctx: RiskContext, q: RiskProviderRequest, engineUs: int)
    ensures var d := Evaluate(s, ctx, ToTrade(q), engineUs).result.value;
            var report := Report(ctx, q);
            && (d.approved <==>
                  && StatefulVerdict(s.gates, q.currentTime).Pass?
                  && (forall i | 0 <= i < 4 :: report[i].approved)
                  && engineUs <= ctx.latencyBudgetUs)
            && (StatefulVerdict(s.gates, q.currentTime).Pass? ==>
                  forall i | 0 <= i < 4 && !report[i].approved
                             && (forall j | 0 <= j < i :: report[j].approved) ::
                    !d.approved && d.reason == report[i].reason)
            && (StatefulVerdict(s.gates, q.currentTime).Pass?
                && (forall i | 0 <= i < 4 :: report[i].approved) && !d.approved ==>
                  d.reason == LatencyBudget(engineUs, ctx.latencyBudgetUs))
  {
    var v := GateVerdicts(ctx, ToTrade(q));
    var report := Report(ctx, q);
    FirstOfFour(v[0], v[1], v[2], v[3]);
    assert forall i | 0 <= i < 4 :: report[i].approved == v[i].Pass?;
  }

  /** The same of the result that is handed out. */
  lemma ResultAgreesWithReport(
    s: AuthorityState, ctx: RiskContext, q: RiskProviderRequest, engineUs: int, totalUs: int)
    requires Provided(s, ctx, q, engineUs, totalUs).Success?
    ensures var r := Provided(s, ctx, q, engineUs, totalUs).value;
            var desk := StatefulVerdict(s.gates, q.currentTime);
            && |r.gateOutcomes| == 4
            && (r.approved <==>
                  && desk.Pass?
                  && (forall i | 0 <= i < 4 :: r.gateOutcomes[i].approved)
                  && engineUs <= ctx.latencyBudgetUs)
            && (r.approved ==> r.reason == Okay)
            && (desk.Reject? ==> r.reason == desk.reason)
            && (desk.Pass? ==>
                  forall i | 0 <= i < 4 && !r.gateOutcomes[i].approved
                             && (forall j | 0 <= j < i :: r.gateOutcomes[j].approved) ::
                    r.reason == r.gateOutcomes[i].reason)
            && (desk.Pass? && (forall i | 0 <= i < 4 :: r.gateOutcomes[i].approved)
                && !r.approved ==>
                  r.reason == LatencyBudget(engineUs, ctx.latencyBudgetUs))
  {
    ReportAgreesWithDecision(s, ctx, q, engineUs);
  }

  ghost predicate Reports(o: GateOutcome, gate: string, v: Verdict) {
    && o.gate == gate
    && (v.Pass? ==> o.approved && o.reason == Okay)
    && (v.Reject? ==> !o.approved && o.reason == v.reason)
  }

  /** The result is the authority's decision on the request's own figures, with every gate's
      verdict under its name. */
  lemma ResultIsDecision(
    s: AuthorityState, ctx: RiskContext, q: RiskProviderRequest, t: Trade,
    engineUs: int, totalUs: int)
    requires t == Trade(
      Fin(q.dailyRealizedPnl), Fin(q.equity), q.targetFamily, Fin(q.proposedCost),
      q.openPositions, Fin(q.expectedValue),
      if |q.tradeOutcomes| == 0 then None else Some(q.tradeOutcomes), q.currentTime, None)
    requires Provided(s, ctx, q, engineUs, totalUs).Success?
    ensures var r, d := Provided(s, ctx, q, engineUs, totalUs).value,
                        Evaluate(s, ctx, t, engineUs).result;
            && d == Success(Decision(r.approved, r.reason, r.suggestedSize))
            && r.suggestedSize == q.proposedCost
            && r.stateSchemaVersion == 1 && r.apiVersion == 1 && r.elapsedUs == totalUs
            && |r.gateOutcomes| == 4
            && Reports(r.gateOutcomes[0], "evaluate_expected_value",
                       ExpectedValueVerdict(ctx, t.expectedValue))
            && Reports(r.gateOutcomes[1], "evaluate_drawdown",
                       DrawdownVerdict(ctx, t.dailyRealizedPnl, t.equity))
            && Reports(r.gateOutcomes[2], "evaluate_consecutive_losses",
                       ConsecutiveLossVerdict(ctx, t.tradeOutcomes, t.currentTime))
            && Reports(r.gateOutcomes[3], "evaluate_concentration",
                       ConcentrationVerdict(
                         ctx, t.targetFamily, t.proposedCost, t.openPositions))
  {
    EngineRuns.ApprovedIffAllPass(s, ctx, t, engineUs);
    assert t == ToTrade(q);
    var v := GateVerdicts(ctx, t);
    assert v[0] == ExpectedValueVerdict(ctx, t.expectedValue);
  }

  /** The receipt names the run, the outcome and the reason, and lists the report entry by entry. */
  lemma ReceiptIsResult(
    s: AuthorityState, ctx: RiskContext, q: RiskProviderRequest, engineUs: int, totalUs: int)
    requires Provided(s, ctx, q, engineUs, totalUs).Success?
    ensures var r := Provided(s, ctx, q, engineUs, totalUs).value;
            && r.receipt.runId == q.runId
            && r.receipt.outcome == (if r.approved then "approved" else "rejected")
            && r.receipt.provenance == VMap([])
            && r.receipt.details.VMap? && |r.receipt.details.entries| == 4
            && r.receipt.details.entries[0]
               == ("advisory", match q.advisory
                               case None => VNull
                               case Some(hints) => if |hints| == 0 then VNull else VMap(hints))
            && r.receipt.details.entries[1] == ("reason_code", VReason(r.reason))
            && r.receipt.details.entries[2].0 == "gate_outcomes"
            && r.receipt.details.entries[2].1.VList?
            && |r.receipt.details.entries[2].1.items| == |r.gateOutcomes| == 4
            && (forall i | 0 <= i < 4 ::
                  r.receipt.details.entries[2].1.items[i] == VMap([
                    ("gate", VText(r.gateOutcomes[i].gate)),
                    ("approved", VFlag(r.gateOutcomes[i].approved)),
                    ("reason_code", VReason(r.gateOutcomes[i].reason))]))
            && r.receipt.details.entries[3] == ("api_version", VNumber(1))
  {
  }

  // ----- What advice can influence -----

  lemma OwnKeysAreHarmless()
    ensures !IsSensitive("advisory") && !IsSensitive("reason_code")
    ensures !IsSensitive("gate_outcomes") && !IsSensitive("api_version")
    ensures !IsSensitive("gate") && !IsSensitive("approved")
  {
    assert Normalized("advisory")[0] == 'a' && "password"[0] == 'p';
    assert Normalized("approved")[0] == 'a';
    assert Normalized("gate_outcomes")[0] == 'g' && "authorization"[0] == 'a';
    assert |"api_key"| == 7 && |"authorization"| == 13 && |"password"| == 8;
    assert |"secret"| == 6 && |"token"| == 5;
  }

  lemma OutcomeIsHarmless(o: GateOutcome)
    ensures RejectSensitive(OutcomeValue(o)).None?
  {
    OwnKeysAreHarmless();
    var v := OutcomeValue(o);
    assert v.entries[0] == ("gate", VText(o.gate)) && v.entries[1] == ("approved", VFlag(o.approved));
    assert v.entries[2] == ("reason_code", VReason(o.reason));
    assert RejectEntries(v, 3).None?;
    assert RejectEntries(v, 2).None?;
    assert RejectEntries(v, 1).None?;
    assert RejectEntries(v, 0).None?;
  }

  lemma {:induction false} OutcomesAreHarmless(v: Value, i: nat)
    requires v.VList? && i <= |v.items|
    requires forall k | 0 <= k < |v.items| :: RejectSensitive(v.items[k]).None?
    ensures RejectItems(v, i).None?
    decreases |v.items| - i
  {
    if i < |v.items| {
      OutcomesAreHarmless(v, i + 1);
    }
  }

  /** The receipt's own fields never offend: the search comes down to the advice. */
  lemma DetailsSearched(q: RiskProviderRequest, reason: Reason, outcomes: seq<GateOutcome>)
    ensures RejectSensitive(Details(q, reason, outcomes)) == RejectSensitive(AdvisoryValue(q))
  {
    OwnKeysAreHarmless();
    var v := Details(q, reason, outcomes);
    var items := v.entries[2].1;
    forall k | 0 <= k < |items.items| ensures RejectSensitive(items.items[k]).None? {
      OutcomeIsHarmless(outcomes[k]);
    }
    OutcomesAreHarmless(items, 0);
    assert RejectEntries(v, 4).None?;
    assert RejectEntries(v, 3).None?;
    assert RejectEntries(v, 2).None?;
    assert RejectEntries(v, 1).None?;
  }

  /** A receipt is refused exactly when the advice holds a sensitive key at some depth. */
  lemma ReceiptRefusedIff(
    s: AuthorityState, ctx: RiskContext, q: RiskProviderRequest, engineUs: int, totalUs: int)
    requires q.Valid()
    ensures Provided(s, ctx, q, engineUs, totalUs).Failure? <==> Leaks(AdvisoryValue(q))
  {
    var d := Evaluate(s, ctx, ToTrade(q), engineUs).result.value;
    DetailsSearched(q, d.reason, Report(ctx, q));
    RejectsIffLeaks(AdvisoryValue(q));
    assert !IsSpace("approved"[0]) && !IsSpace("rejected"[0]);
  }

  /** Two receipts agree on everything but the first entry of their details, the advice. */
  predicate SameButAdvice(a: Receipt, b: Receipt) {
    && a.runId == b.runId && a.outcome == b.outcome && a.provenance == b.provenance
    && a.details.VMap? && b.details.VMap?
    && |a.details.entries| == |b.details.entries| == 4
    && a.details.entries[1..] == b.details.entries[1..]
  }

  /** Advice changes neither the decision, nor the report, nor what the authority remembers. */
  lemma AdviceCannotMatter(
    s: AuthorityState, ctx: RiskContext, q: RiskProviderRequest,
    advisory: Option<seq<(string, Value)>>, engineUs: int, totalUs: int)
    requires q.Valid()
    ensures var p := q.(advisory := advisory);
            var a, b := Provided(s, ctx, q, engineUs, totalUs),
                        Provided(s, ctx, p, engineUs, totalUs);
            && Evaluate(s, ctx, ToTrade(q), engineUs) == Evaluate(s, ctx, ToTrade(p), engineUs)
            && (a.Success? && b.Success? ==>
                  && a.value.(receipt := b.value.receipt) == b.value
                  && SameButAdvice(a.value.receipt, b.value.receipt))
            && (b.Success? ==> b.value.receipt.details.entries[0] == ("advisory", AdvisoryValue(p)))
            && (b.Failure? <==> Leaks(AdvisoryValue(p)))
  {
    var p := q.(advisory := advisory);
    ReceiptRefusedIff(s, ctx, p, engineUs, totalUs);
    assert Report(ctx, q) == Report(ctx, p);
  }
}
