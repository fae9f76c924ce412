/**
  `run_live`: risk guards, strategy decision, order gating, sizing, placement, lifecycle and
  audit trail of one live run.
 */
module LiveRun {
  import opened Wrappers
  import opened Seqs
  import opened Reals
  import opened ReasonCodes
  import opened RiskGuards
  import opened OrderLifecycle
  import Strategy
  import Sizing
  import Streams

  datatype Mode = BacktestMode | PaperMode | LiveMode

  datatype Config = Config(mode: Mode, executeOrders: bool, liveHttpEnabled: bool, autoCancel: bool, symbol: string,
                           maxDrawdown: real, dailyLossLimit: real, maxPositionSize: real, maxLeverage: real,
                           positionRiskFraction: real, minOrderQty: real, qtyStep: real,
                           minConfidence: real, maxAtrToPrice: real, minVolumeRatio: real)
  {
    predicate HttpActive() {
      mode == LiveMode && executeOrders && liveHttpEnabled
    }

    function Limits(): Figures {
      Figures(maxDrawdown, dailyLossLimit, maxPositionSize, Max(dailyLossLimit * 0.5, 0.0), maxLeverage, 0.02)
    }
  }

  // The default snapshot overlaid with the caller's.
  datatype Snapshot = Snapshot(current: Figures, close: real, emaFast: real, emaSlow: real, rsi: Strategy.Reading, atr: real,
                               volume: real, volumeMa: real, availableBalance: Option<real>)

  function SignalOf(s: Snapshot): Strategy.Indicators {
    Strategy.Indicators(s.close, s.emaFast, s.emaSlow, s.rsi, Max(s.atr, 1e-9), Max(s.volume, 0.0), Max(s.volumeMa, 1e-9))
  }

  function DecisionOf(config: Config, s: Snapshot): Result<Strategy.Decision, Strategy.TypeError> {
    Strategy.Decide(SignalOf(s), Strategy.Hooks(config.minConfidence, 0, 12, config.maxAtrToPrice, config.minVolumeRatio))
  }

  // ---- The balance

  datatype BalanceRow = BalanceRow(asset: string, available: Option<real>, total: Option<real>)

  datatype Balances = NoSuchMethod | BalancesRaise | NotAList | Rows(rows: seq<BalanceRow>)

  const DEFAULT_BALANCE := 1000000.0

  predicate Usable(row: BalanceRow) {
    row.asset == "JPY" && (row.available.Some? || row.total.Some?)
  }

  function Amount(row: BalanceRow): real
    requires Usable(row)
  {
    Max(if row.available.Some? then row.available.value else row.total.value, 0.0)
  }

  function FirstUsable(rows: seq<BalanceRow>): real {
    if rows == [] then DEFAULT_BALANCE else if Usable(rows[0]) then Amount(rows[0]) else FirstUsable(rows[1..])
  }

  // None when `fetch_balances` raises.
  function Balance(override: Option<real>, balances: Balances): Option<real> {
    if override.Some? then Some(Max(override.value, 0.0))
    else match balances
      case BalancesRaise => None
      case Rows(rows) => Some(FirstUsable(rows))
      case _ => Some(DEFAULT_BALANCE)
  }

  method ResolveAvailableBalance(override: Option<real>, balances: Balances) returns (r: Option<real>)
    ensures r == Balance(override, balances)
    ensures r.Some? ==> r.value >= 0.0
  {
    if override.Some? {
      return Some(Max(override.value, 0.0));
    }
    if balances.BalancesRaise? {
      return None;
    }
    if balances.Rows? {
      for i := 0 to |balances.rows|
        invariant FirstUsable(balances.rows) == FirstUsable(balances.rows[i..])
      {
        var row := balances.rows[i];
        assert balances.rows[i..][1..] == balances.rows[i + 1..];
        if row.asset == "JPY" {
          if row.available.Some? {
            return Some(Max(row.available.value, 0.0));
          }
          if row.total.Some? {
            return Some(Max(row.total.value, 0.0));
          }
        }
      }
    }
    r := Some(DEFAULT_BALANCE);
  }

  function SizingInput(config: Config, s: Snapshot, balance: real): Sizing.Input {
    Sizing.Input(balance, s.close, s.atr, config.maxPositionSize, config.positionRiskFraction, config.minOrderQty, config.qtyStep)
  }

  // ---- Client order ids

  class SentOrders {
    var ids: set<string>

    constructor ()
      ensures ids == {}
    {
      ids := {};
    }

    // `_register_order_attempt`: an id passes once.
    method Register(id: string) returns (isNew: bool)
      modifies this
      ensures isNew <==> id !in old(ids)
      ensures ids == old(ids) + {id}
    {
      if id in ids {
        return false;
      }
      ids := ids + {id};
      isNew := true;
    }
  }

  // ---- The progress file

  datatype ProgressStatus = Running | Finished(guard: GuardStatus)

  datatype ProgressRecord = ProgressRecord(status: ProgressStatus, lastError: Option<ReasonCode>, monitor: Streams.MonitorStatus)

  // Each record written replaces the one before.
  class ProgressFile {
    var written: seq<ProgressRecord>

    constructor ()
      ensures written == []
    {
      written := [];
    }

    method Emit(record: ProgressRecord)
      modifies this
      ensures written == old(written) + [record]
    {
      written := written + [record];
    }
  }

  const STARTED := ProgressRecord(Running, None, Streams.Active)

  function FirstOf(codes: seq<ReasonCode>): Option<ReasonCode> {
    if codes == [] then None else Some(codes[0])
  }

  // The record at the end of a run that comes to r.
  function EndRecord(r: LiveResult): ProgressRecord {
    ProgressRecord(Finished(r.status), if r.stopReasons != [] then FirstOf(r.stopReasons) else FirstOf(r.reasons), r.monitor)
  }

  // ---- The run

  datatype OrderStatus = NotAttempted | SkippedHttpDisabled | SkippedQtyTooSmall | SkippedByStrategy | SkippedDueToRisk | Sent(status: Status)

  datatype LiveResult = LiveResult(status: GuardStatus, orderAttempted: bool, orderStatus: OrderStatus, clientOrderId: Option<string>,
                                   transitions: seq<Status>, reasons: seq<ReasonCode>, stopReasons: seq<ReasonCode>,
                                   monitor: Streams.MonitorStatus)

  // Calls and events of a run, and its result unless the decision or an adapter call raised.
  datatype RunTrace = RunTrace(calls: seq<Call>, events: seq<AuditEvent>, orderStatus: OrderStatus, clientOrderId: Option<string>,
                               transitions: seq<Status>, orderReasons: seq<ReasonCode>, completed: bool)

  predicate GuardsPass(config: Config, s: Snapshot) {
    forall c: Condition :: !Exceeded(config.Limits(), s.current, c)
  }

  function Skipped(status: OrderStatus, reasons: seq<ReasonCode>, events: seq<AuditEvent>, clientOrderId: Option<string>): RunTrace {
    RunTrace([], events, status, clientOrderId, [], reasons, true)
  }

  // The order section: everything between the decision and the risk-stop event.
  function OrderSection(config: Config, s: Snapshot, balances: Balances, id: string,
                        hasFetch: bool, hasCancel: bool, strategy: seq<Call> -> Reply, before: seq<Call>): RunTrace
  {
    if DecisionOf(config, s).Err? then RunTrace([], [], NotAttempted, None, [], [], false) else
    var decision := DecisionOf(config, s).value;
    if !config.executeOrders then Skipped(NotAttempted, [ExecuteOrdersDisabled], [], None)
    else if !GuardsPass(config, s) then Skipped(SkippedDueToRisk, [], [], None)
    else if decision.action == Strategy.Hold then Skipped(SkippedByStrategy, [], [AttemptSkipped(None)], None)
    else if !config.HttpActive() then
      Skipped(SkippedHttpDisabled, [LiveHttpDisabled], [AttemptSkipped(Some(LiveHttpDisabled))], None)
    else match Balance(s.availableBalance, balances)
      case None => RunTrace([], [], NotAttempted, None, [], [], false)
      case Some(balance) =>
        var qty := SizingInput(config, s, balance).Qty();
        if qty <= 0.0 then
          Skipped(SkippedQtyTooSmall, [OrderSizeTooSmall], [AttemptSkipped(Some(OrderSizeTooSmall))], None)
        else
          Placement(config, Order(config.symbol, decision.action, qty, id), hasFetch, hasCancel, strategy, before)
  }

  function Placement(config: Config, order: Order, hasFetch: bool, hasCancel: bool,
                     strategy: seq<Call> -> Reply, before: seq<Call>): RunTrace
  {
    var id := order.clientOrderId;
    var attempt := [Attempt(id, order.qty)];
    var place := [Place(order)];
    match strategy(before + place)
    case Throws(_) => RunTrace(place, attempt, NotAttempted, Some(id), [], [], false)
    case Returns(placed) =>
      var trace := Lifecycle(hasFetch, hasCancel, strategy, before + place, placed, config.autoCancel);
      match trace.tracked
      case None => RunTrace(place + trace.calls, attempt + trace.events, NotAttempted, Some(id), [], [], false)
      case Some(t) =>
        RunTrace(place + trace.calls, attempt + trace.events + [OrderResult(t.final.orderId, t.final.status, id)],
                 Sent(t.final.status), Some(id), t.transitions, t.reasons, true)
  }

  // What the order section leaves for the result.
  datatype Section = Section(attempted: bool, orderStatus: OrderStatus, clientOrderId: Option<string>,
                             transitions: seq<Status>, reasons: seq<ReasonCode>)

  // From the decision to the risk-stop event.
  method RunOrderSection(config: Config, s: Snapshot, decision: Strategy.Decision, passed: bool, adapter: Adapter, trail: Trail,
                         balances: Balances, id: string)
    returns (r: Option<Section>)
    requires DecisionOf(config, s) == Ok(decision) && passed == GuardsPass(config, s)
    modifies adapter, trail
    ensures var trace := OrderSection(config, s, balances, id, adapter.hasFetch, adapter.hasCancel, adapter.strategy, old(adapter.calls));
            && adapter.calls == old(adapter.calls) + trace.calls
            && trail.events == old(trail.events) + trace.events
            && r == if trace.completed
                    then Some(Section(trace.clientOrderId.Some?, trace.orderStatus, trace.clientOrderId, trace.transitions, trace.orderReasons))
                    else None
  {
    ghost var trace := OrderSection(config, s, balances, id, adapter.hasFetch, adapter.hasCancel, adapter.strategy, adapter.calls);
    if !config.executeOrders {
      return Some(Section(false, NotAttempted, None, [], [ExecuteOrdersDisabled]));
    }
    if passed && decision.action != Strategy.Hold {
      if !config.HttpActive() {
        trail.Append(AttemptSkipped(Some(LiveHttpDisabled)));
        return Some(Section(false, SkippedHttpDisabled, None, [], [LiveHttpDisabled]));
      }
      var balance := ResolveAvailableBalance(s.availableBalance, balances);
      if balance.None? {
        return None;
      }
      var qty := SizingInput(config, s, balance.value).Qty();
      if qty <= 0.0 {
        trail.Append(AttemptSkipped(Some(OrderSizeTooSmall)));
        return Some(Section(false, SkippedQtyTooSmall, None, [], [OrderSizeTooSmall]));
      }
      var sent := new SentOrders();
      var isNew := sent.Register(id);
      // The set of sent ids is new in every run, so the run's own idempotency skip is dead.
      assert isNew;
      var placed := PlaceAndTrack(config, adapter, trail, Order(config.symbol, decision.action, qty, id));
      if placed.None? {
        return None;
      }
      return Some(Section(true, Sent(placed.value.final.status), Some(id), placed.value.transitions, placed.value.reasons));
    }
    if passed {
      trail.Append(AttemptSkipped(None));
      return Some(Section(false, SkippedByStrategy, None, [], []));
    }
    r := Some(Section(false, SkippedDueToRisk, None, [], []));
  }

  method RunLive(config: Config, s: Snapshot, adapter: Adapter, trail: Trail, progress: ProgressFile,
                 balances: Balances, streams: seq<Streams.FirstItem<()>>, id: string)
    returns (r: Option<LiveResult>)
    requires |streams| == 2
    modifies adapter, trail, progress
    ensures progress.written == old(progress.written) + [STARTED] + if r.Some? then [EndRecord(r.value)] else []
    ensures |progress.written| > |old(progress.written)|
            && progress.written[|old(progress.written)|] == ProgressRecord(Running, None, Streams.Active)
    ensures var trace := OrderSection(config, s, balances, id, adapter.hasFetch, adapter.hasCancel, adapter.strategy, old(adapter.calls));
            && adapter.calls == old(adapter.calls) + trace.calls
            && trail.events == old(trail.events) + trace.events + RiskEvents(config, s, trace)
            && (r.Some? <==> trace.completed)
            && (r.Some? ==> ResultOf(config, s, trace, streams, r.value))
  {
    progress.Emit(STARTED);
    var guard, guardCodes := EvaluateRiskGuards(config.Limits(), s.current);
    VerdictUnique(config.Limits(), s.current, guard, StatusOf(config, s));
    var decided := DecisionOf(config, s);
    if decided.Err? {
      return None;
    }
    var streamStatus, looked := Streams.ProbeStatus(streams);
    var section := RunOrderSection(config, s, decided.value, guard == Success, adapter, trail, balances, id);
    if section.None? {
      return None;
    }
    if guard != Success {
      trail.Append(RiskStop(guard, guardCodes));
    }
    var stopReasons := guardCodes + section.value.reasons;
    var result := LiveResult(guard, section.value.attempted, section.value.orderStatus, section.value.clientOrderId,
                             section.value.transitions, decided.value.reasons + stopReasons + StreamReason(streamStatus), stopReasons,
                             if guard != Success then Streams.Degraded else streamStatus);
    progress.Emit(EndRecord(result));
    r := Some(result);
  }

  // Attempt event, placement, lifecycle, result event.
  method PlaceAndTrack(config: Config, adapter: Adapter, trail: Trail, order: Order) returns (r: Option<Tracked>)
    modifies adapter, trail
    ensures var trace := Placement(config, order, adapter.hasFetch, adapter.hasCancel, adapter.strategy, old(adapter.calls));
            && adapter.calls == old(adapter.calls) + trace.calls
            && trail.events == old(trail.events) + trace.events
            && (r.Some? <==> trace.completed)
            && (r.Some? ==> trace.orderStatus == Sent(r.value.final.status) && trace.transitions == r.value.transitions
                            && trace.orderReasons == r.value.reasons)
  {
    ghost var calls, events := adapter.calls, trail.events;
    trail.Append(Attempt(order.clientOrderId, order.qty));
    var reply := adapter.Answer(Place(order));
    if reply.Throws? {
      return None;
    }
    r := TrackOrderLifecycle(adapter, reply.state, trail, config.autoCancel);
    ghost var lifecycle := Lifecycle(adapter.hasFetch, adapter.hasCancel, adapter.strategy, calls + [Place(order)], reply.state, config.autoCancel);
    Assoc(calls, [Place(order)], lifecycle.calls);
    Assoc(events, [Attempt(order.clientOrderId, order.qty)], lifecycle.events);
    if r.Some? {
      ghost var result := [OrderResult(r.value.final.orderId, r.value.final.status, order.clientOrderId)];
      Assoc(events, [Attempt(order.clientOrderId, order.qty)] + lifecycle.events, result);
      trail.Append(OrderResult(r.value.final.orderId, r.value.final.status, order.clientOrderId));
    }
  }

  function StreamReason(s: Streams.MonitorStatus): seq<ReasonCode> {
    match s
    case Active => []
    case Reconnecting => [StreamReconnecting]
    case Degraded => [StreamDegraded]
  }

  // The risk-stop event, appended when the order section did not raise.
  function RiskEvents(config: Config, s: Snapshot, trace: RunTrace): seq<AuditEvent> {
    if GuardsPass(config, s) || !trace.completed then []
    else [RiskStop(StatusOf(config, s), Codes(config.Limits(), s.current, CHECKS))]
  }

  function StatusOf(config: Config, s: Snapshot): (status: GuardStatus)
    ensures Verdict(config.Limits(), s.current, status)
  {
    if GuardsPass(config, s) then Success
    else if Exceeded(config.Limits(), s.current, MaxDrawdown) || Exceeded(config.Limits(), s.current, MaxTradeLoss) then Abort
    else DegradedGuard
  }

  ghost predicate ResultOf(config: Config, s: Snapshot, trace: RunTrace, streams: seq<Streams.FirstItem<()>>, r: LiveResult)
    requires |streams| == 2
  {
    var probe := Streams.Join(Streams.StatusOf(streams[0]), Streams.StatusOf(streams[1]));
    && r.status == StatusOf(config, s)
    && r.orderAttempted == r.clientOrderId.Some?
    && r.orderStatus == trace.orderStatus && r.clientOrderId == trace.clientOrderId && r.transitions == trace.transitions
    && r.stopReasons == Codes(config.Limits(), s.current, CHECKS) + trace.orderReasons
    && DecisionOf(config, s).Ok?
    && r.reasons == DecisionOf(config, s).value.reasons + r.stopReasons + StreamReason(probe)
    && r.monitor == if r.status == Success then probe else Streams.Degraded
  }

  // ---- What every run is like

  // The conditions under which an order goes out.
  predicate MayTrade(config: Config, s: Snapshot, balances: Balances) {
    && config.mode == LiveMode && config.executeOrders && config.liveHttpEnabled
    && GuardsPass(config, s)
    && DecisionOf(config, s).Ok? && DecisionOf(config, s).value.action in {Strategy.Buy, Strategy.Sell}
    && Balance(s.availableBalance, balances).Some?
    && SizingInput(config, s, Balance(s.availableBalance, balances).value).Qty() > 0.0
  }

  function TheOrder(config: Config, s: Snapshot, balances: Balances, id: string): Order
    requires MayTrade(config, s, balances)
  {
    Order(config.symbol, DecisionOf(config, s).value.action, SizingInput(config, s, Balance(s.availableBalance, balances).value).Qty(), id)
  }

  // An order is placed exactly under those conditions, once and before any other call; without
  // it the adapter gets no order call at all.
  lemma PlacedExactlyWhen(config: Config, s: Snapshot, balances: Balances, id: string,
                          hasFetch: bool, hasCancel: bool, strategy: seq<Call> -> Reply, before: seq<Call>)
    ensures var calls := OrderSection(config, s, balances, id, hasFetch, hasCancel, strategy, before).calls;
            && (calls != [] <==> MayTrade(config, s, balances))
            && (MayTrade(config, s, balances) ==> calls[0] == Place(TheOrder(config, s, balances, id)))
            && (forall i | 0 <= i < |calls| :: calls[i].Place? ==> i == 0)
            && |calls| <= 3
  {
    if MayTrade(config, s, balances) {
      var place := [Place(TheOrder(config, s, balances, id))];
      match strategy(before + place)
      case Throws(_) =>
      case Returns(placed) =>
        LifecycleCalls(hasFetch, hasCancel, strategy, before + place, placed, config.autoCancel);
    }
  }

  predicate Attempts(e: AuditEvent) {
    e.Attempt? || e.AttemptSkipped? || e.OrderResult? || e.RiskStop?
  }

  lemma LifecycleEvents(hasFetch: bool, hasCancel: bool, strategy: seq<Call> -> Reply, before: seq<Call>, placed: OrderState, autoCancel: bool)
    ensures var events := Lifecycle(hasFetch, hasCancel, strategy, before, placed, autoCancel).events;
            forall i | 0 <= i < |events| :: !Attempts(events[i])
  {
  }

  // In the audit trail a placed order stands between one attempt and, unless an adapter call
  // raised, one result with the same client order id, with the lifecycle's events in between;
  // where none is placed there is no attempt and no result, but at most one skip.
  lemma OrderBracketed(config: Config, s: Snapshot, balances: Balances, id: string,
                       hasFetch: bool, hasCancel: bool, strategy: seq<Call> -> Reply, before: seq<Call>)
    ensures var trace := OrderSection(config, s, balances, id, hasFetch, hasCancel, strategy, before);
            var events, n := trace.events, |trace.events|;
            && (MayTrade(config, s, balances) ==>
                  && n >= 1 && events[0] == Attempt(id, TheOrder(config, s, balances, id).qty)
                  && (trace.completed ==> n >= 2 && events[n - 1].OrderResult? && events[n - 1].clientOrderId == id
                                          && trace.orderStatus == Sent(events[n - 1].status))
                  && (forall i | 0 < i < (if trace.completed then n - 1 else n) :: !Attempts(events[i])))
            && (!MayTrade(config, s, balances) ==> n <= 1 && forall i | 0 <= i < n :: events[i].AttemptSkipped?)
  {
    if MayTrade(config, s, balances) {
      var order := TheOrder(config, s, balances, id);
      var place := [Place(order)];
      match strategy(before + place)
      case Throws(_) =>
      case Returns(placed) =>
        LifecycleEvents(hasFetch, hasCancel, strategy, before + place, placed, config.autoCancel);
    }
  }

  // A completed run that places nothing says why: by a stop reason, or by a decision to hold.
  lemma NoOrderHasReason(config: Config, s: Snapshot, balances: Balances, id: string,
                         hasFetch: bool, hasCancel: bool, strategy: seq<Call> -> Reply, before: seq<Call>)
    requires !MayTrade(config, s, balances)
    ensures var trace := OrderSection(config, s, balances, id, hasFetch, hasCancel, strategy, before);
            trace.completed ==>
              || Codes(config.Limits(), s.current, CHECKS) + trace.orderReasons != []
              || (var d := DecisionOf(config, s).value; d.action == Strategy.Hold && d.reasons != [])
  {
    if !GuardsPass(config, s) {
      NotSuccessHasCode(config.Limits(), s.current, StatusOf(config, s));
    }
  }

  // Whatever reaches the exchange is within the position cap and the risk budget, but for half
  // a unit of the eighth decimal, and on the side of the momentum.
  lemma OrderIsSound(config: Config, s: Snapshot, balances: Balances, id: string)
    requires MayTrade(config, s, balances)
    ensures var order, balance := TheOrder(config, s, balances, id), Balance(s.availableBalance, balances).value;
            var a := SizingInput(config, s, balance);
            && balance >= 0.0 && order.qty >= config.minOrderQty
            && order.qty == a.Qty() && Sizing.NearLimits(a)
            && (order.side == Strategy.Buy ==> s.emaFast > s.emaSlow && Strategy.Below(s.rsi, 70.0))
            && (order.side == Strategy.Sell ==> s.emaFast < s.emaSlow && Strategy.Above(s.rsi, 30.0))
  {
    var a := SizingInput(config, s, Balance(s.availableBalance, balances).value);
    BalanceNonNegative(s.availableBalance, balances);
    SideOfGap(config, s);
    Sizing.QtyShape(a);
    Sizing.QtyWithinLimits(a);
  }

  lemma {:induction false} FirstUsableNonNegative(rows: seq<BalanceRow>)
    ensures FirstUsable(rows) >= 0.0
  {
    if rows != [] && !Usable(rows[0]) {
      FirstUsableNonNegative(rows[1..]);
    }
  }

  lemma BalanceNonNegative(override: Option<real>, balances: Balances)
    ensures Balance(override, balances).Some? ==> Balance(override, balances).value >= 0.0
  {
    if override.None? && balances.Rows? {
      FirstUsableNonNegative(balances.rows);
    }
  }

  lemma SideOfGap(config: Config, s: Snapshot)
    requires DecisionOf(config, s).Ok?
    ensures var action := DecisionOf(config, s).value.action;
            && (action == Strategy.Buy ==> s.emaFast > s.emaSlow && Strategy.Below(s.rsi, 70.0))
            && (action == Strategy.Sell ==> s.emaFast < s.emaSlow && Strategy.Above(s.rsi, 30.0))
  {
    var v := Strategy.Volatility(SignalOf(s));
    DivNumerator(s.emaFast - s.emaSlow, 0.0, v);
    DivNumerator(0.0, s.emaFast - s.emaSlow, v);
    DivUnique(0.0, v, 0.0);
  }

  lemma StopAtAtr(config: Config, s: Snapshot)
    requires DecisionOf(config, s).Ok?
    ensures Abs(s.close - DecisionOf(config, s).value.risk.sl) == Max(s.atr, 1e-9)
  {
    Strategy.DecisionRisk(SignalOf(s), Strategy.Hooks(config.minConfidence, 0, 12, config.maxAtrToPrice, config.minVolumeRatio));
  }

  // The stop of the decision behind an order is one ATR away, so that an order stopped out
  // there loses at most the risk budget, but for half a unit of the eighth decimal.
  lemma StopLossWithinBudget(config: Config, s: Snapshot, balances: Balances, id: string)
    requires MayTrade(config, s, balances)
    ensures var order, stop := TheOrder(config, s, balances, id), DecisionOf(config, s).value.risk.sl;
            Sizing.NearLimit(order.qty, Abs(s.close - stop), SizingInput(config, s, Balance(s.availableBalance, balances).value).RiskBudget())
  {
    var a := SizingInput(config, s, Balance(s.availableBalance, balances).value);
    StopAtAtr(config, s);
    Sizing.QtyWithinLimits(a);
    assert Sizing.NearLimit(a.Qty(), a.Atr(), a.RiskBudget());
  }

  // The progress file of a completed run always names a last error: with no stop reason it is
  // the decision's own reason, even where the guards pass and an order goes out.
  lemma LastErrorNeverEmpty(config: Config, s: Snapshot, trace: RunTrace, streams: seq<Streams.FirstItem<()>>, r: LiveResult)
    requires |streams| == 2 && ResultOf(config, s, trace, streams, r)
    ensures EndRecord(r).status == Finished(r.status) && EndRecord(r).monitor == r.monitor
    ensures EndRecord(r).lastError.Some?
    ensures r.stopReasons != [] ==> EndRecord(r).lastError == Some(r.stopReasons[0])
    ensures r.stopReasons == [] ==> EndRecord(r).lastError == Some(DecisionOf(config, s).value.reasons[0])
  {
    Strategy.DecisionReasons(SignalOf(s), Strategy.Hooks(config.minConfidence, 0, 12, config.maxAtrToPrice, config.minVolumeRatio));
  }

  // ---- The run in the fields of the configuration and the snapshot

  // Every figure is within its own limit.
  predicate WithinLimits(config: Config, now: Figures) {
    && now.drawdown <= config.maxDrawdown
    && now.dailyLoss <= config.dailyLossLimit
    && now.positionSize <= config.maxPositionSize
    && now.tradeLoss <= HalfDailyLimit(config)
    && now.leverage <= config.maxLeverage
    && now.walletDrift <= 0.02
  }

  function HalfDailyLimit(config: Config): real {
    if config.dailyLossLimit > 0.0 then config.dailyLossLimit / 2.0 else 0.0
  }

  lemma GuardsInFields(config: Config, s: Snapshot)
    ensures GuardsPass(config, s) <==> WithinLimits(config, s.current)
  {
    var limits := config.Limits();
    assert limits.tradeLoss == HalfDailyLimit(config);
    if GuardsPass(config, s) {
      assert !Exceeded(limits, s.current, MaxDrawdown) && !Exceeded(limits, s.current, DailyLossLimit);
      assert !Exceeded(limits, s.current, MaxPositionSize) && !Exceeded(limits, s.current, MaxTradeLoss);
      assert !Exceeded(limits, s.current, MaxLeverage) && !Exceeded(limits, s.current, MaxWalletDrift);
    }
  }

  // Nothing below the floor.
  function AtLeastFloor(x: real, floor: real): (r: real)
    ensures r >= x && r >= floor && (r == x || r == floor)
  {
    if x > floor then x else floor
  }

  // The EMAs are more than a fifth of an ATR apart on this side, and the RSI leaves room.
  predicate MomentumOf(s: Snapshot, side: Strategy.Action) {
    var unit := AtLeastFloor(s.atr, 1e-9);
    && s.rsi.Number?
    && match side
       case Buy => Strategy.MoreThan(s.emaFast - s.emaSlow, 0.2, unit) && s.rsi.value < 70.0
       case Sell => Strategy.MoreThan(s.emaSlow - s.emaFast, 0.2, unit) && s.rsi.value > 30.0
       case Hold => false
  }

  // The confidence, the ATR against the price and the volume against its mean meet the
  // thresholds of the configuration.
  predicate MeetsThresholds(config: Config, s: Snapshot) {
    && config.minConfidence <= 1.0
    && Strategy.AtLeast(Abs(s.emaFast - s.emaSlow), config.minConfidence, AtLeastFloor(s.atr, 1e-9))
    && !Strategy.MoreThan(AtLeastFloor(s.atr, 1e-9), config.maxAtrToPrice, AtLeastFloor(Abs(s.close), 1e-9))
    && Strategy.AtLeast(AtLeastFloor(s.volume, 0.0), config.minVolumeRatio, AtLeastFloor(s.volumeMa, 1e-9))
  }

  lemma DecisionInFields(config: Config, s: Snapshot, side: Strategy.Action)
    requires side != Strategy.Hold
    ensures DecisionOf(config, s).Ok? && DecisionOf(config, s).value.action == side <==>
            MomentumOf(s, side) && MeetsThresholds(config, s)
  {
    var ind := SignalOf(s);
    Strategy.TradesInPrices(ind, Strategy.Hooks(config.minConfidence, 0, 12, config.maxAtrToPrice, config.minVolumeRatio));
    assert Strategy.Unit(ind) == AtLeastFloor(s.atr, 1e-9) == Abs(ind.atr);
    assert Strategy.Apart(ind) == s.emaFast - s.emaSlow;
  }

  // The balance, row by row: the first yen row with an amount, the available one before the
  // total, or a million when there is none.
  lemma {:induction false} BalanceInRows(rows: seq<BalanceRow>, k: nat)
    requires k <= |rows|
    requires forall i | 0 <= i < k :: rows[i].asset == "JPY" ==> rows[i].available == None && rows[i].total == None
    requires k < |rows| ==> rows[k].asset == "JPY" && (rows[k].available.Some? || rows[k].total.Some?)
    ensures Balance(None, Rows(rows)) ==
            Some(if k == |rows| then 1000000.0
                 else AtLeastFloor(if rows[k].available.Some? then rows[k].available.value else rows[k].total.value, 0.0))
  {
    if k > 0 {
      BalanceInRows(rows[1..], k - 1);
    }
  }

  // So many units are the size for this configuration, snapshot and balance.
  ghost predicate SizeIs(config: Config, s: Snapshot, balance: real, qty: real) {
    Sizing.IsSize(qty, balance, s.close, s.atr, config.maxPositionSize, config.positionRiskFraction, config.minOrderQty, config.qtyStep)
  }

  lemma SizeInFields(config: Config, s: Snapshot, balance: real, qty: real)
    ensures SizeIs(config, s, balance, qty) <==> qty == SizingInput(config, s, balance).Qty()
  {
    var a := SizingInput(config, s, balance);
    Sizing.SizeIsSize(a);
    if SizeIs(config, s, balance, qty) {
      Sizing.SizeUnique(qty, a.Qty(), balance, s.close, s.atr, config.maxPositionSize, config.positionRiskFraction,
                        config.minOrderQty, config.qtyStep);
    }
  }

  // Everything an order with this side and quantity has to meet.
  ghost predicate MayPlace(config: Config, s: Snapshot, balances: Balances, side: Strategy.Action, qty: real) {
    && config.mode == LiveMode && config.executeOrders && config.liveHttpEnabled
    && WithinLimits(config, s.current)
    && MomentumOf(s, side) && MeetsThresholds(config, s)
    && Balance(s.availableBalance, balances).Some?
    && qty > 0.0 && SizeIs(config, s, Balance(s.availableBalance, balances).value, qty)
  }

  lemma MayTradeInFields(config: Config, s: Snapshot, balances: Balances, id: string)
    ensures MayTrade(config, s, balances) ==>
              var order := TheOrder(config, s, balances, id);
              && order == Order(config.symbol, order.side, order.qty, id) && order.side in {Strategy.Buy, Strategy.Sell}
              && MayPlace(config, s, balances, order.side, order.qty)
    ensures !MayTrade(config, s, balances) ==> forall side, qty :: !MayPlace(config, s, balances, side, qty)
  {
    GuardsInFields(config, s);
    DecisionInFields(config, s, Strategy.Buy);
    DecisionInFields(config, s, Strategy.Sell);
    if Balance(s.availableBalance, balances).Some? {
      var balance := Balance(s.availableBalance, balances).value;
      SizeInFields(config, s, balance, SizingInput(config, s, balance).Qty());
      forall side, qty | MayPlace(config, s, balances, side, qty)
        ensures MayTrade(config, s, balances)
      {
        SizeInFields(config, s, balance, qty);
      }
    }
  }

  // The calls of the order section start with placing an order exactly when some side and
  // quantity meet every condition; then the order has these.
  lemma PlacedInFields(config: Config, s: Snapshot, balances: Balances, id: string,
                       hasFetch: bool, hasCancel: bool, strategy: seq<Call> -> Reply, before: seq<Call>)
    ensures var calls := OrderSection(config, s, balances, id, hasFetch, hasCancel, strategy, before).calls;
            && (calls != [] <==> exists side, qty :: MayPlace(config, s, balances, side, qty))
            && (calls != [] ==>
                  && calls[0].Place? && calls[0].order.symbol == config.symbol && calls[0].order.clientOrderId == id
                  && MayPlace(config, s, balances, calls[0].order.side, calls[0].order.qty))
            && (forall i | 0 <= i < |calls| :: calls[i].Place? ==> i == 0)
  {
    PlacedExactlyWhen(config, s, balances, id, hasFetch, hasCancel, strategy, before);
    MayTradeInFields(config, s, balances, id);
  }

  predicate OrderCode(code: ReasonCode) {
    code in {ExecuteOrdersDisabled, LiveHttpDisabled, OrderSizeTooSmall, OrderFetchFailed, OrderCancelFailed, OrderRejected}
  }

  lemma OrderCodes(config: Config, s: Snapshot, balances: Balances, id: string,
                   hasFetch: bool, hasCancel: bool, strategy: seq<Call> -> Reply, before: seq<Call>)
    ensures var trace := OrderSection(config, s, balances, id, hasFetch, hasCancel, strategy, before);
            && (forall code <- trace.orderReasons :: OrderCode(code))
            && (trace.completed ==> (ExecuteOrdersDisabled in trace.orderReasons <==> !config.executeOrders))
  {
    if MayTrade(config, s, balances) {
      var place := [Place(TheOrder(config, s, balances, id))];
      match strategy(before + place)
      case Throws(_) =>
      case Returns(placed) =>
        LifecycleResult(hasFetch, hasCancel, strategy, before + place, placed, config.autoCancel);
    }
  }

  // The result of a completed run reports each risk code exactly for its own figure above its
  // own limit, the status that goes with them, and the state of the streams last.
  lemma ResultInFields(config: Config, s: Snapshot, balances: Balances, id: string, hasFetch: bool, hasCancel: bool,
                       strategy: seq<Call> -> Reply, before: seq<Call>, streams: seq<Streams.FirstItem<()>>, r: LiveResult)
    requires |streams| == 2
    requires var trace := OrderSection(config, s, balances, id, hasFetch, hasCancel, strategy, before);
             trace.completed && ResultOf(config, s, trace, streams, r)
    ensures CodesReported(config, s.current, r.stopReasons)
    ensures r.status == Success <==> WithinLimits(config, s.current)
    ensures r.status == Abort <==> s.current.drawdown > config.maxDrawdown || s.current.tradeLoss > HalfDailyLimit(config)
    ensures ExecuteOrdersDisabled in r.stopReasons <==> !config.executeOrders
    ensures var probe := Streams.Join(Streams.StatusOf(streams[0]), Streams.StatusOf(streams[1]));
            && (probe == Streams.Reconnecting ==> r.reasons != [] && r.reasons[|r.reasons| - 1] == StreamReconnecting)
            && (probe == Streams.Degraded ==> r.reasons != [] && r.reasons[|r.reasons| - 1] == StreamDegraded)
            && r.monitor == if WithinLimits(config, s.current) then probe else Streams.Degraded
  {
    var guardCodes := Codes(config.Limits(), s.current, CHECKS);
    GuardsInFields(config, s);
    CodesInFigures(config.Limits(), s.current);
    OrderCodes(config, s, balances, id, hasFetch, hasCancel, strategy, before);
    forall code <- guardCodes
      ensures !OrderCode(code)
    {
      OnlyGuardCodes(config.Limits(), s.current, CHECKS, code);
    }
  }

  // Some side has momentum and meets the thresholds.
  predicate WantsTrade(config: Config, s: Snapshot) {
    (MomentumOf(s, Strategy.Buy) || MomentumOf(s, Strategy.Sell)) && MeetsThresholds(config, s)
  }

  // The order status of a completed run names the first condition that failed, and so does the
  // event that stands for the order.
  lemma StatusInFields(config: Config, s: Snapshot, balances: Balances, id: string,
                       hasFetch: bool, hasCancel: bool, strategy: seq<Call> -> Reply, before: seq<Call>)
    requires OrderSection(config, s, balances, id, hasFetch, hasCancel, strategy, before).completed
    ensures var trace := OrderSection(config, s, balances, id, hasFetch, hasCancel, strategy, before);
            var (within, wants) := (WithinLimits(config, s.current), WantsTrade(config, s));
            if !config.executeOrders then trace.orderStatus == NotAttempted && trace.events == []
            else if !within then trace.orderStatus == SkippedDueToRisk && trace.events == []
            else if !wants then trace.orderStatus == SkippedByStrategy && trace.events == [AttemptSkipped(None)]
            else if config.mode != LiveMode || !config.liveHttpEnabled then
              trace.orderStatus == SkippedHttpDisabled && trace.events == [AttemptSkipped(Some(LiveHttpDisabled))]
            else
              && Balance(s.availableBalance, balances).Some?
              && if SizeIs(config, s, Balance(s.availableBalance, balances).value, 0.0)
                 then trace.orderStatus == SkippedQtyTooSmall && trace.events == [AttemptSkipped(Some(OrderSizeTooSmall))]
                 else trace.orderStatus.Sent?
  {
    GuardsInFields(config, s);
    DecisionInFields(config, s, Strategy.Buy);
    DecisionInFields(config, s, Strategy.Sell);
    if Balance(s.availableBalance, balances).Some? {
      var balance := Balance(s.availableBalance, balances).value;
      SizeInFields(config, s, balance, 0.0);
      Sizing.QtyShape(SizingInput(config, s, balance));
    }
  }

  predicate CodesReported(config: Config, now: Figures, codes: seq<ReasonCode>) {
    && (MaxDrawdownExceeded in codes <==> now.drawdown > config.maxDrawdown)
    && (DailyLossLimitExceeded in codes <==> now.dailyLoss > config.dailyLossLimit)
    && (MaxPositionSizeExceeded in codes <==> now.positionSize > config.maxPositionSize)
    && (MaxTradeLossExceeded in codes <==> now.tradeLoss > HalfDailyLimit(config))
    && (MaxLeverageExceeded in codes <==> now.leverage > config.maxLeverage)
    && (WalletDriftExceeded in codes <==> now.walletDrift > 0.02)
  }
}
