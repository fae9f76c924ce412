/**
  `_track_order_lifecycle` against any adapter. The adapter is a class that records the
  calls made to it and answers each as its strategy says, which may depend on all calls so
  far; the audit trail records the events appended.
 */
module OrderLifecycle {
  import opened Wrappers
  import opened ReasonCodes
  import opened RiskGuards
  import opened Strategy

  // The statuses the code compares with, and all others.
  datatype Status = Accepted | Active | Rejected | ErrorStatus | OtherStatus(name: string)

  // Source code and retryable flag found in the raw error, if any.
  datatype ErrorInfo = ErrorInfo(sourceCode: Option<string>, retryable: Option<bool>)

  datatype OrderState = OrderState(orderId: string, status: Status, info: ErrorInfo)

  datatype Order = Order(symbol: string, side: Action, qty: real, clientOrderId: string)

  datatype Call = Place(order: Order) | Fetch(orderId: string) | Cancel(orderId: string)

  datatype Reply = Returns(state: OrderState) | Throws(message: string)

  datatype AuditEvent =
    | AttemptSkipped(reason: Option<ReasonCode>)
    | Attempt(clientOrderId: string, qty: real)
    | FetchResult(orderId: string, status: Status, info: ErrorInfo)
    | CancelResult(orderId: string, status: Status, info: ErrorInfo)
    | CancelSkipped(orderId: string)
    | OrderResult(orderId: string, status: Status, clientOrderId: string)
    | RiskStop(guard: GuardStatus, codes: seq<ReasonCode>)

  class Adapter {
    const hasFetch: bool
    const hasCancel: bool
    const strategy: seq<Call> -> Reply
    var calls: seq<Call>

    constructor (hasFetch: bool, hasCancel: bool, strategy: seq<Call> -> Reply)
      ensures this.hasFetch == hasFetch && this.hasCancel == hasCancel && this.strategy == strategy && calls == []
    {
      this.hasFetch, this.hasCancel, this.strategy, calls := hasFetch, hasCancel, strategy, [];
    }

    method Answer(call: Call) returns (reply: Reply)
      modifies this
      ensures calls == old(calls) + [call] && reply == strategy(calls)
    {
      calls := calls + [call];
      reply := strategy(calls);
    }
  }

  class Trail {
    var events: seq<AuditEvent>

    constructor ()
      ensures events == []
    {
      events := [];
    }

    method Append(event: AuditEvent)
      modifies this
      ensures events == old(events) + [event]
    {
      events := events + [event];
    }
  }

  datatype Tracked = Tracked(final: OrderState, reasons: seq<ReasonCode>, retryable: Option<bool>, transitions: seq<Status>)

  // Calls made, events appended and result; None when an adapter call raised.
  datatype Trace = Trace(calls: seq<Call>, events: seq<AuditEvent>, tracked: Option<Tracked>)

  // What is known of the order once it is placed, or fetched: its state, and the trace so far.
  datatype Progress = Progress(state: OrderState, retryable: Option<bool>, transitions: seq<Status>, trace: Trace)

  // The lifecycle as a function of how the adapter answers. `before` are the earlier calls.
  function Lifecycle(hasFetch: bool, hasCancel: bool, strategy: seq<Call> -> Reply, before: seq<Call>,
                     placed: OrderState, autoCancel: bool): Trace
  {
    if placed.status !in {Accepted, Active} || !hasFetch then
      CancelStage(hasCancel, strategy, before, autoCancel, Progress(placed, None, [placed.status], Trace([], [], None)))
    else
      var call := Fetch(placed.orderId);
      match strategy(before + [call])
      case Throws(_) => Trace([call], [], None)
      case Returns(fetched) =>
        var events := [FetchResult(fetched.orderId, fetched.status, fetched.info)];
        var transitions := [placed.status] + [fetched.status];
        if fetched.status == ErrorStatus then
          Trace([call], events, Some(Tracked(fetched, [OrderFetchFailed], fetched.info.retryable, transitions)))
        else
          CancelStage(hasCancel, strategy, before, autoCancel,
                      Progress(fetched, fetched.info.retryable, transitions, Trace([call], events, None)))
  }

  function CancelStage(hasCancel: bool, strategy: seq<Call> -> Reply, before: seq<Call>, autoCancel: bool, p: Progress): Trace {
    if p.state.status == Active && !autoCancel then
      Trace(p.trace.calls, p.trace.events + [CancelSkipped(p.state.orderId)],
            Some(Tracked(p.state, [], p.retryable, p.transitions)))
    else if p.state.status == Active && hasCancel then
      var call := Cancel(p.state.orderId);
      var calls := p.trace.calls + [call];
      match strategy(before + calls)
      case Throws(_) => Trace(calls, p.trace.events, None)
      case Returns(cancelled) =>
        var events := p.trace.events + [CancelResult(cancelled.orderId, cancelled.status, cancelled.info)];
        var transitions := p.transitions + [cancelled.status];
        var reasons := if cancelled.status == ErrorStatus then [OrderCancelFailed]
                       else if cancelled.status == Rejected then [OrderRejected] else [];
        Trace(calls, events, Some(Tracked(cancelled, reasons, cancelled.info.retryable, transitions)))
    else
      Trace(p.trace.calls, p.trace.events,
            Some(Tracked(p.state, if p.state.status == Rejected then [OrderRejected] else [], p.retryable, p.transitions)))
  }

  method TrackOrderLifecycle(adapter: Adapter, placed: OrderState, trail: Trail, autoCancel: bool) returns (r: Option<Tracked>)
    modifies adapter, trail
    ensures var trace := Lifecycle(adapter.hasFetch, adapter.hasCancel, adapter.strategy, old(adapter.calls), placed, autoCancel);
            && adapter.calls == old(adapter.calls) + trace.calls
            && trail.events == old(trail.events) + trace.events
            && r == trace.tracked
  {
    ghost var trace := Lifecycle(adapter.hasFetch, adapter.hasCancel, adapter.strategy, adapter.calls, placed, autoCancel);
    var state := placed;
    var transitions := [state.status];
    var reasons: seq<ReasonCode> := [];
    var retryable: Option<bool> := None;
    if state.status in {Accepted, Active} && adapter.hasFetch {
      var reply := adapter.Answer(Fetch(state.orderId));
      if reply.Throws? {
        return None;
      }
      var fetched := reply.state;
      transitions := transitions + [fetched.status];
      retryable := fetched.info.retryable;
      trail.Append(FetchResult(fetched.orderId, fetched.status, fetched.info));
      if fetched.status == ErrorStatus {
        reasons := reasons + [OrderFetchFailed];
        assert reasons == [OrderFetchFailed];
        return Some(Tracked(fetched, reasons, retryable, transitions));
      }
      state := fetched;
    }
    if state.status == Active && !autoCancel {
      trail.Append(CancelSkipped(state.orderId));
      assert trail.events == old(trail.events) + trace.events;
      return Some(Tracked(state, reasons, retryable, transitions));
    }
    if state.status == Active && adapter.hasCancel {
      ghost var made := adapter.calls[|old(adapter.calls)|..];
      var reply := adapter.Answer(Cancel(state.orderId));
      assert adapter.calls == old(adapter.calls) + (made + [Cancel(state.orderId)]);
      if reply.Throws? {
        return None;
      }
      var cancelled := reply.state;
      transitions := transitions + [cancelled.status];
      retryable := cancelled.info.retryable;
      trail.Append(CancelResult(cancelled.orderId, cancelled.status, cancelled.info));
      assert trail.events == old(trail.events) + trace.events;
      if cancelled.status == ErrorStatus {
        reasons := reasons + [OrderCancelFailed];
        assert reasons == [OrderCancelFailed];
        return Some(Tracked(cancelled, reasons, retryable, transitions));
      }
      state := cancelled;
    }
    if state.status == Rejected {
      reasons := reasons + [OrderRejected];
      assert reasons == [OrderRejected];
    }
    return Some(Tracked(state, reasons, retryable, transitions));
  }

  // ---- What every lifecycle is like

  // At most one fetch, of the placed order, and then at most one cancel.
  lemma LifecycleCalls(hasFetch: bool, hasCancel: bool, strategy: seq<Call> -> Reply, before: seq<Call>, placed: OrderState, autoCancel: bool)
    ensures var calls := Lifecycle(hasFetch, hasCancel, strategy, before, placed, autoCancel).calls;
            && |calls| <= 2
            && (forall i | 0 <= i < |calls| :: calls[i].Fetch? ==> i == 0 && calls[i].orderId == placed.orderId)
            && (forall i | 0 <= i < |calls| :: calls[i].Cancel? ==> i == |calls| - 1 && autoCancel && hasCancel)
            && (forall i | 0 <= i < |calls| :: !calls[i].Place?)
            && (calls != [] && calls[0].Fetch? <==> placed.status in {Accepted, Active} && hasFetch)
  {
  }

  // The order's latest known state when it comes to cancelling, if it does.
  function Latest(hasFetch: bool, strategy: seq<Call> -> Reply, before: seq<Call>, placed: OrderState): Option<OrderState> {
    if placed.status !in {Accepted, Active} || !hasFetch then Some(placed) else
    match strategy(before + [Fetch(placed.orderId)])
    case Throws(_) => None
    case Returns(fetched) => if fetched.status == ErrorStatus then None else Some(fetched)
  }

  // A cancel is sent exactly for an order whose latest state is active, under auto-cancel.
  lemma CancelExactlyWhen(hasFetch: bool, hasCancel: bool, strategy: seq<Call> -> Reply, before: seq<Call>, placed: OrderState, autoCancel: bool)
    ensures var calls := Lifecycle(hasFetch, hasCancel, strategy, before, placed, autoCancel).calls;
            var latest := Latest(hasFetch, strategy, before, placed);
            && ((exists i :: 0 <= i < |calls| && calls[i].Cancel?) <==>
                (latest.Some? && latest.value.status == Active && autoCancel && hasCancel))
            && (forall i | 0 <= i < |calls| && calls[i].Cancel? :: calls[i] == Cancel(latest.value.orderId))
  {
    var calls := Lifecycle(hasFetch, hasCancel, strategy, before, placed, autoCancel).calls;
    var latest := Latest(hasFetch, strategy, before, placed);
    if latest.Some? && latest.value.status == Active && autoCancel && hasCancel {
      assert calls[|calls| - 1].Cancel?;
    }
  }

  // One status per call after the placed one, ending in the status returned; at most one
  // reason code, told by that status and the last call.
  lemma LifecycleResult(hasFetch: bool, hasCancel: bool, strategy: seq<Call> -> Reply, before: seq<Call>, placed: OrderState, autoCancel: bool)
    ensures var trace := Lifecycle(hasFetch, hasCancel, strategy, before, placed, autoCancel);
            trace.tracked.Some? ==>
              var t, n := trace.tracked.value, |trace.calls|;
              && |t.transitions| == 1 + n
              && t.transitions[0] == placed.status && t.transitions[n] == t.final.status
              && t.reasons == (if t.final.status == ErrorStatus && n > 0 then
                                 [if trace.calls[n - 1].Fetch? then OrderFetchFailed else OrderCancelFailed]
                               else if t.final.status == Rejected then [OrderRejected]
                               else [])
              && t.retryable == (if n == 0 then None else t.final.info.retryable)
              && |trace.events| == n + (if t.final.status == Active && !autoCancel then 1 else 0)
              && (t.final.status == Active ==>
                    !autoCancel || !hasCancel || (n > 0 && trace.calls[n - 1].Cancel?))
  {
  }
}
