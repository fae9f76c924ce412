/**
  The one-reconnect event streams (`_iter_with_reconnect`, `_iter_ws_stream`) drained
  by a consumer, and the probe that looks at their first items.
 */
module Streams {
  import opened Wrappers
  import opened Errors
  import opened Seqs

  // The exception classes the handlers tell apart: the ones both treat as a lost connection
  // (URLError, ConnectionError, TimeoutError), PermissionError, other OSErrors, the rest.
  datatype Kind = Disconnect | Permission | OtherOs | Unexpected

  datatype Failure = Failure(kind: Kind, message: string)

  // Iterating a source gives payloads, then ends or raises.
  datatype Source<P> = Source(payloads: seq<P>, end: Option<Failure>)

  datatype Opening<P> = Raises(failure: Failure) | Opens(source: Source<P>)

  datatype Item<E> = Event(event: E) | Error(error: NormalizedError)

  // `uncaught` is an exception that leaves the generator.
  datatype Output<E> = Output(items: seq<Item<E>>, sources: nat, uncaught: Option<Failure>)

  // Events parsed before the source, or the parser, stops.
  function Drain<P, E>(source: Source<P>, parser: P -> Result<E, Failure>): (seq<Item<E>>, Option<Failure>)
    decreases |source.payloads|
  {
    if source.payloads == [] then ([], source.end) else
    match parser(source.payloads[0])
    case Err(failure) => ([], Some(failure))
    case Ok(event) =>
      var (items, end) := Drain(source.(payloads := source.payloads[1..]), parser);
      ([Event(event)] + items, end)
  }

  // The `for payload in source: yield parser(payload)` loop.
  method DrainSource<P, E>(source: Source<P>, parser: P -> Result<E, Failure>)
    returns (items: seq<Item<E>>, end: Option<Failure>)
    ensures (items, end) == Drain(source, parser)
  {
    items := [];
    var left := source;
    assert [] + Drain(left, parser).0 == Drain(left, parser).0;
    while left.payloads != []
      invariant Drain(source, parser).0 == items + Drain(left, parser).0
      invariant Drain(source, parser).1 == Drain(left, parser).1
      decreases |left.payloads|
    {
      var parsed := parser(left.payloads[0]);
      if parsed.Err? {
        assert items + [] == items;
        return items, Some(parsed.error);
      }
      items := items + [Event(parsed.value)];
      left := left.(payloads := left.payloads[1..]);
    }
    assert items + [] == items;
    return items, left.end;
  }

  // What a handler yields for an exception. A network error is followed by one reconnect, the
  // other ones end the stream.
  function FactoryHandler(f: Failure): NormalizedError {
    NormalizeError(Some(if f.kind == Disconnect then "NETWORK_TIMEOUT" else "EXCHANGE_ERROR"), f.message)
  }

  function SocketHandler(f: Failure): NormalizedError {
    NormalizeError(Some(match f.kind
                        case Permission => "AUTH_FAILED"
                        case Unexpected => "EXCHANGE_ERROR"
                        case _ => "NETWORK_TIMEOUT"), f.message)
  }

  lemma HandlerCategories(f: Failure)
    ensures var e := FactoryHandler(f);
            && (e.category == Network <==> f.kind == Disconnect)
            && (e.category == Exchange <==> f.kind != Disconnect)
            && e.retryable && e.message == f.message
    ensures var e := SocketHandler(f);
            && (e.category == Auth <==> f.kind == Permission)
            && (e.category == Exchange <==> f.kind == Unexpected)
            && (e.category == Network <==> f.kind in {Disconnect, OtherOs})
            && (e.retryable <==> f.kind != Permission) && e.message == f.message
  {
    OwnCodes();
  }

  // ---- What a stream yields

  function ErrorTail<E>(end: Option<Failure>, handler: Failure -> NormalizedError): seq<Item<E>> {
    if end.None? then [] else [Error(handler(end.value))]
  }

  predicate Reconnects(end: Option<Failure>, handler: Failure -> NormalizedError) {
    end.Some? && handler(end.value).category == Network
  }

  // All of the first source, its error if it raises, and after a network error all of a second
  // source and its error.
  function StreamOutput<P, E>(open: nat -> Opening<P>, parser: P -> Result<E, Failure>, handler: Failure -> NormalizedError): Output<E> {
    match open(0)
    case Raises(f) => Output([], 1, Some(f))
    case Opens(source) =>
      var (items, end) := Drain(source, parser);
      var first := items + ErrorTail(end, handler);
      if !Reconnects(end, handler) then Output(first, 1, None) else
      match open(1)
      case Raises(f) => Output(first, 2, Some(f))
      case Opens(source') =>
        var (items', end') := Drain(source', parser);
        Output(first + (items' + ErrorTail(end', handler)), 2, None)
  }

  // `factory()` is called outside the `try`: what it raises is not turned into an item.
  method IterWithReconnect<P, E>(factory: Option<nat -> Opening<P>>, parser: P -> Result<E, Failure>)
    returns (out: Output<E>)
    ensures factory.None? ==> out == Output([], 0, None)
    ensures factory.Some? ==> out == StreamOutput(factory.value, parser, FactoryHandler)
  {
    if factory.None? {
      return Output([], 0, None);
    }
    HandlerKinds();
    var items: seq<Item<E>>, sources, reconnectAttempts := [], 0, 0;
    while true
      invariant sources == reconnectAttempts <= 1
      invariant sources == 0 ==> items == []
      invariant sources == 1 ==> AfterFirst(items, factory.value, parser, FactoryHandler)
      decreases 2 - sources
    {
      var opening := factory.value(sources);
      sources := sources + 1;
      if opening.Raises? {
        return Output(items, sources, Some(opening.failure));
      }
      var events, end := DrainSource(opening.source, parser);
      if end.None? {
        return Output(items + events, sources, None);
      }
      Assoc(items, events, [Error(FactoryHandler(end.value))]);
      items := items + events + [Error(FactoryHandler(end.value))];
      if end.value.kind != Disconnect {
        return Output(items, sources, None);
      }
      reconnectAttempts := reconnectAttempts + 1;
      if reconnectAttempts > 1 {
        return Output(items, sources, None);
      }
    }
  }

  // The state in which the loops come round again.
  ghost predicate AfterFirst<P, E>(items: seq<Item<E>>, open: nat -> Opening<P>, parser: P -> Result<E, Failure>,
                                   handler: Failure -> NormalizedError)
  {
    && open(0).Opens?
    && var (events, end) := Drain(open(0).source, parser);
      && Reconnects(end, handler)
      && items == events + ErrorTail(end, handler)
  }

  lemma HandlerKinds()
    ensures forall f {:trigger FactoryHandler(f)} :: FactoryHandler(f).category == Network <==> f.kind == Disconnect
    ensures forall f {:trigger SocketHandler(f)} :: SocketHandler(f).category == Network <==> f.kind in {Disconnect, OtherOs}
  {
    forall f: Failure
      ensures FactoryHandler(f).category == Network <==> f.kind == Disconnect
      ensures SocketHandler(f).category == Network <==> f.kind in {Disconnect, OtherOs}
    {
      HandlerCategories(f);
    }
  }

  const MISSING_CREDENTIALS := NormalizeError(Some("AUTH_FAILED"), "missing_gmo_api_credentials")

  // Connecting is part of iterating the source here, so every exception becomes an item.
  method IterWsStream<P, E>(authRequired: bool, credentials: bool, connect: nat -> Source<P>, parser: P -> Result<E, Failure>)
    returns (out: Output<E>)
    ensures authRequired && !credentials ==> out == Output([Error(MISSING_CREDENTIALS)], 0, None)
    ensures authRequired && !credentials ==>
              out.items == [Error(NormalizedError(Auth, false, Some("AUTH_FAILED"), "missing_gmo_api_credentials"))]
    ensures !authRequired || credentials ==> out == StreamOutput((n: nat) => Opens(connect(n)), parser, SocketHandler)
  {
    if authRequired && !credentials {
      OwnCodes();
      return Output([Error(MISSING_CREDENTIALS)], 0, None);
    }
    HandlerKinds();
    ghost var open := (n: nat) => Opens(connect(n));
    var items: seq<Item<E>>, sources, reconnectAttempts := [], 0, 0;
    while true
      invariant sources == reconnectAttempts <= 1
      invariant sources == 0 ==> items == []
      invariant sources == 1 ==> AfterFirst(items, open, parser, SocketHandler)
      decreases 2 - sources
    {
      var source := connect(sources);
      assert open(sources) == Opens(source);
      sources := sources + 1;
      var events, end := DrainSource(source, parser);
      if end.None? {
        return Output(items + events, sources, None);
      }
      Assoc(items, events, [Error(SocketHandler(end.value))]);
      items := items + events + [Error(SocketHandler(end.value))];
      if end.value.kind == Permission {
        return Output(items, sources, None);
      } else if end.value.kind in {Disconnect, OtherOs} {
        reconnectAttempts := reconnectAttempts + 1;
        if reconnectAttempts > 1 {
          return Output(items, sources, None);
        }
      } else {
        return Output(items, sources, None);
      }
    }
  }

  // ---- Properties of the streams

  // A drained source gives the longest prefix of its payloads that the parser takes.
  lemma {:induction false} DrainPrefix<P, E>(source: Source<P>, parser: P -> Result<E, Failure>)
    ensures var (items, end) := Drain(source, parser);
            && |items| <= |source.payloads|
            && (forall i | 0 <= i < |items| :: parser(source.payloads[i]).Ok? && items[i] == Event(parser(source.payloads[i]).value))
            && if |items| == |source.payloads| then end == source.end
               else parser(source.payloads[|items|]).Err? && end == Some(parser(source.payloads[|items|]).error)
    decreases |source.payloads|
  {
    if source.payloads != [] && parser(source.payloads[0]).Ok? {
      DrainPrefix(source.(payloads := source.payloads[1..]), parser);
    }
  }

  function ErrorsIn<E>(items: seq<Item<E>>): seq<NormalizedError> {
    if items == [] then []
    else (if items[0].Error? then [items[0].error] else []) + ErrorsIn(items[1..])
  }

  lemma {:induction false} ErrorsInConcat<E>(a: seq<Item<E>>, b: seq<Item<E>>)
    ensures ErrorsIn(a + b) == ErrorsIn(a) + ErrorsIn(b)
  {
    if a == [] {
      assert a + b == b;
    } else {
      assert (a + b)[1..] == a[1..] + b && (a + b)[0] == a[0];
      ErrorsInConcat(a[1..], b);
      Assoc(if a[0].Error? then [a[0].error] else [], ErrorsIn(a[1..]), ErrorsIn(b));
    }
  }

  lemma {:induction false} NoErrorsInEvents<E>(items: seq<Item<E>>)
    requires forall i | 0 <= i < |items| :: items[i].Event?
    ensures ErrorsIn(items) == []
  {
    if items != [] {
      NoErrorsInEvents(items[1..]);
    }
  }

  lemma OneSource<P, E>(source: Source<P>, parser: P -> Result<E, Failure>, handler: Failure -> NormalizedError)
    ensures var (items, end) := Drain(source, parser);
            && (forall i | 0 <= i < |items| :: items[i].Event?)
            && ErrorsIn(items + ErrorTail(end, handler)) == if end.None? then [] else [handler(end.value)]
  {
    DrainPrefix(source, parser);
    var (items, end) := Drain(source, parser);
    NoErrorsInEvents(items);
    ErrorsInConcat(items, ErrorTail(end, handler));
  }

  // Two sources that both end in an exception.
  lemma FailingSources<P, E>(open: nat -> Opening<P>, parser: P -> Result<E, Failure>, handler: Failure -> NormalizedError,
                             s: Source<P>, items: seq<Item<E>>, f: Failure, s': Source<P>, items': seq<Item<E>>, f': Failure)
    requires open(0) == Opens(s) && Drain(s, parser) == (items, Some(f))
    requires open(1) == Opens(s') && Drain(s', parser) == (items', Some(f'))
    ensures StreamOutput(open, parser, handler) ==
            if handler(f).category == Network
            then Output(items + [Error(handler(f))] + (items' + [Error(handler(f'))]), 2, None)
            else Output(items + [Error(handler(f))], 1, None)
  {
  }

  // At most two sources and two errors: a second source follows exactly a network error.
  lemma StreamErrors<P, E>(open: nat -> Opening<P>, parser: P -> Result<E, Failure>, handler: Failure -> NormalizedError)
    ensures var out := StreamOutput(open, parser, handler);
            var errors := ErrorsIn(out.items);
            && 1 <= out.sources <= 2 && |errors| <= out.sources
            && (out.sources == 2 <==> errors != [] && errors[0].category == Network)
  {
    if open(0).Opens? {
      OneSource(open(0).source, parser, handler);
      var (items, end) := Drain(open(0).source, parser);
      if Reconnects(end, handler) && open(1).Opens? {
        OneSource(open(1).source, parser, handler);
        var (items', end') := Drain(open(1).source, parser);
        ErrorsInConcat(items + ErrorTail(end, handler), items' + ErrorTail(end', handler));
      }
    }
  }

  // Nothing follows an error that is not a network error.
  lemma TerminalErrorIsLast<P, E>(open: nat -> Opening<P>, parser: P -> Result<E, Failure>, handler: Failure -> NormalizedError, i: nat)
    requires var items := StreamOutput(open, parser, handler).items;
             i < |items| && items[i].Error? && items[i].error.category != Network
    ensures i == |StreamOutput(open, parser, handler).items| - 1
  {
    OneSource(open(0).source, parser, handler);
    var (events, end) := Drain(open(0).source, parser);
    if i >= |events| + 1 {
      OneSource(open(1).source, parser, handler);
    }
  }

  // ---- The monitor probe

  datatype MonitorStatus = Active | Reconnecting | Degraded

  function Severity(s: MonitorStatus): nat {
    match s
    case Active => 0
    case Reconnecting => 1
    case Degraded => 2
  }

  function Join(a: MonitorStatus, b: MonitorStatus): MonitorStatus {
    if Severity(a) < Severity(b) then b else a
  }

  // What `next(iter(stream()), None)` comes to for one of the adapter's two streams.
  datatype FirstItem<E> = NoSuchStream | Raised | Exhausted | First(item: Item<E>)

  function StatusOf<E>(first: FirstItem<E>): MonitorStatus {
    match first
    case Raised => Degraded
    case First(Error(e)) => if e.retryable then Reconnecting else Degraded
    case _ => Active
  }

  // `_probe_stream_monitor_status`: the worse of the two streams' statuses, although the
  // second stream is not looked at once the first is degraded.
  method ProbeStatus<E>(streams: seq<FirstItem<E>>) returns (status: MonitorStatus, looked: nat)
    requires |streams| == 2
    ensures status == Join(StatusOf(streams[0]), StatusOf(streams[1]))
    ensures looked == if StatusOf(streams[0]) == Degraded then 1 else 2
  {
    var reconnecting := false;
    looked := 0;
    for i := 0 to 2
      invariant looked == i
      invariant forall j | 0 <= j < i :: StatusOf(streams[j]) != Degraded
      invariant reconnecting <==> exists j | 0 <= j < i :: StatusOf(streams[j]) == Reconnecting
    {
      looked := looked + 1;
      match streams[i]
      case NoSuchStream =>
      case Raised => return Degraded, looked;
      case Exhausted =>
      case First(Event(_)) =>
      case First(Error(e)) =>
        if e.retryable {
          reconnecting := true;
        } else {
          return Degraded, looked;
        }
    }
    status := if reconnecting then Reconnecting else Active;
  }

  // The first item of a generator that yields `out`.
  function FirstOf<E>(out: Output<E>): FirstItem<E> {
    if out.items != [] then First(out.items[0])
    else if out.uncaught.Some? then Raised
    else Exhausted
  }

  // Whether the first attempt gives an event before it fails.
  ghost predicate FailsAtOnce<P, E>(source: Source<P>, parser: P -> Result<E, Failure>) {
    if source.payloads == [] then source.end.Some? else parser(source.payloads[0]).Err?
  }

  // A factory-fed stream is degraded only when the factory itself raises: every failure of
  // the source, even one that ends the stream for good, is reported as reconnecting.
  lemma FactoryStreamStatus<P, E>(factory: nat -> Opening<P>, parser: P -> Result<E, Failure>)
    ensures StatusOf(FirstOf(StreamOutput(factory, parser, FactoryHandler))) ==
            match factory(0)
            case Raises(_) => Degraded
            case Opens(source) => if FailsAtOnce(source, parser) then Reconnecting else Active
  {
    match factory(0)
    case Raises(_) =>
    case Opens(source) =>
      var (items, end) := Drain(source, parser);
      if FailsAtOnce(source, parser) {
        HandlerCategories(end.value);
      }
  }

  // A socket-fed stream is degraded when its first failure is a permission failure.
  lemma SocketStreamStatus<P, E>(connect: nat -> Source<P>, parser: P -> Result<E, Failure>)
    ensures var source := connect(0);
            StatusOf(FirstOf(StreamOutput((n: nat) => Opens(connect(n)), parser, SocketHandler))) ==
            if !FailsAtOnce(source, parser) then Active
            else if Drain(source, parser).1.value.kind == Permission then Degraded
            else Reconnecting
    ensures StatusOf(FirstOf(Output<E>.Output([Error(MISSING_CREDENTIALS)], 0, None))) == Degraded
  {
    OwnCodes();
    var (items, end) := Drain(connect(0), parser);
    if FailsAtOnce(connect(0), parser) {
      HandlerCategories(end.value);
    }
  }
}
