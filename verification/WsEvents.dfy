/**
  The event stream over a WebSocket: what `_iter_ws_stream` yields when its sources are
  reads of `_open_ws_stream`.
 */
module WsEvents {
  import opened Wrappers
  import opened Errors
  import opened Streams
  import opened Bytes
  import WsStream

  // The exception class each end of a read raises. A closed connection and a close frame
  // raise ConnectionError, a timeout TimeoutError, a failed send OSError, bad JSON ValueError.
  function FailureOf(e: WsStream.WsError, message: string): Failure {
    Failure(match e
            case SendFailed => OtherOs
            case BadJson => Unexpected
            case _ => Disconnect, message)
  }

  function SourceOf<J>(items: seq<J>, end: WsStream.WsError, message: string): Source<J> {
    Source(items, Some(FailureOf(end, message)))
  }

  // A connection: the bytes that arrive, how many pongs can be sent, how it ends, and the text
  // of the exception it ends with.
  datatype Connection = Connection(bytes: seq<Byte>, sends: nat, ending: WsStream.Ending, message: string)

  // What reading the connection comes to, whatever the chunks.
  ghost function Read<J(!new)>(c: Connection, utf8: seq<Byte> -> string, json: string -> WsStream.Json<J>): (run: WsStream.Run<J>)
    ensures WsStream.Outcome(c.bytes, c.sends, c.ending, run, utf8, json)
  {
    ReadExists(c, utf8, json);
    var run :| WsStream.Outcome(c.bytes, c.sends, c.ending, run, utf8, json);
    run
  }

  lemma ReadExists<J>(c: Connection, utf8: seq<Byte> -> string, json: string -> WsStream.Json<J>)
    ensures exists run :: WsStream.Outcome(c.bytes, c.sends, c.ending, run, utf8, json)
  {
    var run := WsStream.OutcomeExists(c.bytes, c.sends, c.ending, utf8, json);
  }

  ghost function SourceFor<J(!new)>(c: Connection, utf8: seq<Byte> -> string, json: string -> WsStream.Json<J>): Source<J> {
    SourceOf(Read(c, utf8, json).items, Read(c, utf8, json).end, c.message)
  }

  // How many of the objects the parser takes before it fails.
  function Parsed<J, E>(items: seq<J>, parser: J -> Result<E, Failure>): (n: nat)
    ensures n <= |items|
    ensures forall i | 0 <= i < n :: parser(items[i]).Ok?
    ensures n < |items| ==> parser(items[n]).Err?
  {
    if items == [] || parser(items[0]).Err? then 0 else 1 + Parsed(items[1..], parser)
  }

  function EventsOf<J, E>(items: seq<J>, parser: J -> Result<E, Failure>): (events: seq<Item<E>>) {
    seq(Parsed(items, parser), i requires 0 <= i < Parsed(items, parser) => Event(parser(items[i]).value))
  }

  // What ends it: the object the parser fails on, or the end of the read.
  function FailureIn<J, E>(items: seq<J>, end: WsStream.WsError, message: string, parser: J -> Result<E, Failure>): Failure {
    var n := Parsed(items, parser);
    if n < |items| then parser(items[n]).error else FailureOf(end, message)
  }

  lemma DrainOf<J, E>(items: seq<J>, end: WsStream.WsError, message: string, parser: J -> Result<E, Failure>)
    ensures Drain(SourceOf(items, end, message), parser) ==
            (EventsOf(items, parser), Some(FailureIn(items, end, message, parser)))
  {
    var (events, failure) := Drain(SourceOf(items, end, message), parser);
    DrainPrefix(SourceOf(items, end, message), parser);
    var n := Parsed(items, parser);
    assert |events| == n;
    assert events == EventsOf(items, parser);
  }

  // The events of one connection and the error behind them.
  ghost function ItemsOf<J(!new), E>(c: Connection, parser: J -> Result<E, Failure>, utf8: seq<Byte> -> string,
                                     json: string -> WsStream.Json<J>): seq<Item<E>>
  {
    EventsOf(Read(c, utf8, json).items, parser) + [Error(SocketHandler(LastFailure(c, parser, utf8, json)))]
  }

  ghost function LastFailure<J(!new), E>(c: Connection, parser: J -> Result<E, Failure>, utf8: seq<Byte> -> string,
                                         json: string -> WsStream.Json<J>): Failure
  {
    FailureIn(Read(c, utf8, json).items, Read(c, utf8, json).end, c.message, parser)
  }

  lemma DrainFor<J(!new), E>(c: Connection, parser: J -> Result<E, Failure>, utf8: seq<Byte> -> string, json: string -> WsStream.Json<J>)
    ensures Drain(SourceFor(c, utf8, json), parser) ==
            (EventsOf(Read(c, utf8, json).items, parser), Some(LastFailure(c, parser, utf8, json)))
  {
    DrainOf(Read(c, utf8, json).items, Read(c, utf8, json).end, c.message, parser);
  }

  // From bytes to events: the stream over two connections is the first one's events and error
  // and, exactly if that error is a lost connection, the second one's. A read never ends
  // without an error, so neither does the stream.
  lemma TwoConnections<J(!new), E>(c: Connection, c': Connection, parser: J -> Result<E, Failure>, utf8: seq<Byte> -> string,
                                   json: string -> WsStream.Json<J>)
    ensures var connect := (n: nat) => Opens(SourceFor(if n == 0 then c else c', utf8, json));
            var out := StreamOutput(connect, parser, SocketHandler);
            && out.uncaught == None
            && if LastFailure(c, parser, utf8, json).kind in {Disconnect, OtherOs}
               then out.sources == 2 && out.items == ItemsOf(c, parser, utf8, json) + ItemsOf(c', parser, utf8, json)
               else out.sources == 1 && out.items == ItemsOf(c, parser, utf8, json)
    ensures var run := Read(c, utf8, json);
            Parsed(run.items, parser) == |run.items| ==>
              && (LastFailure(c, parser, utf8, json).kind in {Disconnect, OtherOs} <==> run.end != WsStream.BadJson)
              && SocketHandler(LastFailure(c, parser, utf8, json)).category == (if run.end == WsStream.BadJson then Exchange else Network)
  {
    var open := (n: nat) => Opens(SourceFor(if n == 0 then c else c', utf8, json));
    var f, f' := LastFailure(c, parser, utf8, json), LastFailure(c', parser, utf8, json);
    HandlerCategories(f);
    DrainFor(c, parser, utf8, json);
    DrainFor(c', parser, utf8, json);
    assert open(0) == Opens(SourceFor(c, utf8, json)) && open(1) == Opens(SourceFor(c', utf8, json));
    FailingSources(open, parser, SocketHandler,
                   SourceFor(c, utf8, json), EventsOf(Read(c, utf8, json).items, parser), f,
                   SourceFor(c', utf8, json), EventsOf(Read(c', utf8, json).items, parser), f');
  }

  // Any read of the same bytes, in any chunks, hands the stream the same source.
  lemma SourceOfRead<J(!new)>(c: Connection, run: WsStream.Run<J>, utf8: seq<Byte> -> string, json: string -> WsStream.Json<J>)
    requires WsStream.Outcome(c.bytes, c.sends, c.ending, run, utf8, json)
    ensures SourceOf(run.items, run.end, c.message) == SourceFor(c, utf8, json)
  {
    WsStream.OutcomeUnique(c.bytes, c.sends, c.ending, run, Read(c, utf8, json), utf8, json);
  }
}
