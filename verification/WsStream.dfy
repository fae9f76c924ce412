/**
  The adapter's WebSocket reader: the exact-read loop, the frame reader and the
  message loop of `_open_ws_stream`, over a socket that hands out bytes in chunks
  of any size.

  Text decoding (`bytes.decode("utf-8", errors="ignore")`) and `json.loads` are
  parameters, so what is proved holds whatever they return.
 */
module WsStream {
  import opened Wrappers
  import opened Bytes
  import opened Seqs
  import opened WsFrame

  // How the connection ends once the bytes that arrive in time are used up: the peer
  // closes it, so that `recv` returns an empty chunk, or `recv` times out.
  datatype Ending = PeerCloses | RecvTimesOut

  datatype WsError = ConnectionClosed | TimedOut | SendFailed | CloseFrame | BadJson

  function EndError(ending: Ending): WsError {
    match ending
    case PeerCloses => ConnectionClosed
    case RecvTimesOut => TimedOut
  }

  datatype Chunk = Chunk(data: seq<Byte>) | RecvTimeout

  const PONG: seq<Byte> := [0x8A, 0x00]

  class Socket {
    var incoming: seq<Byte>  // bytes still to come
    var sent: seq<Byte>
    var sendsLeft: nat       // sends that succeed before one fails
    const ending: Ending

    constructor (incoming: seq<Byte>, sendsLeft: nat, ending: Ending)
      ensures this.incoming == incoming && this.sent == []
      ensures this.sendsLeft == sendsLeft && this.ending == ending
    {
      this.incoming, this.sent, this.sendsLeft, this.ending := incoming, [], sendsLeft, ending;
    }

    // Any non-empty chunk of at most `limit` bytes while bytes are left.
    method Recv(limit: nat) returns (r: Chunk)
      requires limit > 0
      modifies this`incoming
      ensures old(incoming) != [] ==>
                && r.Chunk? && 0 < |r.data| <= limit
                && old(incoming) == r.data + incoming
      ensures old(incoming) == [] ==>
                && incoming == []
                && r == if ending == PeerCloses then Chunk([]) else RecvTimeout
    {
      if incoming == [] {
        return if ending == PeerCloses then Chunk([]) else RecvTimeout;
      }
      var k :| 0 < k <= limit && k <= |incoming|;
      r := Chunk(incoming[..k]);
      incoming := incoming[k..];
    }

    method SendAll(data: seq<Byte>) returns (ok: bool)
      modifies this`sent, this`sendsLeft
      ensures ok <==> old(sendsLeft) > 0
      ensures if ok then sent == old(sent) + data && sendsLeft == old(sendsLeft) - 1
              else sent == old(sent) && sendsLeft == old(sendsLeft)
    {
      ok := sendsLeft > 0;
      if ok {
        sent, sendsLeft := sent + data, sendsLeft - 1;
      }
    }

    // The next `length` bytes whatever the chunks, or the connection's end when there are
    // fewer: never a partial result.
    method RecvExact(length: nat) returns (r: Result<seq<Byte>, WsError>)
      modifies this`incoming
      ensures |old(incoming)| >= length ==>
                r == Ok(old(incoming)[..length]) && incoming == old(incoming)[length..]
      ensures |old(incoming)| < length ==> r == Err(EndError(ending)) && incoming == []
    {
      var data: seq<Byte> := [];
      while |data| < length
        invariant |data| <= length
        invariant old(incoming) == data + incoming
      {
        var chunk := Recv(length - |data|);
        if chunk == RecvTimeout {
          return Err(TimedOut);
        }
        if chunk.data == [] {
          return Err(ConnectionClosed);
        }
        data := data + chunk.data;
      }
      r := Ok(data);
    }

    // The header's length field, `read` bytes of the frame being consumed with it.
    method RecvLength(second: Byte) returns (r: Result<nat, WsError>)
      modifies this`incoming
      ensures var ext := ExtWidth(FormOf(second));
              if |old(incoming)| < ext then r == Err(EndError(ending)) && incoming == []
              else
                && r == Ok(if ext == 0 then second % 0x80 else FromBytes(old(incoming)[..ext]))
                && incoming == old(incoming)[ext..]
    {
      var length: nat := second % 0x80;
      if length == 126 {
        var field := RecvExact(2);
        return if field.Ok? then Ok(FromBytes(field.value)) else Err(field.error);
      } else if length == 127 {
        var field := RecvExact(8);
        return if field.Ok? then Ok(FromBytes(field.value)) else Err(field.error);
      }
      r := Ok(length);
    }

    // Opcode and unmasked payload of the next frame, and the socket left right behind it.
    method RecvFrame() returns (r: Result<(int, seq<Byte>), WsError>)
      modifies this`incoming
      ensures match Parse(old(incoming))
              case None => r == Err(EndError(ending))
              case Some(f) =>
                && f.WellFormed()
                && r == Ok((f.Opcode(), f.payload))
                && old(incoming) == f.Wire() + incoming
      ensures r.Ok? ==>
                |incoming| <= |old(incoming)|
                && FrameAt(old(incoming), r.value.0, r.value.1, |old(incoming)| - |incoming|)
    {
      ghost var s := incoming;
      if Parse(s).Some? {
        WireParse(s);
      }
      var firstTwo := RecvExact(2);
      if firstTwo.Err? {
        return Err(firstTwo.error);
      }
      assert firstTwo.value == s[..2];
      var opcode := firstTwo.value[0] % 0x10;
      var masked := firstTwo.value[1] >= 0x80;
      var length := RecvLength(firstTwo.value[1]);
      if length.Err? {
        return Err(length.error);
      }
      ghost var ext := 2 + ExtWidth(FormOf(s[1]));
      assert s[2..][..ext - 2] == s[2..ext];
      assert incoming == s[ext..] && length.value == Announced(s);
      var payload := RecvPayload(masked, length.value);
      if payload.Err? {
        return Err(payload.error);
      }
      PayloadOfRest(s);
      ParseMeans(s);
      r := Ok((opcode, payload.value));
    }

    method RecvPayload(masked: bool, length: nat) returns (r: Result<seq<Byte>, WsError>)
      modifies this`incoming
      ensures var need := length + if masked then 4 else 0;
              if |old(incoming)| < need then r == Err(EndError(ending)) && incoming == []
              else r == Ok(PayloadAt(old(incoming), masked, length)) && incoming == old(incoming)[need..]
    {
      ghost var s := incoming;
      var maskKey := [];
      if masked {
        var key := RecvExact(4);
        if key.Err? {
          return Err(key.error);
        }
        maskKey := key.value;
      }
      var body := RecvExact(length);
      if body.Err? {
        return Err(body.error);
      }
      assert masked ==> body.value == s[4..4 + length];
      r := Ok(if masked then Mask(body.value, maskKey) else body.value);
    }

    // `_recv_ws_text`: Ok is the text passed on, empty for every frame that carries none.
    method RecvText(utf8: seq<Byte> -> string) returns (r: Result<string, WsError>)
      modifies this`incoming, this`sent, this`sendsLeft
      ensures match Parse(old(incoming))
              case None =>
                r == Err(EndError(ending)) && sent == old(sent) && sendsLeft == old(sendsLeft)
              case Some(f) =>
                && f.WellFormed()
                && old(incoming) == f.Wire() + incoming
                && r == Reply(f, old(sendsLeft), utf8)
                && sent == old(sent) + (if Pongs(f, old(sendsLeft)) then PONG else [])
                && sendsLeft == old(sendsLeft) - (if Pongs(f, old(sendsLeft)) then 1 else 0)
    {
      var frame := RecvFrame();
      if frame.Err? {
        return Err(frame.error);
      }
      var (opcode, payload) := frame.value;
      if opcode == 0x8 {
        return Err(CloseFrame);
      }
      if opcode == 0x9 {
        var ok := SendAll(PONG);
        return if ok then Ok("") else Err(SendFailed);
      }
      if opcode != 0x1 {
        return Ok("");
      }
      r := Ok(utf8(payload));
    }
  }

  function PayloadAt(s: seq<Byte>, masked: bool, length: nat): seq<Byte>
    requires |s| >= length + if masked then 4 else 0
  {
    if masked then Mask(s[4..4 + length], s[..4]) else s[..length]
  }

  // Parse in the order the reader takes the fields.
  lemma PayloadOfRest(s: seq<Byte>)
    requires Parse(s).Some?
    ensures var f := Parse(s).value;
            var ext, masked, length := 2 + ExtWidth(FormOf(s[1])), s[1] >= 0x80, Announced(s);
            var need := length + if masked then 4 else 0;
            && f.WellFormed()
            && f.payload == PayloadAt(s[ext..], masked, length)
            && s == f.Wire() + s[ext..][need..]
  {
    var f := Parse(s).value;
    var ext, masked, length := 2 + ExtWidth(FormOf(s[1])), s[1] >= 0x80, Announced(s);
    WireParse(s);
    PayloadSlices(s, ext, masked, length);
    var need := length + if masked then 4 else 0;
    assert |f.Wire()| == ext + need;
    PrefixAndRest(f.Wire(), s);
  }

  lemma PayloadSlices(s: seq<Byte>, ext: nat, masked: bool, length: nat)
    requires |s| >= ext + length + if masked then 4 else 0
    ensures masked ==> PayloadAt(s[ext..], true, length) == Mask(s[ext + 4..ext + 4 + length], s[ext..ext + 4])
    ensures !masked ==> PayloadAt(s[ext..], false, length) == s[ext..ext + length]
    ensures var need := length + if masked then 4 else 0; s[ext..][need..] == s[ext + need..]
  {
    if masked {
      assert s[ext..][..4] == s[ext..ext + 4];
      assert s[ext..][4..4 + length] == s[ext + 4..ext + 4 + length];
    }
  }

  predicate IsPing(f: Frame) {
    f.Opcode() == 0x9
  }

  predicate Pongs(f: Frame, sendsLeft: nat) {
    IsPing(f) && sendsLeft > 0
  }

  function Reply(f: Frame, sendsLeft: nat, utf8: seq<Byte> -> string): Result<string, WsError> {
    if f.Opcode() == 0x8 then Err(CloseFrame)
    else if IsPing(f) then (if sendsLeft > 0 then Ok("") else Err(SendFailed))
    else if f.Opcode() == 0x1 then Ok(utf8(f.payload))
    else Ok("")
  }

  // json.loads: it fails, or gives an object, or gives some other value.
  datatype Json<J> = Malformed | Object(value: J) | NotObject

  // ---- Streams as frame sequences

  function WireAll(fs: seq<Frame>): seq<Byte>
    requires forall f <- fs :: f.WellFormed()
  {
    if fs == [] then [] else fs[0].Wire() + WireAll(fs[1..])
  }

  // The frames a byte string holds, up to the point where no whole frame is left.
  function Frames(s: seq<Byte>): (fs: seq<Frame>)
    ensures forall f <- fs :: f.WellFormed()
    decreases |s|
  {
    match Parse(s)
    case None => []
    case Some(f) => WireParse(s); [f] + Frames(s[|f.Wire()|..])
  }

  // Every byte string is a frame sequence followed by less than a frame ...
  lemma {:induction false} FramesSplit(s: seq<Byte>)
    ensures WireAll(Frames(s)) <= s
    ensures Parse(s[|WireAll(Frames(s))|..]) == None
    decreases |s|
  {
    match Parse(s)
    case None =>
      assert s[0..] == s;
    case Some(f) =>
      WireParse(s);
      var rest := s[|f.Wire()|..];
      FramesSplit(rest);
      assert ([f] + Frames(rest))[1..] == Frames(rest);
      PrefixOfRest(s, f.Wire(), WireAll(Frames(rest)));
  }

  lemma PrefixOfRest(s: seq<Byte>, a: seq<Byte>, b: seq<Byte>)
    requires a <= s && b <= s[|a|..]
    ensures a + b <= s && s[|a + b|..] == s[|a|..][|b|..]
  {
  }

  // ... in one way only: any frames sent, in any length form, are the frames read.
  lemma {:induction false} FramesOfWire(fs: seq<Frame>, tail: seq<Byte>)
    requires forall f <- fs :: f.WellFormed()
    requires Parse(tail) == None
    ensures Frames(WireAll(fs) + tail) == fs
  {
    if fs == [] {
      assert WireAll(fs) + tail == tail;
    } else {
      var rest := WireAll(fs[1..]) + tail;
      assert WireAll(fs) + tail == fs[0].Wire() + rest;
      ParseWire(fs[0], rest);
      FramesOfWire(fs[1..], tail);
      assert (fs[0].Wire() + rest)[|fs[0].Wire()|..] == rest;
    }
  }

  function EncodeAll(payloads: seq<seq<Byte>>, keys: seq<seq<Byte>>): seq<Byte>
    requires |keys| == |payloads| && forall k <- keys :: |k| == 4
    requires forall i | 0 <= i < |payloads| :: EncodeText(payloads[i], keys[i]).Ok?
  {
    if payloads == [] then []
    else EncodeText(payloads[0], keys[0]).value + EncodeAll(payloads[1..], keys[1..])
  }

  // Any number of texts written one after the other are read back as that sequence.
  lemma {:induction false} EncodeAllRoundTrip(payloads: seq<seq<Byte>>, keys: seq<seq<Byte>>)
    requires |keys| == |payloads| && forall k <- keys :: |k| == 4
    requires forall i | 0 <= i < |payloads| :: EncodeText(payloads[i], keys[i]).Ok?
    ensures var fs := Frames(EncodeAll(payloads, keys));
            && |fs| == |payloads|
            && forall i | 0 <= i < |fs| :: fs[i].payload == payloads[i] && fs[i].Opcode() == 1
  {
    if payloads != [] {
      var rest := EncodeAll(payloads[1..], keys[1..]);
      var head := EncodeText(payloads[0], keys[0]).value;
      EncodeTextRoundTrip(payloads[0], keys[0], rest);
      EncodeAllRoundTrip(payloads[1..], keys[1..]);
      assert (head + rest)[|head|..] == rest;
    }
  }

  // ---- The message loop

  // The error a frame ends the stream with, if it ends it.
  function Stop<J>(f: Frame, sendsLeft: nat, utf8: seq<Byte> -> string, json: string -> Json<J>): Option<WsError> {
    if f.Opcode() == 0x8 then Some(CloseFrame)
    else if IsPing(f) && sendsLeft == 0 then Some(SendFailed)
    else if f.Opcode() == 0x1 && utf8(f.payload) != "" && json(utf8(f.payload)).Malformed? then Some(BadJson)
    else None
  }

  // What ends the stream, by the low half of a frame's first byte.
  lemma StopByFirstByte<J>(f: Frame, sendsLeft: nat, utf8: seq<Byte> -> string, json: string -> Json<J>)
    ensures var kind, stop := f.first % 16, Stop(f, sendsLeft, utf8, json);
            && (stop == Some(CloseFrame) <==> kind == 8)
            && (stop == Some(SendFailed) <==> kind == 9 && sendsLeft == 0)
            && (stop == Some(BadJson) <==> kind == 1 && utf8(f.payload) != "" && json(utf8(f.payload)) == Malformed)
            && (stop.Some? ==> stop.value in {CloseFrame, SendFailed, BadJson})
  {
  }

  function PingCount(fs: seq<Frame>): nat {
    if fs == [] then 0 else (if IsPing(fs[0]) then 1 else 0) + PingCount(fs[1..])
  }

  // The objects carried by the text frames, in order.
  function Objects<J>(fs: seq<Frame>, utf8: seq<Byte> -> string, json: string -> Json<J>): seq<J> {
    if fs == [] then [] else
    var text := if fs[0].Opcode() == 0x1 then utf8(fs[0].payload) else "";
    (if text != "" && json(text).Object? then [json(text).value] else [])
    + Objects(fs[1..], utf8, json)
  }

  lemma {:induction false} PingCountAppend(fs: seq<Frame>, f: Frame)
    ensures PingCount(fs + [f]) == PingCount(fs) + PingCount([f])
  {
    if fs == [] {
      assert fs + [f] == [f];
    } else {
      assert (fs + [f])[1..] == fs[1..] + [f];
      PingCountAppend(fs[1..], f);
    }
  }

  lemma {:induction false} ObjectsAppend<J>(fs: seq<Frame>, f: Frame, utf8: seq<Byte> -> string, json: string -> Json<J>)
    ensures Objects(fs + [f], utf8, json) == Objects(fs, utf8, json) + Objects([f], utf8, json)
  {
    if fs == [] {
      assert fs + [f] == [f];
    } else {
      assert (fs + [f])[1..] == fs[1..] + [f];
      ObjectsAppend(fs[1..], f, utf8, json);
    }
  }

  function Repeat(s: seq<Byte>, n: nat): seq<Byte> {
    if n == 0 then [] else Repeat(s, n - 1) + s
  }

  lemma FramesStep(s: seq<Byte>, f: Frame, rest: seq<Byte>)
    requires f.WellFormed() && s == f.Wire() + rest
    ensures Frames(s) == [f] + Frames(rest)
  {
    ParseWire(f, rest);
    DropPrefix(f.Wire(), rest);
  }

  lemma {:induction false} FramesAfter(fs: seq<Frame>, rest: seq<Byte>)
    requires forall f <- fs :: f.WellFormed()
    ensures Frames(WireAll(fs) + rest) == fs + Frames(rest)
  {
    if fs == [] {
      NothingBefore(rest);
      NothingBefore(Frames(rest));
    } else {
      var later := WireAll(fs[1..]);
      assert Frames(later + rest) == fs[1..] + Frames(rest) by {
        FramesAfter(fs[1..], rest);
      }
      assert WireAll(fs) + rest == fs[0].Wire() + (later + rest) by {
        Assoc(fs[0].Wire(), later, rest);
      }
      assert Frames(WireAll(fs) + rest) == [fs[0]] + Frames(later + rest) by {
        FramesStep(WireAll(fs) + rest, fs[0], later + rest);
      }
      HeadTail(fs, Frames(rest));
    }
  }

  // The frames of a stream read up to `before`, when the next frame is f.
  lemma FramesFrom(done: seq<Frame>, before: seq<Byte>, f: Option<Frame>, after: seq<Byte>) returns (rest: seq<Frame>)
    requires forall g <- done :: g.WellFormed()
    requires match f
             case None => Frames(before) == []
             case Some(g) => g.WellFormed() && before == g.Wire() + after
    ensures Frames(WireAll(done) + before) == done + rest
    ensures if f.None? then rest == [] else rest != [] && rest[0] == f.value
  {
    FramesAfter(done, before);
    rest := Frames(before);
    if f.Some? {
      FramesStep(before, f.value, after);
    }
  }

  lemma {:induction false} WireAllAppend(fs: seq<Frame>, f: Frame)
    requires f.WellFormed() && forall g <- fs :: g.WellFormed()
    ensures WireAll(fs + [f]) == WireAll(fs) + f.Wire()
  {
    if fs == [] {
      assert fs + [f] == [f];
    } else {
      assert (fs + [f])[1..] == fs[1..] + [f];
      WireAllAppend(fs[1..], f);
    }
  }

  lemma AppendFrame<J>(fs: seq<Frame>, f: Frame, rest: seq<Byte>, utf8: seq<Byte> -> string, json: string -> Json<J>)
    requires f.WellFormed() && forall g <- fs :: g.WellFormed()
    ensures WireAll(fs) + (f.Wire() + rest) == WireAll(fs + [f]) + rest
    ensures PingCount(fs + [f]) == PingCount(fs) + if IsPing(f) then 1 else 0
    ensures Objects(fs + [f], utf8, json) == Objects(fs, utf8, json) + Objects([f], utf8, json)
  {
    assert WireAll(fs) + (f.Wire() + rest) == WireAll(fs + [f]) + rest by {
      WireAllAppend(fs, f);
      Assoc(WireAll(fs), f.Wire(), rest);
    }
    assert PingCount([f]) == if IsPing(f) then 1 else 0;
    PingCountAppend(fs, f);
    ObjectsAppend(fs, f, utf8, json);
  }

  // No frame of fs ends the stream, when `sends` pongs can be sent.
  ghost predicate Quiet<J>(fs: seq<Frame>, sends: nat, utf8: seq<Byte> -> string, json: string -> Json<J>)
    decreases |fs|
  {
    fs != [] ==>
      var init, last := fs[..|fs| - 1], fs[|fs| - 1];
      && Quiet(init, sends, utf8, json)
      && PingCount(init) <= sends
      && Stop(last, sends - PingCount(init), utf8, json).None?
  }

  lemma ObjectsOfOne<J>(f: Frame, sends: nat, utf8: seq<Byte> -> string, json: string -> Json<J>)
    requires Reply(f, sends, utf8).Ok?
    ensures var text := Reply(f, sends, utf8).value;
            && (Stop(f, sends, utf8, json).None? <==> text == "" || !json(text).Malformed?)
            && Objects([f], utf8, json) == if text != "" && json(text).Object? then [json(text).value] else []
  {
    assert [f][1..] == [];
  }

  // One turn of the loop, with the frame it takes: the object it passes on, if any.
  method NextObjects<J>(socket: Socket, utf8: seq<Byte> -> string, json: string -> Json<J>)
    returns (r: Result<seq<J>, WsError>, ghost f: Option<Frame>)
    modifies socket
    ensures f.None? ==>
              && Frames(old(socket.incoming)) == []
              && r == Err(EndError(socket.ending))
              && socket.sent == old(socket.sent)
    ensures f.Some? ==>
              && f.value.WellFormed()
              && old(socket.incoming) == f.value.Wire() + socket.incoming
              && match Stop(f.value, old(socket.sendsLeft), utf8, json)
                 case Some(error) => r == Err(error) && socket.sent == old(socket.sent)
                 case None =>
                   && r == Ok(Objects([f.value], utf8, json))
                   && socket.sent == old(socket.sent) + (if IsPing(f.value) then PONG else [])
                   && old(socket.sendsLeft) == socket.sendsLeft + (if IsPing(f.value) then 1 else 0)
  {
    f := Parse(socket.incoming);
    ghost var sends := socket.sendsLeft;
    var message := socket.RecvText(utf8);
    if message.Err? {
      return Err(message.error), f;
    }
    ObjectsOfOne(f.value, sends, utf8, json);
    if message.value == "" {
      return Ok([]), f;
    }
    var parsed := json(message.value);
    match parsed
    case Malformed => return Err(BadJson), f;
    case Object(value) => return Ok([value]), f;
    case NotObject => return Ok([]), f;
  }

  // What the frames of `done` amount to: none stops the stream, each ping is answered, and
  // the text frames' objects are passed on.
  ghost predicate Passed<J>(done: seq<Frame>, sends: nat, pongs: nat, items: seq<J>,
                            utf8: seq<Byte> -> string, json: string -> Json<J>)
  {
    && Quiet(done, sends, utf8, json)
    && pongs == PingCount(done) <= sends
    && items == Objects(done, utf8, json)
  }

  // What has been read of `all`, with `rest` still to come.
  ghost predicate Read<J>(all: seq<Byte>, sends: nat, done: seq<Frame>, rest: seq<Byte>, pongs: nat, items: seq<J>,
                          utf8: seq<Byte> -> string, json: string -> Json<J>)
  {
    && (forall f <- done :: f.WellFormed())
    && all == WireAll(done) + rest
    && Passed(done, sends, pongs, items, utf8, json)
  }

  lemma ReadStep<J>(all: seq<Byte>, sends: nat, done: seq<Frame>, f: Frame, rest: seq<Byte>, pongs: nat, items: seq<J>,
                    utf8: seq<Byte> -> string, json: string -> Json<J>)
    requires f.WellFormed() && Read(all, sends, done, f.Wire() + rest, pongs, items, utf8, json)
    requires Stop(f, sends - pongs, utf8, json).None?
    ensures Read(all, sends, done + [f], rest, pongs + (if IsPing(f) then 1 else 0), items + Objects([f], utf8, json), utf8, json)
  {
    AppendFrame(done, f, rest, utf8, json);
    assert (done + [f])[..|done|] == done;
  }

  // A read: the frames passed, the frames left unread, the pongs sent, the objects passed on
  // and the error that ends it.
  datatype Run<J> = Run(done: seq<Frame>, rest: seq<Frame>, pongs: nat, items: seq<J>, end: WsError)

  // The outcome of reading `all` to its end, fixed by its frames alone: the objects of the
  // frames before the one that stops the stream, one pong per ping among those, and the error
  // of the stopping frame, or of the connection when no frame stops it. A frame cut short by
  // the end of the connection adds nothing.
  ghost predicate Outcome<J>(all: seq<Byte>, sends: nat, ending: Ending, run: Run<J>,
                             utf8: seq<Byte> -> string, json: string -> Json<J>)
  {
    && Frames(all) == run.done + run.rest
    && Passed(run.done, sends, run.pongs, run.items, utf8, json)
    && if run.rest == [] then run.end == EndError(ending)
       else Stop(run.rest[0], sends - run.pongs, utf8, json) == Some(run.end)
  }

  lemma OutcomeReached<J>(all: seq<Byte>, sends: nat, ending: Ending, done: seq<Frame>, before: seq<Byte>,
                          f: Option<Frame>, after: seq<Byte>, pongs: nat, items: seq<J>, end: WsError,
                          utf8: seq<Byte> -> string, json: string -> Json<J>)
    returns (run: Run<J>)
    requires Read(all, sends, done, before, pongs, items, utf8, json)
    requires match f
             case None => Frames(before) == [] && end == EndError(ending)
             case Some(g) =>
               && g.WellFormed() && before == g.Wire() + after
               && Stop(g, sends - pongs, utf8, json) == Some(end)
    ensures Outcome(all, sends, ending, run, utf8, json)
    ensures run.items == items && run.pongs == pongs && run.end == end
  {
    var rest := FramesFrom(done, before, f, after);
    run := Run(done, rest, pongs, items, end);
  }

  // One turn of the loop after the frames of `done`: the read is over, or has one frame more.
  method ReadTurn<J>(socket: Socket, utf8: seq<Byte> -> string, json: string -> Json<J>,
                     ghost all: seq<Byte>, ghost sends: nat, ghost done: seq<Frame>, ghost pongs: nat, ghost items: seq<J>)
    returns (objects: Result<seq<J>, WsError>, ghost done': seq<Frame>, ghost pongs': nat, ghost run: Option<Run<J>>)
    requires Read(all, sends, done, socket.incoming, pongs, items, utf8, json)
    requires pongs + socket.sendsLeft == sends
    modifies socket
    ensures objects.Err? <==> run.Some?
    ensures match objects
            case Err(error) =>
              && Outcome(all, sends, socket.ending, run.value, utf8, json)
              && run.value.items == items && run.value.pongs == pongs && run.value.end == error
              && socket.sent == old(socket.sent)
            case Ok(found) =>
              && Read(all, sends, done', socket.incoming, pongs', items + found, utf8, json)
              && pongs' + socket.sendsLeft == sends
              && |socket.incoming| < |old(socket.incoming)|
              && if pongs' == pongs then socket.sent == old(socket.sent)
                 else pongs' == pongs + 1 && socket.sent == old(socket.sent) + PONG
  {
    ghost var before := socket.incoming;
    ghost var f;
    objects, f := NextObjects(socket, utf8, json);
    done', pongs', run := done, pongs, None;
    if objects.Err? {
      ghost var outcome := OutcomeReached(all, sends, socket.ending, done, before, f, socket.incoming, pongs, items, objects.error, utf8, json);
      run := Some(outcome);
    } else {
      ReadStep(all, sends, done, f.value, socket.incoming, pongs, items, utf8, json);
      done', pongs' := done + [f.value], pongs + (if IsPing(f.value) then 1 else 0);
    }
  }

  // The stream read to its end, whatever the chunks.
  method ReadStream<J>(socket: Socket, utf8: seq<Byte> -> string, json: string -> Json<J>)
    returns (items: seq<J>, end: WsError, ghost run: Run<J>)
    modifies socket
    ensures Outcome(old(socket.incoming), old(socket.sendsLeft), socket.ending, run, utf8, json)
    ensures items == run.items && end == run.end
    ensures socket.sent == old(socket.sent) + Repeat(PONG, run.pongs)
  {
    items := [];
    ghost var all, sends := socket.incoming, socket.sendsLeft;
    ghost var done: seq<Frame>, pongs: nat := [], 0;
    while true
      invariant pongs + socket.sendsLeft == sends
      invariant Read(all, sends, done, socket.incoming, pongs, items, utf8, json)
      invariant socket.sent == old(socket.sent) + Repeat(PONG, pongs)
      decreases |socket.incoming|
    {
      ghost var before := pongs;
      var objects;
      ghost var over;
      objects, done, pongs, over := ReadTurn(socket, utf8, json, all, sends, done, pongs, items);
      if objects.Err? {
        return items, objects.error, over.value;
      }
      Assoc(old(socket.sent), Repeat(PONG, before), PONG);
      items := items + objects.value;
    }
  }

  lemma {:induction false} QuietAt<J>(fs: seq<Frame>, before: seq<Frame>, f: Frame, sends: nat,
                                      utf8: seq<Byte> -> string, json: string -> Json<J>)
    requires Quiet(fs, sends, utf8, json)
    requires |before| < |fs| && fs[..|before|] == before && fs[|before|] == f
    ensures PingCount(before) <= sends && Stop(f, sends - PingCount(before), utf8, json).None?
    decreases |fs|
  {
    var init := fs[..|fs| - 1];
    if |before| < |init| {
      assert init[..|before|] == before;
      QuietAt(init, before, f, sends, utf8, json);
    } else {
      assert init == before;
    }
  }

  // A pong is a final, unmasked frame with opcode 0xA and no payload.
  lemma PongFrame()
    ensures Parse(PONG) == Some(Frame(0x8A, Short, None, [])) && PONG[0] >= 0x80 && FrameAt(PONG, 0xA, [], 2)
  {
    assert PONG[2..2] == [];
  }

  // There is one such outcome, so a read is a function of the bytes, the number of sends that
  // succeed and how the connection ends, and not of the chunks.
  lemma OutcomeUnique<J>(all: seq<Byte>, sends: nat, ending: Ending, run: Run<J>, run': Run<J>,
                         utf8: seq<Byte> -> string, json: string -> Json<J>)
    requires Outcome(all, sends, ending, run, utf8, json)
    requires Outcome(all, sends, ending, run', utf8, json)
    ensures run == run'
  {
    SameCut(sends, run, run', utf8, json);
  }

  // Cut where the first frame left unread, if there is one, ends the stream.
  ghost predicate CutAtStop<J>(sends: nat, run: Run<J>, utf8: seq<Byte> -> string, json: string -> Json<J>) {
    && run.pongs == PingCount(run.done) <= sends
    && Quiet(run.done, sends, utf8, json)
    && (run.rest != [] ==> Stop(run.rest[0], sends - run.pongs, utf8, json).Some?)
  }

  lemma NotShorter<J>(sends: nat, run: Run<J>, run': Run<J>, utf8: seq<Byte> -> string, json: string -> Json<J>)
    requires run.done + run.rest == run'.done + run'.rest
    requires CutAtStop(sends, run, utf8, json) && CutAtStop(sends, run', utf8, json)
    ensures |run'.done| <= |run.done|
  {
    if |run.done| < |run'.done| {
      TwoCuts(run.done, run.rest, run'.done, run'.rest);
      QuietAt(run'.done, run.done, run.rest[0], sends, utf8, json);
      assert false;
    }
  }

  lemma SameCut<J>(sends: nat, run: Run<J>, run': Run<J>, utf8: seq<Byte> -> string, json: string -> Json<J>)
    requires run.done + run.rest == run'.done + run'.rest
    requires CutAtStop(sends, run, utf8, json) && CutAtStop(sends, run', utf8, json)
    ensures run.done == run'.done && run.rest == run'.rest
  {
    NotShorter(sends, run, run', utf8, json);
    NotShorter(sends, run', run, utf8, json);
    TwoCuts(run.done, run.rest, run'.done, run'.rest);
  }

  // All of `done` is quiet, and the first frame of `rest`, if there is one, stops the stream.
  ghost predicate StopsAfter<J>(done: seq<Frame>, rest: seq<Frame>, sends: nat, utf8: seq<Byte> -> string, json: string -> Json<J>) {
    && PingCount(done) <= sends && Quiet(done, sends, utf8, json)
    && (rest != [] ==> Stop(rest[0], sends - PingCount(done), utf8, json).Some?)
  }

  // One frame more.
  lemma CutStep<J>(done: seq<Frame>, rest: seq<Frame>, last: Frame, sends: nat, utf8: seq<Byte> -> string, json: string -> Json<J>)
    returns (done': seq<Frame>, rest': seq<Frame>)
    requires StopsAfter(done, rest, sends, utf8, json)
    ensures StopsAfter(done', rest', sends, utf8, json)
    ensures done + rest + [last] == done' + rest'
  {
    if rest == [] && Stop(last, sends - PingCount(done), utf8, json).None? {
      assert (done + [last])[..|done|] == done;
      PingCountAppend(done, last);
      assert PingCount([last]) == if IsPing(last) then 1 else 0;
      done', rest' := done + [last], [];
    } else {
      Assoc(done, rest, [last]);
      done', rest' := done, rest + [last];
    }
  }

  // The quiet frames, up to the one that stops the stream if there is one.
  lemma {:induction false} Cut<J>(fs: seq<Frame>, sends: nat, utf8: seq<Byte> -> string, json: string -> Json<J>)
    returns (done: seq<Frame>, rest: seq<Frame>)
    ensures fs == done + rest && StopsAfter(done, rest, sends, utf8, json)
    decreases |fs|
  {
    if fs == [] {
      done, rest := [], [];
    } else {
      done, rest := Cut(fs[..|fs| - 1], sends, utf8, json);
      done, rest := CutStep(done, rest, fs[|fs| - 1], sends, utf8, json);
    }
  }

  lemma QuietPasses<J>(done: seq<Frame>, sends: nat, utf8: seq<Byte> -> string, json: string -> Json<J>)
    requires PingCount(done) <= sends && Quiet(done, sends, utf8, json)
    ensures Passed(done, sends, PingCount(done), Objects(done, utf8, json), utf8, json)
  {
  }

  lemma CutOutcome<J>(all: seq<Byte>, sends: nat, ending: Ending, run: Run<J>, utf8: seq<Byte> -> string, json: string -> Json<J>)
    requires Frames(all) == run.done + run.rest
    requires Passed(run.done, sends, run.pongs, run.items, utf8, json)
    requires if run.rest == [] then run.end == EndError(ending)
             else Stop(run.rest[0], sends - run.pongs, utf8, json) == Some(run.end)
    ensures Outcome(all, sends, ending, run, utf8, json)
  {
  }

  // Every connection has an outcome.
  lemma OutcomeExists<J>(all: seq<Byte>, sends: nat, ending: Ending, utf8: seq<Byte> -> string, json: string -> Json<J>)
    returns (run: Run<J>)
    ensures Outcome(all, sends, ending, run, utf8, json)
  {
    var done, rest := Cut(Frames(all), sends, utf8, json);
    QuietPasses(done, sends, utf8, json);
    var end := if rest == [] then EndError(ending) else Stop(rest[0], sends - PingCount(done), utf8, json).value;
    run := Run(done, rest, PingCount(done), Objects(done, utf8, json), end);
    CutOutcome(all, sends, ending, run, utf8, json);
  }
}
