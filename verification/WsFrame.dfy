/**
  The WebSocket frame layout of sections 5.2 and 5.3 of RFC 6455, as far as the
  adapter looks at it: any FIN and RSV bits, any opcode, any of the three length
  forms (whether or not the form is the shortest one), masked or not.

  `Wire` is the layout; `Parse` is what the adapter's reader makes of a byte
  string; `EncodeText` is what its writer sends.
 */
module WsFrame {
  import opened Wrappers
  import opened Bytes
  import opened Seqs

  datatype LengthForm = Short | Medium | Long

  // Width in bytes of the extended length field.
  function ExtWidth(form: LengthForm): nat {
    match form
    case Short => 0
    case Medium => 2
    case Long => 8
  }

  datatype Frame = Frame(first: Byte, form: LengthForm, key: Option<seq<Byte>>, payload: seq<Byte>) {
    function Opcode(): int {
      first % 0x10
    }

    predicate WellFormed() {
      && (key.Some? ==> |key.value| == 4)
      && match form
         case Short => |payload| < 126
         case Medium => |payload| < 0x1_0000
         case Long => |payload| < 0x1_0000_0000_0000_0000
    }

    // Second header byte: mask bit and seven-bit length code.
    function Second(): Byte
      requires WellFormed()
    {
      (if key.Some? then 0x80 else 0)
      + match form
        case Short => |payload|
        case Medium => 126
        case Long => 127
    }

    function Extended(): (s: seq<Byte>)
      requires WellFormed()
      ensures |s| == ExtWidth(form)
    {
      Pow256Widths();
      if form == Short then [] else ToBytes(|payload|, ExtWidth(form))
    }

    function Body(): seq<Byte>
      requires WellFormed()
    {
      if key.Some? then key.value + Mask(payload, key.value) else payload
    }

    function Wire(): (s: seq<Byte>)
      requires WellFormed()
      ensures |s| == 2 + ExtWidth(form) + (if key.Some? then 4 else 0) + |payload|
    {
      [first, Second()] + Extended() + Body()
    }
  }

  function FormOf(second: Byte): LengthForm {
    if second % 0x80 == 126 then Medium else if second % 0x80 == 127 then Long else Short
  }

  // Payload length announced by a header of which enough bytes are there.
  function Announced(s: seq<Byte>): nat
    requires |s| >= 2 && |s| >= 2 + ExtWidth(FormOf(s[1]))
  {
    var form := FormOf(s[1]);
    if form == Short then s[1] % 0x80 else FromBytes(s[2..2 + ExtWidth(form)])
  }

  // The frame at the head of s, or None when s ends before the frame does.
  function Parse(s: seq<Byte>): Option<Frame> {
    if |s| < 2 then None else
    var form := FormOf(s[1]);
    var ext := 2 + ExtWidth(form);
    if |s| < ext then None else
    var masked := s[1] >= 0x80;
    var start := if masked then ext + 4 else ext;
    var end := start + Announced(s);
    if |s| < end then None
    else if masked then Some(Frame(s[0], form, Some(s[ext..start]), Mask(s[start..end], s[ext..start])))
    else Some(Frame(s[0], form, None, s[start..end]))
  }

  // The wire form followed by anything, field by field.
  lemma WireFields(f: Frame, rest: seq<Byte>)
    requires f.WellFormed()
    ensures var s, ext := f.Wire() + rest, 2 + ExtWidth(f.form);
            && s[0] == f.first && s[1] == f.Second()
            && s[2..ext] == f.Extended()
            && s[ext..|f.Wire()|] == f.Body()
  {
    Parts([f.first, f.Second()], f.Extended(), f.Body(), rest);
    var s := f.Wire() + rest;
    assert s[0] == s[..2][0] && s[1] == s[..2][1];
  }

  // Reading undoes writing, whatever follows the frame.
  lemma ParseWire(f: Frame, rest: seq<Byte>)
    requires f.WellFormed()
    ensures Parse(f.Wire() + rest) == Some(f)
  {
    var s := f.Wire() + rest;
    WireFields(f, rest);
    LengthField(f);
    ParseFields(s, f);
  }

  lemma LengthField(f: Frame)
    requires f.WellFormed()
    ensures FormOf(f.Second()) == f.form && (f.Second() >= 0x80 <==> f.key.Some?)
    ensures if f.form == Short then f.Second() % 0x80 == |f.payload| else FromBytes(f.Extended()) == |f.payload|
  {
    Pow256Widths();
    match f.form
    case Short =>
    case Medium =>
      FromToBytes(|f.payload|, 2);
    case Long =>
      FromToBytes(|f.payload|, 8);
  }

  lemma ParseFields(s: seq<Byte>, f: Frame)
    requires f.WellFormed() && |s| >= |f.Wire()|
    requires s[0] == f.first && s[1] == f.Second()
    requires Announced(s) == |f.payload|
    requires s[2 + ExtWidth(f.form)..|f.Wire()|] == f.Body()
    ensures Parse(s) == Some(f)
  {
    if f.key.Some? {
      var ext, start, end := 2 + ExtWidth(f.form), 6 + ExtWidth(f.form), |f.Wire()|;
      Halves(s, ext, start, end, f.key.value, Mask(f.payload, f.key.value));
      MaskTwice(f.payload, f.key.value);
    }
  }

  lemma ParsedWellFormed(s: seq<Byte>)
    requires Parse(s).Some?
    ensures Parse(s).value.WellFormed()
    ensures Parse(s).value.Second() == s[1]
    ensures Parse(s).value.Extended() == s[2..2 + ExtWidth(FormOf(s[1]))]
  {
    var f := Parse(s).value;
    Pow256Widths();
    assert |f.payload| == Announced(s);
    if f.form != Short {
      var field := s[2..2 + ExtWidth(f.form)];
      FromBytesBound(field);
      ToFromBytes(field);
    }
  }

  // Writing undoes reading: nothing but a well-formed frame is ever read.
  lemma WireParse(s: seq<Byte>)
    requires Parse(s).Some?
    ensures Parse(s).value.WellFormed()
    ensures Parse(s).value.Wire() <= s
  {
    var f := Parse(s).value;
    var ext := 2 + ExtWidth(f.form);
    ParsedWellFormed(s);
    var end := ext + |f.Body()|;
    assert f.Body() == s[ext..end] by {
      if f.key.Some? {
        MaskTwice(s[ext + 4..end], f.key.value);
      }
    }
    assert end <= |s| && s[..end] == [s[0], s[1]] + s[2..ext] + s[ext..end];
  }

  // A stream cut inside a frame yields no frame.
  lemma CutFrameIsIncomplete(f: Frame, cut: nat)
    requires f.WellFormed() && cut < |f.Wire()|
    ensures Parse(f.Wire()[..cut]) == None
  {
    var s := f.Wire()[..cut];
    if Parse(s).Some? {
      var g := Parse(s).value;
      WireParse(s);
      var rest := f.Wire()[|g.Wire()|..];
      assert f.Wire() == g.Wire() + rest && f.Wire() == f.Wire() + [];
      ParseWire(g, rest);
      ParseWire(f, []);
      assert false;
    }
  }

  // ---- The layout over raw bytes

  // The frame at the head of s takes `size` bytes and says this.
  ghost predicate FrameAt(s: seq<Byte>, opcode: int, payload: seq<Byte>, size: nat) {
    && 2 <= size <= |s|
    && var code, masked := s[1] % 0x80, s[1] >= 0x80;
    && var header := (if code == 126 then 4 else if code == 127 then 10 else 2) + (if masked then 4 else 0);
    && header <= size
    && opcode == s[0] % 0x10
    && size - header == |payload| == (if code == 126 then Word16(s, 2) else if code == 127 then Word64(s, 2) else code)
    && if masked then MaskedWith(s[header..size], payload, s[header - 4..header]) else payload == s[header..size]
  }

  lemma AnnouncedMeans(s: seq<Byte>)
    requires |s| >= 2 && |s| >= 2 + ExtWidth(FormOf(s[1]))
    ensures var code := s[1] % 0x80;
            Announced(s) == if code == 126 then Word16(s, 2) else if code == 127 then Word64(s, 2) else code
  {
    if s[1] % 0x80 == 126 {
      FromTwo(s, 2);
    } else if s[1] % 0x80 == 127 {
      FromEight(s, 2);
    }
  }

  // What is parsed is what the raw bytes say, over as many bytes as its wire form has.
  lemma ParseMeans(s: seq<Byte>)
    requires Parse(s).Some?
    ensures var f := Parse(s).value;
            f.WellFormed() && f.first == s[0] && FrameAt(s, f.Opcode(), f.payload, |f.Wire()|)
  {
    var f := Parse(s).value;
    WireParse(s);
    AnnouncedMeans(s);
    var ext, end := 2 + ExtWidth(f.form), |f.Wire()|;
    if f.key.Some? {
      MaskTurnsOver(s[ext + 4..end], f.key.value);
    }
  }

  datatype EncodeError = PayloadTooLong

  // `_encode_ws_text_frame` on the UTF-8 payload and the random mask key. A length
  // that needs more than eight bytes makes `int.to_bytes` raise.
  function EncodeText(payload: seq<Byte>, key: seq<Byte>): (r: Result<seq<Byte>, EncodeError>)
    requires |key| == 4
  {
    Pow256Widths();
    var n := |payload|;
    if n < 126 then
      Ok([0x81, 0x80 + n] + key + Mask(payload, key))
    else if n < 0x1_0000 then
      Ok([0x81, 0x80 + 126] + ToBytes(n, 2) + key + Mask(payload, key))
    else if n < 0x1_0000_0000_0000_0000 then
      Ok([0x81, 0x80 + 127] + ToBytes(n, 8) + key + Mask(payload, key))
    else
      Err(PayloadTooLong)
  }

  // A final text frame under a mask, in the shortest length form that holds the payload.
  function TextFrame(payload: seq<Byte>, key: seq<Byte>): Frame {
    var n := |payload|;
    Frame(0x81, if n < 126 then Short else if n < 0x1_0000 then Medium else Long, Some(key), payload)
  }

  lemma TextOpcode(payload: seq<Byte>, key: seq<Byte>)
    ensures TextFrame(payload, key).Opcode() == 1
  {
  }

  // The writer emits a final, masked text frame in the standard's layout, or fails on a
  // payload no frame can hold; the reader gets the payload back and stops at the frame's end.
  lemma EncodeTextRoundTrip(payload: seq<Byte>, key: seq<Byte>, rest: seq<Byte>)
    requires |key| == 4
    ensures EncodeText(payload, key).Ok? <==> |payload| < 0x1_0000_0000_0000_0000
    ensures EncodeText(payload, key).Ok? ==>
              && TextFrame(payload, key).WellFormed()
              && EncodeText(payload, key).value == TextFrame(payload, key).Wire()
              && Parse(EncodeText(payload, key).value + rest) == Some(TextFrame(payload, key))
              && TextFrame(payload, key).Opcode() == 1
  {
    TextOpcode(payload, key);
    if |payload| < 0x1_0000_0000_0000_0000 {
      var f := TextFrame(payload, key);
      assert EncodeText(payload, key).value == f.Wire();
      ParseWire(f, rest);
    }
  }

  // The bytes sent: first byte, mask bit and length code, the length in network order, the key,
  // and the payload with the key's bits turned over.
  lemma EncodeTextBytes(payload: seq<Byte>, key: seq<Byte>)
    requires |key| == 4 && EncodeText(payload, key).Ok?
    ensures var s, n := EncodeText(payload, key).value, |payload|;
            var header := if n < 126 then 6 else if n < 0x1_0000 then 8 else 14;
            && |s| == header + n && s[0] == 0x81
            && s[1] == (if n < 126 then 0x80 + n else if n < 0x1_0000 then 0xFE else 0xFF)
            && n == (if n < 126 then s[1] - 0x80 else if n < 0x1_0000 then Word16(s, 2) else Word64(s, 2))
            && s[header - 4..header] == key
            && MaskedWith(s[header..], payload, key)
  {
    var s, f := EncodeText(payload, key).value, TextFrame(payload, key);
    EncodeTextRoundTrip(payload, key, []);
    assert s + [] == s;
    ParseMeans(s);
    MaskTurnsOver(payload, key);
    KeyAndMask(f);
  }

  lemma KeyAndMask(f: Frame)
    requires f.WellFormed() && f.key.Some?
    ensures var s, header := f.Wire(), 6 + ExtWidth(f.form);
            s[0] == f.first && s[1] == f.Second() && s[header - 4..header] == f.key.value && s[header..] == Mask(f.payload, f.key.value)
  {
    WireFields(f, []);
    var s, ext := f.Wire(), 2 + ExtWidth(f.form);
    assert s + [] == s;
    Halves(s, ext, ext + 4, |s|, f.key.value, Mask(f.payload, f.key.value));
  }

  // No frame that carries this payload under a mask is shorter than the one sent.
  lemma EncodeTextShortest(payload: seq<Byte>, key: seq<Byte>, g: Frame)
    requires |key| == 4 && EncodeText(payload, key).Ok?
    requires g.WellFormed() && g.key.Some? && g.payload == payload
    ensures |EncodeText(payload, key).value| <= |g.Wire()|
    ensures |EncodeText(payload, key).value| == |g.Wire()| <==> g.form == TextFrame(payload, key).form
  {
    EncodeTextRoundTrip(payload, key, []);
  }

  // Section 5.2 of RFC 6455 asks for a zero top bit in the eight-byte length. The writer does
  // not look at it: the bit is zero exactly for payloads under 2^63 bytes.
  lemma LongLengthTopBit(payload: seq<Byte>, key: seq<Byte>)
    requires |key| == 4 && 0x1_0000 <= |payload| < 0x1_0000_0000_0000_0000
    ensures EncodeText(payload, key).value[2] < 0x80 <==> |payload| < 0x8000_0000_0000_0000
  {
    Pow256Widths();
    TopBit(|payload|, 8);
    assert EncodeText(payload, key).value[2] == ToBytes(|payload|, 8)[0];
  }
}
