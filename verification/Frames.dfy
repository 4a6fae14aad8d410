/** The message reader of WebSocketClient (apps/dashboard/server.py) against the
    framing of RFC 6455, sections 5.2, 5.4 and 5.5.  The socket is a list of
    chunks; text decoding is a parameter. */
module Frames {
  import opened Options

  type Byte = b: int | 0 <= b < 256


  const CONTINUATION := 0
  const TEXT := 1
  const BINARY := 2
  const CLOSE := 8
  const PING := 9
  const PONG := 10

  const CAP := 8 * 1024 * 1024

  predicate KnownOpcode(op: int) { op in {CONTINUATION, TEXT, BINARY, CLOSE, PING, PONG} }

  datatype Fault =
    | ConnectionClosed | BadFlags | Masked | BadControl | FrameTooLong
    | StrayContinuation | NestedMessage | MessageTooLong | BadText

  // ------------------------------------------------------------------------
  // One frame
  // ------------------------------------------------------------------------

  datatype Frame = Frame(fin: bool, opcode: int, payload: seq<Byte>)

  datatype Parsed = Got(frame: Frame, rest: seq<Byte>) | Bad(fault: Fault)

  function BigEndian(bytes: seq<Byte>): nat
  {
    if bytes == [] then 0 else BigEndian(bytes[..|bytes| - 1]) * 256 + bytes[|bytes| - 1]
  }

  /** The length field's width behind a 7-bit length. */
  function Extra(short: int): nat { if short == 126 then 2 else if short == 127 then 8 else 0 }

  function Parse(s: seq<Byte>): (p: Parsed)
    ensures p.Got? ==> |p.rest| < |s|
  {
    if |s| < 2 then Bad(ConnectionClosed)
    else
      var fin, opcode, short := s[0] >= 128, s[0] % 16, s[1] % 128;
      if (s[0] / 16) % 8 != 0 || !KnownOpcode(opcode) then Bad(BadFlags)
      else if s[1] >= 128 then Bad(Masked)
      else if opcode >= CLOSE && (!fin || short > 125) then Bad(BadControl)
      else if |s| < 2 + Extra(short) then Bad(ConnectionClosed)
      else
        var start := 2 + Extra(short);
        var length := if short < 126 then short else BigEndian(s[2..start]);
        if length > CAP then Bad(FrameTooLong)
        else if |s| < start + length then Bad(ConnectionClosed)
        else Got(Frame(fin, opcode, s[start..start + length]), s[start + length..])
  }

  // ------------------------------------------------------------------------
  // One message
  // ------------------------------------------------------------------------

  datatype Outcome =
    | Text(text: string, rest: seq<Byte>, pongs: seq<seq<Byte>>)
    | PeerClosed(rest: seq<Byte>, pongs: seq<seq<Byte>>)
    | Failed(fault: Fault, pongs: seq<seq<Byte>>)

  /** A ping was answered before the rest happened. */
  function Answered(payload: seq<Byte>, o: Outcome): Outcome
  {
    match o
    case Text(t, rest, pongs) => Text(t, rest, [payload] + pongs)
    case PeerClosed(rest, pongs) => PeerClosed(rest, [payload] + pongs)
    case Failed(fault, pongs) => Failed(fault, [payload] + pongs)
  }

  /** What recv_message makes of the remaining stream, with `open` the opcode of
      a started message and `body` what it has so far. */
  function Receive(s: seq<Byte>, open: Option<int>, body: seq<Byte>, decode: seq<Byte> -> Option<string>): (o: Outcome)
    ensures o.Text? ==> |o.rest| < |s|
    decreases |s|
  {
    match Parse(s)
    case Bad(fault) => Failed(fault, [])
    case Got(frame, rest) =>
      if frame.opcode == CLOSE then PeerClosed(rest, [])
      else if frame.opcode == PING then Answered(frame.payload, Receive(rest, open, body, decode))
      else if frame.opcode == PONG then Receive(rest, open, body, decode)
      else if frame.opcode == CONTINUATION && open.None? then Failed(StrayContinuation, [])
      else if frame.opcode != CONTINUATION && open.Some? then Failed(NestedMessage, [])
      else
        var kind := if frame.opcode == CONTINUATION then open.value else frame.opcode;
        var whole := (if frame.opcode == CONTINUATION then body else []) + frame.payload;
        if |whole| > CAP then Failed(MessageTooLong, [])
        else if !frame.fin then Receive(rest, Some(kind), whole, decode)
        else if kind == TEXT then
          match decode(whole)
          case Some(t) => Text(t, rest, [])
          case None => Failed(BadText, [])
        else Receive(rest, None, [], decode)
  }

  function Concat(chunks: seq<seq<Byte>>): seq<Byte>
  {
    if chunks == [] then [] else chunks[0] + Concat(chunks[1..])
  }

  lemma {:induction false} ConcatAppend(chunks: seq<seq<Byte>>, last: seq<Byte>)
    ensures Concat(chunks + [last]) == Concat(chunks) + last
  {
    if chunks == [] {
      assert [last][1..] == [];
    } else {
      assert (chunks + [last])[1..] == chunks[1..] + [last];
      ConcatAppend(chunks[1..], last);
    }
  }

  // ------------------------------------------------------------------------
  // The client
  // ------------------------------------------------------------------------

  datatype Result<T> = Ok(value: T) | Error(fault: Fault)

  class WebSocketClient {
    var buffer: seq<Byte>
    /** What the socket will still deliver, one recv per chunk. */
    var incoming: seq<seq<Byte>>
    /** The payloads of the pongs sent so far. */
    var pongs: seq<seq<Byte>>

    ghost predicate Valid()
      reads this
    {
      forall i: nat :: i < |incoming| ==> incoming[i] != []
    }

    /** Everything not read yet, however it is cut into chunks. */
    ghost function Remaining(): seq<Byte>
      reads this
    {
      buffer + Concat(incoming)
    }

    constructor (received: seq<Byte>, chunks: seq<seq<Byte>>)
      requires forall i: nat :: i < |chunks| ==> chunks[i] != []
      ensures Valid() && Remaining() == received + Concat(chunks) && pongs == []
    {
      buffer, incoming, pongs := received, chunks, [];
    }

    /** The socket's recv: nothing once the peer has closed. */
    method Recv() returns (chunk: seq<Byte>)
      requires Valid()
      modifies this`incoming
      ensures Valid() && chunk + Concat(incoming) == Concat(old(incoming))
      ensures chunk == [] ==> old(incoming) == []
    {
      chunk := [];
      if incoming != [] {
        chunk, incoming := incoming[0], incoming[1..];
      }
    }

    method ReadExactly(count: nat) returns (r: Result<seq<Byte>>)
      requires Valid()
      modifies this`buffer, this`incoming
      ensures Valid()
      ensures if |old(Remaining())| < count then r == Error(ConnectionClosed)
              else r == Ok(old(Remaining())[..count]) && Remaining() == old(Remaining())[count..]
    {
      ghost var all := Remaining();
      while |buffer| < count
        invariant Valid() && Remaining() == all
        decreases |Concat(incoming)|
      {
        var chunk := Recv();
        if chunk == [] {
          assert all == buffer;
          return Error(ConnectionClosed);
        }
        buffer := buffer + chunk;
      }
      assert all[..count] == buffer[..count] && all[count..] == buffer[count..] + Concat(incoming);
      r := Ok(buffer[..count]);
      buffer := buffer[count..];
    }

    /** The head of the loop body in recv_message: one whole frame. */
    method ReadFrame() returns (r: Result<Frame>)
      requires Valid()
      modifies this`buffer, this`incoming
      ensures Valid()
      ensures match Parse(old(Remaining()))
              case Got(frame, rest) => r == Ok(frame) && Remaining() == rest
              case Bad(fault) => r == Error(fault)
    {
      hide BigEndian, Concat, KnownOpcode;
      ghost var s := Remaining();
      var head := ReadExactly(2);
      if head.Error? {
        return Error(head.fault);
      }
      var first, second := head.value[0], head.value[1];
      assert first == s[0] && second == s[1] && Remaining() == s[2..];
      var fin, opcode := first >= 128, first % 16;
      if (first / 16) % 8 != 0 || !KnownOpcode(opcode) {
        return Error(BadFlags);
      }
      if second >= 128 {
        return Error(Masked);
      }
      var length := second % 128;
      if opcode >= CLOSE && (!fin || length > 125) {
        return Error(BadControl);
      }
      ghost var start := 2 + Extra(length);
      if length == 126 || length == 127 {
        var field := ReadExactly(if length == 126 then 2 else 8);
        if field.Error? {
          return Error(field.fault);
        }
        assert field.value == s[2..start];
        length := BigEndian(field.value);
      }
      assert Remaining() == s[start..];
      if length > CAP {
        return Error(FrameTooLong);
      }
      if length == 0 {
        assert s[start..start] == [];
        return Ok(Frame(fin, opcode, []));
      }
      var payload := ReadExactly(length);
      if payload.Error? {
        return Error(payload.fault);
      }
      assert payload.value == s[start..start + length];
      r := Ok(Frame(fin, opcode, payload.value));
    }

    /** The next text message, None when the peer closed.  The result depends on
        the bytes still to come and not on how the socket cuts them. */
    method RecvMessage(decode: seq<Byte> -> Option<string>) returns (r: Result<Option<string>>)
      requires Valid()
      modifies this
      ensures Valid()
      ensures match Receive(old(Remaining()), None, [], decode)
              case Text(t, rest, sent) => r == Ok(Some(t)) && Remaining() == rest && pongs == old(pongs) + sent
              case PeerClosed(rest, sent) => r == Ok(None) && Remaining() == rest && pongs == old(pongs) + sent
              case Failed(fault, sent) => r == Error(fault) && pongs == old(pongs) + sent
    {
      hide Parse;
      var chunks: seq<seq<Byte>> := [];
      var open: Option<int> := None;
      ghost var goal := Receive(Remaining(), None, [], decode);
      while true
        invariant Valid()
        invariant open.None? ==> chunks == []
        invariant Owes(goal, old(pongs), pongs, Receive(Remaining(), open, Concat(chunks), decode))
        decreases |Remaining()|
      {
        ghost var before := pongs;
        ghost var owed := Receive(Remaining(), open, Concat(chunks), decode);
        var next := ReadFrame();
        if next.Error? {
          return Error(next.fault);
        }
        var frame := next.value;
        if frame.opcode == CLOSE {
          return Ok(None);
        }
        if frame.opcode == PING {
          pongs := pongs + [frame.payload];
          PongPaid(goal, old(pongs), before, frame.payload, Receive(Remaining(), open, Concat(chunks), decode));
          continue;
        }
        if frame.opcode == PONG {
          continue;
        }
        if frame.opcode == CONTINUATION {
          if open.None? {
            return Error(StrayContinuation);
          }
        } else {
          if open.Some? {
            return Error(NestedMessage);
          }
          open := Some(frame.opcode);
          chunks := [];
        }
        ConcatAppend(chunks, frame.payload);
        chunks := chunks + [frame.payload];
        var body := Join(chunks);
        if |body| > CAP {
          return Error(MessageTooLong);
        }
        if !frame.fin {
          continue;
        }
        if open == Some(TEXT) {
          match decode(body) {
            case Some(t) => return Ok(Some(t));
            case None => return Error(BadText);
          }
        }
        open, chunks := None, [];
      }
    }
  }

  /** b"".join(chunks). */
  method Join(chunks: seq<seq<Byte>>) returns (body: seq<Byte>)
    ensures body == Concat(chunks)
  {
    body := [];
    for i := 0 to |chunks|
      invariant body + Concat(chunks[i..]) == Concat(chunks)
    {
      body := body + chunks[i];
    }
  }

  /** What is still owed, after the pongs sent since the start, is the goal. */
  ghost predicate Owes(goal: Outcome, start: seq<seq<Byte>>, sent: seq<seq<Byte>>, owed: Outcome)
  {
    match (goal, owed)
    case (Text(t, rest, p), Text(t', rest', p')) => t == t' && rest == rest' && start + p == sent + p'
    case (PeerClosed(rest, p), PeerClosed(rest', p')) => rest == rest' && start + p == sent + p'
    case (Failed(f, p), Failed(f', p')) => f == f' && start + p == sent + p'
    case (_, _) => false
  }

  lemma {:induction false} PongPaid(goal: Outcome, start: seq<seq<Byte>>, sent: seq<seq<Byte>>, payload: seq<Byte>, owed: Outcome)
    requires Owes(goal, start, sent, Answered(payload, owed))
    ensures Owes(goal, start, sent + [payload], owed)
  {
    assert sent + ([payload] + owed.pongs) == sent + [payload] + owed.pongs;
  }

  // ------------------------------------------------------------------------
  // Framing
  // ------------------------------------------------------------------------

  /** n as k bytes, the most significant first. */
  function ToBytes(n: nat, k: nat): (bytes: seq<Byte>)
    ensures |bytes| == k
  {
    if k == 0 then [] else ToBytes(n / 256, k - 1) + [n % 256]
  }

  function Power256(k: nat): nat { if k == 0 then 1 else 256 * Power256(k - 1) }

  lemma {:induction false} BigEndianToBytes(n: nat, k: nat)
    requires n < Power256(k)
    ensures BigEndian(ToBytes(n, k)) == n
  {
    if k > 0 {
      BigEndianToBytes(n / 256, k - 1);
      var bytes := ToBytes(n, k);
      assert bytes[..|bytes| - 1] == ToBytes(n / 256, k - 1);
    }
  }

  /** An unmasked frame with the shortest length field (section 5.2). */
  function Encode(f: Frame): seq<Byte>
    requires 0 <= f.opcode < 16
  {
    var first, n := FirstByte(f), |f.payload|;
    if n < 126 then [first, n] + f.payload
    else if n < 65536 then [first, 126] + ToBytes(n, 2) + f.payload
    else [first, 127] + ToBytes(n, 8) + f.payload
  }

  /** A frame that a conforming server may send, within the size cap. */
  predicate FrameOk(f: Frame)
  {
    KnownOpcode(f.opcode) && |f.payload| <= CAP &&
    (f.opcode >= CLOSE ==> f.fin && |f.payload| <= 125)
  }

  lemma {:induction false} WidthsSuffice(n: nat)
    ensures n < 65536 ==> n < Power256(2)
    ensures n <= CAP ==> n < Power256(8)
  {
    assert Power256(1) == 256 * Power256(0) == 256;
    assert Power256(2) == 65536;
    assert Power256(3) == 256 * 65536 && Power256(4) == 256 * Power256(3) && Power256(5) == 256 * Power256(4);
    assert Power256(6) == 256 * Power256(5) && Power256(7) == 256 * Power256(6) && Power256(8) == 256 * Power256(7);
  }

  function FirstByte(f: Frame): Byte
    requires 0 <= f.opcode < 16
  {
    (if f.fin then 128 else 0) + f.opcode
  }

  /** A frame whose bytes are a first byte, a short length, a length field and
      the payload. */
  lemma {:induction false} ParseLaidOut(f: Frame, short: Byte, field: seq<Byte>, s: seq<Byte>, tail: seq<Byte>)
    requires FrameOk(f) && short < 128 && |field| == Extra(short)
    requires |f.payload| == if short < 126 then short else BigEndian(field)
    requires short <= 125 || f.opcode < CLOSE
    requires s == [FirstByte(f), short] + field + f.payload + tail
    ensures Parse(s) == Got(f, tail)
  {
    hide BigEndian;
    var start, n := 2 + |field|, |f.payload|;
    assert s[0] == FirstByte(f) && s[1] == short;
    assert s[2..start] == field && s[start..start + n] == f.payload && s[start + n..] == tail;
  }

  /** Parsing undoes framing, whatever follows. */
  lemma {:induction false} ParseEncoded(f: Frame, tail: seq<Byte>)
    requires FrameOk(f)
    ensures Parse(Encode(f) + tail) == Got(f, tail)
  {
    hide Parse, BigEndian, ToBytes, Power256;
    var s, n := Encode(f) + tail, |f.payload|;
    WidthsSuffice(n);
    if n < 126 {
      assert s == [FirstByte(f), n] + [] + f.payload + tail;
      ParseLaidOut(f, n, [], s, tail);
    } else if n < 65536 {
      BigEndianToBytes(n, 2);
      assert s == [FirstByte(f), 126] + ToBytes(n, 2) + f.payload + tail;
      ParseLaidOut(f, 126, ToBytes(n, 2), s, tail);
    } else {
      BigEndianToBytes(n, 8);
      assert s == [FirstByte(f), 127] + ToBytes(n, 8) + f.payload + tail;
      ParseLaidOut(f, 127, ToBytes(n, 8), s, tail);
    }
  }

  function EncodeAll(frames: seq<Frame>): seq<Byte>
    requires Opcodes(frames)
  {
    if frames == [] then [] else Encode(frames[0]) + EncodeAll(frames[1..])
  }

  /** A frame sequence that follows the fragmentation rules (section 5.4):
      control frames may stand anywhere, data messages do not overlap, and no
      message exceeds the cap. */
  ghost predicate Conforming(frames: seq<Frame>, open: Option<int>, size: nat)
  {
    frames == [] ||
    (FrameOk(frames[0]) &&
     var f := frames[0];
     if f.opcode >= CLOSE then Conforming(frames[1..], open, size)
     else
       (f.opcode == CONTINUATION <==> open.Some?) &&
       var kind := if f.opcode == CONTINUATION then open.value else f.opcode;
       var total := (if f.opcode == CONTINUATION then size else 0) + |f.payload|;
       total <= CAP &&
       Conforming(frames[1..], if f.fin then None else Some(kind), if f.fin then 0 else total))
  }

  /** The text messages the frames carry before a close, reassembled. */
  ghost function Messages(frames: seq<Frame>, open: Option<int>, body: seq<Byte>): seq<seq<Byte>>
  {
    if frames == [] || frames[0].opcode == CLOSE then []
    else if frames[0].opcode >= CLOSE then Messages(frames[1..], open, body)
    else
      var f := frames[0];
      var kind := if f.opcode == CONTINUATION && open.Some? then open.value else f.opcode;
      var whole := (if f.opcode == CONTINUATION then body else []) + f.payload;
      if !f.fin then Messages(frames[1..], Some(kind), whole)
      else (if kind == TEXT then [whole] else []) + Messages(frames[1..], None, [])
  }

  /** The payloads of the pings before a close. */
  ghost function Pings(frames: seq<Frame>): seq<seq<Byte>>
  {
    if frames == [] || frames[0].opcode == CLOSE then []
    else (if frames[0].opcode == PING then [frames[0].payload] else []) + Pings(frames[1..])
  }

  /** How a session ends: the peer closes, with bytes left unread, or a fault. */
  datatype Ending = Closed(unread: seq<Byte>) | Fault(fault: Fault)

  /** Successive recv_message calls until one does not return a text: the texts,
      the pongs sent meanwhile, and why the last call returned none. */
  ghost function Session(s: seq<Byte>, open: Option<int>, body: seq<Byte>, decode: seq<Byte> -> Option<string>)
    : (r: (seq<string>, seq<seq<Byte>>, Ending))
    decreases |s|
  {
    match Receive(s, open, body, decode)
    case Text(t, rest, pongs) =>
      var later := Session(rest, None, [], decode);
      ([t] + later.0, pongs + later.1, later.2)
    case PeerClosed(rest, pongs) => ([], pongs, Closed(rest))
    case Failed(fault, pongs) => ([], pongs, Fault(fault))
  }

  /** The frames behind the first close, if there is one. */
  ghost function BehindClose(frames: seq<Frame>): Option<seq<Frame>>
  {
    if frames == [] then None
    else if frames[0].opcode == CLOSE then Some(frames[1..])
    else BehindClose(frames[1..])
  }

  /** What the frames leave open: the opcode of a started message and its body. */
  ghost function LeftOpen(frames: seq<Frame>, open: Option<int>, body: seq<Byte>): (Option<int>, seq<Byte>)
  {
    if frames == [] then (open, body)
    else if frames[0].opcode >= CLOSE then LeftOpen(frames[1..], open, body)
    else if frames[0].fin then LeftOpen(frames[1..], None, [])
    else LeftOpen(frames[1..], Some(Kind(frames[0], open)), Grown(frames[0], body))
  }

  ghost predicate Decodable(messages: seq<seq<Byte>>, decode: seq<Byte> -> Option<string>)
  {
    forall i: nat :: i < |messages| ==> decode(messages[i]).Some?
  }

  ghost function Decoded(messages: seq<seq<Byte>>, decode: seq<Byte> -> Option<string>): seq<string>
    requires Decodable(messages, decode)
  {
    if messages == [] then [] else [decode(messages[0]).value] + Decoded(messages[1..], decode)
  }

  lemma {:induction false} ConformingOpcodes(frames: seq<Frame>, open: Option<int>, size: nat)
    requires Conforming(frames, open, size)
    ensures Opcodes(frames)
  {
    if frames != [] {
      var f := frames[0];
      if f.opcode >= CLOSE {
        ConformingOpcodes(frames[1..], open, size);
      } else {
        var kind := if f.opcode == CONTINUATION then open.value else f.opcode;
        var total := (if f.opcode == CONTINUATION then size else 0) + |f.payload|;
        ConformingOpcodes(frames[1..], if f.fin then None else Some(kind), if f.fin then 0 else total);
      }
      assert forall i: nat :: 1 <= i < |frames| ==> frames[i] == frames[1..][i - 1];
    }
  }

  /** A ping changes the pongs and nothing else. */
  lemma {:induction false} SessionAfterPing(s: seq<Byte>, f: Frame, rest: seq<Byte>, open: Option<int>, body: seq<Byte>,
                         decode: seq<Byte> -> Option<string>)
    requires Parse(s) == Got(f, rest) && f.opcode == PING
    ensures var later := Session(rest, open, body, decode);
            Session(s, open, body, decode) == (later.0, [f.payload] + later.1, later.2)
  {
    hide Parse;
    var next := Receive(rest, open, body, decode);
    assert Receive(s, open, body, decode) == Answered(f.payload, next);
    if next.Text? {
      var later := Session(next.rest, None, [], decode);
      assert ([f.payload] + next.pongs) + later.1 == [f.payload] + (next.pongs + later.1);
    }
  }

  /** What a data frame leaves behind: the opcode and the body so far. */
  function Kind(f: Frame, open: Option<int>): int
  {
    if f.opcode == CONTINUATION && open.Some? then open.value else f.opcode
  }

  function Grown(f: Frame, body: seq<Byte>): seq<Byte>
  {
    (if f.opcode == CONTINUATION then body else []) + f.payload
  }

  /** A data frame that breaks no rule. */
  ghost predicate Fits(f: Frame, open: Option<int>, body: seq<Byte>)
  {
    f.opcode < CLOSE && (f.opcode == CONTINUATION <==> open.Some?) && |Grown(f, body)| <= CAP
  }

  lemma {:induction false} SessionAfterData(s: seq<Byte>, f: Frame, rest: seq<Byte>, open: Option<int>, body: seq<Byte>,
                         decode: seq<Byte> -> Option<string>)
    requires Parse(s) == Got(f, rest) && Fits(f, open, body)
    requires f.fin && Kind(f, open) == TEXT ==> decode(Grown(f, body)).Some?
    ensures !f.fin ==> Session(s, open, body, decode) == Session(rest, Some(Kind(f, open)), Grown(f, body), decode)
    ensures f.fin && Kind(f, open) != TEXT ==> Session(s, open, body, decode) == Session(rest, None, [], decode)
    ensures f.fin && Kind(f, open) == TEXT ==>
              var later := Session(rest, None, [], decode);
              Session(s, open, body, decode) == ([decode(Grown(f, body)).value] + later.0, later.1, later.2)
  {
    hide Parse;
    if f.fin && Kind(f, open) == TEXT {
      assert Receive(s, open, body, decode) == Text(decode(Grown(f, body)).value, rest, []);
      assert [] + Session(rest, None, [], decode).1 == Session(rest, None, [], decode).1;
    } else if f.fin {
      assert Receive(s, open, body, decode) == Receive(rest, None, [], decode);
    } else {
      assert Receive(s, open, body, decode) == Receive(rest, Some(Kind(f, open)), Grown(f, body), decode);
    }
  }

  ghost predicate Opcodes(frames: seq<Frame>) { forall i: nat :: i < |frames| ==> 0 <= frames[i].opcode < 16 }

  /** The session over the frames' bytes and `tail` gives the frames' texts and
      pongs, and then ends at the close or goes on with the tail. */
  ghost predicate ReadsThrough(frames: seq<Frame>, tail: seq<Byte>, open: Option<int>, body: seq<Byte>,
                               decode: seq<Byte> -> Option<string>)
    requires Opcodes(frames) && Decodable(Messages(frames, open, body), decode)
  {
    var r, texts := Session(EncodeAll(frames) + tail, open, body, decode), Decoded(Messages(frames, open, body), decode);
    match BehindClose(frames)
    case Some(rest) => Opcodes(rest) && r == (texts, Pings(frames), Closed(EncodeAll(rest) + tail))
    case None =>
      var (o, b) := LeftOpen(frames, open, body);
      var later := Session(tail, o, b, decode);
      r == (texts + later.0, Pings(frames) + later.1, later.2)
  }

  /** The reader is a left inverse of framing, whatever bytes follow: every text
      message, whole or in fragments, comes out in order; control frames and binary
      messages between them leave no trace there, and every ping is answered.  A
      close ends the session with what is behind it unread; without one the session
      goes on with the rest. */
  lemma {:induction false} SessionOfFrames(frames: seq<Frame>, tail: seq<Byte>, open: Option<int>, body: seq<Byte>,
                                           decode: seq<Byte> -> Option<string>)
    requires Conforming(frames, open, |body|) && (open.None? ==> body == [])
    requires Opcodes(frames)
    requires Decodable(Messages(frames, open, body), decode)
    ensures ReadsThrough(frames, tail, open, body, decode)
    decreases |frames|, 1
  {
    hide Parse, Encode, Receive, Session;
    if frames == [] {
      assert EncodeAll(frames) + tail == tail;
      Empties(Session(tail, open, body, decode));
    } else {
      var f, rest := frames[0], EncodeAll(frames[1..]) + tail;
      var s := EncodeAll(frames) + tail;
      assert s == Encode(f) + rest;
      ParseEncoded(f, rest);
      if f.opcode == CLOSE {
        SessionAfterClose(s, f, rest, open, body, decode);
      } else if f.opcode >= CLOSE {
        ControlFrame(frames, tail, open, body, decode);
      } else {
        DataFrame(frames, tail, open, body, decode);
      }
    }
  }

  lemma {:induction false} Empties(r: (seq<string>, seq<seq<Byte>>, Ending))
    ensures ([] + r.0, [] + r.1, r.2) == r
  {
    assert [] + r.0 == r.0 && [] + r.1 == r.1;
  }

  /** A ping or a pong in front. */
  lemma {:induction false} ControlFrame(frames: seq<Frame>, tail: seq<Byte>, open: Option<int>, body: seq<Byte>,
                                        decode: seq<Byte> -> Option<string>)
    requires frames != [] && CLOSE < frames[0].opcode
    requires Conforming(frames, open, |body|) && (open.None? ==> body == [])
    requires Opcodes(frames)
    requires Decodable(Messages(frames, open, body), decode)
    ensures ReadsThrough(frames, tail, open, body, decode)
    decreases |frames|, 0
  {
    hide Parse, Encode, Receive, Session, Decoded, Decodable;
    var f, rest := frames[0], EncodeAll(frames[1..]) + tail;
    var s := EncodeAll(frames) + tail;
    assert s == Encode(f) + rest;
    ParseEncoded(f, rest);
    assert Messages(frames, open, body) == Messages(frames[1..], open, body);
    SessionOfFrames(frames[1..], tail, open, body, decode);
    if f.opcode == PING {
      SessionAfterPing(s, f, rest, open, body, decode);
      var (o, b) := LeftOpen(frames[1..], open, body);
      var later := Session(tail, o, b, decode);
      assert [f.payload] + (Pings(frames[1..]) + later.1) == Pings(frames) + later.1;
    } else {
      SessionAfterPong(s, f, rest, open, body, decode);
      assert [] + Pings(frames[1..]) == Pings(frames[1..]);
    }
  }

  /** A frame of a message in front. */
  lemma {:induction false} DataFrame(frames: seq<Frame>, tail: seq<Byte>, open: Option<int>, body: seq<Byte>,
                                     decode: seq<Byte> -> Option<string>)
    requires frames != [] && frames[0].opcode < CLOSE
    requires Conforming(frames, open, |body|) && (open.None? ==> body == [])
    requires Opcodes(frames)
    requires Decodable(Messages(frames, open, body), decode)
    ensures ReadsThrough(frames, tail, open, body, decode)
    decreases |frames|, 0
  {
    hide Parse, Encode, Receive, Session, ReadsThrough;
    var f, rest := frames[0], EncodeAll(frames[1..]) + tail;
    var s := EncodeAll(frames) + tail;
    assert s == Encode(f) + rest;
    ParseEncoded(f, rest);
    MessagesAfterData(frames, open, body);
    hide Conforming, Messages, EncodeAll;
    if !f.fin {
      SessionAfterData(s, f, rest, open, body, decode);
      SessionOfFrames(frames[1..], tail, Some(Kind(f, open)), Grown(f, body), decode);
      AfterSilent(frames, tail, open, body, Some(Kind(f, open)), Grown(f, body), decode);
    } else if Kind(f, open) != TEXT {
      SessionAfterData(s, f, rest, open, body, decode);
      SessionOfFrames(frames[1..], tail, None, [], decode);
      AfterSilent(frames, tail, open, body, None, [], decode);
    } else {
      DecodableTail(Messages(frames, open, body), decode);
      SessionAfterData(s, f, rest, open, body, decode);
      SessionOfFrames(frames[1..], tail, None, [], decode);
      AfterText(frames, tail, open, body, decode);
    }
  }

  /** A frame that completes no text. */
  lemma {:induction false} AfterSilent(frames: seq<Frame>, tail: seq<Byte>, open: Option<int>, body: seq<Byte>,
                                       open': Option<int>, body': seq<Byte>, decode: seq<Byte> -> Option<string>)
    requires frames != [] && frames[0].opcode < CLOSE && Opcodes(frames)
    requires Decodable(Messages(frames, open, body), decode) && Messages(frames, open, body) == Messages(frames[1..], open', body')
    requires LeftOpen(frames, open, body) == LeftOpen(frames[1..], open', body')
    requires Session(EncodeAll(frames) + tail, open, body, decode) == Session(EncodeAll(frames[1..]) + tail, open', body', decode)
    requires ReadsThrough(frames[1..], tail, open', body', decode)
    ensures ReadsThrough(frames, tail, open, body, decode)
  {
    hide Session, EncodeAll, Messages, Decodable, Decoded, LeftOpen;
    assert [] + Pings(frames[1..]) == Pings(frames[1..]);
  }

  /** A frame that completes a text. */
  lemma {:induction false} AfterText(frames: seq<Frame>, tail: seq<Byte>, open: Option<int>, body: seq<Byte>,
                                     decode: seq<Byte> -> Option<string>)
    requires frames != [] && frames[0].opcode < CLOSE && Opcodes(frames)
    requires var messages := Messages(frames, open, body);
             messages != [] && Decodable(messages, decode) && messages[0] == Grown(frames[0], body) &&
             messages[1..] == Messages(frames[1..], None, []) && Decodable(messages[1..], decode)
    requires LeftOpen(frames, open, body) == LeftOpen(frames[1..], None, [])
    requires var later := Session(EncodeAll(frames[1..]) + tail, None, [], decode);
             Session(EncodeAll(frames) + tail, open, body, decode) ==
             ([decode(Grown(frames[0], body)).value] + later.0, later.1, later.2)
    requires ReadsThrough(frames[1..], tail, None, [], decode)
    ensures ReadsThrough(frames, tail, open, body, decode)
  {
    hide Session, EncodeAll, Messages, LeftOpen;
    assert [] + Pings(frames[1..]) == Pings(frames[1..]);
    var (o, b) := LeftOpen(frames[1..], None, []);
    var later, texts := Session(tail, o, b, decode), Decoded(Messages(frames[1..], None, []), decode);
    var text := [decode(Grown(frames[0], body)).value];
    assert Decoded(Messages(frames, open, body), decode) == text + texts;
    assert text + (texts + later.0) == text + texts + later.0;
  }

  lemma {:induction false} SessionOfNothing(open: Option<int>, body: seq<Byte>, decode: seq<Byte> -> Option<string>)
    ensures Session([], open, body, decode) == ([], [], Fault(ConnectionClosed))
  {
    assert Receive([], open, body, decode) == Failed(ConnectionClosed, []);
  }

  lemma {:induction false} SessionAfterClose(s: seq<Byte>, f: Frame, rest: seq<Byte>, open: Option<int>, body: seq<Byte>,
                          decode: seq<Byte> -> Option<string>)
    requires Parse(s) == Got(f, rest) && f.opcode == CLOSE
    ensures Session(s, open, body, decode) == ([], [], Closed(rest))
  {
    hide Parse;
    assert Receive(s, open, body, decode) == PeerClosed(rest, []);
  }

  lemma {:induction false} SessionAfterPong(s: seq<Byte>, f: Frame, rest: seq<Byte>, open: Option<int>, body: seq<Byte>,
                         decode: seq<Byte> -> Option<string>)
    requires Parse(s) == Got(f, rest) && f.opcode == PONG
    ensures Session(s, open, body, decode) == Session(rest, open, body, decode)
  {
    hide Parse;
    assert Receive(s, open, body, decode) == Receive(rest, open, body, decode);
  }

  lemma {:induction false} DecodableTail(messages: seq<seq<Byte>>, decode: seq<Byte> -> Option<string>)
    requires Decodable(messages, decode) && messages != []
    ensures decode(messages[0]).Some? && Decodable(messages[1..], decode)
  {
    assert forall i: nat :: i < |messages| - 1 ==> messages[1..][i] == messages[i + 1];
  }

  lemma {:induction false} MessagesAfterData(frames: seq<Frame>, open: Option<int>, body: seq<Byte>)
    requires frames != [] && frames[0].opcode < CLOSE
    requires Conforming(frames, open, |body|) && (open.None? ==> body == [])
    ensures var f := frames[0];
            Fits(f, open, body) &&
            (if f.fin then Conforming(frames[1..], None, 0)
             else Conforming(frames[1..], Some(Kind(f, open)), |Grown(f, body)|)) &&
            (!f.fin ==> Messages(frames, open, body) == Messages(frames[1..], Some(Kind(f, open)), Grown(f, body))) &&
            (f.fin && Kind(f, open) != TEXT ==> Messages(frames, open, body) == Messages(frames[1..], None, [])) &&
            (f.fin && Kind(f, open) == TEXT ==>
               Messages(frames, open, body) == [Grown(f, body)] + Messages(frames[1..], None, []) &&
               Messages(frames, open, body)[1..] == Messages(frames[1..], None, []))
  {
  }

  /** From a fresh connection: the texts, the pongs, and a clean end exactly when
      the peer sent a close, else a connection that ended without one. */
  lemma {:induction false} ReaderInvertsFraming(frames: seq<Frame>, decode: seq<Byte> -> Option<string>)
    requires Conforming(frames, None, 0) && Decodable(Messages(frames, None, []), decode)
    ensures Opcodes(frames)
    ensures BehindClose(frames).Some? ==> Opcodes(BehindClose(frames).value)
    ensures Session(EncodeAll(frames), None, [], decode) ==
            (Decoded(Messages(frames, None, []), decode), Pings(frames),
             match BehindClose(frames)
             case Some(rest) => Closed(EncodeAll(rest))
             case None => Fault(ConnectionClosed))
  {
    hide Session, Messages, Decoded, Pings, Decodable;
    ConformingOpcodes(frames, None, 0);
    SessionOfFrames(frames, [], None, [], decode);
    assert EncodeAll(frames) + [] == EncodeAll(frames);
    var texts := Decoded(Messages(frames, None, []), decode);
    assert texts + [] == texts && Pings(frames) + [] == Pings(frames);
    if BehindClose(frames).Some? {
      assert EncodeAll(BehindClose(frames).value) + [] == EncodeAll(BehindClose(frames).value);
    } else {
      var (o, b) := LeftOpen(frames, None, []);
      SessionOfNothing(o, b, decode);
    }
  }

  // ------------------------------------------------------------------------
  // Faults
  // ------------------------------------------------------------------------

  /** Any frame a peer may lay out: with reserved bits, any opcode and a mask. */
  datatype RawFrame = RawFrame(fin: bool, reserved: int, opcode: int, masked: bool, key: seq<Byte>, payload: seq<Byte>)

  predicate RawOk(f: RawFrame)
  {
    0 <= f.reserved < 8 && 0 <= f.opcode < 16 && |f.key| == (if f.masked then 4 else 0) && |f.payload| < Power256(8)
  }

  /** The header of section 5.2, with the shortest length field. */
  function Header(f: RawFrame): seq<Byte>
    requires RawOk(f)
  {
    var first, mask, n := (if f.fin then 128 else 0) + 16 * f.reserved + f.opcode, if f.masked then 128 else 0, |f.payload|;
    if n < 126 then [first, mask + n] else if n < 65536 then [first, mask + 126] + ToBytes(n, 2) else [first, mask + 127] + ToBytes(n, 8)
  }

  function EncodeRaw(f: RawFrame): seq<Byte>
    requires RawOk(f)
  {
    Header(f) + f.key + f.payload
  }

  lemma {:induction false} FirstTwo(f: RawFrame, s: seq<Byte>, tail: seq<Byte>)
    requires RawOk(f) && s == Header(f) + tail
    ensures |s| >= 2 && s[0] == (if f.fin then 128 else 0) + 16 * f.reserved + f.opcode
    ensures s[1] == (if f.masked then 128 else 0) +
                    (if |f.payload| < 126 then |f.payload| else if |f.payload| < 65536 then 126 else 127)
    ensures s[0] % 16 == f.opcode && (s[0] / 16) % 8 == f.reserved && (s[0] >= 128 <==> f.fin)
  {
    hide ToBytes;
    FirstFields(if f.fin then 1 else 0, f.reserved, f.opcode, s[0]);
  }

  lemma {:induction false} FirstFields(fin: int, reserved: int, opcode: int, b: int)
    requires 0 <= fin < 2 && 0 <= reserved < 8 && 0 <= opcode < 16 && b == 128 * fin + 16 * reserved + opcode
    ensures b % 16 == opcode && (b / 16) % 8 == reserved
  {
    assert b / 16 == 8 * fin + reserved;
  }

  /** The rule a frame breaks by itself, the first in the order they are checked. */
  lemma {:induction false} RawFaults(f: RawFrame, tail: seq<Byte>)
    requires RawOk(f)
    ensures var p := Parse(EncodeRaw(f) + tail);
            (f.reserved != 0 || !KnownOpcode(f.opcode) ==> p == Bad(BadFlags)) &&
            (f.reserved == 0 && KnownOpcode(f.opcode) ==>
               (f.masked ==> p == Bad(Masked)) &&
               (!f.masked && f.opcode >= CLOSE && (!f.fin || |f.payload| > 125) ==> p == Bad(BadControl)) &&
               (!f.masked && f.opcode < CLOSE && |f.payload| > CAP ==> p == Bad(FrameTooLong)))
  {
    hide BigEndian, Power256;
    var s := EncodeRaw(f) + tail;
    assert s == Header(f) + (f.key + f.payload + tail);
    FirstTwo(f, s, f.key + f.payload + tail);
    if f.reserved == 0 && KnownOpcode(f.opcode) && !f.masked && f.opcode < CLOSE && |f.payload| > CAP {
      BigEndianToBytes(|f.payload|, 8);
      assert s[2..10] == ToBytes(|f.payload|, 8);
    }
  }

  /** A frame that breaks no rule, cut off anywhere. */
  lemma {:induction false} CutOff(f: Frame, k: nat)
    requires FrameOk(f) && k < |Encode(f)|
    ensures Parse(Encode(f)[..k]) == Bad(ConnectionClosed)
  {
    hide BigEndian, Power256, ToBytes;
    var n, s := |f.payload|, Encode(f)[..k];
    WidthsSuffice(n);
    if 126 <= n < 65536 {
      BigEndianToBytes(n, 2);
      assert k >= 4 ==> s[2..4] == ToBytes(n, 2);
    } else if n >= 65536 {
      BigEndianToBytes(n, 8);
      assert k >= 10 ==> s[2..10] == ToBytes(n, 8);
    }
    if k >= 2 {
      assert s[0] == FirstByte(f);
    }
  }

  lemma {:induction false} BadParse(s: seq<Byte>, fault: Fault, open: Option<int>, body: seq<Byte>, decode: seq<Byte> -> Option<string>)
    requires Parse(s) == Bad(fault)
    ensures Session(s, open, body, decode) == ([], [], Fault(fault))
  {
    hide Parse;
    assert Receive(s, open, body, decode) == Failed(fault, []);
  }

  /** Conforming frames without a close, then bytes that end the session at once. */
  lemma {:induction false} ThenFault(frames: seq<Frame>, s: seq<Byte>, fault: Fault, decode: seq<Byte> -> Option<string>)
    requires Conforming(frames, None, 0) && Decodable(Messages(frames, None, []), decode) && BehindClose(frames).None?
    requires var (o, b) := LeftOpen(frames, None, []); Session(s, o, b, decode) == ([], [], Fault(fault))
    ensures Opcodes(frames)
    ensures Session(EncodeAll(frames) + s, None, [], decode) ==
            (Decoded(Messages(frames, None, []), decode), Pings(frames), Fault(fault))
  {
    hide Session, Messages, Decoded, Pings, Decodable;
    ConformingOpcodes(frames, None, 0);
    SessionOfFrames(frames, s, None, [], decode);
    var texts := Decoded(Messages(frames, None, []), decode);
    assert texts + [] == texts && Pings(frames) + [] == Pings(frames);
  }

  /** A frame that breaks a rule by itself: the texts before it, then its fault. */
  lemma {:induction false} BrokenFrame(frames: seq<Frame>, f: RawFrame, tail: seq<Byte>, decode: seq<Byte> -> Option<string>)
    requires Conforming(frames, None, 0) && Decodable(Messages(frames, None, []), decode) && BehindClose(frames).None? && RawOk(f)
    requires f.reserved != 0 || !KnownOpcode(f.opcode) || f.masked ||
             (if f.opcode >= CLOSE then !f.fin || |f.payload| > 125 else |f.payload| > CAP)
    ensures Opcodes(frames)
    ensures Session(EncodeAll(frames) + (EncodeRaw(f) + tail), None, [], decode) ==
            (Decoded(Messages(frames, None, []), decode), Pings(frames),
             Fault(if f.reserved != 0 || !KnownOpcode(f.opcode) then BadFlags else if f.masked then Masked
                   else if f.opcode >= CLOSE then BadControl else FrameTooLong))
  {
    hide Parse, Session, EncodeRaw, Messages, Decoded, Pings, Conforming, RawOk;
    RawFaults(f, tail);
    var fault := if f.reserved != 0 || !KnownOpcode(f.opcode) then BadFlags else if f.masked then Masked
                 else if f.opcode >= CLOSE then BadControl else FrameTooLong;
    var (o, b) := LeftOpen(frames, None, []);
    BadParse(EncodeRaw(f) + tail, fault, o, b, decode);
    ThenFault(frames, EncodeRaw(f) + tail, fault, decode);
  }

  /** A frame that breaks a rule where it stands: a continuation of nothing, a new
      message inside another, a message that grows too long, a text that is none;
      or one cut off by the end of the connection. */
  lemma {:induction false} MisplacedFrame(frames: seq<Frame>, f: Frame, tail: seq<Byte>, decode: seq<Byte> -> Option<string>)
    requires Conforming(frames, None, 0) && Decodable(Messages(frames, None, []), decode) && BehindClose(frames).None?
    requires FrameOk(f) && f.opcode < CLOSE
    ensures Opcodes(frames)
    ensures var (open, body) := LeftOpen(frames, None, []);
            var s, texts := Session(EncodeAll(frames) + (Encode(f) + tail), None, [], decode), Decoded(Messages(frames, None, []), decode);
            (f.opcode == CONTINUATION && open.None? ==> s == (texts, Pings(frames), Fault(StrayContinuation))) &&
            (f.opcode != CONTINUATION && open.Some? ==> s == (texts, Pings(frames), Fault(NestedMessage))) &&
            (f.opcode == CONTINUATION && open.Some? && |body| + |f.payload| > CAP ==>
               s == (texts, Pings(frames), Fault(MessageTooLong))) &&
            (f.fin && f.opcode == TEXT && open.None? && decode(f.payload).None? ==> s == (texts, Pings(frames), Fault(BadText))) &&
            (f.fin && f.opcode == CONTINUATION && open == Some(TEXT) && |body| + |f.payload| <= CAP && decode(body + f.payload).None? ==>
               s == (texts, Pings(frames), Fault(BadText)))
  {
    hide Parse, Session, Encode, Messages, Decoded, Pings, Conforming;
    ConformingOpcodes(frames, None, 0);
    var (open, body) := LeftOpen(frames, None, []);
    var r := Receive(Encode(f) + tail, open, body, decode);
    ParseEncoded(f, tail);
    assert [] + f.payload == f.payload;
    if r.Failed? && r.pongs == [] {
      FailedAtOnce(Encode(f) + tail, open, body, decode);
      ThenFault(frames, Encode(f) + tail, r.fault, decode);
    }
  }

  lemma {:induction false} FailedAtOnce(s: seq<Byte>, open: Option<int>, body: seq<Byte>, decode: seq<Byte> -> Option<string>)
    requires Receive(s, open, body, decode).Failed? && Receive(s, open, body, decode).pongs == []
    ensures Session(s, open, body, decode) == ([], [], Fault(Receive(s, open, body, decode).fault))
  {
  }

  /** Frames and part of one more, and then the connection ends. */
  lemma {:induction false} CutOffFrame(frames: seq<Frame>, f: Frame, k: nat, decode: seq<Byte> -> Option<string>)
    requires Conforming(frames, None, 0) && Decodable(Messages(frames, None, []), decode) && BehindClose(frames).None?
    requires FrameOk(f) && k < |Encode(f)|
    ensures Opcodes(frames)
    ensures Session(EncodeAll(frames) + Encode(f)[..k], None, [], decode) ==
            (Decoded(Messages(frames, None, []), decode), Pings(frames), Fault(ConnectionClosed))
  {
    hide Parse, Session, Encode, Messages, Decoded, Pings, Conforming;
    var (open, body) := LeftOpen(frames, None, []);
    CutOff(f, k);
    BadParse(Encode(f)[..k], ConnectionClosed, open, body, decode);
    ThenFault(frames, Encode(f)[..k], ConnectionClosed, decode);
  }
}
