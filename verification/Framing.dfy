/** Messages on the connection: what the writer puts there, and what the reader loop
    recovers however little or much its handlers read. */
module Framing {
  import opened Bytes
  import opened Outcomes
  import opened Messages

  const MAX_BUFFERED := 640 * 1024

  datatype Frame = Frame(header: Header, payload: seq<Byte>)

  /** A frame that is all there and can be written. */
  predicate Complete(f: Frame) {
    f.header.Fits() && f.header.Sendable() && |f.payload| == f.header.payloadLen
  }

  function FrameBytes(f: Frame): seq<Byte> {
    HeaderBytes(f.header) + f.payload
  }

  function Wire(fs: seq<Frame>): seq<Byte> {
    if fs == [] then [] else FrameBytes(fs[0]) + Wire(fs[1..])
  }

  // ---- the reader loop ----

  /** What `passToHandler` finds for a message: whether a sender awaits it, whether a
      handler exists, and how many bytes that handler reads before it returns or panics. */
  datatype Handling = Handling(awaited: bool, handled: bool, takes: nat)

  /** How `handleIncoming` returns: because the client was closed, for want of a message,
      with something unexpected after the reader closed, or unable to discard a payload. */
  datatype IncomingEnd = Closed | NoMessage | AfterClose | NotDiscarded

  function Min(a: nat, b: nat): nat {
    if a < b then a else b
  }

  /** The frames the loop takes from a stream, and how it ends. `doneAt` is the number of
      messages after which the client is found closed. */
  function Received(stream: seq<Byte>, i: nat, hows: nat -> Handling, doneAt: nat, closed: bool)
    : (seq<Frame>, IncomingEnd)
    decreases |stream|
  {
    if i == doneAt then ([], Closed)
    else if |stream| == 0 then ([], if closed then Closed else NoMessage)
    else if |stream| < HEADER_SIZE || !ReadHeader(stream[..HEADER_SIZE]).Ok? then
      ([], if closed then AfterClose else NoMessage)
    else
      var h := ReadHeader(stream[..HEADER_SIZE]).value;
      var rest := stream[HEADER_SIZE..];
      var n := Min(h.payloadLen, |rest|);
      if n < h.payloadLen && !hows(i).awaited && !hows(i).handled then ([Frame(h, rest)], NotDiscarded)
      else
        var more := Received(rest[n..], i + 1, hows, doneAt, closed || h.typ == CLOSE_CONNECTION_RESPONSE);
        ([Frame(h, rest[..n])] + more.0, more.1)
  }

  lemma DoneReceiving(stream: seq<Byte>, hows: nat -> Handling, doneAt: nat, closed: bool)
    ensures Received(stream, doneAt, hows, doneAt, closed) == ([], Closed)
  {}

  lemma NothingReceived(stream: seq<Byte>, i: nat, hows: nat -> Handling, doneAt: nat, closed: bool)
    requires i != doneAt && (|stream| < HEADER_SIZE || !ReadHeader(stream[..HEADER_SIZE]).Ok?)
    ensures Received(stream, i, hows, doneAt, closed)
            == ([], if !closed then NoMessage else if |stream| == 0 then Closed else AfterClose)
  {
    hide ReadHeader;
  }

  lemma OneReceived(stream: seq<Byte>, i: nat, hows: nat -> Handling, doneAt: nat, closed: bool)
    requires i != doneAt && |stream| >= HEADER_SIZE && ReadHeader(stream[..HEADER_SIZE]).Ok?
    ensures var h, rest := ReadHeader(stream[..HEADER_SIZE]).value, stream[HEADER_SIZE..];
            var n := Min(h.payloadLen, |rest|);
            if n < h.payloadLen && !hows(i).awaited && !hows(i).handled then
              Received(stream, i, hows, doneAt, closed) == ([Frame(h, rest[..n])], NotDiscarded)
            else
              var more := Received(rest[n..], i + 1, hows, doneAt, closed || h.typ == CLOSE_CONNECTION_RESPONSE);
              Received(stream, i, hows, doneAt, closed) == ([Frame(h, rest[..n])] + more.0, more.1)
  {
    hide ReadHeader;
    var rest := stream[HEADER_SIZE..];
    assert rest[..|rest|] == rest;
  }

  predicate HasResponse(fs: seq<Frame>) {
    exists j :: 0 <= j < |fs| && fs[j].header.typ == CLOSE_CONNECTION_RESPONSE
  }

  lemma OneFrame(f: Frame, rest: seq<Byte>, i: nat, hows: nat -> Handling, doneAt: nat, closed: bool)
    requires Complete(f) && i != doneAt
    ensures var more := Received(rest, i + 1, hows, doneAt, closed || f.header.typ == CLOSE_CONNECTION_RESPONSE);
            Received(FrameBytes(f) + rest, i, hows, doneAt, closed) == ([f] + more.0, more.1)
  {
    hide HeaderBytes, ReadHeader;
    var stream := FrameBytes(f) + rest;
    assert stream == HeaderBytes(f.header) + (f.payload + rest);
    assert stream[..HEADER_SIZE] == HeaderBytes(f.header);
    assert stream[HEADER_SIZE..] == f.payload + rest;
    assert (f.payload + rest)[..|f.payload|] == f.payload && (f.payload + rest)[|f.payload|..] == rest;
    HeaderRoundTrip(f.header);
  }

  /** The loop recovers exactly the frames that were written, whatever its handlers do,
      and is then at the byte after them. */
  lemma {:induction false} FramesRecovered(fs: seq<Frame>, tail: seq<Byte>, i: nat, hows: nat -> Handling, doneAt: nat,
                                           closed: bool)
    requires forall j :: 0 <= j < |fs| ==> Complete(fs[j])
    requires doneAt >= i + |fs|
    ensures var after := Received(tail, i + |fs|, hows, doneAt, closed || HasResponse(fs));
            Received(Wire(fs) + tail, i, hows, doneAt, closed) == (fs + after.0, after.1)
    decreases |fs|
  {
    hide Received, FrameBytes, Complete, HasResponse;
    NoResponse();
    if fs == [] {
      assert [] + tail == tail;
      var after := Received(tail, i, hows, doneAt, closed);
      assert [] + after.0 == after.0;
    } else {
      var f, rest := fs[0], Wire(fs[1..]) + tail;
      assert Wire(fs) + tail == FrameBytes(f) + rest;
      OneFrame(f, rest, i, hows, doneAt, closed);
      FramesRecovered(fs[1..], tail, i + 1, hows, doneAt, closed || f.header.typ == CLOSE_CONNECTION_RESPONSE);
      ResponseFirstOrLater(fs);
      var after := Received(tail, i + |fs|, hows, doneAt, closed || HasResponse(fs));
      assert [f] + (fs[1..] + after.0) == fs + after.0;
    }
  }

  lemma NoResponse()
    ensures !HasResponse([])
  {}

  lemma ResponseFirstOrLater(fs: seq<Frame>)
    requires fs != []
    ensures HasResponse(fs) <==> fs[0].header.typ == CLOSE_CONNECTION_RESPONSE || HasResponse(fs[1..])
  {
    if HasResponse(fs[1..]) {
      var j :| 0 <= j < |fs[1..]| && fs[1..][j].header.typ == CLOSE_CONNECTION_RESPONSE;
      assert fs[j + 1].header.typ == CLOSE_CONNECTION_RESPONSE;
    }
    if HasResponse(fs) && fs[0].header.typ != CLOSE_CONNECTION_RESPONSE {
      var j :| 0 <= j < |fs| && fs[j].header.typ == CLOSE_CONNECTION_RESPONSE;
      assert fs[1..][j - 1].header.typ == CLOSE_CONNECTION_RESPONSE;
    }
  }

  /** A payload cut short is not reported where it is cut, unless nobody wanted the
      message: the loop goes on to the next header and fails there. */
  lemma ShortPayloadSurfacesLater(f: Frame, i: nat, hows: nat -> Handling, doneAt: nat)
    requires f.header.Fits() && f.header.Sendable() && |f.payload| < f.header.payloadLen && doneAt > i + 1
    requires f.header.typ != CLOSE_CONNECTION_RESPONSE
    ensures Received(FrameBytes(f), i, hows, doneAt, false)
            == ([f], if hows(i).awaited || hows(i).handled then NoMessage else NotDiscarded)
  {
    hide HeaderBytes, ReadHeader;
    var stream := FrameBytes(f);
    assert stream[..HEADER_SIZE] == HeaderBytes(f.header) && stream[HEADER_SIZE..] == f.payload;
    HeaderRoundTrip(f.header);
    assert f.payload[|f.payload|..] == [] && f.payload[..|f.payload|] == f.payload;
    assert [f] + [] == [f];
  }

  // ---- the writer ----

  /** A message to send: `payload` is None for a nil reader, else all the reader gives. */
  datatype Message = Message(header: Header, payload: Option<seq<Byte>>)

  /** What `newMessage` and `NewByteMessage` guarantee of it. */
  predicate Prepared(m: Message) {
    && m.header.Fits() && m.header.Sendable()
    && (m.payload.None? <==> m.header.payloadLen == 0)
    && (m.payload.Some? ==> |m.payload.value| == m.header.payloadLen)
  }

  const VERSION_MIN := 1

  /** `newMessage`, which panics on arguments that do not fit together. */
  function NewMessage(data: Option<seq<Byte>>, payloadLen: nat, typ: nat): Outcome<Message> {
    if !ValidHeader(payloadLen, typ) || (data.Some? && payloadLen == 0) || (data.None? && payloadLen != 0) then Panic
    else Ok(Message(Header(payloadLen, 0, typ, VERSION_MIN), data))
  }

  /** `NewByteMessage`: whatever it accepts is ready to be written as one frame. */
  function NewByteMessage(typ: nat, payload: seq<Byte>): (r: Outcome<Message>)
    ensures r.Ok? <==> |payload| <= 0xFFFF_FFF5 && typ <= 1023 && !(900 <= typ <= 999)
    ensures r.Ok? ==> Prepared(r.value) && FrameOf(r.value).payload == payload
    ensures r.Ok? ==> r.value.header == Header(|payload|, 0, typ, 1)
    ensures r.Panic? ==> typ > 1023 || 900 <= typ <= 999
  {
    if payload == [] then NewMessage(None, 0, typ)
    else if |payload| > MAX_PAYLOAD then Reject
    else NewMessage(Some(payload), |payload|, typ)
  }

  datatype OutgoingEnd = Idle | Closing | NilPayload

  /** The bytes `handleOutgoing` writes for the messages in turn, and where it stops. */
  function Sent(ms: seq<Message>): (seq<Byte>, OutgoingEnd) {
    if ms == [] then ([], Idle)
    else
      var h := ms[0].header;
      if h.typ == CLOSE_CONNECTION then (HeaderBytes(h), Closing)
      else if h.payloadLen > 0 && ms[0].payload.None? then (HeaderBytes(h), NilPayload)
      else
        var payload := if h.payloadLen == 0 then [] else ms[0].payload.value;
        var more := Sent(ms[1..]);
        (HeaderBytes(h) + payload + more.0, more.1)
  }

  function FrameOf(m: Message): Frame {
    Frame(m.header, if m.payload.Some? then m.payload.value else [])
  }

  /** The frames up to and including the first CloseConnection. */
  function UntilClose(ms: seq<Message>): seq<Frame> {
    if ms == [] then []
    else if ms[0].header.typ == CLOSE_CONNECTION then [FrameOf(ms[0])]
    else [FrameOf(ms[0])] + UntilClose(ms[1..])
  }

  /** The payload of the first CloseConnection, which is not written. */
  function Withheld(ms: seq<Message>): seq<Byte> {
    if ms == [] then []
    else if ms[0].header.typ == CLOSE_CONNECTION then FrameOf(ms[0]).payload
    else Withheld(ms[1..])
  }

  /** The first CloseConnection, if there is one, has no payload. */
  predicate CloseIsBare(ms: seq<Message>) {
    ms == [] || (if ms[0].header.typ == CLOSE_CONNECTION then ms[0].header.payloadLen == 0 else CloseIsBare(ms[1..]))
  }

  predicate HasClose(ms: seq<Message>) {
    exists j :: 0 <= j < |ms| && ms[j].header.typ == CLOSE_CONNECTION
  }

  /** What is missing on the wire from the frames up to the first CloseConnection is that
      message's payload, and nothing else. */
  lemma {:induction false} SentButWithheld(ms: seq<Message>)
    requires forall j :: 0 <= j < |ms| ==> Prepared(ms[j])
    ensures Sent(ms).0 + Withheld(ms) == Wire(UntilClose(ms))
    ensures CloseIsBare(ms) <==> Withheld(ms) == []
    ensures Sent(ms).1 == if HasClose(ms) then Closing else Idle
  {
    hide HeaderBytes;
    if ms == [] {
    } else {
      SentButWithheld(ms[1..]);
      var f := FrameOf(ms[0]);
      if ms[0].header.typ == CLOSE_CONNECTION {
        assert [f][1..] == [];
        assert HeaderBytes(f.header) + f.payload + [] == HeaderBytes(f.header) + f.payload;
      } else {
        var more := Sent(ms[1..]).0;
        assert HeaderBytes(f.header) + f.payload + more + Withheld(ms[1..])
               == HeaderBytes(f.header) + f.payload + (more + Withheld(ms[1..]));
        assert forall j :: 0 < j < |ms| ==> ms[j] == ms[1..][j - 1];
      }
    }
  }

  lemma {:induction false} UntilCloseFrames(ms: seq<Message>)
    requires forall j :: 0 <= j < |ms| ==> Prepared(ms[j])
    ensures var fs := UntilClose(ms);
            && |fs| <= |ms|
            && (forall j :: 0 <= j < |fs| ==> Complete(fs[j]))
            && (forall j :: 0 <= j < |fs| - 1 ==> fs[j].header.typ != CLOSE_CONNECTION)
  {
    hide Complete;
    if ms != [] {
      UntilCloseFrames(ms[1..]);
      PreparedIsComplete(ms[0]);
    }
  }

  lemma PreparedIsComplete(m: Message)
    requires Prepared(m)
    ensures Complete(FrameOf(m))
  {}

  /** What is on the wire is the concatenation of the frames up to the first
      CloseConnection if, and only if, that message carries no payload. */
  lemma SentIsFrames(ms: seq<Message>)
    requires forall j :: 0 <= j < |ms| ==> Prepared(ms[j])
    ensures var fs := UntilClose(ms);
            && (Sent(ms).0 == Wire(fs) <==> CloseIsBare(ms))
            && (forall j :: 0 <= j < |fs| ==> Complete(fs[j]))
            && (Sent(ms).1 == Closing <==> HasClose(ms))
            && forall j :: 0 <= j < |fs| - 1 ==> fs[j].header.typ != CLOSE_CONNECTION
  {
    hide Sent, Wire, UntilClose, Withheld, CloseIsBare, Complete, Prepared;
    SentButWithheld(ms);
    UntilCloseFrames(ms);
    if CloseIsBare(ms) {
      assert Sent(ms).0 + [] == Sent(ms).0;
    } else {
      assert |Sent(ms).0| < |Wire(UntilClose(ms))|;
    }
  }

  /** From sender to receiver: the messages up to the first CloseConnection, in order,
      with their payloads, and nothing else, if and only if it has none. */
  lemma EndToEnd(ms: seq<Message>, hows: nat -> Handling, doneAt: nat)
    requires forall j :: 0 <= j < |ms| ==> Prepared(ms[j])
    requires doneAt > |ms|
    ensures Received(Sent(ms).0, 0, hows, doneAt, false).0 == UntilClose(ms) <==> CloseIsBare(ms)
    ensures CloseIsBare(ms) ==>
              Received(Sent(ms).0, 0, hows, doneAt, false).1
              == if HasResponse(UntilClose(ms)) then Closed else NoMessage
  {
    hide Wire, Sent, UntilClose, CloseIsBare, Complete, Prepared, HasResponse, FrameBytes;
    var fs := UntilClose(ms);
    if CloseIsBare(ms) {
      SentIsFrames(ms);
      UntilCloseFrames(ms);
      FramesRecovered(fs, [], 0, hows, doneAt, false);
      assert Wire(fs) + [] == Wire(fs) && fs + [] == fs;
    } else {
      CloseWithPayloadIsCut(ms, hows, doneAt);
    }
  }

  /** A CloseConnection given a payload announces bytes that never follow: the reader gets
      everything before it, and of it the header alone. */
  lemma CloseWithPayloadIsCut(ms: seq<Message>, hows: nat -> Handling, doneAt: nat)
    requires forall j :: 0 <= j < |ms| ==> Prepared(ms[j])
    requires !CloseIsBare(ms) && doneAt > |ms|
    ensures var fs := UntilClose(ms);
            && fs != [] && fs[|fs| - 1].payload != []
            && Received(Sent(ms).0, 0, hows, doneAt, false).0
               == fs[..|fs| - 1] + [Frame(fs[|fs| - 1].header, [])]
  {
    hide Wire, Sent, UntilClose, CloseIsBare, Complete, Prepared, FrameBytes, Received, HasResponse, HeaderBytes;
    var fs := UntilClose(ms);
    LastIsClose(ms);
    UntilCloseFrames(ms);
    var init, last := fs[..|fs| - 1], fs[|fs| - 1];
    assert forall j :: 0 <= j < |init| ==> init[j] == fs[j];
    FramesRecovered(init, HeaderBytes(last.header), 0, hows, doneAt, false);
    HeaderAlone(last, |init|, hows, doneAt, HasResponse(init));
  }

  lemma {:induction false} LastIsClose(ms: seq<Message>)
    requires forall j :: 0 <= j < |ms| ==> Prepared(ms[j])
    requires !CloseIsBare(ms)
    ensures var fs := UntilClose(ms);
            && fs != [] && fs[|fs| - 1].payload != []
            && Sent(ms).0 == Wire(fs[..|fs| - 1]) + HeaderBytes(fs[|fs| - 1].header)
  {
    hide HeaderBytes;
    var fs := UntilClose(ms);
    if ms[0].header.typ == CLOSE_CONNECTION {
      assert fs[..0] == [];
    } else {
      LastIsClose(ms[1..]);
      var later := UntilClose(ms[1..]);
      assert fs[..|fs| - 1] == [fs[0]] + later[..|later| - 1];
      assert fs[..|fs| - 1][1..] == later[..|later| - 1];
      var w, h := Wire(later[..|later| - 1]), HeaderBytes(later[|later| - 1].header);
      assert FrameBytes(fs[0]) + (w + h) == FrameBytes(fs[0]) + w + h;
    }
  }

  lemma HeaderAlone(f: Frame, i: nat, hows: nat -> Handling, doneAt: nat, closed: bool)
    requires Complete(f) && f.payload != [] && doneAt > i
    ensures Received(HeaderBytes(f.header), i, hows, doneAt, closed).0 == [Frame(f.header, [])]
  {
    hide HeaderBytes, ReadHeader;
    var stream := HeaderBytes(f.header);
    HeaderRoundTrip(f.header);
    assert stream[..HEADER_SIZE] == stream && stream[HEADER_SIZE..] == [];
    var none: seq<Byte> := [];
    assert none[..0] == [] && none[0..] == [];
  }

  // ---- the code ----

  /** The connection: bytes still to be read, and bytes written. */
  class Conn {
    var incoming: seq<Byte>
    var outgoing: seq<Byte>

    constructor (stream: seq<Byte>)
      ensures incoming == stream && outgoing == []
    {
      incoming, outgoing := stream, [];
    }

    method Write(p: seq<Byte>)
      modifies this`outgoing
      ensures outgoing == old(outgoing) + p
    {
      outgoing := outgoing + p;
    }

    /** Reads up to `n` bytes; fewer only where the stream ends. */
    method Take(n: nat) returns (p: seq<Byte>)
      modifies this`incoming
      ensures p == old(incoming)[..Min(n, |old(incoming)|)]
      ensures incoming == old(incoming)[Min(n, |old(incoming)|)..]
    {
      var k := Min(n, |incoming|);
      p, incoming := incoming[..k], incoming[k..];
    }
  }

  method WriteHeader(c: Conn, h: Header)
    requires h.Fits()
    modifies c`outgoing
    ensures c.outgoing == old(c.outgoing) + HeaderBytes(h)
  {
    c.Write(HeaderBytes(h));
  }

  /** The write side of `handleOutgoing`, given the messages it comes to send. */
  method HandleOutgoing(c: Conn, ms: seq<Message>) returns (end: OutgoingEnd)
    requires forall j :: 0 <= j < |ms| ==> ms[j].header.Fits()
    modifies c`outgoing
    ensures (c.outgoing, end) == (old(c.outgoing) + Sent(ms).0, Sent(ms).1)
  {
    hide HeaderBytes;
    assert ms[0..] == ms && ms[|ms|..] == [];
    assert c.outgoing + Sent(ms).0 == old(c.outgoing) + Sent(ms).0;
    for i := 0 to |ms|
      invariant c.outgoing + Sent(ms[i..]).0 == old(c.outgoing) + Sent(ms).0
      invariant Sent(ms[i..]).1 == Sent(ms).1
    {
      var m := ms[i];
      ghost var before := c.outgoing;
      assert ms[i..][1..] == ms[i + 1..];
      WriteHeader(c, m.header);
      if m.header.typ == CLOSE_CONNECTION {
        return Closing;
      }
      if m.header.payloadLen > 0 {
        if m.payload.None? {
          return NilPayload;
        }
        c.Write(m.payload.value);
      }
      assert c.outgoing + Sent(ms[i + 1..]).0 == before + Sent(ms[i..]).0;
    }
    assert c.outgoing + [] == c.outgoing;
    return Idle;
  }

  /** `msgWriter`: the size check is on the length modulo 2^32, so only below that is what it
      writes a frame. */
  class MsgWriter {
    var header: Header

    constructor (version: nat)
      ensures header == Header(0, 0, 0, version)
    {
      header := Header(0, 0, 0, version);
    }

    method Write(c: Conn, mid: nat, typ: nat, data: seq<Byte>) returns (ok: bool)
      requires Header(0, mid, typ, header.version).Fits()
      modifies this, c`outgoing
      ensures ok <==> ValidHeader(|data| % 0x1_0000_0000, typ)
      ensures ok ==> header == Header(|data| % 0x1_0000_0000, mid, typ, old(header.version))
      ensures c.outgoing == if ok then old(c.outgoing) + HeaderBytes(header) + data else old(c.outgoing)
      ensures ok && |data| < 0x1_0000_0000 ==>
                c.outgoing == old(c.outgoing) + FrameBytes(Frame(header, data)) && |data| == header.payloadLen
      ensures ok && |data| < 0x1_0000_0000 && header.version <= 7 ==> Complete(Frame(header, data))
    {
      hide HeaderBytes;
      if |data| % 0x1_0000_0000 > MAX_PAYLOAD {
        return false;
      }
      header := Header(|data| % 0x1_0000_0000, mid, typ, header.version);
      if !ValidHeader(header.payloadLen, header.typ) {
        return false;
      }
      WriteHeader(c, header);
      c.Write(data);
      return true;
    }
  }

  /** Returns whether it failed and what it sent on, and closed, the reply channel. */
  method PassToHandler(c: Conn, h: Header, how: Handling) returns (failed: bool, reply: Option<Message>)
    modifies c`incoming
    ensures c.incoming == old(c.incoming)[Min(h.payloadLen, |old(c.incoming)|)..]
    ensures failed <==> !how.awaited && !how.handled && |old(c.incoming)| < h.payloadLen
    ensures reply.Some? <==> how.awaited && (|old(c.incoming)| >= h.payloadLen || h.payloadLen > 640 * 1024)
    ensures reply.Some? ==>
              reply.value == Message(h, if h.payloadLen > 640 * 1024 then None
                                        else Some(old(c.incoming)[..h.payloadLen]))
  {
    failed, reply := false, None;
    if !how.awaited && !how.handled {
      var discarded := c.Take(h.payloadLen);
      failed := |discarded| < h.payloadLen;
      return;
    }
    var limit, buffered := h.payloadLen, false;
    if how.awaited {
      if h.payloadLen > MAX_BUFFERED {
        reply := Some(Message(h, None));
      } else {
        var buffer := c.Take(h.payloadLen);
        if |buffer| < h.payloadLen {
          // the deferred drain finds nothing, and its result replaces this error
          var _ := c.Take(limit);
          return;
        }
        buffered := true;
        reply := Some(Message(h, Some(buffer)));
      }
    }
    if how.handled && !buffered {
      var read := c.Take(Min(how.takes, limit));
      limit := limit - |read|;
    }
    if !buffered {
      var _ := c.Take(limit);
    }
  }

  /** `handleIncoming`. */
  method HandleIncoming(c: Conn, hows: nat -> Handling, doneAt: nat) returns (frames: seq<Frame>, end: IncomingEnd)
    modifies c`incoming
    ensures (frames, end) == Received(old(c.incoming), 0, hows, doneAt, false)
  {
    hide HeaderBytes, ReadHeader, Received;
    var i: nat := 0;
    var receivedClosed := false;
    frames := [];
    ghost var all := Received(c.incoming, 0, hows, doneAt, false);
    assert frames + all.0 == all.0;
    while i != doneAt
      invariant var more := Received(c.incoming, i, hows, doneAt, receivedClosed);
                all == (frames + more.0, more.1)
      decreases |c.incoming|
    {
      ghost var stream := c.incoming;
      ghost var done := frames;
      assert done + [] == done;
      var buf := c.Take(HEADER_SIZE);
      if |buf| < HEADER_SIZE || !ReadHeader(buf).Ok? {
        NothingReceived(stream, i, hows, doneAt, receivedClosed);
        return frames, if !receivedClosed then NoMessage else if |buf| == 0 then Closed else AfterClose;
      }
      var h := ReadHeader(buf).value;
      OneReceived(stream, i, hows, doneAt, receivedClosed);
      if h.typ == CLOSE_CONNECTION_RESPONSE {
        receivedClosed := true;
      }
      var rest := c.incoming;
      var failed, _ := PassToHandler(c, h, hows(i));
      frames := frames + [Frame(h, rest[..Min(h.payloadLen, |rest|)])];
      if failed {
        return frames, NotDiscarded;
      }
      i := i + 1;
      ghost var more := Received(c.incoming, i, hows, doneAt, receivedClosed);
      assert done + ([frames[|done|]] + more.0) == frames + more.0;
    }
    DoneReceiving(c.incoming, hows, doneAt, receivedClosed);
    assert frames + [] == frames;
    return frames, Closed;
  }
}
