/** Frames on a stream socket: send_data and recv_data of socket_util.cc, and the fragments of
    BaseServer::Loop that write and read one frame (base_server_impl.h).

    A schedule lists what the next calls of `send` or `recv` do; a call past its end moves all
    it can.  Reading an empty wire is the end of the stream. */
module Framing {
  import opened ByteCodec

  datatype Outcome =
    | Moved(n: nat)   // transfers up to n bytes, at least one
    | Again           // EAGAIN; for recv also EINTR
    | Failed          // any other error

  type Schedule = seq<Outcome>

  predicate NoFailure(script: Schedule) {
    Failed !in script
  }

  /** Bytes that one successful call moves when `avail` could be moved. */
  function Amount(script: Schedule, avail: nat): (k: nat)
    requires avail > 0
    ensures 0 < k <= avail
  {
    if script != [] && script[0].Moved? && script[0].n < avail then (if script[0].n == 0 then 1 else script[0].n)
    else avail
  }

  function Tail(script: Schedule): (rest: Schedule)
    ensures NoFailure(script) ==> NoFailure(rest)
  {
    if script == [] then [] else script[1..]
  }

  const REPLY_TAG: bv32 := 4
  const HEADER := 8
  const INT_LIMIT := 0x8000_0000

  datatype Frame = Frame(tag: bv32, payload: seq<Byte>)
  datatype Option<T> = None | Some(value: T)

  class Wire {
    var bytes: seq<Byte>

    constructor ()
      ensures bytes == []
    {
      bytes := [];
    }
  }

  // ------------------------------------------------------------ transfers

  /** send_data: returns `size` once every byte is on the wire, -1 on an error. */
  method SendData(buffer: array?<Byte>, size: nat, wire: Wire, script: Schedule) returns (r: int, rest: Schedule)
    requires buffer != null ==> size <= buffer.Length
    modifies wire
    ensures buffer == null ==> r == -1 && wire.bytes == old(wire.bytes) && rest == script
    ensures buffer != null ==>
              && (r == size ==> wire.bytes == old(wire.bytes) + buffer[..size])
              && (r != size ==> r == -1 && !NoFailure(script)
                                && exists k :: 0 <= k < size && wire.bytes == old(wire.bytes) + buffer[..k])
    ensures buffer != null && size > 0 && script != [] && script[0].Failed? ==>
              r == -1 && wire.bytes == old(wire.bytes) && rest == script[1..]
    ensures NoFailure(script) ==> NoFailure(rest)
  {
    rest := script;
    if buffer == null {
      return -1, rest;
    }
    var sendLen := 0;
    while sendLen < size
      invariant 0 <= sendLen <= size
      invariant wire.bytes == old(wire.bytes) + buffer[..sendLen]
      invariant script != [] && script[0].Failed? ==> sendLen == 0 && rest == script
      invariant NoFailure(script) ==> NoFailure(rest)
      decreases |rest|, size - sendLen
    {
      if rest != [] && rest[0].Again? {
        rest := Tail(rest);
      } else if rest != [] && rest[0].Failed? {
        return -1, Tail(rest);
      } else {
        var k := Amount(rest, size - sendLen);
        wire.bytes := wire.bytes + buffer[sendLen..sendLen + k];
        assert buffer[..sendLen + k] == buffer[..sendLen] + buffer[sendLen..sendLen + k];
        rest, sendLen := Tail(rest), sendLen + k;
      }
    }
    r := sendLen;
  }

  /** recv_data: returns `size` once the buffer is full, 0 at the end of the stream or on an
      error.  Without errors it fills the buffer exactly when the wire holds enough. */
  method RecvData(buffer: array<Byte>, size: nat, wire: Wire, script: Schedule) returns (r: int, rest: Schedule)
    requires size <= buffer.Length
    modifies buffer, wire
    ensures r == size || r == 0
    ensures r == size ==> size <= |old(wire.bytes)|
                          && buffer[..size] == old(wire.bytes)[..size] && wire.bytes == old(wire.bytes)[size..]
    ensures r != size ==> (|old(wire.bytes)| < size && wire.bytes == []) || !NoFailure(script)
    ensures NoFailure(script) ==> NoFailure(rest)
  {
    rest := script;
    var readLen := 0;
    assert old(wire.bytes)[0..] == old(wire.bytes);
    while readLen < size
      invariant 0 <= readLen <= size && readLen <= |old(wire.bytes)|
      invariant buffer[..readLen] == old(wire.bytes)[..readLen]
      invariant wire.bytes == old(wire.bytes)[readLen..]
      invariant NoFailure(script) ==> NoFailure(rest)
      decreases |rest|, size - readLen
    {
      if rest != [] && rest[0].Again? {
        rest := Tail(rest);
      } else if rest != [] && rest[0].Failed? {
        return 0, Tail(rest);
      } else if wire.bytes == [] {
        return 0, Tail(rest);
      } else {
        var k := Amount(rest, if size - readLen < |wire.bytes| then size - readLen else |wire.bytes|);
        Fill(buffer, readLen, wire.bytes[..k]);
        assert old(wire.bytes)[..readLen + k] == old(wire.bytes)[..readLen] + wire.bytes[..k];
        wire.bytes := wire.bytes[k..];
        rest, readLen := Tail(rest), readLen + k;
      }
    }
    r := readLen;
  }

  /** What the kernel copies: `part` to `buffer + at`. */
  method Fill(buffer: array<Byte>, at: nat, part: seq<Byte>)
    requires at + |part| <= buffer.Length
    modifies buffer
    ensures buffer[..at + |part|] == old(buffer[..at]) + part
  {
    var i := 0;
    while i < |part|
      invariant i <= |part|
      invariant buffer[..at + i] == old(buffer[..at]) + part[..i]
    {
      buffer[at + i] := part[i];
      i := i + 1;
    }
    assert part[..i] == part;
  }

  // ------------------------------------------------------------ one frame

  function Header(size: nat, tag: bv32): seq<Byte> {
    LittleBytes(WordOf(size)) + LittleBytes(tag)
  }

  /** A frame as it stands on the wire, from either side. */
  function Packet(frame: Frame): seq<Byte> {
    Header(|frame.payload|, frame.tag) + frame.payload
  }

  /** The server's own frames. */
  function Encode(payload: seq<Byte>): seq<Byte> {
    Packet(Frame(REPLY_TAG, payload))
  }

  /** What reading one frame makes of a stream: the frame, if one is read, and what is left. */
  function Decode(s: seq<Byte>): (Option<Frame>, seq<Byte>) {
    if |s| < HEADER then (None, [])
    else
      var len := Value(LittleInt(s[..4]));
      var body := s[HEADER..];
      if len == 0 || len >= INT_LIMIT then (None, body)
      else if |body| < len then (None, [])
      else (Some(Frame(LittleInt(s[4..8]), body[..len])), body[len..])
  }

  lemma HeaderReadBack(word: bv32, tag: bv32, rest: seq<Byte>)
    ensures var s := LittleBytes(word) + LittleBytes(tag) + rest;
            && |s| >= HEADER && s[HEADER..] == rest && |LittleBytes(word) + LittleBytes(tag)| == HEADER
            && LittleInt(s[..4]) == word && LittleInt(s[4..8]) == tag
  {
    hide LittleBytes, LittleInt;
    var a, b := LittleBytes(word), LittleBytes(tag);
    FourBytes(word);
    FourBytes(tag);
    var s := a + b + rest;
    assert s[..4] == a && s[4..8] == b;
    LittleRoundTrip(word);
    LittleRoundTrip(tag);
  }

  lemma FourBytes(v: bv32)
    ensures |LittleBytes(v)| == 4
  {}

  /** Any frame with any tag reads back, whatever follows it. */
  lemma DecodePacket(frame: Frame, rest: seq<Byte>)
    requires 0 < |frame.payload| < INT_LIMIT
    ensures Decode(Packet(frame) + rest) == (Some(frame), rest)
  {
    hide LittleBytes, LittleInt, Value, WordOf;
    var payload := frame.payload;
    var body := payload + rest;
    HeaderReadBack(WordOf(|payload|), frame.tag, body);
    WordValue(|payload|);
    assert Packet(frame) + rest == LittleBytes(WordOf(|payload|)) + LittleBytes(frame.tag) + body;
    assert body[..|payload|] == payload && body[|payload|..] == rest;
  }

  /** All other streams: no whole header, a length that is 0 or negative as an int, or fewer
      bytes than the length. */
  lemma DecodeFails(word: bv32, tag: bv32, body: seq<Byte>, short: seq<Byte>)
    ensures |short| < 8 ==> Decode(short) == (None, [])
    ensures Value(word) == 0 || Value(word) >= 0x8000_0000 ==>
              Decode(LittleBytes(word) + LittleBytes(tag) + body) == (None, body)
    ensures |body| < Value(word) < 0x8000_0000 ==>
              Decode(LittleBytes(word) + LittleBytes(tag) + body) == (None, [])
  {
    hide LittleBytes, LittleInt, Value;
    HeaderReadBack(word, tag, body);
  }

  /** A frame reads back exactly when its payload is not empty: a length of 0 is taken for a
      failed read, and the connection is reset. */
  lemma DecodeEncode(payload: seq<Byte>, rest: seq<Byte>)
    requires |payload| < INT_LIMIT
    ensures Decode(Encode(payload) + rest) ==
            if payload != [] then (Some(Frame(REPLY_TAG, payload)), rest) else (None, rest)
  {
    hide LittleBytes, LittleInt, Value, WordOf, Decode;
    if payload != [] {
      DecodePacket(Frame(REPLY_TAG, payload), rest);
    } else {
      WordValue(0);
      DecodeFails(WordOf(0), REPLY_TAG, rest, []);
      assert Encode(payload) + rest == LittleBytes(WordOf(0)) + LittleBytes(REPLY_TAG) + rest;
    }
  }

  /** The EPOLLOUT branch: header, then the payload if there is one. */
  method SendFrame(payload: seq<Byte>, wire: Wire, script: Schedule) returns (rest: Schedule)
    requires |payload| < INT_LIMIT
    modifies wire
    ensures NoFailure(script) ==> NoFailure(rest) && wire.bytes == old(wire.bytes) + Encode(payload)
    ensures script != [] && script[0].Failed? && NoFailure(script[1..]) ==> wire.bytes == old(wire.bytes) + payload
  {
    hide LittleBytes, WordOf, NoFailure;
    var header := new Byte[9](_ => 0);
    FourBytes(WordOf(|payload|));
    FourBytes(REPLY_TAG);
    IntToBytesLittle(WordOf(|payload|), header, 0);
    assert header[..4] == LittleBytes(WordOf(|payload|));
    IntToBytesLittle(REPLY_TAG, header, 4);
    assert header[..8] == Header(|payload|, REPLY_TAG);
    var _, after := SendData(header, 8, wire, script);
    rest := after;
    if |payload| > 0 {
      var body := new Byte[|payload|](i requires 0 <= i < |payload| => payload[i]);
      assert body[..|payload|] == payload;
      var _, last := SendData(body, |payload|, wire, after);
      rest := last;
    }
  }

  /** The EPOLLIN branch up to the task: None stands for the connection being reset. */
  method RecvFrame(wire: Wire, script: Schedule) returns (frame: Option<Frame>, rest: Schedule)
    modifies wire
    ensures NoFailure(script) ==> NoFailure(rest) && (frame, wire.bytes) == Decode(old(wire.bytes))
  {
    hide LittleInt, Value, NoFailure;
    var header := new Byte[8];
    var r, after := RecvData(header, 8, wire, script);
    if r <= 0 {
      return None, after;
    }
    var word := BytesToIntLittle(header, 0);
    var tag := BytesToIntLittle(header, 4);
    assert header[0..4] == old(wire.bytes)[..4] && header[4..8] == old(wire.bytes)[4..8];
    var len := Value(word);
    if len >= INT_LIMIT {
      // the length is negative as an int, so recv_data reads nothing
      return None, after;
    }
    var body := new Byte[len];
    r, rest := RecvData(body, len, wire, after);
    if r <= 0 {
      return None, rest;
    }
    frame := Some(Frame(tag, body[..len]));
  }

  // ------------------------------------------------------------ streams of frames

  function Packets(frames: seq<Frame>): seq<Byte> {
    if frames == [] then [] else Packet(frames[0]) + Packets(frames[1..])
  }

  function Replies(payloads: seq<seq<Byte>>): (r: seq<Frame>)
    ensures |r| == |payloads|
  {
    seq(|payloads|, i requires 0 <= i < |payloads| => Frame(REPLY_TAG, payloads[i]))
  }

  predicate Sendable(frames: seq<Frame>) {
    forall i :: 0 <= i < |frames| ==> 0 < |frames[i].payload| < INT_LIMIT
  }

  /** Reading as many frames as were written, through any schedule of partial transfers and
      retries, gives those frames, tags and all, in order; what follows them is left. */
  method RecvFrames(wire: Wire, count: nat, receiving: Schedule, ghost written: seq<Frame>, ghost rest: seq<Byte>)
    returns (frames: seq<Frame>)
    requires Sendable(written) && NoFailure(receiving) && count == |written|
    requires wire.bytes == Packets(written) + rest
    modifies wire
    ensures frames == written && wire.bytes == rest
  {
    hide Packet, NoFailure, Decode;
    var script, i := receiving, 0;
    frames := [];
    PacketsNone();
    while i < count
      invariant 0 <= i <= count && NoFailure(script)
      invariant wire.bytes == Packets(written[i..]) + rest
      invariant frames == written[..i]
    {
      assert written[i..][0] == written[i] && written[i..][1..] == written[i + 1..];
      assert wire.bytes == Packet(written[i]) + (Packets(written[i + 1..]) + rest);
      DecodePacket(written[i], Packets(written[i + 1..]) + rest);
      var frame;
      frame, script := RecvFrame(wire, script);
      frames := frames + [frame.value];
      i := i + 1;
    }
    assert [] + rest == rest;
  }

  /** What a client wrote, with the tags that choose the pools, is what the server reads. */
  method ReadRequests(requests: seq<Frame>, rest: seq<Byte>, receiving: Schedule)
    returns (frames: seq<Frame>, left: seq<Byte>)
    requires Sendable(requests) && NoFailure(receiving)
    ensures frames == requests && left == rest
  {
    var wire := new Wire();
    wire.bytes := Packets(requests) + rest;
    frames := RecvFrames(wire, |requests|, receiving, requests, rest);
    left := wire.bytes;
  }

  /** Writes all frames, then reads as many, each through its own schedule of partial
      transfers and retries: the same payloads come back in order and nothing is left. */
  method Transfer(payloads: seq<seq<Byte>>, sending: Schedule, receiving: Schedule)
    returns (frames: seq<Frame>, left: seq<Byte>)
    requires Sendable(Replies(payloads)) && NoFailure(sending) && NoFailure(receiving)
    ensures frames == Replies(payloads) && left == []
  {
    hide Packet, NoFailure, Decode;
    var wire := new Wire();
    var script, i := sending, 0;
    ghost var all := Replies(payloads);
    PacketsNone();
    while i < |payloads|
      invariant 0 <= i <= |payloads| && fresh(wire) && NoFailure(script)
      invariant wire.bytes + Packets(all[i..]) == Packets(all)
    {
      assert all[i..][1..] == all[i + 1..] && all[i] == Frame(REPLY_TAG, payloads[i]);
      assert 0 < |all[i].payload| < INT_LIMIT;
      script := SendFrame(payloads[i], wire, script);
      i := i + 1;
    }
    assert wire.bytes == Packets(all) + [];
    frames := RecvFrames(wire, |payloads|, receiving, all, []);
    left := wire.bytes;
  }

  lemma PacketsNone()
    ensures Packets([]) == []
  {}
}
