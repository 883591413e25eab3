/** Length-prefixed frames over a byte stream that arrives in arbitrary pieces
    (src/control_server.cpp:39-75, 95-115, 497-518). */
module Framing {
  import opened Config

  const HEADER_SIZE: nat := 8
  const MAX_FRAME: nat := 0x10_0000

  // ---------------------------------------------------------------- bytes of a length

  function EncodeU32(x: nat): (b: seq<Byte>)
    requires x < TWO_32
    ensures |b| == 4
  {
    [x % 0x100, x / 0x100 % 0x100, x / 0x1_0000 % 0x100, x / 0x100_0000 % 0x100]
  }

  function DecodeU32(b: seq<Byte>): (x: nat)
    requires |b| == 4
    ensures x < TWO_32
  {
    var b0: int, b1: int, b2: int, b3: int := b[0], b[1], b[2], b[3];
    b0 + b1 * 0x100 + b2 * 0x1_0000 + b3 * 0x100_0000
  }

  /** Sums and shifts agree, because the bytes do not overlap. */
  lemma ShiftsAreSums(b0: bv32, b1: bv32, b2: bv32, b3: bv32)
    requires b0 < 0x100 && b1 < 0x100 && b2 < 0x100 && b3 < 0x100
    ensures b0 | (b1 << 8) | (b2 << 16) | (b3 << 24) == b0 + b1 * 0x100 + b2 * 0x1_0000 + b3 * 0x100_0000
  {
  }

  lemma DecodeEncode(x: nat)
    requires x < TWO_32
    ensures DecodeU32(EncodeU32(x)) == x
  {
    var q1 := x / 0x100;
    var q2 := q1 / 0x100;
    assert x / 0x1_0000 == q2 && x / 0x100_0000 == q2 / 0x100;
  }

  lemma EncodeDecode(b: seq<Byte>)
    requires |b| == 4
    ensures EncodeU32(DecodeU32(b)) == b
  {
    var b0: int, b1: int, b2: int, b3: int := b[0], b[1], b[2], b[3];
    var r2 := b2 + b3 * 0x100;
    var r1 := b1 + r2 * 0x100;
    var x := DecodeU32(b);
    assert x == b0 + 0x100 * r1;
    assert x / 0x100 == r1 && r1 / 0x100 == r2 && r2 / 0x100 == b[3];
    assert x / 0x1_0000 == r2 && x / 0x100_0000 == b[3];
  }

  /** The number that bytes say, least significant first. */
  function LittleEndian(b: seq<Byte>): nat {
    if b == [] then 0 else b[0] + 0x100 * LittleEndian(b[1..])
  }

  /** Lengths are sent and read with the least significant byte first. */
  lemma LengthsAreLittleEndian(b: seq<Byte>, x: nat)
    requires |b| == 4 && x < TWO_32
    ensures DecodeU32(b) == LittleEndian(b) && LittleEndian(EncodeU32(x)) == x
  {
    FourBytes(b);
    FourBytes(EncodeU32(x));
    DecodeEncode(x);
  }

  lemma FourBytes(b: seq<Byte>)
    requires |b| == 4
    ensures LittleEndian(b) == DecodeU32(b)
  {
    var b1, b2, b3 := b[1..], b[2..], b[3..];
    assert b1[1..] == b2 && b2[1..] == b3 && b3[1..] == [];
    assert LittleEndian(b3) == b[3];
    assert LittleEndian(b2) == b[2] + 0x100 * LittleEndian(b3);
    assert LittleEndian(b1) == b[1] + 0x100 * LittleEndian(b2);
  }

  // ---------------------------------------------------------------- frames

  predicate InRange(len: nat) {
    HEADER_SIZE <= len <= MAX_FRAME
  }

  function Encode(payload: seq<Byte>): seq<Byte>
    requires |payload| < TWO_32
  {
    EncodeU32(|payload|) + payload
  }

  predicate Sendable(frames: seq<seq<Byte>>) {
    forall i :: 0 <= i < |frames| ==> InRange(|frames[i]|)
  }

  function EncodeAll(frames: seq<seq<Byte>>): seq<Byte>
    requires Sendable(frames)
  {
    if frames == [] then [] else Encode(frames[0]) + EncodeAll(frames[1..])
  }

  /** What dispatch makes of a payload: whether serving goes on. */
  type Dispatch = seq<Byte> -> bool

  /** The payloads a server handles when these are all the bytes that reach it: it stops where the
      bytes end, at the first length out of range, and after the first payload dispatch refuses. */
  function Handled(bytes: seq<Byte>, goesOn: Dispatch): seq<seq<Byte>>
    decreases |bytes|
  {
    if |bytes| < 4 then []
    else
      var len := DecodeU32(bytes[..4]);
      if !InRange(len) || |bytes| < 4 + len then []
      else
        var payload := bytes[4..4 + len];
        if !goesOn(payload) then [payload] else [payload] + Handled(bytes[4 + len..], goesOn)
  }

  lemma HandleOne(payload: seq<Byte>, rest: seq<Byte>, goesOn: Dispatch)
    requires InRange(|payload|)
    ensures Handled(Encode(payload) + rest, goesOn)
         == if goesOn(payload) then [payload] + Handled(rest, goesOn) else [payload]
  {
    var bytes := Encode(payload) + rest;
    DecodeEncode(|payload|);
    assert bytes[..4] == EncodeU32(|payload|);
    assert bytes[4..4 + |payload|] == payload && bytes[4 + |payload|..] == rest;
    hide DecodeU32, EncodeU32;
  }

  lemma FirstFrame(frames: seq<seq<Byte>>, rest: seq<Byte>)
    requires Sendable(frames) && frames != []
    ensures Sendable(frames[1..]) && EncodeAll(frames) + rest == Encode(frames[0]) + (EncodeAll(frames[1..]) + rest)
  {
    assert Sendable(frames[1..]);
    var a, b := Encode(frames[0]), EncodeAll(frames[1..]);
    hide Encode;
    assert (a + b) + rest == a + (b + rest);
  }

  ghost predicate AllGoOn(frames: seq<seq<Byte>>, goesOn: Dispatch) {
    forall i :: 0 <= i < |frames| ==> goesOn(frames[i])
  }

  /** Frames sent one after the other are handled one after the other, and then whatever follows. */
  lemma {:induction false} FramesRecovered(frames: seq<seq<Byte>>, rest: seq<Byte>, goesOn: Dispatch)
    requires Sendable(frames) && AllGoOn(frames, goesOn)
    ensures Handled(EncodeAll(frames) + rest, goesOn) == frames + Handled(rest, goesOn)
  {
    hide Handled, Encode, EncodeAll;
    if frames == [] {
      NoFrames(rest);
    } else {
      FirstFrame(frames, rest);
      assert InRange(|frames[0]|) && goesOn(frames[0]) && AllGoOn(frames[1..], goesOn);
      FramesRecovered(frames[1..], rest, goesOn);
      HandleOne(frames[0], EncodeAll(frames[1..]) + rest, goesOn);
      assert frames == [frames[0]] + frames[1..];
    }
  }

  lemma NoFrames(rest: seq<Byte>)
    ensures EncodeAll([]) + rest == rest
  {
  }

  /** A length out of range ends the session: nothing after it is handled, whatever it is. */
  lemma StopsAtBadLength(frames: seq<seq<Byte>>, len: nat, rest: seq<Byte>, goesOn: Dispatch)
    requires Sendable(frames) && AllGoOn(frames, goesOn)
    requires len < TWO_32 && !InRange(len)
    ensures Handled(EncodeAll(frames) + (EncodeU32(len) + rest), goesOn) == frames
  {
    FramesRecovered(frames, EncodeU32(len) + rest, goesOn);
    DecodeEncode(len);
    assert (EncodeU32(len) + rest)[..4] == EncodeU32(len);
    hide EncodeU32, DecodeU32;
  }

  /** The payload that dispatch refuses is the last one handled. */
  lemma StopsAfterRefusal(frames: seq<seq<Byte>>, last: seq<Byte>, rest: seq<Byte>, goesOn: Dispatch)
    requires Sendable(frames) && AllGoOn(frames, goesOn) && InRange(|last|) && !goesOn(last)
    ensures Handled(EncodeAll(frames) + (Encode(last) + rest), goesOn) == frames + [last]
  {
    FramesRecovered(frames, Encode(last) + rest, goesOn);
    HandleOne(last, rest, goesOn);
    hide Handled, Encode, EncodeAll;
  }

  /** A frame of which the end never arrives is not handled. */
  lemma StopsAtTruncation(frames: seq<seq<Byte>>, last: seq<Byte>, k: nat, goesOn: Dispatch)
    requires Sendable(frames) && AllGoOn(frames, goesOn) && InRange(|last|) && k < |Encode(last)|
    ensures Handled(EncodeAll(frames) + Encode(last)[..k], goesOn) == frames
  {
    var part := Encode(last)[..k];
    FramesRecovered(frames, part, goesOn);
    if k >= 4 {
      assert part[..4] == EncodeU32(|last|);
      DecodeEncode(|last|);
    }
    hide EncodeAll, EncodeU32, DecodeU32;
  }

  /** Lengths from the header size to 2^20, both included, are in range, and no others. */
  lemma RangeEnds(len: nat)
    ensures InRange(len) <==> 8 <= len < 0x10_0001
  {
  }

  /** Conversely: whatever bytes arrive, those of the handled payloads are a prefix of them, and
      every handled payload is in range. */
  lemma {:induction false} HandledBytesWereSent(bytes: seq<Byte>, goesOn: Dispatch)
    ensures Sendable(Handled(bytes, goesOn)) && EncodeAll(Handled(bytes, goesOn)) <= bytes
    decreases |bytes|
  {
    if |bytes| >= 4 {
      var len := DecodeU32(bytes[..4]);
      if InRange(len) && |bytes| >= 4 + len {
        var payload, rest := bytes[4..4 + len], bytes[4 + len..];
        EncodeDecode(bytes[..4]);
        assert bytes == Encode(payload) + rest;
        HandledBytesWereSent(rest, goesOn);
        if goesOn(payload) {
          assert ([payload] + Handled(rest, goesOn))[1..] == Handled(rest, goesOn);
        }
        hide EncodeU32, DecodeU32;
      }
    }
  }

  // ---------------------------------------------------------------- the connection

  function Joined(packets: seq<seq<Byte>>): seq<Byte> {
    if packets == [] then [] else packets[0] + Joined(packets[1..])
  }

  /** A stream socket: the bytes to come arrive in pieces, and each send takes only so many. */
  class Connection {
    var packets: seq<seq<Byte>>
    var takes: seq<nat>
    var sent: seq<Byte>

    ghost predicate Valid()
      reads this
    {
      forall i :: 0 <= i < |packets| ==> packets[i] != []
    }

    /** All bytes to come; how they are split does not show. */
    ghost function Incoming(): seq<Byte>
      reads this
    {
      Joined(packets)
    }

    constructor (arriving: seq<seq<Byte>>, accepting: seq<nat>)
      requires forall i :: 0 <= i < |arriving| ==> arriving[i] != []
      ensures Valid() && packets == arriving && takes == accepting && sent == []
    {
      packets, takes, sent := arriving, accepting, [];
    }

    /** At most n of the bytes that have arrived, and none only when the stream has ended. */
    method Recv(n: nat) returns (got: seq<Byte>)
      requires Valid() && n > 0
      modifies this`packets
      ensures Valid() && |got| <= n && old(Incoming()) == got + Incoming()
      ensures got == [] <==> old(Incoming()) == []
    {
      if packets == [] {
        return [];
      }
      var p := packets[0];
      if |p| <= n {
        got := p;
        packets := packets[1..];
      } else {
        got := p[..n];
        assert p == p[..n] + p[n..];
        packets := [p[n..]] + packets[1..];
      }
    }

    /** Takes some of the bytes, or none when the connection is gone. */
    method Send(buf: seq<Byte>) returns (count: nat)
      requires buf != []
      modifies this`takes, this`sent
      ensures count <= |buf| && sent == old(sent) + buf[..count]
      ensures count == if old(takes) == [] then 0 else Min(old(takes)[0], |buf|)
      ensures |takes| < |old(takes)| || count == 0
    {
      if takes == [] {
        return 0;
      }
      count := Min(takes[0], |buf|);
      sent := sent + buf[..count];
      takes := takes[1..];
    }
  }

  /** Reads n bytes, however they are split, or fails because the stream ends before. */
  method ReadExact(fd: Connection, buf: array<Byte>, n: nat) returns (ok: bool)
    requires fd.Valid() && n <= buf.Length
    modifies fd`packets, buf
    ensures fd.Valid()
    ensures ok <==> |old(fd.Incoming())| >= n
    ensures ok ==> buf[..n] == old(fd.Incoming())[..n] && fd.Incoming() == old(fd.Incoming())[n..]
  {
    ghost var all := fd.Incoming();
    var got := 0;
    while got < n
      invariant 0 <= got <= n && got <= |all| && fd.Valid()
      invariant buf[..got] == all[..got] && fd.Incoming() == all[got..]
    {
      var part := fd.Recv(n - got);
      if part == [] {
        return false;
      }
      assert all[got..] == part + fd.Incoming();
      Store(buf, got, part, all);
      got := got + |part|;
    }
    return true;
  }

  /** The received part goes behind what is there. */
  method Store(buf: array<Byte>, at: nat, part: seq<Byte>, ghost all: seq<Byte>)
    requires at + |part| <= buf.Length && at <= |all| && part <= all[at..] && buf[..at] == all[..at]
    modifies buf
    ensures at + |part| <= |all| && buf[..at + |part|] == all[..at + |part|]
  {
    assert |part| <= |all[at..]|;
    forall i | at <= i < at + |part| {
      buf[i] := part[i - at];
    }
    forall i | 0 <= i < at + |part| ensures buf[i] == all[i] {
      if i >= at {
        assert all[at..][i - at] == part[i - at];
      } else {
        assert old(buf[..at])[i] == all[..at][i];
      }
    }
  }

  /** Sends all of the bytes, or an initial part of them when the connection fails. */
  method WriteAll(fd: Connection, buf: seq<Byte>) returns (ok: bool)
    modifies fd`takes, fd`sent
    ensures ok ==> fd.sent == old(fd.sent) + buf
    ensures !ok ==> exists k :: 0 <= k < |buf| && fd.sent == old(fd.sent) + buf[..k]
  {
    var done := 0;
    while done < |buf|
      invariant 0 <= done <= |buf| && fd.sent == old(fd.sent) + buf[..done]
    {
      var count := fd.Send(buf[done..]);
      if count == 0 {
        return false;
      }
      assert buf[..done + count] == buf[..done] + buf[done..][..count];
      done := done + count;
    }
    assert buf[..done] == buf;
    return true;
  }

  /** The header of a reply; the flags are 0. */
  function Header(kind: nat, requestId: nat): (b: seq<Byte>)
    requires kind < 0x1_0000 && requestId < TWO_32
    ensures |b| == HEADER_SIZE
  {
    [kind % 0x100, kind / 0x100, 0, 0] + EncodeU32(requestId)
  }

  /** A reader gets the type, zero flags and the request id back. */
  lemma HeaderReads(kind: nat, requestId: nat)
    requires kind < 0x1_0000 && requestId < TWO_32
    ensures var b := Header(kind, requestId);
      && LittleEndian(b[..2]) == kind && b[2] == b[3] == 0 && LittleEndian(b[4..]) == requestId
  {
    var b := Header(kind, requestId);
    assert b[4..] == EncodeU32(requestId);
    LengthsAreLittleEndian(b[4..], requestId);
    assert b[..2][1..] == [b[1]] && [b[1]][1..] == [];
    assert LittleEndian([b[1]]) == b[1];
  }

  /** The bytes are one frame with this type, this request id and this body. */
  predicate IsReply(frame: seq<Byte>, kind: nat, requestId: nat, body: seq<Byte>) {
    && |frame| == 12 + |body| && LittleEndian(frame[..4]) == 8 + |body|
    && LittleEndian(frame[4..6]) == kind && frame[6] == frame[7] == 0
    && LittleEndian(frame[8..12]) == requestId && frame[12..] == body
  }

  lemma ReplyReads(kind: nat, requestId: nat, body: seq<Byte>)
    requires kind < 0x1_0000 && requestId < TWO_32 && HEADER_SIZE + |body| < TWO_32
    ensures IsReply(Encode(Header(kind, requestId) + body), kind, requestId, body)
  {
    var h := Header(kind, requestId);
    HeaderReads(kind, requestId);
    var total := |h + body|;
    LengthsAreLittleEndian(EncodeU32(total), total);
    var frame := Encode(h + body);
    hide Header, EncodeU32, LittleEndian;
    assert frame[..4] == EncodeU32(total) && frame[4..6] == h[..2] && frame[8..12] == h[4..] && frame[12..] == body;
    assert frame[6] == h[2] && frame[7] == h[3];
  }

  method Reply(fd: Connection, kind: nat, requestId: nat, body: seq<Byte>) returns (ok: bool)
    requires kind < 0x1_0000 && requestId < TWO_32 && HEADER_SIZE + |body| < TWO_32
    modifies fd`takes, fd`sent
    ensures ok ==> old(fd.sent) <= fd.sent && IsReply(fd.sent[|old(fd.sent)|..], kind, requestId, body)
    ensures ok ==> fd.sent == old(fd.sent) + Encode(Header(kind, requestId) + body)
    ensures !ok ==> exists k :: 0 <= k < 4 + HEADER_SIZE + |body| &&
                      fd.sent == old(fd.sent) + Encode(Header(kind, requestId) + body)[..k]
  {
    hide EncodeU32, IsReply;
    ReplyReads(kind, requestId, body);
    var total := HEADER_SIZE + |body|;
    var frame := EncodeU32(total) + Header(kind, requestId) + body;
    assert frame == Encode(Header(kind, requestId) + body);
    ok := WriteAll(fd, frame);
  }

  /** The bytes begin with a whole frame whose length is in range. */
  predicate WholeFrame(bytes: seq<Byte>) {
    |bytes| >= 4 && InRange(DecodeU32(bytes[..4])) && |bytes[4..]| >= DecodeU32(bytes[..4])
  }

  function FirstPayload(bytes: seq<Byte>): seq<Byte>
    requires WholeFrame(bytes)
  {
    bytes[4..][..DecodeU32(bytes[..4])]
  }

  function AfterFirst(bytes: seq<Byte>): seq<Byte>
    requires WholeFrame(bytes)
  {
    bytes[4..][DecodeU32(bytes[..4])..]
  }

  /** One turn of the loop. */
  lemma HandledStep(bytes: seq<Byte>, goesOn: Dispatch)
    ensures WholeFrame(bytes) ==> |AfterFirst(bytes)| < |bytes|
    ensures Handled(bytes, goesOn) ==
      if !WholeFrame(bytes) then []
      else [FirstPayload(bytes)] + (if goesOn(FirstPayload(bytes)) then Handled(AfterFirst(bytes), goesOn) else [])
  {
    hide DecodeU32;
    if |bytes| >= 4 {
      var len, tail := DecodeU32(bytes[..4]), bytes[4..];
      if InRange(len) && |tail| >= len {
        assert bytes[4..4 + len] == tail[..len] && bytes[4 + len..] == tail[len..];
      }
    }
  }

  /** The two reads of the loop: a whole frame in range, or nothing. */
  method ReadFrame(fd: Connection) returns (payload: Option<seq<Byte>>)
    requires fd.Valid()
    modifies fd`packets
    ensures fd.Valid()
    ensures payload.Some? <==> WholeFrame(old(fd.Incoming()))
    ensures payload.Some? ==>
      payload.value == FirstPayload(old(fd.Incoming())) && fd.Incoming() == AfterFirst(old(fd.Incoming()))
  {
    hide DecodeU32, Connection.Incoming, Connection.Valid;
    var lenBytes := new Byte[4];
    var ok := ReadExact(fd, lenBytes, 4);
    if !ok {
      return None;
    }
    assert lenBytes[..] == lenBytes[..4];
    var len := DecodeU32(lenBytes[..]);
    if len < HEADER_SIZE || len > MAX_FRAME {
      return None;
    }
    var buf := new Byte[len];
    ok := ReadExact(fd, buf, len);
    if !ok {
      return None;
    }
    assert buf[..] == buf[..len];
    return Some(buf[..]);
  }

  /** The loop of serve: the payloads it hands to dispatch are those Handled says, whatever the
      pieces in which the bytes arrive. */
  method Serve(fd: Connection, goesOn: Dispatch) returns (handled: seq<seq<Byte>>)
    requires fd.Valid()
    modifies fd`packets
    ensures handled == Handled(old(fd.Incoming()), goesOn)
  {
    hide Handled, WholeFrame, FirstPayload, AfterFirst, Connection.Incoming, Connection.Valid;
    ghost var all := fd.Incoming();
    handled := [];
    while true
      invariant fd.Valid() && Handled(all, goesOn) == handled + Handled(fd.Incoming(), goesOn)
      decreases |fd.Incoming()|
    {
      HandledStep(fd.Incoming(), goesOn);
      var payload := ReadFrame(fd);
      if payload.None? {
        break;
      }
      handled := handled + [payload.value];
      if !goesOn(payload.value) {
        break;
      }
    }
  }
}
