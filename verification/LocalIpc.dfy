/** Length-prefixed transport of session frames over a stream socket. */
module LocalIpc {
  import opened Bytes
  import opened SessionChannel

  const SIZE_BYTES := 4
  const MAX_FRAME := HEADER_SIZE + MAX_PAYLOAD

  datatype TransportError = OutOfBounds | TruncatedPacket | PacketSizeMismatch | PeerDisconnected

  datatype Transfer<+T> = Done(value: T) | Failed(error: TransportError)

  predicate InBounds(size: nat) { HEADER_SIZE <= size <= MAX_FRAME }

  function EncodePacket(frame: bytes): Transfer<bytes> {
    if !InBounds(|frame|) then Failed(OutOfBounds) else Done(BigEndian(|frame|, SIZE_BYTES) + frame)
  }

  function DecodePacket(packet: bytes): Transfer<bytes> {
    if |packet| < SIZE_BYTES then Failed(TruncatedPacket)
    else
      var size := Value(packet[..SIZE_BYTES]);
      if !InBounds(size) then Failed(OutOfBounds)
      else if |packet| != SIZE_BYTES + size then Failed(PacketSizeMismatch)
      else Done(packet[SIZE_BYTES..])
  }

  lemma PrefixValue(size: nat, rest: bytes)
    requires size <= MAX_FRAME
    ensures var packet := BigEndian(size, SIZE_BYTES) + rest;
      Value(packet[..SIZE_BYTES]) == size && packet[SIZE_BYTES..] == rest
  {
    hide BigEndian, Value;
    FieldWidths();
    PackUnpack(size, SIZE_BYTES);
    Cut(BigEndian(size, SIZE_BYTES), rest);
  }

  /** Packets decode to exactly the frames they encode: each function inverts the other. */
  lemma PacketRoundTrip(frame: bytes, packet: bytes)
    ensures EncodePacket(frame) == Done(packet) <==> DecodePacket(packet) == Done(frame)
  {
    hide BigEndian, Value;
    if EncodePacket(frame) == Done(packet) {
      PrefixValue(|frame|, frame);
    }
    if DecodePacket(packet) == Done(frame) {
      UnpackPack(packet[..SIZE_BYTES]);
      assert packet == packet[..SIZE_BYTES] + frame;
    }
  }

  // ---- the stream ----

  function Flatten(chunks: seq<bytes>): bytes {
    if chunks == [] then [] else chunks[0] + Flatten(chunks[1..])
  }

  /** The receiving end of a stream socket: the chunks that will still arrive, none of them empty. */
  class Socket {
    var chunks: seq<bytes>

    ghost predicate Valid() reads this { forall i :: 0 <= i < |chunks| ==> chunks[i] != [] }

    ghost function Stream(): bytes reads this { Flatten(chunks) }

    constructor (chunks: seq<bytes>)
      requires forall i :: 0 <= i < |chunks| ==> chunks[i] != []
      ensures Valid() && this.chunks == chunks
    {
      this.chunks := chunks;
    }

    /** At most `size` bytes of the next chunk; nothing only when the peer has closed. */
    method Recv(size: nat) returns (block: bytes)
      requires Valid() && size > 0
      modifies this
      ensures Valid() && |block| <= size
      ensures old(Stream()) == block + Stream()
      ensures block == [] <==> old(Stream()) == []
    {
      if chunks == [] {
        return [];
      }
      var head := chunks[0];
      if |head| <= size {
        block, chunks := head, chunks[1..];
      } else {
        block, chunks := head[..size], [head[size..]] + chunks[1..];
        assert head == block + head[size..];
        assert chunks[1..] == old(chunks)[1..];
        assert (block + head[size..]) + Flatten(chunks[1..]) == block + (head[size..] + Flatten(chunks[1..]));
      }
    }

    /** Collects blocks until `size` bytes are in hand, however the stream was cut. */
    method RecvExact(size: nat) returns (r: Transfer<bytes>)
      requires Valid()
      modifies this
      ensures Valid()
      ensures r == if |old(Stream())| < size then Failed(PeerDisconnected) else Done(old(Stream())[..size])
      ensures Stream() == if |old(Stream())| < size then [] else old(Stream())[size..]
    {
      var data, remaining := [], size;
      while remaining > 0
        invariant Valid() && remaining >= 0 && |data| + remaining == size
        invariant old(Stream()) == data + Stream()
      {
        var block := Recv(remaining);
        if block == [] {
          return Failed(PeerDisconnected);
        }
        ghost var before := data;
        data := data + block;
        remaining := remaining - |block|;
        assert before + (block + Stream()) == data + Stream();
      }
      Cut(data, Stream());
      return Done(data);
    }

    /** One length-prefixed frame; the outcome and what is left depend only on the bytes, not on the cuts. */
    method RecvFrame() returns (r: Transfer<bytes>)
      requires Valid()
      modifies this
      ensures Valid()
      ensures (r, Stream()) == NextFrame(old(Stream()))
    {
      var prefix := RecvExact(SIZE_BYTES);
      if prefix.Failed? {
        return prefix;
      }
      var size := Value(prefix.value);
      if !InBounds(size) {
        return Failed(OutOfBounds);
      }
      r := RecvExact(size);
    }
  }

  /** What one frame read finds at the front of a byte stream, and the stream it leaves. */
  function NextFrame(stream: bytes): (Transfer<bytes>, bytes) {
    if |stream| < SIZE_BYTES then (Failed(PeerDisconnected), [])
    else
      var size, rest := Value(stream[..SIZE_BYTES]), stream[SIZE_BYTES..];
      if !InBounds(size) then (Failed(OutOfBounds), rest)
      else if |rest| < size then (Failed(PeerDisconnected), [])
      else (Done(rest[..size]), rest[size..])
  }

  lemma FrameAtFront(frame: bytes, rest: bytes)
    requires InBounds(|frame|)
    ensures EncodePacket(frame).Done? && NextFrame(EncodePacket(frame).value + rest) == (Done(frame), rest)
  {
    hide BigEndian, Value;
    var stream := EncodePacket(frame).value + rest;
    assert stream == BigEndian(|frame|, SIZE_BYTES) + (frame + rest);
    PrefixValue(|frame|, frame + rest);
    Cut(frame, rest);
  }

  /** A packet cut short anywhere, or with bytes after it, or that announces a size out of bounds, is refused for what it is. */
  lemma BrokenPackets(frame: bytes, n: nat, more: bytes)
    requires InBounds(|frame|)
    ensures var packet := EncodePacket(frame).value;
      && |packet| == SIZE_BYTES + |frame|
      && (n < |packet| ==>
            && DecodePacket(packet[..n]) == Failed(if n < SIZE_BYTES then TruncatedPacket else PacketSizeMismatch)
            && NextFrame(packet[..n]) == (Failed(PeerDisconnected), []))
      && (more != [] ==> DecodePacket(packet + more) == Failed(PacketSizeMismatch))
  {
    hide BigEndian, Value;
    var packet := EncodePacket(frame).value;
    if SIZE_BYTES <= n < |packet| {
      assert packet[..n] == BigEndian(|frame|, SIZE_BYTES) + frame[..n - SIZE_BYTES];
      PrefixValue(|frame|, frame[..n - SIZE_BYTES]);
    }
    assert packet + more == BigEndian(|frame|, SIZE_BYTES) + (frame + more);
    PrefixValue(|frame|, frame + more);
  }

  lemma SizeRefused(size: nat, rest: bytes)
    requires !InBounds(size) && size < 0x1_0000_0000
    ensures var packet := BigEndian(size, SIZE_BYTES) + rest;
      DecodePacket(packet) == Failed(OutOfBounds) && NextFrame(packet) == (Failed(OutOfBounds), rest)
  {
    hide BigEndian, Value;
    FieldWidths();
    PackUnpack(size, SIZE_BYTES);
    Cut(BigEndian(size, SIZE_BYTES), rest);
  }

  // ---- end to end ----

  /** The bytes that reach the wire when the messages are encoded, prefixed and sent in turn. */
  function Wire(mac: Mac, s: Channel, messages: seq<Outgoing>): bytes
    requires |s.session| == 16
    decreases |messages|
  {
    if messages == [] then []
    else
      var (next, frame) := Encoded(mac, s, messages[0].capability, messages[0].payload);
      var packet := match frame
        case Err(_) => []
        case Ok(f) => (match EncodePacket(f) case Done(p) => p case Failed(_) => []);
      packet + Wire(mac, next, messages[1..])
  }

  /** Reads and decodes `count` frames off a stream: the messages accepted, and what is left. */
  function Read(mac: Mac, r: Channel, stream: bytes, count: nat): (seq<Outgoing>, bytes)
    decreases count
  {
    if count == 0 then ([], stream)
    else
      match NextFrame(stream)
      case (Failed(_), rest) => ([], rest)
      case (Done(frame), rest) =>
        var (later, left) := Read(mac, Received(mac, r, frame), rest, count - 1);
        match Inspect(mac, r, frame)
        case Err(_) => (later, left)
        case Ok(m) => ([Outgoing(m.capability, m.payload)] + later, left)
  }

  lemma EncodeSucceeds(mac: Mac, s: Channel, m: Outgoing)
    requires TagsFit(mac) && |s.session| == 16 && Sendable(s, [m])
    ensures var (next, frame) := Encoded(mac, s, m.capability, m.payload);
      && frame.Ok? && InBounds(|frame.value|) && next == s.(outbound := s.outbound + 1)
  {
    hide Pack, Unpack;
    assert [m][0] == m;
    FrameParts(mac, s.sendDirection, Header(s.session, s.keyEpoch, s.outbound + 1, m.capability, |m.payload|), m.payload);
  }

  /** Everything sent arrives as it was sent, in order, and nothing is left over. */
  lemma {:induction false} MessagesArrive(mac: Mac, s: Channel, r: Channel, messages: seq<Outgoing>)
    requires TagsFit(mac) && InStep(s, r) && Sendable(s, messages)
    ensures Read(mac, r, Wire(mac, s, messages), |messages|) == (messages, [])
    decreases |messages|
  {
    hide Inspect, Received, Encoded, NextFrame, EncodePacket;
    if messages != [] {
      var m := messages[0];
      assert Sendable(s, [m]) by { assert [m][0] == messages[0]; }
      EncodeSucceeds(mac, s, m);
      FrameRoundTrip(mac, s, r, m.capability, m.payload);
      var (next, frame) := Encoded(mac, s, m.capability, m.payload);
      assert Sendable(next, messages[1..]) by {
        assert forall i :: 0 <= i < |messages| - 1 ==> messages[1..][i] == messages[i + 1];
      }
      MessagesArrive(mac, next, Received(mac, r, frame.value), messages[1..]);
      FrameAtFront(frame.value, Wire(mac, next, messages[1..]));
      assert messages == [m] + messages[1..];
    }
  }

  /** Encodes, frames and sends the messages; a message that cannot be encoded sends nothing. */
  method SendMessages(channel: AuthenticatedSessionChannel, messages: seq<Outgoing>) returns (wire: bytes)
    requires channel.Valid()
    modifies channel
    ensures wire == Wire(channel.mac, old(channel.State()), messages)
  {
    hide Encoded, EncodePacket;
    wire := [];
    for i := 0 to |messages|
      invariant channel.State().session == channel.session
      invariant wire + Wire(channel.mac, channel.State(), messages[i..]) == Wire(channel.mac, old(channel.State()), messages)
    {
      ghost var before := channel.State();
      var frame := channel.Encode(messages[i].capability, messages[i].payload);
      assert messages[i..][0] == messages[i] && messages[i..][1..] == messages[i + 1..];
      var packet: bytes := [];
      if frame.Ok? {
        var encoded := EncodePacket(frame.value);
        if encoded.Done? { packet := encoded.value; }
      }
      assert wire + Wire(channel.mac, before, messages[i..]) == (wire + packet) + Wire(channel.mac, channel.State(), messages[i + 1..]);
      wire := wire + packet;
    }
    assert messages[|messages|..] == [];
  }

  lemma ReadNothing(mac: Mac, r: Channel, stream: bytes)
    ensures Read(mac, r, stream, 0) == ([], stream)
  {
  }

  /** One round of a read, by what the next frame is. */
  lemma ReadOne(mac: Mac, r: Channel, stream: bytes, count: nat)
    requires count > 0
    ensures match NextFrame(stream)
      case (Failed(_), rest) => Read(mac, r, stream, count) == ([], rest)
      case (Done(frame), rest) =>
        var later := Read(mac, Received(mac, r, frame), rest, count - 1);
        match Inspect(mac, r, frame)
        case Err(_) => Read(mac, r, stream, count) == later
        case Ok(m) => Read(mac, r, stream, count) == ([Outgoing(m.capability, m.payload)] + later.0, later.1)
  {
    hide Inspect, Received, NextFrame;
  }

  /**
   * Receives and decodes `count` frames, stopping only when the stream fails. What a matching peer sent is
   * received as it was sent, in order, into however many chunks the wire was cut.
   */
  method ReceiveMessages(socket: Socket, channel: AuthenticatedSessionChannel, count: nat, ghost s: Channel, ghost sent: seq<Outgoing>)
    returns (received: seq<Outgoing>)
    requires socket.Valid() && |s.session| == 16
    modifies socket, channel
    ensures socket.Valid()
    ensures (received, socket.Stream()) == Read(channel.mac, old(channel.State()), old(socket.Stream()), count)
    ensures TagsFit(channel.mac) && InStep(s, old(channel.State())) && Sendable(s, sent) && count == |sent|
            && old(socket.Stream()) == Wire(channel.mac, s, sent) ==>
            received == sent && socket.Stream() == []
  {
    hide Inspect, Received, NextFrame, Wire, Sendable, InStep, Read;
    ghost var whole := Read(channel.mac, channel.State(), socket.Stream(), count);
    received := [];
    assert received + whole.0 == whole.0;
    var i := 0;
    while i < count
      invariant 0 <= i <= count && socket.Valid()
      invariant var rest := Read(channel.mac, channel.State(), socket.Stream(), count - i);
        whole.0 == received + rest.0 && whole.1 == rest.1
    {
      ReadOne(channel.mac, channel.State(), socket.Stream(), count - i);
      var frame := socket.RecvFrame();
      if frame.Failed? {
        assert received + [] == received;
        break;
      }
      var message := channel.Decode(frame.value);
      if message.Ok? { received := received + [Outgoing(message.value.capability, message.value.payload)]; }
      i := i + 1;
    }
    ReadNothing(channel.mac, channel.State(), socket.Stream());
    assert received + [] == received;
    if TagsFit(channel.mac) && InStep(s, old(channel.State())) && Sendable(s, sent) {
      MessagesArrive(channel.mac, s, old(channel.State()), sent);
    }
  }
}
