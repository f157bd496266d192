/** The authenticated session channel: frame codec, replay fence, and key rotation with grace. */
module SessionChannel {
  import opened Bytes

  const MAGIC: bytes := [85, 80, 80, 70]
  const VERSION: byte := 1
  const PREFIX_SIZE := 52
  const TAG_SIZE := 32
  const HEADER_SIZE := 84
  const MAX_PAYLOAD := 4096
  const MAX_GRACE := 1024

  // Field limits of the packed prefix: eight and four bytes.
  const U64 := 0x1_0000_0000_0000_0000

  type Direction = string

  /** The keyed tag of one epoch and direction over a message; key derivation is part of it. */
  type Mac = (nat, Direction, bytes) -> bytes

  ghost predicate TagsFit(mac: Mac) { forall e, d, m :: |mac(e, d, m)| == TAG_SIZE }

  datatype Header = Header(session: bytes, epoch: nat, sequence: nat, capability: nat, size: nat)

  datatype Error =
    | Truncated | UnsupportedHeader | IdentityMismatch | SizeMismatch | OutOfScope
    | Replayed | EpochNotAccepted | InvalidKey | AuthenticationFailed | PayloadTooLarge | FieldOverflow
    | EpochMustAdvance | CheckpointForged | CheckpointMismatch

  datatype Result<+T> = Ok(value: T) | Err(error: Error)

  datatype Message = Message(epoch: nat, sequence: nat, capability: nat, payload: bytes)

  datatype Channel = Channel(
    session: bytes, allowed: set<nat>, sendDirection: Direction, receiveDirection: Direction, grace: nat,
    keyEpoch: nat, previousEpoch: nat, acceptUntil: nat, outbound: nat, inbound: nat, accepted: nat, rejected: nat)

  // ---- the frame format ----

  predicate Fits(h: Header) {
    |h.session| == 16 && h.epoch < U64 && h.sequence < U64 && h.capability < U64 && h.size < 0x1_0000_0000
  }

  function Pack(h: Header): (prefix: bytes)
    requires |h.session| == 16
    ensures |prefix| == PREFIX_SIZE
  {
    MAGIC + ([VERSION] + ([0] + (BigEndian(HEADER_SIZE, 2) + (h.session
      + (BigEndian(h.epoch, 8) + (BigEndian(h.sequence, 8) + (BigEndian(h.capability, 8) + BigEndian(h.size, 4))))))))
  }

  /** The header of a prefix, if its fixed fields are the supported ones. */
  function Unpack(prefix: bytes): Result<Header>
    requires |prefix| == PREFIX_SIZE
  {
    var magic, r0 := prefix[..4], prefix[4..];
    var version, r1 := r0[..1], r0[1..];
    var flags, r2 := r1[..1], r1[1..];
    var size, r3 := r2[..2], r2[2..];
    if magic != MAGIC || version != [VERSION] || flags != [0] || Value(size) != HEADER_SIZE then Err(UnsupportedHeader)
    else
      var session, r4 := r3[..16], r3[16..];
      var epoch, r5 := r4[..8], r4[8..];
      var sequence, r6 := r5[..8], r5[8..];
      var capability, r7 := r6[..8], r6[8..];
      Ok(Header(session, Value(epoch), Value(sequence), Value(capability), Value(r7)))
  }

  lemma FieldWidths()
    ensures Limit(2) == 0x1_0000 && Limit(4) == 0x1_0000_0000 && Limit(8) == U64
  {
    assert Limit(2) == 256 * (256 * Limit(0));
    assert Limit(4) == 256 * (256 * Limit(2));
    assert Limit(6) == 256 * (256 * Limit(4));
    assert Limit(8) == 256 * (256 * Limit(6));
  }

  lemma UnpackPacked(h: Header)
    requires Fits(h)
    ensures Unpack(Pack(h)) == Ok(h)
  {
    hide BigEndian, Value, Limit;
    FieldWidths();
    PackUnpack(HEADER_SIZE, 2);
    PackUnpack(h.epoch, 8);
    PackUnpack(h.sequence, 8);
    PackUnpack(h.capability, 8);
    PackUnpack(h.size, 4);
    var s7 := BigEndian(h.size, 4);
    var s6 := BigEndian(h.capability, 8) + s7;
    var s5 := BigEndian(h.sequence, 8) + s6;
    var s4 := BigEndian(h.epoch, 8) + s5;
    var s3 := h.session + s4;
    var s2 := BigEndian(HEADER_SIZE, 2) + s3;
    var s1 := [0] + s2;
    var s0 := [VERSION] + s1;
    Cut(MAGIC, s0);
    Cut([VERSION], s1);
    Cut([0], s2);
    Cut(BigEndian(HEADER_SIZE, 2), s3);
    Cut(h.session, s4);
    Cut(BigEndian(h.epoch, 8), s5);
    Cut(BigEndian(h.sequence, 8), s6);
    Cut(BigEndian(h.capability, 8), s7);
  }

  // ---- one channel end ----

  /** The frame carrying a message, or the reason there is none; a field that does not pack still uses up its sequence number. */
  function Encoded(mac: Mac, c: Channel, capability: nat, payload: bytes): (Channel, Result<bytes>)
    requires |c.session| == 16
  {
    if capability !in c.allowed then (c, Err(OutOfScope))
    else if |payload| > MAX_PAYLOAD then (c, Err(PayloadTooLarge))
    else
      var next := c.(outbound := c.outbound + 1);
      var header := Header(c.session, c.keyEpoch, next.outbound, capability, |payload|);
      if !Fits(header) then (next, Err(FieldOverflow))
      else (next, Ok(Frame(mac, c.sendDirection, header, payload)))
  }

  function Frame(mac: Mac, direction: Direction, header: Header, payload: bytes): bytes
    requires |header.session| == 16
  {
    Pack(header) + (mac(header.epoch, direction, Pack(header) + payload) + payload)
  }

  /** The frame's tag is the one its header's epoch calls for. */
  predicate Authentic(mac: Mac, direction: Direction, epoch: nat, frame: bytes)
    requires |frame| >= HEADER_SIZE
  {
    frame[PREFIX_SIZE..HEADER_SIZE] == mac(epoch, direction, frame[..PREFIX_SIZE] + frame[HEADER_SIZE..])
  }

  /** The decision on a received frame, checks in order. */
  function Inspect(mac: Mac, c: Channel, frame: bytes): Result<Message> {
    if |frame| < HEADER_SIZE then Err(Truncated)
    else
      match Unpack(frame[..PREFIX_SIZE])
      case Err(e) => Err(e)
      case Ok(h) =>
        if h.session != c.session then Err(IdentityMismatch)
        else if h.size > MAX_PAYLOAD || |frame| != HEADER_SIZE + h.size then Err(SizeMismatch)
        else if h.capability !in c.allowed then Err(OutOfScope)
        else if h.sequence <= c.inbound then Err(Replayed)
        else if h.epoch != c.keyEpoch && !(h.epoch == c.previousEpoch && h.sequence <= c.acceptUntil) then Err(EpochNotAccepted)
        else if h.epoch < 1 then Err(InvalidKey)
        else if !Authentic(mac, c.receiveDirection, h.epoch, frame) then Err(AuthenticationFailed)
        else Ok(Message(h.epoch, h.sequence, h.capability, frame[HEADER_SIZE..]))
  }

  /** The channel after receiving a frame: acceptance moves the replay fence, rejection only counts. */
  function Received(mac: Mac, c: Channel, frame: bytes): Channel {
    match Inspect(mac, c, frame)
    case Ok(m) => c.(inbound := m.sequence, accepted := c.accepted + 1)
    case Err(_) => c.(rejected := c.rejected + 1)
  }

  function Rotated(c: Channel, epoch: nat): Channel {
    c.(keyEpoch := epoch, previousEpoch := c.keyEpoch, acceptUntil := c.inbound + c.grace)
  }

  // The channel's persistent part, and the seal that authenticates it.
  datatype Checkpoint = Checkpoint(session: bytes, keyEpoch: nat, previousEpoch: nat, acceptUntil: nat,
                                   outbound: nat, inbound: nat, allowed: set<nat>)

  type Seal = Checkpoint -> bytes

  function Snapshot(c: Channel): Checkpoint {
    Checkpoint(c.session, c.keyEpoch, c.previousEpoch, c.acceptUntil, c.outbound, c.inbound, c.allowed)
  }

  function Resume(c: Channel, p: Checkpoint): Channel {
    c.(keyEpoch := p.keyEpoch, previousEpoch := p.previousEpoch, acceptUntil := p.acceptUntil,
       outbound := p.outbound, inbound := p.inbound)
  }

  class AuthenticatedSessionChannel {
    const mac: Mac
    const seal: Seal
    const session: bytes
    const allowed: set<nat>
    const sendDirection: Direction
    const receiveDirection: Direction
    const grace: nat
    var keyEpoch: nat
    var previousEpoch: nat
    var acceptUntil: nat
    var outbound: nat
    var inbound: nat
    var accepted: nat
    var rejected: nat

    ghost predicate Valid() { |session| == 16 && 0 !in allowed && grace <= MAX_GRACE }

    ghost function State(): Channel reads this {
      Channel(session, allowed, sendDirection, receiveDirection, grace,
              keyEpoch, previousEpoch, acceptUntil, outbound, inbound, accepted, rejected)
    }

    /** An epoch below one has no key, and a session identity has sixteen bytes. */
    constructor (mac: Mac, seal: Seal, session: bytes, capabilities: set<int>, sendDirection: Direction,
                 receiveDirection: Direction, keyEpoch: nat, grace: int)
      requires |session| == 16 && 1 <= keyEpoch < U64
      ensures Valid() && this.mac == mac && this.seal == seal
      ensures State() == Channel(session, (set c: nat | c in capabilities && c > 0), sendDirection, receiveDirection,
                                 if grace < 0 then 0 else if grace > MAX_GRACE then MAX_GRACE else grace,
                                 keyEpoch, 0, 0, 0, 0, 0, 0)
    {
      this.mac, this.seal, this.session := mac, seal, session;
      this.allowed := set c: nat | c in capabilities && c > 0;
      this.sendDirection, this.receiveDirection := sendDirection, receiveDirection;
      this.grace := if grace < 0 then 0 else if grace > MAX_GRACE then MAX_GRACE else grace;
      this.keyEpoch, this.previousEpoch, this.acceptUntil := keyEpoch, 0, 0;
      this.outbound, this.inbound, this.accepted, this.rejected := 0, 0, 0, 0;
    }

    method Encode(capability: nat, payload: bytes) returns (frame: Result<bytes>)
      requires Valid()
      modifies this`outbound
      ensures (State(), frame) == Encoded(mac, old(State()), capability, payload)
    {
      if capability !in allowed {
        return Err(OutOfScope);
      }
      if |payload| > MAX_PAYLOAD {
        return Err(PayloadTooLarge);
      }
      outbound := outbound + 1;
      var header := Header(session, keyEpoch, outbound, capability, |payload|);
      if !Fits(header) {
        return Err(FieldOverflow);
      }
      return Ok(Frame(mac, sendDirection, header, payload));
    }

    /** The checks on a frame, in order; the first that fails gives the reason. */
    method Screen(frame: bytes) returns (message: Result<Message>)
      ensures message == Inspect(mac, State(), frame)
    {
      if |frame| < HEADER_SIZE {
        return Err(Truncated);
      }
      var prefix, supplied, payload := frame[..PREFIX_SIZE], frame[PREFIX_SIZE..HEADER_SIZE], frame[HEADER_SIZE..];
      var unpacked := Unpack(prefix);
      if unpacked.Err? {
        return Err(unpacked.error);
      }
      var h := unpacked.value;
      if h.session != session {
        return Err(IdentityMismatch);
      }
      if h.size > MAX_PAYLOAD || |frame| != HEADER_SIZE + h.size {
        return Err(SizeMismatch);
      }
      if h.capability !in allowed {
        return Err(OutOfScope);
      }
      if h.sequence <= inbound {
        return Err(Replayed);
      }
      var current := h.epoch == keyEpoch;
      var previous := h.epoch == previousEpoch && h.sequence <= acceptUntil;
      if !current && !previous {
        return Err(EpochNotAccepted);
      }
      if h.epoch < 1 {
        return Err(InvalidKey);
      }
      if supplied != mac(h.epoch, receiveDirection, prefix + payload) {
        return Err(AuthenticationFailed);
      }
      return Ok(Message(h.epoch, h.sequence, h.capability, payload));
    }

    method Decode(frame: bytes) returns (message: Result<Message>)
      modifies this`inbound, this`accepted, this`rejected
      ensures message == Inspect(mac, old(State()), frame)
      ensures State() == Received(mac, old(State()), frame)
    {
      message := Screen(frame);
      if message.Err? {
        rejected := rejected + 1;
      } else {
        inbound, accepted := message.value.sequence, accepted + 1;
      }
    }

    method TakeCheckpoint() returns (checkpoint: Checkpoint, tag: bytes)
      ensures checkpoint == Snapshot(State()) && tag == seal(checkpoint)
    {
      checkpoint := Checkpoint(session, keyEpoch, previousEpoch, acceptUntil, outbound, inbound, allowed);
      tag := seal(checkpoint);
    }

    method Restore(checkpoint: Checkpoint, tag: bytes) returns (r: Result<()>)
      modifies this`keyEpoch, this`previousEpoch, this`acceptUntil, this`outbound, this`inbound
      ensures r.Ok? <==> tag == seal(checkpoint) && checkpoint.session == session && checkpoint.allowed == allowed
      ensures State() == if r.Ok? then Resume(old(State()), checkpoint) else old(State())
    {
      if tag != seal(checkpoint) {
        return Err(CheckpointForged);
      }
      if checkpoint.session != session {
        return Err(CheckpointMismatch);
      }
      if checkpoint.allowed != allowed {
        return Err(CheckpointMismatch);
      }
      keyEpoch, previousEpoch, acceptUntil := checkpoint.keyEpoch, checkpoint.previousEpoch, checkpoint.acceptUntil;
      outbound, inbound := checkpoint.outbound, checkpoint.inbound;
      return Ok(());
    }

    method Rotate(epoch: nat) returns (r: Result<()>)
      modifies this`keyEpoch, this`previousEpoch, this`acceptUntil
      ensures r.Ok? <==> epoch > old(keyEpoch)
      ensures State() == if r.Ok? then Rotated(old(State()), epoch) else old(State())
    {
      if epoch <= keyEpoch {
        return Err(EpochMustAdvance);
      }
      previousEpoch, keyEpoch, acceptUntil := keyEpoch, epoch, inbound + grace;
      return Ok(());
    }
  }

  // ---- one frame ----

  /** The two ends of one direction, in step: what `r` checks is what `s` writes. */
  ghost predicate InStep(s: Channel, r: Channel) {
    && |s.session| == 16 && r.session == s.session && s.allowed <= r.allowed
    && r.receiveDirection == s.sendDirection && r.keyEpoch == s.keyEpoch && s.keyEpoch >= 1
    && r.inbound <= s.outbound
  }

  datatype Outgoing = Outgoing(capability: nat, payload: bytes)

  /** The messages the channel can carry: in scope, within the payload bound, and with sequence numbers left to pack. */
  ghost predicate Sendable(s: Channel, messages: seq<Outgoing>) {
    && s.keyEpoch < U64 && s.outbound + |messages| < U64
    && forall i :: 0 <= i < |messages| ==>
         messages[i].capability in s.allowed && messages[i].capability < U64 && |messages[i].payload| <= MAX_PAYLOAD
  }

  lemma FrameParts(mac: Mac, direction: Direction, h: Header, payload: bytes)
    requires TagsFit(mac) && Fits(h)
    ensures var frame := Frame(mac, direction, h, payload);
      && |frame| == HEADER_SIZE + |payload|
      && frame[..PREFIX_SIZE] == Pack(h) && frame[HEADER_SIZE..] == payload
      && Unpack(frame[..PREFIX_SIZE]) == Ok(h)
      && Authentic(mac, direction, h.epoch, frame)
  {
    hide Pack, Unpack;
    UnpackPacked(h);
    var prefix := Pack(h);
    var tag := mac(h.epoch, direction, prefix + payload);
    var frame := prefix + (tag + payload);
    Cut(prefix, tag + payload);
    Cut(tag, payload);
    assert frame[PREFIX_SIZE..HEADER_SIZE] == tag;
    assert frame[HEADER_SIZE..] == payload;
  }

  /** What one end encodes, the other accepts, with the message intact and the fence moved to its sequence. */
  lemma FrameRoundTrip(mac: Mac, s: Channel, r: Channel, capability: nat, payload: bytes)
    requires TagsFit(mac) && InStep(s, r)
    requires Encoded(mac, s, capability, payload).1.Ok?
    ensures var (t, encoded) := Encoded(mac, s, capability, payload);
      && Inspect(mac, r, encoded.value) == Ok(Message(s.keyEpoch, t.outbound, capability, payload))
      && InStep(t, Received(mac, r, encoded.value))
  {
    hide Pack, Unpack, Authentic, Frame;
    FrameParts(mac, s.sendDirection, Header(s.session, s.keyEpoch, s.outbound + 1, capability, |payload|), payload);
  }

  /**
   * A receiver that rotated to a later epoch takes, of the frames that peers with valid keys send, those of the new
   * epoch that are newer than its last, and of the epoch it left the next ones up to its grace; none of any other.
   */
  lemma RotatedTakes(mac: Mac, c: Channel, epoch: nat, h: Header, payload: bytes)
    requires TagsFit(mac) && epoch > c.keyEpoch && Fits(h) && h.size == |payload|
    requires h.session == c.session && h.capability in c.allowed && |payload| <= MAX_PAYLOAD
    ensures var verdict := Inspect(mac, Rotated(c, epoch), Frame(mac, c.receiveDirection, h, payload));
      && (verdict.Ok? <==>
          && h.epoch >= 1 && h.sequence > c.inbound
          && (h.epoch == epoch || (h.epoch == c.keyEpoch && h.sequence <= c.inbound + c.grace)))
      && (verdict.Ok? ==> verdict.value == Message(h.epoch, h.sequence, h.capability, payload))
  {
    hide Pack, Unpack, Authentic, Frame;
    FrameParts(mac, c.receiveDirection, h, payload);
  }

  /** A rejected frame changes only the reject counter; an accepted one strictly raises the fence. */
  lemma FenceMoves(mac: Mac, c: Channel, frame: bytes)
    ensures Inspect(mac, c, frame).Err? ==> Received(mac, c, frame) == c.(rejected := c.rejected + 1)
    ensures Inspect(mac, c, frame).Ok? ==>
      var m := Inspect(mac, c, frame).value;
      && m.sequence > c.inbound && Received(mac, c, frame).inbound == m.sequence
      && m.capability in c.allowed && |m.payload| <= MAX_PAYLOAD
      && Authentic(mac, c.receiveDirection, m.epoch, frame)
      && (m.epoch == c.keyEpoch || (m.epoch == c.previousEpoch && m.sequence <= c.acceptUntil))
  {
    hide Unpack, Authentic;
  }

  /** A channel resumed from its own checkpoint decides every frame as the original would. */
  lemma ResumedDecidesAlike(mac: Mac, c: Channel, blank: Channel, frame: bytes)
    requires blank.session == c.session && blank.allowed == c.allowed && blank.receiveDirection == c.receiveDirection
    ensures var resumed := Resume(blank, Snapshot(c));
      && Inspect(mac, resumed, frame) == Inspect(mac, c, frame)
      && Snapshot(Received(mac, resumed, frame)) == Snapshot(Received(mac, c, frame))
  {
    hide Unpack, Authentic;
  }

  /** And it sends on where the original was: the same frames, and no sequence number twice. */
  lemma ResumedSendsAlike(mac: Mac, c: Channel, blank: Channel, capability: nat, payload: bytes)
    requires |c.session| == 16 && blank.session == c.session && blank.allowed == c.allowed && blank.sendDirection == c.sendDirection
    ensures var resumed := Resume(blank, Snapshot(c));
      && Encoded(mac, resumed, capability, payload).1 == Encoded(mac, c, capability, payload).1
      && Encoded(mac, resumed, capability, payload).0.outbound == Encoded(mac, c, capability, payload).0.outbound
  {
    hide Frame;
  }

  /**
   * Restoring an old checkpoint: a frame the channel accepted since is accepted once more exactly if its epoch was
   * already the current one at the checkpoint, or then the previous one within its grace.
   */
  lemma RestoredReplays(mac: Mac, past: Channel, now: Channel, blank: Channel, frame: bytes)
    requires now.session == past.session && now.allowed == past.allowed && now.receiveDirection == past.receiveDirection
    requires blank.session == past.session && blank.allowed == past.allowed && blank.receiveDirection == past.receiveDirection
    requires now.inbound >= past.inbound && Inspect(mac, now, frame).Ok?
    ensures var m := Inspect(mac, now, frame).value;
      Inspect(mac, Resume(blank, Snapshot(past)), frame) == Ok(m) <==>
      m.epoch == past.keyEpoch || (m.epoch == past.previousEpoch && m.sequence <= past.acceptUntil)
  {
    hide Unpack;
  }
}
