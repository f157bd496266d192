/** Whole runs of one channel direction over a network that loses, repeats, reorders and forges frames. */
module SessionRuns {
  import opened Bytes
  import opened SessionChannel

  datatype Action =
    | Send(capability: nat, payload: bytes)
    | RotateSender(epoch: nat)
    | Deliver(frame: bytes)
    | RotateReceiver(epoch: nat)

  // An accepted frame, with the receiver's epochs when it was accepted.
  datatype Acceptance = Acceptance(frame: bytes, message: Message, current: nat, previous: nat)

  // Both ends, everything sent and accepted so far, and how many frames of the previous
  // epoch were accepted since the receiver last rotated.
  datatype Link = Link(sender: Channel, receiver: Channel, sent: seq<bytes>, accepted: seq<Acceptance>, graceUsed: nat)

  function Step(mac: Mac, l: Link, a: Action): Link
    requires |l.sender.session| == 16
  {
    match a
    case Send(capability, payload) =>
      var (sender, frame) := Encoded(mac, l.sender, capability, payload);
      l.(sender := sender, sent := if frame.Ok? then l.sent + [frame.value] else l.sent)
    case RotateSender(epoch) =>
      if epoch > l.sender.keyEpoch then l.(sender := Rotated(l.sender, epoch)) else l
    case Deliver(frame) =>
      var receiver := Received(mac, l.receiver, frame);
      (match Inspect(mac, l.receiver, frame)
       case Err(_) => l.(receiver := receiver)
       case Ok(m) =>
         l.(receiver := receiver,
            accepted := l.accepted + [Acceptance(frame, m, l.receiver.keyEpoch, l.receiver.previousEpoch)],
            graceUsed := l.graceUsed + if m.epoch == l.receiver.keyEpoch then 0 else 1))
    case RotateReceiver(epoch) =>
      if epoch > l.receiver.keyEpoch then l.(receiver := Rotated(l.receiver, epoch), graceUsed := 0) else l
  }

  /** The network may deliver anything, except a frame with a valid tag that was never sent. */
  ghost predicate Possible(mac: Mac, l: Link, a: Action) {
    a.Deliver? && |a.frame| >= HEADER_SIZE ==>
      forall e :: Authentic(mac, l.receiver.receiveDirection, e, a.frame) ==> a.frame in l.sent
  }

  /** The sequence number a frame's header shows. */
  function SequenceOf(frame: bytes): nat {
    if |frame| < PREFIX_SIZE then 0
    else
      match Unpack(frame[..PREFIX_SIZE])
      case Ok(h) => h.sequence
      case Err(_) => 0
  }

  ghost predicate Increasing(frames: seq<bytes>, last: nat) {
    && (forall i, j :: 0 <= i < j < |frames| ==> SequenceOf(frames[i]) < SequenceOf(frames[j]))
    && (forall i :: 0 <= i < |frames| ==> SequenceOf(frames[i]) <= last)
  }

  function Frames(accepted: seq<Acceptance>): seq<bytes> { seq(|accepted|, i requires 0 <= i < |accepted| => accepted[i].frame) }

  ghost predicate Invariant(l: Link) {
    && |l.sender.session| == 16
    && Increasing(l.sent, l.sender.outbound)
    && Increasing(Frames(l.accepted), l.receiver.inbound)
    && (forall i :: 0 <= i < |l.accepted| ==> Explained(l.accepted[i], l))
    && l.receiver.previousEpoch < l.receiver.keyEpoch
    && l.graceUsed <= l.receiver.grace
    && l.graceUsed + l.receiver.acceptUntil <= l.receiver.inbound + l.receiver.grace
  }

  ghost predicate Explained(a: Acceptance, l: Link) {
    && a.frame in l.sent && a.message.sequence == SequenceOf(a.frame)
    && (a.message.epoch == a.current || a.message.epoch == a.previous)
    && a.previous < a.current <= l.receiver.keyEpoch
  }

  ghost predicate Initial(l: Link) {
    && |l.sender.session| == 16 && l.sent == [] && l.accepted == [] && l.graceUsed == 0
    && l.receiver.previousEpoch < l.receiver.keyEpoch
    && l.receiver.acceptUntil <= l.receiver.inbound + l.receiver.grace
  }

  lemma AppendIncreasing(frames: seq<bytes>, last: nat, frame: bytes)
    requires Increasing(frames, last) && SequenceOf(frame) > last
    ensures Increasing(frames + [frame], SequenceOf(frame))
  {
  }

  lemma SendKeeps(mac: Mac, l: Link, capability: nat, payload: bytes)
    requires TagsFit(mac) && Invariant(l)
    ensures Invariant(Step(mac, l, Send(capability, payload)))
  {
    hide Pack, Unpack, SequenceOf;
    var (sender, frame) := Encoded(mac, l.sender, capability, payload);
    if frame.Ok? {
      SequenceSent(mac, l.sender, capability, payload);
      AppendIncreasing(l.sent, l.sender.outbound, frame.value);
    }
  }

  lemma SequenceSent(mac: Mac, s: Channel, capability: nat, payload: bytes)
    requires TagsFit(mac) && |s.session| == 16 && Encoded(mac, s, capability, payload).1.Ok?
    ensures SequenceOf(Encoded(mac, s, capability, payload).1.value) == s.outbound + 1
  {
    hide Pack, Unpack;
    FrameParts(mac, s.sendDirection, Header(s.session, s.keyEpoch, s.outbound + 1, capability, |payload|), payload);
  }

  lemma SequenceAccepted(mac: Mac, c: Channel, frame: bytes)
    requires Inspect(mac, c, frame).Ok?
    ensures |frame| >= HEADER_SIZE && Inspect(mac, c, frame).value.sequence == SequenceOf(frame)
  {
    hide Pack, Unpack;
  }

  lemma DeliverKeeps(mac: Mac, l: Link, frame: bytes)
    requires Invariant(l) && Possible(mac, l, Deliver(frame))
    ensures Invariant(Step(mac, l, Deliver(frame)))
  {
    hide Inspect, SequenceOf, Authentic;
    FenceMoves(mac, l.receiver, frame);
    if Inspect(mac, l.receiver, frame).Ok? {
      SequenceAccepted(mac, l.receiver, frame);
      AppendIncreasing(Frames(l.accepted), l.receiver.inbound, frame);
      var next := Step(mac, l, Deliver(frame));
      assert Frames(next.accepted) == Frames(l.accepted) + [frame];
    } else {
      assert Step(mac, l, Deliver(frame)).accepted == l.accepted;
    }
  }

  lemma StepKeeps(mac: Mac, l: Link, a: Action)
    requires TagsFit(mac) && Invariant(l) && Possible(mac, l, a)
    ensures Invariant(Step(mac, l, a))
  {
    match a {
      case Send(capability, payload) => SendKeeps(mac, l, capability, payload);
      case Deliver(frame) => DeliverKeeps(mac, l, frame);
      case RotateSender(_) =>
      case RotateReceiver(_) =>
    }
  }

  ghost predicate PossibleRun(mac: Mac, links: seq<Link>, actions: seq<Action>) {
    && |links| == |actions| + 1 && Initial(links[0])
    && (forall i :: 0 <= i < |actions| ==>
          |links[i].sender.session| == 16 && Possible(mac, links[i], actions[i]) && links[i + 1] == Step(mac, links[i], actions[i]))
  }

  lemma {:induction false} RunKeeps(mac: Mac, links: seq<Link>, actions: seq<Action>, n: nat)
    requires TagsFit(mac) && PossibleRun(mac, links, actions) && n <= |actions|
    ensures Invariant(links[n])
  {
    hide Invariant, Initial, Possible, Step;
    if n == 0 {
      StartsInvariant(links[0]);
    } else {
      RunKeeps(mac, links, actions, n - 1);
      StepKeeps(mac, links[n - 1], actions[n - 1]);
    }
  }

  lemma StartsInvariant(l: Link)
    requires Initial(l)
    ensures Invariant(l)
  {
  }

  /** `sub` is `all` with some elements left out: `places` says where each element comes from. */
  ghost predicate SubsequenceAt<T>(sub: seq<T>, all: seq<T>, places: seq<nat>) {
    && |places| == |sub|
    && (forall i :: 0 <= i < |places| ==> places[i] < |all| && sub[i] == all[places[i]])
    && (forall i, j :: 0 <= i < j < |places| ==> places[i] < places[j])
  }

  lemma {:induction false} MembersInOrder(sub: seq<bytes>, all: seq<bytes>, a: nat, b: nat) returns (places: seq<nat>)
    requires Increasing(sub, a) && Increasing(all, b) && forall i :: 0 <= i < |sub| ==> sub[i] in all
    ensures SubsequenceAt(sub, all, places)
  {
    hide SequenceOf;
    if sub == [] {
      places := [];
    } else {
      var m := |sub| - 1;
      var before := MembersInOrder(sub[..m], all, a, b);
      var place: nat :| place < |all| && all[place] == sub[m];
      forall i | 0 <= i < m ensures before[i] < place {
        assert SequenceOf(all[before[i]]) < SequenceOf(all[place]);
      }
      places := before + [place];
    }
  }

  /**
   * At every point of every possible run: what was accepted is a subsequence of what was sent, in
   * strictly increasing sequence order; every accepted frame is of the epoch current when it
   * arrived or the one before; and since the last rotation the receiver took at most the grace
   * count of frames from the previous epoch.
   */
  lemma AcceptedIsSubsequence(mac: Mac, links: seq<Link>, actions: seq<Action>, n: nat) returns (places: seq<nat>)
    requires TagsFit(mac) && PossibleRun(mac, links, actions) && n <= |actions|
    ensures var l := links[n];
      && SubsequenceAt(Frames(l.accepted), l.sent, places)
      && (forall i, j :: 0 <= i < j < |l.accepted| ==> l.accepted[i].message.sequence < l.accepted[j].message.sequence)
      && (forall i :: 0 <= i < |l.accepted| ==>
            var a := l.accepted[i]; a.message.epoch == a.current || a.message.epoch == a.previous)
      && l.graceUsed <= l.receiver.grace
  {
    hide SequenceOf;
    var l := links[n];
    RunKeeps(mac, links, actions, n);
    forall i | 0 <= i < |l.accepted| ensures Frames(l.accepted)[i] in l.sent {
      assert Explained(l.accepted[i], l);
    }
    places := MembersInOrder(Frames(l.accepted), l.sent, l.receiver.inbound, l.sender.outbound);
    forall i, j | 0 <= i < j < |l.accepted| ensures l.accepted[i].message.sequence < l.accepted[j].message.sequence {
      assert Explained(l.accepted[i], l) && Explained(l.accepted[j], l);
      assert Frames(l.accepted)[i] == l.accepted[i].frame && Frames(l.accepted)[j] == l.accepted[j].frame;
    }
  }

  // ---- a receiver that rotates ahead of its sender ----

  /** The frames a sender makes of a list of messages. */
  function Stream(mac: Mac, s: Channel, messages: seq<Outgoing>): seq<Result<bytes>>
    requires |s.session| == 16
    decreases |messages|
  {
    if messages == [] then []
    else
      var (next, frame) := Encoded(mac, s, messages[0].capability, messages[0].payload);
      [frame] + Stream(mac, next, messages[1..])
  }

  /** What a receiver makes of frames that arrive in turn. */
  function Verdicts(mac: Mac, r: Channel, frames: seq<Result<bytes>>): seq<Result<Message>>
    decreases |frames|
  {
    if frames == [] then []
    else if frames[0].Err? then [Err(frames[0].error)] + Verdicts(mac, r, frames[1..])
    else [Inspect(mac, r, frames[0].value)] + Verdicts(mac, Received(mac, r, frames[0].value), frames[1..])
  }

  /** The receiver has rotated and the sender has not: what the one writes the other checks, but for the epoch. */
  ghost predicate Behind(s: Channel, r: Channel) {
    && |s.session| == 16 && r.session == s.session && s.allowed <= r.allowed && r.receiveDirection == s.sendDirection
    && 1 <= s.keyEpoch == r.previousEpoch < r.keyEpoch && r.inbound <= s.outbound
  }

  /** The verdict on frame `n` of epoch `epoch`, when frames up to `last` are taken. */
  function UpTo(last: nat, epoch: nat, n: nat, m: Outgoing): Result<Message> {
    if n <= last then Ok(Message(epoch, n, m.capability, m.payload)) else Err(EpochNotAccepted)
  }

  lemma BehindTakes(mac: Mac, s: Channel, r: Channel, m: Outgoing)
    requires TagsFit(mac) && Behind(s, r) && Sendable(s, [m])
    ensures var (t, frame) := Encoded(mac, s, m.capability, m.payload);
      && frame.Ok? && t == s.(outbound := s.outbound + 1)
      && Inspect(mac, r, frame.value) == UpTo(r.acceptUntil, s.keyEpoch, s.outbound + 1, m)
      && Behind(t, Received(mac, r, frame.value)) && Received(mac, r, frame.value).acceptUntil == r.acceptUntil
  {
    hide Pack, Unpack, Authentic, Frame;
    assert [m][0] == m;
    FrameParts(mac, s.sendDirection, Header(s.session, s.keyEpoch, s.outbound + 1, m.capability, |m.payload|), m.payload);
  }

  lemma {:induction false} BehindStream(mac: Mac, s: Channel, r: Channel, messages: seq<Outgoing>)
    requires TagsFit(mac) && Behind(s, r) && Sendable(s, messages)
    ensures |s.session| == 16
    ensures var verdicts := Verdicts(mac, r, Stream(mac, s, messages));
      && |verdicts| == |messages|
      && (forall k :: 0 <= k < |messages| ==>
            verdicts[k] == UpTo(r.acceptUntil, s.keyEpoch, s.outbound + k + 1, messages[k]))
    decreases |messages|
  {
    hide Inspect, Received, Encoded, UpTo;
    if messages != [] {
      var m := messages[0];
      assert Sendable(s, [m]) by { assert [m][0] == messages[0]; }
      BehindTakes(mac, s, r, m);
      var (t, frame) := Encoded(mac, s, m.capability, m.payload);
      var next, rest := Received(mac, r, frame.value), Stream(mac, t, messages[1..]);
      assert Sendable(t, messages[1..]) by {
        assert forall i :: 0 <= i < |messages| - 1 ==> messages[1..][i] == messages[i + 1];
      }
      BehindStream(mac, t, next, messages[1..]);
      assert ([frame] + rest)[1..] == rest;
    }
  }

  /**
   * A receiver that rotates before its sender does still takes the sender's next frames, in order and whole, exactly
   * until their sequence has run the grace past the last one it took before.
   */
  lemma GraceInFull(mac: Mac, s: Channel, r: Channel, epoch: nat, messages: seq<Outgoing>)
    requires TagsFit(mac) && InStep(s, r) && epoch > r.keyEpoch && Sendable(s, messages)
    ensures var verdicts := Verdicts(mac, Rotated(r, epoch), Stream(mac, s, messages));
      && |verdicts| == |messages|
      && (forall k :: 0 <= k < |messages| ==>
            if s.outbound + k + 1 <= r.inbound + r.grace then
              verdicts[k] == Ok(Message(s.keyEpoch, s.outbound + k + 1, messages[k].capability, messages[k].payload))
            else
              verdicts[k] == Err(EpochNotAccepted))
  {
    BehindStream(mac, s, Rotated(r, epoch), messages);
  }

  /** Once the sender has rotated too, the two are in step again. */
  lemma InStepAgain(s: Channel, r: Channel, epoch: nat)
    requires InStep(s, r) && epoch > s.keyEpoch
    ensures InStep(Rotated(s, epoch), Rotated(r, epoch))
  {
  }

  // ---- counters ----

  function Delivered(actions: seq<Action>): nat {
    if actions == [] then 0 else Delivered(actions[..|actions| - 1]) + if actions[|actions| - 1].Deliver? then 1 else 0
  }

  /** Every delivery of a run is counted once, as accepted or as rejected, and the frames accepted are those counted so. */
  lemma {:induction false} DeliveriesCounted(mac: Mac, links: seq<Link>, actions: seq<Action>, n: nat)
    requires PossibleRun(mac, links, actions) && n <= |actions|
    ensures var first, now := links[0].receiver, links[n].receiver;
      && now.accepted == first.accepted + |links[n].accepted|
      && now.accepted + now.rejected == first.accepted + first.rejected + Delivered(actions[..n])
  {
    hide Inspect, Possible;
    if n > 0 {
      DeliveriesCounted(mac, links, actions, n - 1);
      assert links[n - 1 + 1] == Step(mac, links[n - 1], actions[n - 1]);
      assert actions[..n][..n - 1] == actions[..n - 1];
    }
  }

  /** Epochs only advance: once superseded twice, an epoch is never accepted again. */
  lemma {:induction false} EpochsAdvance(mac: Mac, links: seq<Link>, actions: seq<Action>, m: nat, n: nat)
    requires TagsFit(mac) && PossibleRun(mac, links, actions) && m <= n <= |actions|
    ensures links[m].receiver.keyEpoch <= links[n].receiver.keyEpoch
    ensures links[m].receiver.previousEpoch <= links[n].receiver.previousEpoch
    ensures forall frame :: Inspect(mac, links[n].receiver, frame).Ok? ==>
      Inspect(mac, links[n].receiver, frame).value.epoch >= links[m].receiver.previousEpoch
  {
    hide Inspect, Possible, Initial, Explained, Increasing;
    RunKeeps(mac, links, actions, n);
    if m < n {
      EpochsAdvance(mac, links, actions, m, n - 1);
      RunKeeps(mac, links, actions, n - 1);
      EpochStep(mac, links[n - 1], actions[n - 1]);
    }
    forall frame | Inspect(mac, links[n].receiver, frame).Ok?
      ensures Inspect(mac, links[n].receiver, frame).value.epoch >= links[m].receiver.previousEpoch
    {
      FenceMoves(mac, links[n].receiver, frame);
    }
  }

  lemma EpochStep(mac: Mac, l: Link, a: Action)
    requires Invariant(l)
    ensures var t := Step(mac, l, a);
      l.receiver.keyEpoch <= t.receiver.keyEpoch && l.receiver.previousEpoch <= t.receiver.previousEpoch
  {
    hide Inspect, Explained, Increasing;
    if a.Deliver? { FenceMoves(mac, l.receiver, a.frame); }
  }
}
