/** Replication envelopes, and the tracker that orders them at every node. */
module Replication {
  import opened Numbers
  import opened Options

  type NodeId = nat

  // ---- envelopes ----

  // A show snapshot: its revision field, if it has one, and the rest as an opaque token.
  datatype Snapshot = Snapshot(revision: Option<int>, content: nat)

  datatype Envelope = Envelope(
    protocolVersion: int, source: NodeId, epoch: int, sequence: int, revision: int, snapshot: Snapshot,
    telemetry: Option<nat>, keyId: Option<nat>, digest: nat, signature: Option<nat>)

  // The fields the digest covers.
  datatype Payload = Payload(protocolVersion: int, source: NodeId, epoch: int, sequence: int, revision: int,
                             snapshot: Snapshot, telemetry: Option<nat>, keyId: Option<nat>)

  const EMPTY_TELEMETRY: nat := 0

  type Sha = Payload -> nat
  type Hmac = (nat, nat) -> nat

  ghost predicate IdealSha(sha: Sha) { forall p, q :: sha(p) == sha(q) ==> p == q }

  ghost predicate IdealHmac(hmac: Hmac) { forall k, a, b :: hmac(k, a) == hmac(k, b) ==> a == b }

  datatype Verdict = Accepted | UnsupportedVersion | DigestMismatch | AuthenticationFailed | RevisionMismatch

  /** What the digest is taken over: telemetry counts from protocol version two on. */
  function Covered(e: Envelope): Payload {
    var telemetry :=
      if e.protocolVersion < 2 then None
      else if e.telemetry.None? then Some(EMPTY_TELEMETRY) else e.telemetry;
    Payload(e.protocolVersion, e.source, e.epoch, e.sequence, e.revision, e.snapshot, telemetry, e.keyId)
  }

  function MakeEnvelope(sha: Sha, hmac: Hmac, snapshot: Snapshot, source: NodeId, epoch: int, sequence: int,
                        secret: Option<nat>, telemetry: Option<nat>, keyId: Option<nat>): Envelope
  {
    var revision := if snapshot.revision.Some? then snapshot.revision.value else 0;
    var version := if telemetry.Some? then 2 else 1;
    var digest := sha(Payload(version, source, epoch, sequence, revision, snapshot, telemetry, keyId));
    Envelope(version, source, epoch, sequence, revision, snapshot, telemetry, keyId, digest,
             if secret.Some? then Some(hmac(secret.value, digest)) else None)
  }

  /** Checks an envelope against the secret its key id resolved to, if any. */
  function VerifyEnvelope(sha: Sha, hmac: Hmac, e: Envelope, secret: Option<nat>): Verdict {
    if e.protocolVersion != 1 && e.protocolVersion != 2 then UnsupportedVersion
    else if e.digest != sha(Covered(e)) then DigestMismatch
    else if secret.Some? && e.signature != Some(hmac(secret.value, e.digest)) then AuthenticationFailed
    else if e.revision != (if e.snapshot.revision.Some? then e.snapshot.revision.value else -1) then RevisionMismatch
    else Accepted
  }

  /** What a node makes, its peers accept, except for a snapshot without a revision: made as 0, checked as -1. */
  lemma MadeEnvelopeVerifies(sha: Sha, hmac: Hmac, snapshot: Snapshot, source: NodeId, epoch: int, sequence: int,
                             secret: Option<nat>, telemetry: Option<nat>, keyId: Option<nat>)
    ensures VerifyEnvelope(sha, hmac, MakeEnvelope(sha, hmac, snapshot, source, epoch, sequence, secret, telemetry, keyId), secret)
         == if snapshot.revision.Some? then Accepted else RevisionMismatch
  {
    var e := MakeEnvelope(sha, hmac, snapshot, source, epoch, sequence, secret, telemetry, keyId);
    assert Covered(e) == Payload(e.protocolVersion, source, epoch, sequence, e.revision, snapshot, telemetry, keyId);
  }

  /** An envelope carries what it was made of; its version tells of telemetry, and its signature of a secret. */
  lemma MadeEnvelopeCarries(sha: Sha, hmac: Hmac, snapshot: Snapshot, source: NodeId, epoch: int, sequence: int,
                            secret: Option<nat>, telemetry: Option<nat>, keyId: Option<nat>)
    ensures var e := MakeEnvelope(sha, hmac, snapshot, source, epoch, sequence, secret, telemetry, keyId);
      && e.source == source && e.epoch == epoch && e.sequence == sequence && e.snapshot == snapshot
      && e.telemetry == telemetry && e.keyId == keyId
      && (match snapshot.revision case Some(revision) => e.revision == revision case None => e.revision == 0)
      && (telemetry.Some? <==> e.protocolVersion == 2) && (secret.Some? <==> e.signature.Some?)
  {
  }

  /**
   * Two envelopes accepted under one secret with the same signature agree on every field the
   * tracker reads, and on the telemetry too, unless they are version one, whose digest leaves it out.
   */
  lemma SignatureBindsFields(sha: Sha, hmac: Hmac, e: Envelope, f: Envelope, secret: nat)
    requires IdealSha(sha) && IdealHmac(hmac)
    requires VerifyEnvelope(sha, hmac, e, Some(secret)) == Accepted && VerifyEnvelope(sha, hmac, f, Some(secret)) == Accepted
    requires e.signature == f.signature
    ensures e.source == f.source && e.epoch == f.epoch && e.sequence == f.sequence && e.revision == f.revision
    ensures e.snapshot == f.snapshot && e.keyId == f.keyId && e.protocolVersion == f.protocolVersion
    ensures e.protocolVersion == 2 && e.telemetry.Some? && f.telemetry.Some? ==> e.telemetry == f.telemetry
  {
    assert hmac(secret, e.digest) == hmac(secret, f.digest);
    assert sha(Covered(e)) == sha(Covered(f));
  }

  // ---- ordering ----

  datatype Role = Primary | Standby

  // The ordering metadata of an envelope.
  datatype Stamp = Stamp(source: NodeId, epoch: int, sequence: int, revision: int)

  datatype Tracker = Tracker(nodeId: NodeId, role: Role, epoch: int, exportSequence: int,
                             source: Option<NodeId>, appliedEpoch: int, appliedSequence: int, appliedRevision: int)

  datatype Decision = Apply | NotStandby | StaleEpoch | StaleSequence | RevisionBackwards

  function Decide(t: Tracker, m: Stamp): Decision {
    if t.role != Standby then NotStandby
    else if m.epoch < t.appliedEpoch then StaleEpoch
    else if m.epoch == t.appliedEpoch && t.source == Some(m.source) && m.sequence <= t.appliedSequence then StaleSequence
    else if m.epoch == t.appliedEpoch && t.appliedRevision != 0 && m.revision < t.appliedRevision then RevisionBackwards
    else Apply
  }

  datatype Action =
    | SetRole(role: Role)
    | Promote(leaseEpoch: int)
    | Adopt(leaseEpoch: int)
    | Export(revision: int)
    | Deliver(stamp: Stamp)

  function Step(t: Tracker, a: Action): Tracker {
    match a
    case SetRole(role) => if role != t.role then t.(epoch := t.epoch + 1, role := role, exportSequence := 0) else t
    case Promote(lease) => t.(role := Primary, epoch := Max(t.epoch + 1, Max(1, lease)), exportSequence := 0)
    case Adopt(lease) => if Max(1, lease) > t.epoch then t.(epoch := Max(1, lease), exportSequence := 0) else t
    case Export(_) => if t.role == Primary then t.(exportSequence := t.exportSequence + 1) else t
    case Deliver(m) =>
      if Decide(t, m) != Apply then t
      else Marked(t, m)
  }

  /** The tracker once an envelope counts as applied; nothing is checked here. */
  function Marked(t: Tracker, m: Stamp): Tracker {
    t.(source := Some(m.source), appliedEpoch := m.epoch, appliedSequence := m.sequence,
       appliedRevision := m.revision, epoch := Max(t.epoch, m.epoch))
  }

  class ReplicationTracker {
    const nodeId: NodeId
    var role: Role
    var epoch: int
    var exportSequence: int
    var source: Option<NodeId>
    var appliedEpoch: int
    var appliedSequence: int
    var appliedRevision: int

    ghost function State(): Tracker reads this {
      Tracker(nodeId, role, epoch, exportSequence, source, appliedEpoch, appliedSequence, appliedRevision)
    }

    constructor (nodeId: NodeId, role: Role)
      ensures State() == Tracker(nodeId, role, 1, 0, None, 0, 0, 0)
    {
      this.nodeId, this.role, this.epoch, this.exportSequence := nodeId, role, 1, 0;
      this.source, this.appliedEpoch, this.appliedSequence, this.appliedRevision := None, 0, 0, 0;
    }

    method SetRole(role: Role)
      modifies this
      ensures State() == Step(old(State()), Action.SetRole(role))
    {
      if role != this.role {
        epoch := epoch + 1;
        this.role := role;
        exportSequence := 0;
      }
    }

    method PromoteWithEpoch(leaseEpoch: int)
      modifies this
      ensures State() == Step(old(State()), Promote(leaseEpoch))
    {
      role := Primary;
      epoch := Max(epoch + 1, Max(1, leaseEpoch));
      exportSequence := 0;
    }

    method AdoptEpoch(leaseEpoch: int)
      modifies this
      ensures State() == Step(old(State()), Adopt(leaseEpoch))
    {
      if Max(1, leaseEpoch) > epoch {
        epoch := Max(1, leaseEpoch);
        exportSequence := 0;
      }
    }

    /** The next authoritative envelope; only a primary has one. */
    method ExportState(sha: Sha, hmac: Hmac, snapshot: Snapshot, secret: Option<nat>, telemetry: Option<nat>, keyId: Option<nat>)
      returns (envelope: Option<Envelope>)
      modifies this
      ensures envelope.Some? <==> old(role) == Primary
      ensures State() == Step(old(State()), Export(if snapshot.revision.Some? then snapshot.revision.value else 0))
      ensures envelope.Some? ==> StampOf(envelope.value) == Exported(old(State()), envelope.value.revision)
      ensures envelope.Some? && snapshot.revision.Some? ==> VerifyEnvelope(sha, hmac, envelope.value, secret) == Accepted
    {
      if role != Primary {
        return None;
      }
      exportSequence := exportSequence + 1;
      MadeEnvelopeVerifies(sha, hmac, snapshot, nodeId, epoch, exportSequence, secret, telemetry, keyId);
      return Some(MakeEnvelope(sha, hmac, snapshot, nodeId, epoch, exportSequence, secret, telemetry, keyId));
    }

    method CanApply(m: Stamp) returns (decision: Decision)
      ensures decision == Decide(State(), m)
    {
      if role != Standby {
        return NotStandby;
      }
      if m.epoch < appliedEpoch {
        return StaleEpoch;
      }
      if m.epoch == appliedEpoch && Some(m.source) == source && m.sequence <= appliedSequence {
        return StaleSequence;
      }
      if m.epoch == appliedEpoch && appliedRevision != 0 && m.revision < appliedRevision {
        return RevisionBackwards;
      }
      return Apply;
    }

    method MarkApplied(m: Stamp)
      modifies this
      ensures State() == Marked(old(State()), m)
    {
      source, appliedEpoch, appliedSequence, appliedRevision := Some(m.source), m.epoch, m.sequence, m.revision;
      epoch := Max(epoch, appliedEpoch);
    }

    /** A delivery that nothing comes between: the check, then the mark. */
    method ApplyReplica(m: Stamp) returns (decision: Decision)
      modifies this
      ensures decision == Decide(old(State()), m)
      ensures State() == Step(old(State()), Deliver(m))
    {
      decision := CanApply(m);
      if decision == Apply { MarkApplied(m); }
    }
  }

  function StampOf(e: Envelope): Stamp { Stamp(e.source, e.epoch, e.sequence, e.revision) }

  function Exported(t: Tracker, revision: int): Stamp { Stamp(t.nodeId, t.epoch, t.exportSequence + 1, revision) }

  predicate LexLess(e1: int, s1: int, e2: int, s2: int) { e1 < e2 || (e1 == e2 && s1 < s2) }

  predicate Before(a: Stamp, b: Stamp) { LexLess(a.epoch, a.sequence, b.epoch, b.sequence) }

  /** An accepted envelope comes after the last applied one, unless another source shares its epoch and is not ahead. */
  lemma AcceptedAdvances(t: Tracker, m: Stamp)
    requires Decide(t, m) == Apply
    ensures LexLess(t.appliedEpoch, t.appliedSequence, m.epoch, m.sequence)
       <==> !(m.epoch == t.appliedEpoch && t.source != Some(m.source) && m.sequence <= t.appliedSequence)
  {
  }

  /** Two sources in one epoch: the same envelope is applied twice. */
  lemma SharedEpochRepeats()
    ensures var a, b := Stamp(1, 5, 7, 3), Stamp(2, 5, 1, 3);
      var t0 := Tracker(9, Standby, 1, 0, None, 0, 0, 0);
      var t1 := Step(t0, Deliver(a)); var t2 := Step(t1, Deliver(b));
      Decide(t0, a) == Apply && Decide(t1, b) == Apply && Decide(t2, a) == Apply
  {
  }

  /** Within an epoch the applied revision never drops, except from zero to a negative one. */
  lemma RevisionDrops(t: Tracker, m: Stamp)
    requires Decide(t, m) == Apply && m.epoch == t.appliedEpoch
    ensures m.revision < t.appliedRevision <==> t.appliedRevision == 0 && m.revision < 0
  {
  }

  // ---- whole runs of one node, under any deliveries at all ----

  ghost predicate Run(states: seq<Tracker>, actions: seq<Action>) {
    && |states| == |actions| + 1
    && states[0].epoch == 1 && states[0].exportSequence == 0
    && states[0].source == None && states[0].appliedEpoch == 0 && states[0].appliedSequence == 0 && states[0].appliedRevision == 0
    && forall i :: 0 <= i < |actions| ==> states[i + 1] == Step(states[i], actions[i])
  }

  predicate Exports(t: Tracker, a: Action) { a.Export? && t.role == Primary }

  predicate Applies(t: Tracker, a: Action) { a.Deliver? && Decide(t, a.stamp) == Apply }

  /** A node's position never goes back, whatever happens to it. */
  lemma {:induction false} PositionAdvances(states: seq<Tracker>, actions: seq<Action>, i: nat, j: nat)
    requires Run(states, actions) && i <= j < |states|
    ensures states[i].epoch < states[j].epoch
         || (states[i].epoch == states[j].epoch && states[i].exportSequence <= states[j].exportSequence)
    ensures states[i].nodeId == states[j].nodeId
  {
    if i < j {
      PositionAdvances(states, actions, i, j - 1);
      assert states[j - 1 + 1] == Step(states[j - 1], actions[j - 1]);
    }
  }

  /** The envelopes a node exports strictly advance, across role changes, promotions, adoptions and applied epochs. */
  lemma ExportsIncrease(states: seq<Tracker>, actions: seq<Action>, i: nat, j: nat)
    requires Run(states, actions) && i < j < |actions|
    requires Exports(states[i], actions[i]) && Exports(states[j], actions[j])
    ensures Before(Exported(states[i], actions[i].revision), Exported(states[j], actions[j].revision))
  {
    assert states[i + 1] == Step(states[i], actions[i]);
    PositionAdvances(states, actions, i + 1, j);
  }

  /** The last applied epoch never decreases, whatever is delivered. */
  lemma {:induction false} AppliedAdvances(states: seq<Tracker>, actions: seq<Action>, i: nat, j: nat)
    requires Run(states, actions) && i <= j < |states|
    ensures states[i].appliedEpoch <= states[j].appliedEpoch
  {
    if i < j {
      AppliedAdvances(states, actions, i, j - 1);
      assert states[j - 1 + 1] == Step(states[j - 1], actions[j - 1]);
    }
  }

  /** The one delivery that takes a revision back within its epoch: a negative one, accepted where zero was applied. */
  predicate TakesRevisionBack(t: Tracker, a: Action) {
    Applies(t, a) && a.stamp.epoch == t.appliedEpoch && t.appliedRevision == 0 && a.stamp.revision < 0
  }

  /** From one state of a run to a later one of the same epoch, the revision does not go back. */
  ghost predicate RevisionHolds(states: seq<Tracker>, i: nat, j: nat)
    requires i <= j < |states|
  {
    states[i].appliedEpoch == states[j].appliedEpoch ==> states[i].appliedRevision <= states[j].appliedRevision
  }

  lemma {:induction false} RevisionKept(states: seq<Tracker>, actions: seq<Action>, i: nat, j: nat)
    requires Run(states, actions) && i <= j < |states|
    requires forall k :: i <= k < j ==> !TakesRevisionBack(states[k], actions[k])
    ensures RevisionHolds(states, i, j)
  {
    if i < j {
      RevisionKept(states, actions, i, j - 1);
      AppliedAdvances(states, actions, i, j - 1);
      assert states[j - 1 + 1] == Step(states[j - 1], actions[j - 1]);
    }
  }

  /** Over a whole run the revision never drops within an epoch, exactly if no negative one is accepted where zero was applied. */
  lemma RevisionsAdvance(states: seq<Tracker>, actions: seq<Action>)
    requires Run(states, actions)
    ensures (forall i: nat, j: nat :: i <= j < |states| ==> RevisionHolds(states, i, j))
       <==> forall k :: 0 <= k < |actions| ==> !TakesRevisionBack(states[k], actions[k])
  {
    forall k | 0 <= k < |actions| && TakesRevisionBack(states[k], actions[k]) ensures !RevisionHolds(states, k, k + 1) {
      assert states[k + 1] == Step(states[k], actions[k]);
    }
    if forall k :: 0 <= k < |actions| ==> !TakesRevisionBack(states[k], actions[k]) {
      forall i: nat, j: nat | i <= j < |states| ensures RevisionHolds(states, i, j) {
        RevisionKept(states, actions, i, j);
      }
    }
  }

  /** Every epoch has one exporter, and epochs start at one. */
  ghost predicate OneExporterPerEpoch(actions: seq<Action>) {
    && (forall i :: 0 <= i < |actions| && actions[i].Deliver? ==> actions[i].stamp.epoch >= 1)
    && (forall i, j | 0 <= i < |actions| && 0 <= j < |actions| && actions[i].Deliver? && actions[j].Deliver? ::
          actions[i].stamp.epoch == actions[j].stamp.epoch ==> actions[i].stamp.source == actions[j].stamp.source)
  }

  /** The applied position is the initial one, or that of a stamp delivered earlier. */
  lemma {:induction false} AppliedComesFromDelivery(states: seq<Tracker>, actions: seq<Action>, j: nat) returns (k: nat)
    requires Run(states, actions) && j < |states|
    ensures states[j].source.Some? ==>
      && k < j && Applies(states[k], actions[k])
      && var m := actions[k].stamp;
         states[j].source == Some(m.source) && states[j].appliedEpoch == m.epoch && states[j].appliedSequence == m.sequence
    ensures states[j].source.None? ==> states[j].appliedEpoch == 0 && states[j].appliedSequence == 0
  {
    k := 0;
    if j > 0 {
      assert states[j - 1 + 1] == Step(states[j - 1], actions[j - 1]);
      if Applies(states[j - 1], actions[j - 1]) {
        k := j - 1;
      } else {
        k := AppliedComesFromDelivery(states, actions, j - 1);
      }
    }
  }

  lemma {:induction false} PositionReached(states: seq<Tracker>, actions: seq<Action>, i: nat, j: nat)
    requires Run(states, actions) && OneExporterPerEpoch(actions)
    requires i < j < |states| && Applies(states[i], actions[i])
    ensures var m := actions[i].stamp;
      states[j].source.Some? && !LexLess(states[j].appliedEpoch, states[j].appliedSequence, m.epoch, m.sequence)
  {
    if j == i + 1 {
      assert states[i + 1] == Step(states[i], actions[i]);
    } else {
      PositionReached(states, actions, i, j - 1);
      assert states[j - 1 + 1] == Step(states[j - 1], actions[j - 1]);
      if Applies(states[j - 1], actions[j - 1]) {
        var k := AppliedComesFromDelivery(states, actions, j - 1);
        AcceptedAdvances(states[j - 1], actions[j - 1].stamp);
      }
    }
  }

  /** With one exporter per epoch, applied envelopes strictly advance, so none is applied twice, whatever the network does. */
  lemma AppliedIncrease(states: seq<Tracker>, actions: seq<Action>, i: nat, j: nat)
    requires Run(states, actions) && OneExporterPerEpoch(actions)
    requires i < j < |actions| && Applies(states[i], actions[i]) && Applies(states[j], actions[j])
    ensures Before(actions[i].stamp, actions[j].stamp) && actions[i].stamp != actions[j].stamp
  {
    PositionReached(states, actions, i, j);
    var k := AppliedComesFromDelivery(states, actions, j);
    AcceptedAdvances(states[j], actions[j].stamp);
  }

  // ---- when an envelope can be applied twice ----

  /** Every delivery of the run is of a stamp in circulation. */
  ghost predicate Circulating(e: set<Stamp>, actions: seq<Action>) {
    forall i :: 0 <= i < |actions| && actions[i].Deliver? ==> actions[i].stamp in e
  }

  ghost predicate AppliesTwice(states: seq<Tracker>, actions: seq<Action>)
    requires |states| == |actions| + 1
  {
    exists i, j :: 0 <= i < j < |actions| && Applies(states[i], actions[i]) && Applies(states[j], actions[j])
                   && actions[i].stamp == actions[j].stamp
  }

  /** Two sources in one epoch, neither ahead of the other by its revision: equal ones, or zero beside a negative one. */
  predicate Rivals(m: Stamp, n: Stamp) {
    && m.epoch == n.epoch && m.epoch >= 0 && m.source != n.source
    && (m.revision == n.revision || (m.revision == 0 && n.revision < 0))
  }

  ghost predicate HasRivals(e: set<Stamp>) { exists m, n :: m in e && n in e && Rivals(m, n) }

  ghost predicate HasZero(e: set<Stamp>, epoch: int) { exists z :: z in e && z.epoch == epoch && z.revision == 0 }

  predicate AtOrPast(t: Tracker, m: Stamp) { t.source == Some(m.source) && t.appliedSequence >= m.sequence }

  /** Without rivals, what the tracker holds once `m` was applied, and why `m` is not accepted again. */
  ghost predicate Past(e: set<Stamp>, t: Tracker, m: Stamp) {
    || t.appliedEpoch > m.epoch
    || (t.appliedEpoch == m.epoch &&
        if m.revision <= 0 && HasZero(e, m.epoch) then t.appliedRevision > 0 || AtOrPast(t, m)
        else t.appliedRevision != 0
             && (t.appliedRevision > m.revision || (t.appliedRevision == m.revision && AtOrPast(t, m))))
  }

  lemma MarkIsPast(e: set<Stamp>, t: Tracker, m: Stamp)
    requires m in e
    ensures Past(e, Marked(t, m), m)
  {
  }

  lemma PastIsRefused(e: set<Stamp>, t: Tracker, m: Stamp)
    requires Past(e, t, m)
    ensures Decide(t, m) != Apply
  {
  }

  /** The state that `m` left comes from a stamp in circulation, so its revision and source are those of one. */
  ghost predicate FromCirculation(e: set<Stamp>, t: Tracker) {
    t.source.Some? ==> exists m :: m in e && t.source == Some(m.source) && t.appliedEpoch == m.epoch
                                   && t.appliedSequence == m.sequence && t.appliedRevision == m.revision
  }

  lemma PastStays(e: set<Stamp>, t: Tracker, m: Stamp, n: Stamp)
    requires !HasRivals(e) && m in e && n in e && m.epoch >= 0
    requires Past(e, t, m) && t.source.Some? && FromCirculation(e, t) && Decide(t, n) == Apply
    ensures Past(e, Marked(t, n), m)
  {
    if t.appliedEpoch == m.epoch == n.epoch {
      var p :| p in e && t.source == Some(p.source) && t.appliedEpoch == p.epoch
               && t.appliedSequence == p.sequence && t.appliedRevision == p.revision;
      assert !Rivals(p, n) && !Rivals(n, p) && !Rivals(m, n) && !Rivals(n, m) && !Rivals(m, p) && !Rivals(p, m);
      if m.revision <= 0 && HasZero(e, m.epoch) {
        var z :| z in e && z.epoch == m.epoch && z.revision == 0;
        assert !Rivals(z, n) && !Rivals(z, m) && !Rivals(z, p);
      }
    }
  }

  lemma {:induction false} CirculationKept(e: set<Stamp>, states: seq<Tracker>, actions: seq<Action>, j: nat)
    requires Run(states, actions) && Circulating(e, actions) && j < |states|
    ensures FromCirculation(e, states[j]) && states[j].appliedEpoch >= 0
  {
    if j > 0 {
      CirculationKept(e, states, actions, j - 1);
      assert states[j - 1 + 1] == Step(states[j - 1], actions[j - 1]);
    }
  }

  lemma {:induction false} AppliedIsPast(e: set<Stamp>, states: seq<Tracker>, actions: seq<Action>, i: nat, j: nat)
    requires Run(states, actions) && Circulating(e, actions) && !HasRivals(e)
    requires i < j < |states| && Applies(states[i], actions[i])
    ensures Past(e, states[j], actions[i].stamp) && states[j].source.Some?
  {
    hide Past, Decide, HasRivals;
    var m := actions[i].stamp;
    if j == i + 1 {
      assert states[i + 1] == Step(states[i], actions[i]);
      MarkIsPast(e, states[i], m);
    } else {
      AppliedIsPast(e, states, actions, i, j - 1);
      assert states[j - 1 + 1] == Step(states[j - 1], actions[j - 1]);
      CirculationKept(e, states, actions, j - 1);
      AppliedNotNegative(e, states, actions, i);
      if Applies(states[j - 1], actions[j - 1]) {
        PastStays(e, states[j - 1], m, actions[j - 1].stamp);
      } else {
        SameApplied(e, states[j - 1], actions[j - 1], m);
      }
    }
  }

  lemma AppliedNotNegative(e: set<Stamp>, states: seq<Tracker>, actions: seq<Action>, i: nat)
    requires Run(states, actions) && Circulating(e, actions) && i < |actions| && Applies(states[i], actions[i])
    ensures actions[i].stamp.epoch >= 0
  {
    CirculationKept(e, states, actions, i);
  }

  lemma SameApplied(e: set<Stamp>, t: Tracker, a: Action, m: Stamp)
    requires !Applies(t, a) && Past(e, t, m)
    ensures Past(e, Step(t, a), m) && Step(t, a).source == t.source
  {
  }

  /** Rivals in circulation are enough: the one, the other, and the one again. */
  lemma RivalsRepeat(m: Stamp, n: Stamp) returns (states: seq<Tracker>, actions: seq<Action>)
    requires Rivals(m, n)
    ensures Run(states, actions) && Circulating({m, n}, actions) && AppliesTwice(states, actions)
  {
    actions := [Deliver(m), Deliver(n), Deliver(m)];
    var t0 := Tracker(0, Standby, 1, 0, None, 0, 0, 0);
    var t1 := Step(t0, Deliver(m));
    var t2 := Step(t1, Deliver(n));
    states := [t0, t1, t2, Step(t2, Deliver(m))];
    assert Applies(states[0], actions[0]) && Applies(states[2], actions[2]);
  }

  /** Some run that delivers only what circulates applies one envelope twice, exactly if rivals circulate. */
  lemma AppliedTwiceExactly(e: set<Stamp>)
    ensures HasRivals(e) <==>
      exists states: seq<Tracker>, actions: seq<Action> ::
        Run(states, actions) && Circulating(e, actions) && AppliesTwice(states, actions)
  {
    hide Past, Rivals, Decide;
    if HasRivals(e) {
      var m, n :| m in e && n in e && Rivals(m, n);
      var states, actions := RivalsRepeat(m, n);
      assert Circulating(e, actions);
    }
    forall states: seq<Tracker>, actions: seq<Action>
      | Run(states, actions) && Circulating(e, actions) && AppliesTwice(states, actions)
      ensures HasRivals(e)
    {
      var i, j :| 0 <= i < j < |actions| && Applies(states[i], actions[i]) && Applies(states[j], actions[j])
                  && actions[i].stamp == actions[j].stamp;
      if !HasRivals(e) {
        AppliedIsPast(e, states, actions, i, j);
        PastIsRefused(e, states[j], actions[j].stamp);
      }
    }
  }
}
