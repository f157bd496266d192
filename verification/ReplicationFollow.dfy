/** A standby that keeps up: the envelopes of a primary are applied in order, and so are those of the node that takes over. */
module ReplicationFollow {
  import opened Options
  import opened Replication

  /** The envelope is the applied position. */
  predicate Holds(t: Tracker, m: Stamp) {
    t.source == Some(m.source) && t.appliedEpoch == m.epoch && t.appliedSequence == m.sequence && t.appliedRevision == m.revision
  }

  /** What a standby takes of a single delivery, and that nothing changes otherwise. */
  lemma TakenExactly(t: Tracker, m: Stamp)
    requires t.role == Standby
    ensures var u := Step(t, Deliver(m));
      if m.epoch > t.appliedEpoch
         || (m.epoch == t.appliedEpoch
             && (t.source != Some(m.source) || m.sequence > t.appliedSequence)
             && (t.appliedRevision == 0 || m.revision >= t.appliedRevision))
      then Holds(u, m) && u.role == Standby && u.epoch >= m.epoch
      else u == t
  {
  }

  /** The tracker after envelopes that arrive in turn. */
  function Fed(t: Tracker, ms: seq<Stamp>): Tracker {
    if ms == [] then t else Step(Fed(t, ms[..|ms| - 1]), Deliver(ms[|ms| - 1]))
  }

  /** Each envelope is applied when it comes. */
  ghost predicate Takes(t: Tracker, ms: seq<Stamp>) {
    forall k :: 0 <= k < |ms| ==> Holds(Fed(t, ms[..k + 1]), ms[k])
  }

  /** From where the tracker is, the envelope leads on: to a later epoch, or onwards from the same source. */
  predicate Enters(t: Tracker, m: Stamp) {
    || m.epoch > t.appliedEpoch
    || (m.epoch == t.appliedEpoch && t.source == Some(m.source) && m.sequence > t.appliedSequence && m.revision >= t.appliedRevision)
  }

  predicate LeadsOn(a: Stamp, b: Stamp) {
    b.epoch > a.epoch || (b.epoch == a.epoch && b.source == a.source && b.sequence > a.sequence && b.revision >= a.revision)
  }

  ghost predicate Chain(ms: seq<Stamp>) { forall k :: 0 < k < |ms| ==> LeadsOn(ms[k - 1], ms[k]) }

  lemma {:induction false} ChainTaken(t: Tracker, ms: seq<Stamp>)
    requires t.role == Standby && Chain(ms) && (ms != [] ==> Enters(t, ms[0]))
    ensures Takes(t, ms) && Fed(t, ms).role == Standby
    ensures ms != [] ==> Holds(Fed(t, ms), ms[|ms| - 1])
  {
    hide Decide;
    if ms != [] {
      var n := |ms| - 1;
      var before := ms[..n];
      ChainTaken(t, before);
      TakenExactly(Fed(t, before), ms[n]);
      if n > 0 { assert LeadsOn(ms[n - 1], ms[n]); }
      forall k | 0 <= k < |ms| ensures Holds(Fed(t, ms[..k + 1]), ms[k]) {
        if k < n { assert before[..k + 1] == ms[..k + 1]; } else { assert ms[..k + 1] == ms; }
      }
    }
  }

  lemma {:induction false} FedJoins(t: Tracker, a: seq<Stamp>, b: seq<Stamp>)
    ensures Fed(t, a + b) == Fed(Fed(t, a), b)
  {
    hide Step;
    if b == [] {
      assert a + b == a;
    } else {
      var n := |b| - 1;
      FedJoins(t, a, b[..n]);
      assert (a + b)[..|a + b| - 1] == a + b[..n];
    }
  }

  lemma TakesJoins(t: Tracker, a: seq<Stamp>, b: seq<Stamp>)
    requires Takes(t, a) && Takes(Fed(t, a), b)
    ensures Takes(t, a + b)
  {
    hide Fed, Holds;
    var ms := a + b;
    forall k | 0 <= k < |ms| ensures Holds(Fed(t, ms[..k + 1]), ms[k]) {
      if k < |a| {
        assert ms[..k + 1] == a[..k + 1];
      } else {
        assert ms[..k + 1] == a + b[..k + 1 - |a|];
        FedJoins(t, a, b[..k + 1 - |a|]);
      }
    }
  }

  // ---- what a node exports in a run ----

  /** The envelopes of the actions from the i-th up to the j-th. */
  function ExportsOf(states: seq<Tracker>, actions: seq<Action>, i: nat, j: nat): seq<Stamp>
    requires |states| == |actions| + 1 && i <= j <= |actions|
  {
    if i == j then []
    else
      ExportsOf(states, actions, i, j - 1)
      + if Exports(states[j - 1], actions[j - 1]) then [Exported(states[j - 1], actions[j - 1].revision)] else []
  }

  /** Within an epoch the show's revision never drops from one export to a later one. */
  ghost predicate RevisionsHold(states: seq<Tracker>, actions: seq<Action>, i: nat, j: nat)
    requires |states| == |actions| + 1 && j <= |actions|
  {
    forall a, b ::
      (i <= a < b < j && Exports(states[a], actions[a]) && Exports(states[b], actions[b]) && states[a].epoch == states[b].epoch)
      ==> actions[a].revision <= actions[b].revision
  }

  lemma {:induction false} ExportsChain(states: seq<Tracker>, actions: seq<Action>, i: nat, j: nat) returns (first: nat, last: nat)
    requires Run(states, actions) && i <= j <= |actions| && RevisionsHold(states, actions, i, j)
    ensures var ms := ExportsOf(states, actions, i, j);
      && Chain(ms)
      && (ms != [] ==>
            && i <= first <= last < j && Exports(states[first], actions[first]) && Exports(states[last], actions[last])
            && ms[0] == Exported(states[first], actions[first].revision)
            && ms[|ms| - 1] == Exported(states[last], actions[last].revision))
  {
    hide Run, RevisionsHold, Exported, LeadsOn, Chain;
    RunLengths(states, actions);
    first, last := i, i;
    if i == j {
      NoChain();
    } else {
      ShorterHolds(states, actions, i, j);
      first, last := ExportsChain(states, actions, i, j - 1);
      if Exports(states[j - 1], actions[j - 1]) {
        var before := ExportsOf(states, actions, i, j - 1);
        if before == [] { first := j - 1; } else { LaterLeadsOn(states, actions, i, j, last, j - 1); }
        ChainSnoc(before, Exported(states[j - 1], actions[j - 1].revision));
        last := j - 1;
      } else {
        assert ExportsOf(states, actions, i, j) == ExportsOf(states, actions, i, j - 1);
      }
    }
  }

  lemma NoChain()
    ensures Chain([])
  {
  }

  lemma ChainSnoc(ms: seq<Stamp>, m: Stamp)
    requires Chain(ms) && (ms != [] ==> LeadsOn(ms[|ms| - 1], m))
    ensures Chain(ms + [m])
  {
    hide LeadsOn;
  }

  lemma RunLengths(states: seq<Tracker>, actions: seq<Action>)
    requires Run(states, actions)
    ensures |states| == |actions| + 1
  {
  }

  lemma ShorterHolds(states: seq<Tracker>, actions: seq<Action>, i: nat, j: nat)
    requires |states| == |actions| + 1 && 0 < j <= |actions| && RevisionsHold(states, actions, i, j)
    ensures RevisionsHold(states, actions, i, j - 1)
  {
  }

  lemma LaterLeadsOn(states: seq<Tracker>, actions: seq<Action>, i: nat, j: nat, a: nat, b: nat)
    requires Run(states, actions) && j <= |actions| && RevisionsHold(states, actions, i, j)
    requires i <= a < b < j && Exports(states[a], actions[a]) && Exports(states[b], actions[b])
    ensures LeadsOn(Exported(states[a], actions[a].revision), Exported(states[b], actions[b].revision))
  {
    hide Step;
    ExportsIncrease(states, actions, a, b);
    PositionAdvances(states, actions, a, b);
  }

  /** Whatever happens to a primary, its envelopes are all applied, delivered in order at a standby they lead on from. */
  lemma PrimaryFollowed(states: seq<Tracker>, actions: seq<Action>, i: nat, j: nat, t: Tracker)
    requires Run(states, actions) && i <= j <= |actions| && RevisionsHold(states, actions, i, j)
    requires t.role == Standby
    requires var ms := ExportsOf(states, actions, i, j); ms != [] ==> Enters(t, ms[0])
    ensures Takes(t, ExportsOf(states, actions, i, j))
  {
    hide RevisionsHold, Enters, Takes, Exported;
    var _, _ := ExportsChain(states, actions, i, j);
    ChainTaken(t, ExportsOf(states, actions, i, j));
  }

  /** A standby that has applied nothing can follow any primary from its first envelope, or from any later one. */
  lemma FreshFollows(states: seq<Tracker>, actions: seq<Action>, i: nat, j: nat, t: Tracker)
    requires Run(states, actions) && i <= j <= |actions| && RevisionsHold(states, actions, i, j)
    requires t.role == Standby && t.appliedEpoch == 0
    ensures Takes(t, ExportsOf(states, actions, i, j))
  {
    hide RevisionsHold, Takes, Step;
    var first, _ := ExportsChain(states, actions, i, j);
    if ExportsOf(states, actions, i, j) != [] { PositionAdvances(states, actions, 0, first); }
    PrimaryFollowed(states, actions, i, j, t);
  }

  // ---- epochs ----

  /** A promotion opens the least epoch that is later than the node's own and no earlier than the lease's, or the first. */
  lemma PromotionOpens(t: Tracker, lease: int)
    ensures var u := Step(t, Promote(lease));
      && u.role == Primary && u.exportSequence == 0 && Exports(u, Export(0))
      && u.epoch > t.epoch && u.epoch >= lease && u.epoch >= 1
      && (u.epoch == t.epoch + 1 || u.epoch == lease || u.epoch == 1)
  {
  }

  /** An adoption moves to the lease's epoch when that is later, and otherwise does nothing; the role stays. */
  lemma AdoptionFollows(t: Tracker, lease: int)
    requires t.epoch >= 1
    ensures var u := Step(t, Adopt(lease));
      if lease > t.epoch then u == t.(epoch := lease, exportSequence := 0) else u == t
  {
  }

  /** A node that changes its role exports, if at all, in an epoch of its own; one that keeps it goes on where it was. */
  lemma RoleChanges(t: Tracker, role: Role, revision: int)
    ensures var u := Step(t, SetRole(role));
      && u.role == role && u.nodeId == t.nodeId
      && (role == t.role ==> u == t) && (role != t.role ==> Exported(u, revision) == Stamp(t.nodeId, t.epoch + 1, 1, revision))
  {
  }

  // ---- failover ----

  /** A node's epoch covers what it has applied. */
  lemma {:induction false} EpochCovers(states: seq<Tracker>, actions: seq<Action>, n: nat)
    requires Run(states, actions) && n < |states|
    ensures states[n].epoch >= states[n].appliedEpoch && states[n].epoch >= 1
  {
    if n > 0 {
      EpochCovers(states, actions, n - 1);
      assert states[n - 1 + 1] == Step(states[n - 1], actions[n - 1]);
    }
  }

  /** What a promoted node exports is of a later epoch than anything it applied before. */
  lemma PromotedLeads(states: seq<Tracker>, actions: seq<Action>, k: nat, a: nat)
    requires Run(states, actions) && k < a < |actions| && actions[k].Promote?
    requires actions[a].Export?
    ensures Exported(states[a], actions[a].revision).epoch > states[k].appliedEpoch
  {
    EpochCovers(states, actions, k);
    assert states[k + 1] == Step(states[k], actions[k]);
    PositionAdvances(states, actions, k + 1, a);
  }

  /**
   * Failover: a standby that follows one primary, and then another node that was promoted after it had applied an
   * envelope of the first one's last epoch, applies every envelope of both.
   */
  lemma FailoverFollowed(
      a: seq<Tracker>, did: seq<Action>, i: nat, j: nat,
      b: seq<Tracker>, does: seq<Action>, k: nat, n: nat, t: Tracker)
    requires Run(a, did) && i <= j <= |did| && RevisionsHold(a, did, i, j)
    requires Run(b, does) && k < n <= |does| && does[k].Promote? && RevisionsHold(b, does, k + 1, n)
    requires t.role == Standby
    requires var ms := ExportsOf(a, did, i, j);
      ms != [] && Enters(t, ms[0]) && b[k].appliedEpoch >= ms[|ms| - 1].epoch
    ensures Takes(t, ExportsOf(a, did, i, j) + ExportsOf(b, does, k + 1, n))
  {
    hide RevisionsHold, Takes, Exported, Step;
    var ms, ns := ExportsOf(a, did, i, j), ExportsOf(b, does, k + 1, n);
    var _, _ := ExportsChain(a, did, i, j);
    ChainTaken(t, ms);
    var first, _ := ExportsChain(b, does, k + 1, n);
    if ns != [] { PromotedLeads(b, does, k, first); }
    PrimaryFollowed(b, does, k + 1, n, Fed(t, ms));
    TakesJoins(t, ms, ns);
  }

  /** And from the first envelope of the new primary on, nothing the old one still sends in its epochs changes anything. */
  lemma {:induction false} DeposedIgnored(t: Tracker, ms: seq<Stamp>)
    requires t.role == Standby && forall k :: 0 <= k < |ms| ==> ms[k].epoch < t.appliedEpoch
    ensures Fed(t, ms) == t
  {
    hide Decide;
    if ms != [] {
      DeposedIgnored(t, ms[..|ms| - 1]);
      TakenExactly(t, ms[|ms| - 1]);
    }
  }
}
