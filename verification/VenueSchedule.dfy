/** What goes live and when: a commit waits for its bar or cue and then pushes what was proposed and found valid. */
module VenueSchedule {
  import opened Options
  import opened VenuePatch
  import opened VenueRuns

  // ---- waiting for the boundary ----

  /** The moment is the one a commit at this boundary waits for. */
  predicate Reached(boundary: Boundary, moment: Moment) {
    match boundary
    case Immediate => false
    case NextBar(target) => moment.At? && moment.showSeconds >= target
    case Cue(cueId) => moment == Called(cueId)
  }

  ghost predicate Moments(states: seq<Store>, moments: seq<Moment>) {
    && |states| == |moments| + 1 && Sound(states[0]) && OnePending(states[0].txs)
    && forall k :: 0 <= k < |moments| ==> Passes(states[k], moments[k], states[k + 1])
  }

  ghost predicate Waits(s: Store, id: TxId, boundary: Boundary) {
    id in s.txs && s.txs[id].status == PendingCommit && s.txs[id].commit == Some(boundary)
  }

  /** Nobody waits, so no moment changes anything. */
  lemma NobodyWaits(s: Store, moment: Moment, t: Store)
    requires Passes(s, moment, t) && forall id :: id in s.txs ==> s.txs[id].status != PendingCommit
    ensures t == s
  {
  }

  lemma WaitsOn(s: Store, id: TxId, boundary: Boundary, moment: Moment, t: Store)
    requires Sound(s) && OnePending(s.txs) && Waits(s, id, boundary) && Passes(s, moment, t)
    requires boundary != NextBar(0.0)
    ensures !Reached(boundary, moment) ==> t == s
    ensures Reached(boundary, moment) ==>
      && t.stack == s.stack + [Layer(|s.stack| + 1, id, s.txs[id].mappings)] && t.active == Top(t.stack)
      && id in t.txs && t.txs[id].status == Committed && t.txs[id].mappings == s.txs[id].mappings
      && forall other :: other in t.txs ==> t.txs[other].status != PendingCommit
  {
    assert DueWhen(s.txs[id], moment) <==> Reached(boundary, moment);
    assert forall other :: other in s.txs && other != id ==> !DueWhen(s.txs[other], moment);
  }

  /**
   * A commit that waits for a bar or a cue changes nothing until the first moment that reaches it, pushes one layer
   * with its own mappings then, and no later moment does more.
   */
  lemma {:induction false} CommitsWhenReached(states: seq<Store>, moments: seq<Moment>, id: TxId, boundary: Boundary, n: nat)
    requires Moments(states, moments) && Waits(states[0], id, boundary) && boundary != NextBar(0.0) && n <= |moments|
    ensures var s, t := states[0], states[n];
      if exists k :: 0 <= k < n && Reached(boundary, moments[k]) then
        && t.stack == s.stack + [Layer(|s.stack| + 1, id, s.txs[id].mappings)] && t.active == Top(t.stack)
        && id in t.txs && t.txs[id].status == Committed
        && forall other :: other in t.txs ==> t.txs[other].status != PendingCommit
      else t == s
  {
    hide Passes, Sound, OnePending, Reached, Top;
    if n > 0 {
      CommitsWhenReached(states, moments, id, boundary, n - 1);
      assert Passes(states[n - 1], moments[n - 1], states[n - 1 + 1]);
      if k :| 0 <= k < n - 1 && Reached(boundary, moments[k]) {
        NobodyWaits(states[n - 1], moments[n - 1], states[n]);
      } else {
        WaitsOn(states[0], id, boundary, moments[n - 1], states[n]);
      }
    }
  }

  /** A bar at time zero, as rounding can make it, is never reached: the commit waits for ever. */
  lemma NeverAtZero(s: Store, id: TxId, moment: Moment, t: Store)
    requires OnePending(s.txs) && Waits(s, id, NextBar(0.0)) && Passes(s, moment, t)
    ensures t == s
  {
    forall other | other in s.txs ensures !DueWhen(s.txs[other], moment) {
      if s.txs[other].status == PendingCommit { assert other == id; }
    }
  }

  /** A waiting commit can be cancelled, and then no moment makes it. */
  lemma {:induction false} CancelledForGood(s: Store, id: TxId, boundary: Boundary, states: seq<Store>, moments: seq<Moment>, n: nat)
    requires Sound(s) && OnePending(s.txs) && Waits(s, id, boundary) && s.txs[id].readable
    requires |states| == |moments| + 1 && states[0] == Take(s, Undo(id))
    requires forall k :: 0 <= k < |moments| ==> Passes(states[k], moments[k], states[k + 1])
    requires n <= |moments|
    ensures states[n] == states[0] && states[n].stack == s.stack && states[n].active == s.active
  {
    hide Passes, Sound, OnePending;
    NobodyLeft(s, id, boundary);
    if n > 0 {
      CancelledForGood(s, id, boundary, states, moments, n - 1);
      NobodyWaits(states[n - 1], moments[n - 1], states[n - 1 + 1]);
    }
  }

  lemma NobodyLeft(s: Store, id: TxId, boundary: Boundary)
    requires OnePending(s.txs) && Waits(s, id, boundary) && s.txs[id].readable
    ensures Enabled(s, Undo(id))
    ensures forall other :: other in Take(s, Undo(id)).txs ==> Take(s, Undo(id)).txs[other].status != PendingCommit
  {
  }

  // ---- what goes live ----

  ghost predicate FromEmpty(states: seq<Store>, steps: seq<Step>) {
    Run(states, steps) && states[0].stack == [] && states[0].txs == map[]
  }

  /** Every transaction carries what its proposal said. */
  lemma {:induction false} TxProposed(states: seq<Store>, steps: seq<Step>, n: nat, id: TxId) returns (k: nat)
    requires FromEmpty(states, steps) && n <= |steps| && id in states[n].txs
    ensures k < n && steps[k].Proposal? && steps[k].id == id && id !in states[k].txs
    ensures var tx, plan := states[n].txs[id], steps[k].plan;
      tx.mappings == plan.mappings && tx.requirementsHash == plan.requirementsHash && tx.planHash == plan.planHash
    ensures forall j :: k < j <= n ==> id in states[j].txs
  {
    hide Sound;
    assert n > 0;
    assert Took(states[n - 1], steps[n - 1], states[n]);
    if id in states[n - 1].txs {
      k := TxProposed(states, steps, n - 1, id);
    } else {
      k := n - 1;
    }
  }

  /** The last validation of the transaction before `n` was at `k`, against a plan that is still the one proposed and can run. */
  ghost predicate FoundValid(states: seq<Store>, steps: seq<Step>, n: nat, id: TxId, proposed: Plan, k: nat)
    requires n <= |steps| < |states|
  {
    && k < n && steps[k].Validation? && steps[k].id == id
    && (forall j :: k < j < n ==> !(steps[j].Validation? && steps[j].id == id))
    && steps[k].plan.requirementsHash == proposed.requirementsHash && steps[k].plan.planHash == proposed.planHash
    && !steps[k].plan.blocked && steps[k].plan.compatible && steps[k].plan.ready
    && id in states[k].txs && states[k].txs[id].status != Committed && states[k].txs[id].status != RolledBack
  }

  /** A transaction counts as valid exactly when its last validation found it open and unchanged, and the plan fit to run. */
  lemma {:induction false} ValidExactly(states: seq<Store>, steps: seq<Step>, n: nat, id: TxId, at: nat)
    requires FromEmpty(states, steps) && n <= |steps| && id in states[n].txs
    requires at < n && steps[at].Proposal? && steps[at].id == id
    ensures states[n].txs[id].valid <==> exists k: nat :: FoundValid(states, steps, n, id, steps[at].plan, k)
  {
    hide Sound;
    assert Took(states[n - 1], steps[n - 1], states[n]);
    var p := TxProposed(states, steps, n, id);
    SameProposal(states, steps, n, id, p, at);
    if at == n - 1 {
      forall k: nat ensures !FoundValid(states, steps, n, id, steps[at].plan, k) {
        if k < at && id in states[k].txs { StaysKnown(states, steps, id, k, at); }
      }
    } else {
      StaysKnown(states, steps, id, at + 1, n - 1);
      if steps[n - 1].Validation? && steps[n - 1].id == id {
        var q := TxProposed(states, steps, n - 1, id);
        SameProposal(states, steps, n - 1, id, q, at);
        if states[n].txs[id].valid { assert FoundValid(states, steps, n, id, steps[at].plan, n - 1); }
      } else {
        ValidExactly(states, steps, n - 1, id, at);
        LastUnmoved(states, steps, n - 1, n, id, steps[at].plan);
      }
    }
  }

  lemma LastUnmoved(states: seq<Store>, steps: seq<Step>, before: nat, n: nat, id: TxId, proposed: Plan)
    requires n == before + 1 <= |steps| < |states| && !(steps[before].Validation? && steps[before].id == id)
    ensures (exists k: nat :: FoundValid(states, steps, n, id, proposed, k))
       <==> exists k: nat :: FoundValid(states, steps, before, id, proposed, k)
  {
    if k: nat :| FoundValid(states, steps, n, id, proposed, k) { assert FoundValid(states, steps, before, id, proposed, k); }
    if k: nat :| FoundValid(states, steps, before, id, proposed, k) { assert FoundValid(states, steps, n, id, proposed, k); }
  }

  lemma {:induction false} StaysKnown(states: seq<Store>, steps: seq<Step>, id: TxId, m: nat, n: nat)
    requires Run(states, steps) && m <= n <= |steps| && id in states[m].txs
    ensures id in states[n].txs
  {
    hide Sound;
    if m < n {
      StaysKnown(states, steps, id, m, n - 1);
      assert Took(states[n - 1], steps[n - 1], states[n]);
    }
  }

  /** An identifier is proposed once. */
  lemma SameProposal(states: seq<Store>, steps: seq<Step>, n: nat, id: TxId, a: nat, b: nat)
    requires Run(states, steps) && a < n <= |steps| && b < n
    requires steps[a].Proposal? && steps[a].id == id && steps[b].Proposal? && steps[b].id == id
    ensures a == b
  {
    hide Sound;
    assert Took(states[a], steps[a], states[a + 1]) && Took(states[b], steps[b], states[b + 1]);
    if a < b { StaysKnown(states, steps, id, a + 1, b); }
    if b < a { StaysKnown(states, steps, id, b + 1, a); }
  }

  /** Who waits was valid when it began to, and nothing that happens to it since leaves it waiting. */
  lemma {:induction false} WaitingIsValid(states: seq<Store>, steps: seq<Step>, n: nat, id: TxId)
    requires FromEmpty(states, steps) && n <= |steps| && id in states[n].txs && states[n].txs[id].status == PendingCommit
    ensures states[n].txs[id].valid
  {
    hide Sound;
    assert n > 0;
    assert Took(states[n - 1], steps[n - 1], states[n]);
    if id in states[n - 1].txs && states[n - 1].txs[id].status == PendingCommit { WaitingIsValid(states, steps, n - 1, id); }
  }

  /**
   * Only what was proposed and found valid goes live: every layer of every run from an empty store was pushed by a
   * commit of a transaction whose last validation before had found it so, and holds the mappings of its proposal.
   */
  lemma {:induction false} LiveWasValid(states: seq<Store>, steps: seq<Step>, n: nat, i: nat) returns (at: nat, k: nat, m: nat)
    requires FromEmpty(states, steps) && n <= |steps| && i < |states[n].stack|
    ensures at < k < m < n && steps[at].Proposal? && steps[m].Commit? && steps[at].id == steps[m].id
    ensures FoundValid(states, steps, m, steps[at].id, steps[at].plan, k)
    ensures states[n].stack[i] == Layer(i + 1, steps[at].id, steps[at].plan.mappings)
  {
    hide Sound, FoundValid, Took, Refines;
    assert n > 0;
    StackBefore(states, steps, n);
    if i < |states[n - 1].stack| {
      at, k, m := LiveWasValid(states, steps, n - 1, i);
    } else {
      m := n - 1;
      var id := steps[m].id;
      at := TxProposed(states, steps, m, id);
      if states[m].txs[id].status == PendingCommit { WaitingIsValid(states, steps, m, id); }
      ValidExactly(states, steps, m, id, at);
      k :| FoundValid(states, steps, m, id, steps[at].plan, k);
      ValidatedAfter(states, steps, m, id, at, k);
    }
  }

  lemma ValidatedAfter(states: seq<Store>, steps: seq<Step>, m: nat, id: TxId, at: nat, k: nat)
    requires Run(states, steps) && m <= |steps| && at < m && id !in states[at].txs && steps[at].Proposal?
    requires exists plan :: FoundValid(states, steps, m, id, plan, k)
    ensures at < k < m
  {
    hide Sound;
    if k <= at { StaysKnown(states, steps, id, k, at); }
  }

  /** A layer is new only after a commit of a valid or waiting transaction, and is then the one on top. */
  lemma StackBefore(states: seq<Store>, steps: seq<Step>, n: nat)
    requires Run(states, steps) && 0 < n <= |steps|
    ensures var s, t, step := states[n - 1], states[n], steps[n - 1];
      && (forall i :: 0 <= i < |t.stack| && i < |s.stack| ==> t.stack[i] == s.stack[i])
      && (|t.stack| > |s.stack| ==>
            && step.Commit? && step.id in s.txs && (s.txs[step.id].valid || s.txs[step.id].status == PendingCommit)
            && t.stack == s.stack + [Layer(|s.stack| + 1, step.id, s.txs[step.id].mappings)])
  {
    RunSound(states, steps, n - 1);
    assert Took(states[n - 1], steps[n - 1], states[n]);
  }
}
