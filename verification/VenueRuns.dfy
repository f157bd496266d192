/** Runs of the venue patch store: which layers can still be taken off, and which never will be. */
module VenueRuns {
  import opened Options
  import opened VenuePatch

  ghost predicate Sound(s: Store) { Refines(s.stack, s.active, s.txs) }

  /** The transaction of layer `i` that a rollback would pop it by. */
  ghost predicate Owns(s: Store, id: TxId, i: nat) {
    id in s.txs && s.txs[id].status == Committed && RemembersAt(s.stack, id, s.txs[id], i)
  }

  /** Layer `i` belongs to no committed transaction any more. */
  ghost predicate Stranded(s: Store, i: nat) {
    i < |s.stack| && forall id :: id in s.txs ==> !Owns(s, id, i)
  }

  /** The step validates the very transaction that owns layer `i`. */
  ghost predicate Strands(s: Store, step: Step, i: nat) { step.Validation? && Owns(s, step.id, i) }

  // ---- one step ----

  lemma StepKeepsSound(s: Store, step: Step)
    requires Sound(s) && Enabled(s, step)
    ensures Sound(Take(s, step))
  {
    hide Refines, NextLayer, Top;
    match step {
      case Proposal(id, plan) => UncommittedUpdate(s.stack, s.active, s.txs, id, Fresh(plan));
      case Validation(id, plan) => UncommittedUpdate(s.stack, s.active, s.txs, id, Checked(s.txs[id], plan));
      case Wait(id, boundary) =>
        UncommittedUpdate(s.stack, s.active, s.txs, id, s.txs[id].(commit := Some(boundary), status := PendingCommit));
      case Commit(id, boundary) =>
        var scheduled := s.txs[id].(commit := boundary);
        var txs := s.txs[id := scheduled];
        UncommittedUpdate(s.stack, s.active, s.txs, id, scheduled);
        CommitPushes(s.stack, s.active, txs, id);
        var committed := scheduled.(status := Committed, previousActive := s.active);
        assert txs[id := committed] == s.txs[id := committed];
      case Undo(id) =>
        if s.txs[id].status == PendingCommit {
          UncommittedUpdate(s.stack, s.active, s.txs, id, s.txs[id].(status := RolledBack));
        } else {
          RollbackPops(s.stack, s.active, s.txs, id);
        }
    }
  }

  /** Whatever is not committed afterwards leaves every layer with the owner it had, or with none. */
  lemma UpdateOwners(s: Store, id: TxId, tx: Tx, other: TxId, i: nat)
    requires tx.status != Committed
    ensures Owns(s.(txs := s.txs[id := tx]), other, i) <==> Owns(s, other, i) && other != id
  {
  }

  /** A push gives its layer an owner and leaves the owners below alone. */
  lemma PushOwners(s: Store, id: TxId, boundary: Option<Boundary>, other: TxId, i: nat)
    requires Enabled(s, Commit(id, boundary))
    ensures Owns(Take(s, Commit(id, boundary)), other, i) <==>
            if i == |s.stack| then other == id && s.active == Top(s.stack) else Owns(s, other, i)
  {
    var t := Take(s, Commit(id, boundary));
    assert t.stack[..|s.stack|] == s.stack;
    assert t.stack[|s.stack|].txId == id && t.txs[id].status == Committed;
    assert forall j :: 0 <= j < |s.stack| ==> t.stack[j] == s.stack[j];
    if i < |s.stack| {
      assert t.stack[..i] == s.stack[..i];
      if Owns(s, other, i) { assert RemembersAt(t.stack, other, t.txs[other], i); }
      if Owns(t, other, i) { assert other != id && RemembersAt(s.stack, other, s.txs[other], i); }
    } else if i == |s.stack| && other != id {
      assert !RemembersAt(t.stack, other, t.txs[id], i);
    }
  }

  /** A pop takes off the owned top and leaves the owners below alone. */
  lemma PopOwners(s: Store, id: TxId, other: TxId, i: nat)
    requires Sound(s) && Enabled(s, Undo(id)) && s.txs[id].status == Committed
    ensures s.stack != [] && Owns(s, id, |s.stack| - 1)
    ensures Owns(Take(s, Undo(id)), other, i) <==> Owns(s, other, i) && i < |s.stack| - 1
  {
    var n := |s.stack| - 1;
    var t := Take(s, Undo(id));
    var k: nat :| RemembersAt(s.stack, id, s.txs[id], k);
    assert k == n;
    if i < n { assert t.stack[..i] == s.stack[..i]; }
  }

  /** Every step but a pop of the layer itself keeps it; no step changes a layer that stays. */
  lemma StepKeepsLayers(s: Store, step: Step)
    requires Sound(s) && Enabled(s, step)
    ensures var t := Take(s, step);
      && |s.stack| - 1 <= |t.stack| <= |s.stack| + 1
      && (forall i :: 0 <= i < |s.stack| && i < |t.stack| ==> t.stack[i] == s.stack[i])
      && (|t.stack| < |s.stack| ==> step.Undo? && Owns(s, step.id, |s.stack| - 1))
  {
    if step.Undo? && s.txs[step.id].status == Committed { PopOwners(s, step.id, step.id, 0); }
  }

  /** After a step a layer that stays is stranded exactly when it was, or the step validated the transaction that owned it. */
  lemma StepStrands(s: Store, step: Step, i: nat)
    requires Sound(s) && Enabled(s, step) && i < |s.stack| && i < |Take(s, step).stack|
    ensures Stranded(Take(s, step), i) <==> Stranded(s, i) || Strands(s, step, i)
  {
    hide RemembersAt, Refines;
    var t := Take(s, step);
    forall other: TxId ensures Owns(t, other, i) <==> Owns(s, other, i) && !(step.Validation? && other == step.id) {
      StepOwners(s, step, other, i);
    }
    if Strands(s, step, i) { OneOwner(s, step.id, i); }
  }

  lemma StepOwners(s: Store, step: Step, other: TxId, i: nat)
    requires Sound(s) && Enabled(s, step) && i < |s.stack| && i < |Take(s, step).stack|
    ensures Owns(Take(s, step), other, i) <==> Owns(s, other, i) && !(step.Validation? && other == step.id)
  {
    hide RemembersAt, Refines;
    match step {
      case Proposal(id, plan) => UpdateOwners(s, id, Fresh(plan), other, i);
      case Validation(id, plan) => UpdateOwners(s, id, Checked(s.txs[id], plan), other, i);
      case Wait(id, boundary) =>
        UpdateOwners(s, id, s.txs[id].(commit := Some(boundary), status := PendingCommit), other, i);
      case Commit(id, boundary) => PushOwners(s, id, boundary, other, i);
      case Undo(id) =>
        if s.txs[id].status == PendingCommit {
          UpdateOwners(s, id, s.txs[id].(status := RolledBack), other, i);
        } else {
          PopOwners(s, id, other, i);
        }
    }
  }

  lemma OneOwner(s: Store, id: TxId, i: nat)
    requires Owns(s, id, i)
    ensures forall other :: Owns(s, other, i) ==> other == id
  {
  }

  /** The layer on top can be rolled back exactly when a transaction that can be read owns it; then that pops it alone. */
  lemma TopPoppable(s: Store)
    requires Sound(s) && s.stack != []
    ensures (exists id :: Owns(s, id, |s.stack| - 1) && s.txs[id].readable) <==>
            exists id :: Enabled(s, Undo(id)) && Take(s, Undo(id)).stack == s.stack[..|s.stack| - 1]
  {
    var n := |s.stack| - 1;
    if id :| Owns(s, id, n) && s.txs[id].readable {
      assert Enabled(s, Undo(id)) && Take(s, Undo(id)).stack == s.stack[..n];
    }
    forall id | Enabled(s, Undo(id)) && Take(s, Undo(id)).stack == s.stack[..n]
      ensures Owns(s, id, n) && s.txs[id].readable
    {
      assert |s.stack[..n]| != |s.stack|;
      PopOwners(s, id, id, 0);
    }
  }

  // ---- whole runs ----

  ghost predicate Run(states: seq<Store>, steps: seq<Step>) {
    && |states| == |steps| + 1 && Sound(states[0])
    && forall k :: 0 <= k < |steps| ==> Took(states[k], steps[k], states[k + 1])
  }

  lemma {:induction false} RunSound(states: seq<Store>, steps: seq<Step>, n: nat)
    requires Run(states, steps) && n <= |steps|
    ensures Sound(states[n])
  {
    hide Refines, Take, Enabled;
    if n > 0 {
      RunSound(states, steps, n - 1);
      assert Took(states[n - 1], steps[n - 1], states[n]);
      StepKeepsSound(states[n - 1], steps[n - 1]);
    }
  }

  /** Layer `i` is in the stack all the way from `m` to `n`. */
  ghost predicate Stays(states: seq<Store>, i: nat, m: nat, n: nat)
    requires m <= n < |states|
  {
    forall k :: m <= k <= n ==> i < |states[k].stack|
  }

  /** Some step from `m` up to `n` validated the transaction that owned layer `i`. */
  ghost predicate ValidatedWithin(states: seq<Store>, steps: seq<Step>, i: nat, m: nat, n: nat)
    requires m <= n <= |steps| <= |states|
  {
    exists k :: m <= k < n && Strands(states[k], steps[k], i)
  }

  /**
   * Over any run a layer that stays is stranded at its end exactly when it was at its start, or its transaction
   * was validated while it owned the layer.
   */
  lemma {:induction false} StrandedWhenValidated(states: seq<Store>, steps: seq<Step>, i: nat, m: nat, n: nat)
    requires Run(states, steps) && m <= n <= |steps| && Stays(states, i, m, n)
    ensures Stranded(states[n], i) <==> Stranded(states[m], i) || ValidatedWithin(states, steps, i, m, n)
    ensures states[n].stack[i] == states[m].stack[i]
  {
    hide Stranded, Strands, Sound, Enabled, Take;
    if m < n {
      StrandedWhenValidated(states, steps, i, m, n - 1);
      RunSound(states, steps, n - 1);
      assert Took(states[n - 1], steps[n - 1], states[n]);
      assert i < |states[n - 1].stack| && i < |states[n].stack|;
      StepStrands(states[n - 1], steps[n - 1], i);
      StepKeepsLayers(states[n - 1], steps[n - 1]);
    }
  }

  /** A stranded layer, and every layer below it, is there for good: no later rollback reaches any of them. */
  lemma {:induction false} StrandedForGood(states: seq<Store>, steps: seq<Step>, i: nat, m: nat, n: nat)
    requires Run(states, steps) && m <= n <= |steps| && Stranded(states[m], i)
    ensures Stranded(states[n], i) && states[m].stack[..i + 1] <= states[n].stack
  {
    hide Sound, Enabled, Take, Strands, Owns;
    if m < n {
      StrandedForGood(states, steps, i, m, n - 1);
      RunSound(states, steps, n - 1);
      assert Took(states[n - 1], steps[n - 1], states[n]);
      StepKeepsLayers(states[n - 1], steps[n - 1]);
      StepStrands(states[n - 1], steps[n - 1], i);
      assert states[n].stack[..i + 1] == states[n - 1].stack[..i + 1];
    }
  }

  /** Some step after `m` and before `n` validates transaction `id`. */
  ghost predicate ValidatedSince(steps: seq<Step>, id: TxId, m: nat, n: nat) {
    exists k :: m < k < n <= |steps| && steps[k].Validation? && steps[k].id == id
  }

  /** From its commit on, a transaction owns its layer until it is validated; from then on nobody does. */
  lemma {:induction false} OwnedUntilValidated(states: seq<Store>, steps: seq<Step>, m: nat, n: nat)
    requires Run(states, steps) && m < n <= |steps| && steps[m].Commit?
    requires Stays(states, |states[m].stack|, m + 1, n)
    ensures if ValidatedSince(steps, steps[m].id, m, n) then Stranded(states[n], |states[m].stack|)
            else Owns(states[n], steps[m].id, |states[m].stack|)
  {
    hide RemembersAt, Refines, Enabled, Take;
    var id, i := steps[m].id, |states[m].stack|;
    RunSound(states, steps, n - 1);
    assert Took(states[n - 1], steps[n - 1], states[n]);
    if n == m + 1 {
      CommittedIsOwned(states[m], steps[m], states[n]);
    } else {
      OwnedUntilValidated(states, steps, m, n - 1);
      assert i < |states[n - 1].stack| && i < |states[n].stack|;
      StepStrands(states[n - 1], steps[n - 1], i);
      StepOwners(states[n - 1], steps[n - 1], id, i);
    }
  }

  /** No step changes who can read a transaction. */
  lemma {:induction false} ReadableStays(states: seq<Store>, steps: seq<Step>, id: TxId, m: nat, n: nat)
    requires Run(states, steps) && m <= n <= |steps| && id in states[m].txs
    ensures id in states[n].txs && states[n].txs[id].readable == states[m].txs[id].readable
  {
    if m < n {
      ReadableStays(states, steps, id, m, n - 1);
      assert Took(states[n - 1], steps[n - 1], states[n]);
    }
  }

  /**
   * A layer that has stayed since its commit at step `m`, and is on top at `n`, can be rolled back exactly
   * when its transaction can be read and was not validated in between.
   */
  lemma RollbackReaches(states: seq<Store>, steps: seq<Step>, m: nat, n: nat)
    requires Run(states, steps) && m < n <= |steps| && steps[m].Commit?
    requires Stays(states, |states[m].stack|, m + 1, n) && |states[n].stack| == |states[m].stack| + 1
    ensures steps[m].id in states[m].txs
    ensures (exists id :: Enabled(states[n], Undo(id)) && Take(states[n], Undo(id)).stack == states[n].stack[..|states[m].stack|])
       <==> states[m].txs[steps[m].id].readable && !ValidatedSince(steps, steps[m].id, m, n)
  {
    hide Take, RemembersAt, Sound, CanRollBack;
    assert Took(states[m], steps[m], states[m + 1]);
    RunSound(states, steps, n);
    OwnedUntilValidated(states, steps, m, n);
    ReadableStays(states, steps, steps[m].id, m, n);
    TopPoppable(states[n]);
    if !ValidatedSince(steps, steps[m].id, m, n) { OneOwner(states[n], steps[m].id, |states[m].stack|); }
  }

  lemma CommittedIsOwned(s: Store, step: Step, t: Store)
    requires Sound(s) && step.Commit? && Took(s, step, t)
    ensures |t.stack| == |s.stack| + 1 && Owns(t, step.id, |s.stack|)
  {
    PushOwners(s, step.id, step.at, step.id, |s.stack|);
  }
}
