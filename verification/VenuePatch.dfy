/** Venue patch transactions: proposed, validated, scheduled, committed and rolled back over one active layer. */
module VenuePatch {
  import opened Numbers
  import opened Options

  type TxId = nat

  // The plan facts validation compares: fingerprints, blockers, and readiness.
  datatype Plan = Plan(requirementsHash: nat, planHash: nat, blocked: bool, compatible: bool, ready: bool, mappings: nat)

  datatype Boundary = Immediate | NextBar(target: real) | Cue(cueId: string)

  datatype CommitMode = ImmediateMode | NextBarMode | CueMode | UnknownMode

  // A patch layer; its mappings and venue are one opaque token.
  datatype Layer = Layer(patchRevision: nat, txId: TxId, mappings: nat)

  datatype Status = Proposed | Validated | PendingCommit | Committed | RolledBack

  // A transaction; one that a newer version of the program wrote may not be `readable`.
  datatype Tx = Tx(status: Status, requirementsHash: nat, planHash: nat, mappings: nat, valid: bool,
                   commit: Option<Boundary>, previousActive: Option<Layer>, readable: bool)

  datatype Error =
    | RevisionConflict | UnknownTransaction | UnsupportedReader | UnsupportedMode | NotValidated | OtherPending | CueRequired
    | NotRollbackable | NotActiveLayer | DuplicateTransaction

  datatype Result<+T> = Ok(value: T) | Err(error: Error)

  // Nine decimal digits of slack when choosing the next bar.
  const BAR_EPSILON := 0.000000001

  function BarSeconds(bpm: real): real { 240.0 / (if bpm < 1.0 then 1.0 else bpm) }

  function Bars(count: int, bar: real): real { Times(count as real, bar) }

  /** The next bar boundary strictly after `showSeconds`. */
  function BarAhead(showSeconds: real, bpm: real): real {
    var bar := BarSeconds(bpm);
    var current := if showSeconds < 0.0 then 0.0 else showSeconds;
    var target := Bars((current / bar + 1.0).Floor, bar);
    if target <= current + BAR_EPSILON then target + bar else target
  }

  /** The nearest integer; of two equally near, the even one. */
  function Nearest(x: real): int {
    var n := x.Floor;
    var part := x - n as real;
    if part < 0.5 || (part == 0.5 && n % 2 == 0) then n else n + 1
  }

  function RoundNine(x: real): real { Nearest(x / BAR_EPSILON) as real * BAR_EPSILON }

  function NextBarTarget(showSeconds: real, bpm: real): real { RoundNine(BarAhead(showSeconds, bpm)) }

  /** The boundary a commit waits for is a whole number of bars, strictly ahead, and at most one bar and the slack away. */
  lemma BarIsAhead(showSeconds: real, bpm: real) returns (bars: int)
    ensures var target := BarAhead(showSeconds, bpm);
      var current := if showSeconds < 0.0 then 0.0 else showSeconds;
      && target == bars as real * BarSeconds(bpm) && bars >= 1
      && current < target <= current + BarSeconds(bpm) + BAR_EPSILON
      && (target > current + BAR_EPSILON || target > current + BarSeconds(bpm))
  {
    hide BarSeconds, Bars;
    BarPositive(bpm);
    var bar := BarSeconds(bpm);
    var current := if showSeconds < 0.0 then 0.0 else showSeconds;
    var quotient := current / bar;
    DivideBack(current, bar);
    var n := (quotient + 1.0).Floor;
    BarsBracket(quotient, n, bar, current);
    bars := if Bars(n, bar) <= current + BAR_EPSILON then n + 1 else n;
    BarsIs(bars, bar);
  }

  /** No multiple of the digit is nearer than the rounded value, and one of two equally near is an even one. */
  lemma RoundedNear(x: real)
    ensures x - BAR_EPSILON / 2.0 <= RoundNine(x) <= x + BAR_EPSILON / 2.0
    ensures RoundNine(x) == x - BAR_EPSILON / 2.0 || RoundNine(x) == x + BAR_EPSILON / 2.0 ==> Nearest(x / BAR_EPSILON) % 2 == 0
  {
  }

  /** Four beats make a bar, and a tempo below one beat a minute counts as one. */
  lemma BarOfFour(bpm: real)
    ensures bpm >= 1.0 ==> Times(BarSeconds(bpm), bpm / 4.0) == 60.0
    ensures bpm <= 1.0 ==> BarSeconds(bpm) == 240.0
  {
    if bpm >= 1.0 {
      TimesQuotient(240.0, bpm);
      QuarterOf(BarSeconds(bpm), bpm);
    }
  }

  lemma QuarterOf(x: real, k: real)
    ensures Times(x, k / 4.0) == Times(x, k) / 4.0
  {
  }

  /**
   * Rounded to nine digits, the time is within half a digit of that boundary, and still ahead when a bar is half a
   * digit or longer.
   */
  lemma NextBarIsAhead(showSeconds: real, bpm: real) returns (bars: int)
    ensures var target, bar := NextBarTarget(showSeconds, bpm), BarSeconds(bpm);
      var current := if showSeconds < 0.0 then 0.0 else showSeconds;
      && bars >= 1 && current < bars as real * bar <= current + bar + BAR_EPSILON
      && bars as real * bar - BAR_EPSILON / 2.0 <= target <= bars as real * bar + BAR_EPSILON / 2.0
      && (bar >= BAR_EPSILON / 2.0 ==> current < target)
  {
    hide BarAhead, BarSeconds, RoundNine;
    bars := BarIsAhead(showSeconds, bpm);
    RoundedNear(BarAhead(showSeconds, bpm));
  }

  /** With shorter bars it need not be: the next bar at the start of a show can be rounded to the start. */
  lemma ShortBarIsNow()
    ensures NextBarTarget(0.0, 1000000000000.0) == 0.0
  {
    var bar := BarSeconds(1000000000000.0);
    assert bar == 0.00000000024;
    assert (0.0 / bar + 1.0).Floor == 1 && Bars(1, bar) == bar;
  }

  lemma BarsIs(count: int, bar: real)
    ensures Bars(count, bar) == count as real * bar
  {
  }

  lemma BarsBracket(quotient: real, n: int, bar: real, current: real)
    requires bar > 0.0 && quotient < n as real <= quotient + 1.0 && Times(quotient, bar) == current
    ensures current < Bars(n, bar) <= current + bar && Bars(n + 1, bar) == Bars(n, bar) + bar
  {
    hide Times;
    TimesOrder(quotient, n as real, bar);
    TimesOrder(n as real, quotient + 1.0, bar);
    TimesNext(quotient, bar);
    TimesNext(n as real, bar);
    assert (n + 1) as real == n as real + 1.0;
  }

  lemma DivideBack(x: real, k: real)
    requires k > 0.0 && x >= 0.0
    ensures Times(x / k, k) == x && x / k >= 0.0
    ensures x > 0.0 ==> x / k > 0.0
  {
    hide Times;
    TimesQuotient(x, k);
    TimesUnits(k);
    if x / k < 0.0 { TimesOrder(x / k, 0.0, k); }
  }

  lemma BarPositive(bpm: real)
    ensures 0.0 < BarSeconds(bpm) <= 240.0
  {
    hide Times;
    var d := if bpm < 1.0 then 1.0 else bpm;
    var bar := 240.0 / d;
    DivideBack(240.0, d);
    TimesOrder(1.0, d, bar);
    TimesUnits(bar);
    TimesSwapped(bar, d);
  }

  // ---- the store as a stack ----

  function Top(stack: seq<Layer>): Option<Layer> { if stack == [] then None else Some(stack[|stack| - 1]) }

  /** The last layer of transaction `id` is at `i`, and the transaction remembers the layer below it. */
  ghost predicate RemembersAt(stack: seq<Layer>, id: TxId, tx: Tx, i: nat) {
    && i < |stack| && stack[i].txId == id
    && (forall j :: i < j < |stack| ==> stack[j].txId != id)
    && tx.previousActive == Top(stack[..i])
  }

  /** The active layer and the copies scattered over the transactions stand for `stack`. */
  ghost predicate Refines(stack: seq<Layer>, active: Option<Layer>, txs: map<TxId, Tx>) {
    && active == Top(stack)
    && (forall i :: 0 <= i < |stack| ==> stack[i].patchRevision == i + 1 && stack[i].txId in txs)
    && (forall id :: id in txs && txs[id].status == Committed ==> exists i: nat :: RemembersAt(stack, id, txs[id], i))
  }

  /** At most one transaction waits for its boundary, and it knows which boundary. */
  ghost predicate OnePending(txs: map<TxId, Tx>) {
    && (forall a, b :: a in txs && b in txs && txs[a].status == PendingCommit && txs[b].status == PendingCommit ==> a == b)
    && (forall id :: id in txs && txs[id].status == PendingCommit ==> txs[id].commit.Some? && !txs[id].commit.value.Immediate?)
  }

  /** Changing a transaction to anything but committed leaves the stack alone. */
  lemma UncommittedUpdate(stack: seq<Layer>, active: Option<Layer>, txs: map<TxId, Tx>, id: TxId, tx: Tx)
    requires Refines(stack, active, txs) && tx.status != Committed
    ensures Refines(stack, active, txs[id := tx])
  {
    var after := txs[id := tx];
    forall other | other in after && after[other].status == Committed
      ensures exists i: nat :: RemembersAt(stack, other, after[other], i)
    {
      assert other != id && txs[other].status == Committed;
    }
  }

  /** A transaction that stops waiting, or never waited, leaves at most one that does. */
  lemma NotPendingUpdate(txs: map<TxId, Tx>, id: TxId, tx: Tx)
    requires OnePending(txs) && tx.status != PendingCommit
    ensures OnePending(txs[id := tx])
  {
  }

  /** With no other waiting, one transaction may start to wait for a bar or a cue. */
  lemma ScheduledUpdate(txs: map<TxId, Tx>, id: TxId, tx: Tx)
    requires OnePending(txs) && forall other :: other in txs && txs[other].status == PendingCommit ==> other == id
    requires tx.status == PendingCommit ==> tx.commit.Some? && !tx.commit.value.Immediate?
    ensures OnePending(txs[id := tx])
  {
  }

  function NextLayer(active: Option<Layer>, id: TxId, mappings: nat): Layer {
    Layer((if active.Some? then active.value.patchRevision else 0) + 1, id, mappings)
  }

  /** Committing pushes one layer, whatever layers the same transaction put there before. */
  lemma CommitPushes(stack: seq<Layer>, active: Option<Layer>, txs: map<TxId, Tx>, id: TxId)
    requires Refines(stack, active, txs) && id in txs
    ensures var layer := NextLayer(active, id, txs[id].mappings);
      Refines(stack + [layer], Some(layer), txs[id := txs[id].(status := Committed, previousActive := active)])
  {
    var layer := NextLayer(active, id, txs[id].mappings);
    var next, after := stack + [layer], txs[id := txs[id].(status := Committed, previousActive := active)];
    assert next[..|stack|] == stack;
    forall other | other in after && after[other].status == Committed
      ensures exists i: nat :: RemembersAt(next, other, after[other], i)
    {
      if other == id {
        assert RemembersAt(next, id, after[id], |stack|);
      } else {
        var i: nat :| RemembersAt(stack, other, txs[other], i);
        assert next[..i] == stack[..i];
        assert RemembersAt(next, other, after[other], i);
      }
    }
  }

  /** Rolling back the committed active transaction pops exactly its layer and exposes the one below. */
  lemma RollbackPops(stack: seq<Layer>, active: Option<Layer>, txs: map<TxId, Tx>, id: TxId)
    requires Refines(stack, active, txs) && id in txs && txs[id].status == Committed
    requires active.Some? && active.value.txId == id
    ensures stack != [] && txs[id].previousActive == Top(stack[..|stack| - 1])
    ensures Refines(stack[..|stack| - 1], txs[id].previousActive, txs[id := txs[id].(status := RolledBack)])
  {
    var n := |stack| - 1;
    var at: nat :| RemembersAt(stack, id, txs[id], at);
    assert at == n;
    var below, after := stack[..n], txs[id := txs[id].(status := RolledBack)];
    forall other | other in after && after[other].status == Committed
      ensures exists i: nat :: RemembersAt(below, other, after[other], i)
    {
      var i: nat :| RemembersAt(stack, other, txs[other], i);
      assert i < n && below[..i] == stack[..i];
      assert RemembersAt(below, other, after[other], i);
    }
  }

  /** The transaction after a validation against the current plan. */
  function Checked(tx: Tx, plan: Plan): Tx {
    var valid := tx.status != Committed && tx.status != RolledBack
      && plan.requirementsHash == tx.requirementsHash && plan.planHash == tx.planHash
      && !plan.blocked && plan.compatible && plan.ready;
    tx.(valid := valid, status := if valid then Validated else Proposed)
  }

  /** A pending commit can always be cancelled; a committed one must own the active layer. */
  predicate CanRollBack(tx: Tx, active: Option<Layer>, id: TxId) {
    tx.readable && (tx.status == PendingCommit || (tx.status == Committed && active.Some? && active.value.txId == id))
  }

  predicate DueAt(tx: Tx, showSeconds: real) {
    tx.status == PendingCommit && tx.commit.Some? && tx.commit.value.NextBar?
    && tx.commit.value.target != 0.0 && tx.commit.value.target <= showSeconds
  }

  predicate DueOn(tx: Tx, cueId: string) {
    tx.status == PendingCommit && tx.commit == Some(Cue(cueId))
  }

  // ---- the manager as steps ----

  // The layers under and including the active one, and the transactions.
  datatype Store = Store(stack: seq<Layer>, active: Option<Layer>, txs: map<TxId, Tx>)

  datatype Step =
    | Proposal(id: TxId, plan: Plan)                    // a new transaction
    | Validation(id: TxId, plan: Plan)                  // checked against the current plan
    | Wait(id: TxId, boundary: Boundary)                // scheduled for a bar or a cue
    | Commit(id: TxId, at: Option<Boundary>)            // made the active layer
    | Undo(id: TxId)                                    // cancelled, or rolled back

  predicate Enabled(s: Store, step: Step) {
    match step
    case Proposal(id, _) => id !in s.txs
    case Validation(id, _) => id in s.txs && s.txs[id].readable
    case Wait(id, _) => id in s.txs && s.txs[id].readable && s.txs[id].valid && s.txs[id].status != Committed
    case Commit(id, _) => id in s.txs && s.txs[id].status != Committed && (s.txs[id].valid || s.txs[id].status == PendingCommit)
    case Undo(id) => id in s.txs && CanRollBack(s.txs[id], s.active, id)
  }

  function Fresh(plan: Plan): Tx { Tx(Proposed, plan.requirementsHash, plan.planHash, plan.mappings, false, None, None, true) }

  function Take(s: Store, step: Step): Store
    requires Enabled(s, step)
  {
    match step
    case Proposal(id, plan) => s.(txs := s.txs[id := Fresh(plan)])
    case Validation(id, plan) => s.(txs := s.txs[id := Checked(s.txs[id], plan)])
    case Wait(id, boundary) => s.(txs := s.txs[id := s.txs[id].(commit := Some(boundary), status := PendingCommit)])
    case Commit(id, boundary) =>
      var layer := NextLayer(s.active, id, s.txs[id].mappings);
      Store(s.stack + [layer], Some(layer),
            s.txs[id := s.txs[id].(commit := boundary, status := Committed, previousActive := s.active)])
    case Undo(id) =>
      var txs := s.txs[id := s.txs[id].(status := RolledBack)];
      if s.txs[id].status == PendingCommit then s.(txs := txs)
      else Store(if s.stack == [] then [] else s.stack[..|s.stack| - 1], s.txs[id].previousActive, txs)
  }

  ghost predicate Took(s: Store, step: Step, t: Store) { Enabled(s, step) && t == Take(s, step) }

  // Something that may make a waiting commit due: the show clock is read, or a cue is called.
  datatype Moment = At(showSeconds: real) | Called(cueId: string)

  predicate DueWhen(tx: Tx, moment: Moment) {
    match moment
    case At(showSeconds) => DueAt(tx, showSeconds)
    case Called(cueId) => DueOn(tx, cueId)
  }

  /** From `s` to `t`: whatever is due at the moment is committed, and nothing else happens. */
  ghost predicate Passes(s: Store, moment: Moment, t: Store) {
    && ((forall id :: id in s.txs ==> !DueWhen(s.txs[id], moment)) ==> t == s)
    && (forall id :: id in s.txs && DueWhen(s.txs[id], moment) ==> Took(s, Commit(id, s.txs[id].commit), t))
  }

  class VenueAdaptationManager {
    var revision: nat
    var active: Option<Layer>
    var transactions: map<TxId, Tx>
    var cueSequence: nat
    var lastCue: Option<string>
    ghost var stack: seq<Layer>

    ghost predicate Valid() reads this {
      Refines(stack, active, transactions) && OnePending(transactions)
    }

    ghost function Contents(): Store reads this { Store(stack, active, transactions) }

    constructor ()
      ensures Valid() && stack == [] && transactions == map[] && revision == 1 && cueSequence == 0
    {
      revision, active, transactions, cueSequence, lastCue, stack := 1, None, map[], 0, None, [];
    }

    /** The state a file holds: any store that stands for a stack, whoever wrote its transactions. */
    constructor Load(revision: int, store: Store, cueSequence: int, lastCue: Option<string>)
      requires Refines(store.stack, store.active, store.txs) && OnePending(store.txs)
      ensures Valid() && Contents() == store
      ensures this.revision == Max(1, revision) && this.cueSequence == Max(0, cueSequence) && this.lastCue == lastCue
    {
      this.revision, this.cueSequence, this.lastCue := Max(1, revision), Max(0, cueSequence), lastCue;
      active, transactions, stack := store.active, store.txs, store.stack;
    }

    /** `txId` is the generated identifier, so it is new. */
    method Propose(txId: TxId, plan: Plan, expected: Option<int>) returns (r: Result<()>)
      requires Valid() && txId !in transactions
      modifies this
      ensures Valid() && stack == old(stack) && active == old(active)
      ensures r.Ok? <==> (expected.None? || expected.value == old(revision))
      ensures if r.Ok? then revision == old(revision) + 1
                && transactions == old(transactions)[
                     txId := Tx(Proposed, plan.requirementsHash, plan.planHash, plan.mappings, false, None, None, true)]
                && Took(old(Contents()), Proposal(txId, plan), Contents())
              else revision == old(revision) && transactions == old(transactions)
    {
      if expected.Some? && expected.value != revision {
        return Err(RevisionConflict);
      }
      var tx := Tx(Proposed, plan.requirementsHash, plan.planHash, plan.mappings, false, None, None, true);
      UncommittedUpdate(stack, active, transactions, txId, tx);
      transactions := transactions[txId := tx];
      revision := revision + 1;
      return Ok(());
    }

    method Validate(id: TxId, plan: Plan, expected: Option<int>) returns (r: Result<bool>)
      requires Valid()
      modifies this
      ensures Valid() && stack == old(stack) && active == old(active)
      ensures r.Ok? <==> (expected.None? || expected.value == old(revision)) && id in old(transactions) && old(transactions)[id].readable
      ensures if r.Ok? then revision == old(revision) + 1
                && transactions == old(transactions)[id := Checked(old(transactions)[id], plan)] && r.value == transactions[id].valid
                && Took(old(Contents()), Validation(id, plan), Contents())
              else revision == old(revision) && transactions == old(transactions)
    {
      if expected.Some? && expected.value != revision {
        return Err(RevisionConflict);
      }
      if id !in transactions {
        return Err(UnknownTransaction);
      }
      var tx := transactions[id];
      if !tx.readable {
        return Err(UnsupportedReader);
      }
      var closed := tx.status == Committed || tx.status == RolledBack;
      var changed := plan.requirementsHash != tx.requirementsHash || plan.planHash != tx.planHash;
      var valid := !closed && !changed && !plan.blocked && plan.compatible && plan.ready;
      var checked := tx.(valid := valid, status := if valid then Validated else Proposed);
      UncommittedUpdate(stack, active, transactions, id, checked);
      transactions := transactions[id := checked];
      revision := revision + 1;
      return Ok(valid);
    }

    /** Makes the transaction's mappings the active layer and keeps the one before it with the transaction. */
    method CommitLocked(id: TxId)
      requires Valid() && id in transactions
      modifies this`revision, this`active, this`transactions, this`stack
      ensures Valid()
      ensures stack == old(stack) + [NextLayer(old(active), id, old(transactions)[id].mappings)]
      ensures active == Top(stack) && active.value.patchRevision == |stack|
      ensures transactions == old(transactions)[id := old(transactions)[id].(status := Committed, previousActive := old(active))]
      ensures revision == old(revision) + 1
    {
      var tx := transactions[id];
      var previous := active;
      CommitPushes(stack, active, transactions, id);
      var layer := Layer((if previous.Some? then previous.value.patchRevision else 0) + 1, id, tx.mappings);
      active := Some(layer);
      transactions := transactions[id := tx.(status := Committed, previousActive := previous)];
      revision := revision + 1;
      stack := stack + [layer];
    }

    method ScheduleCommit(id: TxId, mode: CommitMode, showSeconds: real, bpm: real, cueId: string, expected: Option<int>)
      returns (r: Result<()>)
      requires Valid()
      modifies this`revision, this`active, this`transactions, this`stack
      ensures Valid()
      ensures r.Ok? <==>
        && mode != UnknownMode && (expected.None? || expected.value == old(revision))
        && id in old(transactions) && old(transactions)[id].readable && old(transactions)[id].valid
        && (old(transactions)[id].status == Committed
            || ((forall other :: other in old(transactions) && old(transactions)[other].status == PendingCommit ==> other == id)
                && (mode == CueMode ==> cueId != "")))
      ensures r.Err? || old(transactions)[id].status == Committed ==>
        stack == old(stack) && active == old(active) && transactions == old(transactions) && revision == old(revision)
      ensures r.Ok? && old(transactions)[id].status != Committed ==>
        if mode == ImmediateMode then
          stack == old(stack) + [NextLayer(old(active), id, old(transactions)[id].mappings)]
          && transactions == old(transactions)[id :=
               old(transactions)[id].(commit := Some(Immediate), status := Committed, previousActive := old(active))]
          && Took(old(Contents()), Commit(id, Some(Immediate)), Contents())
        else
          stack == old(stack) && active == old(active)
          && transactions == old(transactions)[id := old(transactions)[id].(status := PendingCommit,
               commit := Some(if mode == NextBarMode then NextBar(NextBarTarget(showSeconds, bpm)) else Cue(cueId)))]
          && Took(old(Contents()),
                  Wait(id, if mode == NextBarMode then NextBar(NextBarTarget(showSeconds, bpm)) else Cue(cueId)), Contents())
    {
      hide Refines, OnePending, NextBarTarget, BarAhead;
      if mode == UnknownMode {
        return Err(UnsupportedMode);
      }
      if expected.Some? && expected.value != revision {
        return Err(RevisionConflict);
      }
      if id !in transactions {
        return Err(UnknownTransaction);
      }
      var tx := transactions[id];
      if !tx.readable {
        return Err(UnsupportedReader);
      }
      if !tx.valid {
        return Err(NotValidated);
      }
      if tx.status == Committed {
        return Ok(());
      }
      if exists other :: other in transactions && transactions[other].status == PendingCommit && other != id {
        return Err(OtherPending);
      }
      if mode == CueMode && cueId == "" {
        return Err(CueRequired);
      }
      var boundary := match mode
        case NextBarMode => NextBar(NextBarTarget(showSeconds, bpm))
        case CueMode => Cue(cueId)
        case _ => Immediate;
      var scheduled := tx.(commit := Some(boundary), status := if mode == ImmediateMode then Validated else PendingCommit);
      UncommittedUpdate(stack, active, transactions, id, scheduled);
      ScheduledUpdate(transactions, id, scheduled);
      transactions := transactions[id := scheduled];
      revision := revision + 1;
      if mode == ImmediateMode {
        CommitLocked(id);
      }
      return Ok(());
    }

    /** Commits every due transaction; there is never more than one. */
    method CommitAll(due: set<TxId>) returns (committed: seq<TxId>)
      requires Valid() && forall id :: id in due ==> id in transactions && transactions[id].status == PendingCommit
      modifies this`revision, this`active, this`transactions, this`stack
      ensures Valid() && |due| <= 1
      ensures due == {} ==> committed == [] && stack == old(stack) && transactions == old(transactions) && revision == old(revision)
      ensures due == {} ==> active == old(active)
      ensures forall id :: id in due ==>
        && committed == [id] && revision == old(revision) + 1
        && stack == old(stack) + [NextLayer(old(active), id, old(transactions)[id].mappings)]
        && transactions == old(transactions)[id := old(transactions)[id].(status := Committed, previousActive := old(active))]
        && Took(old(Contents()), Commit(id, old(transactions)[id].commit), Contents())
    {
      hide Refines;
      committed := [];
      if id :| id in due {
        assert due == {id};
        CommitLocked(id);
        committed := [id];
      }
    }

    method Tick(showSeconds: real) returns (committed: seq<TxId>)
      requires Valid()
      modifies this`revision, this`active, this`transactions, this`stack
      ensures Valid() && Passes(old(Contents()), At(showSeconds), Contents())
      ensures (forall id :: id in old(transactions) ==> !DueAt(old(transactions)[id], showSeconds)) ==>
        committed == [] && stack == old(stack) && transactions == old(transactions) && revision == old(revision)
      ensures forall id :: id in old(transactions) && DueAt(old(transactions)[id], showSeconds) ==>
        && committed == [id] && revision == old(revision) + 1
        && stack == old(stack) + [NextLayer(old(active), id, old(transactions)[id].mappings)]
        && transactions == old(transactions)[id := old(transactions)[id].(status := Committed, previousActive := old(active))]
        && Took(old(Contents()), Commit(id, old(transactions)[id].commit), Contents())
    {
      committed := CommitAll(set id | id in transactions && DueAt(transactions[id], showSeconds));
    }

    method TriggerCue(cueId: string, expected: Option<int>) returns (r: Result<seq<TxId>>)
      requires Valid()
      modifies this
      ensures Valid()
      ensures r.Ok? <==> cueId != "" && (expected.None? || expected.value == old(revision))
      ensures r.Err? ==>
        && stack == old(stack) && transactions == old(transactions) && revision == old(revision)
        && cueSequence == old(cueSequence)
      ensures r.Ok? ==> Passes(old(Contents()), Called(cueId), Contents())
      ensures r.Ok? ==> cueSequence == old(cueSequence) + 1 && lastCue == Some(cueId) && revision == old(revision) + 1
      ensures r.Ok? && (forall id :: id in old(transactions) ==> !DueOn(old(transactions)[id], cueId)) ==>
        r.value == [] && stack == old(stack) && transactions == old(transactions)
      ensures r.Ok? ==> forall id :: id in old(transactions) && DueOn(old(transactions)[id], cueId) ==>
        && r.value == [id]
        && stack == old(stack) + [NextLayer(old(active), id, old(transactions)[id].mappings)]
        && transactions == old(transactions)[id := old(transactions)[id].(status := Committed, previousActive := old(active))]
        && Took(old(Contents()), Commit(id, old(transactions)[id].commit), Contents())
    {
      if cueId == "" {
        return Err(CueRequired);
      }
      if expected.Some? && expected.value != revision {
        return Err(RevisionConflict);
      }
      cueSequence := cueSequence + 1;
      lastCue := Some(cueId);
      var due := set id | id in transactions && DueOn(transactions[id], cueId);
      var committed := CommitAll(due);
      if due == {} {
        revision := revision + 1;
      }
      return Ok(committed);
    }

    /** Cancels a pending commit, or pops the active layer of a committed transaction. */
    method Rollback(id: TxId, expected: Option<int>) returns (r: Result<()>)
      requires Valid()
      modifies this`revision, this`active, this`transactions, this`stack
      ensures Valid()
      ensures r.Ok? <==>
        && (expected.None? || expected.value == old(revision))
        && id in old(transactions) && CanRollBack(old(transactions)[id], old(active), id)
      ensures r.Err? ==> stack == old(stack) && active == old(active) && transactions == old(transactions) && revision == old(revision)
      ensures r.Ok? ==> revision == old(revision) + 1
      ensures r.Ok? ==> transactions == old(transactions)[id := old(transactions)[id].(status := RolledBack)]
      ensures r.Ok? ==>
        if old(transactions)[id].status == PendingCommit then stack == old(stack) && active == old(active)
        else old(stack) != [] && stack == old(stack)[..|old(stack)| - 1] && active == Top(stack)
      ensures r.Ok? ==> Took(old(Contents()), Undo(id), Contents())
    {
      hide Refines, OnePending, Top;
      if expected.Some? && expected.value != revision {
        return Err(RevisionConflict);
      }
      if id !in transactions {
        return Err(UnknownTransaction);
      }
      var tx := transactions[id];
      if !tx.readable {
        return Err(UnsupportedReader);
      }
      NotPendingUpdate(transactions, id, tx.(status := RolledBack));
      if tx.status == PendingCommit {
        UncommittedUpdate(stack, active, transactions, id, tx.(status := RolledBack));
        transactions := transactions[id := tx.(status := RolledBack)];
        revision := revision + 1;
        return Ok(());
      }
      if tx.status != Committed {
        return Err(NotRollbackable);
      }
      if active.None? || active.value.txId != id {
        return Err(NotActiveLayer);
      }
      RollbackPops(stack, active, transactions, id);
      active := tx.previousActive;
      transactions := transactions[id := tx.(status := RolledBack)];
      revision := revision + 1;
      stack := stack[..|stack| - 1];
      return Ok(());
    }
  }
}
