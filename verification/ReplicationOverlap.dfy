/** Deliveries that overlap: the check of an envelope and its mark are two steps, and others may come between. */
module ReplicationOverlap {
  import opened Options
  import opened Replication

  // A change of the node itself, the check of an envelope, or the mark of one whose check it passed.
  datatype Event = Local(action: Action) | Check(stamp: Stamp) | Mark(stamp: Stamp)

  // The tracker, and the envelopes that passed their check and are not marked yet.
  datatype Node = Node(tracker: Tracker, passed: multiset<Stamp>)

  predicate Enabled(n: Node, e: Event) {
    match e
    case Local(a) => !a.Deliver?
    case Check(_) => true
    case Mark(m) => m in n.passed
  }

  function Next(n: Node, e: Event): Node {
    match e
    case Local(a) => n.(tracker := Step(n.tracker, a))
    case Check(m) => if Decide(n.tracker, m) == Apply then n.(passed := n.passed + multiset{m}) else n
    case Mark(m) => Node(Marked(n.tracker, m), n.passed - multiset{m})
  }

  predicate Initial(t: Tracker) {
    && t.epoch == 1 && t.exportSequence == 0
    && t.source == None && t.appliedEpoch == 0 && t.appliedSequence == 0 && t.appliedRevision == 0
  }

  ghost predicate Run(nodes: seq<Node>, events: seq<Event>) {
    && |nodes| == |events| + 1 && Initial(nodes[0].tracker) && nodes[0].passed == multiset{}
    && forall i :: 0 <= i < |events| ==> Enabled(nodes[i], events[i]) && nodes[i + 1] == Next(nodes[i], events[i])
  }

  predicate Passes(n: Node, e: Event) { e.Check? && Decide(n.tracker, e.stamp) == Apply }

  predicate SameApplied(a: Tracker, b: Tracker) {
    && a.source == b.source && a.appliedEpoch == b.appliedEpoch
    && a.appliedSequence == b.appliedSequence && a.appliedRevision == b.appliedRevision
  }

  lemma UnmarkedSame(n: Node, e: Event)
    requires Enabled(n, e) && !e.Mark?
    ensures SameApplied(n.tracker, Next(n, e).tracker)
  {
  }

  // ---- what a mark rests on ----

  /** The applied epoch never goes back, over the whole run. */
  ghost predicate EpochHolds(nodes: seq<Node>) {
    forall i, j :: 0 <= i <= j < |nodes| ==> nodes[i].tracker.appliedEpoch <= nodes[j].tracker.appliedEpoch
  }

  /** Every mark is of an epoch no lower than the one applied when it comes. */
  ghost predicate MarksAhead(nodes: seq<Node>, events: seq<Event>)
    requires |nodes| == |events| + 1
  {
    forall k :: 0 <= k < |events| && events[k].Mark? ==> events[k].stamp.epoch >= nodes[k].tracker.appliedEpoch
  }

  lemma {:induction false} EpochKept(nodes: seq<Node>, events: seq<Event>, i: nat, j: nat)
    requires Run(nodes, events) && MarksAhead(nodes, events) && i <= j < |nodes|
    ensures nodes[i].tracker.appliedEpoch <= nodes[j].tracker.appliedEpoch
  {
    hide Next, Enabled, Initial;
    if i < j {
      EpochKept(nodes, events, i, j - 1);
      assert nodes[j - 1 + 1] == Next(nodes[j - 1], events[j - 1]);
      if events[j - 1].Mark? { MarkSets(nodes[j - 1], events[j - 1]); } else { UnmarkedSame(nodes[j - 1], events[j - 1]); }
    }
  }

  lemma MarkSets(n: Node, e: Event)
    requires e.Mark?
    ensures Next(n, e).tracker == Marked(n.tracker, e.stamp) && Next(n, e).tracker.appliedEpoch == e.stamp.epoch
  {
  }

  /** The applied epoch holds over a run exactly if every mark is of an epoch no lower than the one applied. */
  lemma EpochHoldsExactly(nodes: seq<Node>, events: seq<Event>)
    requires Run(nodes, events)
    ensures EpochHolds(nodes) <==> MarksAhead(nodes, events)
  {
    if MarksAhead(nodes, events) {
      forall i, j | 0 <= i <= j < |nodes| ensures nodes[i].tracker.appliedEpoch <= nodes[j].tracker.appliedEpoch {
        EpochKept(nodes, events, i, j);
      }
    }
    if EpochHolds(nodes) {
      forall k | 0 <= k < |events| && events[k].Mark? ensures events[k].stamp.epoch >= nodes[k].tracker.appliedEpoch {
        assert nodes[k + 1] == Next(nodes[k], events[k]);
        assert nodes[k].tracker.appliedEpoch <= nodes[k + 1].tracker.appliedEpoch;
      }
    }
  }

  /** The check that the mark at `k` rests on is at `c`. */
  ghost predicate RestsOn(nodes: seq<Node>, events: seq<Event>, c: nat, k: nat)
    requires k < |events| <= |nodes|
  {
    c < k && events[k].Mark? && Passes(nodes[c], events[c]) && events[c].stamp == events[k].stamp
  }

  lemma {:induction false} PassedWasChecked(nodes: seq<Node>, events: seq<Event>, m: Stamp, k: nat) returns (c: nat)
    requires Run(nodes, events) && k < |nodes| && m in nodes[k].passed
    ensures c < k && Passes(nodes[c], events[c]) && events[c].stamp == m
  {
    assert k > 0;
    assert nodes[k - 1 + 1] == Next(nodes[k - 1], events[k - 1]);
    if m in nodes[k - 1].passed {
      c := PassedWasChecked(nodes, events, m, k - 1);
    } else {
      c := k - 1;
    }
  }

  lemma {:induction false} NoMarkBetween(nodes: seq<Node>, events: seq<Event>, c: nat, k: nat)
    requires Run(nodes, events) && c <= k < |nodes| && forall j :: c <= j < k ==> !events[j].Mark?
    ensures SameApplied(nodes[c].tracker, nodes[k].tracker)
  {
    hide Next, Enabled, Initial;
    if c < k {
      NoMarkBetween(nodes, events, c, k - 1);
      assert nodes[k - 1 + 1] == Next(nodes[k - 1], events[k - 1]);
      UnmarkedSame(nodes[k - 1], events[k - 1]);
    }
  }

  /** A mark that takes the epoch back does so over another mark that came since its own check. */
  lemma BackwardsMeansOverlap(nodes: seq<Node>, events: seq<Event>, k: nat) returns (c: nat, j: nat)
    requires Run(nodes, events) && k < |events| && events[k].Mark? && events[k].stamp.epoch < nodes[k].tracker.appliedEpoch
    ensures RestsOn(nodes, events, c, k) && c < j < k && events[j].Mark?
  {
    c := PassedWasChecked(nodes, events, events[k].stamp, k);
    if forall i :: c <= i < k ==> !events[i].Mark? {
      NoMarkBetween(nodes, events, c, k);
    }
    j :| c <= j < k && events[j].Mark?;
  }

  // ---- deliveries that do not overlap ----

  /** Every mark rests on a check since which nothing else was marked. */
  ghost predicate NonOverlapping(nodes: seq<Node>, events: seq<Event>)
    requires |events| <= |nodes|
  {
    forall k :: 0 <= k < |events| && events[k].Mark? ==>
      exists c: nat :: RestsOn(nodes, events, c, k) && forall j :: c <= j < k ==> !events[j].Mark?
  }

  /** The marks as deliveries. */
  function Deliveries(events: seq<Event>): seq<Action> {
    if events == [] then []
    else
      var last := events[|events| - 1];
      Deliveries(events[..|events| - 1]) + if last.Mark? then [Deliver(last.stamp)] else []
  }

  lemma DecidedAlike(a: Tracker, b: Tracker, m: Stamp)
    requires SameApplied(a, b) && a.role == Standby && Decide(b, m) == Apply
    ensures Decide(a, m) == Apply
  {
  }

  lemma PrefixRun(nodes: seq<Node>, events: seq<Event>, n: nat)
    requires Run(nodes, events) && NonOverlapping(nodes, events) && n <= |events|
    ensures Run(nodes[..n + 1], events[..n]) && NonOverlapping(nodes[..n + 1], events[..n])
  {
    hide Next, Enabled, Passes;
    var ns, es := nodes[..n + 1], events[..n];
    forall k | 0 <= k < |es| && es[k].Mark?
      ensures exists c: nat :: RestsOn(ns, es, c, k) && forall j :: c <= j < k ==> !es[j].Mark?
    {
      var c: nat :| RestsOn(nodes, events, c, k) && forall j :: c <= j < k ==> !events[j].Mark?;
      assert RestsOn(ns, es, c, k);
    }
  }

  /**
   * Deliveries that do not overlap apply what single deliveries would: the same marks, as deliveries to a standby,
   * are all accepted and leave the same position. So what holds of runs of deliveries holds of these.
   */
  lemma {:induction false} NonOverlappingIsSerial(nodes: seq<Node>, events: seq<Event>) returns (states: seq<Tracker>)
    requires Run(nodes, events) && NonOverlapping(nodes, events)
    ensures var actions := Deliveries(events);
      && Replication.Run(states, actions) && (forall i :: 0 <= i < |states| ==> states[i].role == Standby)
      && (forall i :: 0 <= i < |actions| ==> Applies(states[i], actions[i]))
      && SameApplied(states[|states| - 1], nodes[|nodes| - 1].tracker)
  {
    hide Decide, NonOverlapping, Next, Enabled, Step, Marked, Initial, Deliveries;
    DeliveriesLast(events);
    if events == [] {
      states := [nodes[0].tracker.(role := Standby)];
      StartsRun(nodes[0].tracker);
    } else {
      var k := |events| - 1;
      PrefixRun(nodes, events, k);
      var before := NonOverlappingIsSerial(nodes[..k + 1], events[..k]);
      assert nodes[k + 1] == Next(nodes[k], events[k]);
      if events[k].Mark? {
        var m, last := events[k].stamp, before[|before| - 1];
        MarkIsAccepted(nodes, events, k);
        AcceptedByStandby(last, nodes[k].tracker, m);
        MarkSets(nodes[k], events[k]);
        states := before + [Step(last, Deliver(m))];
        RunSnoc(before, Deliveries(events[..k]), Deliver(m));
      } else {
        UnmarkedSame(nodes[k], events[k]);
        states := before;
      }
    }
  }

  lemma DeliveriesLast(events: seq<Event>)
    ensures events == [] ==> Deliveries(events) == []
    ensures events != [] ==>
      var last := events[|events| - 1];
      Deliveries(events) == Deliveries(events[..|events| - 1]) + if last.Mark? then [Deliver(last.stamp)] else []
  {
  }

  lemma StartsRun(t: Tracker)
    requires Initial(t)
    ensures Replication.Run([t.(role := Standby)], []) && SameApplied(t.(role := Standby), t)
  {
  }

  lemma RunSnoc(states: seq<Tracker>, actions: seq<Action>, a: Action)
    requires Replication.Run(states, actions)
    ensures Replication.Run(states + [Step(states[|states| - 1], a)], actions + [a])
  {
    hide Step;
  }

  /** When nothing was marked since its check, a mark is of an envelope that a standby in its place would accept. */
  lemma MarkIsAccepted(nodes: seq<Node>, events: seq<Event>, k: nat)
    requires Run(nodes, events) && NonOverlapping(nodes, events) && k < |events| && events[k].Mark?
    ensures Decide(nodes[k].tracker.(role := Standby), events[k].stamp) == Apply
  {
    var c: nat :| RestsOn(nodes, events, c, k) && forall j :: c <= j < k ==> !events[j].Mark?;
    NoMarkBetween(nodes, events, c, k);
    DecidedAlike(nodes[k].tracker.(role := Standby), nodes[c].tracker, events[k].stamp);
  }

  lemma AcceptedByStandby(a: Tracker, b: Tracker, m: Stamp)
    requires SameApplied(a, b) && a.role == Standby && Decide(b.(role := Standby), m) == Apply
    ensures Applies(a, Deliver(m)) && Step(a, Deliver(m)).role == Standby && SameApplied(Step(a, Deliver(m)), Marked(b, m))
  {
  }

  // ---- what overlapping deliveries can do ----

  lemma FirstIsAccepted(t: Tracker, m: Stamp)
    requires Initial(t) && t.role == Standby && m.epoch >= 0
    ensures Decide(t, m) == Apply
  {
  }

  /** Two envelopes checked before either is marked. */
  lemma OverlappedRun(n0: Node, a: Stamp, b: Stamp) returns (nodes: seq<Node>, events: seq<Event>)
    requires Initial(n0.tracker) && n0.tracker.role == Standby && n0.passed == multiset{} && a.epoch >= 0 && b.epoch >= 0
    ensures events == [Check(a), Check(b), Mark(a), Mark(b)] && Run(nodes, events) && |nodes| == 5
    ensures nodes[3].tracker == Marked(n0.tracker, a) && nodes[4].tracker == Marked(Marked(n0.tracker, a), b)
  {
    hide Decide, Marked, Initial;
    FirstIsAccepted(n0.tracker, a);
    FirstIsAccepted(n0.tracker, b);
    var n1 := n0.(passed := multiset{a});
    var n2 := n0.(passed := multiset{a, b});
    var n3 := Node(Marked(n0.tracker, a), multiset{b});
    var n4 := Node(Marked(n3.tracker, b), multiset{});
    assert Next(n0, Check(a)) == n1;
    assert Next(n1, Check(b)) == n2 by { assert multiset{a} + multiset{b} == multiset{a, b}; }
    assert Enabled(n2, Mark(a)) && Next(n2, Mark(a)) == n3 by { assert multiset{a, b} - multiset{a} == multiset{b}; }
    assert Enabled(n3, Mark(b)) && Next(n3, Mark(b)) == n4 by { assert multiset{b} - multiset{b} == multiset{}; }
    events := [Check(a), Check(b), Mark(a), Mark(b)];
    nodes := [n0, n1, n2, n3, n4];
  }

  /** The second mark takes the applied epoch from five back to three. */
  lemma OverlapTakesEpochBack() returns (nodes: seq<Node>, events: seq<Event>)
    ensures Run(nodes, events) && |nodes| == 5 && !EpochHolds(nodes)
    ensures nodes[3].tracker.appliedEpoch == 5 && nodes[4].tracker.appliedEpoch == 3
  {
    var a, b := Stamp(1, 5, 1, 1), Stamp(1, 3, 1, 1);
    var n0 := Node(Tracker(0, Standby, 1, 0, None, 0, 0, 0), multiset{});
    nodes, events := OverlappedRun(n0, a, b);
    assert nodes[3].tracker.appliedEpoch > nodes[4].tracker.appliedEpoch;
  }

  ghost predicate Circulating(e: set<Stamp>, events: seq<Event>) {
    forall i :: 0 <= i < |events| && events[i].Check? ==> events[i].stamp in e
  }

  ghost predicate MarksTwice(events: seq<Event>) {
    exists i, j :: 0 <= i < j < |events| && events[i].Mark? && events[j].Mark? && events[i].stamp == events[j].stamp
  }

  lemma {:induction false} PassedEpochs(nodes: seq<Node>, events: seq<Event>, k: nat)
    requires Run(nodes, events) && k < |nodes|
    ensures nodes[k].tracker.appliedEpoch >= 0 && forall m :: m in nodes[k].passed ==> m.epoch >= 0
  {
    if k > 0 {
      PassedEpochs(nodes, events, k - 1);
      assert nodes[k - 1 + 1] == Next(nodes[k - 1], events[k - 1]);
    }
  }

  /**
   * When deliveries may overlap, some run applies one envelope twice exactly if any that can be applied at all
   * circulates: one exporter for each epoch does not help.
   */
  lemma OverlapTwiceExactly(e: set<Stamp>)
    ensures (exists nodes: seq<Node>, events: seq<Event> :: Run(nodes, events) && Circulating(e, events) && MarksTwice(events))
       <==> exists m :: m in e && m.epoch >= 0
  {
    if m :| m in e && m.epoch >= 0 {
      var n0 := Node(Tracker(0, Standby, 1, 0, None, 0, 0, 0), multiset{});
      var nodes, events := OverlappedRun(n0, m, m);
      assert events[2].Mark? && events[3].Mark?;
      assert Run(nodes, events) && Circulating(e, events) && MarksTwice(events);
    }
    forall nodes: seq<Node>, events: seq<Event>
      | Run(nodes, events) && Circulating(e, events) && MarksTwice(events)
      ensures exists m :: m in e && m.epoch >= 0
    {
      var i :| 0 <= i < |events| && events[i].Mark?;
      var c := PassedWasChecked(nodes, events, events[i].stamp, i);
      PassedEpochs(nodes, events, i);
      assert events[c].stamp in e;
    }
  }
}
