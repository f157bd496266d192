/** The handoff decision: policy, replicated facts and execution evidence in, an explained verdict out. */
module HandoffDecision {
  import opened HandoffEvidence
  import opened Options

  datatype Policy = Policy(maxReplicaAgeMs: int, maxLocalLagMs: real, requiredPrebufferMs: real, statusFreshMs: int,
                           requireProgramCursor: bool, requireDuplicatedLiveInputs: bool,
                           requireDeclaredSources: bool, allowTransferWhenNotReady: bool)

  const DEFAULT_POLICY := Policy(2500, 20.0, 250.0, 2000, true, true, true, true)

  datatype FeedMode = Off | Split | Network

  datatype LiveInput = LiveInput(mode: FeedMode, ready: bool, sourceId: Id)

  datatype Source = Source(id: Id, required: bool, shadowCapable: bool, localAssetReady: bool, contentHash: Id)

  datatype Facts = Facts(standby: bool, replicaAgeMs: Option<int>, programCursorNs: int, targetNs: int,
                         localNs: Option<int>, activeSlots: set<int>, outputsActive: bool, transportRunning: bool)

  // The registry's records at one instant.
  datatype Execution = Execution(shadow: map<Id, ShadowRecord>, live: map<int, LiveRecord>, now: real)

  datatype Mode = LiveInputStateWarm | DeterministicPrebuffer | StateWarm

  datatype Action =
    | WaitForAuthority | TakeoverReadyLive | TakeoverReady | TransferReady | TransferReadyLive
    | StartShadowPrebuffer | TransferOnly | Hold

  datatype Decision = Decision(mode: Mode, authorityReady: bool, programLogicReady: bool, executionReady: bool,
                               readyForTransfer: bool, readyForTakeover: bool, prebufferReady: bool, action: Action)

  /** Policy values are clamped into their ranges before use. */
  function NormalizePolicy(p: Policy): Policy {
    p.(maxReplicaAgeMs := ClampInt(p.maxReplicaAgeMs, 100, 60000), maxLocalLagMs := ClampReal(p.maxLocalLagMs, 0.0, 5000.0),
       requiredPrebufferMs := ClampReal(p.requiredPrebufferMs, 0.0, 10000.0), statusFreshMs := ClampInt(p.statusFreshMs, 100, 60000))
  }

  function ClampInt(x: int, lo: int, hi: int): int { if x > hi then hi else if x < lo then lo else x }

  function ClampReal(x: real, lo: real, hi: real): real { if x > hi then hi else if x < lo then lo else x }

  /** A feed is duplicated only when it is ready, on a redundant mode, and names its source. */
  predicate Duplicated(input: LiveInput) { input.ready && input.mode != Off && input.sourceId != "" }

  function AgeMs(now: real, reportedAt: real): int {
    (if now > reportedAt then (now - reportedAt) * 1000.0 else 0.0).Floor
  }

  function RequiredUntil(policy: Policy, facts: Facts): int {
    facts.targetNs + (policy.requiredPrebufferMs * 1000000.0).Floor
  }

  predicate ShadowCapable(s: Source) { s.shadowCapable && s.localAssetReady }

  predicate SourceExecuting(policy: Policy, facts: Facts, s: Source, execution: Execution) {
    && ShadowCapable(s) && s.id in execution.shadow
    && var r := execution.shadow[s.id];
       && r.healthy && r.verified && AgeMs(execution.now, r.reportedAt) <= policy.statusFreshMs
       && (s.contentHash == "" || r.contentHash == s.contentHash)
       && r.until >= RequiredUntil(policy, facts)
  }

  predicate FeedExecuting(policy: Policy, slot: int, input: LiveInput, execution: Execution) {
    && Duplicated(input) && slot in execution.live
    && var r := execution.live[slot];
       r.healthy && r.verified && AgeMs(execution.now, r.reportedAt) <= policy.statusFreshMs && r.sourceId == input.sourceId
  }

  predicate AuthorityReady(policy: Policy, facts: Facts) {
    facts.standby && facts.replicaAgeMs.Some? && facts.replicaAgeMs.value < policy.maxReplicaAgeMs
  }

  /** No blocker of the program cursor or of the local clock. */
  predicate ProgramInReach(policy: Policy, facts: Facts) {
    && !(facts.outputsActive && policy.requireProgramCursor && facts.programCursorNs <= 0)
    && (facts.localNs.Some? && facts.targetNs > 0 ==>
          (facts.targetNs - facts.localNs.value) as real / 1000000.0 <= policy.maxLocalLagMs)
  }

  function Required(sources: seq<Source>): seq<Source> {
    if sources == [] then []
    else
      var before := Required(sources[..|sources| - 1]);
      if sources[|sources| - 1].required then before + [sources[|sources| - 1]] else before
  }

  function ActiveSlots(facts: Facts): set<int> { set s | s in facts.activeSlots && 0 <= s < 4 }

  /** `inputs` is the normalised configuration of the four slots. */
  function EvaluateHandoff(raw: Policy, facts: Facts, inputs: seq<LiveInput>, sources: seq<Source>, execution: Execution): Decision
    requires |inputs| == 4
  {
    var policy := NormalizePolicy(raw);
    var slots, required := ActiveSlots(facts), Required(sources);
    var feedsDuplicated := forall s :: s in slots ==> Duplicated(inputs[s]);
    var feedsExecuting := forall s :: s in slots ==> FeedExecuting(policy, s, inputs[s], execution);
    var sourcesCapable := forall i :: 0 <= i < |required| ==> ShadowCapable(required[i]);
    var sourcesExecuting := forall i :: 0 <= i < |required| ==> SourceExecuting(policy, facts, required[i], execution);
    var authority, reach := AuthorityReady(policy, facts), ProgramInReach(policy, facts);
    var (mode, logic, executing) :=
      if slots != {} then
        var logic := reach && (policy.requireDuplicatedLiveInputs ==> feedsDuplicated);
        (LiveInputStateWarm, logic, logic && feedsExecuting)
      else if facts.outputsActive && facts.transportRunning then
        var logic := reach && (policy.requireDeclaredSources ==> required != []) && sourcesCapable;
        (DeterministicPrebuffer, logic, logic && required != [] && sourcesExecuting)
      else (StateWarm, reach, reach);
    var transfer := authority && (policy.allowTransferWhenNotReady || logic);
    var action :=
      if !authority then WaitForAuthority
      else if executing && mode == LiveInputStateWarm then TakeoverReadyLive
      else if executing && mode == DeterministicPrebuffer then TakeoverReady
      else if logic && mode == StateWarm then TransferReady
      else if logic && mode == LiveInputStateWarm then TransferReadyLive
      else if logic && mode == DeterministicPrebuffer then StartShadowPrebuffer
      else if transfer then TransferOnly else Hold;
    Decision(mode, authority, logic, executing, transfer, authority && executing,
             mode == DeterministicPrebuffer && executing, action)
  }

  lemma {:induction false} RequiredMembers(sources: seq<Source>, s: Source)
    requires s in sources && s.required
    ensures s in Required(sources)
  {
    if s != sources[|sources| - 1] {
      assert s in sources[..|sources| - 1];
      RequiredMembers(sources[..|sources| - 1], s);
    }
  }

  // ---- the decision, from what goes in ----

  /** The value of a range nearest to `x`. */
  ghost predicate NearestInt(y: int, x: int, low: int, high: int) {
    low <= y <= high && (y == x || (y == low && x < low) || (y == high && x > high))
  }

  ghost predicate NearestReal(y: real, x: real, low: real, high: real) {
    low <= y <= high && (y == x || (y == low && x < low) || (y == high && x > high))
  }

  /** Policy values in range are left alone, and others come to the nearest bound. */
  lemma PolicyInRange(p: Policy)
    ensures var q := NormalizePolicy(p);
      && NearestInt(q.maxReplicaAgeMs, p.maxReplicaAgeMs, 100, 60000) && NearestInt(q.statusFreshMs, p.statusFreshMs, 100, 60000)
      && NearestReal(q.maxLocalLagMs, p.maxLocalLagMs, 0.0, 5000.0)
      && NearestReal(q.requiredPrebufferMs, p.requiredPrebufferMs, 0.0, 10000.0)
      && q == p.(maxReplicaAgeMs := q.maxReplicaAgeMs, maxLocalLagMs := q.maxLocalLagMs,
                 requiredPrebufferMs := q.requiredPrebufferMs, statusFreshMs := q.statusFreshMs)
  {
  }

  /** The feed of an active slot is configured, and backed by a fresh verified report of its own source. */
  ghost predicate FeedBacked(p: Policy, input: LiveInput, slot: int, execution: Execution) {
    && input.ready && input.mode != Off && input.sourceId != ""
    && slot in execution.live
    && var r := execution.live[slot];
       && r.healthy && r.verified && r.sourceId == input.sourceId
       && (r.reportedAt < execution.now ==> ((execution.now - r.reportedAt) * 1000.0).Floor <= p.statusFreshMs)
  }

  /** The source can be rendered here, and a fresh verified run of its content reaches past the target by the prebuffer. */
  ghost predicate SourceBacked(p: Policy, facts: Facts, s: Source, execution: Execution) {
    && s.shadowCapable && s.localAssetReady && s.id in execution.shadow
    && var r := execution.shadow[s.id];
       && r.healthy && r.verified && (s.contentHash != "" ==> r.contentHash == s.contentHash)
       && (r.reportedAt < execution.now ==> ((execution.now - r.reportedAt) * 1000.0).Floor <= p.statusFreshMs)
       && r.until >= facts.targetNs + (p.requiredPrebufferMs * 1000000.0).Floor
  }

  /** The primary's program position is known and this node's clock is close enough behind it. */
  ghost predicate Near(p: Policy, facts: Facts) {
    && (facts.outputsActive && p.requireProgramCursor ==> facts.programCursorNs > 0)
    && (facts.localNs.Some? && facts.targetNs > 0 ==>
          (facts.targetNs - facts.localNs.value) as real <= p.maxLocalLagMs * 1000000.0)
  }

  ghost predicate AnyActive(facts: Facts) { exists slot :: slot in facts.activeSlots && 0 <= slot < 4 }

  ghost predicate AllFed(p: Policy, facts: Facts, inputs: seq<LiveInput>, execution: Execution)
    requires |inputs| == 4
  {
    forall slot :: slot in facts.activeSlots && 0 <= slot < 4 ==> FeedBacked(p, inputs[slot], slot, execution)
  }

  /** There is a required source, and all of them are rendered ahead. */
  ghost predicate AllRendered(p: Policy, facts: Facts, sources: seq<Source>, execution: Execution) {
    && (exists s :: s in sources && s.required)
    && (forall s :: s in sources && s.required ==> SourceBacked(p, facts, s, execution))
  }

  /**
   * When a standby is ready to take the program over: it hears from the primary and is near it, and every active slot
   * is fed, or with outputs running and no slot active every required source is rendered ahead and there is one.
   */
  lemma TakeoverExactly(raw: Policy, facts: Facts, inputs: seq<LiveInput>, sources: seq<Source>, execution: Execution)
    requires |inputs| == 4
    ensures var p, d := NormalizePolicy(raw), EvaluateHandoff(raw, facts, inputs, sources, execution);
      var heard := facts.standby && facts.replicaAgeMs.Some? && facts.replicaAgeMs.value < p.maxReplicaAgeMs;
      var rendering := !AnyActive(facts) && facts.outputsActive && facts.transportRunning;
      && d.authorityReady == heard
      && (d.readyForTakeover <==>
            && heard && Near(p, facts)
            && AllFed(p, facts, inputs, execution) && (rendering ==> AllRendered(p, facts, sources, execution)))
      && (d.prebufferReady && heard <==> d.readyForTakeover && rendering)
  {
    hide NormalizePolicy, FeedExecuting, SourceExecuting, ProgramInReach, Near, AllFed, AllRendered, Required, AnyActive;
    hide ActiveSlots, Duplicated, ShadowCapable;
    var p := NormalizePolicy(raw);
    PolicyInRange(raw);
    ReachIsNear(p, facts);
    ActiveIs(facts);
    FeedsBacked(p, facts, inputs, execution);
    SourcesBacked(p, facts, sources, execution);
  }

  lemma FeedsBacked(p: Policy, facts: Facts, inputs: seq<LiveInput>, execution: Execution)
    requires |inputs| == 4 && p.statusFreshMs >= 0
    ensures (forall s :: s in ActiveSlots(facts) ==> FeedExecuting(p, s, inputs[s], execution)) <==> AllFed(p, facts, inputs, execution)
    ensures AllFed(p, facts, inputs, execution) ==> forall s :: s in ActiveSlots(facts) ==> Duplicated(inputs[s])
    ensures !AnyActive(facts) ==> AllFed(p, facts, inputs, execution)
  {
    hide FeedBacked, FeedExecuting;
    forall slot | slot in facts.activeSlots && 0 <= slot < 4
      ensures slot in ActiveSlots(facts)
      ensures FeedExecuting(p, slot, inputs[slot], execution) <==> FeedBacked(p, inputs[slot], slot, execution)
      ensures FeedBacked(p, inputs[slot], slot, execution) ==> Duplicated(inputs[slot])
    {
      FeedIsBacked(p, inputs[slot], slot, execution);
    }
  }

  lemma SourcesBacked(p: Policy, facts: Facts, sources: seq<Source>, execution: Execution)
    requires p.statusFreshMs >= 0
    ensures var required := Required(sources);
      && (AllRendered(p, facts, sources, execution) <==>
            required != [] && forall i :: 0 <= i < |required| ==> SourceExecuting(p, facts, required[i], execution))
      && (AllRendered(p, facts, sources, execution) ==> forall i :: 0 <= i < |required| ==> ShadowCapable(required[i]))
  {
    hide SourceBacked, SourceExecuting, ShadowCapable, Required;
    var required := Required(sources);
    RequiredIs(sources);
    forall i | 0 <= i < |required|
      ensures required[i] in sources && required[i].required
      ensures SourceExecuting(p, facts, required[i], execution) <==> SourceBacked(p, facts, required[i], execution)
      ensures SourceBacked(p, facts, required[i], execution) ==> ShadowCapable(required[i])
    {
      assert required[i] in required;
      SourceIsBacked(p, facts, required[i], execution);
    }
    if required != [] { assert required[0] in sources; }
    if s :| s in sources && s.required { assert s in required; }
    if forall i :: 0 <= i < |required| ==> SourceExecuting(p, facts, required[i], execution) {
      forall s | s in sources && s.required ensures SourceBacked(p, facts, s, execution) {
        var i :| 0 <= i < |required| && required[i] == s;
      }
    }
  }

  lemma ActiveIs(facts: Facts)
    ensures AnyActive(facts) <==> ActiveSlots(facts) != {}
  {
    if slot :| slot in facts.activeSlots && 0 <= slot < 4 { assert slot in ActiveSlots(facts); }
    if ActiveSlots(facts) != {} {
      var slot :| slot in ActiveSlots(facts);
      assert slot in facts.activeSlots;
    }
  }

  lemma {:induction false} RequiredIs(sources: seq<Source>)
    ensures forall s :: s in Required(sources) <==> s in sources && s.required
  {
    if sources != [] {
      var m := |sources| - 1;
      RequiredIs(sources[..m]);
      assert sources == sources[..m] + [sources[m]];
    }
  }

  lemma ReachIsNear(p: Policy, facts: Facts)
    ensures ProgramInReach(p, facts) <==> Near(p, facts)
  {
  }

  lemma FeedIsBacked(p: Policy, input: LiveInput, slot: int, execution: Execution)
    requires p.statusFreshMs >= 0
    ensures FeedExecuting(p, slot, input, execution) <==> FeedBacked(p, input, slot, execution)
    ensures FeedBacked(p, input, slot, execution) ==> Duplicated(input)
  {
  }

  lemma SourceIsBacked(p: Policy, facts: Facts, s: Source, execution: Execution)
    requires p.statusFreshMs >= 0
    ensures SourceExecuting(p, facts, s, execution) <==> SourceBacked(p, facts, s, execution)
    ensures SourceBacked(p, facts, s, execution) ==> ShadowCapable(s)
  {
  }

  /** When the program itself could be taken over: near the primary, and with what the policy asks for in place. */
  lemma LogicExactly(raw: Policy, facts: Facts, inputs: seq<LiveInput>, sources: seq<Source>, execution: Execution)
    requires |inputs| == 4
    ensures var p, d := NormalizePolicy(raw), EvaluateHandoff(raw, facts, inputs, sources, execution);
      var rendering := !AnyActive(facts) && facts.outputsActive && facts.transportRunning;
      d.programLogicReady <==>
        && Near(p, facts)
        && (raw.requireDuplicatedLiveInputs ==>
              forall slot :: slot in facts.activeSlots && 0 <= slot < 4 ==>
                inputs[slot].ready && inputs[slot].mode != Off && inputs[slot].sourceId != "")
        && (rendering && raw.requireDeclaredSources ==> exists s :: s in sources && s.required)
        && (rendering ==> forall s :: s in sources && s.required ==> s.shadowCapable && s.localAssetReady)
  {
    hide FeedExecuting, SourceExecuting, ProgramInReach, Near, Required, AnyActive, ActiveSlots, Duplicated, ShadowCapable;
    ReachIsNear(NormalizePolicy(raw), facts);
    ActiveIs(facts);
    DuplicatedIs(facts, inputs);
    CapableIs(sources);
  }

  lemma DuplicatedIs(facts: Facts, inputs: seq<LiveInput>)
    requires |inputs| == 4
    ensures (forall s :: s in ActiveSlots(facts) ==> Duplicated(inputs[s])) <==>
      forall slot :: slot in facts.activeSlots && 0 <= slot < 4 ==>
        inputs[slot].ready && inputs[slot].mode != Off && inputs[slot].sourceId != ""
    ensures !AnyActive(facts) ==> forall slot :: slot in facts.activeSlots ==> !(0 <= slot < 4)
  {
    forall slot | slot in facts.activeSlots && 0 <= slot < 4 ensures slot in ActiveSlots(facts) {}
  }

  lemma CapableIs(sources: seq<Source>)
    ensures Required(sources) != [] <==> exists s :: s in sources && s.required
    ensures (forall i :: 0 <= i < |Required(sources)| ==> ShadowCapable(Required(sources)[i])) <==>
      forall s :: s in sources && s.required ==> s.shadowCapable && s.localAssetReady
  {
    hide Required;
    var required := Required(sources);
    RequiredIs(sources);
    if required != [] { assert required[0] in required; }
    if s :| s in sources && s.required { assert s in required; }
    if forall i :: 0 <= i < |required| ==> ShadowCapable(required[i]) {
      forall s | s in sources && s.required ensures ShadowCapable(s) {
        assert s in required;
        var i :| 0 <= i < |required| && required[i] == s;
      }
    } else {
      var i :| 0 <= i < |required| && !ShadowCapable(required[i]);
      assert required[i] in required;
    }
  }

  /**
   * What the verdict recommends. It waits exactly without authority, and holds exactly when even the transfer of
   * authority is not allowed; a takeover is recommended exactly when one is ready and there is a program to take over.
   */
  lemma ActionExactly(raw: Policy, facts: Facts, inputs: seq<LiveInput>, sources: seq<Source>, execution: Execution)
    requires |inputs| == 4
    ensures var d := EvaluateHandoff(raw, facts, inputs, sources, execution);
      && (d.action == WaitForAuthority <==> !d.authorityReady)
      && (d.readyForTransfer <==> d.action != WaitForAuthority && d.action != Hold)
      && (d.readyForTransfer <==> d.authorityReady && (raw.allowTransferWhenNotReady || d.programLogicReady))
      && (d.action == TakeoverReadyLive <==> d.readyForTakeover && AnyActive(facts))
      && (d.action == TakeoverReady <==> d.readyForTakeover && d.prebufferReady)
      && (d.action == TransferReady <==> d.readyForTakeover && !AnyActive(facts) && !d.prebufferReady)
      && (d.action == StartShadowPrebuffer ==> d.mode == DeterministicPrebuffer && !d.prebufferReady)
      && (d.readyForTakeover ==> d.readyForTransfer && d.programLogicReady)
      && (d.mode == LiveInputStateWarm <==> AnyActive(facts))
      && (d.mode == DeterministicPrebuffer <==> !AnyActive(facts) && facts.outputsActive && facts.transportRunning)
  {
    hide FeedExecuting, SourceExecuting, ProgramInReach, Required, AnyActive, ActiveSlots;
    ActiveIs(facts);
  }

  /** Some healthy block reported since the last break was rendered over instant `t`. */
  ghost predicate RenderedAt(history: seq<ShadowReport>, t: int) {
    exists i :: RunStart(history) <= i < |history| && Rendered(history[i]) && Within(t, BlockOf(history[i]))
  }

  lemma RequiredSourceExecutes(raw: Policy, facts: Facts, inputs: seq<LiveInput>, sources: seq<Source>, execution: Execution, s: Source)
    requires |inputs| == 4 && s in sources && s.required
    requires EvaluateHandoff(raw, facts, inputs, sources, execution).prebufferReady
    ensures SourceExecuting(NormalizePolicy(raw), facts, s, execution)
  {
    hide SourceExecuting, NormalizePolicy, FeedExecuting;
    RequiredMembers(sources, s);
    var i :| 0 <= i < |Required(sources)| && Required(sources)[i] == s;
  }

  lemma LastShadow(history: seq<ShadowReport>)
    requires VerifiedAfter(history)
    ensures history != [] && RunStart(history) < |history|
    ensures ShadowAfter(history).value.contentHash == history[|history| - 1].contentHash
    ensures ShadowAfter(history).value.reportedAt == history[|history| - 1].at
  {
  }

  /**
   * `prebufferReady` is backed by reports: every required source has a fresh record whose unbroken
   * run of healthy rendered blocks covers every instant from where it starts up to the target plus
   * the required prebuffer. The last of them is of the declared content; all are exactly if the
   * content did not change within the run.
   */
  lemma PrebufferIsRendered(raw: Policy, facts: Facts, inputs: seq<LiveInput>, sources: seq<Source>,
                            execution: Execution, histories: map<Id, seq<ShadowReport>>, s: Source, t: int)
    requires |inputs| == 4
    requires forall id :: id in execution.shadow ==> id in histories && ShadowAfter(histories[id]) == Some(execution.shadow[id])
    requires EvaluateHandoff(raw, facts, inputs, sources, execution).prebufferReady && s in sources && s.required
    ensures s.id in execution.shadow && execution.shadow[s.id].contiguousFrom.Some?
    ensures AgeMs(execution.now, execution.shadow[s.id].reportedAt) <= NormalizePolicy(raw).statusFreshMs
    ensures execution.shadow[s.id].until >= RequiredUntil(NormalizePolicy(raw), facts)
    ensures execution.shadow[s.id].contiguousFrom.value <= t < RequiredUntil(NormalizePolicy(raw), facts) ==>
      RenderedAt(histories[s.id], t)
    ensures var run := histories[s.id][RunStart(histories[s.id])..];
      && run != []
      && (s.contentHash != "" ==>
            && run[|run| - 1].contentHash == s.contentHash
            && (Unchanging(ContentHashes(run)) <==> forall i :: 0 <= i < |run| ==> run[i].contentHash == s.contentHash))
  {
    hide EvaluateHandoff, NormalizePolicy, RequiredUntil, ShadowAfter, MergeShadow, RunStart, Rendered, Unchanging, AgeMs;
    RequiredSourceExecutes(raw, facts, inputs, sources, execution, s);
    var history := histories[s.id];
    Backed(history, execution.shadow[s.id], t);
    LastShadow(history);
    UnchangingThroughout(ContentHashes(history[RunStart(history)..]));
  }

  /** A ready source whose target instant was rendered from other content. */
  lemma ReadyWithMixedContent()
    ensures var a := ShadowReport(Some(0), 500000000, "a", true, 1, 0.0);
      var b := ShadowReport(Some(500000000), 2000000000, "b", true, 1, 0.0);
      var history := [a, b];
      var s := Source("pad", true, true, true, "b");
      var facts := Facts(true, Some(0), 1, 100000000, None, {}, true, true);
      && ShadowAfter(history).Some? && RunStart(history) == 0 && !Unchanging(ContentHashes(history))
      && EvaluateHandoff(DEFAULT_POLICY, facts, seq(4, _ => LiveInput(Off, false, "")), [s],
                         Execution(map["pad" := ShadowAfter(history).value], map[], 0.0)).prebufferReady
      && Within(facts.targetNs, BlockOf(a)) && !Within(facts.targetNs, BlockOf(b)) && a.contentHash != s.contentHash
  {
    var a := ShadowReport(Some(0), 500000000, "a", true, 1, 0.0);
    var b := ShadowReport(Some(500000000), 2000000000, "b", true, 1, 0.0);
    var history := [a, b];
    assert history[..1] == [a] && history[..1][..0] == [];
    assert ShadowAfter([]) == None;
    assert ShadowAfter([a]) == Some(MergeShadow(None, a)) && VerifiedAfter([a]);
    assert ShadowAfter(history) == Some(MergeShadow(ShadowAfter([a]), b)) && VerifiedAfter(history);
    assert RunStart([a]) == 0;
    PadIsReady(ShadowAfter(history).value);
    var hashes := ContentHashes(history);
    assert hashes[0] != hashes[1] by { assert "a"[0] != "b"[0]; }
  }

  lemma PadIsReady(record: ShadowRecord)
    requires record.contiguousFrom == Some(0) && record.until == 2000000000 && record.contentHash == "b"
    requires record.healthy && record.verified && record.reportedAt == 0.0
    ensures var facts := Facts(true, Some(0), 1, 100000000, None, {}, true, true);
      EvaluateHandoff(DEFAULT_POLICY, facts, seq(4, _ => LiveInput(Off, false, "")), [Source("pad", true, true, true, "b")],
                      Execution(map["pad" := record], map[], 0.0)).prebufferReady
  {
    var s := Source("pad", true, true, true, "b");
    var facts := Facts(true, Some(0), 1, 100000000, None, {}, true, true);
    assert Required([s]) == [s] by { assert [s][..0] == []; }
    assert NormalizePolicy(DEFAULT_POLICY) == DEFAULT_POLICY;
    assert RequiredUntil(DEFAULT_POLICY, facts) <= record.until && AgeMs(0.0, 0.0) == 0;
    assert SourceExecuting(DEFAULT_POLICY, facts, s, Execution(map["pad" := record], map[], 0.0));
    assert ActiveSlots(facts) == {};
  }

  /** A verified record shows a block of its current run at every instant it claims, and at no other. */
  lemma Backed(history: seq<ShadowReport>, record: ShadowRecord, t: int)
    requires ShadowAfter(history) == Some(record) && record.verified
    ensures record.contiguousFrom.Some?
    ensures record.contiguousFrom.value <= t < record.until <==>
      RenderedAt(history, t)
  {
    hide MergeShadow, RunStart, Rendered, BlockOf;
    VerifiedMeansRendered(history);
    var k := RunStart(history);
    var run := history[k..];
    var whole := Span(record.contiguousFrom.value, record.until);
    assert Covered(t, Blocks(run)) <==> Within(t, whole);
    if Covered(t, Blocks(run)) {
      var i :| 0 <= i < |Blocks(run)| && Within(t, Blocks(run)[i]);
      assert Rendered(run[i]) && history[k + i] == run[i];
    }
    if i :| k <= i < |history| && Rendered(history[i]) && Within(t, BlockOf(history[i])) {
      assert run[i - k] == history[i];
      assert Within(t, Blocks(run)[i - k]);
    }
  }

  /** The exact condition for the whole window from the target on to be rendered: the run must start by the target. */
  lemma TargetWindowRendered(policy: Policy, facts: Facts, s: Source, execution: Execution, history: seq<ShadowReport>)
    requires SourceExecuting(policy, facts, s, execution) && ShadowAfter(history) == Some(execution.shadow[s.id])
    requires facts.targetNs < RequiredUntil(policy, facts)
    ensures (forall t :: facts.targetNs <= t < RequiredUntil(policy, facts) ==> RenderedAt(history, t))
       <==> execution.shadow[s.id].contiguousFrom.Some? && execution.shadow[s.id].contiguousFrom.value <= facts.targetNs
  {
    var record := execution.shadow[s.id];
    hide RenderedAt;
    Backed(history, record, facts.targetNs);
    forall t ensures record.contiguousFrom.value <= t < record.until <==> RenderedAt(history, t) {
      Backed(history, record, t);
    }
  }

  /** The decision does not check that start: a run beginning after the target still makes the prebuffer ready. */
  lemma ReadyWithUnrenderedTarget()
    ensures var report := ShadowReport(Some(900000000), 2000000000, "", true, 1, 0.0);
      var s := Source("pad", true, true, true, "");
      var facts := Facts(true, Some(0), 1, 500000000, None, {}, true, true);
      var execution := Execution(map["pad" := MergeShadow(None, report)], map[], 0.0);
      && EvaluateHandoff(DEFAULT_POLICY, facts, seq(4, _ => LiveInput(Off, false, "")), [s], execution).prebufferReady
      && execution.shadow["pad"].contiguousFrom.value > facts.targetNs
  {
    var report := ShadowReport(Some(900000000), 2000000000, "", true, 1, 0.0);
    var s := Source("pad", true, true, true, "");
    var facts := Facts(true, Some(0), 1, 500000000, None, {}, true, true);
    var execution := Execution(map["pad" := MergeShadow(None, report)], map[], 0.0);
    assert Rendered(report);
    assert Required([s]) == [s] by { assert [s][..0] == []; }
    assert SourceExecuting(NormalizePolicy(DEFAULT_POLICY), facts, s, execution);
    assert ActiveSlots(facts) == {};
  }

  lemma ActiveFeedExecutes(raw: Policy, facts: Facts, inputs: seq<LiveInput>, sources: seq<Source>, execution: Execution, slot: int)
    requires |inputs| == 4 && slot in facts.activeSlots && 0 <= slot < 4
    requires EvaluateHandoff(raw, facts, inputs, sources, execution).executionReady
    ensures FeedExecuting(NormalizePolicy(raw), slot, inputs[slot], execution)
  {
    hide FeedExecuting, NormalizePolicy, SourceExecuting;
    assert slot in ActiveSlots(facts);
  }

  lemma LastReport(history: seq<LiveReport>)
    requires FedAfter(history)
    ensures history != [] && FeedStart(history) < |history|
    ensures LiveAfter(history).value.sourceId == history[|history| - 1].sourceId
    ensures LiveAfter(history).value.reportedAt == history[|history| - 1].at
  {
  }

  /**
   * Every active slot of a takeover with live inputs has a duplicated feed with an unbroken run, fresh, and last
   * reported by its own source. The whole run is that source's exactly if the source did not change within it.
   */
  lemma LiveTakeoverIsFed(raw: Policy, facts: Facts, inputs: seq<LiveInput>, sources: seq<Source>, execution: Execution,
                          histories: map<int, seq<LiveReport>>, slot: int)
    requires |inputs| == 4
    requires forall k :: k in execution.live ==> k in histories && LiveAfter(histories[k]) == Some(execution.live[k])
    requires slot in facts.activeSlots && 0 <= slot < 4
    requires EvaluateHandoff(raw, facts, inputs, sources, execution).executionReady
    ensures slot in execution.live && FedAfter(histories[slot])
    ensures var record := execution.live[slot]; var run := histories[slot][FeedStart(histories[slot])..];
      && Duplicated(inputs[slot]) && run != []
      && record.first.Some? && record.last.Some? && Unskipped(run)
      && Tiles(FeedSpans(run), Span(record.first.value, record.last.value))
      && AgeMs(execution.now, run[|run| - 1].at) <= NormalizePolicy(raw).statusFreshMs
      && run[|run| - 1].sourceId == inputs[slot].sourceId
      && (Unchanging(SourceIds(run)) <==> forall i :: 0 <= i < |run| ==> run[i].sourceId == inputs[slot].sourceId)
  {
    hide EvaluateHandoff, NormalizePolicy, LiveAfter, MergeLive, FeedStart, Unchanging, AgeMs, Tiles, Unskipped;
    ActiveFeedExecutes(raw, facts, inputs, sources, execution, slot);
    var history := histories[slot];
    VerifiedMeansFed(history);
    LastReport(history);
    UnchangingThroughout(SourceIds(history[FeedStart(history)..]));
  }

  /** A ready slot whose run began with another source. */
  lemma ReadyWithMixedRun()
    ensures var other := LiveReport("other", true, 0.0, Some(0), Some(10), 10, Some(0), 0.0);
      var mic := LiveReport("mic", true, 0.0, Some(10), Some(20), 10, Some(1), 0.0);
      var history := [other, mic];
      var facts := Facts(true, Some(0), 1, 0, None, {0}, true, true);
      var inputs := seq(4, _ => LiveInput(Split, true, "mic"));
      && LiveAfter(history).Some? && FeedStart(history) == 0
      && EvaluateHandoff(DEFAULT_POLICY, facts, inputs, [], Execution(map[], map[0 := LiveAfter(history).value], 0.0)).executionReady
      && !Unchanging(SourceIds(history))
  {
    var other := LiveReport("other", true, 0.0, Some(0), Some(10), 10, Some(0), 0.0);
    var mic := LiveReport("mic", true, 0.0, Some(10), Some(20), 10, Some(1), 0.0);
    var history := [other, mic];
    assert history[..1] == [other] && history[..1][..0] == [];
    assert LiveAfter([]) == None;
    assert LiveAfter([other]) == Some(MergeLive(None, other)) && FedAfter([other]);
    assert LiveAfter(history) == Some(MergeLive(LiveAfter([other]), mic)) && FedAfter(history);
    assert FeedStart([other]) == 0;
    var facts := Facts(true, Some(0), 1, 0, None, {0}, true, true);
    var inputs := seq(4, _ => LiveInput(Split, true, "mic"));
    var execution := Execution(map[], map[0 := LiveAfter(history).value], 0.0);
    assert 0 in ActiveSlots(facts) && forall s :: s in ActiveSlots(facts) ==> s == 0;
    assert FeedExecuting(NormalizePolicy(DEFAULT_POLICY), 0, inputs[0], execution);
    var ids := SourceIds(history);
    assert ids[0] != ids[1];
  }
}
