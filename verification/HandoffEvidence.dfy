/** Execution evidence from standby render and feed adapters, merged report by report. */
module HandoffEvidence {
  import opened Numbers
  import opened Options

  type Id = string

  // A stretch of show time, in nanoseconds: from inclusive, to exclusive.
  datatype Span = Span(from: int, to: int)

  predicate Within(t: int, s: Span) { s.from <= t < s.to }

  /** `next` is `previous` grown by an adjacent block, or unchanged by a block inside it. */
  predicate Grows(previous: Span, block: Span, next: Span) {
    || (block.from == previous.to && next == Span(previous.from, block.to))
    || (previous.from <= block.from && block.to <= previous.to && next == previous)
  }

  ghost predicate Covered(t: int, blocks: seq<Span>) { exists i :: 0 <= i < |blocks| && Within(t, blocks[i]) }

  /** A non-empty list of blocks covers exactly one span: every instant of it, and nothing outside. */
  ghost predicate Tiles(blocks: seq<Span>, whole: Span) {
    && whole.from < whole.to
    && forall t :: Covered(t, blocks) <==> Within(t, whole)
  }

  lemma TilesOne(block: Span)
    requires block.from < block.to
    ensures Tiles([block], block)
  {
    forall t ensures Covered(t, [block]) <==> Within(t, block) {
      assert Within(t, block) ==> Within(t, [block][0]);
    }
  }

  lemma TilesMore(blocks: seq<Span>, previous: Span, block: Span, next: Span)
    requires Tiles(blocks, previous) && block.from < block.to && Grows(previous, block, next)
    ensures Tiles(blocks + [block], next)
  {
    var all := blocks + [block];
    forall t ensures Covered(t, all) <==> Within(t, next) {
      if Covered(t, blocks) {
        var i :| 0 <= i < |blocks| && Within(t, blocks[i]);
        assert Within(t, all[i]);
      }
      assert Within(t, block) ==> Within(t, all[|blocks|]);
      if Covered(t, all) {
        var i :| 0 <= i < |all| && Within(t, all[i]);
        assert i < |blocks| ==> Within(t, blocks[i]);
        assert Covered(t, blocks) || Within(t, block);
      }
    }
  }

  // ---- what reports in a row carry ----

  /** No two in a row differ. */
  ghost predicate Unchanging(ids: seq<Id>) { forall i :: 0 < i < |ids| ==> ids[i - 1] == ids[i] }

  /** A list all of whose members are its last one is a list in which nothing changes from one to the next. */
  lemma {:induction false} UnchangingThroughout(ids: seq<Id>)
    requires ids != []
    ensures Unchanging(ids) <==> forall i :: 0 <= i < |ids| ==> ids[i] == ids[|ids| - 1]
  {
    var m := |ids| - 1;
    if m > 0 {
      var before := ids[..m];
      UnchangingThroughout(before);
      if Unchanging(ids) {
        assert Unchanging(before) && ids[m - 1] == ids[m];
        forall i | 0 <= i < m ensures ids[i] == ids[m] { assert before[i] == before[m - 1]; }
      }
    }
  }

  // ---- shadow renders ----

  // One report of a shadow renderer; a missing start time makes it a bare horizon.
  datatype ShadowReport = ShadowReport(start: Option<int>, until: int, contentHash: Id, healthy: bool, frames: int, at: real)

  datatype ShadowRecord = ShadowRecord(contiguousFrom: Option<int>, until: int, contentHash: Id, healthy: bool,
                                       renderedFrames: int, discontinuities: nat, verified: bool, reportedAt: real)

  function BlockOf(r: ShadowReport): Span {
    Span(if r.start.Some? then Max(0, r.start.value) else 0, Max(0, r.until))
  }

  /** The report describes a healthy, non-empty rendered block. */
  predicate Rendered(r: ShadowReport) {
    r.start.Some? && BlockOf(r).to > BlockOf(r).from && r.frames > 0 && r.healthy
  }

  /** The record after one more report: the block extends, repeats, or breaks the verified run. */
  function MergeShadow(previous: Option<ShadowRecord>, r: ShadowReport): ShadowRecord {
    var block := BlockOf(r);
    var discontinuities := if previous.Some? then previous.value.discontinuities else 0;
    var alone := ShadowRecord(if Rendered(r) then Some(block.from) else None, block.to, r.contentHash, r.healthy,
                              Max(0, r.frames), discontinuities, Rendered(r), r.at);
    if !Rendered(r) || previous.None? || !previous.value.verified then alone
    else
      var p := previous.value;
      var from := if p.contiguousFrom.Some? then p.contiguousFrom.value else block.from;
      if block.from == p.until then
        alone.(contiguousFrom := Some(from), renderedFrames := r.frames + p.renderedFrames)
      else if block.from >= (if p.contiguousFrom.Some? then p.contiguousFrom.value else 0) && block.to <= p.until then
        alone.(contiguousFrom := Some(from), until := p.until, renderedFrames := r.frames + p.renderedFrames)
      else
        alone.(discontinuities := discontinuities + 1, verified := false)
  }

  function ShadowAfter(history: seq<ShadowReport>): Option<ShadowRecord> {
    if history == [] then None
    else Some(MergeShadow(ShadowAfter(history[..|history| - 1]), history[|history| - 1]))
  }

  predicate VerifiedAfter(history: seq<ShadowReport>) { ShadowAfter(history).Some? && ShadowAfter(history).value.verified }

  /** Where the current run of verified reports begins: right after the last break. */
  function RunStart(history: seq<ShadowReport>): (k: nat)
    ensures history != [] ==> k < |history|
  {
    if history == [] then 0
    else if VerifiedAfter(history) && VerifiedAfter(history[..|history| - 1]) then RunStart(history[..|history| - 1])
    else |history| - 1
  }

  function Blocks(reports: seq<ShadowReport>): seq<Span> { seq(|reports|, i requires 0 <= i < |reports| => BlockOf(reports[i])) }

  function ContentHashes(reports: seq<ShadowReport>): (r: seq<Id>)
    ensures |r| == |reports| && forall i :: 0 <= i < |r| ==> r[i] == reports[i].contentHash
  {
    seq(|reports|, i requires 0 <= i < |reports| => reports[i].contentHash)
  }

  function TotalFrames(reports: seq<ShadowReport>): int {
    if reports == [] then 0 else TotalFrames(reports[..|reports| - 1]) + reports[|reports| - 1].frames
  }

  lemma ShadowGrows(p: ShadowRecord, r: ShadowReport)
    requires p.verified && p.contiguousFrom.Some? && MergeShadow(Some(p), r).verified
    ensures var next := MergeShadow(Some(p), r);
      && Rendered(r) && next.healthy && next.contiguousFrom.Some? && BlockOf(r).from < BlockOf(r).to
      && Grows(Span(p.contiguousFrom.value, p.until), BlockOf(r), Span(next.contiguousFrom.value, next.until))
      && next.renderedFrames == p.renderedFrames + r.frames
  {
  }

  lemma ShadowAlone(previous: Option<ShadowRecord>, r: ShadowReport)
    requires (previous.None? || !previous.value.verified) && MergeShadow(previous, r).verified
    ensures var next := MergeShadow(previous, r);
      && Rendered(r) && next.healthy && next.contiguousFrom == Some(BlockOf(r).from) && next.until == BlockOf(r).to
      && BlockOf(r).from < BlockOf(r).to && next.renderedFrames == r.frames
  {
  }

  lemma TotalFramesSnoc(reports: seq<ShadowReport>, r: ShadowReport)
    ensures TotalFrames(reports + [r]) == TotalFrames(reports) + r.frames && TotalFrames([r]) == r.frames
  {
    assert (reports + [r])[..|reports|] == reports && [r][..0] == [];
  }

  /**
   * A verified record is backed, for every history of reports: since the last break every report
   * was a healthy rendered block, together they cover exactly the instants from `contiguousFrom`
   * to `until`, and `renderedFrames` is the sum of their frames, repeats included.
   */
  lemma {:induction false} VerifiedMeansRendered(history: seq<ShadowReport>)
    requires VerifiedAfter(history)
    ensures var k, record := RunStart(history), ShadowAfter(history).value;
      var run := history[k..];
      && (k > 0 ==> !VerifiedAfter(history[..k]))
      && (forall i :: 0 <= i < |run| ==> Rendered(run[i]))
      && record.healthy && record.contiguousFrom.Some?
      && Tiles(Blocks(run), Span(record.contiguousFrom.value, record.until))
      && record.renderedFrames == TotalFrames(run)
  {
    hide Tiles, MergeShadow, Rendered, BlockOf, Grows, TotalFrames;
    var m := |history| - 1;
    var before, last := history[..m], history[m];
    var record := ShadowAfter(history).value;
    if VerifiedAfter(before) {
      VerifiedMeansRendered(before);
      ShadowGrows(ShadowAfter(before).value, last);
      var k := RunStart(before);
      assert history[..k] == before[..k];
      var run, p := before[k..], ShadowAfter(before).value;
      assert history[k..] == run + [last];
      assert Blocks(run + [last]) == Blocks(run) + [BlockOf(last)];
      TilesMore(Blocks(run), Span(p.contiguousFrom.value, p.until), BlockOf(last), Span(record.contiguousFrom.value, record.until));
      TotalFramesSnoc(run, last);
    } else {
      ShadowAlone(ShadowAfter(before), last);
      TilesOne(BlockOf(last));
      TotalFramesSnoc([], last);
      assert history[m..] == [last] && Blocks([last]) == [BlockOf(last)];
    }
  }

  // ---- when evidence stays verified ----

  lemma ShadowSnoc(history: seq<ShadowReport>, r: ShadowReport)
    ensures ShadowAfter([]) == None && ShadowAfter(history + [r]) == Some(MergeShadow(ShadowAfter(history), r))
    ensures RunStart(history + [r]) == if VerifiedAfter(history + [r]) && VerifiedAfter(history) then RunStart(history) else |history|
  {
    assert (history + [r])[..|history|] == history;
  }

  /**
   * A verified run goes on exactly with a healthy block that has frames and follows it without a gap, or lies inside
   * it; a block anywhere else breaks it and is counted. Without a run, any healthy block that has frames begins one.
   */
  lemma StaysVerifiedExactly(history: seq<ShadowReport>, r: ShadowReport)
    ensures var sound := r.healthy && r.frames > 0 && r.start.Some? && Max(0, r.start.value) < Max(0, r.until);
      if !VerifiedAfter(history) then
        VerifiedAfter(history + [r]) == sound && RunStart(history + [r]) == |history|
      else
        var p, next := ShadowAfter(history).value, ShadowAfter(history + [r]).value;
        p.contiguousFrom.Some? &&
        if sound && (Max(0, r.start.value) == p.until
                    || (p.contiguousFrom.value <= Max(0, r.start.value) && Max(0, r.until) <= p.until)) then
          && next.verified && RunStart(history + [r]) == RunStart(history)
          && next.contiguousFrom == p.contiguousFrom && next.until == Max(p.until, Max(0, r.until))
          && next.discontinuities == p.discontinuities
        else
          !next.verified && next.discontinuities == p.discontinuities + if sound then 1 else 0
  {
    hide ShadowAfter, RunStart, Tiles;
    ShadowSnoc(history, r);
    if VerifiedAfter(history) { VerifiedMeansRendered(history); }
  }

  ghost predicate HealthyBlock(r: ShadowReport) { r.healthy && r.frames > 0 && r.start.Some? && 0 <= r.start.value < r.until }

  /** Healthy blocks that follow one another without a gap are verified as one run, from the first to the last. */
  lemma {:induction false} AdjacentRun(history: seq<ShadowReport>)
    requires history != []
    requires forall i :: 0 <= i < |history| ==> HealthyBlock(history[i])
    requires forall i :: 0 < i < |history| ==> history[i].start == Some(history[i - 1].until)
    ensures VerifiedAfter(history) && RunStart(history) == 0
    ensures var record := ShadowAfter(history).value;
      && record.contiguousFrom == history[0].start && record.until == history[|history| - 1].until && record.discontinuities == 0
  {
    hide ShadowAfter, RunStart, MergeShadow, HealthyBlock;
    var m := |history| - 1;
    assert history == history[..m] + [history[m]];
    ShadowSnoc(history[..m], history[m]);
    if m > 0 {
      AdjacentRun(history[..m]);
      NextIsVerified(history[..m], history[m]);
    } else {
      FirstShadow(history[0]);
    }
  }

  lemma NextIsVerified(history: seq<ShadowReport>, r: ShadowReport)
    requires VerifiedAfter(history) && HealthyBlock(r) && r.start == Some(ShadowAfter(history).value.until)
    ensures VerifiedAfter(history + [r]) && RunStart(history + [r]) == RunStart(history)
    ensures var p, next := ShadowAfter(history).value, ShadowAfter(history + [r]).value;
      next.contiguousFrom == p.contiguousFrom && next.until == r.until && next.discontinuities == p.discontinuities
  {
    hide ShadowAfter, RunStart;
    StaysVerifiedExactly(history, r);
    ShadowSnoc(history, r);
  }

  lemma FirstShadow(r: ShadowReport)
    ensures HealthyBlock(r) ==>
      var record := MergeShadow(None, r);
      record.verified && record.contiguousFrom == r.start && record.until == r.until && record.discontinuities == 0
  {
  }

  // ---- live feeds ----

  datatype LiveReport = LiveReport(sourceId: Id, healthy: bool, latencyMs: real, first: Option<int>, last: Option<int>,
                                   frames: int, sequence: Option<int>, at: real)

  datatype LiveRecord = LiveRecord(sourceId: Id, healthy: bool, latencyMs: real, first: Option<int>, last: Option<int>,
                                   observedFrames: int, sequence: Option<int>, discontinuities: nat, verified: bool, reportedAt: real)

  function Clamped(x: Option<int>): Option<int> { if x.Some? then Some(Max(0, x.value)) else None }

  function Latency(ms: real): real { if ms < 0.0 then 0.0 else if ms > 5000.0 then 5000.0 else ms }

  function FeedSpan(r: LiveReport): Span {
    Span(if r.first.Some? then Max(0, r.first.value) else 0, if r.last.Some? then Max(0, r.last.value) else 0)
  }

  predicate Observed(r: LiveReport) {
    r.healthy && r.first.Some? && r.last.Some? && FeedSpan(r).to > FeedSpan(r).from && r.frames > 0 && r.sequence.Some?
  }

  function SequenceOf(r: LiveReport): int { if r.sequence.Some? then Max(0, r.sequence.value) else -1 }

  function MergeLive(previous: Option<LiveRecord>, r: LiveReport): LiveRecord {
    var span := FeedSpan(r);
    var discontinuities := if previous.Some? then previous.value.discontinuities else 0;
    var alone := LiveRecord(r.sourceId, r.healthy, Latency(r.latencyMs), Clamped(r.first), Clamped(r.last),
                            Max(0, r.frames), Clamped(r.sequence), discontinuities, Observed(r), r.at);
    if !Observed(r) || previous.None? || !previous.value.verified then alone
    else
      var p := previous.value;
      var sequence := if p.sequence.Some? then p.sequence.value else -1;
      var last := if p.last.Some? then p.last.value else -1;
      var first := if p.first.Some? then p.first.value else 0;
      if SequenceOf(r) == sequence && span.from >= first && span.to <= last then
        alone.(first := Some(first), last := Some(last), observedFrames := r.frames + p.observedFrames)
      else if SequenceOf(r) == sequence + 1 && span.from == last then
        alone.(first := Some(first), observedFrames := r.frames + p.observedFrames)
      else
        alone.(discontinuities := discontinuities + 1, verified := false)
  }

  function LiveAfter(history: seq<LiveReport>): Option<LiveRecord> {
    if history == [] then None
    else Some(MergeLive(LiveAfter(history[..|history| - 1]), history[|history| - 1]))
  }

  predicate FedAfter(history: seq<LiveReport>) { LiveAfter(history).Some? && LiveAfter(history).value.verified }

  function FeedStart(history: seq<LiveReport>): (k: nat)
    ensures history != [] ==> k < |history|
  {
    if history == [] then 0
    else if FedAfter(history) && FedAfter(history[..|history| - 1]) then FeedStart(history[..|history| - 1])
    else |history| - 1
  }

  function FeedSpans(reports: seq<LiveReport>): seq<Span> { seq(|reports|, i requires 0 <= i < |reports| => FeedSpan(reports[i])) }

  function SourceIds(reports: seq<LiveReport>): (r: seq<Id>)
    ensures |r| == |reports| && forall i :: 0 <= i < |r| ==> r[i] == reports[i].sourceId
  {
    seq(|reports|, i requires 0 <= i < |reports| => reports[i].sourceId)
  }

  function TotalObserved(reports: seq<LiveReport>): int {
    if reports == [] then 0 else TotalObserved(reports[..|reports| - 1]) + reports[|reports| - 1].frames
  }

  lemma TotalObservedSnoc(reports: seq<LiveReport>, r: LiveReport)
    ensures TotalObserved(reports + [r]) == TotalObserved(reports) + r.frames && TotalObserved([r]) == r.frames
  {
    assert (reports + [r])[..|reports|] == reports && [r][..0] == [];
  }

  /** Sequence numbers repeat or step by one, never skip. */
  ghost predicate Unskipped(reports: seq<LiveReport>) {
    forall i :: 0 <= i < |reports| - 1 ==> SequenceOf(reports[i]) <= SequenceOf(reports[i + 1]) <= SequenceOf(reports[i]) + 1
  }

  lemma LiveGrows(p: LiveRecord, r: LiveReport)
    requires p.verified && p.first.Some? && p.last.Some? && p.sequence.Some? && MergeLive(Some(p), r).verified
    ensures var next := MergeLive(Some(p), r);
      && Observed(r) && next.healthy && next.first.Some? && next.last.Some? && next.sequence == Some(SequenceOf(r))
      && FeedSpan(r).from < FeedSpan(r).to
      && Grows(Span(p.first.value, p.last.value), FeedSpan(r), Span(next.first.value, next.last.value))
      && p.sequence.value <= SequenceOf(r) <= p.sequence.value + 1
      && next.observedFrames == p.observedFrames + r.frames
  {
  }

  lemma LiveAlone(previous: Option<LiveRecord>, r: LiveReport)
    requires (previous.None? || !previous.value.verified) && MergeLive(previous, r).verified
    ensures var next := MergeLive(previous, r);
      && Observed(r) && next.healthy && next.sequence == Some(SequenceOf(r)) && FeedSpan(r).from < FeedSpan(r).to
      && next.first == Some(FeedSpan(r).from) && next.last == Some(FeedSpan(r).to)
      && next.observedFrames == r.frames
  {
  }

  lemma UnskippedOne(r: LiveReport)
    ensures Unskipped([r])
  {
  }

  lemma UnskippedSnoc(run: seq<LiveReport>, last: LiveReport)
    requires Unskipped(run) && run != []
    requires SequenceOf(run[|run| - 1]) <= SequenceOf(last) <= SequenceOf(run[|run| - 1]) + 1
    ensures Unskipped(run + [last])
  {
    hide SequenceOf;
    var all := run + [last];
    forall i | 0 <= i < |all| - 1 ensures SequenceOf(all[i]) <= SequenceOf(all[i + 1]) <= SequenceOf(all[i]) + 1 {
      if i + 1 < |run| { assert SequenceOf(run[i]) <= SequenceOf(run[i + 1]); }
    }
  }

  /**
   * The same for a live slot: since the last break its healthy blocks cover exactly first to last, with no sequence
   * number skipped, and `observedFrames` is the sum of their frames, repeats included.
   */
  lemma {:induction false} VerifiedMeansFed(history: seq<LiveReport>)
    requires FedAfter(history)
    ensures var k, record := FeedStart(history), LiveAfter(history).value;
      var run := history[k..];
      && (k > 0 ==> !FedAfter(history[..k]))
      && (forall i :: 0 <= i < |run| ==> Observed(run[i]))
      && record.healthy && record.first.Some? && record.last.Some?
      && Tiles(FeedSpans(run), Span(record.first.value, record.last.value))
      && Unskipped(run) && record.sequence == Some(SequenceOf(history[|history| - 1]))
      && record.observedFrames == TotalObserved(run)
  {
    hide Tiles, MergeLive, Observed, FeedSpan, SequenceOf, Grows, Unskipped, TotalObserved;
    var m := |history| - 1;
    var before, last := history[..m], history[m];
    var record := LiveAfter(history).value;
    if FedAfter(before) {
      VerifiedMeansFed(before);
      LiveGrows(LiveAfter(before).value, last);
      var k := FeedStart(before);
      assert history[..k] == before[..k];
      var run, p := before[k..], LiveAfter(before).value;
      assert history[k..] == run + [last];
      assert FeedSpans(run + [last]) == FeedSpans(run) + [FeedSpan(last)];
      assert before[|before| - 1] == run[|run| - 1];
      UnskippedSnoc(run, last);
      TotalObservedSnoc(run, last);
      TilesMore(FeedSpans(run), Span(p.first.value, p.last.value), FeedSpan(last), Span(record.first.value, record.last.value));
    } else {
      LiveAlone(LiveAfter(before), last);
      UnskippedOne(last);
      TotalObservedSnoc([], last);
      TilesOne(FeedSpan(last));
      assert history[m..] == [last] && FeedSpans([last]) == [FeedSpan(last)];
    }
  }

  // ---- when a feed stays verified ----

  lemma LiveSnoc(history: seq<LiveReport>, r: LiveReport)
    ensures LiveAfter([]) == None && LiveAfter(history + [r]) == Some(MergeLive(LiveAfter(history), r))
    ensures FeedStart(history + [r]) == if FedAfter(history + [r]) && FedAfter(history) then FeedStart(history) else |history|
  {
    assert (history + [r])[..|history|] == history;
  }

  /**
   * A fed run goes on exactly with the next block, numbered next and following without a gap, or with its last block
   * once more; any other block breaks it and is counted. Without a run, any healthy numbered block that has frames
   * begins one.
   */
  lemma StaysFedExactly(history: seq<LiveReport>, r: LiveReport)
    ensures var sound := r.healthy && r.frames > 0 && r.sequence.Some? && r.first.Some? && r.last.Some?
                        && Max(0, r.first.value) < Max(0, r.last.value);
      if !FedAfter(history) then
        FedAfter(history + [r]) == sound && FeedStart(history + [r]) == |history|
      else
        var p, next := LiveAfter(history).value, LiveAfter(history + [r]).value;
        p.first.Some? && p.last.Some? && p.sequence.Some? &&
        if sound && ((Max(0, r.sequence.value) == p.sequence.value + 1 && Max(0, r.first.value) == p.last.value)
                    || (Max(0, r.sequence.value) == p.sequence.value
                        && p.first.value <= Max(0, r.first.value) && Max(0, r.last.value) <= p.last.value)) then
          && next.verified && FeedStart(history + [r]) == FeedStart(history) && next.first == p.first
          && next.last == Some(Max(p.last.value, Max(0, r.last.value))) && next.sequence == Some(Max(0, r.sequence.value))
          && next.discontinuities == p.discontinuities
        else
          !next.verified && next.discontinuities == p.discontinuities + if sound then 1 else 0
  {
    hide LiveAfter, FeedStart, Tiles, Unskipped;
    LiveSnoc(history, r);
    if FedAfter(history) { VerifiedMeansFed(history); }
  }

  ghost predicate NumberedBlock(r: LiveReport) {
    && r.healthy && r.frames > 0 && r.sequence.Some? && r.sequence.value >= 0
    && r.first.Some? && r.last.Some? && 0 <= r.first.value < r.last.value
  }

  ghost predicate NextBlock(a: LiveReport, b: LiveReport) {
    b.first == a.last && a.sequence.Some? && b.sequence == Some(a.sequence.value + 1)
  }

  /** Healthy blocks numbered in turn that follow one another without a gap are one fed run. */
  lemma {:induction false} NumberedRun(history: seq<LiveReport>)
    requires history != []
    requires forall i :: 0 <= i < |history| ==> NumberedBlock(history[i])
    requires forall i :: 0 < i < |history| ==> NextBlock(history[i - 1], history[i])
    ensures FedAfter(history) && FeedStart(history) == 0
    ensures var record, last := LiveAfter(history).value, history[|history| - 1];
      && record.first == history[0].first && record.last == last.last && record.sequence == last.sequence
      && record.discontinuities == 0
  {
    hide LiveAfter, FeedStart, MergeLive, NumberedBlock, NextBlock;
    var m := |history| - 1;
    assert history == history[..m] + [history[m]];
    LiveSnoc(history[..m], history[m]);
    if m > 0 {
      NumberedRun(history[..m]);
      assert NextBlock(history[m - 1], history[m]) && NumberedBlock(history[m]);
      NextIsFed(history[..m], history[m - 1], history[m]);
    } else {
      FirstLive(history[0]);
    }
  }

  lemma NextIsFed(history: seq<LiveReport>, last: LiveReport, r: LiveReport)
    requires FedAfter(history) && NumberedBlock(r) && NextBlock(last, r)
    requires LiveAfter(history).value.last == last.last && LiveAfter(history).value.sequence == last.sequence
    ensures FedAfter(history + [r]) && FeedStart(history + [r]) == FeedStart(history)
    ensures var p, next := LiveAfter(history).value, LiveAfter(history + [r]).value;
      && next.first == p.first && next.last == r.last && next.sequence == r.sequence
      && next.discontinuities == p.discontinuities
  {
    hide LiveAfter, FeedStart;
    StaysFedExactly(history, r);
    LiveSnoc(history, r);
  }

  lemma FirstLive(r: LiveReport)
    ensures NumberedBlock(r) ==>
      var record := MergeLive(None, r);
      && record.verified && record.first == r.first && record.last == r.last && record.sequence == r.sequence
      && record.discontinuities == 0
  {
  }

  // ---- the registry ----

  method MergeShadowReport(previous: Option<ShadowRecord>, r: ShadowReport) returns (record: ShadowRecord)
    ensures record == MergeShadow(previous, r)
  {
    var block := BlockOf(r);
    var frames := Max(0, r.frames);
    var verified := r.start.Some? && block.to > block.from && frames > 0 && r.healthy;
    var until := block.to;
    var discontinuities := if previous.Some? then previous.value.discontinuities else 0;
    var contiguousFrom := if verified then Some(block.from) else None;
    if verified && previous.Some? && previous.value.verified {
      var p := previous.value;
      if block.from == p.until {
        contiguousFrom := if p.contiguousFrom.Some? then p.contiguousFrom else Some(block.from);
        frames := frames + p.renderedFrames;
      } else if block.from >= (if p.contiguousFrom.Some? then p.contiguousFrom.value else 0) && until <= p.until {
        contiguousFrom := if p.contiguousFrom.Some? then p.contiguousFrom else Some(block.from);
        until := p.until;
        frames := frames + p.renderedFrames;
      } else {
        discontinuities := discontinuities + 1;
        verified := false;
      }
    }
    return ShadowRecord(contiguousFrom, until, r.contentHash, r.healthy, frames, discontinuities, verified, r.at);
  }

  method MergeLiveReport(previous: Option<LiveRecord>, r: LiveReport) returns (record: LiveRecord)
    ensures record == MergeLive(previous, r)
  {
    var first, last, sequence := Clamped(r.first), Clamped(r.last), Clamped(r.sequence);
    var frames := Max(0, r.frames);
    var verified := r.healthy && first.Some? && last.Some? && last.value > first.value && frames > 0 && sequence.Some?;
    var discontinuities := if previous.Some? then previous.value.discontinuities else 0;
    if verified && previous.Some? && previous.value.verified {
      var p := previous.value;
      var previousSequence := if p.sequence.Some? then p.sequence.value else -1;
      var previousLast := if p.last.Some? then p.last.value else -1;
      var previousFirst := if p.first.Some? then p.first.value else 0;
      if sequence.value == previousSequence && first.value >= previousFirst && last.value <= previousLast {
        first, last := Some(previousFirst), Some(previousLast);
        frames := frames + p.observedFrames;
      } else if sequence.value == previousSequence + 1 && first.value == previousLast {
        first := Some(previousFirst);
        frames := frames + p.observedFrames;
      } else {
        discontinuities := discontinuities + 1;
        verified := false;
      }
    }
    return LiveRecord(r.sourceId, r.healthy, Latency(r.latencyMs), first, last, frames, sequence, discontinuities, verified, r.at);
  }

  class HandoffExecutionRegistry {
    var shadow: map<Id, ShadowRecord>
    var live: map<int, LiveRecord>
    ghost var shadowReports: map<Id, seq<ShadowReport>>
    ghost var liveReports: map<int, seq<LiveReport>>

    /** Every record is the merge of the reports its source made since the registry was last cleared. */
    ghost predicate Valid() reads this {
      && shadow.Keys == shadowReports.Keys && live.Keys == liveReports.Keys
      && (forall id :: id in shadow ==> ShadowAfter(shadowReports[id]) == Some(shadow[id]))
      && (forall slot :: slot in live ==> 0 <= slot < 4 && LiveAfter(liveReports[slot]) == Some(live[slot]))
    }

    constructor ()
      ensures Valid() && shadow == map[] && live == map[]
    {
      shadow, live, shadowReports, liveReports := map[], map[], map[], map[];
    }

    /** False when the source has no id; then nothing changes. */
    method ReportShadow(sourceId: Id, r: ShadowReport) returns (ok: bool)
      requires Valid()
      modifies this`shadow, this`shadowReports
      ensures Valid() && (ok <==> sourceId != "")
      ensures !ok ==> shadow == old(shadow)
      ensures ok ==> shadow == old(shadow)[sourceId :=
        MergeShadow(if sourceId in old(shadow) then Some(old(shadow)[sourceId]) else None, r)]
      ensures ok ==> shadowReports == old(shadowReports)[sourceId :=
        (if sourceId in old(shadowReports) then old(shadowReports)[sourceId] else []) + [r]]
    {
      hide MergeShadow, MergeLive, ShadowAfter, LiveAfter;
      if sourceId == "" {
        return false;
      }
      var record := MergeShadowReport(if sourceId in shadow then Some(shadow[sourceId]) else None, r);
      ghost var reports := if sourceId in shadowReports then shadowReports[sourceId] else [];
      ShadowSnoc(reports, r);
      shadowReports := shadowReports[sourceId := reports + [r]];
      shadow := shadow[sourceId := record];
      return true;
    }

    /** False for a slot outside 0..3 or a feed without an id; then nothing changes. */
    method ReportLive(slot: int, r: LiveReport) returns (ok: bool)
      requires Valid()
      modifies this`live, this`liveReports
      ensures Valid() && (ok <==> 0 <= slot < 4 && r.sourceId != "")
      ensures !ok ==> live == old(live)
      ensures ok ==> live == old(live)[slot := MergeLive(if slot in old(live) then Some(old(live)[slot]) else None, r)]
      ensures ok ==> liveReports == old(liveReports)[slot :=
        (if slot in old(liveReports) then old(liveReports)[slot] else []) + [r]]
    {
      hide MergeShadow, MergeLive, ShadowAfter, LiveAfter;
      if slot < 0 || slot >= 4 || r.sourceId == "" {
        return false;
      }
      var record := MergeLiveReport(if slot in live then Some(live[slot]) else None, r);
      ghost var reports := if slot in liveReports then liveReports[slot] else [];
      LiveSnoc(reports, r);
      liveReports := liveReports[slot := reports + [r]];
      live := live[slot := record];
      return true;
    }

    method Clear()
      modifies this
      ensures Valid() && shadow == map[] && live == map[]
    {
      shadow, live, shadowReports, liveReports := map[], map[], map[], map[];
    }
  }
}
