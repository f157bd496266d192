/** The punch capture gate: latency-corrected windowing of a stream of blocks, cut at loop passes. */
module PunchCapture {
  import opened Numbers
  import opened Options
  import opened Sequences

  const MAX_PRE_ROLL_FRAMES := 65536
  const MAX_LOOP_PASSES := 128

  datatype Loop = Loop(start: int, end: int)

  datatype Arguments = Arguments(generation: int, punchIn: int, punchOut: Option<int>, preRoll: int, latency: int,
                                 loopStart: Option<int>, loopEnd: Option<int>, maximumPasses: int)

  datatype Refusal = BadGeneration | BadPreRoll | BadLatency | BadPunchRange | BadLoop | BadPasses

  /** Why the arguments are refused, if they are; the checks in order. */
  function Refused(a: Arguments): Option<Refusal> {
    var looping := a.loopStart.Some? || a.loopEnd.Some?;
    if a.generation < 1 then Some(BadGeneration)
    else if a.preRoll < 0 || a.preRoll > MAX_PRE_ROLL_FRAMES then Some(BadPreRoll)
    else if a.latency < 0 || a.latency > MAX_PRE_ROLL_FRAMES then Some(BadLatency)
    else if a.punchIn < 0 || (a.punchOut.Some? && a.punchOut.value <= a.punchIn) then Some(BadPunchRange)
    else if looping && (a.loopStart.None? || a.loopEnd.None? || a.loopStart.value < 0 || a.loopEnd.value <= a.loopStart.value)
    then Some(BadLoop)
    else if a.maximumPasses < 1 || a.maximumPasses > MAX_LOOP_PASSES then Some(BadPasses)
    else None
  }

  // What a gate is set to capture.
  datatype Window = Window(generation: int, latency: nat, loop: Option<Loop>, maximumPasses: nat,
                           captureStart: int, captureEnd: Option<int>)

  ghost predicate Sane(w: Window) {
    && w.captureStart >= 0 && w.maximumPasses >= 1
    && (w.loop.Some? ==>
          var l := w.loop.value;
          0 <= l.start < l.end && w.captureEnd == Some(l.start + (l.end - l.start) * w.maximumPasses))
  }

  datatype Block = Block(generation: Option<int>, frames: int, showFrame: int)

  predicate Stale(w: Window, b: Block) { b.generation.Some? && b.generation.value != w.generation }

  /** A block's first frame once latency is taken off, not before the start of the timeline. */
  function CorrectedStart(w: Window, b: Block): int { Max(0, b.showFrame - w.latency) }

  function CorrectedEnd(w: Window, b: Block): int { CorrectedStart(w, b) + b.frames }

  function Begin(w: Window, b: Block): int { Max(CorrectedStart(w, b), w.captureStart) }

  function Finish(w: Window, b: Block): int {
    if w.captureEnd.Some? then Min(CorrectedEnd(w, b), w.captureEnd.value) else CorrectedEnd(w, b)
  }

  /** Where a corrected frame lies: before the loop (-1), or in which pass of it; 0 when not looping. */
  function PassOf(w: Window, frame: int): int {
    if w.loop.None? then 0
    else if frame < w.loop.value.start || w.loop.value.end <= w.loop.value.start then -1
    else (frame - w.loop.value.start) / (w.loop.value.end - w.loop.value.start)
  }

  datatype CaptureSlice = CaptureSlice(offset: int, frames: int, start: int, loopPass: int)

  /** The frames from `from` up to `to`, in order. */
  function Range(from: int, to: int): seq<int> { seq(Max(0, to - from), i requires i >= 0 => from + i) }

  function FramesOf(slices: seq<CaptureSlice>): seq<int> {
    if slices == [] then []
    else
      var last := slices[|slices| - 1];
      FramesOf(slices[..|slices| - 1]) + Range(last.start, last.start + last.frames)
  }

  function TotalFrames(slices: seq<CaptureSlice>): int {
    if slices == [] then 0 else TotalFrames(slices[..|slices| - 1]) + slices[|slices| - 1].frames
  }

  /** A slice lies in one pass and says which; its offset points at its first frame inside the block. */
  ghost predicate SliceOk(w: Window, b: Block, s: CaptureSlice) {
    && s.frames > 0 && s.offset == s.start - CorrectedStart(w, b)
    && 0 <= s.offset && s.offset + s.frames <= b.frames
    && (forall f :: s.start <= f < s.start + s.frames ==> PassOf(w, f) == PassOf(w, s.start))
    && s.loopPass == Max(0, PassOf(w, s.start)) && 0 <= s.loopPass
    && (w.loop.Some? ==> s.loopPass < w.maximumPasses)
    && InItsPass(w, s)
  }

  /** The slice lies between the beginning and the end of the pass it names; before the loop and without one it names 0. */
  ghost predicate InItsPass(w: Window, s: CaptureSlice) {
    match w.loop
    case None => s.loopPass == 0
    case Some(l) =>
      var length := l.end - l.start;
      if s.start < l.start then s.loopPass == 0 && s.start + s.frames <= l.start
      else l.start + s.loopPass * length <= s.start && s.start + s.frames <= l.start + (s.loopPass + 1) * length
  }

  ghost predicate SlicesOk(w: Window, b: Block, slices: seq<CaptureSlice>) {
    forall i :: 0 <= i < |slices| ==> SliceOk(w, b, slices[i])
  }

  lemma RangeJoins(a: int, b: int, c: int)
    requires a <= b <= c
    ensures Range(a, b) + Range(b, c) == Range(a, c)
  {
  }

  lemma FramesSnoc(slices: seq<CaptureSlice>, s: CaptureSlice)
    ensures FramesOf(slices + [s]) == FramesOf(slices) + Range(s.start, s.start + s.frames)
    ensures TotalFrames(slices + [s]) == TotalFrames(slices) + s.frames
  {
    assert (slices + [s])[..|slices|] == slices;
  }

  /** Up to the pass boundary computed for `cursor`, every frame is in the cursor's pass. */
  lemma OnePass(w: Window, cursor: int, boundary: int, f: int)
    requires Sane(w) && cursor <= f < boundary
    requires w.loop.Some? ==> var l := w.loop.value;
      boundary <= if cursor < l.start then l.start else l.start + (PassOf(w, cursor) + 1) * (l.end - l.start)
    ensures PassOf(w, f) == PassOf(w, cursor)
  {
    if w.loop.Some? && cursor >= w.loop.value.start {
      var l := w.loop.value;
      SameQuotient(cursor - l.start, f - l.start, l.end - l.start);
    }
  }

  lemma SameQuotient(a: int, b: int, k: int)
    requires 0 <= a <= b && k > 0 && b < (a / k + 1) * k
    ensures a / k == b / k
  {
    assert a == a / k * k + a % k && b == b / k * k + b % k;
    if b / k > a / k { Below(a / k + 1, b / k, k); }
    if b / k < a / k { Below(b / k + 1, a / k, k); }
    assert (a / k + 1) * k == a / k * k + k && (b / k + 1) * k == b / k * k + k;
  }

  lemma Below(m: int, n: int, k: int)
    requires m <= n && k > 0
    ensures m * k <= n * k
  {
    assert (n - m) * k >= 0;
  }

  /** The next boundary is strictly ahead, and a frame before the capture end is in an allowed pass. */
  lemma PassBounds(w: Window, cursor: int)
    requires Sane(w) && w.loop.Some? && cursor >= w.loop.value.start
    ensures var l := w.loop.value; var k := l.end - l.start;
      && l.start + PassOf(w, cursor) * k <= cursor < l.start + (PassOf(w, cursor) + 1) * k && PassOf(w, cursor) >= 0
      && (cursor < w.captureEnd.value ==> PassOf(w, cursor) < w.maximumPasses)
  {
    var l := w.loop.value;
    QuotientBounds(cursor - l.start, l.end - l.start, w.maximumPasses);
  }

  lemma QuotientBounds(a: int, k: int, limit: nat)
    requires a >= 0 && k > 0
    ensures 0 <= a / k && a / k * k <= a < (a / k + 1) * k
    ensures a < k * limit ==> a / k < limit
  {
    var q := a / k;
    assert a == q * k + a % k;
    assert (q + 1) * k == q * k + k;
    if q >= limit { Below(limit, q, k); }
  }

  class PunchCaptureGate {
    const window: Window
    const arguments: Arguments
    var selectedFrames: int
    var discardedFrames: int
    var staleBlocks: nat
    var loopPasses: set<int>
    var complete: bool
    ghost var received: int

    /** Every frame of every block of this generation was either selected or discarded. */
    ghost predicate Valid() reads this {
      && Sane(window)
      && selectedFrames + discardedFrames == received
      && (forall p :: p in loopPasses ==> 0 <= p < window.maximumPasses)
    }

    constructor (a: Arguments)
      requires Refused(a).None?
      ensures Valid() && arguments == a
      ensures window.captureStart == Max(0, a.punchIn - a.preRoll)
      ensures window.captureEnd == if a.loopStart.Some?
                                   then Some(a.loopStart.value + (a.loopEnd.value - a.loopStart.value) * a.maximumPasses)
                                   else a.punchOut
      ensures window.generation == a.generation && window.latency == a.latency && window.maximumPasses == a.maximumPasses
      ensures window.loop == if a.loopStart.Some? then Some(Loop(a.loopStart.value, a.loopEnd.value)) else None
      ensures selectedFrames == 0 && discardedFrames == 0 && staleBlocks == 0 && loopPasses == {} && !complete && received == 0
    {
      arguments := a;
      var loop := if a.loopStart.Some? then Some(Loop(a.loopStart.value, a.loopEnd.value)) else None;
      var end := if a.loopStart.Some? then Some(a.loopStart.value + (a.loopEnd.value - a.loopStart.value) * a.maximumPasses)
                 else a.punchOut;
      window := Window(a.generation, a.latency, loop, a.maximumPasses, Max(0, a.punchIn - a.preRoll), end);
      selectedFrames, discardedFrames, staleBlocks, loopPasses, complete, received := 0, 0, 0, {}, false, 0;
    }

    /** Selects the part of the block inside the window, as slices that never cross a pass boundary. */
    method Select(b: Block) returns (slices: seq<CaptureSlice>)
      requires Valid()
      modifies this
      ensures Valid()
      ensures Stale(window, b) ==> slices == [] && staleBlocks == old(staleBlocks) + 1 && received == old(received)
      ensures Stale(window, b) ==> selectedFrames == old(selectedFrames) && discardedFrames == old(discardedFrames)
      ensures Stale(window, b) ==> loopPasses == old(loopPasses) && complete == old(complete)
      ensures !Stale(window, b) ==> staleBlocks == old(staleBlocks) && received == old(received) + b.frames
      ensures !Stale(window, b) ==> FramesOf(slices) == Range(Begin(window, b), Finish(window, b)) && SlicesOk(window, b, slices)
      ensures !Stale(window, b) ==> selectedFrames == old(selectedFrames) + Max(0, Finish(window, b) - Begin(window, b))
      ensures !Stale(window, b) ==> loopPasses == old(loopPasses) + Passes(window, slices)
      ensures !Stale(window, b) ==> complete == (window.captureEnd.Some? && CorrectedEnd(window, b) >= window.captureEnd.value)
    {
      if b.generation.Some? && b.generation.value != window.generation {
        staleBlocks := staleBlocks + 1;
        return [];
      }
      received := received + b.frames;
      var start := Max(0, b.showFrame - window.latency);
      var end := start + b.frames;
      var windowEnd := if window.captureEnd.Some? then window.captureEnd.value else end;
      var begin, finish := Max(start, window.captureStart), Min(end, windowEnd);
      complete := window.captureEnd.Some? && end >= window.captureEnd.value;
      if finish <= begin {
        discardedFrames := discardedFrames + b.frames;
        return [];
      }
      var passes;
      slices, passes := CutAtPasses(window, b, begin, finish);
      loopPasses := loopPasses + passes;
      var selected := SumFrames(slices);
      selectedFrames := selectedFrames + selected;
      discardedFrames := discardedFrames + b.frames - selected;
    }
  }

  /** The passes the slices record. */
  function Passes(w: Window, slices: seq<CaptureSlice>): set<int> {
    set s | s in slices && w.loop.Some? && s.start >= w.loop.value.start :: s.loopPass
  }

  /** Where the slice that begins at `cursor` stops, and the pass it is in. */
  ghost predicate CutsAt(w: Window, cursor: int, finish: int, boundary: int, loopPass: int) {
    if w.loop.Some? && cursor >= w.loop.value.start then
      && loopPass == PassOf(w, cursor)
      && boundary == Min(finish, w.loop.value.start + (loopPass + 1) * (w.loop.value.end - w.loop.value.start))
    else
      loopPass == 0 && boundary == if w.loop.Some? then Min(finish, w.loop.value.start) else finish
  }

  lemma CutIsOk(w: Window, b: Block, cursor: int, boundary: int, loopPass: int)
    requires Sane(w) && Begin(w, b) <= cursor < Finish(w, b)
    requires CutsAt(w, cursor, Finish(w, b), boundary, loopPass)
    ensures cursor < boundary <= Finish(w, b)
    ensures SliceOk(w, b, CaptureSlice(cursor - CorrectedStart(w, b), boundary - cursor, cursor, loopPass))
  {
    if w.loop.Some? && cursor >= w.loop.value.start { PassBounds(w, cursor); }
    forall f | cursor <= f < boundary ensures PassOf(w, f) == PassOf(w, cursor) {
      OnePass(w, cursor, boundary, f);
    }
  }

  /** The frames from `begin` up to `finish` of the block, cut wherever a pass of the loop begins. */
  method CutAtPasses(w: Window, b: Block, begin: int, finish: int) returns (slices: seq<CaptureSlice>, passes: set<int>)
    requires Sane(w) && begin == Begin(w, b) < Finish(w, b) == finish
    ensures FramesOf(slices) == Range(begin, finish) && TotalFrames(slices) == finish - begin
    ensures SlicesOk(w, b, slices) && passes == Passes(w, slices)
    ensures forall p :: p in passes ==> 0 <= p < w.maximumPasses
  {
    hide FramesOf, TotalFrames, Passes, SliceOk, Begin, Finish, CorrectedStart;
    slices, passes := [], {};
    NoSlices(w);
    var cursor := begin;
    while cursor < finish
      invariant begin <= cursor <= finish
      invariant FramesOf(slices) == Range(begin, cursor) && TotalFrames(slices) == cursor - begin
      invariant SlicesOk(w, b, slices) && passes == Passes(w, slices)
    {
      var loopPass, boundary := 0, finish;
      var added := {};
      if w.loop.Some? {
        var l := w.loop.value;
        if cursor < l.start {
          boundary := Min(finish, l.start);
        } else {
          var length := l.end - l.start;
          loopPass := (cursor - l.start) / length;
          boundary := Min(finish, l.start + (loopPass + 1) * length);
          added := {loopPass};
        }
      }
      CutIsOk(w, b, cursor, boundary, loopPass);
      var slice := CaptureSlice(cursor - CorrectedStart(w, b), boundary - cursor, cursor, loopPass);
      FramesSnoc(slices, slice);
      RangeJoins(begin, cursor, boundary);
      PassesSnoc(w, slices, slice);
      passes := passes + added;
      slices := slices + [slice];
      cursor := boundary;
    }
    PassesInRange(w, b, slices);
  }

  lemma NoSlices(w: Window)
    ensures FramesOf([]) == [] && TotalFrames([]) == 0 && Passes(w, []) == {}
  {
  }

  lemma PassesInRange(w: Window, b: Block, slices: seq<CaptureSlice>)
    requires SlicesOk(w, b, slices)
    ensures forall p :: p in Passes(w, slices) ==> 0 <= p < w.maximumPasses
  {
    forall s | s in slices && w.loop.Some? ensures 0 <= s.loopPass < w.maximumPasses {
      var i: nat :| i < |slices| && slices[i] == s;
      assert SliceOk(w, b, slices[i]);
    }
  }

  lemma PassesSnoc(w: Window, slices: seq<CaptureSlice>, s: CaptureSlice)
    ensures Passes(w, slices + [s]) ==
            Passes(w, slices) + if w.loop.Some? && s.start >= w.loop.value.start then {s.loopPass} else {}
  {
    var all := slices + [s];
    assert forall t :: t in all <==> t in slices || t == s;
  }

  method SumFrames(slices: seq<CaptureSlice>) returns (total: int)
    ensures total == TotalFrames(slices)
  {
    total := 0;
    for i := 0 to |slices|
      invariant total == TotalFrames(slices[..i])
    {
      assert slices[..i + 1][..i] == slices[..i];
      total := total + slices[i].frames;
    }
    assert slices[..|slices|] == slices;
  }

  // ---- runs of blocks ----

  /** The blocks of the gate's own generation, in order. */
  function OwnBlocks(w: Window, blocks: seq<Block>): seq<Block> {
    if blocks == [] then []
    else
      var last := blocks[|blocks| - 1];
      OwnBlocks(w, blocks[..|blocks| - 1]) + if Stale(w, last) then [] else [last]
  }

  function SelectedFrom(w: Window, b: Block): seq<int> { Range(Begin(w, b), Finish(w, b)) }

  /** Everything a run of blocks selects, in the order it is delivered. */
  function Selected(w: Window, blocks: seq<Block>): seq<int> {
    if blocks == [] then []
    else
      var last := blocks[|blocks| - 1];
      Selected(w, blocks[..|blocks| - 1]) + if Stale(w, last) then [] else SelectedFrom(w, last)
  }

  function FramesReceived(blocks: seq<Block>): int {
    if blocks == [] then 0 else FramesReceived(blocks[..|blocks| - 1]) + blocks[|blocks| - 1].frames
  }

  /** Consecutive blocks that leave no gap and no overlap on the show timeline. */
  ghost predicate GapFree(blocks: seq<Block>) {
    && (forall i :: 0 <= i < |blocks| ==> blocks[i].frames >= 0)
    && (forall i :: 0 < i < |blocks| ==> blocks[i].showFrame == blocks[i - 1].showFrame + blocks[i - 1].frames)
  }

  /** The capture window cut to the frames from `from` up to `to`. */
  function Clip(w: Window, from: int, to: int): seq<int> {
    Range(Max(from, w.captureStart), if w.captureEnd.Some? then Min(to, w.captureEnd.value) else to)
  }

  /** What the frames of a block would select at their latency-corrected places. */
  function Due(w: Window, b: Block): seq<int> { Clip(w, b.showFrame - w.latency, b.showFrame + b.frames - w.latency) }

  /** What a gap-free run would select at its latency-corrected place. */
  function RunDue(w: Window, run: seq<Block>): seq<int>
    requires run != []
  {
    var last := run[|run| - 1];
    Clip(w, run[0].showFrame - w.latency, last.showFrame + last.frames - w.latency)
  }

  /** Moving a block that begins before the latency to frame zero does no harm to the window. */
  predicate Harmless(w: Window, b: Block) {
    || b.showFrame >= w.latency
    || b.frames <= w.captureStart
    || (w.captureEnd.Some? && (w.captureEnd.value <= w.captureStart || w.captureEnd.value <= b.showFrame + b.frames - w.latency))
  }

  lemma ClipJoins(w: Window, a: int, b: int, c: int)
    requires a <= b <= c
    ensures Clip(w, a, b) + Clip(w, b, c) == Clip(w, a, c)
  {
  }

  /** A block selects at least what is due of it, and just that when it is harmless. */
  lemma BlockSelects(w: Window, b: Block)
    requires Sane(w) && b.frames >= 0
    ensures |SelectedFrom(w, b)| >= |Due(w, b)|
    ensures |SelectedFrom(w, b)| == |Due(w, b)| <==> Harmless(w, b)
    ensures Harmless(w, b) ==> SelectedFrom(w, b) == Due(w, b)
  {
  }

  lemma {:induction false} OwnSelects(w: Window, blocks: seq<Block>)
    ensures Selected(w, OwnBlocks(w, blocks)) == Selected(w, blocks)
    ensures forall b :: b in OwnBlocks(w, blocks) ==> !Stale(w, b)
  {
    hide SelectedFrom;
    if blocks != [] {
      var m := |blocks| - 1;
      OwnSelects(w, blocks[..m]);
      var own := OwnBlocks(w, blocks[..m]);
      assert own + [] == own && (own + [blocks[m]])[..|own|] == own;
    }
  }

  ghost predicate AllHarmless(w: Window, run: seq<Block>) { forall i :: 0 <= i < |run| ==> Harmless(w, run[i]) }

  lemma {:induction false} OwnRunSelects(w: Window, run: seq<Block>)
    requires Sane(w) && GapFree(run) && run != [] && forall b :: b in run ==> !Stale(w, b)
    ensures run[|run| - 1].showFrame >= run[0].showFrame
    ensures |Selected(w, run)| >= |RunDue(w, run)|
    ensures |Selected(w, run)| == |RunDue(w, run)| <==> AllHarmless(w, run)
    ensures AllHarmless(w, run) ==> Selected(w, run) == RunDue(w, run)
  {
    hide Clip, SelectedFrom, Harmless, Stale, AllHarmless, Selected, GapFree, Sane, RunDue;
    var m := |run| - 1;
    var before, last := run[..m], run[m];
    assert last in run;
    assert forall b :: b in before ==> b in run;
    LastBlock(w, run);
    BlockSelects(w, last);
    if m > 0 {
      OwnRunSelects(w, before);
      RunDueJoins(w, run);
    }
  }

  /** The last block of an own run, apart from those before it. */
  lemma LastBlock(w: Window, run: seq<Block>)
    requires run != [] && GapFree(run) && !Stale(w, run[|run| - 1])
    ensures var m := |run| - 1;
      && run[m].frames >= 0 && (m > 0 ==> GapFree(run[..m]) && run[m].showFrame >= run[m - 1].showFrame)
      && Selected(w, run) == (if m == 0 then [] else Selected(w, run[..m])) + SelectedFrom(w, run[m])
      && (AllHarmless(w, run) <==> (m > 0 ==> AllHarmless(w, run[..m])) && Harmless(w, run[m]))
      && (m == 0 ==> RunDue(w, run) == Due(w, run[m]))
  {
    hide Clip, SelectedFrom, Harmless, Stale;
    var m := |run| - 1;
    assert forall i :: 0 <= i < m ==> run[..m][i] == run[i];
    if m == 0 { assert Selected(w, run[..0]) == []; }
  }

  lemma RunDueJoins(w: Window, run: seq<Block>)
    requires |run| > 1 && GapFree(run) && run[|run| - 2].showFrame >= run[0].showFrame
    ensures RunDue(w, run) == RunDue(w, run[..|run| - 1]) + Due(w, run[|run| - 1])
    ensures run[|run| - 1].showFrame >= run[0].showFrame
  {
    hide Clip;
    var m := |run| - 1;
    assert run[m].showFrame == run[m - 1].showFrame + run[m - 1].frames;
    ClipJoins(w, run[0].showFrame - w.latency, run[m].showFrame - w.latency, run[m].showFrame + run[m].frames - w.latency);
  }

  /**
   * A run whose own blocks are gap-free selects exactly the corrected frames inside the capture window, each
   * once and in order, however it was cut and whatever stale blocks lie between: if and only if every own
   * block that begins before the latency is harmless.
   */
  lemma RunSelectsWindow(w: Window, blocks: seq<Block>)
    requires Sane(w) && GapFree(OwnBlocks(w, blocks)) && OwnBlocks(w, blocks) != []
    ensures Selected(w, blocks) == RunDue(w, OwnBlocks(w, blocks)) <==> AllHarmless(w, OwnBlocks(w, blocks))
  {
    OwnSelects(w, blocks);
    OwnRunSelects(w, OwnBlocks(w, blocks));
  }

  lemma {:induction false} FramesJoin(a: seq<CaptureSlice>, b: seq<CaptureSlice>)
    ensures FramesOf(a + b) == FramesOf(a) + FramesOf(b)
  {
    hide Range;
    if b == [] {
      assert a + b == a;
    } else {
      var m := |b| - 1;
      FramesJoin(a, b[..m]);
      assert (a + b)[..|a + b| - 1] == a + b[..m];
      Associative(FramesOf(a), FramesOf(b[..m]), Range(b[m].start, b[m].start + b[m].frames));
    }
  }

  lemma RunSnoc(w: Window, blocks: seq<Block>, b: Block)
    ensures Selected(w, blocks + [b]) == Selected(w, blocks) + if Stale(w, b) then [] else SelectedFrom(w, b)
    ensures FramesReceived(OwnBlocks(w, blocks + [b])) == FramesReceived(OwnBlocks(w, blocks)) + if Stale(w, b) then 0 else b.frames
  {
    var own := OwnBlocks(w, blocks);
    assert (blocks + [b])[..|blocks|] == blocks;
    assert own + [] == own && (own + [b])[..|own|] == own;
  }

  /** Feeds a run of blocks to a gate: the slices are all the run selects, and every frame of an own block is counted once. */
  method SelectRun(gate: PunchCaptureGate, blocks: seq<Block>) returns (slices: seq<CaptureSlice>)
    requires gate.Valid()
    modifies gate
    ensures gate.Valid() && FramesOf(slices) == Selected(gate.window, blocks)
    ensures gate.selectedFrames == old(gate.selectedFrames) + |FramesOf(slices)|
    ensures gate.selectedFrames + gate.discardedFrames ==
            old(gate.selectedFrames + gate.discardedFrames) + FramesReceived(OwnBlocks(gate.window, blocks))
    ensures var own := OwnBlocks(gate.window, blocks);
      GapFree(own) && own != [] ==> (FramesOf(slices) == RunDue(gate.window, own) <==> AllHarmless(gate.window, own))
  {
    hide FramesOf, Selected, OwnBlocks, FramesReceived, Begin, Finish, Stale, SlicesOk, Passes, AllHarmless, RunDue;
    slices := [];
    NothingSelected(gate.window);
    for i := 0 to |blocks|
      invariant gate.Valid() && FramesOf(slices) == Selected(gate.window, blocks[..i])
      invariant gate.selectedFrames == old(gate.selectedFrames) + |FramesOf(slices)|
      invariant gate.selectedFrames + gate.discardedFrames ==
                old(gate.selectedFrames + gate.discardedFrames) + FramesReceived(OwnBlocks(gate.window, blocks[..i]))
    {
      var more := gate.Select(blocks[i]);
      assert blocks[..i + 1] == blocks[..i] + [blocks[i]];
      RunSnoc(gate.window, blocks[..i], blocks[i]);
      FramesJoin(slices, more);
      slices := slices + more;
    }
    assert blocks[..|blocks|] == blocks;
    if GapFree(OwnBlocks(gate.window, blocks)) && OwnBlocks(gate.window, blocks) != [] {
      RunSelectsWindow(gate.window, blocks);
    }
  }

  lemma NothingSelected(w: Window)
    ensures FramesOf([]) == [] && Selected(w, []) == [] && FramesReceived(OwnBlocks(w, [])) == 0
  {
  }

  /** Two adjacent blocks stay adjacent after correction exactly when the first does not start before the latency, or is empty. */
  lemma EarlyBlocksOverlap(w: Window, a: Block, b: Block)
    requires a.frames >= 0 && b.showFrame == a.showFrame + a.frames
    ensures CorrectedStart(w, b) == CorrectedEnd(w, a) <==> a.showFrame >= w.latency || a.frames == 0
  {
  }

  /** The arguments a gate accepts: both ends of a loop or neither, ranges that are not empty, and all within their bounds. */
  lemma AcceptedExactly(a: Arguments)
    ensures Refused(a).None? <==>
      && a.generation >= 1 && 0 <= a.preRoll <= MAX_PRE_ROLL_FRAMES && 0 <= a.latency <= MAX_PRE_ROLL_FRAMES
      && 0 <= a.punchIn && (a.punchOut.Some? ==> a.punchIn < a.punchOut.value)
      && (a.loopStart.Some? <==> a.loopEnd.Some?)
      && (a.loopStart.Some? && a.loopEnd.Some? ==> 0 <= a.loopStart.value < a.loopEnd.value)
      && 1 <= a.maximumPasses <= MAX_LOOP_PASSES
  {
  }
}
