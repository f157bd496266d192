/** Live playback: blocks for the output queue, straight through or round a loop of any length. */
module Playback {
  import opened Numbers
  import opened Options
  import opened RenderPlan
  import opened Mixing
  import opened OfflineRender

  const QUANTUM := 256

  /** The frame `k` frames into a loop. */
  function LoopFrame(start: int, end: int, k: int): int
    requires start < end
  {
    start + k % (end - start)
  }

  /** The endless looped mix, from `from` frames into the loop. */
  function Looped(studio: Studio, regions: seq<Region>, start: int, end: int, from: int, count: nat): (r: seq<Frame>)
    requires start < end
    ensures |r| == count && forall i :: 0 <= i < count ==> r[i] == MixAt(studio, regions, LoopFrame(start, end, from + i))
  {
    seq(count, i requires 0 <= i < count => MixAt(studio, regions, LoopFrame(start, end, from + i)))
  }

  function AdvanceLoop(position: int, frames: int, start: int, end: int): Option<int> {
    var span := end - start;
    if span <= 0 then None else Some(start + (position - start + frames) % span)
  }

  lemma SmallRemainder(a: int, b: int, n: int)
    requires 0 <= b < n && exists q: int :: a == q * n + b
    ensures a % n == b
  {
    var q: int :| a == q * n + b;
    assert a == a / n * n + a % n;
    var d := a / n - q;
    assert d * n == a / n * n - q * n;
    assert d * n == b - a % n;
    if d != 0 { TooFar(d, n); }
  }

  lemma TooFar(d: int, n: int)
    requires d != 0 && n > 0
    ensures d * n >= n || d * n <= -n
  {
    if d > 0 {
      NotNegative(d - 1, n);
      assert (d - 1) * n == d * n - n;
    } else {
      NotNegative(-d - 1, n);
      assert (-d - 1) * n == -(d * n) - n;
    }
  }

  lemma NotNegative(x: nat, n: nat)
    ensures x * n >= 0
  {
  }

  /** Within a loop the frames follow each other; at its end comes its beginning. */
  lemma LoopSteps(start: int, end: int, k: int, j: int)
    requires start < end && 0 <= j && LoopFrame(start, end, k) + j <= end
    ensures LoopFrame(start, end, k + j) == if LoopFrame(start, end, k) + j < end then LoopFrame(start, end, k) + j else start
  {
    var n := end - start;
    var r := k % n + j;
    assert k == k / n * n + k % n;
    if r < n {
      assert k + j == k / n * n + r;
      SmallRemainder(k + j, r, n);
    } else {
      assert k + j == (k / n + 1) * n + 0;
      SmallRemainder(k + j, 0, n);
    }
  }

  lemma LoopedStretch(studio: Studio, regions: seq<Region>, start: int, end: int, from: int, amount: nat)
    requires start < end && LoopFrame(start, end, from) + amount <= end
    ensures Looped(studio, regions, start, end, from, amount) == Mixed(studio, regions, LoopFrame(start, end, from), amount)
  {
    hide MixAt, LoopFrame;
    var looped, straight := Looped(studio, regions, start, end, from, amount), Mixed(studio, regions, LoopFrame(start, end, from), amount);
    forall i | 0 <= i < amount ensures looped[i] == straight[i] {
      LoopSteps(start, end, from, i);
    }
  }

  lemma LoopedJoins(studio: Studio, regions: seq<Region>, start: int, end: int, from: int, a: nat, b: nat)
    requires start < end
    ensures Looped(studio, regions, start, end, from, a) + Looped(studio, regions, start, end, from + a, b) ==
            Looped(studio, regions, start, end, from, a + b)
  {
    hide MixAt, LoopFrame;
  }

  /** Copies a block into the buffers from `written` on. */
  method CopyInto(left: array<real>, right: array<real>, written: nat, sl: array<real>, sr: array<real>,
                  ghost before: seq<Frame>, ghost more: seq<Frame>)
    requires left != right && left != sl && left != sr && right != sl && right != sr
    requires Holds(sl, sr, more) && written == |before| && written + |more| <= left.Length == right.Length
    requires HoldsFirst(left, right, before)
    modifies left, right
    ensures HoldsFirst(left, right, before + more)
  {
    for i := 0 to sl.Length
      invariant Holds(sl, sr, more) && HoldsFirst(left, right, before + more[..i])
    {
      left[written + i] := sl[i];
      right[written + i] := sr[i];
    }
    assert more[..|more|] == more;
  }

  ghost predicate HoldsFirst(left: array<real>, right: array<real>, sounds: seq<Frame>)
    reads left, right
  {
    |sounds| <= left.Length == right.Length && forall i :: 0 <= i < |sounds| ==> left[i] == sounds[i].left && right[i] == sounds[i].right
  }

  /** A block of the loop from a position in it: as many times round as the block is long; refused outside the loop. */
  method LoopBlock(studio: Studio, regions: seq<Region>, position: int, frames: nat, start: int, end: int)
    returns (ok: bool, left: array<real>, right: array<real>)
    ensures ok <==> start <= position < end
    ensures ok ==> Holds(left, right, Looped(studio, regions, start, end, position - start, frames))
  {
    hide Looped, HoldsFirst, LoopFrame, Holds;
    left := new real[frames](_ => 0.0);
    right := new real[frames](_ => 0.0);
    if end <= start || position < start || position >= end { return false, left, right; }
    ok := true;
    var written, cursor: int := 0, position;
    StartOfLoop(studio, regions, start, end, position, left, right);
    while written < frames
      invariant 0 <= written <= frames && start <= cursor < end
      invariant cursor == LoopFrame(start, end, position - start + written)
      invariant HoldsFirst(left, right, Looped(studio, regions, start, end, position - start, written))
    {
      var amount := LoopTurn(studio, regions, start, end, position - start, written, cursor, left, right);
      LoopSteps(start, end, position - start + written, amount);
      written := written + amount;
      cursor := cursor + amount;
      if cursor >= end { cursor := start; }
    }
    HoldsAll(left, right, Looped(studio, regions, start, end, position - start, frames));
  }

  /** One turn of the loop: up to the end of the block, or of the loop. */
  method LoopTurn(studio: Studio, regions: seq<Region>, start: int, end: int, ghost from: int, written: nat, cursor: int,
                  left: array<real>, right: array<real>)
    returns (amount: nat)
    requires start <= cursor < end && written < left.Length == right.Length && left != right
    requires cursor == LoopFrame(start, end, from + written)
    requires HoldsFirst(left, right, Looped(studio, regions, start, end, from, written))
    modifies left, right
    ensures 0 < amount && written + amount <= left.Length && cursor + amount <= end
    ensures HoldsFirst(left, right, Looped(studio, regions, start, end, from, written + amount))
  {
    hide Looped, Mixed, HoldsFirst, LoopFrame;
    amount := Min(left.Length - written, end - cursor);
    var sl, sr := Block(studio, regions, cursor, amount);
    ghost var more := Mixed(studio, regions, cursor, amount);
    CopyInto(left, right, written, sl, sr, Looped(studio, regions, start, end, from, written), more);
    LoopedStretch(studio, regions, start, end, from + written, amount);
    LoopedJoins(studio, regions, start, end, from, written, amount);
  }

  lemma StartOfLoop(studio: Studio, regions: seq<Region>, start: int, end: int, position: int, left: array<real>, right: array<real>)
    requires start <= position < end && left.Length == right.Length
    ensures LoopFrame(start, end, position - start) == position
    ensures Looped(studio, regions, start, end, position - start, 0) == []
    ensures HoldsFirst(left, right, [])
  {
    SmallRemainder(position - start, position - start, end - start) by {
      assert position - start == 0 * (end - start) + (position - start);
    }
  }

  lemma HoldsAll(left: array<real>, right: array<real>, sounds: seq<Frame>)
    requires HoldsFirst(left, right, sounds) && |sounds| == left.Length
    ensures Holds(left, right, sounds)
  {
  }

  /** The frames a pair of buffers holds. */
  method Submit(left: array<real>, right: array<real>, ghost sounds: seq<Frame>) returns (pcm: seq<Frame>)
    requires Holds(left, right, sounds)
    ensures pcm == sounds
  {
    pcm := [];
    for i := 0 to left.Length
      invariant pcm == sounds[..i]
    {
      pcm := pcm + [Frame(left[i], right[i])];
    }
  }

  /** A looped run of any number of blocks: frame `k` of what was produced is the mix `k` frames into the endless loop. */
  method RunLooped(studio: Studio, plan: Plan, blocks: nat) returns (produced: seq<Frame>, position: int)
    requires plan.start < plan.end
    ensures produced == Looped(studio, plan.regions, plan.start, plan.end, 0, QUANTUM * blocks)
    ensures position == LoopFrame(plan.start, plan.end, QUANTUM * blocks)
  {
    hide Looped, LoopFrame, Holds, AdvanceLoop, MixAt;
    var start, end := plan.start, plan.end;
    position, produced := start, [];
    LoopBegins(studio, plan.regions, start, end);
    for b := 0 to blocks
      invariant produced == Looped(studio, plan.regions, start, end, 0, QUANTUM * b)
      invariant position == LoopFrame(start, end, QUANTUM * b)
    {
      LoopFrameInside(start, end, QUANTUM * b);
      if position >= end { position := start; }
      var ok, left, right := LoopBlock(studio, plan.regions, position, QUANTUM, start, end);
      SamePlace(studio, plan.regions, start, end, QUANTUM * b, QUANTUM);
      var pcm := Submit(left, right, Looped(studio, plan.regions, start, end, position - start, QUANTUM));
      LoopedJoins(studio, plan.regions, start, end, 0, QUANTUM * b, QUANTUM);
      produced := produced + pcm;
      position := AdvanceLoop(position, QUANTUM, start, end).value;
    }
  }

  lemma LoopBegins(studio: Studio, regions: seq<Region>, start: int, end: int)
    requires start < end
    ensures Looped(studio, regions, start, end, 0, 0) == [] && LoopFrame(start, end, 0) == start
  {
  }

  lemma LoopFrameInside(start: int, end: int, k: int)
    requires start < end
    ensures start <= LoopFrame(start, end, k) < end
  {
  }

  lemma RemainderAgain(k: int, j: int, n: int)
    requires n > 0
    ensures (k % n + j) % n == (k + j) % n
  {
    var a, b := k % n + j, k + j;
    assert k == k / n * n + k % n && a == a / n * n + a % n;
    assert b == (k / n + a / n) * n + a % n;
    SmallRemainder(b, a % n, n);
  }

  /** Playing on from a position is playing on from any count of frames that leads there. */
  lemma SamePlace(studio: Studio, regions: seq<Region>, start: int, end: int, k: int, count: nat)
    requires start < end
    ensures var position := LoopFrame(start, end, k);
      && Looped(studio, regions, start, end, position - start, count) == Looped(studio, regions, start, end, k, count)
      && AdvanceLoop(position, count, start, end) == Some(LoopFrame(start, end, k + count))
  {
    hide MixAt, LoopFrame;
    var position := LoopFrame(start, end, k);
    var here, there := Looped(studio, regions, start, end, position - start, count), Looped(studio, regions, start, end, k, count);
    forall i | 0 <= i < count ensures here[i] == there[i] {
      SameFrame(start, end, k, i);
    }
    SameFrame(start, end, k, count);
  }

  lemma SameFrame(start: int, end: int, k: int, j: int)
    requires start < end
    ensures LoopFrame(start, end, LoopFrame(start, end, k) - start + j) == LoopFrame(start, end, k + j)
    ensures AdvanceLoop(LoopFrame(start, end, k), j, start, end) == Some(LoopFrame(start, end, k + j))
  {
    RemainderAgain(k, j, end - start);
  }

  /** The mix of the range, then silence up to a whole number of blocks. */
  function Padded(studio: Studio, plan: Plan): seq<Frame>
    requires plan.start <= plan.end
  {
    Mixed(studio, plan.regions, plan.start, plan.end - plan.start) + seq((plan.start - plan.end) % QUANTUM, _ => SILENCE)
  }

  /** A run through the range once, stopped after at most `limit` blocks: the range's mix, in order, and padding after its end only. */
  method RunOnce(studio: Studio, plan: Plan, limit: nat) returns (produced: seq<Frame>, position: int)
    requires plan.start <= plan.end
    ensures produced <= Padded(studio, plan)
    ensures position == plan.start + |produced| && |produced| <= QUANTUM * limit
    ensures produced == Padded(studio, plan) <==> position >= plan.end
    ensures position < plan.end ==> |produced| == QUANTUM * limit
  {
    hide Holds, MixAt;
    var blocks := 0;
    position, produced := plan.start, [];
    while position < plan.end && blocks < limit
      invariant plan.start <= position < plan.end + QUANTUM && 0 <= blocks <= limit
      invariant position == plan.start + |produced| && |produced| == QUANTUM * blocks
      invariant produced <= Padded(studio, plan)
      decreases limit - blocks
    {
      var frames := Min(QUANTUM, plan.end - position);
      var left, right := Block(studio, plan.regions, position, frames);
      var pcm := Submit(left, right, Mixed(studio, plan.regions, position, frames));
      if frames < QUANTUM { pcm := pcm + seq(QUANTUM - frames, _ => SILENCE); }
      NextBlock(studio, plan, |produced|, pcm);
      produced := produced + pcm;
      position := position + QUANTUM;
      blocks := blocks + 1;
    }
    WholeBlocks(studio, plan, blocks);
  }

  lemma NextBlock(studio: Studio, plan: Plan, done: nat, pcm: seq<Frame>)
    requires plan.start <= plan.start + done < plan.end && done % QUANTUM == 0
    requires var frames := Min(QUANTUM, plan.end - plan.start - done);
      pcm == Mixed(studio, plan.regions, plan.start + done, frames) + seq(QUANTUM - frames, _ => SILENCE)
    ensures done + QUANTUM <= |Padded(studio, plan)| && Padded(studio, plan)[done..done + QUANTUM] == pcm
  {
    hide MixAt;
  }

  lemma WholeBlocks(studio: Studio, plan: Plan, blocks: nat)
    requires plan.start <= plan.end
    ensures QUANTUM * blocks <= |Padded(studio, plan)| ==>
              (QUANTUM * blocks == |Padded(studio, plan)| <==> plan.start + QUANTUM * blocks >= plan.end)
  {
    hide MixAt;
  }
}
