/** Volume automation: the value of a lane at a frame, and the block form that walks the lane forwards. */
module Automation {
  import opened Numbers
  import opened StableSort

  // A point of a lane; its id only matters to the document it comes from.
  datatype Point = Point(id: nat, frame: int, value: real)

  function FrameKey(p: Point): Key { Key(p.frame, 0, 0) }

  function Interpolated(left: Point, right: Point, frame: int): real {
    var ratio := (frame - left.frame) as real / Max(1, right.frame - left.frame) as real;
    left.value + Times(right.value - left.value, ratio)
  }

  /** The first point from `i + 1` on that is not before the frame ends the segment; past the last, its value holds. */
  function ValueFrom(ordered: seq<Point>, i: nat, frame: int): real
    requires i < |ordered|
    decreases |ordered| - i
  {
    if i + 1 == |ordered| then ordered[i].value
    else if frame <= ordered[i + 1].frame then Interpolated(ordered[i], ordered[i + 1], frame)
    else ValueFrom(ordered, i + 1, frame)
  }

  /** The value of a lane at a frame, for points in any order, with or without repeated frames. */
  function AutomationValue(points: seq<Point>, frame: int, default: real): real {
    var ordered := SortBy(points, FrameKey);
    if ordered == [] || frame < ordered[0].frame then default else ValueFrom(ordered, 0, frame)
  }

  ghost predicate Ascending(ordered: seq<Point>) {
    forall i, j :: 0 <= i < j < |ordered| ==> ordered[i].frame <= ordered[j].frame
  }

  lemma SortedAscends(points: seq<Point>)
    ensures Ascending(SortBy(points, FrameKey))
  {
    var s := SortBy(points, FrameKey);
    SortByIsStableSort(points, FrameKey);
    forall i, j | 0 <= i < j < |s| ensures s[i].frame <= s[j].frame {
      assert FrameKey(s[i]).LessEq(FrameKey(s[j]));
    }
  }

  /** Segments that end before the frame can be skipped. */
  lemma {:induction false} SkipSegments(ordered: seq<Point>, from: nat, segment: nat, frame: int)
    requires from <= segment < |ordered|
    requires forall k :: from < k <= segment ==> ordered[k].frame < frame
    ensures ValueFrom(ordered, from, frame) == ValueFrom(ordered, segment, frame)
    decreases segment - from
  {
    if from < segment { SkipSegments(ordered, from + 1, segment, frame); }
  }

  /** Every point up to the cursor, but for the first, is before the frame. */
  ghost predicate Passed(ordered: seq<Point>, segment: nat, frame: int) {
    forall k :: 0 < k <= segment && k < |ordered| ==> ordered[k].frame < frame
  }

  /** Where the cursor cannot move on, its segment holds the value of the lane. */
  lemma ValueAtCursor(points: seq<Point>, ordered: seq<Point>, segment: nat, frame: int, default: real)
    requires ordered == SortBy(points, FrameKey)
    requires ordered != [] && frame >= ordered[0].frame ==> segment < |ordered| && Passed(ordered, segment, frame)
    requires ordered != [] && frame >= ordered[0].frame && segment + 1 < |ordered| ==> frame <= ordered[segment + 1].frame
    ensures AutomationValue(points, frame, default) ==
            if ordered == [] || frame < ordered[0].frame then default
            else if segment + 1 == |ordered| then ordered[|ordered| - 1].value
            else Interpolated(ordered[segment], ordered[segment + 1], frame)
  {
    hide SortBy;
    if ordered != [] && frame >= ordered[0].frame { SkipSegments(ordered, 0, segment, frame); }
  }

  /** The number of frames before `x` in an ascending list, found by halving. */
  method BisectLeft(ordered: seq<Point>, x: int) returns (i: nat)
    requires Ascending(ordered)
    ensures i <= |ordered|
    ensures forall k :: 0 <= k < i ==> ordered[k].frame < x
    ensures forall k :: i <= k < |ordered| ==> x <= ordered[k].frame
  {
    i := 0;
    var hi := |ordered|;
    while i < hi
      invariant i <= hi <= |ordered|
      invariant forall k :: 0 <= k < i ==> ordered[k].frame < x
      invariant forall k :: hi <= k < |ordered| ==> x <= ordered[k].frame
    {
      var mid := (i + hi) / 2;
      if ordered[mid].frame < x { i := mid + 1; } else { hi := mid; }
    }
  }

  /** A lane sorted once, then read in blocks. */
  class PreparedAutomation {
    const points: seq<Point>
    const default: real
    ghost const given: seq<Point>

    ghost predicate Valid() { points == SortBy(given, FrameKey) }

    constructor (points: seq<Point>, default: real)
      ensures Valid() && given == points && this.default == default
    {
      this.points := SortBy(points, FrameKey);
      this.default := default;
      given := points;
    }

    /** The values over a block: a bisection finds the first segment, after that the cursor only moves forwards. */
    method Block(start: int, count: nat) returns (values: seq<real>)
      requires Valid()
      ensures |values| == count
      ensures forall i :: 0 <= i < count ==> values[i] == AutomationValue(given, start + i, default)
    {
      hide SortBy, AutomationValue, ValueFrom, Interpolated;
      SortedAscends(given);
      var ordered := points;
      var found := BisectLeft(ordered, start);
      var segment: nat := if found > 0 then found - 1 else 0;
      values := [];
      for n := 0 to count
        invariant |values| == n
        invariant ordered != [] ==> segment < |ordered|
        invariant Passed(ordered, segment, start + n)
        invariant forall i :: 0 <= i < n ==> values[i] == AutomationValue(given, start + i, default)
      {
        var frame := start + n;
        var value := default;
        if ordered != [] && frame >= ordered[0].frame {
          while segment + 1 < |ordered| && frame > ordered[segment + 1].frame
            invariant segment < |ordered|
            invariant Passed(ordered, segment, frame)
          {
            segment := segment + 1;
          }
          value := if segment + 1 == |ordered| then ordered[|ordered| - 1].value
                   else Interpolated(ordered[segment], ordered[segment + 1], frame);
        }
        ValueAtCursor(given, ordered, segment, frame, default);
        values := values + [value];
      }
    }
  }

  // ---- what the value means ----

  ghost predicate Within(ordered: seq<Point>, low: real, high: real) {
    forall i :: 0 <= i < |ordered| ==> low <= ordered[i].value <= high
  }

  /** Going part of the way from one value to another stays in any range that holds both. */
  lemma Between(from: real, way: real, ratio: real, low: real, high: real)
    requires low <= from <= high && low <= from + way <= high && 0.0 <= ratio <= 1.0
    ensures low <= from + Times(way, ratio) <= high
  {
    hide Times;
    TimesShare(way, ratio);
  }

  lemma RatioBounds(part: int, whole: int)
    requires 0 <= part <= whole && 1 <= whole
    ensures 0.0 <= part as real / whole as real <= 1.0
  {
  }

  lemma {:induction false} ValueFromWithin(ordered: seq<Point>, i: nat, frame: int, low: real, high: real)
    requires i < |ordered| && Ascending(ordered) && ordered[i].frame <= frame && Within(ordered, low, high)
    ensures low <= ValueFrom(ordered, i, frame) <= high
    decreases |ordered| - i
  {
    if i + 1 < |ordered| {
      if frame <= ordered[i + 1].frame {
        var whole := Max(1, ordered[i + 1].frame - ordered[i].frame);
        RatioBounds(frame - ordered[i].frame, whole);
        Between(ordered[i].value, ordered[i + 1].value - ordered[i].value,
                (frame - ordered[i].frame) as real / whole as real, low, high);
      } else {
        ValueFromWithin(ordered, i + 1, frame, low, high);
      }
    }
  }

  /** A lane never leaves the range its points and its default span. */
  lemma AutomationStaysInRange(points: seq<Point>, frame: int, default: real, low: real, high: real)
    requires low <= default <= high && Within(points, low, high)
    ensures low <= AutomationValue(points, frame, default) <= high
  {
    var ordered := SortBy(points, FrameKey);
    SortedAscends(points);
    SortByIsStableSort(points, FrameKey);
    forall i | 0 <= i < |ordered| ensures low <= ordered[i].value <= high {
      assert ordered[i] in multiset(ordered);
      assert ordered[i] in points;
    }
    if ordered != [] && ordered[0].frame <= frame { ValueFromWithin(ordered, 0, frame, low, high); }
  }

  lemma WholeWay(whole: int)
    requires whole >= 1
    ensures whole as real / whole as real == 1.0
  {
  }

  /** The first point of a sorted lane at its frame gives the value there. */
  lemma {:induction false} ValueFromHits(ordered: seq<Point>, i: nat, hit: nat)
    requires i <= hit < |ordered| && Ascending(ordered)
    requires forall k :: 0 <= k < hit ==> ordered[k].frame < ordered[hit].frame
    ensures ValueFrom(ordered, i, ordered[hit].frame) == ordered[hit].value
    decreases hit - i
  {
    if i + 1 == hit {
      var whole := ordered[hit].frame - ordered[i].frame;
      WholeWay(whole);
      TimesSwapped(ordered[hit].value - ordered[i].value, 1.0);
      TimesUnits(ordered[hit].value - ordered[i].value);
    } else if i < hit {
      assert ordered[i + 1].frame < ordered[hit].frame;
      ValueFromHits(ordered, i + 1, hit);
    }
  }

  lemma {:induction false} FirstWithKey(s: seq<Point>, i: nat)
    requires i < |s| && forall k :: 0 <= k < i ==> s[k].frame != s[i].frame
    ensures var w := WithKey(s, FrameKey, FrameKey(s[i])); w != [] && w[0] == s[i]
  {
    if i > 0 {
      assert FrameKey(s[0]) != FrameKey(s[i]);
      assert s[1..][i - 1] == s[i];
      FirstWithKey(s[1..], i - 1);
    }
  }

  lemma {:induction false} FirstOf(s: seq<Point>, frame: int) returns (i: nat)
    requires exists k: nat :: k < |s| && s[k].frame == frame
    ensures i < |s| && s[i].frame == frame && forall k :: 0 <= k < i ==> s[k].frame != frame
  {
    i := 0;
    while s[i].frame != frame
      invariant i < |s| && forall k :: 0 <= k < i ==> s[k].frame != frame
      decreases |s| - i
    {
      var k: nat :| k < |s| && s[k].frame == frame;
      assert k > i;
      i := i + 1;
    }
  }

  /** A lane passes through its points; of several at one frame, through the one given first. */
  lemma AutomationPassesThrough(points: seq<Point>, i: nat, default: real)
    requires i < |points| && forall k :: 0 <= k < i ==> points[k].frame != points[i].frame
    ensures AutomationValue(points, points[i].frame, default) == points[i].value
  {
    var ordered, frame := SortBy(points, FrameKey), points[i].frame;
    SortedAscends(points);
    SortByIsStableSort(points, FrameKey);
    assert points[i] in multiset(ordered);
    var at: nat :| at < |ordered| && ordered[at] == points[i];
    var hit := FirstOf(ordered, frame);
    FirstWithKey(points, i);
    FirstWithKey(ordered, hit);
    assert ordered[hit] == points[i];
    forall k | 0 <= k < hit ensures ordered[k].frame < ordered[hit].frame {
      assert ordered[k].frame <= ordered[hit].frame;
    }
    ValueFromHits(ordered, 0, hit);
  }

  lemma PartOfWay(way: real, part: int, whole: int)
    requires whole >= 1
    ensures Times(Times(way, part as real / whole as real), whole as real) == Times(way, part as real)
  {
    var ratio := part as real / whole as real;
    TimesQuotient(part as real, whole as real);
    TimesAssociates(way, ratio, whole as real);
  }

  /**
   * The value at every frame of a lane: the default before the first point, the last point's value after it, and
   * between two points in a row the straight line from the one to the other.
   */
  lemma LaneIsPiecewiseLinear(points: seq<Point>, i: nat, frame: int, default: real)
    ensures var ordered, value := SortBy(points, FrameKey), AutomationValue(points, frame, default);
      && (ordered == [] || frame < ordered[0].frame ==> value == default)
      && (ordered != [] && ordered[|ordered| - 1].frame < frame ==> value == ordered[|ordered| - 1].value)
      && (i + 1 < |ordered| && ordered[i].frame < frame <= ordered[i + 1].frame ==>
            var a, b := ordered[i], ordered[i + 1];
            Times(value - a.value, (b.frame - a.frame) as real) == Times(b.value - a.value, (frame - a.frame) as real))
  {
    hide SortBy, Times, ValueFrom;
    var ordered := SortBy(points, FrameKey);
    SortedAscends(points);
    if ordered != [] && ordered[|ordered| - 1].frame < frame {
      SkipSegments(ordered, 0, |ordered| - 1, frame);
      LastHolds(ordered, frame);
    }
    if i + 1 < |ordered| && ordered[i].frame < frame <= ordered[i + 1].frame {
      var a, b := ordered[i], ordered[i + 1];
      SkipSegments(ordered, 0, i, frame);
      SegmentEnds(ordered, i, frame);
      PartOfWay(b.value - a.value, frame - a.frame, b.frame - a.frame);
    }
  }

  lemma LastHolds(ordered: seq<Point>, frame: int)
    requires ordered != []
    ensures ValueFrom(ordered, |ordered| - 1, frame) == ordered[|ordered| - 1].value
  {
  }

  lemma SegmentEnds(ordered: seq<Point>, i: nat, frame: int)
    requires i + 1 < |ordered| && frame <= ordered[i + 1].frame
    ensures ValueFrom(ordered, i, frame) == Interpolated(ordered[i], ordered[i + 1], frame)
  {
  }
}
