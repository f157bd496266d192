/** The segmented authorization audit log: its disk, the file-system steps, and what every step keeps. */
module AuditDisk {
  import opened HashChain
  import opened Options
  import opened Sequences

  // The summary that stands in for the pruned prefix.
  datatype Anchor = Anchor(previousHead: Hash, nextSequence: nat, prunedSegments: nat, prunedRecords: nat)

  datatype AnchorFile = Absent | Committed(anchor: Anchor) | Unreadable

  // `stray` tells of an entry among the segments that is no segment file.
  datatype Disk = Disk(active: Option<seq<Line>>, segments: map<nat, seq<Line>>, anchorFile: AnchorFile, stray: bool)

  const EMPTY_DISK := Disk(None, map[], Absent, false)

  /** The retention anchor; no file means nothing was pruned, a malformed one is an error. */
  function RetentionAnchor(d: Disk): Option<Anchor> {
    match d.anchorFile
    case Absent => Some(Anchor(ZERO_HASH, 1, 0, 0))
    case Committed(anchor) => if anchor.nextSequence < 1 then None else Some(anchor)
    case Unreadable => None
  }

  /** The anchor can be read and every entry among the segments is one. */
  predicate Readable(d: Disk) { RetentionAnchor(d).Some? && !d.stray }

  function AnchorOf(d: Disk): Anchor {
    match RetentionAnchor(d)
    case Some(anchor) => anchor
    case None => Anchor(ZERO_HASH, 1, 0, 0)
  }

  function First(d: Disk): nat { AnchorOf(d).nextSequence }

  /** The segments the anchor has not pruned; older files are crash residue. */
  function LiveKeys(d: Disk): set<nat> { set s | s in d.segments && s >= First(d) }

  function LiveCount(d: Disk): nat { |LiveKeys(d)| }

  ghost predicate Contiguous(d: Disk) {
    forall s :: s in LiveKeys(d) <==> First(d) <= s < First(d) + LiveCount(d)
  }

  function FileAt(d: Disk, s: nat): seq<Line> { if s in d.segments then d.segments[s] else [] }

  function ActiveLines(d: Disk): seq<Line> { if d.active.Some? then d.active.value else [] }

  /** The lines of the first `n` retained segments, oldest first. */
  function SegmentLines(d: Disk, n: nat): seq<Line> {
    if n == 0 then [] else SegmentLines(d, n - 1) + FileAt(d, First(d) + n - 1)
  }

  function Retained(d: Disk): seq<Line> { SegmentLines(d, LiveCount(d)) + ActiveLines(d) }

  /** A full rescan succeeds: readable anchor and names, no gap, and one unbroken chain from the anchor. */
  ghost predicate ScansOk(digest: Digest, d: Disk) {
    && Readable(d)
    && Contiguous(d)
    && Intact(digest, AnchorOf(d).previousHead, Retained(d))
  }

  function ScanHead(digest: Digest, d: Disk): Hash {
    Head(digest, AnchorOf(d).previousHead, Events(Retained(d)))
  }

  function TotalRecords(d: Disk): nat { |Events(Retained(d))| + AnchorOf(d).prunedRecords }

  /** An anchor followed by a chain of lines stands for `log`: the pruned prefix by its head and count, the rest in full. */
  ghost predicate StandsFor(digest: Digest, anchor: Anchor, lines: seq<Line>, log: seq<Event>) {
    var p := anchor.prunedRecords;
    && Intact(digest, anchor.previousHead, lines)
    && p <= |log|
    && anchor.previousHead == Head(digest, ZERO_HASH, log[..p])
    && Events(lines) == log[p..]
  }

  /**
   * The disk scans, and what it holds is `log`: a prefix the anchor commits to by head and
   * count, then the retained segments, then the active file.
   */
  ghost predicate Recoverable(digest: Digest, d: Disk, log: seq<Event>) {
    ScansOk(digest, d) && StandsFor(digest, AnchorOf(d), Retained(d), log)
  }

  /** What a rescan of a recoverable disk reports: the head and the length of the whole log. */
  lemma RescanFindsLog(digest: Digest, d: Disk, log: seq<Event>)
    requires Recoverable(digest, d, log)
    ensures ScanHead(digest, d) == Head(digest, ZERO_HASH, log)
    ensures TotalRecords(d) == |log|
  {
    hide Intact, Events, Head, Contiguous, Retained;
    var p := AnchorOf(d).prunedRecords;
    HeadConcat(digest, ZERO_HASH, log[..p], log[p..]);
    assert log == log[..p] + log[p..];
  }

  /** A chain with more events than the log cannot end at the log's head: the zero hash would head something. */
  lemma NoLongerChain(digest: Digest, start: Hash, events: seq<Event>, log: seq<Event>)
    requires Ideal(digest) && Head(digest, start, events) == Head(digest, ZERO_HASH, log)
    ensures |events| <= |log|
  {
    if |events| > |log| {
      var k := |events| - |log|;
      assert events == events[..k] + events[k..];
      HeadConcat(digest, start, events[..k], events[k..]);
      HeadDeterminesSuffix(digest, Head(digest, start, events[..k]), events[k..], ZERO_HASH, log);
    }
  }

  /**
   * Tampering with retained files: any disk that scans with the log's head holds exactly the log's last
   * records, under the log's own prefix head.
   */
  lemma RetainedTamperEvident(digest: Digest, d: Disk, log: seq<Event>)
    requires Ideal(digest) && ScansOk(digest, d)
    requires ScanHead(digest, d) == Head(digest, ZERO_HASH, log)
    ensures |Events(Retained(d))| <= |log|
    ensures var keep := |log| - |Events(Retained(d))|;
      Events(Retained(d)) == log[keep..] && AnchorOf(d).previousHead == Head(digest, ZERO_HASH, log[..keep])
  {
    var events := Events(Retained(d));
    NoLongerChain(digest, AnchorOf(d).previousHead, events, log);
    var keep := |log| - |events|;
    assert log == log[..keep] + log[keep..];
    HeadConcat(digest, ZERO_HASH, log[..keep], log[keep..]);
    HeadDeterminesSuffix(digest, AnchorOf(d).previousHead, events, Head(digest, ZERO_HASH, log[..keep]), log[keep..]);
  }

  // ---- the file-system steps ----

  datatype Step =
    | WriteRecord(event: Event, ended: bool)  // append one record to the active file, perhaps short of its newline
    | RenameActive                            // move the active file to the next segment number
    | CommitAnchor(count: nat)                // replace the anchor, pruning the oldest `count` segments
    | UnlinkStale(sequence: nat)              // delete a file the anchor has already pruned

  /** Anchor and names are readable, no segment is missing, and the oldest `count` verify from it. */
  ghost predicate Chained(digest: Digest, d: Disk, count: nat) {
    && Readable(d) && Contiguous(d) && count <= LiveCount(d)
    && Intact(digest, AnchorOf(d).previousHead, SegmentLines(d, count))
  }

  /** When the repository takes the step. */
  ghost predicate Enabled(digest: Digest, d: Disk, step: Step) {
    match step
    case WriteRecord(_, _) => true
    case RenameActive => d.active.Some? && Readable(d) && Contiguous(d)
    case CommitAnchor(count) => Chained(digest, d, count)
    case UnlinkStale(sequence) => Readable(d) && sequence < First(d)
  }

  /** The active file is empty or ends with a newline. */
  predicate EndsClean(d: Disk) { Terminated(ActiveLines(d)) }

  /** A write that runs into the record before it. */
  predicate Glues(d: Disk, step: Step) { step.WriteRecord? && !EndsClean(d) }

  function PrunedAnchor(digest: Digest, d: Disk, count: nat): Anchor {
    var anchor := AnchorOf(d);
    var events := Events(SegmentLines(d, count));
    Anchor(Head(digest, anchor.previousHead, events), anchor.nextSequence + count,
           anchor.prunedSegments + count, anchor.prunedRecords + |events|)
  }

  function Take(digest: Digest, d: Disk, step: Step): Disk {
    match step
    case WriteRecord(event, ended) =>
      d.(active := Some(Appended(ActiveLines(d), RecordEnding(digest, ScanHead(digest, d), event, ended))))
    case RenameActive =>
      d.(segments := d.segments[First(d) + LiveCount(d) := ActiveLines(d)], active := None)
    case CommitAnchor(count) => d.(anchorFile := Committed(PrunedAnchor(digest, d, count)))
    case UnlinkStale(sequence) => d.(segments := d.segments - {sequence})
  }

  function Logged(log: seq<Event>, step: Step): seq<Event> {
    if step.WriteRecord? then log + [step.event] else log
  }

  lemma {:induction false} SegmentLinesAgree(d: Disk, e: Disk, skip: nat, n: nat)
    requires First(e) == First(d) + skip
    requires forall s :: First(e) <= s < First(e) + n ==> FileAt(e, s) == FileAt(d, s)
    ensures SegmentLines(d, skip + n) == SegmentLines(d, skip) + SegmentLines(e, n)
  {
    if n > 0 {
      hide First, FileAt;
      SegmentLinesAgree(d, e, skip, n - 1);
      Associative(SegmentLines(d, skip), SegmentLines(e, n - 1), FileAt(e, First(e) + n - 1));
      assert FileAt(e, First(e) + n - 1) == FileAt(d, First(d) + skip + n - 1);
    }
  }

  lemma {:induction false} SameSegments(d: Disk, e: Disk, n: nat)
    requires First(e) == First(d)
    requires forall s :: First(d) <= s < First(d) + n ==> FileAt(e, s) == FileAt(d, s)
    ensures SegmentLines(e, n) == SegmentLines(d, n)
  {
    if n > 0 { SameSegments(d, e, n - 1); }
  }

  lemma {:induction false} IntervalSize(s: set<nat>, lo: nat, n: nat)
    requires forall x :: x in s <==> lo <= x < lo + n
    ensures |s| == n
  {
    if n > 0 {
      IntervalSize(s - {lo + n - 1}, lo, n - 1);
    } else {
      assert s == {};
    }
  }

  lemma WriteStandsFor(digest: Digest, anchor: Anchor, lines: seq<Line>, log: seq<Event>, event: Event, ended: bool)
    requires StandsFor(digest, anchor, lines, log)
    ensures var line := RecordEnding(digest, Head(digest, anchor.previousHead, Events(lines)), event, ended);
      StandsFor(digest, anchor, lines + [line], log + [event])
  {
    var line := RecordEnding(digest, Head(digest, anchor.previousHead, Events(lines)), event, ended);
    IntactSnoc(digest, anchor.previousHead, lines, line);
    var p := anchor.prunedRecords;
    assert (log + [event])[..p] == log[..p];
    assert (log + [event])[p..] == log[p..] + [event];
  }

  /** A new end of the active file, and nothing else. */
  lemma ActiveOnly(d: Disk, e: Disk)
    requires e.segments == d.segments && e.anchorFile == d.anchorFile && e.stray == d.stray
    ensures LiveKeys(e) == LiveKeys(d) && First(e) == First(d)
    ensures SegmentLines(e, LiveCount(e)) == SegmentLines(d, LiveCount(d))
    ensures Retained(e) == SegmentLines(d, LiveCount(d)) + ActiveLines(e)
  {
    assert LiveKeys(e) == LiveKeys(d);
    SameSegments(d, e, LiveCount(d));
  }

  lemma WriteAppends(digest: Digest, d: Disk, event: Event, ended: bool)
    requires EndsClean(d)
    ensures var e := Take(digest, d, WriteRecord(event, ended));
      LiveKeys(e) == LiveKeys(d) && Retained(e) == Retained(d) + [RecordEnding(digest, ScanHead(digest, d), event, ended)]
  {
    var line := RecordEnding(digest, ScanHead(digest, d), event, ended);
    ActiveOnly(d, Take(digest, d, WriteRecord(event, ended)));
    Associative(SegmentLines(d, LiveCount(d)), ActiveLines(d), [line]);
  }

  /** An active file whose last line does not parse never scans. */
  lemma BrokenEndNeverScans(digest: Digest, d: Disk, before: seq<Line>, size: nat)
    requires ActiveLines(d) == before + [Malformed(size)]
    ensures !ScansOk(digest, d)
  {
    var lines := SegmentLines(d, LiveCount(d));
    Associative(lines, before, [Malformed(size)]);
    IntactSnoc(digest, AnchorOf(d).previousHead, lines + before, Malformed(size));
  }

  /** A write that is glued to the record before it leaves a disk that does not scan. */
  lemma GluedNeverScans(digest: Digest, d: Disk, line: Line)
    requires !EndsClean(d)
    ensures !ScansOk(digest, d.(active := Some(Appended(ActiveLines(d), line))))
  {
    var file := ActiveLines(d);
    var n := |file| - 1;
    BrokenEndNeverScans(digest, d.(active := Some(Appended(file, line))), file[..n], LineBytes(file[n]) + LineBytes(line));
  }

  lemma RenameKeys(d: Disk, e: Disk)
    requires Contiguous(d) && First(e) == First(d)
    requires forall s: nat :: s in e.segments <==> s in d.segments || s == First(d) + LiveCount(d)
    ensures First(d) + LiveCount(d) !in d.segments && Contiguous(e) && LiveCount(e) == LiveCount(d) + 1
  {
    var n := LiveCount(d);
    assert First(d) + n !in LiveKeys(d);
    forall s: nat ensures s in LiveKeys(e) <==> First(e) <= s < First(e) + (n + 1) {
      assert s in LiveKeys(d) <==> First(d) <= s < First(d) + n;
    }
    IntervalSize(LiveKeys(e), First(e), n + 1);
  }

  lemma RenameKeepsRetained(digest: Digest, d: Disk)
    requires Contiguous(d)
    ensures var e := Take(digest, d, RenameActive);
      First(d) + LiveCount(d) !in d.segments && Contiguous(e) && LiveCount(e) == LiveCount(d) + 1 && Retained(e) == Retained(d)
  {
    hide Contiguous, LiveCount;
    var e := Take(digest, d, RenameActive);
    RenameKeys(d, e);
    SameSegments(d, e, LiveCount(d));
    assert SegmentLines(e, LiveCount(e)) == SegmentLines(e, LiveCount(d)) + ActiveLines(d);
  }

  /** The same files read under an anchor that starts `count` segments later. */
  lemma LaterAnchor(d: Disk, e: Disk, count: nat)
    requires Contiguous(d) && count <= LiveCount(d)
    requires e.segments == d.segments && e.active == d.active && First(e) == First(d) + count
    ensures Contiguous(e) && LiveCount(e) == LiveCount(d) - count
    ensures Retained(d) == SegmentLines(d, count) + Retained(e)
  {
    var left := LiveCount(d) - count;
    forall s: nat ensures s in LiveKeys(e) <==> First(e) <= s < First(e) + left {
      assert s in LiveKeys(d) <==> First(d) <= s < First(d) + LiveCount(d);
    }
    IntervalSize(LiveKeys(e), First(e), left);
    SegmentLinesAgree(d, e, count, left);
    Associative(SegmentLines(d, count), SegmentLines(e, left), ActiveLines(d));
  }

  lemma CutStandsFor(digest: Digest, anchor: Anchor, cut: seq<Line>, rest: seq<Line>, log: seq<Event>, next: Anchor)
    requires StandsFor(digest, anchor, cut + rest, log)
    requires next.previousHead == Head(digest, anchor.previousHead, Events(cut))
    requires next.prunedRecords == anchor.prunedRecords + |Events(cut)|
    ensures StandsFor(digest, next, rest, log)
  {
    hide Intact, Events, Head;
    var head := anchor.previousHead;
    IntactConcat(digest, head, cut, rest);
    CutLog(digest, log, anchor.prunedRecords, head, Events(cut), Events(rest));
  }

  lemma CutLog(digest: Digest, log: seq<Event>, p: nat, head: Hash, x: seq<Event>, y: seq<Event>)
    requires p <= |log| && log[p..] == x + y && head == Head(digest, ZERO_HASH, log[..p])
    ensures var q := p + |x|;
      q <= |log| && Head(digest, head, x) == Head(digest, ZERO_HASH, log[..q]) && log[q..] == y
  {
    var q := p + |x|;
    assert |log[p..]| == |x| + |y|;
    assert log[p..][|x|..] == y;
    HeadConcat(digest, ZERO_HASH, log[..p], x);
    assert log[..q] == log[..p] + x;
  }

  lemma UnlinkKeepsRetained(digest: Digest, d: Disk, sequence: nat)
    requires sequence < First(d)
    ensures var e := Take(digest, d, UnlinkStale(sequence));
      LiveKeys(e) == LiveKeys(d) && Retained(e) == Retained(d)
  {
    var e := Take(digest, d, UnlinkStale(sequence));
    assert First(e) == First(d) && e.segments.Keys == d.segments.Keys - {sequence};
    assert LiveKeys(e) == LiveKeys(d);
    SameSegments(d, e, LiveCount(d));
  }

  lemma CommitKeepsRecoverable(digest: Digest, d: Disk, log: seq<Event>, count: nat)
    requires Recoverable(digest, d, log) && count <= LiveCount(d)
    ensures Recoverable(digest, Take(digest, d, CommitAnchor(count)), log)
  {
    var e := Take(digest, d, CommitAnchor(count));
    LaterAnchor(d, e, count);
    CutStandsFor(digest, AnchorOf(d), SegmentLines(d, count), Retained(e), log, AnchorOf(e));
  }

  lemma WriteKeepsRecoverable(digest: Digest, d: Disk, log: seq<Event>, event: Event, ended: bool)
    requires Recoverable(digest, d, log) && EndsClean(d)
    ensures Recoverable(digest, Take(digest, d, WriteRecord(event, ended)), log + [event])
  {
    WriteAppends(digest, d, event, ended);
    WriteStandsFor(digest, AnchorOf(d), Retained(d), log, event, ended);
  }

  /** Every single step but a glued write keeps the disk recoverable, so a crash may fall between any two. */
  lemma StepKeepsRecoverable(digest: Digest, d: Disk, log: seq<Event>, step: Step)
    requires Recoverable(digest, d, log) && Enabled(digest, d, step) && !Glues(d, step)
    ensures Recoverable(digest, Take(digest, d, step), Logged(log, step))
  {
    match step {
      case WriteRecord(event, ended) => WriteKeepsRecoverable(digest, d, log, event, ended);
      case RenameActive => RenameKeepsRetained(digest, d);
      case CommitAnchor(count) => CommitKeepsRecoverable(digest, d, log, count);
      case UnlinkStale(sequence) => UnlinkKeepsRetained(digest, d, sequence);
    }
  }

  lemma WriteScans(digest: Digest, d: Disk, event: Event, ended: bool)
    ensures ScansOk(digest, Take(digest, d, WriteRecord(event, ended))) <==> ScansOk(digest, d) && EndsClean(d)
  {
    hide Intact, Retained, SegmentLines, Events, Head, LiveKeys, EndsClean, Appended;
    var line := RecordEnding(digest, ScanHead(digest, d), event, ended);
    if EndsClean(d) {
      ActiveOnly(d, Take(digest, d, WriteRecord(event, ended)));
      WriteAppends(digest, d, event, ended);
      IntactSnoc(digest, AnchorOf(d).previousHead, Retained(d), line);
    } else {
      GluedNeverScans(digest, d, line);
    }
  }

  /** A step leaves a disk that scans exactly when it found one, and did not glue its record to an unended one. */
  lemma StepScans(digest: Digest, d: Disk, step: Step)
    requires Enabled(digest, d, step)
    ensures ScansOk(digest, Take(digest, d, step)) <==> ScansOk(digest, d) && !Glues(d, step)
  {
    match step {
      case WriteRecord(event, ended) => WriteScans(digest, d, event, ended);
      case RenameActive => RenameKeepsRetained(digest, d);
      case CommitAnchor(count) =>
        var e := Take(digest, d, step);
        LaterAnchor(d, e, count);
        IntactConcat(digest, AnchorOf(d).previousHead, SegmentLines(d, count), Retained(e));
      case UnlinkStale(sequence) => UnlinkKeepsRetained(digest, d, sequence);
    }
  }

  ghost predicate Run(digest: Digest, disks: seq<Disk>, steps: seq<Step>) {
    && |disks| == |steps| + 1
    && forall i :: 0 <= i < |steps| ==> Enabled(digest, disks[i], steps[i]) && disks[i + 1] == Take(digest, disks[i], steps[i])
  }

  function WrittenEvents(steps: seq<Step>): seq<Event> {
    if steps == [] then [] else Logged(WrittenEvents(steps[..|steps| - 1]), steps[|steps| - 1])
  }

  lemma EmptyRecovers(digest: Digest)
    ensures Recoverable(digest, EMPTY_DISK, [])
  {
    assert LiveKeys(EMPTY_DISK) == {};
    assert Retained(EMPTY_DISK) == [];
  }

  /** None of the first `i` steps glued two records together. */
  ghost predicate NeverGlued(disks: seq<Disk>, steps: seq<Step>, i: nat)
    requires i <= |steps| <= |disks|
  {
    forall k :: 0 <= k < i ==> !Glues(disks[k], steps[k])
  }

  /**
   * From an empty directory, at every boundary of every run: a rescan succeeds exactly when no record was
   * written onto an unended one, and then finds exactly the events written so far.
   */
  lemma {:induction false} EveryBoundaryRecovers(digest: Digest, disks: seq<Disk>, steps: seq<Step>, i: nat)
    requires Run(digest, disks, steps) && disks[0] == EMPTY_DISK && i <= |steps|
    ensures ScansOk(digest, disks[i]) <==> NeverGlued(disks, steps, i)
    ensures ScansOk(digest, disks[i]) ==>
      var log := WrittenEvents(steps[..i]);
      && Recoverable(digest, disks[i], log)
      && ScanHead(digest, disks[i]) == Head(digest, ZERO_HASH, log)
      && TotalRecords(disks[i]) == |log|
  {
    hide Recoverable, Take, Head, ScanHead, TotalRecords, ScansOk, Enabled;
    var log := WrittenEvents(steps[..i]);
    if i == 0 {
      EmptyRecovers(digest);
    } else {
      EveryBoundaryRecovers(digest, disks, steps, i - 1);
      assert steps[..i][..i - 1] == steps[..i - 1];
      StepScans(digest, disks[i - 1], steps[i - 1]);
      if ScansOk(digest, disks[i]) {
        StepKeepsRecoverable(digest, disks[i - 1], WrittenEvents(steps[..i - 1]), steps[i - 1]);
      }
    }
    if ScansOk(digest, disks[i]) { RescanFindsLog(digest, disks[i], log); }
  }

  lemma UnendedFirst(digest: Digest, a: Event)
    ensures EndsClean(EMPTY_DISK) && !EndsClean(Take(digest, EMPTY_DISK, WriteRecord(a, false)))
  {
  }

  /** The shortest run that fails: a first record short of its newline, and any second one. */
  lemma UnendedThenWritten(digest: Digest, a: Event, b: Event) returns (disks: seq<Disk>)
    ensures var steps := [WriteRecord(a, false), WriteRecord(b, true)];
      && Run(digest, disks, steps) && disks[0] == EMPTY_DISK
      && ScansOk(digest, disks[1]) && TotalRecords(disks[1]) == 1 && !ScansOk(digest, disks[2])
  {
    hide ScansOk, TotalRecords, Take, Recoverable, ScanHead, Head, EndsClean, WrittenEvents;
    var steps := [WriteRecord(a, false), WriteRecord(b, true)];
    var d1 := Take(digest, EMPTY_DISK, steps[0]);
    disks := [EMPTY_DISK, d1, Take(digest, d1, steps[1])];
    UnendedFirst(digest, a);
    assert steps[..1] == [steps[0]];
    OneWritten(a);
    EveryBoundaryRecovers(digest, disks, steps, 1);
    EveryBoundaryRecovers(digest, disks, steps, 2);
    assert Glues(disks[1], steps[1]);
  }

  lemma OneWritten(a: Event)
    ensures |WrittenEvents([WriteRecord(a, false)])| == 1
  {
    var steps := [WriteRecord(a, false)];
    assert steps[..0] == [];
  }

  // ---- a torn write ----

  /** The disk after a write that stopped part-way through its line. */
  function TornDisk(d: Disk, size: nat): Disk {
    d.(active := Some(Appended(ActiveLines(d), Malformed(size))))
  }

  /** A torn line is never read as a record: the rescan fails. */
  lemma TornNeverScans(digest: Digest, d: Disk, size: nat)
    ensures !ScansOk(digest, TornDisk(d, size))
  {
    if EndsClean(d) {
      BrokenEndNeverScans(digest, TornDisk(d, size), ActiveLines(d), size);
    } else {
      GluedNeverScans(digest, d, Malformed(size));
    }
  }

  // ---- the size bound ----

  /** Few enough segments, none of them larger than the rotation size. */
  ghost predicate Compact(d: Disk, rotateBytes: nat, retainSegments: nat) {
    && LiveCount(d) <= retainSegments
    && SegmentsFit(d, rotateBytes)
    && FileBytes(ActiveLines(d)) <= rotateBytes
  }

  /** No file lies among the segments but those the anchor has not pruned. */
  ghost predicate Swept(d: Disk) { d.segments.Keys == LiveKeys(d) }

  ghost predicate SegmentsFit(d: Disk, rotateBytes: nat) {
    forall s :: s in LiveKeys(d) ==> FileBytes(d.segments[s]) <= rotateBytes
  }

  lemma {:induction false} BytesConcat(a: seq<Line>, b: seq<Line>)
    ensures FileBytes(a + b) == FileBytes(a) + FileBytes(b)
  {
    if b == [] {
      assert a + b == a;
    } else {
      BytesConcat(a, b[..|b| - 1]);
      assert (a + b)[..|a + b| - 1] == a + b[..|b| - 1];
    }
  }

  /** An appended line adds its own bytes, glued or not. */
  lemma AppendedBytes(file: seq<Line>, line: Line)
    ensures FileBytes(Appended(file, line)) == FileBytes(file) + LineBytes(line)
  {
    if Terminated(file) {
      assert (file + [line])[..|file|] == file;
    } else {
      var n := |file| - 1;
      var glued := Appended(file, line);
      assert glued[..n] == file[..n];
    }
  }

  lemma NoBytes()
    ensures FileBytes([]) == 0
  {
  }

  lemma MulMonotone(m: nat, n: nat, k: nat)
    requires m <= n
    ensures m * k + k <= (n + 1) * k
  {
    assert (n - m) * k >= 0;
  }

  lemma {:induction false} SegmentBytes(d: Disk, rotateBytes: nat, n: nat)
    requires forall s :: First(d) <= s < First(d) + n ==> FileBytes(FileAt(d, s)) <= rotateBytes
    ensures FileBytes(SegmentLines(d, n)) <= n * rotateBytes
  {
    hide FileBytes;
    if n > 0 {
      SegmentBytes(d, rotateBytes, n - 1);
      BytesConcat(SegmentLines(d, n - 1), FileAt(d, First(d) + n - 1));
      assert n * rotateBytes == (n - 1) * rotateBytes + rotateBytes;
    } else {
      NoBytes();
    }
  }

  /** As many bytes as files that fit, one more than the segments for the active one; however many a crash left. */
  lemma FittingBytesBounded(d: Disk, rotateBytes: nat)
    requires SegmentsFit(d, rotateBytes) && FileBytes(ActiveLines(d)) <= rotateBytes
    ensures FileBytes(Retained(d)) <= (LiveCount(d) + 1) * rotateBytes
  {
    var n := LiveCount(d);
    forall s | First(d) <= s < First(d) + n ensures FileBytes(FileAt(d, s)) <= rotateBytes {
      if s in d.segments { assert s in LiveKeys(d); }
    }
    SegmentBytes(d, rotateBytes, n);
    BytesConcat(SegmentLines(d, n), ActiveLines(d));
    MulMonotone(n, n, rotateBytes);
  }

  lemma RetainedBytesBounded(d: Disk, rotateBytes: nat, retainSegments: nat)
    requires Compact(d, rotateBytes, retainSegments)
    ensures FileBytes(Retained(d)) <= (retainSegments + 1) * rotateBytes
  {
    hide SegmentsFit, FileBytes;
    FittingBytesBounded(d, rotateBytes);
    FewerFiles(LiveCount(d) + 1, retainSegments + 1, rotateBytes);
  }

  lemma FewerFiles(m: nat, n: nat, k: nat)
    requires m <= n
    ensures m * k <= n * k
  {
    assert (n - m) * k >= 0;
  }

  // ---- segments a crash leaves ----

  /** The run that writes a record and renames the file, and stops before it prunes: `n` times over. */
  function CrashedRotations(event: Event, n: nat): (steps: seq<Step>)
    ensures |steps| == 2 * n
  {
    if n == 0 then [] else CrashedRotations(event, n - 1) + [WriteRecord(event, true), RenameActive]
  }

  lemma RotationAdds(digest: Digest, d: Disk, event: Event)
    requires Readable(d) && Contiguous(d) && d.active.None?
    ensures var e := Take(digest, d, WriteRecord(event, true)); var f := Take(digest, e, RenameActive);
      && Enabled(digest, d, WriteRecord(event, true)) && Enabled(digest, e, RenameActive)
      && Readable(f) && Contiguous(f) && f.active.None? && LiveCount(f) == LiveCount(d) + 1
  {
    var e := Take(digest, d, WriteRecord(event, true));
    ActiveOnly(d, e);
    RenameKeepsRetained(digest, e);
  }

  /**
   * Crashes between the rename and the prune accumulate: after any number of them, one segment each is left,
   * whatever number is to be retained.
   */
  lemma {:induction false} CrashesAccumulate(digest: Digest, event: Event, n: nat) returns (disks: seq<Disk>)
    ensures Run(digest, disks, CrashedRotations(event, n)) && disks[0] == EMPTY_DISK
    ensures var last := disks[2 * n]; Readable(last) && Contiguous(last) && last.active.None? && LiveCount(last) == n
  {
    hide Take, Enabled, Contiguous, LiveCount;
    if n == 0 {
      disks := [EMPTY_DISK];
      EmptyDisk();
    } else {
      var before := CrashesAccumulate(digest, event, n - 1);
      var d := before[2 * n - 2];
      var e := Take(digest, d, WriteRecord(event, true));
      RotationAdds(digest, d, event);
      disks := before + [e, Take(digest, e, RenameActive)];
      var steps := CrashedRotations(event, n);
      forall i | 0 <= i < |steps| ensures Enabled(digest, disks[i], steps[i]) && disks[i + 1] == Take(digest, disks[i], steps[i]) {
        if i < 2 * n - 2 { assert steps[i] == CrashedRotations(event, n - 1)[i]; }
      }
    }
  }

  lemma EmptyDisk()
    ensures Readable(EMPTY_DISK) && Contiguous(EMPTY_DISK) && LiveCount(EMPTY_DISK) == 0
  {
    assert LiveKeys(EMPTY_DISK) == {};
  }
}
