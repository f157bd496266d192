/** The repository that appends to, rotates and prunes the authorization audit log, caching its last scan. */
module AuditRepository {
  import opened HashChain
  import opened AuditDisk
  import opened Numbers
  import opened Options
  import opened Sequences

  const MAX_EVENT_BYTES := 8192

  datatype Error = EventTooLarge | VerificationFailed | ChangedOutside | TargetExists | SegmentGap | SegmentInvalid | IoFault

  datatype Result<+T> = Success(value: T) | Failure(error: Error)

  // What the file system did when asked to write one line and force it to the device.
  datatype WriteOutcome = Durable | Unacknowledged | Unterminated | NotWritten | Torn(size: nat)

  datatype Report = Report(records: nat, totalRecords: nat, head: Hash, retainedSegments: nat,
                           activeRecords: nat, activeBytes: nat, retainedBytes: nat, stalePrunedFiles: nat)

  // The cached scan. `seen` stands for the file signatures: they match exactly when the disk is as it was.
  datatype ScanState = ScanState(head: Hash, activeInitial: Hash, activeRecords: nat, activeBytes: nat,
                                 nextSequence: nat, seen: Disk)

  datatype Scan = Clean(report: Report, state: ScanState) | Broken(records: nat)

  /** The state is what a full rescan of `d` computes. */
  ghost predicate Matches(digest: Digest, state: ScanState, d: Disk) {
    && ScansOk(digest, d)
    && state.seen == d
    && state.head == ScanHead(digest, d)
    && state.activeInitial == Head(digest, AnchorOf(d).previousHead, Events(SegmentLines(d, LiveCount(d))))
    && state.activeRecords == |Events(ActiveLines(d))|
    && state.activeBytes == FileBytes(ActiveLines(d))
    && state.nextSequence == First(d) + LiveCount(d)
  }

  /** The state follows a disk that no longer scans: only what it says of sizes and numbers is still so. */
  ghost predicate Overrun(digest: Digest, state: ScanState, d: Disk) {
    && !ScansOk(digest, d)
    && Chained(digest, d, LiveCount(d))
    && state.seen == d
    && state.activeBytes == FileBytes(ActiveLines(d))
    && state.nextSequence == First(d) + LiveCount(d)
  }

  ghost predicate Follows(digest: Digest, state: ScanState, d: Disk) {
    Matches(digest, state, d) || Overrun(digest, state, d)
  }

  lemma ScansChained(digest: Digest, d: Disk)
    requires ScansOk(digest, d)
    ensures Chained(digest, d, LiveCount(d))
  {
    IntactConcat(digest, AnchorOf(d).previousHead, SegmentLines(d, LiveCount(d)), ActiveLines(d));
  }

  lemma ChainedPrefix(digest: Digest, d: Disk, count: nat, all: nat)
    requires Chained(digest, d, all) && count <= all
    ensures Chained(digest, d, count)
  {
    hide Intact;
    SegmentsPrefix(d, count, all);
    var rest :| SegmentLines(d, all) == SegmentLines(d, count) + rest;
    IntactConcat(digest, AnchorOf(d).previousHead, SegmentLines(d, count), rest);
  }

  lemma FollowsChained(digest: Digest, state: ScanState, d: Disk)
    requires Follows(digest, state, d)
    ensures Chained(digest, d, LiveCount(d)) && Contiguous(d) && Readable(d)
    ensures state.seen == d && state.activeBytes == FileBytes(ActiveLines(d)) && state.nextSequence == First(d) + LiveCount(d)
    ensures Matches(digest, state, d) <==> ScansOk(digest, d)
  {
    if ScansOk(digest, d) { ScansChained(digest, d); }
  }

  ghost predicate Describes(digest: Digest, report: Report, d: Disk) {
    && report.records == |Events(Retained(d))|
    && report.totalRecords == TotalRecords(d)
    && report.head == ScanHead(digest, d)
    && report.retainedSegments == LiveCount(d)
    && report.activeRecords == |Events(ActiveLines(d))|
    && report.activeBytes == FileBytes(ActiveLines(d))
    && report.retainedBytes == FileBytes(Retained(d))
  }

  ghost predicate Ascending(paths: seq<nat>) {
    forall i, j :: 0 <= i < j < |paths| ==> paths[i] < paths[j]
  }

  lemma SeqSize(paths: seq<nat>, keys: set<nat>)
    requires Ascending(paths) && forall s :: s in paths <==> s in keys
    ensures |paths| == |keys|
  {
    if paths == [] {
      assert keys == {};
    } else {
      var m := |paths| - 1;
      var last := paths[m];
      assert last in paths && last !in paths[..m];
      assert paths == paths[..m] + [last];
      SeqSize(paths[..m], keys - {last});
    }
  }

  /** An ascending list of exactly the numbers in an interval is that interval. */
  lemma {:induction false} AscendingInterval(paths: seq<nat>, lo: nat, n: nat)
    requires Ascending(paths) && forall s :: s in paths <==> lo <= s < lo + n
    ensures |paths| == n && forall i :: 0 <= i < n ==> paths[i] == lo + i
  {
    var members := set s | s in paths;
    IntervalSize(members, lo, n);
    SeqSize(paths, members);
    if n > 0 {
      var m := |paths| - 1;
      assert lo + n - 1 in paths;
      var k :| 0 <= k < |paths| && paths[k] == lo + n - 1;
      assert paths[m] in paths;
      assert k == m;
      var init := paths[..m];
      forall s ensures s in init <==> lo <= s < lo + (n - 1) {
        if lo <= s < lo + n - 1 {
          assert s in paths;
        }
        if s in init {
          var i :| 0 <= i < m && init[i] == s;
          assert paths[i] < paths[m] && paths[i] in paths;
        }
      }
      AscendingInterval(init, lo, n - 1);
    }
  }

  /** Verifying segment by segment carries the same hash, counts and sizes as verifying the concatenation. */
  lemma Advance(digest: Digest, head: Hash, before: seq<Line>, file: seq<Line>)
    ensures Intact(digest, head, before + file)
        <==> Intact(digest, head, before) && Intact(digest, Head(digest, head, Events(before)), file)
    ensures Head(digest, head, Events(before + file)) == Head(digest, Head(digest, head, Events(before)), Events(file))
    ensures |Events(before + file)| == |Events(before)| + |Events(file)|
    ensures FileBytes(before + file) == FileBytes(before) + FileBytes(file)
  {
    IntactConcat(digest, head, before, file);
    HeadConcat(digest, head, Events(before), Events(file));
    BytesConcat(before, file);
  }

  /** In a chained run of segments, every one verifies from the head of those before it. */
  lemma PrefixVerifies(digest: Digest, d: Disk, n: nat, count: nat)
    requires Chained(digest, d, count) && n < count
    ensures Intact(digest, Head(digest, AnchorOf(d).previousHead, Events(SegmentLines(d, n))), FileAt(d, First(d) + n))
  {
    hide Intact, Events, Head, FileBytes;
    ChainedPrefix(digest, d, n + 1, count);
    Advance(digest, AnchorOf(d).previousHead, SegmentLines(d, n), FileAt(d, First(d) + n));
  }

  lemma NothingPruned(digest: Digest, d: Disk)
    requires Readable(d)
    ensures RetentionAnchor(d) == Some(AnchorOf(d)) && AnchorOf(d).nextSequence >= 1
    ensures PrunedAnchor(digest, d, 0) == AnchorOf(d)
  {
  }

  /** One segment further along a chained run. */
  lemma NextSegment(digest: Digest, d: Disk, n: nat, count: nat)
    requires Chained(digest, d, count) && n < count
    ensures var before, after := PrunedAnchor(digest, d, n), PrunedAnchor(digest, d, n + 1);
      var file := FileAt(d, First(d) + n);
      && Intact(digest, before.previousHead, file)
      && before.nextSequence == First(d) + n && before.prunedSegments == AnchorOf(d).prunedSegments + n
      && after.nextSequence == First(d) + n + 1 && after.prunedSegments == before.prunedSegments + 1
      && after.previousHead == Head(digest, before.previousHead, Events(file))
      && after.prunedRecords == before.prunedRecords + |Events(file)|
  {
    hide Intact, Events, Head, FileBytes, Chained, FileAt;
    PrefixVerifies(digest, d, n, count);
    Advance(digest, AnchorOf(d).previousHead, SegmentLines(d, n), FileAt(d, First(d) + n));
  }

  lemma {:induction false} SegmentsPrefix(d: Disk, m: nat, n: nat)
    requires m <= n
    ensures exists rest :: SegmentLines(d, n) == SegmentLines(d, m) + rest
  {
    if m == n {
      assert SegmentLines(d, n) == SegmentLines(d, m) + [];
    } else {
      SegmentsPrefix(d, m, n - 1);
      var rest :| SegmentLines(d, n - 1) == SegmentLines(d, m) + rest;
      Associative(SegmentLines(d, m), rest, FileAt(d, First(d) + n - 1));
    }
  }

  /** The segment numbers in ascending order, unless something else lies among the segments. */
  method SegmentPaths(d: Disk) returns (r: Option<seq<nat>>)
    ensures r.None? <==> d.stray
    ensures r.Some? ==> Ascending(r.value) && forall s :: s in r.value <==> s in d.segments
  {
    if d.stray { return None; }
    var paths: seq<nat>, left := [], d.segments.Keys;
    while left != {}
      invariant Ascending(paths)
      invariant forall s :: s in d.segments <==> s in left || s in paths
      invariant forall i, t :: 0 <= i < |paths| && t in left ==> paths[i] < t
      decreases left
    {
      var least := Least(left);
      paths := paths + [least];
      left := left - {least};
    }
    r := Some(paths);
  }

  method Least(numbers: set<nat>) returns (least: nat)
    requires numbers != {}
    ensures least in numbers && forall n :: n in numbers ==> least <= n
  {
    least :| least in numbers;
    var rest := numbers - {least};
    while rest != {}
      invariant least in numbers && rest <= numbers
      invariant forall n :: n in numbers && n !in rest ==> least <= n
      decreases rest
    {
      var n :| n in rest;
      if n < least { least := n; }
      rest := rest - {n};
    }
  }

  /** What the scan knows after verifying the first `n` retained segments. */
  ghost predicate PrefixOk(digest: Digest, d: Disk, n: nat, previous: Hash, records: nat, bytes: nat) {
    var head, lines := AnchorOf(d).previousHead, SegmentLines(d, n);
    && Intact(digest, head, lines) && previous == Head(digest, head, Events(lines))
    && records == |Events(lines)| && bytes == FileBytes(lines)
  }

  lemma PrefixStart(digest: Digest, d: Disk)
    ensures PrefixOk(digest, d, 0, AnchorOf(d).previousHead, 0, 0)
  {
  }

  lemma PrefixNext(digest: Digest, d: Disk, n: nat, previous: Hash, records: nat, bytes: nat)
    requires PrefixOk(digest, d, n, previous, records, bytes)
    ensures var file := FileAt(d, First(d) + n);
      if Intact(digest, previous, file) then
        PrefixOk(digest, d, n + 1, Head(digest, previous, Events(file)), records + |Events(file)|, bytes + FileBytes(file))
      else
        n < LiveCount(d) ==> !ScansOk(digest, d)
  {
    hide Intact, Events, Head, FileBytes, ScansOk;
    Advance(digest, AnchorOf(d).previousHead, SegmentLines(d, n), FileAt(d, First(d) + n));
    if n < LiveCount(d) && ScansOk(digest, d) {
      ScansChained(digest, d);
      PrefixVerifies(digest, d, n, LiveCount(d));
    }
  }

  lemma PrefixAll(digest: Digest, d: Disk, previous: Hash, records: nat, bytes: nat)
    requires Readable(d) && Contiguous(d) && PrefixOk(digest, d, LiveCount(d), previous, records, bytes)
    ensures ScansOk(digest, d) <==> Intact(digest, previous, ActiveLines(d))
    ensures |Events(Retained(d))| == records + |Events(ActiveLines(d))|
    ensures FileBytes(Retained(d)) == bytes + FileBytes(ActiveLines(d))
    ensures ScanHead(digest, d) == Head(digest, previous, Events(ActiveLines(d)))
    ensures previous == Head(digest, AnchorOf(d).previousHead, Events(SegmentLines(d, LiveCount(d))))
  {
    Advance(digest, AnchorOf(d).previousHead, SegmentLines(d, LiveCount(d)), ActiveLines(d));
  }

  /** Verifies the anchor's chain through every retained segment and the active file. */
  method ScanAudit(digest: Digest, d: Disk) returns (scan: Scan)
    ensures scan.Clean? <==> ScansOk(digest, d)
    ensures scan.Clean? ==> Matches(digest, scan.state, d) && Describes(digest, scan.report, d)
    ensures scan.Clean? ==> scan.report.stalePrunedFiles + LiveCount(d) == |d.segments|
  {
    if RetentionAnchor(d).None? {
      return Broken(0);
    }
    scan := ScanFrom(digest, d, RetentionAnchor(d).value);
  }

  method ScanFrom(digest: Digest, d: Disk, anchor: Anchor) returns (scan: Scan)
    requires RetentionAnchor(d) == Some(anchor)
    ensures scan.Clean? <==> ScansOk(digest, d)
    ensures scan.Clean? ==> Matches(digest, scan.state, d) && Describes(digest, scan.report, d)
    ensures scan.Clean? ==> scan.report.stalePrunedFiles + LiveCount(d) == |d.segments|
  {
    hide PrefixOk, SegmentLines, Retained, Intact, Events, Judge, ScanHead, Head, FileBytes, Contiguous, Matches, Describes, ScansOk;
    var failed, previous, records, segmentBytes, retained, stale := ScanSegments(digest, d, anchor);
    if failed.Some? {
      return Broken(failed.value);
    }
    var active := VerifyHashLinked(digest, ActiveLines(d), previous);
    if active.Rejected? {
      ScanFails(digest, d, previous, records, segmentBytes);
      return Broken(records + active.records);
    }
    var activeBytes := FileBytes(ActiveLines(d));
    var total := records + active.records;
    var report := Report(total, total + anchor.prunedRecords, active.head, retained, active.records,
                         activeBytes, activeBytes + segmentBytes, stale);
    var state := ScanState(active.head, previous, active.records, activeBytes, anchor.nextSequence + retained, d);
    ScanCompletes(digest, d, previous, records, segmentBytes, active, report, state);
    return Clean(report, state);
  }

  /** The retained segments in order: the records verified before a break, or the chain up to the active file. */
  method ScanSegments(digest: Digest, d: Disk, anchor: Anchor)
    returns (failed: Option<nat>, previous: Hash, records: nat, segmentBytes: nat, retained: nat, stale: nat)
    requires RetentionAnchor(d) == Some(anchor)
    ensures failed.Some? ==> !ScansOk(digest, d)
    ensures failed.None? ==>
      && Readable(d) && Contiguous(d) && retained == LiveCount(d) && stale + retained == |d.segments|
      && PrefixOk(digest, d, LiveCount(d), previous, records, segmentBytes)
  {
    hide PrefixOk, Intact, Events, Judge, Head, FileBytes, Contiguous, ScansOk, First, AnchorOf, LiveCount, RetentionAnchor;
    hide Readable, LiveKeys, Ascending;
    ScanNeeds(digest, d, anchor);
    previous, records, segmentBytes, retained, stale := anchor.previousHead, 0, 0, 0, 0;
    PrefixStart(digest, d);
    var listed := SegmentPaths(d);
    if listed.None? { return Some(0), previous, records, segmentBytes, retained, stale; }
    var paths := listed.value;
    var i := 0;
    while i < |paths|
      invariant 0 <= i <= |paths| && retained + stale == i
      invariant forall j :: stale <= j < stale + retained ==> paths[j] == First(d) + (j - stale)
      invariant forall j :: 0 <= j < stale ==> paths[j] < First(d)
      invariant PrefixOk(digest, d, retained, previous, records, segmentBytes)
    {
      var sequence := paths[i];
      assert sequence in paths;
      if retained > 0 { LaterPath(paths, stale + retained - 1, i); }
      var expected := anchor.nextSequence + retained;
      if sequence < anchor.nextSequence {
        stale := stale + 1;
      } else if sequence != expected {
        Gap(d, paths, stale, retained);
        return Some(records), previous, records, segmentBytes, retained, stale;
      } else {
        PrefixNext(digest, d, retained, previous, records, segmentBytes);
        LiveWithin(d, retained);
        var verdict := VerifyHashLinked(digest, d.segments[sequence], previous);
        if verdict.Rejected? {
          return Some(records + verdict.records), previous, records, segmentBytes, retained, stale;
        }
        previous := verdict.head;
        records := records + verdict.records;
        segmentBytes := segmentBytes + FileBytes(d.segments[sequence]);
        retained := retained + 1;
      }
      i := i + 1;
    }
    Listed(d, paths, retained, stale);
    return None, previous, records, segmentBytes, retained, stale;
  }

  lemma ScanNeeds(digest: Digest, d: Disk, anchor: Anchor)
    requires RetentionAnchor(d) == Some(anchor)
    ensures AnchorOf(d) == anchor && First(d) == anchor.nextSequence
    ensures Readable(d) <==> !d.stray
    ensures ScansOk(digest, d) ==> Readable(d) && Contiguous(d)
  {
    hide Intact, Contiguous;
  }

  /** A scan that stops in the active file is of a disk that does not scan. */
  lemma ScanFails(digest: Digest, d: Disk, previous: Hash, records: nat, bytes: nat)
    requires Readable(d) && Contiguous(d) && PrefixOk(digest, d, LiveCount(d), previous, records, bytes)
    requires Judge(digest, previous, ActiveLines(d)).Rejected?
    ensures !ScansOk(digest, d)
  {
    hide Retained, SegmentLines, Events, Head, FileBytes, Contiguous, ScanHead, PrefixOk, ScansOk;
    JudgeMeans(digest, previous, ActiveLines(d));
    PrefixAll(digest, d, previous, records, bytes);
  }

  /** A scan that reaches the end knows what the disk holds. */
  lemma ScanCompletes(digest: Digest, d: Disk, previous: Hash, records: nat, bytes: nat, active: Verdict, report: Report, state: ScanState)
    requires Readable(d) && Contiguous(d) && PrefixOk(digest, d, LiveCount(d), previous, records, bytes)
    requires active == Judge(digest, previous, ActiveLines(d)) && active.Verified?
    requires report.records == records + active.records && report.totalRecords == report.records + AnchorOf(d).prunedRecords
    requires report.head == active.head && report.retainedSegments == LiveCount(d) && report.activeRecords == active.records
    requires report.activeBytes == FileBytes(ActiveLines(d)) && report.retainedBytes == report.activeBytes + bytes
    requires state == ScanState(active.head, previous, active.records, report.activeBytes, First(d) + LiveCount(d), d)
    ensures ScansOk(digest, d) && Matches(digest, state, d) && Describes(digest, report, d)
  {
    hide Retained, SegmentLines, Intact, Events, Head, FileBytes, Contiguous, ScanHead, PrefixOk, ScansOk;
    JudgeMeans(digest, previous, ActiveLines(d));
    PrefixAll(digest, d, previous, records, bytes);
  }

  lemma LaterPath(paths: seq<nat>, i: nat, j: nat)
    requires Ascending(paths) && i < j < |paths|
    ensures paths[i] < paths[j]
  {
  }

  lemma LiveWithin(d: Disk, n: nat)
    requires First(d) + n in d.segments
    ensures Contiguous(d) ==> n < LiveCount(d)
  {
    assert First(d) + n in LiveKeys(d);
  }

  lemma Gap(d: Disk, paths: seq<nat>, stale: nat, retained: nat)
    requires Ascending(paths) && (forall s :: s in paths <==> s in d.segments)
    requires stale + retained < |paths| && First(d) <= paths[stale + retained] != First(d) + retained
    requires forall j :: 0 <= j < stale ==> paths[j] < First(d)
    requires forall j :: stale <= j < stale + retained ==> paths[j] == First(d) + (j - stale)
    ensures !Contiguous(d)
  {
    var i, expected := stale + retained, First(d) + retained;
    assert paths[i] in paths;
    assert retained > 0 ==> paths[i - 1] == expected - 1;
    assert paths[i] > expected;
    assert forall k :: 0 <= k < |paths| ==> if k < i then paths[k] < expected else paths[k] >= paths[i];
    assert expected !in paths;
    assert paths[i] in LiveKeys(d) && expected !in LiveKeys(d);
  }

  lemma Listed(d: Disk, paths: seq<nat>, retained: nat, stale: nat)
    requires Ascending(paths) && (forall s :: s in paths <==> s in d.segments)
    requires retained + stale == |paths|
    requires forall j :: 0 <= j < stale ==> paths[j] < First(d)
    requires forall j :: stale <= j < stale + retained ==> paths[j] == First(d) + (j - stale)
    ensures Contiguous(d) && LiveCount(d) == retained && stale + retained == |d.segments|
  {
    forall s: nat ensures s in LiveKeys(d) <==> First(d) <= s < First(d) + retained {
      if s in LiveKeys(d) {
        assert s in paths;
        var k :| 0 <= k < |paths| && paths[k] == s;
        assert paths[k] == First(d) + (k - stale);
      }
      if First(d) <= s < First(d) + retained {
        assert paths[stale + (s - First(d))] == s;
        assert s in paths;
      }
    }
    IntervalSize(LiveKeys(d), First(d), retained);
    SeqSize(paths, d.segments.Keys);
  }

  lemma LiveSuffix(d: Disk, paths: seq<nat>, cut: nat)
    requires Readable(d) && Contiguous(d)
    requires Ascending(paths) && (forall s :: s in paths <==> s in d.segments) && cut <= |paths|
    requires forall i :: 0 <= i < cut ==> paths[i] < First(d)
    requires cut < |paths| ==> paths[cut] >= First(d)
    ensures |paths[cut..]| == LiveCount(d)
    ensures forall i :: 0 <= i < LiveCount(d) ==> paths[cut..][i] == First(d) + i
    ensures forall s :: First(d) <= s < First(d) + LiveCount(d) ==> s in d.segments
  {
    var live := paths[cut..];
    forall s ensures s in live <==> First(d) <= s < First(d) + LiveCount(d) {
      if s in live {
        assert s in paths && s >= live[0];
        assert s in LiveKeys(d);
      }
      if First(d) <= s < First(d) + LiveCount(d) {
        assert s in LiveKeys(d);
        assert s in paths;
        var k :| 0 <= k < |paths| && paths[k] == s;
        assert live[k - cut] == s;
      }
    }
    AscendingInterval(live, First(d), LiveCount(d));
    forall s: nat | First(d) <= s < First(d) + LiveCount(d) ensures s in d.segments {
      assert s in LiveKeys(d);
    }
  }

  /** Walks the chain through the oldest segments and sums them up in a new anchor. */
  method VerifyOldest(digest: Digest, d: Disk, segments: seq<nat>, count: nat) returns (r: Result<Anchor>)
    requires Chained(digest, d, count) && |segments| == LiveCount(d)
    requires forall i :: 0 <= i < |segments| ==> segments[i] == First(d) + i && segments[i] in d.segments
    ensures r == Success(PrunedAnchor(digest, d, count))
  {
    hide Intact, PrunedAnchor, RetentionAnchor, SegmentLines;
    NothingPruned(digest, d);
    var anchor := RetentionAnchor(d).value;
    var previous, lastSequence := anchor.previousHead, anchor.nextSequence - 1;
    var prunedRecords: nat := 0;
    var i := 0;
    while i < count
      invariant 0 <= i <= count && lastSequence == First(d) + i - 1
      invariant Anchor(previous, First(d) + i, anchor.prunedSegments + i, anchor.prunedRecords + prunedRecords)
             == PrunedAnchor(digest, d, i)
    {
      var sequence := segments[i];
      if sequence != lastSequence + 1 {
        return Failure(SegmentGap);
      }
      NextSegment(digest, d, i, count);
      var verdict := VerifyHashLinked(digest, d.segments[sequence], previous);
      if verdict.Rejected? {
        return Failure(SegmentInvalid);
      }
      previous := verdict.head;
      prunedRecords := prunedRecords + verdict.records;
      lastSequence := sequence;
      i := i + 1;
    }
    return Success(Anchor(previous, lastSequence + 1, anchor.prunedSegments + count, anchor.prunedRecords + prunedRecords));
  }

  function Members(paths: seq<nat>): set<nat> { set p | p in paths }

  /** The listing, cut where the live segments begin. */
  ghost predicate Splits(d: Disk, paths: seq<nat>, cut: nat) {
    && (forall s :: s in paths <==> s in d.segments) && |paths| == cut + LiveCount(d)
    && (forall i :: 0 <= i < cut ==> paths[i] < First(d))
    && (forall i :: cut <= i < |paths| ==> paths[i] == First(d) + (i - cut))
  }

  /** Without the stale files and the oldest `count` segments, what is left are the segments of the later anchor. */
  lemma AllSwept(d: Disk, e: Disk, paths: seq<nat>, cut: nat, count: nat)
    requires Splits(d, paths, cut) && count <= LiveCount(d)
    requires First(e) == First(d) + count && e.segments.Keys == d.segments.Keys - Members(paths[..cut + count])
    ensures Swept(e)
  {
    hide First, LiveCount;
    var gone := paths[..cut + count];
    forall i | 0 <= i < |gone| ensures gone[i] < First(e) {
      assert gone[i] == paths[i];
    }
    forall s | s in d.segments ensures s in gone <==> s < First(e) {
      var i :| 0 <= i < |paths| && paths[i] == s;
      if i < cut + count { assert gone[i] == s; }
    }
  }

  lemma SweptSize(d: Disk)
    requires Swept(d)
    ensures |d.segments| == LiveCount(d)
  {
    assert |d.segments| == |d.segments.Keys|;
  }

  class StateRepository {
    const digest: Digest
    const rotateBytes: nat
    const retainSegments: nat
    var disk: Disk
    var cache: Option<ScanState>
    ghost var log: seq<Event>

    /** The configured bounds, and: a cached state follows the disk it was taken from. */
    ghost predicate Valid() reads this {
      && 64 * 1024 <= rotateBytes && 1 <= retainSegments
      && (cache.Some? ==> Follows(digest, cache.value, cache.value.seen))
    }

    constructor (digest: Digest, rotateBytes: nat, retainSegments: nat, disk: Disk, ghost log: seq<Event>)
      requires 64 * 1024 <= rotateBytes <= 256 * 1024 * 1024 && 1 <= retainSegments <= 256
      ensures Valid() && this.digest == digest && this.disk == disk && this.log == log && cache.None?
      ensures this.rotateBytes == rotateBytes && this.retainSegments == retainSegments
    {
      this.digest, this.rotateBytes, this.retainSegments := digest, rotateBytes, retainSegments;
      this.disk, this.cache, this.log := disk, None, log;
    }

    /** Scans once, then trusts the cache for as long as the disk is the one it saw. */
    method EnsureState() returns (r: Result<ScanState>)
      requires Valid()
      modifies this`cache
      ensures Valid()
      ensures r.Success? <==> if old(cache).None? then ScansOk(digest, disk) else old(cache).value.seen == disk
      ensures r.Success? ==> Follows(digest, r.value, disk) && cache == Some(r.value)
      ensures r.Success? ==> (Matches(digest, r.value, disk) <==> ScansOk(digest, disk))
      ensures r.Failure? || old(cache).Some? ==> cache == old(cache)
      ensures r.Failure? ==> r.error == if cache.None? then VerificationFailed else ChangedOutside
    {
      if cache.None? {
        var scan := ScanAudit(digest, disk);
        if scan.Broken? {
          return Failure(VerificationFailed);
        }
        cache := Some(scan.state);
      } else if cache.value.seen != disk {
        return Failure(ChangedOutside);
      }
      return Success(cache.value);
    }

    /** A full verification on request; success also refreshes a cache that no longer matched the disk. */
    method VerifyAudit() returns (scan: Scan)
      requires Valid()
      modifies this`cache
      ensures Valid()
      ensures scan.Clean? <==> ScansOk(digest, disk)
      ensures scan.Clean? ==> Describes(digest, scan.report, disk) && cache.Some? && Matches(digest, cache.value, disk)
      ensures scan.Broken? ==> cache == old(cache)
    {
      scan := ScanAudit(digest, disk);
      if scan.Clean? {
        cache := Some(scan.state);
      }
    }

    /** Deletes the files in order; the anchor already excludes every one of them. */
    method Unlink(paths: seq<nat>) returns (r: Result<()>)
      requires Readable(disk) && forall i :: 0 <= i < |paths| ==> paths[i] < First(disk)
      modifies this`disk
      ensures LiveKeys(disk) == old(LiveKeys(disk)) && Retained(disk) == old(Retained(disk))
      ensures disk.active == old(disk.active) && disk.anchorFile == old(disk.anchorFile) && disk.stray == old(disk.stray)
      ensures First(disk) == old(First(disk))
      ensures forall s :: s in LiveKeys(disk) ==> disk.segments[s] == old(disk.segments)[s]
      ensures ScansOk(digest, disk) <==> old(ScansOk(digest, disk))
      ensures old(Recoverable(digest, disk, log)) ==> Recoverable(digest, disk, log)
      ensures r.Success? ==> disk.segments.Keys == old(disk.segments.Keys) - Members(paths)
      ensures r.Failure? ==> r.error == IoFault && disk.segments.Keys >= old(disk.segments.Keys) - Members(paths)
    {
      var i := 0;
      while i < |paths|
        invariant 0 <= i <= |paths|
        invariant LiveKeys(disk) == old(LiveKeys(disk)) && Retained(disk) == old(Retained(disk))
        invariant disk.active == old(disk.active) && disk.anchorFile == old(disk.anchorFile) && disk.stray == old(disk.stray)
        invariant forall s :: s in LiveKeys(disk) ==> disk.segments[s] == old(disk.segments)[s]
        invariant disk.segments.Keys == old(disk.segments.Keys) - Members(paths[..i])
      {
        var failed: bool := *;
        if failed {
          return Failure(IoFault);
        }
        UnlinkKeepsRetained(digest, disk, paths[i]);
        disk := disk.(segments := disk.segments - {paths[i]});
        assert paths[..i + 1] == paths[..i] + [paths[i]];
        i := i + 1;
      }
      assert paths[..i] == paths;
      var unsynced: bool := *;
      return if unsynced then Failure(IoFault) else Success(());
    }

    /** Commits the anchor for the oldest segments beyond the retention count, then deletes their files. */
    method PruneSegments() returns (r: Result<()>)
      requires Valid() && Readable(disk) && Contiguous(disk)
      requires LiveCount(disk) > retainSegments ==> Chained(digest, disk, LiveCount(disk) - retainSegments)
      modifies this`disk
      ensures Valid() && disk.active == old(disk.active)
      ensures ScansOk(digest, disk) <==> old(ScansOk(digest, disk))
      ensures old(Recoverable(digest, disk, log)) ==> Recoverable(digest, disk, log)
      ensures old(SegmentsFit(disk, rotateBytes)) ==> SegmentsFit(disk, rotateBytes)
      ensures r.Success? ==> LiveCount(disk) == Min(old(LiveCount(disk)), retainSegments) && Swept(disk)
      ensures r.Failure? ==> r.error == IoFault
    {
      hide ScansOk, Recoverable, Retained, SegmentLines, PrunedAnchor, Take, RetentionAnchor, Follows, Intact, Swept;
      NothingPruned(digest, disk);
      var anchor := RetentionAnchor(disk).value;
      var listed := SegmentPaths(disk);
      var paths := listed.value;
      var cut := 0;
      while cut < |paths| && paths[cut] < anchor.nextSequence
        invariant 0 <= cut <= |paths| && forall i :: 0 <= i < cut ==> paths[i] < anchor.nextSequence
      {
        cut := cut + 1;
      }
      var stale, segments := paths[..cut], paths[cut..];
      LiveSuffix(disk, paths, cut);
      assert Splits(disk, paths, cut);
      if |segments| <= retainSegments {
        ghost var before := disk;
        r := Unlink(stale);
        if r.Success? { AllSwept(before, disk, paths, cut, 0); }
        return;
      }
      r := PruneOldest(paths, cut, |segments| - retainSegments);
    }

    /** Deletes the stale files and the oldest segments, once an anchor stands for those. */
    method PruneOldest(paths: seq<nat>, cut: nat, pruneCount: nat) returns (r: Result<()>)
      requires Valid() && Readable(disk) && Contiguous(disk) && Splits(disk, paths, cut)
      requires pruneCount == LiveCount(disk) - retainSegments > 0 && Chained(digest, disk, pruneCount)
      modifies this`disk
      ensures Valid() && disk.active == old(disk.active)
      ensures ScansOk(digest, disk) <==> old(ScansOk(digest, disk))
      ensures old(Recoverable(digest, disk, log)) ==> Recoverable(digest, disk, log)
      ensures old(SegmentsFit(disk, rotateBytes)) ==> SegmentsFit(disk, rotateBytes)
      ensures r.Success? ==> LiveCount(disk) == retainSegments && Swept(disk)
      ensures r.Failure? ==> r.error == IoFault
    {
      hide ScansOk, Recoverable, Retained, SegmentLines, PrunedAnchor, Take, RetentionAnchor, Follows, Intact, Swept, Contiguous;
      NothingPruned(digest, disk);
      var summary := VerifyOldest(digest, disk, paths[cut..], pruneCount);
      match summary {
        case Failure(error) =>
          return Failure(error);
        case Success(newAnchor) =>
          var failed: bool := *;
          if failed {
            return Failure(IoFault);
          }
          ghost var before := disk;
          CommitOldest(pruneCount, newAnchor);
          var doomed := paths[..cut] + paths[cut..][..pruneCount];
          assert doomed == paths[..cut + pruneCount];
          r := Unlink(doomed);
          if r.Success? { AllSwept(before, disk, paths, cut, pruneCount); }
      }
    }

    /** Replaces the anchor file: the step after which the pruned segments no longer count. */
    method CommitOldest(count: nat, anchor: Anchor)
      requires Chained(digest, disk, count) && anchor == PrunedAnchor(digest, disk, count)
      modifies this`disk
      ensures disk == Take(digest, old(disk), CommitAnchor(count))
      ensures disk.active == old(disk.active) && disk.segments == old(disk.segments)
      ensures Readable(disk) && (ScansOk(digest, disk) <==> old(ScansOk(digest, disk)))
      ensures LiveCount(disk) == old(LiveCount(disk)) - count && LiveKeys(disk) <= old(LiveKeys(disk))
      ensures First(disk) == old(First(disk)) + count
      ensures old(Recoverable(digest, disk, log)) ==> Recoverable(digest, disk, log)
    {
      hide Recoverable, ScansOk, Intact, Retained, SegmentLines, Events, Head, Contiguous;
      StepScans(digest, disk, CommitAnchor(count));
      LaterAnchor(disk, Take(digest, disk, CommitAnchor(count)), count);
      if Recoverable(digest, disk, log) {
        StepKeepsRecoverable(digest, disk, log, CommitAnchor(count));
      }
      disk := disk.(anchorFile := Committed(anchor));
    }

    /** Moves a non-empty active file to the next segment number, prunes, and rescans. */
    method Rotate() returns (r: Result<()>)
      requires Valid() && cache.Some? && cache.value.seen == disk
      modifies this`disk, this`cache
      ensures Valid() && (ScansOk(digest, disk) <==> old(ScansOk(digest, disk)))
      ensures old(Recoverable(digest, disk, log)) ==> Recoverable(digest, disk, log)
      ensures r.Success? && old(cache.value.activeBytes) != 0 ==>
        && ScansOk(digest, disk) && cache.Some? && cache.value.seen == disk && disk.active.None?
        && LiveCount(disk) == Min(old(LiveCount(disk)) + 1, retainSegments) && Swept(disk)
        && (old(SegmentsFit(disk, rotateBytes) && FileBytes(ActiveLines(disk)) <= rotateBytes) ==> SegmentsFit(disk, rotateBytes))
      ensures r.Success? && old(cache.value.activeBytes) == 0 ==> disk == old(disk) && cache == old(cache)
      ensures r.Failure? ==> r.error == IoFault || (r.error == VerificationFailed && !old(ScansOk(digest, disk)))
    {
      hide Recoverable, Retained, SegmentLines, Events, ScanHead, Intact, ScansOk, Swept;
      FollowsChained(digest, cache.value, disk);
      var ensured := EnsureState();
      var state := ensured.value;
      if disk.active.None? || state.activeBytes == 0 {
        return Success(());
      }
      var sequence := state.nextSequence;
      RenameKeepsRetained(digest, disk);
      if sequence in disk.segments {
        return Failure(TargetExists);
      }
      var failed: bool := *;
      if failed {
        return Failure(IoFault);
      }
      StepScans(digest, disk, RenameActive);
      if Recoverable(digest, disk, log) {
        StepKeepsRecoverable(digest, disk, log, RenameActive);
      }
      RenameKeepsChained(digest, disk);
      disk := disk.(segments := disk.segments[sequence := disk.active.value], active := None);
      assert disk == Take(digest, old(disk), RenameActive);
      var unsynced: bool := *;
      if unsynced {
        return Failure(IoFault);
      }
      cache := None;
      assert old(SegmentsFit(disk, rotateBytes) && FileBytes(ActiveLines(disk)) <= rotateBytes) ==> SegmentsFit(disk, rotateBytes) by {
        assert forall s :: s in LiveKeys(disk) ==> s == sequence || s in old(LiveKeys(disk));
      }
      if LiveCount(disk) > retainSegments {
        ChainedPrefix(digest, disk, LiveCount(disk) - retainSegments, LiveCount(disk) - 1);
      }
      var pruned := PruneSegments();
      if pruned.Failure? {
        return Failure(pruned.error);
      }
      var scan := ScanAudit(digest, disk);
      if scan.Broken? {
        return Failure(VerificationFailed);
      }
      cache := Some(scan.state);
      return Success(());
    }

    /** Asks the file system to append one line; it may do so durably, silently, but for its newline, partly or not at all. */
    method WriteLine(line: Line) returns (outcome: WriteOutcome)
      requires line.Entry?
      modifies this`disk
      ensures outcome.Durable? || outcome.Unacknowledged? ==> disk == old(disk).(active := Some(Appended(old(ActiveLines(disk)), line)))
      ensures outcome.Unterminated? ==> disk == old(disk).(active := Some(Appended(old(ActiveLines(disk)), line.(ended := false))))
      ensures outcome.NotWritten? ==> disk == old(disk)
      ensures outcome.Torn? ==> disk == TornDisk(old(disk), outcome.size)
    {
      outcome := *;
      match outcome
      case Durable => disk := disk.(active := Some(Appended(ActiveLines(disk), line)));
      case Unacknowledged => disk := disk.(active := Some(Appended(ActiveLines(disk), line)));
      case Unterminated => disk := disk.(active := Some(Appended(ActiveLines(disk), line.(ended := false))));
      case NotWritten =>
      case Torn(size) => disk := disk.(active := Some(Appended(ActiveLines(disk), Malformed(size))));
    }

    /** The log reached the disk whole, or the disk shows a torn line after it and will not scan. */
    ghost predicate Safe() reads this {
      || Recoverable(digest, disk, log)
      || exists d, size :: Recoverable(digest, d, log) && disk == TornDisk(d, size)
    }

    /** The line would not fit beside what the active file holds, so the file is rotated away first. */
    ghost predicate Overflows(size: nat) reads this {
      FileBytes(ActiveLines(disk)) != 0 && FileBytes(ActiveLines(disk)) + size > rotateBytes
    }

    /** No append is attempted: the first scan fails, or the disk is not the one last seen. */
    ghost predicate Refuses() reads this {
      if cache.None? then !ScansOk(digest, disk) else cache.value.seen != disk
    }

    /** Brings the cache up to date, and rotates when a non-empty active file has no room for the line. */
    method MakeRoom(size: nat) returns (r: Result<ScanState>)
      requires Valid() && size <= rotateBytes
      modifies this`disk, this`cache
      ensures Valid() && (ScansOk(digest, disk) <==> old(ScansOk(digest, disk)))
      ensures old(Recoverable(digest, disk, log)) ==> Recoverable(digest, disk, log)
      ensures r.Success? ==> Follows(digest, r.value, disk) && cache == Some(r.value)
      ensures r.Success? ==>
        if old(Overflows(size)) then
          && ScansOk(digest, disk) && EndsClean(disk)
          && LiveCount(disk) == Min(old(LiveCount(disk)) + 1, retainSegments) && Swept(disk)
        else disk == old(disk)
      ensures r.Success? && old(Compact(disk, rotateBytes, retainSegments)) ==>
        Compact(disk, rotateBytes, retainSegments) && FileBytes(ActiveLines(disk)) + size <= rotateBytes
      ensures old(Refuses()) ==> r.Failure? && r.error != IoFault && disk == old(disk)
      ensures r.Failure? && r.error != IoFault ==> old(Refuses()) || (old(Overflows(size)) && !old(ScansOk(digest, disk)))
    {
      hide ScansOk, Recoverable, SegmentsFit, Retained, SegmentLines, Events, LiveKeys, ScanHead, Intact, Swept;
      r := EnsureState();
      if r.Success? { FollowsChained(digest, r.value, disk); }
      if r.Success? && r.value.activeBytes != 0 && r.value.activeBytes + size > rotateBytes {
        var rotated := Rotate();
        if rotated.Failure? {
          return Failure(rotated.error);
        }
        NoBytes();
        r := EnsureState();
      }
    }

    /**
     * Appends one event, rotating first when the line would not fit. The disk scans afterwards exactly when it
     * did before and the record was not written onto one that lacks its newline; then, whatever fails and wherever
     * it stops, the disk holds exactly the events that reached it.
     */
    method Append(event: Event) returns (r: Result<Line>)
      requires Valid()
      modifies this
      ensures Valid()
      ensures log == old(log) || log == old(log) + [event]
      ensures r.Success? ==>
        (ScansOk(digest, disk) <==> old(ScansOk(digest, disk)) && (old(EndsClean(disk)) || old(Overflows(event.bytes + RECORD_OVERHEAD))))
      ensures r.Success? ==>
        && cache.Some? && Follows(digest, cache.value, disk)
        && (Matches(digest, cache.value, disk) <==> ScansOk(digest, disk))
      ensures old(Recoverable(digest, disk, log)) && (old(EndsClean(disk)) || old(Overflows(event.bytes + RECORD_OVERHEAD))) ==>
        Safe() && (r.Success? ==>
          && log == old(log) + [event] && Recoverable(digest, disk, log)
          && r.value == Record(digest, Head(digest, ZERO_HASH, old(log)), event))
      ensures r.Success? && old(Compact(disk, rotateBytes, retainSegments)) ==> Compact(disk, rotateBytes, retainSegments)
      ensures r.Success? ==>
        (LiveCount(disk) <= retainSegments <==>
         old(LiveCount(disk)) <= retainSegments || old(Overflows(event.bytes + RECORD_OVERHEAD)))
      ensures r.Success? ==>
        if old(Overflows(event.bytes + RECORD_OVERHEAD)) then
          LiveCount(disk) == |disk.segments| == Min(old(LiveCount(disk)) + 1, retainSegments)
        else
          disk.segments == old(disk.segments) && disk.anchorFile == old(disk.anchorFile)
      ensures event.bytes > MAX_EVENT_BYTES || old(Refuses()) ==>
        r.Failure? && r.error != IoFault && disk == old(disk) && log == old(log)
      ensures r.Failure? && r.error != IoFault ==>
        || event.bytes > MAX_EVENT_BYTES || old(Refuses())
        || (old(Overflows(event.bytes + RECORD_OVERHEAD)) && !old(ScansOk(digest, disk)))
    {
      hide ScansOk, Recoverable, Compact, SegmentsFit, Retained, SegmentLines, LiveKeys;
      hide Events, ScanHead, Matches, Overrun, EndsClean, Head;
      if event.bytes > MAX_EVENT_BYTES {
        return Failure(EventTooLarge);
      }
      var room := MakeRoom(event.bytes + RECORD_OVERHEAD);
      if room.Failure? {
        return Failure(room.error);
      }
      ghost var roomy := disk;
      r := AppendRecord(event, room.value);
      if r.Success? && old(Overflows(event.bytes + RECORD_OVERHEAD)) { SweptSize(roomy); }
      if r.Success? && Compact(roomy, rotateBytes, retainSegments) && FileBytes(ActiveLines(disk)) <= rotateBytes {
        CompactAfterWrite(roomy, disk, rotateBytes, retainSegments);
      }
    }

    /** Writes the record that extends the scanned head, and advances the cache with it. */
    method AppendRecord(event: Event, state: ScanState) returns (r: Result<Line>)
      requires Valid() && cache == Some(state) && Follows(digest, state, disk)
      modifies this
      ensures Valid()
      ensures log == old(log) || log == old(log) + [event]
      ensures r.Success? ==> (ScansOk(digest, disk) <==> old(ScansOk(digest, disk) && EndsClean(disk)))
      ensures r.Success? ==>
        && cache.Some? && Follows(digest, cache.value, disk)
        && (Matches(digest, cache.value, disk) <==> ScansOk(digest, disk))
      ensures old(Recoverable(digest, disk, log) && EndsClean(disk)) ==>
        Safe() && (r.Success? ==>
          && log == old(log) + [event] && Recoverable(digest, disk, log)
          && r.value == Record(digest, Head(digest, ZERO_HASH, old(log)), event))
      ensures r.Success? ==>
        LiveKeys(disk) == old(LiveKeys(disk)) && disk.segments == old(disk).segments && disk.anchorFile == old(disk).anchorFile
      ensures r.Success? ==> FileBytes(ActiveLines(disk)) == old(FileBytes(ActiveLines(disk))) + event.bytes + RECORD_OVERHEAD
      ensures r.Failure? ==> r.error == IoFault
    {
      hide Recoverable, ScansOk, Retained, SegmentLines, Events, Head, LiveKeys;
      hide ScanHead, Follows, EndsClean, Matches, Overrun, Take, Appended;
      ghost var before := disk;
      ghost var good := Recoverable(digest, disk, log);
      AppendFollows(digest, disk, event, state);
      RecordKeepsLog(digest, disk, log, event, state);
      var record := Record(digest, state.head, event);
      var outcome := WriteLine(record);
      if outcome.Durable? || outcome.Unacknowledged? || outcome.Unterminated? {
        log := log + [event];
      }
      if !outcome.Durable? {
        cache := None;
        if outcome.Torn? && good { assert Recoverable(digest, before, log) && disk == TornDisk(before, outcome.size); }
        return Failure(IoFault);
      }
      cache := Some(state.(head := record.hash, activeRecords := state.activeRecords + 1,
                           activeBytes := state.activeBytes + LineBytes(record), seen := disk));
      return Success(record);
    }
  }

  lemma CompactAfterWrite(d: Disk, e: Disk, rotateBytes: nat, retainSegments: nat)
    requires Compact(d, rotateBytes, retainSegments) && FileBytes(ActiveLines(e)) <= rotateBytes
    requires LiveKeys(e) == LiveKeys(d) && e.segments == d.segments
    ensures Compact(e, rotateBytes, retainSegments)
  {
  }

  /** The cache after a write: what a rescan computes on a clean end, and otherwise a state of a disk that no longer scans. */
  lemma AppendFollows(digest: Digest, d: Disk, event: Event, state: ScanState)
    requires Follows(digest, state, d)
    ensures var record := Record(digest, state.head, event);
      var e := d.(active := Some(Appended(ActiveLines(d), record)));
      var next := state.(head := record.hash, activeRecords := state.activeRecords + 1,
                         activeBytes := state.activeBytes + LineBytes(record), seen := e);
      && LiveKeys(e) == LiveKeys(d) && FileBytes(ActiveLines(e)) == FileBytes(ActiveLines(d)) + event.bytes + RECORD_OVERHEAD
      && (ScansOk(digest, e) <==> ScansOk(digest, d) && EndsClean(d))
      && Follows(digest, next, e) && (Matches(digest, next, e) <==> ScansOk(digest, e))
  {
    hide Intact, ScansOk, SegmentLines, Events, Head, LiveKeys, Retained;
    var record := Record(digest, state.head, event);
    var e := d.(active := Some(Appended(ActiveLines(d), record)));
    FollowsChained(digest, state, d);
    ActiveOnly(d, e);
    ActiveKeepsChained(digest, d, e);
    AppendedBytes(ActiveLines(d), record);
    if ScansOk(digest, d) && EndsClean(d) {
      WriteKeepsMatch(digest, d, event, state);
    } else {
      BadStaysBad(digest, d, record);
    }
  }

  lemma ActiveKeepsChained(digest: Digest, d: Disk, e: Disk)
    requires e.segments == d.segments && e.anchorFile == d.anchorFile && e.stray == d.stray && Chained(digest, d, LiveCount(d))
    ensures Chained(digest, e, LiveCount(e)) && LiveCount(e) == LiveCount(d) && First(e) == First(d)
  {
    hide Intact;
    ActiveOnly(d, e);
  }

  /** No line appended to a disk that does not scan, or to an unended record, makes it scan. */
  lemma BadStaysBad(digest: Digest, d: Disk, line: Line)
    requires !(ScansOk(digest, d) && EndsClean(d))
    ensures !ScansOk(digest, d.(active := Some(Appended(ActiveLines(d), line))))
  {
    var e := d.(active := Some(Appended(ActiveLines(d), line)));
    if EndsClean(d) {
      ActiveOnly(d, e);
      Associative(SegmentLines(d, LiveCount(d)), ActiveLines(d), [line]);
      IntactSnoc(digest, AnchorOf(d).previousHead, Retained(d), line);
    } else {
      GluedNeverScans(digest, d, line);
    }
  }

  /** On a clean end the record written is the next step of the log, with its newline or without. */
  lemma RecordKeepsLog(digest: Digest, d: Disk, log: seq<Event>, event: Event, state: ScanState)
    requires Follows(digest, state, d)
    ensures Recoverable(digest, d, log) && EndsClean(d) ==>
      var record := Record(digest, state.head, event);
      && record == Record(digest, Head(digest, ZERO_HASH, log), event)
      && Recoverable(digest, d.(active := Some(Appended(ActiveLines(d), record))), log + [event])
      && Recoverable(digest, d.(active := Some(Appended(ActiveLines(d), record.(ended := false)))), log + [event])
  {
    hide Recoverable, ScansOk, Retained, SegmentLines, Events, Head, LiveKeys, ScanHead;
    if Recoverable(digest, d, log) && EndsClean(d) {
      RecoverableScans(digest, d, log);
      FollowsChained(digest, state, d);
      RescanFindsLog(digest, d, log);
      StepKeepsRecoverable(digest, d, log, WriteRecord(event, true));
      StepKeepsRecoverable(digest, d, log, WriteRecord(event, false));
    }
  }

  lemma RecoverableScans(digest: Digest, d: Disk, log: seq<Event>)
    requires Recoverable(digest, d, log)
    ensures ScansOk(digest, d)
  {
  }

  /** Renaming the active file adds one segment after the chained ones. */
  lemma RenameKeepsChained(digest: Digest, d: Disk)
    requires Chained(digest, d, LiveCount(d))
    ensures var e := Take(digest, d, RenameActive);
      && LiveCount(e) == LiveCount(d) + 1 && Readable(e) && Contiguous(e)
      && Chained(digest, e, LiveCount(d))
  {
    hide Intact;
    var e := Take(digest, d, RenameActive);
    RenameKeepsRetained(digest, d);
    SameSegments(d, e, LiveCount(d));
  }

  lemma WriteKeepsMatch(digest: Digest, d: Disk, event: Event, state: ScanState)
    requires Matches(digest, state, d) && EndsClean(d)
    ensures var record := Record(digest, state.head, event); var e := Take(digest, d, WriteRecord(event, true));
      && FileBytes(ActiveLines(e)) == state.activeBytes + LineBytes(record)
      && LiveKeys(e) == LiveKeys(d)
      && Matches(digest, state.(head := record.hash, activeRecords := state.activeRecords + 1,
                                activeBytes := state.activeBytes + LineBytes(record), seen := e), e)
  {
    hide Intact, ScansOk, SegmentLines, Events, Head, LiveKeys, Retained;
    var record, e := Record(digest, state.head, event), Take(digest, d, WriteRecord(event, true));
    WriteAppends(digest, d, event, true);
    WriteScans(digest, d, event, true);
    SameSegments(d, e, LiveCount(d));
    IntactSnoc(digest, ZERO_HASH, ActiveLines(d), record);
    IntactSnoc(digest, ZERO_HASH, Retained(d), record);
    HeadSnoc(digest, AnchorOf(d).previousHead, Events(Retained(d)), event);
  }
}
