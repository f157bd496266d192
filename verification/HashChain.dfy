/** Hash-linked record files: what one file says, and when it verifies. */
module HashChain {

  // A 64-digit hexadecimal digest, as the number it spells.
  type Hash = nat

  const ZERO_HASH: Hash := 0

  // An event in canonical form: its content as an opaque token, and its length in bytes.
  datatype Event = Event(content: nat, bytes: nat)

  type Digest = (Hash, Event) -> Hash

  /** The idealised digest: collision free, and never the all-zero hash. */
  ghost predicate Ideal(digest: Digest) {
    && (forall p, e, q, f :: digest(p, e) == digest(q, f) ==> p == q && e == f)
    && (forall p, e :: digest(p, e) != ZERO_HASH)
  }

  // One line of a file: white space, text that does not parse as a record, or a record. A record
  // whose write stopped just short of its newline is not `ended`; `extra` bytes are further keys, which
  // neither verification nor the digest looks at.
  datatype Line =
    | Blank
    | Malformed(size: nat)
    | Entry(event: Event, previousHash: Hash, hash: Hash, ended: bool, extra: nat)

  // Everything in a record line except the canonical event itself: the two 64-digit
  // hashes, the three key names, the punctuation and the newline.
  const RECORD_OVERHEAD := 167

  function LineBytes(line: Line): nat {
    match line
    case Blank => 1
    case Malformed(size) => size
    case Entry(event, _, _, ended, extra) => event.bytes + RECORD_OVERHEAD + extra - (if ended then 0 else 1)
  }

  function FileBytes(file: seq<Line>): nat {
    if file == [] then 0 else FileBytes(file[..|file| - 1]) + LineBytes(file[|file| - 1])
  }

  function RecordEnding(digest: Digest, previous: Hash, event: Event, ended: bool): Line {
    Entry(event, previous, digest(previous, event), ended, 0)
  }

  function Record(digest: Digest, previous: Hash, event: Event): Line { RecordEnding(digest, previous, event, true) }

  /** Nothing written next can run into the last line. */
  predicate Terminated(file: seq<Line>) {
    file == [] || !file[|file| - 1].Entry? || file[|file| - 1].ended
  }

  /** The file after its end got one more line; without a newline before it, the two become one line that does not parse. */
  function Appended(file: seq<Line>, line: Line): seq<Line> {
    if Terminated(file) then file + [line]
    else
      var n := |file| - 1;
      file[..n] + [Malformed(LineBytes(file[n]) + LineBytes(line))]
  }

  /** The head hash after appending `events` to a chain whose head is `start`. */
  function Head(digest: Digest, start: Hash, events: seq<Event>): Hash {
    if events == [] then start
    else digest(Head(digest, start, events[..|events| - 1]), events[|events| - 1])
  }

  /** The record lines that appending `events` to a chain with head `start` writes. */
  function Written(digest: Digest, start: Hash, events: seq<Event>): seq<Line> {
    if events == [] then []
    else
      var before := events[..|events| - 1];
      Written(digest, start, before) + [Record(digest, Head(digest, start, before), events[|events| - 1])]
  }

  /** The events of the parsed records, in file order. */
  function Events(file: seq<Line>): seq<Event> {
    if file == [] then []
    else
      var before := Events(file[..|file| - 1]);
      match file[|file| - 1]
      case Entry(event, _, _, _, _) => before + [event]
      case _ => before
  }

  function Whole(line: Line): Line { if line.Entry? then line.(ended := true, extra := 0) else line }

  /** The lines that say something, each as if it ended and held nothing that is not looked at. */
  function NonBlank(file: seq<Line>): seq<Line> {
    if file == [] then []
    else
      var before := NonBlank(file[..|file| - 1]);
      if file[|file| - 1].Blank? then before else before + [Whole(file[|file| - 1])]
  }

  /** A file verifies from `start` when, blanks aside, it is exactly what appending its events wrote. */
  ghost predicate Intact(digest: Digest, start: Hash, file: seq<Line>) {
    NonBlank(file) == Written(digest, start, Events(file))
  }

  /** Whether `line` may follow a chain whose head is `previous`. */
  predicate Extends(digest: Digest, previous: Hash, line: Line) {
    match line
    case Blank => true
    case Malformed(_) => false
    case Entry(event, before, hash, _, _) => before == previous && hash == digest(previous, event)
  }

  lemma WrittenLength(digest: Digest, start: Hash, events: seq<Event>)
    ensures |Written(digest, start, events)| == |events|
  {
    if events != [] { WrittenLength(digest, start, events[..|events| - 1]); }
  }

  lemma NonBlankLength(file: seq<Line>)
    ensures |NonBlank(file)| >= |Events(file)|
  {
    if file != [] { NonBlankLength(file[..|file| - 1]); }
  }

  lemma {:induction false} IntactSnoc(digest: Digest, start: Hash, file: seq<Line>, line: Line)
    ensures Intact(digest, start, file + [line])
        <==> Intact(digest, start, file) && Extends(digest, Head(digest, start, Events(file)), line)
    ensures Events(file + [line]) == Events(file) + (if line.Entry? then [line.event] else [])
    ensures FileBytes(file + [line]) == FileBytes(file) + LineBytes(line)
  {
    var all := file + [line];
    assert all[..|all| - 1] == file;
    if line.Entry? {
      var events := Events(file);
      assert (events + [line.event])[..|events|] == events;
      assert Events(all) == events + [line.event];
      assert NonBlank(all) == NonBlank(file) + [Whole(line)];
      WrittenLength(digest, start, events);
      var lhs, rhs := NonBlank(all), Written(digest, start, Events(all));
      if lhs == rhs {
        assert lhs[..|lhs| - 1] == NonBlank(file);
        assert rhs[..|rhs| - 1] == Written(digest, start, events);
        assert lhs[|lhs| - 1] == rhs[|rhs| - 1];
      }
    } else if line.Malformed? {
      NonBlankLength(file);
      WrittenLength(digest, start, Events(file));
      assert |NonBlank(all)| == |NonBlank(file)| + 1;
    }
  }

  lemma HeadSnoc(digest: Digest, start: Hash, events: seq<Event>, event: Event)
    ensures Head(digest, start, events + [event]) == digest(Head(digest, start, events), event)
  {
    assert (events + [event])[..|events|] == events;
  }

  lemma {:induction false} HeadConcat(digest: Digest, start: Hash, a: seq<Event>, b: seq<Event>)
    ensures Head(digest, start, a + b) == Head(digest, Head(digest, start, a), b)
  {
    if b == [] {
      assert a + b == a;
    } else {
      HeadConcat(digest, start, a, b[..|b| - 1]);
      assert (a + b)[..|a + b| - 1] == a + b[..|b| - 1];
    }
  }

  /** Two files verify as one exactly when the second verifies from the head of the first. */
  lemma {:induction false} IntactConcat(digest: Digest, start: Hash, a: seq<Line>, b: seq<Line>)
    ensures Events(a + b) == Events(a) + Events(b)
    ensures Intact(digest, start, a + b)
        <==> Intact(digest, start, a) && Intact(digest, Head(digest, start, Events(a)), b)
  {
    if b == [] {
      assert a + b == a;
    } else {
      var init, line := b[..|b| - 1], b[|b| - 1];
      IntactConcat(digest, start, a, init);
      assert a + b == (a + init) + [line] && b == init + [line];
      IntactSnoc(digest, start, a + init, line);
      IntactSnoc(digest, Head(digest, start, Events(a)), init, line);
      HeadConcat(digest, start, Events(a), Events(init));
      if line.Entry? {
        assert Events(a) + (Events(init) + [line.event]) == (Events(a) + Events(init)) + [line.event];
      }
    }
  }

  /** Equal heads and equal lengths: the chains started from one hash and hold the same events. */
  lemma {:induction false} HeadDeterminesSuffix(digest: Digest, a: Hash, s: seq<Event>, b: Hash, t: seq<Event>)
    requires Ideal(digest)
    requires |s| == |t| && Head(digest, a, s) == Head(digest, b, t)
    ensures a == b && s == t
  {
    if s != [] {
      var m := |s| - 1;
      assert digest(Head(digest, a, s[..m]), s[m]) == digest(Head(digest, b, t[..m]), t[m]);
      HeadDeterminesSuffix(digest, a, s[..m], b, t[..m]);
      assert s == s[..m] + [s[m]] && t == t[..m] + [t[m]];
    }
  }

  /** From the zero hash no count is needed: the head alone determines the whole history. */
  lemma {:induction false} HeadDeterminesHistory(digest: Digest, s: seq<Event>, t: seq<Event>)
    requires Ideal(digest)
    requires Head(digest, ZERO_HASH, s) == Head(digest, ZERO_HASH, t)
    ensures s == t
  {
    if s != [] && t != [] {
      var m, n := |s| - 1, |t| - 1;
      assert digest(Head(digest, ZERO_HASH, s[..m]), s[m]) == digest(Head(digest, ZERO_HASH, t[..n]), t[n]);
      HeadDeterminesHistory(digest, s[..m], t[..n]);
      assert s == s[..m] + [s[m]] && t == t[..n] + [t[n]];
    }
  }

  /** No insertion, deletion, reordering or edit survives verification against a known head. */
  lemma TamperEvident(digest: Digest, f: seq<Line>, g: seq<Line>)
    requires Ideal(digest)
    requires Intact(digest, ZERO_HASH, f) && Intact(digest, ZERO_HASH, g)
    requires Head(digest, ZERO_HASH, Events(f)) == Head(digest, ZERO_HASH, Events(g))
    ensures Events(f) == Events(g) && NonBlank(f) == NonBlank(g)
  {
    HeadDeterminesHistory(digest, Events(f), Events(g));
  }

  datatype Mismatch = PreviousHashMismatch | RecordHashMismatch | Unparsable

  datatype Verdict =
    | Verified(records: nat, head: Hash)
    | Rejected(records: nat, error: Mismatch)

  /** The verdict on a file, line by line: the first line that does not extend the chain decides. */
  function Judge(digest: Digest, start: Hash, file: seq<Line>): Verdict {
    if file == [] then Verified(0, start)
    else
      match Judge(digest, start, file[..|file| - 1])
      case Rejected(records, error) => Rejected(records, error)
      case Verified(records, head) =>
        match file[|file| - 1]
        case Blank => Verified(records, head)
        case Malformed(_) => Rejected(records, Unparsable)
        case Entry(event, previousHash, hash, _, _) =>
          if previousHash != head then Rejected(records, PreviousHashMismatch)
          else if hash != digest(head, event) then Rejected(records, RecordHashMismatch)
          else Verified(records + 1, hash)
  }

  /** A file is accepted exactly when it is intact, with the count and head of its events. */
  lemma {:induction false} JudgeMeans(digest: Digest, start: Hash, file: seq<Line>)
    ensures Judge(digest, start, file).Verified? <==> Intact(digest, start, file)
    ensures Intact(digest, start, file) ==>
      Judge(digest, start, file) == Verified(|Events(file)|, Head(digest, start, Events(file)))
  {
    if file != [] {
      var init, last := file[..|file| - 1], file[|file| - 1];
      JudgeMeans(digest, start, init);
      assert file == init + [last];
      IntactSnoc(digest, start, init, last);
      if last.Entry? {
        assert (Events(init) + [last.event])[..|Events(init)|] == Events(init);
      }
    }
  }

  /** A rejection counts the records before the offending line, whatever follows that line. */
  lemma {:induction false} JudgeStops(digest: Digest, start: Hash, good: seq<Line>, bad: Line, rest: seq<Line>)
    requires Intact(digest, start, good) && !Extends(digest, Head(digest, start, Events(good)), bad)
    ensures Judge(digest, start, good + [bad] + rest).Rejected?
    ensures Judge(digest, start, good + [bad] + rest).records == |Events(good)|
    ensures Judge(digest, start, good + [bad] + rest).error == Unparsable <==> bad.Malformed?
  {
    var file := good + [bad] + rest;
    if rest == [] {
      JudgeMeans(digest, start, good);
      assert file[..|file| - 1] == good;
    } else {
      JudgeStops(digest, start, good, bad, rest[..|rest| - 1]);
      assert file[..|file| - 1] == good + [bad] + rest[..|rest| - 1];
    }
  }

  /** One pass over a file, carrying the running hash and the record count. */
  method VerifyHashLinked(digest: Digest, file: seq<Line>, initial: Hash) returns (verdict: Verdict)
    ensures verdict == Judge(digest, initial, file)
    ensures verdict.Verified? <==> Intact(digest, initial, file)
    ensures verdict.Verified? ==>
      verdict.records == |Events(file)| && verdict.head == Head(digest, initial, Events(file))
  {
    JudgeMeans(digest, initial, file);
    var previous, count := initial, 0;
    var i := 0;
    while i < |file|
      invariant 0 <= i <= |file|
      invariant Judge(digest, initial, file[..i]) == Verified(count, previous)
    {
      assert file[..i + 1][..i] == file[..i];
      match file[i] {
        case Blank =>
        case Malformed(_) =>
          JudgeSuffix(digest, initial, file, i + 1);
          return Rejected(count, Unparsable);
        case Entry(event, previousHash, hash, _, _) =>
          if previousHash != previous {
            JudgeSuffix(digest, initial, file, i + 1);
            return Rejected(count, PreviousHashMismatch);
          }
          var expected := digest(previous, event);
          if hash != expected {
            JudgeSuffix(digest, initial, file, i + 1);
            return Rejected(count, RecordHashMismatch);
          }
          previous := expected;
          count := count + 1;
      }
      i := i + 1;
    }
    assert file[..i] == file;
    return Verified(count, previous);
  }

  lemma {:induction false} JudgeSuffix(digest: Digest, start: Hash, file: seq<Line>, i: nat)
    requires i <= |file| && Judge(digest, start, file[..i]).Rejected?
    ensures Judge(digest, start, file) == Judge(digest, start, file[..i])
  {
    if i == |file| {
      assert file[..i] == file;
    } else {
      assert file[..|file| - 1][..i] == file[..i];
      JudgeSuffix(digest, start, file[..|file| - 1], i);
    }
  }
}
