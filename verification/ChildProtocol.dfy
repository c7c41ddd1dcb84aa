/** Bounded readers of a child process's output: a line reader with a length limit, and a byte
    tail that respects UTF-8 boundaries. */
module ChildProtocol {

  type Byte = x: int | 0 <= x < 0x100

  type Bytes = seq<Byte>

  const NEWLINE: Byte := 0x0a
  const MAX_PROTOCOL_DIAGNOSTIC_BYTES := 4096

  function Flat(chunks: seq<Bytes>): Bytes {
    if chunks == [] then [] else Flat(chunks[..|chunks| - 1]) + chunks[|chunks| - 1]
  }

  function Take(s: Bytes, n: nat): Bytes {
    if |s| <= n then s else s[..n]
  }

  function Last(s: Bytes, n: nat): Bytes {
    if |s| <= n then s else s[|s| - n..]
  }

  // ----- The one-shot specification of the line reader -----

  /** The newline-separated segments; the last one is what follows the last newline. */
  function Segments(s: Bytes): (r: seq<Bytes>)
    ensures |r| >= 1
  {
    if s == [] then [[]]
    else
      var r := Segments(s[..|s| - 1]);
      var b := s[|s| - 1];
      if b == NEWLINE then r + [[]] else r[..|r| - 1] + [r[|r| - 1] + [b]]
  }

  /** The segments before the first that is longer than the limit. */
  function UntilTooLong(segments: seq<Bytes>, max: nat): seq<Bytes> {
    if segments == [] then []
    else if |segments[0]| > max then []
    else [segments[0]] + UntilTooLong(segments[1..], max)
  }

  function NonEmpty(segments: seq<Bytes>): seq<Bytes> {
    if segments == [] then []
    else if segments[0] == [] then NonEmpty(segments[1..])
    else [segments[0]] + NonEmpty(segments[1..])
  }

  predicate TooLong(stream: Bytes, max: nat) {
    exists s :: s in Segments(stream) && |s| > max
  }

  /** All lines of a whole stream, read at once: every segment counts as terminated. */
  function LinesOf(stream: Bytes, max: nat): seq<Bytes> {
    NonEmpty(UntilTooLong(Segments(stream), max))
  }

  // ----- The reader, byte by byte -----

  /** What a reader has seen of a stream: lines emitted, the unterminated rest, limit passed. */
  datatype Reading = Reading(lines: seq<Bytes>, rest: Bytes, over: bool)

  function Flush(r: Reading): Reading {
    if r.over || r.rest == [] then r else Reading(r.lines + [r.rest], [], false)
  }

  function Extend(r: Reading, segment: Bytes, max: nat): Reading {
    if r.over then r
    else if |r.rest| + |segment| > max then Reading(r.lines, [], true)
    else Reading(r.lines, r.rest + segment, false)
  }

  function ReadBytes(s: Bytes, max: nat): Reading {
    if s == [] then Reading([], [], false)
    else
      var r := ReadBytes(s[..|s| - 1], max);
      if s[|s| - 1] == NEWLINE then Flush(r) else Extend(r, [s[|s| - 1]], max)
  }

  lemma {:induction false} ReadPlainSegment(s: Bytes, segment: Bytes, max: nat)
    requires NEWLINE !in segment
    ensures ReadBytes(s + segment, max) == Extend(ReadBytes(s, max), segment, max) || segment == []
    ensures segment == [] ==> ReadBytes(s + segment, max) == ReadBytes(s, max)
  {
    if segment == [] {
      assert s + segment == s;
    } else {
      var k := |segment| - 1;
      assert (s + segment)[..|s + segment| - 1] == s + segment[..k];
      assert segment == segment[..k] + [segment[k]];
      ReadPlainSegment(s, segment[..k], max);
    }
  }

  lemma ReadNewline(s: Bytes, max: nat)
    ensures ReadBytes(s + [NEWLINE], max) == Flush(ReadBytes(s, max))
  {
    assert (s + [NEWLINE])[..|s|] == s;
  }

  // ----- Byte by byte equals one-shot -----

  lemma {:induction false} UntilTooLongAll(segments: seq<Bytes>, max: nat)
    ensures (forall i | 0 <= i < |segments| :: |segments[i]| <= max) <==> UntilTooLong(segments, max) == segments
    ensures |UntilTooLong(segments, max)| <= |segments|
  {
    if segments != [] { UntilTooLongAll(segments[1..], max); }
  }

  lemma {:induction false} UntilTooLongLast(a: seq<Bytes>, x: Bytes, max: nat)
    ensures UntilTooLong(a + [x], max) ==
      if UntilTooLong(a, max) == a then (if |x| > max then a else a + [x]) else UntilTooLong(a, max)
  {
    if a == [] {
      assert a + [x] == [x] && [x][1..] == [];
    } else {
      assert (a + [x])[1..] == a[1..] + [x];
      UntilTooLongLast(a[1..], x, max);
      UntilTooLongAll(a[1..], max);
      assert a == [a[0]] + a[1..];
    }
  }

  lemma {:induction false} NonEmptyLast(a: seq<Bytes>, x: Bytes)
    ensures NonEmpty(a + [x]) == if x == [] then NonEmpty(a) else NonEmpty(a) + [x]
  {
    if a == [] {
      assert a + [x] == [x] && [x][1..] == [];
    } else {
      assert (a + [x])[1..] == a[1..] + [x];
      NonEmptyLast(a[1..], x);
    }
  }

  /** The reading of a stream in terms of its segments. */
  ghost predicate ReadsSegments(r: Reading, segments: seq<Bytes>, max: nat)
    requires segments != []
  {
    var k := |segments| - 1;
    && r.lines == NonEmpty(UntilTooLong(segments[..k], max))
    && (r.over <==> UntilTooLong(segments, max) != segments)
    && r.rest == (if r.over then [] else segments[k])
  }

  lemma ReadOneMore(r: Reading, segments: seq<Bytes>, b: Byte, max: nat)
    requires segments != [] && ReadsSegments(r, segments, max)
    ensures b == NEWLINE ==> ReadsSegments(Flush(r), segments + [[]], max)
    ensures b != NEWLINE ==>
      ReadsSegments(Extend(r, [b], max), segments[..|segments| - 1] + [segments[|segments| - 1] + [b]], max)
  {
    var k := |segments| - 1;
    var longer := segments[k] + [b];
    assert segments == segments[..k] + [segments[k]];
    UntilTooLongLast(segments[..k], segments[k], max);
    UntilTooLongLast(segments[..k], longer, max);
    UntilTooLongLast(segments, [], max);
    NonEmptyLast(segments[..k], segments[k]);
    assert (segments[..k] + [longer])[..k] == segments[..k];
    assert (segments + [[]])[..k + 1] == segments;
    UntilTooLongAll(segments[..k], max);
    hide UntilTooLong, NonEmpty;
  }

  lemma {:induction false} ReadBytesIsOneShot(s: Bytes, max: nat)
    ensures ReadsSegments(ReadBytes(s, max), Segments(s), max)
  {
    if s == [] {
      var one: seq<Bytes> := [[]];
      assert one[..0] == [] && one[1..] == [];
    } else {
      ReadBytesIsOneShot(s[..|s| - 1], max);
      ReadOneMore(ReadBytes(s[..|s| - 1], max), Segments(s[..|s| - 1]), s[|s| - 1], max);
    }
  }

  /** Read to its end, a stream yields exactly its one-shot lines; the limit is passed exactly
      when some segment is too long. */
  lemma WholeStreamLines(s: Bytes, max: nat)
    ensures Flush(ReadBytes(s, max)).lines == LinesOf(s, max)
    ensures ReadBytes(s, max).over <==> TooLong(s, max)
  {
    ReadBytesIsOneShot(s, max);
    var segments := Segments(s);
    var k := |segments| - 1;
    assert segments == segments[..k] + [segments[k]];
    UntilTooLongLast(segments[..k], segments[k], max);
    NonEmptyLast(segments[..k], segments[k]);
    UntilTooLongAll(segments, max);
    UntilTooLongAll(segments[..k], max);
    assert (exists x :: x in segments && |x| > max) <==> !(forall i | 0 <= i < |segments| :: |segments[i]| <= max);
    hide UntilTooLong, NonEmpty, Segments, ReadBytes;
  }

  // ----- The algorithm -----

  datatype ReaderEvent = Line(bytes: Bytes) | Limit(observedBytes: nat, diagnosticPrefix: Bytes, diagnosticTail: Bytes)

  function EmittedLines(events: seq<ReaderEvent>): seq<Bytes> {
    if events == [] then []
    else
      var rest := EmittedLines(events[..|events| - 1]);
      match events[|events| - 1]
      case Line(b) => rest + [b]
      case Limit(_, _, _) => rest
  }

  function LimitCount(events: seq<ReaderEvent>): nat {
    if events == [] then 0
    else LimitCount(events[..|events| - 1]) + if events[|events| - 1].Limit? then 1 else 0
  }

  lemma EventsAdd(events: seq<ReaderEvent>, e: ReaderEvent)
    ensures EmittedLines(events + [e]) == EmittedLines(events) + if e.Line? then [e.bytes] else []
    ensures LimitCount(events + [e]) == LimitCount(events) + if e.Limit? then 1 else 0
  {
    assert (events + [e])[..|events|] == events;
  }

  lemma FlatAdd(chunks: seq<Bytes>, c: Bytes)
    ensures Flat(chunks + [c]) == Flat(chunks) + c
  {
    assert (chunks + [c])[..|chunks|] == chunks;
  }

  lemma FlatNothing()
    ensures Flat([]) == []
  {}

  /** The first and last bytes of the line read so far, put together from its two parts. */
  method Diagnostics(prior: Bytes, segment: Bytes) returns (prefix: Bytes, tail: Bytes)
    ensures prefix == Take(prior + segment, MAX_PROTOCOL_DIAGNOSTIC_BYTES)
    ensures tail == Last(prior + segment, MAX_PROTOCOL_DIAGNOSTIC_BYTES)
  {
    var fromPrior := Take(prior, MAX_PROTOCOL_DIAGNOSTIC_BYTES);
    prefix := if |fromPrior| == MAX_PROTOCOL_DIAGNOSTIC_BYTES then fromPrior
              else fromPrior + Take(segment, MAX_PROTOCOL_DIAGNOSTIC_BYTES - |fromPrior|);
    var fromSegment := Last(segment, MAX_PROTOCOL_DIAGNOSTIC_BYTES);
    tail := if |fromSegment| == MAX_PROTOCOL_DIAGNOSTIC_BYTES then fromSegment
            else Last(prior, MAX_PROTOCOL_DIAGNOSTIC_BYTES - |fromSegment|) + fromSegment;
    DiagnosticPrefix(prior, segment, MAX_PROTOCOL_DIAGNOSTIC_BYTES);
    DiagnosticTail(prior, segment, MAX_PROTOCOL_DIAGNOSTIC_BYTES);
  }

  /** `events` records the calls of onLine and onLimit. */
  class BoundedLineReader {
    const max: nat
    var pending: seq<Bytes>
    var pendingBytes: nat
    var limitExceeded: bool
    var events: seq<ReaderEvent>

    constructor (max: nat)
      requires max >= 1
      ensures this.max == max && Consistent() && events == [] && Progress() == Reading([], [], false)
    {
      this.max, pending, pendingBytes, limitExceeded, events := max, [], 0, false, [];
    }

    /** How far the reader is, in the terms of the specification. */
    function Progress(): Reading
      reads this
    {
      Reading(EmittedLines(events), Flat(pending), limitExceeded)
    }

    /** The buffer never holds more than the limit, and the limit has fired once or never. */
    ghost predicate Consistent()
      reads this
    {
      && max >= 1 && pendingBytes == |Flat(pending)| <= max
      && (limitExceeded ==> pending == [])
      && LimitCount(events) == if limitExceeded then 1 else 0
    }

    method EmitPending()
      requires Consistent() && !limitExceeded
      modifies this
      ensures Consistent() && Progress() == Flush(old(Progress())) && !limitExceeded
    {
      if pendingBytes == 0 { return; }
      EventsAdd(events, Line(Flat(pending)));
      events := events + [Line(Flat(pending))];
      pending, pendingBytes := [], 0;
    }

    /** Buffers a segment, or reports the limit with the first and last bytes of the line so far. */
    method Append(segment: Bytes) returns (ok: bool)
      requires Consistent() && !limitExceeded
      modifies this
      ensures Consistent() && ok == !limitExceeded
      ensures Progress() == if segment == [] then old(Progress()) else Extend(old(Progress()), segment, max)
      ensures !ok ==> var line := old(Flat(pending)) + segment;
        events == old(events) + [Limit(|line|, Take(line, MAX_PROTOCOL_DIAGNOSTIC_BYTES), Last(line, MAX_PROTOCOL_DIAGNOSTIC_BYTES))]
    {
      hide EmittedLines, LimitCount, Flat, Take, Last;
      if segment == [] { return true; }
      var observedBytes := pendingBytes + |segment|;
      if observedBytes > max {
        var prefix, tail := Diagnostics(Flat(pending), segment);
        var limit := Limit(observedBytes, prefix, tail);
        EventsAdd(events, limit);
        FlatNothing();
        limitExceeded, pending, pendingBytes := true, [], 0;
        events := events + [limit];
        return false;
      }
      FlatAdd(pending, segment);
      pending, pendingBytes := pending + [segment], observedBytes;
      return true;
    }

    /** Whatever the chunk boundaries, the reader is where reading the bytes one by one would be. */
    method Push(chunk: Bytes, ghost before: Bytes)
      requires Consistent() && Progress() == ReadBytes(before, max)
      modifies this
      ensures Consistent() && Progress() == ReadBytes(before + chunk, max)
    {
      hide ReadBytes, EmittedLines, LimitCount, Flat;
      if limitExceeded {
        OverStays(before, chunk, max);
        return;
      }
      var start := 0;
      assert before + chunk[..0] == before;
      for index := 0 to |chunk|
        invariant 0 <= start <= index && NEWLINE !in chunk[start..index]
        invariant Consistent() && !limitExceeded && Progress() == ReadBytes(before + chunk[..start], max)
      {
        assert chunk[start..index + 1] == chunk[start..index] + [chunk[index]];
        if chunk[index] == NEWLINE {
          var ok := Append(chunk[start..index]);
          SegmentRead(before, chunk, start, index, max);
          if !ok {
            OverStays(before + chunk[..index], chunk[index..], max);
            assert before + chunk[..index] + chunk[index..] == before + chunk;
            return;
          }
          EmitPending();
          ReadNewline(before + chunk[..index], max);
          assert before + chunk[..index] + [NEWLINE] == before + chunk[..index + 1];
          start := index + 1;
        }
      }
      var _ := Append(chunk[start..]);
      assert chunk[start..|chunk|] == chunk[start..] && chunk[..|chunk|] == chunk;
      SegmentRead(before, chunk, start, |chunk|, max);
    }

    /** The end of the stream acts like a final newline. */
    method End(ghost before: Bytes)
      requires Consistent() && Progress() == ReadBytes(before, max)
      modifies this
      ensures Consistent() && Progress() == Flush(ReadBytes(before, max))
    {
      if !limitExceeded { EmitPending(); }
    }

    /** A whole stream in any chunks: the lines emitted are the one-shot lines of the stream,
        and the limit is reported exactly once if some line is too long, else never. */
    method PushAll(chunks: seq<Bytes>)
      requires Consistent() && Progress() == Reading([], [], false)
      modifies this
      ensures EmittedLines(events) == LinesOf(Flat(chunks), max)
      ensures LimitCount(events) == if TooLong(Flat(chunks), max) then 1 else 0
      ensures Consistent()
    {
      for i := 0 to |chunks|
        invariant Consistent() && Progress() == ReadBytes(Flat(chunks[..i]), max)
      {
        assert chunks[..i + 1] == chunks[..i] + [chunks[i]];
        FlatAdd(chunks[..i], chunks[i]);
        Push(chunks[i], Flat(chunks[..i]));
      }
      assert chunks[..|chunks|] == chunks;
      End(Flat(chunks));
      WholeStreamLines(Flat(chunks), max);
    }
  }

  method CreateBoundedLineReader(max: int) returns (reader: BoundedLineReader?)
    ensures reader == null <==> max < 1
    ensures reader != null ==> fresh(reader) && reader.max == max && reader.Consistent() && reader.Progress() == Reading([], [], false)
  {
    if max < 1 { return null; }
    reader := new BoundedLineReader(max);
  }

  lemma DiagnosticPrefix(prior: Bytes, segment: Bytes, n: nat)
    ensures var fromPrior := Take(prior, n);
      Take(prior + segment, n) == if |fromPrior| == n then fromPrior else fromPrior + Take(segment, n - |fromPrior|)
  {}

  lemma DiagnosticTail(prior: Bytes, segment: Bytes, n: nat)
    ensures var fromSegment := Last(segment, n);
      Last(prior + segment, n) == if |fromSegment| == n then fromSegment else Last(prior, n - |fromSegment|) + fromSegment
  {}

  lemma {:induction false} OverStays(s: Bytes, more: Bytes, max: nat)
    requires ReadBytes(s, max).over
    ensures ReadBytes(s + more, max) == ReadBytes(s, max)
  {
    if more == [] {
      assert s + more == s;
    } else {
      assert (s + more)[..|s + more| - 1] == s + more[..|more| - 1];
      OverStays(s, more[..|more| - 1], max);
    }
  }

  lemma SegmentRead(before: Bytes, chunk: Bytes, start: nat, index: nat, max: nat)
    requires start <= index <= |chunk| && NEWLINE !in chunk[start..index]
    ensures ReadBytes(before + chunk[..index], max) ==
      if chunk[start..index] == [] then ReadBytes(before + chunk[..start], max)
      else Extend(ReadBytes(before + chunk[..start], max), chunk[start..index], max)
  {
    assert before + chunk[..start] + chunk[start..index] == before + chunk[..index];
    ReadPlainSegment(before + chunk[..start], chunk[start..index], max);
  }

  // ----- The byte tail -----

  predicate Continuation(b: Byte) {
    0x80 <= b < 0xc0
  }

  /** The first position at or after `from` that starts a character. */
  function Boundary(s: Bytes, from: nat): (p: nat)
    requires from <= |s|
    ensures from <= p <= |s| && (forall i | from <= i < p :: Continuation(s[i])) && (p < |s| ==> !Continuation(s[p]))
    decreases |s| - from
  {
    if from < |s| && Continuation(s[from]) then Boundary(s, from + 1) else from
  }

  /** At most max bytes from the end, cut at a character boundary. */
  function TrimTail(s: Bytes, max: nat): Bytes {
    if |s| <= max then s else s[Boundary(s, |s| - max)..]
  }

  method TrimToUtf8Boundary(buffer: Bytes, max: nat) returns (r: Bytes)
    ensures r == TrimTail(buffer, max)
  {
    if |buffer| <= max { return buffer; }
    var start := |buffer| - max;
    while start < |buffer| && Continuation(buffer[start])
      invariant |buffer| - max <= start <= |buffer|
      invariant Boundary(buffer, start) == Boundary(buffer, |buffer| - max)
    {
      start := start + 1;
    }
    return buffer[start..];
  }

  class BoundedByteTail {
    const max: nat
    var tail: Bytes

    constructor (max: nat)
      requires max >= 1
      ensures this.max == max && tail == []
    {
      this.max, tail := max, [];
    }

    method Push(chunk: Bytes)
      modifies this
      ensures tail == TrimTail(old(tail) + chunk, max)
    {
      tail := TrimToUtf8Boundary(tail + chunk, max);
    }

    /** Any stream in any chunks. */
    method PushAll(chunks: seq<Bytes>)
      requires tail == []
      modifies this
      ensures tail == TailOf(chunks, max)
    {
      for i := 0 to |chunks|
        invariant tail == TailOf(chunks[..i], max)
      {
        assert chunks[..i + 1][..i] == chunks[..i];
        Push(chunks[i]);
      }
      assert chunks[..|chunks|] == chunks;
    }
  }

  function TailOf(chunks: seq<Bytes>, max: nat): Bytes {
    if chunks == [] then [] else TrimTail(TailOf(chunks[..|chunks| - 1], max) + chunks[|chunks| - 1], max)
  }

  predicate IsSuffix(a: Bytes, s: Bytes) {
    |a| <= |s| && a == s[|s| - |a|..]
  }

  lemma SuffixOfSuffix(a: Bytes, b: Bytes, s: Bytes)
    requires IsSuffix(a, b) && IsSuffix(b, s)
    ensures IsSuffix(a, s)
  {
    assert b[|b| - |a|..] == s[|s| - |a|..];
  }

  lemma SuffixAppend(a: Bytes, s: Bytes, c: Bytes)
    requires IsSuffix(a, s)
    ensures IsSuffix(a + c, s + c)
  {
    assert (s + c)[|s| - |a|..] == s[|s| - |a|..] + c;
  }

  lemma TrimIsSuffix(s: Bytes, max: nat)
    ensures IsSuffix(TrimTail(s, max), s) && |TrimTail(s, max)| <= max
  {}

  /** Whatever the chunks, the tail is a suffix of the stream of at most max bytes. */
  lemma {:induction false} TailIsSuffix(chunks: seq<Bytes>, max: nat)
    ensures IsSuffix(TailOf(chunks, max), Flat(chunks)) && |TailOf(chunks, max)| <= max
  {
    if chunks != [] {
      hide IsSuffix, TrimTail;
      var k := |chunks| - 1;
      var t := TailOf(chunks[..k], max) + chunks[k];
      TailIsSuffix(chunks[..k], max);
      SuffixAppend(TailOf(chunks[..k], max), Flat(chunks[..k]), chunks[k]);
      TrimIsSuffix(t, max);
      SuffixOfSuffix(TrimTail(t, max), t, Flat(chunks));
    }
  }

  lemma BoundaryIs(s: Bytes, from: nat, p: nat)
    requires from <= p <= |s| && (forall i | from <= i < p :: Continuation(s[i])) && (p < |s| ==> !Continuation(s[p]))
    ensures Boundary(s, from) == p
  {}

  /** The whole trimmed tail was continuation bytes. */
  predicate TrimsToNothing(s: Bytes, max: nat) {
    |s| > max && forall i | |s| - max <= i < |s| :: Continuation(s[i])
  }

  /** Trimming early is the same as trimming at the end, except in one case: everything kept
      so far was continuation bytes, and a short chunk goes on with another. */
  lemma TrimEarlyIff(s: Bytes, c: Bytes, max: nat)
    requires max >= 1
    ensures TrimTail(TrimTail(s, max) + c, max) == TrimTail(s + c, max)
      <==> !(TrimsToNothing(s, max) && 0 < |c| <= max && Continuation(c[0]))
  {
    if |s| <= max {
    } else {
      var p := Boundary(s, |s| - max);
      var t := s[p..];
      assert TrimTail(s, max) == t;
      if |t| + |c| > max {
        TrimLong(s, c, p, max);
      } else {
        TrimShort(s, c, p, max);
      }
    }
  }

  lemma TrimLong(s: Bytes, c: Bytes, p: nat, max: nat)
    requires p <= |s| && |s| - p + |c| > max && |s| > max >= 1 && p == Boundary(s, |s| - max)
    ensures TrimTail(s[p..] + c, max) == TrimTail(s + c, max)
    ensures !(TrimsToNothing(s, max) && 0 < |c| <= max)
  {
    hide Boundary, TrimTail;
    assert s[p..] + c == (s + c)[p..];
    TrimOfSuffix(s + c, p, max);
    if TrimsToNothing(s, max) { BoundaryIs(s, |s| - max, |s|); }
  }

  /** Dropping bytes that the trim would drop anyway changes nothing. */
  lemma TrimOfSuffix(u: Bytes, p: nat, max: nat)
    requires p + max < |u|
    ensures TrimTail(u[p..], max) == TrimTail(u, max)
  {
    hide Boundary;
    BoundaryShift(u, p, |u| - max);
    SliceOfSlice(u, p, Boundary(u, |u| - max));
  }

  lemma SliceOfSlice(u: Bytes, p: nat, q: nat)
    requires p <= q <= |u|
    ensures u[p..][q - p..] == u[q..]
  {
    assert |u[p..][q - p..]| == |u[q..]|;
    assert forall i | 0 <= i < |u| - q :: u[p..][q - p..][i] == u[q..][i];
  }

  lemma {:induction false} BoundaryShift(u: Bytes, p: nat, from: nat)
    requires p <= from <= |u|
    ensures Boundary(u[p..], from - p) == Boundary(u, from) - p
    decreases |u| - from
  {
    if from < |u| && Continuation(u[from]) { BoundaryShift(u, p, from + 1); }
  }

  lemma TrimShort(s: Bytes, c: Bytes, p: nat, max: nat)
    requires p <= |s| && |s| - p + |c| <= max < |s| && max >= 1 && p == Boundary(s, |s| - max)
    ensures TrimTail(s[p..] + c, max) == TrimTail(s + c, max)
      <==> !(TrimsToNothing(s, max) && 0 < |c| <= max && Continuation(c[0]))
  {
    var t := s[p..];
    assert TrimTail(t + c, max) == t + c;
    var q := Boundary(s + c, |s + c| - max);
    assert TrimTail(s + c, max) == (s + c)[q..];
    assert t + c == (s + c)[p..];
    if p < |s| {
      BoundaryIs(s + c, |s + c| - max, p);
      assert !TrimsToNothing(s, max) by { assert !Continuation(s[p]); }
    } else if c != [] && Continuation(c[0]) {
      assert (s + c)[p] == c[0];
      assert q != p;
      assert |(s + c)[q..]| != |(s + c)[p..]|;
    } else {
      assert c != [] ==> (s + c)[p] == c[0];
      BoundaryIs(s + c, |s + c| - max, p);
    }
  }

  // ----- When the chunks matter -----

  /** A place near the end of the stream, more than max bytes in, where max bytes and the next one are all
      continuation bytes: a chunk that ends there empties the tail, and the next one starts inside a character. */
  predicate BadCut(s: Bytes, k: nat, max: nat) {
    max < k < |s| <= k + max && forall i | k - max <= i <= k :: Continuation(s[i])
  }

  predicate HasBadCut(s: Bytes, max: nat) {
    exists k :: 0 <= k < |s| && BadCut(s, k, max)
  }

  /** What the tail of a stream can be, given some chunks: the whole stream as long as it fits, or what was left
      when it was last trimmed, at position j, and everything since. */
  ghost predicate TrimmedAt(s: Bytes, tail: Bytes, j: nat, max: nat) {
    max < j <= |s| && |tail| <= max && tail == s[Boundary(s[..j], j - max)..]
  }

  ghost predicate IsSomeTail(s: Bytes, tail: Bytes, max: nat) {
    (tail == s && |s| <= max) || exists j :: 0 <= j <= |s| && TrimmedAt(s, tail, j, max)
  }

  lemma {:induction false} TailIsSome(chunks: seq<Bytes>, max: nat)
    ensures IsSomeTail(Flat(chunks), TailOf(chunks, max), max)
  {
    if chunks != [] {
      var k := |chunks| - 1;
      TailIsSome(chunks[..k], max);
      TailGrows(Flat(chunks[..k]), TailOf(chunks[..k], max), chunks[k], max);
    }
  }

  lemma TailGrows(s: Bytes, tail: Bytes, c: Bytes, max: nat)
    requires IsSomeTail(s, tail, max)
    ensures IsSomeTail(s + c, TrimTail(tail + c, max), max)
  {
    hide Boundary;
    var u := s + c;
    if |tail| + |c| <= max {
      if j :| 0 <= j <= |s| && TrimmedAt(s, tail, j, max) {
        var p := Boundary(s[..j], j - max);
        assert u[..j] == s[..j] && u[p..] == s[p..] + c;
        assert TrimmedAt(u, tail + c, j, max);
      }
    } else {
      if tail == s && |s| <= max {
      } else {
        var j :| 0 <= j <= |s| && TrimmedAt(s, tail, j, max);
        var p := Boundary(s[..j], j - max);
        assert u[p..] == tail + c;
        TrimOfSuffix(u, p, max);
      }
      assert u[..|u|] == u;
      assert TrimmedAt(u, TrimTail(u, max), |u|, max);
    }
  }

  /** Without a bad cut there is only one such tail. */
  lemma SomeTailIsTrimmed(s: Bytes, tail: Bytes, max: nat)
    requires max >= 1 && IsSomeTail(s, tail, max) && !HasBadCut(s, max)
    ensures tail == TrimTail(s, max)
  {
    hide Boundary;
    if !(tail == s && |s| <= max) {
      var j :| 0 <= j <= |s| && TrimmedAt(s, tail, j, max);
      var p := Boundary(s[..j], j - max);
      assert p < |s| ==> !Continuation(s[p]) by {
        if p < j {
          assert s[..j][p] == s[p];
        } else if p < |s| {
          assert !BadCut(s, j, max);
          assert forall i | j - max <= i < p :: s[..j][i] == s[i];
        }
      }
      forall i | |s| - max <= i < p ensures Continuation(s[i]) { assert s[..j][i] == s[i]; }
      BoundaryIs(s, |s| - max, p);
    }
  }

  /** The tail does not depend on the chunks: it is the whole stream, trimmed once. */
  lemma TailIgnoresChunks(chunks: seq<Bytes>, max: nat)
    requires max >= 1 && !HasBadCut(Flat(chunks), max)
    ensures TailOf(chunks, max) == TrimTail(Flat(chunks), max)
  {
    hide IsSomeTail, TrimTail, HasBadCut;
    TailIsSome(chunks, max);
    SomeTailIsTrimmed(Flat(chunks), TailOf(chunks, max), max);
  }

  /** The exact condition: all ways of cutting a stream into chunks give the same tail if and only if the stream
      has no bad cut. */
  lemma ChunksMatterIff(s: Bytes, max: nat)
    requires max >= 1
    ensures (forall chunks | Flat(chunks) == s :: TailOf(chunks, max) == TrimTail(s, max)) <==> !HasBadCut(s, max)
  {
    hide TrimTail, TailOf;
    if HasBadCut(s, max) {
      var k :| 0 <= k < |s| && BadCut(s, k, max);
      CutInTwo(s, k, max);
      assert Flat([s[..k], s[k..]]) == s;
    } else {
      forall chunks | Flat(chunks) == s ensures TailOf(chunks, max) == TrimTail(s, max) {
        TailIgnoresChunks(chunks, max);
      }
    }
  }

  lemma CutInTwo(s: Bytes, k: nat, max: nat)
    requires max >= 1 && BadCut(s, k, max)
    ensures var chunks := [s[..k], s[k..]];
            Flat(chunks) == s && TailOf(chunks, max) != TrimTail(s, max)
  {
    hide TrimTail;
    var first, rest := s[..k], s[k..];
    var chunks := [first, rest];
    assert first + rest == s;
    TwoChunks(first, rest, max);
    TrimEarlyIff(first, rest, max);
    assert TrimsToNothing(first, max) by {
      forall i | |first| - max <= i < |first| ensures Continuation(first[i]) { assert first[i] == s[i]; }
    }
    assert rest[0] == s[k];
  }

  lemma TwoChunks(a: Bytes, b: Bytes, max: nat)
    ensures Flat([a, b]) == a + b && TailOf([a, b], max) == TrimTail(TrimTail(a, max) + b, max)
  {
    hide TrimTail;
    var one, none: seq<Bytes> := [a], [];
    assert [a, b][..1] == one && one[..0] == none && [] + a == a;
    assert Flat(none) == [] && TailOf(none, max) == [];
    assert Flat(one) == a && TailOf(one, max) == TrimTail(a, max);
  }

  /** Three continuation bytes and a limit of one: cut in two they leave one byte, in one piece none. */
  lemma ChunksCanMatter()
    ensures TailOf([[0x80, 0x80], [0x80]], 1) == [0x80] && TailOf([[0x80, 0x80, 0x80]], 1) == []
  {
    var a: Bytes, b: Bytes, whole: Bytes := [0x80, 0x80], [0x80], [0x80, 0x80, 0x80];
    TwoChunks(a, b, 1);
    BoundaryIs(a, 1, 2);
    BoundaryIs(whole, 2, 3);
    assert TrimTail(a, 1) == [] && [] + b == b && TrimTail(b, 1) == b && TrimTail(whole, 1) == [];
    var one, none: seq<Bytes> := [whole], [];
    assert one[..0] == none && [] + whole == whole;
  }

  // ----- UTF-8 -----

  /** How many bytes a character takes that starts with this byte (section 3 of RFC 3629). */
  function CharLength(b: Byte): nat {
    if b < 0x80 then 1 else if 0xc2 <= b < 0xe0 then 2 else if 0xe0 <= b < 0xf0 then 3
    else if 0xf0 <= b < 0xf5 then 4 else 0
  }

  /** Characters one after the other, each a first byte and its continuation bytes. */
  predicate IsUtf8(s: Bytes)
    decreases |s|
  {
    s == [] ||
    (var n := CharLength(s[0]);
     1 <= n <= |s| && (forall i | 1 <= i < n :: Continuation(s[i])) && IsUtf8(s[n..]))
  }

  /** Among any four bytes in a row is the start of a character. */
  lemma {:induction false} CharactersAreShort(s: Bytes, k: nat) returns (i: nat)
    requires IsUtf8(s) && k < |s|
    ensures k - 3 <= i <= k && !Continuation(s[i])
    decreases |s|
  {
    var n := CharLength(s[0]);
    if k < n {
      i := 0;
    } else {
      i := CharactersAreShort(s[n..], k - n);
      i := n + i;
    }
  }

  /** On UTF-8 text, even if the stream ends inside a character, and with a limit of at least three bytes, the
      chunks never matter. */
  lemma Utf8HasNoBadCut(text: Bytes, s: Bytes, max: nat)
    requires IsUtf8(text) && s <= text && max >= 3
    ensures !HasBadCut(s, max)
  {
    hide IsUtf8;
    forall k | 0 <= k < |s| ensures !BadCut(s, k, max) {
      var i := CharactersAreShort(text, k);
      assert s[i] == text[i];
    }
  }
}
