/** Where the lines of a stream are: the reader's lines, said by positions in the stream. */
module StreamLines {
  import opened ChildProtocol

  /** The stream's line from a to b: not empty, between newlines or the ends, with none inside. */
  predicate IsLineAt(s: Bytes, a: int, b: int) {
    && 0 <= a < b <= |s|
    && (a == 0 || s[a - 1] == NEWLINE) && (b == |s| || s[b] == NEWLINE)
    && forall i | a <= i < b :: s[i] != NEWLINE
  }

  /** No line that starts at `a` or before is longer than the limit. */
  ghost predicate WithinLimit(s: Bytes, a: int, max: nat) {
    forall i, j | IsLineAt(s, i, j) && i <= a :: j - i <= max
  }

  /** The lines start at these places: in order, all of them up to the first that is too long. */
  ghost predicate LinesStartAt(s: Bytes, max: nat, lines: seq<Bytes>, at: seq<nat>) {
    && |lines| == |at|
    && (forall p, q | 0 <= p < q < |at| :: at[p] < at[q])
    && (forall p | 0 <= p < |at| :: WithinLimit(s, at[p], max) && IsTheLineAt(s, at[p], lines[p]))
    && forall a, b | IsLineAt(s, a, b) && WithinLimit(s, a, max) :: a in at
  }

  predicate IsTheLineAt(s: Bytes, a: nat, line: Bytes) {
    IsLineAt(s, a, a + |line|) && line == s[a..a + |line|]
  }

  // ----- The segments by position -----

  function EndOf(s: Bytes, at: seq<nat>, k: nat): int
    requires k < |at|
  {
    if k + 1 < |at| then at[k + 1] - 1 else |s|
  }

  ghost predicate SegmentsStartAt(s: Bytes, segments: seq<Bytes>, at: seq<nat>) {
    && |segments| == |at| > 0 && at[0] == 0
    && (forall p, q | 0 <= p < q < |at| :: at[p] < at[q])
    && (forall k | 0 <= k < |at| :: SegmentStarts(s, segments, at, k))
    && forall a: nat | 0 < a <= |s| && s[a - 1] == NEWLINE :: a in at
  }

  predicate SegmentStarts(s: Bytes, segments: seq<Bytes>, at: seq<nat>, k: nat)
    requires k < |at| == |segments|
  {
    var a, b := at[k], EndOf(s, at, k);
    && a <= b <= |s| && segments[k] == s[a..b] && (forall i | a <= i < b :: s[i] != NEWLINE)
    && (a == 0 || s[a - 1] == NEWLINE) && (b == |s| || s[b] == NEWLINE)
  }

  lemma {:induction false} SegmentsArePlaced(s: Bytes) returns (at: seq<nat>)
    ensures SegmentsStartAt(s, Segments(s), at)
  {
    at := [0];
    if s != [] {
      var k := |s| - 1;
      var before := SegmentsArePlaced(s[..k]);
      if s[k] == NEWLINE {
        at := before + [k + 1];
        PlacedNewline(s[..k], Segments(s[..k]), before);
        assert s == s[..k] + [NEWLINE];
      } else {
        at := before;
        PlacedByte(s[..k], Segments(s[..k]), before, s[k]);
        assert s == s[..k] + [s[k]];
      }
    }
  }

  lemma PlacedNewline(s: Bytes, segments: seq<Bytes>, at: seq<nat>)
    requires SegmentsStartAt(s, segments, at)
    ensures SegmentsStartAt(s + [NEWLINE], segments + [[]], at + [|s| + 1])
  {
    var s', segments', at' := s + [NEWLINE], segments + [[]], at + [|s| + 1];
    assert forall i | 0 <= i < |s| :: s'[i] == s[i];
    forall k | 0 <= k < |at'| ensures SegmentStarts(s', segments', at', k) {
      if k < |at| {
        assert SegmentStarts(s, segments, at, k);
        assert EndOf(s', at', k) == EndOf(s, at, k);
        assert s'[at[k]..EndOf(s, at, k)] == s[at[k]..EndOf(s, at, k)];
      }
    }
    forall p, q | 0 <= p < q < |at'| ensures at'[p] < at'[q] {
      if q == |at| { assert SegmentStarts(s, segments, at, p); }
    }
    assert at'[|at|] == |s| + 1;
  }

  lemma PlacedByte(s: Bytes, segments: seq<Bytes>, at: seq<nat>, b: Byte)
    requires SegmentsStartAt(s, segments, at) && b != NEWLINE
    ensures SegmentsStartAt(s + [b], segments[..|segments| - 1] + [segments[|segments| - 1] + [b]], at)
  {
    var s', segments' := s + [b], segments[..|segments| - 1] + [segments[|segments| - 1] + [b]];
    assert forall i | 0 <= i < |s| :: s'[i] == s[i];
    forall k | 0 <= k < |at| ensures SegmentStarts(s', segments', at, k) {
      assert SegmentStarts(s, segments, at, k);
      if k + 1 < |at| {
        assert SegmentStarts(s, segments, at, k + 1);
        assert s'[at[k]..EndOf(s, at, k)] == s[at[k]..EndOf(s, at, k)];
      } else {
        assert s'[at[k]..] == s[at[k]..] + [b];
      }
    }
  }

  // ----- Leaving out the empty and the overlong -----

  /** Segment k is not empty, and none up to it is too long. */
  predicate IsKept(segments: seq<Bytes>, max: nat, k: int) {
    0 <= k < |segments| && segments[k] != [] && forall i | 0 <= i <= k :: |segments[i]| <= max
  }

  /** These are the kept segments from number `from` on, in order. */
  ghost predicate KeptFrom(segments: seq<Bytes>, max: nat, lines: seq<Bytes>, which: seq<nat>, from: nat) {
    && |lines| == |which|
    && (forall p, q | 0 <= p < q < |which| :: which[p] < which[q])
    && (forall p | 0 <= p < |which| :: from <= which[p] < |segments| && IsKept(segments, max, which[p]))
    && (forall p | 0 <= p < |which| :: which[p] < |segments| && lines[p] == segments[which[p]])
    && forall k | IsKept(segments, max, k) && k >= from :: k in which
  }

  lemma {:induction false} KeptArePlaced(segments: seq<Bytes>, max: nat) returns (which: seq<nat>)
    ensures KeptFrom(segments, max, NonEmpty(UntilTooLong(segments, max)), which, 0)
  {
    which := [];
    if segments != [] && |segments[0]| <= max {
      var rest := segments[1..];
      var later := KeptArePlaced(rest, max);
      var lines := NonEmpty(UntilTooLong(rest, max));
      which := ShiftKept(segments, max, lines, later);
      assert UntilTooLong(segments, max)[1..] == UntilTooLong(rest, max);
      hide IsKept, KeptFrom;
      if segments[0] == [] {
        NothingInFront(segments, max, lines, which);
      } else {
        which := [0] + which;
        PutInFront(segments, max, lines, which[1..]);
      }
    }
  }

  lemma KeptInRest(segments: seq<Bytes>, max: nat, k: int)
    requires segments != [] && |segments[0]| <= max
    ensures k > 0 ==> (IsKept(segments, max, k) <==> IsKept(segments[1..], max, k - 1))
    ensures IsKept(segments, max, 0) <==> segments[0] != []
    ensures IsKept(segments, max, k) ==> 0 <= k
  {
    var rest := segments[1..];
    assert forall i | 0 <= i < |rest| :: rest[i] == segments[i + 1];
    if k > 0 && IsKept(rest, max, k - 1) {
      forall i | 0 <= i <= k ensures |segments[i]| <= max { if i > 0 { assert rest[i - 1] == segments[i]; } }
    }
  }

  lemma ShiftKept(segments: seq<Bytes>, max: nat, lines: seq<Bytes>, later: seq<nat>) returns (which: seq<nat>)
    requires segments != [] && |segments[0]| <= max && KeptFrom(segments[1..], max, lines, later, 0)
    ensures KeptFrom(segments, max, lines, which, 1)
  {
    hide IsKept;
    which := seq(|later|, p requires 0 <= p < |later| => later[p] + 1);
    forall k { KeptInRest(segments, max, k); }
    forall k | IsKept(segments, max, k) && k >= 1 ensures k in which {
      assert k - 1 in later;
      var p :| 0 <= p < |later| && later[p] == k - 1;
      assert which[p] == k;
    }
  }

  lemma NothingInFront(segments: seq<Bytes>, max: nat, lines: seq<Bytes>, which: seq<nat>)
    requires segments != [] && |segments[0]| <= max && segments[0] == [] && KeptFrom(segments, max, lines, which, 1)
    ensures KeptFrom(segments, max, lines, which, 0)
  {
    forall k { KeptInRest(segments, max, k); }
    hide IsKept;
  }

  lemma PutInFront(segments: seq<Bytes>, max: nat, lines: seq<Bytes>, which: seq<nat>)
    requires segments != [] && |segments[0]| <= max && segments[0] != [] && KeptFrom(segments, max, lines, which, 1)
    ensures KeptFrom(segments, max, [segments[0]] + lines, [0] + which, 0)
  {
    hide IsKept;
    var all, text := [0] + which, [segments[0]] + lines;
    KeptInRest(segments, max, 0);
    assert all[0] == 0 && text[0] == segments[0];
    forall p | 0 <= p < |all|
      ensures all[p] < |segments| && IsKept(segments, max, all[p]) && text[p] == segments[all[p]]
    {
      if p > 0 { assert all[p] == which[p - 1] && text[p] == lines[p - 1]; }
    }
    forall k | IsKept(segments, max, k) && k >= 0 ensures k in all {
      if k > 0 { assert k in which; }
    }
  }

  // ----- The lines of a stream -----

  /** The lines of a whole stream are, in order, all its lines up to the first that is too long: the empty ones
      are skipped, and that one and everything after it are left out. */
  lemma LinesAre(s: Bytes, max: nat) returns (at: seq<nat>)
    ensures LinesStartAt(s, max, LinesOf(s, max), at)
  {
    hide KeptFrom, SegmentsStartAt, NonEmpty, UntilTooLong, Segments, LinesStartAt;
    var starts := SegmentsArePlaced(s);
    var which := KeptArePlaced(Segments(s), max);
    at := LinesFromSegments(s, max, Segments(s), starts, LinesOf(s, max), which);
  }

  /** The non-empty segments are the lines. */
  lemma SegmentIsLine(s: Bytes, segments: seq<Bytes>, at: seq<nat>, k: nat)
    requires SegmentsStartAt(s, segments, at) && k < |at|
    ensures segments[k] != [] ==> IsTheLineAt(s, at[k], segments[k])
  {
    assert SegmentStarts(s, segments, at, k);
  }

  lemma LineIsSegment(s: Bytes, segments: seq<Bytes>, at: seq<nat>, a: int, b: int) returns (k: nat)
    requires SegmentsStartAt(s, segments, at) && IsLineAt(s, a, b)
    ensures k < |at| && at[k] == a && |segments[k]| == b - a
  {
    assert a in at;
    k :| 0 <= k < |at| && at[k] == a;
    assert SegmentStarts(s, segments, at, k);
    var e := EndOf(s, at, k);
    assert e == b;
  }

  lemma WithinIff(s: Bytes, max: nat, segments: seq<Bytes>, starts: seq<nat>, k: nat)
    requires SegmentsStartAt(s, segments, starts) && k < |starts|
    ensures WithinLimit(s, starts[k], max) <==> forall i | 0 <= i <= k :: |segments[i]| <= max
  {
    hide IsLineAt;
    StartsIncrease(s, segments, starts);
    forall i: nat | i < |starts| { SegmentIsLine(s, segments, starts, i); }
    if WithinLimit(s, starts[k], max) {
      forall i | 0 <= i <= k ensures |segments[i]| <= max {
        if segments[i] != [] { assert IsLineAt(s, starts[i], starts[i] + |segments[i]|); }
      }
    }
    if forall i | 0 <= i <= k :: |segments[i]| <= max {
      forall a, b | IsLineAt(s, a, b) && a <= starts[k] ensures b - a <= max {
        var i := LineIsSegment(s, segments, starts, a, b);
        assert i <= k;
      }
    }
  }

  lemma StartsIncrease(s: Bytes, segments: seq<Bytes>, starts: seq<nat>)
    requires SegmentsStartAt(s, segments, starts)
    ensures forall p, q | 0 <= p < |starts| && 0 <= q < |starts| :: starts[p] <= starts[q] <==> p <= q
  {
  }

  lemma LinesFromSegments(s: Bytes, max: nat, segments: seq<Bytes>, starts: seq<nat>, lines: seq<Bytes>, which: seq<nat>)
    returns (at: seq<nat>)
    requires SegmentsStartAt(s, segments, starts) && KeptFrom(segments, max, lines, which, 0)
    ensures LinesStartAt(s, max, lines, at)
  {
    hide IsLineAt, WithinLimit, SegmentStarts;
    at := seq(|which|, p requires 0 <= p < |which| => starts[which[p]]);
    forall p | 0 <= p < |at|
      ensures WithinLimit(s, at[p], max) && IsTheLineAt(s, at[p], lines[p])
    {
      WithinIff(s, max, segments, starts, which[p]);
      SegmentIsLine(s, segments, starts, which[p]);
    }
    forall a, b | IsLineAt(s, a, b) && WithinLimit(s, a, max) ensures a in at {
      LineIsInside(s, a, b);
      var k := LineIsSegment(s, segments, starts, a, b);
      WithinIff(s, max, segments, starts, k);
      assert IsKept(segments, max, k);
      assert k in which;
      var p :| 0 <= p < |which| && which[p] == k;
      assert at[p] == a;
    }
  }

  lemma LineIsInside(s: Bytes, a: int, b: int)
    requires IsLineAt(s, a, b)
    ensures 0 <= a < b <= |s|
  {
  }

  /** The limit is passed exactly if some line is longer. */
  lemma TooLongIff(s: Bytes, max: nat)
    ensures TooLong(s, max) <==> exists a, b :: IsLineAt(s, a, b) && b - a > max
  {
    hide IsLineAt, SegmentsStartAt, Segments;
    var starts := SegmentsArePlaced(s);
    var segments := Segments(s);
    AsManyStarts(s, segments, starts);
    if x :| x in segments && |x| > max {
      var k :| 0 <= k < |segments| && segments[k] == x;
      SegmentIsLine(s, segments, starts, k);
    }
    if a, b :| IsLineAt(s, a, b) && b - a > max {
      var k := LineIsSegment(s, segments, starts, a, b);
      assert segments[k] in segments;
    }
  }

  lemma AsManyStarts(s: Bytes, segments: seq<Bytes>, starts: seq<nat>)
    requires SegmentsStartAt(s, segments, starts)
    ensures |segments| == |starts|
  {
  }
}
