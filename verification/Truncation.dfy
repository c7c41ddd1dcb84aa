/** truncateOutput: keeps the longest prefix of an output that meets a line and a byte limit. */
module Truncation {

  /** A JavaScript string is a sequence of UTF-16 code units; surrogates may stand alone. */
  type CodeUnit = x: int | 0 <= x < 0x1_0000

  type Text = seq<CodeUnit>

  const NEWLINE: CodeUnit := 0x0a

  predicate High(u: CodeUnit) {
    0xd800 <= u < 0xdc00
  }

  predicate Low(u: CodeUnit) {
    0xdc00 <= u < 0xe000
  }

  function UnitBytes(u: CodeUnit): nat {
    if u < 0x80 then 1 else if u < 0x800 then 2 else 3
  }

  /** Buffer.byteLength: a surrogate pair takes 4 bytes of UTF-8, a lone surrogate the 3 of
      the replacement character. */
  function ByteLength(s: Text): nat {
    if s == [] then 0
    else if |s| >= 2 && High(s[0]) && Low(s[1]) then 4 + ByteLength(s[2..])
    else UnitBytes(s[0]) + ByteLength(s[1..])
  }

  /** One more code unit never lowers the byte length, also when it completes a pair that the
      shorter prefix cut in two. */
  lemma {:induction false} ByteLengthGrows(s: Text, k: nat)
    requires k < |s|
    ensures ByteLength(s[..k]) <= ByteLength(s[..k + 1])
  {
    if k > 0 {
      if |s| >= 2 && High(s[0]) && Low(s[1]) {
        if k == 1 {
          assert s[..1][1..] == [] && s[..2][2..] == [];
        } else {
          assert s[..k][2..] == s[2..][..k - 2] && s[..k + 1][2..] == s[2..][..k - 1];
          ByteLengthGrows(s[2..], k - 2);
        }
      } else {
        assert s[..k][1..] == s[1..][..k - 1] && s[..k + 1][1..] == s[1..][..k];
        ByteLengthGrows(s[1..], k - 1);
      }
    }
  }

  lemma {:induction false} ByteLengthMonotone(s: Text, j: nat, k: nat)
    requires j <= k <= |s|
    ensures ByteLength(s[..j]) <= ByteLength(s[..k])
    decreases k - j
  {
    if j < k {
      ByteLengthMonotone(s, j, k - 1);
      ByteLengthGrows(s, k - 1);
    }
  }

  // ----- Lines -----

  function LineCount(s: Text): nat {
    if s == [] then 1 else (if s[0] == NEWLINE then 1 else 0) + LineCount(s[1..])
  }

  function IndexOfNewline(s: Text): (i: nat)
    ensures i <= |s| && (i < |s| ==> s[i] == NEWLINE) && forall j | 0 <= j < i :: s[j] != NEWLINE
  {
    if s == [] || s[0] == NEWLINE then 0 else 1 + IndexOfNewline(s[1..])
  }

  /** output.split("\n") */
  function Split(s: Text): (lines: seq<Text>)
    ensures |lines| >= 1
  {
    var i := IndexOfNewline(s);
    if i == |s| then [s] else [s[..i]] + Split(s[i + 1..])
  }

  /** lines.join("\n") */
  function Join(lines: seq<Text>): Text {
    if lines == [] then [] else if |lines| == 1 then lines[0] else lines[0] + [NEWLINE] + Join(lines[1..])
  }

  lemma {:induction false} LineCountSum(a: Text, b: Text)
    ensures LineCount(a + b) == LineCount(a) + LineCount(b) - 1
  {
    if a == [] {
      assert a + b == b;
    } else {
      assert (a + b)[1..] == a[1..] + b;
      LineCountSum(a[1..], b);
    }
  }

  lemma {:induction false} NoNewlineIsOneLine(s: Text)
    requires forall j | 0 <= j < |s| :: s[j] != NEWLINE
    ensures LineCount(s) == 1
  {
    if s != [] { NoNewlineIsOneLine(s[1..]); }
  }

  lemma LineCountMonotone(s: Text, j: nat, k: nat)
    requires j <= k <= |s|
    ensures LineCount(s[..j]) <= LineCount(s[..k])
  {
    assert s[..k] == s[..j] + s[j..k];
    LineCountSum(s[..j], s[j..k]);
    LineCountPositive(s[j..k]);
  }

  lemma {:induction false} LineCountPositive(s: Text)
    ensures LineCount(s) >= 1
  {
    if s != [] { LineCountPositive(s[1..]); }
  }

  lemma {:induction false} SplitCountsLines(s: Text)
    ensures |Split(s)| == LineCount(s)
  {
    var i := IndexOfNewline(s);
    assert s == s[..i] + s[i..];
    LineCountSum(s[..i], s[i..]);
    NoNewlineIsOneLine(s[..i]);
    if i < |s| {
      assert s[i..][1..] == s[i + 1..];
      SplitCountsLines(s[i + 1..]);
    }
  }

  /** `p` is a prefix of `s` with k of its `total` lines, ending before a newline if more follow. */
  predicate HoldsLines(s: Text, p: Text, k: nat, total: nat) {
    && |p| <= |s| && p == s[..|p|] && LineCount(p) == k
    && (k < total ==> |p| < |s| && s[|p|] == NEWLINE)
    && (k == total ==> p == s)
  }

  /** The first line. */
  lemma FirstLine(s: Text)
    ensures HoldsLines(s, Join(Split(s)[..1]), 1, |Split(s)|)
  {
    var i := IndexOfNewline(s);
    NoNewlineIsOneLine(s[..i]);
    assert s[..|s|] == s;
    assert Split(s)[..1] == [s[..i]];
    hide IndexOfNewline, LineCount;
  }

  /** The first k lines, joined again, are the prefix of the text with k lines. */
  lemma {:induction false} FirstLines(s: Text, k: nat)
    requires 1 <= k <= |Split(s)|
    ensures HoldsLines(s, Join(Split(s)[..k]), k, |Split(s)|)
  {
    hide IndexOfNewline, Join, LineCount, HoldsLines;
    if k == 1 {
      FirstLine(s);
    } else {
      var i := IndexOfNewline(s);
      FirstLines(s[i + 1..], k - 1);
      JoinStep(s, i, k);
      NoNewlineIsOneLine(s[..i]);
      LineInFront(s, i, Join(Split(s[i + 1..])[..k - 1]), k - 1, |Split(s)| - 1);
    }
  }

  lemma JoinStep(s: Text, i: nat, k: nat)
    requires i == IndexOfNewline(s) < |s| && 2 <= k <= |Split(s)|
    ensures Join(Split(s)[..k]) == s[..i] + [NEWLINE] + Join(Split(s[i + 1..])[..k - 1])
  {
    assert Split(s)[..k] == [s[..i]] + Split(s[i + 1..])[..k - 1];
  }

  /** A first line in front of some lines of the rest. */
  lemma LineInFront(s: Text, i: nat, q: Text, k: nat, total: nat)
    requires i < |s| && s[i] == NEWLINE && LineCount(s[..i]) == 1 && HoldsLines(s[i + 1..], q, k, total)
    ensures HoldsLines(s, s[..i] + [NEWLINE] + q, k + 1, total + 1)
  {
    LineCountSum(s[..i], [NEWLINE] + q);
    assert ([NEWLINE] + q)[1..] == q;
    assert s[..i] + [NEWLINE] + q == s[..i] + ([NEWLINE] + q);
    hide LineCount;
  }

  // ----- The limits -----

  datatype Limits = Limits(bytes: nat, lines: nat)

  predicate Legal(s: Text, limits: Limits) {
    LineCount(s) <= limits.lines && ByteLength(s) <= limits.bytes
  }

  /** The longest prefix of `output` that meets both limits. */
  predicate LongestLegalPrefix(kept: Text, output: Text, limits: Limits) {
    && |kept| <= |output| && kept == output[..|kept|] && Legal(kept, limits)
    && forall k | |kept| < k <= |output| :: !Legal(output[..k], limits)
  }

  /** The whole text, the part of the output kept in it, and the original size. */
  datatype Truncated = Truncated(text: Text, kept: Text, truncated: bool, originalLines: nat, originalBytes: nat)

  /** The wording of the marker line, given the lines kept and in all, and the bytes kept and in all. */
  type Marker = (nat, nat, nat, nat) -> Text

  /** The binary search over the prefix length. */
  method CutToBytes(s: Text, bytes: nat) returns (low: nat)
    requires ByteLength(s) > bytes
    ensures low < |s| && ByteLength(s[..low]) <= bytes < ByteLength(s[..low + 1])
  {
    low := 0;
    var high := |s|;
    assert s[..|s|] == s;
    while low < high
      invariant low <= high <= |s|
      invariant ByteLength(s[..low]) <= bytes
      invariant high < |s| ==> bytes < ByteLength(s[..high + 1])
    {
      var mid := (low + high + 1) / 2;
      if ByteLength(s[..mid]) <= bytes { low := mid; } else { high := mid - 1; }
    }
  }

  method TruncateOutput(output: Text, limits: Limits, marker: Marker) returns (r: Truncated)
    ensures r.originalLines == LineCount(output) && r.originalBytes == ByteLength(output)
    ensures !r.truncated ==> r.text == r.kept == output
    ensures r.truncated ==>
              r.text == marker(LineCount(r.kept), LineCount(output), ByteLength(r.kept), ByteLength(output)) + r.kept
    ensures r.truncated <==> !Legal(output, limits)
    ensures limits.lines >= 1 ==> LongestLegalPrefix(r.kept, output, limits)
    ensures limits.lines == 0 ==> r.kept == []
  {
    var lines := Split(output);
    SplitCountsLines(output);
    var bytes := ByteLength(output);
    assert output[..|output|] == output;
    if bytes <= limits.bytes && |lines| <= limits.lines {
      LineCountPositive(output);
      return Truncated(output, output, false, |lines|, bytes);
    }
    var result := Join(if |lines| > limits.lines then lines[..limits.lines] else lines);
    if limits.lines >= 1 {
      FirstLines(output, if |lines| > limits.lines then limits.lines else |lines|);
      assert lines[..|lines|] == lines;
    }
    ghost var whole := result;
    if ByteLength(result) > limits.bytes {
      var low := CutToBytes(result, limits.bytes);
      result := result[..low];
    }
    if limits.lines >= 1 { KeptIsLongest(output, whole, result, limits); }
    var keptLines := Split(result);
    SplitCountsLines(result);
    LineCountPositive(output);
    var text := marker(|keptLines|, |lines|, ByteLength(result), bytes) + result;
    return Truncated(text, result, true, |lines|, bytes);
  }

  /** Cutting by lines first and by bytes second gives the longest legal prefix. */
  lemma KeptIsLongest(output: Text, whole: Text, kept: Text, limits: Limits)
    requires |whole| <= |output| && whole == output[..|whole|] && LineCount(whole) <= limits.lines
    requires |whole| < |output| ==> output[|whole|] == NEWLINE && LineCount(whole) == limits.lines
    requires if ByteLength(whole) <= limits.bytes then kept == whole
             else |kept| < |whole| && kept == whole[..|kept|] && ByteLength(kept) <= limits.bytes < ByteLength(whole[..|kept| + 1])
    ensures LongestLegalPrefix(kept, output, limits)
  {
    assert kept == output[..|kept|];
    LineCountMonotone(output, |kept|, |whole|);
    forall k | |kept| < k <= |output| ensures !Legal(output[..k], limits) {
      if ByteLength(whole) <= limits.bytes {
        assert output[..|whole| + 1] == whole + [NEWLINE];
        LineCountSum(whole, [NEWLINE]);
        assert [NEWLINE][1..] == [];
        LineCountMonotone(output, |whole| + 1, k);
      } else {
        assert whole[..|kept| + 1] == output[..|kept| + 1];
        ByteLengthMonotone(output, |kept| + 1, k);
      }
    }
  }
}
