/** The byte length that the truncation counts is that of the UTF-8 encoding. */
module Utf8Length {
  import opened Truncation
  import P = ChildProtocol

  /** The character a surrogate pair stands for. */
  function PairCodePoint(high: CodeUnit, low: CodeUnit): int
    requires High(high) && Low(low)
  {
    0x10000 + (high - 0xd800) * 0x400 + (low - 0xdc00)
  }

  function Trail(n: int): P.Byte
    requires 0 <= n < 64
  {
    0x80 + n
  }

  /** The bytes of one character (section 3 of RFC 3629). */
  function EncodePoint(c: int): (r: P.Bytes)
    requires 0 <= c < 0x110000
  {
    if c < 0x80 then [c]
    else if c < 0x800 then [0xc0 + c / 64, Trail(c % 64)]
    else if c < 0x10000 then [0xe0 + c / 4096, Trail(c / 64 % 64), Trail(c % 64)]
    else [0xf0 + c / 0x40000, Trail(c / 4096 % 64), Trail(c / 64 % 64), Trail(c % 64)]
  }

  /** A lone surrogate is written as the replacement character. */
  function UnitPoint(u: CodeUnit): int {
    if High(u) || Low(u) then 0xfffd else u
  }

  function Encode(s: Text): P.Bytes {
    if s == [] then []
    else if |s| >= 2 && High(s[0]) && Low(s[1]) then EncodePoint(PairCodePoint(s[0], s[1])) + Encode(s[2..])
    else EncodePoint(UnitPoint(s[0])) + Encode(s[1..])
  }

  lemma PointIsUtf8(c: int, rest: P.Bytes)
    requires 0 <= c < 0x110000 && P.IsUtf8(rest)
    ensures P.IsUtf8(EncodePoint(c) + rest)
  {
    var bytes := EncodePoint(c);
    var all := bytes + rest;
    assert P.CharLength(all[0]) == |bytes| by { FirstByte(c); }
    assert all[|bytes|..] == rest;
    forall i | 1 <= i < |bytes| ensures P.Continuation(all[i]) { assert all[i] == bytes[i]; }
  }

  lemma FirstByte(c: int)
    requires 0 <= c < 0x110000
    ensures P.CharLength(EncodePoint(c)[0]) == |EncodePoint(c)|
  {
  }

  /** The encoding is UTF-8 and has the length that is counted, pairs and lone surrogates included. */
  lemma {:induction false} EncodingLength(s: Text)
    ensures P.IsUtf8(Encode(s)) && |Encode(s)| == ByteLength(s)
  {
    if s != [] {
      if |s| >= 2 && High(s[0]) && Low(s[1]) {
        EncodingLength(s[2..]);
        PointIsUtf8(PairCodePoint(s[0], s[1]), Encode(s[2..]));
      } else {
        EncodingLength(s[1..]);
        PointIsUtf8(UnitPoint(s[0]), Encode(s[1..]));
      }
    }
  }
}
