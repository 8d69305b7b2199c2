/**
 * Text helpers of the FPDF document builder: escaping of PDF literal strings,
 * the UTF-8 to UTF-16BE converter used for metadata, and the width of a byte
 * string in a font's width table.
 */
module PdfText {
  import opened Common

  // ------------------------------------------------------------ escaping

  /** One byte of a PDF literal string: backslash and parentheses get a
      backslash in front; a carriage return becomes the two bytes \r when
      escapeCR is set (_escape does so, the inline escaping in cell() does not). */
  function EscapeByte(c: byte, escapeCR: bool): Bytes
  {
    if c == '\\' then "\\\\"
    else if c == '(' then "\\("
    else if c == ')' then "\\)"
    else if c == '\r' && escapeCR then "\\r"
    else [c]
  }

  /** The chained str_replace calls of _escape (escapeCR) and of cell(): each
      byte is rewritten on its own, since no replacement produces a byte that a
      later replacement looks for in a way that changes its meaning. */
  function Escape(s: Bytes, escapeCR: bool): (r: Bytes)
    ensures |r| >= |s|
  {
    if s == [] then [] else EscapeByte(s[0], escapeCR) + Escape(s[1..], escapeCR)
  }

  /** _textString: a literal string object. */
  function TextString(s: Bytes): (r: Bytes)
    ensures |r| >= 2 && r[0] == '(' && r[|r| - 1] == ')'
    ensures Balanced(r[1..|r| - 1]) && Unescape(r[1..|r| - 1]) == s
  {
    EscapeRoundTrip(s, true);
    var r := "(" + Escape(s, true) + ")";
    assert r[1..|r| - 1] == Escape(s, true);
    r
  }

  /** How a PDF reader decodes the body of a literal string (section 7.3.4.2 of
      ISO 32000-1), for the escapes FPDF writes (\\, \(, \) and \r); an
      unescaped end-of-line marker (CR, CR LF or LF) is read as one LF byte. */
  function Unescape(t: Bytes): Bytes
  {
    if t == [] then []
    else if t[0] == '\\' && |t| >= 2 then
      (if t[1] == 'r' then ['\r'] else [t[1]]) + Unescape(t[2..])
    else if t[0] == '\r' then
      if |t| >= 2 && t[1] == '\n' then ['\n'] + Unescape(t[2..]) else ['\n'] + Unescape(t[1..])
    else [t[0]] + Unescape(t[1..])
  }

  /** A literal-string body in which every parenthesis is escaped, so that the
      string ends at the closing parenthesis written after it. */
  predicate Balanced(t: Bytes)
  {
    if t == [] then true
    else if t[0] == '\\' then |t| >= 2 && Balanced(t[2..])
    else t[0] != '(' && t[0] != ')' && Balanced(t[1..])
  }

  /** A reader gets back the escaped bytes, as long as carriage returns are
      escaped or absent (cell() leaves them as they are, so they read as LF). */
  lemma {:induction false} EscapeRoundTrip(s: Bytes, escapeCR: bool)
    requires escapeCR || '\r' !in s
    ensures Unescape(Escape(s, escapeCR)) == s
    ensures Balanced(Escape(s, escapeCR))
  {
    if s != [] {
      EscapeRoundTrip(s[1..], escapeCR);
      EscapeByteReads(s[0], escapeCR, Escape(s[1..], escapeCR));
    }
  }

  /** One escaped byte in front of any text reads back as that byte, and
      keeps the text balanced. */
  lemma EscapeByteReads(c: byte, escapeCR: bool, rest: Bytes)
    requires escapeCR || c != '\r'
    ensures Unescape(EscapeByte(c, escapeCR) + rest) == [c] + Unescape(rest)
    ensures Balanced(rest) ==> Balanced(EscapeByte(c, escapeCR) + rest)
  {
    var e := EscapeByte(c, escapeCR);
    if |e| == 2 {
      assert (e + rest)[2..] == rest;
    } else {
      assert (e + rest)[1..] == rest;
    }
  }

  // ---------------------------------------------------- UTF-8 to UTF-16BE

  /** $s[$i] read as a number: 0 past the end of the string, as ord('') is. */
  function ByteAt(s: Bytes, i: nat): (v: nat)
    ensures v < 256
  {
    if i < |s| then s[i] as int else 0
  }

  /** Number of bytes of s the converter consumes for the character at i. */
  function Utf8Width(c1: nat): nat
  {
    if c1 >= 224 then 3 else if c1 >= 192 then 2 else 1
  }

  /** The two UTF-16BE bytes the converter writes for the character at i;
      `x % 16`, `x % 64 / 4`, `x % 4`, `x % 64`, `x % 32 / 4` are the masks
      0x0F, (0x3C >> 2), 0x03, 0x3F and (0x1C >> 2) of the source. */
  function Utf16Pair(s: Bytes, i: nat): (r: Bytes)
    ensures |r| == 2
  {
    var c1 := ByteAt(s, i);
    if c1 >= 224 then
      var c2 := ByteAt(s, i + 1);
      var c3 := ByteAt(s, i + 2);
      [Chr((c1 % 16) * 16 + (c2 % 64) / 4), Chr((c2 % 4) * 64 + c3 % 64)]
    else if c1 >= 192 then
      var c2 := ByteAt(s, i + 1);
      [Chr((c1 % 32) / 4), Chr((c1 % 4) * 64 + c2 % 64)]
    else
      [Chr(0), Chr(c1)]
  }

  /** The bytes the converter writes for s from position i on (without the BOM). */
  function Utf16From(s: Bytes, i: nat): Bytes
    decreases |s| - i
  {
    if i >= |s| then [] else Utf16Pair(s, i) + Utf16From(s, i + Utf8Width(ByteAt(s, i)))
  }

  const Bom: Bytes := ['\U{fe}', '\U{ff}']

  /** _UTF8toUTF16: the byte-order mark followed by one UTF-16 code unit per
      character; a truncated sequence at the end reads missing bytes as 0. */
  method Utf8ToUtf16(s: Bytes) returns (res: Bytes)
    ensures res == Bom + Utf16From(s, 0)
  {
    res := Bom;
    var nb := |s|;
    var i := 0;
    while i < nb
      invariant res + Utf16From(s, i) == Bom + Utf16From(s, 0)
      decreases nb - i
    {
      var c1 := s[i] as int;
      var pair: Bytes;
      if c1 >= 224 {
        var c2 := ByteAt(s, i + 1);
        var c3 := ByteAt(s, i + 2);
        pair := [Chr((c1 % 16) * 16 + (c2 % 64) / 4), Chr((c2 % 4) * 64 + c3 % 64)];
      } else if c1 >= 192 {
        var c2 := ByteAt(s, i + 1);
        pair := [Chr((c1 % 32) / 4), Chr((c1 % 4) * 64 + c2 % 64)];
      } else {
        pair := [Chr(0), Chr(c1)];
      }
      assert pair == Utf16Pair(s, i);
      assert Utf16From(s, i) == pair + Utf16From(s, i + Utf8Width(c1));
      res := res + pair;
      i := i + Utf8Width(c1);
    }
  }

  /** UTF-8 encoding of one code point of the Basic Multilingual Plane. */
  function Utf8Encode(cp: nat): (r: Bytes)
    requires cp < 0x10000
    ensures 1 <= |r| <= 3 && |r| == Utf8Width(r[0] as int)
  {
    if cp < 0x80 then [Chr(cp)]
    else if cp < 0x800 then [Chr(0xC0 + cp / 64), Chr(0x80 + cp % 64)]
    else [Chr(0xE0 + cp / 4096), Chr(0x80 + (cp / 64) % 64), Chr(0x80 + cp % 64)]
  }

  predicate InBmp(cps: seq<nat>)
  {
    forall k :: 0 <= k < |cps| ==> cps[k] < 0x10000
  }

  function Utf8EncodeAll(cps: seq<nat>): Bytes
    requires InBmp(cps)
  {
    if cps == [] then [] else Utf8Encode(cps[0]) + Utf8EncodeAll(cps[1..])
  }

  /** The UTF-16BE code units of BMP code points. */
  function Utf16Units(cps: seq<nat>): Bytes
    requires InBmp(cps)
  {
    if cps == [] then [] else [Chr(cps[0] / 256), Chr(cps[0] % 256)] + Utf16Units(cps[1..])
  }

  lemma TwoByteUnits(cp: nat)
    requires 0x80 <= cp < 0x800
    ensures ((0xC0 + cp / 64) % 32) / 4 == cp / 256
    ensures ((0xC0 + cp / 64) % 4) * 64 + (0x80 + cp % 64) % 64 == cp % 256
  {
    var a, c := cp / 64, cp % 64;
    assert cp == 64 * a + c && a < 32;
    assert (0xC0 + a) % 32 == a && (0xC0 + a) % 4 == a % 4;
    assert cp / 256 == a / 4;
    assert cp % 256 == (a % 4) * 64 + c;
  }

  lemma ThreeByteUnits(cp: nat)
    requires 0x800 <= cp < 0x10000
    ensures ((0xE0 + cp / 4096) % 16) * 16 + ((0x80 + (cp / 64) % 64) % 64) / 4 == cp / 256
    ensures ((0x80 + (cp / 64) % 64) % 4) * 64 + (0x80 + cp % 64) % 64 == cp % 256
  {
    var a, b, c := cp / 4096, (cp / 64) % 64, cp % 64;
    assert cp == 4096 * a + 64 * b + c && a < 16;
    assert (0xE0 + a) % 16 == a && (0x80 + b) % 64 == b && (0x80 + c) % 64 == c;
    assert b == 4 * (b / 4) + b % 4;
    assert cp == 256 * (16 * a + b / 4) + (64 * (b % 4) + c);
  }

  /** The pair written for one encoded code point does not look past it. */
  lemma Utf16PairLocal(e: Bytes, rest: Bytes, cp: nat)
    requires cp < 0x10000 && e == Utf8Encode(cp)
    ensures Utf16Pair(e + rest, 0) == [Chr(cp / 256), Chr(cp % 256)]
  {
    var s := e + rest;
    assert ByteAt(s, 0) == e[0] as int;
    if cp >= 0x800 {
      assert ByteAt(s, 1) == e[1] as int && ByteAt(s, 2) == e[2] as int;
      ThreeByteUnits(cp);
    } else if cp >= 0x80 {
      assert ByteAt(s, 1) == e[1] as int;
      TwoByteUnits(cp);
    }
  }

  /** The converter reads a byte string at an offset as it reads the suffix. */
  lemma {:induction false} Utf16FromShift(p: Bytes, s: Bytes, i: nat)
    ensures Utf16From(p + s, |p| + i) == Utf16From(s, i)
    decreases |s| - i
  {
    if i < |s| {
      var t := p + s;
      forall j | |p| + i <= j < |p| + i + 3 ensures ByteAt(t, j) == ByteAt(s, j - |p|) {
      }
      assert Utf16Pair(t, |p| + i) == Utf16Pair(s, i);
      Utf16FromShift(p, s, i + Utf8Width(ByteAt(s, i)));
    }
  }

  /** On well-formed UTF-8 of BMP code points the converter yields the BOM
      followed by each code point as a big-endian 16-bit unit. */
  lemma {:induction false} Utf8ToUtf16Correct(cps: seq<nat>)
    requires InBmp(cps)
    ensures Utf16From(Utf8EncodeAll(cps), 0) == Utf16Units(cps)
  {
    if cps != [] {
      var e := Utf8Encode(cps[0]);
      var rest := Utf8EncodeAll(cps[1..]);
      var s := e + rest;
      Utf16PairLocal(e, rest, cps[0]);
      assert ByteAt(s, 0) == e[0] as int;
      Utf16FromShift(e, rest, 0);
      Utf8ToUtf16Correct(cps[1..]);
    }
  }

  // ---------------------------------------------------------- string width

  /** A font's character widths, in thousandths of the font size, indexed by byte. */
  type WidthTable = cw: seq<int> | |cw| == 256 witness seq(256, _ => 0)

  /** Sum of the widths of the bytes of s. */
  function Width(cw: WidthTable, s: Bytes): int
  {
    if s == [] then 0 else Width(cw, s[..|s| - 1]) + cw[s[|s| - 1] as int]
  }

  /** Width is additive over concatenation, and the empty string measures 0. */
  lemma {:induction false} WidthConcat(cw: WidthTable, a: Bytes, b: Bytes)
    ensures Width(cw, a + b) == Width(cw, a) + Width(cw, b)
    ensures Width(cw, []) == 0
    decreases |b|
  {
    if b != [] {
      assert (a + b)[..|a + b| - 1] == a + b[..|b| - 1];
      WidthConcat(cw, a, b[..|b| - 1]);
    } else {
      assert a + b == a;
    }
  }

  /** With non-negative widths a prefix is never wider than the whole string. */
  lemma WidthMonotone(cw: WidthTable, a: Bytes, b: Bytes)
    requires forall c :: 0 <= c < 256 ==> cw[c] >= 0
    ensures Width(cw, a) <= Width(cw, a + b)
  {
    WidthConcat(cw, a, b);
    WidthNonNegative(cw, b);
  }

  lemma {:induction false} WidthNonNegative(cw: WidthTable, s: Bytes)
    requires forall c :: 0 <= c < 256 ==> cw[c] >= 0
    ensures Width(cw, s) >= 0
  {
    if s != [] {
      WidthNonNegative(cw, s[..|s| - 1]);
    }
  }

  /** Number of space bytes in s (substr_count($s, ' ')). */
  function Spaces(s: Bytes): nat
  {
    if s == [] then 0 else Spaces(s[..|s| - 1]) + (if s[|s| - 1] == ' ' then 1 else 0)
  }
}
