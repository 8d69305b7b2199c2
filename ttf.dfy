/**
 * The TrueType table reader (class TTFParser of src/Fpdf/TTFParser.php):
 * the file is a byte string read through a cursor; the constructor checks
 * the version, reads the table directory and then the head, hhea, maxp,
 * hmtx, cmap, name, OS/2 and post tables into public fields.
 *
 * A read that reaches past the end of the file gives the bytes that are
 * there, and a number read there is 0 (unpack() of too few bytes gives
 * null, which the parser then uses as 0). The cursor is kept at its
 * nominal position, which differs from PHP's only past the end of the
 * file, where nothing is read either way.
 */
module TrueType {
  import opened Common

  // ------------------------------------------------------------ file reads

  /** fread($f, n) at position p. */
  function BytesAt(data: Bytes, p: nat, n: nat): (r: Bytes)
    ensures |r| <= n
    ensures p + n <= |data| ==> r == data[p..p + n]
    ensures p >= |data| ==> r == []
  {
    if p >= |data| then [] else if p + n <= |data| then data[p..p + n] else data[p..]
  }

  /** readUShort() at position p: a big-endian 16-bit number. */
  function UShortAt(data: Bytes, p: nat): (r: nat)
    ensures r < 0x1_0000
  {
    if p + 2 <= |data| then data[p] as nat * 0x100 + data[p + 1] as nat else 0
  }

  /** readULong() at position p: a big-endian 32-bit number. */
  function ULongAt(data: Bytes, p: nat): (r: nat)
    ensures r < 0x1_0000_0000
  {
    if p + 4 <= |data| then UShortAt(data, p) * 0x1_0000 + UShortAt(data, p + 2) else 0
  }

  /** The two's-complement reading of a 16-bit number, as readShort() does it. */
  function Signed(v: nat): (r: int)
    requires v < 0x1_0000
  {
    if v >= 0x8000 then v - 0x1_0000 else v
  }

  /** readShort() at position p. */
  function ShortAt(data: Bytes, p: nat): int
  {
    Signed(UShortAt(data, p))
  }

  /** readShort() gives a value of [-32768, 32767] that agrees with the
      unsigned reading modulo 65536, negative exactly when the top bit is set. */
  lemma SignedRange(v: nat)
    requires v < 0x1_0000
    ensures -0x8000 <= Signed(v) < 0x8000
    ensures Signed(v) % 0x1_0000 == v
    ensures Signed(v) < 0 <==> v >= 0x8000
  {
  }

  /** v & mask != 0, for a mask of one bit. */
  predicate Bit(v: nat, mask: nat)
    requires mask > 0
  {
    (v / mask) % 2 == 1
  }

  // ------------------------------------------------------- table directory

  const Version1: Bytes := ['\0', '\U{1}', '\0', '\0']
  const Otto: Bytes := "OTTO"

  /** The tags of the tables the constructor reads. */
  const HeadTag: Bytes := "head"
  const HheaTag: Bytes := "hhea"
  const MaxpTag: Bytes := "maxp"
  const HmtxTag: Bytes := "hmtx"
  const CmapTag: Bytes := "cmap"
  const NameTag: Bytes := "name"
  const Os2Tag: Bytes := "OS/2"
  const PostTag: Bytes := "post"

  const PostScriptOutlines: Bytes := "OpenType fonts based on " + "PostScript outlines are not supported"
  const Unrecognized: Bytes := "Unrecognized file format"
  const BadMagic: Bytes := "Incorrect magic number"
  const NoUnicode: Bytes := "No Unicode encoding found"
  const BadFormat: Bytes := "Unexpected subtable format: "
  const NoPostScriptName: Bytes := "PostScript name not found"

  function NotFound(tag: Bytes): Bytes
  {
    "Table not found: " + tag
  }

  /** The tag and the offset of the i-th 16-byte directory record. */
  function TagAt(data: Bytes, i: nat): Bytes
  {
    BytesAt(data, 12 + 16 * i, 4)
  }

  function OffsetAt(data: Bytes, i: nat): nat
  {
    ULongAt(data, 12 + 16 * i + 8)
  }

  /** The tables array after the first k directory records. */
  function Directory(data: Bytes, k: nat): map<Bytes, nat>
  {
    if k == 0 then map[] else Directory(data, k - 1)[TagAt(data, k - 1) := OffsetAt(data, k - 1)]
  }

  /** The tables array the constructor builds: numTables records. */
  function Tables(data: Bytes): map<Bytes, nat>
  {
    Directory(data, UShortAt(data, 4))
  }

  /** A tag is in the directory exactly when one of the records carries it,
      and it maps to the offset of the last record that does. */
  lemma {:induction false} DirectoryFinds(data: Bytes, k: nat, tag: Bytes)
    ensures tag in Directory(data, k) <==> exists i :: 0 <= i < k && TagAt(data, i) == tag
    ensures forall i :: 0 <= i < k && TagAt(data, i) == tag && (forall j :: i < j < k ==> TagAt(data, j) != tag)
                        ==> tag in Directory(data, k) && Directory(data, k)[tag] == OffsetAt(data, i)
  {
    if k > 0 {
      DirectoryFinds(data, k - 1, tag);
      if TagAt(data, k - 1) != tag {
        forall i | 0 <= i < k && TagAt(data, i) == tag
          ensures i < k - 1
        {
        }
      }
    }
  }

  // ------------------------------------------------------------------ hmtx

  /** The advance widths hmtx() reads: nh long metrics of 4 bytes, padded
      with the last width to ng entries (an absent width reads as 0). */
  function HmtxWidths(data: Bytes, t: nat, nh: nat, ng: nat): (r: seq<nat>)
    ensures |r| == if nh < ng then ng else nh
    ensures forall i :: 0 <= i < nh ==> r[i] == UShortAt(data, t + 4 * i)
    ensures forall i :: nh <= i < |r| ==> r[i] == if nh > 0 then r[nh - 1] else 0
  {
    var read := seq(nh, i requires 0 <= i => UShortAt(data, t + 4 * i));
    if nh < ng then read + seq(ng - nh, _ => if nh > 0 then read[nh - 1] else 0) else read
  }

  // ------------------------------------------------------------------ cmap

  /** The offset of the last platform 3 / encoding 1 subtable among the
      first k encoding records at p, or 0 when there is none. */
  function UnicodeSubtable(data: Bytes, p: nat, k: nat): nat
  {
    if k == 0 then 0
    else
      var q := p + 8 * (k - 1);
      if UShortAt(data, q) == 3 && UShortAt(data, q + 2) == 1 then ULongAt(data, q + 4)
      else UnicodeSubtable(data, p, k - 1)
  }

  /** The offset of the Unicode subtable of the cmap table at t. */
  function CmapSubtable(data: Bytes, t: nat): nat
  {
    UnicodeSubtable(data, t + 4, UShortAt(data, t + 2))
  }

  /** What cmap() checks of the table at t: a Unicode subtable in format 4. */
  function CmapCheck(data: Bytes, t: nat): (r: Outcome)
    ensures r.Pass? <==> CmapSubtable(data, t) != 0 && UShortAt(data, t + CmapSubtable(data, t)) == 4
  {
    var o := CmapSubtable(data, t);
    if o == 0 then Fail(NoUnicode)
    else
      var format := UShortAt(data, t + o);
      if format != 4 then Fail(BadFormat + NatText(format)) else Pass
  }

  /** The number of segments of the format 4 subtable at s: the loops run
      while $i < segCountX2 / 2, which is ceil(segCountX2 / 2) times. */
  function SegCount(data: Bytes, s: nat): nat
  {
    (UShortAt(data, s + 6) + 1) / 2
  }

  /** The four arrays of a format 4 subtable at s with n segments. */
  function EndCode(data: Bytes, s: nat, n: nat, i: nat): nat
  {
    UShortAt(data, s + 14 + 2 * i)
  }

  function StartCode(data: Bytes, s: nat, n: nat, i: nat): nat
  {
    UShortAt(data, s + 16 + 2 * n + 2 * i)
  }

  function IdDelta(data: Bytes, s: nat, n: nat, i: nat): int
  {
    ShortAt(data, s + 16 + 4 * n + 2 * i)
  }

  /** Where the idRangeOffset array starts ($offset = ftell()). */
  function RangeBase(s: nat, n: nat): nat
  {
    s + 16 + 6 * n
  }

  function IdRangeOffset(data: Bytes, s: nat, n: nat, i: nat): nat
  {
    UShortAt(data, RangeBase(s, n) + 2 * i)
  }

  /** The glyph id of code c in a segment starting at c1 with delta d and
      range offset ro whose glyph array is read from q: the array entry
      plus d (an entry of 0 stays 0) or, without an array, c + d; a sum of
      65536 or more loses 65536. */
  function Glyph(data: Bytes, c1: nat, d: int, ro: nat, q: nat, c: nat): int
    requires c1 <= c
  {
    var raw := UShortAt(data, q + 2 * (c - c1));
    var g := if ro > 0 then (if raw > 0 then raw + d else raw) else c + d;
    if g >= 0x1_0000 then g - 0x1_0000 else g
  }

  /** The codes of one segment, c1..c2 but never 0xFFFF, that cmap()
      stores, with their glyph ids: only ids above 0 are stored. */
  function SegmentMap(data: Bytes, c1: nat, c2: nat, d: int, ro: nat, q: nat): map<nat, nat>
  {
    map c: nat | c1 <= c <= c2 && c < 0xFFFF && Glyph(data, c1, d, ro, q, c) > 0 :: Glyph(data, c1, d, ro, q, c) as nat
  }

  /** The codes of a segment below e that cmap() has stored. */
  function SegmentUpTo(data: Bytes, c1: nat, c2: nat, d: int, ro: nat, q: nat, e: nat): map<nat, nat>
  {
    map c: nat | c1 <= c < e && c <= c2 && c < 0xFFFF && Glyph(data, c1, d, ro, q, c) > 0 :: Glyph(data, c1, d, ro, q, c) as nat
  }

  /** One more code of the segment: stored when its glyph id is above 0. */
  lemma SegmentStep(m: map<nat, nat>, data: Bytes, c1: nat, c2: nat, d: int, ro: nat, q: nat, c: nat)
    requires c1 <= c <= c2 && c < 0xFFFF
    ensures var g := Glyph(data, c1, d, ro, q, c);
            m + SegmentUpTo(data, c1, c2, d, ro, q, c + 1)
            == if g > 0 then (m + SegmentUpTo(data, c1, c2, d, ro, q, c))[c := g as nat] else m + SegmentUpTo(data, c1, c2, d, ro, q, c)
  {
    var g := Glyph(data, c1, d, ro, q, c);
    var a, b := SegmentUpTo(data, c1, c2, d, ro, q, c), SegmentUpTo(data, c1, c2, d, ro, q, c + 1);
    if g > 0 {
      assert b == a[c := g as nat];
    } else {
      assert b == a;
    }
  }

  /** The segment map of segment i of the subtable at s with n segments. */
  function Segment(data: Bytes, s: nat, n: nat, i: nat): map<nat, nat>
  {
    var ro := IdRangeOffset(data, s, n, i);
    SegmentMap(data, StartCode(data, s, n, i), EndCode(data, s, n, i), IdDelta(data, s, n, i), ro, RangeBase(s, n) + 2 * i + ro)
  }

  /** The chars array after the first k segments: later segments overwrite. */
  function SegmentsMap(data: Bytes, s: nat, n: nat, k: nat): map<nat, nat>
  {
    if k == 0 then map[] else SegmentsMap(data, s, n, k - 1) + Segment(data, s, n, k - 1)
  }

  /** The chars array cmap() builds from the table at t. */
  function CmapChars(data: Bytes, t: nat): map<nat, nat>
  {
    var s := t + CmapSubtable(data, t);
    SegmentsMap(data, s, SegCount(data, s), SegCount(data, s))
  }

  /** Every stored code is below 0xFFFF and every stored glyph id lies in
      1..65535: the reduction by 65536 brings every sum back below 65536. */
  lemma {:induction false} SegmentsInRange(data: Bytes, s: nat, n: nat, k: nat)
    ensures forall c :: c in SegmentsMap(data, s, n, k) ==> c < 0xFFFF && 1 <= SegmentsMap(data, s, n, k)[c] < 0x1_0000
  {
    if k > 0 {
      SegmentsInRange(data, s, n, k - 1);
      var i := k - 1;
      var ro := IdRangeOffset(data, s, n, i);
      var c1, d, q := StartCode(data, s, n, i), IdDelta(data, s, n, i), RangeBase(s, n) + 2 * i + ro;
      SignedRange(UShortAt(data, s + 16 + 4 * n + 2 * i));
      forall c | c in Segment(data, s, n, i)
        ensures c < 0xFFFF && Segment(data, s, n, i)[c] < 0x1_0000
      {
        assert Segment(data, s, n, i)[c] == Glyph(data, c1, d, ro, q, c);
      }
    }
  }

  /** Without a glyph array, code c of the segment is stored exactly when
      c + d is neither 0 nor 65536 and not negative, with c + d or c + d - 65536:
      a negative sum is dropped rather than wrapped. */
  lemma DirectSegment(data: Bytes, c1: nat, c2: nat, d: int, q: nat, c: nat)
    requires c1 <= c <= c2 && c < 0xFFFF
    ensures c in SegmentMap(data, c1, c2, d, 0, q) <==> c + d > 0 && c + d != 0x1_0000
    ensures c + d > 0 && c + d != 0x1_0000 ==>
              SegmentMap(data, c1, c2, d, 0, q)[c] == if c + d > 0x1_0000 then c + d - 0x1_0000 else c + d
  {
  }

  /** With a glyph array, code c is stored exactly when its entry is not 0
      and the entry plus d is positive and not 65536. */
  lemma ArraySegment(data: Bytes, c1: nat, c2: nat, d: int, ro: nat, q: nat, c: nat)
    requires c1 <= c <= c2 && c < 0xFFFF && ro > 0
    ensures var raw := UShortAt(data, q + 2 * (c - c1));
            c in SegmentMap(data, c1, c2, d, ro, q) <==> raw > 0 && raw + d > 0 && raw + d != 0x1_0000
  {
  }

  // ------------------------------------------------------------------ name

  /** The characters the PostScript name loses besides NUL. */
  predicate NameDelimiter(c: byte)
  {
    c == ' ' || c == '[' || c == ']' || c == '(' || c == ')' || c == '{' || c == '}'
    || c == '<' || c == '>' || c == '/' || c == '%'
  }

  /** preg_replace('|[ \[\](){}<>/%]|', '', s). */
  function StripDelimiters(s: Bytes): (r: Bytes)
    ensures forall i :: 0 <= i < |r| ==> !NameDelimiter(r[i])
    ensures |r| <= |s|
  {
    if s == [] then []
    else (if NameDelimiter(s[0]) then [] else [s[0]]) + StripDelimiters(s[1..])
  }

  /** StripDelimiters keeps every byte that is not a delimiter. */
  lemma {:induction false} StripDelimitersKeeps(s: Bytes)
    ensures forall c :: !NameDelimiter(c) ==> (c in StripDelimiters(s) <==> c in s)
  {
    if s != [] {
      StripDelimitersKeeps(s[1..]);
      assert s == [s[0]] + s[1..];
    }
  }

  /** Stripping twice strips nothing more. */
  lemma {:induction false} StripDelimitersIdempotent(s: Bytes)
    ensures StripDelimiters(StripDelimiters(s)) == StripDelimiters(s)
  {
    if s != [] {
      StripDelimitersIdempotent(s[1..]);
      var rest := StripDelimiters(s[1..]);
      if NameDelimiter(s[0]) {
        assert StripDelimiters(s) == rest;
      } else {
        assert StripDelimiters(s) == [s[0]] + rest;
        assert ([s[0]] + rest)[1..] == rest;
      }
    }
  }

  /** The index of the first name record with name ID 6 among records i..count-1. */
  function PostScriptRecord(data: Bytes, t: nat, count: nat, i: nat): (r: Option<nat>)
    ensures r.Some? ==> i <= r.value < count && UShortAt(data, t + 12 + 12 * r.value) == 6
    ensures r.Some? ==> forall j :: i <= j < r.value ==> UShortAt(data, t + 12 + 12 * j) != 6
    ensures r.None? ==> forall j :: i <= j < count ==> UShortAt(data, t + 12 + 12 * j) != 6
    decreases count - i
  {
    if i >= count then None
    else if UShortAt(data, t + 12 + 12 * i) == 6 then Some(i)
    else PostScriptRecord(data, t, count, i + 1)
  }

  /** The string of name record i of the table at t (before any cleaning). */
  function NameString(data: Bytes, t: nat, i: nat): Bytes
  {
    BytesAt(data, t + UShortAt(data, t + 4) + UShortAt(data, t + 16 + 12 * i), UShortAt(data, t + 14 + 12 * i))
  }

  /** The PostScript name name() finds in the table at t: the string of the
      first record with name ID 6, without NUL bytes and delimiters; empty
      when there is no such record. */
  function PostScriptName(data: Bytes, t: nat): (r: Bytes)
    ensures forall i :: 0 <= i < |r| ==> r[i] != '\0' && !NameDelimiter(r[i])
  {
    match PostScriptRecord(data, t, UShortAt(data, t + 2), 0)
    case None => []
    case Some(i) =>
      var s := RemoveByte(NameString(data, t, i), '\0');
      StripDelimitersKeeps(s);
      StripDelimiters(s)
  }

  /** A record whose name ID is not 6 is passed over. */
  lemma PostScriptRecordNext(data: Bytes, t: nat, count: nat, i: nat)
    requires i < count && UShortAt(data, t + 12 + 12 * i) != 6
    ensures PostScriptRecord(data, t, count, i) == PostScriptRecord(data, t, count, i + 1)
  {
  }

  /** The name found at the first record with name ID 6. */
  lemma PostScriptNameAt(data: Bytes, t: nat, i: nat)
    requires PostScriptRecord(data, t, UShortAt(data, t + 2), 0) == PostScriptRecord(data, t, UShortAt(data, t + 2), i)
    requires i < UShortAt(data, t + 2) && UShortAt(data, t + 12 + 12 * i) == 6
    ensures PostScriptName(data, t) == StripDelimiters(RemoveByte(NameString(data, t, i), '\0'))
  {
    assert PostScriptRecord(data, t, UShortAt(data, t + 2), i) == Some(i);
  }

  // ----------------------------------------------------------- whole file

  /** What the constructor checks, in its order: the version, then each
      table the reader seeks, the head magic number, the Unicode cmap
      subtable and the PostScript name. */
  function Checked(data: Bytes): (r: Outcome)
    ensures r.Pass? ==> BytesAt(data, 0, 4) == Version1
    ensures r.Pass? ==> forall tag :: tag in [HeadTag, HheaTag, MaxpTag, HmtxTag, CmapTag, NameTag, Os2Tag, PostTag] ==> tag in Tables(data)
    ensures r.Pass? ==> ULongAt(data, Tables(data)[HeadTag] + 12) == 0x5F0F3CF5
    ensures r.Pass? ==> CmapCheck(data, Tables(data)[CmapTag]).Pass? && PostScriptName(data, Tables(data)[NameTag]) != []
    ensures BytesAt(data, 0, 4) == Otto ==> r == Fail(PostScriptOutlines)
  {
    var version := BytesAt(data, 0, 4);
    if version == Otto then Fail(PostScriptOutlines)
    else if version != Version1 then Fail(Unrecognized)
    else TablesChecked(data, Tables(data))
  }

  function TablesChecked(data: Bytes, tables: map<Bytes, nat>): Outcome
  {
    Then(MetricsChecked(data, tables), GlyphsChecked(data, tables))
  }

  /** The first failure of two steps taken in turn. */
  function Then(first: Outcome, second: Outcome): (r: Outcome)
    ensures r.Pass? <==> first.Pass? && second.Pass?
    ensures r.Fail? ==> r == if first.Fail? then first else second
  {
    if first.Fail? then first else second
  }

  /** seek() of a table the method only needs to find. */
  function Present(tables: map<Bytes, nat>, tag: Bytes): (r: Outcome)
    ensures r.Pass? <==> tag in tables
    ensures r.Fail? ==> r.msg == NotFound(tag)
  {
    if tag in tables then Pass else Fail(NotFound(tag))
  }

  /** The checks of head(): the table and its magic number. */
  function HeadOutcome(data: Bytes, tables: map<Bytes, nat>): (r: Outcome)
    ensures r.Pass? <==> HeadTag in tables && ULongAt(data, tables[HeadTag] + 12) == 0x5F0F3CF5
  {
    if HeadTag !in tables then Fail(NotFound(HeadTag))
    else if ULongAt(data, tables[HeadTag] + 12) != 0x5F0F3CF5 then Fail(BadMagic)
    else Pass
  }

  /** The checks of cmap(): the table and its Unicode subtable. */
  function CmapOutcome(data: Bytes, tables: map<Bytes, nat>): (r: Outcome)
    ensures r.Pass? <==> CmapTag in tables && CmapCheck(data, tables[CmapTag]).Pass?
  {
    if CmapTag !in tables then Fail(NotFound(CmapTag)) else CmapCheck(data, tables[CmapTag])
  }

  /** The checks of name(): the table and a PostScript name in it. */
  function NameOutcome(data: Bytes, tables: map<Bytes, nat>): (r: Outcome)
    ensures r.Pass? <==> NameTag in tables && PostScriptName(data, tables[NameTag]) != []
  {
    if NameTag !in tables then Fail(NotFound(NameTag))
    else if PostScriptName(data, tables[NameTag]) == [] then Fail(NoPostScriptName)
    else Pass
  }

  /** The checks of head(), hhea(), maxp() and hmtx(). */
  function MetricsChecked(data: Bytes, tables: map<Bytes, nat>): Outcome
  {
    Then(HeadOutcome(data, tables), Then(Present(tables, HheaTag), Then(Present(tables, MaxpTag), Present(tables, HmtxTag))))
  }

  /** The checks of cmap(), name(), os2() and post(). */
  function GlyphsChecked(data: Bytes, tables: map<Bytes, nat>): Outcome
  {
    Then(Then(CmapOutcome(data, tables), NameOutcome(data, tables)), Then(Present(tables, Os2Tag), Present(tables, PostTag)))
  }

  // ---------------------------------------------------- table contents

  /** What head() reads from the table at t: unitsPerEm, xMin, yMin,
      xMax and yMax. */
  function HeadValues(data: Bytes, t: nat): (nat, int, int, int, int)
  {
    (UShortAt(data, t + 18), ShortAt(data, t + 36), ShortAt(data, t + 38), ShortAt(data, t + 40), ShortAt(data, t + 42))
  }

  /** What os2() reads from the table at t: whether the licence lets the
      font be embedded (fsType is not 2 and bit 9, bitmap embedding only,
      is clear), whether it is bold (bit 5 of fsSelection), the typographic
      ascender and descender, and the cap height, which only version 2
      and later carry. */
  function Os2Values(data: Bytes, t: nat): (r: (bool, bool, int, int, int))
    ensures r.0 ==> UShortAt(data, t + 8) != 2
    ensures UShortAt(data, t) < 2 ==> r.4 == 0
  {
    var fsType := UShortAt(data, t + 8);
    (fsType != 2 && !Bit(fsType, 0x200), Bit(UShortAt(data, t + 62), 32),
     ShortAt(data, t + 68), ShortAt(data, t + 70), if UShortAt(data, t) >= 2 then ShortAt(data, t + 88) else 0)
  }

  /** What post() reads from the table at t: the integer part of the
      italic angle, the underline position and thickness, and whether the
      font is fixed-pitch. */
  function PostValues(data: Bytes, t: nat): (int, int, int, bool)
  {
    (ShortAt(data, t + 4), ShortAt(data, t + 8), ShortAt(data, t + 10), ULongAt(data, t + 12) != 0)
  }

  // ---------------------------------------------------------------- parser

  class TtfParser {
    /** The font file. Every table method begins with seek(), so the file
        position lives in a local cursor p of each method. */
    const data: Bytes

    var tables: map<Bytes, nat>
    var unitsPerEm: nat
    var xMin: int
    var yMin: int
    var xMax: int
    var yMax: int
    var numberOfHMetrics: nat
    var numGlyphs: nat
    var widths: seq<nat>
    var chars: map<nat, nat>
    var postScriptName: Bytes
    var embeddable: bool
    var bold: bool
    var typoAscender: int
    var typoDescender: int
    var capHeight: int
    var italicAngle: int
    var underlinePosition: int
    var underlineThickness: int
    var isFixedPitch: bool

    /** The fields before any table is read (PHP's null reads as 0). */
    constructor (file: Bytes)
      ensures data == file
      ensures tables == map[] && widths == [] && chars == map[] && postScriptName == []
    {
      data := file;
      tables := map[];
      widths := [];
      chars := map[];
      postScriptName := [];
    }

    /** The reader opened on a file: the constructor's checks and reads. */
    static method Open(file: Bytes) returns (r: Result<TtfParser>)
      ensures r.Err? <==> Checked(file).Fail?
      ensures r.Err? ==> r.msg == Checked(file).msg
      ensures r.Ok? ==> fresh(r.value) && r.value.data == file && r.value.Parsed()
    {
      var f := new TtfParser(file);
      var o := f.Load();
      if o.Fail? {
        return Err(o.msg);
      }
      r := Ok(f);
    }

    // ---------------------------------------------------------- tables

    /** The fields each table method sets, as functions of the file. */
    predicate HeadRead()
      reads this`tables, this`unitsPerEm, this`xMin, this`yMin, this`xMax, this`yMax
    {
      HeadTag in tables && (unitsPerEm, xMin, yMin, xMax, yMax) == HeadValues(data, tables[HeadTag])
    }

    predicate MetricsRead()
      reads this`tables, this`numberOfHMetrics, this`numGlyphs
    {
      HheaTag in tables && MaxpTag in tables
      && (numberOfHMetrics, numGlyphs) == (UShortAt(data, tables[HheaTag] + 34), UShortAt(data, tables[MaxpTag] + 4))
    }

    predicate Os2Read()
      reads this`tables, this`embeddable, this`bold, this`typoAscender, this`typoDescender, this`capHeight
    {
      Os2Tag in tables && (embeddable, bold, typoAscender, typoDescender, capHeight) == Os2Values(data, tables[Os2Tag])
    }

    predicate PostRead()
      reads this`tables, this`italicAngle, this`underlinePosition, this`underlineThickness, this`isFixedPitch
    {
      PostTag in tables && (italicAngle, underlinePosition, underlineThickness, isFixedPitch) == PostValues(data, tables[PostTag])
    }

    predicate HmtxRead()
      reads this`tables, this`widths, this`numberOfHMetrics, this`numGlyphs
    {
      HmtxTag in tables && widths == HmtxWidths(data, tables[HmtxTag], numberOfHMetrics, numGlyphs)
    }

    predicate CmapRead()
      reads this`tables, this`chars
    {
      CmapTag in tables && chars == CmapChars(data, tables[CmapTag])
    }

    predicate NameRead()
      reads this`tables, this`postScriptName
    {
      NameTag in tables && postScriptName == PostScriptName(data, tables[NameTag])
    }

    /** The fields head(), hhea(), maxp() and hmtx() set. */
    predicate MetricsLoaded()
      reads this`tables, this`unitsPerEm, this`xMin, this`yMin, this`xMax, this`yMax, this`numberOfHMetrics
      reads this`numGlyphs, this`widths
    {
      HeadRead() && MetricsRead() && HmtxRead()
    }

    /** The fields cmap(), name(), os2() and post() set. */
    predicate GlyphsLoaded()
      reads this`tables, this`chars, this`postScriptName, this`embeddable, this`bold
      reads this`typoAscender, this`typoDescender, this`capHeight, this`italicAngle, this`underlinePosition
      reads this`underlineThickness, this`isFixedPitch
    {
      CmapRead() && NameRead() && Os2Read() && PostRead()
    }

    /** Every field as the constructor leaves it. */
    predicate Parsed()
      reads this
    {
      tables == Tables(data) && MetricsLoaded() && GlyphsLoaded()
    }

    /** seek(): the position of a table of the directory. */
    method Seek(tag: Bytes) returns (r: Outcome, p: nat)
      ensures r.Pass? <==> tag in tables
      ensures r.Pass? ==> p == tables[tag]
      ensures r.Fail? ==> r.msg == NotFound(tag)
    {
      if tag !in tables {
        return Fail(NotFound(tag)), 0;
      }
      return Pass, tables[tag];
    }

    /** The constructor after fopen(): the version, the table directory
        and the tables, stopping at the first failure. */
    method Load() returns (r: Outcome)
      requires tables == map[] && widths == [] && chars == map[]
      modifies this`tables, this`unitsPerEm, this`xMin, this`yMin, this`xMax, this`yMax, this`numberOfHMetrics
      modifies this`numGlyphs, this`widths, this`chars, this`postScriptName, this`embeddable, this`bold
      modifies this`typoAscender, this`typoDescender, this`capHeight, this`italicAngle, this`underlinePosition
      modifies this`underlineThickness, this`isFixedPitch
      ensures r == Checked(data)
      ensures r.Pass? ==> Parsed()
    {
      var version := BytesAt(data, 0, 4);
      if version == Otto {
        r := Fail(PostScriptOutlines);
      } else if version != Version1 {
        r := Fail(Unrecognized);
      } else {
        ReadDirectory();
        r := LoadMetrics();
        if r.Pass? {
          r := LoadGlyphs();
        }
      }
    }

    /** The table directory: the tag and offset of each record. */
    method ReadDirectory()
      requires tables == map[]
      modifies this`tables
      ensures tables == Tables(data)
    {
      var p := 4;
      var numTables := UShortAt(data, p);
      p := p + 2 + 6;                                   // searchRange, entrySelector, rangeShift
      var i := 0;
      while i < numTables
        invariant i <= numTables && p == 12 + 16 * i
        invariant tables == Directory(data, i)
      {
        var tag := BytesAt(data, p, 4);
        p := p + 4 + 4;                                 // checkSum
        var offset := ULongAt(data, p);
        p := p + 4 + 4;                                 // length
        tables := tables[tag := offset];
        i := i + 1;
      }
    }

    /** head(), hhea(), maxp() and hmtx(), in the constructor's order. */
    method LoadMetrics() returns (r: Outcome)
      requires widths == []
      modifies this`unitsPerEm, this`xMin, this`yMin, this`xMax, this`yMax, this`numberOfHMetrics, this`numGlyphs
      modifies this`widths
      ensures r == MetricsChecked(data, tables)
      ensures unchanged(this`tables, this`chars)
      ensures r.Pass? ==> MetricsLoaded()
    {
      r := Head();
      if r.Pass? {
        r := Hhea();
      }
      if r.Pass? {
        r := Maxp();
      }
      if r.Pass? {
        r := Hmtx();
      }
    }

    /** cmap(), name(), os2() and post(), in the constructor's order. */
    method LoadGlyphs() returns (r: Outcome)
      requires chars == map[]
      modifies this`chars, this`postScriptName, this`embeddable, this`bold, this`typoAscender
      modifies this`typoDescender, this`capHeight, this`italicAngle, this`underlinePosition, this`underlineThickness
      modifies this`isFixedPitch
      ensures r == GlyphsChecked(data, tables)
      ensures unchanged(this`tables, this`unitsPerEm, this`xMin, this`yMin, this`xMax, this`yMax, this`numberOfHMetrics, this`numGlyphs, this`widths)
      ensures r.Pass? ==> GlyphsLoaded()
    {
      r := LoadNames();
      if r.Pass? {
        r := LoadStyle();
      }
    }

    /** cmap() and name(). */
    method LoadNames() returns (r: Outcome)
      requires chars == map[]
      modifies this`chars, this`postScriptName
      ensures r == Then(CmapOutcome(data, tables), NameOutcome(data, tables))
      ensures unchanged(this`tables, this`unitsPerEm, this`xMin, this`yMin, this`xMax, this`yMax, this`numberOfHMetrics, this`numGlyphs, this`widths)
      ensures r.Pass? ==> CmapRead() && NameRead()
    {
      r := Cmap();
      if r.Pass? {
        r := Name();
      }
    }

    /** os2() and post(). */
    method LoadStyle() returns (r: Outcome)
      modifies this`embeddable, this`bold, this`typoAscender, this`typoDescender, this`capHeight
      modifies this`italicAngle, this`underlinePosition, this`underlineThickness, this`isFixedPitch
      ensures r == Then(Present(tables, Os2Tag), Present(tables, PostTag))
      ensures unchanged(this`tables, this`unitsPerEm, this`xMin, this`yMin, this`xMax, this`yMax, this`numberOfHMetrics, this`numGlyphs, this`widths)
      ensures r.Pass? ==> Os2Read() && PostRead()
    {
      r := Os2();
      if r.Pass? {
        r := Post();
      }
    }

    /** head(): the magic number, the units per em and the bounding box.
        The asserts name the offset in the table the cursor has reached. */
    method Head() returns (r: Outcome)
      modifies this`unitsPerEm, this`xMin, this`yMin, this`xMax, this`yMax
      ensures r == HeadOutcome(data, tables)
      ensures r.Pass? ==> HeadRead()
    {
      var p;
      r, p := Seek(HeadTag);
      if r.Fail? {
        return;
      }
      ghost var t := p;
      p := p + 3 * 4;                                   // version, fontRevision, checkSumAdjustment
      assert p == t + 12;
      var magicNumber := ULongAt(data, p);
      p := p + 4;
      if magicNumber != 0x5F0F3CF5 {
        return Fail(BadMagic);
      }
      p := p + 2;                                       // flags
      assert p == t + 18;
      unitsPerEm := UShortAt(data, p);
      p := p + 2 + 2 * 8;                               // created, modified
      assert p == t + 36;
      xMin := ShortAt(data, p);
      p := p + 2;
      assert p == t + 38;
      yMin := ShortAt(data, p);
      p := p + 2;
      assert p == t + 40;
      xMax := ShortAt(data, p);
      p := p + 2;
      assert p == t + 42;
      yMax := ShortAt(data, p);
    }

    /** hhea() and maxp(): the number of long metrics and of glyphs. */
    method Hhea() returns (r: Outcome)
      modifies this`numberOfHMetrics
      ensures r == Present(tables, HheaTag)
      ensures r.Pass? ==> numberOfHMetrics == UShortAt(data, tables[HheaTag] + 34)
    {
      var p;
      r, p := Seek(HheaTag);
      if r.Fail? {
        return;
      }
      ghost var t := p;
      p := p + 4 + 15 * 2;
      assert p == t + 34;
      numberOfHMetrics := UShortAt(data, p);
    }

    method Maxp() returns (r: Outcome)
      modifies this`numGlyphs
      ensures r == Present(tables, MaxpTag)
      ensures r.Pass? ==> numGlyphs == UShortAt(data, tables[MaxpTag] + 4)
    {
      var p;
      r, p := Seek(MaxpTag);
      if r.Fail? {
        return;
      }
      p := p + 4;
      numGlyphs := UShortAt(data, p);
    }

    /** hmtx(): one advance width per long metric (the left side bearing
        is skipped), then padding to numGlyphs with the last of them. */
    method Hmtx() returns (r: Outcome)
      requires widths == []
      modifies this`widths
      ensures r == Present(tables, HmtxTag)
      ensures r.Pass? ==> HmtxRead()
    {
      var p;
      r, p := Seek(HmtxTag);
      if r.Fail? {
        return;
      }
      ghost var t := p;
      var i := 0;
      while i < numberOfHMetrics
        invariant i <= numberOfHMetrics && p == t + 4 * i
        invariant |widths| == i && forall j :: 0 <= j < i ==> widths[j] == UShortAt(data, t + 4 * j)
      {
        var advanceWidth := UShortAt(data, p);
        p := p + 2 + 2;                                 // lsb
        widths := widths + [advanceWidth];
        i := i + 1;
      }
      if numberOfHMetrics < numGlyphs {
        var lastWidth := if numberOfHMetrics > 0 then widths[numberOfHMetrics - 1] else 0;
        widths := widths + seq(numGlyphs - numberOfHMetrics, _ => lastWidth);
      }
      assert widths == HmtxWidths(data, t, numberOfHMetrics, numGlyphs);
    }

    /** count consecutive unsigned or signed 16-bit numbers from p, as the
        loops of cmap() read its four segment arrays. */
    method ReadUShorts(p: nat, count: nat) returns (vs: seq<nat>, next: nat)
      ensures |vs| == count && next == p + 2 * count
      ensures forall i :: 0 <= i < count ==> vs[i] == UShortAt(data, p + 2 * i)
    {
      vs := [];
      next := p;
      while |vs| < count
        invariant |vs| <= count && next == p + 2 * |vs|
        invariant forall i :: 0 <= i < |vs| ==> vs[i] == UShortAt(data, p + 2 * i)
      {
        vs := vs + [UShortAt(data, next)];
        next := next + 2;
      }
    }

    method ReadShorts(p: nat, count: nat) returns (vs: seq<int>, next: nat)
      ensures |vs| == count && next == p + 2 * count
      ensures forall i :: 0 <= i < count ==> vs[i] == ShortAt(data, p + 2 * i)
    {
      vs := [];
      next := p;
      while |vs| < count
        invariant |vs| <= count && next == p + 2 * |vs|
        invariant forall i :: 0 <= i < |vs| ==> vs[i] == ShortAt(data, p + 2 * i)
      {
        vs := vs + [ShortAt(data, next)];
        next := next + 2;
      }
    }

    /** The codes of one segment, stored into chars; the glyph array, when
        there is one, is read from q onwards. */
    method MapSegment(ghost s: nat, ghost n: nat, ghost i: nat, c1: nat, c2: nat, d: int, ro: nat, q: nat)
      requires c1 == StartCode(data, s, n, i) && c2 == EndCode(data, s, n, i) && d == IdDelta(data, s, n, i)
      requires ro == IdRangeOffset(data, s, n, i) && q == RangeBase(s, n) + 2 * i + ro
      modifies this`chars
      ensures chars == old(chars) + Segment(data, s, n, i)
    {
      assert Segment(data, s, n, i) == SegmentMap(data, c1, c2, d, ro, q);
      MapCodes(c1, c2, d, ro, q);
    }

    /** The inner loop of cmap() over the codes c1..c2 of one segment. */
    method MapCodes(c1: nat, c2: nat, d: int, ro: nat, q: nat)
      requires c2 < 0x1_0000
      modifies this`chars
      ensures chars == old(chars) + SegmentMap(data, c1, c2, d, ro, q)
    {
      var p := 0;
      if ro > 0 {
        p := q;
      }
      var c := c1;
      while c <= c2
        invariant c1 <= c && (ro > 0 ==> p == q + 2 * (c - c1))
        invariant chars == old(chars) + SegmentUpTo(data, c1, c2, d, ro, q, c)
        decreases c2 + 1 - c
      {
        if c == 0xFFFF {
          break;
        }
        var gid: int;
        if ro > 0 {
          gid := UShortAt(data, p);
          p := p + 2;
          if gid > 0 {
            gid := gid + d;
          }
        } else {
          gid := c + d;
        }
        if gid >= 0x1_0000 {
          gid := gid - 0x1_0000;
        }
        assert gid == Glyph(data, c1, d, ro, q, c);
        SegmentStep(old(chars), data, c1, c2, d, ro, q, c);
        if gid > 0 {
          chars := chars[c := gid];
        }
        c := c + 1;
      }
      assert SegmentUpTo(data, c1, c2, d, ro, q, c) == SegmentMap(data, c1, c2, d, ro, q);
    }

    /** cmap(): the last platform 3 / encoding 1 subtable, which must be in
        format 4, read segment by segment. */
    method Cmap() returns (r: Outcome)
      requires chars == map[]
      modifies this`chars
      ensures r == CmapOutcome(data, tables)
      ensures r.Pass? ==> CmapRead()
    {
      var p;
      r, p := Seek(CmapTag);
      if r.Fail? {
        return;
      }
      var t := p;
      p := p + 2;                                       // version
      assert p == t + 2;
      var numTables := UShortAt(data, p);
      p := p + 2;
      var offset31 := 0;
      var i := 0;
      while i < numTables
        invariant i <= numTables && p == t + 4 + 8 * i
        invariant offset31 == UnicodeSubtable(data, t + 4, i)
      {
        var platformID := UShortAt(data, p);
        var encodingID := UShortAt(data, p + 2);
        var offset := ULongAt(data, p + 4);
        p := p + 8;
        if platformID == 3 && encodingID == 1 {
          offset31 := offset;
        }
        i := i + 1;
      }
      if offset31 == 0 {
        return Fail(NoUnicode);
      }
      r := Format4(t + offset31);
    }

    /** The format 4 subtable at s: its four segment arrays, then each
        segment in turn. */
    method Format4(s: nat) returns (r: Outcome)
      requires chars == map[]
      modifies this`chars
      ensures r.Pass? <==> UShortAt(data, s) == 4
      ensures r.Fail? ==> r.msg == BadFormat + NatText(UShortAt(data, s))
      ensures r.Pass? ==> chars == SegmentsMap(data, s, SegCount(data, s), SegCount(data, s))
    {
      var format := UShortAt(data, s);
      if format != 4 {
        return Fail(BadFormat + NatText(format));
      }
      var p := s + 2 + 2 * 2;                           // length, language
      assert p == s + 6;
      // $segCount = segCountX2 / 2 is a float when segCountX2 is odd, and
      // the loops run while $i < $segCount
      var segCount := (UShortAt(data, p) + 1) / 2;
      var n := segCount;
      assert n == SegCount(data, s);
      p := p + 2 + 3 * 2;                               // searchRange, entrySelector, rangeShift
      assert p == s + 14;
      var endCount, startCount, idDelta, idRangeOffset;
      endCount, p := ReadUShorts(p, n);
      p := p + 2;                                       // reservedPad
      assert p == s + 16 + 2 * n;
      startCount, p := ReadUShorts(p, n);
      assert p == s + 16 + 2 * n + 2 * n;
      idDelta, p := ReadShorts(p, n);
      assert p == RangeBase(s, n);
      idRangeOffset, p := ReadUShorts(p, n);
      MapSegments(s, n, startCount, endCount, idDelta, idRangeOffset);
      r := Pass;
    }

    /** The loop of cmap() over the segments, given the four arrays; the
        glyph arrays are addressed from the start of idRangeOffset. */
    method MapSegments(s: nat, n: nat, startCount: seq<nat>, endCount: seq<nat>, idDelta: seq<int>, idRangeOffset: seq<nat>)
      requires chars == map[]
      requires |startCount| == n && |endCount| == n && |idDelta| == n && |idRangeOffset| == n
      requires forall i :: 0 <= i < n ==> startCount[i] == StartCode(data, s, n, i) && endCount[i] == EndCode(data, s, n, i)
      requires forall i :: 0 <= i < n ==> idDelta[i] == IdDelta(data, s, n, i) && idRangeOffset[i] == IdRangeOffset(data, s, n, i)
      modifies this`chars
      ensures chars == SegmentsMap(data, s, n, n)
    {
      var offset := RangeBase(s, n);
      var i := 0;
      while i < n
        invariant i <= n
        invariant chars == SegmentsMap(data, s, n, i)
      {
        var ro := idRangeOffset[i];
        MapSegment(s, n, i, startCount[i], endCount[i], idDelta[i], ro, offset + 2 * i + ro);
        i := i + 1;
      }
    }

    /** name(): the PostScript name, which must not be empty. */
    method Name() returns (r: Outcome)
      modifies this`postScriptName
      ensures r == NameOutcome(data, tables)
      ensures NameTag in tables ==> NameRead()
    {
      var p;
      r, p := Seek(NameTag);
      if r.Fail? {
        return;
      }
      var t := p;
      p := p + 2;                                       // format
      assert p == t + 2;
      var count := UShortAt(data, p);
      p := p + 2;
      assert p == t + 4;
      var stringOffset := UShortAt(data, p);
      postScriptName := FindPostScriptName(t, count, stringOffset);
      if postScriptName == [] {
        r := Fail(NoPostScriptName);
      }
    }

    /** The loop of name() over the name records of the table at
        tableOffset, up to the first one with name ID 6. */
    method FindPostScriptName(tableOffset: nat, count: nat, stringOffset: nat) returns (name: Bytes)
      requires count == UShortAt(data, tableOffset + 2) && stringOffset == UShortAt(data, tableOffset + 4)
      ensures name == PostScriptName(data, tableOffset)
    {
      name := [];
      var p := tableOffset + 6;
      var i := 0;
      while i < count
        invariant i <= count && p == tableOffset + 6 + 12 * i && name == []
        invariant PostScriptRecord(data, tableOffset, count, 0) == PostScriptRecord(data, tableOffset, count, i)
      {
        var found;
        found, name := NameRecord(tableOffset, stringOffset, i, p);
        if found {
          PostScriptNameAt(data, tableOffset, i);
          break;
        }
        PostScriptRecordNext(data, tableOffset, count, i);
        p := p + 12;
        i := i + 1;
      }
    }

    /** One iteration of that loop: the record at p, which is record i,
        has name ID 6, and then the name is its cleaned string. */
    method NameRecord(tableOffset: nat, stringOffset: nat, i: nat, p: nat) returns (found: bool, name: Bytes)
      requires stringOffset == UShortAt(data, tableOffset + 4) && p == tableOffset + 6 + 12 * i
      ensures found <==> UShortAt(data, tableOffset + 12 + 12 * i) == 6
      ensures found ==> name == StripDelimiters(RemoveByte(NameString(data, tableOffset, i), '\0'))
      ensures !found ==> name == []
    {
      var q := p + 3 * 2;                               // platformID, encodingID, languageID
      assert q == tableOffset + 12 + 12 * i;
      var nameID := UShortAt(data, q);
      q := q + 2;
      assert q == tableOffset + 14 + 12 * i;
      var length := UShortAt(data, q);
      q := q + 2;
      assert q == tableOffset + 16 + 12 * i;
      var offset := UShortAt(data, q);
      q := q + 2;
      name := [];
      found := nameID == 6;
      if found {
        q := tableOffset + stringOffset + offset;
        var s := BytesAt(data, q, length);
        s := RemoveByte(s, '\0');
        s := StripDelimiters(s);
        name := s;
      }
    }

    /** os2(): the embedding and weight flags and the vertical metrics. */
    method Os2() returns (r: Outcome)
      modifies this`embeddable, this`bold, this`typoAscender, this`typoDescender, this`capHeight
      ensures r == Present(tables, Os2Tag)
      ensures r.Pass? ==> Os2Read()
    {
      var p;
      r, p := Seek(Os2Tag);
      if r.Fail? {
        return;
      }
      ghost var t := p;
      var version := UShortAt(data, p);
      p := p + 2 + 3 * 2;                               // xAvgCharWidth, usWeightClass, usWidthClass
      assert p == t + 8;
      var fsType := UShortAt(data, p);
      embeddable := fsType != 2 && !Bit(fsType, 0x200);
      p := p + 2 + (11 * 2 + 10 + 4 * 4 + 4);
      assert p == t + 62;
      var fsSelection := UShortAt(data, p);
      bold := Bit(fsSelection, 32);
      p := p + 2 + 2 * 2;                               // usFirstCharIndex, usLastCharIndex
      assert p == t + 68;
      typoAscender := ShortAt(data, p);
      p := p + 2;
      assert p == t + 70;
      typoDescender := ShortAt(data, p);
      p := p + 2;
      if version >= 2 {
        p := p + 3 * 2 + 2 * 4 + 2;
        assert p == t + 88;
        capHeight := ShortAt(data, p);
      } else {
        capHeight := 0;
      }
    }

    /** post(): the italic angle, the underline and the fixed pitch flag. */
    method Post() returns (r: Outcome)
      modifies this`italicAngle, this`underlinePosition, this`underlineThickness, this`isFixedPitch
      ensures r == Present(tables, PostTag)
      ensures r.Pass? ==> PostRead()
    {
      var p;
      r, p := Seek(PostTag);
      if r.Fail? {
        return;
      }
      ghost var t := p;
      p := p + 4;                                       // version
      assert p == t + 4;
      italicAngle := ShortAt(data, p);
      p := p + 2 + 2;                                   // decimal part
      assert p == t + 8;
      underlinePosition := ShortAt(data, p);
      p := p + 2;
      assert p == t + 10;
      underlineThickness := ShortAt(data, p);
      p := p + 2;
      assert p == t + 12;
      isFixedPitch := ULongAt(data, p) != 0;
    }
  }
}
