/**
 * The font compiler (class MakeFont of src/Fpdf/MakeFont.php). It reads an
 * encoding map, takes the metrics and glyph widths of a TrueType or Type1
 * font, and produces the font definition that FPDF's addFont() loads: the
 * descriptor, the 256-entry width array, the encoding differences and the
 * embedded font file.
 */
module FontCompiler {
  import opened Common
  import opened PdfText
  import opened TrueType

  // ------------------------------------------------------------ messages

  const FontNotFound: Bytes := "Font file not found: "
  const EncodingNotFound: Bytes := "Encoding not found: "
  const UnrecognizedExtension: Bytes := "Unrecognized font file " + "extension: "
  const NoEmbedding: Bytes := "Font license does not " + "allow embedding"
  const DivisionByZero: Bytes := "Division by zero"
  const NotType1: Bytes := "Font file is not a " + "valid binary Type1"
  const AfmNotFound: Bytes := "AFM font file not found: "
  const AfmEmpty: Bytes := "AFM file empty or " + "not readable"
  const FontNameMissing: Bytes := "FontName missing in AFM file"
  const Compressed: Bytes := "Font file compressed: "
  const NotCompressed: Bytes := "Font file could not be compressed " + "(zlib extension not available)\n"
  const Generated: Bytes := "Font definition file " + "generated: "

  const Blank: Bytes := " "
  const Slash: Bytes := "/"
  const CloseParen: Bytes := ")"
  const CharacterWord: Bytes := "Character "
  const IsMissing: Bytes := " is missing"

  function CharMissing(name: Bytes): Bytes
  {
    CharacterWord + name + IsMissing
  }

  /** An error as the outcome of a step that computes a value. */
  function Status<T>(r: Result<T>): Outcome
  {
    if r.Ok? then Pass else Fail(r.msg)
  }

  // -------------------------------------------------------- encoding maps

  /** One code of an encoding: its Unicode value and its glyph name. */
  datatype MapEntry = MapEntry(uv: int, name: Bytes)

  const NotDef: Bytes := ".notdef"

  /** A code no line of the map file names. */
  const Unmapped: MapEntry := MapEntry(-1, NotDef)

  /** An encoding: one entry for each of the 256 codes. */
  type FontMap = m: seq<MapEntry> | |m| == 256 witness seq(256, _ => MapEntry(-1, ".notdef"))

  /** $e[k] of an explode() result; a missing part is null, which reads as "". */
  function Field(e: seq<Bytes>, k: nat): Bytes
  {
    if k < |e| then e[k] else []
  }

  /** substr($s, $n) for n >= 0: "" when s is not longer than n. */
  function Drop(s: Bytes, n: nat): Bytes
  {
    if |s| <= n then [] else s[n..]
  }

  /** What loadMap() takes from one line "!hh U+hhhh name": the code the
      line names and the entry it gives that code. */
  function MapLine(line: Bytes): (nat, MapEntry)
  {
    var e := Explode(' ', RTrim(line));
    (HexDec(Drop(Field(e, 0), 1)), MapEntry(HexDec(Drop(Field(e, 1), 2)), Field(e, 2)))
  }

  /** The map after the first k lines: each line overwrites the entry at
      its code. A code past 255 adds a key that no part of the compiler
      reads, so it is not kept. */
  function MapOf(lines: seq<Bytes>, k: nat): FontMap
    requires k <= |lines|
  {
    if k == 0 then seq(256, _ => Unmapped) else MapStep(MapOf(lines, k - 1), lines[k - 1])
  }

  /** One line of loadMap(): the line's code takes the line's entry. */
  function MapStep(m: FontMap, line: Bytes): (r: FontMap)
    ensures MapLine(line).0 < 256 ==> r == m[MapLine(line).0 := MapLine(line).1]
    ensures MapLine(line).0 >= 256 ==> r == m
  {
    var (c, entry) := MapLine(line);
    if c < 256 then m[c := entry] else m
  }

  /** The last of the first k lines that names code c. */
  function LastLine(lines: seq<Bytes>, k: nat, c: nat): (r: Option<nat>)
    requires k <= |lines|
    ensures r.Some? ==> r.value < k && MapLine(lines[r.value]).0 == c
    ensures r.Some? ==> forall j :: r.value < j < k ==> MapLine(lines[j]).0 != c
    ensures r.None? ==> forall j :: 0 <= j < k ==> MapLine(lines[j]).0 != c
  {
    if k == 0 then None
    else if MapLine(lines[k - 1]).0 == c then Some(k - 1)
    else LastLine(lines, k - 1, c)
  }

  /** Every code holds the entry of the last line that names it, and the
      default (no Unicode value, glyph .notdef) when no line does. */
  lemma {:induction false} MapOfAt(lines: seq<Bytes>, k: nat, c: nat)
    requires k <= |lines| && c < 256
    ensures LastLine(lines, k, c).None? ==> MapOf(lines, k)[c] == Unmapped
    ensures LastLine(lines, k, c).Some? ==> MapOf(lines, k)[c] == MapLine(lines[LastLine(lines, k, c).value]).1
  {
    if k > 0 {
      MapOfAt(lines, k - 1, c);
    }
  }

  const Bang: Bytes := "!"
  const UPlus: Bytes := "U+"

  /** A map file line "!hh U+hhhh name" followed by a newline. */
  function MapFileLine(h: Bytes, u: Bytes, name: Bytes): Bytes
  {
    (Bang + h) + [' '] + ((UPlus + u) + [' '] + name) + ['\n']
  }

  /** A well-formed map file line gives code hh the Unicode value hhhh and
      the glyph name. */
  lemma MapLineReads(h: Bytes, u: Bytes, name: Bytes)
    requires ' ' !in h && ' ' !in u && ' ' !in name
    requires name != [] && !IsTrimmed(name[|name| - 1])
    ensures MapLine(MapFileLine(h, u, name)) == (HexDec(h), MapEntry(HexDec(u), name))
  {
    var a, b := Bang + h, UPlus + u;
    var body := a + [' '] + (b + [' '] + name);
    var line := MapFileLine(h, u, name);
    assert line[..|line| - 1] == body;
    assert RTrim(body) == body;
    assert ' ' !in a && ' ' !in b;
    ExplodeWhole(' ', name);
    ExplodeCons(' ', b, name);
    ExplodeCons(' ', a, b + [' '] + name);
    assert a[1..] == h && b[2..] == u;
  }

  // ---------------------------------------------------------- width tables

  /** Whether code c needs a glyph width: its glyph name is not .notdef. */
  predicate Named(m: FontMap, c: nat)
    requires c < 256
  {
    m[c].name != NotDef
  }

  /** The first of codes 0..k-1 that needs a width the font does not
      have; look[c] is the width the font gives code c, if any. */
  function Missing(m: FontMap, look: seq<Option<int>>, k: nat): (r: Option<nat>)
    requires |look| == 256 && k <= 256
    ensures r.Some? ==> r.value < k && Named(m, r.value) && look[r.value].None?
    ensures r.Some? ==> forall j :: 0 <= j < r.value && Named(m, j) ==> look[j].Some?
    ensures r.None? <==> forall j :: 0 <= j < k && Named(m, j) ==> look[j].Some?
  {
    if k == 0 then None
    else
      var before := Missing(m, look, k - 1);
      if before.Some? then before
      else if Named(m, k - 1) && look[k - 1].None? then Some(k - 1)
      else None
  }

  /** The width a complete table gives code c. */
  function WidthOf(m: FontMap, look: seq<Option<int>>, mw: int, c: nat): int
    requires |look| == 256 && c < 256
  {
    if Named(m, c) && look[c].Some? then look[c].value else mw
  }

  /** The width table of getTrueTypeInfo() and getType1Info(): every code
      starts at MissingWidth mw, and every code with a glyph name takes
      the width of that glyph, or the build fails naming the first
      glyph the font lacks. */
  function Widths(m: FontMap, look: seq<Option<int>>, mw: int): (r: Result<WidthTable>)
    requires |look| == 256
    ensures r.Ok? <==> forall c :: 0 <= c < 256 && Named(m, c) ==> look[c].Some?
    ensures r.Ok? ==> forall c :: 0 <= c < 256 ==> r.value[c] == (if Named(m, c) then look[c].value else mw)
    ensures r.Err? ==> Missing(m, look, 256).Some? && r.msg == CharMissing(m[Missing(m, look, 256).value].name)
  {
    match Missing(m, look, 256)
    case Some(c) => Err(CharMissing(m[c].name))
    case None =>
      var ws: WidthTable := seq(256, c requires 0 <= c < 256 => WidthOf(m, look, mw, c));
      Ok(ws)
  }

  /** A missing glyph found among the first k codes is the one the whole
      table reports. */
  lemma MissingFirst(m: FontMap, look: seq<Option<int>>, k: nat)
    requires |look| == 256 && k <= 256 && Missing(m, look, k).Some?
    ensures Missing(m, look, 256) == Missing(m, look, k)
  {
  }

  // ------------------------------------------------------------- metrics

  /** The font bounding box: xMin, yMin, xMax, yMax. */
  type Box = (int, int, int, int)

  /** The entries descriptor() reads. A Type1 font gives only what its
      AFM file has (None: the key is unset and reads as null). */
  datatype Metrics = Metrics(ascender: Option<int>, descender: Option<int>, capHeight: Option<int>,
                             fixed: bool, bbox: Option<Box>, italicAngle: Option<int>,
                             stdVW: Option<int>, bold: bool, missingWidth: int)

  /** The font program kept for embedding. */
  datatype Embedded = NotEmbedded
                    | TrueTypeData(data: Bytes, originalSize: nat)
                    | Type1Data(data: Bytes, size1: nat, size2: nat)

  /** $this->fontInfo once a font has been read. */
  datatype FontInfo = FontInfo(name: Bytes, metrics: Metrics, up: Option<int>, ut: Option<int>,
                               widths: WidthTable, embedded: Embedded)

  const NoMetrics: Metrics := Metrics(None, None, None, false, None, None, None, false, 0)
  const NoInfo: FontInfo := FontInfo([], NoMetrics, None, None, seq(256, _ => 0), NotEmbedded)

  // ----------------------------------------------------------- descriptor

  /** A number as PHP's string conversion writes it; null writes nothing. */
  function Num(v: Option<int>): Bytes
  {
    if v.Some? then IntText(v.value) else []
  }

  /** ItalicAngle != 0; an unset angle is null, which equals 0. */
  predicate Italic(m: Metrics)
  {
    m.italicAngle.Some? && m.italicAngle.value != 0
  }

  /** The font descriptor flags (section 9.8.2 of ISO 32000-1): bit 1
      FixedPitch when the font is fixed-pitch, bit 6 Nonsymbolic always,
      bit 7 Italic when the italic angle is not 0, and no other bit. */
  function Flags(m: Metrics): (r: nat)
    ensures r % 2 == 1 <==> m.fixed
    ensures (r / 2) % 16 == 0
    ensures (r / 32) % 2 == 1
    ensures (r / 64) % 2 == 1 <==> Italic(m)
    ensures r < 128
  {
    (if m.fixed then 1 else 0) + 32 + (if Italic(m) then 64 else 0)
  }

  /** StemV: StdVW when the font gives it, otherwise 120 for a bold font
      and 70 for any other. */
  function StemV(m: Metrics): (r: int)
    ensures m.stdVW.Some? ==> r == m.stdVW.value
    ensures m.stdVW.None? ==> (r == 120 <==> m.bold) && (r == 70 <==> !m.bold)
  {
    if m.stdVW.Some? then m.stdVW.value else if m.bold then 120 else 70
  }

  /** CapHeight: the font's own when it is set and not 0, otherwise the
      ascender, so it is 0 or null only when the ascender is. */
  function CapHeight(m: Metrics): (r: Option<int>)
    ensures m.capHeight.Some? && m.capHeight.value != 0 ==> r == m.capHeight
    ensures r != m.capHeight ==> r == m.ascender
    ensures r == Some(0) ==> m.ascender == Some(0)
    ensures r.None? ==> m.ascender.None?
  {
    if m.capHeight.Some? && m.capHeight.value != 0 then m.capHeight else m.ascender
  }

  function BoxText(b: Option<Box>): Bytes
  {
    if b.None? then Blank + Blank + Blank
    else IntText(b.value.0) + (Blank + (IntText(b.value.1) + (Blank + (IntText(b.value.2) + (Blank + IntText(b.value.3))))))
  }

  const AscentKey: Bytes := "array('Ascent' => "
  const DescentKey: Bytes := ", 'Descent' => "
  const CapHeightKey: Bytes := ", 'CapHeight' => "
  const FlagsKey: Bytes := ", 'Flags' => "
  const BoxKey: Bytes := ", 'FontBBox' => '["
  const ItalicKey: Bytes := "]', 'ItalicAngle' => "
  const StemVKey: Bytes := ", 'StemV' => "
  const MissingKey: Bytes := ", 'MissingWidth' => "

  /** The text of descriptor(): a PHP array of Ascent, Descent,
      CapHeight, Flags, FontBBox, ItalicAngle, StemV and MissingWidth. */
  function Descriptor(m: Metrics): (r: Bytes)
    ensures |r| > |AscentKey| && r[..|AscentKey|] == AscentKey && r[|r| - 1] == ')'
  {
    var fields: Bytes := Num(m.ascender) + (DescentKey + (Num(m.descender) + (CapHeightKey + (Num(CapHeight(m))
      + (FlagsKey + (NatText(Flags(m)) + (BoxKey + (BoxText(m.bbox) + (ItalicKey + (Num(m.italicAngle)
      + (StemVKey + (IntText(StemV(m)) + (MissingKey + IntText(m.missingWidth))))))))))))));
    AscentKey + fields + CloseParen
  }

  // ---------------------------------------------------------- width array

  /** The PHP key makeWidthArray() writes for code c: ' and \ escaped in
      quotes, the other printable codes 32..126 as quoted literals, and
      every other code as chr(c). */
  function Key(c: nat): (r: Bytes)
    requires c < 256
    ensures 32 <= c <= 126 ==> |r| >= 3 && r[0] == '\'' && r[|r| - 1] == '\''
    ensures !(32 <= c <= 126) ==> |r| > 5 && r[..4] == "chr("
  {
    if c == 39 then "'\\''"
    else if c == 92 then "'\\\\'"
    else if 32 <= c <= 126 then ['\'', Chr(c), '\'']
    else "chr(" + NatText(c) + ")"
  }

  /** The code a key written as above stands for when PHP reads it back. */
  function KeyCode(k: Bytes): Option<nat>
  {
    if k == "'\\''" then Some(39)
    else if k == "'\\\\'" then Some(92)
    else if |k| == 3 && k[0] == '\'' && k[2] == '\'' && k[1] != '\'' && k[1] != '\\' then Some(k[1] as nat)
    else if |k| > 5 && k[..4] == "chr(" && k[|k| - 1] == ')' && AllDigits(k[4..|k| - 1]) then
      Some(DigitsValue(k[4..|k| - 1]))
    else None
  }

  /** Every key reads back as its own code, so the 256 keys are distinct. */
  lemma KeyRoundTrip(c: nat)
    requires c < 256
    ensures KeyCode(Key(c)) == Some(c)
  {
    if !(32 <= c <= 126) {
      var k := Key(c);
      assert k[4..|k| - 1] == NatText(c);
      NatTextRoundTrip(c);
    }
  }

  const Arrow: Bytes := " => "
  const Separator: Bytes := ", "
  const RowBreak: Bytes := "\n\t\t"
  const ArrayOpen: Bytes := "array(\n\t\t"
  const ArrayClose: Bytes := "\n\t)"

  /** The text of one entry: key, width, a separator after every code but
      255, and a line break after every 22nd code. */
  function Entry(c: nat, w: int): Bytes
    requires c < 256
  {
    Key(c) + (Arrow + (IntText(w) + ((if c < 255 then Separator else []) + (if (c + 1) % 22 == 0 then RowBreak else []))))
  }

  /** The loop of makeWidthArray(): the entries of codes c..255 appended to s. */
  function WidthLoop(ws: WidthTable, c: nat, s: Bytes): Bytes
    requires c <= 256
    decreases 256 - c
  {
    if c == 256 then s else WidthLoop(ws, c + 1, s + Entry(c, ws[c]))
  }

  /** makeWidthArray(). */
  function WidthArray(ws: WidthTable): Bytes
  {
    WidthLoop(ws, 0, ArrayOpen) + ArrayClose
  }

  /** The entries of codes c..255, in code order. */
  function EntriesFrom(ws: WidthTable, c: nat): Bytes
    requires c <= 256
    decreases 256 - c
  {
    if c == 256 then [] else Entry(c, ws[c]) + EntriesFrom(ws, c + 1)
  }

  lemma {:induction false} WidthLoopEntries(ws: WidthTable, c: nat, s: Bytes)
    requires c <= 256
    ensures WidthLoop(ws, c, s) == s + EntriesFrom(ws, c)
    decreases 256 - c
  {
    if c < 256 {
      var e := Entry(c, ws[c]);
      WidthLoopEntries(ws, c + 1, s + e);
      Assoc(s, e, EntriesFrom(ws, c + 1));
    }
  }

  /** The width array holds the 256 entries in code order between the
      array's opening and closing. */
  lemma WidthArrayEntries(ws: WidthTable)
    ensures WidthArray(ws) == ArrayOpen + EntriesFrom(ws, 0) + ArrayClose
  {
    WidthLoopEntries(ws, 0, ArrayOpen);
  }

  /** The value after the arrow of each entry reads back as the width. */
  lemma EntryWidth(c: nat, w: int)
    requires c < 256 && w >= 0
    ensures var r := Entry(c, w); var v := r[|Key(c)| + 4..]; DigitsValue(LeadingDigits(v)) == w
  {
    var r := Entry(c, w);
    var tail := (if c < 255 then Separator else []) + (if (c + 1) % 22 == 0 then RowBreak else []);
    assert r[|Key(c)| + 4..] == NatText(w) + tail;
    LeadingDigitsOf(NatText(w), tail);
    NatTextRoundTrip(w);
  }

  /** The leading digits of a number followed by a non-digit are the number. */
  lemma {:induction false} LeadingDigitsOf(d: Bytes, t: Bytes)
    requires AllDigits(d) && (t == [] || !IsDigit(t[0]))
    ensures LeadingDigits(d + t) == d
    decreases |d|
  {
    if d != [] {
      assert (d + t)[1..] == d[1..] + t;
      LeadingDigitsOf(d[1..], t);
      assert [d[0]] + d[1..] == d;
    } else {
      assert d + t == t;
    }
  }

  // ----------------------------------------------------------- differences

  /** The loop of encoding(): the codes c..255 whose glyph name differs
      from the reference map, each as "/name ", preceded by "c " unless it
      directly follows the previous differing code `last`. */
  function DiffLoop(m: FontMap, ref: FontMap, c: nat, last: nat, s: Bytes): Bytes
    requires c <= 256
    decreases 256 - c
  {
    if c == 256 then s
    else if m[c].name != ref[c].name then
      var num := if c != last + 1 then NatText(c) + Blank else [];
      DiffLoop(m, ref, c + 1, c, s + num + Slash + m[c].name + Blank)
    else DiffLoop(m, ref, c + 1, last, s)
  }

  /** encoding(): the differences of codes 32..255 from the reference
      encoding, without the trailing blank. */
  function Encoding(m: FontMap, ref: FontMap): Bytes
  {
    RTrim(DiffLoop(m, ref, 32, 0, []))
  }

  /** The words encoding() writes for codes c..255. */
  function DiffWords(m: FontMap, ref: FontMap, c: nat, last: nat): seq<Bytes>
    requires c <= 256
    decreases 256 - c
  {
    if c == 256 then []
    else if m[c].name != ref[c].name then
      (if c != last + 1 then [NatText(c)] else []) + [Slash + m[c].name] + DiffWords(m, ref, c + 1, c)
    else DiffWords(m, ref, c + 1, last)
  }

  /** Words each followed by a blank. */
  function Spaced(ws: seq<Bytes>): Bytes
  {
    if ws == [] then [] else ws[0] + Blank + Spaced(ws[1..])
  }

  lemma SpacedCons(w: Bytes, ws: seq<Bytes>)
    ensures Spaced([w] + ws) == w + Blank + Spaced(ws)
  {
    assert ([w] + ws)[1..] == ws;
  }

  /** The optional number and one name, spaced, continue the spaced
      words. */
  lemma AppendSpaced(s: Bytes, pre: seq<Bytes>, name: Bytes, rest: seq<Bytes>)
    requires |pre| <= 1
    ensures s + Spaced(pre) + name + Blank + Spaced(rest) == s + Spaced(pre + [name] + rest)
  {
    SpacedCons(name, rest);
    if pre == [] {
      assert pre + [name] + rest == [name] + rest;
    } else {
      assert pre + [name] + rest == [pre[0]] + ([name] + rest);
      SpacedCons(pre[0], [name] + rest);
      assert Spaced(pre) == pre[0] + Blank by {
        SpacedCons(pre[0], []);
        assert [pre[0]] + [] == pre;
      }
    }
  }

  lemma {:induction false} DiffLoopWords(m: FontMap, ref: FontMap, c: nat, last: nat, s: Bytes)
    requires c <= 256
    ensures DiffLoop(m, ref, c, last, s) == s + Spaced(DiffWords(m, ref, c, last))
    decreases 256 - c
  {
    if c < 256 {
      if m[c].name != ref[c].name {
        var name := Slash + m[c].name;
        var rest := DiffWords(m, ref, c + 1, c);
        var pre := if c != last + 1 then [NatText(c)] else [];
        var num := if c != last + 1 then NatText(c) + Blank else [];
        assert DiffWords(m, ref, c, last) == pre + [name] + rest;
        Assoc(s + num, Slash, m[c].name);
        DiffLoopWords(m, ref, c + 1, c, s + num + name + Blank);
        assert num == Spaced(pre) by {
          if pre != [] {
            assert pre[1..] == [];
          }
        }
        AppendSpaced(s, pre, name, rest);
      } else {
        DiffLoopWords(m, ref, c + 1, last, s);
      }
    }
  }

  /** How a PDF reader applies a Differences array (section 9.6.6.1 of
      ISO 32000-1): a number sets the code of the next name, and each
      name takes the current code and moves on to the next one. Empty
      words, between two blanks, are skipped. */
  function Apply(ws: seq<Bytes>, code: int): seq<(int, Bytes)>
  {
    if ws == [] then []
    else if ws[0] != [] && ws[0][0] == '/' then [(code, ws[0][1..])] + Apply(ws[1..], code + 1)
    else if ws[0] != [] && AllDigits(ws[0]) then Apply(ws[1..], DigitsValue(ws[0]))
    else Apply(ws[1..], code)
  }

  /** The (code, glyph name) pairs a differences string assigns. */
  function Differences(s: Bytes): seq<(int, Bytes)>
  {
    Apply(Explode(' ', s), 0)
  }

  /** The codes c..255 whose glyph name differs from the reference, with
      their names, in code order. */
  function Differing(m: FontMap, ref: FontMap, c: nat): seq<(int, Bytes)>
    requires c <= 256
    decreases 256 - c
  {
    if c == 256 then []
    else if m[c].name != ref[c].name then [(c, m[c].name)] + Differing(m, ref, c + 1)
    else Differing(m, ref, c + 1)
  }

  /** The words assign exactly the differing codes their names; `code` is
      the code a name would take if no number preceded it. */
  lemma {:induction false} DiffWordsApply(m: FontMap, ref: FontMap, c: nat, last: nat, code: int)
    requires c <= 256 && (code == last + 1 || last + 1 < c)
    ensures Apply(DiffWords(m, ref, c, last), code) == Differing(m, ref, c)
    decreases 256 - c
  {
    if c < 256 {
      if m[c].name != ref[c].name {
        var name := Slash + m[c].name;
        var rest := DiffWords(m, ref, c + 1, c);
        DiffWordsApply(m, ref, c + 1, c, c + 1);
        assert name[1..] == m[c].name;
        assert Apply([name] + rest, c) == [(c, m[c].name)] + Apply(rest, c + 1) by {
          assert ([name] + rest)[1..] == rest;
        }
        if c != last + 1 {
          var ws := [NatText(c)] + [name] + rest;
          assert ws[1..] == [name] + rest;
          NatTextRoundTrip(c);
        } else {
          assert [] + [name] + rest == [name] + rest;
        }
      } else {
        DiffWordsApply(m, ref, c + 1, last, code);
      }
    }
  }

  /** Glyph names as map files give them: no blank, and not ending in a
      byte rtrim() strips. */
  predicate NamesPlain(m: FontMap)
  {
    forall c :: 0 <= c < 256 ==> ' ' !in m[c].name && (m[c].name == [] || !IsTrimmed(m[c].name[|m[c].name| - 1]))
  }

  /** The words have no blank, and the last one ends in a byte rtrim()
      keeps. */
  lemma {:induction false} DiffWordsPlain(m: FontMap, ref: FontMap, c: nat, last: nat)
    requires c <= 256 && NamesPlain(m)
    ensures var ws := DiffWords(m, ref, c, last); forall k :: 0 <= k < |ws| ==> ' ' !in ws[k]
    ensures var ws := DiffWords(m, ref, c, last); ws != [] ==> ws[|ws| - 1] != [] && !IsTrimmed(ws[|ws| - 1][|ws[|ws| - 1]| - 1])
    decreases 256 - c
  {
    if c < 256 {
      if m[c].name != ref[c].name {
        DiffWordsPlain(m, ref, c + 1, c);
        var name := Slash + m[c].name;
        assert ' ' !in name;
        assert !IsTrimmed(name[|name| - 1]);
      } else {
        DiffWordsPlain(m, ref, c + 1, last);
      }
    }
  }

  /** Words without blanks, each followed by a blank, explode back into
      the words and one empty word. */
  lemma {:induction false} ExplodeSpaced(ws: seq<Bytes>)
    requires forall k :: 0 <= k < |ws| ==> ' ' !in ws[k]
    ensures Explode(' ', Spaced(ws)) == ws + [[]]
    decreases |ws|
  {
    if ws != [] {
      ExplodeSpaced(ws[1..]);
      ExplodeCons(' ', ws[0], Spaced(ws[1..]));
      assert [ws[0]] + ws[1..] == ws;
    }
  }

  /** Spaced words end in a blank after the last word's last byte. */
  lemma {:induction false} SpacedEnd(ws: seq<Bytes>)
    requires ws != [] && ws[|ws| - 1] != []
    ensures var t := Spaced(ws); |t| >= 2 && t[|t| - 1] == ' ' && t[|t| - 2] == ws[|ws| - 1][|ws[|ws| - 1]| - 1]
    decreases |ws|
  {
    if |ws| > 1 {
      SpacedEnd(ws[1..]);
    }
  }

  /** Trimming the blank after the last word and exploding gives back
      the words. */
  lemma TrimmedWords(ws: seq<Bytes>)
    requires ws != [] && forall k :: 0 <= k < |ws| ==> ' ' !in ws[k]
    requires ws[|ws| - 1] != [] && !IsTrimmed(ws[|ws| - 1][|ws[|ws| - 1]| - 1])
    ensures Explode(' ', RTrim(Spaced(ws))) == ws
  {
    var t := Spaced(ws);
    ExplodeSpaced(ws);
    SpacedEnd(ws);
    var x := t[..|t| - 1];
    assert x + [' '] == t;
    assert RTrim(x) == x;
    ExplodeSnoc(' ', x);
    SnocCancel(Explode(' ', x), ws, []);
  }

  /** The differences string assigns exactly the codes 32..255 whose glyph
      name differs from the reference encoding, with their names. */
  lemma EncodingDecodes(m: FontMap, ref: FontMap)
    requires NamesPlain(m)
    ensures Differences(Encoding(m, ref)) == Differing(m, ref, 32)
  {
    var ws := DiffWords(m, ref, 32, 0);
    DiffLoopWords(m, ref, 32, 0, []);
    assert [] + Spaced(ws) == Spaced(ws);
    assert Encoding(m, ref) == RTrim(Spaced(ws));
    DiffWordsApply(m, ref, 32, 0, 0);
    if ws != [] {
      DiffWordsPlain(m, ref, 32, 0);
      TrimmedWords(ws);
    }
  }

  /** Without a differing code the loop adds nothing. */
  lemma {:induction false} DiffLoopSame(m: FontMap, ref: FontMap, c: nat, last: nat, s: Bytes)
    requires c <= 256 && forall j :: c <= j < 256 ==> m[j].name == ref[j].name
    ensures DiffLoop(m, ref, c, last, s) == s
    decreases 256 - c
  {
    if c < 256 {
      DiffLoopSame(m, ref, c + 1, last, s);
    }
  }

  /** With a differing code the first word starts with a digit or '/'. */
  lemma {:induction false} DiffWordsFirst(m: FontMap, ref: FontMap, c: nat, last: nat, d: nat)
    requires c <= d < 256 && m[d].name != ref[d].name
    ensures var ws := DiffWords(m, ref, c, last); ws != [] && ws[0] != [] && !IsTrimmed(ws[0][0])
    decreases d - c
  {
    if m[c].name == ref[c].name {
      DiffWordsFirst(m, ref, c + 1, last, d);
    }
  }

  /** The differences string is empty exactly when codes 32..255 carry
      the reference encoding's glyph names; then no diff entry is written. */
  lemma EncodingEmpty(m: FontMap, ref: FontMap)
    ensures Encoding(m, ref) == [] <==> forall c :: 32 <= c < 256 ==> m[c].name == ref[c].name
  {
    if forall c :: 32 <= c < 256 ==> m[c].name == ref[c].name {
      DiffLoopSame(m, ref, 32, 0, []);
    } else {
      var d :| 32 <= d < 256 && m[d].name != ref[d].name;
      DiffWordsFirst(m, ref, 32, 0, d);
      DiffLoopWords(m, ref, 32, 0, []);
      var ws := DiffWords(m, ref, 32, 0);
      var t := Spaced(ws);
      SpacedCons(ws[0], ws[1..]);
      assert [ws[0]] + ws[1..] == ws;
      assert t[0] == ws[0][0];
      assert [] + t == t;
      assert Encoding(m, ref) == RTrim(t);
      assert |RTrim(t)| > 0;
    }
  }

  /** A map compared with itself has no differences. */
  lemma EncodingSame(m: FontMap)
    ensures Encoding(m, m) == []
  {
    DiffLoopSame(m, m, 32, 0, []);
  }

  // ---------------------------------------------------- TrueType metrics

  /** What getTrueTypeInfo() reads from the TrueType parser. */
  datatype Face = Face(unitsPerEm: nat, bbox: Box, postScriptName: Bytes, bold: bool, italicAngle: int,
                       fixed: bool, ascender: int, descender: int, up: int, ut: int, capHeight: int,
                       embeddable: bool, widths: seq<nat>, chars: map<nat, nat>)

  function FaceOf(t: TtfParser): Face
    reads t
  {
    Face(t.unitsPerEm, (t.xMin, t.yMin, t.xMax, t.yMax), t.postScriptName, t.bold, t.italicAngle,
         t.isFixedPitch, t.typoAscender, t.typoDescender, t.underlinePosition, t.underlineThickness,
         t.capHeight, t.embeddable, t.widths, t.chars)
  }

  /** round($k * $v) with $k = 1000 / unitsPerEm: a value in font units
      scaled to thousandths of the em. */
  function Scale(u: nat, v: int): (r: int)
    requires u > 0
    ensures v >= 0 ==> r >= 0
    ensures u == 1000 ==> r == v
  {
    Round((1000 * v) as real / u as real)
  }

  /** $ttf->widths[$g]; a glyph past the table reads as null, that is 0. */
  function GlyphWidth(ws: seq<nat>, g: nat): nat
  {
    if g < |ws| then ws[g] else 0
  }

  /** The scaled width of the glyph mapped to Unicode value uv, if any. */
  function TtfWidth(f: Face, uv: int): Option<int>
    requires f.unitsPerEm > 0
  {
    if uv >= 0 && uv as nat in f.chars then Some(Scale(f.unitsPerEm, GlyphWidth(f.widths, f.chars[uv as nat]))) else None
  }

  function TtfLookup(f: Face, m: FontMap): (r: seq<Option<int>>)
    requires f.unitsPerEm > 0
    ensures |r| == 256
  {
    seq(256, c requires 0 <= c < 256 => TtfWidth(f, m[c].uv))
  }

  /** getTrueTypeInfo(): the licence must allow embedding when the font is
      embedded, every value is scaled to a 1000-unit em, and every code
      with a glyph name takes the width of the glyph its Unicode value
      maps to. */
  function TrueTypeInfo(f: Face, m: FontMap, embed: bool, file: Bytes): (r: Result<FontInfo>)
    ensures embed && !f.embeddable ==> r == Err(NoEmbedding)
    ensures (embed ==> f.embeddable) && f.unitsPerEm == 0 ==> r == Err(DivisionByZero)
    ensures r.Ok? ==> (embed ==> f.embeddable) && f.unitsPerEm > 0
    ensures (embed ==> f.embeddable) && f.unitsPerEm > 0 ==>
      (r.Ok? <==> forall c :: 0 <= c < 256 && Named(m, c) ==> m[c].uv >= 0 && m[c].uv as nat in f.chars)
    ensures r.Ok? ==> forall c :: 0 <= c < 256 ==>
      r.value.widths[c] == Scale(f.unitsPerEm, GlyphWidth(f.widths, if Named(m, c) then f.chars[m[c].uv as nat] else 0))
    ensures r.Ok? ==> r.value.metrics.missingWidth == Scale(f.unitsPerEm, GlyphWidth(f.widths, 0))
    ensures r.Ok? ==> r.value.metrics.stdVW.None? && r.value.metrics.bold == f.bold && r.value.name == f.postScriptName
    ensures r.Ok? ==> r.value.embedded == (if embed then TrueTypeData(file, |file|) else NotEmbedded)
  {
    if embed && !f.embeddable then Err(NoEmbedding)
    else if f.unitsPerEm == 0 then Err(DivisionByZero)
    else
      var u := f.unitsPerEm;
      var mw := Scale(u, GlyphWidth(f.widths, 0));
      var ws := Widths(m, TtfLookup(f, m), mw);
      if ws.Err? then Err(ws.msg)
      else
        var metrics := Metrics(Some(Scale(u, f.ascender)), Some(Scale(u, f.descender)), Some(Scale(u, f.capHeight)),
                               f.fixed, Some((Scale(u, f.bbox.0), Scale(u, f.bbox.1), Scale(u, f.bbox.2), Scale(u, f.bbox.3))),
                               Some(f.italicAngle), None, f.bold, mw);
        Ok(FontInfo(f.postScriptName, metrics, Some(Scale(u, f.up)), Some(Scale(u, f.ut)), ws.value,
                    if embed then TrueTypeData(file, |file|) else NotEmbedded))
  }

  /** A TrueType font whose OS/2 table has no cap height (version below 2
      reads it as 0) gets the ascender as CapHeight. */
  lemma TrueTypeCapHeight(f: Face, m: FontMap, embed: bool, file: Bytes)
    requires f.capHeight == 0 && TrueTypeInfo(f, m, embed, file).Ok?
    ensures var mt := TrueTypeInfo(f, m, embed, file).value.metrics; CapHeight(mt) == mt.ascender
  {
  }

  /** A TrueType font never gives StdVW, so StemV is 120 exactly when the
      font is bold. */
  lemma TrueTypeStemV(f: Face, m: FontMap, embed: bool, file: Bytes)
    requires TrueTypeInfo(f, m, embed, file).Ok?
    ensures var mt := TrueTypeInfo(f, m, embed, file).value.metrics; StemV(mt) == (if f.bold then 120 else 70)
  {
  }

  // ------------------------------------------------------- Type1 fonts

  /** The little-endian 32-bit number at p (unpack 'V'). */
  function LE32(s: Bytes, p: nat): nat
    requires p + 4 <= |s|
  {
    s[p] as nat + 256 * (s[p + 1] as nat + 256 * (s[p + 2] as nat + 256 * s[p + 3] as nat))
  }

  /** fread($f, $n) at position p: at most n bytes, fewer at the end. */
  function ReadAt(s: Bytes, p: nat, n: nat): (r: Bytes)
    ensures |r| <= n && (p <= |s| ==> p + |r| <= |s|)
  {
    if p >= |s| then [] else if p + n <= |s| then s[p..p + n] else s[p..]
  }

  /** The length in the segment header at p: six bytes, the first of
      them the marker 128, the last four the length. */
  function SegmentLength(pfb: Bytes, p: nat): (r: Option<nat>)
    ensures r.Some? ==> p + 6 <= |pfb| && pfb[p] as int == 128 && r.value == LE32(pfb, p + 2)
  {
    if p + 6 <= |pfb| && pfb[p] as int == 128 then Some(LE32(pfb, p + 2)) else None
  }

  /** The two segments of a binary Type1 (PFB) file, joined, and their
      declared lengths; both headers must carry the marker 128. */
  function Segments(pfb: Bytes): (r: Result<(Bytes, nat, nat)>)
    ensures r.Err? ==> r.msg == NotType1
    ensures r.Ok? ==> |pfb| >= 6 && pfb[0] as int == 128
    ensures r.Ok? ==> var p := 6 + |ReadAt(pfb, 6, r.value.1)|; p + 6 <= |pfb| && pfb[p] as int == 128
  {
    match SegmentLength(pfb, 0)
    case None => Err(NotType1)
    case Some(size1) =>
      var d1 := ReadAt(pfb, 6, size1);
      var p := 6 + |d1|;
      match SegmentLength(pfb, p)
      case None => Err(NotType1)
      case Some(size2) => Ok((d1 + ReadAt(pfb, p + 6, size2), size1, size2))
  }

  /** A segment header: the marker 128, the segment type and the length. */
  function Header(t: byte, n: nat): (r: Bytes)
    requires n < 0x1_0000_0000
    ensures |r| == 6
  {
    var q1 := n / 256;
    var q2 := q1 / 256;
    [Chr(128), t, Chr(n % 256), Chr(q1 % 256), Chr(q2 % 256), Chr(q2 / 256)]
  }

  lemma HeaderLength(s: Bytes, p: nat, t: byte, n: nat)
    requires n < 0x1_0000_0000 && p + 6 <= |s| && s[p..p + 6] == Header(t, n)
    ensures s[p] as int == 128 && LE32(s, p + 2) == n
  {
    var h := Header(t, n);
    assert s[p + 2] == h[2] && s[p + 3] == h[3] && s[p + 4] == h[4] && s[p + 5] == h[5];
    var q1 := n / 256;
    var q2 := q1 / 256;
    assert n == n % 256 + 256 * q1;
    assert q1 == q1 % 256 + 256 * q2;
    assert q2 == q2 % 256 + 256 * (q2 / 256);
  }

  /** A PFB file of two segments (and whatever follows them) gives back
      both segments and their lengths. */
  lemma SegmentsRoundTrip(t1: byte, d1: Bytes, t2: byte, d2: Bytes, rest: Bytes)
    requires |d1| < 0x1_0000_0000 && |d2| < 0x1_0000_0000
    ensures Segments(Header(t1, |d1|) + d1 + Header(t2, |d2|) + d2 + rest) == Ok((d1 + d2, |d1|, |d2|))
  {
    var h1, h2 := Header(t1, |d1|), Header(t2, |d2|);
    var pfb := h1 + d1 + h2 + d2 + rest;
    var p := 6 + |d1|;
    assert pfb[0..6] == h1 && pfb[6..p] == d1;
    SegmentAt(pfb, 0, t1, d1);
    assert pfb[p..p + 6] == h2 && pfb[p + 6..p + 6 + |d2|] == d2;
    SegmentAt(pfb, p, t2, d2);
  }

  /** A header followed by its segment reads back as that segment. */
  lemma SegmentAt(pfb: Bytes, p: nat, t: byte, d: Bytes)
    requires |d| < 0x1_0000_0000 && p + 6 + |d| <= |pfb|
    requires pfb[p..p + 6] == Header(t, |d|) && pfb[p + 6..p + 6 + |d|] == d
    ensures SegmentLength(pfb, p) == Some(|d|) && ReadAt(pfb, p + 6, |d|) == d
  {
    HeaderLength(pfb, p, t, |d|);
  }

  /** What getType1Info() keeps of an AFM file: the widths of the C lines
      by glyph name ($cw), and the font-wide keys, each set by its last
      line (None: no line sets it). */
  datatype Afm = Afm(cw: map<Bytes, int>, fontName: Option<Bytes>, weight: Option<Bytes>,
                     italicAngle: Option<int>, ascender: Option<int>, descender: Option<int>,
                     ut: Option<int>, up: Option<int>, fixed: bool, bbox: Option<Box>,
                     capHeight: Option<int>, stdVW: Option<int>)

  const NoAfm: Afm := Afm(map[], None, None, None, None, None, None, None, false, None, None, None)

  /** The words of an AFM line. */
  function Words(line: Bytes): seq<Bytes>
  {
    Explode(' ', RTrim(line))
  }

  /** A character metrics line "C code ; WX width ; N name ;". */
  predicate IsCharLine(line: Bytes)
  {
    |Words(line)| >= 2 && Words(line)[0] == "C"
  }

  /** The glyph name and width a C line gives: words 7 and 4. */
  function CharName(line: Bytes): Bytes
  {
    Field(Words(line), 7)
  }

  function CharWidth(line: Bytes): int
  {
    IntVal(Field(Words(line), 4))
  }

  /** One line of the AFM loop; a line of fewer than two words is skipped. */
  function AfmLine(a: Afm, line: Bytes): Afm
  {
    var e := Words(line);
    if |e| < 2 then a
    else
      var key, v := e[0], IntVal(e[1]);
      if key == "C" then a.(cw := a.cw[CharName(line) := CharWidth(line)])
      else if key == "FontName" then a.(fontName := Some(e[1]))
      else if key == "Weight" then a.(weight := Some(e[1]))
      else if key == "ItalicAngle" then a.(italicAngle := Some(v))
      else if key == "Ascender" then a.(ascender := Some(v))
      else if key == "Descender" then a.(descender := Some(v))
      else if key == "UnderlineThickness" then a.(ut := Some(v))
      else if key == "UnderlinePosition" then a.(up := Some(v))
      else if key == "IsFixedPitch" then a.(fixed := e[1] == "true")
      else if key == "FontBBox" then a.(bbox := Some((v, IntVal(Field(e, 2)), IntVal(Field(e, 3)), IntVal(Field(e, 4)))))
      else if key == "CapHeight" then a.(capHeight := Some(v))
      else if key == "StdVW" then a.(stdVW := Some(v))
      else a
  }

  /** The AFM data after the first k lines. */
  function AfmOf(lines: seq<Bytes>, k: nat): Afm
    requires k <= |lines|
  {
    if k == 0 then NoAfm else AfmLine(AfmOf(lines, k - 1), lines[k - 1])
  }

  /** Only C lines change the widths, each setting its glyph's width. */
  lemma AfmLineWidths(a: Afm, line: Bytes)
    ensures IsCharLine(line) ==> AfmLine(a, line).cw == a.cw[CharName(line) := CharWidth(line)]
    ensures !IsCharLine(line) ==> AfmLine(a, line).cw == a.cw
  {
  }

  /** The last of the first k lines that is a C line for glyph name. */
  function LastChar(lines: seq<Bytes>, k: nat, name: Bytes): (r: Option<nat>)
    requires k <= |lines|
    ensures r.Some? ==> r.value < k && IsCharLine(lines[r.value]) && CharName(lines[r.value]) == name
    ensures r.Some? ==> forall j :: r.value < j < k ==> !IsCharLine(lines[j]) || CharName(lines[j]) != name
    ensures r.None? ==> forall j :: 0 <= j < k ==> !IsCharLine(lines[j]) || CharName(lines[j]) != name
  {
    if k == 0 then None
    else if IsCharLine(lines[k - 1]) && CharName(lines[k - 1]) == name then Some(k - 1)
    else LastChar(lines, k - 1, name)
  }

  /** A glyph has a width exactly when a C line names it, and it is the
      width of the last such line. */
  lemma {:induction false} AfmWidthOf(lines: seq<Bytes>, k: nat, name: Bytes)
    requires k <= |lines|
    ensures LastChar(lines, k, name).None? ==> name !in AfmOf(lines, k).cw
    ensures LastChar(lines, k, name).Some? ==>
      name in AfmOf(lines, k).cw && AfmOf(lines, k).cw[name] == CharWidth(lines[LastChar(lines, k, name).value])
  {
    if k > 0 {
      AfmWidthOf(lines, k - 1, name);
      AfmLineWidths(AfmOf(lines, k - 1), lines[k - 1]);
    }
  }

  const BoldWord: Bytes := "bold"
  const BlackWord: Bytes := "black"

  /** preg_match('/bold|black/i', Weight) on a set Weight. */
  predicate Boldface(weight: Option<Bytes>)
  {
    weight.Some? && (Occurs(Lower(weight.value), BoldWord) || Occurs(Lower(weight.value), BlackWord))
  }

  /** Case does not matter and the word may be part of a longer weight. */
  lemma BoldWeights()
    ensures Boldface(Some("Bold")) && Boldface(Some("SemiBold")) && Boldface(Some("BLACK"))
    ensures !Boldface(Some("Book")) && !Boldface(None)
  {
    assert OccursAt(Lower("Bold"), BoldWord, 0);
    assert OccursAt(Lower("SemiBold"), BoldWord, 4);
    assert OccursAt(Lower("BLACK"), BlackWord, 0);
    var book := Lower("Book");
    assert book[..4][3] == 'k' != BoldWord[3];
  }

  /** The case of a weight does not matter. */
  lemma BoldCase(weight: Bytes)
    ensures Boldface(Some(Lower(weight))) == Boldface(Some(weight)) == Boldface(Some(Upper(weight)))
  {
    CaseFolds(weight);
    LowerIsLower(weight);
  }

  /** A weight holding "bold" or "black", in any case, anywhere, is bold. */
  lemma BoldAnywhere(p: Bytes, w: Bytes, q: Bytes)
    requires Lower(w) == BoldWord || Lower(w) == BlackWord
    ensures Boldface(Some(p + w + q))
  {
    var t := Lower(p + w + q);
    assert t[|p|..|p| + |w|] == Lower(w) by {
      assert forall i :: 0 <= i < |w| ==> (p + w + q)[|p| + i] == w[i];
    }
    assert OccursAt(t, Lower(w), |p|);
  }

  /** weight[p..p + n] is "bold" or "black" in some case. */
  predicate BoldPart(weight: Bytes, p: nat, n: nat)
  {
    p + n <= |weight| && (Lower(weight[p..p + n]) == BoldWord || Lower(weight[p..p + n]) == BlackWord)
  }

  /** A weight is bold exactly when some part of it is "bold" or "black"
      in some case. */
  lemma BoldExactly(weight: Bytes)
    ensures Boldface(Some(weight)) <==> exists p: nat, n: nat :: BoldPart(weight, p, n)
  {
    var t := Lower(weight);
    if Boldface(Some(weight)) {
      if Occurs(t, BoldWord) {
        var p :| 0 <= p <= |t| - |BoldWord| && OccursAt(t, BoldWord, p);
        assert Lower(weight[p..p + 4]) == t[p..p + 4];
        assert BoldPart(weight, p, 4);
      } else {
        var p :| 0 <= p <= |t| - |BlackWord| && OccursAt(t, BlackWord, p);
        assert Lower(weight[p..p + 5]) == t[p..p + 5];
        assert BoldPart(weight, p, 5);
      }
    }
    if exists p: nat, n: nat :: BoldPart(weight, p, n) {
      var p: nat, n: nat :| BoldPart(weight, p, n);
      assert weight == weight[..p] + weight[p..p + n] + weight[p + n..];
      BoldAnywhere(weight[..p], weight[p..p + n], weight[p + n..]);
    }
  }

  /** $cw['.notdef'] when the AFM file gives it, otherwise 0. */
  function NotDefWidth(cw: map<Bytes, int>): int
  {
    if NotDef in cw then cw[NotDef] else 0
  }

  function AfmLookup(cw: map<Bytes, int>, m: FontMap): (r: seq<Option<int>>)
    ensures |r| == 256
  {
    seq(256, c requires 0 <= c < 256 => if m[c].name in cw then Some(cw[m[c].name]) else None)
  }

  /** getType1Info() after the AFM lines are read: FontName is mandatory,
      Bold follows the weight, MissingWidth is the .notdef width or 0, and
      every code with a glyph name takes that glyph's width. */
  function Type1Info(a: Afm, m: FontMap, embedded: Embedded): (r: Result<FontInfo>)
    ensures a.fontName.None? ==> r == Err(FontNameMissing)
    ensures a.fontName.Some? ==> (r.Ok? <==> forall c :: 0 <= c < 256 && Named(m, c) ==> m[c].name in a.cw)
    ensures r.Ok? ==> r.value.name == a.fontName.value && r.value.embedded == embedded
    ensures r.Ok? ==> r.value.metrics.bold == Boldface(a.weight) && r.value.metrics.missingWidth == NotDefWidth(a.cw)
    ensures r.Ok? ==> forall c :: 0 <= c < 256 ==>
      r.value.widths[c] == (if Named(m, c) then a.cw[m[c].name] else NotDefWidth(a.cw))
  {
    if a.fontName.None? then Err(FontNameMissing)
    else
      var mw := NotDefWidth(a.cw);
      var ws := Widths(m, AfmLookup(a.cw, m), mw);
      if ws.Err? then Err(ws.msg)
      else
        var metrics := Metrics(a.ascender, a.descender, a.capHeight, a.fixed, a.bbox, a.italicAngle, a.stdVW,
                               Boldface(a.weight), mw);
        Ok(FontInfo(a.fontName.value, metrics, a.up, a.ut, ws.value, embedded))
  }

  const AfmSuffix: Bytes := "afm"

  /** The offset of a table of the directory (0 when it is absent, which
      a file the parser accepts never has). */
  function TableAt(data: Bytes, tag: Bytes): nat
  {
    if tag in Tables(data) then Tables(data)[tag] else 0
  }

  /** The face of a TrueType file: the values head(), hhea(), maxp(),
      hmtx(), cmap(), name(), OS/2() and post() read from its tables. */
  function FileFace(data: Bytes): Face
  {
    var head := HeadValues(data, TableAt(data, HeadTag));
    var nh := UShortAt(data, TableAt(data, HheaTag) + 34);
    var ng := UShortAt(data, TableAt(data, MaxpTag) + 4);
    var os2 := Os2Values(data, TableAt(data, Os2Tag));
    var post := PostValues(data, TableAt(data, PostTag));
    Face(head.0, (head.1, head.2, head.3, head.4), PostScriptName(data, TableAt(data, NameTag)), os2.1, post.0,
         post.3, os2.2, os2.3, post.1, post.2, os2.4, os2.0,
         HmtxWidths(data, TableAt(data, HmtxTag), nh, ng), CmapChars(data, TableAt(data, CmapTag)))
  }

  /** A parser that has read a file holds exactly the face of that file. */
  lemma FaceOfParsed(t: TtfParser)
    requires t.Parsed()
    ensures FaceOf(t) == FileFace(t.data)
  {
    assert t.tables == Tables(t.data);
    assert t.HeadRead() && t.MetricsRead() && t.HmtxRead() && t.CmapRead() && t.NameRead() && t.Os2Read() && t.PostRead();
  }

  /** getTrueTypeInfo() on a TrueType file: the parser's checks first,
      then the information of the file's face. */
  function TrueTypeBuild(file: Bytes, m: FontMap, embed: bool): (r: Result<FontInfo>)
    ensures Checked(file).Fail? ==> r == Err(Checked(file).msg)
    ensures r.Ok? ==> r.value.embedded == (if embed then TrueTypeData(file, |file|) else NotEmbedded)
  {
    if Checked(file).Fail? then Err(Checked(file).msg) else TrueTypeInfo(FileFace(file), m, embed, file)
  }

  /** A TrueType font that builds has passed the parser's checks; its
      name is the file's non-empty PostScript name, its em is not empty,
      its licence allows embedding when it is embedded, and the cmap maps
      the Unicode value of every named code. */
  lemma TrueTypeBuildReads(file: Bytes, m: FontMap, embed: bool)
    requires TrueTypeBuild(file, m, embed).Ok?
    ensures Checked(file).Pass?
    ensures TrueTypeBuild(file, m, embed).value.name == PostScriptName(file, Tables(file)[NameTag]) != []
    ensures UShortAt(file, Tables(file)[HeadTag] + 18) > 0 && (embed ==> Os2Values(file, Tables(file)[Os2Tag]).0)
    ensures forall c :: 0 <= c < 256 && Named(m, c) ==> m[c].uv >= 0 && m[c].uv as nat in CmapChars(file, Tables(file)[CmapTag])
  {
    assert Checked(file).Pass?;
    CheckedTables(file);
    FileFaceFields(file);
    assert TrueTypeBuild(file, m, embed) == TrueTypeInfo(FileFace(file), m, embed, file);
  }

  /** A file the parser accepts has the tables getTrueTypeInfo() reads,
      and a PostScript name. */
  lemma CheckedTables(file: Bytes)
    requires Checked(file).Pass?
    ensures NameTag in Tables(file) && TableAt(file, NameTag) == Tables(file)[NameTag]
    ensures HeadTag in Tables(file) && TableAt(file, HeadTag) == Tables(file)[HeadTag]
    ensures Os2Tag in Tables(file) && TableAt(file, Os2Tag) == Tables(file)[Os2Tag]
    ensures CmapTag in Tables(file) && TableAt(file, CmapTag) == Tables(file)[CmapTag]
    ensures PostScriptName(file, Tables(file)[NameTag]) != []
  {
    assert HeadTag in [HeadTag, HheaTag, MaxpTag, HmtxTag, CmapTag, NameTag, Os2Tag, PostTag];
    assert NameTag in [HeadTag, HheaTag, MaxpTag, HmtxTag, CmapTag, NameTag, Os2Tag, PostTag];
    assert Os2Tag in [HeadTag, HheaTag, MaxpTag, HmtxTag, CmapTag, NameTag, Os2Tag, PostTag];
    assert CmapTag in [HeadTag, HheaTag, MaxpTag, HmtxTag, CmapTag, NameTag, Os2Tag, PostTag];
  }

  /** The same fields at the offsets the directory gives. */
  lemma FileFaceFields(file: Bytes)
    ensures FileFace(file).postScriptName == PostScriptName(file, TableAt(file, NameTag))
    ensures FileFace(file).unitsPerEm == UShortAt(file, TableAt(file, HeadTag) + 18)
    ensures FileFace(file).embeddable == Os2Values(file, TableAt(file, Os2Tag)).0
    ensures FileFace(file).chars == CmapChars(file, TableAt(file, CmapTag))
  {
  }

  /** The reading half of toFile(): a TrueType font through the parser, a
      Type1 font through its PFB and AFM files. */
  function FontBuild(kind: FontKind, fontfile: Bytes, embed: bool, file: Bytes, afm: Option<seq<Bytes>>, m: FontMap): (r: Result<FontInfo>)
    ensures r.Ok? && !embed ==> r.value.embedded == NotEmbedded
    ensures r.Ok? && embed && kind == TrueTypeFont ==> r.value.embedded == TrueTypeData(file, |file|)
    ensures r.Ok? && embed && kind == Type1Font ==>
      Segments(file).Ok? && r.value.embedded == Type1Data(Segments(file).value.0, Segments(file).value.1, Segments(file).value.2)
  {
    match kind
    case TrueTypeFont => TrueTypeBuild(file, m, embed)
    case Type1Font => Type1Build(fontfile, embed, file, afm, m)
  }

  /** The font read as toFile() reads it: the kind comes from the file
      name's extension, which must be known. */
  function FontRead(fontfile: Bytes, embed: bool, file: Bytes, afm: Option<seq<Bytes>>, m: FontMap): (r: Result<FontInfo>)
    ensures KindOf(Extension(fontfile)).Err? ==> r == Err(UnrecognizedExtension + Extension(fontfile))
    ensures r.Ok? ==> KindOf(Extension(fontfile)).Ok?
  {
    var kind := KindOf(Extension(fontfile));
    if kind.Err? then Err(kind.msg) else FontBuild(kind.value, fontfile, embed, file, afm, m)
  }

  /** substr($fontfile, 0, -3) . 'afm'. */
  function AfmPath(fontfile: Bytes): Bytes
  {
    (if |fontfile| >= 3 then fontfile[..|fontfile| - 3] else []) + AfmSuffix
  }

  /** getType1Info() as a whole: the two PFB segments when the font is
      embedded, then the AFM file, which must exist and not be empty. */
  function Type1Build(fontfile: Bytes, embed: bool, pfb: Bytes, afm: Option<seq<Bytes>>, m: FontMap): Result<FontInfo>
  {
    var seg := if embed then Segments(pfb) else Ok(([], 0, 0));
    if seg.Err? then Err(seg.msg)
    else if afm.None? then Err(AfmNotFound + AfmPath(fontfile))
    else if afm.value == [] then Err(AfmEmpty)
    else
      var (data, size1, size2) := seg.value;
      Type1Info(AfmOf(afm.value, |afm.value|), m, if embed then Type1Data(data, size1, size2) else NotEmbedded)
  }

  // ------------------------------------------------------ the definition

  datatype FontKind = TrueTypeFont | Type1Font

  const TtfExt: Bytes := "ttf"
  const OtfExt: Bytes := "otf"
  const PfbExt: Bytes := "pfb"
  const TrueTypeName: Bytes := "TrueType"
  const Type1Name: Bytes := "Type1"

  /** strtolower(substr($fontfile, -3)). */
  function Extension(path: Bytes): (r: Bytes)
    ensures |r| <= 3
  {
    Lower(if |path| >= 3 then path[|path| - 3..] else path)
  }

  /** The dispatch of toFile(): ttf and otf files are TrueType, pfb files
      Type1, and any other extension is refused. */
  function KindOf(ext: Bytes): (r: Result<FontKind>)
    ensures r == Ok(TrueTypeFont) <==> ext == TtfExt || ext == OtfExt
    ensures r == Ok(Type1Font) <==> ext == PfbExt
    ensures r.Err? ==> r.msg == UnrecognizedExtension + ext
  {
    if ext == TtfExt || ext == OtfExt then Ok(TrueTypeFont)
    else if ext == PfbExt then Ok(Type1Font)
    else Err(UnrecognizedExtension + ext)
  }

  /** The extension is read without regard to case. */
  lemma ExtensionOf(stem: Bytes, ext: Bytes)
    requires |ext| == 3
    ensures Extension(stem + ext) == Lower(ext)
  {
    assert (stem + ext)[|stem + ext| - 3..] == ext;
  }

  function TypeName(k: FontKind): Bytes
  {
    if k == TrueTypeFont then TrueTypeName else Type1Name
  }

  /** basename(): the part after the last '/'. */
  function Basename(path: Bytes): (r: Bytes)
    ensures '/' !in r && |r| <= |path|
  {
    if path == [] || path[|path| - 1] == '/' then [] else Basename(path[..|path| - 1]) + [path[|path| - 1]]
  }

  /** substr($name, 0, -4): the name without its extension. */
  function Stem(name: Bytes): Bytes
  {
    if |name| <= 4 then [] else name[..|name| - 4]
  }

  /** The font file entries of a definition for an embedded font. */
  datatype FileEntry = TrueTypeFile(file: Bytes, originalSize: nat)
                     | Type1File(file: Bytes, size1: nat, size2: nat)

  /** What makeDefinitionFile() writes: the type, the PostScript name, the
      descriptor, the underline position and thickness, the width array,
      the encoding, the differences when there are any, and the font file
      when the font is embedded. */
  datatype Definition = Definition(typ: Bytes, name: Bytes, desc: Bytes, up: Option<int>, ut: Option<int>,
                                   cw: Bytes, enc: Bytes, diff: Option<Bytes>, file: Option<FileEntry>)

  /** The definition, the name of the file it goes to, and the report
      toFile() returns. */
  datatype Built = Built(def: Definition, defFile: Bytes, report: Bytes)

  const ZSuffix: Bytes := ".z"
  const PhpSuffix: Bytes := ".php"
  const Eol: Bytes := "\n"
  const Cp1252: Bytes := "cp1252"

  /** A Type1 definition carries size1 and size2, a TrueType one
      originalsize. */
  function FileOf(k: FontKind, e: Embedded, file: Bytes): (r: FileEntry)
    ensures r.Type1File? <==> k == Type1Font
    ensures r.file == file
  {
    if k == Type1Font then Type1File(file, if e.Type1Data? then e.size1 else 0, if e.Type1Data? then e.size2 else 0)
    else TrueTypeFile(file, if e.TrueTypeData? then e.originalSize else 0)
  }

  /** The diff entry: written only when encoding() gives a truthy string. */
  function DiffEntry(d: Bytes): (r: Option<Bytes>)
    ensures r.Some? <==> Truthy(d)
  {
    if Truthy(d) then Some(d) else None
  }

  // ----------------------------------------------------------- the class

  class MakeFont {
    const fontfile: Bytes
    const encoding: Bytes
    var fontMap: FontMap
    var info: FontInfo

    constructor (fontfile: Bytes, encoding: Bytes)
      ensures this.fontfile == fontfile && this.encoding == encoding && info == NoInfo
    {
      this.fontfile := fontfile;
      this.encoding := encoding;
      fontMap := seq(256, _ => Unmapped);
      info := NoInfo;
    }

    /** new MakeFont($fontfile, $encoding): the font file must exist and
        the encoding's map be found. */
    static method Create(fontfile: Bytes, encoding: Bytes, found: bool, mapLines: seq<Bytes>) returns (r: Result<MakeFont>)
      ensures !found ==> r == Err(FontNotFound + fontfile)
      ensures found && mapLines == [] ==> r == Err(EncodingNotFound + encoding)
      ensures found && mapLines != [] <==> r.Ok?
      ensures r.Ok? ==> fresh(r.value) && r.value.fontfile == fontfile && r.value.encoding == encoding
      ensures r.Ok? ==> r.value.fontMap == MapOf(mapLines, |mapLines|) && r.value.info == NoInfo
    {
      if !found {
        return Err(FontNotFound + fontfile);
      }
      var mf := new MakeFont(fontfile, encoding);
      var o := mf.LoadMap(encoding, mapLines);
      if o.Fail? {
        return Err(o.msg);
      }
      r := Ok(mf);
    }

    /** loadMap(): 256 entries, no Unicode value and glyph .notdef by
        default, each line overwriting the entry at its code; a missing or
        empty map file is refused. */
    method LoadMap(enc: Bytes, lines: seq<Bytes>) returns (r: Outcome)
      modifies this`fontMap
      ensures r.Fail? <==> lines == []
      ensures r.Fail? ==> r.msg == EncodingNotFound + enc && fontMap == old(fontMap)
      ensures r.Pass? ==> fontMap == MapOf(lines, |lines|)
    {
      if lines == [] {
        return Fail(EncodingNotFound + enc);
      }
      var m: FontMap := seq(256, _ => Unmapped);
      var i := 0;
      while i < |lines|
        invariant i <= |lines| && m == MapOf(lines, i)
      {
        m := MapStep(m, lines[i]);
        i := i + 1;
      }
      fontMap := m;
      r := Pass;
    }

    /** The widths loop of getTrueTypeInfo(). */
    method TtfWidths(ttf: TtfParser, mw: int) returns (r: Result<WidthTable>)
      requires ttf.unitsPerEm > 0
      ensures r == Widths(fontMap, TtfLookup(FaceOf(ttf), fontMap), mw)
    {
      ghost var look := TtfLookup(FaceOf(ttf), fontMap);
      var widths: WidthTable := seq(256, _ => mw);
      var c := 0;
      while c < 256
        invariant c <= 256 && Missing(fontMap, look, c).None?
        invariant forall j :: 0 <= j < 256 ==> widths[j] == (if j < c then WidthOf(fontMap, look, mw, j) else mw)
      {
        if fontMap[c].name != NotDef {
          var uv := fontMap[c].uv;
          if uv >= 0 && uv as nat in ttf.chars {
            widths := widths[c := Scale(ttf.unitsPerEm, GlyphWidth(ttf.widths, ttf.chars[uv as nat]))];
          } else {
            MissingFirst(fontMap, look, c + 1);
            return Err(CharMissing(fontMap[c].name));
          }
        }
        c := c + 1;
      }
      ghost var m := fontMap;
      assert widths == seq(256, j requires 0 <= j < 256 => WidthOf(m, look, mw, j));
      r := Ok(widths);
    }

    /** getTrueTypeInfo() on an opened parser. */
    method GetTrueTypeInfo(ttf: TtfParser, embed: bool, file: Bytes) returns (r: Outcome)
      modifies this`info
      ensures r == Status(TrueTypeInfo(FaceOf(ttf), fontMap, embed, file))
      ensures r.Pass? ==> info == TrueTypeInfo(FaceOf(ttf), fontMap, embed, file).value
    {
      if embed && !ttf.embeddable {
        return Fail(NoEmbedding);
      }
      if ttf.unitsPerEm == 0 {
        return Fail(DivisionByZero);
      }
      var u := ttf.unitsPerEm;
      var mw := Scale(u, GlyphWidth(ttf.widths, 0));
      var ws := TtfWidths(ttf, mw);
      if ws.Err? {
        return Fail(ws.msg);
      }
      var metrics := Metrics(Some(Scale(u, ttf.typoAscender)), Some(Scale(u, ttf.typoDescender)), Some(Scale(u, ttf.capHeight)),
                             ttf.isFixedPitch, Some((Scale(u, ttf.xMin), Scale(u, ttf.yMin), Scale(u, ttf.xMax), Scale(u, ttf.yMax))),
                             Some(ttf.italicAngle), None, ttf.bold, mw);
      info := FontInfo(ttf.postScriptName, metrics, Some(Scale(u, ttf.underlinePosition)), Some(Scale(u, ttf.underlineThickness)),
                       ws.value, if embed then TrueTypeData(file, |file|) else NotEmbedded);
      r := Pass;
    }

    /** The widths loop of getType1Info(). */
    method AfmWidths(cw: map<Bytes, int>, mw: int) returns (r: Result<WidthTable>)
      ensures r == Widths(fontMap, AfmLookup(cw, fontMap), mw)
    {
      ghost var look := AfmLookup(cw, fontMap);
      var widths: WidthTable := seq(256, _ => mw);
      var c := 0;
      while c < 256
        invariant c <= 256 && Missing(fontMap, look, c).None?
        invariant forall j :: 0 <= j < 256 ==> widths[j] == (if j < c then WidthOf(fontMap, look, mw, j) else mw)
      {
        var name := fontMap[c].name;
        if name != NotDef {
          if name in cw {
            widths := widths[c := cw[name]];
          } else {
            MissingFirst(fontMap, look, c + 1);
            return Err(CharMissing(name));
          }
        }
        c := c + 1;
      }
      ghost var m := fontMap;
      assert widths == seq(256, j requires 0 <= j < 256 => WidthOf(m, look, mw, j));
      r := Ok(widths);
    }

    /** getType1Info(): the PFB segments when embedding, then the AFM
        lines read one by one, then the width table. */
    method GetType1Info(embed: bool, pfb: Bytes, afm: Option<seq<Bytes>>) returns (r: Outcome)
      modifies this`info
      ensures r == Status(Type1Build(fontfile, embed, pfb, afm, fontMap))
      ensures r.Pass? ==> info == Type1Build(fontfile, embed, pfb, afm, fontMap).value
    {
      var embedded := NotEmbedded;
      if embed {
        var seg := Segments(pfb);
        if seg.Err? {
          return Fail(seg.msg);
        }
        embedded := Type1Data(seg.value.0, seg.value.1, seg.value.2);
      }
      if afm.None? {
        return Fail(AfmNotFound + AfmPath(fontfile));
      }
      var lines := afm.value;
      if lines == [] {
        return Fail(AfmEmpty);
      }
      var a := NoAfm;
      var i := 0;
      while i < |lines|
        invariant i <= |lines| && a == AfmOf(lines, i)
      {
        a := AfmLine(a, lines[i]);
        i := i + 1;
      }
      if a.fontName.None? {
        return Fail(FontNameMissing);
      }
      var mw := NotDefWidth(a.cw);
      var ws := AfmWidths(a.cw, mw);
      if ws.Err? {
        return Fail(ws.msg);
      }
      var metrics := Metrics(a.ascender, a.descender, a.capHeight, a.fixed, a.bbox, a.italicAngle, a.stdVW,
                             Boldface(a.weight), mw);
      info := FontInfo(a.fontName.value, metrics, a.up, a.ut, ws.value, embedded);
      r := Pass;
    }

    /** encoding($map): the differences of a map from cp1252, after
        loading cp1252 into fontMap. */
    method Differences(m: FontMap, cp1252: seq<Bytes>) returns (r: Result<Bytes>)
      modifies this`fontMap
      ensures cp1252 == [] ==> r == Err(EncodingNotFound + Cp1252)
      ensures cp1252 != [] ==> r == Ok(Encoding(m, MapOf(cp1252, |cp1252|))) && fontMap == MapOf(cp1252, |cp1252|)
    {
      var o := LoadMap(Cp1252, cp1252);
      if o.Fail? {
        return Err(o.msg);
      }
      r := Ok(Encoding(m, fontMap));
    }

    /** The reading half of toFile(): a TrueType font through the
        parser, a Type1 font through its PFB and AFM files. */
    method ReadFont(kind: FontKind, embed: bool, file: Bytes, afm: Option<seq<Bytes>>) returns (r: Outcome)
      modifies this`info
      ensures r == Status(FontBuild(kind, fontfile, embed, file, afm, fontMap))
      ensures r.Pass? ==> info == FontBuild(kind, fontfile, embed, file, afm, fontMap).value
    {
      if kind == TrueTypeFont {
        var ttf := TtfParser.Open(file);
        if ttf.Err? {
          return Fail(ttf.msg);
        }
        FaceOfParsed(ttf.value);
        r := GetTrueTypeInfo(ttf.value, embed, file);
      } else {
        r := GetType1Info(embed, file, afm);
      }
    }

    /** toFile(): dispatch on the file extension, read the font, name the
        embedded font file, and build the definition. The font file's
        contents are file; afm is the AFM file's lines (None when it does
        not exist); cp1252 is the lines of the cp1252 map; zlib tells
        whether gzcompress() exists. */
    method ToFile(embed: bool, file: Bytes, afm: Option<seq<Bytes>>, cp1252: seq<Bytes>, zlib: bool) returns (r: Result<Built>)
      modifies this`info, this`fontMap
      ensures FontRead(fontfile, embed, file, afm, old(fontMap)).Err? ==> r == Err(FontRead(fontfile, embed, file, afm, old(fontMap)).msg)
      ensures FontRead(fontfile, embed, file, afm, old(fontMap)).Ok? && cp1252 == [] ==> r == Err(EncodingNotFound + Cp1252)
      ensures r.Ok? <==> FontRead(fontfile, embed, file, afm, old(fontMap)).Ok? && cp1252 != []
      ensures r.Ok? ==> var i := FontRead(fontfile, embed, file, afm, old(fontMap)).value;
        info == i && r.value.def.name == i.name && r.value.def.up == i.up && r.value.def.ut == i.ut
        && r.value.def.desc == Descriptor(i.metrics) && r.value.def.cw == WidthArray(i.widths)
      ensures r.Ok? ==> KindOf(Extension(fontfile)).Ok? && r.value.def.typ == TypeName(KindOf(Extension(fontfile)).value)
      ensures r.Ok? ==> r.value.def.enc == encoding && r.value.def.diff == DiffEntry(Encoding(old(fontMap), MapOf(cp1252, |cp1252|)))
      ensures r.Ok? ==> (r.value.def.file.Some? <==> embed)
      ensures r.Ok? && embed ==> (r.value.def.file.value.Type1File? <==> KindOf(Extension(fontfile)) == Ok(Type1Font))
      ensures r.Ok? && embed && KindOf(Extension(fontfile)) == Ok(TrueTypeFont) ==> r.value.def.file.value.originalSize == |file|
      ensures r.Ok? && embed && KindOf(Extension(fontfile)) == Ok(Type1Font) ==>
        Segments(file).Ok? && r.value.def.file.value.size1 == Segments(file).value.1 && r.value.def.file.value.size2 == Segments(file).value.2
      ensures r.Ok? && embed && zlib ==> r.value.def.file.value.file == Stem(Basename(fontfile)) + ZSuffix
      ensures r.Ok? && embed && !zlib ==> r.value.def.file.value.file == Basename(fontfile)
      ensures r.Ok? ==> r.value.defFile == Stem(Basename(fontfile)) + PhpSuffix
    {
      var base := Stem(Basename(fontfile));
      var kind := KindOf(Extension(fontfile));
      if kind.Err? {
        return Err(kind.msg);
      }
      ghost var read := FontRead(fontfile, embed, file, afm, fontMap);
      assert read == FontBuild(kind.value, fontfile, embed, file, afm, fontMap);
      var o := ReadFont(kind.value, embed, file, afm);
      if o.Fail? {
        return Err(o.msg);
      }
      assert read.Ok? && info == read.value;
      var report: Bytes := [];
      var name: Bytes := [];
      if embed {
        if zlib {
          name := base + ZSuffix;
          report := Compressed + name + Eol;
        } else {
          name := Basename(fontfile);
          report := NotCompressed;
        }
      }
      var diff := Differences(fontMap, cp1252);
      if diff.Err? {
        return Err(diff.msg);
      }
      assert info == read.value;
      var entry := if embed then Some(FileOf(kind.value, info.embedded, name)) else None;
      var def := Definition(TypeName(kind.value), info.name, Descriptor(info.metrics), info.up, info.ut,
                            WidthArray(info.widths), encoding, DiffEntry(diff.value), entry);
      r := Ok(Built(def, base + PhpSuffix, report + Generated + base + PhpSuffix + Eol));
    }

    /** MakeFont::make(): construct, then toFile(). */
    static method Make(fontfile: Bytes, encoding: Bytes, embed: bool, found: bool, mapLines: seq<Bytes>,
                       file: Bytes, afm: Option<seq<Bytes>>, cp1252: seq<Bytes>, zlib: bool) returns (r: Result<Built>)
      ensures !found ==> r == Err(FontNotFound + fontfile)
      ensures found && mapLines == [] ==> r == Err(EncodingNotFound + encoding)
      ensures found && mapLines != [] ==> var i := FontRead(fontfile, embed, file, afm, MapOf(mapLines, |mapLines|));
        (i.Err? ==> r == Err(i.msg)) && (i.Ok? && cp1252 == [] ==> r == Err(EncodingNotFound + Cp1252))
      ensures r.Ok? <==> found && mapLines != [] && FontRead(fontfile, embed, file, afm, MapOf(mapLines, |mapLines|)).Ok? && cp1252 != []
      ensures r.Ok? ==> var i := FontRead(fontfile, embed, file, afm, MapOf(mapLines, |mapLines|)).value;
        r.value.def.name == i.name && r.value.def.up == i.up && r.value.def.ut == i.ut
        && r.value.def.desc == Descriptor(i.metrics) && r.value.def.cw == WidthArray(i.widths)
      ensures r.Ok? ==> KindOf(Extension(fontfile)).Ok? && r.value.def.typ == TypeName(KindOf(Extension(fontfile)).value)
      ensures r.Ok? ==> r.value.def.diff == DiffEntry(Encoding(MapOf(mapLines, |mapLines|), MapOf(cp1252, |cp1252|)))
      ensures r.Ok? ==> (r.value.def.file.Some? <==> embed)
      ensures r.Ok? ==> r.value.def.enc == encoding && r.value.defFile == Stem(Basename(fontfile)) + PhpSuffix
    {
      var mf := Create(fontfile, encoding, found, mapLines);
      if mf.Err? {
        return Err(mf.msg);
      }
      r := mf.value.ToFile(embed, file, afm, cp1252, zlib);
    }
  }
}
