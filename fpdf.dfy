/**
 * The FPDF document builder (class FPDF of fpdf.php, class Fpdf of
 * src/Fpdf/Fpdf.php): its settings, pages, fonts, colours, links, the
 * layout methods cell(), multiCell() and write(), images, and the
 * serializer that numbers the objects, records their offsets and writes the
 * cross-reference table and the trailer.  The state lives in the groups of
 * module DocState; each method states the new value of every group it
 * changes.
 */
module Document {
  import opened Common
  import opened PdfText
  import opened Fonts
  import opened PdfObjects
  import opened Settings
  import opened Layout
  import opened Serial
  import opened DocState
  import opened Writer
  import Png

  const SpacingOp: Bytes := " Tw"
  const SpacingOff: Bytes := "0 Tw"
  const UndefinedFont: Bytes := "Undefined font: "
  const NoDefinition: Bytes := "Could not include font " + "definition file"
  const BadZoom: Bytes := "Incorrect zoom display mode: "
  const BadLayout: Bytes := "Incorrect layout display mode: "
  const NoFontSize: Bytes := "Division by zero"

  /** What a method that writes only on a page leaves in the sink: t as a
      line once a page exists, nothing before the first page. */
  function OnPage(s: Sink, t: Bytes): (r: Sink)
    requires SinkOk(s)
    ensures SinkOk(r)
    ensures s.page > 0 ==> r == Sent(s, Lf(t))
    ensures s.page == 0 ==> r == s
  {
    if s.page > 0 then Sent(s, Lf(t)) else s
  }

  // ------------------------------------------------------------------ fonts

  /** addFont() once it has the key and, if the key is new, the loaded
      definition: a key already registered changes nothing, a missing
      definition throws, and a new font is filed under the next index with
      its encoding differences and its embedded file.  The registry stays
      well formed and every key found before is found where it was. */
  function AddedFont(reg: Registry, key: Bytes, def: Option<FontDef>): (r: (Outcome, Registry))
    requires RegOk(reg)
    ensures RegOk(r.1) && r.1.images == reg.images
    ensures Find(reg.fonts, key).Some? ==> r == (Pass, reg)
    ensures Find(reg.fonts, key).None? && def.None? ==> r == (Fail(NoDefinition), reg)
    ensures Find(reg.fonts, key).None? && def.Some? ==>
              r.0 == Pass && r.1.fonts == reg.fonts + [(key, NewEntry(reg.fonts, reg.diffs, def.value))]
              && r.1.diffs == DiffsAfter(reg.diffs, def.value) && r.1.files == FilesAfter(reg.files, def.value)
    ensures r.0.Pass? ==> Find(r.1.fonts, key).Some?
    ensures |reg.fonts| <= |r.1.fonts| && r.1.fonts[..|reg.fonts|] == reg.fonts
    ensures forall other :: Find(reg.fonts, other).Some? ==> Find(r.1.fonts, other) == Find(reg.fonts, other)
  {
    if Find(reg.fonts, key).Some? then (Pass, reg)
    else if def.None? then (Fail(NoDefinition), reg)
    else
      var e := NewEntry(reg.fonts, reg.diffs, def.value);
      RegisterKeeps(reg.fonts, reg.diffs, key, def.value);
      FilesStayKnown(reg.fonts, reg.files, key, e);
      FindKeeps(reg.fonts, key, e);
      assert (reg.fonts + [(key, e)])[..|reg.fonts|] == reg.fonts;
      (Pass, reg.(fonts := reg.fonts + [(key, e)], diffs := DiffsAfter(reg.diffs, def.value),
                  files := FilesAfter(reg.files, def.value)))
  }

  /** Where setFont() finds the font for a lower-case family and a normal
      style: under their own key if registered, else among the core fonts,
      with Arial read as Helvetica and Symbol and ZapfDingbats taking no
      style.  None for a family that is neither. */
  function Resolve(fonts: FontTable, fam: Bytes, st: Bytes): (r: Option<(Bytes, Bytes)>)
    ensures Find(fonts, fam + st).Some? ==> r == Some((fam, st))
    ensures r.None? <==> Find(fonts, fam + st).None? && CoreFamily(fam) !in CoreFonts
    ensures r.Some? && r.value != (fam, st) ==> r.value.0 in CoreFonts
    ensures IsLower(fam) && NormalStyle(st) && r.Some? ==> IsLower(r.value.0) && NormalStyle(r.value.1)
  {
    if Find(fonts, fam + st).Some? then Some((fam, st))
    else
      var cf := CoreFamily(fam);
      if cf in CoreFonts then
        assert IsLower(fam) && NormalStyle(st) ==> IsLower(cf) && NormalStyle(CoreStyle(cf, st)) by {
          if IsLower(fam) && NormalStyle(st) {
            CoreNormal(fam, st);
          }
        }
        Some((cf, CoreStyle(cf, st)))
      else None
  }

  /** The family setFont() looks for: the current one when none is given,
      else the given one in lower case. */
  function FamilyArg(family: Bytes, current: Bytes): (r: Bytes)
    requires IsLower(current)
    ensures IsLower(r)
    ensures family == [] ==> r == current
    ensures family != [] ==> r == Lower(family)
  {
    LowerIsLower(family);
    if family == [] then current else Lower(family)
  }

  /** setFont() once it knows the requested font is not the one selected:
      an unknown family throws, a core font not yet registered is added
      (which throws when its definition cannot be loaded), and the font
      found is selected at size sz and, on a page, written.  A failure
      changes nothing. */
  function Switched(reg: Registry, sel: Selection, sink: Sink, fam: Bytes, st: Bytes, sz: real, k: real,
                    fmt2: real -> Bytes, load: Bytes -> Option<FontDef>): (r: (Outcome, Registry, Selection, Sink))
    requires RegOk(reg) && SelOk(sel, reg.fonts, k) && SinkOk(sink) && IsLower(fam) && NormalStyle(st)
    ensures RegOk(r.1) && SelOk(r.2, r.1.fonts, k) && SinkOk(r.3) && r.1.images == reg.images
    ensures r.0.Fail? ==> r.1 == reg && r.2 == sel && r.3 == sink
    ensures r.0.Pass? ==> r.2.underline == sel.underline && r.2.sizePt == sz
                          && r.3 == OnPage(sink, FontOp(fmt2, FontIndex(r.2, r.1.fonts), sz))
  {
    var res := Resolve(reg.fonts, fam, st);
    if res.None? then (Fail(UndefinedFont + fam + " " + st), reg, sel, sink)
    else
      var f, s := res.value.0, res.value.1;
      KeyOfNormal(f, s);
      var added := AddedFont(reg, f + s, load(DefaultFile(f, s)));
      if added.0.Fail? then (added.0, reg, sel, sink)
      else
        var sel1 := Selection(f, s, sel.underline, Some(f + s), sz, sz / k);
        (Pass, added.1, sel1, OnPage(sink, FontOp(fmt2, FontIndex(sel1, added.1.fonts), sz)))
  }

  /** When setFont() succeeds, and what it selects: an unknown family
      throws; a family found (as itself or as a core font) succeeds unless
      it is a core font not yet registered whose definition cannot be
      loaded; a registered font is selected without touching the
      registry. */
  lemma SwitchedOutcome(reg: Registry, sel: Selection, sink: Sink, fam: Bytes, st: Bytes, sz: real, k: real,
                        fmt2: real -> Bytes, load: Bytes -> Option<FontDef>)
    requires RegOk(reg) && SelOk(sel, reg.fonts, k) && SinkOk(sink) && IsLower(fam) && NormalStyle(st)
    ensures var r := Switched(reg, sel, sink, fam, st, sz, k, fmt2, load);
            var res := Resolve(reg.fonts, fam, st);
            && (res.None? ==> r.0 == Fail(UndefinedFont + fam + " " + st))
            && (r.0.Pass? <==> res.Some? && (Find(reg.fonts, res.value.0 + res.value.1).Some?
                                             || load(DefaultFile(res.value.0, res.value.1)).Some?))
            && (r.0.Pass? ==> r.2 == Selection(res.value.0, res.value.1, sel.underline,
                                               Some(res.value.0 + res.value.1), sz, sz / k))
            && (Find(reg.fonts, fam + st).Some? ==> r.0.Pass? && r.1 == reg && r.2.family == fam
                                                     && r.2.style == st)
  {
    var res := Resolve(reg.fonts, fam, st);
    if res.Some? {
      KeyOfNormal(res.value.0, res.value.1);
    }
  }

  /** setFont(): the style read as SelectStyle() reads it (which sets the
      underline flag), an empty family meaning the current one and a size
      of 0 the current size; a request for the font already selected
      changes nothing else, and any other is Switched.  The invariants are
      kept, and a failure changes only the underline flag. */
  function FontSet(reg: Registry, sel: Selection, sink: Sink, family: Bytes, style: Bytes, size: real, k: real,
                   fmt2: real -> Bytes, load: Bytes -> Option<FontDef>): (r: (Outcome, Registry, Selection, Sink))
    requires RegOk(reg) && SelOk(sel, reg.fonts, k) && SinkOk(sink)
    ensures RegOk(r.1) && SelOk(r.2, r.1.fonts, k) && SinkOk(r.3) && r.1.images == reg.images
    ensures r.2.underline == SelectStyle(style).1
    ensures r.0.Fail? ==> r.1 == reg && r.2 == sel.(underline := SelectStyle(style).1) && r.3 == sink
  {
    var fam := FamilyArg(family, sel.family);
    var st := SelectStyle(style).0;
    var sz := if size == 0.0 then sel.sizePt else size;
    var sel0 := sel.(underline := SelectStyle(style).1);
    if fam == sel.family && st == sel.style && sz == sel.sizePt then (Pass, reg, sel0, sink)
    else Switched(reg, sel0, sink, fam, st, sz, k, fmt2, load)
  }

  /** A request for the font already selected, at its size, writes nothing
      and changes nothing but the underline flag. */
  lemma FontSetSame(reg: Registry, sel: Selection, sink: Sink, style: Bytes, k: real,
                    fmt2: real -> Bytes, load: Bytes -> Option<FontDef>)
    requires RegOk(reg) && SelOk(sel, reg.fonts, k) && SinkOk(sink) && SelectStyle(style).0 == sel.style
    ensures FontSet(reg, sel, sink, [], style, 0.0, k, fmt2, load)
            == (Pass, reg, sel.(underline := SelectStyle(style).1), sink)
  {
  }

  /** Any other request selects the font Resolve finds, at the size asked
      for (the current one for 0), with the underline flag of the style,
      and writes it when there is a page; it fails exactly when the family
      is unknown or a core font's definition cannot be loaded. */
  lemma FontSetSelects(reg: Registry, sel: Selection, sink: Sink, family: Bytes, style: Bytes, size: real, k: real,
                       fmt2: real -> Bytes, load: Bytes -> Option<FontDef>)
    requires RegOk(reg) && SelOk(sel, reg.fonts, k) && SinkOk(sink)
    requires var sz := if size == 0.0 then sel.sizePt else size;
             FamilyArg(family, sel.family) != sel.family || SelectStyle(style).0 != sel.style || sz != sel.sizePt
    ensures var r := FontSet(reg, sel, sink, family, style, size, k, fmt2, load);
            var fam, st := FamilyArg(family, sel.family), SelectStyle(style).0;
            var sz := if size == 0.0 then sel.sizePt else size;
            var res := Resolve(reg.fonts, fam, st);
            && (res.None? ==> r.0 == Fail(UndefinedFont + fam + " " + st))
            && (r.0.Pass? <==> res.Some? && (Find(reg.fonts, res.value.0 + res.value.1).Some?
                                             || load(DefaultFile(res.value.0, res.value.1)).Some?))
            && (r.0.Pass? ==> r.2 == Selection(res.value.0, res.value.1, SelectStyle(style).1,
                                               Some(res.value.0 + res.value.1), sz, sz / k)
                              && r.3 == OnPage(sink, FontOp(fmt2, FontIndex(r.2, r.1.fonts), sz)))
  {
    var fam, st := FamilyArg(family, sel.family), SelectStyle(style).0;
    var sz := if size == 0.0 then sel.sizePt else size;
    SwitchedOutcome(reg, sel.(underline := SelectStyle(style).1), sink, fam, st, sz, k, fmt2, load);
  }

  /** addPage() selects the font of the previous page again, after
      _beginPage() forgot the family, by calling setFont() with the saved
      family, style (with a U when underlining was on) and size: that
      succeeds, gives back the selection as it was, keeps the registry, and
      writes the operator of that font. */
  lemma RestoreFont(reg: Registry, prev: Selection, sink: Sink, k: real, fmt2: real -> Bytes,
                    load: Bytes -> Option<FontDef>)
    requires RegOk(reg) && SelOk(prev, reg.fonts, k) && SinkOk(sink) && prev.family != []
    ensures FontSet(reg, prev.(family := []), sink, prev.family, prev.style + (if prev.underline then "U" else ""),
                    prev.sizePt, k, fmt2, load)
            == (Pass, reg, prev, OnPage(sink, FontOp(fmt2, FontIndex(prev, reg.fonts), prev.sizePt)))
  {
    SelectStyleRestores(prev.style, prev.underline);
    assert Lower(prev.family) == prev.family;
    var sel0 := prev.(family := []);
    SwitchedOutcome(reg, sel0, sink, prev.family, prev.style, prev.sizePt, k, fmt2, load);
    assert Find(reg.fonts, prev.family + prev.style).Some?;
  }

  /** addPage()'s second setFont(), with the font already selected,
      changes nothing. */
  lemma RestoreAgain(reg: Registry, prev: Selection, sink: Sink, k: real, fmt2: real -> Bytes,
                     load: Bytes -> Option<FontDef>)
    requires RegOk(reg) && SelOk(prev, reg.fonts, k) && SinkOk(sink) && prev.family != []
    ensures FontSet(reg, prev, sink, prev.family, prev.style + (if prev.underline then "U" else ""),
                    prev.sizePt, k, fmt2, load)
            == (Pass, reg, prev, sink)
  {
    SelectStyleRestores(prev.style, prev.underline);
    assert Lower(prev.family) == prev.family;
  }

  /** Registering a font keeps the selected font findable. */
  lemma AddedKeepsSelection(reg: Registry, key: Bytes, def: Option<FontDef>, sel: Selection, k: real)
    requires RegOk(reg) && SelOk(sel, reg.fonts, k)
    ensures SelOk(sel, AddedFont(reg, key, def).1.fonts, k)
  {
    if sel.current.Some? {
      assert Find(reg.fonts, sel.current.value).Some?;
    }
  }

  // ---------------------------------------------------------------- drawing

  /** The painting operator of drawRect()'s style. */
  function PaintOp(style: Bytes): (r: Bytes)
    ensures r == "f" <==> style == "F"
    ensures r == "B" <==> style == "FD" || style == "DF"
    ensures r == "S" || r == "f" || r == "B"
  {
    if style == "F" then "f" else if style == "FD" || style == "DF" then "B" else "S"
  }

  const MoveTo: Bytes := " m "
  const LineStroke: Bytes := " l S"
  const RectHead: Bytes := " re "

  /** drawLine()'s operators: move to one end, line to the other, stroke;
      y counted from the bottom of the page. */
  function LineOp(fmt2: real -> Bytes, k: real, height: real, x1: real, y1: real, x2: real, y2: real): Bytes
  {
    fmt2(x1 * k) + (" " + (fmt2((height - y1) * k) + (MoveTo + (fmt2(x2 * k) + (" " + (fmt2((height - y2) * k)
    + LineStroke))))))
  }

  /** drawRect()'s operators. */
  function RectOp(fmt2: real -> Bytes, k: real, height: real, x: real, y: real, w: real, h: real, style: Bytes): Bytes
  {
    fmt2(x * k) + (" " + (fmt2((height - y) * k) + (" " + (fmt2(w * k) + (" " + (fmt2(-h * k)
    + (RectHead + PaintOp(style))))))))
  }

  /** A stroked line and a rectangle each end in their painting operator. */
  lemma DrawOpsEnd(fmt2: real -> Bytes, k: real, height: real, x: real, y: real, w: real, h: real, style: Bytes)
    ensures var l := LineOp(fmt2, k, height, x, y, w, h);
            |l| >= 4 && l[|l| - 4..] == LineStroke
    ensures var r := RectOp(fmt2, k, height, x, y, w, h, style);
            |r| >= 5 && r[|r| - 5..] == RectHead + PaintOp(style)
  {
  }

  const TextHead: Bytes := "BT "

  /** What text() writes before its literal string: the text colour when
      text needs its own colour, and the text position. */
  function TextStart(fmt2: real -> Bytes, p: Pen, x: real, y: real): Bytes
  {
    (if p.colorFlag then "q " + p.textColor + " " else [])
    + (TextHead + (fmt2(x * p.k) + (" " + (fmt2((p.height - y) * p.k) + MoveOp))))
  }

  /** What it writes after: the underline, unless underlining is off or
      the text is empty, and the end of the colour change. */
  function TextEnd(fmt2: real -> Bytes, p: Pen, x: real, y: real, txt: Bytes): Bytes
  {
    (if p.underline && txt != [] then " " + UnderlineOps(fmt2, p, x, y, txt) else [])
    + (if p.colorFlag then " Q" else [])
  }

  /** text()'s operators: the text at (x, y) as a literal string with
      _escape()'s escaping, between TextStart and TextEnd. */
  function TextOp(fmt2: real -> Bytes, p: Pen, x: real, y: real, txt: Bytes): Bytes
  {
    TextStart(fmt2, p, x, y) + (("(" + Escape(txt, true) + ShowOp) + TextEnd(fmt2, p, x, y, txt))
  }

  /** text() writes its text as one literal string, and a reader gets the
      text back from it. */
  lemma TextShowsText(fmt2: real -> Bytes, p: Pen, x: real, y: real, txt: Bytes)
    ensures exists at :: Holds(TextOp(fmt2, p, x, y, txt), at, "(" + Escape(txt, true) + ShowOp)
    ensures Unescape(Escape(txt, true)) == txt && Balanced(Escape(txt, true))
  {
    EscapeRoundTrip(txt, true);
    var lit := "(" + Escape(txt, true) + ShowOp;
    HoldsMiddle([], TextStart(fmt2, p, x, y), lit, TextEnd(fmt2, p, x, y, txt));
    assert [] + (TextStart(fmt2, p, x, y) + (lit + TextEnd(fmt2, p, x, y, txt))) == TextOp(fmt2, p, x, y, txt);
  }

  /** Three writes in a row are one write of the three texts. */
  lemma SentAll(s: Sink, a: Bytes, b: Bytes, c: Bytes)
    requires SinkOk(s)
    ensures Sent(Sent(Sent(s, a), b), c) == Sent(s, a + (b + c))
  {
    SentTwice(s, a, b);
    SentTwice(s, a + b, c);
    assert a + b + c == a + (b + c);
  }

  /** The orientation _beginPage() reads: the default when none is given,
      else the first letter in upper case (not otherwise checked: any
      letter but P lays the page out in landscape). */
  function PageOrientation(o: Bytes, defO: byte): (r: byte)
    requires UpperByte(defO) == defO
    ensures UpperByte(r) == r
    ensures o != [] && (o[0] == 'p' || o[0] == 'P') ==> r == 'P'
    ensures o != [] && (o[0] == 'l' || o[0] == 'L') ==> r == 'L'
    ensures o == [] ==> r == defO
  {
    if o == [] then defO else UpperByte(o[0])
  }

  /** The page size _beginPage() reads: the default when none is given,
      else _getPageSize(). */
  function PageSizeOf(size: PageSizeArg, defSize: Size, k: real): (r: Result<Size>)
    requires k > 0.0 && defSize.w <= defSize.h
    ensures r.Ok? ==> r.value.w <= r.value.h
    ensures size == Named([]) ==> r == Ok(defSize)
    ensures size.Dims? ==> r.Ok?
  {
    if size == Named([]) then Ok(defSize) else PageSize(size, k)
  }

  // ------------------------------------------------------------------ cells

  /** The operator that sets the word spacing ws, given in user units. */
  function SpacingOn(fmt3: real -> Bytes, ws: real, k: real): (r: Bytes)
    ensures |r| >= |SpacingOp| && r[|r| - |SpacingOp|..] == SpacingOp
  {
    fmt3(ws * k) + SpacingOp
  }

  /** What cell()'s automatic page break writes: a positive word spacing
      switched off, the end of the page and the start of the next one (see
      PageStart), and the spacing switched on again. */
  function BreakSink(s: Sink, start: Bytes, ws: real, on: Bytes): (r: Sink)
    requires SinkOk(s)
    ensures SinkOk(r) && r.state == 2 && r.page == s.page + 1
  {
    var s0 := if ws > 0.0 then Sent(s, Lf(SpacingOff)) else s;
    var s1 := Sent(Opened(Ended(s0)), start);
    if ws > 0.0 then Sent(s1, Lf(on)) else s1
  }

  /** addPage() called with the current orientation and page size, as
      cell() calls it, keeps them: only the page's entry in the size table
      may change. */
  lemma SameFormat(g: Geometry, k: real, defO: byte, defSize: Size, page: nat)
    requires GeoOk(g, k) && k > 0.0 && UpperByte(defO) == defO && defSize.w <= defSize.h
    ensures PageOrientation([g.orientation], defO) == g.orientation
    ensures PageSizeOf(Dims(g.size.w, g.size.h), defSize, k) == Ok(g.size)
    ensures Resized(g, g.orientation, g.size, k, defO, defSize, page)
            == g.(pageSizes := Resized(g, g.orientation, g.size, k, defO, defSize, page).pageSizes)
  {
    ResizedSame(g, k, defO, defSize, page);
  }

  /** BreakSink step by step: the spacing switched off, the next page
      started, the spacing switched on again. */
  lemma BreakSinkSteps(s0: Sink, s1: Sink, s2: Sink, s3: Sink, start: Bytes, ws: real, on: Bytes)
    requires SinkOk(s0) && SinkOk(s1)
    requires s1 == (if ws > 0.0 then Sent(s0, Lf(SpacingOff)) else s0)
    requires s2 == Sent(Opened(Ended(s1)), start)
    requires s3 == (if ws > 0.0 then Sent(s2, Lf(on)) else s2)
    ensures s3 == BreakSink(s0, start, ws, on)
  {
  }

  /** The start of a page does not depend on the word spacing. */
  lemma PageStartIgnoresSpacing(fmt2: real -> Bytes, k: real, p: Paint, ws: real, sel: Selection, fonts: FontTable)
    ensures PageStart(fmt2, k, p.(ws := ws), sel, fonts) == PageStart(fmt2, k, p, sel, fonts)
  {
  }

  /** The width of a cell: 0 means up to the right margin. */
  function CellWidth(w: real, pageWidth: real, right: real, x: real): (r: real)
    ensures w != 0.0 ==> r == w
    ensures w == 0.0 ==> x + r == pageWidth - right
  {
    if w == 0.0 then pageWidth - right - x else w
  }

  /** Where cell() leaves the cursor: lasth is the cell's height; ln > 0
      moves down by it, back to the left margin when ln is 1, and ln <= 0
      moves right by the cell's width. */
  function CellCursor(c: Cursor, w: real, h: real, ln: int, left: real): (r: Cursor)
    ensures r.lasth == h
    ensures ln > 0 ==> r.y == c.y + h && r.x == (if ln == 1 then left else c.x)
    ensures ln <= 0 ==> r.y == c.y && r.x == c.x + w
  {
    if ln > 0 then Cursor(if ln == 1 then left else c.x, c.y + h, h)
    else Cursor(c.x + w, c.y, h)
  }

  /** The link area cell() records for a cell with text and a link: over
      the text, one font size high, centred on the cell's middle. */
  function CellLinks(ls: Links, page: nat, heightPt: real, p: Pen, x: real, y: real, w: real, h: real,
                     txt: Bytes, align: Bytes, link: LinkRef): (r: Links)
    ensures r.targets == ls.targets
    ensures txt == [] || !LinkSet(link) ==> r == ls
    ensures txt != [] && LinkSet(link) ==>
              var prior := LinksOn(ls.onPages, page);
              && page in r.onPages && r.onPages == ls.onPages[page := r.onPages[page]]
              && |r.onPages[page]| == |prior| + 1 && r.onPages[page][..|prior|] == prior
              && r.onPages[page][|prior|].link == link
  {
    if txt != [] && LinkSet(link) then
      var dx := Dx(p, w, txt, align);
      var area := PageLink((x + dx) * p.k, heightPt - (y + 0.5 * h - 0.5 * p.fontSize) * p.k,
                           StringWidth(p.cw, txt, p.fontSize) * p.k, p.fontSize * p.k, link);
      ls.(onPages := ls.onPages[page := LinksOn(ls.onPages, page) + [area]])
    else ls
  }

  /** multiCell()'s borders: the first line's, the following lines', and
      whether the last line adds the bottom side.  No border draws none; 1
      frames the block (the lines get their left and right sides, the first
      also the top, the last also the bottom); a string of sides passes on
      L and R to every line, T to the first and B to the last. */
  function MultiBorders(border: Border): (r: (Border, Border, bool))
    ensures !BorderSet(border) ==> r == (Num(0), Num(0), false)
    ensures BorderSet(border) && IsOne(border) ==> r == (Sides("LRT"), Sides("LR"), true)
    ensures BorderSet(border) && !IsOne(border) ==>
              var t := SideText(border);
              && r.0.Sides? && r.1.Sides?
              && ('L' in r.1.s <==> 'L' in t) && ('R' in r.1.s <==> 'R' in t) && 'T' !in r.1.s && 'B' !in r.1.s
              && r.0.s == r.1.s + (if 'T' in t then "T" else []) && (r.2 <==> 'B' in t)
  {
    if !BorderSet(border) then (Num(0), Num(0), false)
    else if IsOne(border) then (Sides("LRT"), Sides("LR"), true)
    else
      var t := SideText(border);
      var b2 := (if 'L' in t then "L" else []) + (if 'R' in t then "R" else []);
      (Sides(b2 + (if 'T' in t then "T" else [])), Sides(b2), 'B' in t)
  }

  /** The room multiCell() and write() measure lines against, in
      thousandths of the font size: the width w less both cell margins. */
  function Room1000(w: real, cMargin: real, fontSize: real): (r: real)
    requires fontSize != 0.0
    ensures r * fontSize / 1000.0 == w - 2.0 * cMargin
  {
    (w - 2.0 * cMargin) * 1000.0 / fontSize
  }

  /** The bytes multiCell() lays out: the text without carriage returns,
      and how many of them count, a trailing newline left out. */
  function MultiText(txt: Bytes): (r: (Bytes, nat))
    ensures r.0 == RemoveByte(txt, '\r') && r.1 <= |r.0|
    ensures r.1 == |r.0| || (r.1 == |r.0| - 1 && r.0[r.1] == '\n')
  {
    ReplaceByte(txt, '\r');
    var s := Replace(txt, "\r", []);
    (s, if |s| > 0 && s[|s| - 1] == '\n' then |s| - 1 else |s|)
  }

  /** What multiCell() writes before a line about the word spacing: the
      spacing that justifies a line broken at a space, or "0 Tw" when a line
      ends otherwise and the spacing was positive. */
  function SpacingSink(s: Sink, prev: real, ln: Line, align: Bytes, wmax: real, fontSize: real,
                       fmt3: real -> Bytes, k: real): (r: Sink)
    requires SinkOk(s)
    ensures SinkOk(r) && r.state == s.state && r.page == s.page
    ensures Spacing(prev, ln, align, wmax, fontSize) == prev && !(ln.brk == AtSpace && align == "J") ==> r == s
  {
    if ln.brk == AtSpace then
      (if align == "J" then Sent(s, Lf(SpacingOn(fmt3, Justify(wmax, ln.ls, fontSize, ln.ns), k))) else s)
    else if prev > 0.0 then Sent(s, Lf(SpacingOff))
    else s
  }

  // ------------------------------------------- cells drawn one after another

  /** What cell() reads and multiCell() and write() do not change: the
      formatting, the graphics state but for the word spacing, the
      selected font, the margins, the page geometry but for the recorded
      page sizes, and whether an automatic page break may happen (outside
      header and footer, with breaks on). */
  datatype CellEnv = CellEnv(fmt2: real -> Bytes, fmt3: real -> Bytes, k: real, paint: Paint, sel: Selection,
                             fonts: FontTable, margins: Margins, width: real, height: real, heightPt: real,
                             trigger: real, breaks: bool)

  /** What cell() changes: the output, the cursor and the link areas. */
  datatype CellState = CellState(sink: Sink, pos: Cursor, links: Links)

  /** cell()'s automatic page break with word spacing ws: when the cell
      of height h would cross the trigger and breaks may happen, BreakSink
      opens the next page and the cursor moves to its top margin; otherwise
      nothing changes. */
  function BreakDone(e: CellEnv, c: CellState, ws: real, h: real): (r: CellState)
    requires SinkOk(c.sink)
    ensures SinkOk(r.sink) && r.links == c.links && r.pos == c.pos.(y := r.pos.y)
    ensures !(c.pos.y + h > e.trigger && e.breaks) ==> r == c
    ensures c.pos.y + h > e.trigger && e.breaks ==> r.pos.y == e.margins.top && r.sink.page == c.sink.page + 1
  {
    if c.pos.y + h > e.trigger && e.breaks then
      c.(sink := BreakSink(c.sink, PageStart(e.fmt2, e.k, e.paint.(ws := ws), e.sel, e.fonts), ws,
                           SpacingOn(e.fmt3, ws, e.k)),
         pos := c.pos.(y := e.margins.top))
    else c
  }

  /** cell() drawn at the cursor with word spacing ws: the operators of
      CellOps written as one line unless empty, the link area of CellLinks
      recorded, and the cursor moved as CellCursor says. */
  function PutDone(e: CellEnv, c: CellState, ws: real, w: real, h: real, txt: Bytes, border: Border, ln: int,
                   align: Bytes, fill: bool, link: LinkRef): (r: CellState)
    requires SinkOk(c.sink)
    ensures SinkOk(r.sink) && r.sink.page == c.sink.page && r.links.targets == c.links.targets && r.pos.lasth == h
    ensures ln == 2 ==> r.pos.x == c.pos.x && r.pos.y == c.pos.y + h
  {
    var w1 := CellWidth(w, e.width, e.margins.right, c.pos.x);
    var pen := PenOf(e.k, e.height, e.margins.cell, e.sel, e.fonts, e.paint.(ws := ws));
    var ops := CellOps(e.fmt2, pen, c.pos.x, c.pos.y, w1, h, txt, border, align, fill);
    CellState(if ops != [] then Sent(c.sink, Lf(ops)) else c.sink,
              CellCursor(c.pos, w1, h, ln, e.margins.left),
              CellLinks(c.links, c.sink.page, e.heightPt, pen, c.pos.x, c.pos.y, w1, h, txt, align, link))
  }

  /** cell() with word spacing ws: the page break when due, then the cell
      at the cursor, at the top margin of the new page after a break. */
  function CellDone(e: CellEnv, c: CellState, ws: real, w: real, h: real, txt: Bytes, border: Border, ln: int,
                    align: Bytes, fill: bool, link: LinkRef): (r: CellState)
    requires SinkOk(c.sink)
    ensures SinkOk(r.sink) && r.links.targets == c.links.targets && r.pos.lasth == h
    ensures ln == 2 ==> r.pos.x == c.pos.x
  {
    PutDone(e, BreakDone(e, c, ws, h), ws, w, h, txt, border, ln, align, fill, link)
  }

  /** One line of multiCell(): the spacing SpacingSink writes, then the
      line's text as a cell of width w that moves down and keeps x. */
  function MultiLineDone(e: CellEnv, c: CellState, prev: real, w: real, h: real, s: Bytes, ln: Line, b: Border,
                         align: Bytes, fill: bool, wmax: real): (r: CellState)
    requires SinkOk(c.sink)
    ensures SinkOk(r.sink) && r.links.targets == c.links.targets && r.pos.x == c.pos.x && r.pos.lasth == h
  {
    var c1 := c.(sink := SpacingSink(c.sink, prev, ln, align, wmax, e.sel.size, e.fmt3, e.k));
    CellDone(e, c1, Spacing(prev, ln, align, wmax, e.sel.size), w, h, Layout.Text(s, ln), b, 2, align, fill, Url([]))
  }

  /** The lines of multiCell() before its last chunk, drawn in turn from
      c with the spacing ws0 before the first: the first with border b0,
      the others with b1. */
  function MultiDrawn(e: CellEnv, c: CellState, ws0: real, w: real, h: real, s: Bytes, lines: seq<Line>,
                      b0: Border, b1: Border, align: Bytes, fill: bool, wmax: real): (r: CellState)
    requires SinkOk(c.sink)
    ensures SinkOk(r.sink) && r.links.targets == c.links.targets && r.pos.x == c.pos.x
    ensures lines != [] ==> r.pos.lasth == h
    decreases |lines|
  {
    if lines == [] then c
    else
      var n := |lines| - 1;
      MultiLineDone(e, MultiDrawn(e, c, ws0, w, h, s, lines[..n], b0, b1, align, fill, wmax),
                    SpacingAfter(ws0, lines[..n], align, wmax, e.sel.size), w, h, s, lines[n],
                    if n == 0 then b0 else b1, align, fill, wmax)
  }

  /** Drawing one more line of multiCell() is one more MultiLineDone. */
  lemma MultiDrawnAppend(e: CellEnv, c: CellState, ws0: real, w: real, h: real, s: Bytes, lines: seq<Line>,
                         ln: Line, b0: Border, b1: Border, align: Bytes, fill: bool, wmax: real)
    requires SinkOk(c.sink)
    ensures MultiDrawn(e, c, ws0, w, h, s, lines + [ln], b0, b1, align, fill, wmax)
            == MultiLineDone(e, MultiDrawn(e, c, ws0, w, h, s, lines, b0, b1, align, fill, wmax),
                             SpacingAfter(ws0, lines, align, wmax, e.sel.size), w, h, s, ln,
                             if lines == [] then b0 else b1, align, fill, wmax)
  {
    assert (lines + [ln])[..|lines|] == lines;
  }

  /** The whole of multiCell() from c: the lines before the last chunk as
      MultiDrawn draws them, then the last chunk with the bottom side added
      when the border asks for one, and the cursor back at the left
      margin. */
  function MultiDone(e: CellEnv, c: CellState, ws0: real, w: real, h: real, s: Bytes, lines: seq<Line>,
                     border: Border, align: Bytes, fill: bool, wmax: real): (r: CellState)
    requires SinkOk(c.sink)
    ensures SinkOk(r.sink) && r.pos.x == e.margins.left && r.links.targets == c.links.targets
    ensures lines != [] ==> r.pos.lasth == h
  {
    if lines == [] then c.(pos := c.pos.(x := e.margins.left))
    else
    var n := |lines| - 1;
    var bs := MultiBorders(border);
    var before := MultiDrawn(e, c, ws0, w, h, s, lines[..n], bs.0, bs.1, align, fill, wmax);
    var last := MultiLineDone(e, before, SpacingAfter(ws0, lines[..n], align, wmax, e.sel.size), w, h, s, lines[n],
                              LastBorder(border, n == 0), align, fill, wmax);
    last.(pos := last.pos.(x := e.margins.left))
  }

  /** The border of multiCell()'s last chunk: the first line's or the
      following lines', with the bottom side added when the border asks
      for one. */
  function LastBorder(border: Border, first: bool): Border
  {
    var bs := MultiBorders(border);
    var b := if first then bs.0 else bs.1;
    if bs.2 then Sides(SideText(b) + "B") else b
  }

  /** multiCell() with one last chunk after the lines done: the chunk drawn
      after them, with the bottom side when the border asks for one. */
  lemma MultiDoneLast(e: CellEnv, c: CellState, ws0: real, w: real, h: real, s: Bytes, done: seq<Line>,
                      last: Line, border: Border, align: Bytes, fill: bool, wmax: real, d: CellState)
    requires SinkOk(c.sink)
    requires d == MultiLineDone(e, MultiDrawn(e, c, ws0, w, h, s, done, MultiBorders(border).0,
                                              MultiBorders(border).1, align, fill, wmax),
                                SpacingAfter(ws0, done, align, wmax, e.sel.size), w, h, s, last,
                                LastBorder(border, done == []), align, fill, wmax)
    ensures MultiDone(e, c, ws0, w, h, s, done + [last], border, align, fill, wmax)
            == d.(pos := d.pos.(x := e.margins.left))
  {
    assert (done + [last])[..|done|] == done && (done + [last])[|done|] == last;
  }

  /** The width of write()'s last chunk: its width in thousandths of the
      font size, at the font size. */
  function TailWidth(ln: Line, size: real): real
  {
    ln.ls as real / 1000.0 * size
  }

  /** One line of write(): a move down goes to the left margin of the next
      line; the last chunk is a cell as wide as its text that keeps the
      cursor on the line; any other line is a cell of the first line's
      width w0 or the following lines' w1 that moves down, after which the
      first line returns to the left margin. */
  function WriteLineDone(e: CellEnv, c: CellState, ws: real, w0: real, w1: real, h: real, s: Bytes, ln: Line,
                         link: LinkRef): (r: CellState)
    requires SinkOk(c.sink)
    ensures SinkOk(r.sink) && r.links.targets == c.links.targets
    ensures ln.brk == MoveDown ==> r == c.(pos := c.pos.(x := e.margins.left, y := c.pos.y + h))
    ensures ln.brk != MoveDown ==> r.pos.lasth == h
    ensures ln.brk != MoveDown && ln.brk != Last ==> r.pos.x == (if ln.first then e.margins.left else c.pos.x)
  {
    if ln.brk == MoveDown then c.(pos := c.pos.(x := e.margins.left, y := c.pos.y + h))
    else if ln.brk == Last then
      CellDone(e, c, ws, TailWidth(ln, e.sel.size), h, Layout.Text(s, ln), Num(0), 0, [], false, link)
    else
      var d := CellDone(e, c, ws, if ln.first then w0 else w1, h, Layout.Text(s, ln), Num(0), 2, [], false, link);
      if ln.first then d.(pos := d.pos.(x := e.margins.left)) else d
  }

  /** The last chunk of write() is a cell as wide as its text. */
  lemma WriteLineTail(e: CellEnv, c: CellState, ws: real, w0: real, w1: real, h: real, s: Bytes, ln: Line,
                      link: LinkRef)
    requires SinkOk(c.sink) && ln.brk == Last
    ensures WriteLineDone(e, c, ws, w0, w1, h, s, ln, link)
            == CellDone(e, c, ws, TailWidth(ln, e.sel.size), h, Layout.Text(s, ln), Num(0), 0, [], false, link)
  {
  }

  /** The lines of write() drawn in turn from c. */
  function WriteDrawn(e: CellEnv, c: CellState, ws: real, w0: real, w1: real, h: real, s: Bytes, lines: seq<Line>,
                      link: LinkRef): (r: CellState)
    requires SinkOk(c.sink)
    ensures SinkOk(r.sink) && r.links.targets == c.links.targets
    decreases |lines|
  {
    if lines == [] then c
    else
      var n := |lines| - 1;
      WriteLineDone(e, WriteDrawn(e, c, ws, w0, w1, h, s, lines[..n], link), ws, w0, w1, h, s, lines[n], link)
  }

  /** Drawing one more line of write() is one more WriteLineDone. */
  lemma WriteDrawnAppend(e: CellEnv, c: CellState, ws: real, w0: real, w1: real, h: real, s: Bytes,
                         lines: seq<Line>, ln: Line, link: LinkRef)
    requires SinkOk(c.sink)
    ensures WriteDrawn(e, c, ws, w0, w1, h, s, lines + [ln], link)
            == WriteLineDone(e, WriteDrawn(e, c, ws, w0, w1, h, s, lines, link), ws, w0, w1, h, s, ln, link)
  {
    assert (lines + [ln])[..|lines|] == lines;
  }

  /** multiCell() never leaves a positive word spacing: its last chunk
      switches a positive spacing off, so the spacing is 0 afterwards
      unless the lines before left a negative one. */
  lemma MultiSpacingEnds(ws: real, lines: seq<Line>, align: Bytes, wmax: real, fontSize: real)
    requires lines != [] && lines[|lines| - 1].brk == Last
    ensures var before := SpacingAfter(ws, lines[..|lines| - 1], align, wmax, fontSize);
            var r := SpacingAfter(ws, lines, align, wmax, fontSize);
            r <= 0.0 && (before >= 0.0 ==> r == 0.0) && (before < 0.0 ==> r == before)
  {
    var n := |lines| - 1;
    assert lines == lines[..n] + [lines[n]];
    SpacedCellsAppend([], lines[..n], lines[n], ws, align, wmax, fontSize);
  }

  /** multiCell() started with a spacing that is not negative (the only
      spacing FPDF ever leaves behind) returns with the spacing exactly 0. */
  lemma MultiSpacingZero(s: Bytes, nb: nat, cw: WidthTable, wmax: real, ws: real, align: Bytes, fontSize: real)
    requires nb <= |s| && ws >= 0.0 && fontSize >= 0.0
    ensures SpacingAfter(ws, MultiLines(s, nb, cw, wmax, Start), align, wmax, fontSize) == 0.0
  {
    var lines := MultiLines(s, nb, cw, wmax, Start);
    MultiLinesEnd(s, nb, cw, wmax, Start);
    MultiLinesSpreadable(s, nb, cw, wmax, Start);
    var n := |lines| - 1;
    assert forall ln :: ln in lines[..n] ==> ln in lines;
    SpacingAfterNonNegative(ws, lines[..n], align, wmax, fontSize);
    MultiSpacingEnds(ws, lines, align, wmax, fontSize);
  }

  /** A document holding an image with a soft mask is written as PDF 1.4
      or later, and every page's dictionary declares the transparency group
      (the version above 1.3 is what switches the group on). */
  lemma MaskedPages(v: Version, images: ImageTable, t: nat, e: PageEnv, p: nat, o: nat)
    requires MasksCovered(v, images) && t < |images| && images[t].1.info.smask.Some?
    requires e.group == VersionLess(Version(1, 3), v)
    ensures !VersionLess(v, Version(1, 4)) && Grouped(PageBody(e, p, o), o)
  {
    PageDictGroup(o, if p in e.sizes then Some(e.fmt2(e.sizes[p].w) + Sp + e.fmt2(e.sizes[p].h)) else None,
                  if p in e.onPages then Some(AnnotsText(e.fmt2, e.onPages[p], e.targets, e.sizes, e.hPt, e.k))
                  else None);
  }

  /** The link areas of page p. */
  function LinksOn(m: map<nat, seq<PageLink>>, p: nat): seq<PageLink>
  {
    if p in m then m[p] else []
  }

  class Fpdf {
    /** Points per user unit, and the default orientation and page size. */
    const k: real
    const defOrientation: byte
    const defPageSize: Size
    /** What the model takes from outside (formatting, zlib, files, date). */
    const host: Host

    var sink: Sink
    var geo: Geometry
    var margins: Margins
    var pos: Cursor
    var sel: Selection
    var paint: Paint
    var reg: Registry
    var links: Links
    var meta: Meta
    var inHeader: bool
    var inFooter: bool

    /** The cells drawn so far: each one's text and the word spacing in
        effect for it. */
    ghost var shown: seq<(Bytes, real)>

    /** What every public method keeps true. */
    ghost predicate Valid()
      reads this`sink, this`geo, this`sel, this`reg, this`meta
    {
      SinkOk(sink) && Consistent() && MasksCovered(meta.version, reg.images)
    }

    /** The part of Valid() that writing to the sink cannot disturb. */
    ghost predicate Consistent()
      reads this`geo, this`sel, this`reg
    {
      k > 0.0 && (defOrientation == 'P' || defOrientation == 'L') && defPageSize.w <= defPageSize.h
      && GeoOk(geo, k) && SelOk(sel, reg.fonts, k) && RegOk(reg)
    }

    /** What cell() and text() read of the graphics state. */
    function PenAt(): Pen
      reads this`geo, this`margins, this`sel, this`reg, this`paint
    {
      PenOf(k, geo.height, margins.cell, sel, reg.fonts, paint)
    }

    // ------------------------------------------------------- construction

    /** The constructor once its checks have passed (see Create): 1 cm
        margins, a 1 mm cell margin, a 0.2 mm line, automatic page breaks
        2 cm from the bottom, default display mode, compression when zlib
        is there, black, no font, no page. */
    constructor (c: Config, h: Host)
      requires c.k > 0.0 && (c.orientation == 'P' || c.orientation == 'L') && c.size.w <= c.size.h
      requires c.width == WidthOf(c.orientation, c.size) && c.height == HeightOf(c.orientation, c.size)
      ensures Valid() && fresh(this)
      ensures k == c.k && defOrientation == c.orientation && defPageSize == c.size && host == h
      ensures sink == Sink(0, 0, [], [], 2, map[])
      ensures var m := 28.35 / c.k;
              geo == Geometry(c.orientation, c.size, map[], c.width * c.k, c.height * c.k, c.width, c.height,
                              true, 2.0 * m, c.height - 2.0 * m)
              && margins == Margins(m, m, m, m / 10.0)
      ensures pos == Cursor(0.0, 0.0, 0.0)
      ensures sel == Selection([], [], false, None, 12.0, 0.0)
      ensures paint == Paint(0.567 / c.k, DrawBlack, FillBlack, FillBlack, false, 0.0)
      ensures reg == Registry([], [], [], []) && links == Links(map[], map[])
      ensures meta == Meta(ZoomName("default"), "default", [], [], [], [], [], [], Version(1, 3), h.zlib.available)
      ensures !inHeader && !inFooter && shown == []
    {
      k, defOrientation, defPageSize, host := c.k, c.orientation, c.size, h;
      sink := Sink(0, 0, [], [], 2, map[]);
      var m := 28.35 / c.k;
      geo := Geometry(c.orientation, c.size, map[], c.width * c.k, c.height * c.k, c.width, c.height,
                      true, 2.0 * m, c.height - 2.0 * m);
      margins := Margins(m, m, m, m / 10.0);
      pos := Cursor(0.0, 0.0, 0.0);
      sel := Selection([], [], false, None, 12.0, 0.0);
      paint := Paint(0.567 / c.k, DrawBlack, FillBlack, FillBlack, false, 0.0);
      reg := Registry([], [], [], []);
      links := Links(map[], map[]);
      meta := Meta(ZoomName("default"), "default", [], [], [], [], [], [], Version(1, 3), h.zlib.available);
      inHeader, inFooter := false, false;
      shown := [];
      new;
      assert Lower("") == "" && Upper("") == "";
    }

    /** new FPDF(orientation, unit, size): the unit, the page size and the
        orientation are checked in that order; a failed check throws. */
    static method Create(orientation: Bytes, unit: Bytes, size: PageSizeArg, h: Host) returns (r: Result<Fpdf>)
      ensures r.Err? <==> Setup(orientation, unit, size).Err?
      ensures r.Err? ==> r.msg == Setup(orientation, unit, size).msg
      ensures r.Ok? ==> var c := Setup(orientation, unit, size).value;
                        fresh(r.value) && r.value.Valid() && r.value.sink.state == 0 && r.value.sink.page == 0
                        && r.value.k == c.k && r.value.defPageSize == c.size && r.value.defOrientation == c.orientation
                        && r.value.geo.width == c.width && r.value.geo.height == c.height
    {
      var c := Setup(orientation, unit, size);
      if c.Err? {
        return Err(c.msg);
      }
      var cfg := c.value;
      var doc := new Fpdf(cfg, h);
      return Ok(doc);
    }

    // --------------------------------------------------------------- _out

    /** _out(): a line goes to the current page while one is open (state
        2) and to the document buffer otherwise. */
    method Out(t: Bytes)
      requires SinkOk(sink)
      modifies this`sink
      ensures sink == Sent(old(sink), Lf(t))
    {
      if sink.state == 2 {
        sink := sink.(pages := sink.pages[sink.page - 1 := sink.pages[sink.page - 1] + Lf(t)]);
      } else {
        sink := sink.(buffer := sink.buffer + Lf(t));
      }
    }

    /** Several _out() calls in a row: t is their lines joined (see
        SentTwice). */
    method Emit(t: Bytes)
      requires SinkOk(sink)
      modifies this`sink
      ensures sink == Sent(old(sink), t)
    {
      if sink.state == 2 {
        sink := sink.(pages := sink.pages[sink.page - 1 := sink.pages[sink.page - 1] + t]);
      } else {
        sink := sink.(buffer := sink.buffer + t);
      }
    }

    /** The methods that write only on a page: _out() when page > 0. */
    method OutOnPage(t: Bytes)
      requires SinkOk(sink)
      modifies this`sink
      ensures sink == OnPage(old(sink), t)
    {
      if sink.page > 0 {
        Out(t);
      }
    }

    // ----------------------------------------------------------- settings

    /** setMargins(): the right margin defaults to the left one when it is
        omitted or 0. */
    method SetMargins(left: real, top: real, right: Option<real>)
      modifies this`margins
      ensures margins == old(margins).(left := left, top := top,
                                       right := if right.Some? && right.value != 0.0 then right.value else left)
    {
      var r := if right.Some? && right.value != 0.0 then right.value else left;
      margins := margins.(left := left, top := top, right := r);
    }

    /** setLeftMargin(): on a page, the cursor is pushed right of the new
        margin. */
    method SetLeftMargin(margin: real)
      modifies this`margins, this`pos
      ensures margins == old(margins).(left := margin)
      ensures pos == old(pos).(x := if sink.page > 0 && old(pos.x) < margin then margin else old(pos.x))
      ensures sink.page > 0 ==> pos.x >= margins.left
    {
      margins := margins.(left := margin);
      if sink.page > 0 && pos.x < margin {
        pos := pos.(x := margin);
      }
    }

    method SetTopMargin(margin: real)
      modifies this`margins
      ensures margins == old(margins).(top := margin)
    {
      margins := margins.(top := margin);
    }

    method SetRightMargin(margin: real)
      modifies this`margins
      ensures margins == old(margins).(right := margin)
    {
      margins := margins.(right := margin);
    }

    /** setAutoPageBreak(): the trigger is the bottom margin above the
        bottom of the page. */
    method SetAutoPageBreak(auto: bool, margin: real)
      requires Valid()
      modifies this`geo
      ensures Valid()
      ensures geo == old(geo).(auto := auto, bottom := margin, trigger := geo.height - margin)
    {
      geo := geo.(auto := auto, bottom := margin, trigger := geo.height - margin);
    }

    /** setDisplayMode(): the zoom is checked and stored first, then the
        layout. */
    method SetDisplayMode(zoom: Zoom, layout: Bytes) returns (r: Outcome)
      requires Valid()
      modifies this`meta
      ensures Valid()
      ensures r.Pass? <==> ZoomOk(zoom) && LayoutOk(layout)
      ensures !ZoomOk(zoom) ==> r == Fail(BadZoom + zoom.name) && meta == old(meta)
      ensures ZoomOk(zoom) && !LayoutOk(layout) ==> r == Fail(BadLayout + layout) && meta == old(meta).(zoom := zoom)
      ensures r.Pass? ==> meta == old(meta).(zoom := zoom, layout := layout)
    {
      if ZoomOk(zoom) {
        meta := meta.(zoom := zoom);
      } else {
        return Fail(BadZoom + zoom.name);
      }
      if LayoutOk(layout) {
        meta := meta.(layout := layout);
      } else {
        return Fail(BadLayout + layout);
      }
      return Pass;
    }

    /** setCompression(): compression stays off without zlib. */
    method SetCompression(c: bool)
      requires Valid()
      modifies this`meta
      ensures Valid()
      ensures meta == old(meta).(compress := c && host.zlib.available)
    {
      meta := meta.(compress := if host.zlib.available then c else false);
    }

    /** _setMeta(), behind setTitle(), setSubject(), setAuthor(),
        setKeywords() and setCreator(): the value is stored as given, or
        converted from UTF-8 to UTF-16BE with a byte-order mark. */
    method SetMeta(key: MetaKey, value: Bytes, isUTF8: bool)
      requires Valid()
      modifies this`meta
      ensures Valid()
      ensures meta == WithMeta(old(meta), key, if isUTF8 then Bom + Utf16From(value, 0) else value)
    {
      var v := value;
      if isUTF8 {
        v := Utf8ToUtf16(value);
      }
      match key
      case Title => meta := meta.(title := v);
      case Subject => meta := meta.(subject := v);
      case Author => meta := meta.(author := v);
      case Keywords => meta := meta.(keywords := v);
      case Creator => meta := meta.(creator := v);
    }

    method AliasNbPages(alias: Bytes)
      requires Valid()
      modifies this`meta
      ensures Valid()
      ensures meta == old(meta).(alias := alias)
    {
      meta := meta.(alias := alias);
    }

    /** open(): the document is begun. */
    method Open()
      requires Valid()
      modifies this`sink
      ensures Valid() && sink == old(sink).(state := 1)
    {
      sink := sink.(state := 1);
    }

    function PageNo(): (r: nat)
      reads this`sink
      ensures r == sink.page
    {
      sink.page
    }

    /** The page hooks: no-ops unless a subclass overrides them. */
    method Header()
    {
    }

    method Footer()
    {
    }

    /** Whether cell() may break the page: the automatic page break setting. */
    function AcceptPageBreak(): (r: bool)
      reads this`geo
      ensures r == geo.auto
    {
      geo.auto
    }

    // --------------------------------------------------------------- pages

    /** _beginPage(): a new empty page, written to from now on, with the
        cursor at the top left margin and no font family selected; then the
        page's orientation and size are read and the geometry follows them.
        An unknown size name throws after the page was begun. */
    method BeginPage(orientation: Bytes, size: PageSizeArg) returns (r: Outcome)
      requires Valid() && sink.state != 2
      modifies this`sink, this`pos, this`sel, this`geo
      ensures Valid()
      ensures sink == Opened(old(sink)) && sel == old(sel).(family := [])
      ensures pos == old(pos).(x := margins.left, y := margins.top)
      ensures var sz := PageSizeOf(size, defPageSize, k);
              && (r.Fail? <==> sz.Err?)
              && (r.Fail? ==> r.msg == sz.msg && geo == old(geo))
              && (r.Pass? ==> geo == Resized(old(geo), PageOrientation(orientation, defOrientation), sz.value, k,
                                             defOrientation, defPageSize, sink.page))
    {
      sink := Opened(sink);
      pos := pos.(x := margins.left, y := margins.top);
      sel := sel.(family := []);
      var o := PageOrientation(orientation, defOrientation);
      var sz := PageSizeOf(size, defPageSize, k);
      if sz.Err? {
        return Fail(sz.msg);
      }
      geo := Resized(geo, o, sz.value, k, defOrientation, defPageSize, sink.page);
      r := Pass;
    }

    /** addPage(): open() if the document is not begun; the footer and
        _endPage() if a page is open; _beginPage(); then the line cap, the
        line width, the font and the colours of the previous page are set
        again on the new one, so that the page starts with PageStart; then
        the header.  The selection, the painting state and the registries
        come out as they went in. */
    method AddPage(orientation: Bytes, size: PageSizeArg) returns (r: Outcome)
      requires Valid()
      modifies this`sink, this`geo, this`pos, this`sel, this`inHeader, this`inFooter
      ensures Valid()
      ensures inFooter == (old(inFooter) && old(sink.page) == 0)
      ensures inHeader == (r.Fail? && old(inHeader))
      ensures pos == old(pos).(x := margins.left, y := margins.top)
      ensures var sz := PageSizeOf(size, defPageSize, k);
              && (r.Fail? <==> sz.Err?)
              && (r.Fail? ==> r.msg == sz.msg && geo == old(geo) && sel == old(sel).(family := [])
                              && sink == Opened(Ended(old(sink))))
              && (r.Pass? ==> geo == Resized(old(geo), PageOrientation(orientation, defOrientation), sz.value, k,
                                             defOrientation, defPageSize, old(sink.page) + 1)
                              && sel == old(sel)
                              && sink == Sent(Opened(Ended(old(sink))),
                                              PageStart(host.fmt2, k, paint, old(sel), reg.fonts)))
    {
      EndCurrent();
      r := NextPage(orientation, size);
    }

    /** addPage() once the previous page is closed: _beginPage(), the
        settings of the previous page written again, and the header. */
    method NextPage(orientation: Bytes, size: PageSizeArg) returns (r: Outcome)
      requires Valid() && sink.state != 2
      modifies this`sink, this`geo, this`pos, this`sel, this`inHeader
      ensures Valid()
      ensures inHeader == (r.Fail? && old(inHeader))
      ensures pos == old(pos).(x := margins.left, y := margins.top)
      ensures var sz := PageSizeOf(size, defPageSize, k);
              && (r.Fail? <==> sz.Err?)
              && (r.Fail? ==> r.msg == sz.msg && geo == old(geo) && sel == old(sel).(family := [])
                              && sink == Opened(old(sink)))
              && (r.Pass? ==> geo == Resized(old(geo), PageOrientation(orientation, defOrientation), sz.value, k,
                                             defOrientation, defPageSize, old(sink.page) + 1)
                              && sel == old(sel)
                              && sink == Sent(Opened(old(sink)), PageStart(host.fmt2, k, paint, old(sel), reg.fonts)))
    {
      var family, style, fontsize := sel.family, sel.style + (if sel.underline then "U" else ""), sel.sizePt;
      ghost var sel0 := sel;
      r := BeginPage(orientation, size);
      if r.Fail? {
        return;
      }
      DressPage(family, style, fontsize, sel0);
    }

    /** The new page of addPage() made up: the settings of the previous
        page (prev) written again, then the header. */
    method DressPage(family: Bytes, style: Bytes, fontsize: real, ghost prev: Selection)
      requires Valid() && sink.page > 0 && SelOk(prev, reg.fonts, k) && family == prev.family
      requires sel == prev.(family := []) && fontsize == prev.sizePt
      requires style == prev.style + (if prev.underline then "U" else "")
      modifies this`sel, this`sink, this`inHeader
      ensures Valid() && sel == prev && !inHeader
      ensures sink == Sent(old(sink), PageStart(host.fmt2, k, paint, prev, reg.fonts))
    {
      StartPage(family, style, fontsize, prev);
      RunHeader(family, style, fontsize, prev);
    }

    /** The start of addPage(): open() in state 0, and the footer and
        _endPage() when a page is open. */
    method EndCurrent()
      requires Valid()
      modifies this`sink, this`inFooter
      ensures Valid() && sink == Ended(old(sink)) && inFooter == (old(inFooter) && old(sink.page) == 0)
    {
      if sink.state == 0 {
        Open();
      }
      if sink.page > 0 {
        inFooter := true;
        Footer();
        inFooter := false;
        sink := sink.(state := 1);
      }
    }

    /** The end of addPage(): the header, then the font of the previous
        page selected once more, which the header may have changed (with
        the hook a no-op, setFont() returns at once). */
    method RunHeader(family: Bytes, style: Bytes, fontsize: real, ghost prev: Selection)
      requires Valid() && sel == prev && family == prev.family && fontsize == prev.sizePt
      requires style == prev.style + (if prev.underline then "U" else "")
      modifies this`sel, this`sink, this`inHeader
      ensures Valid() && sel == old(sel) && sink == old(sink) && !inHeader
    {
      inHeader := true;
      Header();
      inHeader := false;
      if family != [] {
        RestoreAgain(reg, sel, sink, k, host.fmt2, host.loadFont);
        var a := FontSet(reg, sel, sink, family, style, fontsize, k, host.fmt2, host.loadFont);
        sel, sink := a.2, a.3;
      }
    }

    /** What addPage() writes at the top of a new page, in its order: the
        line cap, the line width, the font of the previous page (prev) and
        the colours that are not black. */
    method StartPage(family: Bytes, style: Bytes, fontsize: real, ghost prev: Selection)
      requires Valid() && sink.page > 0 && SelOk(prev, reg.fonts, k) && family == prev.family
      requires sel == prev.(family := []) && fontsize == prev.sizePt
      requires style == prev.style + (if prev.underline then "U" else "")
      modifies this`sel, this`sink
      ensures Valid() && sel == prev
      ensures sink == Sent(old(sink), PageStart(host.fmt2, k, paint, prev, reg.fonts))
    {
      ghost var s1 := sink;
      var lines, colors := StrokeLines(host.fmt2, k, paint), ColorLines(paint);
      Emit(lines);
      if family != [] {
        Reselect(family, style, fontsize, prev);
        Emit(colors);
        SentAll(s1, lines, FontLine(host.fmt2, prev, reg.fonts), colors);
      } else {
        Emit(colors);
        SentTwice(s1, lines, colors);
        assert FontLine(host.fmt2, prev, reg.fonts) + colors == colors;
      }
    }

    /** addPage()'s first setFont() on the new page, with the family,
        style and size of the previous page (prev): by RestoreFont it
        selects prev again and writes its operator. */
    method Reselect(family: Bytes, style: Bytes, fontsize: real, ghost prev: Selection)
      requires Valid() && sink.page > 0 && SelOk(prev, reg.fonts, k) && family == prev.family && family != []
      requires sel == prev.(family := []) && fontsize == prev.sizePt
      requires style == prev.style + (if prev.underline then "U" else "")
      modifies this`sel, this`sink
      ensures Valid() && sel == prev
      ensures sink == Sent(old(sink), Lf(FontOp(host.fmt2, FontIndex(prev, reg.fonts), fontsize)))
    {
      RestoreFont(reg, prev, sink, k, host.fmt2, host.loadFont);
      var a := FontSet(reg, sel, sink, family, style, fontsize, k, host.fmt2, host.loadFont);
      sel, sink := a.2, a.3;
    }

    // --------------------------------------------------------------- cells

    /** cell()'s test for an automatic page break: the cell would cross
        the trigger, outside the header and the footer, and
        acceptPageBreak() agrees. */
    predicate BreakDue(h: real)
      reads this`pos, this`geo, this`inHeader, this`inFooter
    {
      pos.y + h > geo.trigger && !inHeader && !inFooter && AcceptPageBreak()
    }

    /** cell()'s automatic page break: a positive word spacing is switched
        off, addPage() is called with the current orientation and size, and
        the spacing is switched on again; the cursor keeps its x. */
    method AutoBreak()
      requires Valid() && !inHeader && !inFooter
      modifies this`sink, this`geo, this`pos, this`sel, this`paint, this`inHeader, this`inFooter
      ensures Valid() && sel == old(sel) && paint == old(paint) && !inHeader && !inFooter
      ensures geo == old(geo).(pageSizes := geo.pageSizes)
      ensures pos == old(pos).(y := margins.top)
      ensures sink == BreakSink(old(sink), PageStart(host.fmt2, k, paint, sel, reg.fonts), paint.ws,
                                    SpacingOn(host.fmt3, paint.ws, k))
    {
      var ws := PauseSpacing();
      ghost var s1 := sink;
      PageStartIgnoresSpacing(host.fmt2, k, paint, ws, sel, reg.fonts);
      BreakPage();
      ghost var s2 := sink;
      ResumeSpacing(ws);
      BreakSinkSteps(old(sink), s1, s2, sink, PageStart(host.fmt2, k, paint, sel, reg.fonts), paint.ws,
                     SpacingOn(host.fmt3, paint.ws, k));
    }

    /** The word spacing switched off before an automatic page break; the
        previous spacing is returned. */
    method PauseSpacing() returns (ws: real)
      requires Valid()
      modifies this`sink, this`paint
      ensures Valid()
      ensures ws == old(paint.ws)
      ensures paint == (if ws > 0.0 then old(paint).(ws := 0.0) else old(paint))
      ensures sink == (if ws > 0.0 then Sent(old(sink), Lf(SpacingOff)) else old(sink))
    {
      ws := paint.ws;
      if ws > 0.0 {
        paint := paint.(ws := 0.0);
        Out(SpacingOff);
      }
    }

    /** The word spacing restored after an automatic page break. */
    method ResumeSpacing(ws: real)
      requires Valid() && paint.ws == (if ws > 0.0 then 0.0 else ws)
      modifies this`sink, this`paint
      ensures Valid()
      ensures paint == old(paint).(ws := ws)
      ensures sink == (if ws > 0.0 then Sent(old(sink), Lf(SpacingOn(host.fmt3, ws, k))) else old(sink))
    {
      if ws > 0.0 {
        paint := paint.(ws := ws);
        Out(SpacingOn(host.fmt3, ws, k));
      }
    }

    /** addPage() with the current orientation and size, the abscissa kept. */
    method BreakPage()
      requires Valid() && !inHeader && !inFooter
      modifies this`sink, this`geo, this`pos, this`sel, this`inHeader, this`inFooter
      ensures Valid() && sel == old(sel) && !inHeader && !inFooter
      ensures geo == old(geo).(pageSizes := geo.pageSizes)
      ensures pos == old(pos).(y := margins.top)
      ensures sink == Sent(Opened(Ended(old(sink))), PageStart(host.fmt2, k, paint, sel, reg.fonts))
    {
      var x := pos.x;
      SameFormat(geo, k, defOrientation, defPageSize, sink.page + 1);
      var r := AddPage([geo.orientation], Dims(geo.size.w, geo.size.h));
      pos := pos.(x := x);
    }

    /** The page break cell() makes when it is due. */
    method MaybeBreak(h: real)
      requires Valid()
      modifies this`sink, this`geo, this`pos, this`sel, this`paint, this`inHeader, this`inFooter
      ensures Valid() && sel == old(sel) && paint == old(paint)
      ensures inHeader == old(inHeader) && inFooter == old(inFooter)
      ensures geo == old(geo).(pageSizes := geo.pageSizes) && EnvOf() == old(EnvOf())
      ensures StateOf() == BreakDone(old(EnvOf()), old(StateOf()), paint.ws, h)
    {
      ghost var e := EnvOf();
      assert paint == e.paint.(ws := paint.ws);
      if BreakDue(h) {
        AutoBreak();
      }
    }

    /** cell() once any page break is done: PutDone. */
    method PutCell(w: real, h: real, txt: Bytes, border: Border, ln: int, align: Bytes, fill: bool, link: LinkRef)
      requires SinkOk(sink)
      modifies this`sink, this`pos, this`links, this`shown
      ensures StateOf() == PutDone(EnvOf(), old(StateOf()), paint.ws, w, h, txt, border, ln, align, fill, link)
      ensures shown == old(shown) + [(txt, paint.ws)]
    {
      ghost var e := EnvOf();
      ghost var r := PutDone(e, StateOf(), paint.ws, w, h, txt, border, ln, align, fill, link);
      var pen := PenAt();
      assert e.paint.(ws := paint.ws) == paint;
      var w1 := CellWidth(w, geo.width, margins.right, pos.x);
      var ops := CellOps(host.fmt2, pen, pos.x, pos.y, w1, h, txt, border, align, fill);
      links := CellLinks(links, sink.page, geo.heightPt, pen, pos.x, pos.y, w1, h, txt, align, link);
      assert links == r.links;
      if ops != [] {
        Out(ops);
      }
      assert sink == r.sink;
      shown := shown + [(txt, paint.ws)];
      pos := CellCursor(pos, w1, h, ln, margins.left);
      assert pos == r.pos && EnvOf() == e;
      assert StateOf() == r;
    }

    /** cell(): the automatic page break when due, then the cell at the
        cursor (at the top margin of the new page after a break): what it
        does to the output, the cursor and the links is CellDone. */
    method Cell(w: real, h: real, txt: Bytes, border: Border, ln: int, align: Bytes, fill: bool, link: LinkRef)
      requires Valid()
      modifies this`sink, this`geo, this`pos, this`sel, this`paint, this`inHeader, this`inFooter, this`links,
               this`shown
      ensures Valid() && sel == old(sel) && paint == old(paint)
      ensures inHeader == old(inHeader) && inFooter == old(inFooter)
      ensures geo == old(geo).(pageSizes := geo.pageSizes) && EnvOf() == old(EnvOf())
      ensures shown == old(shown) + [(txt, paint.ws)]
      ensures StateOf() == CellDone(old(EnvOf()), old(StateOf()), paint.ws, w, h, txt, border, ln, align, fill, link)
    {
      MaybeBreak(h);
      PutCell(w, h, txt, border, ln, align, fill, link);
    }

    /** The word spacing multiCell() sets before drawing a line. */
    method SpaceLine(ln: Line, align: Bytes, wmax: real, fontSize: real)
      requires Valid()
      modifies this`sink, this`paint
      ensures Valid()
      ensures paint == old(paint).(ws := Spacing(old(paint.ws), ln, align, wmax, fontSize))
      ensures sink == SpacingSink(old(sink), old(paint.ws), ln, align, wmax, fontSize, host.fmt3, k)
    {
      if ln.brk == AtSpace {
        if align == "J" {
          paint := paint.(ws := Justify(wmax, ln.ls, fontSize, ln.ns));
          Out(SpacingOn(host.fmt3, paint.ws, k));
        }
      } else if paint.ws > 0.0 {
        paint := paint.(ws := 0.0);
        Out(SpacingOff);
      }
    }

    /** What cell() reads and multiCell() and write() keep (see CellEnv). */
    function EnvOf(): CellEnv
      reads this`geo, this`margins, this`sel, this`reg, this`paint, this`inHeader, this`inFooter
    {
      CellEnv(host.fmt2, host.fmt3, k, paint.(ws := 0.0), sel, reg.fonts, margins, geo.width, geo.height,
              geo.heightPt, geo.trigger, !inHeader && !inFooter && AcceptPageBreak())
    }

    /** The output, the cursor and the link areas. */
    function StateOf(): CellState
      reads this`sink, this`pos, this`links
    {
      CellState(sink, pos, links)
    }

    /** One line of multiCell(): its spacing, then a cell of width w with
        the line's text, moving down and keeping x. */
    method MultiLine(w: real, h: real, s: Bytes, ln: Line, b: Border, align: Bytes, fill: bool, wmax: real,
                     fontSize: real)
      requires Valid() && fontSize == sel.size
      modifies this`sink, this`geo, this`pos, this`sel, this`paint, this`inHeader, this`inFooter, this`links,
               this`shown
      ensures Valid() && sel == old(sel)
      ensures inHeader == old(inHeader) && inFooter == old(inFooter)
      ensures paint == old(paint).(ws := Spacing(old(paint.ws), ln, align, wmax, fontSize))
      ensures shown == old(shown) + [(Layout.Text(s, ln), paint.ws)]
      ensures EnvOf() == old(EnvOf()) && geo == old(geo).(pageSizes := geo.pageSizes)
      ensures StateOf() == MultiLineDone(old(EnvOf()), old(StateOf()), old(paint.ws), w, h, s, ln, b, align, fill, wmax)
    {
      SpaceLine(ln, align, wmax, fontSize);
      Cell(w, h, Layout.Text(s, ln), b, 2, align, fill, Url([]));
    }

    /** One iteration of multiCell()'s loop: the line MultiStep emits, if
        any, drawn as MultiLine draws it, with the border of the first line
        or of the following ones; done lists the lines drawn so far, shown0
        and paint0 are the log and the paint before the first. */
    method MultiIter(w: real, h: real, s: Bytes, nb: nat, cw: WidthTable, wmax: real, fs: real, border: Border,
                     align: Bytes, fill: bool, sc: Scan, b: Border, nl: int, ghost done: seq<Line>,
                     ghost shown0: seq<(Bytes, real)>, ghost paint0: Paint, ghost e0: CellEnv, ghost c0: CellState)
      returns (sc1: Scan, b1: Border, nl1: int, ghost done1: seq<Line>)
      requires Valid() && nb <= |s| && Inside(nb, sc) && sc.i < nb && nl == |done| + 1
      requires b == (if done == [] then MultiBorders(border).0 else MultiBorders(border).1)
      requires shown == shown0 + SpacedCells(s, done, paint0.ws, align, wmax, fs)
      requires paint == paint0.(ws := SpacingAfter(paint0.ws, done, align, wmax, fs))
      requires SinkOk(c0.sink) && EnvOf() == e0 && fs == sel.size
      requires StateOf() == MultiDrawn(e0, c0, paint0.ws, w, h, s, done, MultiBorders(border).0, MultiBorders(border).1,
                                       align, fill, wmax)
      modifies this`sink, this`geo, this`pos, this`sel, this`paint, this`inHeader, this`inFooter, this`links,
               this`shown
      ensures Valid() && sel == old(sel) && inHeader == old(inHeader) && inFooter == old(inFooter)
      ensures Inside(nb, sc1) && nl1 == |done1| + 1 && (sc1.j > sc.j || (sc1.j == sc.j && sc1.i > sc.i))
      ensures b1 == (if done1 == [] then MultiBorders(border).0 else MultiBorders(border).1)
      ensures done + MultiLines(s, nb, cw, wmax, sc) == done1 + MultiLines(s, nb, cw, wmax, sc1)
      ensures shown == shown0 + SpacedCells(s, done1, paint0.ws, align, wmax, fs)
      ensures paint == paint0.(ws := SpacingAfter(paint0.ws, done1, align, wmax, fs))
      ensures EnvOf() == e0 && geo == old(geo).(pageSizes := geo.pageSizes)
      ensures StateOf() == MultiDrawn(e0, c0, paint0.ws, w, h, s, done1, MultiBorders(border).0, MultiBorders(border).1,
                                      align, fill, wmax)
    {
      var step := MultiStep(s, nb, cw, wmax, sc);
      MultiLinesStep(s, nb, cw, wmax, sc, done);
      sc1, b1, nl1, done1 := step.1, b, nl, done;
      if step.0.Some? {
        var ln := step.0.value;
        MultiLine(w, h, s, ln, b, align, fill, wmax, fs);
        done1 := done + [ln];
        SpacedCellsLogged(s, done, ln, paint0.ws, align, wmax, fs, shown0, shown, paint.ws);
        assert StateOf() == MultiDrawn(e0, c0, paint0.ws, w, h, s, done1, MultiBorders(border).0,
                                       MultiBorders(border).1, align, fill, wmax) by {
          MultiDrawnAppend(e0, c0, paint0.ws, w, h, s, done, ln, MultiBorders(border).0,
                           MultiBorders(border).1, align, fill, wmax);
        }
        nl1 := nl + 1;
        if BorderSet(border) && nl1 == 2 {
          b1 := MultiBorders(border).1;
        }
      }
    }

    /** multiCell()'s last chunk, drawn after the lines done with border b
        and the bottom side added when the border asks for it. */
    method MultiLast(w: real, h: real, s: Bytes, border: Border, align: Bytes, fill: bool, wmax: real, fs: real,
                     last: Line, b: Border, ghost done: seq<Line>, ghost shown0: seq<(Bytes, real)>,
                     ghost paint0: Paint, ghost e0: CellEnv)
      requires Valid()
      requires shown == shown0 + SpacedCells(s, done, paint0.ws, align, wmax, fs)
      requires paint == paint0.(ws := SpacingAfter(paint0.ws, done, align, wmax, fs))
      requires b == (if done == [] then MultiBorders(border).0 else MultiBorders(border).1)
      requires EnvOf() == e0 && fs == sel.size
      modifies this`sink, this`geo, this`pos, this`sel, this`paint, this`inHeader, this`inFooter, this`links,
               this`shown
      ensures Valid() && sel == old(sel) && inHeader == old(inHeader) && inFooter == old(inFooter)
      ensures shown == shown0 + SpacedCells(s, done + [last], paint0.ws, align, wmax, fs)
      ensures paint == paint0.(ws := SpacingAfter(paint0.ws, done + [last], align, wmax, fs))
      ensures EnvOf() == e0 && geo == old(geo).(pageSizes := geo.pageSizes)
      ensures StateOf() == MultiLineDone(e0, old(StateOf()), SpacingAfter(paint0.ws, done, align, wmax, fs), w, h, s, last,
                                         LastBorder(border, done == []), align, fill, wmax)
    {
      var bl := if MultiBorders(border).2 then Sides(SideText(b) + "B") else b;
      assert bl == LastBorder(border, done == []);
      MultiLine(w, h, s, last, bl, align, fill, wmax, fs);
      SpacedCellsLogged(s, done, last, paint0.ws, align, wmax, fs, shown0, shown, paint.ws);
    }

    /** The loop of multiCell(): every line before the last chunk drawn as
        MultiLine draws it, the first with the first line's border and the
        others with the following lines'; returns the loop's final state
        and border. */
    method MultiRun(w: real, h: real, s: Bytes, nb: nat, cw: WidthTable, wmax: real, fs: real, border: Border,
                    align: Bytes, fill: bool) returns (sc: Scan, b: Border, ghost done: seq<Line>)
      requires Valid() && nb <= |s| && fs == sel.size
      modifies this`sink, this`geo, this`pos, this`sel, this`paint, this`inHeader, this`inFooter, this`links,
               this`shown
      ensures Valid() && sel == old(sel) && inHeader == old(inHeader) && inFooter == old(inFooter)
      ensures Inside(nb, sc) && sc.i >= nb
      ensures MultiLines(s, nb, cw, wmax, Start) == done + [Line(sc.j, sc.i, Last, sc.ns, sc.ls, false)]
      ensures shown == old(shown) + SpacedCells(s, done, old(paint.ws), align, wmax, fs)
      ensures paint == old(paint).(ws := SpacingAfter(old(paint.ws), done, align, wmax, fs))
      ensures b == (if done == [] then MultiBorders(border).0 else MultiBorders(border).1)
      ensures EnvOf() == old(EnvOf()) && geo == old(geo).(pageSizes := geo.pageSizes)
      ensures StateOf() == MultiDrawn(old(EnvOf()), old(StateOf()), old(paint.ws), w, h, s, done, MultiBorders(border).0,
                                      MultiBorders(border).1, align, fill, wmax)
    {
      b := MultiBorders(border).0;
      sc := Start;
      var nl := 1;
      done := [];
      while sc.i < nb
        invariant Valid() && sel == old(sel) && inHeader == old(inHeader) && inFooter == old(inFooter)
        invariant Inside(nb, sc) && nl == |done| + 1
        invariant b == (if done == [] then MultiBorders(border).0 else MultiBorders(border).1)
        invariant MultiLines(s, nb, cw, wmax, Start) == done + MultiLines(s, nb, cw, wmax, sc)
        invariant shown == old(shown) + SpacedCells(s, done, old(paint.ws), align, wmax, fs)
        invariant paint == old(paint).(ws := SpacingAfter(old(paint.ws), done, align, wmax, fs))
        invariant EnvOf() == old(EnvOf()) && geo == old(geo).(pageSizes := geo.pageSizes)
        invariant StateOf() == MultiDrawn(old(EnvOf()), old(StateOf()), old(paint.ws), w, h, s, done,
                                          MultiBorders(border).0, MultiBorders(border).1, align, fill, wmax)
        decreases nb - sc.j, nb - sc.i
      {
        sc, b, nl, done := MultiIter(w, h, s, nb, cw, wmax, fs, border, align, fill, sc, b, nl, done,
                                     old(shown), old(paint), old(EnvOf()), old(StateOf()));
      }
    }

    /** The room multiCell() lays its lines out in, for a cell of width w
        (0 reaching the right margin) at the cursor. */
    function MultiRoom(w: real): real
      reads this`geo, this`margins, this`pos, this`sel
      requires sel.size != 0.0
    {
      Room1000(CellWidth(w, geo.width, margins.right, pos.x), margins.cell, sel.size)
    }

    /** multiCell(): the text, without carriage returns and one trailing
        newline, is cut into the lines of MultiLines for the cell width w (0
        reaching the right margin) less the cell margins, each drawn as a
        cell below the previous one with the word spacing of SpacedCells;
        the cursor ends at the left margin.  A font size of 0 throws before
        anything is drawn. */
    method MultiCell(w: real, h: real, txt: Bytes, border: Border, align: Bytes, fill: bool) returns (r: Outcome)
      requires Valid()
      modifies this`sink, this`geo, this`pos, this`sel, this`paint, this`inHeader, this`inFooter, this`links,
               this`shown
      ensures Valid() && sel == old(sel)
      ensures inHeader == old(inHeader) && inFooter == old(inFooter)
      ensures r.Fail? <==> sel.size == 0.0
      ensures r.Fail? ==> r.msg == NoFontSize && sink == old(sink) && pos == old(pos) && paint == old(paint)
                          && shown == old(shown) && links == old(links) && geo == old(geo)
      ensures r.Pass? ==>
                var (s, nb) := MultiText(txt);
                var wmax := old(MultiRoom(w));
                var lines := MultiLines(s, nb, CurrentWidths(sel, reg.fonts), wmax, Start);
                && shown == old(shown) + SpacedCells(s, lines, old(paint.ws), align, wmax, sel.size)
                && paint == old(paint).(ws := SpacingAfter(old(paint.ws), lines, align, wmax, sel.size))
                && paint.ws <= 0.0
                && EnvOf() == old(EnvOf()) && geo == old(geo).(pageSizes := geo.pageSizes)
                && StateOf() == MultiDone(old(EnvOf()), old(StateOf()), old(paint.ws),
                                          old(CellWidth(w, geo.width, margins.right, pos.x)), h, s, lines, border,
                                          align, fill, wmax)
    {
      var fs := sel.size;
      if fs == 0.0 {
        return Fail(NoFontSize);
      }
      var cw := CurrentWidths(sel, reg.fonts);
      var w1 := CellWidth(w, geo.width, margins.right, pos.x);
      var wmax := Room1000(w1, margins.cell, fs);
      assert wmax == MultiRoom(w);
      var (s, nb) := MultiText(txt);
      MultiDraw(w1, h, s, nb, cw, wmax, fs, border, align, fill);
      return Pass;
    }

    /** multiCell() once its width and room are known: the lines of s
        drawn as MultiDone draws them, the cursor back at the left margin
        and the word spacing no longer positive. */
    method MultiBody(w: real, h: real, s: Bytes, nb: nat, cw: WidthTable, wmax: real, fs: real, border: Border,
                     align: Bytes, fill: bool)
      requires Valid() && nb <= |s| && fs == sel.size
      modifies this`sink, this`geo, this`pos, this`sel, this`paint, this`inHeader, this`inFooter, this`links,
               this`shown
      ensures Valid() && sel == old(sel) && inHeader == old(inHeader) && inFooter == old(inFooter)
      ensures var lines := MultiLines(s, nb, cw, wmax, Start);
              && shown == old(shown) + SpacedCells(s, lines, old(paint.ws), align, wmax, fs)
              && paint == old(paint).(ws := SpacingAfter(old(paint.ws), lines, align, wmax, fs))
              && paint.ws <= 0.0
              && EnvOf() == old(EnvOf()) && geo == old(geo).(pageSizes := geo.pageSizes)
              && StateOf().(pos := pos.(x := margins.left))
                 == MultiDone(old(EnvOf()), old(StateOf()), old(paint.ws), w, h, s, lines, border, align, fill, wmax)
    {
      ghost var e, c, p0, sh0 := EnvOf(), StateOf(), paint, shown;
      ghost var done;
      var sc, b;
      sc, b, done := MultiRun(w, h, s, nb, cw, wmax, fs, border, align, fill);
      var last := Line(sc.j, sc.i, Last, sc.ns, sc.ls, false);
      MultiLast(w, h, s, border, align, fill, wmax, fs, last, b, done, sh0, p0, e);
      MultiDoneLast(e, c, p0.ws, w, h, s, done, last, border, align, fill, wmax, StateOf());
      ghost var lines := done + [last];
      assert lines == MultiLines(s, nb, cw, wmax, Start);
      MultiSpacingEnds(p0.ws, lines, align, wmax, fs);
    }

    /** MultiBody, then the cursor back at the left margin. */
    method MultiDraw(w: real, h: real, s: Bytes, nb: nat, cw: WidthTable, wmax: real, fs: real, border: Border,
                     align: Bytes, fill: bool)
      requires Valid() && nb <= |s| && fs == sel.size
      modifies this`sink, this`geo, this`pos, this`sel, this`paint, this`inHeader, this`inFooter, this`links,
               this`shown
      ensures Valid() && sel == old(sel) && inHeader == old(inHeader) && inFooter == old(inFooter)
      ensures var lines := MultiLines(s, nb, cw, wmax, Start);
              && shown == old(shown) + SpacedCells(s, lines, old(paint.ws), align, wmax, fs)
              && paint == old(paint).(ws := SpacingAfter(old(paint.ws), lines, align, wmax, fs))
              && paint.ws <= 0.0
              && EnvOf() == old(EnvOf()) && geo == old(geo).(pageSizes := geo.pageSizes)
              && StateOf() == MultiDone(old(EnvOf()), old(StateOf()), old(paint.ws), w, h, s, lines, border,
                                        align, fill, wmax)
    {
      ghost var e, c, ws := EnvOf(), StateOf(), paint.ws;
      MultiBody(w, h, s, nb, cw, wmax, fs, border, align, fill);
      ghost var d := StateOf();
      assert d.(pos := d.pos.(x := margins.left))
             == MultiDone(e, c, ws, w, h, s, MultiLines(s, nb, cw, wmax, Start), border, align, fill, wmax);
      ReturnLeft();
      assert StateOf() == d.(pos := d.pos.(x := margins.left)) && EnvOf() == e;
    }

    /** The cursor at the left margin of the line h below. */
    method LineDown(h: real)
      modifies this`pos
      ensures pos == old(pos).(x := margins.left, y := old(pos.y) + h)
    {
      pos := pos.(x := margins.left, y := pos.y + h);
    }

    /** The cursor back at the left margin, on the same line. */
    method ReturnLeft()
      modifies this`pos
      ensures pos == old(pos).(x := margins.left)
    {
      pos := pos.(x := margins.left);
    }

    /** One line of write(), as WriteLineDone draws it: a move down goes to
        the left margin of the next line; the last chunk is a cell as wide
        as its text; any other line is a cell of width w0 (the first line)
        or w1 with the line's text and the link, moving down and keeping x,
        after which the first line returns to the left margin. */
    method WriteLine(w0: real, w1: real, h: real, s: Bytes, ln: Line, link: LinkRef)
      requires Valid()
      modifies this`sink, this`geo, this`pos, this`sel, this`paint, this`inHeader, this`inFooter, this`links,
               this`shown
      ensures Valid() && sel == old(sel) && paint == old(paint)
      ensures inHeader == old(inHeader) && inFooter == old(inFooter)
      ensures shown == old(shown) + ShownTexts(s, [ln], paint.ws)
      ensures EnvOf() == old(EnvOf()) && geo == old(geo).(pageSizes := geo.pageSizes)
      ensures StateOf() == WriteLineDone(old(EnvOf()), old(StateOf()), paint.ws, w0, w1, h, s, ln, link)
    {
      if ln.brk == MoveDown {
        WriteDown(w0, w1, h, s, ln, link);
      } else if ln.brk == Last {
        WriteTail(w0, w1, h, s, ln, link);
      } else {
        WriteCell(w0, w1, h, s, ln, link);
      }
    }

    /** A move down of write(): nothing shown, the cursor at the left
        margin of the next line. */
    method WriteDown(w0: real, w1: real, h: real, s: Bytes, ln: Line, link: LinkRef)
      requires Valid() && ln.brk == MoveDown
      modifies this`pos, this`shown
      ensures Valid() && shown == old(shown) + ShownTexts(s, [ln], paint.ws)
      ensures StateOf() == WriteLineDone(EnvOf(), old(StateOf()), paint.ws, w0, w1, h, s, ln, link)
    {
      assert [ln][1..] == [];
      ghost var c := StateOf();
      LineDown(h);
      assert StateOf() == c.(pos := c.pos.(x := margins.left, y := c.pos.y + h));
    }

    /** write()'s last chunk: a cell as wide as its text, keeping the
        cursor on the line. */
    method WriteTail(w0: real, w1: real, h: real, s: Bytes, ln: Line, link: LinkRef)
      requires Valid() && ln.brk == Last
      modifies this`sink, this`geo, this`pos, this`sel, this`paint, this`inHeader, this`inFooter, this`links,
               this`shown
      ensures Valid() && sel == old(sel) && paint == old(paint)
      ensures inHeader == old(inHeader) && inFooter == old(inFooter)
      ensures shown == old(shown) + ShownTexts(s, [ln], paint.ws)
      ensures EnvOf() == old(EnvOf()) && geo == old(geo).(pageSizes := geo.pageSizes)
      ensures StateOf() == WriteLineDone(old(EnvOf()), old(StateOf()), paint.ws, w0, w1, h, s, ln, link)
    {
      assert [ln][1..] == [];
      ghost var e, c := EnvOf(), StateOf();
      var w := ln.ls as real / 1000.0 * sel.size;
      assert w == TailWidth(ln, e.sel.size);
      Cell(w, h, Layout.Text(s, ln), Num(0), 0, [], false, link);
      WriteLineTail(e, c, paint.ws, w0, w1, h, s, ln, link);
    }

    /** A line of write() that moves down: a cell of width w0 (the first
        line) or w1, then the left margin when it is the first line. */
    method WriteCell(w0: real, w1: real, h: real, s: Bytes, ln: Line, link: LinkRef)
      requires Valid() && ln.brk != MoveDown && ln.brk != Last
      modifies this`sink, this`geo, this`pos, this`sel, this`paint, this`inHeader, this`inFooter, this`links,
               this`shown
      ensures Valid() && sel == old(sel) && paint == old(paint)
      ensures inHeader == old(inHeader) && inFooter == old(inFooter)
      ensures shown == old(shown) + ShownTexts(s, [ln], paint.ws)
      ensures EnvOf() == old(EnvOf()) && geo == old(geo).(pageSizes := geo.pageSizes)
      ensures StateOf() == WriteLineDone(old(EnvOf()), old(StateOf()), paint.ws, w0, w1, h, s, ln, link)
    {
      assert [ln][1..] == [];
      Cell(if ln.first then w0 else w1, h, Layout.Text(s, ln), Num(0), 2, [], false, link);
      if ln.first {
        ReturnLeft();
      }
    }

    /** One iteration of write()'s loop: the line WriteStep lays out, if
        any, drawn by WriteLine; done lists the lines laid out so far,
        shown0 is the log before the first, e0 and c0 the cell environment
        and state before it. */
    method WriteIter(w0: real, w1: real, h: real, s: Bytes, cw: WidthTable, wmax0: real, wmax1: real,
                     indented: bool, link: LinkRef, f: Flow, ghost done: seq<Line>, ghost shown0: seq<(Bytes, real)>,
                     ghost e0: CellEnv, ghost c0: CellState)
      returns (f1: Flow, ghost done1: seq<Line>)
      requires Valid() && FlowInside(s, f) && f.i < |s|
      requires shown == shown0 + ShownTexts(s, done, paint.ws)
      requires SinkOk(c0.sink) && EnvOf() == e0
      requires StateOf() == WriteDrawn(e0, c0, paint.ws, w0, w1, h, s, done, link)
      modifies this`sink, this`geo, this`pos, this`sel, this`paint, this`inHeader, this`inFooter, this`links,
               this`shown
      ensures Valid() && sel == old(sel) && paint == old(paint)
      ensures inHeader == old(inHeader) && inFooter == old(inFooter)
      ensures FlowInside(s, f1) && (f1.j > f.j || (f1.j == f.j && f1.i > f.i))
      ensures done + WriteLines(s, cw, wmax0, wmax1, indented, f) == done1 + WriteLines(s, cw, wmax0, wmax1, indented, f1)
      ensures shown == shown0 + ShownTexts(s, done1, paint.ws)
      ensures EnvOf() == e0 && geo == old(geo).(pageSizes := geo.pageSizes)
      ensures StateOf() == WriteDrawn(e0, c0, paint.ws, w0, w1, h, s, done1, link)
    {
      var step := WriteStep(s, cw, wmax0, wmax1, indented, f);
      WriteLinesStep(s, cw, wmax0, wmax1, indented, f, done);
      f1, done1 := step.1, done;
      if step.0.Some? {
        var ln := step.0.value;
        WriteLine(w0, w1, h, s, ln, link);
        ShownTextsLogged(s, done, [ln], paint.ws, shown0, shown);
        WriteDrawnAppend(e0, c0, paint.ws, w0, w1, h, s, done, ln, link);
        done1 := done + [ln];
      }
    }

    /** The loop of write(), up to the last chunk. */
    method WriteRun(w0: real, w1: real, h: real, s: Bytes, cw: WidthTable, wmax0: real, wmax1: real,
                    indented: bool, link: LinkRef) returns (f: Flow, ghost done: seq<Line>)
      requires Valid()
      modifies this`sink, this`geo, this`pos, this`sel, this`paint, this`inHeader, this`inFooter, this`links,
               this`shown
      ensures Valid() && sel == old(sel) && paint == old(paint)
      ensures inHeader == old(inHeader) && inFooter == old(inFooter)
      ensures FlowInside(s, f) && f.i >= |s|
      ensures WriteLines(s, cw, wmax0, wmax1, indented, FlowStart) == done + WriteLines(s, cw, wmax0, wmax1, indented, f)
      ensures shown == old(shown) + ShownTexts(s, done, paint.ws)
      ensures EnvOf() == old(EnvOf()) && geo == old(geo).(pageSizes := geo.pageSizes)
      ensures StateOf() == WriteDrawn(old(EnvOf()), old(StateOf()), paint.ws, w0, w1, h, s, done, link)
    {
      f := FlowStart;
      done := [];
      while f.i < |s|
        invariant Valid() && sel == old(sel) && paint == old(paint)
        invariant inHeader == old(inHeader) && inFooter == old(inFooter)
        invariant FlowInside(s, f)
        invariant WriteLines(s, cw, wmax0, wmax1, indented, FlowStart) == done + WriteLines(s, cw, wmax0, wmax1, indented, f)
        invariant shown == old(shown) + ShownTexts(s, done, paint.ws)
        invariant EnvOf() == old(EnvOf()) && geo == old(geo).(pageSizes := geo.pageSizes)
        invariant StateOf() == WriteDrawn(old(EnvOf()), old(StateOf()), paint.ws, w0, w1, h, s, done, link)
        decreases |s| - f.j, |s| - f.i
      {
        f, done := WriteIter(w0, w1, h, s, cw, wmax0, wmax1, indented, link, f, done, old(shown), old(EnvOf()),
                             old(StateOf()));
      }
    }

    /** write()'s last chunk, when one is left: a cell as wide as its text,
        after which the cursor stays on the line. */
    method WriteLast(w0: real, w1: real, h: real, s: Bytes, cw: WidthTable, wmax0: real, wmax1: real,
                     indented: bool, link: LinkRef, f: Flow, ghost done: seq<Line>,
                     ghost shown0: seq<(Bytes, real)>, ghost e0: CellEnv, ghost c0: CellState)
      requires Valid() && FlowInside(s, f) && f.i >= |s|
      requires shown == shown0 + ShownTexts(s, done, paint.ws)
      requires SinkOk(c0.sink) && EnvOf() == e0
      requires StateOf() == WriteDrawn(e0, c0, paint.ws, w0, w1, h, s, done, link)
      modifies this`sink, this`geo, this`pos, this`sel, this`paint, this`inHeader, this`inFooter, this`links,
               this`shown
      ensures Valid() && sel == old(sel) && paint == old(paint)
      ensures inHeader == old(inHeader) && inFooter == old(inFooter)
      ensures shown == shown0 + ShownTexts(s, done + WriteLines(s, cw, wmax0, wmax1, indented, f), paint.ws)
      ensures EnvOf() == e0 && geo == old(geo).(pageSizes := geo.pageSizes)
      ensures StateOf() == WriteDrawn(e0, c0, paint.ws, w0, w1, h, s, done + WriteLines(s, cw, wmax0, wmax1, indented, f),
                                      link)
    {
      if f.i != f.j {
        var ln := Line(f.j, |s|, Last, 0, f.l, f.nl == 1);
        assert WriteLines(s, cw, wmax0, wmax1, indented, f) == [ln];
        WriteLine(w0, w1, h, s, ln, link);
        ShownTextsLogged(s, done, [ln], paint.ws, shown0, shown);
        WriteDrawnAppend(e0, c0, paint.ws, w0, w1, h, s, done, ln, link);
      } else {
        assert done + WriteLines(s, cw, wmax0, wmax1, indented, f) == done;
      }
    }

    /** The lines write() lays out for txt from the current state: the
        room of the first line runs from x to the right margin, that of the
        following ones from the left margin, and the first line is indented
        when x is right of the left margin. */
    function WriteFlow(txt: Bytes): seq<Line>
      reads this`geo, this`margins, this`pos, this`sel, this`reg
      requires sel.size != 0.0
    {
      WriteLines(MultiText(txt).0, CurrentWidths(sel, reg.fonts),
                 Room1000(geo.width - margins.right - pos.x, margins.cell, sel.size),
                 Room1000(geo.width - margins.right - margins.left, margins.cell, sel.size),
                 pos.x > margins.left, FlowStart)
    }

    /** write(): the text, without carriage returns, flows in the lines of
        WriteLines from the cursor: the first line has the room from x to
        the right margin, the following ones from the left margin, an
        indented first line moves down rather than cut a word; every line
        but the last is a cell of the line's height, and the last chunk is a
        cell as wide as its text.  A font size of 0 throws before anything
        is drawn. */
    method Write(h: real, txt: Bytes, link: LinkRef) returns (r: Outcome)
      requires Valid()
      modifies this`sink, this`geo, this`pos, this`sel, this`paint, this`inHeader, this`inFooter, this`links,
               this`shown
      ensures Valid() && sel == old(sel) && paint == old(paint)
      ensures inHeader == old(inHeader) && inFooter == old(inFooter)
      ensures r.Fail? <==> sel.size == 0.0
      ensures r.Fail? ==> r.msg == NoFontSize && sink == old(sink) && pos == old(pos) && shown == old(shown)
                          && links == old(links) && geo == old(geo)
      ensures r.Pass? ==>
                && shown == old(shown) + ShownTexts(MultiText(txt).0, old(WriteFlow(txt)), paint.ws)
                && EnvOf() == old(EnvOf()) && geo == old(geo).(pageSizes := geo.pageSizes)
                && StateOf() == WriteDrawn(old(EnvOf()), old(StateOf()), paint.ws,
                                           old(geo.width - margins.right - pos.x),
                                           old(geo.width - margins.right - margins.left), h, MultiText(txt).0,
                                           old(WriteFlow(txt)), link)
    {
      var fs := sel.size;
      if fs == 0.0 {
        return Fail(NoFontSize);
      }
      var cw := CurrentWidths(sel, reg.fonts);
      var w0 := geo.width - margins.right - pos.x;
      var w1 := geo.width - margins.right - margins.left;
      var wmax0 := Room1000(w0, margins.cell, fs);
      var wmax1 := Room1000(w1, margins.cell, fs);
      var s := MultiText(txt).0;
      var indented := pos.x > margins.left;
      assert WriteLines(s, cw, wmax0, wmax1, indented, FlowStart) == WriteFlow(txt);
      WriteBody(w0, w1, h, s, cw, wmax0, wmax1, indented, link);
      return Pass;
    }

    /** write() once the widths and rooms of its lines are known: the
        lines of WriteLines drawn in turn as WriteDrawn draws them. */
    method WriteBody(w0: real, w1: real, h: real, s: Bytes, cw: WidthTable, wmax0: real, wmax1: real,
                     indented: bool, link: LinkRef)
      requires Valid()
      modifies this`sink, this`geo, this`pos, this`sel, this`paint, this`inHeader, this`inFooter, this`links,
               this`shown
      ensures Valid() && sel == old(sel) && paint == old(paint)
      ensures inHeader == old(inHeader) && inFooter == old(inFooter)
      ensures var lines := WriteLines(s, cw, wmax0, wmax1, indented, FlowStart);
              && shown == old(shown) + ShownTexts(s, lines, paint.ws)
              && EnvOf() == old(EnvOf()) && geo == old(geo).(pageSizes := geo.pageSizes)
              && StateOf() == WriteDrawn(old(EnvOf()), old(StateOf()), paint.ws, w0, w1, h, s, lines, link)
    {
      ghost var e, c, sh0 := EnvOf(), StateOf(), shown;
      ghost var done;
      var f;
      f, done := WriteRun(w0, w1, h, s, cw, wmax0, wmax1, indented, link);
      WriteLast(w0, w1, h, s, cw, wmax0, wmax1, indented, link, f, done, sh0, e, c);
    }

    // --------------------------------------------------------------- fonts

    /** addFont(): the family in lower case, the style normalised, the
        definition file defaulting to the one the family and style name;
        what happens then is AddedFont. */
    method AddFont(family: Bytes, style: Bytes, file: Bytes) returns (r: Outcome)
      requires Valid()
      modifies this`reg
      ensures Valid()
      ensures (r, reg) == AddedFont(old(reg), FontKey(family, style),
                                    host.loadFont(if file == [] then DefaultFile(family, style) else file))
    {
      var f := if file == [] then DefaultFile(family, style) else file;
      var a := AddedFont(reg, FontKey(family, style), host.loadFont(f));
      AddedKeepsSelection(reg, FontKey(family, style), host.loadFont(f), sel, k);
      r, reg := a.0, a.1;
    }

    /** setFont(): what it does is FontSet. */
    method SetFont(family: Bytes, style: Bytes, size: real) returns (r: Outcome)
      requires Valid()
      modifies this`sel, this`reg, this`sink
      ensures Valid() && reg.images == old(reg.images)
      ensures (r, reg, sel, sink) == FontSet(old(reg), old(sel), old(sink), family, style, size, k, host.fmt2,
                                             host.loadFont)
    {
      var a := FontSet(reg, sel, sink, family, style, size, k, host.fmt2, host.loadFont);
      r, reg, sel, sink := a.0, a.1, a.2, a.3;
    }

    /** setFontSize(): a new size is selected and, on a page, written with
        the current font's index. */
    method SetFontSize(size: real)
      requires Valid()
      modifies this`sel, this`sink
      ensures Valid()
      ensures old(sel.sizePt) == size ==> sel == old(sel) && sink == old(sink)
      ensures old(sel.sizePt) != size ==>
                sel == old(sel).(sizePt := size, size := size / k)
                && sink == OnPage(old(sink), FontOp(host.fmt2, FontIndex(old(sel), reg.fonts), size))
    {
      if sel.sizePt == size {
        return;
      }
      sel := sel.(sizePt := size, size := size / k);
      OutOnPage(FontOp(host.fmt2, FontIndex(sel, reg.fonts), size));
    }

    /** getStringWidth(): the widths of the bytes of s in the current font,
        summed one by one, times fontSize / 1000. */
    method GetStringWidth(s: Bytes) returns (w: real)
      ensures w == StringWidth(CurrentWidths(sel, reg.fonts), s, sel.size)
    {
      var cw := CurrentWidths(sel, reg.fonts);
      var total := 0;
      var i := 0;
      while i < |s|
        invariant 0 <= i <= |s| && total == Width(cw, s[..i])
      {
        assert s[..i + 1] == s[..i] + [s[i]];
        WidthConcat(cw, s[..i], [s[i]]);
        total := total + cw[s[i] as int];
        i := i + 1;
      }
      assert s[..|s|] == s;
      w := total as real * sel.size / 1000.0;
    }

    // ------------------------------------------------------------- colours

    /** setDrawColor(): the stroking colour, written when there is a page. */
    method SetDrawColor(r: real, g: Option<real>, b: Option<real>)
      requires Valid()
      modifies this`paint, this`sink
      ensures Valid()
      ensures paint == old(paint).(draw := ColorOp(host.fmt3, true, r, g, b))
      ensures sink == OnPage(old(sink), paint.draw)
    {
      paint := paint.(draw := ColorOp(host.fmt3, true, r, g, b));
      OutOnPage(paint.draw);
    }

    /** setFillColor(): the filling colour, written when there is a page;
        text needs its own colour from now on exactly when the two differ. */
    method SetFillColor(r: real, g: Option<real>, b: Option<real>)
      requires Valid()
      modifies this`paint, this`sink
      ensures Valid()
      ensures var fc := ColorOp(host.fmt3, false, r, g, b);
              paint == old(paint).(fill := fc, colorFlag := fc != old(paint.text))
      ensures sink == OnPage(old(sink), paint.fill)
    {
      var fc := ColorOp(host.fmt3, false, r, g, b);
      paint := paint.(fill := fc, colorFlag := fc != paint.text);
      OutOnPage(fc);
    }

    /** setTextColor(): remembered for cells, never written by itself. */
    method SetTextColor(r: real, g: Option<real>, b: Option<real>)
      modifies this`paint
      ensures var tc := ColorOp(host.fmt3, false, r, g, b);
              paint == old(paint).(text := tc, colorFlag := old(paint.fill) != tc)
    {
      var tc := ColorOp(host.fmt3, false, r, g, b);
      paint := paint.(text := tc, colorFlag := paint.fill != tc);
    }

    /** setLineWidth(): the width, written in points when there is a page. */
    method SetLineWidth(lw: real)
      requires Valid()
      modifies this`paint, this`sink
      ensures Valid()
      ensures paint == old(paint).(lineWidth := lw)
      ensures sink == OnPage(old(sink), LineWidthOp(host.fmt2, lw, k))
    {
      paint := paint.(lineWidth := lw);
      OutOnPage(LineWidthOp(host.fmt2, lw, k));
    }

    /** drawLine(): one stroked segment. */
    method DrawLine(x1: real, y1: real, x2: real, y2: real)
      requires Valid()
      modifies this`sink
      ensures Valid()
      ensures sink == Sent(old(sink), Lf(LineOp(host.fmt2, k, geo.height, x1, y1, x2, y2)))
    {
      Out(LineOp(host.fmt2, k, geo.height, x1, y1, x2, y2));
    }

    /** drawRect(): a rectangle filled (F), filled and stroked (FD or DF),
        or stroked. */
    method DrawRect(x: real, y: real, w: real, h: real, style: Bytes)
      requires Valid()
      modifies this`sink
      ensures Valid()
      ensures sink == Sent(old(sink), Lf(RectOp(host.fmt2, k, geo.height, x, y, w, h, style)))
    {
      Out(RectOp(host.fmt2, k, geo.height, x, y, w, h, style));
    }

    // --------------------------------------------------------------- links

    /** addLink(): the next link number, pointing at the top of page 0
        until setLink() places it. */
    method AddLink() returns (n: int)
      modifies this`links
      ensures n == |old(links.targets)| + 1
      ensures links == old(links).(targets := old(links.targets)[n := (0, 0.0)])
    {
      n := |links.targets| + 1;
      links := links.(targets := links.targets[n := (0, 0.0)]);
    }

    /** setLink(): a y of -1 means the current y, a page of -1 the current
        page. */
    method SetLink(link: int, y: real, page: int)
      modifies this`links
      ensures links == old(links).(targets := old(links.targets)[link :=
                (if page == -1 then sink.page else page, if y == -1.0 then pos.y else y)])
    {
      var y1 := if y == -1.0 then pos.y else y;
      var p := if page == -1 then sink.page else page;
      links := links.(targets := links.targets[link := (p, y1)]);
    }

    /** link(): a link area on the current page, in points from the bottom
        of the page. */
    method Link(x: real, y: real, w: real, h: real, link: LinkRef)
      modifies this`links
      ensures links == old(links).(onPages := old(links.onPages)[sink.page :=
                LinksOn(old(links.onPages), sink.page) + [PageLink(x * k, geo.heightPt - y * k, w * k, h * k, link)]])
    {
      var area := PageLink(x * k, geo.heightPt - y * k, w * k, h * k, link);
      links := links.(onPages := links.onPages[sink.page := LinksOn(links.onPages, sink.page) + [area]]);
    }

    /** text(): a string at (x, y), outside any cell. */
    method Text(x: real, y: real, txt: Bytes)
      requires Valid()
      modifies this`sink
      ensures Valid()
      ensures sink == Sent(old(sink), Lf(TextOp(host.fmt2, PenAt(), x, y, txt)))
    {
      Out(TextOp(host.fmt2, PenAt(), x, y, txt));
    }

    // -------------------------------------------------------------- images

    /** _parsePNG(): the file is opened through the host and decoded by
        _parsePngStream, which raises the version to 1.4 for an image with
        an alpha channel; a file that fails to decode leaves the version. */
    method ParsePngFile(file: Bytes) returns (r: Result<Png.PngInfo>)
      modifies this`meta
      ensures r == PngFile(host.readFile(file), file, host.zlib)
      ensures r.Err? ==> meta == old(meta)
      ensures r.Ok? ==> meta == old(meta).(version := RaisedVersion(old(meta.version), r.value))
    {
      var bytes := host.readFile(file);
      if bytes.None? {
        return Err(CantOpenImage + file);
      }
      r := Png.ParsePngStream(bytes.value, file, host.zlib);
      if r.Ok? && r.value.smask.Some? && VersionLess(meta.version, Version(1, 4)) {
        meta := meta.(version := Version(1, 4));
      }
    }

    /** The first use of an image file in image(), for a PNG: a file
        already filed is reused; a new one is parsed and filed under the
        next index, or its parse throws and nothing is filed.  Placing the
        image on the page is not part of this model. */
    method RegisterPng(file: Bytes) returns (r: Result<nat>)
      requires Valid()
      modifies this`reg, this`meta
      ensures Valid()
      ensures var p := Find(old(reg.images), file);
              p.Some? ==> r == Ok(old(reg.images)[p.value].1.i) && reg == old(reg) && meta == old(meta)
      ensures var parsed := PngFile(host.readFile(file), file, host.zlib);
              Find(old(reg.images), file).None? && parsed.Err? ==>
                r == Err(parsed.msg) && reg == old(reg) && meta == old(meta)
      ensures var parsed := PngFile(host.readFile(file), file, host.zlib);
              var i := |old(reg.images)| + 1;
              Find(old(reg.images), file).None? && parsed.Ok? ==>
                r == Ok(i) && meta == old(meta).(version := RaisedVersion(old(meta.version), parsed.value))
                && reg == old(reg).(images := old(reg.images) + [(file, ImageEntry(parsed.value, PngFilter, i, 0))])
    {
      var p := Find(reg.images, file);
      if p.Some? {
        return Ok(reg.images[p.value].1.i);
      }
      ghost var v0 := meta.version;
      var info := ParsePngFile(file);
      if info.Err? {
        return Err(info.msg);
      }
      var i := |reg.images| + 1;
      var e := (file, ImageEntry(info.value, PngFilter, i, 0));
      PutKeeps(reg.images, file, e.1);
      RaisedCovers(v0, reg.images, e);
      reg := reg.(images := reg.images + [e]);
      r := Ok(i);
    }

    // -------------------------------------------------------------- cursor

    /** ln(): back to the left margin and down by h, or by the height of
        the last cell when h is omitted. */
    method Ln(h: Option<real>)
      modifies this`pos
      ensures pos == old(pos).(x := margins.left, y := old(pos.y) + (if h.Some? then h.value else old(pos.lasth)))
    {
      pos := pos.(x := margins.left, y := pos.y + (if h.Some? then h.value else pos.lasth));
    }

    function GetX(): (r: real)
      reads this`pos
      ensures r == pos.x
    {
      pos.x
    }

    function GetY(): (r: real)
      reads this`pos
      ensures r == pos.y
    {
      pos.y
    }

    /** setX(): a negative x counts from the right edge of the page. */
    method SetX(x: real)
      modifies this`pos
      ensures pos == old(pos).(x := if x >= 0.0 then x else geo.width + x)
    {
      pos := pos.(x := if x >= 0.0 then x else geo.width + x);
    }

    /** setY(): back to the left margin; a negative y counts from the
        bottom edge of the page. */
    method SetY(y: real)
      modifies this`pos
      ensures pos == old(pos).(x := margins.left, y := if y >= 0.0 then y else geo.height + y)
    {
      pos := pos.(x := margins.left, y := if y >= 0.0 then y else geo.height + y);
    }

    method SetXY(x: real, y: real)
      modifies this`pos
      ensures pos == old(pos).(x := if x >= 0.0 then x else geo.width + x, y := if y >= 0.0 then y else geo.height + y)
    {
      SetY(y);
      SetX(x);
    }

    // ------------------------------------------------------ close, output

    /** What _endDoc() reads of the settings: for _putPages() the page
        sizes, links, default page height in points (from the default
        orientation and size) and a transparency group when the version is
        above 1.3; the alias; the default size as the root's /MediaBox; the
        compression; the header's version; the info entries, dated by the
        host; the catalog entries. */
    function ClosingOf(): Closing
      reads this`geo, this`links, this`meta
    {
      var wPt := if defOrientation == 'P' then defPageSize.w * k else defPageSize.h * k;
      var hPt := if defOrientation == 'P' then defPageSize.h * k else defPageSize.w * k;
      Closing(PageEnv(host.fmt2, geo.pageSizes, links.onPages, links.targets, hPt, k,
                      VersionLess(Version(1, 3), meta.version), meta.compress, host.zlib.compress),
              meta.alias, host.fmt2(wPt), host.fmt2(hPt), meta.compress, host.zlib.compress,
              VersionText(meta.version),
              InfoText(meta.title, meta.subject, meta.author, meta.keywords, meta.creator, host.date),
              CatalogText(host.fmt2, meta.zoom, meta.layout))
    }

    /** The end of close() once there is a page: the footer, _endPage(),
        then _endDoc() (Writer.EndDoc states what it writes).  When a font
        file cannot be read or a font type is unsupported it throws, the
        pages written and state 1; otherwise the document is closed (state
        3) and the fonts and images numbered. */
    method Finalize() returns (r: Outcome)
      requires Valid() && sink.state != 3 && sink.page > 0
      modifies this`sink, this`inFooter, this`reg
      ensures Valid() && !inFooter
      ensures (r.Pass? <==> FontsCheck(old(reg), host.readFile).Ok?)
              && (r.Fail? ==> r.msg == FontsCheck(old(reg), host.readFile).msg && reg == old(reg))
              && (r.Pass? ==> RegNumbered(old(reg), reg))
      ensures sink.page == old(sink.page) && sink.state == (if r.Pass? then 3 else 1)
      ensures Continues(old(sink), sink) && (Filed(old(sink)) ==> Filed(sink))
      ensures forall t | 0 <= t < |old(reg.images)| && old(reg.images)[t].1.info.smask.Some? ::
                !VersionLess(meta.version, Version(1, 4)) && ClosingOf().env.group
    {
      inFooter := true;
      Footer();
      inFooter := false;
      sink := Ended(sink);
      var s1, reg1, out := EndDocument(sink, ClosingOf(), reg, host.readFile);
      if out.Pass? {
        NumberedOk(reg, reg1, sel, k);
        KeptCovers(meta.version, reg.images, reg1.images);
      }
      sink, reg, r := s1, reg1, out;
    }

    /** close(): nothing once the document is closed (state 3); otherwise
        a first page when there is none, then Finalize().  It fails exactly
        when _endDoc() does. */
    method Close() returns (r: Outcome)
      requires Valid()
      modifies this`sink, this`geo, this`pos, this`sel, this`inHeader, this`inFooter, this`reg
      ensures Valid()
      ensures old(sink.state) == 3 ==> r == Pass && sink == old(sink) && reg == old(reg)
      ensures old(sink.state) != 3 ==>
                (r.Pass? <==> FontsCheck(old(reg), host.readFile).Ok?)
                && (r.Fail? ==> r.msg == FontsCheck(old(reg), host.readFile).msg && sink.state == 1)
                && (r.Pass? ==> sink.state == 3)
                && sink.page == if old(sink.page) == 0 then 1 else old(sink.page)
    {
      if sink.state == 3 {
        return Pass;
      }
      if sink.page == 0 {
        var added := AddPage([], Named([]));
      }
      r := Finalize();
    }

    /** output(): close() when the document is not closed, then the
        destination: the document itself for "S", nothing otherwise (the
        browser, download and file destinations write it out).  An unknown
        destination throws; so does close(). */
    method Output(name: Bytes, dest: Bytes) returns (r: Result<Bytes>)
      requires Valid()
      modifies this`sink, this`geo, this`pos, this`sel, this`inHeader, this`inFooter, this`reg
      ensures Valid()
      ensures old(sink.state) == 3 ==> sink == old(sink)
      ensures r.Ok? ==> sink.state == 3 && Destination(name, dest).Ok?
                        && r.value == if Destination(name, dest).value.1 == AsString then sink.buffer else []
      ensures old(sink.state) == 3 || FontsCheck(old(reg), host.readFile).Ok? ==>
                (r.Err? <==> Destination(name, dest).Err?)
      ensures old(sink.state) != 3 && FontsCheck(old(reg), host.readFile).Err? ==>
                r == Err(FontsCheck(old(reg), host.readFile).msg)
    {
      if sink.state < 3 {
        var closed := Close();
        if closed.Fail? {
          return Err(closed.msg);
        }
      }
      var d := Destination(name, dest);
      if d.Err? {
        return Err(d.msg);
      }
      if d.value.1 == AsString {
        return Ok(sink.buffer);
      }
      return Ok([]);
    }

  }

  /** The metadata setTitle() and its siblings set. */
  datatype MetaKey = Title | Subject | Author | Keywords | Creator

  /** The metadata entry key of the settings. */
  function MetaOf(m: Meta, key: MetaKey): Bytes
  {
    match key
    case Title => m.title
    case Subject => m.subject
    case Author => m.author
    case Keywords => m.keywords
    case Creator => m.creator
  }

  /** The settings with one metadata entry replaced: that entry reads v,
      every other entry and every other setting is kept. */
  function WithMeta(m: Meta, key: MetaKey, v: Bytes): (r: Meta)
    ensures MetaOf(r, key) == v
    ensures forall other :: other != key ==> MetaOf(r, other) == MetaOf(m, other)
    ensures r.zoom == m.zoom && r.layout == m.layout && r.alias == m.alias && r.version == m.version
            && r.compress == m.compress
  {
    match key
    case Title => m.(title := v)
    case Subject => m.(subject := v)
    case Author => m.(author := v)
    case Keywords => m.(keywords := v)
    case Creator => m.(creator := v)
  }
}
