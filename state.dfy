/**
 * The state of an FPDF document, in the groups the document builder's
 * methods read and change together: the sink _out() writes to, the page
 * geometry, the margins, the cursor, the selected font, the painting state,
 * the registries, the links and the document settings; with the pure
 * functions that say how _out(), _beginPage() and addPage() change them.
 */
module DocState {
  import opened Common
  import opened PdfText
  import opened Fonts
  import opened Settings
  import opened PdfObjects
  import Png

  // ------------------------------------------------------------------ sink

  /** What _out() and the serializer write to: the lifecycle state (0
      before open(), 1 between pages, 2 while a page is open, 3 once the
      document is closed), the page count, one content buffer per page
      (pages[p - 1] holds page p), the document buffer, the number of the
      last object begun and the byte offset of each object's header. */
  datatype Sink = Sink(state: nat, page: nat, pages: seq<Bytes>, buffer: Bytes, n: nat, offsets: map<nat, nat>)

  /** One buffer per page, a page to write to in state 2, and objects 1
      and 2 (the page tree and the resources) reserved. */
  predicate SinkOk(s: Sink)
  {
    |s.pages| == s.page && s.state <= 3 && (s.state == 2 ==> s.page >= 1) && s.n >= 2
  }

  /** The text _out() writes to: the open page in state 2, else the
      document buffer. */
  function Written(s: Sink): Bytes
  {
    if s.state == 2 && 1 <= s.page <= |s.pages| then s.pages[s.page - 1] else s.buffer
  }

  /** A line as _out() writes it. */
  function Lf(t: Bytes): Bytes
  {
    t + "\n"
  }

  /** The sink after _out() sent t: t goes at the end of the open page in
      state 2 and of the document buffer otherwise; nothing else changes. */
  function Sent(s: Sink, t: Bytes): (r: Sink)
    requires SinkOk(s)
    ensures SinkOk(r) && Written(r) == Written(s) + t
    ensures r.state == s.state && r.page == s.page && r.n == s.n && r.offsets == s.offsets
    ensures s.state == 2 ==> r.buffer == s.buffer && r.pages[..s.page - 1] == s.pages[..s.page - 1]
    ensures s.state != 2 ==> r.pages == s.pages
  {
    if s.state == 2 then s.(pages := s.pages[s.page - 1 := s.pages[s.page - 1] + t])
    else s.(buffer := s.buffer + t)
  }

  /** Two writes are one write of both texts. */
  lemma SentTwice(s: Sink, a: Bytes, b: Bytes)
    requires SinkOk(s)
    ensures Sent(Sent(s, a), b) == Sent(s, a + b)
  {
    if s.state == 2 {
      assert s.pages[s.page - 1] + a + b == s.pages[s.page - 1] + (a + b);
    } else {
      assert s.buffer + a + b == s.buffer + (a + b);
    }
  }

  /** What addPage() does before the new page: open() in state 0, and
      _endPage() when there is a page. */
  function Ended(s: Sink): (r: Sink)
    requires SinkOk(s)
    ensures SinkOk(r) && r.state != 2 && r.state != 0
    ensures r.page == s.page && r.pages == s.pages && r.buffer == s.buffer && r.n == s.n && r.offsets == s.offsets
  {
    if s.state == 0 || s.page > 0 then s.(state := 1) else s
  }

  /** _beginPage(): a new, empty page, which _out() now writes to. */
  function Opened(s: Sink): (r: Sink)
    requires SinkOk(s)
    ensures SinkOk(r) && r.state == 2 && r.page == s.page + 1 && Written(r) == []
    ensures r.pages == s.pages + [[]] && r.buffer == s.buffer && r.n == s.n && r.offsets == s.offsets
  {
    s.(state := 2, page := s.page + 1, pages := s.pages + [[]])
  }

  /** The sink once the header of object o is written at the end of the
      document buffer, its offset recorded first (_newObj() for the next
      number, and the page tree and resource objects 1 and 2). */
  function Begun(s: Sink, o: nat): (r: Sink)
    ensures r.buffer == s.buffer + ObjHeader(o) && r.offsets == s.offsets[o := |s.buffer|]
    ensures r == s.(buffer := r.buffer, offsets := r.offsets)
  {
    s.(buffer := s.buffer + ObjHeader(o), offsets := s.offsets[o := |s.buffer|])
  }

  /** The offsets recorded so far point at their objects' headers, and
      every object from 3 up to the last one begun has one. */
  ghost predicate Filed(s: Sink)
  {
    XrefPoints(s.buffer, s.offsets) && forall i :: 3 <= i <= s.n ==> i in s.offsets
  }

  /** _out() keeps the offsets filed: it only appends. */
  lemma FiledSent(s: Sink, t: Bytes)
    requires SinkOk(s)
    ensures Filed(s) ==> Filed(Sent(s, t))
  {
    if s.state != 2 && Filed(s) {
      XrefExtend(s.buffer, s.offsets, t);
    }
  }

  /** Writing a header where its offset is recorded keeps the offsets
      filed, for a reserved number and for the next one. */
  lemma FiledBegun(s: Sink, o: nat)
    requires o <= s.n + 1
    ensures Filed(s) ==> Filed(Begun(s, o).(n := if o == s.n + 1 then o else s.n))
  {
    if Filed(s) {
      XrefNew(s.buffer, s.offsets, o);
    }
  }

  /** b carries on from a: the document buffer only grew, the object
      count only rose, every object with an offset still has one, and
      objects 3..a.n keep theirs (objects 1 and 2 are written last, by
      number). */
  ghost predicate Continues(a: Sink, b: Sink)
  {
    a.n <= b.n && |a.buffer| <= |b.buffer| && b.buffer[..|a.buffer|] == a.buffer
    && forall i :: i in a.offsets ==> i in b.offsets && (3 <= i <= a.n ==> b.offsets[i] == a.offsets[i])
  }

  lemma ContinuesTrans(a: Sink, b: Sink, c: Sink)
    requires Continues(a, b) && Continues(b, c)
    ensures Continues(a, c)
  {
    assert c.buffer[..|a.buffer|] == c.buffer[..|b.buffer|][..|a.buffer|];
  }

  /** What was found in the buffer is still found there later. */
  lemma ContinuesHolds(a: Sink, b: Sink, p: nat, t: Bytes)
    requires Continues(a, b) && Holds(a.buffer, p, t)
    ensures Holds(b.buffer, p, t)
  {
    assert b.buffer[p..p + |t|] == b.buffer[..|a.buffer|][p..p + |t|];
  }

  /** A new document starts filed, and beginning and ending pages keep it
      so: the offsets stay filed over the whole life of the document. */
  lemma FiledLife(s: Sink)
    requires SinkOk(s)
    ensures s.n == 2 && s.offsets == map[] ==> Filed(s)
    ensures Filed(s) ==> Filed(Opened(s)) && Filed(Ended(s))
  {
  }

  // -------------------------------------------------------------- geometry

  /** The page geometry: the current orientation and size (in portrait
      order), the sizes of the pages that differ from the default, the page
      dimensions in points and in user units, and the automatic page break
      (whether it is on, the bottom margin, and the y it triggers at). */
  datatype Geometry = Geometry(orientation: byte, size: Size, pageSizes: map<nat, Size>,
                               widthPt: real, heightPt: real, width: real, height: real,
                               auto: bool, bottom: real, trigger: real)

  /** The width of a page of orientation o and size sz. */
  function WidthOf(o: byte, sz: Size): real
  {
    if o == 'P' then sz.w else sz.h
  }

  /** The height of a page of orientation o and size sz. */
  function HeightOf(o: byte, sz: Size): real
  {
    if o == 'P' then sz.h else sz.w
  }

  /** The dimensions follow from the orientation and the size, and the
      page break triggers the bottom margin above the bottom. */
  predicate GeoOk(g: Geometry, k: real)
  {
    UpperByte(g.orientation) == g.orientation && g.size.w <= g.size.h
    && g.width == WidthOf(g.orientation, g.size) && g.height == HeightOf(g.orientation, g.size)
    && g.widthPt == g.width * k && g.heightPt == g.height * k
    && g.trigger == g.height - g.bottom
  }

  /** The geometry of a page of orientation o and size sz. */
  function Fit(g: Geometry, o: byte, sz: Size, k: real): Geometry
  {
    var w, h := WidthOf(o, sz), HeightOf(o, sz);
    g.(orientation := o, size := sz, width := w, height := h, widthPt := w * k, heightPt := h * k,
       trigger := h - g.bottom)
  }

  /** The geometry after _beginPage() for page number page: the dimensions
      are recomputed when the orientation or the size changed, and a page
      whose orientation or size differs from the default records its size
      in points. */
  function Resized(g: Geometry, o: byte, sz: Size, k: real, defO: byte, defSize: Size, page: nat): (r: Geometry)
    requires GeoOk(g, k) && UpperByte(o) == o && sz.w <= sz.h
    ensures GeoOk(r, k) && r.orientation == o && r.size == sz && r.auto == g.auto && r.bottom == g.bottom
    ensures o != defO || sz != defSize ==> r.pageSizes == g.pageSizes[page := Size(r.widthPt, r.heightPt)]
    ensures o == defO && sz == defSize ==> r.pageSizes == g.pageSizes
  {
    var g1 := if o != g.orientation || sz != g.size then Fit(g, o, sz, k) else g;
    g1.(pageSizes := if o != defO || sz != defSize then g.pageSizes[page := Size(g1.widthPt, g1.heightPt)]
                     else g.pageSizes)
  }

  /** A page of the current orientation and size keeps every dimension:
      the change test of _beginPage() only saves recomputing them. */
  lemma ResizedSame(g: Geometry, k: real, defO: byte, defSize: Size, page: nat)
    requires GeoOk(g, k)
    ensures var r := Resized(g, g.orientation, g.size, k, defO, defSize, page);
            r == g.(pageSizes := r.pageSizes)
  {
  }

  // ------------------------------------------------------- margins, cursor

  /** The left, top and right margins, and the margin inside a cell. */
  datatype Margins = Margins(left: real, top: real, right: real, cell: real)

  /** The current position and the height of the last cell. */
  datatype Cursor = Cursor(x: real, y: real, lasth: real)

  // ------------------------------------------------------------------ font

  /** The font selection: family (empty when none is selected) and style,
      underlining, the registry key of the current font, and its size in
      points and in user units. */
  datatype Selection = Selection(family: Bytes, style: Bytes, underline: bool, current: Option<Bytes>,
                                 sizePt: real, size: real)

  /** The current font is registered, under the key its family and style
      make, and its size in user units follows its size in points. */
  predicate SelOk(s: Selection, fonts: FontTable, k: real)
  {
    k > 0.0 && (s.current.Some? ==> Find(fonts, s.current.value).Some?)
    && (s.family != [] ==> s.current == Some(s.family + s.style) && s.size == s.sizePt / k)
    && IsLower(s.family) && NormalStyle(s.style)
  }

  /** The entry of the current font, if one is selected. */
  function Current(s: Selection, fonts: FontTable): (r: Option<FontEntry>)
    ensures r.Some? ==> s.current.Some? && Find(fonts, s.current.value).Some?
                        && r.value == fonts[Find(fonts, s.current.value).value].1
  {
    if s.current.None? then None
    else
      var p := Find(fonts, s.current.value);
      if p.Some? then Some(fonts[p.value].1) else None
  }

  /** The widths of the current font; no font reads as zeros. */
  function CurrentWidths(s: Selection, fonts: FontTable): (r: WidthTable)
    ensures Current(s, fonts).None? ==> r == NoWidths
    ensures Current(s, fonts).Some? ==> r == Current(s, fonts).value.def.cw
  {
    if Current(s, fonts).Some? then Current(s, fonts).value.def.cw else NoWidths
  }

  /** The index of the current font (0 when there is none). */
  function FontIndex(s: Selection, fonts: FontTable): nat
  {
    if Current(s, fonts).Some? then Current(s, fonts).value.i else 0
  }

  // ----------------------------------------------------------------- paint

  /** The line width, the stroking, filling and text colour operators,
      whether text needs its own colour, and the word spacing. */
  datatype Paint = Paint(lineWidth: real, draw: Bytes, fill: Bytes, text: Bytes, colorFlag: bool, ws: real)

  const DrawBlack: Bytes := "0 G"
  const FillBlack: Bytes := "0 g"
  const CapSquare: Bytes := "2 J"
  const WidthOp: Bytes := " w"
  const FontOpHead: Bytes := "BT /F"
  const FontOpTail: Bytes := " Tf ET"

  /** The operator that selects font resource /F<i> at a size in points. */
  function FontOp(fmt2: real -> Bytes, i: nat, sizePt: real): Bytes
  {
    FontOpHead + NatText(i) + (" " + (fmt2(sizePt) + FontOpTail))
  }

  /** The operator that sets the line width, in points. */
  function LineWidthOp(fmt2: real -> Bytes, w: real, k: real): Bytes
  {
    fmt2(w * k) + WidthOp
  }

  /** What addPage() writes at the top of a new page: the line cap and
      the line width, then the font when one was selected, then the
      colours that are not black. */
  function PageStart(fmt2: real -> Bytes, k: real, p: Paint, s: Selection, fonts: FontTable): Bytes
  {
    StrokeLines(fmt2, k, p) + (FontLine(fmt2, s, fonts) + ColorLines(p))
  }

  /** The line cap and the line width. */
  function StrokeLines(fmt2: real -> Bytes, k: real, p: Paint): Bytes
  {
    Lf(CapSquare) + Lf(LineWidthOp(fmt2, p.lineWidth, k))
  }

  /** The selected font, when a family is selected. */
  function FontLine(fmt2: real -> Bytes, s: Selection, fonts: FontTable): Bytes
  {
    if s.family != [] then Lf(FontOp(fmt2, FontIndex(s, fonts), s.sizePt)) else []
  }

  /** The drawing and filling colours that are not black. */
  function ColorLines(p: Paint): Bytes
  {
    (if p.draw != DrawBlack then Lf(p.draw) else []) + (if p.fill != FillBlack then Lf(p.fill) else [])
  }

  /** What cell() and text() read of the graphics state. */
  function PenOf(k: real, height: real, cMargin: real, s: Selection, fonts: FontTable, p: Paint): Pen
  {
    var f := Current(s, fonts);
    Pen(k, height, cMargin, s.size, s.sizePt, CurrentWidths(s, fonts),
        if f.Some? then f.value.def.up else 0, if f.Some? then f.value.def.ut else 0,
        p.ws, p.colorFlag, p.text, s.underline)
  }

  // ------------------------------------------------------------ registries

  /** A registered image: what its parser returned (the image, and the
      filter its data is encoded with), its 1-based index (the /I<i>
      resource name) and its object number once written (0 until then). */
  datatype ImageEntry = ImageEntry(info: Png.PngInfo, f: Bytes, i: nat, n: nat)

  /** The images array: entries in the order image() first met them. */
  type ImageTable = seq<(Bytes, ImageEntry)>

  /** The fonts, embedded font files, encoding differences and images. */
  datatype Registry = Registry(fonts: FontTable, files: FileTable, diffs: seq<Bytes>, images: ImageTable)

  /** Each image is filed once, with indices 1, 2, ... in order. */
  ghost predicate ImagesIndexed(images: ImageTable)
  {
    KeysDistinct(images) && forall t :: 0 <= t < |images| ==> images[t].1.i == t + 1
  }

  /** The filter of a PNG image's data. */
  const PngFilter: Bytes := "FlateDecode"

  const CantOpenImage: Bytes := "Can't open image file: "

  /** _parsePNG(): an image file that cannot be opened throws; any other
      is decoded by _parsePngStream. */
  function PngFile(bytes: Option<Bytes>, file: Bytes, z: Png.Zlib): Result<Png.PngInfo>
  {
    if bytes.None? then Err(CantOpenImage + file) else Png.ParsePng(bytes.value, file, z)
  }

  /** _parsePngStream raising PDFVersion for an image with an alpha
      channel: the version never goes down, is at least 1.4 once such an
      image is parsed, and changes only when it was below 1.4. */
  function RaisedVersion(v: Version, info: Png.PngInfo): (r: Version)
    ensures !VersionLess(r, v)
    ensures info.smask.Some? ==> !VersionLess(r, Version(1, 4))
    ensures r != v ==> info.smask.Some? && VersionLess(v, Version(1, 4)) && r == Version(1, 4)
  {
    if info.smask.Some? && VersionLess(v, Version(1, 4)) then Version(1, 4) else v
  }

  /** Every image with a soft mask has raised the version to 1.4. */
  ghost predicate MasksCovered(v: Version, images: ImageTable)
  {
    forall t :: 0 <= t < |images| && images[t].1.info.smask.Some? ==> !VersionLess(v, Version(1, 4))
  }

  /** Filing a parsed image under the raised version keeps every soft mask
      covered, the new one included. */
  lemma RaisedCovers(v: Version, images: ImageTable, e: (Bytes, ImageEntry))
    requires MasksCovered(v, images)
    ensures MasksCovered(RaisedVersion(v, e.1.info), images + [e])
  {
    var r := RaisedVersion(v, e.1.info);
    forall t | 0 <= t < |images + [e]| && (images + [e])[t].1.info.smask.Some?
      ensures !VersionLess(r, Version(1, 4))
    {
      if t < |images| {
        assert images[t] == (images + [e])[t];
      }
    }
  }

  /** The serializer, which only unsets soft masks, keeps them covered. */
  lemma KeptCovers(v: Version, a: ImageTable, b: ImageTable)
    requires MasksCovered(v, a) && ImagesKept(a, b)
    ensures MasksCovered(v, b)
  {
  }

  /** The registries agree with each other. */
  ghost predicate RegOk(r: Registry)
  {
    Registered(r.fonts, r.diffs) && FilesKnown(r.fonts, r.files) && ImagesIndexed(r.images)
  }

  /** b is a once the serializer has given its entries object numbers:
      the same keys and entries but for their numbers. */
  predicate FontsNumbered(a: FontTable, b: FontTable)
  {
    |a| == |b| && forall t :: 0 <= t < |a| ==> b[t] == (a[t].0, a[t].1.(n := b[t].1.n))
  }

  predicate FilesNumbered(a: FileTable, b: FileTable)
  {
    |a| == |b| && forall t :: 0 <= t < |a| ==> b[t] == (a[t].0, a[t].1.(n := b[t].1.n))
  }

  /** The images under the same keys with the same indices, none of them
      gaining a soft mask. */
  predicate ImagesKept(a: ImageTable, b: ImageTable)
  {
    |a| == |b|
    && forall t :: 0 <= t < |a| ==>
         b[t].0 == a[t].0 && b[t].1.i == a[t].1.i && (b[t].1.info.smask.Some? ==> a[t].1.info.smask.Some?)
  }

  /** What the serializer may change in the registries: object numbers,
      and the image data it has written. */
  predicate RegNumbered(a: Registry, b: Registry)
  {
    FontsNumbered(a.fonts, b.fonts) && FilesNumbered(a.files, b.files) && b.diffs == a.diffs
    && ImagesKept(a.images, b.images)
  }

  /** Numbering the objects keeps the registries well formed and the
      selected font found. */
  lemma NumberedOk(a: Registry, b: Registry, sel: Selection, k: real)
    requires RegOk(a) && RegNumbered(a, b)
    ensures RegOk(b)
    ensures SelOk(sel, a.fonts, k) ==> SelOk(sel, b.fonts, k)
  {
    NumberedRegistered(a.fonts, b.fonts, a.diffs);
    NumberedKnown(a.fonts, b.fonts, a.files, b.files);
    assert ImagesIndexed(b.images);
    if sel.current.Some? {
      FindSameKeys(a.fonts, b.fonts, sel.current.value);
    }
  }

  lemma NumberedRegistered(a: FontTable, b: FontTable, diffs: seq<Bytes>)
    requires Registered(a, diffs) && FontsNumbered(a, b)
    ensures Registered(b, diffs)
  {
    assert forall t :: 0 <= t < |b| ==> b[t].1.def == a[t].1.def && b[t].1.diffn == a[t].1.diffn;
  }

  lemma NumberedKnown(a: FontTable, b: FontTable, fa: FileTable, fb: FileTable)
    requires FilesKnown(a, fa) && FontsNumbered(a, b) && FilesNumbered(fa, fb)
    ensures FilesKnown(b, fb)
  {
    forall t | 0 <= t < |b| && Truthy(b[t].1.def.file)
      ensures Find(fb, b[t].1.def.file).Some?
    {
      assert b[t].1.def == a[t].1.def;
      FindSameKeys(fa, fb, a[t].1.def.file);
    }
  }

  /** Internal link targets (page and y, by link number) and the links
      placed on each page. */
  datatype Links = Links(targets: map<int, (int, real)>, onPages: map<nat, seq<PageLink>>)

  // -------------------------------------------------------------- settings

  /** The document-level settings: display mode, metadata, the page-count
      alias, the PDF version and compression. */
  datatype Meta = Meta(zoom: Zoom, layout: Bytes, title: Bytes, subject: Bytes, author: Bytes,
                       keywords: Bytes, creator: Bytes, alias: Bytes, version: Version, compress: bool)
}
