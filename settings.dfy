/**
 * The values the FPDF document builder works with and the pure parts of
 * its methods: the host functions the model takes as parameters, page
 * sizes and the constructor's checks, display modes, colour operators, the
 * operators cell() writes, the dictionaries the serializer writes, and the
 * choice of output destination.
 */
module Settings {
  import opened Common
  import opened PdfText
  import opened Fonts
  import opened PdfObjects
  import Png

  /** What the model takes from outside: sprintf('%.2F') and sprintf('%.3F'),
      zlib, loading a font definition file, reading a font file, and the
      date('YmdHis') text of the creation date. */
  datatype Host = Host(fmt2: real -> Bytes, fmt3: real -> Bytes, zlib: Png.Zlib,
                       loadFont: Bytes -> Option<FontDef>, readFile: Bytes -> Option<Bytes>,
                       date: Bytes)

  /** A page size: width and height. */
  datatype Size = Size(w: real, h: real)

  /** The size argument of the constructor and addPage(): a name, or the two
      dimensions in user units.  Named("") is addPage()'s default. */
  datatype PageSizeArg = Named(name: Bytes) | Dims(a: real, b: real)

  /** The standard sizes, in points. */
  function StdSize(name: Bytes): (r: Option<Size>)
    ensures r.Some? ==> 0.0 < r.value.w <= r.value.h
  {
    if name == "a3" then Some(Size(841.89, 1190.55))
    else if name == "a4" then Some(Size(595.28, 841.89))
    else if name == "a5" then Some(Size(420.94, 595.28))
    else if name == "letter" then Some(Size(612.0, 792.0))
    else if name == "legal" then Some(Size(612.0, 1008.0))
    else None
  }

  const UnknownSize: Bytes := "Unknown page size: "
  const BadUnit: Bytes := "Incorrect unit: "
  const BadOrientation: Bytes := "Incorrect orientation: "

  /** _getPageSize(): a name is looked up without regard to case and
      converted to user units; dimensions are put in portrait order. */
  function PageSize(arg: PageSizeArg, k: real): (r: Result<Size>)
    requires k > 0.0
    ensures r.Ok? ==> r.value.w <= r.value.h
    ensures arg.Dims? ==> r.Ok? && multiset{r.value.w, r.value.h} == multiset{arg.a, arg.b}
    ensures arg.Named? ==> (r.Ok? <==> StdSize(Lower(arg.name)).Some?)
    ensures arg.Named? && r.Ok? ==>
              r.value.w * k == StdSize(Lower(arg.name)).value.w && r.value.h * k == StdSize(Lower(arg.name)).value.h
    ensures r.Err? ==> r.msg == UnknownSize + Lower(arg.name)
  {
    match arg
    case Named(name) =>
      var std := StdSize(Lower(name));
      if std.None? then Err(UnknownSize + Lower(name))
      else
        var sz := std.value;
        DivideMonotone(sz.w, sz.h, k);
        Ok(Size(sz.w / k, sz.h / k))
    case Dims(a, b) =>
      if a > b then Ok(Size(b, a)) else Ok(Size(a, b))
  }

  lemma DivideMonotone(a: real, b: real, k: real)
    requires k > 0.0 && a <= b
    ensures a / k <= b / k
  {
    assert b / k - a / k == (b - a) / k;
  }

  /** The scale factor of a unit: points per user unit. */
  function UnitScale(unit: Bytes): (r: Option<real>)
    ensures r.Some? ==> r.value > 0.0
    ensures r.Some? <==> unit in {"pt", "mm", "cm", "in"}
  {
    if unit == "pt" then Some(1.0)
    else if unit == "mm" then Some(72.0 / 25.4)
    else if unit == "cm" then Some(72.0 / 2.54)
    else if unit == "in" then Some(72.0)
    else None
  }

  /** What the constructor settles before it sets any margin. */
  datatype Config = Config(k: real, orientation: byte, size: Size, width: real, height: real)

  /** The constructor's checks, in its order: the unit, the page size, then
      the orientation (p, portrait, l or landscape in any case). */
  function Setup(orientation: Bytes, unit: Bytes, size: PageSizeArg): (r: Result<Config>)
    ensures r.Ok? <==> UnitScale(unit).Some? && PageSize(size, UnitScale(unit).value).Ok?
                       && Lower(orientation) in {"p", "portrait", "l", "landscape"}
    ensures UnitScale(unit).None? ==> r == Err(BadUnit + unit)
    ensures r.Ok? ==> r.value.k == UnitScale(unit).value && r.value.size == PageSize(size, r.value.k).value
    ensures r.Ok? ==> (r.value.orientation == 'P' <==> Lower(orientation) in {"p", "portrait"})
    ensures r.Ok? ==> r.value.orientation in {'P', 'L'}
    ensures r.Ok? && r.value.orientation == 'P' ==> r.value.width <= r.value.height
    ensures r.Ok? && r.value.orientation == 'L' ==> r.value.width >= r.value.height
    ensures r.Ok? ==> multiset{r.value.width, r.value.height} == multiset{r.value.size.w, r.value.size.h}
  {
    var scale := UnitScale(unit);
    if scale.None? then Err(BadUnit + unit)
    else
      var k := scale.value;
      var ps := PageSize(size, k);
      if ps.Err? then Err(ps.msg)
      else
        var sz := ps.value;
        var o := Lower(orientation);
        if o == "p" || o == "portrait" then Ok(Config(k, 'P', sz, sz.w, sz.h))
        else if o == "l" || o == "landscape" then Ok(Config(k, 'L', sz, sz.h, sz.w))
        else Err(BadOrientation + o)
  }

  // --------------------------------------------------------- display mode

  /** setDisplayMode()'s zoom: a name, or a factor in percent. */
  datatype Zoom = ZoomName(name: Bytes) | ZoomFactor(percent: real)

  predicate ZoomOk(zoom: Zoom)
  {
    zoom.ZoomFactor? || zoom.name in {"fullpage", "fullwidth", "real", "default"}
  }

  predicate LayoutOk(layout: Bytes)
  {
    layout in {"single", "continuous", "two", "default"}
  }

  const CatalogHead: Bytes := "/Type /Catalog\n/Pages 1 0 R\n"
  const OpenFit: Bytes := "/OpenAction [3 0 R /Fit]\n"
  const OpenFitH: Bytes := "/OpenAction [3 0 R /FitH null]\n"
  const OpenXyz: Bytes := "/OpenAction [3 0 R /XYZ null null "
  const SinglePage: Bytes := "/PageLayout /SinglePage\n"
  const OneColumn: Bytes := "/PageLayout /OneColumn\n"
  const TwoColumn: Bytes := "/PageLayout /TwoColumnLeft\n"

  /** The open action of a zoom mode; it targets object 3, the first page. */
  function OpenAction(fmt2: real -> Bytes, zoom: Zoom): Bytes
  {
    match zoom
    case ZoomName(z) =>
      if z == "fullpage" then OpenFit
      else if z == "fullwidth" then OpenFitH
      else if z == "real" then OpenXyz + "1]\n"
      else []
    case ZoomFactor(p) => OpenXyz + fmt2(p / 100.0) + "]\n"
  }

  function PageLayout(layout: Bytes): Bytes
  {
    if layout == "single" then SinglePage
    else if layout == "continuous" then OneColumn
    else if layout == "two" then TwoColumn
    else []
  }

  /** The catalog entries _putCatalog() writes for the display mode. */
  function CatalogText(fmt2: real -> Bytes, zoom: Zoom, layout: Bytes): (r: Bytes)
    ensures |r| >= |CatalogHead| && r[..|CatalogHead|] == CatalogHead
    ensures zoom == ZoomName("default") && layout == "default" ==> r == CatalogHead
  {
    CatalogHead + OpenAction(fmt2, zoom) + PageLayout(layout)
  }

  // --------------------------------------------------------------- colours

  /** PHP reads an omitted channel (null) as 0. */
  function Channel(c: Option<real>): real
  {
    if c.Some? then c.value else 0.0
  }

  /** _setColor() uses the one-value gray form when all three channels are
      0 or g is omitted. */
  predicate Gray(r: real, g: Option<real>, b: Option<real>)
  {
    (r == 0.0 && Channel(g) == 0.0 && Channel(b) == 0.0) || g.None?
  }

  /** The colour operator _setColor() builds: "v G" / "v g" for gray,
      "r g b RG" / "r g b rg" otherwise, channels divided by 255. */
  function ColorOp(fmt3: real -> Bytes, draw: bool, r: real, g: Option<real>, b: Option<real>): (op: Bytes)
  {
    if Gray(r, g, b) then fmt3(r / 255.0) + (if draw then " G" else " g")
    else fmt3(r / 255.0) + " " + fmt3(Channel(g) / 255.0) + " " + fmt3(Channel(b) / 255.0) + (if draw then " RG" else " rg")
  }

  /** The operator at the end of a colour: RG/rg exactly for three values,
      G/g for one; upper case for stroking, lower case for filling. */
  lemma ColorOpName(fmt3: real -> Bytes, draw: bool, r: real, g: Option<real>, b: Option<real>)
    ensures var op := ColorOp(fmt3, draw, r, g, b);
            |op| >= 2 && op[|op| - 1] == (if draw then 'G' else 'g')
            && (op[|op| - 2] == ' ' <==> Gray(r, g, b))
            && (Gray(r, g, b) ==> op[|op| - 2] == ' ' && op[..|op| - 2] == fmt3(r / 255.0))
  {
  }

  /** Equal non-zero channels still use the three-value form; zero channels
      or an omitted g use the one-value form. */
  lemma GrayCases(v: real, w: real)
    ensures v != 0.0 ==> !Gray(v, Some(v), Some(v))
    ensures Gray(0.0, Some(0.0), Some(0.0)) && Gray(0.0, Some(0.0), None) && Gray(w, None, Some(v))
    ensures w != 0.0 ==> !Gray(0.0, Some(w), None)
  {
  }

  // ------------------------------------------------------------------ cells

  /** cell()'s border: 1 for a frame, or a string of sides L, T, R, B. */
  datatype Border = Num(n: int) | Sides(s: Bytes)

  /** PHP truthiness of a border ($border in multiCell()). */
  predicate BorderSet(b: Border)
  {
    match b
    case Num(n) => n != 0
    case Sides(s) => Truthy(s)
  }

  /** $border == 1 in PHP's loose comparison, for the integer 1 and the
      string "1" (other numeric spellings of 1 are not modelled). */
  predicate IsOne(b: Border)
  {
    b == Num(1) || b == Sides("1")
  }

  /** The sides a border names, as strpos() sees them (an integer other
      than 1 is read as its decimal text, which names none). */
  function SideText(b: Border): Bytes
  {
    match b
    case Num(n) => IntText(n)
    case Sides(s) => s
  }

  /** A link: an URL or the number addLink() returned. */
  datatype LinkRef = Url(url: Bytes) | Internal(id: int)

  /** PHP truthiness of a link: cell() only records a link that is set. */
  predicate LinkSet(l: LinkRef)
  {
    match l
    case Url(u) => Truthy(u)
    case Internal(id) => id != 0
  }

  /** A link area on a page, in points, as link() records it. */
  datatype PageLink = PageLink(x: real, y: real, w: real, h: real, link: LinkRef)

  /** What cell() reads of the graphics state: scale factor, page height,
      cell margin, font size (user units and points), the current font's
      widths and underline position and thickness, word spacing, text colour. */
  datatype Pen = Pen(k: real, height: real, cMargin: real, fontSize: real, fontSizePt: real,
                     cw: WidthTable, up: int, ut: int, ws: real,
                     colorFlag: bool, textColor: Bytes, underline: bool)

  /** getStringWidth(): the sum of the widths, times fontSize / 1000. */
  function StringWidth(cw: WidthTable, s: Bytes, fontSize: real): real
  {
    Width(cw, s) as real * fontSize / 1000.0
  }

  /** The rectangle of a filled or framed cell. */
  function RectOps(fmt2: real -> Bytes, p: Pen, x: real, y: real, w: real, h: real, border: Border, fill: bool): Bytes
  {
    if fill || IsOne(border) then
      fmt2(x * p.k) + " " + fmt2((p.height - y) * p.k) + " " + fmt2(w * p.k) + " " + fmt2(-h * p.k)
      + " re " + (if fill then (if IsOne(border) then "B" else "f") else "S") + " "
    else ""
  }

  const LineTo: Bytes := " l S "

  /** One stroked segment. */
  function Segment(fmt2: real -> Bytes, x1: real, y1: real, x2: real, y2: real): (r: Bytes)
    ensures |r| >= 2
  {
    fmt2(x1) + " " + fmt2(y1) + " m " + fmt2(x2) + " " + fmt2(y2) + LineTo
  }

  /** The sides of a cell border, each drawn when its letter is present. */
  function SideOps(fmt2: real -> Bytes, p: Pen, x: real, y: real, w: real, h: real, sides: Bytes): Bytes
  {
    var left, right := x * p.k, (x + w) * p.k;
    var top, bottom := (p.height - y) * p.k, (p.height - (y + h)) * p.k;
    (if 'L' in sides then Segment(fmt2, left, top, left, bottom) else "")
    + (if 'T' in sides then Segment(fmt2, left, top, right, top) else "")
    + (if 'R' in sides then Segment(fmt2, right, top, right, bottom) else "")
    + (if 'B' in sides then Segment(fmt2, left, bottom, right, bottom) else "")
  }

  /** Where the text starts inside a cell: right-aligned, centred, or one
      cell margin in. */
  function Dx(p: Pen, w: real, txt: Bytes, align: Bytes): real
  {
    if align == "R" then w - p.cMargin - StringWidth(p.cw, txt, p.fontSize)
    else if align == "C" then (w - StringWidth(p.cw, txt, p.fontSize)) / 2.0
    else p.cMargin
  }

  const RectFill: Bytes := " re f"

  /** _doUnderline(): a filled rectangle under the text, as wide as the text
      with its word spacing. */
  function UnderlineOps(fmt2: real -> Bytes, p: Pen, x: real, y: real, txt: Bytes): Bytes
  {
    var uw := StringWidth(p.cw, txt, p.fontSize) + p.ws * Spaces(txt) as real;
    fmt2(x * p.k) + " " + fmt2((p.height - (y - p.up as real / 1000.0 * p.fontSize)) * p.k) + " "
    + fmt2(uw * p.k) + " " + fmt2(-(p.ut as real) / 1000.0 * p.fontSizePt) + RectFill
  }

  const MoveOp: Bytes := " Td "

  /** What comes before the literal string of a cell's text: the text
      colour if it differs from the fill colour, and the text position. */
  function TextPrefix(fmt2: real -> Bytes, p: Pen, x: real, y: real, w: real, h: real, txt: Bytes, align: Bytes): Bytes
  {
    var dx := Dx(p, w, txt, align);
    var ty := y + 0.5 * h + 0.3 * p.fontSize;
    (if p.colorFlag then "q " + p.textColor + " " else "")
    + "BT " + fmt2((x + dx) * p.k) + " " + fmt2((p.height - ty) * p.k) + MoveOp
  }

  /** What comes after it: the underline, and the end of the colour change. */
  function TextSuffix(fmt2: real -> Bytes, p: Pen, x: real, y: real, w: real, h: real, txt: Bytes, align: Bytes): Bytes
  {
    var dx := Dx(p, w, txt, align);
    var ty := y + 0.5 * h + 0.3 * p.fontSize;
    (if p.underline then " " + UnderlineOps(fmt2, p, x + dx, ty, txt) else "")
    + (if p.colorFlag then " Q" else "")
  }

  const ShowOp: Bytes := ") Tj ET"

  /** The text shown: a literal string with the escaping cell() does
      inline, and the show operator. */
  function ShowText(txt: Bytes): (r: Bytes)
    ensures |r| >= 2
  {
    "(" + Escape(txt, false) + ShowOp
  }

  /** The text of a cell, if it has any. */
  function TextOps(fmt2: real -> Bytes, p: Pen, x: real, y: real, w: real, h: real, txt: Bytes, align: Bytes): Bytes
  {
    if txt == [] then []
    else TextPrefix(fmt2, p, x, y, w, h, txt, align) + (ShowText(txt) + TextSuffix(fmt2, p, x, y, w, h, txt, align))
  }

  /** The rectangle and the sides of a cell. */
  function FrameOps(fmt2: real -> Bytes, p: Pen, x: real, y: real, w: real, h: real, border: Border, fill: bool): Bytes
  {
    RectOps(fmt2, p, x, y, w, h, border, fill)
    + (if border.Sides? then SideOps(fmt2, p, x, y, w, h, border.s) else [])
  }

  /** The operators cell() writes for a cell at (x, y) of size w x h. */
  function CellOps(fmt2: real -> Bytes, p: Pen, x: real, y: real, w: real, h: real, txt: Bytes,
                   border: Border, align: Bytes, fill: bool): Bytes
  {
    FrameOps(fmt2, p, x, y, w, h, border, fill) + TextOps(fmt2, p, x, y, w, h, txt, align)
  }

  /** A border string that names no side. */
  predicate NoSides(b: Border)
  {
    b.Sides? ==> 'L' !in b.s && 'T' !in b.s && 'R' !in b.s && 'B' !in b.s
  }

  /** cell() writes nothing exactly when there is no text, no fill, no
      frame and no side; what it writes is never the single byte 0, so
      PHP's truthiness test on it is a test for emptiness. */
  lemma CellOpsEmpty(fmt2: real -> Bytes, p: Pen, x: real, y: real, w: real, h: real, txt: Bytes,
                     border: Border, align: Bytes, fill: bool)
    ensures CellOps(fmt2, p, x, y, w, h, txt, border, align, fill) == []
            <==> txt == [] && !fill && !IsOne(border) && NoSides(border)
    ensures Truthy(CellOps(fmt2, p, x, y, w, h, txt, border, align, fill))
            <==> CellOps(fmt2, p, x, y, w, h, txt, border, align, fill) != []
  {
    var r := RectOps(fmt2, p, x, y, w, h, border, fill);
    var t := TextOps(fmt2, p, x, y, w, h, txt, align);
    var sd := if border.Sides? then SideOps(fmt2, p, x, y, w, h, border.s) else [];
    assert CellOps(fmt2, p, x, y, w, h, txt, border, align, fill) == r + sd + t;
    if txt != [] {
      assert |t| >= 2;
    }
    if border.Sides? && !NoSides(border) {
      assert |sd| >= 2;
    }
    assert r != [] ==> |r| >= 2;
  }

  /** The text of a non-empty cell is written as one literal string followed
      by the show operator, and a reader gets the text back from it
      (carriage returns excepted: cell() leaves them unescaped and a reader
      takes them for line ends). */
  lemma CellShowsText(fmt2: real -> Bytes, p: Pen, x: real, y: real, w: real, h: real, txt: Bytes,
                      border: Border, align: Bytes, fill: bool)
    requires txt != [] && '\r' !in txt
    ensures var ops := CellOps(fmt2, p, x, y, w, h, txt, border, align, fill);
            exists at :: Holds(ops, at, ShowText(txt))
    ensures Unescape(Escape(txt, false)) == txt && Balanced(Escape(txt, false))
  {
    EscapeRoundTrip(txt, false);
    var lit := ShowText(txt);
    var post := TextSuffix(fmt2, p, x, y, w, h, txt, align);
    var frame := FrameOps(fmt2, p, x, y, w, h, border, fill);
    var prefix := TextPrefix(fmt2, p, x, y, w, h, txt, align);
    HoldsMiddle(frame, prefix, lit, post);
    assert CellOps(fmt2, p, x, y, w, h, txt, border, align, fill) == frame + (prefix + (lit + post));
  }

  // ------------------------------------------------------------- serializer

  /** A PDF version number, compared as PHP compares '1.3' and '1.4'. */
  datatype Version = Version(major: nat, minor: nat)

  predicate VersionLess(a: Version, b: Version)
  {
    a.major < b.major || (a.major == b.major && a.minor < b.minor)
  }

  function VersionText(v: Version): Bytes
  {
    NatText(v.major) + "." + NatText(v.minor)
  }

  const AnnotHead: Bytes := "<</Type /Annot /Subtype /Link " + "/Rect ["
  const NoBorder: Bytes := "] /Border [0 0 0] "
  const UriAction: Bytes := "/A <</S /URI /URI "
  const DestHead: Bytes := "/Dest ["
  const DestXyz: Bytes := " 0 R /XYZ 0 "
  const DestTail: Bytes := " null]>>"

  /** The target of a link area: an URI action, or the page object of the
      target page (1 + 2 * page) and a height on it. */
  function AnnotTarget(fmt2: real -> Bytes, link: LinkRef, links: map<int, (int, real)>,
                       pageSizes: map<nat, Size>, hPt: real, k: real): Bytes
  {
    match link
    case Url(u) => UriAction + TextString(u) + ">>>>"
    case Internal(id) =>
      var l := if id in links then links[id] else (0, 0.0);
      var h := if l.0 >= 0 && l.0 in pageSizes then pageSizes[l.0].h else hPt;
      DestHead + IntText(1 + 2 * l.0) + DestXyz + fmt2(h - l.1 * k) + DestTail
  }

  /** The /Annots entry of one link area. */
  function AnnotText(fmt2: real -> Bytes, pl: PageLink, links: map<int, (int, real)>,
                     pageSizes: map<nat, Size>, hPt: real, k: real): Bytes
  {
    var rect := fmt2(pl.x) + " " + fmt2(pl.y) + " " + fmt2(pl.x + pl.w) + " " + fmt2(pl.y - pl.h);
    AnnotHead + rect + NoBorder + AnnotTarget(fmt2, pl.link, links, pageSizes, hPt, k)
  }

  function AnnotsText(fmt2: real -> Bytes, pls: seq<PageLink>, links: map<int, (int, real)>,
                      pageSizes: map<nat, Size>, hPt: real, k: real): Bytes
  {
    if pls == [] then []
    else AnnotText(fmt2, pls[0], links, pageSizes, hPt, k) + AnnotsText(fmt2, pls[1..], links, pageSizes, hPt, k)
  }

  const PageHead: Bytes := "<</Type /Page\n/Parent 1 0 R\n"
  const MediaBoxHead: Bytes := "/MediaBox [0 0 "
  const ResourcesLine: Bytes := "/Resources 2 0 R\n"
  const AnnotsHead: Bytes := "/Annots ["
  const ArrayEnd: Bytes := "]\n"
  const GroupLine: Bytes := "/Group <</Type /Group " + "/S /Transparency /CS /DeviceRGB>>\n"

  /** The dictionary of page object o (written after its header): its own
      media box if its size differs from the default, its links, the
      transparency group from version 1.4 on, and its content stream, the
      next object. */
  function PageDict(o: nat, mediaBox: Option<Bytes>, annots: Option<Bytes>, group: bool): (r: Bytes)
    ensures |r| >= |PageHead| + |ContentsLine(o)| && r[..|PageHead|] == PageHead
    ensures r[|r| - |ContentsLine(o)|..] == ContentsLine(o)
  {
    var d := PageHead + PageEntries(mediaBox, annots, group);
    assert (d + ContentsLine(o))[..|PageHead|] == d[..|PageHead|];
    d + ContentsLine(o)
  }

  /** The dictionary d of page object o declares the transparency group
      just before its content reference. */
  predicate Grouped(d: Bytes, o: nat)
  {
    var c := |ContentsLine(o)|;
    |d| >= |GroupLine| + c && d[|d| - c - |GroupLine|..|d| - c] == GroupLine
  }

  /** From version 1.4 on every page dictionary declares the transparency
      group. */
  lemma PageDictGroup(o: nat, mediaBox: Option<Bytes>, annots: Option<Bytes>)
    ensures Grouped(PageDict(o, mediaBox, annots, true), o)
  {
    var a: Bytes := if mediaBox.Some? then MediaBoxHead + mediaBox.value + ArrayEnd else [];
    var b: Bytes := if annots.Some? then AnnotsHead + annots.value + ArrayEnd else [];
    assert PageEntries(mediaBox, annots, true) == a + (ResourcesLine + (b + GroupLine));
    EndsWithGroup(PageHead, a, ResourcesLine, b, GroupLine, ContentsLine(o));
  }

  /** The entries before g and the line after it do not move g. */
  lemma EndsWithGroup(p: Bytes, a: Bytes, r: Bytes, b: Bytes, g: Bytes, c: Bytes)
    ensures var d := p + (a + (r + (b + g))) + c; d[|d| - |c| - |g|..|d| - |c|] == g
  {
    var x := p + (a + (r + b));
    assert p + (a + (r + (b + g))) == x + g;
    var d := x + g + c;
    assert forall i | 0 <= i < |g| :: d[|x| + i] == g[i];
  }

  /** The entries of a page dictionary between its head and /Contents. */
  function PageEntries(mediaBox: Option<Bytes>, annots: Option<Bytes>, group: bool): Bytes
  {
    (if mediaBox.Some? then MediaBoxHead + mediaBox.value + ArrayEnd else [])
    + (ResourcesLine
    + ((if annots.Some? then AnnotsHead + annots.value + ArrayEnd else [])
    + (if group then GroupLine else [])))
  }

  const ContentsHead: Bytes := "/Contents "
  const RefEnd: Bytes := " 0 R>>\n"
  const EndObj: Bytes := "endobj\n"

  /** The last line of a page object: its content stream is object o + 1. */
  function ContentsLine(o: nat): Bytes
  {
    ContentsHead + NatText(o + 1) + RefEnd + EndObj
  }

  const LengthKey: Bytes := "/Length "
  const StreamHead: Bytes := ">>\nstream\n"
  const StreamTail: Bytes := "\nendstream\nendobj\n"

  /** A stream object's dictionary and data, after its header. */
  function StreamObject(filter: Bytes, data: Bytes): Bytes
  {
    "<<" + filter + LengthKey + NatText(|data|) + StreamHead + data + StreamTail
  }

  /** One metadata entry of the information dictionary, written only
      when the value is set. */
  function MetaLine(key: Bytes, v: Bytes): Bytes
  {
    if Truthy(v) then key + " " + TextString(v) + "\n" else ""
  }

  const Producer: Bytes := "/Producer (FPDF 1.7)\n"
  const TitleKey: Bytes := "/Title"
  const SubjectKey: Bytes := "/Subject"
  const AuthorKey: Bytes := "/Author"
  const KeywordsKey: Bytes := "/Keywords"
  const CreatorKey: Bytes := "/Creator"
  const DateKey: Bytes := "/CreationDate "
  const DatePrefix: Bytes := "D:"

  /** The document information dictionary: producer, the metadata that is
      set, and the creation date. */
  function InfoText(title: Bytes, subject: Bytes, author: Bytes, keywords: Bytes, creator: Bytes,
                    date: Bytes): Bytes
  {
    Producer
    + (MetaLine(TitleKey, title) + (MetaLine(SubjectKey, subject) + (MetaLine(AuthorKey, author)
    + (MetaLine(KeywordsKey, keywords) + (MetaLine(CreatorKey, creator)
    + (DateKey + TextString(DatePrefix + date) + "\n"))))))
  }

  // ---------------------------------------------------------------- output

  /** Where output() sends the document. */
  datatype Dest = Inline | Download | ToFile | AsString

  const BadDest: Bytes := "Incorrect output destination: "

  /** output()'s choice of destination: with none given, a name means a
      file and no name means inline as doc.pdf. */
  function Destination(name: Bytes, dest: Bytes): (r: Result<(Bytes, Dest)>)
    ensures Upper(dest) == "" && name == "" ==> r == Ok(("doc.pdf", Inline))
    ensures Upper(dest) == "" && name != "" ==> r == Ok((name, ToFile))
    ensures r.Err? <==> Upper(dest) !in {"", "I", "D", "F", "S"}
    ensures r.Err? ==> r.msg == BadDest + Upper(dest)
    ensures r.Ok? && Upper(dest) != "" ==> r.value.0 == name
  {
    var d := Upper(dest);
    if d == "" then (if name == "" then Ok(("doc.pdf", Inline)) else Ok((name, ToFile)))
    else if d == "I" then Ok((name, Inline))
    else if d == "D" then Ok((name, Download))
    else if d == "F" then Ok((name, ToFile))
    else if d == "S" then Ok((name, AsString))
    else Err(BadDest + d)
  }
}
