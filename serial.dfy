/**
 * The text of the objects FPDF's serializer writes: the pages and their
 * content streams, the page tree root, encodings, embedded font files, font
 * dictionaries, width arrays, font descriptors, images, the resource
 * dictionary and the header line.  Each function gives the text that
 * follows an object's header line, up to and including its "endobj" line.
 */
module Serial {
  import opened Common
  import opened PdfText
  import opened Fonts
  import opened PdfObjects
  import opened Settings
  import opened DocState
  import Png

  const Nl: Bytes := "\n"
  const Sp: Bytes := " "
  const DictOpen: Bytes := "<<\n"
  const FontPrefix: Bytes := "/F"
  const RefTail: Bytes := " 0 R"
  const Two: Bytes := "2"
  const KeyPrefix: Bytes := " /"

  // ----------------------------------------------------------------- pages

  /** What _putPages() reads besides the page buffers: the formatting of
      reals, the page sizes that differ from the default, the links on each
      page and their targets, the default page height in points, the
      scale, whether the version asks for a transparency group, and the
      compression. */
  datatype PageEnv = PageEnv(fmt2: real -> Bytes, sizes: map<nat, Size>, onPages: map<nat, seq<PageLink>>,
                             targets: map<int, (int, real)>, hPt: real, k: real, group: bool,
                             compress: bool, zip: Bytes -> Bytes)

  const FlateFilter: Bytes := "/Filter /FlateDecode "

  /** The dictionary of page p, object o. */
  function PageBody(e: PageEnv, p: nat, o: nat): (r: Bytes)
    ensures |r| >= |ContentsLine(o)| && r[|r| - |ContentsLine(o)|..] == ContentsLine(o)
  {
    PageDict(o, if p in e.sizes then Some(e.fmt2(e.sizes[p].w) + Sp + e.fmt2(e.sizes[p].h)) else None,
             if p in e.onPages then Some(AnnotsText(e.fmt2, e.onPages[p], e.targets, e.sizes, e.hPt, e.k)) else None,
             e.group)
  }

  /** The content stream of a page: compressed, with its filter, when
      compression is on. */
  function ContentBody(e: PageEnv, page: Bytes): Bytes
  {
    if e.compress then StreamObject(FlateFilter, e.zip(page)) else StreamObject([], page)
  }

  /** The number _putPages() gives the dictionary of page p when the last
      object before the pages was n0. */
  function PageSlot(n0: nat, p: nat): nat
    requires p >= 1
  {
    n0 + 2 * p - 1
  }

  /** The objects of _putPages()' second loop, in order: for each page its
      dictionary, whose number is PageSlot(n0, p), then its content
      stream. */
  function PageList(e: PageEnv, pages: seq<Bytes>, n0: nat): (r: seq<Bytes>)
    ensures |r| == 2 * |pages|
  {
    if pages == [] then []
    else
      var m := |pages|;
      PageList(e, pages[..m - 1], n0) + [PageBody(e, m, PageSlot(n0, m)), ContentBody(e, pages[m - 1])]
  }

  /** Page p's dictionary is object 2p - 1 of the list and its content
      stream object 2p. */
  lemma {:induction false} PageListAt(e: PageEnv, pages: seq<Bytes>, n0: nat, p: nat)
    requires 1 <= p <= |pages|
    ensures PageList(e, pages, n0)[2 * p - 2] == PageBody(e, p, PageSlot(n0, p))
    ensures PageList(e, pages, n0)[2 * p - 1] == ContentBody(e, pages[p - 1])
    decreases |pages|
  {
    var m := |pages|;
    var front := PageList(e, pages[..m - 1], n0);
    var r := front + [PageBody(e, m, PageSlot(n0, m)), ContentBody(e, pages[m - 1])];
    assert PageList(e, pages, n0) == r;
    if p < m {
      PageListAt(e, pages[..m - 1], n0, p);
      assert pages[..m - 1][p - 1] == pages[p - 1];
      assert r[2 * p - 2] == front[2 * p - 2] && r[2 * p - 1] == front[2 * p - 1];
    } else {
      assert |front| == 2 * p - 2;
    }
  }

  const PagesHead: Bytes := "<</Type /Pages\n"
  const KidsHead: Bytes := "/Kids ["
  const CountKey: Bytes := "/Count "
  const DictEnd: Bytes := ">>\n"

  /** The page tree root, object 1: its kids 3, 5, ..., their count and the
      default media box. */
  function PagesRoot(nb: nat, w: Bytes, h: Bytes): Bytes
  {
    PagesHead + (KidsHead + KidsList(0, nb) + (ArrayEnd + (CountKey + NatText(nb)
    + (Nl + (MediaBoxHead + w + (Sp + (h + (ArrayEnd + (DictEnd + EndObj)))))))))
  }

  /** The page-count alias replaced in every page: str_replace(alias, nb,
      page) for each page. */
  function Aliased(pages: seq<Bytes>, alias: Bytes, nb: nat): (r: seq<Bytes>)
    ensures |r| == |pages|
    ensures forall p :: 0 <= p < |pages| ==> r[p] == Replace(pages[p], alias, NatText(nb))
  {
    seq(|pages|, p requires 0 <= p < |pages| => Replace(pages[p], alias, NatText(nb)))
  }

  /** An alias with no digit in it does not survive in any page: the
      number written in its place cannot form it again. */
  lemma AliasGone(pages: seq<Bytes>, alias: Bytes, nb: nat)
    requires alias != [] && forall c :: c in alias ==> !IsDigit(c)
    ensures forall p :: 0 <= p < |pages| ==> !Occurs(Aliased(pages, alias, nb)[p], alias)
  {
    NatTextDigits(nb);
    forall p | 0 <= p < |pages|
      ensures !Occurs(Aliased(pages, alias, nb)[p], alias)
    {
      ReplaceRemovesAll(pages[p], alias, NatText(nb));
    }
  }

  lemma NatTextDigits(n: nat)
    ensures |NatText(n)| > 0 && forall c :: c in NatText(n) ==> IsDigit(c)
  {
    NatTextRoundTrip(n);
  }

  // ------------------------------------------------------------- encodings

  const EncodingHead: Bytes := "<</Type /Encoding " + "/BaseEncoding /WinAnsiEncoding "
  const DifferencesKey: Bytes := "/Differences ["
  const EncodingTail: Bytes := "]>>\n"

  /** An encoding object: WinAnsi with the differences of one font. */
  function EncodingBody(diff: Bytes): Bytes
  {
    EncodingHead + (DifferencesKey + (diff + (EncodingTail + EndObj)))
  }

  // ------------------------------------------------------------ font files

  /** A file name ending in ".z" holds a compressed font. */
  predicate Compressed(file: Bytes)
  {
    |file| >= 2 && file[|file| - 2..] == ".z"
  }

  /** The bytes embedded for a font file: a Type1 file that is not
      compressed loses its two 6-byte segment headers. */
  function Embedded(data: Bytes, file: Bytes, f: FontFile): (r: Bytes)
    ensures !Compressed(file) && f.length2.Some? ==> |r| <= f.length1 + f.length2.value
    ensures Compressed(file) || f.length2.None? ==> r == data
  {
    if !Compressed(file) && f.length2.Some? then
      Substr(data, 6, f.length1) + Substr(data, 6 + f.length1 + 6, f.length2.value)
    else data
  }

  const LengthHead: Bytes := "<</Length "
  const FilterLine: Bytes := "/Filter /FlateDecode\n"
  const Length1Key: Bytes := "/Length1 "
  const Length2Key: Bytes := "/Length2 "
  const Length3Zero: Bytes := " /Length3 0\n"

  /** An embedded font file: its length, its filter when compressed, the
      segment lengths, and the data. */
  function FontFileBody(data: Bytes, compressed: bool, f: FontFile): Bytes
  {
    LengthHead + NatText(|data|) + (Nl + ((if compressed then FilterLine else [])
    + (Length1Key + NatText(f.length1) + (Nl
    + ((if f.length2.Some? then Length2Key + NatText(f.length2.value) + Length3Zero else [])
    + (StreamHead + (data + StreamTail)))))))
  }

  // ----------------------------------------------------------------- fonts

  const FontHead: Bytes := "<</Type /Font\n/BaseFont /"
  const Type1Line: Bytes := "\n/Subtype /Type1\n"
  const WinAnsi: Bytes := "/Encoding /WinAnsiEncoding\n"
  const SubtypeKey: Bytes := "\n/Subtype /"
  const CharRange: Bytes := "\n/FirstChar 32 /LastChar 255\n"
  const WidthsKey: Bytes := "/Widths "
  const DescriptorKey: Bytes := " 0 R\n/FontDescriptor "
  const EncodingKey: Bytes := "/Encoding "
  const RefLine: Bytes := " 0 R\n"

  /** A standard font: WinAnsi encoding except for the two symbol fonts. */
  function CoreFontBody(name: Bytes): Bytes
  {
    FontHead + (name + (Type1Line
    + ((if name != "Symbol" && name != "ZapfDingbats" then WinAnsi else []) + (DictEnd + EndObj))))
  }

  /** A Type1 or TrueType font, object o: its widths are object o + 1, its
      descriptor object o + 2, and its encoding the object enc when it has
      differences. */
  function SimpleFontBody(name: Bytes, typ: Bytes, o: nat, enc: Option<nat>): Bytes
  {
    FontHead + (name + (SubtypeKey + (typ + (CharRange + (WidthsKey + NatText(o + 1)
    + (DescriptorKey + NatText(o + 2) + (RefLine
    + ((if enc.Some? then EncodingKey + NatText(enc.value) + RefLine else WinAnsi) + (DictEnd + EndObj)))))))))
  }

  /** The widths of codes from..255, each followed by a space. */
  function WidthList(cw: WidthTable, from: nat): Bytes
    decreases 256 - from
  {
    if from > 255 then [] else IntText(cw[from]) + Sp + WidthList(cw, from + 1)
  }

  const ArrayOpen: Bytes := "["

  /** The width array of codes 32..255. */
  function WidthsBody(cw: WidthTable): Bytes
  {
    ArrayOpen + (WidthList(cw, 32) + (ArrayEnd + EndObj))
  }

  /** The descriptor's entries " /key value", in order. */
  function DescText(desc: seq<(Bytes, Bytes)>): Bytes
  {
    if desc == [] then [] else KeyPrefix + desc[0].0 + Sp + desc[0].1 + DescText(desc[1..])
  }

  const DescriptorHead: Bytes := "<</Type /FontDescriptor /FontName /"
  const FontFileKey: Bytes := " /FontFile"

  /** A font descriptor; an embedded font refers to its file object
      (FontFile for Type1, FontFile2 otherwise). */
  function DescriptorBody(name: Bytes, typ: Bytes, desc: seq<(Bytes, Bytes)>, file: Option<nat>): Bytes
  {
    DescriptorHead + (name + (DescText(desc)
    + ((if file.Some? then FontFileKey + (if typ == "Type1" then [] else Two) + Sp + NatText(file.value) + RefTail
        else []) + (DictEnd + EndObj))))
  }

  /** The object number given to the embedded file named file, or none
      (PHP reads a missing entry as null, written as nothing). */
  function FileRef(files: FileTable, file: Bytes): Option<nat>
  {
    var p := Find(files, file);
    if p.Some? then Some(files[p.value].1.n) else None
  }

  // ---------------------------------------------------------------- images

  const XObjectHead: Bytes := "<</Type /XObject\n/Subtype /Image\n"
  const WidthKey: Bytes := "/Width "
  const HeightKey: Bytes := "/Height "
  const IndexedHead: Bytes := "/ColorSpace [/Indexed /DeviceRGB "
  const IndexedTail: Bytes := " 0 R]\n"
  const ColorSpaceKey: Bytes := "/ColorSpace /"
  const CmykDecode: Bytes := "/Decode [1 0 1 0 1 0 1 0]\n"
  const BitsLine: Bytes := "/BitsPerComponent "
  const FilterKey: Bytes := "/Filter /"
  const ParmsKey: Bytes := "/DecodeParms <<"
  const ParmsEnd: Bytes := ">>\n"
  const MaskKey: Bytes := "/Mask ["
  const SMaskKey: Bytes := "/SMask "

  /** The colour-key mask: each value twice. */
  function MaskText(trns: seq<nat>): Bytes
  {
    if trns == [] then [] else NatText(trns[0]) + Sp + NatText(trns[0]) + Sp + MaskText(trns[1..])
  }

  /** The colour space entry: an indexed image names its palette, the
      object after it (or after its soft mask). */
  function ColorSpaceText(cs: Bytes, pal: Bytes, palObj: nat): Bytes
  {
    if cs == "Indexed" then IndexedHead + IntText(|pal| / 3 - 1) + Sp + NatText(palObj) + IndexedTail
    else ColorSpaceKey + cs + Nl + (if cs == "DeviceCMYK" then CmykDecode else [])
  }

  /** An image XObject, object o: its soft mask, when it has one, is
      object o + 1, and an indexed image's palette follows that. */
  function ImageBody(info: Png.PngInfo, f: Bytes, o: nat): Bytes
  {
    ImageHead(info, o) + ImageTail(info, f, o)
  }

  /** An image's size, colour space and depth. */
  function ImageHead(info: Png.PngInfo, o: nat): Bytes
  {
    XObjectHead + (WidthKey + NatText(info.w) + (Nl + (HeightKey + NatText(info.h) + (Nl
    + (ColorSpaceText(info.cs, info.pal, o + 1) + (BitsLine + NatText(info.bpc) + Nl))))))
  }

  /** An image's filter, decoding parameters, masks and data. */
  function ImageTail(info: Png.PngInfo, f: Bytes, o: nat): Bytes
  {
    ImageFilter(f) + (ImageParms(info.dp) + (ImageMasks(info, o)
    + (LengthKey + NatText(|info.data|) + (StreamHead + (info.data + StreamTail)))))
  }

  function ImageFilter(f: Bytes): Bytes
  {
    if f != [] then FilterKey + f + Nl else []
  }

  function ImageParms(dp: Bytes): Bytes
  {
    if dp != [] then ParmsKey + dp + ParmsEnd else []
  }

  /** The colour-key mask and the soft-mask reference. */
  function ImageMasks(info: Png.PngInfo, o: nat): Bytes
  {
    var m: Bytes := if info.trns.Some? then MaskKey + MaskText(info.trns.value) + ArrayEnd else [];
    var s: Bytes := if info.smask.Some? then SMaskKey + NatText(o + 1) + RefLine else [];
    m + s
  }

  const SMaskParms: Bytes := "/Predictor 15 /Colors 1 " + "/BitsPerComponent 8 /Columns "

  /** The soft mask _putImage() writes after an image with an alpha
      channel: the alpha plane as an 8-bit gray image. */
  function SoftMask(info: Png.PngInfo, alpha: Bytes): (r: Png.PngInfo)
    ensures r.smask.None? && r.cs == "DeviceGray" && r.w == info.w && r.h == info.h && r.data == alpha
  {
    Png.PngInfo(info.w, info.h, "DeviceGray", 8, SMaskParms + NatText(info.w), [], None, alpha, None)
  }

  // ------------------------------------------------------------ aggregates

  /** The page buffers _putPages() writes: with the page-count alias
      replaced when one is set. */
  function FinalPages(pages: seq<Bytes>, alias: Bytes, nb: nat): (r: seq<Bytes>)
    ensures |r| == |pages|
  {
    if Truthy(alias) then Aliased(pages, alias, nb) else pages
  }

  const FileMissing: Bytes := "Font file not found: "

  /** file_get_contents() of every embedded font file, in order, as the
      second loop of _putFonts() reads them; the first one that cannot be
      read, or reads as a falsy string, stops the document. */
  function ReadFiles(files: FileTable, read: Bytes -> Option<Bytes>): (r: Result<seq<Bytes>>)
    ensures r.Ok? ==> |r.value| == |files|
    ensures r.Ok? ==> forall t :: 0 <= t < |files| ==> read(files[t].0) == Some(r.value[t])
    ensures r.Ok? <==> forall t :: 0 <= t < |files| ==> read(files[t].0).Some? && Truthy(read(files[t].0).value)
    decreases |files|
  {
    if files == [] then Ok([])
    else
      var init := ReadFiles(files[..|files| - 1], read);
      var last := read(files[|files| - 1].0);
      if init.Err? then init
      else if last.None? || !Truthy(last.value) then Err(FileMissing + files[|files| - 1].0)
      else Ok(init.value + [last.value])
  }

  /** What the serializer writes after an object's header, before its text
      is formed: the objects of _putFonts() and _putImage(). */
  datatype Obj =
    | EncodingObj(diff: Bytes)
    | FileObj(data: Bytes, compressed: bool, info: FontFile)
    | CoreFontObj(name: Bytes)
    | SimpleFontObj(name: Bytes, typ: Bytes, o: nat, enc: Option<nat>)
    | WidthsObj(cw: WidthTable)
    | DescriptorObj(name: Bytes, typ: Bytes, desc: seq<(Bytes, Bytes)>, file: Option<nat>)
    | ImageObj(image: Png.PngInfo, f: Bytes, o: nat)
    | StreamObj(filter: Bytes, content: Bytes)

  /** The text of an object. */
  function Body(x: Obj): Bytes
  {
    match x
    case EncodingObj(diff) => EncodingBody(diff)
    case FileObj(data, compressed, info) => FontFileBody(data, compressed, info)
    case CoreFontObj(name) => CoreFontBody(name)
    case SimpleFontObj(name, typ, o, enc) => SimpleFontBody(name, typ, o, enc)
    case WidthsObj(cw) => WidthsBody(cw)
    case DescriptorObj(name, typ, desc, file) => DescriptorBody(name, typ, desc, file)
    case ImageObj(image, f, o) => ImageBody(image, f, o)
    case StreamObj(filter, content) => StreamObject(filter, content)
  }

  /** The texts of objects, in order. */
  function Bodies(xs: seq<Obj>): (r: seq<Bytes>)
    ensures |r| == |xs| && forall i :: 0 <= i < |xs| ==> r[i] == Body(xs[i])
  {
    seq(|xs|, i requires 0 <= i < |xs| => Body(xs[i]))
  }

  /** The encoding objects, one per entry of diffs, in order. */
  function EncodingObjs(diffs: seq<Bytes>): (r: seq<Obj>)
    ensures |r| == |diffs| && forall d :: 0 <= d < |diffs| ==> r[d] == EncodingObj(diffs[d])
  {
    seq(|diffs|, d requires 0 <= d < |diffs| => EncodingObj(diffs[d]))
  }

  /** The font-file objects: the bytes read for each file, trimmed and
      described as the file requires. */
  function FileObjs(files: FileTable, data: seq<Bytes>): (r: seq<Obj>)
    requires |data| == |files|
    ensures |r| == |files|
    ensures forall t :: 0 <= t < |files| ==>
              r[t] == FileObj(Embedded(data[t], files[t].0, files[t].1), Compressed(files[t].0), files[t].1)
  {
    seq(|files|, t requires 0 <= t < |files| =>
      FileObj(Embedded(data[t], files[t].0, files[t].1), Compressed(files[t].0), files[t].1))
  }

  /** The files as _putFonts() leaves them: file t is object n0 + t + 1. */
  function FilesFrom(files: FileTable, n0: nat): (r: FileTable)
    ensures FilesNumbered(files, r)
    ensures forall t :: 0 <= t < |files| ==> r[t].1.n == n0 + t + 1
  {
    seq(|files|, t requires 0 <= t < |files| => (files[t].0, files[t].1.(n := n0 + t + 1)))
  }

  /** The font types _putFonts() writes itself. */
  predicate Supported(typ: Bytes)
  {
    typ == "Core" || typ == "Type1" || typ == "TrueType"
  }

  /** How many objects a font of type typ takes: its dictionary, and for a
      Type1 or TrueType font its widths and its descriptor. */
  function FontSpan(typ: Bytes): (r: nat)
    ensures Supported(typ) <==> r > 0
  {
    if typ == "Core" then 1 else if typ == "Type1" || typ == "TrueType" then 3 else 0
  }

  /** The objects of font e, its dictionary being object o: nothing for a
      type _putFonts() does not write.  An embedded file is named by the
      number its entry in files was given, and differences by the encoding
      object nf + diffn. */
  function FontObjs(e: FontEntry, files: FileTable, nf: nat, o: nat): (r: seq<Obj>)
    ensures |r| == FontSpan(e.def.typ)
    ensures e.def.typ == "Core" ==> r[0] == CoreFontObj(e.def.name)
    ensures e.def.typ == "Type1" || e.def.typ == "TrueType" ==>
              r[0] == SimpleFontObj(e.def.name, e.def.typ, o, if e.diffn.Some? then Some(nf + e.diffn.value) else None)
              && r[2] == DescriptorObj(e.def.name, e.def.typ, e.def.desc,
                                      if Truthy(e.def.file) then FileRef(files, e.def.file) else None)
  {
    var d := e.def;
    if d.typ == "Core" then [CoreFontObj(d.name)]
    else if d.typ == "Type1" || d.typ == "TrueType" then
      var enc := if e.diffn.Some? then Some(nf + e.diffn.value) else None;
      var file := if Truthy(d.file) then FileRef(files, d.file) else None;
      [SimpleFontObj(d.name, d.typ, o, enc), WidthsObj(d.cw), DescriptorObj(d.name, d.typ, d.desc, file)]
    else []
  }

  /** How many objects the fonts take together. */
  function FontsSpan(fonts: FontTable): nat
  {
    if fonts == [] then 0 else FontsSpan(fonts[..|fonts| - 1]) + FontSpan(fonts[|fonts| - 1].1.def.typ)
  }

  /** Where each font's objects start: font t's dictionary is object
      n0 + 1 plus the objects of the fonts before it (FontStartsAt). */
  function FontStarts(fonts: FontTable, n0: nat): (r: seq<nat>)
    ensures |r| == |fonts|
  {
    if fonts == [] then []
    else
      var init := fonts[..|fonts| - 1];
      FontStarts(init, n0) + [n0 + FontsSpan(init) + 1]
  }

  lemma {:induction false} FontStartsAt(fonts: FontTable, n0: nat, t: nat)
    requires t < |fonts|
    ensures FontStarts(fonts, n0)[t] == n0 + FontsSpan(fonts[..t]) + 1
  {
    var init := fonts[..|fonts| - 1];
    if t < |fonts| - 1 {
      FontStartsAt(init, n0, t);
      assert init[..t] == fonts[..t];
    }
  }

  /** The objects of each font, font t's starting at number starts[t]. */
  function FontPieces(fonts: FontTable, files: FileTable, nf: nat, starts: seq<nat>): (r: seq<seq<Obj>>)
    requires |starts| == |fonts|
    ensures |r| == |fonts| && forall t :: 0 <= t < |fonts| ==> r[t] == FontObjs(fonts[t].1, files, nf, starts[t])
  {
    seq(|fonts|, t requires 0 <= t < |fonts| => FontObjs(fonts[t].1, files, nf, starts[t]))
  }

  /** The objects of the fonts in order, font t's from number starts[t]. */
  function FontList(fonts: FontTable, files: FileTable, nf: nat, starts: seq<nat>): (r: seq<Obj>)
    requires |starts| == |fonts|
  {
    Flatten(FontPieces(fonts, files, nf, starts))
  }

  /** The fonts as _putFonts() leaves them: each font's number is that of
      its dictionary, the first of its objects. */
  function FontsFrom(fonts: FontTable, starts: seq<nat>): (r: FontTable)
    requires |starts| == |fonts|
    ensures FontsNumbered(fonts, r)
    ensures forall t :: 0 <= t < |fonts| ==> r[t].1.n == starts[t]
  {
    seq(|fonts|, t requires 0 <= t < |fonts| => (fonts[t].0, fonts[t].1.(n := starts[t])))
  }

  /** The first font of a type _putFonts() cannot write, if any. */
  function Unsupported(fonts: FontTable): (r: Option<Bytes>)
    ensures r.None? <==> forall t :: 0 <= t < |fonts| ==> Supported(fonts[t].1.def.typ)
  {
    if fonts == [] then None
    else if !Supported(fonts[0].1.def.typ) then Some(fonts[0].1.def.typ)
    else
      var rest := Unsupported(fonts[1..]);
      assert forall t :: 1 <= t < |fonts| ==> fonts[1..][t - 1] == fonts[t];
      rest
  }

  /** The objects of the first t fonts are as many as FontsSpan() counts. */
  lemma {:induction false} FontPiecesSpan(fonts: FontTable, files: FileTable, nf: nat, starts: seq<nat>, t: nat)
    requires |starts| == |fonts| && t <= |fonts|
    ensures |Flatten(FontPieces(fonts, files, nf, starts)[..t])| == FontsSpan(fonts[..t])
  {
    var ps := FontPieces(fonts, files, nf, starts);
    if t > 0 {
      FontPiecesSpan(fonts, files, nf, starts, t - 1);
      assert ps[..t][..t - 1] == ps[..t - 1];
      assert fonts[..t][..t - 1] == fonts[..t - 1];
    }
  }

  /** Font t's objects come after those of the fonts before it, at index
      k, their count. */
  lemma FontListAt(fonts: FontTable, files: FileTable, nf: nat, starts: seq<nat>, t: nat, j: nat, k: nat)
    requires |starts| == |fonts| && t < |fonts| && j < FontSpan(fonts[t].1.def.typ)
    requires k == |Flatten(FontPieces(fonts, files, nf, starts)[..t])|
    ensures k + j < |FontList(fonts, files, nf, starts)|
    ensures FontList(fonts, files, nf, starts)[k + j] == FontObjs(fonts[t].1, files, nf, starts[t])[j]
  {
    FlattenAt(FontPieces(fonts, files, nf, starts), t, j);
  }

  /** All the fonts' objects are as many as FontsSpan() counts. */
  lemma FontListLength(fonts: FontTable, files: FileTable, nf: nat, starts: seq<nat>)
    requires |starts| == |fonts|
    ensures |FontList(fonts, files, nf, starts)| == FontsSpan(fonts)
  {
    var ps := FontPieces(fonts, files, nf, starts);
    FontPiecesSpan(fonts, files, nf, starts, |fonts|);
    assert ps[..|fonts|] == ps;
    assert fonts[..|fonts|] == fonts;
  }

  /** Object j of font t comes after the objects of the fonts before it. */
  lemma FontListIndex(fonts: FontTable, files: FileTable, nf: nat, starts: seq<nat>, t: nat, j: nat, q: nat)
    requires |starts| == |fonts| && t < |fonts| && j < FontSpan(fonts[t].1.def.typ)
    requires q == FontsSpan(fonts[..t]) + j
    ensures q < |FontList(fonts, files, nf, starts)|
    ensures FontList(fonts, files, nf, starts)[q] == FontObjs(fonts[t].1, files, nf, starts[t])[j]
  {
    var k := |Flatten(FontPieces(fonts, files, nf, starts)[..t])|;
    FontPiecesSpan(fonts, files, nf, starts, t);
    FontListAt(fonts, files, nf, starts, t, j, k);
  }

  lemma IndexBefore(a: seq<Obj>, b: seq<Obj>, i: nat)
    requires i < |a|
    ensures (a + b)[i] == a[i]
  {
  }

  lemma IndexAfter(a: seq<Obj>, b: seq<Obj>, j: nat)
    requires j < |b|
    ensures (a + b)[|a| + j] == b[j]
  {
  }

  const UnsupportedType: Bytes := "Unsupported font type: "

  /** What stops _putFonts(): a font file that cannot be read (the files
      are read before any font is written), then the first font of a type
      it cannot write.  Otherwise the bytes of every file. */
  function FontsCheck(reg: Registry, read: Bytes -> Option<Bytes>): (r: Result<seq<Bytes>>)
    ensures r.Ok? ==> r == ReadFiles(reg.files, read)
    ensures r.Ok? <==> ReadFiles(reg.files, read).Ok? && forall t :: 0 <= t < |reg.fonts| ==> Supported(reg.fonts[t].1.def.typ)
    ensures ReadFiles(reg.files, read).Err? ==> r == ReadFiles(reg.files, read)
    ensures ReadFiles(reg.files, read).Ok? && Unsupported(reg.fonts).Some? ==> r.msg == UnsupportedType + Unsupported(reg.fonts).value
  {
    var data := ReadFiles(reg.files, read);
    if data.Err? then data
    else if Unsupported(reg.fonts).Some? then Err(UnsupportedType + Unsupported(reg.fonts).value)
    else data
  }

  /** The objects _putFonts() writes after the encodings and the files,
      n0 being the count before it. */
  function FontObjList(reg: Registry, n0: nat): seq<Obj>
  {
    FontList(reg.fonts, FilesFrom(reg.files, n0 + |reg.diffs|), n0, StartsOf(reg, n0))
  }

  /** The numbers _putFonts() gives the fonts, n0 being the count before
      it: after the encodings and the files, each font after the objects
      of the fonts before it. */
  function StartsOf(reg: Registry, n0: nat): (r: seq<nat>)
    ensures |r| == |reg.fonts|
  {
    FontStarts(reg.fonts, n0 + |reg.diffs| + |reg.files|)
  }

  /** The fonts' objects are as many as FontsSpan() counts. */
  lemma FontObjListLength(reg: Registry, n0: nat)
    ensures |FontObjList(reg, n0)| == FontsSpan(reg.fonts)
  {
    FontListLength(reg.fonts, FilesFrom(reg.files, n0 + |reg.diffs|), n0, StartsOf(reg, n0));
  }

  /** Object j of font t is the j-th of those FontObjs() gives for the
      font as numbered, at the place the fonts before it leave. */
  lemma FontObjListAt(reg: Registry, n0: nat, t: nat, j: nat)
    requires t < |reg.fonts| && j < FontSpan(reg.fonts[t].1.def.typ)
    ensures FontsSpan(reg.fonts[..t]) + j < |FontObjList(reg, n0)|
    ensures FontObjList(reg, n0)[FontsSpan(reg.fonts[..t]) + j]
            == FontObjs(reg.fonts[t].1, FontsNumberedFrom(reg, n0).files, n0, FontsNumberedFrom(reg, n0).fonts[t].1.n)[j]
  {
    var files, starts := FilesFrom(reg.files, n0 + |reg.diffs|), StartsOf(reg, n0);
    var r := FontsNumberedFrom(reg, n0);
    assert r.files == files && r.fonts[t].1.n == starts[t];
    FontListIndex(reg.fonts, files, n0, starts, t, j, FontsSpan(reg.fonts[..t]) + j);
  }

  /** Font t's number: after the encodings, the files and the objects of
      the fonts before it. */
  lemma FontNumberAt(reg: Registry, n0: nat, t: nat)
    requires t < |reg.fonts|
    ensures FontsNumberedFrom(reg, n0).fonts[t].1.n == n0 + |reg.diffs| + |reg.files| + FontsSpan(reg.fonts[..t]) + 1
  {
    FontStartsAt(reg.fonts, n0 + |reg.diffs| + |reg.files|, t);
  }

  /** The count once _putFonts() has run from count n0: the encodings,
      the files and every font's objects. */
  function FontsEnd(reg: Registry, n0: nat): nat
  {
    n0 + |reg.diffs| + |reg.files| + FontsSpan(reg.fonts)
  }

  /** The registry as _putFonts() leaves it: the files and fonts numbered. */
  function FontsNumberedFrom(reg: Registry, n0: nat): (r: Registry)
    ensures RegNumbered(reg, r) && r.images == reg.images
  {
    reg.(fonts := FontsFrom(reg.fonts, StartsOf(reg, n0)), files := FilesFrom(reg.files, n0 + |reg.diffs|))
  }

  /** The objects of one image, its own number being o: the image, its
      soft mask, and the palette of an indexed image. */
  function ImageObjs(info: Png.PngInfo, f: Bytes, o: nat, compress: bool, zip: Bytes -> Bytes): (r: seq<Obj>)
    ensures |r| == ImageSpan(info)
    ensures r[0] == ImageObj(info, f, o)
  {
    [ImageObj(info, f, o)]
    + (if info.smask.Some? then [ImageObj(SoftMask(info, info.smask.value), f, o + 1)] else [])
    + (if info.cs == "Indexed" then [if compress then StreamObj(FlateFilter, zip(info.pal))
                                     else StreamObj([], info.pal)] else [])
  }

  /** How many objects an image takes. */
  function ImageSpan(info: Png.PngInfo): (r: nat)
    ensures r >= 1
  {
    1 + (if info.smask.Some? then 1 else 0) + (if info.cs == "Indexed" then 1 else 0)
  }

  /** How many objects the images take together. */
  function ImagesSpan(images: ImageTable): nat
  {
    if images == [] then 0 else ImagesSpan(images[..|images| - 1]) + ImageSpan(images[|images| - 1].1.info)
  }

  /** The objects of the images in order, after object n0. */
  function ImageList(images: ImageTable, n0: nat, compress: bool, zip: Bytes -> Bytes): (r: seq<Obj>)
    ensures |r| == ImagesSpan(images)
  {
    if images == [] then []
    else
      var init := images[..|images| - 1];
      var e := images[|images| - 1].1;
      ImageList(init, n0, compress, zip) + ImageObjs(e.info, e.f, n0 + ImagesSpan(init) + 1, compress, zip)
  }

  /** Image t's objects start after those of the images before it. */
  lemma {:induction false} ImageListAt(images: ImageTable, n0: nat, compress: bool, zip: Bytes -> Bytes, t: nat)
    requires t < |images|
    ensures ImagesSpan(images[..t]) < |ImageList(images, n0, compress, zip)|
    ensures ImageList(images, n0, compress, zip)[ImagesSpan(images[..t])]
         == ImageObj(images[t].1.info, images[t].1.f, n0 + ImagesSpan(images[..t]) + 1)
    decreases |images|
  {
    var m := |images| - 1;
    var init := images[..m];
    var front := ImageList(init, n0, compress, zip);
    var back := ImageObjs(images[m].1.info, images[m].1.f, n0 + ImagesSpan(init) + 1, compress, zip);
    ImageListSnoc(images, n0, compress, zip);
    assert ImageList(images, n0, compress, zip) == front + back;
    if t < m {
      ImageListAt(init, n0, compress, zip, t);
      assert init[..t] == images[..t] && init[t] == images[t];
      IndexBefore(front, back, ImagesSpan(images[..t]));
    } else {
      assert init == images[..t];
      IndexAfter(front, back, 0);
    }
  }

  lemma ImageListSnoc(images: ImageTable, n0: nat, compress: bool, zip: Bytes -> Bytes)
    requires images != []
    ensures ImageList(images, n0, compress, zip) == ImageList(images[..|images| - 1], n0, compress, zip)
            + ImageObjs(images[|images| - 1].1.info, images[|images| - 1].1.f,
                        n0 + ImagesSpan(images[..|images| - 1]) + 1, compress, zip)
  {
  }

  /** The images as _putImages() leaves them: numbered, their data and
      soft masks unset. */
  function ImagesFrom(images: ImageTable, n0: nat): (r: ImageTable)
    ensures ImagesKept(images, r)
    ensures forall t :: 0 <= t < |images| ==> r[t].1.n == n0 + ImagesSpan(images[..t]) + 1
  {
    seq(|images|, t requires 0 <= t < |images| =>
      (images[t].0, images[t].1.(n := n0 + ImagesSpan(images[..t]) + 1,
                                 info := images[t].1.info.(data := [], smask := None))))
  }

  /** The objects _putImages() writes, n0 being the count before it. */
  function ImageObjList(reg: Registry, n0: nat, compress: bool, zip: Bytes -> Bytes): (r: seq<Obj>)
    ensures |r| == ImagesSpan(reg.images)
  {
    ImageList(reg.images, n0, compress, zip)
  }

  /** Image t's own object is the first of its objects, at the place the
      images before it leave, and carries the number _putImages() gives it. */
  lemma ImageObjListAt(reg: Registry, n0: nat, compress: bool, zip: Bytes -> Bytes, t: nat)
    requires t < |reg.images|
    ensures ImagesSpan(reg.images[..t]) < |ImageObjList(reg, n0, compress, zip)|
    ensures ImageObjList(reg, n0, compress, zip)[ImagesSpan(reg.images[..t])]
         == ImageObj(reg.images[t].1.info, reg.images[t].1.f, ImagesFrom(reg.images, n0)[t].1.n)
  {
    ImageListAt(reg.images, n0, compress, zip, t);
  }

  // -------------------------------------------------- resource dictionary

  const ProcSet: Bytes := "/ProcSet [/PDF /Text " + "/ImageB /ImageC /ImageI]\n"
  const FontDictHead: Bytes := "/Font <<\n"
  const XObjectDictHead: Bytes := "/XObject <<\n"

  /** "/F<i> <n> 0 R" for each font, in order. */
  function FontRefs(fonts: FontTable): Bytes
  {
    if fonts == [] then [] else FontPrefix + NatText(fonts[0].1.i) + Sp + NatText(fonts[0].1.n) + RefLine + FontRefs(fonts[1..])
  }

  const ImagePrefix: Bytes := "/I"

  /** "/I<i> <n> 0 R" for each image, in order. */
  function ImageRefs(images: ImageTable): Bytes
  {
    if images == [] then []
    else ImagePrefix + NatText(images[0].1.i) + Sp + NatText(images[0].1.n) + RefLine + ImageRefs(images[1..])
  }

  /** The resource dictionary, object 2: every font by its index and
      object, then every image. */
  function ResourceBody(fonts: FontTable, images: Bytes): Bytes
  {
    DictOpen + (ProcSet + (FontDictHead + (FontRefs(fonts) + (DictEnd + (XObjectDictHead
    + (images + (DictEnd + (DictEnd + EndObj))))))))
  }

  // ------------------------------------------------------ info and catalog

  /** A dictionary object whose entries are t. */
  function DictBody(t: Bytes): Bytes
  {
    DictOpen + (t + (DictEnd + EndObj))
  }

  const PdfHead: Bytes := "%PDF-"
}
