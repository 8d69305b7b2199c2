# FPDF in Dafny

A model of the core of FPDF, the PHP library that builds PDF documents
without extensions: the document object with its pages, graphics state,
fonts, links and metadata; the layout of text in cells, multi-line cells
and flowing text; the registration of PNG images and their decoder; the serializer that writes
the pages, fonts, images, info dictionary, catalog, cross-reference table
and trailer; the TrueType parser; and the font-definition compiler
MakeFont.  The repository holds the document class twice, as `fpdf.php`
and `src/Fpdf/Fpdf.php`; the model has one class, `Document.Fpdf`, that
follows `fpdf.php` where the two differ (in `src/Fpdf/Fpdf.php`,
`SetFontSize` has a stray brace where its page check should be,
`SetDisplayMode` checks the zoom against the layout names, and the
metadata setters ignore their UTF-8 flag).

Modules, one per file:

- `Common` (common.dfy): bytes, `Option`/`Result`/`Outcome`, decimal text
  of naturals, ASCII case, `str_replace`, `rtrim`, `explode`, `hexdec`,
  `round`, and PHP's ordered arrays as association lists.
- `PdfText` (text.dfy): `_escape`, `_textString`, `_UTF8toUTF16`, string
  widths.
- `Png` (png.dfy): `_parsePngStream` and `_readInt` over the bytes of a
  file, with the alpha channel split.
- `DocState` (state.dfy): the output sink (`_out`, `_newObj`, the states
  0 to 3, `_beginPage`/`_endPage`) and the registries.
- `Settings` (settings.dfy): units, page sizes, the constructor's checks,
  colour operators, cell operators, the catalog and page dictionaries,
  `output()` destinations.
- `Fonts` (fonts.dfy): style normalisation, font keys and the font
  registry.
- `PdfObjects` (objects.dfy): numbered objects, the cross-reference table
  and how a reader finds an object through it.
- `Serial` (serial.dfy): the object bodies `_putPages`, `_putFonts` and
  `_putImages` write, and the object numbers they assign.
- `Writer` (writer.dfy): `_endDoc` and its parts writing those bodies into
  the document.
- `Layout` (layout.dfy): the line-breaking loops of `multiCell()` and
  `write()` as step functions, with the lines they produce.
- `Document` (fpdf.dfy): the class `Fpdf`, whose methods change its fields
  as the PHP methods do.
- `TrueType` (ttf.dfy): the class `TtfParser` reading a font file through
  a cursor.
- `FontCompiler` (makefont.dfy): the class `MakeFont`.

What the library takes from outside is a parameter: a `Host` value gives
the `%.2F`/`%.3F` formatting of `sprintf`, zlib (availability,
compression, decompression), the date, the font-definition loader and the
file reader.  MakeFont's file system is its inputs: whether the font file
exists, the lines of the map and AFM files, and the bytes of the font.
PHP exceptions are `Fail`/`Err` results carrying the message the code
passes to the exception (MakeFont's `error()` adds a heading, see below);
what a method changed before it threw is kept.

FPDF's design says no page can be added once the document is closed; this
`fpdf.php` has no such check in `addPage()`, and the model follows the
code, so `Writer.EndDoc`'s claims about the page tree are stated for a
document whose objects are numbered from 2 when it is closed.

## Model

| member | source | states |
|---|---|---|
| Common.NatText | fpdf.php:2052-2057 | a number is written as PHP prints an int: at least one digit, with no leading zero |
| Common.NatTextRoundTrip | fpdf.php:2052-2057 | the decimal text written for an object number reads back as that number |
| Common.NatTextInjective | fpdf.php:2052-2057 | two different object numbers never get the same text |
| Common.Pad10RoundTrip | fpdf.php:2488 | `%010d` gives at least ten digits, exactly ten below 10^10, and they read back as the offset |
| Common.Lower | fpdf.php:757 | strtolower keeps the length and lowers each ASCII letter, byte by byte |
| Common.LowerIsLower | fpdf.php:757 | the result of strtolower has no upper-case letter |
| Common.Upper | fpdf.php:808 | strtoupper keeps the length and raises each ASCII letter, byte by byte |
| Common.UpperIsUpper | fpdf.php:808 | the result of strtoupper has no lower-case letter |
| Common.CaseFolds | fpdf.php:808 | strtoupper after strtolower is strtoupper, and strtolower after strtoupper is strtolower |
| Common.ReplaceAbsent | fpdf.php:2083 | str_replace of a search string that does not occur leaves the page unchanged |
| Common.ReplaceRemovesAll | fpdf.php:2083 | when the replacement shares no byte with the alias, no occurrence of the alias survives str_replace |
| Common.RemoveByte | fpdf.php:1156 | the byte removed no longer occurs and the text does not grow |
| Common.RemoveByteKeeps | fpdf.php:1156 | every other byte occurs after the removal exactly when it occurred before |
| Common.RemoveByteCount | fpdf.php:812 | str_replace of one byte by nothing takes out every copy of it and nothing else |
| Common.RemoveByteAbsent | fpdf.php:812 | removing a byte that does not occur changes nothing |
| Common.ReplaceByte | fpdf.php:1156 | str_replace of one byte by the empty string is the removal of that byte |
| Common.RTrim | src/Fpdf/MakeFont.php:77 | rtrim gives a prefix whose last byte is not white space, and only white space was cut |
| Common.RTrimByte | fpdf.php:211 | rtrim with one character gives a prefix not ending in it, and only that character was cut |
| Common.Explode | src/Fpdf/MakeFont.php:77 | explode gives at least one part and no part holds the separator |
| Common.ExplodeJoin | src/Fpdf/MakeFont.php:77 | joining the parts of explode with the separator gives the text back |
| Common.ExplodeCons | src/Fpdf/MakeFont.php:77 | the text before the first separator is the first part |
| Common.HexDecTwoDigits | src/Fpdf/MakeFont.php:78 | at most two hexadecimal digits give a code below 256 |
| Common.Round | src/Fpdf/MakeFont.php:105 | round() is within one half of its argument, and a half rounds away from zero |
| Common.Find | fpdf.php:769 | the key's position in the ordered font array, or none when no entry has that key |
| Common.Put | fpdf.php:795 | assigning a key makes the key find the value given, keeps every key in its place, changes no other entry, and adds at most one entry |
| Common.PutKeeps | fpdf.php:795 | assigning keeps the keys distinct, finds the key at its new value, and moves no other key |
| Common.FindKeeps | fpdf.php:795 | appending a key finds it last and leaves every other key where it was |
| Common.FindUnique | fpdf.php:858 | with distinct keys, looking up an entry's key finds that entry |
| Common.Substr | fpdf.php:2190-2191 | substr takes the bytes asked for when they are there, and never more |
| PdfText.Escape | fpdf.php:1713-1721 | escaping never shortens the text |
| PdfText.TextString | fpdf.php:1729-1732 | a reader finds the literal string balanced between its parentheses and decodes it to the original text |
| PdfText.EscapeRoundTrip | fpdf.php:1713-1721 | a PDF reader unescaping the result gets the original bytes back, and the parentheses in it are balanced |
| PdfText.EscapeByteReads | fpdf.php:1715-1718 | each byte's escape reads back as that byte, and keeps the parentheses balanced |
| PdfText.Utf8ToUtf16 | fpdf.php:1735-1762 | the result is the byte-order mark followed by the UTF-16BE units of each character the loop decodes |
| PdfText.Utf8Encode | fpdf.php:1745-1759 | the reference encoder: one to three bytes, whose first byte announces the width the loop decodes |
| PdfText.Utf8ToUtf16Correct | fpdf.php:1735-1762 | for characters of the Basic Multilingual Plane, the conversion of their UTF-8 text gives their UTF-16BE units |
| PdfText.Utf16PairLocal | fpdf.php:1745-1759 | one encoded character converts to its two UTF-16BE bytes |
| PdfText.WidthConcat | fpdf.php:676-680 | the width of two texts joined is the sum of their widths |
| PdfText.WidthMonotone | fpdf.php:676-680 | with non-negative glyph widths, a text is never wider than a text it starts |
| PdfText.WidthNonNegative | fpdf.php:676-680 | with non-negative glyph widths, every text has a non-negative width |
| Common.NatTextLength | fpdf.php:2488 | a number below 10^k is written with at most k digits |
| Common.ExplodeWhole | src/Fpdf/MakeFont.php:77 | a text without the separator explodes into itself alone |
| Png.U32 | fpdf.php:1999-2005 | _readInt reads four bytes as a big-endian unsigned 32-bit number |
| Png.Be32RoundTrip | fpdf.php:1999-2005 | a number below 2^32 written big-endian reads back as itself |
| Png.ReadHeader | fpdf.php:1825-1866 | the header is accepted exactly when the signature, the IHDR type, a depth of at most 8 bits, a known colour type and zero compression, filter and interlace bytes are present, and the width, height, depth and colour space are read from their fixed offsets |
| Png.FirstNul | fpdf.php:1893-1896 | strpos of NUL: the first NUL byte of the transparency chunk, or none when there is none |
| Png.SplitRowRoundTrip | fpdf.php:1939-1954 | the colour and alpha parts split from one row have the expected lengths and interleave back into the row |
| Png.PlaneSizes | fpdf.php:1930-1955 | the colour plane gets 1 + k·w bytes per row and the alpha plane 1 + w bytes per row |
| Png.RowSizes | fpdf.php:1930-1955 | each further row adds 1 + k·w bytes to the colour plane and 1 + w bytes to the alpha plane |
| Png.SplitAlpha | fpdf.php:1926-1955 | the loop over the rows builds exactly the colour and alpha planes of the specification |
| Png.ParsePng | fpdf.php:1823-1972 | a parsed image has a valid header, an indexed image has a non-empty palette, and a soft mask is present exactly when the colour type has an alpha channel (the version raise that goes with the mask is Document.Fpdf.ParsePngFile's) |
| Png.ReadChunks | fpdf.php:1875-1912 | the do-while chunk loop computes exactly the chunk scan of the specification |
| Png.ParsePngStream | fpdf.php:1823-1972 | the stream parser returns exactly the result of the specification, errors included |
| Png.AbsorbAllIdat | fpdf.php:1902-1905 | the image data is the concatenation of the IDAT payloads in file order |
| Png.ReadBack | fpdf.php:1876-1877 | a chunk written as length, type, payload and CRC reads back as its length, type and payload |
| Png.ScanStep | fpdf.php:1875-1912 | reading one well-formed non-final chunk moves the scan past it with that chunk absorbed |
| Png.ScanEnd | fpdf.php:1906-1907 | an IEND chunk ends the scan with the state reached |
| Png.ScanEncoded | fpdf.php:1875-1912 | a file made of well-formed chunks and a final IEND scans to the state that absorbs every chunk in order |
| DocState.Sent | fpdf.php:2067-2074 | _out() appends the text to the open page in state 2 and to the document buffer otherwise, and changes nothing else |
| DocState.SentTwice | fpdf.php:2067-2074 | two writes in a row are one write of both texts |
| DocState.Ended | fpdf.php:488-510 | the state before a new page is neither "not open" nor "page open", and no text, page or offset changes |
| DocState.Opened | fpdf.php:1648-1650 | _beginPage() adds one empty page, which becomes the text _out() writes to |
| DocState.Begun | fpdf.php:2052-2057 | _newObj() records the buffer length as the object's offset and then writes its header line, and changes nothing else |
| DocState.FiledSent | fpdf.php:2067-2074 | every recorded offset still points at its object's header after _out() |
| DocState.FiledBegun | fpdf.php:2052-2057 | beginning a reserved object or the next one keeps every recorded offset pointing at its header |
| DocState.ContinuesTrans | fpdf.php:2067-2074 | the buffer only grows and the offsets of objects 3 and up never move, across any number of steps |
| DocState.ContinuesHolds | fpdf.php:2067-2074 | a text found in the buffer at an offset is still there after any later step |
| DocState.FiledLife | fpdf.php:450-453 | a new document starts with consistent offsets, and opening and ending pages keep them so |
| DocState.Resized | fpdf.php:1657-1686 | after _beginPage() the page has the requested orientation and size, its dimensions follow from them, and its size is recorded exactly when it differs from the default |
| DocState.ResizedSame | fpdf.php:1659-1679 | a page of the current orientation and size keeps every dimension |
| DocState.Current | fpdf.php:862 | the current font is the registry entry under the selected key |
| DocState.CurrentWidths | fpdf.php:673 | the widths read are the current font's, and zeros when no font is selected |
| DocState.NumberedOk | fpdf.php:2169-2284 | numbering the font and image objects keeps the registries well formed and the selected font found |
| DocState.RaisedVersion | fpdf.php:1967-1969 | the version never goes down; an image with a soft mask brings it to at least 1.4; it changes only for such an image below 1.4, and then to exactly 1.4 |
| DocState.RaisedCovers | fpdf.php:1967-1969 | filing an image after raising the version for it keeps every image with a soft mask under a version of at least 1.4 |
| DocState.NumberedRegistered | fpdf.php:2169-2284 | numbering the fonts keeps their keys, indices and encoding numbers valid |
| DocState.NumberedKnown | fpdf.php:2169-2284 | numbering the fonts and files keeps every embedded file findable |
| Settings.StdSize | fpdf.php:55-61 | every standard page size is positive and taller than it is wide |
| Settings.PageSize | fpdf.php:1625-1644 | a named size is found without regard to case and divided by the scale factor, or fails with "Unknown page size"; given dimensions are put in portrait order |
| Settings.DivideMonotone | fpdf.php:1636 | dividing both dimensions by the scale factor keeps their order |
| Settings.UnitScale | fpdf.php:215-225 | exactly pt, mm, cm and in have a scale factor, and it is positive |
| Settings.Setup | fpdf.php:196-252 | the constructor succeeds exactly when the unit, the size and the orientation are valid, checks them in that order with their messages, and sets the orientation to P for p or portrait and L otherwise |
| Settings.CatalogText | fpdf.php:2425-2447 | the catalog always starts with its type and page tree, and adds nothing for the default display mode |
| Settings.ColorOpName | fpdf.php:652-669 | a colour ends in G/g, and is written in the one-value gray form exactly when all channels are zero or only one is given |
| Settings.GrayCases | fpdf.php:659 | equal non-zero channels still use the three-value form; zero channels or a missing green use the gray form |
| Settings.CellOpsEmpty | fpdf.php:1016-1122 | cell() writes nothing exactly when there is no text, no fill and no border |
| Settings.CellShowsText | fpdf.php:1090-1097 | a non-empty cell shows its text as one literal string that a PDF reader reads back as that text |
| Settings.PageDict | fpdf.php:2098-2139 | a page dictionary starts with its type and parent and ends with its content reference |
| Settings.Destination | fpdf.php:1538-1585 | output() sends inline as doc.pdf without a name, writes a file with one, and accepts only I, D, F and S, in any case |
| Fonts.NormStyle | fpdf.php:763-765 | addFont() upper-cases the style and turns IB into BI, so IB never remains |
| Fonts.DefaultFile | fpdf.php:759-761 | the default definition file ends in .php and has no upper-case letter, and no space when the style has none |
| Fonts.SelectStyle | fpdf.php:808-818 | setFont() underlines exactly when the style holds U in any case, and gives a normal style without it |
| Fonts.SelectStyleRestores | fpdf.php:492-496 | the style addPage() saves, with U for underlining, selects that style and underlining again |
| Fonts.StyleOrder | fpdf.php:808-819 | for every style made of the letters B, I and U in any case and order, B and I at most once each, the style is B then I for those present, and underlining is on exactly when a U is present |
| Fonts.StyleCase | fpdf.php:808 | every spelling of a style in lower, upper or mixed case selects the same style and underline flag |
| Fonts.BiLetters | fpdf.php:817-819 | distinct B and I letters, with IB written BI, read as bold before italic |
| Fonts.StyleSettled | fpdf.php:808-819 | the style setFont() keeps reads back as itself, without underlining |
| Fonts.UpperRemove | fpdf.php:812 | removing U from an upper-case style leaves it upper-case |
| Fonts.RemoveAppended | fpdf.php:812 | removing an appended U restores the style |
| Fonts.CoreStyle | fpdf.php:841-843 | symbol and zapfdingbats drop the style; every other core font keeps it |
| Fonts.DiffIndex | fpdf.php:778 | array_search finds the first listed equal difference string, 1-based, or none when it is not listed |
| Fonts.DiffSlot | fpdf.php:776-784 | a font gets an encoding number exactly when it has differences, an existing one or the next free one |
| Fonts.RegisterKeeps | fpdf.php:767-795 | registering a new key keeps keys distinct, gives index count + 1, and keeps every difference listed once under the number its font points at |
| Fonts.FilesStayKnown | fpdf.php:786-793 | registering a font keeps every embedded file findable in the file table |
| Fonts.KeyOfNormal | fpdf.php:767 | the font key is the family followed by the style |
| Fonts.CoreNormal | fpdf.php:833-845 | the core family and style of a lower-case family and a normal style are still lower-case and normal |
| PdfObjects.ConcatHolds | fpdf.php:2067-2074 | each text written in a sequence of writes is found in the result at the total length of the texts before it |
| PdfObjects.XrefExtend | fpdf.php:2067-2074 | appending to the buffer keeps every recorded offset pointing at its object's header |
| PdfObjects.XrefNew | fpdf.php:2052-2057 | recording the buffer length and then writing the header makes the new offset point at that header, and keeps the others |
| PdfObjects.XrefNamesObject | fpdf.php:2052-2057 | a recorded offset lies in the buffer, and the number in the header there is the object's own number |
| PdfObjects.XrefEntryLength | fpdf.php:2488 | a cross-reference entry for an offset below 10^10 is exactly 20 bytes |
| PdfObjects.XrefEntriesLength | fpdf.php:2487-2489 | the entry table is 20 bytes for each object |
| PdfObjects.XrefLookup | fpdf.php:2487-2489 | entry i of the table sits 20·(i − from) bytes in, and its ten digits read back as object i's offset |
| PdfObjects.EntryLookup | fpdf.php:2487-2489 | the entry for object i begins with the ten-digit offset of that object |
| PdfObjects.ReaderFindsObject | fpdf.php:2482-2496 | a reader who finds the cross-reference section, takes entry i and reads its ten digits gets an offset inside the file whose header names object i |
| PdfObjects.EntryInBuffer | fpdf.php:2482-2489 | entry i of a written section is found in the buffer at its position after the header and the free entry |
| PdfObjects.KidRefsCons | fpdf.php:2153-2155 | reading one "d 0 R " reference gives its number, then the rest |
| PdfObjects.KidsArePages | fpdf.php:2152-2156 | the /Kids array lists the page objects 3, 5, ..., one per page, in page order |
| Serial.PageBody | fpdf.php:2098-2139 | a page object's dictionary ends with the reference to its content stream |
| Serial.PageList | fpdf.php:2097-2147 | _putPages() writes two objects per page |
| Serial.PageListAt | fpdf.php:2097-2147 | page p gets its page dictionary as object 2p − 1 of the list and its content stream right after it |
| Serial.Aliased | fpdf.php:2080-2085 | every page has each occurrence of the alias replaced by the page count |
| Serial.AliasGone | fpdf.php:2080-2085 | an alias that holds no digit no longer occurs on any page after the replacement |
| Serial.NatTextDigits | fpdf.php:2083 | the page count replacing the alias is a non-empty run of digits |
| Serial.Embedded | fpdf.php:2189-2192 | an uncompressed Type1 file keeps at most its two segments, without their headers; any other file is embedded as read |
| Serial.SoftMask | fpdf.php:2341-2352 | the soft mask is a gray 8-bit image of the same size whose data is the alpha plane, and has no mask itself |
| Serial.FinalPages | fpdf.php:2078-2085 | the pages written keep their number |
| Serial.ReadFiles | fpdf.php:2180-2187 | every font file is read, in order, and an unreadable or empty file stops serialization |
| Serial.Bodies | fpdf.php:2169-2367 | each object's body is written in order |
| Serial.EncodingObjs | fpdf.php:2173-2178 | one encoding object per differences string, in order |
| Serial.FileObjs | fpdf.php:2180-2209 | one font-file object per file, in order, holding the embedded data |
| Serial.FilesFrom | fpdf.php:2180-2183 | the font files get consecutive object numbers after the encodings |
| Serial.FontSpan | fpdf.php:2211-2281 | a font type has objects exactly when it is Core (one), Type1 or TrueType (three) |
| Serial.FontObjs | fpdf.php:2211-2271 | a core font is one font dictionary; an embedded font is a font dictionary referring to its encoding, a widths array and a descriptor referring to its file |
| Serial.FontStarts | fpdf.php:2211-2213 | one first object number per font |
| Serial.FontStartsAt | fpdf.php:2213 | a font's first object follows the objects of the fonts before it |
| Serial.FontPieces | fpdf.php:2211-2281 | the objects of each font, in registration order |
| Serial.FontsFrom | fpdf.php:2213 | the fonts keep their keys and entries, numbered by their first objects |
| Serial.Unsupported | fpdf.php:2273-2280 | no font is reported exactly when every font type is supported |
| Serial.FontPiecesSpan | fpdf.php:2211-2281 | the fonts before font t take exactly their spans of objects |
| Serial.FontListAt | fpdf.php:2211-2281 | object j of font t sits after the objects of the fonts before it |
| Serial.FontListLength | fpdf.php:2211-2281 | the font objects take exactly the sum of the fonts' spans |
| Serial.FontListIndex | fpdf.php:2211-2281 | object j of font t is found at the sum of the earlier spans plus j |
| Serial.FontsCheck | fpdf.php:2169-2281 | _putFonts() fails on the first unreadable file, else on an unsupported font type with its message, and succeeds otherwise |
| Serial.StartsOf | fpdf.php:2171-2213 | one first object number per registered font |
| Serial.FontObjListLength | fpdf.php:2169-2281 | the font objects take exactly the sum of the fonts' spans |
| Serial.FontObjListAt | fpdf.php:2211-2271 | object j of font t is that font's object j, numbered as _putFonts() numbers it |
| Serial.FontNumberAt | fpdf.php:2171-2213 | font t is numbered after the encodings, the files and the objects of the fonts before it |
| Serial.FontsNumberedFrom | fpdf.php:2169-2281 | numbering the fonts and files changes only their object numbers |
| Serial.ImageObjs | fpdf.php:2295-2367 | an image writes its XObject first, followed by its soft mask and palette |
| Serial.ImageSpan | fpdf.php:2295-2367 | every image writes at least one object |
| Serial.ImageList | fpdf.php:2286-2293 | the images write exactly the sum of their spans |
| Serial.ImageListAt | fpdf.php:2286-2297 | image t's XObject comes after the objects of the images before it, numbered accordingly |
| Serial.ImageListSnoc | fpdf.php:2286-2293 | the images are written in registration order, each after the ones before it |
| Serial.ImagesFrom | fpdf.php:2295-2297 | each image is numbered after the objects of the images before it, with its key and index kept |
| Serial.ImageObjList | fpdf.php:2286-2293 | the image objects take exactly the sum of their spans |
| Serial.ImageObjListAt | fpdf.php:2286-2297 | image t's XObject has the number the registry records for it |
| Writer.NewObject | fpdf.php:2052-2057 | the next object number is taken, its offset is the buffer length before its header, and the header and body are appended |
| Writer.NewObjectFound | fpdf.php:2052-2057 | the new object's header and body are found at its recorded offset, and earlier offsets stay valid |
| Writer.Reserved | fpdf.php:2148-2150 | the page tree or the resources get their offset recorded by hand, without taking a new number |
| Writer.ReservedFound | fpdf.php:2148-2150 | a reserved object's header and body are found at its recorded offset, and earlier offsets stay valid |
| Writer.Appended | fpdf.php:2067-2074 | writing outside a page appends to the buffer and keeps the offsets |
| Writer.AppendedKeeps | fpdf.php:2067-2074 | appending keeps every offset valid |
| Writer.ReplaceAlias | fpdf.php:2080-2085 | the loop over the pages replaces the alias by the page count on every page and changes nothing else |
| Writer.Numbered | fpdf.php:2052-2057 | each object gets the header of its own consecutive number |
| Writer.Placed | fpdf.php:2052-2057 | objects written in turn keep every offset recorded before them |
| Writer.PlacedAt | fpdf.php:2052-2057 | object q's offset is the buffer length plus the length of the objects before it |
| Writer.PlacedStep | fpdf.php:2052-2057 | writing one more object records one more offset and changes no other |
| Writer.PlacedHolds | fpdf.php:2052-2057 | each object written in turn is found at its recorded offset |
| Writer.PlacedKeeps | fpdf.php:2052-2057 | objects written in turn leave the offsets of earlier objects as they were |
| Writer.WriteObjects | fpdf.php:2052-2074 | writing a list of objects one after another gives the specified sink and keeps every offset valid |
| Writer.Wrote | fpdf.php:2052-2074 | writing a list of objects takes one number per object |
| Writer.WroteFound | fpdf.php:2052-2074 | every object of a list is found at its recorded offset |
| Writer.PagesWritten | fpdf.php:2076-2167 | _putPages() takes two numbers per page, records object 1, and leaves the pages with the alias replaced |
| Writer.PutPages | fpdf.php:2076-2167 | the page loop produces exactly the specified sink and keeps every offset valid |
| Writer.WroteThenReserved | fpdf.php:2097-2158 | writing the page tree after the pages keeps every page object at its offset |
| Writer.PageFound | fpdf.php:2097-2139 | page p's dictionary is found at the offset of its page object, two numbers per page after the objects before the pages |
| Writer.ContentFound | fpdf.php:2141-2146 | page p's content stream, with the alias replaced, is found at the offset of the object after its dictionary |
| Writer.RootFound | fpdf.php:2148-2166 | the page tree is found at object 1's offset |
| Writer.KidsFound | fpdf.php:2152-2156 | the page tree lists every page object, in page order |
| Writer.WroteKeeps | fpdf.php:2052-2074 | writing more objects leaves every earlier object at its offset |
| Writer.WroteAt | fpdf.php:2052-2074 | object i of a list is found at the offset of number n + i + 1 |
| Writer.EncodingsWritten | fpdf.php:2173-2178 | the encodings take one number each |
| Writer.FilesWritten | fpdf.php:2180-2209 | the font files take one number each after the encodings |
| Writer.FontsWritten | fpdf.php:2169-2284 | _putFonts() ends at the number that follows the encodings, the files and every font's span |
| Writer.WriteInTurn | fpdf.php:2169-2284 | writing the encodings, the files and the fonts in turn gives the specified sink and keeps every offset valid |
| Writer.PutFonts | fpdf.php:2169-2284 | _putFonts() fails with the first unreadable file or unsupported type and then writes nothing; otherwise it writes every font object and numbers the registry |
| Writer.EncodingFound | fpdf.php:2173-2178 | encoding d is found at the offset of number n + d |
| Writer.FileFound | fpdf.php:2180-2209 | each font file object is found at the number the registry records for it |
| Writer.FontFound | fpdf.php:2211-2271 | each object of each font is found at the number the registry records for the font, plus its place |
| Writer.ImagesWritten | fpdf.php:2286-2293 | the images take exactly the sum of their spans |
| Writer.PutImages | fpdf.php:2286-2293 | _putImages() writes every image and records its number |
| Writer.ImageFound | fpdf.php:2295-2339 | each image's XObject is found at the number recorded for it |
| Writer.ResourcesNumbered | fpdf.php:2391-2402 | the resources number the fonts, files and images and change nothing else |
| Writer.ResourcesWritten | fpdf.php:2391-2402 | the resources end after the fonts and images and record object 2 |
| Writer.PutResources | fpdf.php:2391-2402 | _putResources() fails as _putFonts() does, or writes the fonts, the images and the resource dictionary |
| Writer.PagesDone | fpdf.php:2461-2464 | the header and the pages take two numbers per page and record object 1 |
| Writer.PutHeadAndPages | fpdf.php:2463-2464 | writing the header and the pages gives the specified sink and keeps every offset valid |
| Writer.Catalogued | fpdf.php:2467-2479 | the info and catalog dictionaries take two more numbers and keep every offset |
| Writer.Closed | fpdf.php:2481-2498 | the closing sections leave the objects and their offsets as they were and close the document |
| Writer.ClosedLayout | fpdf.php:2481-2498 | the cross-reference section is written at the start-xref offset, followed by the trailer |
| Writer.CatalogFound | fpdf.php:2467-2479 | the catalog is the last object and the info dictionary the one before it, each found at its offset |
| Writer.DocReadable | fpdf.php:2481-2498 | in the finished file, entry i of the cross-reference table reads back as the offset of a header naming object i |
| Writer.PutXref | fpdf.php:2481-2489 | the cross-reference loop writes exactly the specified section |
| Writer.Finish | fpdf.php:2467-2498 | the info, the catalog, the cross-reference section and the trailer close the document and keep every offset valid |
| Writer.EndDoc | fpdf.php:2461-2499 | _endDoc() writes the pages, then the resources; it fails exactly as _putFonts() does, and otherwise closes the document with objects 1 and 2 recorded and every offset valid |
| Writer.EndDocument | fpdf.php:2461-2499 | the document is closed exactly when the fonts can be written, with the registry numbered; otherwise the failure is reported and the registry kept |
| Writer.PutRest | fpdf.php:2465-2498 | after the pages, the resources either fail or are followed by the closing sections |
| Layout.JoinedEmitted | fpdf.php:1193 | a step that emits a line contributes that line's text, and one that emits none contributes nothing |
| Layout.JoinedAppend | fpdf.php:1184-1249 | the text of lines emitted in two runs is the text of the first run followed by the second |
| Layout.MultiStep | fpdf.php:1184-1249 | one pass of the multiCell() loop moves forward, and a line it emits starts where the last one ended and lies within the text |
| Layout.MultiLinesStep | fpdf.php:1184-1249 | the lines of the whole loop are the line of its first pass followed by the lines of the rest |
| Layout.MultiStepRebuild | fpdf.php:1184-1249 | the text from the current line start is the text of the emitted line followed by the text from the next line start |
| Layout.PieceRebuild | fpdf.php:1193-1235 | a line and the byte its break consumes make up the text up to the next line start |
| Layout.MultiLinesRebuild | fpdf.php:1184-1262 | the lines multiCell() emits, with the newlines and break spaces consumed, join back into the text: nothing is lost or repeated |
| Layout.MultiLinesEnd | fpdf.php:1184-1262 | the loop of multiCell() always emits at least one line, and its last line is the chunk left after the loop |
| Layout.StepCounts | fpdf.php:1208-1214 | adding one byte adds its width and counts it when it is a space |
| Layout.MultiStepFit | fpdf.php:1184-1249 | one pass keeps the loop invariant, and a line it emits fits the room or is a single byte, and one broken at a space knows its width and spaces |
| Layout.MultiLinesFit | fpdf.php:1184-1262 | every line multiCell() emits fits the room unless it is a single byte, and a line broken at a space has width ls and ns − 1 spaces |
| Layout.JustifyFills | fpdf.php:1230-1231 | a justified line with at least two spaces, drawn with the word spacing multiCell() sets, is exactly as wide as the room |
| Layout.Spacing | fpdf.php:1186-1256 | the word spacing is reset before a line not broken at a space, and is set only for justified text |
| Layout.SpacedCells | fpdf.php:1147-1263 | multiCell() writes one cell per line, with that line's text |
| Layout.SpacedCellsAppend | fpdf.php:1184-1263 | one more line adds one cell, with the spacing after the lines before it |
| Layout.SpacedCellsLogged | fpdf.php:1184-1263 | a cell logged with the spacing set for one more line extends the cells of the lines before it to the cells of all of them, and that spacing is the spacing after them |
| Layout.SpacedCellsAt | fpdf.php:1184-1263 | line k's cell is written with the spacing the lines before it left |
| Layout.JustifiedCellsFill | fpdf.php:1147-1263 | every justified line broken at a space with at least two spaces is drawn exactly as wide as the room |
| Layout.MultiStepSpreadable | fpdf.php:1207-1231 | a line one pass of multiCell()'s loop breaks at a space with an inner space was measured, up to its last space, within the room |
| Layout.MultiLinesSpreadable | fpdf.php:1184-1262 | every line multiCell() breaks at a space with an inner space has its measured width within the room |
| Layout.SpacingNonNegative | fpdf.php:1228-1231 | the spacing set for such a line is never negative when the spacing before it was not |
| Layout.SpacingAfterNonNegative | fpdf.php:1184-1250 | lines with their width within the room never make the word spacing negative |
| Layout.MultiCellsRebuild | fpdf.php:1147-1263 | one cell per line, each with its line's text, and the lines join back into the text without its final newline |
| Layout.WriteStep | fpdf.php:1285-1351 | one pass of the write() loop moves forward; a line it emits starts where the last one ended, and one emitted on the first line marks it as first |
| Layout.WriteLinesStep | fpdf.php:1285-1351 | the lines of the whole write() loop are the line of its first pass followed by the lines of the rest |
| Layout.MoveDownRebuild | fpdf.php:1314-1325 | a move down to the next line consumes no text |
| Layout.WriteStepRebuild | fpdf.php:1285-1351 | the text from the current line start is the text of the emitted line followed by the text from the next line start |
| Layout.WriteLinesRebuild | fpdf.php:1274-1357 | the lines write() emits join back into the text: nothing is lost or repeated |
| Layout.WriteOkCons | fpdf.php:1285-1351 | a checked line followed by checked lines is a checked run |
| Layout.WriteStepOk | fpdf.php:1285-1351 | one pass of write() keeps the loop invariant, and the line it emits is checked |
| Layout.WriteLinesOk | fpdf.php:1274-1357 | every line write() emits fits its room (the first line's or the full width) unless it is a single byte or follows a move down, and after the first line none is marked first |
| Layout.ShownTexts | fpdf.php:1274-1357 | at most one shown text per line, all with the same word spacing |
| Layout.ShownTextsAppend | fpdf.php:1274-1357 | the texts shown by two runs of lines are those of the first followed by the second |
| Layout.ShownTextsLogged | fpdf.php:1274-1357 | texts logged by two runs of lines in turn are the texts of all the lines |
| Layout.WriteLastShown | fpdf.php:1353-1356 | the last chunk is shown only when it is not empty, and is the rest of the text |
| Document.OnPage | fpdf.php:603-610 | a method that writes only on a page leaves the sink as it was before the first page, and adds one line afterwards |
| Document.AddedFont | fpdf.php:755-796 | a key already registered changes nothing; a missing definition fails and changes nothing; a new font is appended under the next index with its differences and file; every key found before is still found, at the same entry |
| Document.Resolve | fpdf.php:832-850 | a registered key is used as it is; otherwise a core family (Arial read as Helvetica) is accepted and any other family is undefined |
| Document.FamilyArg | fpdf.php:807 | an empty family means the current one; any other is lower-cased |
| Document.Switched | fpdf.php:830-862 | a failed switch changes nothing; a successful one keeps the underline flag, takes the new size and writes the font operator when a page is open |
| Document.SwitchedOutcome | fpdf.php:830-862 | the switch succeeds exactly when the font resolves and is registered or its definition file loads; the new selection is the resolved family and style at the requested size |
| Document.FontSet | fpdf.php:805-863 | the underline flag always follows the style; a failure changes nothing else |
| Document.FontSetSame | fpdf.php:825-828 | asking for the font that is already selected changes only the underline flag |
| Document.FontSetSelects | fpdf.php:805-863 | any other request succeeds exactly when the font resolves and loads, and then selects it and writes its operator |
| Document.RestoreFont | fpdf.php:494-523 | addPage() selecting the previous page's font again succeeds, gives back the selection as it was and writes that font's operator |
| Document.RestoreAgain | fpdf.php:550-553 | selecting the font already selected, with its own style and size, writes nothing |
| Document.AddedKeepsSelection | fpdf.php:755-796 | registering a font does not invalidate the current selection |
| Document.PaintOp | fpdf.php:729-746 | "F" fills, "FD" or "DF" fills and strokes, anything else strokes |
| Document.DrawOpsEnd | fpdf.php:708-746 | a line ends in its stroke operator and a rectangle in "re" and its paint operator |
| Document.TextShowsText | fpdf.php:941-959 | text() writes its text as one escaped literal string that a reader unescapes back to the text |
| Document.PageOrientation | fpdf.php:1646-1664 | an empty orientation is the default one; otherwise its first letter, upper-cased, picks portrait or landscape |
| Document.PageSizeOf | fpdf.php:1646-1664 | an empty size is the default one; given dimensions are always accepted; every accepted size has its width at most its height |
| Document.SpacingOn | fpdf.php:1006-1009 | the word-spacing operator ends in "Tw" |
| Document.BreakSink | fpdf.php:994-1010 | cell()'s page break leaves a new page open, one after the current one |
| Document.SameFormat | fpdf.php:1646-1687 | a page in the current orientation and size is not a change of format: only the record of page sizes may change |
| Document.BreakSinkSteps | fpdf.php:994-1010 | the spacing switched off, the next page begun and the spacing switched on again is exactly BreakSink |
| Document.PageStartIgnoresSpacing | fpdf.php:515-537 | what a new page starts with does not depend on the word spacing |
| Document.CellWidth | fpdf.php:1012-1014 | a width of 0 reaches the right margin from the cursor; any other width is kept |
| Document.CellCursor | fpdf.php:1123-1133 | after a cell the last height is the cell's; ln > 0 moves down one cell height, to the left margin when ln is 1; otherwise the cursor moves right by the width |
| Document.CellLinks | fpdf.php:1108-1116 | a cell with text and a link adds one link area, with that link, to the current page and changes nothing else; otherwise the links are kept |
| Document.MultiBorders | fpdf.php:1163-1178 | no border gives none; border 1 frames the first line on three sides and the next ones on the left and right; a side string keeps its left and right sides for every line, its top for the first and its bottom for the last |
| Document.Room1000 | fpdf.php:1155 | the room in thousandths of the font size is the width less both cell margins |
| Document.MultiText | fpdf.php:1156-1161 | the text without carriage returns, of which one trailing newline is not laid out |
| Document.SpacingSink | fpdf.php:1186-1191 | the spacing operator is written only when the spacing changes or a justified line is cut at a space |
| Document.BreakDone | fpdf.php:994-1010 | cell()'s page break changes only y and the output, to the top margin of the next page, and happens exactly when the cell would cross the trigger with breaks on; the links are kept |
| Document.PutDone | fpdf.php:1012-1133 | drawing a cell stays on the same page, keeps the link targets and records the cell's height as the last one; ln 2 moves down one height and keeps x |
| Document.CellDone | fpdf.php:984-1134 | a whole cell() keeps the link targets and records its height; ln 2 keeps x |
| Document.MultiLineDone | fpdf.php:1184-1246 | drawing one line of multiCell() keeps x, the link targets, and records the line height |
| Document.MultiDrawn | fpdf.php:1180-1250 | multiCell()'s lines drawn in turn keep x and the link targets, and leave the line height as the last one once a line is drawn |
| Document.MultiDrawnAppend | fpdf.php:1180-1250 | one more line drawn is one more step on the state the lines before it left, with the spacing they left and the first line's border only on the first |
| Document.MultiDone | fpdf.php:1147-1263 | multiCell() leaves the cursor at the left margin and keeps the link targets, with the line height as the last one |
| Document.MultiDoneLast | fpdf.php:1252-1262 | multiCell() is the last line drawn after the others with the bottom side added when the border asks for one, then x back at the left margin |
| Document.MultiSpacingEnds | fpdf.php:1252-1255 | after multiCell() the word spacing is never positive: 0 when it was not negative before the last line, and kept when it was |
| Document.MultiSpacingZero | fpdf.php:1184-1255 | multiCell() started with a spacing that is not negative returns with the word spacing exactly 0 |
| Document.WriteLineDone | fpdf.php:1287-1347 | a move down of write() goes to the left margin one height lower and changes nothing else; any other line keeps the link targets and records the height, and a line other than the last ends at the left margin when it was the first line and keeps x otherwise |
| Document.WriteLineTail | fpdf.php:1353-1356 | write()'s last chunk is one cell as wide as its text, unbordered and not filled, with the link |
| Document.WriteDrawn | fpdf.php:1281-1356 | write()'s lines drawn in turn keep the link targets |
| Document.WriteDrawnAppend | fpdf.php:1281-1351 | one more line drawn is one more step on the state the lines before it left |
| Document.MaskedPages | fpdf.php:1967-1969 | once an image with a soft mask is registered, the version is at least 1.4 and every page dictionary carries the transparency group |
| Document.WithMeta | fpdf.php:373-432 | setting one metadata entry gives it the value and keeps every other entry and setting |
| Document.Fpdf.constructor | fpdf.php:196-280 | 1 cm margins, a 1 mm cell margin, a 0.2 mm line width, automatic page breaks 2 cm from the bottom, black colours, no font, no page, default display mode, compression when zlib is there |
| Document.Fpdf.Create | fpdf.php:196-252 | the constructor fails exactly when the unit, page size or orientation check fails, with its message; otherwise the document is new, in state 0 with no page, in the checked unit and format |
| Document.Fpdf.Out | fpdf.php:2067-2074 | a line goes to the open page in state 2 and to the document buffer otherwise |
| Document.Fpdf.Emit | fpdf.php:2067-2074 | several lines written in a row are one write of their text |
| Document.Fpdf.OutOnPage | fpdf.php:603-610 | the line is written only once a page exists |
| Document.Fpdf.SetMargins | fpdf.php:282-287 | left and top are set; the right margin is the one given, or the left one when none or 0 is given |
| Document.Fpdf.SetLeftMargin | fpdf.php:294-301 | the left margin is set, and on a page the cursor moves right to it when it was left of it |
| Document.Fpdf.SetTopMargin | fpdf.php:308-311 | only the top margin changes |
| Document.Fpdf.SetRightMargin | fpdf.php:318-321 | only the right margin changes |
| Document.Fpdf.SetAutoPageBreak | fpdf.php:329-334 | the mode and bottom margin are set and the break trigger is the page height less that margin |
| Document.Fpdf.SetDisplayMode | fpdf.php:342-355 | it succeeds exactly when zoom and layout are both valid; an invalid zoom throws first and changes nothing; an invalid layout throws after the zoom is set |
| Document.Fpdf.SetCompression | fpdf.php:362-365 | compression is on only when asked for and zlib is there |
| Document.Fpdf.SetMeta | fpdf.php:373-432 | the entry is set, converted to UTF-16BE with a byte-order mark when the text is UTF-8 |
| Document.Fpdf.AliasNbPages | fpdf.php:440-443 | only the page-count alias changes |
| Document.Fpdf.Open | fpdf.php:450-453 | only the state changes, to 1 |
| Document.Fpdf.PageNo | fpdf.php:591-594 | the number of the current page |
| Document.Fpdf.AcceptPageBreak | fpdf.php:966-969 | the automatic page break setting |
| Document.Fpdf.BeginPage | fpdf.php:1646-1687 | a new page is opened with the cursor at the margins and no font; it fails exactly when the page size is unknown, leaving the format as it was; otherwise the format is Resized |
| Document.Fpdf.AddPage | fpdf.php:488-568 | the current page is ended and the next begun; it fails exactly when the size is unknown; otherwise the format is Resized, the previous settings and font are written again and the selection is kept |
| Document.Fpdf.NextPage | fpdf.php:513-567 | addPage() after the end of the previous page: the same outcome, on a sink whose previous page is already ended |
| Document.Fpdf.DressPage | fpdf.php:515-567 | the previous page's settings are written on the new page, its font is selected again, and the header runs |
| Document.Fpdf.EndCurrent | fpdf.php:503-510 | the footer runs and the current page is ended |
| Document.Fpdf.RunHeader | fpdf.php:539-542 | the header hook runs between the in-header flag being set and cleared, and writes nothing by default |
| Document.Fpdf.StartPage | fpdf.php:515-537 | the new page starts with the page-start operators of the previous page's settings, and the font is selected again |
| Document.Fpdf.Reselect | fpdf.php:521-523 | the font of the previous page is selected again and its operator written |
| Document.Fpdf.AutoBreak | fpdf.php:994-1010 | cell()'s break keeps the font, colours and x, moves to the top margin and writes BreakSink |
| Document.Fpdf.PauseSpacing | fpdf.php:996-1001 | a positive word spacing is switched off and remembered; otherwise nothing happens |
| Document.Fpdf.ResumeSpacing | fpdf.php:1006-1009 | a positive remembered word spacing is set and written again |
| Document.Fpdf.BreakPage | fpdf.php:1003-1004 | addPage() with the current orientation and size keeps the font and moves to the top margin |
| Document.Fpdf.MaybeBreak | fpdf.php:988-1010 | the cursor and output become BreakDone's: the page breaks exactly when the cell would cross the trigger outside header and footer with breaks on; the font, colours and page environment are kept |
| Document.Fpdf.PutCell | fpdf.php:1012-1133 | the cursor, links and output become PutDone's, and the cell is recorded as shown with its text and the current word spacing |
| Document.Fpdf.Cell | fpdf.php:984-1134 | the cursor, links and output become CellDone's, the break and the cell in turn; the font, colours and page environment are kept and the cell is recorded as shown |
| Document.Fpdf.SpaceLine | fpdf.php:1223-1233 | the word spacing becomes that of Spacing for the line and the spacing operator is written as SpacingSink says |
| Document.Fpdf.MultiLine | fpdf.php:1184-1246 | a line of multiCell() sets the spacing of Spacing, is recorded as shown with its text, and leaves the cursor, links and output of MultiLineDone |
| Document.Fpdf.MultiIter | fpdf.php:1184-1250 | one pass of multiCell()'s loop advances the scan and keeps the laid-out lines, the cells shown, the word spacing and the cursor, links and output (MultiDrawn) in step with MultiLines |
| Document.Fpdf.MultiLast | fpdf.php:1252-1262 | the last line is drawn as MultiLineDone says, with the spacing the lines before it left and the bottom side added when the border asks for one; the cells shown and the spacing are then those of all the lines |
| Document.Fpdf.MultiRun | fpdf.php:1180-1250 | the loop draws exactly the lines of MultiLines before the last, with SpacedCells' spacing, the first line's border only on the first, and the cursor, links and output of MultiDrawn |
| Document.Fpdf.MultiBody | fpdf.php:1180-1262 | the loop and the last line show SpacedCells of MultiLines, end with a word spacing that is not positive, and leave MultiDone's state once x is at the left margin |
| Document.Fpdf.MultiDraw | fpdf.php:1180-1263 | the lines of multiCell() are drawn and the state is exactly MultiDone's, the cursor at the left margin |
| Document.Fpdf.ReturnLeft | fpdf.php:1262 | only x changes, to the left margin |
| Document.Fpdf.LineDown | fpdf.php:1317-1318 | only the cursor changes: to the left margin, down by the height given |
| Document.Fpdf.MultiCell | fpdf.php:1147-1263 | it fails before drawing anything exactly when the font size is 0; otherwise the cells shown are SpacedCells of MultiLines for the cell's room, the word spacing ends not positive, and the cursor, links and output are MultiDone's, x at the left margin |
| Document.Fpdf.WriteLine | fpdf.php:1287-1347 | a line of write() is shown as ShownTexts says and leaves the cursor, links and output of WriteLineDone: a move down goes to the left margin of the next line, any other line is one cell |
| Document.Fpdf.WriteDown | fpdf.php:1314-1325 | a move down shows nothing and leaves WriteLineDone's state |
| Document.Fpdf.WriteTail | fpdf.php:1353-1356 | the last chunk is shown as ShownTexts says and leaves WriteLineDone's state |
| Document.Fpdf.WriteCell | fpdf.php:1293-1347 | a line cut at a space or at the room is shown as one cell and leaves WriteLineDone's state, back at the left margin after the first line |
| Document.Fpdf.WriteIter | fpdf.php:1285-1351 | one pass of write()'s loop advances the flow and keeps the lines, the cells shown and the cursor, links and output (WriteDrawn) in step with WriteLines |
| Document.Fpdf.WriteRun | fpdf.php:1281-1351 | the loop shows exactly the lines of WriteLines up to the last chunk and leaves WriteDrawn's state for them |
| Document.Fpdf.WriteLast | fpdf.php:1353-1356 | the last chunk, when not empty, is shown as a cell as wide as its text, and the state is WriteDrawn of all the lines |
| Document.Fpdf.WriteBody | fpdf.php:1281-1356 | the loop and the last chunk show ShownTexts of WriteLines and leave WriteDrawn's state for them |
| Document.Fpdf.Write | fpdf.php:1274-1357 | it fails before drawing anything exactly when the font size is 0; otherwise the cells shown are those of WriteLines from the cursor, the cursor, links and output are WriteDrawn's for the first line's and the full room, and the font and colours are kept |
| Document.Fpdf.AddFont | fpdf.php:755-796 | the registry becomes AddedFont of the key and the loaded definition |
| Document.Fpdf.SetFont | fpdf.php:805-863 | the outcome, registry, selection and output are those of FontSet |
| Document.Fpdf.SetFontSize | fpdf.php:870-882 | the same size changes nothing; another sets the size in points and user units and writes the font operator on a page |
| Document.Fpdf.GetStringWidth | fpdf.php:671-683 | the width of the string in the current font's width table at the current size |
| Document.Fpdf.SetDrawColor | fpdf.php:603-610 | the draw colour operator is set and written on a page |
| Document.Fpdf.SetFillColor | fpdf.php:619-627 | the fill colour is set and written on a page; the colour flag says whether fill and text colours differ |
| Document.Fpdf.SetTextColor | fpdf.php:636-640 | the text colour is set, nothing is written, and the colour flag says whether fill and text colours differ |
| Document.Fpdf.SetLineWidth | fpdf.php:690-697 | the line width is set and written on a page |
| Document.Fpdf.DrawLine | fpdf.php:708-717 | the line's operators are written |
| Document.Fpdf.DrawRect | fpdf.php:729-746 | the rectangle's operators are written |
| Document.Fpdf.AddLink | fpdf.php:889-895 | the new link's number is one more than the number of links, and it points at page 0, y 0 |
| Document.Fpdf.SetLink | fpdf.php:904-910 | the link points at the page and y given, -1 meaning the current page or y |
| Document.Fpdf.Link | fpdf.php:922-931 | one link area, in points, is appended to the current page |
| Document.Fpdf.Text | fpdf.php:941-959 | the text operators at (x, y) are written |
| Document.Fpdf.Ln | fpdf.php:1365-1369 | the cursor goes to the left margin, down by the height given or the last cell's |
| Document.Fpdf.GetX | fpdf.php:1477-1480 | the cursor's x |
| Document.Fpdf.GetY | fpdf.php:1497-1500 | the cursor's y |
| Document.Fpdf.SetX | fpdf.php:1487-1490 | x is set, a negative value counting from the right edge |
| Document.Fpdf.SetY | fpdf.php:1507-1511 | y is set, a negative value counting from the bottom edge, and x returns to the left margin |
| Document.Fpdf.SetXY | fpdf.php:1519-1523 | x and y are set, negative values counting from the right and bottom edges |
| Document.Fpdf.Finalize | fpdf.php:470-480 | the page count is kept; it succeeds exactly when every font file can be read and every font type is supported, leaving state 3 and the fonts numbered; otherwise it throws with that message in state 1; when any image has a soft mask the version is at least 1.4 and the pages get the transparency group |
| Document.Fpdf.ParsePngFile | fpdf.php:1810-1821 | the image is PngFile of the file's bytes; a parsed image with a soft mask raises the version to 1.4 as RaisedVersion says, and a failure changes nothing |
| Document.Fpdf.RegisterPng | fpdf.php:1386-1410 | an image already registered is returned as it is; a new one is parsed, and either fails with the parser's message and changes nothing, or is registered under the next index with the version raised for its soft mask |
| Document.Fpdf.Close | fpdf.php:460-481 | nothing once closed; otherwise a first page is added when there is none and it succeeds exactly as Finalize does |
| Document.Fpdf.Output | fpdf.php:1532-1588 | the document is closed first; an unknown destination or a failed close throws; "S" returns the whole document and other destinations return nothing |
| TrueType.BytesAt | src/Fpdf/TTFParser.php:263-265 | a read returns at most n bytes: the n bytes at the cursor when they are there, nothing past the end |
| TrueType.UShortAt | src/Fpdf/TTFParser.php:267-271 | a big-endian unsigned short is below 65536 |
| TrueType.ULongAt | src/Fpdf/TTFParser.php:282-286 | a big-endian unsigned long is below 2^32 |
| TrueType.SignedRange | src/Fpdf/TTFParser.php:273-280 | readShort() gives a value in [-32768, 32768) with the same 16 bits, negative exactly when the top bit is set |
| TrueType.DirectoryFinds | src/Fpdf/TTFParser.php:39-48 | a tag is in the table directory exactly when one of the records names it, and the last record naming it gives its offset |
| TrueType.HmtxWidths | src/Fpdf/TTFParser.php:91-104 | one width per metric record, padded with the last width up to the number of glyphs |
| TrueType.CmapCheck | src/Fpdf/TTFParser.php:106-131 | cmap() goes on exactly when a platform 3 encoding 1 subtable is present and has format 4 |
| TrueType.SegmentStep | src/Fpdf/TTFParser.php:166-186 | one more code of a segment adds its glyph to the map exactly when the glyph is positive |
| TrueType.SegmentsInRange | src/Fpdf/TTFParser.php:157-187 | every mapped code is below 0xFFFF and maps to a glyph in [1, 65535] |
| TrueType.DirectSegment | src/Fpdf/TTFParser.php:175-185 | without a range offset a code maps to code plus delta, less 65536 at or above 65536, and only when that is positive |
| TrueType.ArraySegment | src/Fpdf/TTFParser.php:171-185 | with a range offset a code is mapped exactly when the glyph read from the array is positive and, plus the delta, neither 0 nor 65536 |
| TrueType.StripDelimiters | src/Fpdf/TTFParser.php:209 | no space, bracket, brace, angle bracket, slash or percent is left |
| TrueType.StripDelimitersKeeps | src/Fpdf/TTFParser.php:209 | every other byte of the name is kept |
| TrueType.StripDelimitersIdempotent | src/Fpdf/TTFParser.php:209 | stripping twice is stripping once |
| TrueType.PostScriptRecord | src/Fpdf/TTFParser.php:198-213 | the search finds the first name record with name ID 6, or none when there is none |
| TrueType.PostScriptName | src/Fpdf/TTFParser.php:190-217 | the PostScript name holds no NUL and no delimiter |
| TrueType.PostScriptRecordNext | src/Fpdf/TTFParser.php:198-213 | a record whose name ID is not 6 is skipped |
| TrueType.PostScriptNameAt | src/Fpdf/TTFParser.php:204-211 | the name is the string of the first record with name ID 6 without NULs and delimiters |
| TrueType.Checked | src/Fpdf/TTFParser.php:26-60 | a file the constructor accepts has version 1.0, all eight tables, the head magic number, a format 4 Unicode cmap and a PostScript name; a CFF ("OTTO") file is refused with its own message |
| TrueType.Then | src/Fpdf/TTFParser.php:50-57 | steps taken in turn pass when both pass, and fail with the first failure |
| TrueType.Present | src/Fpdf/TTFParser.php:251-257 | seek() passes exactly when the table is in the directory, and fails naming the tag |
| TrueType.HeadOutcome | src/Fpdf/TTFParser.php:62-68 | head() passes exactly when the table is there and its magic number is 0x5F0F3CF5 |
| TrueType.CmapOutcome | src/Fpdf/TTFParser.php:106-131 | cmap() passes exactly when the table is there with a format 4 Unicode subtable |
| TrueType.NameOutcome | src/Fpdf/TTFParser.php:190-217 | name() passes exactly when the table is there and yields a non-empty PostScript name |
| TrueType.Os2Values | src/Fpdf/TTFParser.php:220-239 | a font with fsType 2 is not embeddable, and the cap height is 0 before version 2 |
| TrueType.TtfParser.constructor | src/Fpdf/TTFParser.php:26-29 | the reader is opened on the file with no tables or metrics read |
| TrueType.TtfParser.Open | src/Fpdf/TTFParser.php:26-60 | the constructor throws exactly when Checked fails, with its message; otherwise every field is as the file gives it |
| TrueType.TtfParser.Seek | src/Fpdf/TTFParser.php:251-257 | the offset of the table, or a failure naming the tag |
| TrueType.TtfParser.Load | src/Fpdf/TTFParser.php:31-57 | the outcome is Checked's and on success every field is read |
| TrueType.TtfParser.ReadDirectory | src/Fpdf/TTFParser.php:39-48 | the table directory is the file's |
| TrueType.TtfParser.LoadMetrics | src/Fpdf/TTFParser.php:50-53 | head(), hhea(), maxp() and hmtx() in turn, stopping at the first failure; the character map is untouched |
| TrueType.TtfParser.LoadGlyphs | src/Fpdf/TTFParser.php:54-57 | cmap(), name(), os2() and post() in turn, stopping at the first failure; the metrics are untouched |
| TrueType.TtfParser.LoadNames | src/Fpdf/TTFParser.php:54-55 | cmap() then name() |
| TrueType.TtfParser.LoadStyle | src/Fpdf/TTFParser.php:56-57 | os2() then post() |
| TrueType.TtfParser.Head | src/Fpdf/TTFParser.php:62-77 | the units per em and bounding box of the head table, or head()'s failure |
| TrueType.TtfParser.Hhea | src/Fpdf/TTFParser.php:79-83 | numberOfHMetrics from the hhea table |
| TrueType.TtfParser.Maxp | src/Fpdf/TTFParser.php:85-89 | numGlyphs from the maxp table |
| TrueType.TtfParser.Hmtx | src/Fpdf/TTFParser.php:91-104 | the widths are HmtxWidths of the hmtx table |
| TrueType.TtfParser.ReadUShorts | src/Fpdf/TTFParser.php:137-145 | count consecutive unsigned shorts, and the cursor after them |
| TrueType.TtfParser.ReadShorts | src/Fpdf/TTFParser.php:147-149 | count consecutive signed shorts, and the cursor after them |
| TrueType.TtfParser.MapSegment | src/Fpdf/TTFParser.php:157-164 | one segment adds its codes to the character map |
| TrueType.TtfParser.MapCodes | src/Fpdf/TTFParser.php:166-186 | the codes of a segment, up to 0xFFFF, are added with their positive glyphs |
| TrueType.TtfParser.Cmap | src/Fpdf/TTFParser.php:106-188 | cmap()'s outcome, and on success the character map of the Unicode subtable |
| TrueType.TtfParser.Format4 | src/Fpdf/TTFParser.php:127-188 | a subtable of any format but 4 throws naming the format; format 4 gives the map of all its segments |
| TrueType.TtfParser.MapSegments | src/Fpdf/TTFParser.php:157-187 | the character map is the union of the segments' maps, later segments winning |
| TrueType.TtfParser.Name | src/Fpdf/TTFParser.php:190-217 | name()'s outcome, and the PostScript name of the table |
| TrueType.TtfParser.FindPostScriptName | src/Fpdf/TTFParser.php:192-213 | the search over the name records gives PostScriptName |
| TrueType.TtfParser.NameRecord | src/Fpdf/TTFParser.php:199-212 | a record with name ID 6 gives its string without NULs and delimiters; any other gives nothing |
| TrueType.TtfParser.Os2 | src/Fpdf/TTFParser.php:220-239 | the OS/2 fields, or the missing-table failure |
| TrueType.TtfParser.Post | src/Fpdf/TTFParser.php:241-249 | the post fields, or the missing-table failure |
| FontCompiler.MapStep | src/Fpdf/MakeFont.php:76-82 | a map line sets the entry of its code, and a code beyond 255 leaves the map as it was |
| FontCompiler.LastLine | src/Fpdf/MakeFont.php:76-82 | the last line for a code, or none when no line names it |
| FontCompiler.MapOfAt | src/Fpdf/MakeFont.php:75-84 | each code maps to what its last line says, and a code no line names stays .notdef with no Unicode value |
| FontCompiler.MapLineReads | src/Fpdf/MakeFont.php:77-81 | a line "!hh U+uuuu name" is read back as code hh, Unicode value uuuu and that name |
| FontCompiler.Missing | src/Fpdf/MakeFont.php:119-130 | the first named code whose glyph width is not found, or none when every named code has one |
| FontCompiler.Widths | src/Fpdf/MakeFont.php:117-132 | the widths exist exactly when every named code has a width, which it takes, the others taking the missing width; otherwise the error names the first missing character |
| FontCompiler.MissingFirst | src/Fpdf/MakeFont.php:119-130 | the loop stops at the first missing character |
| FontCompiler.Flags | src/Fpdf/MakeFont.php:247-257 | bit 0 is set exactly for fixed pitch, bit 5 always, bit 6 exactly for a non-zero italic angle, and no other bit |
| FontCompiler.StemV | src/Fpdf/MakeFont.php:264-272 | StdVW when the metrics give it, else 120 for bold and 70 otherwise |
| FontCompiler.CapHeight | src/Fpdf/MakeFont.php:239-244 | a non-empty cap height is kept, and an empty one is replaced by the ascender |
| FontCompiler.Descriptor | src/Fpdf/MakeFont.php:235-277 | the descriptor is a PHP array starting with the ascent and closed by a parenthesis |
| FontCompiler.Key | src/Fpdf/MakeFont.php:282-290 | a printable code is a quoted character and any other a chr() call |
| FontCompiler.KeyRoundTrip | src/Fpdf/MakeFont.php:282-290 | every key of the width array reads back as its code, the quote and backslash included |
| FontCompiler.WidthLoopEntries | src/Fpdf/MakeFont.php:281-300 | the loop appends the entries of the codes from c on |
| FontCompiler.WidthArrayEntries | src/Fpdf/MakeFont.php:279-305 | the width array is its opening, the 256 entries and its closing |
| FontCompiler.EntryWidth | src/Fpdf/MakeFont.php:292 | an entry reads back as the code's width |
| FontCompiler.DiffLoopWords | src/Fpdf/MakeFont.php:312-321 | the differences loop appends its words, each followed by a space |
| FontCompiler.DiffWordsApply | src/Fpdf/MakeFont.php:312-321 | a reader applying the words, a number setting the next code and a name filling it, gets exactly the names that differ from the reference |
| FontCompiler.DiffWordsPlain | src/Fpdf/MakeFont.php:312-321 | with names free of spaces, no word holds a space and the last word ends in a byte rtrim() keeps |
| FontCompiler.ExplodeSpaced | src/Fpdf/MakeFont.php:312-322 | splitting the spaced words on spaces gives the words back, plus an empty tail |
| FontCompiler.SpacedEnd | src/Fpdf/MakeFont.php:312-322 | the spaced words end in the last word's last byte and a space |
| FontCompiler.TrimmedWords | src/Fpdf/MakeFont.php:322 | after rtrim() the words split back exactly |
| FontCompiler.EncodingDecodes | src/Fpdf/MakeFont.php:307-323 | reading the differences string back gives exactly the codes from 32 on whose names differ from cp1252, with their names |
| FontCompiler.DiffLoopSame | src/Fpdf/MakeFont.php:312-321 | codes whose names agree write nothing |
| FontCompiler.DiffWordsFirst | src/Fpdf/MakeFont.php:312-321 | when some code differs the first word is not empty and starts with a byte rtrim() keeps |
| FontCompiler.EncodingEmpty | src/Fpdf/MakeFont.php:307-323 | the differences are empty exactly when every code from 32 on has the reference name |
| FontCompiler.EncodingSame | src/Fpdf/MakeFont.php:307-323 | a map has no differences from itself |
| FontCompiler.Scale | src/Fpdf/MakeFont.php:100-116 | scaling to 1000 units keeps the sign of a non-negative value and is the identity at 1000 units per em |
| FontCompiler.TtfLookup | src/Fpdf/MakeFont.php:119-130 | one lookup per code |
| FontCompiler.TrueTypeInfo | src/Fpdf/MakeFont.php:87-133 | embedding a font whose licence forbids it fails first; 0 units per em divides by zero; otherwise it succeeds exactly when every named code's Unicode value has a glyph, whose scaled width it takes |
| FontCompiler.TrueTypeCapHeight | src/Fpdf/MakeFont.php:115 | a TrueType font with no cap height gets its ascender in the descriptor |
| FontCompiler.TrueTypeStemV | src/Fpdf/MakeFont.php:264-270 | a TrueType font has no StdVW, so its stem is 120 when bold and 70 otherwise |
| FontCompiler.ReadAt | src/Fpdf/MakeFont.php:149 | fread() returns at most n bytes, and none past the end |
| FontCompiler.SegmentLength | src/Fpdf/MakeFont.php:143-148 | a segment header has marker 128 and a little-endian 32-bit length |
| FontCompiler.Segments | src/Fpdf/MakeFont.php:142-161 | a file whose segment headers lack marker 128 is not a valid Type1 file; otherwise both headers were read with that marker |
| FontCompiler.Header | src/Fpdf/MakeFont.php:143 | a segment header is 6 bytes |
| FontCompiler.HeaderLength | src/Fpdf/MakeFont.php:143-148 | a header reads back as marker 128 and its length |
| FontCompiler.SegmentsRoundTrip | src/Fpdf/MakeFont.php:142-161 | a file made of two segments gives back both segments' data joined and their two lengths |
| FontCompiler.SegmentAt | src/Fpdf/MakeFont.php:142-161 | a segment header followed by its segment reads back as that segment's length and bytes |
| FontCompiler.AfmLineWidths | src/Fpdf/MakeFont.php:180-183 | a character metric line sets its name's width, and other lines leave the widths alone |
| FontCompiler.LastChar | src/Fpdf/MakeFont.php:173-207 | the last character line with that name, or none |
| FontCompiler.AfmWidthOf | src/Fpdf/MakeFont.php:173-207 | a name has a width exactly when some character line names it, and the last one gives it |
| FontCompiler.BoldWeights | src/Fpdf/MakeFont.php:213 | examples: Bold, SemiBold and BLACK are bold; Book and a missing weight are not |
| FontCompiler.BoldCase | src/Fpdf/MakeFont.php:213 | every weight is bold exactly when its lower-case and its upper-case spellings are |
| FontCompiler.BoldAnywhere | src/Fpdf/MakeFont.php:213 | every weight with "bold" or "black", in any case, anywhere in it, is bold |
| FontCompiler.BoldExactly | src/Fpdf/MakeFont.php:213 | a weight is bold exactly when some part of it is "bold" or "black" in some case |
| FontCompiler.AfmLookup | src/Fpdf/MakeFont.php:222-230 | one lookup per code |
| FontCompiler.Type1Info | src/Fpdf/MakeFont.php:209-232 | a missing FontName fails; otherwise it succeeds exactly when every named code's glyph name has a width, taking the name, boldness, .notdef missing width and widths from the AFM |
| FontCompiler.Extension | src/Fpdf/MakeFont.php:35 | the extension is at most three bytes |
| FontCompiler.KindOf | src/Fpdf/MakeFont.php:38-46 | ttf and otf are TrueType, pfb is Type1, and anything else is an unrecognized extension |
| FontCompiler.ExtensionOf | src/Fpdf/MakeFont.php:35 | the extension is the last three bytes, lower-cased |
| FontCompiler.Basename | src/Fpdf/MakeFont.php:34 | the base name holds no slash and is no longer than the path |
| FontCompiler.FileOf | src/Fpdf/MakeFont.php:351-359 | a Type1 font records its two sizes and a TrueType font its original size, under the file name given |
| FontCompiler.DiffEntry | src/Fpdf/MakeFont.php:347-349 | the diff entry is written exactly when the differences are truthy in PHP |
| FontCompiler.MakeFont.constructor | src/Fpdf/MakeFont.php:23-24 | the font file and encoding are stored and no information is gathered yet |
| FontCompiler.MakeFont.Create | src/Fpdf/MakeFont.php:12-26 | a missing font file fails first, then a missing or empty map; otherwise the map is MapOf of its lines |
| FontCompiler.MakeFont.LoadMap | src/Fpdf/MakeFont.php:68-85 | an empty map file fails and changes nothing; otherwise the font map is MapOf of its lines |
| FontCompiler.MakeFont.TtfWidths | src/Fpdf/MakeFont.php:117-130 | the loop gives Widths of the TrueType lookups |
| FontCompiler.MakeFont.GetTrueTypeInfo | src/Fpdf/MakeFont.php:87-133 | the outcome is TrueTypeInfo's, and on success the font information is its value |
| FontCompiler.MakeFont.AfmWidths | src/Fpdf/MakeFont.php:220-230 | the loop gives Widths of the AFM lookups |
| FontCompiler.MakeFont.GetType1Info | src/Fpdf/MakeFont.php:135-233 | the outcome is that of reading the segments and the AFM, and on success the font information is its value |
| FontCompiler.MakeFont.Differences | src/Fpdf/MakeFont.php:307-323 | a missing cp1252 map fails; otherwise the differences from cp1252, after which the font map is cp1252's |
| FontCompiler.FaceOfParsed | src/Fpdf/TTFParser.php:26-60 | a parser that has read a file holds exactly FileFace of that file: every value getTrueTypeInfo() takes is a function of the file's bytes |
| FontCompiler.CheckedTables | src/Fpdf/TTFParser.php:26-60 | a file the parser accepts has the head, name, OS/2 and cmap tables and a non-empty PostScript name |
| FontCompiler.TrueTypeBuild | src/Fpdf/MakeFont.php:87-133 | a file the parser refuses fails with the parser's message; an embedded font's data is the whole file with its size |
| FontCompiler.TrueTypeBuildReads | src/Fpdf/MakeFont.php:87-133 | a TrueType font that builds passed the parser's checks; its name is the file's non-empty PostScript name, its em is not 0, its licence allows embedding when embedded, and the cmap maps the Unicode value of every named code |
| FontCompiler.FontBuild | src/Fpdf/MakeFont.php:38-46 | the embedded data read: none without embedding, the whole file for TrueType, the two PFB segments and their sizes for Type1 |
| FontCompiler.FontRead | src/Fpdf/MakeFont.php:33-46 | an unknown extension fails with "Unrecognized font file extension: " and the extension; a font is read only for a known kind |
| FontCompiler.MakeFont.ReadFont | src/Fpdf/MakeFont.php:38-46 | the outcome is FontBuild's for the kind, and on success the font information is exactly FontBuild's value: for TrueType the information of the file's own face, for Type1 that of its PFB segments and AFM lines |
| FontCompiler.MakeFont.ToFile | src/Fpdf/MakeFont.php:33-66 | an unknown extension or a font that cannot be read fails with FontRead's message, then a missing cp1252 map; it succeeds exactly otherwise, and then the definition's type, name, descriptor, underline values and width array are those of FontRead of the font file and the original map, with the encoding, the differences from cp1252, a file entry exactly when embedding (the PFB sizes or the TrueType size, named .z when zlib is there) and the base name with .php |
| FontCompiler.MakeFont.Make | src/Fpdf/MakeFont.php:28-31 | the constructor's failures come first, then FontRead's under the encoding's map, then the cp1252 map; it succeeds exactly otherwise, and then the definition's name, descriptor, underline values and width array are those of FontRead of the font file under the encoding's map, with the differences of that map from cp1252 |

## Left out

- `image()` beyond its first registration of a PNG (`Document.Fpdf.RegisterPng`): the type taken from the file extension and its two errors, the JPEG and GIF decoders, and the measuring, placing and linking of the image on the page are not modelled.
- `_doChecks`, `_checkOutput`, the font path and `_loadFont`'s `include` of a PHP definition file: the definition reaches the model through the host's loader.
- Output destinations "I", "D" and "F": they write to the browser or a file; the model returns the document only for "S" and nothing for the others.
- `sprintf`, zlib and `date()`: host functions with no proved properties.
- Document.Fpdf.MultiCell: a font size of 0 gives a failure with PHP's "Division by zero" message; PHP 8 throws there, older PHP versions would go on with INF widths.
- Document.Fpdf.Write: the same, for a font size of 0.
- Writer.EndDoc: when `_putFonts` throws, the model keeps the header and the pages written but not the font objects written before the failing one.
- Writer.EndDoc: its claims about the page tree hold for a document never reopened after `close()`, since `addPage()` has no check against that.
- Palettes whose length is not a multiple of 3, and the numbering of palettes and soft masks beyond what `Serial.ImageObjs` states.
- Fonts of a type other than Core, Type1 and TrueType handled by a subclass's `_put<type>` method: they fail as unsupported.
- The IE content-type workaround of `output()` and HTTP headers.
- Floating point: lengths are exact reals, so PHP's rounding of `%.2F` is left to the host.
- TrueType.TtfParser.Open: an `fopen()` failure is not modelled (the file is given as bytes); a cursor past the end reads as zeros, as `unpack` of a short read gives.
- FontCompiler.MakeFont.ToFile: writing the `.z` and `.php` files, `gzcompress` and the report text's line endings are left out; the definition is returned as a value rather than as PHP source text.
- `_validateRuntime` and `_validateFontpath` of MakeFont's constructor.
- FontCompiler.MakeFont: its errors carry the bare message; `error()` puts a heading before it, the class name with `\` written `::` followed by " error:" and `PHP_EOL`, the heading in `<b>…</b><br>` outside the command line, and the model does not build that text.
- Settings.InfoText: the constants `FPDF_TITLE`, `FPDF_SUBJECT`, `FPDF_AUTHOR`, `FPDF_KEYWORDS` and `FPDF_CREATOR`, which replace the metadata set on the document when a program defines them, are not modelled; the info dictionary always takes the document's own entries.
- Settings.StdSize: the constant `FPDF_PAGE_SIZES`, which replaces the table of standard page sizes when a program defines it (fpdf.php:228-230), is not modelled; the built-in table is always used.
- Settings.IsOne: a border counts as 1 only as the integer 1 or the text "1"; PHP's loose `==` also takes `true`, `1.0`, "01" and "1.0", values the border type of the model cannot hold.
- FontCompiler.Type1Info: AFM widths are kept as integers, where PHP keeps the text of the field.
- FontCompiler.MapStep: a map line with a code above 255 is ignored, where PHP would extend the array.
- FontCompiler.Scale: PHP's `round()` of a float (including its -0) is modelled by exact rational rounding half away from zero.
- FontCompiler.MakeFont.GetType1Info: an `fopen()` failure of the font file, and a segment length of 0, for which PHP 8's `fread` throws, are not modelled.
- FontCompiler.MakeFont.LoadMap: the map file name is taken as given, without `strtolower`.
- FontCompiler.Basename: `basename()`'s handling of trailing slashes and of suffixes is not modelled.
