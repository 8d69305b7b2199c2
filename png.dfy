/**
 * PNG reading as FPDF does it for image embedding: signature and IHDR checks,
 * the chunk scan that collects PLTE, tRNS and IDAT, and the separation of an
 * alpha channel into its own plane (PNG Specification, Second Edition,
 * sections 5.2 and 11.2.2).  The file is a byte string read through a cursor;
 * zlib is a pair of functions supplied by the host.
 */
module Png {
  import opened Common

  /** zlib as the host provides it: whether gzcompress exists, and the two calls. */
  datatype Zlib = Zlib(available: bool, compress: Bytes -> Bytes, uncompress: Bytes -> Bytes)

  const Signature: Bytes := [Chr(137)] + "PNG" + [Chr(13), Chr(10), Chr(26), Chr(10)]

  const EndOfStream: Bytes := "Unexpected end of stream"

  const NoZlib: Bytes := "Zlib not available, " + "can't handle alpha channel: "

  const NotPng: Bytes := "Not a PNG file: "
  const BadPng: Bytes := "Incorrect PNG file: "
  const Depth16: Bytes := "16-bit depth not supported: "
  const BadColorType: Bytes := "Unknown color type: "
  const BadCompression: Bytes := "Unknown compression method: "
  const BadFilter: Bytes := "Unknown filter method: "
  const Interlaced: Bytes := "Interlacing not supported: "
  const NoPalette: Bytes := "Missing palette in "

  /** unpack('N'): a big-endian unsigned 32-bit integer at p. */
  function U32(s: Bytes, p: nat): (v: nat)
    requires p + 4 <= |s|
    ensures v < 0x1_0000_0000
  {
    ((s[p] as int * 256 + s[p + 1] as int) * 256 + s[p + 2] as int) * 256 + s[p + 3] as int
  }

  /** The four bytes of a big-endian 32-bit integer (the low 32 bits of n). */
  function Be32(n: nat): (r: Bytes)
    ensures |r| == 4
  {
    [Chr(n / 0x100_0000 % 256), Chr(n / 0x1_0000 % 256), Chr(n / 256 % 256), Chr(n % 256)]
  }

  lemma Be32RoundTrip(n: nat, rest: Bytes)
    requires n < 0x1_0000_0000
    ensures U32(Be32(n) + rest, 0) == n
  {
    var s := Be32(n) + rest;
    var a, b, c, d := n / 0x100_0000, n / 0x1_0000 % 256, n / 256 % 256, n % 256;
    assert s[0] as int == a && s[1] as int == b && s[2] as int == c && s[3] as int == d;
    assert n / 256 == (n / 0x1_0000) * 256 + c;
    assert n / 0x1_0000 == a * 256 + b;
    assert n == (n / 256) * 256 + d;
  }

  /** The colour space FPDF gives each PNG colour type; other types are refused. */
  function ColorSpace(ct: nat): Option<Bytes>
  {
    if ct == 0 || ct == 4 then Some("DeviceGray")
    else if ct == 2 || ct == 6 then Some("DeviceRGB")
    else if ct == 3 then Some("Indexed")
    else None
  }

  datatype Header = Header(w: nat, h: nat, bpc: nat, ct: nat, cs: Bytes)

  /** The checks on the signature and the IHDR chunk, in the order the source
      reads the stream; a read past the end fails before the check it feeds. */
  function ReadHeader(s: Bytes, file: Bytes): (r: Result<Header>)
    ensures r.Ok? ==> |s| >= 33 && s[..8] == Signature && s[12..16] == "IHDR"
    ensures r.Ok? ==> r.value.w == U32(s, 16) && r.value.h == U32(s, 20)
    ensures r.Ok? ==> r.value.bpc == s[24] as int <= 8 && r.value.ct == s[25] as int
    ensures r.Ok? ==> ColorSpace(r.value.ct) == Some(r.value.cs)
    ensures r.Ok? ==> s[26] as int == 0 && s[27] as int == 0 && s[28] as int == 0
    ensures (|s| >= 33 && s[..8] == Signature && s[12..16] == "IHDR" && s[24] as int <= 8
             && ColorSpace(s[25] as int).Some? && s[26] as int == 0 && s[27] as int == 0
             && s[28] as int == 0) ==> r.Ok?
  {
    if |s| < 8 then Err(EndOfStream)
    else if s[..8] != Signature then Err(NotPng + file)
    else if |s| < 16 then Err(EndOfStream)
    else if s[12..16] != "IHDR" then Err(BadPng + file)
    else if |s| < 25 then Err(EndOfStream)
    else if s[24] as int > 8 then Err(Depth16 + file)
    else if |s| < 26 then Err(EndOfStream)
    else if ColorSpace(s[25] as int).None? then Err(BadColorType + file)
    else if |s| < 27 then Err(EndOfStream)
    else if s[26] as int != 0 then Err(BadCompression + file)
    else if |s| < 28 then Err(EndOfStream)
    else if s[27] as int != 0 then Err(BadFilter + file)
    else if |s| < 29 then Err(EndOfStream)
    else if s[28] as int != 0 then Err(Interlaced + file)
    else if |s| < 33 then Err(EndOfStream)
    else Ok(Header(U32(s, 16), U32(s, 20), s[24] as int, s[25] as int, ColorSpace(s[25] as int).value))
  }

  /** What the chunk scan has collected so far. */
  datatype Scan = Scan(pal: Bytes, trns: Option<seq<nat>>, idat: Bytes)

  /** ord(substr($t, k, 1)): 0 when t is too short. */
  function OrdAt(t: Bytes, k: nat): nat
  {
    if k < |t| then t[k] as int else 0
  }

  /** Position of the first NUL byte of t, if any (strpos($t, chr(0))). */
  function FirstNul(t: Bytes): (r: Option<nat>)
    ensures r.Some? ==> r.value < |t| && t[r.value] == '\0' && forall k :: 0 <= k < r.value ==> t[k] != '\0'
    ensures r.None? ==> forall k :: 0 <= k < |t| ==> t[k] != '\0'
  {
    if t == [] then None
    else if t[0] == '\0' then Some(0)
    else match FirstNul(t[1..]) { case None => None case Some(p) => Some(p + 1) }
  }

  /** The transparency a tRNS payload gives for colour type ct: one gray
      sample, three RGB samples (the low bytes of the 16-bit values), or the
      first fully transparent palette index. */
  function TrnsOf(t: Bytes, ct: nat, prev: Option<seq<nat>>): Option<seq<nat>>
  {
    if ct == 0 then Some([OrdAt(t, 1)])
    else if ct == 2 then Some([OrdAt(t, 1), OrdAt(t, 3), OrdAt(t, 5)])
    else match FirstNul(t) { case Some(p) => Some([p]) case None => prev }
  }

  /** The effect of one complete chunk on the scan. */
  function Absorb(st: Scan, typ: Bytes, payload: Bytes, ct: nat): Scan
  {
    if typ == "PLTE" then st.(pal := payload)
    else if typ == "tRNS" then st.(trns := TrnsOf(payload, ct, st.trns))
    else if typ == "IDAT" then st.(idat := st.idat + payload)
    else st
  }

  /** The do-while loop over chunks starting at pos: it stops at IEND, and also
      after any chunk whose length field is 0. */
  function ScanChunks(s: Bytes, pos: nat, ct: nat, st: Scan): Result<Scan>
    decreases |s| - pos
  {
    if pos + 8 > |s| then Err(EndOfStream)
    else
      var n := U32(s, pos);
      var typ := s[pos + 4..pos + 8];
      var p := pos + 8;
      if typ == "IEND" then Ok(st)
      else if p + n + 4 > |s| then Err(EndOfStream)
      else
        var st' := Absorb(st, typ, s[p..p + n], ct);
        if n == 0 then Ok(st') else ScanChunks(s, p + n + 4, ct, st')
  }

  // ------------------------------------------------------ the alpha split

  /** $data[$pos] appended to a string: nothing past the end. */
  function CharAt(s: Bytes, i: nat): Bytes
  {
    if i < |s| then [s[i]] else []
  }

  /** preg_replace('/(.{k})./s', '$1', line): the first k bytes of every k+1;
      a tail too short to match is kept as it is. */
  function KeepLeading(line: Bytes, k: nat): Bytes
    decreases |line|
  {
    if |line| < k + 1 then line else line[..k] + KeepLeading(line[k + 1..], k)
  }

  /** preg_replace('/.{k}(.)/s', '$1', line): the last byte of every k+1;
      a tail too short to match is kept as it is. */
  function KeepLast(line: Bytes, k: nat): Bytes
    decreases |line|
  {
    if |line| < k + 1 then line else [line[k]] + KeepLast(line[k + 1..], k)
  }

  /** Pixels put back together from their colour part and their alpha byte. */
  function Interleave(color: Bytes, alpha: Bytes, k: nat): Bytes
    decreases |alpha|
  {
    if alpha == [] || |color| < k then []
    else color[..k] + [alpha[0]] + Interleave(color[k..], alpha[1..], k)
  }

  /** Splitting a row of whole pixels and interleaving the parts gives the row back. */
  lemma {:induction false} SplitRowRoundTrip(line: Bytes, k: nat, w: nat)
    requires |line| == (k + 1) * w
    ensures |KeepLeading(line, k)| == k * w && |KeepLast(line, k)| == w
    ensures Interleave(KeepLeading(line, k), KeepLast(line, k), k) == line
    decreases w
  {
    if w > 0 {
      assert (k + 1) * w == (k + 1) * (w - 1) + (k + 1) && k * w == k * (w - 1) + k;
      var rest := line[k + 1..];
      assert |rest| == (k + 1) * (w - 1);
      SplitRowRoundTrip(rest, k, w - 1);
      var c := line[..k] + KeepLeading(rest, k);
      var a := [line[k]] + KeepLast(rest, k);
      assert KeepLeading(line, k) == c && KeepLast(line, k) == a;
      assert c[..k] == line[..k] && c[k..] == KeepLeading(rest, k);
      assert a[0] == line[k] && a[1..] == KeepLast(rest, k);
      assert Interleave(c, a, k) == c[..k] + [a[0]] + Interleave(c[k..], a[1..], k);
      assert line == line[..k] + [line[k]] + rest;
    } else {
      assert line == [];
    }
  }

  /** The colour plane of the first n rows: each row's filter byte, then the
      colour bytes of its pixels. len is the row length without the filter byte. */
  function ColorRows(d: Bytes, len: nat, k: nat, n: nat): Bytes
  {
    if n == 0 then []
    else
      var pos := (1 + len) * (n - 1);
      ColorRows(d, len, k, n - 1) + CharAt(d, pos) + KeepLeading(Substr(d, pos + 1, len), k)
  }

  /** The alpha plane of the first n rows: each row's filter byte, then the
      alpha byte of each pixel. */
  function AlphaRows(d: Bytes, len: nat, k: nat, n: nat): Bytes
  {
    if n == 0 then []
    else
      var pos := (1 + len) * (n - 1);
      AlphaRows(d, len, k, n - 1) + CharAt(d, pos) + KeepLast(Substr(d, pos + 1, len), k)
  }

  lemma Step(a: nat, n: nat)
    requires n > 0
    ensures a * n == a * (n - 1) + a
  {
  }

  /** One complete row adds 1+k*w bytes to the colour plane and 1+w to the alpha plane. */
  lemma RowSizes(d: Bytes, w: nat, k: nat, n: nat)
    requires n > 0 && |d| >= (1 + (k + 1) * w) * n
    ensures |ColorRows(d, (k + 1) * w, k, n)| == |ColorRows(d, (k + 1) * w, k, n - 1)| + 1 + k * w
    ensures |AlphaRows(d, (k + 1) * w, k, n)| == |AlphaRows(d, (k + 1) * w, k, n - 1)| + 1 + w
  {
    var len := (k + 1) * w;
    var pos := (1 + len) * (n - 1);
    Step(1 + len, n);
    var line := Substr(d, pos + 1, len);
    assert |line| == len;
    SplitRowRoundTrip(line, k, w);
  }

  /** On complete image data of n rows of w pixels, the colour plane has
      n*(1+k*w) bytes and the alpha plane n*(1+w). */
  lemma {:induction false} PlaneSizes(d: Bytes, w: nat, k: nat, n: nat)
    requires |d| >= (1 + (k + 1) * w) * n
    ensures |ColorRows(d, (k + 1) * w, k, n)| == n * (1 + k * w)
    ensures |AlphaRows(d, (k + 1) * w, k, n)| == n * (1 + w)
  {
    if n > 0 {
      Step(1 + (k + 1) * w, n);
      PlaneSizes(d, w, k, n - 1);
      RowSizes(d, w, k, n);
      Step(1 + k * w, n);
      Step(1 + w, n);
    }
  }

  /** The loops of _parsepngstream that separate colour and alpha, for colour
      types 4 (k = 1, gray) and 6 (k = 3, RGB). */
  method SplitAlpha(d: Bytes, w: nat, h: nat, k: nat) returns (color: Bytes, alpha: Bytes)
    ensures color == ColorRows(d, (k + 1) * w, k, h)
    ensures alpha == AlphaRows(d, (k + 1) * w, k, h)
  {
    var len := (k + 1) * w;
    color, alpha := [], [];
    var i := 0;
    while i < h
      invariant i <= h
      invariant color == ColorRows(d, len, k, i)
      invariant alpha == AlphaRows(d, len, k, i)
    {
      var pos := (1 + len) * i;
      color := color + CharAt(d, pos);
      alpha := alpha + CharAt(d, pos);
      var line := Substr(d, pos + 1, len);
      color := color + KeepLeading(line, k);
      alpha := alpha + KeepLast(line, k);
      i := i + 1;
    }
  }

  // ------------------------------------------------------ the whole parse

  /** What _parsepngstream returns; smask is set only for colour types 4 and 6. */
  datatype PngInfo = PngInfo(w: nat, h: nat, cs: Bytes, bpc: nat, dp: Bytes, pal: Bytes,
                             trns: Option<seq<nat>>, data: Bytes, smask: Option<Bytes>)

  const Predictor: Bytes := "/Predictor 15 /Colors "
  const BitsKey: Bytes := " /BitsPerComponent "
  const ColumnsKey: Bytes := " /Columns "

  /** The /DecodeParms entry of a PNG image. */
  function DecodeParms(hd: Header): Bytes
  {
    Predictor + ((if hd.cs == "DeviceRGB" then "3" else "1")
    + (BitsKey + NatText(hd.bpc) + (ColumnsKey + NatText(hd.w))))
  }

  /** What _parsepngstream computes, as a function of the file's bytes. */
  function ParsePng(s: Bytes, file: Bytes, z: Zlib): (r: Result<PngInfo>)
    ensures r.Ok? ==> ReadHeader(s, file).Ok?
    ensures r.Ok? && r.value.cs == "Indexed" ==> Truthy(r.value.pal)
    ensures r.Ok? ==> (r.value.smask.Some? <==> ReadHeader(s, file).value.ct >= 4)
  {
    match ReadHeader(s, file)
    case Err(m) => Err(m)
    case Ok(hd) =>
      match ScanChunks(s, 33, hd.ct, Scan("", Some([]), ""))
      case Err(m) => Err(m)
      case Ok(st) =>
        var trns := if st.trns == Some([]) then None else st.trns;
        if hd.cs == "Indexed" && !Truthy(st.pal) then Err(NoPalette + file)
        else if hd.ct >= 4 then
          if !z.available then Err(NoZlib + file)
          else
            var raw := z.uncompress(st.idat);
            var k := if hd.ct == 4 then 1 else 3;
            var color := ColorRows(raw, (k + 1) * hd.w, k, hd.h);
            var alpha := AlphaRows(raw, (k + 1) * hd.w, k, hd.h);
            Ok(PngInfo(hd.w, hd.h, hd.cs, hd.bpc, DecodeParms(hd), st.pal, trns,
                       z.compress(color), Some(z.compress(alpha))))
        else
          Ok(PngInfo(hd.w, hd.h, hd.cs, hd.bpc, DecodeParms(hd), st.pal, trns, st.idat, None))
  }

  /** The do-while loop of _parsepngstream over the chunks after IHDR. */
  method ReadChunks(s: Bytes, ct: nat) returns (r: Result<Scan>)
    ensures r == ScanChunks(s, 33, ct, Scan("", Some([]), ""))
  {
    var pos := 33;
    var st := Scan("", Some([]), "");
    ghost var start := st;
    while true
      invariant ScanChunks(s, pos, ct, st) == ScanChunks(s, 33, ct, start)
      decreases |s| - pos
    {
      if pos + 8 > |s| {
        return Err(EndOfStream);
      }
      var n := U32(s, pos);
      var typ := s[pos + 4..pos + 8];
      pos := pos + 8;
      if typ == "IEND" {
        break;
      }
      if pos + n + 4 > |s| {
        return Err(EndOfStream);
      }
      st := Absorb(st, typ, s[pos..pos + n], ct);
      pos := pos + n + 4;
      if n == 0 {
        break;
      }
    }
    return Ok(st);
  }

  /** _parsepngstream: the header checks, the chunk loop and the alpha split,
      reading the file through a cursor. */
  method ParsePngStream(s: Bytes, file: Bytes, z: Zlib) returns (r: Result<PngInfo>)
    ensures r == ParsePng(s, file, z)
  {
    var header := ReadHeader(s, file);
    if header.Err? {
      return Err(header.msg);
    }
    var hd := header.value;
    var scan := ReadChunks(s, hd.ct);
    if scan.Err? {
      return Err(scan.msg);
    }
    var st := scan.value;
    var trns := if st.trns == Some([]) then None else st.trns;
    if hd.cs == "Indexed" && !Truthy(st.pal) {
      return Err(NoPalette + file);
    }
    if hd.ct >= 4 {
      if !z.available {
        return Err(NoZlib + file);
      }
      var raw := z.uncompress(st.idat);
      var k := if hd.ct == 4 then 1 else 3;
      var color, alpha := SplitAlpha(raw, hd.w, hd.h, k);
      r := Ok(PngInfo(hd.w, hd.h, hd.cs, hd.bpc, DecodeParms(hd), st.pal, trns,
                      z.compress(color), Some(z.compress(alpha))));
    } else {
      r := Ok(PngInfo(hd.w, hd.h, hd.cs, hd.bpc, DecodeParms(hd), st.pal, trns, st.idat, None));
    }
  }

  // ------------------------------------------- chunk encoding, the partner

  /** A chunk as a PNG encoder writes it; FPDF never checks the CRC. */
  datatype Chunk = Chunk(typ: Bytes, payload: Bytes, crc: Bytes)

  predicate WellFormed(c: Chunk)
  {
    |c.typ| == 4 && |c.crc| == 4 && |c.payload| < 0x1_0000_0000
  }

  function EncodeChunk(c: Chunk): Bytes
  {
    Be32(|c.payload|) + c.typ + c.payload + c.crc
  }

  function EncodeChunks(cs: seq<Chunk>): Bytes
  {
    if cs == [] then [] else EncodeChunk(cs[0]) + EncodeChunks(cs[1..])
  }

  function AbsorbAll(st: Scan, cs: seq<Chunk>, ct: nat): Scan
    decreases cs
  {
    if cs == [] then st else AbsorbAll(Absorb(st, cs[0].typ, cs[0].payload, ct), cs[1..], ct)
  }

  /** The image data the scan collects is the IDAT payloads in file order. */
  function IdatOf(cs: seq<Chunk>): Bytes
  {
    if cs == [] then [] else (if cs[0].typ == "IDAT" then cs[0].payload else []) + IdatOf(cs[1..])
  }

  lemma {:induction false} AbsorbAllIdat(st: Scan, cs: seq<Chunk>, ct: nat)
    ensures AbsorbAll(st, cs, ct).idat == st.idat + IdatOf(cs)
    decreases cs
  {
    if cs != [] {
      AbsorbAllIdat(Absorb(st, cs[0].typ, cs[0].payload, ct), cs[1..], ct);
    }
  }

  /** Where an encoded chunk sits in a stream, the scan reads back its
      length, its type and its payload. */
  lemma ReadBack(s: Bytes, p: nat, c: Chunk)
    requires WellFormed(c) && p + |EncodeChunk(c)| <= |s|
    requires s[p..p + |EncodeChunk(c)|] == EncodeChunk(c)
    ensures U32(s, p) == |c.payload|
    ensures s[p + 4..p + 8] == c.typ
    ensures s[p + 8..p + 8 + |c.payload|] == c.payload
    ensures |EncodeChunk(c)| == |c.payload| + 12
  {
    var e := EncodeChunk(c);
    var n := |c.payload|;
    Be32RoundTrip(n, c.typ + c.payload + c.crc);
    assert U32(s, p) == U32(e, 0) by {
      assert s[p] == e[0] && s[p + 1] == e[1] && s[p + 2] == e[2] && s[p + 3] == e[3];
    }
    assert |e| == n + 12;
    assert e[4..8] == c.typ;
    assert e[8..8 + n] == c.payload;
    SliceOf(s, p, e, 4, 8);
    SliceOf(s, p, e, 8, 8 + n);
  }

  /** One scan step over an encoded chunk that is not IEND and not empty. */
  lemma ScanStep(s: Bytes, p: nat, c: Chunk, ct: nat, st: Scan, q: nat, st': Scan)
    requires WellFormed(c) && c.typ != "IEND" && |c.payload| > 0
    requires p + |EncodeChunk(c)| <= |s| && s[p..p + |EncodeChunk(c)|] == EncodeChunk(c)
    requires q == p + |EncodeChunk(c)| && st' == Absorb(st, c.typ, c.payload, ct)
    ensures ScanChunks(s, p, ct, st) == ScanChunks(s, q, ct, st')
  {
    ReadBack(s, p, c);
  }

  /** The scan stops at an encoded IEND chunk. */
  lemma ScanEnd(s: Bytes, p: nat, c: Chunk, ct: nat, st: Scan)
    requires WellFormed(c) && c.typ == "IEND"
    requires p + |EncodeChunk(c)| <= |s| && s[p..p + |EncodeChunk(c)|] == EncodeChunk(c)
    ensures ScanChunks(s, p, ct, st) == Ok(st)
  {
    ReadBack(s, p, c);
  }

  /** Chunks the scan reads through: well formed, not IEND, not empty. */
  predicate BodyChunks(cs: seq<Chunk>)
  {
    cs == [] || (WellFormed(cs[0]) && cs[0].typ != "IEND" && |cs[0].payload| > 0 && BodyChunks(cs[1..]))
  }

  /** Scanning an encoded chunk sequence that ends with IEND absorbs every
      chunk in order, provided no chunk before IEND is empty (an empty chunk
      ends the source's loop early). */
  lemma {:induction false} ScanEncoded(s: Bytes, p: nat, cs: seq<Chunk>, iend: Chunk, ct: nat, st: Scan)
    requires BodyChunks(cs)
    requires WellFormed(iend) && iend.typ == "IEND"
    requires p + |EncodeChunks(cs) + EncodeChunk(iend)| <= |s|
    requires s[p..p + |EncodeChunks(cs) + EncodeChunk(iend)|] == EncodeChunks(cs) + EncodeChunk(iend)
    ensures ScanChunks(s, p, ct, st) == Ok(AbsorbAll(st, cs, ct))
    decreases |cs|
  {
    if cs == [] {
      assert EncodeChunks(cs) + EncodeChunk(iend) == EncodeChunk(iend);
      ScanEnd(s, p, iend, ct, st);
    } else {
      var q := p + |EncodeChunk(cs[0])|;
      var st' := Absorb(st, cs[0].typ, cs[0].payload, ct);
      ScanFirst(s, p, cs, iend);
      ScanStep(s, p, cs[0], ct, st, q, st');
      ScanEncoded(s, q, cs[1..], iend, ct, st');
    }
  }

  /** The first chunk of an encoded sequence, and the rest after it. */
  lemma ScanFirst(s: Bytes, p: nat, cs: seq<Chunk>, iend: Chunk)
    requires cs != []
    requires p + |EncodeChunks(cs) + EncodeChunk(iend)| <= |s|
    requires s[p..p + |EncodeChunks(cs) + EncodeChunk(iend)|] == EncodeChunks(cs) + EncodeChunk(iend)
    ensures p + |EncodeChunk(cs[0])| <= |s| && s[p..p + |EncodeChunk(cs[0])|] == EncodeChunk(cs[0])
    ensures var q := p + |EncodeChunk(cs[0])|;
            q + |EncodeChunks(cs[1..]) + EncodeChunk(iend)| <= |s|
            && s[q..q + |EncodeChunks(cs[1..]) + EncodeChunk(iend)|] == EncodeChunks(cs[1..]) + EncodeChunk(iend)
  {
    EncodeCons(cs, EncodeChunk(iend));
    SplitAt(s, p, EncodeChunk(cs[0]), EncodeChunks(cs[1..]) + EncodeChunk(iend));
  }

  lemma EncodeCons(cs: seq<Chunk>, tail: Bytes)
    requires cs != []
    ensures EncodeChunks(cs) + tail == EncodeChunk(cs[0]) + (EncodeChunks(cs[1..]) + tail)
  {
    assert EncodeChunks(cs) == EncodeChunk(cs[0]) + EncodeChunks(cs[1..]);
  }

  /** Two pieces found together at p are found one after the other. */
  lemma SplitAt(s: Bytes, p: nat, e: Bytes, f: Bytes)
    requires p + |e + f| <= |s| && s[p..p + |e + f|] == e + f
    ensures s[p..p + |e|] == e && s[p + |e|..p + |e| + |f|] == f
  {
    SliceOf(s, p, e + f, 0, |e|);
    SliceOf(s, p, e + f, |e|, |e + f|);
    assert (e + f)[..|e|] == e && (e + f)[|e|..] == f;
  }
}
