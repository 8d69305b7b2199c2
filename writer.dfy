/**
 * The serializer's loops (_putPages(), _putFonts(), _putImages() and the
 * cross-reference loop of _endDoc()) as they run on the sink: each writes
 * its objects to the document buffer with _newObj() and _out(), and each
 * states what it wrote, where each object starts, and that the offsets
 * recorded so far keep pointing at their headers.
 */
module Writer {
  import opened Common
  import opened PdfText
  import opened Fonts
  import opened PdfObjects
  import opened Settings
  import opened Serial
  import opened DocState

  // ----------------------------------------------------------------- steps

  /** _newObj() and then the object's text t: the next number, the
      current length of the buffer as its offset, its header and t. */
  function NewObject(s: Sink, t: Bytes): (r: Sink)
    requires SinkOk(s) && s.state != 2
    ensures SinkOk(r) && Moved(s, r) && r.n == s.n + 1
    ensures r.offsets == s.offsets[r.n := |s.buffer|] && r.buffer == s.buffer + (ObjHeader(r.n) + t)
  {
    var o := s.n + 1;
    assert s.buffer + ObjHeader(o) + t == s.buffer + (ObjHeader(o) + t);
    Sent(Begun(s, o).(n := o), t)
  }

  /** The new object is found at its offset, and the offsets recorded
      before keep pointing where they did. */
  lemma NewObjectFound(s: Sink, t: Bytes)
    requires SinkOk(s) && s.state != 2
    ensures Holds(NewObject(s, t).buffer, NewObject(s, t).offsets[s.n + 1], ObjHeader(s.n + 1) + t)
    ensures Continues(s, NewObject(s, t)) && (Filed(s) ==> Filed(NewObject(s, t)))
  {
    var o := s.n + 1;
    HoldsEnd(s.buffer, ObjHeader(o) + t);
    assert (s.buffer + (ObjHeader(o) + t))[..|s.buffer|] == s.buffer;
    FiledBegun(s, o);
    FiledSent(Begun(s, o).(n := o), t);
  }

  /** Object 1 or 2, whose numbers are reserved, with its text t: offset,
      header and text as for a new object, the count unchanged. */
  function Reserved(s: Sink, o: nat, t: Bytes): (r: Sink)
    requires SinkOk(s) && s.state != 2 && 1 <= o <= 2
    ensures SinkOk(r) && Moved(s, r) && r.n == s.n
    ensures r.offsets == s.offsets[o := |s.buffer|] && r.buffer == s.buffer + (ObjHeader(o) + t)
  {
    assert s.buffer + ObjHeader(o) + t == s.buffer + (ObjHeader(o) + t);
    Sent(Begun(s, o), t)
  }

  /** The reserved object is found at its offset; the others keep theirs. */
  lemma ReservedFound(s: Sink, o: nat, t: Bytes)
    requires SinkOk(s) && s.state != 2 && 1 <= o <= 2
    ensures Holds(Reserved(s, o, t).buffer, Reserved(s, o, t).offsets[o], ObjHeader(o) + t)
    ensures Continues(s, Reserved(s, o, t)) && (Filed(s) ==> Filed(Reserved(s, o, t)))
  {
    HoldsEnd(s.buffer, ObjHeader(o) + t);
    assert (s.buffer + (ObjHeader(o) + t))[..|s.buffer|] == s.buffer;
    FiledBegun(s, o);
    FiledSent(Begun(s, o), t);
  }

  /** _out() with no page open: t at the end of the buffer. */
  function Appended(s: Sink, t: Bytes): (r: Sink)
    requires SinkOk(s) && s.state != 2
    ensures SinkOk(r) && Moved(s, r) && r.n == s.n && r.offsets == s.offsets && r.buffer == s.buffer + t
  {
    Sent(s, t)
  }

  /** Appending keeps every object where it was. */
  lemma AppendedKeeps(s: Sink, t: Bytes)
    requires SinkOk(s) && s.state != 2
    ensures Continues(s, Appended(s, t)) && (Filed(s) ==> Filed(Appended(s, t)))
  {
    assert (s.buffer + t)[..|s.buffer|] == s.buffer;
    FiledSent(s, t);
  }

  /** The serializer changes only the buffer, the count and the offsets. */
  predicate Moved(a: Sink, b: Sink)
  {
    b.state == a.state && b.page == a.page && b.pages == a.pages
  }

  // ----------------------------------------------------------------- pages

  /** The first loop of _putPages(): str_replace() of the alias by the
      number of pages, page by page. */
  method ReplaceAlias(s: Sink, alias: Bytes) returns (r: Sink)
    requires SinkOk(s)
    ensures r == s.(pages := Aliased(s.pages, alias, s.page))
  {
    var nb := s.page;
    r := s;
    var p := 0;
    while p < nb
      invariant 0 <= p <= nb && |r.pages| == nb && r == s.(pages := r.pages)
      invariant forall q :: 0 <= q < p ==> r.pages[q] == Replace(s.pages[q], alias, NatText(nb))
      invariant forall q :: p <= q < nb ==> r.pages[q] == s.pages[q]
    {
      r := r.(pages := r.pages[p := Replace(r.pages[p], alias, NatText(nb))]);
      p := p + 1;
    }
    assert r.pages == Aliased(s.pages, alias, nb);
  }

  /** Objects written one after the other from number n0 + 1: each
      with its header. */
  function Numbered(objs: seq<Bytes>, n0: nat): (r: seq<Bytes>)
    ensures |r| == |objs| && forall i :: 0 <= i < |objs| ==> r[i] == ObjHeader(n0 + i + 1) + objs[i]
  {
    seq(|objs|, i requires 0 <= i < |objs| => ObjHeader(n0 + i + 1) + objs[i])
  }

  /** The offsets after texts ts were written from position base as
      objects n0 + 1, n0 + 2 and so on: each object's offset is where its
      text starts. */
  function Placed(offsets: map<nat, nat>, base: nat, n0: nat, ts: seq<Bytes>): (r: map<nat, nat>)
    ensures forall j :: j in offsets ==> j in r
    decreases |ts|
  {
    if ts == [] then offsets
    else Placed(offsets, base, n0, ts[..|ts| - 1])[n0 + |ts| := base + |Concat(ts[..|ts| - 1])|]
  }

  /** Object n0 + q + 1 starts after the texts before it. */
  lemma {:induction false} PlacedAt(offsets: map<nat, nat>, base: nat, n0: nat, ts: seq<Bytes>, q: nat)
    requires q < |ts|
    ensures n0 + q + 1 in Placed(offsets, base, n0, ts)
    ensures Placed(offsets, base, n0, ts)[n0 + q + 1] == base + |Concat(ts[..q])|
    decreases |ts|
  {
    var m := |ts| - 1;
    if q < m {
      PlacedAt(offsets, base, n0, ts[..m], q);
      assert ts[..m][..q] == ts[..q];
    }
  }

  /** Writing one more text records its start under the next number. */
  lemma PlacedStep(offsets: map<nat, nat>, base: nat, n0: nat, ts: seq<Bytes>, i: nat, k: nat, v: nat)
    requires i < |ts| && k == n0 + i + 1 && v == base + |Concat(ts[..i])|
    ensures Placed(offsets, base, n0, ts[..i + 1]) == Placed(offsets, base, n0, ts[..i])[k := v]
  {
    assert ts[..i + 1][..i] == ts[..i];
  }

  /** Each object written from position base of buffer b0 is found at the
      offset Placed() records for it. */
  lemma PlacedHolds(b0: Bytes, offsets: map<nat, nat>, n0: nat, objs: seq<Bytes>, q: nat)
    requires q < |objs|
    ensures n0 + q + 1 in Placed(offsets, |b0|, n0, Numbered(objs, n0))
    ensures Holds(b0 + Concat(Numbered(objs, n0)), Placed(offsets, |b0|, n0, Numbered(objs, n0))[n0 + q + 1],
                  ObjHeader(n0 + q + 1) + objs[q])
  {
    var ts := Numbered(objs, n0);
    PlacedAt(offsets, |b0|, n0, ts, q);
    ConcatHolds(ts, q);
    HoldsShift(b0, Concat(ts), |Concat(ts[..q])|, ts[q]);
  }

  /** Offsets recorded for numbers up to n0 are kept. */
  lemma {:induction false} PlacedKeeps(offsets: map<nat, nat>, base: nat, n0: nat, ts: seq<Bytes>, j: nat)
    requires j in offsets && j <= n0
    ensures Placed(offsets, base, n0, ts)[j] == offsets[j]
    decreases |ts|
  {
    if ts != [] {
      PlacedKeeps(offsets, base, n0, ts[..|ts| - 1], j);
    }
  }

  /** The i-th object written from n0 + 1 is number k = n0 + i + 1. */
  lemma NumberedAt(objs: seq<Bytes>, n0: nat, i: nat, k: nat)
    requires i < |objs| && k == n0 + i + 1
    ensures Numbered(objs, n0)[i] == ObjHeader(k) + objs[i]
  {
  }

  /** The serializer's loops: each object as the next number, its offset
      the length of the buffer when its header is written.  Each object is
      then found at its offset, and the offsets recorded before keep
      their values. */
  method WriteObjects(s: Sink, objs: seq<Bytes>) returns (r: Sink)
    requires SinkOk(s) && s.state != 2
    ensures r == Wrote(s, objs)
    ensures Continues(s, r) && (Filed(s) ==> Filed(r))
  {
    ghost var ts := Numbered(objs, s.n);
    r := s;
    var i := 0;
    while i < |objs|
      invariant 0 <= i <= |objs| && SinkOk(r) && Moved(s, r) && r.n == s.n + i
      invariant r.buffer == s.buffer + Concat(ts[..i])
      invariant r.offsets == Placed(s.offsets, |s.buffer|, s.n, ts[..i])
      invariant Continues(s, r) && (Filed(s) ==> Filed(r))
    {
      ConcatStep(ts, i);
      PlacedStep(s.offsets, |s.buffer|, s.n, ts, i, NewObject(r, objs[i]).n, |r.buffer|);
      NewObjectFound(r, objs[i]);
      ContinuesTrans(s, r, NewObject(r, objs[i]));
      NumberedAt(objs, s.n, i, NewObject(r, objs[i]).n);
      Regroup(s.buffer, Concat(ts[..i]), ts[i]);
      r := NewObject(r, objs[i]);
      i := i + 1;
    }
    assert ts[..|objs|] == ts;
  }

  /** The sink once objs are written as objects s.n + 1, s.n + 2, ...:
      their texts, headed, at the end of the buffer, and the offset of
      each recorded under its number. */
  function Wrote(s: Sink, objs: seq<Bytes>): (r: Sink)
    requires SinkOk(s) && s.state != 2
    ensures SinkOk(r) && Moved(s, r) && r.n == s.n + |objs|
  {
    s.(n := s.n + |objs|, buffer := s.buffer + Concat(Numbered(objs, s.n)),
       offsets := Placed(s.offsets, |s.buffer|, s.n, Numbered(objs, s.n)))
  }

  /** Object q of the list, number k, is found at the offset recorded for
      k, and the offsets recorded before for numbers up to s.n are kept. */
  lemma WroteFound(s: Sink, objs: seq<Bytes>, q: nat, k: nat)
    requires SinkOk(s) && s.state != 2 && q < |objs| && k == s.n + q + 1
    ensures k in Wrote(s, objs).offsets
    ensures Holds(Wrote(s, objs).buffer, Wrote(s, objs).offsets[k], ObjHeader(k) + objs[q])
  {
    PlacedHolds(s.buffer, s.offsets, s.n, objs, q);
  }

  // ------------------------------------------------------------ _putPages

  /** The sink after _putPages(): the alias replaced in every page when
      there is one, each page written as its dictionary and its content
      stream, then the page tree root as object 1. */
  function PagesWritten(s: Sink, e: PageEnv, alias: Bytes, w: Bytes, h: Bytes): (r: Sink)
    requires SinkOk(s) && s.state != 2
    ensures SinkOk(r) && r.state == s.state && r.page == s.page && r.n == s.n + 2 * s.page
    ensures r.pages == FinalPages(s.pages, alias, s.page) && 1 in r.offsets
  {
    var s1 := s.(pages := FinalPages(s.pages, alias, s.page));
    Reserved(Wrote(s1, PageList(e, s1.pages, s.n)), 1, PagesRoot(s.page, w, h))
  }

  /** _putPages(). */
  method PutPages(s: Sink, e: PageEnv, alias: Bytes, w: Bytes, h: Bytes) returns (r: Sink)
    requires SinkOk(s) && s.state != 2
    ensures r == PagesWritten(s, e, alias, w, h)
    ensures Continues(s, r) && (Filed(s) ==> Filed(r))
  {
    r := s;
    if Truthy(alias) {
      r := ReplaceAlias(s, alias);
    }
    r := WriteObjects(r, PageList(e, r.pages, r.n));
    ReservedFound(r, 1, PagesRoot(s.page, w, h));
    ContinuesTrans(s, r, Reserved(r, 1, PagesRoot(s.page, w, h)));
    r := Reserved(r, 1, PagesRoot(s.page, w, h));
  }

  /** An object written by the serializer's loop is still found at its
      offset once a reserved object follows. */
  lemma WroteThenReserved(s: Sink, objs: seq<Bytes>, o: nat, t: Bytes, q: nat, k: nat)
    requires SinkOk(s) && s.state != 2 && 1 <= o <= 2 && q < |objs| && k == s.n + q + 1
    ensures k in Reserved(Wrote(s, objs), o, t).offsets
    ensures Holds(Reserved(Wrote(s, objs), o, t).buffer, Reserved(Wrote(s, objs), o, t).offsets[k], ObjHeader(k) + objs[q])
  {
    var w := Wrote(s, objs);
    WroteFound(s, objs, q, k);
    HoldsExtend(w.buffer, w.offsets[k], ObjHeader(k) + objs[q], ObjHeader(o) + t);
  }

  /** Page p's dictionary is found at the offset of its number. */
  lemma PageFound(s: Sink, e: PageEnv, alias: Bytes, w: Bytes, h: Bytes, p: nat, o: nat)
    requires SinkOk(s) && s.state != 2 && 1 <= p <= s.page && o == PageSlot(s.n, p)
    ensures o in PagesWritten(s, e, alias, w, h).offsets
    ensures Holds(PagesWritten(s, e, alias, w, h).buffer, PagesWritten(s, e, alias, w, h).offsets[o],
                  ObjHeader(o) + PageBody(e, p, o))
  {
    var s1 := s.(pages := FinalPages(s.pages, alias, s.page));
    var objs := PageList(e, s1.pages, s.n);
    PageListAt(e, s1.pages, s.n, p);
    assert objs[2 * p - 2] == PageBody(e, p, o);
    WroteThenReserved(s1, objs, 1, PagesRoot(s.page, w, h), 2 * p - 2, o);
    assert PagesWritten(s, e, alias, w, h) == Reserved(Wrote(s1, objs), 1, PagesRoot(s.page, w, h));
  }

  /** Page p's content stream is found at the offset of the number after
      its dictionary's, the one its /Contents names. */
  lemma ContentFound(s: Sink, e: PageEnv, alias: Bytes, w: Bytes, h: Bytes, p: nat, o: nat)
    requires SinkOk(s) && s.state != 2 && 1 <= p <= s.page && o == PageSlot(s.n, p) + 1
    ensures o in PagesWritten(s, e, alias, w, h).offsets
    ensures Holds(PagesWritten(s, e, alias, w, h).buffer, PagesWritten(s, e, alias, w, h).offsets[o],
                  ObjHeader(o) + ContentBody(e, FinalPages(s.pages, alias, s.page)[p - 1]))
  {
    var s1 := s.(pages := FinalPages(s.pages, alias, s.page));
    var objs := PageList(e, s1.pages, s.n);
    PageListAt(e, s1.pages, s.n, p);
    assert objs[2 * p - 1] == ContentBody(e, s1.pages[p - 1]);
    WroteThenReserved(s1, objs, 1, PagesRoot(s.page, w, h), 2 * p - 1, o);
    assert PagesWritten(s, e, alias, w, h) == Reserved(Wrote(s1, objs), 1, PagesRoot(s.page, w, h));
  }

  /** The page tree root is found at the offset of object 1. */
  lemma RootFound(s: Sink, e: PageEnv, alias: Bytes, w: Bytes, h: Bytes)
    requires SinkOk(s) && s.state != 2
    ensures 1 in PagesWritten(s, e, alias, w, h).offsets
    ensures Holds(PagesWritten(s, e, alias, w, h).buffer, PagesWritten(s, e, alias, w, h).offsets[1],
                  ObjHeader(1) + PagesRoot(s.page, w, h))
  {
    var s1 := s.(pages := FinalPages(s.pages, alias, s.page));
    ReservedFound(Wrote(s1, PageList(e, s1.pages, s.n)), 1, PagesRoot(s.page, w, h));
  }

  /** In a document whose first page is object 3 (the serializer started
      right after the reserved objects 1 and 2), the root's /Kids names
      every page dictionary, in page order. */
  lemma KidsFound(s: Sink, e: PageEnv, alias: Bytes, w: Bytes, h: Bytes)
    requires SinkOk(s) && s.state != 2 && s.n == 2
    ensures |KidRefs(KidsList(0, s.page))| == s.page
    ensures forall p :: 1 <= p <= s.page ==> KidRefs(KidsList(0, s.page))[p - 1] == PageSlot(s.n, p)
  {
    KidsArePages(0, s.page);
  }

  /** Writing more objects keeps every object written before where it
      was found. */
  lemma WroteKeeps(s: Sink, objs: seq<Bytes>, k: nat, t: Bytes)
    requires SinkOk(s) && s.state != 2 && k <= s.n && k in s.offsets && Holds(s.buffer, s.offsets[k], t)
    ensures k in Wrote(s, objs).offsets && Wrote(s, objs).offsets[k] == s.offsets[k]
    ensures Holds(Wrote(s, objs).buffer, Wrote(s, objs).offsets[k], t)
  {
    PlacedKeeps(s.offsets, |s.buffer|, s.n, Numbered(objs, s.n), k);
    HoldsExtend(s.buffer, s.offsets[k], t, Concat(Numbered(objs, s.n)));
  }

  /** Object i of a list of objects, written as number k, is found at
      the offset of k. */
  lemma WroteAt(s: Sink, xs: seq<Obj>, i: nat, k: nat)
    requires SinkOk(s) && s.state != 2 && i < |xs| && k == s.n + i + 1
    ensures k in Wrote(s, Bodies(xs)).offsets
    ensures Holds(Wrote(s, Bodies(xs)).buffer, Wrote(s, Bodies(xs)).offsets[k], ObjHeader(k) + Body(xs[i]))
  {
    WroteFound(s, Bodies(xs), i, k);
  }

  // ------------------------------------------------------------ _putFonts

  /** The sink after the first loop of _putFonts(): the encodings. */
  function EncodingsWritten(s: Sink, reg: Registry): (r: Sink)
    requires SinkOk(s) && s.state != 2
    ensures SinkOk(r) && Moved(s, r) && r.n == s.n + |reg.diffs|
  {
    Wrote(s, Bodies(EncodingObjs(reg.diffs)))
  }

  /** The sink after the second loop: the font files, data being the bytes
      read for each. */
  function FilesWritten(s: Sink, reg: Registry, data: seq<Bytes>): (r: Sink)
    requires SinkOk(s) && s.state != 2 && |data| == |reg.files|
    ensures SinkOk(r) && Moved(s, r) && r.n == s.n + |reg.diffs| + |reg.files|
  {
    Wrote(EncodingsWritten(s, reg), Bodies(FileObjs(reg.files, data)))
  }

  /** The sink after _putFonts(): the fonts after the files. */
  function FontsWritten(s: Sink, reg: Registry, data: seq<Bytes>): (r: Sink)
    requires SinkOk(s) && s.state != 2 && |data| == |reg.files|
    ensures SinkOk(r) && Moved(s, r) && r.n == FontsEnd(reg, s.n)
  {
    FontObjListLength(reg, s.n);
    Wrote(FilesWritten(s, reg, data), Bodies(FontObjList(reg, s.n)))
  }

  /** Three runs of objects written one after the other. */
  method WriteInTurn(s: Sink, a: seq<Bytes>, b: seq<Bytes>, c: seq<Bytes>) returns (r: Sink)
    requires SinkOk(s) && s.state != 2
    ensures r == Wrote(Wrote(Wrote(s, a), b), c)
    ensures Continues(s, r) && (Filed(s) ==> Filed(r))
  {
    var s1 := WriteObjects(s, a);
    var s2 := WriteObjects(s1, b);
    r := WriteObjects(s2, c);
    ContinuesTrans(s, s1, s2);
    ContinuesTrans(s, s2, r);
  }

  /** _putFonts(): a font file that cannot be read, or a font of a type it
      cannot write, stops it with its message; otherwise its three loops
      write the encodings, the font files and the fonts, and number the
      files and the fonts. */
  method PutFonts(s: Sink, reg: Registry, read: Bytes -> Option<Bytes>) returns (r: Sink, reg1: Registry, out: Outcome)
    requires SinkOk(s) && s.state != 2
    ensures FontsCheck(reg, read).Err? ==> out == Fail(FontsCheck(reg, read).msg) && r == s && reg1 == reg
    ensures FontsCheck(reg, read).Ok? ==>
              out == Pass && r == FontsWritten(s, reg, FontsCheck(reg, read).value)
              && reg1 == FontsNumberedFrom(reg, s.n)
    ensures Continues(s, r) && (Filed(s) ==> Filed(r))
  {
    var data := FontsCheck(reg, read);
    if data.Err? {
      return s, reg, Fail(data.msg);
    }
    r := WriteInTurn(s, Bodies(EncodingObjs(reg.diffs)), Bodies(FileObjs(reg.files, data.value)),
                     Bodies(FontObjList(reg, s.n)));
    reg1 := FontsNumberedFrom(reg, s.n);
    out := Pass;
  }

  /** The encoding of differences d (1-based, the diffn of the fonts that
      use it) is found at the offset of object s.n + d, the number the
      fonts' /Encoding names. */
  lemma EncodingFound(s: Sink, reg: Registry, data: seq<Bytes>, d: nat, k: nat)
    requires SinkOk(s) && s.state != 2 && |data| == |reg.files| && 1 <= d <= |reg.diffs| && k == s.n + d
    ensures k in FontsWritten(s, reg, data).offsets
    ensures Holds(FontsWritten(s, reg, data).buffer, FontsWritten(s, reg, data).offsets[k],
                  ObjHeader(k) + EncodingBody(reg.diffs[d - 1]))
  {
    var s1 := EncodingsWritten(s, reg);
    var s2 := FilesWritten(s, reg, data);
    WroteAt(s, EncodingObjs(reg.diffs), d - 1, k);
    WroteKeeps(s1, Bodies(FileObjs(reg.files, data)), k, ObjHeader(k) + EncodingBody(reg.diffs[d - 1]));
    WroteKeeps(s2, Bodies(FontObjList(reg, s.n)), k, ObjHeader(k) + EncodingBody(reg.diffs[d - 1]));
  }

  /** Font file t is found at the offset of the number _putFonts() gave
      it, the one the descriptors' /FontFile names. */
  lemma FileFound(s: Sink, reg: Registry, data: seq<Bytes>, t: nat, k: nat)
    requires SinkOk(s) && s.state != 2 && |data| == |reg.files| && t < |reg.files|
    requires k == FontsNumberedFrom(reg, s.n).files[t].1.n
    ensures k in FontsWritten(s, reg, data).offsets
    ensures Holds(FontsWritten(s, reg, data).buffer, FontsWritten(s, reg, data).offsets[k],
                  ObjHeader(k) + Body(FileObjs(reg.files, data)[t]))
  {
    var s1 := EncodingsWritten(s, reg);
    var s2 := FilesWritten(s, reg, data);
    WroteAt(s1, FileObjs(reg.files, data), t, k);
    WroteKeeps(s2, Bodies(FontObjList(reg, s.n)), k, ObjHeader(k) + Body(FileObjs(reg.files, data)[t]));
  }

  /** Object j of font t (its dictionary, then for a Type1 or TrueType
      font its widths and its descriptor) is found at the offset of the
      font's number plus j: the numbers the dictionary's /Widths and
      /FontDescriptor and the resource dictionary's /F<i> name. */
  lemma FontFound(s: Sink, reg: Registry, data: seq<Bytes>, t: nat, j: nat, k: nat)
    requires SinkOk(s) && s.state != 2 && |data| == |reg.files| && t < |reg.fonts|
    requires j < FontSpan(reg.fonts[t].1.def.typ)
    requires k == FontsNumberedFrom(reg, s.n).fonts[t].1.n + j
    ensures k in FontsWritten(s, reg, data).offsets
    ensures Holds(FontsWritten(s, reg, data).buffer, FontsWritten(s, reg, data).offsets[k],
                  ObjHeader(k) + Body(FontObjs(reg.fonts[t].1, FontsNumberedFrom(reg, s.n).files, s.n, FontsNumberedFrom(reg, s.n).fonts[t].1.n)[j]))
  {
    FontObjListAt(reg, s.n, t, j);
    FontNumberAt(reg, s.n, t);
    WroteAt(FilesWritten(s, reg, data), FontObjList(reg, s.n), FontsSpan(reg.fonts[..t]) + j, k);
  }

  // ----------------------------------------------------------- _putImages

  /** The sink after _putImages(): each image, its soft mask and its
      palette, image after image. */
  function ImagesWritten(s: Sink, reg: Registry, compress: bool, zip: Bytes -> Bytes): (r: Sink)
    requires SinkOk(s) && s.state != 2
    ensures SinkOk(r) && Moved(s, r) && r.n == s.n + ImagesSpan(reg.images)
  {
    Wrote(s, Bodies(ImageObjList(reg, s.n, compress, zip)))
  }

  /** _putImages(): the images written and numbered, their data and soft
      masks dropped from the registry. */
  method PutImages(s: Sink, reg: Registry, compress: bool, zip: Bytes -> Bytes) returns (r: Sink, reg1: Registry)
    requires SinkOk(s) && s.state != 2
    ensures r == ImagesWritten(s, reg, compress, zip)
    ensures reg1 == reg.(images := ImagesFrom(reg.images, s.n))
    ensures Continues(s, r) && (Filed(s) ==> Filed(r))
  {
    r := WriteObjects(s, Bodies(ImageObjList(reg, s.n, compress, zip)));
    reg1 := reg.(images := ImagesFrom(reg.images, s.n));
  }

  /** Image t is found at the offset of the number _putImages() gave it,
      the one the resource dictionary's /I<i> names. */
  lemma ImageFound(s: Sink, reg: Registry, compress: bool, zip: Bytes -> Bytes, t: nat, k: nat)
    requires SinkOk(s) && s.state != 2 && t < |reg.images| && k == ImagesFrom(reg.images, s.n)[t].1.n
    ensures k in ImagesWritten(s, reg, compress, zip).offsets
    ensures Holds(ImagesWritten(s, reg, compress, zip).buffer, ImagesWritten(s, reg, compress, zip).offsets[k],
                  ObjHeader(k) + ImageBody(reg.images[t].1.info, reg.images[t].1.f, k))
  {
    ImageObjListAt(reg, s.n, compress, zip, t);
    WroteAt(s, ImageObjList(reg, s.n, compress, zip), ImagesSpan(reg.images[..t]), k);
  }

  // -------------------------------------------------------- _putResources

  /** The registry as _putResources() leaves it: files and fonts numbered
      from n0, then the images after them. */
  function ResourcesNumbered(reg: Registry, n0: nat): (r: Registry)
    ensures RegNumbered(reg, r)
    ensures r.images == ImagesFrom(reg.images, FontsEnd(reg, n0))
  {
    var reg2 := FontsNumberedFrom(reg, n0);
    reg2.(images := ImagesFrom(reg.images, FontsEnd(reg, n0)))
  }

  /** The sink after _putResources(): the fonts, the images, then the
      resource dictionary as object 2, naming every font and image by the
      number it was just given. */
  function ResourcesWritten(s: Sink, reg: Registry, data: seq<Bytes>, compress: bool, zip: Bytes -> Bytes): (r: Sink)
    requires SinkOk(s) && s.state != 2 && |data| == |reg.files|
    ensures SinkOk(r) && Moved(s, r) && r.n == FontsEnd(reg, s.n) + ImagesSpan(reg.images)
    ensures 2 in r.offsets
  {
    var reg1 := ResourcesNumbered(reg, s.n);
    Reserved(ImagesWritten(FontsWritten(s, reg, data), FontsNumberedFrom(reg, s.n), compress, zip), 2,
             ResourceBody(reg1.fonts, ImageRefs(reg1.images)))
  }

  /** _putResources(): _putFonts() (which can fail), _putImages(), then the
      resource dictionary. */
  method PutResources(s: Sink, reg: Registry, read: Bytes -> Option<Bytes>, compress: bool, zip: Bytes -> Bytes)
    returns (r: Sink, reg1: Registry, out: Outcome)
    requires SinkOk(s) && s.state != 2
    ensures FontsCheck(reg, read).Err? ==> out == Fail(FontsCheck(reg, read).msg) && r == s && reg1 == reg
    ensures FontsCheck(reg, read).Ok? ==>
              out == Pass && r == ResourcesWritten(s, reg, FontsCheck(reg, read).value, compress, zip)
              && reg1 == ResourcesNumbered(reg, s.n)
    ensures Continues(s, r) && (Filed(s) ==> Filed(r))
  {
    var s1, reg2, o := PutFonts(s, reg, read);
    if o.Fail? {
      return s, reg, o;
    }
    var s2, reg3 := PutImages(s1, reg2, compress, zip);
    ContinuesTrans(s, s1, s2);
    ReservedFound(s2, 2, ResourceBody(reg3.fonts, ImageRefs(reg3.images)));
    r := Reserved(s2, 2, ResourceBody(reg3.fonts, ImageRefs(reg3.images)));
    ContinuesTrans(s, s2, r);
    reg1 := reg3;
    out := Pass;
  }

  // -------------------------------------------------------------- _endDoc

  /** What _endDoc() writes besides the pages and the resources: the page
      environment and the alias of _putPages(), the default page size as
      written in the root's /MediaBox, compression and zlib, the version of
      the header, and the entries of the info and catalog dictionaries. */
  datatype Closing = Closing(env: PageEnv, alias: Bytes, w: Bytes, h: Bytes, compress: bool,
                             zip: Bytes -> Bytes, version: Bytes, info: Bytes, catalog: Bytes)

  /** The sink after _putHeader() and _putPages(). */
  function PagesDone(s: Sink, c: Closing): (r: Sink)
    requires SinkOk(s) && s.state != 2
    ensures SinkOk(r) && r.state == s.state && r.page == s.page && r.n == s.n + 2 * s.page && 1 in r.offsets
  {
    PagesWritten(Appended(s, Lf(PdfHead + c.version)), c.env, c.alias, c.w, c.h)
  }

  /** _putHeader() and _putPages(). */
  method PutHeadAndPages(s: Sink, c: Closing) returns (r: Sink)
    requires SinkOk(s) && s.state != 2
    ensures r == PagesDone(s, c)
    ensures Continues(s, r) && (Filed(s) ==> Filed(r))
  {
    var h := Lf(PdfHead + c.version);
    AppendedKeeps(s, h);
    var s0 := Appended(s, h);
    r := PutPages(s0, c.env, c.alias, c.w, c.h);
    ContinuesTrans(s, s0, r);
  }

  /** After the resources b: the info dictionary, then the catalog. */
  function Catalogued(b: Sink, c: Closing): (r: Sink)
    requires SinkOk(b) && b.state != 2
    ensures SinkOk(r) && r.state == b.state && r.page == b.page && r.n == b.n + 2
    ensures forall i :: i in b.offsets ==> i in r.offsets
  {
    NewObject(NewObject(b, DictBody(c.info)), DictBody(c.catalog))
  }

  /** The closed document, b being the sink after the catalog: the xref
      section, the trailer giving its offset, then state 3. */
  function Closed(b: Sink): (r: Sink)
    requires SinkOk(b) && b.state != 2
    ensures SinkOk(r) && r.state == 3 && r.page == b.page && r.n == b.n && r.offsets == b.offsets
  {
    Appended(Appended(b, XrefSection(b.offsets, b.n)), TrailerText(b.n, |b.buffer|)).(state := 3)
  }

  /** The closed document is the sink b followed by the xref section,
      which starts where the trailer's startxref says, and the trailer;
      nothing written before moves. */
  lemma ClosedLayout(b: Sink)
    requires SinkOk(b) && b.state != 2
    ensures Closed(b).buffer == b.buffer + XrefSection(b.offsets, b.n) + TrailerText(b.n, |b.buffer|)
    ensures Holds(Closed(b).buffer, |b.buffer|, XrefSection(b.offsets, b.n))
    ensures Continues(b, Closed(b)) && (Filed(b) ==> Filed(Closed(b)))
  {
    var x := Appended(b, XrefSection(b.offsets, b.n));
    AppendedKeeps(b, XrefSection(b.offsets, b.n));
    AppendedKeeps(x, TrailerText(b.n, |b.buffer|));
    ContinuesTrans(b, x, Appended(x, TrailerText(b.n, |b.buffer|)));
    HoldsEnd(b.buffer, XrefSection(b.offsets, b.n));
    HoldsExtend(x.buffer, |b.buffer|, XrefSection(b.offsets, b.n), TrailerText(b.n, |b.buffer|));
  }

  /** After the catalog, the last object is the catalog and the one before
      it the info dictionary, the objects the trailer will name as /Root
      and /Info; the objects of b stay where they were. */
  lemma CatalogFound(b: Sink, c: Closing)
    requires SinkOk(b) && b.state != 2
    ensures var a := Catalogued(b, c);
            a.n in a.offsets && a.n - 1 in a.offsets
            && Holds(a.buffer, a.offsets[a.n], ObjHeader(a.n) + DictBody(c.catalog))
            && Holds(a.buffer, a.offsets[a.n - 1], ObjHeader(a.n - 1) + DictBody(c.info))
    ensures Continues(b, Catalogued(b, c)) && (Filed(b) ==> Filed(Catalogued(b, c)))
  {
    var s3 := NewObject(b, DictBody(c.info));
    var s4 := NewObject(s3, DictBody(c.catalog));
    NewObjectFound(b, DictBody(c.info));
    NewObjectFound(s3, DictBody(c.catalog));
    ContinuesTrans(b, s3, s4);
    ContinuesHolds(s3, s4, s4.offsets[s4.n - 1], ObjHeader(s4.n - 1) + DictBody(c.info));
  }

  /** A reader of the closed document a, for any object 1..n: the xref
      entry of that object, read as ten digits, is an offset where the
      object's header names it.  Objects 1 and 2 (the page tree and the
      resources) must be in the table and the rest filed; offsets fit ten
      digits when the file is under 10^10 bytes. */
  lemma DocReadable(a: Sink, i: nat)
    requires SinkOk(a) && a.state != 2 && Filed(a) && 1 in a.offsets && 2 in a.offsets
    requires |Closed(a).buffer| < 10000000000 && 1 <= i <= a.n
    ensures var buf := Closed(a).buffer;
            var p := EntryPos(|a.buffer|, a.n, i);
            i in a.offsets && p + 10 <= |buf| && AllDigits(buf[p..p + 10])
            && DigitsValue(buf[p..p + 10]) == a.offsets[i]
            && a.offsets[i] <= |buf| && HeaderNumber(buf, a.offsets[i]) == i
  {
    ClosedLayout(a);
    var buf := Closed(a).buffer;
    assert XrefPoints(buf, a.offsets);
    forall k | k in a.offsets
      ensures a.offsets[k] < 10000000000
    {
      assert Holds(buf, a.offsets[k], ObjHeader(k));
    }
    ReaderFindsObject(buf, a.offsets, a.n, |a.buffer|, i);
    var p := EntryPos(|a.buffer|, a.n, i);
    assert AllDigits(buf[p..p + 10]) && DigitsValue(buf[p..p + 10]) == a.offsets[i];
  }

  /** The loop of _endDoc() that writes the xref section: the subsection
      header and the free entry, then one entry per object 1..n. */
  method PutXref(s: Sink) returns (r: Sink)
    requires SinkOk(s) && s.state != 2
    ensures r == Appended(s, XrefSection(s.offsets, s.n))
    ensures Continues(s, r) && (Filed(s) ==> Filed(r))
  {
    AppendedKeeps(s, XrefUpTo(s.offsets, s.n, 0));
    r := Appended(s, XrefUpTo(s.offsets, s.n, 0));
    var i := 1;
    while i <= s.n
      invariant 1 <= i <= s.n + 1 && SinkOk(r) && r == s.(buffer := r.buffer)
      invariant r.buffer == s.buffer + XrefUpTo(s.offsets, s.n, i - 1)
      invariant Continues(s, r) && (Filed(s) ==> Filed(r))
    {
      var t := XrefEntry(OffsetOf(r.offsets, i));
      XrefUpToSnoc(s.offsets, s.n, i - 1);
      AppendedKeeps(r, t);
      ContinuesTrans(s, r, Appended(r, t));
      Regroup(s.buffer, XrefUpTo(s.offsets, s.n, i - 1), t);
      r := Appended(r, t);
      i := i + 1;
    }
  }

  /** The end of _endDoc() after the resources b: the info and catalog
      objects, the xref section and the trailer; state 3. */
  method Finish(b: Sink, c: Closing) returns (r: Sink)
    requires SinkOk(b) && b.state != 2
    ensures r == Closed(Catalogued(b, c))
    ensures Continues(b, r) && (Filed(b) ==> Filed(r))
  {
    var s3 := NewObject(b, DictBody(c.info));
    NewObjectFound(b, DictBody(c.info));
    var s4 := NewObject(s3, DictBody(c.catalog));
    NewObjectFound(s3, DictBody(c.catalog));
    ContinuesTrans(b, s3, s4);
    var x := PutXref(s4);
    ContinuesTrans(b, s4, x);
    var t := TrailerText(s4.n, |s4.buffer|);
    AppendedKeeps(x, t);
    ContinuesTrans(b, x, Appended(x, t));
    r := Appended(x, t).(state := 3);
  }

  /** What _endDoc() leaves, from the sink s, the settings c, the
      registry reg and the file reader read: p is the sink after the header
      and the pages, and the rest follows from p (RestDone). */
  ghost predicate EndDocDone(s: Sink, c: Closing, reg: Registry, read: Bytes -> Option<Bytes>,
                             r: Sink, reg1: Registry, out: Outcome, p: Sink, b: Sink)
    requires SinkOk(s) && s.state != 2
  {
    p == PagesDone(s, c) && RestDone(p, c, reg, read, r, reg1, out, b)
  }

  /** What _endDoc() leaves after the pages p: when a font file cannot be
      read or a font type is unsupported, the failure with p as it was and
      nothing numbered; otherwise b is the sink after the resources, the
      registry is numbered, and the document is closed after b with the
      info, the catalog, the xref section and the trailer. */
  ghost predicate RestDone(p: Sink, c: Closing, reg: Registry, read: Bytes -> Option<Bytes>,
                           r: Sink, reg1: Registry, out: Outcome, b: Sink)
    requires SinkOk(p) && p.state != 2
  {
    && (FontsCheck(reg, read).Err? ==> out == Fail(FontsCheck(reg, read).msg) && r == p && reg1 == reg)
    && (FontsCheck(reg, read).Ok? ==>
          out == Pass && reg1 == ResourcesNumbered(reg, p.n)
          && b == ResourcesWritten(p, reg, FontsCheck(reg, read).value, c.compress, c.zip)
          && r == Closed(Catalogued(b, c)))
  }

  /** _endDoc(): the header, the pages, the resources (an unreadable font
      file or an unsupported font type fails there), the info and catalog
      dictionaries, the xref section and the trailer; the document is then
      closed.  Objects 1 and 2 are in the table once the resources are
      written, and what was filed stays filed. */
  method EndDoc(s: Sink, c: Closing, reg: Registry, read: Bytes -> Option<Bytes>)
    returns (r: Sink, reg1: Registry, out: Outcome, ghost p: Sink, ghost b: Sink)
    requires SinkOk(s) && s.state != 2
    ensures EndDocDone(s, c, reg, read, r, reg1, out, p, b)
    ensures (out.Pass? <==> FontsCheck(reg, read).Ok?) && (out.Fail? ==> out.msg == FontsCheck(reg, read).msg)
    ensures SinkOk(r) && r.page == s.page && r.state == (if out.Pass? then 3 else s.state)
    ensures out.Pass? ==> 1 in b.offsets && 2 in b.offsets && (Filed(s) ==> Filed(b))
    ensures out.Pass? ==> RegNumbered(reg, reg1)
    ensures out.Fail? ==> reg1 == reg
    ensures Continues(s, r) && (Filed(s) ==> Filed(r))
  {
    var s1 := PutHeadAndPages(s, c);
    p := s1;
    r, reg1, out, b := PutRest(s1, c, reg, read);
    ContinuesTrans(s, s1, r);
    ContinuesTrans(s, s1, b);
  }

  /** _endDoc() as the document class keeps track of it: the outcome,
      the state and page count, the registry numbered or kept, the offsets
      kept filed.  The bytes written are those of EndDoc, which it runs. */
  method EndDocument(s: Sink, c: Closing, reg: Registry, read: Bytes -> Option<Bytes>)
    returns (r: Sink, reg1: Registry, out: Outcome)
    requires SinkOk(s) && s.state != 2
    ensures (out.Pass? <==> FontsCheck(reg, read).Ok?) && (out.Fail? ==> out.msg == FontsCheck(reg, read).msg)
    ensures SinkOk(r) && r.page == s.page && r.state == (if out.Pass? then 3 else s.state)
    ensures out.Pass? ==> RegNumbered(reg, reg1)
    ensures out.Fail? ==> reg1 == reg
    ensures Continues(s, r) && (Filed(s) ==> Filed(r))
  {
    ghost var p, b;
    r, reg1, out, p, b := EndDoc(s, c, reg, read);
  }

  /** What _enddoc() does after the pages: the resources, then, unless
      they fail, the info, the catalog, the xref section and the trailer. */
  method PutRest(p: Sink, c: Closing, reg: Registry, read: Bytes -> Option<Bytes>)
    returns (r: Sink, reg1: Registry, out: Outcome, ghost b: Sink)
    requires SinkOk(p) && p.state != 2
    ensures RestDone(p, c, reg, read, r, reg1, out, b)
    ensures (out.Pass? <==> FontsCheck(reg, read).Ok?) && (out.Fail? ==> out.msg == FontsCheck(reg, read).msg)
    ensures SinkOk(r) && r.page == p.page && r.state == (if out.Pass? then 3 else p.state)
    ensures Continues(p, b) && (Filed(p) ==> Filed(b)) && (out.Pass? ==> 2 in b.offsets)
    ensures Continues(p, r) && (Filed(p) ==> Filed(r))
  {
    var s1, o;
    s1, reg1, o := PutResources(p, reg, read, c.compress, c.zip);
    b := s1;
    if o.Fail? {
      return p, reg, o, b;
    }
    r := Finish(s1, c);
    ContinuesTrans(p, s1, r);
    out := Pass;
  }
}
