/**
 * The file structure FPDF writes around its objects (section 7.5 of
 * ISO 32000-1): indirect object headers, the cross-reference table with
 * one 20-byte entry per object (section 7.5.4), the trailer (section
 * 7.5.5) and the page tree's /Kids array.
 */
module PdfObjects {
  import opened Common

  /** The line _newObj() writes: "n 0 obj" and the newline _out adds. */
  function ObjHeader(n: nat): (r: Bytes)
  {
    NatText(n) + " 0 obj\n"
  }

  /** t is found at position p of buf. */
  predicate Holds(buf: Bytes, p: nat, t: Bytes)
  {
    p + |t| <= |buf| && buf[p..p + |t|] == t
  }

  /** Text once written stays where it is when more is appended. */
  lemma HoldsExtend(buf: Bytes, p: nat, t: Bytes, more: Bytes)
    requires Holds(buf, p, t)
    ensures Holds(buf + more, p, t)
  {
    assert (buf + more)[p..p + |t|] == buf[p..p + |t|];
  }

  /** Text placed between a head and a tail is found right after the head. */
  lemma HoldsMiddle(a: Bytes, b: Bytes, t: Bytes, c: Bytes)
    ensures Holds(a + (b + (t + c)), |a + b|, t)
  {
    assert a + (b + (t + c)) == (a + b) + t + c;
    assert ((a + b) + t + c)[|a + b|..|a + b| + |t|] == t;
  }

  /** Text found in buf is found further on when buf is preceded by a. */
  lemma HoldsShift(a: Bytes, buf: Bytes, p: nat, t: Bytes)
    requires Holds(buf, p, t)
    ensures Holds(a + buf, |a| + p, t)
  {
    assert (a + buf)[|a| + p..|a| + p + |t|] == buf[p..p + |t|];
  }

  /** Appending c after b is appending b + c. */
  lemma Regroup(a: Bytes, b: Bytes, c: Bytes)
    ensures (a + b) + c == a + (b + c)
  {
  }

  /** Text appended is found where the buffer ended. */
  lemma HoldsEnd(a: Bytes, t: Bytes)
    ensures Holds(a + t, |a|, t)
  {
    assert (a + t)[|a|..|a| + |t|] == t;
  }

  /** The texts ts written one after the other. */
  function Concat(ts: seq<Bytes>): (r: Bytes)
  {
    if ts == [] then [] else Concat(ts[..|ts| - 1]) + ts[|ts| - 1]
  }

  /** Writing one more text extends the concatenation of the ones before. */
  lemma ConcatStep(ts: seq<Bytes>, m: nat)
    requires m < |ts|
    ensures Concat(ts[..m + 1]) == Concat(ts[..m]) + ts[m]
  {
    assert ts[..m + 1][..m] == ts[..m];
  }

  /** Text q of ts is found right after the texts before it. */
  lemma {:induction false} ConcatHolds(ts: seq<Bytes>, q: nat)
    requires q < |ts|
    ensures Holds(Concat(ts), |Concat(ts[..q])|, ts[q])
    decreases |ts|
  {
    if q == |ts| - 1 {
      HoldsEnd(Concat(ts[..q]), ts[q]);
    } else {
      var last := |ts| - 1;
      assert ts[..last][..q] == ts[..q];
      ConcatHolds(ts[..last], q);
      HoldsExtend(Concat(ts[..last]), |Concat(ts[..q])|, ts[q], ts[last]);
    }
  }

  /** Every recorded offset points at the header of its own object. */
  predicate XrefPoints(buf: Bytes, offsets: map<nat, nat>)
  {
    forall n :: n in offsets ==> Holds(buf, offsets[n], ObjHeader(n))
  }

  /** Appending keeps every offset pointing at its header. */
  lemma XrefExtend(buf: Bytes, offsets: map<nat, nat>, more: Bytes)
    requires XrefPoints(buf, offsets)
    ensures XrefPoints(buf + more, offsets)
  {
    forall n | n in offsets
      ensures Holds(buf + more, offsets[n], ObjHeader(n))
    {
      HoldsExtend(buf, offsets[n], ObjHeader(n), more);
    }
  }

  /** Recording the current length as the offset of object n and then
      writing its header keeps the table pointing at headers. */
  lemma XrefNew(buf: Bytes, offsets: map<nat, nat>, n: nat)
    requires XrefPoints(buf, offsets)
    ensures XrefPoints(buf + ObjHeader(n), offsets[n := |buf|])
  {
    XrefExtend(buf, offsets, ObjHeader(n));
    assert (buf + ObjHeader(n))[|buf|..|buf| + |ObjHeader(n)|] == ObjHeader(n);
  }

  /** The number a header names, read back as a PDF reader would: the
      digits up to the first space. */
  function HeaderNumber(buf: Bytes, p: nat): nat
    requires p <= |buf|
  {
    DigitsValue(LeadingDigits(buf[p..]))
  }

  /** A reader following an offset from the table finds the object it asked
      for: the header there names the same number. */
  lemma XrefNamesObject(buf: Bytes, offsets: map<nat, nat>, n: nat)
    requires XrefPoints(buf, offsets) && n in offsets
    ensures offsets[n] <= |buf| && HeaderNumber(buf, offsets[n]) == n
  {
    var p := offsets[n];
    var t := NatText(n);
    assert Holds(buf, p, ObjHeader(n));
    assert buf[p..][..|ObjHeader(n)|] == ObjHeader(n);
    LeadingDigitsOf(t, buf[p..]);
    NatTextRoundTrip(n);
  }

  lemma LeadingDigitsOf(t: Bytes, s: Bytes)
    requires AllDigits(t) && |t| + 1 <= |s| && s[..|t| + 1] == t + " "
    ensures LeadingDigits(s) == t
    decreases |t|
  {
    if t == [] {
      assert s[0] == (t + " ")[0] == ' ';
    } else {
      assert s[0] == t[0];
      assert s[1..][..|t|] == s[..|t| + 1][1..] == (t + " ")[1..] == t[1..] + " ";
      LeadingDigitsOf(t[1..], s[1..]);
    }
  }

  // ------------------------------------------------------------------ xref

  const InUse: Bytes := " 00000 n \n"

  /** One in-use entry: sprintf('%010d 00000 n ', offset) and a newline. */
  function XrefEntry(off: nat): Bytes
  {
    Pad10(off) + InUse
  }

  /** The offset recorded for object i; PHP reads a missing entry as
      null, which sprintf('%010d') writes as zero. */
  function OffsetOf(offsets: map<nat, nat>, i: nat): nat
  {
    if i in offsets then offsets[i] else 0
  }

  /** The entries of objects from..last in order. */
  function XrefEntries(offsets: map<nat, nat>, from: nat, last: nat): Bytes
    decreases last + 1 - from
  {
    if from > last then [] else XrefEntry(OffsetOf(offsets, from)) + XrefEntries(offsets, from + 1, last)
  }

  const XrefHead: Bytes := "xref\n0 "
  const FreeEntry: Bytes := "\n0000000000 65535 f \n"

  /** The xref section _endDoc() writes for objects 0..n: the subsection
      header, the free entry of object 0, and one entry per object. */
  function XrefSection(offsets: map<nat, nat>, n: nat): Bytes
  {
    XrefUpTo(offsets, n, n)
  }

  /** The xref section as far as the loop of _endDoc() has written it: the
      subsection header, the free entry and the entries of objects
      1..last. */
  function XrefUpTo(offsets: map<nat, nat>, n: nat, last: nat): Bytes
  {
    XrefHead + NatText(n + 1) + (FreeEntry + XrefEntries(offsets, 1, last))
  }

  /** One more turn of the loop appends the entry of object last + 1. */
  lemma XrefUpToSnoc(offsets: map<nat, nat>, n: nat, last: nat)
    ensures XrefUpTo(offsets, n, last + 1) == XrefUpTo(offsets, n, last) + XrefEntry(OffsetOf(offsets, last + 1))
  {
    XrefEntriesSnoc(offsets, 1, last);
    var h := XrefHead + NatText(n + 1);
    var e := XrefEntries(offsets, 1, last);
    var x := XrefEntry(OffsetOf(offsets, last + 1));
    assert h + (FreeEntry + (e + x)) == h + (FreeEntry + e) + x;
  }

  /** The loop of _endDoc() appends the entries one by one: the entries up
      to last + 1 are those up to last followed by the entry of last + 1. */
  lemma {:induction false} XrefEntriesSnoc(offsets: map<nat, nat>, from: nat, last: nat)
    requires from <= last + 1
    ensures XrefEntries(offsets, from, last + 1) == XrefEntries(offsets, from, last) + XrefEntry(OffsetOf(offsets, last + 1))
    decreases last + 1 - from
  {
    if from <= last {
      XrefEntriesSnoc(offsets, from + 1, last);
      assert XrefEntries(offsets, from, last + 1)
          == XrefEntry(OffsetOf(offsets, from)) + XrefEntries(offsets, from + 1, last + 1);
    }
  }

  /** Offsets that fit the ten-digit field. */
  predicate TenDigits(offsets: map<nat, nat>)
  {
    forall i :: i in offsets ==> offsets[i] < 10000000000
  }

  /** Each entry is 20 bytes long (section 7.5.4 of ISO 32000-1). */
  lemma XrefEntryLength(off: nat)
    requires off < 10000000000
    ensures |XrefEntry(off)| == 20
  {
    Pad10RoundTrip(off);
  }

  /** Where the entry of object i starts in the entries from..: twenty
      bytes for each entry before it. */
  function EntryAt(from: nat, i: nat): (r: nat)
    decreases i - from
  {
    if i <= from then 0 else 20 + EntryAt(from + 1, i)
  }

  lemma {:induction false} EntryAtIs(from: nat, i: nat)
    ensures EntryAt(from, i) == 20 * (if i <= from then 0 else i - from)
    decreases i - from
  {
    if i > from {
      EntryAtIs(from + 1, i);
    }
  }

  lemma {:induction false} XrefEntriesLength(offsets: map<nat, nat>, from: nat, last: nat)
    requires forall i :: from <= i <= last ==> i in offsets
    requires TenDigits(offsets)
    ensures |XrefEntries(offsets, from, last)| == EntryAt(from, last + 1)
    decreases last + 1 - from
  {
    if from <= last {
      XrefEntryLength(OffsetOf(offsets, from));
      XrefEntriesLength(offsets, from + 1, last);
    }
  }

  /** A reader that jumps to entry i (at 20 * (i - from)) and reads its ten
      digits gets the offset of object i back. */
  lemma XrefLookup(offsets: map<nat, nat>, from: nat, last: nat, i: nat)
    requires forall m :: from <= m <= last ==> m in offsets
    requires TenDigits(offsets) && from <= i <= last
    ensures var e := XrefEntries(offsets, from, last);
            var p := 20 * (i - from);
            p + 20 <= |e| && e[p..p + 10] == Pad10(offsets[i]) && DigitsValue(e[p..p + 10]) == offsets[i]
  {
    EntryAtIs(from, i);
    EntryAtIs(from, last + 1);
    EntryLookup(offsets, from, last, i);
    Pad10RoundTrip(offsets[i]);
  }

  lemma {:induction false} EntryLookup(offsets: map<nat, nat>, from: nat, last: nat, i: nat)
    requires forall m :: from <= m <= last ==> m in offsets
    requires TenDigits(offsets) && from <= i <= last
    ensures var e := XrefEntries(offsets, from, last);
            var p := EntryAt(from, i);
            p + 20 <= |e| && e[p..p + 10] == Pad10(offsets[i])
    decreases i - from
  {
    var head := XrefEntry(OffsetOf(offsets, from));
    var rest := XrefEntries(offsets, from + 1, last);
    assert XrefEntries(offsets, from, last) == head + rest;
    XrefEntryLength(OffsetOf(offsets, from));
    if i == from {
      FirstEntry(offsets[from], rest);
    } else {
      EntryLookup(offsets, from + 1, last, i);
      ShiftSlice(head, rest, EntryAt(from + 1, i), 10);
    }
  }

  lemma FirstEntry(off: nat, rest: Bytes)
    requires off < 10000000000
    ensures var e := XrefEntry(off) + rest; 20 <= |e| && e[0..10] == Pad10(off)
  {
    XrefEntryLength(off);
    Pad10RoundTrip(off);
    assert (XrefEntry(off) + rest)[0..10] == XrefEntry(off)[0..10];
  }

  lemma ShiftSlice(head: Bytes, rest: Bytes, q: nat, len: nat)
    requires q + len <= |rest|
    ensures (head + rest)[|head| + q..|head| + q + len] == rest[q..q + len]
  {
  }

  /** Where the ten digits of entry i start, for the xref section of
      objects 1..n written at x: after the subsection header, the free
      entry and twenty bytes per entry before it. */
  function EntryPos(x: nat, n: nat, i: nat): nat
    requires i >= 1
  {
    x + |XrefHead + NatText(n + 1)| + |FreeEntry| + 20 * (i - 1)
  }

  /** The xref section found at x in the buffer, over a table that has an
      offset for each of the objects 1..n and points each at its header: a
      reader that reads the ten digits of entry i (twenty bytes per entry,
      after the subsection header and the free entry) gets an offset where
      the header names object i. */
  lemma ReaderFindsObject(buf: Bytes, offsets: map<nat, nat>, n: nat, x: nat, i: nat)
    requires XrefPoints(buf, offsets) && TenDigits(offsets) && forall m :: 1 <= m <= n ==> m in offsets
    requires Holds(buf, x, XrefSection(offsets, n)) && 1 <= i <= n
    ensures var p := EntryPos(x, n, i);
            p + 10 <= |buf| && buf[p..p + 10] == Pad10(offsets[i])
            && AllDigits(buf[p..p + 10]) && DigitsValue(buf[p..p + 10]) == offsets[i]
            && offsets[i] <= |buf| && HeaderNumber(buf, offsets[i]) == i
  {
    var head := XrefHead + NatText(n + 1);
    assert XrefSection(offsets, n) == head + (FreeEntry + XrefEntries(offsets, 1, n));
    EntryInBuffer(buf, offsets, n, x, head, i);
    var p := EntryPos(x, n, i);
    var d := Pad10(offsets[i]);
    assert Holds(buf, p, d);
    Pad10RoundTrip(offsets[i]);
    assert buf[p..p + 10] == d;
    XrefNamesObject(buf, offsets, i);
  }

  /** Entry i of the entries found at x + |head| + |FreeEntry|, in the
      buffer. */
  lemma EntryInBuffer(buf: Bytes, offsets: map<nat, nat>, n: nat, x: nat, head: Bytes, i: nat)
    requires TenDigits(offsets) && forall m :: 1 <= m <= n ==> m in offsets
    requires Holds(buf, x, head + (FreeEntry + XrefEntries(offsets, 1, n))) && 1 <= i <= n
    ensures Holds(buf, x + |head| + |FreeEntry| + 20 * (i - 1), Pad10(offsets[i]))
  {
    XrefLookup(offsets, 1, n, i);
    HoldsInner(buf, x, head, FreeEntry, XrefEntries(offsets, 1, n), 20 * (i - 1), 10);
    Pad10RoundTrip(offsets[i]);
  }

  /** A slice of the last part of a text found at x. */
  lemma HoldsInner(buf: Bytes, x: nat, a: Bytes, b: Bytes, e: Bytes, q: nat, len: nat)
    requires Holds(buf, x, a + (b + e)) && q + len <= |e|
    ensures x + |a| + |b| + q + len <= |buf|
    ensures buf[x + |a| + |b| + q..x + |a| + |b| + q + len] == e[q..q + len]
  {
    var w := a + (b + e);
    var k := |a| + |b| + q;
    assert buf[x + k..x + k + len] == buf[x..x + |w|][k..k + len];
    assert w[k..k + len] == e[q..q + len];
  }

  // --------------------------------------------------------------- trailer

  const TrailerHead: Bytes := "trailer\n<<\n/Size "
  const RootKey: Bytes := "\n/Root "
  const InfoKey: Bytes := " 0 R\n/Info "
  const TrailerTail: Bytes := " 0 R\n>>\nstartxref\n"
  const Eof: Bytes := "\n%%EOF\n"

  /** What _endDoc() writes after the xref table: /Size is one more than the
      last object, /Root the last object (the catalog), /Info the one before
      it, then the offset of the xref table. */
  function TrailerText(n: nat, startxref: nat): Bytes
    requires n >= 1
  {
    TrailerHead + NatText(n + 1) + (RootKey + NatText(n) + (InfoKey
    + NatText(n - 1) + (TrailerTail + NatText(startxref) + Eof)))
  }

  // ------------------------------------------------------------ page tree

  /** The object number _putPages() gives page p (1-based): pages come
      first, as objects 3, 5, 7, ..., each followed by its content stream. */
  function PageObj(p: nat): nat
  {
    1 + 2 * p
  }

  /** The references of the /Kids array for the pages from..nb-1 (0-based),
      each "3+2i 0 R ". */
  function KidsList(from: nat, nb: nat): Bytes
    decreases nb - from
  {
    if from >= nb then [] else NatText(3 + 2 * from) + " 0 R " + KidsList(from + 1, nb)
  }

  /** The object numbers the /Kids array lists, read back from its text. */
  function KidRefs(t: Bytes): seq<nat>
    decreases |t|
  {
    var d := LeadingDigits(t);
    if d == [] || |t| < |d| + 5 then [] else [DigitsValue(d)] + KidRefs(t[|d| + 5..])
  }

  /** Reading one reference "d 0 R " off the front of the list. */
  lemma KidRefsCons(d: Bytes, rest: Bytes)
    requires d != [] && AllDigits(d)
    ensures KidRefs(d + " 0 R " + rest) == [DigitsValue(d)] + KidRefs(rest)
  {
    var t := d + " 0 R " + rest;
    assert t[..|d| + 1] == d + " ";
    LeadingDigitsOf(d, t);
    assert t[|d| + 5..] == rest;
  }

  /** The /Kids array names exactly the page objects, in page order. */
  lemma {:induction false} KidsArePages(from: nat, nb: nat)
    ensures |KidRefs(KidsList(from, nb))| == (if from >= nb then 0 else nb - from)
    ensures forall k :: 0 <= k < |KidRefs(KidsList(from, nb))| ==> KidRefs(KidsList(from, nb))[k] == PageObj(from + k + 1)
    decreases nb - from
  {
    if from < nb {
      var d := NatText(3 + 2 * from);
      var rest := KidsList(from + 1, nb);
      assert KidsList(from, nb) == d + " 0 R " + rest;
      NatTextRoundTrip(3 + 2 * from);
      KidRefsCons(d, rest);
      KidsArePages(from + 1, nb);
    } else {
      assert KidsList(from, nb) == [];
    }
  }
}
