/**
 * Font bookkeeping shared by FPDF's addFont() and setFont(): the font
 * definition record a font file provides, the registry entry the document
 * keeps for it, and the normalisation of family and style names into the
 * registry key.
 */
module Fonts {
  import opened Common
  import opened PdfText

  /** What a font definition file provides (its variables $type, $name, $cw,
      $up, $ut, $desc, $diff, $file, $originalsize, $size1, $size2). */
  datatype FontDef = FontDef(typ: Bytes, name: Bytes, cw: WidthTable, up: int, ut: int,
                             desc: seq<(Bytes, Bytes)>, diff: Bytes, file: Bytes,
                             originalsize: nat, size1: nat, size2: nat)

  /** A registered font: its definition, its 1-based index i (the /F<i>
      resource name), the index of its encoding differences if it has any,
      and the object number it is given when the document is written (0
      until then). */
  datatype FontEntry = FontEntry(def: FontDef, i: nat, diffn: Option<nat>, n: nat)

  /** What the document remembers of an embedded font file, and its object
      number once written (0 until then). */
  datatype FontFile = FontFile(length1: nat, length2: Option<nat>, n: nat)

  /** The fourteen standard fonts come in these five families. */
  const CoreFonts: seq<Bytes> := ["courier", "helvetica", "times", "symbol", "zapfdingbats"]

  /** Style as addFont() normalises it: upper case, with IB written BI. */
  function NormStyle(style: Bytes): (r: Bytes)
    ensures r != "IB" && |r| == |style|
    ensures r == "BI" <==> Upper(style) == "IB" || Upper(style) == "BI"
    ensures r != "BI" ==> r == Upper(style)
  {
    var u := Upper(style);
    if u == "IB" then "BI" else u
  }

  /** The registry key addFont() files a font under. */
  function FontKey(family: Bytes, style: Bytes): Bytes
  {
    Lower(family) + NormStyle(style)
  }

  /** The definition file addFont() loads when none is given: the family
      without spaces, then the style, in lower case, then ".php". */
  function DefaultFile(family: Bytes, style: Bytes): (r: Bytes)
    ensures |r| >= 4 && r[|r| - 4..] == ".php"
    ensures ' ' !in style ==> ' ' !in r
    ensures forall c :: 'A' <= c <= 'Z' ==> c !in r
  {
    var f := RemoveByte(Lower(family), ' ');
    RemoveByteKeeps(Lower(family), ' ');
    var t := Lower(style);
    var r := f + t + ".php";
    assert forall c :: 'A' <= c <= 'Z' ==> c !in Lower(family);
    assert forall c :: 'A' <= c <= 'Z' ==> c !in f;
    r
  }

  /** How setFont() reads a style: upper case; any U selects underlining
      and is removed; IB is written BI.  The result is the style proper
      and the underline flag. */
  function SelectStyle(style: Bytes): (r: (Bytes, bool))
    ensures NormalStyle(r.0)
    ensures r.1 <==> 'U' in Upper(style)
  {
    var u := Upper(style);
    UpperIsUpper(style);
    UpperRemove(u, 'U');
    var s := if 'U' in u then RemoveByte(u, 'U') else u;
    (if s == "IB" then "BI" else s, 'U' in u)
  }

  /** A style setFont() has already normalised. */
  predicate NormalStyle(style: Bytes)
  {
    IsUpper(style) && 'U' !in style && style != "IB"
  }

  lemma UpperRemove(s: Bytes, c: byte)
    requires IsUpper(s)
    ensures IsUpper(RemoveByte(s, c))
    decreases |s|
  {
    if s != [] {
      assert s[1..] == Upper(s)[1..];
      assert IsUpper(s[1..]);
      UpperRemove(s[1..], c);
    }
  }

  /** Re-selecting a normal style, with a U appended exactly when it was
      underlined, gives back the same style and flag: addPage() relies on
      this to restore the font of the previous page. */
  lemma SelectStyleRestores(style: Bytes, underline: bool)
    requires NormalStyle(style)
    ensures SelectStyle(style + (if underline then "U" else "")) == (style, underline)
  {
    var t := style + (if underline then "U" else "");
    assert Upper(t) == t;
    if underline {
      RemoveAppended(style, 'U');
      assert 'U' in t by { assert t[|style|] == 'U'; }
    } else {
      assert t == style;
    }
  }

  lemma {:induction false} RemoveAppended(s: Bytes, c: byte)
    requires c !in s
    ensures RemoveByte(s + [c], c) == s
    decreases |s|
  {
    if s == [] {
      assert RemoveByte([c], c) == [] + RemoveByte([], c);
    } else {
      var t := s + [c];
      assert t[0] == s[0] != c && t[1..] == s[1..] + [c];
      RemoveAppended(s[1..], c);
      assert RemoveByte(t, c) == [s[0]] + RemoveByte(t[1..], c);
      assert s == [s[0]] + s[1..];
    }
  }

  /** The case of a style does not matter to setFont(). */
  lemma StyleCase(style: Bytes)
    ensures SelectStyle(Lower(style)) == SelectStyle(style) == SelectStyle(Upper(style))
  {
    CaseFolds(style);
    UpperIsUpper(style);
  }

  /** The style a set of distinct letters B and I reads as: bold before
      italic. */
  function StyleOf(bold: bool, italic: bool): Bytes
  {
    (if bold then "B" else "") + (if italic then "I" else "")
  }

  /** Neither of B and I twice, and no other letter but U. */
  predicate StyleLetters(style: Bytes)
  {
    var u := Upper(style);
    (forall k :: 0 <= k < |u| ==> u[k] == 'B' || u[k] == 'I' || u[k] == 'U')
    && multiset(u)['B'] <= 1 && multiset(u)['I'] <= 1
  }

  /** The order of the letters of a style does not matter to setFont():
      any arrangement of B, I and U letters, in any case, selects bold
      and italic by whether B and I occur and underlining by whether U
      does. */
  lemma StyleOrder(style: Bytes)
    requires StyleLetters(style)
    ensures var m := multiset(Upper(style));
            SelectStyle(style) == (StyleOf(m['B'] == 1, m['I'] == 1), m['U'] > 0)
  {
    var u := Upper(style);
    var v := RemoveByte(u, 'U');
    RemoveByteCount(u, 'U');
    RemoveByteKeeps(u, 'U');
    if 'U' !in u {
      RemoveByteAbsent(u, 'U');
    }
    assert forall k :: 0 <= k < |v| ==> v[k] in u;
    BiLetters(v);
  }

  /** A text of distinct B and I letters, written BI for IB, is StyleOf
      its letters. */
  lemma BiLetters(v: Bytes)
    requires forall k :: 0 <= k < |v| ==> v[k] == 'B' || v[k] == 'I'
    requires multiset(v)['B'] <= 1 && multiset(v)['I'] <= 1
    ensures (if v == "IB" then "BI" else v) == StyleOf(multiset(v)['B'] == 1, multiset(v)['I'] == 1)
  {
    BiLettersFew(v);
    if |v| == 2 {
      assert multiset(v) == multiset{v[0], v[1]} by {
        assert v == [v[0], v[1]];
      }
      assert v[0] != v[1];
    } else if |v| == 1 {
      assert v == [v[0]];
    }
  }

  /** Distinct B and I letters are at most two. */
  lemma BiLettersFew(v: Bytes)
    requires forall k :: 0 <= k < |v| ==> v[k] == 'B' || v[k] == 'I'
    requires multiset(v)['B'] <= 1 && multiset(v)['I'] <= 1
    ensures |v| <= 2
  {
    if |v| >= 3 {
      FirstThree(v);
      assert false;
    }
  }

  lemma FirstThree(v: Bytes)
    requires |v| >= 3
    ensures multiset(v) == multiset{v[0], v[1], v[2]} + multiset(v[3..])
  {
    assert v == [v[0], v[1], v[2]] + v[3..];
  }

  /** Re-reading the style setFont() keeps changes nothing. */
  lemma StyleSettled(style: Bytes)
    ensures SelectStyle(SelectStyle(style).0) == (SelectStyle(style).0, false)
  {
    var r := SelectStyle(style).0;
    assert Upper(r) == r;
    RemoveByteAbsent(r, 'U');
  }

  /** The family setFont() looks for among the core fonts: Arial is
      Helvetica. */
  function CoreFamily(family: Bytes): Bytes
  {
    if family == "arial" then "helvetica" else family
  }

  /** Symbol and ZapfDingbats have no styles. */
  function CoreStyle(family: Bytes, style: Bytes): (r: Bytes)
    ensures (family == "symbol" || family == "zapfdingbats") ==> r == ""
    ensures !(family == "symbol" || family == "zapfdingbats") ==> r == style
  {
    if family == "symbol" || family == "zapfdingbats" then "" else style
  }

  /** A width table of zeros: what PHP reads from the width table of a font
      that is not there. */
  const NoWidths: WidthTable := Zeros(256)

  /** n zeros. */
  function Zeros(n: nat): (r: seq<int>)
    ensures |r| == n && forall i :: 0 <= i < n ==> r[i] == 0
  {
    if n == 0 then [] else Zeros(n - 1) + [0]
  }

  /** The 1-based position of diff in the list of encoding differences,
      if it is there (array_search on an array indexed from 1). */
  function DiffIndex(diffs: seq<Bytes>, diff: Bytes): (r: Option<nat>)
    ensures r.Some? ==> 1 <= r.value <= |diffs| && diffs[r.value - 1] == diff
    ensures r.None? <==> diff !in diffs
    ensures r.Some? ==> diff !in diffs[..r.value - 1]
  {
    if diffs == [] then None
    else if diffs[0] == diff then Some(1)
    else
      var n := DiffIndex(diffs[1..], diff);
      if n.Some? then
        assert diffs[..n.value] == [diffs[0]] + diffs[1..][..n.value - 1];
        Some(n.value + 1)
      else None
  }

  /** The fonts array: entries in the order addFont() registered them. */
  type FontTable = seq<(Bytes, FontEntry)>

  /** The embedded font files, keyed by file name, in registration order. */
  type FileTable = seq<(Bytes, FontFile)>

  /** The font registry as addFont() keeps it: each key once, indices 1, 2,
      ... in registration order, and encoding differences each listed once,
      indexed from 1, with every font pointing at its own. */
  ghost predicate Registered(fonts: FontTable, diffs: seq<Bytes>)
  {
    KeysDistinct(fonts)
    && (forall t :: 0 <= t < |fonts| ==> fonts[t].1.i == t + 1)
    && (forall t :: 0 <= t < |fonts| && fonts[t].1.diffn.Some? ==>
          1 <= fonts[t].1.diffn.value <= |diffs| && diffs[fonts[t].1.diffn.value - 1] == fonts[t].1.def.diff)
    && (forall a, b :: 0 <= a < b < |diffs| ==> diffs[a] != diffs[b])
  }

  /** Every font that embeds a file finds that file's entry. */
  ghost predicate FilesKnown(fonts: FontTable, files: FileTable)
  {
    KeysDistinct(files)
    && forall t :: 0 <= t < |fonts| && Truthy(fonts[t].1.def.file) ==> Find(files, fonts[t].1.def.file).Some?
  }

  /** The encoding-difference number addFont() gives a definition: the
      index of an equal difference string already listed, else the next
      free index; none when the definition has no differences. */
  function DiffSlot(diffs: seq<Bytes>, def: FontDef): (r: Option<nat>)
    ensures r.Some? <==> Truthy(def.diff)
    ensures r.Some? ==> 1 <= r.value <= |diffs| + 1
  {
    if !Truthy(def.diff) then None
    else
      var n := DiffIndex(diffs, def.diff);
      if n.Some? then n else Some(|diffs| + 1)
  }

  /** The list of differences after addFont(): a new string is appended. */
  function DiffsAfter(diffs: seq<Bytes>, def: FontDef): seq<Bytes>
  {
    if Truthy(def.diff) && DiffIndex(diffs, def.diff).None? then diffs + [def.diff] else diffs
  }

  /** What addFont() remembers of an embedded file: the original size of a
      TrueType file, the two segment sizes of a Type1 file. */
  function FileEntry(def: FontDef): FontFile
  {
    if def.typ == "TrueType" then FontFile(def.originalsize, None, 0)
    else FontFile(def.size1, Some(def.size2), 0)
  }

  /** The entry addFont() makes for a definition. */
  function NewEntry(fonts: FontTable, diffs: seq<Bytes>, def: FontDef): FontEntry
  {
    FontEntry(def, |fonts| + 1, DiffSlot(diffs, def), 0)
  }

  /** The file table after addFont(): an embedded file's entry is put under
      its name. */
  function FilesAfter(files: FileTable, def: FontDef): FileTable
  {
    if Truthy(def.file) then Put(files, def.file, FileEntry(def)) else files
  }

  /** Registering a font under a new key keeps the registry well formed:
      the new font gets index count + 1, and its differences, if any, are
      listed exactly once under the index it points at. */
  lemma {:induction false} RegisterKeeps(fonts: FontTable, diffs: seq<Bytes>, key: Bytes, def: FontDef)
    requires Registered(fonts, diffs) && Find(fonts, key).None?
    ensures Registered(fonts + [(key, NewEntry(fonts, diffs, def))], DiffsAfter(diffs, def))
  {
    var fonts1, diffs1 := fonts + [(key, NewEntry(fonts, diffs, def))], DiffsAfter(diffs, def);
    forall a, b | 0 <= a < b < |fonts1|
      ensures fonts1[a].0 != fonts1[b].0
    {
      if b == |fonts| {
        assert fonts1[a] == fonts[a];
      }
    }
    forall t | 0 <= t < |fonts1| && fonts1[t].1.diffn.Some?
      ensures 1 <= fonts1[t].1.diffn.value <= |diffs1| && diffs1[fonts1[t].1.diffn.value - 1] == fonts1[t].1.def.diff
    {
      if t < |fonts| {
        assert fonts1[t] == fonts[t];
      }
    }
    forall a, b | 0 <= a < b < |diffs1|
      ensures diffs1[a] != diffs1[b]
    {
      if b == |diffs| {
        assert diffs1[b] == def.diff && diffs1[a] == diffs[a];
      }
    }
  }

  /** Registering a font and its file keeps every embedded file findable. */
  lemma FilesStayKnown(fonts: FontTable, files: FileTable, key: Bytes, e: FontEntry)
    requires FilesKnown(fonts, files)
    ensures FilesKnown(fonts + [(key, e)], FilesAfter(files, e.def))
  {
    var fonts1, files1 := fonts + [(key, e)], FilesAfter(files, e.def);
    if Truthy(e.def.file) {
      PutKeeps(files, e.def.file, FileEntry(e.def));
    }
    forall t | 0 <= t < |fonts1| && Truthy(fonts1[t].1.def.file)
      ensures Find(files1, fonts1[t].1.def.file).Some?
    {
      var f := fonts1[t].1.def.file;
      if t < |fonts| {
        assert fonts1[t] == fonts[t];
        var p := Find(files, f).value;
        if Truthy(e.def.file) {
          assert files1[p].0 == f;
        }
      }
    }
  }

  /** A key built from a lower-case family and a normal style is the key
      addFont() files that family and style under. */
  lemma KeyOfNormal(family: Bytes, style: Bytes)
    requires IsLower(family) && NormalStyle(style)
    ensures FontKey(family, style) == family + style
  {
  }

  /** What setFont() falls back to is lower case and a normal style. */
  lemma CoreNormal(family: Bytes, style: Bytes)
    requires IsLower(family) && NormalStyle(style)
    ensures IsLower(CoreFamily(family)) && NormalStyle(CoreStyle(CoreFamily(family), style))
  {
    assert Lower("helvetica") == "helvetica";
    assert Upper("") == "";
  }
}
