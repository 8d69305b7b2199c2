/**
 * The line-breaking of FPDF's multiCell() and write(), as functions of the
 * text, the font's width table and the available width.  Each function
 * follows one loop iteration per call, with the loop's own variables as
 * parameters: i (current byte), j (start of the current line), l (its width
 * so far), sep (last space, -1 if none), ls (width before that space) and
 * ns (spaces so far).  The methods of the document class run the same loops
 * and are proved to emit exactly these lines.
 */
module Layout {
  import opened Common
  import opened PdfText

  /** Why a line ended: an explicit newline, the last space before the
      overflow, a break inside a word, the end of the text, or (write() only)
      a move to the next line without output. */
  datatype Break = Newline | AtSpace | Hard | Last | MoveDown

  /** A line s[start..end]; ns and ls are the loop's counters when it ended,
      first says whether it was laid out on the first line of write(). */
  datatype Line = Line(start: nat, end: nat, brk: Break, ns: nat, ls: int, first: bool)

  /** The bytes a line shows. */
  function Text(s: Bytes, ln: Line): Bytes
  {
    if ln.start <= ln.end <= |s| then s[ln.start..ln.end] else []
  }

  /** The bytes a line stands for in the input: its text, the newline or
      space it consumed, and nothing for a move down. */
  function Piece(s: Bytes, ln: Line): Bytes
  {
    if ln.brk == MoveDown then []
    else if (ln.brk == Newline || ln.brk == AtSpace) && ln.end < |s| then Text(s, ln) + [s[ln.end]]
    else Text(s, ln)
  }

  function Joined(s: Bytes, lines: seq<Line>): Bytes
  {
    if lines == [] then [] else Piece(s, lines[0]) + Joined(s, lines[1..])
  }

  /** The line a loop iteration emits, if any. */
  function Emitted(o: Option<Line>): seq<Line>
  {
    if o.Some? then [o.value] else []
  }

  lemma JoinedEmitted(s: Bytes, o: Option<Line>)
    ensures Joined(s, Emitted(o)) == (if o.Some? then Piece(s, o.value) else [])
  {
    if o.Some? {
      assert Emitted(o)[1..] == [];
    }
  }

  lemma {:induction false} JoinedAppend(s: Bytes, a: seq<Line>, b: seq<Line>)
    ensures Joined(s, a + b) == Joined(s, a) + Joined(s, b)
    decreases |a|
  {
    if a != [] {
      assert (a + b)[1..] == a[1..] + b;
      JoinedAppend(s, a[1..], b);
    } else {
      assert a + b == b;
    }
  }

  // ------------------------------------------------------------ multiCell

  /** The variables of the multiCell() loop. */
  datatype Scan = Scan(i: nat, j: nat, l: int, sep: int, ls: int, ns: nat)

  /** The loop's indices stay in order within the text s[..nb]. */
  predicate Inside(nb: nat, sc: Scan)
  {
    sc.j <= sc.i <= nb && (sc.sep == -1 || sc.j <= sc.sep < sc.i)
  }

  /** A line emitted at a break starts at j and ends within the text; the
      next line starts right after it, past the newline or space it consumed. */
  predicate LineAt(nb: nat, j: nat, ln: Line, next: nat)
  {
    ln.start == j <= ln.end <= nb
    && (ln.brk == Hard ==> next == ln.end)
    && (ln.brk == Newline || ln.brk == AtSpace ==> next == ln.end + 1 && ln.end < nb)
    && (ln.brk == Hard || ln.brk == Newline || ln.brk == AtSpace)
  }

  /** One iteration of the multiCell() loop: the line it emits, if any, and
      the next state. */
  function MultiStep(s: Bytes, nb: nat, cw: WidthTable, wmax: real, sc: Scan): (r: (Option<Line>, Scan))
    requires nb <= |s| && Inside(nb, sc) && sc.i < nb
    ensures Inside(nb, r.1)
    ensures r.1.j > sc.j || (r.1.j == sc.j && r.1.i > sc.i && r.0 == None)
    ensures r.0.Some? ==> LineAt(nb, sc.j, r.0.value, r.1.j)
    ensures r.0.None? ==> r.1.j == sc.j
  {
    var i, j := sc.i, sc.j;
    if s[i] == '\n' then
      (Some(Line(j, i, Newline, sc.ns, sc.ls, false)), Scan(i + 1, i + 1, 0, -1, sc.ls, 0))
    else
      var sep1 := if s[i] == ' ' then i else sc.sep;
      var ls1 := if s[i] == ' ' then sc.l else sc.ls;
      var ns1 := if s[i] == ' ' then sc.ns + 1 else sc.ns;
      var l1 := sc.l + cw[s[i] as int];
      if l1 as real > wmax then
        if sep1 == -1 then
          var i1 := if i == j then i + 1 else i;
          (Some(Line(j, i1, Hard, ns1, ls1, false)), Scan(i1, i1, 0, -1, ls1, 0))
        else
          (Some(Line(j, sep1, AtSpace, ns1, ls1, false)), Scan(sep1 + 1, sep1 + 1, 0, -1, ls1, 0))
      else (None, Scan(i + 1, j, l1, sep1, ls1, ns1))
  }

  /** The lines multiCell() emits for s[..nb] from the loop state sc on,
      ending with the last chunk. */
  function MultiLines(s: Bytes, nb: nat, cw: WidthTable, wmax: real, sc: Scan): seq<Line>
    requires nb <= |s| && Inside(nb, sc)
    decreases nb - sc.j, nb - sc.i
  {
    if sc.i >= nb then [Line(sc.j, sc.i, Last, sc.ns, sc.ls, false)]
    else
      var r := MultiStep(s, nb, cw, wmax, sc);
      Emitted(r.0) + MultiLines(s, nb, cw, wmax, r.1)
  }

  /** multiCell()'s lines always end with its last chunk. */
  lemma {:induction false} MultiLinesEnd(s: Bytes, nb: nat, cw: WidthTable, wmax: real, sc: Scan)
    requires nb <= |s| && Inside(nb, sc)
    ensures var r := MultiLines(s, nb, cw, wmax, sc); r != [] && r[|r| - 1].brk == Last
    decreases nb - sc.j, nb - sc.i
  {
    if sc.i < nb {
      var r := MultiStep(s, nb, cw, wmax, sc);
      MultiLinesEnd(s, nb, cw, wmax, r.1);
    }
  }

  /** The lines drawn so far followed by the lines still to come, across
      one iteration. */
  lemma MultiLinesStep(s: Bytes, nb: nat, cw: WidthTable, wmax: real, sc: Scan, done: seq<Line>)
    requires nb <= |s| && Inside(nb, sc) && sc.i < nb
    ensures var r := MultiStep(s, nb, cw, wmax, sc);
            done + MultiLines(s, nb, cw, wmax, sc) == (done + Emitted(r.0)) + MultiLines(s, nb, cw, wmax, r.1)
            && (r.0.Some? ==> done + Emitted(r.0) == done + [r.0.value])
            && (r.0.None? ==> done + Emitted(r.0) == done)
  {
    var r := MultiStep(s, nb, cw, wmax, sc);
    assert MultiLines(s, nb, cw, wmax, sc) == Emitted(r.0) + MultiLines(s, nb, cw, wmax, r.1);
    assert done + (Emitted(r.0) + MultiLines(s, nb, cw, wmax, r.1))
           == (done + Emitted(r.0)) + MultiLines(s, nb, cw, wmax, r.1);
    if r.0.None? {
      assert done + [] == done;
    }
  }

  /** The state multiCell() starts from ($ls is unset, which PHP reads as 0). */
  const Start := Scan(0, 0, 0, -1, 0, 0)

  /** One iteration consumes the bytes of the line it emits. */
  lemma MultiStepRebuild(s: Bytes, nb: nat, cw: WidthTable, wmax: real, sc: Scan)
    requires nb <= |s| && Inside(nb, sc) && sc.i < nb
    ensures var r := MultiStep(s, nb, cw, wmax, sc);
            s[sc.j..nb] == Joined(s, Emitted(r.0)) + s[r.1.j..nb]
  {
    var r := MultiStep(s, nb, cw, wmax, sc);
    JoinedEmitted(s, r.0);
    if r.0.Some? {
      PieceRebuild(s, nb, r.0.value, r.1.j);
    } else {
      assert r.1.j == sc.j && Joined(s, Emitted(r.0)) == [];
    }
  }

  /** A line's piece followed by the rest of the text from where the next
      line starts is the text from where the line starts. */
  lemma PieceRebuild(s: Bytes, nb: nat, ln: Line, next: nat)
    requires nb <= |s| && LineAt(nb, ln.start, ln, next)
    ensures s[ln.start..nb] == Piece(s, ln) + s[next..nb]
  {
    if ln.brk == Hard {
      Split(s, ln.start, ln.end, nb);
    } else {
      Rebuild3(s, ln.start, ln.end, nb);
    }
  }

  /** The lines of s tile s[j..nb]: their texts, with the newlines and spaces
      consumed at the breaks, give the input back. */
  lemma {:induction false} MultiLinesRebuild(s: Bytes, nb: nat, cw: WidthTable, wmax: real, sc: Scan)
    requires nb <= |s| && Inside(nb, sc)
    ensures Joined(s, MultiLines(s, nb, cw, wmax, sc)) == s[sc.j..nb]
    decreases nb - sc.j, nb - sc.i
  {
    var lines := MultiLines(s, nb, cw, wmax, sc);
    if sc.i >= nb {
      assert Joined(s, lines) == Piece(s, lines[0]) + Joined(s, []);
    } else {
      var r := MultiStep(s, nb, cw, wmax, sc);
      MultiLinesRebuild(s, nb, cw, wmax, r.1);
      MultiStepRebuild(s, nb, cw, wmax, sc);
      JoinedAppend(s, Emitted(r.0), MultiLines(s, nb, cw, wmax, r.1));
    }
  }

  lemma Split(s: Bytes, j: nat, m: nat, n: nat)
    requires j <= m <= n <= |s|
    ensures s[j..n] == s[j..m] + s[m..n]
  {
  }

  lemma Rebuild3(s: Bytes, j: nat, i: nat, n: nat)
    requires j <= i < n <= |s|
    ensures s[j..n] == s[j..i] + [s[i]] + s[i + 1..n]
  {
  }

  /** A line fits when its width is within wmax; a line of at most one byte
      is let through whatever its width. */
  predicate Fits(s: Bytes, cw: WidthTable, wmax: real, ln: Line)
  {
    |Text(s, ln)| <= 1 || Width(cw, Text(s, ln)) as real <= wmax
  }

  /** What a line broken at a space knows about itself: its width is ls and it
      holds ns - 1 spaces (the one it ends at is consumed). */
  predicate SpaceCounts(s: Bytes, cw: WidthTable, ln: Line)
  {
    ln.brk == AtSpace ==> Width(cw, Text(s, ln)) == ln.ls && Spaces(Text(s, ln)) + 1 == ln.ns
  }

  /** What the multiCell() loop keeps true between iterations. */
  predicate ScanInv(s: Bytes, nb: nat, cw: WidthTable, wmax: real, sc: Scan)
  {
    nb <= |s| && Inside(nb, sc)
    && sc.l == Width(cw, s[sc.j..sc.i]) && (sc.j < sc.i ==> sc.l as real <= wmax)
    && sc.ns == Spaces(s[sc.j..sc.i])
    && (sc.sep != -1 ==> s[sc.sep] == ' ' && sc.ls == Width(cw, s[sc.j..sc.sep])
                         && (sc.j < sc.sep ==> sc.ls as real <= wmax)
                         && Spaces(s[sc.j..sc.sep]) + 1 == sc.ns)
  }

  lemma StepCounts(s: Bytes, cw: WidthTable, j: nat, i: nat)
    requires j <= i < |s|
    ensures Width(cw, s[j..i + 1]) == Width(cw, s[j..i]) + cw[s[i] as int]
    ensures Spaces(s[j..i + 1]) == Spaces(s[j..i]) + (if s[i] == ' ' then 1 else 0)
  {
    assert s[j..i + 1][..i - j] == s[j..i];
  }

  /** One iteration keeps the loop invariant, and the line it emits fits. */
  lemma MultiStepFit(s: Bytes, nb: nat, cw: WidthTable, wmax: real, sc: Scan)
    requires ScanInv(s, nb, cw, wmax, sc) && sc.i < nb
    ensures var r := MultiStep(s, nb, cw, wmax, sc);
            ScanInv(s, nb, cw, wmax, r.1)
            && (r.0.Some? ==> Fits(s, cw, wmax, r.0.value) && SpaceCounts(s, cw, r.0.value))
  {
    StepCounts(s, cw, sc.j, sc.i);
    var r := MultiStep(s, nb, cw, wmax, sc);
    if r.0.Some? {
      var ln := r.0.value;
      assert Text(s, ln) == s[sc.j..ln.end];
    }
  }

  /** Every line multiCell() emits fits the width unless it is a single byte,
      and a line broken at a space has width ls and ns - 1 spaces. */
  lemma {:induction false} MultiLinesFit(s: Bytes, nb: nat, cw: WidthTable, wmax: real, sc: Scan)
    requires ScanInv(s, nb, cw, wmax, sc)
    ensures forall ln :: ln in MultiLines(s, nb, cw, wmax, sc) ==>
              Fits(s, cw, wmax, ln) && SpaceCounts(s, cw, ln)
    decreases nb - sc.j, nb - sc.i
  {
    var lines := MultiLines(s, nb, cw, wmax, sc);
    if sc.i >= nb {
      assert Text(s, lines[0]) == s[sc.j..sc.i];
    } else {
      var r := MultiStep(s, nb, cw, wmax, sc);
      MultiStepFit(s, nb, cw, wmax, sc);
      MultiLinesFit(s, nb, cw, wmax, r.1);
    }
  }

  /** The word spacing multiCell() sets for a justified line. */
  function Justify(wmax: real, ls: int, fontSize: real, ns: nat): real
  {
    if ns > 1 then (wmax - ls as real) / 1000.0 * fontSize / (ns - 1) as real else 0.0
  }

  /** Width of a text in user units when ws is added after every space
      (section 9.3.3 of ISO 32000-1). */
  function Rendered(cw: WidthTable, t: Bytes, fontSize: real, ws: real): real
  {
    Width(cw, t) as real * fontSize / 1000.0 + ws * Spaces(t) as real
  }

  /** A justified line with at least one inner space exactly fills wmax. */
  lemma JustifyFills(s: Bytes, cw: WidthTable, wmax: real, fontSize: real, ln: Line)
    requires SpaceCounts(s, cw, ln) && ln.brk == AtSpace && ln.ns > 1
    ensures Rendered(cw, Text(s, ln), fontSize, Justify(wmax, ln.ls, fontSize, ln.ns)) == wmax * fontSize / 1000.0
  {
    var d := (ln.ns - 1) as real;
    var ws := Justify(wmax, ln.ls, fontSize, ln.ns);
    assert Spaces(Text(s, ln)) as real == d;
    assert ws * d == (wmax - ln.ls as real) / 1000.0 * fontSize;
  }

  /** The word spacing in effect for one line of multiCell(): a justified
      line broken at a space gets the spacing that fills it, a line broken
      at a space otherwise keeps the spacing, and any other line resets a
      positive spacing to 0. */
  function Spacing(prev: real, ln: Line, align: Bytes, wmax: real, fontSize: real): (r: real)
    ensures ln.brk != AtSpace ==> r <= 0.0 && (prev <= 0.0 ==> r == prev)
    ensures ln.brk == AtSpace && align != "J" ==> r == prev
  {
    if ln.brk == AtSpace then (if align == "J" then Justify(wmax, ln.ls, fontSize, ln.ns) else prev)
    else if prev > 0.0 then 0.0 else prev
  }

  /** The word spacing after a run of lines. */
  function SpacingAfter(ws: real, lines: seq<Line>, align: Bytes, wmax: real, fontSize: real): real
    decreases |lines|
  {
    if lines == [] then ws
    else SpacingAfter(Spacing(ws, lines[0], align, wmax, fontSize), lines[1..], align, wmax, fontSize)
  }

  /** The cells multiCell() shows for its lines: each line's text with the
      word spacing in effect when it is drawn. */
  function SpacedCells(s: Bytes, lines: seq<Line>, ws: real, align: Bytes, wmax: real, fontSize: real)
    : (r: seq<(Bytes, real)>)
    ensures |r| == |lines|
    ensures forall k :: 0 <= k < |r| ==> r[k].0 == Text(s, lines[k])
  {
    if lines == [] then []
    else
      var w := Spacing(ws, lines[0], align, wmax, fontSize);
      [(Text(s, lines[0]), w)] + SpacedCells(s, lines[1..], w, align, wmax, fontSize)
  }

  /** Drawing one more line appends one cell, with the spacing that line
      sets after the ones before it. */
  lemma {:induction false} SpacedCellsAppend(s: Bytes, lines: seq<Line>, ln: Line, ws: real,
                                             align: Bytes, wmax: real, fontSize: real)
    ensures SpacedCells(s, lines + [ln], ws, align, wmax, fontSize)
            == SpacedCells(s, lines, ws, align, wmax, fontSize)
               + [(Text(s, ln), Spacing(SpacingAfter(ws, lines, align, wmax, fontSize), ln, align, wmax, fontSize))]
    ensures SpacingAfter(ws, lines + [ln], align, wmax, fontSize)
            == Spacing(SpacingAfter(ws, lines, align, wmax, fontSize), ln, align, wmax, fontSize)
    decreases |lines|
  {
    if lines == [] {
      assert lines + [ln] == [ln];
    } else {
      var w := Spacing(ws, lines[0], align, wmax, fontSize);
      assert (lines + [ln])[1..] == lines[1..] + [ln];
      SpacedCellsAppend(s, lines[1..], ln, w, align, wmax, fontSize);
    }
  }

  /** The cells shown after one more line, as a log that already held
      shown0 sees them. */
  lemma SpacedCellsLogged(s: Bytes, lines: seq<Line>, ln: Line, ws: real, align: Bytes, wmax: real,
                          fontSize: real, shown0: seq<(Bytes, real)>, shown: seq<(Bytes, real)>, w: real)
    requires w == Spacing(SpacingAfter(ws, lines, align, wmax, fontSize), ln, align, wmax, fontSize)
    requires shown == shown0 + SpacedCells(s, lines, ws, align, wmax, fontSize) + [(Text(s, ln), w)]
    ensures shown == shown0 + SpacedCells(s, lines + [ln], ws, align, wmax, fontSize)
    ensures w == SpacingAfter(ws, lines + [ln], align, wmax, fontSize)
  {
    SpacedCellsAppend(s, lines, ln, ws, align, wmax, fontSize);
  }

  /** The spacing of the k-th cell is the one its line sets after the lines
      before it. */
  lemma {:induction false} SpacedCellsAt(s: Bytes, lines: seq<Line>, ws: real, align: Bytes, wmax: real,
                                         fontSize: real, k: nat)
    requires k < |lines|
    ensures SpacedCells(s, lines, ws, align, wmax, fontSize)[k].1
            == Spacing(SpacingAfter(ws, lines[..k], align, wmax, fontSize), lines[k], align, wmax, fontSize)
    decreases k
  {
    if k > 0 {
      var w := Spacing(ws, lines[0], align, wmax, fontSize);
      SpacedCellsAt(s, lines[1..], w, align, wmax, fontSize, k - 1);
      assert lines[..k][1..] == lines[1..][..k - 1];
      assert lines[1..][k - 1] == lines[k];
    }
  }

  /** In a justified multiCell(), every line broken at a space that holds
      an inner space is drawn exactly as wide as the cell's text area. */
  lemma JustifiedCellsFill(s: Bytes, nb: nat, cw: WidthTable, wmax: real, fontSize: real, ws: real)
    requires nb <= |s|
    ensures var lines := MultiLines(s, nb, cw, wmax, Start);
            var cells := SpacedCells(s, lines, ws, "J", wmax, fontSize);
            forall k :: 0 <= k < |lines| && lines[k].brk == AtSpace && lines[k].ns > 1 ==>
              Rendered(cw, cells[k].0, fontSize, cells[k].1) == wmax * fontSize / 1000.0
  {
    var lines := MultiLines(s, nb, cw, wmax, Start);
    var cells := SpacedCells(s, lines, ws, "J", wmax, fontSize);
    MultiLinesFit(s, nb, cw, wmax, Start);
    forall k | 0 <= k < |lines| && lines[k].brk == AtSpace && lines[k].ns > 1
      ensures Rendered(cw, cells[k].0, fontSize, cells[k].1) == wmax * fontSize / 1000.0
    {
      assert lines[k] in lines;
      SpacedCellsAt(s, lines, ws, "J", wmax, fontSize, k);
      JustifyFills(s, cw, wmax, fontSize, lines[k]);
    }
  }

  /** A justified line leaves room to spread: a line broken at a space
      with an inner space was measured before the room ran out. */
  predicate Spreadable(wmax: real, ln: Line)
  {
    ln.brk == AtSpace && ln.ns > 1 ==> ln.ls as real <= wmax
  }

  /** One iteration of the multiCell() loop emits only lines with room to
      spread: the width before the last space was reached without a break. */
  lemma MultiStepSpreadable(s: Bytes, nb: nat, cw: WidthTable, wmax: real, sc: Scan)
    requires ScanInv(s, nb, cw, wmax, sc) && sc.i < nb
    ensures var r := MultiStep(s, nb, cw, wmax, sc); r.0.Some? ==> Spreadable(wmax, r.0.value)
  {
    var r := MultiStep(s, nb, cw, wmax, sc);
    if r.0.Some? && r.0.value.brk == AtSpace && r.0.value.ns > 1 {
      if s[sc.i] == ' ' {
        assert sc.ns >= 1 && s[sc.j..sc.j] == [];
        assert sc.j < sc.i;
      } else {
        assert Spaces(s[sc.j..sc.sep]) >= 1 && s[sc.j..sc.j] == [];
        assert sc.j < sc.sep;
      }
    }
  }

  /** Every line multiCell() emits has room to spread. */
  lemma {:induction false} MultiLinesSpreadable(s: Bytes, nb: nat, cw: WidthTable, wmax: real, sc: Scan)
    requires ScanInv(s, nb, cw, wmax, sc)
    ensures forall ln :: ln in MultiLines(s, nb, cw, wmax, sc) ==> Spreadable(wmax, ln)
    decreases nb - sc.j, nb - sc.i
  {
    if sc.i < nb {
      var r := MultiStep(s, nb, cw, wmax, sc);
      MultiStepFit(s, nb, cw, wmax, sc);
      MultiStepSpreadable(s, nb, cw, wmax, sc);
      MultiLinesSpreadable(s, nb, cw, wmax, r.1);
      assert MultiLines(s, nb, cw, wmax, sc) == Emitted(r.0) + MultiLines(s, nb, cw, wmax, r.1);
    }
  }

  /** The spacing of a line with room to spread is never negative when
      the spacing before it was not. */
  lemma SpacingNonNegative(prev: real, ln: Line, align: Bytes, wmax: real, fontSize: real)
    requires prev >= 0.0 && fontSize >= 0.0 && Spreadable(wmax, ln)
    ensures Spacing(prev, ln, align, wmax, fontSize) >= 0.0
  {
    if ln.brk == AtSpace && align == "J" && ln.ns > 1 {
      var room := (wmax - ln.ls as real) / 1000.0;
      assert room >= 0.0;
      assert room * fontSize >= 0.0;
    }
  }

  /** Lines with room to spread never make the word spacing negative. */
  lemma {:induction false} SpacingAfterNonNegative(ws: real, lines: seq<Line>, align: Bytes, wmax: real,
                                                   fontSize: real)
    requires ws >= 0.0 && fontSize >= 0.0 && forall ln :: ln in lines ==> Spreadable(wmax, ln)
    ensures SpacingAfter(ws, lines, align, wmax, fontSize) >= 0.0
    decreases |lines|
  {
    if lines != [] {
      assert lines[0] in lines;
      SpacingNonNegative(ws, lines[0], align, wmax, fontSize);
      assert forall ln :: ln in lines[1..] ==> ln in lines;
      SpacingAfterNonNegative(Spacing(ws, lines[0], align, wmax, fontSize), lines[1..], align, wmax, fontSize);
    }
  }

  /** multiCell() shows its whole text: the texts of its cells, with the
      newlines and spaces consumed at the breaks, give s[..nb] back. */
  lemma MultiCellsRebuild(s: Bytes, nb: nat, cw: WidthTable, wmax: real, ws: real, align: Bytes, fontSize: real)
    requires nb <= |s|
    ensures var lines := MultiLines(s, nb, cw, wmax, Start);
            var cells := SpacedCells(s, lines, ws, align, wmax, fontSize);
            |cells| == |lines| && (forall k :: 0 <= k < |lines| ==> cells[k].0 == Text(s, lines[k]))
            && Joined(s, lines) == s[..nb]
  {
    MultiLinesRebuild(s, nb, cw, wmax, Start);
  }

  // ---------------------------------------------------------------- write

  /** The variables of the write() loop; nl counts lines. */
  datatype Flow = Flow(i: nat, j: nat, l: int, sep: int, nl: nat)

  predicate FlowInside(s: Bytes, f: Flow)
  {
    f.j <= f.i <= |s| && (f.sep == -1 || f.j <= f.sep < f.i)
  }

  /** The room write() measures against: wmax0 on the first line, wmax1 on
      the following ones. */
  function RoomAt(wmax0: real, wmax1: real, nl: nat): real
  {
    if nl == 1 then wmax0 else wmax1
  }

  /** One iteration of the write() loop.  indented says the first line
      starts right of the left margin, so that a word too long for it moves
      to the next line instead of being cut. */
  function WriteStep(s: Bytes, cw: WidthTable, wmax0: real, wmax1: real, indented: bool, f: Flow)
    : (r: (Option<Line>, Flow))
    requires FlowInside(s, f) && f.i < |s|
    ensures FlowInside(s, r.1) && r.1.nl >= f.nl
    ensures r.1.j > f.j || (r.1.j == f.j && r.1.i > f.i)
    ensures r.0.Some? ==> r.1.nl == f.nl + 1 && r.0.value.first == (f.nl == 1)
    ensures r.0.Some? && r.0.value.brk != MoveDown ==> LineAt(|s|, f.j, r.0.value, r.1.j)
    ensures r.0.Some? && r.0.value.brk == MoveDown ==> r.0.value.start == f.j && r.1.j == f.j && f.nl == 1 && indented
    ensures r.0.None? ==> r.1.j == f.j && r.1.nl == f.nl
  {
    var i, j := f.i, f.j;
    if s[i] == '\n' then
      (Some(Line(j, i, Newline, 0, 0, f.nl == 1)), Flow(i + 1, i + 1, 0, -1, f.nl + 1))
    else
      var sep1 := if s[i] == ' ' then i else f.sep;
      var l1 := f.l + cw[s[i] as int];
      if l1 as real > RoomAt(wmax0, wmax1, f.nl) then
        if sep1 == -1 then
          if f.nl == 1 && indented then
            (Some(Line(j, i, MoveDown, 0, 0, true)), Flow(i + 1, j, l1, sep1, f.nl + 1))
          else
            var i1 := if i == j then i + 1 else i;
            (Some(Line(j, i1, Hard, 0, 0, f.nl == 1)), Flow(i1, i1, 0, -1, f.nl + 1))
        else
          (Some(Line(j, sep1, AtSpace, 0, 0, f.nl == 1)), Flow(sep1 + 1, sep1 + 1, 0, -1, f.nl + 1))
      else (None, Flow(i + 1, j, l1, sep1, f.nl))
  }

  /** The lines write() lays out for s from the loop state f on; the last
      chunk, when not empty, records its measured width in ls. */
  function WriteLines(s: Bytes, cw: WidthTable, wmax0: real, wmax1: real, indented: bool, f: Flow): seq<Line>
    requires FlowInside(s, f)
    decreases |s| - f.j, |s| - f.i
  {
    if f.i >= |s| then (if f.i != f.j then [Line(f.j, |s|, Last, 0, f.l, f.nl == 1)] else [])
    else
      var r := WriteStep(s, cw, wmax0, wmax1, indented, f);
      Emitted(r.0) + WriteLines(s, cw, wmax0, wmax1, indented, r.1)
  }

  /** The lines laid out so far followed by the lines still to come,
      across one iteration of write(). */
  lemma WriteLinesStep(s: Bytes, cw: WidthTable, wmax0: real, wmax1: real, indented: bool, f: Flow, done: seq<Line>)
    requires FlowInside(s, f) && f.i < |s|
    ensures var r := WriteStep(s, cw, wmax0, wmax1, indented, f);
            done + WriteLines(s, cw, wmax0, wmax1, indented, f)
              == (done + Emitted(r.0)) + WriteLines(s, cw, wmax0, wmax1, indented, r.1)
            && (r.0.Some? ==> done + Emitted(r.0) == done + [r.0.value])
            && (r.0.None? ==> done + Emitted(r.0) == done)
  {
    var r := WriteStep(s, cw, wmax0, wmax1, indented, f);
    var rest := WriteLines(s, cw, wmax0, wmax1, indented, r.1);
    assert WriteLines(s, cw, wmax0, wmax1, indented, f) == Emitted(r.0) + rest;
    assert done + (Emitted(r.0) + rest) == (done + Emitted(r.0)) + rest;
    if r.0.None? {
      assert done + [] == done;
    }
  }

  /** The state write() starts from. */
  const FlowStart := Flow(0, 0, 0, -1, 1)

  /** A move down consumes nothing. */
  lemma MoveDownRebuild(s: Bytes, ln: Line)
    requires ln.brk == MoveDown
    ensures Piece(s, ln) == []
  {
  }

  /** What one write() iteration emits, followed by the text after the
      point it moves to, is the text from the line's start on. */
  lemma WriteStepRebuild(s: Bytes, j: nat, o: Option<Line>, next: nat)
    requires j <= |s| && next <= |s|
    requires o.Some? && o.value.brk != MoveDown ==> LineAt(|s|, j, o.value, next)
    requires o.None? || o.value.brk == MoveDown ==> next == j
    ensures s[j..] == Joined(s, Emitted(o)) + s[next..]
  {
    JoinedEmitted(s, o);
    if o.None? || o.value.brk == MoveDown {
      if o.Some? {
        MoveDownRebuild(s, o.value);
      }
      assert Joined(s, Emitted(o)) == [] && next == j;
      assert s[j..] == [] + s[next..];
    } else {
      var p := Joined(s, Emitted(o));
      PieceRebuild(s, |s|, o.value, next);
      assert p == Piece(s, o.value);
      calc {
        s[j..];
        s[j..|s|];
        p + s[next..|s|];
        p + s[next..];
      }
    }
  }

  /** write() gives back its input: the texts of its cells, with the consumed
      newlines and spaces, tile s[j..]. */
  lemma {:induction false} WriteLinesRebuild(s: Bytes, cw: WidthTable, wmax0: real, wmax1: real, indented: bool, f: Flow)
    requires FlowInside(s, f)
    ensures Joined(s, WriteLines(s, cw, wmax0, wmax1, indented, f)) == s[f.j..]
    decreases |s| - f.j, |s| - f.i
  {
    var lines := WriteLines(s, cw, wmax0, wmax1, indented, f);
    if f.i >= |s| {
      if f.i != f.j {
        assert Joined(s, lines) == Piece(s, lines[0]) + Joined(s, []);
      }
    } else {
      var r := WriteStep(s, cw, wmax0, wmax1, indented, f);
      WriteLinesRebuild(s, cw, wmax0, wmax1, indented, r.1);
      WriteStepRebuild(s, f.j, r.0, r.1.j);
      JoinedAppend(s, Emitted(r.0), WriteLines(s, cw, wmax0, wmax1, indented, r.1));
    }
  }

  /** The room a write() line has: wmax0 on the first line, wmax1 after. */
  function Room(wmax0: real, wmax1: real, ln: Line): real
  {
    if ln.first then wmax0 else wmax1
  }

  /** What the write() loop keeps true between iterations; over says the
      current line was moved down and its width so far is not checked. */
  predicate FlowInv(s: Bytes, cw: WidthTable, wmax0: real, wmax1: real, f: Flow, over: bool)
  {
    FlowInside(s, f) && f.nl >= 1
    && f.l == Width(cw, s[f.j..f.i])
    && (f.j < f.i && !over ==> f.l as real <= RoomAt(wmax0, wmax1, f.nl))
    && (f.sep != -1 ==> s[f.sep] == ' ')
    && (f.sep != -1 && f.j < f.sep && !over ==> Width(cw, s[f.j..f.sep]) as real <= RoomAt(wmax0, wmax1, f.nl))
    && (over ==> f.nl > 1)
  }

  /** What is true of a line write() lays out: it fits its room unless it is
      a single byte or comes right after a move down (the byte that triggers
      a move down is kept without being measured against the new room); only
      an indented first line moves down, and the last chunk records its width. */
  predicate WriteLineOk(s: Bytes, cw: WidthTable, wmax0: real, wmax1: real, indented: bool, ln: Line, over: bool)
  {
    (ln.brk != MoveDown && ln.brk != Last && !over ==> Fits(s, cw, Room(wmax0, wmax1, ln), ln))
    && (ln.brk == MoveDown ==> ln.first && indented)
    && (ln.brk == Last ==> ln.ls == Width(cw, Text(s, ln)))
  }

  /** The lines of write() from a state on, each checked against whether the
      line before it moved down. */
  predicate WriteOkFrom(s: Bytes, cw: WidthTable, wmax0: real, wmax1: real, indented: bool,
                        lines: seq<Line>, over: bool)
  {
    forall k {:trigger lines[k]} :: 0 <= k < |lines| ==>
      WriteLineOk(s, cw, wmax0, wmax1, indented, lines[k], if k == 0 then over else lines[k - 1].brk == MoveDown)
  }

  lemma WriteOkCons(s: Bytes, cw: WidthTable, wmax0: real, wmax1: real, indented: bool,
                    o: Option<Line>, rest: seq<Line>, over: bool, over1: bool)
    requires o.Some? ==> WriteLineOk(s, cw, wmax0, wmax1, indented, o.value, over) && over1 == (o.value.brk == MoveDown)
    requires o.None? ==> over1 == over
    requires WriteOkFrom(s, cw, wmax0, wmax1, indented, rest, over1)
    ensures WriteOkFrom(s, cw, wmax0, wmax1, indented, Emitted(o) + rest, over)
  {
    if o.Some? {
      var lines := Emitted(o) + rest;
      forall k | 0 <= k < |lines|
        ensures WriteLineOk(s, cw, wmax0, wmax1, indented, lines[k], if k == 0 then over else lines[k - 1].brk == MoveDown)
      {
        if k == 0 {
          assert lines[0] == o.value;
        } else {
          assert lines[k] == rest[k - 1];
          assert WriteLineOk(s, cw, wmax0, wmax1, indented, rest[k - 1],
                             if k - 1 == 0 then over1 else rest[k - 2].brk == MoveDown);
          if k > 1 {
            assert lines[k - 1] == rest[k - 2];
          } else {
            assert lines[0] == o.value;
          }
        }
      }
    } else {
      assert Emitted(o) + rest == rest;
    }
  }

  /** One iteration keeps the loop invariant, and the line it lays out is
      as WriteLineOk says. */
  lemma WriteStepOk(s: Bytes, cw: WidthTable, wmax0: real, wmax1: real, indented: bool, f: Flow, over: bool)
    requires FlowInv(s, cw, wmax0, wmax1, f, over) && f.i < |s|
    ensures var r := WriteStep(s, cw, wmax0, wmax1, indented, f);
            var over1 := if r.0.Some? then r.0.value.brk == MoveDown else over;
            FlowInv(s, cw, wmax0, wmax1, r.1, over1)
            && (r.0.Some? ==> WriteLineOk(s, cw, wmax0, wmax1, indented, r.0.value, over))
  {
    StepCounts(s, cw, f.j, f.i);
    var r := WriteStep(s, cw, wmax0, wmax1, indented, f);
    if r.0.Some? {
      var ln := r.0.value;
      assert Text(s, ln) == s[f.j..ln.end];
    }
  }

  /** write()'s lines are as WriteLineOk says, and after the first line
      none is laid out as first. */
  lemma {:induction false} WriteLinesOk(s: Bytes, cw: WidthTable, wmax0: real, wmax1: real, indented: bool,
                                        f: Flow, over: bool)
    requires FlowInv(s, cw, wmax0, wmax1, f, over)
    ensures WriteOkFrom(s, cw, wmax0, wmax1, indented, WriteLines(s, cw, wmax0, wmax1, indented, f), over)
    ensures f.nl > 1 ==> forall ln :: ln in WriteLines(s, cw, wmax0, wmax1, indented, f) ==> !ln.first
    decreases |s| - f.j, |s| - f.i
  {
    var lines := WriteLines(s, cw, wmax0, wmax1, indented, f);
    if f.i >= |s| {
      if f.i != f.j {
        assert Text(s, lines[0]) == s[f.j..f.i];
        assert WriteLineOk(s, cw, wmax0, wmax1, indented, lines[0], over);
      }
    } else {
      var r := WriteStep(s, cw, wmax0, wmax1, indented, f);
      var over1 := if r.0.Some? then r.0.value.brk == MoveDown else over;
      WriteStepOk(s, cw, wmax0, wmax1, indented, f, over);
      WriteLinesOk(s, cw, wmax0, wmax1, indented, r.1, over1);
      WriteOkCons(s, cw, wmax0, wmax1, indented, r.0, WriteLines(s, cw, wmax0, wmax1, indented, r.1), over, over1);
    }
  }

  /** The cells write() shows: one per line, none for a move down, all
      with the word spacing ws. */
  function ShownTexts(s: Bytes, lines: seq<Line>, ws: real): (r: seq<(Bytes, real)>)
    ensures |r| <= |lines|
    ensures forall c :: c in r ==> c.1 == ws
  {
    if lines == [] then []
    else (if lines[0].brk == MoveDown then [] else [(Text(s, lines[0]), ws)]) + ShownTexts(s, lines[1..], ws)
  }

  lemma {:induction false} ShownTextsAppend(s: Bytes, lines: seq<Line>, more: seq<Line>, ws: real)
    ensures ShownTexts(s, lines + more, ws) == ShownTexts(s, lines, ws) + ShownTexts(s, more, ws)
    decreases |lines|
  {
    if lines == [] {
      assert lines + more == more;
    } else {
      assert (lines + more)[1..] == lines[1..] + more;
      ShownTextsAppend(s, lines[1..], more, ws);
    }
  }

  /** The texts shown after more lines, as a log that already held shown0
      sees them. */
  lemma ShownTextsLogged(s: Bytes, lines: seq<Line>, more: seq<Line>, ws: real, shown0: seq<(Bytes, real)>,
                         shown: seq<(Bytes, real)>)
    requires shown == shown0 + ShownTexts(s, lines, ws) + ShownTexts(s, more, ws)
    ensures shown == shown0 + ShownTexts(s, lines + more, ws)
  {
    ShownTextsAppend(s, lines, more, ws);
  }

  /** write()'s last chunk, when the loop leaves one, shows the rest of the
      text from where the last line starts. */
  lemma WriteLastShown(s: Bytes, cw: WidthTable, wmax0: real, wmax1: real, indented: bool, f: Flow,
                       done: seq<Line>, ws: real)
    requires FlowInside(s, f) && f.i >= |s|
    ensures ShownTexts(s, done + WriteLines(s, cw, wmax0, wmax1, indented, f), ws)
            == ShownTexts(s, done, ws) + (if f.i != f.j then [(s[f.j..], ws)] else [])
  {
    var rest := WriteLines(s, cw, wmax0, wmax1, indented, f);
    ShownTextsAppend(s, done, rest, ws);
    if f.i != f.j {
      var ln := Line(f.j, |s|, Last, 0, f.l, f.nl == 1);
      assert rest == [ln] && rest[1..] == [];
      assert Text(s, ln) == s[f.j..];
    } else {
      assert ShownTexts(s, done, ws) + [] == ShownTexts(s, done, ws);
    }
  }
}
