/** The ring of lines and the dirty ranges of msdos/display.c, as values. */
module DisplayRing {
  import opened Modular
  import opened Terminal

  /** Line i of the list is in slot (i + rows) % size, as long as it is among the last size. */
  ghost predicate RingOk(buf: seq<Line>, rows: nat, lines: seq<Line>) {
    && 0 < rows <= |buf| <= |lines|
    && forall i {:trigger lines[i]} :: |lines| - |buf| <= i < |lines| ==> buf[Slot(i + rows, |buf|)] == lines[i]
  }

  lemma OtherSlot(rows: nat, n: nat, i: nat, k: nat)
    requires i != k && i < k + n && k < i + n
    requires n > 0
    ensures Slot(i + rows, n) != Slot(k + rows, n)
  {
    if i < k {
      SlotsDiffer(i + rows, k + rows, n);
    } else {
      SlotsDiffer(k + rows, i + rows, n);
    }
  }

  /** The slot the next line will take holds the oldest. */
  lemma OldestSlot(buf: seq<Line>, rows: nat, lines: seq<Line>)
    requires RingOk(buf, rows, lines)
    ensures buf[Slot(|lines| + rows, |buf|)] == lines[|lines| - |buf|]
  {
    var k: nat := |lines| - |buf|;
    SlotRepeats(k + rows, |buf|);
    hide Slot;
    assert lines[k] == lines[k];
  }

  lemma RingSet(buf: seq<Line>, rows: nat, lines: seq<Line>, r: nat, l: Line)
    requires RingOk(buf, rows, lines) && r < rows
    ensures RingOk(buf[Slot(|lines| + r, |buf|) := l], rows, lines[|lines| - rows + r := l])
    ensures buf[Slot(|lines| + r, |buf|)] == lines[|lines| - rows + r]
  {
    hide Slot;
    var k := |lines| - rows + r;
    var after := lines[k := l];
    forall i {:trigger after[i]} | |lines| - |buf| <= i < |lines|
      ensures buf[Slot(k + rows, |buf|) := l][Slot(i + rows, |buf|)] == after[i]
    {
      assert buf[Slot(i + rows, |buf|)] == lines[i];
      if i != k {
        OtherSlot(rows, |buf|, i, k);
      }
    }
  }

  /** A new line takes the slot of the oldest. */
  lemma RingScroll(buf: seq<Line>, rows: nat, lines: seq<Line>, l: Line)
    requires RingOk(buf, rows, lines)
    ensures RingOk(buf[Slot(|lines| + rows, |buf|) := l], rows, lines + [l])
  {
    hide Slot;
    var k := |lines|;
    var after := lines + [l];
    forall i: nat {:trigger after[i]} | |after| - |buf| <= i < |after|
      ensures buf[Slot(k + rows, |buf|) := l][Slot(i + rows, |buf|)] == after[i]
    {
      if i < k {
        assert buf[Slot(i + rows, |buf|)] == lines[i];
        OtherSlot(rows, |buf|, i, k);
      }
    }
  }

  /** Scrolling first leaves the oldest line, in its slot, as the bottom line. */
  lemma RingTurn(buf: seq<Line>, rows: nat, lines: seq<Line>)
    requires RingOk(buf, rows, lines)
    ensures RingOk(buf, rows, lines + [lines[|lines| - |buf|]])
  {
    hide Slot, RingOk;
    assert |buf| > 0 by {
      RingSizes(buf, rows, lines);
    }
    RingSizes(buf, rows, lines);
    OldestSlot(buf, rows, lines);
    RingScroll(buf, rows, lines, lines[|lines| - |buf|]);
    assert buf[Slot(|lines| + rows, |buf|) := lines[|lines| - |buf|]] == buf;
  }

  lemma RingSizes(buf: seq<Line>, rows: nat, lines: seq<Line>)
    requires RingOk(buf, rows, lines)
    ensures 0 < rows <= |buf| <= |lines|
  {
  }

  /** vbufloc: two bytes a cell. */
  function Offset(virttop: nat, row: nat, col: nat, cols: nat, size: nat): nat
    requires size > 0
  {
    2 * (col + Slot(row + virttop, size) * cols)
  }

  /** Offsets stay inside the buffer, and different cells of the screen do not share bytes. */
  lemma OffsetsAreGood(virttop: nat, rows: nat, cols: nat, size: nat, r: nat, c: nat, r': nat, c': nat)
    requires 0 < rows <= size && r < rows && r' < rows && c < cols && c' < cols
    ensures Offset(virttop, r, c, cols, size) + 2 <= 2 * (size * cols)
    ensures (r, c) != (r', c') ==>
              Offset(virttop, r, c, cols, size) + 2 <= Offset(virttop, r', c', cols, size)
              || Offset(virttop, r', c', cols, size) + 2 <= Offset(virttop, r, c, cols, size)
  {
    var s, s' := Slot(r + virttop, size), Slot(r' + virttop, size);
    NextMultiple(s, size, cols);
    if r < r' {
      SlotsDiffer(r + virttop, r' + virttop, size);
    } else if r' < r {
      SlotsDiffer(r' + virttop, r + virttop, size);
    }
    hide Slot;
    if s < s' {
      NextMultiple(s, s', cols);
    } else if s' < s {
      NextMultiple(s', s, cols);
    }
  }

  // ----- dirty ranges -----

  /** Conversion to a uint8. */
  function Byte(x: nat): (b: nat)
    ensures b < 256 && b <= x && (x < 256 ==> b == x)
  {
    x % 256
  }

  /** Columns lcol to rcol of a row may differ from the real screen. Both are kept in bytes. */
  datatype Dirty = Dirty(lcol: nat, rcol: nat)

  function Stored(d: Dirty): Dirty {
    Dirty(Byte(d.lcol), Byte(d.rcol))
  }

  /** The range of a whole row, and that of a row without changes. */
  function Whole(cols: nat): (d: Dirty)
    ensures cols > 0 ==> d == Stored(Dirty(0, cols - 1)) && d.lcol == 0
    ensures 0 < cols <= 256 ==> d == Dirty(0, cols - 1)
  {
    Dirty(0, if cols > 0 then Byte(cols - 1) else 0)
  }

  function Clean(cols: nat): (d: Dirty)
    ensures cols > 0 ==> d == Stored(Dirty(cols - 1, 0))
  {
    Dirty(if cols > 0 then Byte(cols - 1) else 0, 0)
  }

  /** The ranges a display of that width can hold. */
  ghost predicate Ranges(dirty: seq<Dirty>, cols: nat) {
    forall r :: 0 <= r < |dirty| ==>
      dirty[r].lcol < cols && dirty[r].rcol < cols && dirty[r].lcol < 256 && dirty[r].rcol < 256
  }

  predicate InRange(d: Dirty, c: nat) {
    d.lcol <= c <= d.rcol
  }

  function Mark(d: Dirty, first: nat, last: nat): Dirty {
    Dirty(if first < d.lcol then first else d.lcol, if last > d.rcol then last else d.rcol)
  }

  /** Whatever differs in this row lies in the range. */
  ghost predicate RowCovered(shown: Line, seen: Line, d: Dirty) {
    && |shown| == |seen|
    && forall c :: 0 <= c < |shown| && shown[c] != seen[c] ==> InRange(d, c)
  }

  ghost predicate Covered(shown: seq<Line>, seen: seq<Line>, dirty: seq<Dirty>) {
    && |shown| == |seen| == |dirty|
    && forall r :: 0 <= r < |shown| ==> RowCovered(shown[r], seen[r], dirty[r])
  }

  /** A row marked as a whole is covered whatever it shows. */
  lemma WholeRow(shown: Line, seen: Line)
    requires 0 < |shown| == |seen| <= 256
    ensures RowCovered(shown, seen, Whole(|shown|))
  {
  }

  /** And only in rows of at most 256 columns. */
  lemma WholeRowExactly(cols: nat)
    requires cols > 0
    ensures (forall shown: Line, seen: Line :: |shown| == |seen| == cols ==> RowCovered(shown, seen, Whole(cols)))
            <==> cols <= 256
  {
    if cols <= 256 {
      forall shown: Line, seen: Line | |shown| == |seen| == cols
        ensures RowCovered(shown, seen, Whole(cols))
      {
        WholeRow(shown, seen);
      }
    } else {
      var shown, seen := seq(cols, _ => Cell('x', PLAIN)), seq(cols, _ => Cell('y', PLAIN));
      assert shown[cols - 1] != seen[cols - 1] && !InRange(Whole(cols), cols - 1);
      assert !RowCovered(shown, seen, Whole(cols));
    }
  }

  /** puttext over the dirty range makes the row equal. */
  function Painted(shown: Line, seen: Line, d: Dirty): Line
    requires |shown| == |seen|
  {
    seq(|shown|, c requires 0 <= c < |shown| => if InRange(d, c) then shown[c] else seen[c])
  }

  /** What dupdate makes of the real screen. */
  function Refreshed(shown: seq<Line>, seen: seq<Line>, dirty: seq<Dirty>, whole: bool): seq<Line>
    requires |shown| == |seen| == |dirty| && forall r :: 0 <= r < |shown| ==> |shown[r]| == |seen[r]|
  {
    seq(|shown|, r requires 0 <= r < |shown| => Repainted(shown[r], seen[r], dirty[r], whole))
  }

  function Repainted(shown: Line, seen: Line, d: Dirty, whole: bool): (l: Line)
    requires |shown| == |seen|
    ensures |l| == |shown|
  {
    Painted(shown, seen, if whole then Whole(|shown|) else d)
  }

  lemma RepaintedIsShown(shown: Line, seen: Line, d: Dirty, whole: bool)
    requires |shown| == |seen| <= 256 && (whole || RowCovered(shown, seen, d))
    ensures Repainted(shown, seen, d, whole) == shown
  {
    assert RowCovered(shown, seen, Whole(|shown|));
    if whole {
      PaintedIsShown(shown, seen, Whole(|shown|));
    } else {
      PaintedIsShown(shown, seen, d);
    }
  }

  /** Sound dirty ranges are enough: the real screen becomes the virtual one. */
  lemma RefreshedIsShown(shown: seq<Line>, seen: seq<Line>, dirty: seq<Dirty>, whole: bool)
    requires |shown| == |seen| == |dirty| && forall r :: 0 <= r < |shown| ==> |shown[r]| == |seen[r]| <= 256
    requires whole || Covered(shown, seen, dirty)
    ensures Refreshed(shown, seen, dirty, whole) == shown
  {
    hide RowCovered, Repainted;
    forall r | 0 <= r < |shown|
      ensures Refreshed(shown, seen, dirty, whole)[r] == shown[r]
    {
      RepaintedIsShown(shown[r], seen[r], dirty[r], whole);
    }
  }

  lemma PaintedIsShown(shown: Line, seen: Line, d: Dirty)
    requires RowCovered(shown, seen, d)
    ensures Painted(shown, seen, d) == shown
  {
  }

  /** Range d takes in range e and every column where the two lines differ. */
  ghost predicate Marks(before: Line, after: Line, e: Dirty, d: Dirty) {
    && |before| == |after|
    && (forall c :: InRange(e, c) ==> InRange(d, c))
    && (forall c :: 0 <= c < |after| && after[c] != before[c] ==> InRange(d, c))
  }

  lemma MarksCover(before: Line, after: Line, seen: Line, e: Dirty, d: Dirty)
    requires RowCovered(before, seen, e) && Marks(before, after, e, d)
    ensures RowCovered(after, seen, d)
  {
  }

  lemma CoveredSet(shown: seq<Line>, seen: seq<Line>, dirty: seq<Dirty>, r: nat, l: Line, d: Dirty)
    requires Covered(shown, seen, dirty) && r < |shown| && Marks(shown[r], l, dirty[r], d)
    ensures Covered(shown[r := l], seen, dirty[r := d])
  {
    MarksCover(shown[r], l, seen[r], dirty[r], d);
    hide RowCovered;
  }
}

/** The virtual display of msdos/display.c. */
module Display {
  import opened Machine
  import opened Modular
  import opened Terminal
  import opened DisplayRing

  datatype EscState = NORMAL | ESCAPE | ARG

  class Display {
    const g: Geometry
    const buf: array<Line>      // size lines
    const screen: array<Line>   // the real screen, which only puttext changes
    var virttop: nat
    var row: int
    var col: int
    var savrow: int
    var savcol: int
    var attrib: Attr
    var state: EscState
    var argi: nat
    var arg: seq<int>
    var noWrap: bool
    var tabstops: seq<bool>
    var dirty: seq<Dirty>
    var dirtyScreen: bool
    ghost var lines: seq<Line>

    function AbsMode(): Mode
      reads this`state, this`arg, this`argi
    {
      match state
      case NORMAL => Normal
      case ESCAPE => Escape
      case ARG => Args(if argi < |arg| then arg[..argi + 1] else arg)
    }

    /** The terminal that the display stands for. */
    ghost function Abs(): Term
      reads this
    {
      Term(lines, row, col, savrow, savcol, attrib, AbsMode(), noWrap, tabstops)
    }

    /** arg[] past the current argument is still zero. */
    predicate ArgsOk()
      reads this`arg, this`argi
    {
      |arg| == MAXARGS && argi < MAXARGS && forall i :: argi < i < MAXARGS ==> arg[i] == 0
    }

    ghost predicate BufOk()
      reads this`lines, this`virttop, buf
    {
      RingOk(buf[..], g.rows, lines) && virttop == Slot(|lines|, buf.Length)
    }

    ghost predicate DirtyOk()
      reads this`dirty
    {
      |dirty| == g.rows && Ranges(dirty, g.cols)
    }

    ghost predicate Valid()
      reads this, buf, screen
    {
      && Fine(g, Abs()) && BufOk() && DirtyOk() && (state == ARG ==> ArgsOk()) && |arg| == MAXARGS
      && screen.Length == g.rows && Wide(screen[..], g.cols) && screen != buf
    }

    /** dupdate will see everything that differs, and can reach it. */
    ghost predicate Tracked()
      reads this, screen
    {
      g.cols <= 256 && (dirtyScreen || Covered(Screen(g, Abs()), screen[..], dirty))
    }

    /** vbufloc, line by line. */
    function VLine(r: nat): Line
      requires buf.Length > 0
      reads this`virttop, buf
    {
      buf[Slot(virttop + r, buf.Length)]
    }

    lemma RowFacts(r: nat)
      requires Valid() && r < g.rows
      ensures buf.Length > 0 && VLine(r) == LineAt(g, Abs(), r) && |VLine(r)| == g.cols
      ensures |dirty| == g.rows && dirty[r].lcol < g.cols && dirty[r].rcol < g.cols
    {
      SlotOfSum(|lines|, r, buf.Length);
      LineIsWide(g, Abs(), r);
      RingSet(buf[..], g.rows, lines, r, []);
      RowRange(r);
      hide Slot, Wide, Ranges;
    }

    lemma RowRange(r: nat)
      requires DirtyOk() && r < g.rows
      ensures |dirty| == g.rows && dirty[r].lcol < g.cols && dirty[r].rcol < g.cols
    {
    }

    lemma SetRowTracked(r: nat, l: Line, d: Dirty)
      requires Valid() && r < g.rows && |l| == g.cols && !dirtyScreen && Tracked()
      requires Marks(LineAt(g, Abs(), r), l, dirty[r], d)
      ensures Covered(Screen(g, SetLine(g, Abs(), r, l)), screen[..], dirty[r := d])
    {
      assert Screen(g, SetLine(g, Abs(), r, l)) == Screen(g, Abs())[r := l];
      hide Valid, Fine, Covered, Marks, RingOk;
      CoveredSet(Screen(g, Abs()), screen[..], dirty, r, l, d);
    }

    lemma SetRowRing(r: nat, l: Line)
      requires BufOk() && r < g.rows
      ensures buf.Length > 0 && |lines| >= g.rows
      ensures RingOk(buf[..][Slot(virttop + r, buf.Length) := l], g.rows, lines[|lines| - g.rows + r := l])
    {
      hide Slot;
      SlotOfSum(|lines|, r, buf.Length);
      RingSet(buf[..], g.rows, lines, r, l);
    }

    lemma SetRowFacts(r: nat, l: Line, d: Dirty)
      requires Valid() && r < g.rows && |l| == g.cols
      ensures buf.Length > 0 && |dirty| == g.rows && |lines| >= g.rows
      ensures var t' := SetLine(g, Abs(), r, l);
              && t' == Abs().(lines := lines[|lines| - g.rows + r := l]) && Fine(g, t')
              && RingOk(buf[..][Slot(virttop + r, buf.Length) := l], g.rows, t'.lines) && |t'.lines| == |lines|
              && (Tracked() && Marks(LineAt(g, Abs(), r), l, dirty[r], d) && d.lcol < g.cols && d.rcol < g.cols ==>
                    Stored(d) == d && (dirtyScreen || Covered(Screen(g, t'), screen[..], dirty[r := d])))
    {
      SetRowRing(r, l);
      SetLineFollows(g, Abs(), r, l);
      hide RingOk, Slot, Fine, Covered, Marks, LineAt, Screen;
      if Tracked() && Marks(LineAt(g, Abs(), r), l, dirty[r], d) && !dirtyScreen {
        SetRowTracked(r, l, d);
      }
    }

    lemma StillValid(t: Term)
      requires t == Abs() && Fine(g, t) && |arg| == MAXARGS && (state == ARG ==> ArgsOk())
      requires RingOk(buf[..], g.rows, lines) && virttop == Slot(|lines|, buf.Length) && DirtyOk()
      requires screen.Length == g.rows && Wide(screen[..], g.cols) && screen != buf
      ensures Valid()
    {
    }

    lemma Facts()
      requires Valid()
      ensures Fine(g, Abs()) && |arg| == MAXARGS && (state == ARG ==> ArgsOk())
      ensures buf.Length > 0 && RingOk(buf[..], g.rows, lines) && virttop == Slot(|lines|, buf.Length) && DirtyOk()
      ensures screen.Length == g.rows && Wide(screen[..], g.cols) && screen != buf
      ensures 0 <= row < g.rows && 0 <= col < g.cols && |dirty| == g.rows && |tabstops| == g.cols
      ensures g.rows < HALF && g.cols < HALF
      ensures Abs() == Term(lines, row, col, savrow, savcol, attrib, AbsMode(), noWrap, tabstops)
    {
    }

    lemma AbsIs()
      ensures Abs() == Term(lines, row, col, savrow, savcol, attrib, AbsMode(), noWrap, tabstops)
    {
    }

    /** Store line r of the screen, with its dirty range. */
    method SetRow(r: nat, l: Line, d: Dirty)
      requires Valid() && r < g.rows && |l| == g.cols && d.lcol < g.cols && d.rcol < g.cols
      requires r < |dirty|
      modifies this`dirty, this`lines, buf
      ensures Valid() && Abs() == SetLine(g, old(Abs()), r, l) && dirty == old(dirty)[r := Stored(d)]
      ensures old(Tracked()) && Marks(LineAt(g, old(Abs()), r), l, old(dirty[r]), d) ==> Tracked()
    {
      hide Fine, Wide, RingOk, Slot, Screen, Covered, Marks, SetLine, LineAt, ArgsOk, AbsMode;
      SetRowFacts(r, l, d);
      ghost var b := buf[..];
      buf[Slot(virttop + r, buf.Length)] := l;
      assert buf[..] == b[Slot(virttop + r, buf.Length) := l];
      dirty := dirty[r := Stored(d)];
      lines := lines[|lines| - g.rows + r := l];
    }

    /** dclreol. */
    method Dclreol(r: nat, c: nat)
      requires Valid() && r < g.rows && c < g.cols
      modifies this`dirty, this`lines, buf
      ensures Valid() && Abs() == ClearEol(g, old(Abs()), r, c)
      ensures r < |old(dirty)| && dirty == old(dirty)[r := ToTheRight(old(dirty[r]), c, g.cols)]
      ensures old(Tracked()) ==> Tracked()
    {
      hide *;
      Facts();
      RowFacts(r);
      var l := VLine(r);
      ghost var l0 := l;
      for i := c to g.cols
        invariant |l| == g.cols && l == l0[..c] + Blanks(i - c, attrib) + l0[i..]
        modifies {}
      {
        l := l[i := Cell(' ', attrib)];
        OneMoreBlank(l0, c, i, attrib);
      }
      ClearedIs(l0, c, attrib);
      var d := Dirty(if c < dirty[r].lcol then c else dirty[r].lcol, g.cols - 1);
      ToTheRightIs(dirty[r], c, g.cols);
      ClearMarks(l0, c, attrib, dirty[r]);
      SetRow(r, l, d);
      ClearEolIs(g, old(Abs()), r, c);
    }

    /** dclreod. */
    method Dclreod(r0: nat, c: nat)
      requires Valid() && r0 < g.rows && c < g.cols
      modifies this`dirty, this`lines, buf
      ensures Valid() && Abs() == ClearEos(g, old(Abs()), r0, c)
      ensures |dirty| == g.rows && g.cols > 0
      ensures forall i :: r0 <= i < g.rows && (i > r0 || c == 0) ==> dirty[i] == Whole(g.cols)
      ensures old(Tracked()) ==> Tracked()
    {
      hide *;
      ghost var rest := ClearEos(g, Abs(), r0, c);
      ClearEosIs(g, Abs(), r0, c);
      Facts();
      ToTheRightIs(dirty[r0], c, g.cols);
      Dclreol(r0, c);
      var r := r0 + 1;
      while r < g.rows
        invariant r <= g.rows == |dirty| && Valid() && ClearRows(g, Abs(), r) == rest
        invariant forall i :: r0 <= i < r && (i > r0 || c == 0) ==> dirty[i] == Whole(g.cols)
        invariant old(Tracked()) ==> Tracked()
      {
        ClearRowsIs(g, Abs(), r);
        ToTheRightIs(dirty[r], 0, g.cols);
        Dclreol(r, 0);
        r := r + 1;
      }
      ClearRowsIs(g, Abs(), r);
    }

    /** dclrscr. */
    method Dclrscr()
      requires Valid()
      modifies this`dirty, this`lines, this`row, this`col, buf
      ensures Valid() && Abs() == ClearScreen(g, old(Abs()))
      ensures |dirty| == g.rows && g.cols > 0 && forall i :: 0 <= i < g.rows ==> dirty[i] == Whole(g.cols)
      ensures old(Tracked()) ==> Tracked()
    {
      hide *;
      SizeFacts();
      ClearScreenIs(g, Abs());
      Dclreod(0, 0);
      MoveTo(0, 0);
    }

    lemma SizeFacts()
      requires Valid()
      ensures g.rows > 0 && g.cols > 0 && Fine(g, Abs())
    {
    }

    /** Move the cursor. */
    method MoveTo(r: nat, c: nat)
      requires Valid() && r < g.rows && c < g.cols
      modifies this`row, this`col
      ensures Valid() && Abs() == old(Abs()).(row := r, col := c)
      ensures old(Tracked()) ==> Tracked()
    {
      hide Wide, RingOk, Slot, Covered, ArgsOk, DirtyOk;
      row, col := r, c;
    }

    /** dinsert. */
    method Dinsert()
      requires Valid()
      modifies this`dirty, this`lines, buf
      ensures Valid() && Abs() == InsertChar(g, old(Abs()))
      ensures old(Tracked()) ==> Tracked()
    {
      hide *;
      Facts();
      RowFacts(row);
      var l := VLine(row);
      var l' := l[..col] + [Cell(' ', attrib)] + l[col..|l| - 1];
      InsertIs(g, Abs());
      RightMarks(l, l', col, dirty[row]);
      SetRow(row, l', Dirty(if col < dirty[row].lcol then col else dirty[row].lcol, g.cols - 1));
    }

    /** ddelchar. */
    method Ddelchar()
      requires Valid()
      modifies this`dirty, this`lines, buf
      ensures Valid() && Abs() == DeleteChar(g, old(Abs()))
      ensures old(Tracked()) ==> Tracked()
    {
      hide *;
      Facts();
      RowFacts(row);
      var l := VLine(row);
      var l' := l[..col] + l[col + 1..] + [Cell(' ', attrib)];
      DeleteIs(g, Abs());
      RightMarks(l, l', col, dirty[row]);
      SetRow(row, l', Dirty(if col < dirty[row].lcol then col else dirty[row].lcol, g.cols - 1));
    }

    /** ddelline. */
    method Ddelline()
      requires Valid()
      modifies this`dirty, this`lines, buf
      ensures Valid() && Abs() == DeleteLine(g, old(Abs()))
      ensures old(Tracked()) ==> Tracked()
    {
      hide *;
      Facts();
      ghost var t := Abs();
      SizeFacts();
      MovedUpNone(g, t);
      var r := row;
      while r + 1 < g.rows
        invariant r < g.rows && Valid() && Abs() == MovedUp(g, t, r)
        invariant old(Tracked()) ==> Tracked()
      {
        RowFacts(r);
        RowFacts(r + 1);
        MovedUpOne(g, t, r);
        WholeMarks(VLine(r), VLine(r + 1), dirty[r]);
        SetRow(r, VLine(r + 1), Dirty(0, g.cols - 1));
        r := r + 1;
      }
      MovedUpAll(g, t);
      Dclreol(g.rows - 1, 0);
    }

    /** dinsline. It never moves dirtp, so only near the bottom does it mark every row it changes. */
    method Dinsline()
      requires Valid()
      modifies this`dirty, this`lines, buf
      ensures Valid() && Abs() == InsertLine(g, old(Abs()))
      ensures InsertMarked(old(dirty), row, g.cols, dirty)
      ensures old(Tracked()) && (row + 2 >= g.rows || g.cols == 1) ==> Tracked()
    {
      hide *;
      Facts();
      ghost var t := Abs();
      SizeFacts();
      MovedDownNone(g, t);
      InsertMarksIs(dirty, row, g.cols);
      ghost var d0 := dirty;
      var r := g.rows - 1;
      while r > row
        invariant dirty == if r + 1 == g.rows then d0 else BottomMark(d0, row, g.cols)
        invariant row <= r < g.rows && Valid() && Abs() == MovedDown(g, t, r + 1) && row == old(row)
        invariant old(Tracked()) && (row + 2 >= g.rows || r + 1 == g.rows || g.cols == 1) ==> Tracked()
      {
        RowFacts(r);
        RowFacts(r - 1);
        Facts();
        RangesOk();
        MovedDownOne(g, t, r);
        var d := if r + 1 == g.rows then Dirty(0, g.cols - 1) else dirty[r];
        StoredAgain(dirty, r, g.cols);
        WholeMarks(VLine(r), VLine(r - 1), dirty[r]);
        SetRow(r, VLine(r - 1), d);
        r := r - 1;
      }
      MovedDownAll(g, t);
      Facts();
      ToTheRightIs(dirty[row], 0, g.cols);
      Dclreol(row, 0);
    }

    lemma ScrollFacts()
      requires Valid()
      ensures buf.Length > 0 && buf.Length <= |lines| && g.rows > 0 && g.cols > 0
      ensures Slot(virttop + 1, buf.Length) == Slot(|lines| + 1, buf.Length)
      ensures var l := lines[|lines| - buf.Length];
              var u := Abs().(lines := lines + [l]);
              && RingOk(buf[..], g.rows, lines + [l]) && Fine(g, u)
              && ClearEol(g, u, g.rows - 1, 0) == Scroll(g, Abs())
              && Screen(g, u) == lines[|lines| + 1 - g.rows..] + [l] && |Screen(g, u)| == g.rows
    {
      SlotOfSum(|lines|, 1, buf.Length);
      RingTurn(buf[..], g.rows, lines);
      var l := lines[|lines| - buf.Length];
      TurnIsScroll(g, Abs(), l);
    }

    /** Turn the ring by one line, which makes every row dirty, and clear the new bottom line. */
    method ScrollUp()
      requires Valid()
      modifies this`dirty, this`lines, this`virttop, buf
      ensures Valid() && Abs() == Scroll(g, old(Abs()))
      ensures old(Tracked()) ==> Tracked()
    {
      hide *;
      Facts();
      TrackedMeans();
      ScrollFacts();
      ghost var b, u := buf[..], Abs().(lines := lines + [lines[|lines| - buf.Length]]);
      virttop := Slot(virttop + 1, buf.Length);
      lines := lines + [lines[|lines| - buf.Length]];
      var r := 0;
      while r < g.rows
        invariant r <= g.rows == |dirty| && forall i :: 0 <= i < r ==> dirty[i] == Whole(g.cols)
        modifies this`dirty
      {
        dirty := dirty[r := Whole(g.cols)];
        r := r + 1;
      }
      assert buf[..] == b;
      AbsIs();
      AllMarked();
      StillValid(u);
      Dclreol(g.rows - 1, 0);
    }

    lemma AllMarked()
      requires |dirty| == g.rows && g.cols > 0 && g.rows > 0
      requires forall i :: 0 <= i < g.rows ==> dirty[i] == Whole(g.cols)
      requires Fine(g, Abs()) && screen.Length == g.rows && Wide(screen[..], g.cols)
      ensures DirtyOk() && (Tracked() <==> g.cols <= 256)
    {
      var shown := Screen(g, Abs());
      if g.cols <= 256 {
        forall r | 0 <= r < g.rows
          ensures RowCovered(shown[r], screen[..][r], dirty[r])
        {
          WholeRow(shown[r], screen[..][r]);
        }
      }
    }

    /** One row down, scrolling at the bottom. */
    method NextRow()
      requires Valid()
      modifies this`dirty, this`lines, this`virttop, this`row, this`col, buf
      ensures Valid() && Abs() == Down(g, old(Abs()))
      ensures old(Tracked()) ==> Tracked()
    {
      hide *;
      Facts();
      DownIs(g, Abs());
      if row + 1 < g.rows {
        MoveTo(row + 1, col);
      } else {
        ScrollUp();
      }
    }

    /** The default case of dchar: show c at the cursor, and advance. */
    method PutChar(c: char)
      requires Valid()
      modifies this`dirty, this`lines, this`virttop, this`row, this`col, buf
      ensures Valid() && Abs() == Show(g, old(Abs()), c)
      ensures old(Tracked()) ==> Tracked()
    {
      hide *;
      Facts();
      RowFacts(row);
      ShowIs(g, Abs(), c);
      var l := VLine(row);
      var d := dirty[row];
      if c != l[col].ch || l[col].at != attrib {
        d := Dirty(if col < d.lcol then col else d.lcol, if col > d.rcol then col else d.rcol);
      }
      CellMarks(l, col, Cell(c, attrib), dirty[row]);
      SetRow(row, l[col := Cell(c, attrib)], d);
      ghost var u := Abs();
      assert u == SetLine(g, old(Abs()), row, l[col := Cell(c, attrib)]);
      Facts();
      if col + 1 == g.cols {
        if !noWrap {
          MoveTo(row, 0);
          assert Abs() == u.(row := u.row, col := 0);
          NextRow();
          assert Abs() == Show(g, old(Abs()), c);
        } else {
          assert Abs() == Show(g, old(Abs()), c);
        }
      } else {
        MoveTo(row, col + 1);
        assert Abs() == Show(g, old(Abs()), c);
      }
    }

    method Enter(s: EscState)
      requires Valid() && s != ARG
      modifies this`state
      ensures Valid() && Abs() == old(Abs()).(mode := if s == NORMAL then Normal else Escape)
      ensures old(Tracked()) ==> Tracked()
    {
      hide Wide, RingOk, Slot, Covered, DirtyOk;
      state := s;
    }

    method StartArgs()
      requires Valid()
      modifies this`state, this`argi, this`arg
      ensures Valid() && Abs() == old(Abs()).(mode := Args([0]))
      ensures old(Tracked()) ==> Tracked()
    {
      hide Wide, RingOk, Slot, Covered, DirtyOk;
      state := ARG;
      argi := 0;
      arg := seq(MAXARGS, _ => 0);
      assert arg[..argi + 1] == [0];
    }

    method SaveCursor()
      requires Valid()
      modifies this`savcol, this`savrow
      ensures Valid() && Abs() == old(Abs()).(savcol := col, savrow := row)
      ensures old(Tracked()) ==> Tracked()
    {
      hide Wide, RingOk, Slot, Covered, DirtyOk;
      savcol := col;
      savrow := row;
    }

    method SetTabstop(on: bool)
      requires Valid()
      modifies this`tabstops
      ensures Valid() && Abs() == SetTab(old(Abs()), on)
      ensures old(Tracked()) ==> Tracked()
    {
      hide Wide, RingOk, Slot, Covered, DirtyOk;
      tabstops := tabstops[col := on];
    }

    /** The loop of dchar for a tab. */
    method NextTab()
      requires Valid()
      modifies this`row, this`col
      ensures Valid() && Abs() == old(Abs()).(col := Tab(tabstops, old(col)))
      ensures old(Tracked()) ==> Tracked()
    {
      hide *;
      Facts();
      AbsIs();
      ghost var goal := Tab(tabstops, col);
      var c := col;
      while c < g.cols - 1
        invariant c < g.cols && Tab(tabstops, c) == goal
        modifies {}
      {
        TabIs(tabstops, c);
        c := c + 1;
        if tabstops[c] {
          assert c == goal;
          break;
        }
      }
      assert c == goal by {
        if c != goal {
          TabIs(tabstops, c);
        }
      }
      MoveTo(row, c);
    }

    /** dchar. */
    method Dchar(c: char)
      requires Valid()
      modifies this, buf
      ensures Valid() && Abs() == Char(g, old(Abs()), c)
      ensures dirtyScreen == old(dirtyScreen) && (c == ESC ==> dirty == old(dirty))
      ensures old(Tracked()) ==> Tracked()
    {
      hide Valid, Tracked, Abs, Fine, ClearScreen, Tab, Down, Show;
      Facts();
      if c == '\U{1B}' {
        Enter(ESCAPE);
      } else if c == '\U{11}' || c == '\0' || c == '\U{07}' {
      } else if c == '\U{08}' {
        if col > 0 {
          MoveTo(row, col - 1);
        }
      } else if c == '\U{0C}' {
        Dclrscr();
      } else if c == '\t' {
        NextTab();
      } else if c == '\n' {
        NextRow();
      } else if c == '\r' {
        MoveTo(row, 0);
      } else {
        PutChar(c);
      }
    }

    /** desc. */
    method Desc(c: char)
      requires Valid() && state == ESCAPE
      modifies this, buf
      ensures Valid() && Abs() == Esc(g, old(Abs()), c)
      ensures dirtyScreen == old(dirtyScreen) && (c == ESC || c == '[' ==> dirty == old(dirty))
      ensures old(Tracked()) ==> Tracked()
    {
      hide Valid, Tracked, Abs, Fine, Char, SetTab;
      Facts();
      if c == 'O' || c == '[' {
        StartArgs();
      } else if c == '7' {
        SaveCursor();
        Enter(NORMAL);
      } else if c == '8' {
        SavedFacts();
        MoveTo(savrow, savcol);
        Enter(NORMAL);
      } else if c == '\U{1B}' {
      } else if c == 'H' {
        SetTabstop(true);
      } else {
        Enter(NORMAL);
        Dchar(c);
      }
    }

    lemma SavedFacts()
      requires Valid()
      ensures 0 <= savrow < g.rows && 0 <= savcol < g.cols
    {
    }

    lemma ArgFacts()
      requires Valid() && state == ARG
      ensures |arg| == MAXARGS && argi < MAXARGS && MAXARGS == 5
      ensures Abs().mode == Args(arg[..argi + 1])
      ensures Arg(Abs(), 0) == arg[0] && Arg(Abs(), 1) == arg[1]
    {
    }

    /** A letter that edits the screen; CSI L may leave rows unmarked. */
    method Dedit(c: char)
      requires Valid() && state == ARG
      modifies this`dirty, this`lines, this`row, this`col, buf
      ensures Valid() && Abs() == Edit(g, old(Abs()), c)
      ensures c == 'L' ==> InsertMarked(old(dirty), old(row), g.cols, dirty)
      ensures old(Tracked()) && (c == 'L' ==> old(row) + 2 >= g.rows || g.cols == 1) ==> Tracked()
    {
      hide Valid, Tracked, Abs, Fine, Arg;
      hide ClearScreen, ClearEos, ClearEol, InsertChar, DeleteChar, InsertLine, DeleteLine;
      ArgFacts();
      Facts();
      if c == '@' {
        Dinsert();
      } else if c == 'J' {
        if arg[0] == 2 {
          Dclrscr();
        } else if arg[0] == 0 {
          Dclreod(row, col);
        }
      } else if c == 'K' {
        Dclreol(row, col);
      } else if c == 'L' {
        Dinsline();
      } else if c == 'M' {
        Ddelline();
      } else if c == 'P' {
        Ddelchar();
      }
    }

    /** Where a letter moves the cursor: in int, with only one side of the range tested. */
    method Target(c: char) returns (r: int, k: int)
      requires Valid() && state == ARG
      ensures Move(g, Abs(), c) == Abs().(row := r, col := k)
    {
      ArgFacts();
      AbsIs();
      hide Valid, Abs, AbsMode, Arg, I32;
      assert Abs() == Abs().(row := row, col := col);
      var n := if arg[0] == 0 then 1 else arg[0];
      r, k := row, col;
      if c == 'A' {
        r := if n <= row then I32(row - n) else 0;
      } else if c == 'B' {
        r := I32(row + n);
        if r >= g.rows {
          r := g.rows - 1;
        }
      } else if c == 'C' {
        k := I32(col + n);
        if k >= g.cols {
          k := g.cols - 1;
        }
      } else if c == 'D' {
        k := if n <= col then I32(col - n) else 0;
      } else if c == 'f' || c == 'H' {
        r := if arg[0] == 0 then 0 else I32(arg[0] - 1);
        if r >= g.rows {
          r := g.rows - 1;
        }
        k := if arg[1] == 0 then 0 else I32(arg[1] - 1);
        if k >= g.cols {
          k := g.cols - 1;
        }
      } else if c == 'u' {
        r, k := savrow, savcol;
      }
    }

    /** A letter that moves the cursor. */
    method Dmove(c: char)
      requires Valid() && state == ARG && Stays(g, Abs(), c)
      modifies this`row, this`col
      ensures Valid() && Abs() == Move(g, old(Abs()), c)
      ensures old(Tracked()) ==> Tracked()
    {
      hide *;
      CanMove(c);
      var r, k := Target(c);
      MoveTo(r, k);
    }

    lemma CanMove(c: char)
      requires Valid() && Stays(g, Abs(), c)
      ensures var u := Move(g, Abs(), c);
              0 <= u.row < g.rows && 0 <= u.col < g.cols
      ensures g.rows > 0 && g.cols > 0
    {
      MoveStaysExactly(g, Abs(), c);
      hide Wide, ArgsFine, Stays;
    }

    method SetWrap(off: bool)
      requires Valid()
      modifies this`noWrap
      ensures Valid() && Abs() == old(Abs()).(noWrap := off)
      ensures old(Tracked()) ==> Tracked()
    {
      hide Wide, RingOk, Slot, Covered, DirtyOk;
      noWrap := off;
    }

    method ClearTabs()
      requires Valid()
      modifies this`tabstops
      ensures Valid() && Abs() == old(Abs()).(tabs := seq(|old(tabstops)|, _ => false))
      ensures old(Tracked()) ==> Tracked()
    {
      hide Wide, RingOk, Slot, Covered, DirtyOk;
      tabstops := seq(|tabstops|, _ => false);
    }

    /** dattrib of every argument. */
    method Dattribs()
      requires Valid() && state == ARG
      modifies this`attrib
      ensures Valid() && Abs() == old(Abs()).(attrib := PaintAll(old(attrib), old(arg[..argi + 1])))
      ensures old(Tracked()) ==> Tracked()
    {
      hide Wide, RingOk, Slot, Covered, DirtyOk, Paint;
      ghost var vals := arg[..argi + 1];
      ghost var goal := PaintAll(attrib, vals);
      var a := attrib;
      for i := 0 to argi + 1
        invariant PaintAll(a, vals[i..]) == goal
        modifies {}
      {
        assert vals[i..][1..] == vals[i + 1..];
        a := Paint(a, arg[i]);
      }
      attrib := a;
    }

    /** A letter that sets modes, attributes, tab stops or the saved cursor. */
    method Dset(c: char)
      requires Valid() && state == ARG
      modifies this
      ensures Valid() && Abs() == Set(old(Abs()), c)
      ensures dirtyScreen == old(dirtyScreen) && dirty == old(dirty)
      ensures old(Tracked()) ==> Tracked()
    {
      hide Valid, Tracked, Abs, Fine, SetTab, PaintAll, Arg;
      ArgFacts();
      Facts();
      if c == 'h' {
        if arg[0] == 7 {
          SetWrap(false);
        }
      } else if c == 'l' {
        if arg[0] == 7 {
          SetWrap(true);
        }
      } else if c == 'm' {
        Dattribs();
      } else if c == 's' {
        SaveCursor();
      } else if c == 'g' {
        if arg[0] == 0 {
          SetTabstop(false);
        } else if arg[0] == 3 {
          ClearTabs();
        }
      }
    }

    /** Another digit of the current argument. */
    method MoreDigits(n: nat)
      requires Valid() && state == ARG && argi < |arg|
      modifies this`arg
      ensures Valid() && Abs() == old(Abs()).(mode := Args(old(arg[..argi + 1])[argi := I32(10 * old(arg[argi]) + n)]))
      ensures old(Tracked()) ==> Tracked()
    {
      hide Wide, RingOk, Slot, Covered, DirtyOk;
      ghost var args := arg[..argi + 1];
      arg := arg[argi := I32(10 * arg[argi] + n)];
      assert arg[..argi + 1] == args[argi := arg[argi]];
    }

    /** The next argument. */
    method NextArg()
      requires Valid() && state == ARG && argi + 1 < MAXARGS
      modifies this`arg, this`argi
      ensures Valid() && Abs() == old(Abs()).(mode := Args(old(arg[..argi + 1]) + [0]))
      ensures old(Tracked()) ==> Tracked()
    {
      hide Wide, RingOk, Slot, Covered, DirtyOk;
      ghost var args := arg[..argi + 1];
      argi := argi + 1;
      arg := arg[argi := 0];
      assert arg[..argi + 1] == args + [0];
    }

    /** darg. */
    method Darg(c: char)
      requires Valid() && state == ARG && Harmless(g, Abs(), c)
      modifies this, buf
      ensures Valid() && Abs() == Sequence(g, old(Abs()), c, old(arg[..argi + 1]))
      ensures dirtyScreen == old(dirtyScreen) && (c == ESC ==> dirty == old(dirty))
      ensures c == 'L' ==> InsertMarked(old(dirty), old(row), g.cols, dirty)
      ensures old(Tracked()) && (c == 'L' ==> old(row) + 2 >= g.rows || g.cols == 1) ==> Tracked()
    {
      hide Valid, Tracked, Abs, Fine, Edit, Set, Move, Stays, I32;
      ArgFacts();
      if c == '\U{1B}' {
        Enter(ESCAPE);
      } else if c == '?' || c == '=' {
      } else if '0' <= c <= '9' {
        MoreDigits(c as int - '0' as int);
      } else if c == ';' {
        NextArg();
      } else {
        if c in "@JKLMP" {
          Dedit(c);
        } else if c in "hlmsg" {
          Dset(c);
        } else {
          Dmove(c);
        }
        Enter(NORMAL);
      }
    }

    lemma ModeFacts()
      requires Valid()
      ensures Abs().mode == (if state == NORMAL then Normal
                             else if state == ESCAPE then Escape else Args(arg[..argi + 1]))
      ensures state == ARG ==> argi < |arg|
    {
    }

    lemma ModeIs()
      ensures Abs().mode == Normal <==> state == NORMAL
      ensures Abs().mode == Escape <==> state == ESCAPE
      ensures Abs().mode.Args? <==> state == ARG
      ensures Abs().row == row
    {
    }

    lemma RowIs(r: nat)
      requires Valid() && r < g.rows
      ensures |Screen(g, Abs())| == g.rows && Screen(g, Abs())[r] == LineAt(g, Abs(), r)
    {
    }

    /** One byte of displaywrite. */
    method WriteByte(c: char)
      requires Valid() && Harmless(g, Abs(), c)
      modifies this, buf
      ensures Valid() && Abs() == Step(g, old(Abs()), c)
      ensures dirtyScreen == old(dirtyScreen)
      ensures c == ESC || (old(state) == ESCAPE && c == '[') ==> dirty == old(dirty)
      ensures old(state) == ARG && c == 'L' ==> InsertMarked(old(dirty), old(row), g.cols, dirty)
      ensures old(Tracked()) && !BadInsert(g, old(Abs()), c) ==> Tracked()
    {
      hide Valid, Tracked, Abs, Fine, Char, Esc, Sequence, Harmless;
      ModeFacts();
      AbsIs();
      match state {
        case ESCAPE => Desc(c);
        case ARG => Darg(c);
        case NORMAL => Dchar(c);
      }
    }

    /** displaywrite. */
    method DisplayWrite(s: string)
      requires Valid() && Bounded(g, Abs(), s)
      modifies this, buf
      ensures Valid() && Abs() == Write(g, old(Abs()), s) && dirtyScreen == old(dirtyScreen)
      ensures old(Tracked()) && NoBadInsert(g, old(Abs()), s) ==> Tracked()
    {
      hide *;
      ghost var t := Abs();
      for i := 0 to |s|
        invariant Valid() && Bounded(g, Abs(), s[i..]) && Write(g, Abs(), s[i..]) == Write(g, t, s)
        invariant NoBadInsert(g, t, s) ==> NoBadInsert(g, Abs(), s[i..])
        invariant old(Tracked()) && NoBadInsert(g, t, s) ==> Tracked()
        invariant dirtyScreen == old(dirtyScreen)
      {
        WriteIs(g, Abs(), s[i..]);
        assert s[i..][1..] == s[i + 1..];
        WriteByte(s[i]);
      }
      NothingToWrite(g, Abs(), s[|s|..]);
    }

    lemma ScreenFacts()
      requires Valid()
      ensures var shown := Screen(g, Abs());
              && |shown| == screen.Length == |dirty| == g.rows && g.cols > 0 && buf.Length > 0
              && (forall r :: 0 <= r < g.rows ==>
                    |shown[r]| == |screen[..][r]| == |screen[r]| == g.cols && shown[r] == VLine(r))
    {
      forall r | 0 <= r < g.rows
        ensures Screen(g, Abs())[r] == VLine(r)
      {
        RowFacts(r);
      }
    }

    lemma AllClean()
      requires Fine(g, Abs()) && screen.Length == g.rows && |dirty| == g.rows
      requires screen[..] == Screen(g, Abs()) && g.cols <= 256
      ensures Tracked()
    {
    }

    lemma StillWide(r: nat, before: seq<Line>)
      requires r < |before| == screen.Length && Wide(before, g.cols) && |screen[r]| == g.cols
      requires forall i :: 0 <= i < screen.Length && i != r ==> screen[i] == before[i]
      ensures Wide(screen[..], g.cols)
    {
    }

    lemma CleanRange(r: nat, d0: seq<Dirty>)
      requires r < |d0| == g.rows && g.cols > 0 && dirty == d0[r := Clean(g.cols)] && Ranges(d0, g.cols)
      ensures DirtyOk() && (Byte(g.cols - 1) > 0 ==> dirty[r].lcol > dirty[r].rcol)
    {
    }

    lemma RangesOk()
      requires DirtyOk()
      ensures |dirty| == g.rows && Ranges(dirty, g.cols)
    {
    }

    /** One turn of dupdate's loop. */
    method UpdateRow(r: nat)
      requires Valid() && r < g.rows
      requires r < screen.Length && r < |dirty| && buf.Length > 0 && |VLine(r)| == |screen[r]|
      modifies this`dirty, screen
      ensures Valid() && Abs() == old(Abs()) && VLine(r) == old(VLine(r))
      ensures screen[r] == Repainted(VLine(r), old(screen[r]), old(dirty[r]), dirtyScreen)
      ensures forall i :: 0 <= i < screen.Length && i != r ==> screen[i] == old(screen[i])
      ensures |dirty| == |old(dirty)| && forall i :: 0 <= i < |dirty| && i != r ==> dirty[i] == old(dirty[i])
      ensures g.cols > 0 && (Byte(g.cols - 1) > 0 ==> dirty[r].lcol > dirty[r].rcol)
    {
      hide *;
      Facts();
      SizeFacts();
      RowFacts(r);
      RangesOk();
      ghost var seen, b, d0 := screen[..], buf[..], dirty;
      var d := if dirtyScreen then Whole(g.cols) else dirty[r];
      RepaintedIs(VLine(r), screen[r], dirty[r], dirtyScreen);
      if d.lcol <= d.rcol {
        screen[r] := Painted(VLine(r), screen[r], d);
        dirty := dirty[r := Clean(g.cols)];
        CleanRange(r, d0);
        StillWide(r, seen);
        assert buf[..] == b;
        AbsIs();
        StillValid(Abs());
      }
    }

    /** dupdate. */
    method Dupdate()
      requires Valid()
      modifies this`dirty, this`dirtyScreen, screen
      ensures Valid() && Abs() == old(Abs())
      ensures old(Tracked()) ==> screen[..] == Screen(g, Abs()) && Tracked()
      ensures AllRepainted(Screen(g, Abs()), old(screen[..]), old(dirty), old(dirtyScreen), screen[..])
      ensures !dirtyScreen && g.cols > 0 && (Byte(g.cols - 1) > 0 ==> NoneDirty(dirty))
    {
      hide *;
      ScreenFacts();
      TrackedMeans();
      ghost var t, shown, seen, d0 := Abs(), Screen(g, Abs()), screen[..], dirty;
      var r := 0;
      while r < g.rows
        invariant r <= g.rows == |dirty| && Valid() && Abs() == t && dirtyScreen == old(dirtyScreen)
        invariant forall i :: 0 <= i < r ==> screen[i] == Repainted(shown[i], seen[i], d0[i], dirtyScreen)
        invariant forall i :: r <= i < g.rows ==> screen[i] == seen[i] && dirty[i] == d0[i]
        invariant g.cols > 0 && (Byte(g.cols - 1) > 0 ==> forall i :: 0 <= i < r ==> dirty[i].lcol > dirty[i].rcol)
        modifies this`dirty, screen
      {
        ScreenFacts();
        UpdateRow(r);
        r := r + 1;
      }
      ghost var now := screen[..];
      if old(Tracked()) {
        UpdatedScreen(shown, seen, d0, dirtyScreen, now);
      }
      RepaintedAll(shown, seen, d0, dirtyScreen, now, dirty, g.cols);
      Facts();
      dirtyScreen := false;
      assert screen[..] == now;
      AbsIs();
      StillValid(t);
      if now == shown && g.cols <= 256 {
        AllClean();
      }
    }

    lemma TrackedMeans()
      ensures Tracked() <==> g.cols <= 256 && (dirtyScreen || Covered(Screen(g, Abs()), screen[..], dirty))
    {
    }

    /** The end of newdisplay. */
    method Start()
      requires Valid()
      modifies this`dirty, this`lines, this`row, this`col, buf
      ensures Valid() && Abs() == ClearScreen(g, old(Abs())) && (Tracked() <==> g.cols <= 256)
      ensures |dirty| == g.rows && forall i :: 0 <= i < g.rows ==> dirty[i] == Whole(g.cols)
    {
      hide *;
      Dclrscr();
      Facts();
      SizeFacts();
      AllMarked();
    }

    /** newdisplay, with default sizes already resolved; whatever the real screen shows. */
    constructor (rows: nat, cols: nat, size: nat, glass: array<Line>)
      requires 0 < rows <= size && rows < HALF && 0 < cols < HALF
      requires glass.Length == rows && Wide(glass[..], cols)
      ensures Valid() && (Tracked() <==> cols <= 256) && Abs() == ClearScreen(g, Unwritten(g, size))
      ensures g == Geometry(rows, cols) && buf.Length == size && screen == glass && fresh(buf)
      ensures !dirtyScreen && |dirty| == rows && forall i :: 0 <= i < rows ==> dirty[i] == Whole(cols)
    {
      hide *;
      g := Geometry(rows, cols);
      screen := glass;
      var b := Calloc(size, cols);
      buf := b;
      virttop, row, col, savrow, savcol := 0, 0, 0, 0, 0;
      attrib, state, argi, arg, noWrap := PLAIN, NORMAL, 0, seq(MAXARGS, _ => 0), false;
      tabstops, dirty, dirtyScreen, lines := Tabs(cols), NewRanges(rows), false, Unused(size, cols);
      new;
      NewIsFine(g, size);
      NewIsValid(size);
      Start();
    }

    lemma NewIsValid(size: nat)
      requires 0 < g.rows <= buf.Length == size && 0 < g.cols && buf[..] == lines && buf != screen
      requires lines == Unused(size, g.cols) && state == NORMAL && |arg| == MAXARGS
      requires virttop == row == col == savrow == savcol == 0 && attrib == PLAIN && !noWrap
      requires tabstops == Tabs(g.cols) && dirty == NewRanges(g.rows)
      requires screen.Length == g.rows && Wide(screen[..], g.cols)
      requires Fine(g, Unwritten(g, size))
      ensures Valid() && Abs() == Unwritten(g, size)
    {
      SlotRepeats(0, buf.Length);
    }
  }

  /** A line of calloc'd memory. */
  function Zeroes(n: nat): (l: Line)
    ensures |l| == n
  {
    seq(n, _ => Cell(NUL, Attr(0)))
  }

  function Unused(size: nat, cols: nat): (ls: seq<Line>)
    ensures |ls| == size && forall i :: 0 <= i < size ==> ls[i] == Zeroes(cols)
  {
    seq(size, _ => Zeroes(cols))
  }

  method Calloc(size: nat, cols: nat) returns (b: array<Line>)
    ensures fresh(b) && b.Length == size && b[..] == Unused(size, cols)
  {
    b := new Line[size](_ => Zeroes(cols));
  }

  function Tabs(cols: nat): seq<bool> {
    seq(cols, i => i % 8 == 0)
  }

  function NewRanges(rows: nat): seq<Dirty> {
    seq(rows, _ => Dirty(0, 0))
  }

  /** The terminal before its first dclrscr. */
  function Unwritten(g: Geometry, size: nat): Term {
    Term(Unused(size, g.cols), 0, 0, 0, 0, PLAIN, Normal, false, Tabs(g.cols))
  }

  lemma NewIsFine(g: Geometry, size: nat)
    requires 0 < g.rows <= size && g.rows < HALF && 0 < g.cols < HALF
    ensures Fine(g, Unwritten(g, size))
  {
  }

  // ----- exactly when CSI L is tracked -----

  ghost predicate SameShape(shown: seq<Line>, seen: seq<Line>, dirty: seq<Dirty>, g: Geometry) {
    |shown| == |seen| == |dirty| == g.rows && Wide(shown, g.cols) && Wide(seen, g.cols)
  }

  function ShownAfterInsert(shown: seq<Line>, row: nat, blank: Line): seq<Line>
    requires row < |shown|
  {
    shown[..row] + [blank] + shown[row..|shown| - 1]
  }

  /** dinsline, on screens that were tracked, leaves them tracked. */
  ghost predicate InsertTracks(g: Geometry, row: nat, blank: Line)
    requires row < g.rows && g.cols > 0
  {
    forall shown: seq<Line>, seen: seq<Line>, dirty: seq<Dirty> ::
      SameShape(shown, seen, dirty, g) && Ranges(dirty, g.cols) && Covered(shown, seen, dirty) ==>
        Covered(ShownAfterInsert(shown, row, blank), seen, InsertMarks(dirty, row, g.cols))
  }

  lemma InsertTracked(g: Geometry, row: nat, blank: Line, shown: seq<Line>, seen: seq<Line>, dirty: seq<Dirty>)
    requires row < g.rows && g.cols > 0 && |blank| == g.cols <= 256 && (row + 2 >= g.rows || g.cols == 1)
    requires SameShape(shown, seen, dirty, g) && Ranges(dirty, g.cols) && Covered(shown, seen, dirty)
    ensures Covered(ShownAfterInsert(shown, row, blank), seen, InsertMarks(dirty, row, g.cols))
  {
    var after, d := ShownAfterInsert(shown, row, blank), InsertMarks(dirty, row, g.cols);
    forall r | 0 <= r < g.rows
      ensures RowCovered(after[r], seen[r], d[r])
    {
      if r < row {
        assert after[r] == shown[r] && d[r] == dirty[r];
      } else {
        assert d[r] == Whole(g.cols);
        assert |after[r]| == g.cols;
        WholeRow(after[r], seen[r]);
      }
    }
  }

  function Marker(g: Geometry, row: nat, r: nat): Line {
    seq(g.cols, _ => Cell(if r == row then 'x' else 'y', PLAIN))
  }

  lemma InsertUntracked(g: Geometry, row: nat, blank: Line)
    requires row + 2 < g.rows && 1 < g.cols <= 256
    ensures !InsertTracks(g, row, blank)
  {
    var shown := seq(g.rows, (r: nat) => Marker(g, row, r));
    var dirty := seq(g.rows, _ => Clean(g.cols));
    assert SameShape(shown, shown, dirty, g) && Ranges(dirty, g.cols) && Covered(shown, shown, dirty);
    var after, d := ShownAfterInsert(shown, row, blank), InsertMarks(dirty, row, g.cols);
    assert after[row + 1] == shown[row] && d[row + 1] == Clean(g.cols);
    assert after[row + 1][0] != shown[row + 1][0];
    assert !RowCovered(after[row + 1], shown[row + 1], d[row + 1]);
    assert !Covered(after, shown, d);
  }

  /** The range of a whole row does not reach the end of a row that is too wide. */
  lemma InsertTooWide(g: Geometry, row: nat, blank: Line)
    requires row < g.rows && 256 < g.cols && |blank| == g.cols
    ensures !InsertTracks(g, row, blank)
  {
    var c := if blank[g.cols - 1].ch == 'x' then 'y' else 'x';
    var line := seq(g.cols, _ => Cell(c, PLAIN));
    var shown := seq(g.rows, _ => line);
    var dirty := seq(g.rows, _ => Clean(g.cols));
    assert SameShape(shown, shown, dirty, g) && Ranges(dirty, g.cols) && Covered(shown, shown, dirty);
    var after, d := ShownAfterInsert(shown, row, blank), InsertMarks(dirty, row, g.cols);
    assert after[row] == blank && d[row] == Whole(g.cols);
    assert after[row][g.cols - 1] != shown[row][g.cols - 1];
    assert !RowCovered(after[row], shown[row], d[row]);
    assert !Covered(after, shown, d);
  }

  /** CSI L keeps the dirty ranges sound, whatever the screen and whatever ranges a display can hold,
      exactly if the screen has at most 256 columns and the cursor is on one of the last two rows, or it has
      one column. */
  lemma InsertLineTracksExactly(g: Geometry, row: nat, blank: Line)
    requires row < g.rows && g.cols > 0 && |blank| == g.cols
    ensures InsertTracks(g, row, blank) <==> g.cols <= 256 && (row + 2 >= g.rows || g.cols == 1)
  {
    if g.cols > 256 {
      InsertTooWide(g, row, blank);
    } else if row + 2 >= g.rows || g.cols == 1 {
      forall shown: seq<Line>, seen: seq<Line>, dirty: seq<Dirty> |
          SameShape(shown, seen, dirty, g) && Ranges(dirty, g.cols) && Covered(shown, seen, dirty)
        ensures Covered(ShownAfterInsert(shown, row, blank), seen, InsertMarks(dirty, row, g.cols))
      {
        InsertTracked(g, row, blank, shown, seen, dirty);
      }
    } else {
      InsertUntracked(g, row, blank);
    }
  }

  /** dupdate has repainted every row as its range says. */
  ghost predicate AllRepainted(shown: seq<Line>, seen: seq<Line>, dirty: seq<Dirty>, whole: bool, now: seq<Line>) {
    && |shown| == |seen| == |dirty| == |now|
    && forall r :: 0 <= r < |now| ==>
         |shown[r]| == |seen[r]| && now[r] == Repainted(shown[r], seen[r], dirty[r], whole)
  }

  lemma RepaintedAll(shown: seq<Line>, seen: seq<Line>, dirty: seq<Dirty>, whole: bool, now: seq<Line>,
                     after: seq<Dirty>, cols: nat)
    requires |shown| == |seen| == |dirty| == |now| && forall r :: 0 <= r < |shown| ==> |shown[r]| == |seen[r]|
    requires forall r :: 0 <= r < |now| ==> now[r] == Repainted(shown[r], seen[r], dirty[r], whole)
    requires cols > 0 && (Byte(cols - 1) > 0 ==> forall r :: 0 <= r < |after| ==> after[r].lcol > after[r].rcol)
    ensures AllRepainted(shown, seen, dirty, whole, now) && (Byte(cols - 1) > 0 ==> NoneDirty(after))
  {
  }

  predicate NoneDirty(dirty: seq<Dirty>) {
    forall r :: 0 <= r < |dirty| ==> dirty[r].lcol > dirty[r].rcol
  }

  /** What dinsline leaves of the dirty ranges. */
  ghost predicate InsertMarked(before: seq<Dirty>, row: int, cols: nat, after: seq<Dirty>) {
    0 <= row < |before| && cols > 0 && after == InsertMarks(before, row, cols)
  }

  lemma UpdatedScreen(shown: seq<Line>, seen: seq<Line>, dirty: seq<Dirty>, whole: bool, now: seq<Line>)
    requires |shown| == |seen| == |dirty| == |now| && forall r :: 0 <= r < |shown| ==> |shown[r]| == |seen[r]| <= 256
    requires whole || Covered(shown, seen, dirty)
    requires forall r :: 0 <= r < |now| ==> now[r] == Repainted(shown[r], seen[r], dirty[r], whole)
    ensures now == shown
  {
    RefreshedIsShown(shown, seen, dirty, whole);
    assert forall r :: 0 <= r < |now| ==> now[r] == Refreshed(shown, seen, dirty, whole)[r];
  }

  lemma RepaintedIs(shown: Line, seen: Line, d: Dirty, whole: bool)
    requires |shown| == |seen| > 0
    ensures Repainted(shown, seen, d, whole)
         == Painted(shown, seen, if whole then Whole(|shown|) else d)
    ensures !whole && d.lcol > d.rcol ==> Repainted(shown, seen, d, whole) == seen
    ensures |Repainted(shown, seen, d, whole)| == |shown|
  {
  }

  /** CSI L with rows between the cursor's and the bottom one, which it moves without marking. */
  predicate BadInsert(g: Geometry, t: Term, c: char) {
    t.mode.Args? && c == 'L' && t.row + 2 < g.rows && g.cols != 1
  }

  predicate NoBadInsert(g: Geometry, t: Term, s: string)
    decreases |s|
  {
    s == [] || (!BadInsert(g, t, s[0]) && NoBadInsert(g, Step(g, t, s[0]), s[1..]))
  }

  lemma WriteIs(g: Geometry, t: Term, s: string)
    requires s != []
    ensures Write(g, t, s) == Write(g, Step(g, t, s[0]), s[1..])
    ensures Bounded(g, t, s) <==> Harmless(g, t, s[0]) && Bounded(g, Step(g, t, s[0]), s[1..])
    ensures NoBadInsert(g, t, s) <==> !BadInsert(g, t, s[0]) && NoBadInsert(g, Step(g, t, s[0]), s[1..])
  {
  }

  lemma NothingToWrite(g: Geometry, t: Term, s: string)
    requires s == []
    ensures Write(g, t, s) == t
  {
  }

  lemma TabIs(tabs: seq<bool>, c: int)
    requires c >= 0
    ensures Tab(tabs, c)
         == if c + 1 >= |tabs| then c else if tabs[c + 1] then c + 1 else Tab(tabs, c + 1)
  {
  }

  lemma ShowIs(g: Geometry, t: Term, c: char)
    requires Fine(g, t)
    ensures var l := LineAt(g, t, t.row);
            |l| == g.cols && var u := SetLine(g, t, t.row, l[t.col := Cell(c, t.attrib)]);
            Show(g, t, c) == if t.col + 1 < g.cols then u.(row := u.row, col := t.col + 1)
                             else if t.noWrap then u else Down(g, u.(row := u.row, col := 0))
  {
    LineIsWide(g, t, t.row);
  }

  lemma CellMarks(l: Line, col: nat, c: Cell, d: Dirty)
    requires col < |l|
    ensures Marks(l, l[col := c], d,
                  Dirty(if col < d.lcol then col else d.lcol, if col > d.rcol then col else d.rcol))
    ensures c == l[col] ==> Marks(l, l[col := c], d, d)
    ensures |l[col := c]| == |l|
  {
  }

  lemma DownIs(g: Geometry, t: Term)
    ensures Down(g, t) == if t.row + 1 < g.rows then t.(row := t.row + 1, col := t.col) else Scroll(g, t)
  {
  }

  lemma TurnIsScroll(g: Geometry, t: Term, l: Line)
    requires Fine(g, t) && |l| == g.cols
    ensures var u := t.(lines := t.lines + [l]);
            && Fine(g, u) && ClearEol(g, u, g.rows - 1, 0) == Scroll(g, t)
            && Screen(g, u) == t.lines[|t.lines| + 1 - g.rows..] + [l] && |Screen(g, u)| == g.rows
  {
    var u := t.(lines := t.lines + [l]);
    assert u.lines[|t.lines|] == l;
    assert Cleared(l, 0, t.attrib) == Blanks(g.cols, t.attrib);
    assert u.lines[|t.lines| := Blanks(g.cols, t.attrib)] == t.lines + [Blanks(g.cols, t.attrib)];
  }

  lemma RightMarks(l: Line, l': Line, c: nat, d: Dirty)
    requires |l| == |l'| && c < |l| && d.rcol < |l| && l[..c] == l'[..c]
    ensures Marks(l, l', d, Dirty(if c < d.lcol then c else d.lcol, |l| - 1))
  {
    assert forall i :: 0 <= i < c ==> l[i] == l[..c][i] && l'[i] == l'[..c][i];
  }

  lemma WholeMarks(l: Line, l': Line, d: Dirty)
    requires |l| == |l'| > 0 && d.rcol < |l|
    ensures Marks(l, l', d, Dirty(0, |l| - 1))
  {
  }

  lemma InsertIs(g: Geometry, t: Term)
    requires Fine(g, t)
    ensures var l := LineAt(g, t, t.row);
            && |l| == g.cols
            && InsertChar(g, t) == SetLine(g, t, t.row, l[..t.col] + [Cell(' ', t.attrib)] + l[t.col..|l| - 1])
            && |l[..t.col] + [Cell(' ', t.attrib)] + l[t.col..|l| - 1]| == |l|
            && (l[..t.col] + [Cell(' ', t.attrib)] + l[t.col..|l| - 1])[..t.col] == l[..t.col]
  {
    LineIsWide(g, t, t.row);
  }

  lemma DeleteIs(g: Geometry, t: Term)
    requires Fine(g, t)
    ensures var l := LineAt(g, t, t.row);
            && |l| == g.cols
            && DeleteChar(g, t) == SetLine(g, t, t.row, l[..t.col] + l[t.col + 1..] + [Cell(' ', t.attrib)])
            && |l[..t.col] + l[t.col + 1..] + [Cell(' ', t.attrib)]| == |l|
            && (l[..t.col] + l[t.col + 1..] + [Cell(' ', t.attrib)])[..t.col] == l[..t.col]
  {
    LineIsWide(g, t, t.row);
  }

  /** What dinsline leaves of the dirty ranges: it marks only the bottom row and the cursor's. */
  function InsertMarks(dirty: seq<Dirty>, row: nat, cols: nat): seq<Dirty>
    requires row < |dirty| && cols > 0
  {
    BottomMark(dirty, row, cols)[row := Whole(cols)]
  }

  function BottomMark(dirty: seq<Dirty>, row: nat, cols: nat): (d: seq<Dirty>)
    requires row < |dirty| && cols > 0
    ensures |d| == |dirty|
  {
    if row + 1 < |dirty| then dirty[|dirty| - 1 := Whole(cols)] else dirty
  }

  /** A range that has been stored is stored as it is. */
  lemma StoredAgain(dirty: seq<Dirty>, r: nat, cols: nat)
    requires r < |dirty| && Ranges(dirty, cols) && cols > 0
    ensures Stored(dirty[r]) == dirty[r] && dirty[r := dirty[r]] == dirty && Stored(Dirty(0, cols - 1)) == Whole(cols)
  {
  }

  lemma InsertMarksIs(dirty: seq<Dirty>, row: nat, cols: nat)
    requires row < |dirty| && cols > 0
    ensures row + 1 >= |dirty| ==> BottomMark(dirty, row, cols) == dirty
    ensures row + 1 < |dirty| ==> BottomMark(dirty, row, cols) == dirty[|dirty| - 1 := Whole(cols)]
    ensures InsertMarked(dirty, row, cols, BottomMark(dirty, row, cols)[row := Whole(cols)])
    ensures forall r :: row < r < |dirty| - 1 ==>
              BottomMark(dirty, row, cols)[r := BottomMark(dirty, row, cols)[r]] == BottomMark(dirty, row, cols)
  {
  }

  // ----- the loops of ddelline and dinsline -----

  /** The rows from the cursor's up to before r hold what was one row below. */
  function MovedUp(g: Geometry, t: Term, r: nat): Term {
    var i, k := |t.lines| - g.rows + t.row, |t.lines| - g.rows + r;
    if 0 <= i <= k < |t.lines| then t.(lines := t.lines[..i] + t.lines[i + 1..k + 1] + t.lines[k..]) else t
  }

  lemma MovedUpNone(g: Geometry, t: Term)
    requires Fine(g, t)
    ensures MovedUp(g, t, t.row) == t
  {
    var i := |t.lines| - g.rows + t.row;
    assert t.lines[..i] + t.lines[i + 1..i + 1] + t.lines[i..] == t.lines;
  }

  lemma MovedUpOne(g: Geometry, t: Term, r: nat)
    requires Fine(g, t) && t.row <= r && r + 1 < g.rows
    ensures var u := MovedUp(g, t, r); SetLine(g, u, r, LineAt(g, u, r + 1)) == MovedUp(g, t, r + 1)
  {
    var u, v := MovedUp(g, t, r), MovedUp(g, t, r + 1);
    var k := |t.lines| - g.rows + r;
    assert |u.lines| == |t.lines| == |v.lines|;
    assert u.lines[k + 1] == t.lines[k + 1];
    assert u.lines[k := t.lines[k + 1]] == v.lines;
  }

  lemma MovedUpAll(g: Geometry, t: Term)
    requires Fine(g, t)
    ensures ClearEol(g, MovedUp(g, t, g.rows - 1), g.rows - 1, 0) == DeleteLine(g, t)
  {
    var u, v := MovedUp(g, t, g.rows - 1), DeleteLine(g, t);
    var n, i := |t.lines|, |t.lines| - g.rows + t.row;
    assert |u.lines| == n == |v.lines|;
    assert |u.lines[n - 1]| == |t.lines[n - 1]| == g.cols;
    assert Cleared(u.lines[n - 1], 0, t.attrib) == Blanks(g.cols, t.attrib);
    assert u.lines[n - 1 := Blanks(g.cols, t.attrib)] == v.lines;
  }

  /** The rows from r on hold what was one row above. */
  function MovedDown(g: Geometry, t: Term, r: nat): Term {
    var k := |t.lines| - g.rows + r;
    if 0 < k <= |t.lines| then t.(lines := t.lines[..k] + t.lines[k - 1..|t.lines| - 1]) else t
  }

  lemma MovedDownNone(g: Geometry, t: Term)
    requires Fine(g, t)
    ensures MovedDown(g, t, g.rows) == t
  {
    assert t.lines[..|t.lines|] + t.lines[|t.lines| - 1..|t.lines| - 1] == t.lines;
  }

  lemma MovedDownOne(g: Geometry, t: Term, r: nat)
    requires Fine(g, t) && t.row < r < g.rows
    ensures var u := MovedDown(g, t, r + 1); SetLine(g, u, r, LineAt(g, u, r - 1)) == MovedDown(g, t, r)
  {
    var u, v := MovedDown(g, t, r + 1), MovedDown(g, t, r);
    var k := |t.lines| - g.rows + r;
    assert |u.lines| == |t.lines| == |v.lines|;
    assert u.lines[k - 1] == t.lines[k - 1];
    assert u.lines[k := t.lines[k - 1]] == v.lines;
  }

  lemma MovedDownAll(g: Geometry, t: Term)
    requires Fine(g, t)
    ensures ClearEol(g, MovedDown(g, t, t.row + 1), t.row, 0) == InsertLine(g, t)
  {
    var u, v := MovedDown(g, t, t.row + 1), InsertLine(g, t);
    var n, i := |t.lines|, |t.lines| - g.rows + t.row;
    assert |u.lines| == n == |v.lines|;
    assert |u.lines[i]| == |t.lines[i]| == g.cols;
    assert Cleared(u.lines[i], 0, t.attrib) == Blanks(g.cols, t.attrib);
    assert u.lines[i := Blanks(g.cols, t.attrib)] == v.lines;
  }

  lemma ClearEosIs(g: Geometry, t: Term, r: nat, c: nat)
    ensures ClearEos(g, t, r, c) == ClearRows(g, ClearEol(g, t, r, c), r + 1)
  {
  }

  lemma ClearRowsIs(g: Geometry, t: Term, r: nat)
    ensures ClearRows(g, t, r) == if r >= g.rows then t else ClearRows(g, ClearEol(g, t, r, 0), r + 1)
  {
  }

  lemma ClearScreenIs(g: Geometry, t: Term)
    ensures ClearScreen(g, t) == ClearEos(g, t, 0, 0).(row := 0, col := 0)
  {
  }

  /** The range after marking from column c to the right edge. */
  function ToTheRight(d: Dirty, c: nat, cols: nat): Dirty {
    Stored(Dirty(if c < d.lcol then c else d.lcol, if cols > 0 then cols - 1 else 0))
  }

  lemma ToTheRightIs(d: Dirty, c: nat, cols: nat)
    requires cols > 0
    ensures ToTheRight(d, c, cols) == Stored(Dirty(if c < d.lcol then c else d.lcol, cols - 1))
    ensures ToTheRight(d, 0, cols) == Whole(cols)
  {
  }

  lemma OneMoreBlank(l: Line, c: nat, i: nat, at: Attr)
    requires c <= i < |l|
    ensures (l[..c] + Blanks(i - c, at) + l[i..])[i := Cell(' ', at)] == l[..c] + Blanks(i + 1 - c, at) + l[i + 1..]
  {
  }

  lemma ClearedIs(l: Line, c: nat, at: Attr)
    requires c < |l|
    ensures Cleared(l, c, at) == l[..c] + Blanks(|l| - c, at) + l[|l|..]
  {
  }

  lemma ClearMarks(l: Line, c: nat, at: Attr, d: Dirty)
    requires c < |l| && d.rcol < |l|
    ensures Marks(l, Cleared(l, c, at), d, Dirty(if c < d.lcol then c else d.lcol, |l| - 1))
  {
  }

  lemma ClearEolIs(g: Geometry, t: Term, r: nat, c: nat)
    ensures ClearEol(g, t, r, c) == SetLine(g, t, r, Cleared(LineAt(g, t, r), c, t.attrib))
  {
  }

  // ----- a screen left wrong -----

  lemma {:induction false} ClearedRowIs(g: Geometry, t: Term, r: nat, i: nat)
    requires Fine(g, t) && r <= i < g.rows
    ensures LineAt(g, ClearRows(g, t, r), i) == Blanks(g.cols, t.attrib)
    decreases g.rows - r
  {
    var u := ClearEol(g, t, r, 0);
    ClearEolFollows(g, t, r, 0);
    LineIsWide(g, t, r);
    assert u.attrib == t.attrib;
    assert LineAt(g, u, r) == Cleared(LineAt(g, t, r), 0, t.attrib) == Blanks(g.cols, t.attrib);
    hide ClearEol, Fine;
    if r == i {
      OtherRowsClear(g, u, r + 1, i);
    } else {
      ClearedRowIs(g, u, r + 1, i);
    }
  }

  lemma OtherRow(g: Geometry, t: Term, r: nat, i: nat, l: Line)
    requires i != r
    ensures LineAt(g, SetLine(g, t, r, l), i) == LineAt(g, t, i)
  {
  }

  lemma {:induction false} OtherRowsClear(g: Geometry, t: Term, r: nat, i: nat)
    requires i < r
    ensures LineAt(g, ClearRows(g, t, r), i) == LineAt(g, t, i)
    decreases g.rows - r
  {
    if r < g.rows {
      OtherRow(g, t, r, i, Cleared(LineAt(g, t, r), 0, t.attrib));
      hide SetLine, LineAt, Cleared;
      OtherRowsClear(g, ClearEol(g, t, r, 0), r + 1, i);
    }
  }

  /** A new display: rows 0 and 1 are blank, and the cursor is at the top. */
  lemma NewScreen(g: Geometry, size: nat)
    requires 3 <= g.rows <= size && g.rows < HALF && 1 < g.cols < HALF
    ensures var t := ClearScreen(g, Unwritten(g, size));
            && t.mode == Normal && t.row == t.col == 0 && t.attrib == PLAIN && !t.noWrap
            && LineAt(g, t, 1) == Blanks(g.cols, PLAIN)
  {
    var t := Unwritten(g, size);
    NewIsFine(g, size);
    ClearEolFollows(g, t, 0, 0);
    ClearedRowIs(g, ClearEol(g, t, 0, 0), 1, 1);
    ClearRowsChanges(g, ClearEol(g, t, 0, 0), 1);
    hide ClearRows, Cleared;
  }

  /** The letter a goes to the top left corner. */
  lemma LetterShown(g: Geometry, t: Term)
    requires Fine(g, t) && t.mode == Normal && t.row == t.col == 0 && g.rows >= 3 && g.cols > 1
    ensures Harmless(g, t, 'a') && !BadInsert(g, t, 'a')
    ensures var u := Step(g, t, 'a');
            && u.mode == Normal && u.row == 0 && LineAt(g, u, 1) == LineAt(g, t, 1)
            && LineAt(g, u, 0) != [] && LineAt(g, u, 0)[0].ch == 'a'
  {
    LineIsWide(g, t, 0);
    assert Step(g, t, 'a') == Show(g, t, 'a');
  }

  /** ESC [ L on the top row. */
  lemma LineInserted(g: Geometry, t: Term)
    requires Fine(g, t) && t.mode == Normal && t.row == 0 && g.rows >= 3
    ensures Harmless(g, t, ESC) && Step(g, t, ESC) == t.(mode := Escape)
    ensures Harmless(g, t.(mode := Escape), '[') && Step(g, t.(mode := Escape), '[') == t.(mode := Args([0]))
    ensures var u := Step(g, t.(mode := Args([0])), 'L');
            Harmless(g, t.(mode := Args([0])), 'L') && LineAt(g, u, 1) == LineAt(g, t, 0)
  {
    var v := t.(mode := Args([0]));
    assert Step(g, v, 'L') == InsertLine(g, v).(mode := Normal);
    assert |InsertLine(g, v).lines| == |v.lines|;
  }

  /** The screen shows a letter at its top left corner, nothing is dirty, and row 1 begins with a blank. */
  ghost predicate LetterOnTop(d: Display)
    reads d, d.buf, d.screen
  {
    && d.Valid() && d.g.rows >= 3 && d.g.cols > 1 && !d.dirtyScreen && NoneDirty(d.dirty)
    && d.Abs().row == 0 && |LineAt(d.g, d.Abs(), 0)| == d.g.cols && LineAt(d.g, d.Abs(), 0)[0].ch == 'a'
    && d.screen[1][0].ch == ' '
  }

  lemma OnTop(d: Display)
    requires d.Valid() && d.g.rows >= 3 && d.g.cols > 1 && !d.dirtyScreen && NoneDirty(d.dirty)
    requires d.Abs().row == 0 && LineAt(d.g, d.Abs(), 0) != [] && LineAt(d.g, d.Abs(), 0)[0].ch == 'a'
    requires d.screen[..] == Screen(d.g, d.Abs()) && LineAt(d.g, d.Abs(), 1) == Blanks(d.g.cols, PLAIN)
    ensures LetterOnTop(d)
  {
    d.ScreenFacts();
    LineIsWide(d.g, d.Abs(), 0);
    assert d.screen[..][1] == LineAt(d.g, d.Abs(), 1);
  }

  method ShowLetter(d: Display)
    requires d.Valid() && d.Tracked() && d.g.rows >= 3 && d.g.cols > 1
    requires var t := d.Abs(); t.mode == Normal && t.row == t.col == 0 && LineAt(d.g, t, 1) == Blanks(d.g.cols, PLAIN)
    modifies d, d.buf, d.screen
    ensures LetterOnTop(d) && d.Abs().mode == Normal
  {
    hide *;
    d.TrackedMeans();
    d.Dupdate();
    d.Facts();
    LetterShown(d.g, d.Abs());
    d.WriteByte('a');
    d.Dupdate();
    OnTop(d);
  }

  lemma WrongRow(g: Geometry, shown: seq<Line>, seen: seq<Line>, before: seq<Dirty>, dirty: seq<Dirty>,
                 now: seq<Line>)
    requires AllRepainted(shown, seen, dirty, false, now) && |shown| >= 3
    requires NoneDirty(before) && InsertMarked(before, 0, g.cols, dirty)
    requires seen[1] != [] && shown[1] != [] && seen[1][0].ch == ' ' && shown[1][0].ch == 'a'
    ensures now[1] != shown[1]
  {
    assert now[1] == seen[1];
  }

  /** InsertLine's bytes, behind a letter that is shown. */
  method InsertBytes(d: Display)
    requires LetterOnTop(d) && d.Abs().mode == Normal
    modifies d, d.buf, d.screen
    ensures d.Valid() && |Screen(d.g, d.Abs())| == d.screen.Length == d.g.rows
    ensures d.screen[1] != Screen(d.g, d.Abs())[1]
  {
    ghost var t, seen, before := d.Abs(), d.screen[..], d.dirty;
    d.ScreenFacts();
    hide Display.Valid, Display.Tracked, Display.Abs, Harmless, Step, InsertMarked, NoneDirty, BadInsert, AllRepainted,
      Screen, LineAt, Fine;
    d.Facts();
    d.ModeIs();
    LineInserted(d.g, t);
    d.WriteByte(ESC);
    d.ModeIs();
    d.WriteByte('[');
    d.ModeIs();
    d.WriteByte('L');
    ghost var dirty := d.dirty;
    d.RowIs(1);
    d.Dupdate();
    d.ScreenFacts();
    WrongRow(d.g, Screen(d.g, d.Abs()), seen, before, dirty, d.screen[..]);
  }

  /** On every display of three rows and two columns or more: after the bytes a ESC [ L, with updates
      of the screen before them, behind the a and at the end, row 1 of the screen is wrong. */
  method InsertGoesUnseen(rows: nat, cols: nat, size: nat, glass: array<Line>) returns (d: Display)
    requires 3 <= rows <= size && rows < HALF && 1 < cols <= 256
    requires glass.Length == rows && Wide(glass[..], cols)
    modifies glass
    ensures d.Valid() && d.g == Geometry(rows, cols)
    ensures |Screen(d.g, d.Abs())| == d.screen.Length == rows && d.screen[1] != Screen(d.g, d.Abs())[1]
  {
    NewScreen(Geometry(rows, cols), size);
    hide *;
    d := new Display(rows, cols, size, glass);
    ShowLetter(d);
    InsertBytes(d);
  }

  lemma NewTop(g: Geometry, size: nat)
    requires 0 < g.rows <= size && g.rows < HALF && 0 < g.cols < HALF
    ensures LineAt(g, ClearScreen(g, Unwritten(g, size)), 0) == Blanks(g.cols, PLAIN)
  {
    var t := Unwritten(g, size);
    NewIsFine(g, size);
    LineIsWide(g, t, 0);
    var u := ClearEol(g, t, 0, 0);
    assert LineAt(g, u, 0) == Cleared(LineAt(g, t, 0), 0, PLAIN) == Blanks(g.cols, PLAIN);
    OtherRowsClear(g, u, 1, 0);
    hide ClearRows, Cleared, ClearEol;
  }

  lemma EndUnpainted(shown: seq<Line>, seen: seq<Line>, dirty: seq<Dirty>, now: seq<Line>, cols: nat)
    requires AllRepainted(shown, seen, dirty, false, now) && |shown| > 0 && |shown[0]| == cols > 256
    requires dirty[0] == Whole(cols)
    ensures |now[0]| == cols && now[0][cols - 1] == seen[0][cols - 1]
  {
  }

  /** On every display of more than 256 columns: the first update does not reach the end of the top row, which goes
      on showing what was there. */
  method EndGoesUnseen(rows: nat, cols: nat, size: nat, glass: array<Line>) returns (d: Display)
    requires 0 < rows <= size && rows < HALF && 256 < cols < HALF
    requires glass.Length == rows && Wide(glass[..], cols)
    requires |glass[0]| == cols && glass[0][cols - 1] != Cell(' ', PLAIN)
    modifies glass
    ensures d.Valid() && d.g == Geometry(rows, cols)
    ensures |Screen(d.g, d.Abs())| == d.screen.Length == rows && |Screen(d.g, d.Abs())[0]| == |d.screen[0]| == cols
    ensures d.screen[0][cols - 1] != Screen(d.g, d.Abs())[0][cols - 1]
  {
    var g := Geometry(rows, cols);
    NewTop(g, size);
    assert Blanks(cols, PLAIN)[cols - 1] == Cell(' ', PLAIN);
    ghost var seen := glass[..];
    hide *;
    d := new Display(rows, cols, size, glass);
    ghost var dirty := d.dirty;
    d.RowIs(0);
    d.Dupdate();
    d.ScreenFacts();
    EndUnpainted(Screen(d.g, d.Abs()), seen, dirty, d.screen[..], cols);
  }
}
