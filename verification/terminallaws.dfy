/** What a program that writes to the terminal of msdos/display.c may rely on: for every control character and every
    escape sequence, spelled as the bytes that are sent, which cells of the screen change to what and where the cursor
    then is. */
module TerminalLaws {
  import opened Machine
  import opened Terminal
  import opened TerminalBytes
  import Display

  ghost predicate Framed(g: Geometry, t: Term) {
    g.rows <= |t.lines| && forall i :: 0 <= i < |t.lines| ==> |t.lines[i]| == g.cols
  }

  /** What stands in row r and column c of the screen. */
  ghost function CellAt(g: Geometry, t: Term, r: nat, c: nat): Cell
    requires Framed(g, t) && r < g.rows && c < g.cols
  {
    t.lines[|t.lines| - g.rows + r][c]
  }

  lemma FineIsFramed(g: Geometry, t: Term)
    requires Fine(g, t)
    ensures Framed(g, t) && 0 <= t.row < g.rows && 0 <= t.col < g.cols && |t.tabs| == g.cols
  {
  }

  // ----- characters -----

  /** What is shown as it stands. */
  predicate Printable(s: string) {
    forall i :: 0 <= i < |s| ==> s[i] !in "\0\U{07}\U{08}\t\n\U{0C}\r\U{11}\U{1B}"
  }

  lemma SameCells(g: Geometry, t: Term, u: Term)
    requires Framed(g, t) && u.lines == t.lines
    ensures Framed(g, u)
    ensures forall r, c {:trigger CellAt(g, u, r, c)} :: 0 <= r < g.rows && 0 <= c < g.cols ==>
              CellAt(g, u, r, c) == CellAt(g, t, r, c)
  {
  }

  lemma CellPut(g: Geometry, t: Term, ch: Cell)
    requires Framed(g, t) && 0 <= t.row < g.rows && 0 <= t.col < g.cols
    ensures var u := SetLine(g, t, t.row, Put(LineAt(g, t, t.row), t.col, ch));
            && u == t.(lines := u.lines) && |u.lines| == |t.lines| && Framed(g, u)
            && forall r, c {:trigger CellAt(g, u, r, c)} :: 0 <= r < g.rows && 0 <= c < g.cols ==>
                 CellAt(g, u, r, c) == if r == t.row && c == t.col then ch else CellAt(g, t, r, c)
  {
  }

  lemma ScrolledUp(g: Geometry, t: Term)
    requires Framed(g, t) && 0 <= t.row == g.rows - 1
    ensures var u := Down(g, t);
            && u == t.(lines := u.lines) && |u.lines| == |t.lines| + 1 && Framed(g, u)
            && forall r, c {:trigger CellAt(g, u, r, c)} :: 0 <= r < g.rows && 0 <= c < g.cols ==>
                 CellAt(g, u, r, c) == if r == t.row then Cell(' ', t.attrib) else CellAt(g, t, r + 1, c)
  {
  }

  lemma ShowStep(g: Geometry, t: Term, ch: char)
    requires t.mode == Normal && Printable([ch])
    ensures Write(g, t, [ch]) == Show(g, t, ch)
  {
    Write1(g, t, ch);
    assert [ch][0] == ch;
    hide Show, Write, Down, ClearScreen, Tab;
  }

  /** A character goes to the cursor, which advances if it is not at the end of its line. */
  lemma Shown(g: Geometry, t: Term, ch: char)
    requires Fine(g, t) && t.mode == Normal && Printable([ch]) && t.col + 1 < g.cols
    ensures var u := Write(g, t, [ch]);
            && u == t.(lines := u.lines, col := t.col + 1) && |u.lines| == |t.lines| && Framed(g, u)
            && forall r, c {:trigger CellAt(g, u, r, c)} :: 0 <= r < g.rows && 0 <= c < g.cols ==>
                 CellAt(g, u, r, c) == if r == t.row && c == t.col then Cell(ch, t.attrib) else CellAt(g, t, r, c)
  {
    ShowStep(g, t, ch);
    FineIsFramed(g, t);
    hide Write, Fine, Put, SetLine, LineAt, Framed;
    var v := SetLine(g, t, t.row, Put(LineAt(g, t, t.row), t.col, Cell(ch, t.attrib)));
    CellPut(g, t, Cell(ch, t.attrib));
    SameCells(g, v, Write(g, t, [ch]));
  }

  /** At the end of a line the cursor stays there in the mode without line wrap; otherwise it goes to the beginning of
      the next one. */
  lemma ShownAtTheEnd(g: Geometry, t: Term, ch: char)
    requires Fine(g, t) && t.mode == Normal && Printable([ch]) && t.col + 1 == g.cols
    ensures var u := Write(g, t, [ch]);
            && (t.noWrap || t.row + 1 < g.rows ==>
                  && |u.lines| == |t.lines| && Framed(g, u)
                  && u == (if t.noWrap then t.(lines := u.lines) else t.(lines := u.lines, row := t.row + 1, col := 0))
                  && forall r, c {:trigger CellAt(g, u, r, c)} :: 0 <= r < g.rows && 0 <= c < g.cols ==>
                       CellAt(g, u, r, c)
                       == if r == t.row && c == t.col then Cell(ch, t.attrib) else CellAt(g, t, r, c))
            && (!t.noWrap && t.row + 1 == g.rows ==>
                  && u == t.(lines := u.lines, col := 0) && |u.lines| == |t.lines| + 1 && Framed(g, u)
                  && forall r, c {:trigger CellAt(g, u, r, c)} :: 0 <= r < g.rows && 0 <= c < g.cols ==>
                       CellAt(g, u, r, c)
                       == if r == t.row then Cell(' ', t.attrib)
                          else if r + 1 == t.row && c == t.col then Cell(ch, t.attrib) else CellAt(g, t, r + 1, c))
  {
    ShowStep(g, t, ch);
    FineIsFramed(g, t);
    hide Write, Fine, Put, SetLine, LineAt, Framed;
    var v := SetLine(g, t, t.row, Put(LineAt(g, t, t.row), t.col, Cell(ch, t.attrib)));
    CellPut(g, t, Cell(ch, t.attrib));
    SameCells(g, v, v.(col := 0));
    if t.noWrap {
    } else if t.row + 1 < g.rows {
      SameCells(g, v, Write(g, t, [ch]));
    } else {
      hide Down;
      ScrolledUp(g, v.(col := 0));
    }
  }

  /** u shows what t does, but along one long row of cells that begins at (row, col), s. */
  ghost predicate Filled(g: Geometry, t: Term, u: Term, row: int, col: int, s: string) {
    && Framed(g, t) && Framed(g, u) && |u.lines| == |t.lines|
    && forall r, c {:trigger CellAt(g, u, r, c)} :: 0 <= r < g.rows && 0 <= c < g.cols ==>
         var k := (r - row) * g.cols + c - col;
         CellAt(g, u, r, c) == if 0 <= k < |s| then Cell(s[k], t.attrib) else CellAt(g, t, r, c)
  }

  /** Text runs on from line to line: seen as one long row of cells from the cursor on, it fills exactly as many as it
      has characters, and the cursor stands on the next one. */
  lemma {:induction false} TextRunsOn(g: Geometry, t: Term, s: string)
    requires Fine(g, t) && t.mode == Normal && !t.noWrap && Printable(s) && t.col + |s| < (g.rows - t.row) * g.cols
    ensures var u := Write(g, t, s);
            && u == t.(lines := u.lines, row := u.row, col := u.col)
            && t.row <= u.row < g.rows && 0 <= u.col < g.cols
            && (u.row - t.row) * g.cols + u.col == t.col + |s|
            && Filled(g, t, u, t.row, t.col, s)
    decreases |s|
  {
    if s == [] {
      FineIsFramed(g, t);
      assert Write(g, t, s) == t;
      assert (t.row - t.row) * g.cols == 0;
    } else {
      var v := Write(g, t, [s[0]]);
      FirstOf(g, t, s);
      hide *;
      ShownAnywhere(g, t, s[0], |s|);
      TextRunsOn(g, v, s[1..]);
      var u := Write(g, t, s);
      NextCell(u.row, t.row, v.row, g.cols);
      FilledOn(g, t, v, u, s);
    }
  }

  lemma FirstOf(g: Geometry, t: Term, s: string)
    requires s != [] && Printable(s)
    ensures Printable([s[0]]) && Printable(s[1..]) && Write(g, t, s) == Write(g, Write(g, t, [s[0]]), s[1..])
  {
    assert s == [s[0]] + s[1..];
    hide Write;
    WriteInTwo(g, t, [s[0]], s[1..]);
  }

  lemma FilledOn(g: Geometry, t: Term, v: Term, u: Term, s: string)
    requires s != [] && Filled(g, t, v, t.row, t.col, [s[0]]) && Filled(g, v, u, v.row, v.col, s[1..])
    requires v.attrib == t.attrib && 0 <= t.col < g.cols
    requires (v.row == t.row && v.col == t.col + 1) || (v.row == t.row + 1 && v.col == 0 && t.col + 1 == g.cols)
    ensures Filled(g, t, u, t.row, t.col, s)
  {
    forall r: nat, c: nat | r < g.rows && c < g.cols
      ensures var k := (r - t.row) * g.cols + c - t.col;
              CellAt(g, u, r, c) == if 0 <= k < |s| then Cell(s[k], t.attrib) else CellAt(g, t, r, c)
    {
      var k := (r - t.row) * g.cols + c - t.col;
      NextCell(r, t.row, v.row, g.cols);
      assert (r - v.row) * g.cols + c - v.col == k - 1;
      assert CellAt(g, v, r, c) == if 0 <= k < 1 then Cell([s[0]][k], t.attrib) else CellAt(g, t, r, c);
      hide Framed, Filled;
    }
  }

  lemma ShownAnywhere(g: Geometry, t: Term, ch: char, n: nat)
    requires Fine(g, t) && t.mode == Normal && !t.noWrap && Printable([ch]) && n > 0
    requires t.col + n < (g.rows - t.row) * g.cols
    ensures var v := Write(g, t, [ch]);
            && Fine(g, v) && v == t.(lines := v.lines, row := v.row, col := v.col) && 0 <= t.col < g.cols
            && ((v.row == t.row && v.col == t.col + 1) || (v.row == t.row + 1 && v.col == 0 && t.col + 1 == g.cols))
            && v.col + n - 1 < (g.rows - v.row) * g.cols
            && Filled(g, t, v, t.row, t.col, [ch])
  {
    var v := Write(g, t, [ch]);
    hide *;
    StaysFine(g, t, ch);
    FineIsFramed(g, t);
    NextCell(g.rows, t.row, v.row, g.cols);
    if t.col + 1 < g.cols {
      Shown(g, t, ch);
    } else {
      NotTheLastRow(g.rows - t.row, g.cols);
      ShownAtTheEnd(g, t, ch);
    }
    OneFilled(g, t, v, ch);
  }

  lemma StaysFine(g: Geometry, t: Term, ch: char)
    requires Fine(g, t) && t.mode == Normal
    ensures Fine(g, Write(g, t, [ch]))
  {
    hide Fine, Step, Write;
    StepFollows(g, t, ch);
    Write1(g, t, ch);
  }

  lemma OneFilled(g: Geometry, t: Term, v: Term, ch: char)
    requires Framed(g, t) && Framed(g, v) && |v.lines| == |t.lines| && 0 <= t.col < g.cols
    requires forall r, c {:trigger CellAt(g, v, r, c)} :: 0 <= r < g.rows && 0 <= c < g.cols ==>
               CellAt(g, v, r, c) == if r == t.row && c == t.col then Cell(ch, t.attrib) else CellAt(g, t, r, c)
    ensures Filled(g, t, v, t.row, t.col, [ch])
  {
    forall r: nat, c: nat | r < g.rows && c < g.cols
      ensures var k := (r - t.row) * g.cols + c - t.col;
              CellAt(g, v, r, c) == if 0 <= k < |[ch]| then Cell([ch][k], t.attrib) else CellAt(g, t, r, c)
    {
      SameCell(r - t.row, c, t.col, g.cols);
      hide Framed, CellAt;
    }
  }

  lemma NotTheLastRow(d: int, cols: nat)
    ensures cols < d * cols ==> d != 1
  {
  }

  lemma NextCell(r: int, row: int, row': int, cols: nat)
    ensures row' == row + 1 ==> (r - row) * cols == (r - row') * cols + cols
    ensures row' == row ==> (r - row) * cols == (r - row') * cols
  {
  }

  lemma SameCell(d: int, c: int, col: int, cols: int)
    requires 0 <= c < cols && 0 <= col < cols
    ensures d * cols + c - col == 0 <==> d == 0 && c == col
  {
    if d >= 1 {
      assert d * cols >= cols;
    } else if d <= -1 {
      assert d * cols <= -cols;
    }
  }

  /** u shows what t does, but from column col of one row on, s. */
  ghost predicate Overtyped(g: Geometry, t: Term, u: Term, row: int, col: int, s: string) {
    && Framed(g, t) && Framed(g, u) && |u.lines| == |t.lines|
    && forall r, c {:trigger CellAt(g, u, r, c)} :: 0 <= r < g.rows && 0 <= c < g.cols ==>
         CellAt(g, u, r, c)
         == if r == row && col <= c < col + |s| then Cell(s[c - col], t.attrib) else CellAt(g, t, r, c)
  }

  /** A carriage return, and then text over what stands there. */
  lemma CarriageReturn(g: Geometry, t: Term, s: string)
    requires Fine(g, t) && t.mode == Normal && Printable(s) && |s| < g.cols
    ensures var u := Write(g, t, "\r" + s);
            u == t.(lines := u.lines, col := |s|) && Overtyped(g, t, u, t.row, 0, s)
  {
    Write1(g, t, '\r');
    assert Step(g, t, '\r') == t.(col := 0) && "\r" == ['\r'];
    InRange(g, t);
    hide *;
    PlacedText(g, t, "\r", s, t.row, 0);
  }

  /** Text that does not reach the end of the line. */
  lemma {:induction false} TextOnLine(g: Geometry, t: Term, s: string)
    requires Fine(g, t) && t.mode == Normal && Printable(s) && t.col + |s| < g.cols
    ensures var u := Write(g, t, s);
            u == t.(lines := u.lines, col := t.col + |s|) && Overtyped(g, t, u, t.row, t.col, s)
    decreases |s|
  {
    FineIsFramed(g, t);
    if s == [] {
      assert Write(g, t, s) == t;
    } else {
      var v := Write(g, t, [s[0]]);
      FirstOf(g, t, s);
      hide *;
      StaysFine(g, t, s[0]);
      Shown(g, t, s[0]);
      TextOnLine(g, v, s[1..]);
      OvertypedOn(g, t, v, Write(g, t, s), s);
    }
  }

  lemma OvertypedOn(g: Geometry, t: Term, v: Term, u: Term, s: string)
    requires s != [] && Framed(g, t) && Overtyped(g, v, u, t.row, t.col + 1, s[1..]) && v.attrib == t.attrib
    requires |v.lines| == |t.lines| && 0 <= t.col
    requires forall r, c {:trigger CellAt(g, v, r, c)} :: 0 <= r < g.rows && 0 <= c < g.cols ==>
               CellAt(g, v, r, c) == if r == t.row && c == t.col then Cell(s[0], t.attrib) else CellAt(g, t, r, c)
    ensures Overtyped(g, t, u, t.row, t.col, s)
  {
    hide Framed;
  }

  lemma PlacedText(g: Geometry, t: Term, p: string, s: string, row: nat, col: nat)
    requires Fine(g, t) && t.mode == Normal && Printable(s) && row < g.rows && col + |s| < g.cols
    requires Write(g, t, p) == t.(row := row, col := col)
    ensures var u := Write(g, t, p + s);
            u == t.(lines := u.lines, row := row, col := col + |s|) && Overtyped(g, t, u, row, col, s)
  {
    var v := t.(row := row, col := col);
    assert Fine(g, v);
    hide *;
    WriteInTwo(g, t, p, s);
    TextOnLine(g, v, s);
    FineIsFramed(g, t);
    SameCells(g, t, v);
    OvertypedFrom(g, t, v, Write(g, t, p + s), row, col, s);
  }

  lemma OvertypedFrom(g: Geometry, t: Term, v: Term, u: Term, row: int, col: int, s: string)
    requires Overtyped(g, v, u, row, col, s) && t.lines == v.lines && t.attrib == v.attrib
    ensures Overtyped(g, t, u, row, col, s)
  {
  }

  /** A line feed: one row down, in the same column; on the last row everything moves up. */
  lemma LineFeed(g: Geometry, t: Term)
    requires Fine(g, t) && t.mode == Normal
    ensures var u := Write(g, t, "\n");
            && (t.row + 1 < g.rows ==> u == t.(row := t.row + 1))
            && (t.row + 1 == g.rows ==>
                  && u == t.(lines := u.lines) && |u.lines| == |t.lines| + 1 && Framed(g, u)
                  && forall r, c {:trigger CellAt(g, u, r, c)} :: 0 <= r < g.rows && 0 <= c < g.cols ==>
                       CellAt(g, u, r, c) == if r == t.row then Cell(' ', t.attrib) else CellAt(g, t, r + 1, c))
  {
    Write1(g, t, '\n');
  }

  /** Backspace goes left, but not off the line; nulls, bells and XON do nothing. */
  lemma Controls(g: Geometry, t: Term)
    requires Fine(g, t) && t.mode == Normal
    ensures Write(g, t, "\U{08}") == t.(col := if t.col > 0 then t.col - 1 else 0)
    ensures Write(g, t, "\0") == t && Write(g, t, "\U{07}") == t && Write(g, t, "\U{11}") == t
  {
    Write1(g, t, '\U{08}');
    Write1(g, t, '\0');
    Write1(g, t, '\U{07}');
    Write1(g, t, '\U{11}');
  }

  lemma {:induction false} TabIsNext(tabs: seq<bool>, col: nat)
    requires col < |tabs|
    ensures var n := Tab(tabs, col);
            && col <= n < |tabs| && (n == col ==> col == |tabs| - 1) && (tabs[n] || n == |tabs| - 1)
            && forall i :: col < i < n ==> !tabs[i]
    decreases |tabs| - col
  {
    if col + 1 < |tabs| && !tabs[col + 1] {
      TabIsNext(tabs, col + 1);
    }
  }

  /** A tab goes to the next tab stop, or to the last column if there is none. */
  lemma TabStop(g: Geometry, t: Term)
    requires Fine(g, t) && t.mode == Normal
    ensures var n := Write(g, t, "\t").col;
            && Write(g, t, "\t") == t.(col := n)
            && t.col <= n < g.cols && (n == t.col ==> t.col == g.cols - 1) && (t.tabs[n] || n == g.cols - 1)
            && forall i :: t.col < i < n ==> !t.tabs[i]
  {
    Write1(g, t, '\t');
    TabIsNext(t.tabs, t.col);
  }

  lemma {:induction false} RowsCleared(g: Geometry, t: Term, n: nat)
    requires Framed(g, t) && n <= g.rows
    ensures var u := ClearRows(g, t, n);
            && u == t.(lines := u.lines) && |u.lines| == |t.lines| && Framed(g, u)
            && forall r, c {:trigger CellAt(g, u, r, c)} :: 0 <= r < g.rows && 0 <= c < g.cols ==>
                 CellAt(g, u, r, c) == if r >= n then Cell(' ', t.attrib) else CellAt(g, t, r, c)
    decreases g.rows - n
  {
    if n < g.rows {
      LineCleared(g, t, n, 0);
      hide ClearEol, Framed;
      RowsCleared(g, ClearEol(g, t, n, 0), n + 1);
    }
  }

  lemma LineCleared(g: Geometry, t: Term, n: nat, col: nat)
    requires Framed(g, t) && n < g.rows
    ensures var u := ClearEol(g, t, n, col);
            && u == t.(lines := u.lines) && |u.lines| == |t.lines| && Framed(g, u)
            && forall r, c {:trigger CellAt(g, u, r, c)} :: 0 <= r < g.rows && 0 <= c < g.cols ==>
                 CellAt(g, u, r, c) == if r == n && c >= col then Cell(' ', t.attrib) else CellAt(g, t, r, c)
  {
  }

  lemma ScreenCleared(g: Geometry, t: Term)
    requires Fine(g, t)
    ensures var u := ClearScreen(g, t);
            && u == t.(lines := u.lines, row := 0, col := 0) && |u.lines| == |t.lines| && Framed(g, u)
            && forall r, c {:trigger CellAt(g, u, r, c)} :: 0 <= r < g.rows && 0 <= c < g.cols ==>
                 CellAt(g, u, r, c) == Cell(' ', t.attrib)
  {
    FineIsFramed(g, t);
    LineCleared(g, t, 0, 0);
    hide ClearEol, ClearRows, Framed;
    RowsCleared(g, ClearEol(g, t, 0, 0), 1);
    SameCells(g, ClearEos(g, t, 0, 0), ClearScreen(g, t));
  }

  /** A form feed clears the screen, in the colours that are set, and the cursor goes home. */
  lemma FormFeed(g: Geometry, t: Term)
    requires Fine(g, t) && t.mode == Normal
    ensures var u := Write(g, t, "\U{0C}");
            && u == t.(lines := u.lines, row := 0, col := 0) && |u.lines| == |t.lines| && Framed(g, u)
            && forall r, c {:trigger CellAt(g, u, r, c)} :: 0 <= r < g.rows && 0 <= c < g.cols ==>
                 CellAt(g, u, r, c) == Cell(' ', t.attrib)
  {
    Write1(g, t, '\U{0C}');
    assert Step(g, t, '\U{0C}') == ClearScreen(g, t) by {
      hide ClearScreen;
    }
    ScreenCleared(g, t);
    hide *;
  }

  /** A new display is blank, white on black, with the cursor at home, tab stops at every eighth column, and line
      wrap. */
  lemma NewDisplay(g: Geometry, size: nat)
    requires 0 < g.rows <= size && g.rows < HALF && 0 < g.cols < HALF
    ensures var t := ClearScreen(g, Display.Unwritten(g, size));
            && t == Term(t.lines, 0, 0, 0, 0, Attr(0x07), Normal, false, t.tabs)
            && |t.lines| == size && Framed(g, t)
            && (forall r, c {:trigger CellAt(g, t, r, c)} :: 0 <= r < g.rows && 0 <= c < g.cols ==>
                  CellAt(g, t, r, c) == Cell(' ', Attr(0x07)))
            && |t.tabs| == g.cols && forall i :: 0 <= i < g.cols ==> (t.tabs[i] <==> i % 8 == 0)
  {
    Display.NewIsFine(g, size);
    hide ClearScreen, Framed, Fine;
    ScreenCleared(g, Display.Unwritten(g, size));
  }

  // ----- ESC and a character -----

  /** ESC 7 saves the cursor, ESC 8 restores it, ESC H sets a tab stop at the cursor. That leaves the terminal waiting
      for another character, as a second ESC does. */
  lemma EscapeCharacters(g: Geometry, t: Term)
    requires Fine(g, t) && t.mode == Normal
    ensures Write(g, t, "\U{1B}7") == t.(savrow := t.row, savcol := t.col)
    ensures Write(g, t, "\U{1B}8") == t.(row := t.savrow, col := t.savcol)
    ensures Write(g, t, "\U{1B}H") == t.(tabs := t.tabs[t.col := true], mode := Escape)
    ensures Write(g, t, "\U{1B}\U{1B}") == Write(g, t, "\U{1B}") == t.(mode := Escape)
  {
    Write2(g, t, ESC, '7');
    Write2(g, t, ESC, '8');
    Write2(g, t, ESC, 'H');
    Write2(g, t, ESC, ESC);
    Write1(g, t, ESC);
  }

  /** Behind ESC every other character but O and [ is as without it. */
  lemma EscapeIsIgnored(g: Geometry, t: Term, ch: char)
    requires t.mode == Normal && ch !in "O[78H\U{1B}"
    ensures Write(g, t, ['\U{1B}', ch]) == Write(g, t, [ch])
  {
    Write2(g, t, ESC, ch);
    Write1(g, t, ch);
    assert t.(mode := Escape).(mode := Normal) == t;
    hide Char;
    assert ch != ESC && ch != 'O' && ch != '[' && ch != '7' && ch != '8' && ch != 'H';
    assert Step(g, t, ESC) == t.(mode := Escape) by {
      EscapeBegins(g, t);
    }
  }

  lemma EscapeBegins(g: Geometry, t: Term)
    ensures Char(g, t, ESC) == t.(mode := Escape)
  {
  }

  // ----- control sequences -----

  /** The digits of the arguments, with semicolons between them. */
  function Joined(nums: seq<string>): string {
    if nums == [] then "" else if |nums| == 1 then nums[0] else Joined(nums[..|nums| - 1]) + ";" + nums[|nums| - 1]
  }

  ghost predicate Numbers(nums: seq<string>) {
    0 < |nums| <= 5 && forall i :: 0 <= i < |nums| ==> AllDigits(nums[i])
  }

  /** The numbers as int32, where no digits stand for 0. */
  ghost function Values(nums: seq<string>): seq<int> {
    seq(|nums|, i requires 0 <= i < |nums| => I32(Value(0, nums[i])))
  }

  /** One more digit makes a number ten times as large. */
  lemma {:induction false} ValueIsDecimal(a: int, s: string, d: char)
    requires AllDigits(s) && '0' <= d <= '9'
    ensures Value(a, []) == a && Value(a, s + [d]) == 10 * Value(a, s) + (d as int - '0' as int)
    decreases |s|
  {
    if s == [] {
      assert [d][1..] == [] && s + [d] == [d];
    } else {
      assert (s + [d])[1..] == s[1..] + [d];
      ValueIsDecimal(10 * a + Digit(s[0]), s[1..], d);
    }
  }

  lemma {:induction false} LastNumber(g: Geometry, t: Term, vals: seq<int>, a: int, s: string)
    requires AllDigits(s) && t.mode == Args(vals + [I32(a)])
    ensures Write(g, t, s) == t.(mode := Args(vals + [I32(Value(a, s))]))
    decreases |s|
  {
    if s != [] {
      var d := Digit(s[0]);
      WrappedDigit(a, d);
      var args := vals + [I32(a)];
      var u := t.(mode := Args(vals + [I32(10 * a + d)]));
      assert IsDigit(s[0]) && args[|args| - 1 := I32(10 * a + d)] == vals + [I32(10 * a + d)];
      assert Step(g, t, s[0]) == u by {
        hide Control, I32;
      }
      hide Step, I32;
      LastNumber(g, u, vals, 10 * a + d, s[1..]);
    }
  }

  lemma {:induction false} ArgumentsAre(g: Geometry, t: Term, nums: seq<string>)
    requires Numbers(nums) && t.mode == Args([0])
    ensures Write(g, t, Joined(nums)) == t.(mode := Args(Values(nums)))
    decreases |nums|
  {
    var m, last := |nums| - 1, nums[|nums| - 1];
    if m == 0 {
      assert [] + [I32(0)] == [0] && [] + [I32(Value(0, last))] == Values(nums);
      hide I32, Value;
      LastNumber(g, t, [], 0, last);
    } else {
      var rest := nums[..m];
      var vals := Values(rest);
      var u, v := t.(mode := Args(vals)), t.(mode := Args(vals + [0]));
      assert Numbers(rest) && I32(0) == 0 && vals + [I32(Value(0, last))] == Values(nums);
      assert Step(g, u, ';') == v by {
        hide Control;
      }
      Write1(g, u, ';');
      hide Step, I32, Value, Values;
      ArgumentsAre(g, t, rest);
      LastNumber(g, v, vals, 0, last);
        WriteInTwo(g, t, Joined(rest) + ";", last);
      WriteInTwo(g, t, Joined(rest), ";");
    }
  }

  /** The letter that ends a sequence finds its arguments. */
  lemma SequenceIs(g: Geometry, t: Term, nums: seq<string>, c: char)
    requires t.mode == Normal && Numbers(nums) && !('0' <= c <= '9') && c !in ";?=\U{1B}"
    ensures Write(g, t, "\U{1B}[" + Joined(nums) + [c])
         == Control(g, t.(mode := Args(Values(nums))), c).(mode := Normal)
  {
    var u, v := t.(mode := Args([0])), t.(mode := Args(Values(nums)));
    assert Step(g, t, ESC) == t.(mode := Escape) && Step(g, t.(mode := Escape), '[') == u;
    Write2(g, t, ESC, '[');
    assert "\U{1B}[" == [ESC, '['];
    assert Step(g, v, c) == Control(g, v, c).(mode := Normal) by {
      assert c != ';' && c != '?' && c != '=' && c != '\U{1B}';
      hide Control, Values;
    }
    Write1(g, v, c);
    hide *;
    ArgumentsAre(g, u, nums);
    WriteInTwo(g, t, "\U{1B}[" + Joined(nums), [c]);
    WriteInTwo(g, t, "\U{1B}[", Joined(nums));
  }

  predicate Final(w: string) {
    |w| == 1 && !('0' <= w[0] <= '9') && w[0] !in ";?=\U{1B}"
  }

  lemma OneNumber(g: Geometry, t: Term, s: string, w: string)
    requires t.mode == Normal && AllDigits(s) && Final(w)
    ensures Write(g, t, "\U{1B}[" + s + w)
         == Control(g, t.(mode := Args([I32(Value(0, s))])), w[0]).(mode := Normal)
  {
    assert Joined([s]) == s && Numbers([s]) && Values([s]) == [I32(Value(0, s))] && w == [w[0]];
    hide Write, Control, I32, Value, Joined, Numbers, Values;
    SequenceIs(g, t, [s], w[0]);
  }

  lemma TwoNumbers(g: Geometry, t: Term, x: string, y: string, w: string)
    requires t.mode == Normal && AllDigits(x) && AllDigits(y) && Final(w)
    ensures Write(g, t, "\U{1B}[" + x + ";" + y + w)
         == Control(g, t.(mode := Args([I32(Value(0, x)), I32(Value(0, y))])), w[0]).(mode := Normal)
  {
    assert [x, y][..1] == [x] && w == [w[0]];
    assert Joined([x, y]) == x + ";" + y && Numbers([x, y])
        && Values([x, y]) == [I32(Value(0, x)), I32(Value(0, y))];
    assert "\U{1B}[" + (x + ";" + y) + w == "\U{1B}[" + x + ";" + y + w;
    hide Write, Control, I32, Value, Joined, Numbers, Values;
    SequenceIs(g, t, [x, y], w[0]);
  }

  /** ESC O is as ESC [, and question marks and equals signs in a sequence are as if they were not there. */
  lemma IgnoredMarks(g: Geometry, t: Term, s: string)
    requires t.mode == Normal
    ensures Write(g, t, "\U{1B}O" + s) == Write(g, t, "\U{1B}[" + s)
    ensures Write(g, t, "\U{1B}[?" + s) == Write(g, t, "\U{1B}[=" + s) == Write(g, t, "\U{1B}[" + s)
  {
    var u := t.(mode := Args([0]));
    assert Step(g, t, ESC) == t.(mode := Escape);
    assert Step(g, t.(mode := Escape), '[') == Step(g, t.(mode := Escape), 'O') == u;
    assert Step(g, u, '?') == Step(g, u, '=') == u;
    assert "\U{1B}[" == [ESC, '['] && "\U{1B}O" == [ESC, 'O'] && "?" == ['?'] && "=" == ['='];
    assert "\U{1B}[?" == "\U{1B}[" + "?" && "\U{1B}[=" == "\U{1B}[" + "=";
    hide *;
    Write2(g, t, ESC, '[');
    Write2(g, t, ESC, 'O');
    Write1(g, u, '?');
    Write1(g, u, '=');
    WriteInTwo(g, t, "\U{1B}[", s);
    WriteInTwo(g, t, "\U{1B}O", s);
    WriteInTwo(g, t, "\U{1B}[?", s);
    WriteInTwo(g, t, "\U{1B}[", "?");
    WriteInTwo(g, t, "\U{1B}[=", s);
    WriteInTwo(g, t, "\U{1B}[", "=");
  }

  lemma NoEffect(g: Geometry, t: Term, args: seq<int>, c: char)
    requires c !in "@ABCDfHhJKLlMmPsug"
    ensures Control(g, t.(mode := Args(args)), c) == t.(mode := Args(args))
  {
    assert c != '@' && c != 'A' && c != 'B' && c != 'C' && c != 'D' && c != 'f' && c != 'H' && c != 'h' && c != 'J';
    assert c != 'K' && c != 'L' && c != 'l' && c != 'M' && c != 'm' && c != 'P' && c != 's' && c != 'u' && c != 'g';
    hide InsertChar, DeleteChar, InsertLine, DeleteLine, ClearEol, ClearEos, ClearScreen, PaintAll, I32;
  }

  /** A sequence with any other letter does nothing. */
  lemma UnknownSequence(g: Geometry, t: Term, nums: seq<string>, c: char)
    requires t.mode == Normal && Numbers(nums) && !('0' <= c <= '9')
    requires c !in ";?=\U{1B}" && c !in "@ABCDfHhJKLlMmPsug"
    ensures Write(g, t, "\U{1B}[" + Joined(nums) + [c]) == t
  {
    hide *;
    SequenceIs(g, t, nums, c);
    NoEffect(g, t, Values(nums), c);
  }

  // ----- what they do to the cells -----

  lemma EditsAre(g: Geometry, t: Term, n: int)
    requires t.mode == Normal
    ensures var v := t.(mode := Args([n]));
            && Control(g, v, '@').(mode := Normal) == InsertChar(g, t)
            && Control(g, v, 'P').(mode := Normal) == DeleteChar(g, t)
            && Control(g, v, 'K').(mode := Normal) == ClearEol(g, t, t.row, t.col)
            && Control(g, v, 'L').(mode := Normal) == InsertLine(g, t)
            && Control(g, v, 'M').(mode := Normal) == DeleteLine(g, t)
  {
    hide Inserted, Deleted, Cleared, Blanks, I32;
  }

  lemma BlankInserted(g: Geometry, t: Term)
    requires Framed(g, t) && 0 <= t.row < g.rows && 0 <= t.col < g.cols
    ensures var u := InsertChar(g, t);
            && u == t.(lines := u.lines) && |u.lines| == |t.lines| && Framed(g, u)
            && forall r, c {:trigger CellAt(g, u, r, c)} :: 0 <= r < g.rows && 0 <= c < g.cols ==>
                 CellAt(g, u, r, c)
                 == if r != t.row || c < t.col then CellAt(g, t, r, c)
                    else if c == t.col then Cell(' ', t.attrib) else CellAt(g, t, r, c - 1)
  {
  }

  lemma CharacterDeleted(g: Geometry, t: Term)
    requires Framed(g, t) && 0 <= t.row < g.rows && 0 <= t.col < g.cols
    ensures var u := DeleteChar(g, t);
            && u == t.(lines := u.lines) && |u.lines| == |t.lines| && Framed(g, u)
            && forall r, c {:trigger CellAt(g, u, r, c)} :: 0 <= r < g.rows && 0 <= c < g.cols ==>
                 CellAt(g, u, r, c)
                 == if r != t.row || c < t.col then CellAt(g, t, r, c)
                    else if c == g.cols - 1 then Cell(' ', t.attrib) else CellAt(g, t, r, c + 1)
  {
  }

  lemma LineInserted(g: Geometry, t: Term)
    requires Framed(g, t) && 0 <= t.row < g.rows
    ensures var u := InsertLine(g, t);
            && u == t.(lines := u.lines) && |u.lines| == |t.lines| && Framed(g, u)
            && forall r, c {:trigger CellAt(g, u, r, c)} :: 0 <= r < g.rows && 0 <= c < g.cols ==>
                 CellAt(g, u, r, c)
                 == if r < t.row then CellAt(g, t, r, c)
                    else if r == t.row then Cell(' ', t.attrib) else CellAt(g, t, r - 1, c)
  {
  }

  lemma LineDeleted(g: Geometry, t: Term)
    requires Framed(g, t) && 0 <= t.row < g.rows
    ensures var u := DeleteLine(g, t);
            && u == t.(lines := u.lines) && |u.lines| == |t.lines| && Framed(g, u)
            && forall r, c {:trigger CellAt(g, u, r, c)} :: 0 <= r < g.rows && 0 <= c < g.cols ==>
                 CellAt(g, u, r, c)
                 == if r < t.row then CellAt(g, t, r, c)
                    else if r == g.rows - 1 then Cell(' ', t.attrib) else CellAt(g, t, r + 1, c)
  {
  }

  lemma WithArgs(g: Geometry, t: Term, x: int)
    requires Fine(g, t)
    ensures var v := t.(mode := Args([I32(x)]));
            Fine(g, v) && Framed(g, v) && Framed(g, t) && Arg(v, 0) == I32(x) && Arg(v, 1) == 0
            && 0 <= t.row < g.rows && 0 <= t.col < g.cols
            && forall r, c {:trigger CellAt(g, v, r, c)} :: 0 <= r < g.rows && 0 <= c < g.cols ==>
                 CellAt(g, v, r, c) == CellAt(g, t, r, c)
  {
  }

  /** ESC [ @ opens up a blank at the cursor: what stands there and behind it moves right, and the last cell is lost. */
  lemma InsertsBlank(g: Geometry, t: Term, s: string)
    requires Fine(g, t) && t.mode == Normal && AllDigits(s)
    ensures var u := Write(g, t, "\U{1B}[" + s + "@");
            && u == t.(lines := u.lines) && |u.lines| == |t.lines| && Framed(g, u)
            && forall r, c {:trigger CellAt(g, u, r, c)} :: 0 <= r < g.rows && 0 <= c < g.cols ==>
                 CellAt(g, u, r, c)
                 == if r != t.row || c < t.col then CellAt(g, t, r, c)
                    else if c == t.col then Cell(' ', t.attrib) else CellAt(g, t, r, c - 1)
  {
    assert Final("@");
    hide *;
    OneNumber(g, t, s, "@");
    EditsAre(g, t, I32(Value(0, s)));
    FineIsFramed(g, t);
    BlankInserted(g, t);
  }

  /** ESC [ P takes the character at the cursor out: what stands behind it moves left, and a blank comes last. */
  lemma DeletesCharacter(g: Geometry, t: Term, s: string)
    requires Fine(g, t) && t.mode == Normal && AllDigits(s)
    ensures var u := Write(g, t, "\U{1B}[" + s + "P");
            && u == t.(lines := u.lines) && |u.lines| == |t.lines| && Framed(g, u)
            && forall r, c {:trigger CellAt(g, u, r, c)} :: 0 <= r < g.rows && 0 <= c < g.cols ==>
                 CellAt(g, u, r, c)
                 == if r != t.row || c < t.col then CellAt(g, t, r, c)
                    else if c == g.cols - 1 then Cell(' ', t.attrib) else CellAt(g, t, r, c + 1)
  {
    assert Final("P");
    hide *;
    OneNumber(g, t, s, "P");
    EditsAre(g, t, I32(Value(0, s)));
    FineIsFramed(g, t);
    CharacterDeleted(g, t);
  }

  /** ESC [ K clears the cursor's line from the cursor on. */
  lemma ClearsLine(g: Geometry, t: Term, s: string)
    requires Fine(g, t) && t.mode == Normal && AllDigits(s)
    ensures var u := Write(g, t, "\U{1B}[" + s + "K");
            && u == t.(lines := u.lines) && |u.lines| == |t.lines| && Framed(g, u)
            && forall r, c {:trigger CellAt(g, u, r, c)} :: 0 <= r < g.rows && 0 <= c < g.cols ==>
                 CellAt(g, u, r, c)
                 == if r == t.row && c >= t.col then Cell(' ', t.attrib) else CellAt(g, t, r, c)
  {
    assert Final("K");
    hide *;
    OneNumber(g, t, s, "K");
    EditsAre(g, t, I32(Value(0, s)));
    FineIsFramed(g, t);
    LineCleared(g, t, t.row, t.col);
  }

  /** ESC [ L puts a blank line where the cursor is: that line and those below move down, and the last one is lost. */
  lemma InsertsLine(g: Geometry, t: Term, s: string)
    requires Fine(g, t) && t.mode == Normal && AllDigits(s)
    ensures var u := Write(g, t, "\U{1B}[" + s + "L");
            && u == t.(lines := u.lines) && |u.lines| == |t.lines| && Framed(g, u)
            && forall r, c {:trigger CellAt(g, u, r, c)} :: 0 <= r < g.rows && 0 <= c < g.cols ==>
                 CellAt(g, u, r, c)
                 == if r < t.row then CellAt(g, t, r, c)
                    else if r == t.row then Cell(' ', t.attrib) else CellAt(g, t, r - 1, c)
  {
    assert Final("L");
    hide *;
    OneNumber(g, t, s, "L");
    EditsAre(g, t, I32(Value(0, s)));
    FineIsFramed(g, t);
    LineInserted(g, t);
  }

  /** ESC [ M takes the cursor's line out: those below move up, and a blank one comes last. */
  lemma DeletesLine(g: Geometry, t: Term, s: string)
    requires Fine(g, t) && t.mode == Normal && AllDigits(s)
    ensures var u := Write(g, t, "\U{1B}[" + s + "M");
            && u == t.(lines := u.lines) && |u.lines| == |t.lines| && Framed(g, u)
            && forall r, c {:trigger CellAt(g, u, r, c)} :: 0 <= r < g.rows && 0 <= c < g.cols ==>
                 CellAt(g, u, r, c)
                 == if r < t.row then CellAt(g, t, r, c)
                    else if r == g.rows - 1 then Cell(' ', t.attrib) else CellAt(g, t, r + 1, c)
  {
    assert Final("M");
    hide *;
    OneNumber(g, t, s, "M");
    EditsAre(g, t, I32(Value(0, s)));
    FineIsFramed(g, t);
    LineDeleted(g, t);
  }

  /** ESC [ J and ESC [ 0 J clear from the cursor to the end of the screen, ESC [ 2 J clears all of it and the cursor
      goes home; other numbers do nothing. */
  lemma ClearsScreen(g: Geometry, t: Term, s: string)
    requires Fine(g, t) && t.mode == Normal && AllDigits(s)
    ensures var u, n := Write(g, t, "\U{1B}[" + s + "J"), I32(Value(0, s));
            && |u.lines| == |t.lines| && Framed(g, u) && (n != 0 && n != 2 ==> u == t)
            && u == (if n == 2 then t.(lines := u.lines, row := 0, col := 0) else t.(lines := u.lines))
            && forall r, c {:trigger CellAt(g, u, r, c)} :: 0 <= r < g.rows && 0 <= c < g.cols ==>
                 CellAt(g, u, r, c)
                 == if n == 2 || (n == 0 && (r > t.row || (r == t.row && c >= t.col))) then Cell(' ', t.attrib)
                    else CellAt(g, t, r, c)
  {
    var n := I32(Value(0, s));
    var v := t.(mode := Args([n]));
    WithArgs(g, t, Value(0, s));
    assert Control(g, v, 'J') == (if n == 2 then ClearScreen(g, v) else if n == 0 then ClearEos(g, v, t.row, t.col)
                                  else v) by {
      hide ClearScreen, ClearEos, I32, Framed;
    }
    OneNumber(g, t, s, "J");
    ScreenCleared(g, v);
    RestCleared(g, v);
    hide Write, I32, Value, Control, ClearScreen, ClearEos, Framed, Arg;
    SameCells(g, Control(g, v, 'J'), Control(g, v, 'J').(mode := Normal));
  }

  lemma RestCleared(g: Geometry, t: Term)
    requires Fine(g, t)
    ensures var u := ClearEos(g, t, t.row, t.col);
            && u == t.(lines := u.lines) && |u.lines| == |t.lines| && Framed(g, u) && Framed(g, t)
            && forall r, c {:trigger CellAt(g, u, r, c)} :: 0 <= r < g.rows && 0 <= c < g.cols ==>
                 CellAt(g, u, r, c)
                 == if r > t.row || (r == t.row && c >= t.col) then Cell(' ', t.attrib) else CellAt(g, t, r, c)
  {
    FineIsFramed(g, t);
    LineCleared(g, t, t.row, t.col);
    hide ClearEol, ClearRows, Framed;
    RowsCleared(g, ClearEol(g, t, t.row, t.col), t.row + 1);
  }

  // ----- where they leave the cursor -----

  /** ESC [ s saves the cursor, ESC [ u restores it. */
  lemma SavesCursor(g: Geometry, t: Term, s: string)
    requires t.mode == Normal && AllDigits(s)
    ensures Write(g, t, "\U{1B}[" + s + "s") == t.(savrow := t.row, savcol := t.col)
    ensures Write(g, t, "\U{1B}[" + s + "u") == t.(row := t.savrow, col := t.savcol)
  {
    OneNumber(g, t, s, "s");
    OneNumber(g, t, s, "u");
    hide Write, I32, Value;
  }

  /** ESC [ number A: up by the number, by one if there is none or it is 0, but not off the screen. */
  lemma CursorUp(g: Geometry, t: Term, s: string)
    requires Fine(g, t) && t.mode == Normal && AllDigits(s)
    ensures var n := if I32(Value(0, s)) == 0 then 1 else I32(Value(0, s));
            Write(g, t, "\U{1B}[" + s + "A") == t.(row := if n > t.row then 0 else I32(t.row - n))
  {
    assert Final("A");
    hide *;
    InRange(g, t);
    OneNumber(g, t, s, "A");
    RowMoved(g, t, I32(Value(0, s)));
  }

  /** ESC [ number B: down in the same way, unless the sum overflows an int32. */
  lemma CursorDown(g: Geometry, t: Term, s: string)
    requires Fine(g, t) && t.mode == Normal && AllDigits(s)
    ensures var n := if I32(Value(0, s)) == 0 then 1 else I32(Value(0, s));
            Write(g, t, "\U{1B}[" + s + "B")
            == t.(row := if t.row + n >= 0x8000_0000 then t.row + n - 0x1_0000_0000
                         else if t.row + n >= g.rows then g.rows - 1 else t.row + n)
  {
    assert Final("B");
    hide *;
    InRange(g, t);
    OneNumber(g, t, s, "B");
    RowMoved(g, t, I32(Value(0, s)));
  }

  lemma InRange(g: Geometry, t: Term)
    requires Fine(g, t)
    ensures 0 <= t.row < g.rows < HALF && 0 <= t.col < g.cols < HALF
  {
  }

  lemma RowMoved(g: Geometry, t: Term, m: int)
    requires t.mode == Normal && -HALF <= m < HALF && 0 <= t.row < g.rows < HALF
    ensures var v, n := t.(mode := Args([m])), if m == 0 then 1 else m;
            && Control(g, v, 'A').(mode := Normal) == t.(row := if n > t.row then 0 else I32(t.row - n))
            && Control(g, v, 'B').(mode := Normal)
               == t.(row := if t.row + n >= 0x8000_0000 then t.row + n - 0x1_0000_0000
                            else if t.row + n >= g.rows then g.rows - 1 else t.row + n)
  {
    Summed(t.row, if m == 0 then 1 else m);
    hide I32, Edit, Set;
  }

  /** ESC [ number D: left by the number, by one if there is none or it is 0, but not off the line. */
  lemma CursorLeft(g: Geometry, t: Term, s: string)
    requires Fine(g, t) && t.mode == Normal && AllDigits(s)
    ensures var n := if I32(Value(0, s)) == 0 then 1 else I32(Value(0, s));
            Write(g, t, "\U{1B}[" + s + "D") == t.(col := if n > t.col then 0 else I32(t.col - n))
  {
    assert Final("D");
    hide *;
    InRange(g, t);
    OneNumber(g, t, s, "D");
    ColumnMoved(g, t, I32(Value(0, s)));
  }

  /** ESC [ number C: right in the same way, unless the sum overflows an int32. */
  lemma CursorRight(g: Geometry, t: Term, s: string)
    requires Fine(g, t) && t.mode == Normal && AllDigits(s)
    ensures var n := if I32(Value(0, s)) == 0 then 1 else I32(Value(0, s));
            Write(g, t, "\U{1B}[" + s + "C")
            == t.(col := if t.col + n >= 0x8000_0000 then t.col + n - 0x1_0000_0000
                         else if t.col + n >= g.cols then g.cols - 1 else t.col + n)
  {
    assert Final("C");
    hide *;
    InRange(g, t);
    OneNumber(g, t, s, "C");
    ColumnMoved(g, t, I32(Value(0, s)));
  }

  lemma ColumnMoved(g: Geometry, t: Term, m: int)
    requires t.mode == Normal && -HALF <= m < HALF && 0 <= t.col < g.cols < HALF
    ensures var v, n := t.(mode := Args([m])), if m == 0 then 1 else m;
            && Control(g, v, 'C').(mode := Normal)
               == t.(col := if t.col + n >= 0x8000_0000 then t.col + n - 0x1_0000_0000
                            else if t.col + n >= g.cols then g.cols - 1 else t.col + n)
            && Control(g, v, 'D').(mode := Normal) == t.(col := if n > t.col then 0 else I32(t.col - n))
  {
    Summed(t.col, if m == 0 then 1 else m);
    hide I32, Edit, Set;
  }

  lemma Summed(x: int, n: int)
    requires 0 <= x < HALF && -HALF <= n < HALF
    ensures I32(x + n) == if x + n >= 0x8000_0000 then x + n - 0x1_0000_0000 else x + n
  {
  }

  /** ESC [ row ; column H puts the cursor there, counted from 1; 0 and no number stand for 1, and numbers that are too
      large for the last row or column. f is the same. */
  lemma PutsCursor(g: Geometry, t: Term, x: string, y: string)
    requires Fine(g, t) && t.mode == Normal && AllDigits(x) && AllDigits(y)
    ensures var v, w, u := I32(Value(0, x)), I32(Value(0, y)), Write(g, t, "\U{1B}[" + x + ";" + y + "H");
            && u == Write(g, t, "\U{1B}[" + x + ";" + y + "f")
            && u == t.(row := if v == 0 then 0 else if v > g.rows || v == -0x8000_0000 then g.rows - 1 else v - 1,
                       col := if w == 0 then 0 else if w > g.cols || w == -0x8000_0000 then g.cols - 1 else w - 1)
  {
    assert Final("H") && Final("f");
    hide *;
    TwoNumbers(g, t, x, y, "H");
    TwoNumbers(g, t, x, y, "f");
    CursorPut(g, t, I32(Value(0, x)), I32(Value(0, y)));
  }

  lemma CursorPut(g: Geometry, t: Term, v: int, w: int)
    requires Fine(g, t) && t.mode == Normal && -HALF <= v < HALF && -HALF <= w < HALF
    ensures var u := t.(mode := Args([v, w]));
            && Control(g, u, 'H') == Control(g, u, 'f')
            && Control(g, u, 'H').(mode := Normal)
               == t.(row := if v == 0 then 0 else if v > g.rows || v == -0x8000_0000 then g.rows - 1 else v - 1,
                     col := if w == 0 then 0 else if w > g.cols || w == -0x8000_0000 then g.cols - 1 else w - 1)
  {
    assert 0 < g.rows < HALF && 0 < g.cols < HALF;
    OneLess(v);
    OneLess(w);
    hide I32, Edit, Set, Fine;
  }

  lemma OneLess(n: int)
    requires -HALF <= n < HALF
    ensures I32(n - 1) == if n == -HALF then HALF - 1 else n - 1
  {
  }

  function CursorTo(row: string, col: string): string {
    "\U{1B}[" + row + ";" + col + "H"
  }

  /** Text put at a place of the screen stands there, and changes nothing else. */
  lemma TextAtPlace(g: Geometry, t: Term, x: string, y: string, s: string)
    requires Fine(g, t) && t.mode == Normal && AllDigits(x) && AllDigits(y) && Printable(s)
    requires 1 <= Value(0, x) <= g.rows && 1 <= Value(0, y) && Value(0, y) + |s| <= g.cols
    ensures var row, col := Value(0, x) - 1, Value(0, y) - 1;
            var u := Write(g, t, CursorTo(x, y) + s);
            u == t.(lines := u.lines, row := row, col := col + |s|) && Overtyped(g, t, u, row, col, s)
  {
    hide *;
    CursorAt(g, t, x, y);
    InRange(g, t);
    PlacedText(g, t, CursorTo(x, y), s, Value(0, x) - 1, Value(0, y) - 1);
  }

  lemma CursorAt(g: Geometry, t: Term, x: string, y: string)
    requires Fine(g, t) && t.mode == Normal && AllDigits(x) && AllDigits(y)
    requires 1 <= Value(0, x) <= g.rows && 1 <= Value(0, y) <= g.cols
    ensures Write(g, t, CursorTo(x, y)) == t.(row := Value(0, x) - 1, col := Value(0, y) - 1)
  {
    assert CursorTo(x, y) == "\U{1B}[" + x + ";" + y + "H";
    hide *;
    InRange(g, t);
    SmallIsItself(Value(0, x));
    SmallIsItself(Value(0, y));
    PutsCursor(g, t, x, y);
  }

  lemma SmallIsItself(n: int)
    requires 0 <= n < HALF
    ensures I32(n) == n
  {
  }

  // ----- modes, tab stops and colours -----

  /** ESC [ 7 h turns line wrap on, ESC [ 7 l off; ESC [ g clears the tab stop at the cursor, ESC [ 3 g all of them.
      Other numbers do nothing. */
  lemma SetsModes(g: Geometry, t: Term, s: string)
    requires Fine(g, t) && t.mode == Normal && AllDigits(s)
    ensures var n := I32(Value(0, s));
            && Write(g, t, "\U{1B}[" + s + "h") == (if n == 7 then t.(noWrap := false) else t)
            && Write(g, t, "\U{1B}[" + s + "l") == (if n == 7 then t.(noWrap := true) else t)
            && Write(g, t, "\U{1B}[" + s + "g")
               == (if n == 0 then t.(tabs := t.tabs[t.col := false])
                   else if n == 3 then t.(tabs := seq(g.cols, _ => false)) else t)
  {
    FineIsFramed(g, t);
    assert Final("h") && Final("l") && Final("g");
    hide *;
    OneNumber(g, t, s, "h");
    OneNumber(g, t, s, "l");
    OneNumber(g, t, s, "g");
    ModesAre(g, t, I32(Value(0, s)));
  }

  lemma ModesAre(g: Geometry, t: Term, n: int)
    requires t.mode == Normal && 0 <= t.col < g.cols == |t.tabs|
    ensures var v := t.(mode := Args([n]));
            && Control(g, v, 'h').(mode := Normal) == (if n == 7 then t.(noWrap := false) else t)
            && Control(g, v, 'l').(mode := Normal) == (if n == 7 then t.(noWrap := true) else t)
            && Control(g, v, 'g').(mode := Normal)
               == (if n == 0 then t.(tabs := t.tabs[t.col := false])
                   else if n == 3 then t.(tabs := seq(g.cols, _ => false)) else t)
  {
    hide I32, Edit, Move;
  }

  /** ESC [ number m: 0 is white on black, 1 is bright, 5 blinks, 7 is black on white, 30 and 40 on set the colours of
      the character and of its background; other numbers do nothing. */
  lemma SetsColours(g: Geometry, t: Term, s: string)
    requires t.mode == Normal && AllDigits(s)
    ensures var n, a := I32(Value(0, s)), t.attrib.v;
            var b: bv8 := if n == 0 then 0x07 else if n == 1 then a | 0x08 else if n == 5 then a | 0x80
                          else if n == 7 then 0x70
                          else if 30 <= n <= 37 then (a & 0xF8) | [0, 4, 2, 14, 1, 5, 3, 7][n - 30]
                          else if 40 <= n <= 47 then (a & 0x8F) | [0, 0x40, 0x20, 0x60, 0x10, 0x50, 0x30, 0x70][n - 40]
                          else a;
            Write(g, t, "\U{1B}[" + s + "m") == t.(attrib := Attr(b))
  {
    var n := I32(Value(0, s));
    OneNumber(g, t, s, "m");
    PaintOne(t.attrib, n);
    Colours(t.attrib, n);
    hide Write, I32, Value, PaintAll, Paint;
  }

  lemma PaintOne(a: Attr, n: int)
    ensures PaintAll(a, [n]) == Paint(a, n)
  {
    assert [n][1..] == [];
  }

  lemma Colours(a: Attr, n: int)
    ensures Paint(a, n).v
         == if n == 0 then 0x07 else if n == 1 then a.v | 0x08 else if n == 5 then a.v | 0x80
            else if n == 7 then 0x70
            else if 30 <= n <= 37 then (a.v & 0xF8) | [0, 4, 2, 14, 1, 5, 3, 7][n - 30]
            else if 40 <= n <= 47 then (a.v & 0x8F) | [0, 0x40, 0x20, 0x60, 0x10, 0x50, 0x30, 0x70][n - 40]
            else a.v
  {
    if 30 <= n <= 37 {
      Foreground(n - 30);
      NoFlags(a.v);
      hide Fg, Bg;
    } else if 40 <= n <= 47 {
      Background(n - 40);
      NoFlags(a.v);
      hide Fg, Bg;
    }
  }

  lemma NoFlags(v: bv8)
    ensures v & !0x7 == v & 0xF8 && v & !0x70 == v & 0x8F
  {
  }

  lemma Foreground(i: nat)
    requires i < 8
    ensures Fg(i) == [0, 4, 2, 14, 1, 5, 3, 7][i]
  {
  }

  lemma Background(i: nat)
    requires i < 8
    ensures Bg(i) << 4 == [0, 0x40, 0x20, 0x60, 0x10, 0x50, 0x30, 0x70][i]
  {
  }

  lemma ColourSequence(g: Geometry, t: Term, nums: seq<string>)
    requires t.mode == Normal && Numbers(nums)
    ensures Write(g, t, "\U{1B}[" + Joined(nums) + "m") == t.(attrib := PaintAll(t.attrib, Values(nums)))
  {
    assert "m" == ['m'];
    hide Write, Joined, Values, PaintAll;
    SequenceIs(g, t, nums, 'm');
  }

  lemma ValuesInTwo(a: Attr, s: string, nums: seq<string>)
    requires Numbers([s] + nums) && nums != []
    ensures Numbers([s]) && Numbers(nums) && Joined([s]) == s
    ensures PaintAll(a, Values([s] + nums)) == PaintAll(PaintAll(a, Values([s])), Values(nums))
  {
    var n := I32(Value(0, s));
    assert ([s] + nums)[0] == s && forall i :: 0 <= i < |nums| ==> nums[i] == ([s] + nums)[i + 1];
    hide I32, Value, Paint;
    assert Values([s]) == [n] && Values([s] + nums) == [n] + Values(nums);
    assert ([n] + Values(nums))[1..] == Values(nums);
    PaintOne(a, n);
  }

  /** Several numbers before m are as so many sequences of one. */
  lemma SetsColoursInOrder(g: Geometry, t: Term, s: string, nums: seq<string>)
    requires t.mode == Normal && AllDigits(s) && Numbers([s] + nums) && nums != []
    ensures Write(g, t, "\U{1B}[" + Joined([s] + nums) + "m")
         == Write(g, Write(g, t, "\U{1B}[" + s + "m"), "\U{1B}[" + Joined(nums) + "m")
  {
    hide *;
    ValuesInTwo(t.attrib, s, nums);
    ColourSequence(g, t, [s] + nums);
    ColourSequence(g, t, [s]);
    ColourSequence(g, Write(g, t, "\U{1B}[" + s + "m"), nums);
  }
}
