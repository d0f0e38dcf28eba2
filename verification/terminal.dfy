/** What the ANSI terminal of msdos/display.c shows, as a list of lines that only grows: the last
    rows of it are the screen, the others have scrolled off. */
module Terminal {
  import opened Machine

  const MAXARGS: nat := 5

  const NUL := '\0'
  const BELL := '\U{07}'
  const BACKSPACE := '\U{08}'
  const FF := '\U{0C}'
  const CTLQ := '\U{11}'
  const ESC := '\U{1B}'

  datatype Attr = Attr(v: bv8)

  datatype Cell = Cell(ch: char, at: Attr)

  type Line = seq<Cell>

  /** The arguments of a control sequence are int32. */
  datatype Mode = Normal | Escape | Args(args: seq<int>)

  datatype Geometry = Geometry(rows: nat, cols: nat)

  datatype Term = Term(
    lines: seq<Line>, row: int, col: int, savrow: int, savcol: int,
    attrib: Attr, mode: Mode, noWrap: bool, tabs: seq<bool>)

  const PLAIN := Attr(0x7)

  function Blanks(n: nat, at: Attr): (l: Line)
    ensures |l| == n
  {
    seq(n, _ => Cell(' ', at))
  }

  ghost predicate Wide(lines: seq<Line>, cols: nat) {
    forall i :: 0 <= i < |lines| ==> |lines[i]| == cols
  }

  predicate ArgsFine(args: seq<int>) {
    0 < |args| <= MAXARGS && forall i :: 0 <= i < |args| ==> -HALF <= args[i] < HALF
  }

  /** Cursor, saved cursor, tab stops and arguments in range, and every line as wide as the screen. */
  ghost predicate Fine(g: Geometry, t: Term) {
    && 0 < g.rows < HALF && 0 < g.cols < HALF && |t.lines| >= g.rows && Wide(t.lines, g.cols)
    && 0 <= t.row < g.rows && 0 <= t.col < g.cols && 0 <= t.savrow < g.rows && 0 <= t.savcol < g.cols
    && |t.tabs| == g.cols
    && (t.mode.Args? ==> ArgsFine(t.mode.args))
  }

  function LineAt(g: Geometry, t: Term, r: int): Line {
    var i := |t.lines| - g.rows + r;
    if 0 <= i < |t.lines| then t.lines[i] else []
  }

  function SetLine(g: Geometry, t: Term, r: int, l: Line): Term {
    var i := |t.lines| - g.rows + r;
    if 0 <= i < |t.lines| then t.(lines := t.lines[i := l]) else t
  }

  /** The lines on the screen. */
  function Screen(g: Geometry, t: Term): seq<Line> {
    if g.rows <= |t.lines| then t.lines[|t.lines| - g.rows..] else t.lines
  }

  // ----- one line -----

  function Cleared(l: Line, col: int, at: Attr): Line {
    if 0 <= col < |l| then l[..col] + Blanks(|l| - col, at) else l
  }

  function Put(l: Line, col: int, c: Cell): Line {
    if 0 <= col < |l| then l[col := c] else l
  }

  function Inserted(l: Line, col: int, c: Cell): Line {
    if 0 <= col < |l| then l[..col] + [c] + l[col..|l| - 1] else l
  }

  function Deleted(l: Line, col: int, c: Cell): Line {
    if 0 <= col < |l| then l[..col] + l[col + 1..] + [c] else l
  }

  // ----- the screen -----

  function ClearEol(g: Geometry, t: Term, r: int, col: int): Term {
    SetLine(g, t, r, Cleared(LineAt(g, t, r), col, t.attrib))
  }

  /** Clear the rows from r on. */
  function ClearRows(g: Geometry, t: Term, r: int): Term
    decreases g.rows - r
  {
    if r >= g.rows then t else ClearRows(g, ClearEol(g, t, r, 0), r + 1)
  }

  function ClearEos(g: Geometry, t: Term, r: int, col: int): Term {
    ClearRows(g, ClearEol(g, t, r, col), r + 1)
  }

  function ClearScreen(g: Geometry, t: Term): Term {
    ClearEos(g, t, 0, 0).(row := 0, col := 0)
  }

  function InsertChar(g: Geometry, t: Term): Term {
    SetLine(g, t, t.row, Inserted(LineAt(g, t, t.row), t.col, Cell(' ', t.attrib)))
  }

  function DeleteChar(g: Geometry, t: Term): Term {
    SetLine(g, t, t.row, Deleted(LineAt(g, t, t.row), t.col, Cell(' ', t.attrib)))
  }

  /** The cursor's line leaves the screen, those below move up, a blank one comes at the bottom. */
  function DeleteLine(g: Geometry, t: Term): Term {
    var i := |t.lines| - g.rows + t.row;
    if 0 <= i < |t.lines| then t.(lines := t.lines[..i] + t.lines[i + 1..] + [Blanks(g.cols, t.attrib)]) else t
  }

  /** A blank line comes at the cursor, those from there on move down, the bottom one is lost. */
  function InsertLine(g: Geometry, t: Term): Term {
    var i := |t.lines| - g.rows + t.row;
    if 0 <= i < |t.lines|
    then t.(lines := t.lines[..i] + [Blanks(g.cols, t.attrib)] + t.lines[i..|t.lines| - 1])
    else t
  }

  /** A blank line comes at the bottom; the top one scrolls off and stays in the list. */
  function Scroll(g: Geometry, t: Term): Term {
    t.(lines := t.lines + [Blanks(g.cols, t.attrib)])
  }

  /** One row down, scrolling at the bottom. */
  function Down(g: Geometry, t: Term): Term {
    if t.row + 1 < g.rows then t.(row := t.row + 1) else Scroll(g, t)
  }

  /** The next tab stop behind col, or the last column. */
  function Tab(tabs: seq<bool>, col: int): (c: int)
    ensures 0 <= col < |tabs| ==> col <= c < |tabs|
    decreases |tabs| - col
  {
    if col + 1 >= |tabs| then col
    else if 0 <= col + 1 && tabs[col + 1] then col + 1
    else Tab(tabs, col + 1)
  }

  /** A character that is shown, at the cursor; then the cursor advances. */
  function Show(g: Geometry, t: Term, c: char): Term {
    var t1 := SetLine(g, t, t.row, Put(LineAt(g, t, t.row), t.col, Cell(c, t.attrib)));
    if t.col + 1 < g.cols then t1.(col := t.col + 1)
    else if t.noWrap then t1
    else Down(g, t1.(col := 0))
  }

  /** dchar. */
  function Char(g: Geometry, t: Term, c: char): Term {
    if c == ESC then t.(mode := Escape)
    else if c == CTLQ || c == NUL || c == BELL then t
    else if c == BACKSPACE then (if t.col > 0 then t.(col := t.col - 1) else t)
    else if c == FF then ClearScreen(g, t)
    else if c == '\t' then t.(col := Tab(t.tabs, t.col))
    else if c == '\n' then Down(g, t)
    else if c == '\r' then t.(col := 0)
    else Show(g, t, c)
  }

  function SetTab(t: Term, on: bool): Term {
    if 0 <= t.col < |t.tabs| then t.(tabs := t.tabs[t.col := on]) else t
  }

  /** desc. */
  function Esc(g: Geometry, t: Term, c: char): Term {
    if c == 'O' || c == '[' then t.(mode := Args([0]))
    else if c == '7' then t.(savcol := t.col, savrow := t.row, mode := Normal)
    else if c == '8' then t.(col := t.savcol, row := t.savrow, mode := Normal)
    else if c == ESC then t
    else if c == 'H' then SetTab(t, true)
    else Char(g, t.(mode := Normal), c)
  }

  // ----- control sequences -----

  function Arg(t: Term, i: nat): int {
    if t.mode.Args? && i < |t.mode.args| then t.mode.args[i] else 0
  }

  function OneIfNone(n: int): int {
    if n == 0 then 1 else n
  }

  /** Cursor up or left: the subtraction is in int32. */
  function Back(x: int, n: int): int {
    if n <= x then I32(x - n) else 0
  }

  /** Only too large a row or column is put right. */
  function Capped(x: int, limit: nat): int {
    if x >= limit then limit - 1 else x
  }

  /** Rows and columns are counted from 1, and 0 stands for 1. */
  function FromOne(n: int): int {
    if n == 0 then 0 else I32(n - 1)
  }

  /** dattrib. */
  function Paint(a: Attr, val: int): Attr {
    if val == 0 then PLAIN
    else if val == 1 then Attr(a.v | 0x8)
    else if val == 5 then Attr(a.v | 0x80)
    else if val == 7 then Attr(0x70)
    else if 30 <= val < 38 then Attr((a.v & !0x7) | Fg(val - 30))
    else if 40 <= val < 48 then Attr((a.v & !0x70) | (Bg(val - 40) << 4))
    else a
  }

  function Fg(i: nat): bv8 {
    match i case 0 => 0 case 1 => 4 case 2 => 2 case 3 => 14 case 4 => 1 case 5 => 5 case 6 => 3 case _ => 7
  }

  function Bg(i: nat): bv8 {
    match i case 0 => 0 case 1 => 4 case 2 => 2 case 3 => 6 case 4 => 1 case 5 => 5 case 6 => 3 case _ => 7
  }

  function PaintAll(a: Attr, vals: seq<int>): Attr
    decreases |vals|
  {
    if vals == [] then a else PaintAll(Paint(a, vals[0]), vals[1..])
  }

  predicate IsDigit(c: char) {
    '0' <= c <= '9'
  }

  function Digit(c: char): nat
    requires IsDigit(c)
  {
    c as int - '0' as int
  }

  /** The letters that change what the screen shows. */
  function Edit(g: Geometry, t: Term, c: char): Term {
    if c == '@' then InsertChar(g, t)
    else if c == 'J' then
      (if Arg(t, 0) == 2 then ClearScreen(g, t)
       else if Arg(t, 0) == 0 then ClearEos(g, t, t.row, t.col)
       else t)
    else if c == 'K' then ClearEol(g, t, t.row, t.col)
    else if c == 'L' then InsertLine(g, t)
    else if c == 'M' then DeleteLine(g, t)
    else if c == 'P' then DeleteChar(g, t)
    else t
  }

  /** The letters that move the cursor. */
  function Move(g: Geometry, t: Term, c: char): Term {
    var n := OneIfNone(Arg(t, 0));
    if c == 'A' then t.(row := Back(t.row, n))
    else if c == 'B' then t.(row := Capped(I32(t.row + n), g.rows))
    else if c == 'C' then t.(col := Capped(I32(t.col + n), g.cols))
    else if c == 'D' then t.(col := Back(t.col, n))
    else if c == 'f' || c == 'H' then
      t.(row := Capped(FromOne(Arg(t, 0)), g.rows), col := Capped(FromOne(Arg(t, 1)), g.cols))
    else if c == 'u' then t.(col := t.savcol, row := t.savrow)
    else t
  }

  /** The letters that set modes, attributes, tab stops and the saved cursor. */
  function Set(t: Term, c: char): Term {
    if c == 'h' then (if Arg(t, 0) == 7 then t.(noWrap := false) else t)
    else if c == 'l' then (if Arg(t, 0) == 7 then t.(noWrap := true) else t)
    else if c == 'm' then t.(attrib := PaintAll(t.attrib, if t.mode.Args? then t.mode.args else []))
    else if c == 's' then t.(savcol := t.col, savrow := t.row)
    else if c == 'g' then
      (if Arg(t, 0) == 0 then SetTab(t, false)
       else if Arg(t, 0) == 3 then t.(tabs := seq(|t.tabs|, _ => false))
       else t)
    else t
  }

  /** The effect of the letter that ends a control sequence; unknown ones have none. */
  function Control(g: Geometry, t: Term, c: char): Term {
    if c in "@JKLMP" then Edit(g, t, c) else if c in "hlmsg" then Set(t, c) else Move(g, t, c)
  }

  /** darg. */
  function Sequence(g: Geometry, t: Term, c: char, args: seq<int>): Term {
    if args == [] then t
    else if c == ESC then t.(mode := Escape)
    else if c == '?' || c == '=' then t
    else if IsDigit(c) then t.(mode := Args(args[|args| - 1 := I32(10 * args[|args| - 1] + Digit(c))]))
    else if c == ';' then t.(mode := Args(args + [0]))
    else Control(g, t, c).(mode := Normal)
  }

  /** A sixth argument would be written past the end of arg[]. */
  predicate TooMany(t: Term, c: char) {
    t.mode.Args? && c == ';' && |t.mode.args| >= MAXARGS
  }

  /** The cursor stays on the screen if letter c moves it. */
  predicate Stays(g: Geometry, t: Term, c: char) {
    var n := OneIfNone(Arg(t, 0));
    && (c == 'A' ==> n >= 0 || t.row - n < g.rows)
    && (c == 'B' ==> 0 <= t.row + n < HALF)
    && (c == 'C' ==> 0 <= t.col + n < HALF)
    && (c == 'D' ==> n >= 0 || t.col - n < g.cols)
    && (c == 'f' || c == 'H' ==> (Arg(t, 0) >= 0 || Arg(t, 0) == -HALF) && (Arg(t, 1) >= 0 || Arg(t, 1) == -HALF))
  }

  predicate Harmless(g: Geometry, t: Term, c: char) {
    !TooMany(t, c) && (t.mode.Args? ==> Stays(g, t, c))
  }

  /** One byte of output. */
  function Step(g: Geometry, t: Term, c: char): Term {
    match t.mode
    case Normal => Char(g, t, c)
    case Escape => Esc(g, t, c)
    case Args(args) => Sequence(g, t, c, args)
  }

  // ----- what every step keeps -----

  /** Lines that have scrolled off stay as they are. */
  ghost predicate Kept(g: Geometry, t: Term, u: Term) {
    && g.rows <= |t.lines| <= |u.lines|
    && forall i :: 0 <= i < |t.lines| - g.rows ==> u.lines[i] == t.lines[i]
  }

  /** u is in order, and t's history is u's. */
  ghost predicate Follows(g: Geometry, t: Term, u: Term) {
    Fine(g, u) && Kept(g, t, u)
  }

  lemma KeptTwice(g: Geometry, t: Term, u: Term, v: Term)
    requires Kept(g, t, u) && Kept(g, u, v)
    ensures Kept(g, t, v)
  {
  }

  lemma SetLineFollows(g: Geometry, t: Term, r: nat, l: Line)
    requires Fine(g, t) && r < g.rows && |l| == g.cols
    ensures Follows(g, t, SetLine(g, t, r, l))
  {
  }

  lemma LineIsWide(g: Geometry, t: Term, r: nat)
    requires Fine(g, t) && r < g.rows
    ensures |LineAt(g, t, r)| == g.cols
  {
  }

  lemma ClearEolFollows(g: Geometry, t: Term, r: nat, col: nat)
    requires Fine(g, t) && r < g.rows
    ensures Follows(g, t, ClearEol(g, t, r, col))
  {
    LineIsWide(g, t, r);
    hide Fine, Follows, SetLine, LineAt;
    SetLineFollows(g, t, r, Cleared(LineAt(g, t, r), col, t.attrib));
  }

  lemma {:induction false} ClearRowsFollows(g: Geometry, t: Term, r: nat)
    requires Fine(g, t)
    ensures Follows(g, t, ClearRows(g, t, r))
    decreases g.rows - r
  {
    if r < g.rows {
      ClearEolFollows(g, t, r, 0);
      hide Fine, Kept, ClearEol;
      ClearRowsFollows(g, ClearEol(g, t, r, 0), r + 1);
      KeptTwice(g, t, ClearEol(g, t, r, 0), ClearRows(g, t, r));
    }
  }

  lemma ClearEosFollows(g: Geometry, t: Term, r: nat, col: nat)
    requires Fine(g, t) && r < g.rows
    ensures Follows(g, t, ClearEos(g, t, r, col))
  {
    hide Fine, Kept, ClearEol, ClearRows;
    ClearEolFollows(g, t, r, col);
    ClearRowsFollows(g, ClearEol(g, t, r, col), r + 1);
    KeptTwice(g, t, ClearEol(g, t, r, col), ClearEos(g, t, r, col));
  }

  lemma ClearScreenFollows(g: Geometry, t: Term)
    requires Fine(g, t)
    ensures Follows(g, t, ClearScreen(g, t))
  {
    ClearEosFollows(g, t, 0, 0);
    hide ClearEos;
  }

  lemma LineOpsFollow(g: Geometry, t: Term)
    requires Fine(g, t)
    ensures Follows(g, t, InsertChar(g, t)) && Follows(g, t, DeleteChar(g, t))
  {
    LineIsWide(g, t, t.row);
    var l, c := LineAt(g, t, t.row), Cell(' ', t.attrib);
    hide Follows, SetLine, LineAt;
    SetLineFollows(g, t, t.row, Inserted(l, t.col, c));
    SetLineFollows(g, t, t.row, Deleted(l, t.col, c));
  }

  lemma InsertLineFollows(g: Geometry, t: Term)
    requires Fine(g, t)
    ensures Follows(g, t, InsertLine(g, t))
  {
  }

  lemma DeleteLineFollows(g: Geometry, t: Term)
    requires Fine(g, t)
    ensures Follows(g, t, DeleteLine(g, t))
  {
  }

  lemma DownFollows(g: Geometry, t: Term)
    requires Fine(g, t)
    ensures Follows(g, t, Down(g, t))
  {
  }

  lemma ShowFollows(g: Geometry, t: Term, c: char)
    requires Fine(g, t)
    ensures Follows(g, t, Show(g, t, c))
  {
    LineIsWide(g, t, t.row);
    var l := Put(LineAt(g, t, t.row), t.col, Cell(c, t.attrib));
    SetLineFollows(g, t, t.row, l);
    var t1 := SetLine(g, t, t.row, l);
    assert t1 == t.(lines := t1.lines);
    hide SetLine, Kept, LineAt;
    if t.col + 1 >= g.cols && !t.noWrap {
      DownFollows(g, t1.(col := 0));
      SameLinesKept(g, t1, t1.(col := 0));
      KeptTwice(g, t, t1.(col := 0), Show(g, t, c));
    } else {
      SameLinesKept(g, t1, t1.(col := t.col + 1));
    }
  }

  lemma SameLinesKept(g: Geometry, t: Term, u: Term)
    requires t.lines == u.lines
    ensures forall x :: Kept(g, x, t) ==> Kept(g, x, u)
    ensures g.rows <= |t.lines| ==> Kept(g, t, u)
  {
  }

  lemma CharFollows(g: Geometry, t: Term, c: char)
    requires Fine(g, t)
    ensures Follows(g, t, Char(g, t, c))
  {
    if c == FF {
      ClearScreenFollows(g, t);
    } else if c == '\n' {
      DownFollows(g, t);
    } else {
      hide ClearScreen, Down, Show, Tab;
      ShowFollows(g, t, c);
    }
  }

  lemma EscFollows(g: Geometry, t: Term, c: char)
    requires Fine(g, t)
    ensures Follows(g, t, Esc(g, t, c))
  {
    hide Char;
    CharFollows(g, t.(mode := Normal), c);
  }

  lemma EditFollows(g: Geometry, t: Term, c: char)
    requires Fine(g, t)
    ensures Follows(g, t, Edit(g, t, c))
  {
    ClearScreenFollows(g, t);
    ClearEosFollows(g, t, t.row, t.col);
    ClearEolFollows(g, t, t.row, t.col);
    LineOpsFollow(g, t);
    InsertLineFollows(g, t);
    DeleteLineFollows(g, t);
    SameLinesKept(g, t, t);
    hide ClearScreen, ClearEos, ClearEol, InsertChar, DeleteChar, InsertLine, DeleteLine, Kept;
  }

  lemma BackStays(x: int, n: int, limit: nat)
    requires 0 <= x < limit < HALF && -HALF <= n < HALF
    ensures 0 <= Back(x, n) < limit <==> n >= 0 || x - n < limit
  {
  }

  lemma ForwardStays(x: int, n: int, limit: nat)
    requires 0 <= x < limit < HALF && -HALF <= n < HALF
    ensures 0 <= Capped(I32(x + n), limit) < limit <==> 0 <= x + n < HALF
  {
  }

  lemma PlaceStays(n: int, limit: nat)
    requires 0 < limit < HALF && -HALF <= n < HALF
    ensures 0 <= Capped(FromOne(n), limit) < limit <==> n >= 0 || n == -HALF
  {
  }

  lemma ArgInRange(t: Term, i: nat)
    requires t.mode.Args? ==> ArgsFine(t.mode.args)
    ensures -HALF <= Arg(t, i) < HALF
  {
  }

  /** A letter leaves the cursor on the screen exactly if, for A and D, its argument is not negative
      or not too far below zero; for B and C, the sum is neither negative nor too large for an int; for
      f and H, no argument is negative but the least int, which wraps around. */
  lemma MoveStaysExactly(g: Geometry, t: Term, c: char)
    requires Fine(g, t)
    ensures Fine(g, Move(g, t, c)) <==> Stays(g, t, c)
  {
    ArgInRange(t, 0);
    ArgInRange(t, 1);
    var n, u := OneIfNone(Arg(t, 0)), Move(g, t, c);
    CursorAt(g, t, u.row, u.col);
    MoveChanges(g, t, c);
    hide Fine, Back, Capped, FromOne, I32, Arg, OneIfNone, ArgsFine;
    if c == 'A' {
      BackStays(t.row, n, g.rows);
    } else if c == 'B' {
      ForwardStays(t.row, n, g.rows);
    } else if c == 'C' {
      ForwardStays(t.col, n, g.cols);
    } else if c == 'D' {
      BackStays(t.col, n, g.cols);
    } else if c == 'f' || c == 'H' {
      PlaceStays(Arg(t, 0), g.rows);
      PlaceStays(Arg(t, 1), g.cols);
    }
  }

  lemma MoveChanges(g: Geometry, t: Term, c: char)
    ensures var u := Move(g, t, c); u == t.(row := u.row, col := u.col)
  {
    hide Back, Capped, FromOne, I32, Arg;
  }

  lemma CursorAt(g: Geometry, t: Term, row: int, col: int)
    requires Fine(g, t)
    ensures 0 < g.rows < HALF && 0 < g.cols < HALF && 0 <= t.row < g.rows && 0 <= t.col < g.cols
    ensures 0 <= t.savrow < g.rows && 0 <= t.savcol < g.cols && (t.mode.Args? ==> ArgsFine(t.mode.args))
    ensures Fine(g, t.(row := row, col := col)) <==> 0 <= row < g.rows && 0 <= col < g.cols
  {
    hide Wide, ArgsFine;
  }

  lemma MoveFollows(g: Geometry, t: Term, c: char)
    requires Fine(g, t)
    ensures Kept(g, t, Move(g, t, c)) && (Fine(g, Move(g, t, c)) <==> Stays(g, t, c))
  {
    MoveStaysExactly(g, t, c);
    SameLinesKept(g, t, Move(g, t, c));
    hide Kept, Stays, Back, Capped, FromOne, I32, Arg;
  }

  lemma SetFollows(g: Geometry, t: Term, c: char)
    requires Fine(g, t)
    ensures Follows(g, t, Set(t, c))
  {
    SameLinesKept(g, t, Set(t, c));
    hide Kept, Wide, PaintAll;
  }

  lemma ControlFollows(g: Geometry, t: Term, c: char)
    requires Fine(g, t)
    ensures Kept(g, t, Control(g, t, c)) && (Fine(g, Control(g, t, c)) <==> Stays(g, t, c))
  {
    hide Fine, Kept, Edit, Set, Move;
    EditFollows(g, t, c);
    SetFollows(g, t, c);
    MoveFollows(g, t, c);
  }

  lemma NewMode(g: Geometry, t: Term, u: Term, m: Mode)
    ensures Kept(g, t, u) ==> Kept(g, t, u.(mode := m))
    ensures !m.Args? && (u.mode.Args? ==> ArgsFine(u.mode.args)) ==> (Fine(g, u.(mode := m)) <==> Fine(g, u))
    ensures m.Args? && Fine(g, t) ==> (Fine(g, t.(mode := m)) <==> ArgsFine(m.args))
  {
    hide Wide, ArgsFine;
  }

  lemma ControlKeepsMode(g: Geometry, t: Term, c: char)
    ensures Control(g, t, c).mode == t.mode
  {
    ClearRowsChanges(g, ClearEol(g, t, t.row, t.col), t.row + 1);
    ClearRowsChanges(g, ClearEol(g, t, 0, 0), 1);
    hide LineAt, Inserted, Deleted, Cleared, ClearRows, PaintAll;
  }

  lemma {:induction false} ClearRowsChanges(g: Geometry, t: Term, r: int)
    ensures ClearRows(g, t, r) == t.(lines := ClearRows(g, t, r).lines)
    decreases g.rows - r
  {
    if r < g.rows {
      ClearRowsChanges(g, ClearEol(g, t, r, 0), r + 1);
    }
  }

  lemma SequenceFollows(g: Geometry, t: Term, c: char, args: seq<int>)
    requires Fine(g, t) && t.mode == Args(args)
    ensures Kept(g, t, Sequence(g, t, c, args))
    ensures Fine(g, Sequence(g, t, c, args)) <==> Harmless(g, t, c)
  {
    ControlFollows(g, t, c);
    ControlKeepsMode(g, t, c);
    SameLinesKept(g, t, t);
    NewMode(g, t, t, Escape);
    NewMode(g, t, Control(g, t, c), Normal);
    NewMode(g, t, t, Sequence(g, t, c, args).mode);
    hide Control, Kept, Wide, I32, Arg;
  }

  /** What has scrolled off stays; and cursor, saved cursor, tab stops and arguments stay in range and
      lines keep their width exactly if the byte neither begins a sixth argument nor moves the cursor by
      an argument that is out of bounds. */
  lemma StepFollows(g: Geometry, t: Term, c: char)
    requires Fine(g, t)
    ensures Kept(g, t, Step(g, t, c))
    ensures Fine(g, Step(g, t, c)) <==> Harmless(g, t, c)
  {
    hide Fine, Kept, Char, Esc, Sequence, Stays;
    match t.mode
    case Normal => CharFollows(g, t, c);
    case Escape => EscFollows(g, t, c);
    case Args(args) => SequenceFollows(g, t, c, args);
  }

  /** displaywrite. */
  function Write(g: Geometry, t: Term, s: string): Term
    decreases |s|
  {
    if s == [] then t else Write(g, Step(g, t, s[0]), s[1..])
  }

  /** No byte of s begins a sixth argument or moves the cursor off the screen. */
  predicate Bounded(g: Geometry, t: Term, s: string)
    decreases |s|
  {
    s == [] || (Harmless(g, t, s[0]) && Bounded(g, Step(g, t, s[0]), s[1..]))
  }

  /** While no byte does so, everything stays in range, and what has scrolled off stays. */
  lemma {:induction false} WriteFollows(g: Geometry, t: Term, s: string)
    requires Fine(g, t) && Bounded(g, t, s)
    ensures Follows(g, t, Write(g, t, s))
    decreases |s|
  {
    if s != [] {
      StepFollows(g, t, s[0]);
      hide Fine, Kept, Step;
      WriteFollows(g, Step(g, t, s[0]), s[1..]);
      KeptTwice(g, t, Step(g, t, s[0]), Write(g, t, s));
    } else {
      SameLinesKept(g, t, t);
    }
  }

  /** And only then: everything is in range after each byte exactly if none of them is harmful. */
  lemma {:induction false} WriteStaysExactly(g: Geometry, t: Term, s: string)
    requires Fine(g, t)
    ensures Bounded(g, t, s) <==> forall k :: 0 <= k <= |s| ==> Fine(g, Write(g, t, s[..k]))
    decreases |s|
  {
    hide Fine, Kept, Step, Harmless;
    assert s[..0] == [];
    if s != [] {
      StepFollows(g, t, s[0]);
      var u := Step(g, t, s[0]);
      forall k | 0 < k <= |s|
        ensures Write(g, t, s[..k]) == Write(g, u, s[1..][..k - 1])
      {
        assert s[..k][0] == s[0] && s[..k][1..] == s[1..][..k - 1];
      }
      assert s[1..][..0] == [];
      if Fine(g, u) {
        WriteStaysExactly(g, u, s[1..]);
        forall k | 0 <= k <= |s[1..]|
          ensures Write(g, u, s[1..][..k]) == Write(g, t, s[..k + 1])
        {
        }
      } else {
        assert !Fine(g, Write(g, t, s[..1]));
      }
    }
  }
}

/** Which byte strings are harmless, and two that are not. */
module TerminalBytes {
  import opened Machine
  import opened Terminal

  // ----- numbers -----

  /** A number read on behind the number a. */
  function Value(a: int, s: string): int
    decreases |s|
  {
    if s == [] then a else if IsDigit(s[0]) then Value(10 * a + Digit(s[0]), s[1..]) else Value(a, s[1..])
  }

  predicate AllDigits(s: string) {
    forall i :: 0 <= i < |s| ==> IsDigit(s[i])
  }

  lemma WrappedDigit(a: int, d: int)
    ensures I32(10 * I32(a) + d) == I32(10 * a + d)
  {
    var q := (a + HALF) / 0x1_0000_0000;
    assert I32(a) == a - 0x1_0000_0000 * q;
    Periodic(10 * a + d, -10 * q);
  }

  lemma Periodic(x: int, k: int)
    ensures I32(x + 0x1_0000_0000 * k) == I32(x)
  {
  }

  /** The digits of a number leave it in the argument, reduced to an int32, however many they are. */
  lemma {:induction false} NumberIs(g: Geometry, t: Term, a: int, s: string)
    requires AllDigits(s) && t.mode == Args([I32(a)])
    ensures Write(g, t, s) == t.(mode := Args([I32(Value(a, s))]))
    decreases |s|
  {
    if s != [] {
      var d := Digit(s[0]);
      WrappedDigit(a, d);
      var u := t.(mode := Args([I32(10 * a + d)]));
      assert IsDigit(s[0]) && [I32(a)][0 := I32(10 * a + d)] == [I32(10 * a + d)];
      assert Step(g, t, s[0]) == u by {
        hide Control, I32;
      }
      hide Step, I32;
      NumberIs(g, u, 10 * a + d, s[1..]);
    }
  }

  lemma {:induction false} WriteInTwo(g: Geometry, t: Term, x: string, y: string)
    ensures Write(g, t, x + y) == Write(g, Write(g, t, x), y)
    decreases |x|
  {
    if x == [] {
      assert x + y == y;
    } else {
      hide Step;
      assert (x + y)[1..] == x[1..] + y;
      WriteInTwo(g, Step(g, t, x[0]), x[1..], y);
    }
  }

  /** ESC [ number letter: the letter with the number as its argument. */
  lemma SequenceWithNumber(g: Geometry, t: Term, s: string, c: char)
    requires t.mode == Normal && AllDigits(s) && c in "ABCDfH"
    ensures Write(g, t, [ESC, '['] + s + [c])
         == Move(g, t.(mode := Args([I32(Value(0, s))])), c).(mode := Normal)
  {
    var u := t.(mode := Args([0]));
    assert Step(g, t, ESC) == t.(mode := Escape) && Step(g, t.(mode := Escape), '[') == u;
    Write2(g, t, ESC, '[');
    assert I32(0) == 0;
    NumberIs(g, u, 0, s);
    var v := t.(mode := Args([I32(Value(0, s))]));
    assert Step(g, v, c) == Move(g, v, c).(mode := Normal) by {
      hide Move, Edit, Set, I32;
    }
    Write1(g, v, c);
    hide *;
    WriteInTwo(g, t, [ESC, '['] + s, [c]);
    WriteInTwo(g, t, [ESC, '['], s);
  }

  lemma Write1(g: Geometry, t: Term, c: char)
    ensures Write(g, t, [c]) == Step(g, t, c)
  {
    assert [c][1..] == [];
    hide Step;
  }

  lemma Write2(g: Geometry, t: Term, c: char, d: char)
    ensures Write(g, t, [c, d]) == Step(g, Step(g, t, c), d)
  {
    assert [c, d][1..] == [d];
    Write1(g, Step(g, t, c), d);
    hide Step;
  }

  // ----- two harmful strings -----

  lemma OneDigit(a: int, s: string)
    requires s != [] && IsDigit(s[0])
    ensures Value(a, s) == Value(10 * a + Digit(s[0]), s[1..])
  {
  }

  lemma FiveDigits(a: int, s: string)
    requires |s| >= 5 && AllDigits(s[..5])
    ensures Value(a, s) == Value(100000 * a + 10000 * Digit(s[0]) + 1000 * Digit(s[1]) + 100 * Digit(s[2])
                                 + 10 * Digit(s[3]) + Digit(s[4]), s[5..])
  {
    var b := 10 * a + Digit(s[0]);
    var c := 10 * b + Digit(s[1]);
    var d := 10 * c + Digit(s[2]);
    var e := 10 * d + Digit(s[3]);
    assert forall i :: 0 <= i < 5 ==> IsDigit(s[..5][i]);
    hide *;
    OneDigit(a, s);
    OneDigit(b, s[1..]);
    OneDigit(c, s[2..]);
    OneDigit(d, s[3..]);
    OneDigit(e, s[4..]);
    assert s[1..][1..] == s[2..] && s[2..][1..] == s[3..] && s[3..][1..] == s[4..] && s[4..][1..] == s[5..];
  }

  lemma TenDigits(s: string, high: int, low: int)
    requires |s| == 10 && AllDigits(s)
    requires high == 10000 * Digit(s[0]) + 1000 * Digit(s[1]) + 100 * Digit(s[2]) + 10 * Digit(s[3]) + Digit(s[4])
    requires low == 10000 * Digit(s[5]) + 1000 * Digit(s[6]) + 100 * Digit(s[7]) + 10 * Digit(s[8]) + Digit(s[9])
    ensures Value(0, s) == 100000 * high + low
  {
    assert AllDigits(s[..5]) && AllDigits(s[5..][..5]) && s[5..][5..] == [];
    assert Value(100000 * high + low, []) == 100000 * high + low;
    hide *;
    FiveDigits(0, s);
    FiveDigits(high, s[5..]);
  }

  lemma TooLargeNumber()
    ensures AllDigits("4294967295") && Value(0, "4294967295") == 0xFFFF_FFFF
  {
    hide Value;
    TenDigits("4294967295", 42949, 67295);
  }

  lemma LargestInt()
    ensures AllDigits("2147483647") && Value(0, "2147483647") == 0x7FFF_FFFF
  {
    hide Value;
    TenDigits("2147483647", 21474, 83647);
  }

  /** Behind ESC [ 4294967295 B the cursor is on row -1, if it was on row 0; and no digit is needed that
      an int cannot hold: behind ESC [ 2147483647 B it is 2147483648 rows above the screen, if it was on
      row 1. */
  lemma CursorLeavesTheScreen(g: Geometry, t: Term)
    requires Fine(g, t) && t.mode == Normal
    ensures t.row == 0 ==> Write(g, t, [ESC, '['] + "4294967295" + "B").row == -1
    ensures t.row == 1 ==> Write(g, t, [ESC, '['] + "2147483647" + "B").row == -0x8000_0000
  {
    assert I32(0xFFFF_FFFF) == -1 && I32(0x7FFF_FFFF) == 0x7FFF_FFFF;
    TooLargeNumber();
    LargestInt();
    assert 'B' in "ABCDfH";
    DownBy(g, t, -1);
    DownBy(g, t, 0x7FFF_FFFF);
    hide *;
    SequenceWithNumber(g, t, "4294967295", 'B');
    SequenceWithNumber(g, t, "2147483647", 'B');
  }

  lemma DownBy(g: Geometry, t: Term, n: int)
    requires Fine(g, t) && n != 0
    ensures var u := Move(g, t.(mode := Args([n])), 'B').(mode := Normal);
            && (t.row == 0 && n == -1 ==> u.row == -1)
            && (t.row == 1 && n == 0x7FFF_FFFF ==> u.row == -0x8000_0000)
  {
    assert I32(-1) == -1 && I32(0x8000_0000) == -0x8000_0000;
    hide I32;
  }

  // ----- short numbers -----

  /** Where a byte string stands: in text, behind ESC, or k digits into the number behind m semicolons. */
  datatype Scan = InText | InEscape | InNumber(k: nat, m: nat)

  /** Where it stands behind one more byte. */
  function Past(at: Scan, c: char): Scan {
    match at
    case InText => if c == ESC then InEscape else InText
    case InEscape => if c == 'O' || c == '[' then InNumber(0, 0) else if c == ESC || c == 'H' then InEscape else InText
    case InNumber(k, m) =>
      if c == ESC then InEscape
      else if c == '?' || c == '=' then at
      else if IsDigit(c) then InNumber(k + 1, m)
      else if c == ';' then InNumber(0, m + 1)
      else InText
  }

  /** No number in a control sequence of s has more than nine digits, and no sequence more than five. */
  predicate Tame(at: Scan, s: string)
    decreases |s|
  {
    s == [] || (!(at.InNumber? && ((IsDigit(s[0]) && at.k >= 9) || (s[0] == ';' && at.m >= 4)))
                && Tame(Past(at, s[0]), s[1..]))
  }

  function Pow10(k: nat): nat {
    if k == 0 then 1 else 10 * Pow10(k - 1)
  }

  const BILLION: int := 1000000000

  lemma NineDigits(k: nat)
    requires k <= 9
    ensures Pow10(k) <= BILLION
  {
    assert Pow10(9) == 10 * (10 * (10 * (10 * (10 * (10 * Pow10(3))))));
    PowGrows(k, 9);
  }

  lemma {:induction false} PowGrows(k: nat, n: nat)
    requires k <= n
    ensures Pow10(k) <= Pow10(n)
    decreases n
  {
    if k < n {
      PowGrows(k, n - 1);
    }
  }

  predicate SmallArgs(args: seq<int>) {
    forall i :: 0 <= i < |args| ==> 0 <= args[i] < BILLION
  }

  predicate Matches(at: Scan, m: Mode) {
    match at
    case InText => m == Normal
    case InEscape => m == Escape
    case InNumber(k, n) =>
      m.Args? && |m.args| == n + 1 <= MAXARGS && k <= 9 && SmallArgs(m.args) && m.args[n] < Pow10(k)
  }

  lemma TextMatches(g: Geometry, t: Term, c: char)
    requires t.mode == Normal
    ensures Matches(Past(InText, c), Step(g, t, c).mode)
  {
    CharKeepsMode(g, t, c);
    hide Char;
  }

  lemma CharKeepsMode(g: Geometry, t: Term, c: char)
    ensures Char(g, t, c).mode == if c == ESC then Escape else t.mode
  {
    ClearRowsChanges(g, ClearEol(g, t, 0, 0), 1);
    hide LineAt, Put, Cleared, ClearRows, Tab;
  }

  lemma EscapeMatches(g: Geometry, t: Term, c: char)
    requires t.mode == Escape
    ensures Matches(Past(InEscape, c), Step(g, t, c).mode)
  {
    CharKeepsMode(g, t.(mode := Normal), c);
    hide Char;
  }

  lemma MoreDigits(k: nat, a: int, c: char)
    requires 0 <= a < Pow10(k) && k < 9 && IsDigit(c)
    ensures 0 <= I32(10 * a + Digit(c)) < Pow10(k + 1) && I32(10 * a + Digit(c)) < BILLION
  {
    NineDigits(k + 1);
    var x := 10 * a + Digit(c);
    assert 0 <= x < Pow10(k + 1);
    hide Pow10;
    assert I32(x) == x;
  }

  lemma NumberMatches(g: Geometry, t: Term, c: char, at: Scan)
    requires at.InNumber? && Matches(at, t.mode)
    requires !(IsDigit(c) && at.k >= 9) && !(c == ';' && at.m >= 4)
    ensures Matches(Past(at, c), Step(g, t, c).mode)
  {
    ControlKeepsMode(g, t, c);
    if IsDigit(c) {
      MoreDigits(at.k, t.mode.args[at.m], c);
    }
    assert Pow10(0) == 1;
    hide Control, I32, Pow10, Digit;
  }

  lemma SmallArgsStay(g: Geometry, t: Term, c: char)
    requires Fine(g, t) && g.rows <= HALF - BILLION && g.cols <= HALF - BILLION
    requires t.mode.Args? && SmallArgs(t.mode.args)
    ensures Stays(g, t, c)
  {
    assert 0 <= Arg(t, 0) < BILLION && 0 <= Arg(t, 1) < BILLION;
    hide Wide, ArgsFine, Arg;
  }

  /** A string whose numbers have at most nine digits, five to a sequence, is harmless on every screen of
      at most 1147483648 rows and columns. */
  lemma {:induction false} TameIsBounded(g: Geometry, t: Term, at: Scan, s: string)
    requires Fine(g, t) && g.rows <= HALF - BILLION && g.cols <= HALF - BILLION
    requires Matches(at, t.mode) && Tame(at, s)
    ensures Bounded(g, t, s)
    decreases |s|
  {
    if s != [] {
      var c := s[0];
      match at {
        case InText => TextMatches(g, t, c);
        case InEscape => EscapeMatches(g, t, c);
        case InNumber(_, _) =>
          NumberMatches(g, t, c, at);
          SmallArgsStay(g, t, c);
      }
      StepFollows(g, t, c);
      assert Harmless(g, t, c) by {
        hide Fine, Stays, Step;
      }
      hide Fine, Step, Harmless, Matches, Past, Kept;
      TameIsBounded(g, Step(g, t, c), Past(at, c), s[1..]);
    }
  }
}
