/** uuencode's data lines, and the historical decoder that the POSIX uuencode utility describes.
    A line is held without its newline. */
module UuFormat {
  type Byte = bv8
  type Line = seq<Byte>

  /** The four sixes of bits in three bytes, each moved to where the printing characters begin. */
  function Sixes(a: Byte, b: Byte, c: Byte): (g: seq<Byte>)
    ensures |g| == 4
  {
    [(a >> 2) + 32, (((a << 6) >> 2) | (b >> 4)) + 32, (((b << 4) >> 2) | (c >> 6)) + 32, ((c << 2) >> 2) + 32]
  }

  function Group(t: seq<Byte>): (g: seq<Byte>)
    requires |t| == 3
    ensures |g| == 4
  {
    Sixes(t[0], t[1], t[2])
  }

  /** What the three input bytes hold once d has been read over them. */
  function Over(d: seq<Byte>, stale: seq<Byte>): (t: seq<Byte>)
    requires |d| <= 3 && |stale| == 3
    ensures |t| == 3 && t[..|d|] == d
  {
    d + stale[|d|..]
  }

  /** The characters for the bytes c: group by group, the last one filled up with what was there before. */
  function Groups(c: seq<Byte>, stale: seq<Byte>): (g: seq<Byte>)
    requires |stale| == 3
    ensures |g| == (|c| + 2) / 3 * 4
  {
    if |c| == 0 then []
    else if |c| < 3 then Group(Over(c, stale))
    else Group(c[..3]) + Groups(c[3..], c[..3])
  }

  /** What the three input bytes hold once c has been read in groups. */
  function After(c: seq<Byte>, stale: seq<Byte>): (t: seq<Byte>)
    requires |stale| == 3
    ensures |t| == 3
  {
    if |c| < 3 then Over(c, stale) else After(c[3..], c[..3])
  }

  function Count(n: nat): Byte
    requires n <= 45
  {
    (n as Byte) + 32
  }

  function FirstOf(s: seq<Byte>): (c: seq<Byte>)
    ensures |c| <= 45 && |c| <= |s| && (s != [] ==> c != []) && c == s[..|c|]
  {
    if |s| <= 45 then s else s[..45]
  }

  /** The lines between the begin line and the end line. */
  function DataLines(s: seq<Byte>, stale: seq<Byte>): seq<Line>
    requires |stale| == 3
    decreases |s|
  {
    if s == [] then [[Count(0)]]
    else
      var c := FirstOf(s);
      [[Count(|c|)] + Groups(c, stale)] + DataLines(s[|c|..], After(c, stale))
  }

  // ----- the decoder -----

  function Dec(c: Byte): Byte {
    (c - 32) & 63
  }

  function Three(g: seq<Byte>): (t: seq<Byte>)
    requires |g| == 4
    ensures |t| == 3
  {
    [(Dec(g[0]) << 2) | (Dec(g[1]) >> 4), (Dec(g[1]) << 4) | (Dec(g[2]) >> 2), (Dec(g[2]) << 6) | Dec(g[3])]
  }

  /** n bytes out of a line, or as many as it has groups for. */
  function DecodeGroups(g: seq<Byte>, n: nat): seq<Byte>
    decreases n
  {
    if n == 0 || |g| < 4 then []
    else if n < 3 then Three(g[..4])[..n]
    else Three(g[..4]) + DecodeGroups(g[4..], n - 3)
  }

  function LineCount(c: Byte): nat {
    Dec(c) as nat
  }

  /** Up to the first line that announces no bytes. */
  function Decode(ls: seq<Line>): seq<Byte> {
    if ls == [] || ls[0] == [] || LineCount(ls[0][0]) == 0 then []
    else DecodeGroups(ls[0][1..], LineCount(ls[0][0])) + Decode(ls[1..])
  }

  // ----- every group and every count comes back -----

  lemma SixesBack(a: Byte, b: Byte, c: Byte)
    ensures Three(Sixes(a, b, c)) == [a, b, c]
  {
    FirstByte(a, b);
    SecondByte(a, b, c);
    ThirdByte(b, c);
  }

  lemma FirstByte(a: Byte, b: Byte)
    ensures (Dec((a >> 2) + 32) << 2) | (Dec((((a << 6) >> 2) | (b >> 4)) + 32) >> 4) == a
  {
  }

  lemma SecondByte(a: Byte, b: Byte, c: Byte)
    ensures (Dec((((a << 6) >> 2) | (b >> 4)) + 32) << 4) | (Dec((((b << 4) >> 2) | (c >> 6)) + 32) >> 2) == b
  {
  }

  lemma ThirdByte(b: Byte, c: Byte)
    ensures (Dec((((b << 4) >> 2) | (c >> 6)) + 32) << 6) | Dec(((c << 2) >> 2) + 32) == c
  {
  }

  lemma GroupBack(t: seq<Byte>)
    requires |t| == 3
    ensures Three(Group(t)) == t
  {
    SixesBack(t[0], t[1], t[2]);
  }

  /** A six is a printing character. */
  predicate Prints(c: Byte) {
    32 <= c < 96
  }

  lemma SixesPrint(a: Byte, b: Byte, c: Byte)
    ensures forall k :: 0 <= k < 4 ==> Prints(Sixes(a, b, c)[k])
  {
  }

  lemma Blank()
    ensures Count(0) == 32
  {
  }

  lemma CountBack(n: nat)
    requires n <= 45
    ensures LineCount(Count(n)) == n && Prints(Count(n))
  {
  }

  lemma GroupsStep(c: seq<Byte>, stale: seq<Byte>)
    requires |stale| == 3
    ensures |c| == 0 ==> Groups(c, stale) == [] && After(c, stale) == stale
    ensures 0 < |c| < 3 ==> Groups(c, stale) == Group(Over(c, stale)) && After(c, stale) == Over(c, stale)
    ensures |c| >= 3 ==> Groups(c, stale) == Group(c[..3]) + Groups(c[3..], c[..3])
                             && After(c, stale) == After(c[3..], c[..3])
  {
  }

  lemma DecodeStep(g: seq<Byte>, rest: seq<Byte>, n: nat)
    requires |g| == 4
    ensures n == 0 ==> DecodeGroups(rest, n) == []
    ensures 0 < n < 3 ==> DecodeGroups(g + rest, n) == Three(g)[..n]
    ensures n >= 3 ==> DecodeGroups(g + rest, n) == Three(g) + DecodeGroups(rest, n - 3)
  {
    assert (g + rest)[..4] == g && (g + rest)[4..] == rest;
  }

  /** The three characters of Cat are sent as #0V%T, whatever was in the input before. */
  lemma KnownLine(stale: seq<Byte>)
    requires |stale| == 3
    ensures DataLines([0x43, 0x61, 0x74], stale) == [[0x23, 0x30, 0x56, 0x25, 0x54], [0x20]]
  {
    var c: seq<Byte> := [0x43, 0x61, 0x74];
    var g: seq<Byte> := [0x30, 0x56, 0x25, 0x54];
    assert FirstOf(c) == c && c[3..] == [] && c[..3] == c && Count(3) == 0x23 && Count(0) == 0x20;
    assert Group(c) == g by {
      assert Sixes(0x43, 0x61, 0x74) == g;
    }
    hide Sixes, Count, Group, Groups, DataLines, After;
    DataLinesStep(c, stale);
    DataLinesStep([], After(c, stale));
    GroupsStep(c, stale);
    GroupsStep([], c);
    assert g + [] == g && [0x23] + g == [0x23, 0x30, 0x56, 0x25, 0x54];
  }

  /** As long as there are 45 bytes left, a line has all of them, in 60 characters behind an M. */
  lemma FullLine(s: seq<Byte>, stale: seq<Byte>)
    requires |stale| == 3 && |s| >= 45
    ensures var l := DataLines(s, stale)[0]; |l| == 61 && l[0] == 0x4d && DecodeGroups(l[1..], 45) == s[..45]
  {
    var c := s[..45];
    assert FirstOf(s) == c && Count(45) == 0x4d && |Groups(c, stale)| == 60;
    hide *;
    DataLinesStep(s, stale);
    GroupsBack(c, stale);
    assert ([0x4d] + Groups(c, stale))[1..] == Groups(c, stale);
  }

  /** The groups of a line give back its bytes, whatever was in the input before. */
  lemma {:induction false} GroupsBack(c: seq<Byte>, stale: seq<Byte>)
    requires |stale| == 3
    ensures DecodeGroups(Groups(c, stale), |c|) == c
    decreases |c|
  {
    hide *;
    GroupsStep(c, stale);
    if |c| == 0 {
      DecodeStep([0, 0, 0, 0], [], 0);
    } else if |c| < 3 {
      var t := Over(c, stale);
      GroupBack(t);
      DecodeStep(Group(t), [], |c|);
      assert Group(t) + [] == Group(t);
    } else {
      var t := c[..3];
      GroupBack(t);
      GroupsBack(c[3..], t);
      DecodeStep(Group(t), Groups(c[3..], t), |c|);
    }
  }

  lemma LineStep(l: Line, ls: seq<Line>, n: nat)
    requires l != [] && LineCount(l[0]) == n
    ensures Decode([l] + ls) == if n == 0 then [] else DecodeGroups(l[1..], n) + Decode(ls)
  {
    assert ([l] + ls)[1..] == ls;
  }

  lemma DataLinesStep(s: seq<Byte>, stale: seq<Byte>)
    requires |stale| == 3
    ensures s == [] ==> DataLines(s, stale) == [[Count(0)]]
    ensures s != [] ==> var c := FirstOf(s);
                        DataLines(s, stale)
                        == [[Count(|c|)] + Groups(c, stale)] + DataLines(s[|c|..], After(c, stale))
  {
  }

  /** The decoder recovers every byte sequence from the data lines, for every length, whatever the
      three input bytes hold at the start and whatever lines come behind. */
  lemma {:induction false} DecodeRecovers(s: seq<Byte>, stale: seq<Byte>, trailer: seq<Line>)
    requires |stale| == 3
    ensures Decode(DataLines(s, stale) + trailer) == s
    decreases |s|
  {
    hide *;
    DataLinesStep(s, stale);
    if s == [] {
      CountBack(0);
      LineStep([Count(0)], trailer, 0);
    } else {
      var c := FirstOf(s);
      var l := [Count(|c|)] + Groups(c, stale);
      var ls := DataLines(s[|c|..], After(c, stale));
      CountBack(|c|);
      GroupsBack(c, stale);
      assert l[1..] == Groups(c, stale);
      DecodeRecovers(s[|c|..], After(c, stale), trailer);
      assert [l] + ls + trailer == [l] + (ls + trailer);
      LineStep(l, ls + trailer, |c|);
    }
  }

  // ----- the lines can be sent as text -----

  predicate AllPrint(l: Line) {
    forall k :: 0 <= k < |l| ==> Prints(l[k])
  }

  lemma {:induction false} GroupsPrint(c: seq<Byte>, stale: seq<Byte>)
    requires |stale| == 3
    ensures AllPrint(Groups(c, stale))
    decreases |c|
  {
    GroupsStep(c, stale);
    hide Sixes, Groups, After, Prints;
    if |c| > 0 {
      var t := if |c| < 3 then Over(c, stale) else c[..3];
      SixesPrint(t[0], t[1], t[2]);
      if |c| >= 3 {
        GroupsPrint(c[3..], t);
      }
    }
  }

  /** No data line holds a newline, a null or a letter that is not printed, and none is longer than 61. */
  lemma {:induction false} DataLinesPrint(s: seq<Byte>, stale: seq<Byte>)
    requires |stale| == 3
    ensures forall i :: 0 <= i < |DataLines(s, stale)| ==>
              0 < |DataLines(s, stale)[i]| <= 61 && AllPrint(DataLines(s, stale)[i])
    decreases |s|
  {
    hide Groups, After, Prints, Count;
    if s == [] {
      CountBack(0);
    } else {
      var c := FirstOf(s);
      CountBack(|c|);
      GroupsPrint(c, stale);
      DataLinesPrint(s[|c|..], After(c, stale));
    }
  }
}

/** uuencode, with its input as a byte sequence and its output as lines. */
module Uuencode {
  import opened UuFormat

  /** What printf writes of a string: all before the null. */
  function Printed(l: seq<Byte>): seq<Byte> {
    if l == [] || l[0] == 0 then [] else [l[0]] + Printed(l[1..])
  }

  lemma {:induction false} PrintedIs(g: seq<Byte>, rest: seq<Byte>)
    requires AllPrint(g) && rest != [] && rest[0] == 0
    ensures Printed(g + rest) == g
    decreases |g|
  {
    if g == [] {
      assert g + rest == rest;
    } else {
      assert (g + rest)[0] == g[0] && Prints(g[0]);
      assert (g + rest)[1..] == g[1..] + rest;
      PrintedIs(g[1..], rest);
    }
  }

  predicate WholeGroups(n: nat) {
    n % 3 == 0
  }

  lemma OneGroupLess(n: nat)
    requires WholeGroups(n) && n > 0
    ensures n >= 3 && WholeGroups(n - 3)
  {
  }

  /** Whole groups, and then others behind them. */
  lemma {:induction false} GroupsAppend(c: seq<Byte>, d: seq<Byte>, stale: seq<Byte>)
    requires |stale| == 3 && WholeGroups(|c|)
    ensures Groups(c + d, stale) == Groups(c, stale) + Groups(d, After(c, stale))
    ensures After(c + d, stale) == After(d, After(c, stale))
    decreases |c|
  {
    hide *;
    GroupsStep(c, stale);
    if c == [] {
      assert c + d == d;
      assert [] + Groups(d, stale) == Groups(d, stale);
    } else {
      OneGroupLess(|c|);
      var t, r := c[..3], c[3..];
      GroupsAppend(r, d, t);
      ThreeOff(c, d);
      GroupsStep(c + d, stale);
      Associate(Group(t), Groups(r, t), Groups(d, After(r, t)));
    }
  }

  lemma ThreeOff(c: seq<Byte>, d: seq<Byte>)
    requires |c| >= 3
    ensures |c + d| >= 3 && (c + d)[..3] == c[..3] && (c + d)[3..] == c[3..] + d
  {
  }

  lemma Associate(x: seq<Byte>, y: seq<Byte>, z: seq<Byte>)
    ensures x + (y + z) == x + y + z
  {
  }

  /** out holds the lines before the current one, which is to hold c; stale was in the input bytes when it began. */
  ghost predicate Encoding(s: seq<Byte>, stale0: seq<Byte>, out: seq<Line>, c: seq<Byte>, stale: seq<Byte>,
                           pos: nat, cnt: nat) {
    && |stale0| == |stale| == 3 && pos <= |s| && cnt + |c| == pos && s[cnt..pos] == c
    && DataLines(s, stale0) == out + DataLines(s[cnt..], stale)
  }

  /** The current line so far: in the array, and what the input bytes hold. */
  ghost predicate Open(c: seq<Byte>, stale: seq<Byte>, written: seq<Byte>, input: seq<Byte>) {
    && |stale| == |input| == 3 && WholeGroups(|c|) && |c| < 45
    && written == Groups(c, stale) && input == After(c, stale)
  }

  lemma StartOfRun(s: seq<Byte>, stale: seq<Byte>)
    requires |stale| == 3
    ensures Encoding(s, stale, [], [], stale, 0, 0) && Open([], stale, [], stale)
  {
    assert s[0..] == s && s[0..0] == [];
  }

  lemma OpenMeans(c: seq<Byte>, stale: seq<Byte>, written: seq<Byte>, input: seq<Byte>)
    requires Open(c, stale, written, input)
    ensures |c| % 3 == 0 && WholeGroups(|c|) && |c| <= 42 && |written| == |c| / 3 * 4 <= 56
    ensures |input| == 3 && |stale| == 3
    ensures written == Groups(c, stale) && input == After(c, stale)
  {
    hide Groups, After;
    Thirds(|c|);
  }

  lemma Thirds(n: nat)
    requires n % 3 == 0 && n < 45
    ensures (n + 2) / 3 * 4 == n / 3 * 4 <= 56 && n <= 42
  {
  }

  lemma EncodingMeans(s: seq<Byte>, stale0: seq<Byte>, out: seq<Line>, c: seq<Byte>, stale: seq<Byte>,
                      pos: nat, cnt: nat)
    requires Encoding(s, stale0, out, c, stale, pos, cnt)
    ensures pos <= |s| && cnt + |c| == pos && |stale0| == |stale| == 3 && s[cnt..pos] == c
    ensures DataLines(s, stale0) == out + DataLines(s[cnt..], stale)
  {
  }

  /** Bytes d have been read at pos, behind c, which starts at cnt. */
  lemma MoreRead(s: seq<Byte>, c: seq<Byte>, cnt: nat, pos: nat, d: seq<Byte>)
    requires cnt + |c| == pos <= pos + |d| <= |s| && s[cnt..pos] == c && s[pos..pos + |d|] == d
    ensures s[cnt..pos + |d|] == c + d && (c + d != [] ==> cnt < |s|)
    ensures |c| + |d| <= 45 && (pos + |d| == |s| || |c| + |d| == 45) ==> c + d == FirstOf(s[cnt..])
  {
    assert s[cnt..pos + |d|] == s[cnt..][..|c| + |d|];
  }

  /** Another group has been read and encoded: d, of which fewer than three are the last. */
  lemma NextGroup(s: seq<Byte>, stale0: seq<Byte>, out: seq<Line>, c: seq<Byte>, stale: seq<Byte>, pos: nat,
                  cnt: nat, written: seq<Byte>, input: seq<Byte>, d: seq<Byte>)
    requires Encoding(s, stale0, out, c, stale, pos, cnt) && Open(c, stale, written, input)
    requires pos + |d| <= |s| && d == s[pos..pos + |d|] && |d| == (if |s| - pos < 3 then |s| - pos else 3)
    ensures |c + d| <= 45 && |stale| == 3 && |d| <= 3 == |input|
    ensures Encoding(s, stale0, out, c + d, stale, pos + |d|, cnt)
    ensures Groups(c + d, stale) == if |d| == 0 then written else written + Group(Over(d, input))
    ensures Over(d, input) == After(c + d, stale)
    ensures |d| < 3 || |c + d| == 45 ==> c + d == FirstOf(s[cnt..])
    ensures |d| == 3 && |c + d| < 45 ==> Open(c + d, stale, written + Group(Over(d, input)), Over(d, input))
  {
    hide *;
    OpenMeans(c, stale, written, input);
    EncodingMeans(s, stale0, out, c, stale, pos, cnt);
    GroupsAppend(c, d, stale);
    OneGroup(d, input);
    MoreRead(s, c, cnt, pos, d);
    assert written + [] == written && |c + d| == |c| + |d|;
    EncodingIs(s, stale0, out, c + d, stale, pos + |d|, cnt);
    OpenIs(c + d, stale, Groups(c + d, stale), After(c + d, stale));
  }

  lemma EncodingIs(s: seq<Byte>, stale0: seq<Byte>, out: seq<Line>, c: seq<Byte>, stale: seq<Byte>,
                   pos: nat, cnt: nat)
    requires |stale0| == |stale| == 3 && pos <= |s| && cnt + |c| == pos && s[cnt..pos] == c
    requires DataLines(s, stale0) == out + DataLines(s[cnt..], stale)
    ensures Encoding(s, stale0, out, c, stale, pos, cnt)
  {
  }

  lemma OpenIs(c: seq<Byte>, stale: seq<Byte>, written: seq<Byte>, input: seq<Byte>)
    requires |stale| == 3 && written == Groups(c, stale) && input == After(c, stale)
    ensures |c| % 3 == 0 && |c| < 45 ==> Open(c, stale, written, input)
  {
  }

  lemma OneGroup(d: seq<Byte>, stale: seq<Byte>)
    requires |d| <= 3 == |stale|
    ensures After(d, stale) == Over(d, stale)
    ensures Groups(d, stale) == if |d| == 0 then [] else Group(Over(d, stale))
  {
    hide *;
    OverIs(d, stale);
    GroupsStep(d, stale);
    if |d| == 3 {
      assert d[..3] == d && d[3..] == [];
      GroupsStep([], d);
    }
  }

  lemma OverIs(d: seq<Byte>, stale: seq<Byte>)
    requires |d| <= 3 == |stale|
    ensures Over(d, stale) == d + stale[|d|..] && |Over(d, stale)| == 3
    ensures |d| == 0 ==> Over(d, stale) == stale
    ensures |d| == 3 ==> Over(d, stale) == d
  {
  }

  /** A line goes out. */
  lemma LineDone(s: seq<Byte>, stale0: seq<Byte>, out: seq<Line>, c: seq<Byte>, stale: seq<Byte>, pos: nat, cnt: nat)
    requires Encoding(s, stale0, out, c, stale, pos, cnt) && c != [] && c == FirstOf(s[cnt..])
    ensures Encoding(s, stale0, out + [[Count(|c|)] + Groups(c, stale)], [], After(c, stale), pos, pos)
    ensures Open([], After(c, stale), [], After(c, stale))
  {
    hide Groups, Count, FirstOf;
    DataLinesStep(s[cnt..], stale);
    assert s[cnt..][|c|..] == s[pos..];
    hide DataLines;
    GroupsStep([], After(c, stale));
    assert s[pos..pos] == [];
  }

  lemma EndOfRun(s: seq<Byte>, stale0: seq<Byte>, out: seq<Line>, stale: seq<Byte>, pos: nat, cnt: nat)
    requires Encoding(s, stale0, out, [], stale, pos, cnt) && pos == |s|
    ensures cnt == |s| && DataLines(s, stale0) == out + [[Count(0)]]
  {
    hide Groups, Count, After;
    DataLinesStep(s[cnt..], stale);
    hide DataLines;
  }

  /** kfread(in, 1, 3, infile), with the input at pos. */
  method ReadGroup(s: seq<Byte>, pos: nat, input: array<Byte>) returns (inChars: nat)
    requires pos <= |s| && input.Length == 3
    modifies input
    ensures inChars == (if |s| - pos < 3 then |s| - pos else 3)
    ensures input[..] == Over(s[pos..pos + inChars], old(input[..]))
  {
    ghost var stale := input[..];
    inChars := 0;
    hide *;
    while inChars < 3 && pos + inChars < |s|
      invariant inChars <= 3 && pos + inChars <= |s|
      invariant input[..] == s[pos..pos + inChars] + stale[inChars..]
    {
      Store(input, inChars, s[pos + inChars]);
      OneMoreByte(s, pos, inChars, stale);
      inChars := inChars + 1;
    }
    OverIs(s[pos..pos + inChars], stale);
  }

  lemma OneMoreByte(s: seq<Byte>, pos: nat, k: nat, stale: seq<Byte>)
    requires pos + k < |s| && k < 3 == |stale|
    ensures (s[pos..pos + k] + stale[k..])[k := s[pos + k]] == s[pos..pos + k + 1] + stale[k + 1..]
  {
  }

  /** One byte of a buffer. */
  method Store(a: array<Byte>, i: nat, x: Byte)
    requires i < a.Length
    modifies a
    ensures a[..] == old(a[..])[i := x]
    ensures a[..i + 1] == old(a[..i]) + [x] && a[i + 1..] == old(a[i + 1..])
  {
    a[i] := x;
  }

  /** out[] computed from three bytes of in[]. */
  method EncodeBytes(a: Byte, b: Byte, c: Byte) returns (out0: Byte, out1: Byte, out2: Byte, out3: Byte)
    ensures [out0, out1, out2, out3] == Sixes(a, b, c)
  {
    out0 := a >> 2;
    out1 := a << 6;
    out1 := out1 >> 2;
    out1 := out1 | (b >> 4);
    out2 := b << 4;
    out2 := out2 >> 2;
    out2 := out2 | (c >> 6);
    out3 := c << 2;
    out3 := out3 >> 2;
    out0, out1, out2, out3 := out0 + 32, out1 + 32, out2 + 32, out3 + 32;
  }

  /** in[] encoded into line[] from at on. */
  method PutGroup(input: array<Byte>, line: array<Byte>, at: nat)
    requires input.Length == 3 && at + 4 <= line.Length && input != line
    modifies line
    ensures line[..at + 4] == old(line[..at]) + Group(input[..])
  {
    ghost var before := line[..at];
    ghost var t := input[..];
    GroupIs(t);
    hide *;
    var g0, g1, g2, g3 := EncodeBytes(input[0], input[1], input[2]);
    var group := [g0, g1, g2, g3];
    var n: nat := 0;
    assert before == before + group[..0];
    while n < 4
      invariant n <= 4 && line[..at + n] == before + group[..n]
    {
      Store(line, at + n, group[n]);
      assert group[..n + 1] == group[..n] + [group[n]];
      n := n + 1;
    }
    assert group[..4] == group;
  }

  lemma GroupIs(t: seq<Byte>)
    requires |t| == 3
    ensures Group(t) == Sixes(t[0], t[1], t[2])
  {
  }

  /** The line is ended behind its last group and written. */
  method Flush(line: array<Byte>, nRead: nat, ghost c: seq<Byte>, ghost stale: seq<Byte>) returns (text: Line)
    requires |stale| == 3 && |c| == nRead <= 45 && line.Length == 100
    requires |Groups(c, stale)| <= 100 && line[..|Groups(c, stale)|] == Groups(c, stale)
    modifies line
    ensures text == [Count(nRead)] + Groups(c, stale)
  {
    hide *;
    ghost var g := Groups(c, stale);
    GroupsPrint(c, stale);
    var end: nat := (nRead + 2) / 3 * 4;
    line[end] := 0;
    PrintedIs(g, line[end..]);
    assert line[..] == g + line[end..];
    text := [Count(nRead)] + Printed(line[..]);
  }

  /** The encoding loop: input and line are in[] and line[], with whatever the stack held in them; the
      begin line before and the lines behind the last, blank one are left to the caller. */
  method Encode(s: seq<Byte>, input: array<Byte>, line: array<Byte>) returns (out: seq<Line>, cnt: nat)
    requires input.Length == 3 && line.Length == 100 && input != line
    modifies input, line
    ensures out == DataLines(s, old(input[..])) && cnt == |s|
  {
    hide *;
    ghost var stale0 := input[..];
    ghost var c: seq<Byte>, stale := [], stale0;
    StartOfRun(s, stale0);
    out, cnt := [], 0;
    var pos: nat, nRead: nat, nWritten: nat := 0, 0, 0;
    assert line[..0] == [];
    while true
      invariant nWritten <= 100 == line.Length && input.Length == 3 && |c| == nRead && pos <= |s|
      invariant Encoding(s, stale0, out, c, stale, pos, cnt)
      invariant Open(c, stale, line[..nWritten], input[..])
      decreases |s| - pos
    {
      ghost var written, before := line[..nWritten], input[..];
      OpenMeans(c, stale, written, before);
      var inChars := ReadGroup(s, pos, input);
      ghost var d := s[pos..pos + inChars];
      NextGroup(s, stale0, out, c, stale, pos, cnt, written, before, d);
      c := c + d;
      PutGroup(input, line, nWritten);
      assert line[..nWritten] == line[..nWritten + 4][..nWritten];
      nRead := nRead + inChars;
      nWritten := nWritten + 4;
      pos := pos + inChars;
      EncodingMeans(s, stale0, out, c, stale, pos, cnt);
      if (inChars != 3 || nWritten == 60) && nRead > 0 {
        var text := Flush(line, nRead, c, stale);
        LineDone(s, stale0, out, c, stale, pos, cnt);
        out := out + [text];
        cnt := cnt + nRead;
        nRead, nWritten, c, stale := 0, 0, [], input[..];
        assert line[..0] == [];
      }
      if inChars == 0 {
        assert c == [];
        break;
      }
    }
    EndOfRun(s, stale0, out, stale, pos, cnt);
    Blank();
    out := out + [[32]];
  }
}
