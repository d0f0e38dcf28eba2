/** Mailbox files as lines: what bmutil.c reads from one and writes back. A line is held without its
    newline, so the source's strlen of it is one more. */
module MailText {
  type Line = string

  /** A message: its header, from the From line on, without Status lines; whether the empty line
      that ends the header was there; its body; and whether it is marked as read. */
  datatype Msg = Msg(header: seq<Line>, ended: bool, body: seq<Line>, read: bool)

  function Lower(c: char): char {
    if 'A' <= c <= 'Z' then c - 'A' + 'a' else c
  }

  /** STRNICMP(p, s, strlen(p)) == 0. */
  predicate HasPrefix(s: Line, p: string) {
    |p| <= |s| && forall i :: 0 <= i < |p| ==> Lower(s[i]) == Lower(p[i])
  }

  const STATUS := "Status: "
  const XFORWARD := "X-Forwarded-To: "

  /** htype(s) == STATUS: no other entry of Hdrs begins like this one. */
  predicate IsStatus(s: Line) {
    HasPrefix(s, STATUS)
  }

  predicate IsFrom(s: Line) {
    "From " <= s
  }

  /** A Status line that says R. */
  predicate SaysRead(s: Line) {
    IsStatus(s) && |s| > 8 && s[8] == 'R'
  }

  /** The header lines that readnotes copies. */
  function Copied(h: seq<Line>): seq<Line> {
    if h == [] then []
    else if IsStatus(h[0]) then Copied(h[1..])
    else [h[0]] + Copied(h[1..])
  }

  predicate Read(h: seq<Line>) {
    exists i :: 0 <= i < |h| && SaysRead(h[i])
  }

  /** How many lines come before the empty one. */
  function HeaderEnd(ls: seq<Line>): (n: nat)
    ensures n <= |ls|
    ensures n < |ls| ==> ls[n] == ""
    ensures forall i :: 0 <= i < n ==> ls[i] != ""
  {
    if ls == [] || ls[0] == "" then 0
    else
      var n := HeaderEnd(ls[1..]);
      assert forall i :: 0 < i <= n ==> ls[i] == ls[1..][i - 1];
      n + 1
  }

  /** How many lines come before the next message. */
  function BodyEnd(ls: seq<Line>): (n: nat)
    ensures n <= |ls|
    ensures n < |ls| ==> IsFrom(ls[n])
    ensures forall i :: 0 <= i < n ==> !IsFrom(ls[i])
  {
    if ls == [] || IsFrom(ls[0]) then 0
    else
      var n := BodyEnd(ls[1..]);
      assert forall i :: 0 < i <= n ==> ls[i] == ls[1..][i - 1];
      n + 1
  }

  /** The messages of a mailbox file; lines before the first From line belong to none. */
  function Parse(ls: seq<Line>): seq<Msg>
    decreases |ls|, 0
  {
    if ls == [] then []
    else if !IsFrom(ls[0]) then Parse(ls[1..])
    else InBody(Begun(ls), AfterHeader(ls))
  }

  /** The messages from here on, in the body of m. */
  function InBody(m: Msg, ls: seq<Line>): seq<Msg>
    decreases |ls|, 1
  {
    var b := BodyEnd(ls);
    [m.(body := m.body + ls[..b])] + Parse(ls[b..])
  }

  /** The message that starts with the first line, as far as its header goes. */
  function Begun(ls: seq<Line>): Msg
    requires ls != []
  {
    var t := ls[1..];
    var h := HeaderEnd(t);
    Msg([ls[0]] + Copied(t[..h]), h < |t|, [], Read(t[..h]))
  }

  function AfterHeader(ls: seq<Line>): (r: seq<Line>)
    requires ls != []
    ensures |r| < |ls|
  {
    var t := ls[1..];
    var h := HeaderEnd(t);
    if h < |t| then t[h + 1..] else []
  }

  lemma NextBodyLine(m: Msg, ls: seq<Line>)
    requires ls != []
    ensures InBody(m, ls) == if IsFrom(ls[0]) then [m] + Parse(ls)
                             else InBody(m.(body := m.body + [ls[0]]), ls[1..])
  {
    hide *;
    var t := ls[1..];
    InBodyIs(m, ls);
    BodyEndIsNext(ls);
    if IsFrom(ls[0]) {
      assert ls[..0] == [] && ls[0..] == ls && m.body + [] == m.body;
    } else {
      InBodyIs(m.(body := m.body + [ls[0]]), t);
      LineFirst(m.body, ls, BodyEnd(t));
    }
  }

  lemma LineFirst(body: seq<Line>, ls: seq<Line>, b: nat)
    requires ls != [] && b < |ls|
    ensures body + ls[..b + 1] == body + [ls[0]] + ls[1..][..b] && ls[b + 1..] == ls[1..][b..]
  {
    assert ls[..b + 1] == [ls[0]] + ls[1..][..b];
  }

  lemma InBodyIs(m: Msg, ls: seq<Line>)
    ensures var b := BodyEnd(ls);
            b <= |ls| && InBody(m, ls) == [m.(body := m.body + ls[..b])] + Parse(ls[b..])
  {
  }

  lemma BodyEndIsNext(ls: seq<Line>)
    requires ls != []
    ensures BodyEnd(ls) == if IsFrom(ls[0]) then 0 else BodyEnd(ls[1..]) + 1
    ensures BodyEnd(ls[1..]) <= |ls[1..]|
  {
  }

  lemma EndOfBody(m: Msg)
    ensures InBody(m, []) == [m]
  {
    assert m.body + [] == m.body;
  }

  lemma HeaderEndIs(t: seq<Line>, i: nat)
    requires i <= |t| && (forall k :: 0 <= k < i ==> t[k] != "") && (i < |t| ==> t[i] == "")
    ensures HeaderEnd(t) == i
  {
  }

  lemma {:induction false} CopiedAppend(a: seq<Line>, b: seq<Line>)
    ensures Copied(a + b) == Copied(a) + Copied(b)
    decreases |a|
  {
    if a == [] {
      assert a + b == b;
    } else {
      assert (a + b)[1..] == a[1..] + b;
      CopiedAppend(a[1..], b);
    }
  }

  lemma OneMoreHeaderLine(h: seq<Line>, l: Line)
    ensures Copied(h + [l]) == if IsStatus(l) then Copied(h) else Copied(h) + [l]
    ensures Read(h + [l]) <==> Read(h) || SaysRead(l)
  {
    CopiedAppend(h, [l]);
    assert [l][1..] == [];
    assert forall i :: 0 <= i < |h| ==> (h + [l])[i] == h[i];
    assert (h + [l])[|h|] == l;
  }

  // ----- the temporary file and the table of messages -----

  function Text(m: Msg): seq<Line> {
    m.header + (if m.ended then [""] else []) + m.body
  }

  function Flatten(ms: seq<Msg>): seq<Line> {
    if ms == [] then [] else Text(ms[0]) + Flatten(ms[1..])
  }

  /** Bytes of a text, newlines included. */
  function Chars(ls: seq<Line>): nat {
    if ls == [] then 0 else |ls[0]| + 1 + Chars(ls[1..])
  }

  /** struct let, with the status bits apart. */
  datatype Let = Let(start: nat, size: nat, read: bool, deleted: bool, forwarded: bool)

  /** The entries for messages that follow one another in a file from offset start on. */
  function Table(ms: seq<Msg>, start: nat): seq<Let> {
    if ms == [] then []
    else
      var n := Chars(Text(ms[0]));
      [Let(start, n, ms[0].read, false, false)] + Table(ms[1..], start + n)
  }

  lemma {:induction false} CharsAppend(a: seq<Line>, b: seq<Line>)
    ensures Chars(a + b) == Chars(a) + Chars(b)
    decreases |a|
  {
    if a == [] {
      assert a + b == b;
    } else {
      assert (a + b)[1..] == a[1..] + b;
      CharsAppend(a[1..], b);
    }
  }

  lemma OneLine(l: Line)
    ensures Chars([l]) == |l| + 1
  {
    assert [l][1..] == [];
  }

  lemma {:induction false} FlattenAppend(a: seq<Msg>, b: seq<Msg>)
    ensures Flatten(a + b) == Flatten(a) + Flatten(b)
    decreases |a|
  {
    if a == [] {
      assert a + b == b;
    } else {
      assert (a + b)[1..] == a[1..] + b;
      FlattenAppend(a[1..], b);
    }
  }

  lemma OneMsg(m: Msg)
    ensures Flatten([m]) == Text(m)
  {
    assert [m][1..] == [];
    assert Text(m) + [] == Text(m);
  }

  lemma TableStep(ms: seq<Msg>, start: nat)
    requires ms != []
    ensures Table(ms, start) == [Let(start, Chars(Text(ms[0])), ms[0].read, false, false)]
                                + Table(ms[1..], start + Chars(Text(ms[0])))
    ensures Chars(Flatten(ms)) == Chars(Text(ms[0])) + Chars(Flatten(ms[1..]))
  {
    CharsAppend(Text(ms[0]), Flatten(ms[1..]));
  }

  lemma TableOfNone(start: nat)
    ensures Table([], start) == [] && Chars(Flatten([])) == 0
  {
  }

  lemma {:induction false} TableAppend(a: seq<Msg>, m: Msg, start: nat)
    ensures Table(a + [m], start)
         == Table(a, start) + [Let(start + Chars(Flatten(a)), Chars(Text(m)), m.read, false, false)]
    decreases |a|
  {
    hide *;
    TableOfNone(start);
    TableOfNone(start + Chars(Text(m)));
    if a == [] {
      assert a + [m] == [m] && [m][1..] == [];
      TableStep([m], start);
    } else {
      assert (a + [m])[1..] == a[1..] + [m];
      TableStep(a + [m], start);
      TableStep(a, start);
      TableAppend(a[1..], m, start + Chars(Text(a[0])));
    }
  }

  /** Each entry starts where the one before it ends, the first at from, and the last ends at to. */
  predicate Tiles(t: seq<Let>, from: nat, to: nat)
    decreases |t|
  {
    if t == [] then from == to else t[0].start == from && Tiles(t[1..], from + t[0].size, to)
  }

  /** The entries tile the temporary file. */
  lemma {:induction false} TableTiles(ms: seq<Msg>, start: nat)
    ensures Tiles(Table(ms, start), start, start + Chars(Flatten(ms)))
    ensures |Table(ms, start)| == |ms|
    decreases |ms|
  {
    TableOfNone(start);
    if ms != [] {
      hide Table, Flatten, Chars, Text;
      TableStep(ms, start);
      TableTiles(ms[1..], start + Chars(Text(ms[0])));
      assert Table(ms, start)[1..] == Table(ms[1..], start + Chars(Text(ms[0])));
    }
  }

  /** The line at which a seek to offset off arrives. */
  function IndexOf(ls: seq<Line>, off: nat): (k: nat)
    ensures k <= |ls|
  {
    if ls == [] || off < |ls[0]| + 1 then 0 else 1 + IndexOf(ls[1..], off - (|ls[0]| + 1))
  }

  lemma {:induction false} SeekArrives(a: seq<Line>, b: seq<Line>)
    ensures IndexOf(a + b, Chars(a)) == |a|
    decreases |a|
  {
    if a == [] {
      assert a + b == b;
    } else {
      assert (a + b)[1..] == a[1..] + b;
      SeekArrives(a[1..], b);
    }
  }

  /** The offsets and sizes of the entries are those of the messages, whatever their marks now are. */
  ghost predicate Describes(ls: seq<Let>, ms: seq<Msg>, start: nat)
    decreases |ms|
  {
    && |ls| == |ms|
    && (ms != [] ==> ls[0].start == start && ls[0].size == Chars(Text(ms[0]))
                     && Describes(ls[1..], ms[1..], start + Chars(Text(ms[0]))))
  }

  lemma {:induction false} TableDescribes(ms: seq<Msg>, start: nat)
    ensures Describes(Table(ms, start), ms, start)
    decreases |ms|
  {
    if ms != [] {
      hide Chars, Text;
      var n := Chars(Text(ms[0]));
      TableDescribes(ms[1..], start + n);
      assert Table(ms, start)[1..] == Table(ms[1..], start + n);
    }
  }

  lemma {:induction false} DescribesMarked(ls: seq<Let>, ms: seq<Msg>, start: nat, i: nat, read: bool,
                                           deleted: bool, forwarded: bool)
    requires Describes(ls, ms, start) && i < |ls|
    ensures Describes(ls[i := ls[i].(read := read, deleted := deleted, forwarded := forwarded)], ms, start)
    decreases i
  {
    hide Chars, Text;
    var l := ls[i].(read := read, deleted := deleted, forwarded := forwarded);
    if i == 0 {
      assert ls[0 := l][1..] == ls[1..];
    } else {
      DescribesMarked(ls[1..], ms[1..], start + Chars(Text(ms[0])), i - 1, read, deleted, forwarded);
      assert ls[i := l][1..] == ls[1..][i - 1 := l];
    }
  }

  // ----- reading again -----

  /** An entry of a table whose slots were in use before: its status bits are not cleared. */
  function Kept1(l: Let, was: seq<Let>, i: nat): Let {
    if i < |was| then l.(read := l.read || was[i].read, deleted := was[i].deleted, forwarded := was[i].forwarded)
    else l
  }

  function Kept(t: seq<Let>, was: seq<Let>): (k: seq<Let>)
    ensures |k| == |t|
  {
    seq(|t|, i requires 0 <= i < |t| => Kept1(t[i], was, i))
  }

  lemma KeptAppend(t: seq<Let>, l: Let, was: seq<Let>)
    ensures Kept(t + [l], was) == Kept(t, was) + [Kept1(l, was, |t|)]
  {
    hide Kept1;
  }

  function Behind(was: seq<Let>, n: nat): seq<Let> {
    if n <= |was| then was[n..] else []
  }

  lemma {:induction false} KeptDescribes(t: seq<Let>, was: seq<Let>, ms: seq<Msg>, start: nat)
    requires Describes(t, ms, start)
    ensures Describes(Kept(t, was), ms, start)
    decreases |ms|
  {
    if ms != [] {
      hide Chars, Text;
      assert Kept(t, was)[1..] == Kept(t[1..], Behind(was, 1));
      KeptDescribes(t[1..], Behind(was, 1), ms[1..], start + Chars(Text(ms[0])));
    }
  }

  /** An entry that describes a message, whatever its marks, and the one for the same message read again. */
  lemma {:induction false} SameEntry(ls: seq<Let>, ms: seq<Msg>, more: seq<Msg>, start: nat, i: nat)
    requires Describes(ls, ms, start) && i < |ms|
    ensures i < |ls| && i < |Table(ms + more, start)|
    ensures Table(ms + more, start)[i] == Let(ls[i].start, ls[i].size, ms[i].read, false, false)
    decreases i
  {
    hide Chars, Text;
    assert (ms + more)[1..] == ms[1..] + more;
    if i > 0 {
      SameEntry(ls[1..], ms[1..], more, start + Chars(Text(ms[0])), i - 1);
    }
  }

  /** What is left of a file behind its first n bytes. */
  function Drop(ls: seq<Line>, n: nat): seq<Line> {
    if ls == [] || n == 0 then ls
    else if n <= |ls[0]| then [ls[0][n..]] + ls[1..]
    else Drop(ls[1..], n - (|ls[0]| + 1))
  }

  // ----- what is written back -----

  /** The lines that the rewriting loop puts before the empty line of a header. */
  function Extra(l: Let, name: string): seq<Line> {
    (if l.forwarded then [XFORWARD + name] else []) + (if l.read then [STATUS + "R"] else [])
  }

  function Print1(m: Msg, l: Let, name: string): seq<Line> {
    m.header + (if m.ended then Extra(l, name) + [""] else []) + m.body
  }

  /** A private mailbox written back: the messages not deleted, in order. */
  function Printed(ms: seq<Msg>, ls: seq<Let>, name: string): seq<Line>
    requires |ms| == |ls|
  {
    if ms == [] then []
    else (if ls[0].deleted then [] else Print1(ms[0], ls[0], name)) + Printed(ms[1..], ls[1..], name)
  }

  /** A message as it should come back. */
  function Marked(m: Msg, l: Let, name: string): Msg {
    m.(header := m.header + (if l.forwarded then [XFORWARD + name] else []), read := l.read)
  }

  /** The messages that should come back. */
  function Expected(ms: seq<Msg>, ls: seq<Let>, name: string): seq<Msg>
    requires |ms| == |ls|
  {
    if ms == [] then []
    else
      var rest := Expected(ms[1..], ls[1..], name);
      if ls[0].deleted then rest
      else [Marked(ms[0], ls[0], name)] + rest
  }

  // ----- what Parse gives -----

  ghost predicate GoodMsg(m: Msg) {
    && m.header != [] && IsFrom(m.header[0])
    && (forall i :: 0 <= i < |m.header| ==> m.header[i] != "")
    && (forall i :: 0 < i < |m.header| ==> !IsStatus(m.header[i]))
    && (forall i :: 0 <= i < |m.body| ==> !IsFrom(m.body[i]))
    && (!m.ended ==> m.body == [])
  }

  /** Messages as a mailbox holds them: only the last can lack the end of its header. */
  ghost predicate GoodMsgs(ms: seq<Msg>) {
    && (forall i :: 0 <= i < |ms| ==> GoodMsg(ms[i]))
    && forall i :: 0 <= i < |ms| - 1 ==> ms[i].ended
  }

  lemma {:induction false} CopiedLines(h: seq<Line>)
    ensures forall i :: 0 <= i < |Copied(h)| ==> Copied(h)[i] in h && !IsStatus(Copied(h)[i])
    decreases |h|
  {
    if h != [] {
      CopiedLines(h[1..]);
    }
  }

  lemma BegunIsGood(ls: seq<Line>)
    requires ls != [] && IsFrom(ls[0])
    ensures GoodMsg(Begun(ls)) && (!Begun(ls).ended ==> AfterHeader(ls) == [])
  {
    var t := ls[1..];
    var h := HeaderEnd(t);
    CopiedLines(t[..h]);
    var c := Copied(t[..h]);
    forall i | 0 <= i < |c|
      ensures c[i] != ""
    {
      assert c[i] in t[..h];
    }
  }

  lemma GoodCons(m: Msg, ms: seq<Msg>)
    requires GoodMsg(m) && GoodMsgs(ms) && (ms != [] ==> m.ended)
    ensures GoodMsgs([m] + ms)
  {
    var s := [m] + ms;
    forall i | 0 <= i < |s|
      ensures GoodMsg(s[i]) && (i < |s| - 1 ==> s[i].ended)
    {
      assert i > 0 ==> s[i] == ms[i - 1];
    }
  }

  lemma BodyIsGood(m: Msg, rest: seq<Line>)
    requires GoodMsg(m) && m.body == [] && (!m.ended ==> rest == [])
    ensures var b := BodyEnd(rest);
            && GoodMsg(m.(body := m.body + rest[..b])) && (!m.ended ==> rest[b..] == [])
            && InBody(m, rest) == [m.(body := m.body + rest[..b])] + Parse(rest[b..])
  {
    var b := BodyEnd(rest);
    assert m.body + rest[..b] == rest[..b];
  }

  lemma ParseIs(ls: seq<Line>)
    requires ls != []
    ensures Parse(ls) == if !IsFrom(ls[0]) then Parse(ls[1..]) else InBody(Begun(ls), AfterHeader(ls))
    ensures Begun(ls).body == []
  {
  }

  lemma {:induction false} ParseIsGood(ls: seq<Line>)
    ensures GoodMsgs(Parse(ls))
    decreases |ls|
  {
    if ls == [] {
    } else {
      hide *;
      ParseIs(ls);
      if !IsFrom(ls[0]) {
        ParseIsGood(ls[1..]);
      } else {
        BegunIsGood(ls);
        var m, rest := Begun(ls), AfterHeader(ls);
        BodyIsGood(m, rest);
        var b := BodyEnd(rest);
        ParseIsGood(rest[b..]);
        ParseNothing();
        GoodCons(m.(body := m.body + rest[..b]), Parse(rest[b..]));
      }
    }
  }

  lemma ParseNothing()
    ensures Parse([]) == []
  {
  }

  // ----- the round trip -----

  lemma {:induction false} NoStatusCopied(h: seq<Line>)
    requires forall i :: 0 <= i < |h| ==> !IsStatus(h[i])
    ensures Copied(h) == h && !Read(h)
    decreases |h|
  {
    if h != [] {
      NoStatusCopied(h[1..]);
    }
  }

  lemma ForwardLine(name: string)
    ensures !IsStatus(XFORWARD + name) && XFORWARD + name != ""
  {
    assert (XFORWARD + name)[0] == 'X';
  }

  lemma StatusLine()
    ensures IsStatus(STATUS + "R") && SaysRead(STATUS + "R") && STATUS + "R" != ""
  {
  }

  /** The header of a message as it is parsed when written back. */
  lemma HeaderBack(h: seq<Line>, l: Let, name: string)
    requires forall i :: 0 <= i < |h| ==> h[i] != "" && !IsStatus(h[i])
    ensures Copied(h + Extra(l, name)) == h + (if l.forwarded then [XFORWARD + name] else [])
    ensures Read(h + Extra(l, name)) <==> l.read
    ensures forall i :: 0 <= i < |h + Extra(l, name)| ==> (h + Extra(l, name))[i] != ""
  {
    ForwardLine(name);
    StatusLine();
    var h1 := if l.forwarded then h + [XFORWARD + name] else h;
    NoStatusCopied(h1);
    if l.read {
      OneMoreHeaderLine(h1, STATUS + "R");
      assert h + Extra(l, name) == h1 + [STATUS + "R"];
    } else {
      assert h + Extra(l, name) == h1;
    }
  }

  lemma BodyEndIs(body: seq<Line>, rest: seq<Line>)
    requires (forall i :: 0 <= i < |body| ==> !IsFrom(body[i])) && (rest == [] || IsFrom(rest[0]))
    ensures BodyEnd(body + rest) == |body|
  {
    var ls := body + rest;
    var b := BodyEnd(ls);
    assert forall i :: 0 <= i < |body| ==> ls[i] == body[i];
    if rest != [] {
      assert ls[|body|] == rest[0];
    }
  }

  /** A header that ends is not changed by what comes behind the file. */
  lemma BegunLonger(a: seq<Line>, b: seq<Line>)
    requires a != [] && Begun(a).ended
    ensures a + b != [] && Begun(a + b) == Begun(a) && AfterHeader(a + b) == AfterHeader(a) + b
  {
    var t := a[1..];
    var h := HeaderEnd(t);
    assert (a + b)[1..] == t + b && (t + b)[..h] == t[..h] && (t + b)[h + 1..] == t[h + 1..] + b;
    HeaderEndIs(t + b, h);
    hide HeaderEnd, Copied, Read;
  }

  /** A header that does not takes the next From line in. */
  lemma BegunOpen(a: seq<Line>, b: seq<Line>)
    requires a != [] && !Begun(a).ended && b != [] && IsFrom(b[0])
    ensures a + b != [] && AfterHeader(a) == [] && |Begun(a + b).header| > |Begun(a).header|
  {
    var t := a[1..];
    assert (a + b)[1..] == t + b;
    var h := HeaderEnd(t + b);
    assert (t + b)[|t|] == b[0] != "";
    assert h > |t|;
    assert (t + b)[..h] == t + [b[0]] + (t + b)[|t| + 1..h] && t[..|t|] == t;
    CopiedAppend(t + [b[0]], (t + b)[|t| + 1..h]);
    CopiedAppend(t, [b[0]]);
    FromStays(b[0]);
    hide HeaderEnd, Copied, Read;
  }

  lemma FromStays(l: Line)
    requires IsFrom(l)
    ensures Copied([l]) == [l]
  {
    assert l[0] == 'F';
  }

  lemma {:induction false} BodyEndLonger(r: seq<Line>, b: seq<Line>)
    requires b != [] && IsFrom(b[0])
    ensures var k := BodyEnd(r);
            BodyEnd(r + b) == k <= |r| && (r + b)[..k] == r[..k] && (r + b)[k..] == r[k..] + b
    decreases |r|
  {
    hide *;
    BodyEndIsNext(r + b);
    if r == [] {
      assert r + b == b;
      NoBody(r);
    } else {
      assert (r + b)[0] == r[0] && (r + b)[1..] == r[1..] + b;
      BodyEndIsNext(r);
      if !IsFrom(r[0]) {
        BodyEndLonger(r[1..], b);
      }
    }
  }

  lemma NoBody(r: seq<Line>)
    requires r == []
    ensures BodyEnd(r) == 0
  {
  }

  lemma BodyLonger(m: Msg, r: seq<Line>, b: seq<Line>)
    requires b != [] && IsFrom(b[0])
    ensures var k := BodyEnd(r);
            && k <= |r| && InBody(m, r) == [m.(body := m.body + r[..k])] + Parse(r[k..])
            && InBody(m, r + b) == [m.(body := m.body + r[..k])] + Parse(r[k..] + b)
  {
    hide *;
    BodyEndLonger(r, b);
    InBodyIs(m, r);
    InBodyIs(m, r + b);
  }

  predicate LastEnded(ms: seq<Msg>) {
    ms == [] || ms[|ms| - 1].ended
  }

  /** Mail that is appended to a mailbox is found behind the messages that were there, which stay as they were, exactly
      if the header of the last one has ended. */
  lemma {:induction false} NewMailExactly(a: seq<Line>, b: seq<Line>)
    requires b != [] && IsFrom(b[0])
    ensures Parse(a + b) == Parse(a) + Parse(b) <==> LastEnded(Parse(a))
    decreases |a|
  {
    hide *;
    if a == [] {
      ParseNothing();
      NoMessages(Parse(b));
      assert a + b == b;
    } else {
      assert (a + b)[0] == a[0] && (a + b)[1..] == a[1..] + b;
      ParseIs(a);
      ParseIs(a + b);
      if !IsFrom(a[0]) {
        NewMailExactly(a[1..], b);
      } else if !Begun(a).ended {
        BegunOpen(a, b);
        EndOfBody(Begun(a));
        OpenIsLast(Begun(a), Begun(a + b), AfterHeader(a + b), Parse(b));
      } else {
        BegunLonger(a, b);
        var m, r := Begun(a), AfterHeader(a);
        BodyLonger(m, r, b);
        var k := BodyEnd(r);
        NewMailExactly(r[k..], b);
        FirstOfMore(m.(body := m.body + r[..k]), Parse(r[k..]), Parse(r[k..] + b), Parse(b));
      }
    }
  }

  lemma NoMessages(s: seq<Msg>)
    ensures [] + s == s && LastEnded([])
  {
  }

  lemma OpenIsLast(m: Msg, n: Msg, rest: seq<Line>, s: seq<Msg>)
    requires !m.ended && |n.header| > |m.header|
    ensures InBody(n, rest) != [m] + s && !LastEnded([m])
  {
    InBodyIs(n, rest);
    assert ([m] + s)[0] == m && InBody(n, rest)[0].header == n.header;
  }

  lemma FirstOfMore(m: Msg, s: seq<Msg>, t: seq<Msg>, u: seq<Msg>)
    requires m.ended
    ensures [m] + t == ([m] + s) + u <==> t == s + u
    ensures LastEnded([m] + s) <==> LastEnded(s)
  {
    assert ([m] + s) + u == [m] + (s + u);
    SameFirst(m, m, t, s + u);
  }

  /** A From line, a header and the empty line behind it. */
  lemma BegunBack(from: Line, e: seq<Line>, rest: seq<Line>)
    requires forall i :: 0 <= i < |e| ==> e[i] != ""
    ensures var ls := [from] + (e + [""] + rest);
            Begun(ls) == Msg([from] + Copied(e), true, [], Read(e)) && AfterHeader(ls) == rest
  {
    var t := e + [""] + rest;
    assert ([from] + t)[1..] == t;
    assert t[|e|] == "" && forall i :: 0 <= i < |e| ==> t[i] == e[i];
    HeaderEndIs(t, |e|);
    assert t[..|e|] == e && t[|e| + 1..] == rest;
  }

  lemma BodyBack(m: Msg, body: seq<Line>, rest: seq<Line>)
    requires (forall i :: 0 <= i < |body| ==> !IsFrom(body[i])) && (rest == [] || IsFrom(rest[0])) && m.body == []
    ensures InBody(m, body + rest) == [m.(body := body)] + Parse(rest)
  {
    BodyEndIs(body, rest);
    assert (body + rest)[..|body|] == body && (body + rest)[|body|..] == rest;
    assert m.body + body == body;
  }

  lemma PrintedAs(m: Msg, l: Let, name: string, rest: seq<Line>)
    requires GoodMsg(m) && m.ended
    ensures var h := m.header[1..];
            && Print1(m, l, name) + rest == [m.header[0]] + (h + Extra(l, name) + [""] + (m.body + rest))
            && m.header == [m.header[0]] + h
            && (forall i :: 0 <= i < |h| ==> h[i] != "" && !IsStatus(h[i]))
            && IsFrom(m.header[0]) && forall i :: 0 <= i < |m.body| ==> !IsFrom(m.body[i])
  {
    var h := m.header[1..];
    assert forall i :: 0 <= i < |h| ==> h[i] == m.header[i + 1];
  }

  lemma MarkedIs(m: Msg, l: Let, name: string)
    ensures Marked(m, l, name)
         == Msg(m.header + (if l.forwarded then [XFORWARD + name] else []), m.ended, m.body, l.read)
  {
  }

  /** One message, printed with its header complete, is parsed again. */
  lemma OneBack(m: Msg, l: Let, name: string, rest: seq<Line>)
    requires GoodMsg(m) && m.ended && (rest == [] || IsFrom(rest[0]))
    ensures Parse(Print1(m, l, name) + rest)
         == [Marked(m, l, name)] + Parse(rest)
  {
    hide *;
    PrintedAs(m, l, name, rest);
    var h := m.header[1..];
    HeaderBack(h, l, name);
    BegunBack(m.header[0], h + Extra(l, name), m.body + rest);
    var ls := Print1(m, l, name) + rest;
    ParseIs(ls);
    BodyBack(Begun(ls), m.body, rest);
    var x := if l.forwarded then [XFORWARD + name] else [];
    assert [m.header[0]] + (h + x) == m.header + x;
    MarkedIs(m, l, name);
  }

  /** The last message, if its header never ended, comes back without its marks. */
  lemma OpenBack(m: Msg, l: Let, name: string)
    requires GoodMsg(m) && !m.ended
    ensures Parse(Print1(m, l, name)) == [Msg(m.header, false, [], false)]
  {
    var h, ls := m.header[1..], Print1(m, l, name);
    assert m.header + [] + m.body == m.header;
    assert forall i :: 0 <= i < |h| ==> h[i] == m.header[i + 1];
    NoStatusCopied(h);
    HeaderEndIs(h, |h|);
    assert h[..|h|] == h;
    assert [m.header[0]] + h == m.header;
    EndOfBody(Msg(m.header, false, [], false));
  }

  /** Whoever goes back with all his marks: the header was complete, or there was nothing to mark. */
  predicate Lossless(m: Msg, l: Let) {
    l.deleted || m.ended || (!l.read && !l.forwarded)
  }

  lemma PrintedStarts(ms: seq<Msg>, ls: seq<Let>, name: string)
    requires |ms| == |ls| && GoodMsgs(ms)
    ensures Printed(ms, ls, name) == [] || IsFrom(Printed(ms, ls, name)[0])
    decreases |ms|
  {
    if ms != [] {
      if ls[0].deleted {
        GoodTail(ms);
        PrintedStarts(ms[1..], ls[1..], name);
      } else {
        assert GoodMsg(ms[0]);
        assert Printed(ms, ls, name)[0] == ms[0].header[0];
      }
    }
  }

  lemma GoodTail(ms: seq<Msg>)
    requires GoodMsgs(ms) && ms != []
    ensures GoodMsg(ms[0]) && GoodMsgs(ms[1..]) && (ms[1..] != [] ==> ms[0].ended)
  {
  }

  lemma PrintedIs(ms: seq<Msg>, ls: seq<Let>, name: string)
    requires |ms| == |ls| && ms != []
    ensures Printed(ms, ls, name)
         == (if ls[0].deleted then [] else Print1(ms[0], ls[0], name)) + Printed(ms[1..], ls[1..], name)
    ensures ls[0].deleted ==> Printed(ms, ls, name) == Printed(ms[1..], ls[1..], name)
    ensures |ms| == 1 && !ls[0].deleted ==> Printed(ms, ls, name) == Print1(ms[0], ls[0], name)
    ensures Expected(ms, ls, name)
         == if ls[0].deleted then Expected(ms[1..], ls[1..], name)
            else [Marked(ms[0], ls[0], name)] + Expected(ms[1..], ls[1..], name)
    ensures |ms| == 1 ==> Expected(ms[1..], ls[1..], name) == []
  {
    assert [] + Printed(ms[1..], ls[1..], name) == Printed(ms[1..], ls[1..], name);
    if |ms| == 1 {
      assert Printed(ms[1..], ls[1..], name) == [];
    }
  }

  predicate AllLossless(ms: seq<Msg>, ls: seq<Let>)
    requires |ms| == |ls|
  {
    forall i :: 0 <= i < |ms| ==> Lossless(ms[i], ls[i])
  }

  lemma AllLosslessIs(ms: seq<Msg>, ls: seq<Let>)
    requires |ms| == |ls| && ms != []
    ensures AllLossless(ms, ls) <==> Lossless(ms[0], ls[0]) && AllLossless(ms[1..], ls[1..])
    ensures |ms| == 1 ==> AllLossless(ms[1..], ls[1..])
  {
    assert forall i :: 0 < i < |ms| ==> ms[i] == ms[1..][i - 1] && ls[i] == ls[1..][i - 1];
  }

  lemma SameFirst(a: Msg, b: Msg, s: seq<Msg>, t: seq<Msg>)
    ensures [a] + s == [b] + t <==> a == b && s == t
  {
    assert ([a] + s)[0] == a && ([b] + t)[0] == b;
    assert ([a] + s)[1..] == s && ([b] + t)[1..] == t;
  }

  /** Parsing a private mailbox that has been written back gives exactly the messages not deleted, in
      order, with the same bodies, headers and marks, the forwarding line added, if and only if no
      message that should carry a mark lacks the empty line that ends its header. */
  lemma {:induction false} RoundTrip(ms: seq<Msg>, ls: seq<Let>, name: string)
    requires |ms| == |ls| && GoodMsgs(ms)
    ensures Parse(Printed(ms, ls, name)) == Expected(ms, ls, name) <==> AllLossless(ms, ls)
    decreases |ms|
  {
    if ms == [] {
      ParseNothing();
    } else {
      hide *;
      var m, l := ms[0], ls[0];
      GoodTail(ms);
      RoundTrip(ms[1..], ls[1..], name);
      AllLosslessIs(ms, ls);
      LosslessIs(m, l);
      PrintedIs(ms, ls, name);
      if !l.deleted {
        if m.ended {
          KeptBack(ms, ls, name);
        } else {
          OpenBack(m, l, name);
          OpenLossless(m, l, name);
        }
      }
    }
  }

  /** From file to file: what readnotes finds in any mailbox, marked in any way, is what it finds again
      in the mailbox that closenotes leaves, under the same condition. */
  lemma FileRoundTrip(lines: seq<Line>, ls: seq<Let>, name: string)
    requires |ls| == |Parse(lines)|
    ensures Parse(Printed(Parse(lines), ls, name)) == Expected(Parse(lines), ls, name)
            <==> AllLossless(Parse(lines), ls)
  {
    hide *;
    ParseIsGood(lines);
    RoundTrip(Parse(lines), ls, name);
  }

  lemma KeptBack(ms: seq<Msg>, ls: seq<Let>, name: string)
    requires |ms| == |ls| && GoodMsgs(ms) && ms != [] && !ls[0].deleted && ms[0].ended
    ensures Parse(Printed(ms, ls, name)) == Expected(ms, ls, name)
            <==> Parse(Printed(ms[1..], ls[1..], name)) == Expected(ms[1..], ls[1..], name)
  {
    hide *;
    var m, l, rest := ms[0], ls[0], Printed(ms[1..], ls[1..], name);
    GoodTail(ms);
    PrintedIs(ms, ls, name);
    PrintedStarts(ms[1..], ls[1..], name);
    OneBack(m, l, name, rest);
    SameFirst(Marked(m, l, name), Marked(m, l, name), Parse(rest), Expected(ms[1..], ls[1..], name));
  }

  lemma LosslessIs(m: Msg, l: Let)
    ensures Lossless(m, l) <==> l.deleted || m.ended || (!l.read && !l.forwarded)
  {
  }

  lemma OpenLossless(m: Msg, l: Let, name: string)
    requires GoodMsg(m) && !m.ended
    ensures [Msg(m.header, false, [], false)] == [Marked(m, l, name)] <==> !l.read && !l.forwarded
  {
    assert |m.header + [XFORWARD + name]| > |m.header|;
    assert m.header + [] == m.header;
  }
}

/** readnotes and the rewriting loop of closenotes. */
module Mailbox {
  import opened MailText

  class Mailbox {
    const maxlet: nat
    var tmp: seq<Line>     // the temporary file
    var wr: nat            // how many of its lines are before the place where it is written
    var mbox: seq<Let>     // the entries of the nmsgs messages
    var spare: seq<Let>    // those behind them which have been in use
    ghost var before: seq<Let>   // all of them when reading began

    constructor (max: nat)
      ensures tmp == [] && wr == 0 && mbox == spare == before == [] && maxlet == max
    {
      maxlet, tmp, wr, mbox, spare, before := max, [], 0, [], [], [];
    }

    /** The temporary file, up to where it is written, and the table hold the messages ms. */
    ghost predicate Holds(ms: seq<Msg>)
      reads this
    {
      && wr <= |tmp| && tmp[..wr] == Flatten(ms)
      && mbox == Kept(Table(ms, 0), before) && spare == Behind(before, |ms|)
    }

    lemma HoldsLast(ms: seq<Msg>, m: Msg)
      ensures Holds(ms + [m]) <==>
                && wr <= |tmp| && tmp[..wr] == Flatten(ms) + Text(m) && spare == Behind(before, |ms| + 1)
                && mbox == Kept(Table(ms, 0), before)
                           + [Kept1(Let(Chars(Flatten(ms)), Chars(Text(m)), m.read, false, false), before, |ms|)]
    {
      hide *;
      HoldsIs(ms + [m]);
      FlattenAppend(ms, [m]);
      OneMsg(m);
      TableAppend(ms, m, 0);
      TableTiles(ms, 0);
      KeptAppend(Table(ms, 0), Let(Chars(Flatten(ms)), Chars(Text(m)), m.read, false, false), before);
    }

    lemma HoldsIs(ms: seq<Msg>)
      ensures Holds(ms) <==>
                && wr <= |tmp| && tmp[..wr] == Flatten(ms)
                && mbox == Kept(Table(ms, 0), before) && spare == Behind(before, |ms|)
    {
    }

    lemma HoldsMeans(ms: seq<Msg>)
      requires Holds(ms)
      ensures wr <= |tmp| && tmp[..wr] == Flatten(ms) && mbox == Kept(Table(ms, 0), before) && |mbox| == |ms|
      ensures spare == Behind(before, |ms|)
    {
      TableTiles(ms, 0);
    }

    /** kfputs(line, mfile): over what the file may hold there. */
    method Write(line: Line)
      requires wr <= |tmp|
      modifies this`tmp, this`wr
      ensures wr == old(wr) + 1 <= |tmp| && tmp[..wr] == old(tmp[..wr]) + [line]
    {
      tmp := tmp[..wr] + [line] + Drop(tmp[wr..], |line| + 1);
      wr := wr + 1;
    }

    /** cpos = kftell(mfile); a new entry for the message that begins with line. */
    method Begin(line: Line, ghost ms: seq<Msg>)
      requires Holds(ms)
      modifies this`tmp, this`wr, this`mbox, this`spare
      ensures Holds(ms + [Msg([line], false, [], false)])
    {
      ghost var m := Msg([line], false, [], false);
      assert Text(m) == [line];
      hide *;
      HoldsMeans(ms);
      OneLine(line);
      NextSlot(before, |ms|, Let(Chars(tmp[..wr]), |line| + 1, false, false, false));
      var l := Let(Chars(tmp[..wr]), |line| + 1, false, false, false);
      if spare != [] {
        l := l.(read := spare[0].read, deleted := spare[0].deleted, forwarded := spare[0].forwarded);
        spare := spare[1..];
      }
      mbox := mbox + [l];
      Write(line);
      HoldsLast(ms, m);
    }

    static lemma NextSlot(was: seq<Let>, n: nat, l: Let)
      requires !l.read
      ensures var s := Behind(was, n);
              && Behind(was, n + 1) == (if s == [] then [] else s[1..])
              && Kept1(l, was, n) == if s == [] then l
                                     else l.(read := s[0].read, deleted := s[0].deleted, forwarded := s[0].forwarded)
    {
    }

    /** kfputs(line, mfile) and cmsg->size += strlen(line), within message m, which becomes m'. */
    method Put(line: Line, ghost ms: seq<Msg>, ghost m: Msg, ghost m': Msg)
      requires Holds(ms + [m]) && Text(m') == Text(m) + [line] && m'.read == m.read
      modifies this`tmp, this`wr, this`mbox
      ensures Holds(ms + [m'])
    {
      hide *;
      HoldsLast(ms, m);
      CharsAppend(Text(m), [line]);
      OneLine(line);
      BitsApart(Let(Chars(Flatten(ms)), Chars(Text(m)), m.read, false, false), before, |ms|, Chars(Text(m')));
      var last := mbox[|mbox| - 1];
      mbox := mbox[|mbox| - 1 := last.(size := last.size + |line| + 1)];
      Write(line);
      assert Flatten(ms) + Text(m) + [line] == Flatten(ms) + (Text(m) + [line]);
      HoldsLast(ms, m');
    }

    static lemma BitsApart(l: Let, was: seq<Let>, i: nat, size: nat)
      ensures Kept1(l, was, i).size == l.size
      ensures Kept1(l.(size := size), was, i) == Kept1(l, was, i).(size := size)
      ensures Kept1(l.(read := true), was, i) == Kept1(l, was, i).(read := true)
    {
    }

    /** cmsg->status |= BM_READ. */
    method MarkRead(ghost ms: seq<Msg>, ghost m: Msg)
      requires Holds(ms + [m])
      modifies this`mbox
      ensures Holds(ms + [m.(read := true)])
    {
      assert Text(m.(read := true)) == Text(m);
      hide *;
      HoldsLast(ms, m);
      BitsApart(Let(Chars(Flatten(ms)), Chars(Text(m)), m.read, false, false), before, |ms|, 0);
      var last := mbox[|mbox| - 1];
      mbox := mbox[|mbox| - 1 := last.(read := true)];
      HoldsLast(ms, m.(read := true));
    }

    /** The inner loop of readnotes, behind the From line at start: copy the header. */
    method ReadHeader(lines: seq<Line>, start: nat, ghost ms: seq<Msg>) returns (pos: nat)
      requires start < |lines| && Holds(ms + [Msg([lines[start]], false, [], false)])
      modifies this`tmp, this`wr, this`mbox
      ensures start < pos <= |lines| && lines[pos..] == AfterHeader(lines[start..])
      ensures Holds(ms + [Begun(lines[start..])])
    {
      ghost var t := lines[start + 1..];
      assert lines[start..][1..] == t;
      ghost var m := Msg([lines[start]], false, [], false);
      ghost var i := 0;
      pos := start + 1;
      hide Holds, Copied, Read, Text, HeaderEnd;
      NoHeaderLines(m);
      while pos < |lines|
        invariant start < pos <= |lines| && i == pos - (start + 1) && i <= |t|
        invariant m == Msg([lines[start]] + Copied(t[..i]), false, [], Read(t[..i])) && Holds(ms + [m])
        invariant forall k :: 0 <= k < i ==> t[k] != ""
      {
        var line := lines[pos];
        assert line == t[i];
        pos := pos + 1;
        if line == "" {
          EndLine(m);
          Put(line, ms, m, m.(ended := true));
          HeaderEndIs(t, i);
          assert lines[pos..] == t[i + 1..];
          return;
        }
        HeaderLine(m, t, i, lines[start]);
        if IsStatus(line) {
          if |line| > 8 && line[8] == 'R' {
            MarkRead(ms, m);
            m := m.(read := true);
          }
        } else {
          Put(line, ms, m, m.(header := m.header + [line]));
          m := m.(header := m.header + [line]);
        }
        i := i + 1;
      }
      HeaderEndIs(t, i);
      assert t[..i] == t;
    }

    /** readnotes has come to line pos: done are the complete messages, open the one whose body it is in. */
    ghost predicate Reading(lines: seq<Line>, pos: nat, done: seq<Msg>, open: seq<Msg>)
      reads this
    {
      && pos <= |lines| && |open| <= 1 && Holds(done + open) && |done| + |open| <= maxlet
      && (open == [] ==> done == []) && Parse(lines) == done + Onward(open, lines[pos..])
    }

    /** The outer loop meets a From line. */
    method NextMessage(lines: seq<Line>, from: nat, ghost done: seq<Msg>, ghost open: seq<Msg>) returns (pos: nat)
      requires Reading(lines, from, done, open) && from < |lines| && IsFrom(lines[from])
      requires |done| + |open| < maxlet
      modifies this`tmp, this`wr, this`mbox, this`spare
      ensures from < pos && Reading(lines, pos, done + open, [Begun(lines[from..])])
    {
      hide Holds, InBody, Parse, Begun, AfterHeader, Onward;
      OnwardStep(open, lines[from..]);
      Begin(lines[from], done + open);
      pos := ReadHeader(lines, from, done + open);
      OnwardBody(Begun(lines[from..]), lines[pos..]);
    }

    /** The outer loop meets a line of a body. */
    method NextLine(lines: seq<Line>, pos: nat, ghost done: seq<Msg>, ghost m: Msg)
      requires Reading(lines, pos, done, [m]) && pos < |lines| && !IsFrom(lines[pos])
      modifies this`tmp, this`wr, this`mbox
      ensures Reading(lines, pos + 1, done, [m.(body := m.body + [lines[pos]])])
    {
      hide Holds, InBody, Parse, Onward, Text;
      OnwardStep([m], lines[pos..]);
      assert lines[pos..][1..] == lines[pos + 1..];
      LongerBody(m, lines[pos]);
      Put(lines[pos], done, m, m.(body := m.body + [lines[pos]]));
      OnwardBody(m.(body := m.body + [lines[pos]]), lines[pos + 1..]);
    }

    lemma SkippedLine(lines: seq<Line>, pos: nat)
      requires Reading(lines, pos, [], []) && pos < |lines| && !IsFrom(lines[pos])
      ensures Reading(lines, pos + 1, [], [])
    {
      OnwardStep([], lines[pos..]);
      assert lines[pos..][1..] == lines[pos + 1..];
    }

    lemma ReadingMeans(lines: seq<Line>, pos: nat, done: seq<Msg>, open: seq<Msg>)
      requires Reading(lines, pos, done, open)
      ensures |open| <= 1 && pos <= |lines| && |mbox| == |done| + |open| <= maxlet && (open == [] ==> done == [])
      ensures open != [] ==> open == [open[0]]
      ensures pos < |lines| && IsFrom(lines[pos]) ==> |Parse(lines)| > |done| + |open|
      ensures pos == |lines| ==> Parse(lines) == done + open && Holds(Parse(lines)) && |Parse(lines)| <= maxlet
    {
      HoldsMeans(done + open);
      if pos < |lines| {
        OnwardStep(open, lines[pos..]);
      } else {
        OnwardEnd(open, lines[pos..]);
      }
    }

    /** readnotes. */
    method Readnotes(lines: seq<Line>) returns (ok: bool)
      requires wr == 0 && mbox == [] && before == spare
      modifies this`tmp, this`wr, this`mbox, this`spare
      ensures ok == (|Parse(lines)| <= maxlet)
      ensures ok ==> Holds(Parse(lines))
    {
      hide *;
      var pos := 0;
      var inMsg := false;    // cmsg != NULL
      ghost var done: seq<Msg>, open: seq<Msg> := [], [];
      NothingRead(lines);
      while pos < |lines|
        invariant pos <= |lines| && Reading(lines, pos, done, open) && (inMsg <==> open != [])
        decreases |lines| - pos
      {
        ReadingMeans(lines, pos, done, open);
        if IsFrom(lines[pos]) {
          if |mbox| == maxlet {
            return false;
          }
          ghost var from := pos;
          pos := NextMessage(lines, pos, done, open);
          done, open := done + open, [Begun(lines[from..])];
          inMsg := true;
          ReadingMeans(lines, pos, done, open);
        } else if inMsg {
          NextLine(lines, pos, done, open[0]);
          open := [open[0].(body := open[0].body + [lines[pos]])];
          pos := pos + 1;
        } else {
          SkippedLine(lines, pos);
          pos := pos + 1;
        }
      }
      ReadingMeans(lines, pos, done, open);
      ok := true;
    }

    lemma NothingRead(lines: seq<Line>)
      requires wr == 0 && mbox == [] && before == spare
      ensures Reading(lines, 0, [], [])
    {
      TableOfNone(0);
      assert lines[0..] == lines;
    }

    /** The part of initnotes that reads a mailbox for the first time. */
    method Initnotes(lines: seq<Line>) returns (ok: bool)
      modifies this
      ensures ok == (|Parse(lines)| <= maxlet)
      ensures ok ==> Opened(lines) && mbox == Table(Parse(lines), 0) && spare == []
    {
      tmp, wr, mbox, spare, before := [], 0, [], [], [];
      hide *;
      ok := Readnotes(lines);
      if ok {
        ReadIsOpened(lines);
        KeptNothing(Table(Parse(lines), 0), Parse(lines));
      }
    }

    /** The part of scanmail that reads a mailbox again: over the temporary file, and into a table whose status bits
        are not cleared. */
    method Scanmail(lines: seq<Line>) returns (ok: bool)
      modifies this
      ensures ok == (|Parse(lines)| <= maxlet)
      ensures ok ==> Opened(lines) && mbox == Kept(Table(Parse(lines), 0), old(mbox + spare))
    {
      before := mbox + spare;
      wr, mbox, spare := 0, [], mbox + spare;
      hide *;
      ok := Readnotes(lines);
      if ok {
        ReadIsOpened(lines);
      }
    }

    /** New mail has been appended to the mailbox: scanmail finds it behind the messages that were there, and these keep
        their marks and their places in the temporary file. */
    method ScanNewMail(ghost lines: seq<Line>, all: seq<Line>) returns (ok: bool)
      requires Opened(lines) && LastEnded(Parse(lines))
      requires lines < all && IsFrom(all[|lines|])
      modifies this
      ensures ok == (|Parse(all)| <= maxlet) && Parse(all) == Parse(lines) + Parse(all[|lines|..])
      ensures ok ==> Opened(all) && |mbox| == |Parse(all)| >= |old(mbox)|
      ensures ok ==> forall i :: 0 <= i < |old(mbox)| ==>
                mbox[i] == old(mbox[i]).(read := old(mbox[i]).read || Parse(all)[i].read)
    {
      ghost var more, was, slots := all[|lines|..], mbox, mbox + spare;
      OpenedMeans(lines);
      assert all == lines + more && more[0] == all[|lines|];
      NewMailExactly(lines, more);
      hide *;
      ok := Scanmail(all);
      if ok {
        OpenedMeans(all);
        forall i | 0 <= i < |was|
          ensures mbox[i] == was[i].(read := was[i].read || Parse(all)[i].read)
        {
          SameEntry(was, Parse(lines), Parse(more), 0, i);
          KeptAt(Table(Parse(all), 0), slots, i);
        }
      }
    }

    lemma OpenedMeans(lines: seq<Line>)
      requires Opened(lines)
      ensures Describes(mbox, Parse(lines), 0) && |mbox| == |Parse(lines)|
    {
    }

    static lemma KeptAt(t: seq<Let>, was: seq<Let>, i: nat)
      requires i < |t| && i < |was| && !t[i].deleted && !t[i].forwarded
      ensures Kept(t, was)[i]
           == t[i].(read := t[i].read || was[i].read, deleted := was[i].deleted, forwarded := was[i].forwarded)
    {
    }

    static lemma KeptNothing(t: seq<Let>, ms: seq<Msg>)
      ensures Kept(t, []) == t && Behind([], |ms|) == []
    {
    }

    /** The empty line that ends a header, with the lines that mark the message before it. */
    method EndHeader(head: seq<Line>, l: Let, name: string) returns (out: seq<Line>)
      ensures out == head + (Extra(l, name) + [""])
    {
      out := head;
      if l.forwarded {
        out := out + [XFORWARD + name];
      }
      if l.read {
        out := out + [STATUS + "R"];
      }
      out := out + [""];
    }

    /** One message of the rewriting loop: the header, with the lines that mark it. */
    method CopyHeader(pos0: nat, size0: int, l: Let, name: string, ghost m: Msg)
      returns (out: seq<Line>, pos: nat, size: int)
      requires Ahead(tmp, pos0, size0, Text(m)) && GoodMsg(m)
      ensures out == m.header + (if m.ended then Extra(l, name) + [""] else [])
      ensures Ahead(tmp, pos, size, m.body)
    {
      hide *;
      out, pos, size := [], pos0, size0;
      ghost var r := m;
      CopyingStarts(tmp, pos, size, m);
      while size > 0 && pos < |tmp|
        invariant Copying(tmp, pos, size, out, r, m)
        decreases |r.header|
      {
        CopyingStep(tmp, pos, size, out, r, m);
        var line := tmp[pos];
        pos := pos + 1;
        size := size - (|line| + 1);
        if line == "" {
          out := EndHeader(out, l, name);
          return;
        }
        out := out + [line];
        r := r.(header := r.header[1..]);
      }
      CopyingStep(tmp, pos, size, out, r, m);
    }

    /** The rest of the message, to the end of its size. */
    method CopyBody(pos0: nat, size0: int, head: seq<Line>, ghost body: seq<Line>) returns (out: seq<Line>)
      requires Ahead(tmp, pos0, size0, body)
      ensures out == head + body
    {
      hide *;
      var pos: nat, size := pos0, size0;
      out := head;
      ghost var s := body;
      AheadStep(tmp, pos, size, s);
      while size > 0 && pos < |tmp|
        invariant Ahead(tmp, pos, size, s) && out + s == head + body
        decreases |s|
      {
        AheadStep(tmp, pos, size, s);
        assert out + s == out + [s[0]] + s[1..];
        out := out + [tmp[pos]];
        size := size - (|tmp[pos]| + 1);
        pos := pos + 1;
        s := s[1..];
      }
      AheadStep(tmp, pos, size, s);
    }

    /** One message of the rewriting loop, from its offset to the end of its size. */
    method CopyMessage(l: Let, name: string, ghost a: seq<Line>, ghost m: Msg, ghost rest: seq<Line>)
      returns (out: seq<Line>)
      requires tmp == a + (Text(m) + rest) && l.start == Chars(a) && l.size == Chars(Text(m)) && GoodMsg(m)
      ensures out == Print1(m, l, name)
    {
      hide *;
      SeekArrives(a, Text(m) + rest);
      AheadAfter(a, Text(m), rest);
      var pos := IndexOf(tmp, l.start);
      var size;
      out, pos, size := CopyHeader(pos, l.size, l, name, m);
      out := CopyBody(pos, size, out, m.body);
      PrintedParts(m, l, name);
    }

    /** The rewriting loop of closenotes, for a private mailbox. */
    method Rewrite(name: string, ghost ms: seq<Msg>) returns (out: seq<Line>)
      requires wr <= |tmp| && tmp[..wr] == Flatten(ms) && Describes(mbox, ms, 0) && GoodMsgs(ms)
      ensures |mbox| == |ms| && out == Printed(ms, mbox, name)
    {
      out := [];
      ghost var a: seq<Line>, stale := [], tmp[wr..];
      assert tmp == tmp[..wr] + stale;
      hide *;
      SameCount(mbox, ms, 0);
      StartOfRewrite(ms, mbox, name);
      var i := 0;
      while i < |mbox|
        invariant i <= |mbox| == |ms| && tmp == a + (Flatten(ms[i..]) + stale) && GoodMsgs(ms[i..])
        invariant Describes(mbox[i..], ms[i..], Chars(a))
        invariant out + Printed(ms[i..], mbox[i..], name) == Printed(ms, mbox, name)
      {
        RewriteTurn(tmp, mbox, ms, name, a, stale, out, i);
        if !mbox[i].deleted {
          var lines := CopyMessage(mbox[i], name, a, ms[i], Flatten(ms[i + 1..]) + stale);
          out := out + lines;
        }
        a := a + Text(ms[i]);
        i := i + 1;
      }
      NothingPrinted(ms[i..], mbox[i..], name);
    }

    /** readnotes has found the messages of lines; their marks may have changed since. */
    ghost predicate Opened(lines: seq<Line>)
      reads this
    {
      wr <= |tmp| && tmp[..wr] == Flatten(Parse(lines)) && Describes(mbox, Parse(lines), 0)
    }

    lemma ReadIsOpened(lines: seq<Line>)
      requires Holds(Parse(lines))
      ensures Opened(lines)
    {
      TableDescribes(Parse(lines), 0);
      KeptDescribes(Table(Parse(lines), 0), before, Parse(lines), 0);
    }

    /** The status bits of a message. */
    method Mark(i: nat, read: bool, deleted: bool, forwarded: bool, ghost lines: seq<Line>)
      requires Opened(lines) && i < |mbox|
      modifies this`mbox
      ensures Opened(lines) && |mbox| == |old(mbox)|
      ensures mbox[i].read == read && mbox[i].deleted == deleted && mbox[i].forwarded == forwarded
      ensures forall j :: 0 <= j < |mbox| && j != i ==> mbox[j] == old(mbox[j])
    {
      DescribesMarked(mbox, Parse(lines), 0, i, read, deleted, forwarded);
      mbox := mbox[i := mbox[i].(read := read, deleted := deleted, forwarded := forwarded)];
    }

    /** closenotes for a private mailbox, and what the next readnotes will find. */
    method Close(name: string, ghost lines: seq<Line>) returns (out: seq<Line>)
      requires Opened(lines)
      ensures |mbox| == |Parse(lines)|
      ensures Parse(out) == Expected(Parse(lines), mbox, name) <==> AllLossless(Parse(lines), mbox)
    {
      ParseIsGood(lines);
      SameCount(mbox, Parse(lines), 0);
      hide Parse, Describes, GoodMsgs, AllLossless, Expected, Printed, Flatten;
      out := Rewrite(name, Parse(lines));
      FileRoundTrip(lines, mbox, name);
    }
  }

  /** The next lines of the file at line pos are s, which take size bytes. */
  ghost predicate Ahead(tmp: seq<Line>, pos: nat, size: int, s: seq<Line>) {
    pos + |s| <= |tmp| && tmp[pos..pos + |s|] == s && size == Chars(s)
  }

  lemma AheadStep(tmp: seq<Line>, pos: nat, size: int, s: seq<Line>)
    requires Ahead(tmp, pos, size, s)
    ensures size >= 0 && (size == 0 <==> s == []) && (s != [] ==> pos < |tmp|)
    ensures s != [] ==> tmp[pos] == s[0] && Ahead(tmp, pos + 1, size - (|s[0]| + 1), s[1..])
  {
    if s != [] {
      assert tmp[pos..pos + |s|][0] == s[0];
      assert tmp[pos + 1..pos + 1 + |s[1..]|] == tmp[pos..pos + |s|][1..];
    }
  }

  lemma AheadAfter(a: seq<Line>, s: seq<Line>, rest: seq<Line>)
    ensures Ahead(a + (s + rest), |a|, Chars(s), s)
  {
    hide Chars;
    assert (a + (s + rest))[|a|..|a| + |s|] == s;
  }

  /** A message some of whose header has been copied. */
  ghost predicate WellHeaded(m: Msg) {
    (forall i :: 0 <= i < |m.header| ==> m.header[i] != "") && (!m.ended ==> m.body == [])
  }

  lemma HeaderHasLines(m: Msg)
    requires GoodMsg(m)
    ensures WellHeaded(m) && [] + m.header == m.header
  {
  }

  lemma HeaderNext(m: Msg)
    requires WellHeaded(m)
    ensures if m.header != [] then
              && Text(m) != [] && Text(m)[0] == m.header[0] != ""
              && Text(m)[1..] == Text(m.(header := m.header[1..])) && WellHeaded(m.(header := m.header[1..]))
            else if m.ended then Text(m) != [] && Text(m)[0] == "" && Text(m)[1..] == m.body
            else Text(m) == [] == m.body
  {
  }

  /** out is the header of m so far copied; r is m without it, and comes next in the file. */
  ghost predicate Copying(tmp: seq<Line>, pos: nat, size: int, out: seq<Line>, r: Msg, m: Msg) {
    && Ahead(tmp, pos, size, Text(r)) && r == m.(header := r.header) && WellHeaded(r)
    && out + r.header == m.header
  }

  lemma CopyingStarts(tmp: seq<Line>, pos: nat, size: int, m: Msg)
    requires Ahead(tmp, pos, size, Text(m)) && GoodMsg(m)
    ensures Copying(tmp, pos, size, [], m, m)
  {
    HeaderHasLines(m);
    hide Ahead, Text, GoodMsg, WellHeaded;
  }

  lemma CopyingStep(tmp: seq<Line>, pos: nat, size: int, out: seq<Line>, r: Msg, m: Msg)
    requires Copying(tmp, pos, size, out, r, m)
    ensures size > 0 && pos < |tmp| && tmp[pos] != "" ==>
              r.header != [] && Copying(tmp, pos + 1, size - (|tmp[pos]| + 1), out + [tmp[pos]],
                                        r.(header := r.header[1..]), m)
    ensures size > 0 && pos < |tmp| && tmp[pos] == "" ==>
              m.ended && out == m.header && Ahead(tmp, pos + 1, size - (|tmp[pos]| + 1), m.body)
    ensures !(size > 0 && pos < |tmp|) ==> !m.ended && out == m.header && Ahead(tmp, pos, size, m.body)
  {
    AheadStep(tmp, pos, size, Text(r));
    HeaderNext(r);
    hide Ahead, Text, WellHeaded;
    if r.header != [] {
      assert r.header == [r.header[0]] + r.header[1..];
      assert out + r.header == out + [r.header[0]] + r.header[1..];
    }
  }

  lemma PrintedParts(m: Msg, l: Let, name: string)
    ensures Print1(m, l, name) == m.header + (if m.ended then Extra(l, name) + [""] else []) + m.body
  {
  }

  lemma SameCount(ls: seq<Let>, ms: seq<Msg>, start: nat)
    requires Describes(ls, ms, start)
    ensures |ls| == |ms|
  {
  }

  lemma StartOfRewrite(ms: seq<Msg>, ls: seq<Let>, name: string)
    requires |ms| == |ls|
    ensures [] + Flatten(ms[0..]) == Flatten(ms) && ms[0..] == ms && ls[0..] == ls && Chars([]) == 0
    ensures [] + Printed(ms[0..], ls[0..], name) == Printed(ms, ls, name)
  {
    assert ms[0..] == ms && ls[0..] == ls;
  }

  lemma RewriteStep(ms: seq<Msg>, ls: seq<Let>, name: string, a: seq<Line>)
    requires ms != [] && Describes(ls, ms, Chars(a)) && GoodMsgs(ms)
    ensures |ms| == |ls| && Flatten(ms) == Text(ms[0]) + Flatten(ms[1..])
    ensures ls[0].start == Chars(a) && ls[0].size == Chars(Text(ms[0]))
    ensures Describes(ls[1..], ms[1..], Chars(a + Text(ms[0])))
    ensures GoodMsg(ms[0]) && GoodMsgs(ms[1..])
    ensures Printed(ms, ls, name)
         == (if ls[0].deleted then [] else Print1(ms[0], ls[0], name)) + Printed(ms[1..], ls[1..], name)
    ensures ls[0].deleted ==> Printed(ms, ls, name) == Printed(ms[1..], ls[1..], name)
  {
    CharsAppend(a, Text(ms[0]));
    GoodTail(ms);
    hide GoodMsg, GoodMsgs, Chars, Text;
    PrintedIs(ms, ls, name);
  }

  lemma RewriteTurn(tmp: seq<Line>, ls: seq<Let>, ms: seq<Msg>, name: string, a: seq<Line>, stale: seq<Line>,
                    out: seq<Line>, i: nat)
    requires i < |ls| == |ms| && tmp == a + (Flatten(ms[i..]) + stale) && GoodMsgs(ms[i..])
    requires Describes(ls[i..], ms[i..], Chars(a))
    ensures var m, rest := ms[i], Flatten(ms[i + 1..]) + stale;
            && tmp == a + (Text(m) + rest) == a + Text(m) + rest && GoodMsg(m)
            && ls[i].start == Chars(a) && ls[i].size == Chars(Text(m))
            && GoodMsgs(ms[i + 1..]) && Describes(ls[i + 1..], ms[i + 1..], Chars(a + Text(m)))
            && out + Printed(ms[i..], ls[i..], name)
            == (if ls[i].deleted then out else out + Print1(m, ls[i], name)) + Printed(ms[i + 1..], ls[i + 1..], name)
  {
    hide *;
    var m, l, p := ms[i], ls[i], Printed(ms[i + 1..], ls[i + 1..], name);
    RewriteStep(ms[i..], ls[i..], name, a);
    assert ms[i..][1..] == ms[i + 1..] && ls[i..][1..] == ls[i + 1..] && ms[i..][0] == m && ls[i..][0] == l;
    Regrouped(a, Text(m), Flatten(ms[i + 1..]), stale);
    if !l.deleted {
      assert out + (Print1(m, l, name) + p) == out + Print1(m, l, name) + p;
    }
  }

  lemma Regrouped(a: seq<Line>, t: seq<Line>, f: seq<Line>, rest: seq<Line>)
    ensures a + (t + f + rest) == a + (t + (f + rest)) == a + t + (f + rest)
  {
    assert t + f + rest == t + (f + rest);
  }

  lemma NothingPrinted(ms: seq<Msg>, ls: seq<Let>, name: string)
    requires |ms| == |ls| == 0
    ensures Printed(ms, ls, name) == []
  {
  }

  /** The messages still to come, the body of the one in open included. */
  ghost function Onward(open: seq<Msg>, ls: seq<Line>): seq<Msg> {
    if open == [] then Parse(ls) else InBody(open[0], ls)
  }

  lemma OnwardStep(open: seq<Msg>, ls: seq<Line>)
    requires ls != [] && |open| <= 1
    ensures IsFrom(ls[0]) ==> Onward(open, ls) == open + InBody(Begun(ls), AfterHeader(ls))
                              && |Onward(open, ls)| > |open|
    ensures !IsFrom(ls[0]) && open == [] ==> Onward(open, ls) == Parse(ls[1..])
    ensures !IsFrom(ls[0]) && open != [] ==>
              Onward(open, ls) == InBody(open[0].(body := open[0].body + [ls[0]]), ls[1..])
  {
    if open != [] {
      NextBodyLine(open[0], ls);
      assert open == [open[0]];
    }
  }

  lemma OnwardBody(m: Msg, ls: seq<Line>)
    ensures Onward([m], ls) == InBody(m, ls)
  {
  }

  lemma OnwardEnd(open: seq<Msg>, ls: seq<Line>)
    requires ls == [] && |open| <= 1
    ensures Onward(open, ls) == open
  {
    if open != [] {
      EndOfBody(open[0]);
      assert open == [open[0]];
    }
  }

  lemma LongerBody(m: Msg, line: Line)
    ensures Text(m.(body := m.body + [line])) == Text(m) + [line]
  {
    assert m.header + (if m.ended then [""] else []) + (m.body + [line])
        == m.header + (if m.ended then [""] else []) + m.body + [line];
  }

  lemma NoHeaderLines(m: Msg)
    ensures m.header + Copied([]) == m.header && !Read([])
  {
  }

  lemma EndLine(m: Msg)
    requires !m.ended && m.body == []
    ensures Text(m.(ended := true)) == Text(m) + [""]
  {
  }

  lemma HeaderLine(m: Msg, t: seq<Line>, i: nat, from: Line)
    requires i < |t| && m == Msg([from] + Copied(t[..i]), false, [], Read(t[..i]))
    ensures Msg([from] + Copied(t[..i + 1]), false, [], Read(t[..i + 1]))
         == if IsStatus(t[i]) then m.(read := m.read || SaysRead(t[i])) else m.(header := m.header + [t[i]])
    ensures Text(m.(header := m.header + [t[i]])) == Text(m) + [t[i]]
  {
    assert t[..i + 1] == t[..i] + [t[i]];
    OneMoreHeaderLine(t[..i], t[i]);
  }
}
