/** The mailbox format in its own characters: which lines of a file begin a message, end its header or mark it as read,
    and which lines are written back. */
module MailLaws {
  import opened MailText

  /** A line that begins with "Status: ", in whatever case. */
  predicate StatusLine(s: Line) {
    |s| >= 8 && s[0] in "Ss" && s[1] in "Tt" && s[2] in "Aa" && s[3] in "Tt" && s[4] in "Uu" && s[5] in "Ss"
    && s[6] == ':' && s[7] == ' '
  }

  ghost predicate NoFrom(ls: seq<Line>) {
    forall i :: 0 <= i < |ls| ==> !("From " <= ls[i])
  }

  ghost predicate NoEmpty(ls: seq<Line>) {
    forall i :: 0 <= i < |ls| ==> ls[i] != ""
  }

  ghost function WithoutStatus(h: seq<Line>): seq<Line> {
    if h == [] then [] else (if StatusLine(h[0]) then [] else [h[0]]) + WithoutStatus(h[1..])
  }

  ghost predicate MarkedRead(h: seq<Line>) {
    exists i :: 0 <= i < |h| && StatusLine(h[i]) && |h[i]| > 8 && h[i][8] == 'R'
  }

  lemma StatusIs(s: Line)
    ensures IsStatus(s) <==> StatusLine(s)
    ensures SaysRead(s) <==> StatusLine(s) && |s| > 8 && s[8] == 'R'
  {
    var p := STATUS;
    assert p == ['S', 't', 'a', 't', 'u', 's', ':', ' '];
    if |s| >= 8 {
      LowerIs(s[0], 'S');
      LowerIs(s[1], 't');
      LowerIs(s[2], 'a');
      LowerIs(s[3], 't');
      LowerIs(s[4], 'u');
      LowerIs(s[5], 's');
      LowerIs(s[6], ':');
      LowerIs(s[7], ' ');
    }
    hide Lower;
    if |s| >= 8 {
      assert IsStatus(s) <==>
        Lower(s[0]) == Lower(p[0]) && Lower(s[1]) == Lower(p[1]) && Lower(s[2]) == Lower(p[2])
        && Lower(s[3]) == Lower(p[3]) && Lower(s[4]) == Lower(p[4]) && Lower(s[5]) == Lower(p[5])
        && Lower(s[6]) == Lower(p[6]) && Lower(s[7]) == Lower(p[7]);
    }
  }

  lemma LowerIs(c: char, d: char)
    ensures Lower(c) == Lower('S') <==> c in "Ss"
    ensures d in "tau" ==> (Lower(c) == Lower(d) <==> c == d || c == d - 'a' + 'A')
    ensures Lower(c) == Lower('s') <==> c in "Ss"
    ensures d in ": " ==> (Lower(c) == Lower(d) <==> c == d)
  {
  }

  lemma {:induction false} CopiedIs(h: seq<Line>)
    ensures Copied(h) == WithoutStatus(h)
    decreases |h|
  {
    if h != [] {
      StatusIs(h[0]);
      CopiedIs(h[1..]);
      hide StatusLine, IsStatus;
      assert [] + WithoutStatus(h[1..]) == WithoutStatus(h[1..]);
    }
  }

  lemma ReadIs(h: seq<Line>)
    ensures Read(h) <==> MarkedRead(h)
  {
    forall i | 0 <= i < |h|
      ensures SaysRead(h[i]) <==> StatusLine(h[i]) && |h[i]| > 8 && h[i][8] == 'R'
    {
      StatusIs(h[i]);
    }
    hide SaysRead, StatusLine;
  }

  lemma {:induction false} Skipped(pre: seq<Line>, rest: seq<Line>)
    requires NoFrom(pre)
    ensures Parse(pre + rest) == Parse(rest)
    decreases |pre|
  {
    if pre == [] {
      assert pre + rest == rest;
    } else {
      assert (pre + rest)[1..] == pre[1..] + rest && (pre + rest)[0] == pre[0];
      Skipped(pre[1..], rest);
    }
  }

  /** A message is a line that begins with "From ", a header of lines that are not empty, an empty line, and then a body
      that goes on to the next line that begins with "From ", or to the end of the file. Its Status lines are left out,
      and it is marked as read if one of them has an R behind the blank. Lines in front of it belong to no message. */
  lemma MessageIs(pre: seq<Line>, first: Line, h: seq<Line>, body: seq<Line>, rest: seq<Line>)
    requires NoFrom(pre) && "From " <= first && NoEmpty(h) && NoFrom(body)
    requires rest == [] || "From " <= rest[0]
    ensures Parse(pre + [first] + h + [""] + body + rest)
         == [Msg([first] + WithoutStatus(h), true, body, MarkedRead(h))] + Parse(rest)
  {
    var ls := [first] + (h + [""] + (body + rest));
    assert ls[0] == first;
    assert pre + [first] + h + [""] + body + rest == pre + ls;
    var m := Msg([first] + WithoutStatus(h), true, [], MarkedRead(h));
    Skipped(pre, ls);
    BegunBack(first, h, body + rest);
    CopiedIs(h);
    ReadIs(h);
    BodyBack(m, body, rest);
    hide InBody, Begun, AfterHeader, Copied, Read, WithoutStatus, MarkedRead, NoFrom, NoEmpty;
  }

  /** With nothing but a first line in its header. */
  lemma BareMessage(first: Line, body: seq<Line>)
    requires "From " <= first && NoFrom(body)
    ensures Parse([first, ""] + body) == [Msg([first], true, body, false)]
  {
    assert [] + [first] + [] + [""] + body + [] == [first, ""] + body;
    assert Parse([]) == [] && WithoutStatus([]) == [] && [first] + [] == [first];
    assert [Msg([first], true, body, false)] + [] == [Msg([first], true, body, false)];
    hide Parse;
    MessageIs([], first, [], body, []);
  }

  /** A line that begins with "From " behind an ended header begins the next message; no other line does. */
  lemma NextMessageBegins(first: Line, body: seq<Line>, l: Line)
    requires "From " <= first && NoFrom(body)
    ensures |Parse([first, ""] + body + [l])| == if "From " <= l then 2 else 1
  {
    if "From " <= l {
      assert [] + [first] + [] + [""] + body + [l] == [first, ""] + body + [l];
      assert [l] + [] == [l];
      OpenMessage(l, []);
      hide Parse;
      MessageIs([], first, [], body, [l]);
    } else {
      assert [first, ""] + body + [l] == [first, ""] + (body + [l]);
      assert NoFrom(body + [l]);
      BareMessage(first, body + [l]);
    }
  }

  /** A header that the file ends in: the message has no body. */
  lemma OpenMessage(first: Line, h: seq<Line>)
    requires "From " <= first && NoEmpty(h)
    ensures Parse([first] + h) == [Msg([first] + WithoutStatus(h), false, [], MarkedRead(h))]
  {
    var ls := [first] + h;
    assert ls[1..] == h && h[..|h|] == h;
    HeaderEndIs(h, |h|);
    CopiedIs(h);
    ReadIs(h);
    EndOfBody(Begun(ls));
    hide InBody, Copied, Read, WithoutStatus, MarkedRead;
  }

  /** A message that is kept is written with its marks, spelled out, in front of the empty line; if it was never ended,
      as it was; a deleted one is not written. */
  lemma WrittenBack(m: Msg, l: Let, name: string)
    ensures Printed([m], [l], name)
         == if l.deleted then []
            else if !m.ended then m.header + m.body
            else m.header + (if l.forwarded then ["X-Forwarded-To: " + name] else [])
                 + (if l.read then ["Status: R"] else []) + [""] + m.body
  {
    hide *;
    PrintedIs([m], [l], name);
    PrintedOne(m, l, name);
    var x := if l.forwarded then ["X-Forwarded-To: " + name] else [];
    var y := if l.read then ["Status: R"] else [];
    if m.ended {
      Grouped(m.header, x, y, m.body);
    }
    Nobody(m, l, name);
  }

  lemma Nobody(m: Msg, l: Let, name: string)
    ensures l.deleted ==> Printed([m], [l], name) == []
  {
    assert [m][1..] == [] && [l][1..] == [];
  }

  lemma PrintedOne(m: Msg, l: Let, name: string)
    ensures Print1(m, l, name)
         == if !m.ended then m.header + m.body
            else m.header + ((if l.forwarded then ["X-Forwarded-To: " + name] else [])
                             + (if l.read then ["Status: R"] else []) + [""]) + m.body
  {
    assert "Status: " + "R" == "Status: R";
    if !m.ended {
      assert m.header + [] + m.body == m.header + m.body;
    }
  }

  lemma Grouped(a: seq<Line>, x: seq<Line>, y: seq<Line>, b: seq<Line>)
    ensures a + (x + y + [""]) + b == a + x + y + [""] + b
  {
  }

  /** Several are written one behind the other. */
  lemma {:induction false} WrittenInOrder(ms: seq<Msg>, ls: seq<Let>, m: Msg, l: Let, name: string)
    requires |ms| == |ls|
    ensures Printed(ms + [m], ls + [l], name) == Printed(ms, ls, name) + Printed([m], [l], name)
    decreases |ms|
  {
    if ms == [] {
      assert ms + [m] == [m] && ls + [l] == [l];
      assert [] + Printed([m], [l], name) == Printed([m], [l], name);
    } else {
      assert (ms + [m])[1..] == ms[1..] + [m] && (ls + [l])[1..] == ls[1..] + [l];
      WrittenInOrder(ms[1..], ls[1..], m, l, name);
      hide Print1;
      var p := if ls[0].deleted then [] else Print1(ms[0], ls[0], name);
      var q, r := Printed(ms[1..], ls[1..], name), Printed([m], [l], name);
      assert p + (q + r) == p + q + r;
    }
  }
}
