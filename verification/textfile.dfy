/** An unbuffered file with a cursor, and the line-end translation of lib/std/stdio.c: what the
    buffered streams are measured against. */
module TextFile {
  type byte = b: int | 0 <= b < 256

  const NUL: byte := 0
  const LF: byte := 10
  const CR: byte := 13

  /** A file's bytes and a position, which may lie behind the end. */
  datatype File = File(bytes: seq<byte>, pos: nat)

  function Zeroes(n: nat): seq<byte> {
    seq(n, _ => NUL)
  }

  /** write at offset: a gap is filled with zeroes, nothing is written for no data. */
  function WriteAt(s: seq<byte>, at: nat, data: seq<byte>): seq<byte> {
    if data == [] then s
    else if at > |s| then s + Zeroes(at - |s|) + data
    else if at + |data| <= |s| then s[..at] + data + s[at + |data|..]
    else s[..at] + data
  }

  /** What a read of n bytes at offset gives. */
  function ReadAt(s: seq<byte>, at: nat, n: nat): seq<byte> {
    if at >= |s| then [] else if at + n <= |s| then s[at..at + n] else s[at..]
  }

  /** Two writes in a row are one. */
  lemma WriteTwice(s: seq<byte>, at: nat, a: seq<byte>, b: seq<byte>)
    ensures WriteAt(WriteAt(s, at, a), at + |a|, b) == WriteAt(s, at, a + b)
  {
    if a == [] {
      assert a + b == b;
    } else if b == [] {
      assert a + b == a;
    } else {
      var x, y := WriteAt(WriteAt(s, at, a), at + |a|, b), WriteAt(s, at, a + b);
      assert |x| == |y|;
    }
  }

  // ----- the file as a stream -----

  function Append(f: File, data: seq<byte>): File {
    File(WriteAt(f.bytes, f.pos, data), f.pos + |data|)
  }

  lemma AppendTwice(f: File, a: seq<byte>, b: seq<byte>)
    ensures Append(Append(f, a), b) == Append(f, a + b)
  {
    WriteTwice(f.bytes, f.pos, a, b);
  }

  function Rest(f: File): seq<byte> {
    if f.pos <= |f.bytes| then f.bytes[f.pos..] else []
  }

  // ----- line ends -----

  function Expand1(c: byte, eol: seq<byte>): seq<byte> {
    if c == LF then eol else [c]
  }

  /** Text as it is written: every newline becomes the end-of-line sequence. */
  function Expand(text: seq<byte>, eol: seq<byte>): seq<byte> {
    if text == [] then [] else Expand1(text[0], eol) + Expand(text[1..], eol)
  }

  lemma {:induction false} ExpandAppend(a: seq<byte>, b: seq<byte>, eol: seq<byte>)
    ensures Expand(a + b, eol) == Expand(a, eol) + Expand(b, eol)
    decreases |a|
  {
    if a == [] {
      assert a + b == b;
    } else {
      assert (a + b)[1..] == a[1..] + b;
      ExpandAppend(a[1..], b, eol);
    }
  }

  lemma ExpandOne(c: byte, eol: seq<byte>)
    ensures Expand([c], eol) == Expand1(c, eol)
  {
    assert [c][1..] == [];
  }

  /** How many bytes text becomes. */
  function Newlines(text: seq<byte>): nat {
    if text == [] then 0 else (if text[0] == LF then 1 else 0) + Newlines(text[1..])
  }

  lemma {:induction false} NoNewlines(text: seq<byte>, eol: seq<byte>)
    requires Newlines(text) == 0
    ensures Expand(text, eol) == text
    decreases |text|
  {
    if text != [] {
      NoNewlines(text[1..], eol);
    }
  }

  lemma {:induction false} NewlinesAppend(a: seq<byte>, b: seq<byte>)
    ensures Newlines(a + b) == Newlines(a) + Newlines(b)
    decreases |a|
  {
    if a == [] {
      assert a + b == b;
    } else {
      assert (a + b)[1..] == a[1..] + b;
      NewlinesAppend(a[1..], b);
    }
  }

  // ----- reading text -----

  /** The first character of a non-empty text, and the bytes it takes, as kfgetc sees it: the
      end-of-line sequence is a newline, and its first byte followed by NUL stands for itself. */
  function Decode1(s: seq<byte>, eol: seq<byte>): (r: (byte, nat))
    requires s != [] && 0 < |eol| <= 2
    ensures 0 < r.1 <= |s|
  {
    if s[0] != eol[0] then (s[0], 1)
    else if |eol| == 1 then (LF, 1)
    else if |s| == 1 then (s[0], 1)
    else if s[1] == eol[1] then (LF, 2)
    else if s[1] == NUL then (s[0], 2)
    else (s[0], 1)
  }

  /** All the characters kfgetc returns until end of file. */
  function Decode(s: seq<byte>, eol: seq<byte>): seq<byte>
    requires 0 < |eol| <= 2
    decreases |s|
  {
    if s == [] then []
    else
      var (c, n) := Decode1(s, eol);
      [c] + Decode(s[n..], eol)
  }

  // ----- reading k characters, translated or not -----

  /** The first character a stream gives, and the bytes it takes. */
  function Char1(s: seq<byte>, eol: seq<byte>, ascii: bool): (r: (byte, nat))
    requires s != [] && 0 < |eol| <= 2
    ensures 0 < r.1 <= |s|
  {
    if ascii then Decode1(s, eol) else (s[0], 1)
  }

  /** The first k characters, or all there are. */
  function Chars(s: seq<byte>, eol: seq<byte>, ascii: bool, k: nat): seq<byte>
    requires 0 < |eol| <= 2
    decreases k
  {
    if k == 0 || s == [] then []
    else
      var (c, n) := Char1(s, eol, ascii);
      [c] + Chars(s[n..], eol, ascii, k - 1)
  }

  /** How many bytes these take. */
  function Used(s: seq<byte>, eol: seq<byte>, ascii: bool, k: nat): (u: nat)
    requires 0 < |eol| <= 2
    ensures u <= |s|
    decreases k
  {
    if k == 0 || s == [] then 0
    else
      var (c, n) := Char1(s, eol, ascii);
      n + Used(s[n..], eol, ascii, k - 1)
  }

  /** Bytes that start no line end are characters as they are. */
  predicate Plain(s: seq<byte>, eol: seq<byte>, ascii: bool) {
    ascii ==> eol != [] && forall i :: 0 <= i < |s| ==> s[i] != eol[0]
  }

  lemma {:induction false} PlainChars(s: seq<byte>, eol: seq<byte>, ascii: bool, j: nat, k: nat)
    requires 0 < |eol| <= 2 && j <= k && j <= |s| && Plain(s[..j], eol, ascii)
    ensures Chars(s, eol, ascii, k) == s[..j] + Chars(s[j..], eol, ascii, k - j)
    ensures Used(s, eol, ascii, k) == j + Used(s[j..], eol, ascii, k - j)
    decreases j
  {
    hide *;
    if j > 0 {
      PlainTail(s, eol, ascii, j);
      OneChar(s, eol, ascii, k);
      PlainChars(s[1..], eol, ascii, j - 1, k - 1);
      assert s[1..][j - 1..] == s[j..];
      assert s[..j] == [s[0]] + s[1..][..j - 1];
    } else {
      assert s[0..] == s;
    }
  }

  lemma PlainTail(s: seq<byte>, eol: seq<byte>, ascii: bool, j: nat)
    requires 0 < j <= |s| && 0 < |eol| && Plain(s[..j], eol, ascii)
    ensures (ascii ==> s[0] != eol[0]) && Plain(s[1..][..j - 1], eol, ascii)
  {
    assert s[..j][0] == s[0];
    assert s[1..][..j - 1] == s[..j][1..];
  }

  lemma OneChar(s: seq<byte>, eol: seq<byte>, ascii: bool, k: nat)
    requires s != [] && 0 < |eol| <= 2 && k > 0 && (ascii ==> s[0] != eol[0])
    ensures Chars(s, eol, ascii, k) == [s[0]] + Chars(s[1..], eol, ascii, k - 1)
    ensures Used(s, eol, ascii, k) == 1 + Used(s[1..], eol, ascii, k - 1)
  {
  }

  /** On a binary stream characters are bytes. */
  lemma BinaryChars(s: seq<byte>, eol: seq<byte>, k: nat)
    requires 0 < |eol| <= 2
    ensures Chars(s, eol, false, k) == if k <= |s| then s[..k] else s
    ensures Used(s, eol, false, k) == if k <= |s| then k else |s|
  {
    var j := if k <= |s| then k else |s|;
    PlainChars(s, eol, false, j, k);
    assert s[..j] + [] == s[..j];
  }

  /** On a text stream they are those kfgetc would return. */
  lemma {:induction false} TextChars(s: seq<byte>, eol: seq<byte>, k: nat)
    requires 0 < |eol| <= 2
    ensures Chars(s, eol, true, k) == var d := Decode(s, eol); if k <= |d| then d[..k] else d
    decreases k
  {
    if k > 0 && s != [] {
      var (c, n) := Decode1(s, eol);
      TextChars(s[n..], eol, k - 1);
      var d := Decode(s[n..], eol);
      assert Decode(s, eol) == [c] + d;
      if k <= |d| + 1 {
        assert ([c] + d)[..k] == [c] + d[..k - 1];
      }
    }
  }

  const CRLF: seq<byte> := [CR, LF]

  /** How often a carriage return is directly followed by a NUL. */
  function CrNuls(text: seq<byte>): nat {
    if |text| < 2 then 0
    else (if text[0] == CR && text[1] == NUL then 1 else 0) + CrNuls(text[1..])
  }

  lemma ExpandedStart(text: seq<byte>)
    requires text != []
    ensures var e := Expand(text, CRLF);
            && e != []
            && (text[0] == LF ==> e == CRLF + Expand(text[1..], CRLF))
            && (text[0] != LF ==> e == [text[0]] + Expand(text[1..], CRLF))
  {
  }

  /** Reading one character of expanded text. */
  lemma DecodeExpanded1(text: seq<byte>)
    requires text != []
    ensures var e := Expand(text, CRLF);
            e != [] &&
            var (c, n) := Decode1(e, CRLF);
            if |text| > 1 && text[0] == CR && text[1] == NUL
            then c == CR && e[n..] == Expand(text[2..], CRLF)
            else c == text[0] && e[n..] == Expand(text[1..], CRLF)
  {
    ExpandedStart(text);
    var e, t := Expand(text, CRLF), text[1..];
    if t != [] {
      ExpandedStart(t);
      assert t[1..] == text[2..];
    }
    if text[0] == LF {
      assert e[0] == CR && e[1] == LF;
      assert e[2..] == Expand(t, CRLF);
    } else {
      assert e[1..] == Expand(t, CRLF);
      if t != [] {
        assert e[1] == if t[0] == LF then CR else t[0];
        assert e[2..] == Expand(t, CRLF)[1..];
      }
    }
  }

  /** Each CR NUL pair loses its NUL. */
  lemma {:induction false} DecodedLength(text: seq<byte>)
    ensures |Decode(Expand(text, CRLF), CRLF)| + CrNuls(text) == |text|
    decreases |text|
  {
    if text != [] {
      DecodeExpanded1(text);
      ExpandedStart(text);
      if |text| > 1 && text[0] == CR && text[1] == NUL {
        DecodedLength(text[2..]);
        assert text[1..][1..] == text[2..];
      } else {
        DecodedLength(text[1..]);
      }
    }
  }

  lemma {:induction false} DecodeUndoesExpand(text: seq<byte>)
    requires CrNuls(text) == 0
    ensures Decode(Expand(text, CRLF), CRLF) == text
    decreases |text|
  {
    if text != [] {
      DecodeExpanded1(text);
      ExpandedStart(text);
      DecodeUndoesExpand(text[1..]);
      assert text == [text[0]] + text[1..];
    }
  }

  /** Text written with CR LF line ends is read back exactly if it has no CR directly followed by NUL. */
  lemma TextRoundTrip(text: seq<byte>)
    ensures Decode(Expand(text, CRLF), CRLF) == text <==> CrNuls(text) == 0
  {
    DecodedLength(text);
    if CrNuls(text) == 0 {
      DecodeUndoesExpand(text);
    }
  }

  // ----- line ends of one byte -----

  /** Reading one character of text that was expanded with a line end of one byte. */
  lemma DecodeSingle1(text: seq<byte>, e: byte)
    requires text != []
    ensures var x := Expand(text, [e]);
            && x != [] && Decode1(x, [e]) == (if text[0] == e then 10 else text[0], 1)
            && x[1..] == Expand(text[1..], [e])
  {
  }

  /** A line end of one byte is written for every newline, and read as one wherever it stands; nothing else changes. */
  lemma {:induction false} DecodedSingle(text: seq<byte>, e: byte)
    ensures var d := Decode(Expand(text, [e]), [e]);
            && |d| == |text| && forall i :: 0 <= i < |text| ==> d[i] == if text[i] == e then 10 else text[i]
    decreases |text|
  {
    if text != [] {
      DecodeSingle1(text, e);
      DecodedSingle(text[1..], e);
    }
  }

  /** Such text is read back exactly if the byte is the newline itself, or does not occur in it. */
  lemma SingleRoundTrip(text: seq<byte>, e: byte)
    ensures Decode(Expand(text, [e]), [e]) == text <==> e == 10 || e !in text
  {
    DecodedSingle(text, e);
    hide Decode, Expand;
    if e != 10 && e in text {
      var i :| 0 <= i < |text| && text[i] == e;
    }
  }

  /** Which texts come back from a stream with CR LF or a single byte as line end: with CR LF those where no CR is
      directly followed by a NUL; with the newline, all; with another byte, those in which it does not occur. */
  predicate ComesBack(text: seq<byte>, eol: seq<byte>)
    requires eol != []
  {
    if |eol| == 1 then eol[0] == 10 || eol[0] !in text
    else forall i :: 0 < i < |text| ==> !(text[i - 1] == 13 && text[i] == 0)
  }

  lemma {:induction false} NoPair(text: seq<byte>)
    ensures CrNuls(text) == 0 <==> forall i :: 0 < i < |text| ==> !(text[i - 1] == 13 && text[i] == 0)
    decreases |text|
  {
    if |text| >= 2 {
      var t := text[1..];
      NoPair(t);
      assert forall i :: 0 < i < |t| ==> t[i - 1] == text[i] && t[i] == text[i + 1];
      if CrNuls(t) == 0 && !(text[0] == 13 && text[1] == 0) {
        forall i | 0 < i < |text|
          ensures !(text[i - 1] == 13 && text[i] == 0)
        {
          if i > 1 {
            assert t[i - 2] == text[i - 1] && t[i - 1] == text[i];
          }
        }
      } else if CrNuls(t) != 0 {
        var i :| 0 < i < |t| && t[i - 1] == 13 && t[i] == 0;
        assert text[i + 1 - 1] == 13 && text[i + 1] == 0;
      }
    }
  }

  lemma RoundTrips(text: seq<byte>, eol: seq<byte>)
    requires eol == [13, 10] || |eol| == 1
    ensures var d := Decode(Expand(text, eol), eol); (d == text <==> ComesBack(text, eol)) && |d| <= |text|
  {
    if |eol| == 1 {
      assert eol == [eol[0]];
      DecodedSingle(text, eol[0]);
      SingleRoundTrip(text, eol[0]);
    } else {
      assert eol == CRLF;
      DecodedLength(text);
      TextRoundTrip(text);
      NoPair(text);
    }
    hide Decode, Expand, CrNuls;
  }

  // ----- what is written -----

  /** Each newline becomes the line end, and text without one is written as it is. */
  lemma LinesAreEnded(line: seq<byte>, rest: seq<byte>, eol: seq<byte>)
    requires 10 !in line
    ensures Expand(line, eol) == line && Expand(line + [10] + rest, eol) == line + eol + Expand(rest, eol)
  {
    hide Expand;
    Unchanged(line, eol);
    ExpandOne(10, eol);
    ExpandAppend(line, [10], eol);
    ExpandAppend(line + [10], rest, eol);
  }

  lemma {:induction false} Unchanged(line: seq<byte>, eol: seq<byte>)
    requires 10 !in line
    ensures Expand(line, eol) == line
    decreases |line|
  {
    if line != [] {
      assert line[0] in line;
      Unchanged(line[1..], eol);
    }
  }
}
