/** The buffered file streams of lib/std/stdio.c. */
module Stdio {
  import opened Common
  import opened TextFile

  const KBUFSIZ: nat := 2048

  datatype BufMode = FULL | LINE | UNBUFFERED

  datatype Whence = SET | CUR | END

  /** The bytes of n items. */
  function Product(size: nat, n: nat): nat {
    size * n
  }

  /** The size of the mbuf that ambufw allocates for n bytes. */
  function Capacity(n: nat): (c: nat)
    ensures c >= n && c > 0
  {
    if n <= 32 then 32 else if n <= 128 then 128 else if n <= 2048 then 2048 else n
  }

  /** Bytes and cursor of an unbuffered file that has been given what is still in the buffers. */
  function View(disk: seq<byte>, offset: nat, obuf: seq<byte>, ibuf: seq<byte>): File {
    File(WriteAt(disk, offset, obuf), if offset + |obuf| >= |ibuf| then offset + |obuf| - |ibuf| else 0)
  }

  /** An input buffer is a copy of the bytes before offset. */
  predicate Lookahead(disk: seq<byte>, offset: nat, ibuf: seq<byte>) {
    ibuf == [] || (|ibuf| <= offset <= |disk| && ibuf == disk[offset - |ibuf|..offset])
  }

  lemma BufferMore(disk: seq<byte>, offset: nat, obuf: seq<byte>, more: seq<byte>)
    ensures View(disk, offset, obuf + more, []) == Append(View(disk, offset, obuf, []), more)
  {
    WriteTwice(disk, offset, obuf, more);
  }

  lemma Flushed(disk: seq<byte>, offset: nat, obuf: seq<byte>, ibuf: seq<byte>)
    requires ibuf == [] || obuf == []
    ensures View(WriteAt(disk, offset, obuf), offset + |obuf|, [], ibuf) == View(disk, offset, obuf, ibuf)
  {
  }

  /** Reading ahead moves the offset, not the cursor. */
  lemma FilledView(disk: seq<byte>, offset: nat, n: nat)
    ensures var ibuf := ReadAt(disk, offset, n);
            && Lookahead(disk, offset + |ibuf|, ibuf)
            && View(disk, offset + |ibuf|, [], ibuf) == View(disk, offset, [], [])
            && (n > 0 ==> (ibuf == [] <==> Rest(View(disk, offset, [], [])) == []))
  {
  }

  lemma LookaheadIsRest(disk: seq<byte>, offset: nat, ibuf: seq<byte>)
    requires Lookahead(disk, offset, ibuf) && ibuf != []
    ensures var f := View(disk, offset, [], ibuf);
            f.bytes == disk && |ibuf| <= |Rest(f)| && Rest(f)[..|ibuf|] == ibuf && f.pos + |ibuf| == offset
  {
  }

  /** Taking the first k bytes of the input buffer moves the cursor by k. */
  lemma Consumed(disk: seq<byte>, offset: nat, ibuf: seq<byte>, k: nat)
    requires Lookahead(disk, offset, ibuf) && k <= |ibuf| && ibuf != []
    ensures var f := View(disk, offset, [], ibuf);
            && Lookahead(disk, offset, ibuf[k..])
            && View(disk, offset, [], ibuf[k..]) == f.(pos := f.pos + k)
            && Rest(f.(pos := f.pos + k)) == Rest(f)[k..] && |Rest(f)| >= k && Rest(f)[..k] == ibuf[..k]
  {
    LookaheadIsRest(disk, offset, ibuf);
    assert Rest(View(disk, offset, [], ibuf))[..|ibuf|][..k] == Rest(View(disk, offset, [], ibuf))[..k];
  }

  class Stream {
    var disk: seq<byte>       // the file
    var offset: nat
    var obuf: seq<byte>       // empty: no output buffer
    var osize: nat
    var ibuf: seq<byte>       // empty: no input buffer
    var bufsize: nat
    var bufmode: BufMode
    var ascii: bool
    var eol: seq<byte>

    /** An opened file, at its beginning. */
    constructor (content: seq<byte>, size: nat, mode: BufMode, text: bool, ending: seq<byte>)
      requires size > 0 && 0 < |ending| <= 2
      ensures Valid() && Abs() == File(content, 0) && ascii == text && eol == ending && ibuf == []
    {
      disk, offset, obuf, osize, ibuf := content, 0, [], 0, [];
      bufsize, bufmode, ascii, eol := size, mode, text, ending;
    }

    predicate Valid()
      reads this
    {
      && bufsize > 0 && 0 < |eol| <= 2 && (obuf != [] ==> |obuf| <= osize)
      && (obuf == [] || ibuf == []) && Lookahead(disk, offset, ibuf)
    }

    function Abs(): File
      reads this`disk, this`offset, this`obuf, this`ibuf
    {
      View(disk, offset, obuf, ibuf)
    }

    /** What a text becomes on this stream. */
    function Encoded(text: seq<byte>): seq<byte>
      reads this`ascii, this`eol
    {
      if ascii then Expand(text, eol) else text
    }

    /** kfflush: no device error. */
    method Kfflush()
      requires Valid()
      modifies this`disk, this`offset, this`obuf
      ensures Valid() && obuf == [] && Abs() == old(Abs())
    {
      Flushed(disk, offset, obuf, ibuf);
      disk := WriteAt(disk, offset, obuf);
      offset := offset + |obuf|;
      obuf := [];
    }

    /** kfputc. The update-stream rule sees to it that no input is buffered. */
    method Kfputc(c: byte) returns (r: int)
      requires Valid() && ibuf == []
      modifies this`disk, this`offset, this`obuf, this`osize
      ensures Valid() && r == c && Abs() == Append(old(Abs()), Encoded([c]))
    {
      ExpandOne(c, eol);
      var isEol := c == LF && ascii;
      var nbytes := if isEol then |eol| else 1;
      if obuf != [] && osize < |obuf| + nbytes {
        Kfflush();
      }
      if obuf == [] {
        osize := Capacity(if nbytes > bufsize then nbytes else bufsize);
      }
      ghost var data := if isEol then eol else [c];
      BufferMore(disk, offset, obuf, data);
      obuf := obuf + if isEol then eol else [c];
      hide View, Capacity;
      if |obuf| == osize || bufmode == UNBUFFERED || (bufmode == LINE && isEol) {
        Kfflush();
      }
      r := c;
    }

    /** The loop that expands newlines into the output buffer: as long as a whole end-of-line
        sequence would fit. */
    method CopyText(data: seq<byte>, start: nat, newlines: nat) returns (i: nat, left: nat)
      requires start < |data| && |eol| > 0 && |obuf| + |eol| <= osize && newlines == Newlines(data[start..])
      modifies this`obuf
      ensures start < i <= |data| && obuf == old(obuf) + Expand(data[start..i], eol)
      ensures |obuf| <= osize && left == Newlines(data[i..])
    {
      i, left := start, newlines;
      ghost var o := obuf;
      assert o == o + Expand(data[start..start], eol);
      while osize - |obuf| >= |eol| && i < |data|
        invariant start <= i <= |data| && |obuf| <= osize && left == Newlines(data[i..])
        invariant obuf == o + Expand(data[start..i], eol)
        invariant i == start ==> obuf == o
        decreases |data| - i
      {
        ExpandMore(data, start, i, eol);
        assert data[i..][0] == data[i] && data[i..][1..] == data[i + 1..];
        if data[i] == LF {
          obuf := obuf + eol;
          left := left - 1;
        } else {
          obuf := obuf + [data[i]];
        }
        i := i + 1;
      }
    }

    method WriteThrough(data: seq<byte>)
      requires Valid() && obuf == [] && ibuf == []
      modifies this`disk, this`offset
      ensures Valid() && Abs() == Append(old(Abs()), data)
    {
      disk := WriteAt(disk, offset, data);
      offset := offset + |data|;
    }

    /** Copy data[i..i + cnt] into the output buffer as it is. */
    method CopyBinary(data: seq<byte>, start: nat) returns (i: nat)
      requires start < |data| && |obuf| < osize
      modifies this`obuf
      ensures start < i <= |data| && obuf == old(obuf) + data[start..i] && |obuf| <= osize
    {
      var cnt := if osize - |obuf| < |data| - start then osize - |obuf| else |data| - start;
      obuf := obuf + data[start..start + cnt];
      i := start + cnt;
    }

    /** One turn of kfwrite's outer loop. */
    method CopySome(data: seq<byte>, start: nat, newlines: nat, eollen: nat) returns (i: nat, left: nat)
      requires Valid() && ibuf == [] && start < |data|
      requires newlines == (if ascii then Newlines(data[start..]) else 0)
      requires 0 < eollen && (newlines != 0 ==> eollen == |eol|)
      modifies this`disk, this`offset, this`obuf, this`osize
      ensures Valid() && ibuf == [] && start < i <= |data| && obuf != []
      ensures left == (if ascii then Newlines(data[i..]) else 0)
      ensures left <= newlines
      ensures Abs() == Append(old(Abs()), Encoded(data[start..i]))
    {
      if obuf != [] && |obuf| + eollen > osize {
        Kfflush();
      }
      if obuf == [] {
        var asize := (|data| - start) + (if eollen == 1 then 0 else newlines);
        osize := Capacity(if asize > bufsize then asize else bufsize);
        NewlinesFit(data[start..]);
      }
      hide View, Capacity, Newlines, Expand, Lookahead;
      ghost var o := obuf;
      if ascii && newlines != 0 {
        i, left := CopyText(data, start, newlines);
      } else {
        i := CopyBinary(data, start);
        left := 0;
        if ascii {
          PlainPart(data, start, i, eol);
        }
      }
      FewerNewlines(data, start, i);
      BufferMore(disk, offset, o, Encoded(data[start..i]));
      EncodedNotEmpty(data[start..i]);
    }

    lemma EncodedNotEmpty(data: seq<byte>)
      requires data != [] && eol != []
      ensures Encoded(data) != []
    {
    }

    lemma EncodedInTwo(data: seq<byte>, i: nat, j: nat)
      requires i <= j <= |data|
      ensures Encoded(data[..j]) == Encoded(data[..i]) + Encoded(data[i..j])
    {
      assert data[..j] == data[..i] + data[i..j];
      ExpandAppend(data[..i], data[i..j], eol);
    }

    /** kfwrite. On a text stream each newline is expanded; large binary writes bypass the buffer.
        With no data at all the source would look at an unset buffer pointer. */
    method Kfwrite(data: seq<byte>, size: nat, n: nat) returns (r: nat)
      requires Valid() && ibuf == [] && |data| == Product(size, n) && (size != 0 ==> data != [])
      modifies this`disk, this`offset, this`obuf, this`osize
      ensures Valid() && r == (if size == 0 then 0 else n)
      ensures Abs() == if size == 0 then old(Abs()) else Append(old(Abs()), Encoded(data))
    {
      if size == 0 {
        return 0;
      }
      r := n;
      if !ascii && |data| >= bufsize {
        Kfflush();
        WriteThrough(data);
        return;
      }
      WriteBuffered(data);
    }

    /** kfputc of each character: the same bytes as one kfwrite, for every buffer size and mode. */
    method PutEach(data: seq<byte>)
      requires Valid() && ibuf == []
      modifies this`disk, this`offset, this`obuf, this`osize
      ensures Valid() && Abs() == Append(old(Abs()), Encoded(data))
    {
      ghost var f := Abs();
      assert Encoded(data[..0]) == [];
      AppendNothing(f);
      hide View, Expand, Lookahead, Encoded, Append;
      for i := 0 to |data|
        invariant Valid() && ibuf == [] && Abs() == Append(f, Encoded(data[..i]))
      {
        var r := Kfputc(data[i]);
        EncodedInTwo(data, i, i + 1);
        assert data[i..i + 1] == [data[i]];
        AppendTwice(f, Encoded(data[..i]), Encoded([data[i]]));
      }
      assert data[..|data|] == data;
    }

    /** The part of kfwrite that goes through the output buffer. */
    method WriteBuffered(data: seq<byte>)
      requires Valid() && ibuf == [] && data != []
      modifies this`disk, this`offset, this`obuf, this`osize
      ensures Valid() && Abs() == Append(old(Abs()), Encoded(data))
    {
      var newlines := if ascii then Newlines(data) else 0;
      var eollen := if newlines != 0 then |eol| else 1;
      var doflush := newlines != 0 && bufmode == LINE;
      ghost var f := Abs();
      var i := 0;
      assert data[0..] == data && Encoded(data[..0]) == [];
      hide View, Newlines, Expand, Lookahead, Encoded, Append;
      AppendNothing(f);
      while i < |data|
        invariant Valid() && ibuf == [] && i <= |data|
        invariant Abs() == Append(f, Encoded(data[..i]))
        invariant newlines == if ascii then Newlines(data[i..]) else 0
        invariant 0 < eollen && (newlines != 0 ==> eollen == |eol|)
        decreases |data| - i
      {
        ghost var i0 := i;
        i, newlines := CopySome(data, i, newlines, eollen);
        EncodedInTwo(data, i0, i);
        AppendTwice(f, Encoded(data[..i0]), Encoded(data[i0..i]));
      }
      assert data[..i] == data;
      if bufmode == UNBUFFERED || |obuf| == osize || doflush {
        Kfflush();
      }
    }

    // ----- input -----

    /** _fillbuf: look ahead in the file by at least cnt bytes. */
    method Fillbuf(cnt: nat) returns (ok: bool)
      requires Valid() && obuf == [] && ibuf == [] && cnt > 0
      modifies this`offset, this`ibuf
      ensures Valid() && Abs() == old(Abs()) && ok == (ibuf != []) && (ok <==> Rest(Abs()) != [])
    {
      var n := if cnt > bufsize then cnt else bufsize;
      FilledView(disk, offset, n);
      var got := ReadAt(disk, offset, n);
      offset := offset + |got|;
      ibuf := got;
      ok := got != [];
    }

    /** Take the first k bytes of the input buffer. */
    method Pullup(k: nat) returns (data: seq<byte>)
      requires Valid() && k <= |ibuf| && ibuf != []
      modifies this`ibuf
      ensures Valid() && Abs() == old(Abs()).(pos := old(Abs()).pos + k)
      ensures data == old(ibuf)[..k] && k <= |Rest(old(Abs()))| && data == Rest(old(Abs()))[..k]
      ensures Rest(Abs()) == Rest(old(Abs()))[k..]
    {
      Consumed(disk, offset, ibuf, k);
      data := ibuf[..k];
      ibuf := ibuf[k..];
    }

    /** _kfgetc; None is kEOF. */
    method Getbyte() returns (r: Option<byte>)
      requires Valid()
      modifies this`disk, this`offset, this`obuf, this`ibuf
      ensures Valid() && obuf == []
      ensures var f := old(Abs());
              if Rest(f) == [] then r == None && Abs() == f && ibuf == []
              else r == Some(Rest(f)[0]) && Abs() == f.(pos := f.pos + 1) && Rest(Abs()) == Rest(f)[1..]
    {
      Kfflush();
      hide View, Lookahead, Rest;
      if ibuf == [] {
        var ok := Fillbuf(1);
        if !ok {
          return None;
        }
      }
      BufferedRest();
      var d := Pullup(1);
      r := Some(d[0]);
    }

    lemma BufferedRest()
      requires Valid() && ibuf != []
      ensures Rest(Abs()) != [] && |ibuf| <= |Rest(Abs())| && Rest(Abs())[..|ibuf|] == ibuf
    {
      LookaheadIsRest(disk, offset, ibuf);
    }

    /** kungetc of the byte just read. */
    method Ungetbyte(c: byte)
      requires Valid() && obuf == [] && 0 < Abs().pos <= |Abs().bytes| && Abs().bytes[Abs().pos - 1] == c
      modifies this`ibuf
      ensures Valid() && obuf == [] && Abs() == old(Abs()).(pos := old(Abs()).pos - 1)
    {
      ibuf := [c] + ibuf;
    }

    /** The end-of-line sequences that kfgetc can put back: kungetc would expand a newline. */
    predicate TextEol()
      reads this`ascii, this`eol
    {
      ascii && |eol| == 2 ==> eol[1] == LF
    }

    /** kfgetc. */
    method Kfgetc() returns (r: Option<byte>)
      requires Valid() && TextEol()
      modifies this`disk, this`offset, this`obuf, this`ibuf
      ensures Valid() && obuf == []
      ensures var f := old(Abs());
              if Rest(f) == [] then r == None && Abs() == f && ibuf == []
              else var (c, n) := Char1(Rest(f), eol, ascii); r == Some(c) && Abs() == f.(pos := f.pos + n)
    {
      ghost var f := Abs();
      r := Getbyte();
      hide View, Lookahead;
      if !ascii || r == None || r.value != eol[0] {
        return;
      }
      if |eol| == 1 {
        return Some(LF);
      }
      r := Getbyte();
      if r == None {
        return Some(eol[0]);
      }
      if r.value == eol[1] {
        return Some(LF);
      }
      if r.value != NUL {
        Ungetbyte(r.value);
      }
      r := Some(eol[0]);
    }

    /** kfseek; the source does not check that the new position is one. */
    method Kfseek(off: int, whence: Whence)
      requires Valid()
      requires Sought(Abs(), off, whence) >= 0
      modifies this`disk, this`offset, this`obuf, this`ibuf
      ensures Valid() && obuf == [] && ibuf == []
      ensures Abs() == old(Abs()).(pos := Sought(old(Abs()), off, whence))
    {
      Kfflush();
      match whence {
        case SET => offset := off;
        case CUR => offset := offset + off - |ibuf|;
        case END => offset := |disk| + off;
      }
      ibuf := [];
    }

    /** kftell. */
    method Kftell() returns (pos: int)
      requires Valid()
      modifies this`disk, this`offset, this`obuf
      ensures Valid() && obuf == [] && Abs() == old(Abs()) && pos == Abs().pos
    {
      Kfflush();
      pos := offset - |ibuf|;
    }

    /** How many bytes at the front of the input buffer kfread may copy as they are. */
    method PlainBytes(bytes: nat) returns (cnt: nat)
      requires Valid() && ibuf != []
      ensures cnt <= |ibuf| && cnt <= bytes && Plain(ibuf[..cnt], eol, ascii)
      ensures cnt == 0 && bytes > 0 ==> ascii && ibuf[0] == eol[0]
    {
      var limit := if |ibuf| < bytes then |ibuf| else bytes;
      cnt := limit;
      if ascii {
        cnt := 0;
        while cnt < limit && ibuf[cnt] != eol[0]
          invariant cnt <= limit && forall i :: 0 <= i < cnt ==> ibuf[i] != eol[0]
        {
          cnt := cnt + 1;
        }
      }
    }

    /** One turn of kfread's loop: at least one character, unless the file has ended. */
    method ReadSome(bytes: nat) returns (d: seq<byte>)
      requires Valid() && TextEol() && obuf == [] && bytes > 0
      modifies this`disk, this`offset, this`obuf, this`ibuf
      ensures Valid() && obuf == [] && |d| <= bytes
      ensures var f := old(Abs());
              && Abs().bytes == f.bytes
              && (d == [] <==> Rest(f) == []) && (d == [] ==> Abs() == f && ibuf == [])
              && Chars(Rest(f), eol, ascii, bytes) == d + Chars(Rest(Abs()), eol, ascii, bytes - |d|)
              && Used(Rest(f), eol, ascii, bytes)
              == Abs().pos - f.pos + Used(Rest(Abs()), eol, ascii, bytes - |d|)
    {
      d := [];
      hide View, Lookahead, Rest, Chars, Used, Char1, Plain;
      if ibuf == [] {
        var ok := Fillbuf(bytes);
        if !ok {
          return;
        }
      }
      BufferedRest();
      var cnt := PlainBytes(bytes);
      if cnt != 0 {
        PlainStart(Rest(Abs()), ibuf, eol, ascii, cnt, bytes);
        d := Pullup(cnt);
      } else {
        CharsIs(Rest(Abs()), eol, ascii, bytes);
        RestAfter(Abs(), eol, ascii);
        var c := Kfgetc();
        d := [c.value];
      }
    }

    /** kfread's loop. */
    method ReadLoop(total: nat) returns (data: seq<byte>)
      requires Valid() && TextEol() && obuf == []
      modifies this`disk, this`offset, this`obuf, this`ibuf
      ensures Valid() && obuf == [] && |data| <= total && (|data| < total ==> ibuf == [])
      ensures total == 0 ==> ibuf == old(ibuf)
      ensures var f := old(Abs());
              && data == Chars(Rest(f), eol, ascii, total)
              && Abs() == f.(pos := f.pos + Used(Rest(f), eol, ascii, total))
    {
      data := [];
      var bytes: nat := total;
      ghost var f := Abs();
      hide View, Lookahead, Rest, Chars, Used, TextEol;
      while bytes != 0
        invariant Valid() && TextEol() && obuf == [] && |data| + bytes == total && Abs().bytes == f.bytes
        invariant bytes == total ==> ibuf == old(ibuf)
        invariant Chars(Rest(f), eol, ascii, total) == data + Chars(Rest(Abs()), eol, ascii, bytes)
        invariant Used(Rest(f), eol, ascii, total) == Abs().pos - f.pos + Used(Rest(Abs()), eol, ascii, bytes)
        decreases bytes
      {
        var d := ReadSome(bytes);
        if d == [] {
          NoChars(eol, ascii, bytes);
          return;
        }
        data := data + d;
        bytes := bytes - |d|;
      }
      NoneWanted(Rest(Abs()), eol, ascii);
    }

    /** kfread. A binary request of KBUFSIZ bytes or more would bypass the buffer. */
    method Kfread(size: nat, n: nat) returns (data: seq<byte>, r: nat)
      requires Valid() && TextEol() && (ascii || Product(size, n) < KBUFSIZ)
      modifies this`disk, this`offset, this`obuf, this`ibuf
      ensures Valid() && (size != 0 ==> obuf == []) && (Product(size, n) == 0 ==> ibuf == old(ibuf))
      ensures size == 0 ==> data == [] && r == 0 && Abs() == old(Abs())
      ensures size != 0 ==>
                var f := old(Abs());
                && data == Chars(Rest(f), eol, ascii, Product(size, n))
                && Abs() == f.(pos := f.pos + Used(Rest(f), eol, ascii, Product(size, n)))
                && r == (if |data| == Product(size, n) then n else |data| / size)
                && (|data| < Product(size, n) ==> ibuf == [])
    {
      hide *;
      if size == 0 {
        return [], 0;
      }
      Kfflush();
      var bytes := Product(size, n);
      data := ReadLoop(bytes);
      r := if |data| == bytes then n else |data| / size;
    }
  }

  lemma NoChars(eol: seq<byte>, ascii: bool, k: nat)
    requires 0 < |eol| <= 2
    ensures Chars([], eol, ascii, k) == [] && Used([], eol, ascii, k) == 0
  {
  }

  lemma NoneWanted(s: seq<byte>, eol: seq<byte>, ascii: bool)
    requires 0 < |eol| <= 2
    ensures Chars(s, eol, ascii, 0) == [] && Used(s, eol, ascii, 0) == 0
  {
  }

  lemma CharsIs(s: seq<byte>, eol: seq<byte>, ascii: bool, k: nat)
    requires 0 < |eol| <= 2 && s != [] && k > 0
    ensures var (c, n) := Char1(s, eol, ascii);
            && 0 < n <= |s|
            && Chars(s, eol, ascii, k) == [c] + Chars(s[n..], eol, ascii, k - 1)
            && Used(s, eol, ascii, k) == n + Used(s[n..], eol, ascii, k - 1)
  {
  }

  lemma RestAfter(f: File, eol: seq<byte>, ascii: bool)
    requires 0 < |eol| <= 2 && Rest(f) != []
    ensures var n := Char1(Rest(f), eol, ascii).1;
            Rest(f.(pos := f.pos + n)) == Rest(f)[n..]
  {
  }

  lemma PlainStart(s: seq<byte>, ibuf: seq<byte>, eol: seq<byte>, ascii: bool, j: nat, k: nat)
    requires 0 < |eol| <= 2 && j <= k && j <= |ibuf| <= |s| && s[..|ibuf|] == ibuf && Plain(ibuf[..j], eol, ascii)
    ensures Chars(s, eol, ascii, k) == s[..j] + Chars(s[j..], eol, ascii, k - j)
    ensures Used(s, eol, ascii, k) == j + Used(s[j..], eol, ascii, k - j)
  {
    assert s[..j] == ibuf[..j];
    PlainChars(s, eol, ascii, j, k);
  }

  function Sought(f: File, off: int, whence: Whence): int {
    match whence
    case SET => off
    case CUR => f.pos + off
    case END => |f.bytes| + off
  }

  lemma AppendNothing(f: File)
    ensures Append(f, []) == f
  {
  }

  lemma ExpandMore(data: seq<byte>, start: nat, i: nat, eol: seq<byte>)
    requires start <= i < |data|
    ensures Expand(data[start..i + 1], eol) == Expand(data[start..i], eol) + Expand1(data[i], eol)
  {
    ExpandAppend(data[start..i], [data[i]], eol);
    ExpandOne(data[i], eol);
    assert data[start..i] + [data[i]] == data[start..i + 1];
  }

  lemma {:induction false} NewlinesFit(data: seq<byte>)
    ensures Newlines(data) <= |data|
    decreases |data|
  {
    if data != [] {
      NewlinesFit(data[1..]);
    }
  }

  lemma FewerNewlines(data: seq<byte>, i: nat, j: nat)
    requires i <= j <= |data|
    ensures Newlines(data[j..]) <= Newlines(data[i..])
  {
    assert data[i..] == data[i..j] + data[j..];
    NewlinesAppend(data[i..j], data[j..]);
  }

  /** Where there is no newline left, the text is written as it is. */
  lemma PlainPart(data: seq<byte>, i: nat, j: nat, eol: seq<byte>)
    requires i <= j <= |data| && Newlines(data[i..]) == 0
    ensures Expand(data[i..j], eol) == data[i..j] && Newlines(data[j..]) == 0
  {
    assert data[i..] == data[i..j] + data[j..];
    NewlinesAppend(data[i..j], data[j..]);
    NoNewlines(data[i..j], eol);
  }

  // ----- any sequence of operations -----

  datatype Op =
    | Putc(c: byte)
    | Write(data: seq<byte>)
    | Getc
    | Read(n: nat)
    | Seek(off: int, whence: Whence)
    | Tell

  datatype Result = Done | Char(c: Option<byte>) | Data(data: seq<byte>) | Position(pos: int)

  /** An unbuffered binary file, and whether the last transfer was input that did not reach the end. */
  datatype Session = Session(file: File, reading: bool)

  /** What the operations mean without any buffering. */
  function Do(s: Session, op: Op): (r: (Session, Result)) {
    var f := s.file;
    match op
    case Putc(c) => (Session(Append(f, [c]), false), Done)
    case Write(data) => (Session(Append(f, data), false), Done)
    case Getc =>
      if f.pos >= |f.bytes| then (Session(f, false), Char(None))
      else (Session(f.(pos := f.pos + 1), true), Char(Some(f.bytes[f.pos])))
    case Read(n) =>
      var d := ReadAt(f.bytes, f.pos, n);
      (Session(f.(pos := f.pos + |d|), if n == 0 then s.reading else |d| == n), Data(d))
    case Seek(off, whence) =>
      var p := Sought(f, off, whence);
      (Session(f.(pos := if p >= 0 then p else 0), false), Done)
    case Tell => (s, Position(f.pos))
  }

  /** The rule for update streams: no output directly after input that did not reach the end of the
      file, without a seek between them. */
  predicate Allowed(s: Session, op: Op) {
    match op
    case Putc(_) => !s.reading
    case Write(data) => !s.reading && data != []
    case Getc => true
    case Read(n) => n < KBUFSIZ
    case Seek(off, whence) => Sought(s.file, off, whence) >= 0
    case Tell => true
  }

  predicate AllAllowed(s: Session, ops: seq<Op>)
    decreases |ops|
  {
    ops == [] || (Allowed(s, ops[0]) && AllAllowed(Do(s, ops[0]).0, ops[1..]))
  }

  function DoAll(s: Session, ops: seq<Op>): (r: (Session, seq<Result>))
    decreases |ops|
  {
    if ops == [] then (s, [])
    else
      var (s1, x) := Do(s, ops[0]);
      var (s2, xs) := DoAll(s1, ops[1..]);
      (s2, [x] + xs)
  }

  /** What is written can be sought back to and read. */
  lemma WriteThenRead(s: Session, data: seq<byte>)
    requires data != []
    ensures var (s1, _) := Do(s, Write(data));
            var (s2, p) := Do(s1, Tell);
            var (s3, _) := Do(s2, Seek(-|data|, CUR));
            p == Position(s.file.pos + |data|) && Do(s3, Read(|data|)).1 == Data(data)
  {
  }

  /** At the end of the file it adds to it, and nothing before it changes. */
  lemma WriteAtTheEnd(s: Session, data: seq<byte>)
    ensures var (s1, _) := Do(s, Seek(0, END));
            var (s2, _) := Do(s1, Write(data));
            s2.file.bytes == s.file.bytes + data && Do(s1, Tell).1 == Position(|s.file.bytes|)
  {
  }

  /** Where there are bytes already, what is written replaces as many of them; a gap behind the end is filled with
      zeroes. */
  lemma WriteAnywhere(s: Session, at: nat, data: seq<byte>)
    requires data != []
    ensures var (s1, _) := Do(s, Seek(at, SET));
            var b, b' := s.file.bytes, Do(s1, Write(data)).0.file.bytes;
            && (at + |data| <= |b| ==> b' == b[..at] + data + b[at + |data|..])
            && (at <= |b| < at + |data| ==> b' == b[..at] + data)
            && (at > |b| ==> b' == b + seq(at - |b|, _ => 0) + data)
  {
  }

  /** From a position that was sought, reading gives the bytes that stand there, together or one by one. */
  lemma SeekThenRead(s: Session, at: nat, n: nat)
    requires at + n <= |s.file.bytes|
    ensures var (s1, _) := Do(s, Seek(at, SET));
            var (s2, d) := Do(s1, Read(n));
            d == Data(s.file.bytes[at..at + n]) && Do(s2, Tell).1 == Position(at + n) && s2.file.bytes == s.file.bytes
    ensures var (s1, _) := Do(s, Seek(at, SET));
            n > 0 ==> Do(s1, Getc).1 == Char(Some(s.file.bytes[at]))
    ensures var (s1, _) := Do(s, Seek(at - |s.file.bytes|, END)); Do(s1, Tell).1 == Position(at)
  {
  }

  /** At the end there is nothing to read, and a character put there is the last one. */
  lemma AtTheEnd(s: Session, n: nat, c: byte)
    ensures var (s1, _) := Do(s, Seek(n, END));
            Do(s1, Getc) == (s1, Char(None)) && Do(s1, Read(n)) == (s1, Data([]))
    ensures var (s1, _) := Do(s, Seek(0, END)); Do(s1, Putc(c)).0.file.bytes == s.file.bytes + [c]
  {
  }

  /** The stream is where the unbuffered session is. */
  predicate Agrees(st: Stream, s: Session)
    reads st
  {
    st.Valid() && !st.ascii && st.Abs() == s.file && (!s.reading ==> st.ibuf == [])
  }

  lemma RestIsEmpty(f: File)
    ensures Rest(f) == [] <==> f.pos >= |f.bytes|
    ensures f.pos < |f.bytes| ==> Rest(f)[0] == f.bytes[f.pos]
  {
  }

  lemma ReadIs(f: File, eol: seq<byte>, n: nat)
    requires 0 < |eol| <= 2
    ensures Chars(Rest(f), eol, false, n) == ReadAt(f.bytes, f.pos, n)
    ensures Used(Rest(f), eol, false, n) == |ReadAt(f.bytes, f.pos, n)| <= n
  {
    BinaryChars(Rest(f), eol, n);
  }

  /** One operation on a buffered stream gives what it gives on the unbuffered file. */
  method Perform(st: Stream, op: Op, ghost s: Session) returns (x: Result)
    requires Agrees(st, s) && Allowed(s, op)
    modifies st
    ensures Agrees(st, Do(s, op).0) && x == Do(s, op).1
  {
    hide View, Lookahead, Rest, Chars, Used, Append, ReadAt;
    match op {
      case Putc(c) =>
        var r := st.Kfputc(c);
        x := Done;
      case Write(data) =>
        var n := st.Kfwrite(data, 1, |data|);
        x := Done;
      case Getc =>
        RestIsEmpty(st.Abs());
        var c := st.Kfgetc();
        x := Char(c);
      case Read(n) =>
        ReadIs(st.Abs(), st.eol, n);
        assert Product(1, n) == n;
        var d, r := st.Kfread(1, n);
        x := Data(d);
      case Seek(off, whence) =>
        st.Kfseek(off, whence);
        x := Done;
      case Tell =>
        var pos := st.Kftell();
        x := Position(pos);
    }
  }

  /** Any sequence of operations that obeys the rule gives, for every buffer size and mode, the results,
      the bytes and the position of an unbuffered file. */
  method PerformAll(st: Stream, ops: seq<Op>, ghost s: Session) returns (xs: seq<Result>)
    requires Agrees(st, s) && AllAllowed(s, ops)
    modifies st
    ensures Agrees(st, DoAll(s, ops).0) && xs == DoAll(s, ops).1
  {
    xs := [];
    ghost var now := s;
    for i := 0 to |ops|
      invariant Agrees(st, now) && AllAllowed(now, ops[i..])
      invariant DoAll(s, ops).0 == DoAll(now, ops[i..]).0 && DoAll(s, ops).1 == xs + DoAll(now, ops[i..]).1
    {
      assert ops[i..][1..] == ops[i + 1..];
      hide Agrees, Allowed, Do;
      var x := Perform(st, ops[i], now);
      now := Do(now, ops[i]).0;
      xs := xs + [x];
    }
  }

  /** Once flushed, the file itself is what the unbuffered file would be. */
  method Sync(st: Stream, ghost s: Session)
    requires Agrees(st, s)
    modifies st
    ensures Agrees(st, s) && st.disk == s.file.bytes
  {
    st.Kfflush();
  }

  /** Writing a text to an empty stream, whose line end is CR LF or any single byte, and reading it back gives it again
      exactly if it is a text that comes back. */
  method WriteAndReadBack(st: Stream, text: seq<byte>) returns (back: seq<byte>)
    requires st.Valid() && st.ascii && (st.eol == [13, 10] || |st.eol| == 1)
    requires st.ibuf == [] && st.Abs() == File([], 0) && text != []
    modifies st
    ensures st.Valid() && st.eol == old(st.eol) && st.Abs().bytes == Expand(text, st.eol)
    ensures back == text <==> ComesBack(text, st.eol)
  {
    hide View, Lookahead, Chars, Used, Expand, ComesBack;
    var n := st.Kfwrite(text, 1, |text|);
    AppendToEmpty(Expand(text, st.eol));
    st.Kfseek(0, SET);
    FromTheStart(Expand(text, st.eol));
    WhatComesBack(text, st.eol);
    back, n := st.Kfread(1, |text|);
  }

  lemma FromTheStart(e: seq<byte>)
    ensures Rest(File(e, 0)) == e
  {
  }

  lemma WhatComesBack(text: seq<byte>, eol: seq<byte>)
    requires eol == [13, 10] || |eol| == 1
    ensures var back := Chars(Expand(text, eol), eol, true, |text|);
            back == text <==> ComesBack(text, eol)
  {
    var d := Decode(Expand(text, eol), eol);
    hide Chars, Decode, Expand, ComesBack;
    TextChars(Expand(text, eol), eol, |text|);
    RoundTrips(text, eol);
    assert d[..|d|] == d;
  }

  lemma AppendToEmpty(data: seq<byte>)
    ensures Append(File([], 0), data) == File(data, |data|)
  {
  }
}
