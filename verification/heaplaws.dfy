/** What malloc and free do to the single units of memory: no unit gets lost, none is handed out twice, and a block that
    is carved off is the end of its chunk. */
module HeapLaws {
  import opened Common
  import opened HeapSpec
  import opened Heap

  ghost predicate Holds(c: Chunk, x: int) {
    c.at <= x < c.at + c.size
  }

  /** Unit x is in one of the chunks. */
  ghost predicate Covers(fl: seq<Chunk>, x: int) {
    exists i :: 0 <= i < |fl| && Holds(fl[i], x)
  }

  lemma CoversAppend(a: seq<Chunk>, b: seq<Chunk>, x: int)
    ensures Covers(a + b, x) <==> Covers(a, x) || Covers(b, x)
  {
    var s := a + b;
    hide Holds;
    forall i | 0 <= i < |a| && Holds(a[i], x)
      ensures Covers(s, x)
    {
      assert Holds(s[i], x);
    }
    forall i | 0 <= i < |b| && Holds(b[i], x)
      ensures Covers(s, x)
    {
      assert Holds(s[|a| + i], x);
    }
    forall i | 0 <= i < |s| && Holds(s[i], x)
      ensures Covers(a, x) || Covers(b, x)
    {
      assert s[i] == if i < |a| then a[i] else b[i - |a|];
    }
  }

  lemma CoversOne(c: Chunk, x: int)
    ensures Covers([c], x) <==> Holds(c, x)
  {
    if Holds(c, x) {
      assert Holds([c][0], x);
    }
  }

  lemma CoversThree(a: seq<Chunk>, c: Chunk, b: seq<Chunk>, x: int)
    ensures Covers(a + [c] + b, x) <==> Covers(a, x) || Holds(c, x) || Covers(b, x)
  {
    hide *;
    CoversAppend(a + [c], b, x);
    CoversAppend(a, [c], x);
    CoversOne(c, x);
  }

  lemma LeftCovers(fl: seq<Chunk>, c: nat, p: Chunk, x: int)
    requires c <= |fl|
    ensures Covers(fl[..c], x)
       <==> Covers(Left(fl, c, p), x) || (TouchesPrevious(fl, c, p) && Holds(fl[c - 1], x))
  {
    if TouchesPrevious(fl, c, p) {
      assert fl[..c] == fl[..c - 1] + [fl[c - 1]];
      hide Covers, Holds;
      CoversAppend(fl[..c - 1], [fl[c - 1]], x);
      CoversOne(fl[c - 1], x);
    }
  }

  lemma RightCovers(fl: seq<Chunk>, c: nat, p: Chunk, x: int)
    requires c <= |fl|
    ensures Covers(fl[c..], x) <==> Covers(Right(fl, c, p), x) || (TouchesNext(fl, c, p) && Holds(fl[c], x))
  {
    if TouchesNext(fl, c, p) {
      assert fl[c..] == [fl[c]] + fl[c + 1..];
      hide Covers, Holds;
      CoversAppend([fl[c]], fl[c + 1..], x);
      CoversOne(fl[c], x);
    }
  }

  lemma MiddleHolds(fl: seq<Chunk>, c: nat, p: Chunk, x: int)
    requires c <= |fl|
    ensures Holds(Middle(fl, c, p), x)
       <==> Holds(p, x) || (TouchesPrevious(fl, c, p) && Holds(fl[c - 1], x))
            || (TouchesNext(fl, c, p) && Holds(fl[c], x))
  {
  }

  lemma MergeCovers(fl: seq<Chunk>, c: nat, p: Chunk, x: int)
    requires c <= |fl|
    ensures Covers(Merge(fl, c, p), x) <==> Covers(fl, x) || Holds(p, x)
  {
    assert fl == fl[..c] + fl[c..];
    hide Covers, Holds, Left, Middle, Right, TouchesNext, TouchesPrevious;
    CoversAppend(fl[..c], fl[c..], x);
    CoversThree(Left(fl, c, p), Middle(fl, c, p), Right(fl, c, p), x);
    LeftCovers(fl, c, p, x);
    RightCovers(fl, c, p, x);
    MiddleHolds(fl, c, p, x);
  }

  /** A block that is freed: exactly its units become free. */
  lemma FreeReturnsItsUnits(s: State, k: nat, x: int)
    requires k < |s.live|
    ensures Covers(Released(s, k).free, x) <==> Covers(s.free, x) || Holds(s.live[k], x)
  {
    hide Covers, Holds, Merge;
    MergeCovers(s.free, Below(s.free, s.live[k].at), s.live[k], x);
  }

  /** A block that is handed out has as many units as are wanted, or one more if that is its whole chunk, and it ends
      where its chunk ended. */
  lemma GrantedBlock(s: State, i: nat, nu: nat)
    requires i < |s.free| && 0 < nu <= s.free[i].size
    ensures var s', c := Granted(s, i, nu), s.free[i];
            && s'.live != [] && s'.live[..|s'.live| - 1] == s.live
            && var b := s'.live[|s'.live| - 1];
               && nu <= b.size <= nu + 1 && b.at + b.size == c.at + c.size
               && (b.size > nu || c.size <= nu + 1 ==> b == c)
  {
  }

  /** Exactly its units are no longer free. */
  lemma GrantTakesItsUnits(s: State, i: nat, nu: nat, x: int)
    requires Inv(s) && i < |s.free| && 0 < nu <= s.free[i].size
    ensures var s' := Granted(s, i, nu);
            && s'.live != []
            && var b := s'.live[|s'.live| - 1];
               && (Covers(s.free, x) <==> Covers(s'.free, x) || Holds(b, x)) && !(Covers(s'.free, x) && Holds(b, x))
  {
    var fl, c, b := s.free, s.free[i], Block(s.free[i], nu);
    assert Ordered(fl);
    hide Ordered, Inv, Covers;
    TakeApart(fl, i, nu);
    ApartMeans(b, Take(fl, i, nu), x);
    TakeCovers(fl, i, nu, x);
    hide *;
    GrantedIs(s, i, nu);
  }

  lemma GrantedIs(s: State, i: nat, nu: nat)
    requires i < |s.free| && nu <= s.free[i].size
    ensures var s' := Granted(s, i, nu);
            s'.free == Take(s.free, i, nu) && s'.live != [] && s'.live[|s'.live| - 1] == Block(s.free[i], nu)
  {
  }

  lemma TakeCovers(fl: seq<Chunk>, i: nat, nu: nat, x: int)
    requires i < |fl| && 0 < nu <= fl[i].size
    ensures Covers(fl, x) <==> Covers(Take(fl, i, nu), x) || Holds(Block(fl[i], nu), x)
  {
    var c := fl[i];
    assert fl == fl[..i] + [c] + fl[i + 1..];
    hide Covers;
    CoversThree(fl[..i], c, fl[i + 1..], x);
    if c.size <= nu + 1 {
      CoversAppend(fl[..i], fl[i + 1..], x);
    } else {
      CoversThree(fl[..i], Chunk(c.at, c.size - nu), fl[i + 1..], x);
    }
  }

  lemma ApartMeans(b: Chunk, fl: seq<Chunk>, x: int)
    requires forall j :: 0 <= j < |fl| ==> Apart(b, fl[j])
    ensures !(Covers(fl, x) && Holds(b, x))
  {
  }

  /** In every state of the heap a unit is free, or in one block, or not the heap's; never two of these. */
  lemma NoUnitTwice(s: State, k: nat, l: nat, x: int)
    requires Inv(s) && k < |s.live| && l < |s.live| && Holds(s.live[k], x)
    ensures !Covers(s.free, x) && (Holds(s.live[l], x) ==> l == k)
  {
    assert Blocks(s.live, s.free);
    if k < l {
      assert Apart(s.live[k], s.live[l]);
    } else if l < k {
      assert Apart(s.live[l], s.live[k]);
    }
    ApartMeans(s.live[k], s.free, x);
  }

  /** A request of nb bytes, rounded up to units of 8, and a header unit more: as long as rounding up does not overflow
      32 bits, the units fit, and none is wasted. sbrk is asked for the bytes of the units as an int32. */
  lemma UnitsOf(nb: nat)
    requires 0 < nb < 0xFFFF_FFF9
    ensures 8 * (Btou(nb) - 2) < nb <= 8 * (Btou(nb) - 1)
    ensures Asked(Btou(nb)) == if 8 * Btou(nb) < 0x8000_0000 then 8 * Btou(nb) else 8 * Btou(nb) - 0x1_0000_0000
  {
  }
}
