/** The heap of msdos/alloc.c on values. Addresses count ABLKSIZE units relative to Base, so they
    may be negative; a chunk is a header unit and its payload. */
module HeapSpec {
  import opened Common

  const BASE: int := 0

  datatype Chunk = Chunk(at: int, size: nat)

  datatype Header = Header(ptr: int, size: nat)

  predicate Apart(c: Chunk, d: Chunk) {
    c.at + c.size <= d.at || d.at + d.size <= c.at
  }

  /** In address order, none empty, none touching the next. */
  ghost predicate Ordered(fl: seq<Chunk>) {
    && (forall i :: 0 <= i < |fl| ==> fl[i].size > 0)
    && (forall i, j :: 0 <= i < j < |fl| ==> fl[i].at + fl[i].size < fl[j].at)
  }

  function Sum(fl: seq<Chunk>): nat {
    if fl == [] then 0 else fl[0].size + Sum(fl[1..])
  }

  lemma {:induction false} SumAppend(a: seq<Chunk>, b: seq<Chunk>)
    ensures Sum(a + b) == Sum(a) + Sum(b)
    decreases |a|
  {
    if a == [] {
      assert a + b == b;
    } else {
      assert (a + b)[1..] == a[1..] + b;
      SumAppend(a[1..], b);
    }
  }

  lemma SumOne(c: Chunk)
    ensures Sum([c]) == c.size
  {
    assert [c][1..] == [];
  }

  /** How many chunks lie below address x. */
  function Below(fl: seq<Chunk>, x: int): (c: nat)
    ensures c <= |fl|
  {
    if fl == [] || fl[0].at >= x then 0 else 1 + Below(fl[1..], x)
  }

  lemma {:induction false} BelowSplits(fl: seq<Chunk>, x: int)
    requires Ordered(fl)
    ensures forall i :: 0 <= i < Below(fl, x) ==> fl[i].at < x
    ensures forall i :: Below(fl, x) <= i < |fl| ==> fl[i].at >= x
    decreases |fl|
  {
    if fl != [] && fl[0].at < x {
      BelowSplits(fl[1..], x);
      assert forall i :: 0 < i < |fl| ==> fl[i] == fl[1..][i - 1];
    }
  }

  /** Put p on the free list, merged with the neighbours it touches. */
  function Insert(fl: seq<Chunk>, p: Chunk): seq<Chunk> {
    Merge(fl, Below(fl, p.at), p)
  }

  predicate TouchesNext(fl: seq<Chunk>, c: nat, p: Chunk) {
    c < |fl| && p.at + p.size == fl[c].at
  }

  predicate TouchesPrevious(fl: seq<Chunk>, c: nat, p: Chunk) {
    0 < c <= |fl| && fl[c - 1].at + fl[c - 1].size == p.at
  }

  function Left(fl: seq<Chunk>, c: nat, p: Chunk): seq<Chunk>
    requires c <= |fl|
  {
    if TouchesPrevious(fl, c, p) then fl[..c - 1] else fl[..c]
  }

  function Right(fl: seq<Chunk>, c: nat, p: Chunk): seq<Chunk>
    requires c <= |fl|
  {
    if TouchesNext(fl, c, p) then fl[c + 1..] else fl[c..]
  }

  function Middle(fl: seq<Chunk>, c: nat, p: Chunk): Chunk
    requires c <= |fl|
  {
    var size := if TouchesNext(fl, c, p) then p.size + fl[c].size else p.size;
    if TouchesPrevious(fl, c, p) then Chunk(fl[c - 1].at, fl[c - 1].size + size) else Chunk(p.at, size)
  }

  function Merge(fl: seq<Chunk>, c: nat, p: Chunk): seq<Chunk>
    requires c <= |fl|
  {
    Left(fl, c, p) + [Middle(fl, c, p)] + Right(fl, c, p)
  }

  /** p may go between the c chunks below it and the others. */
  ghost predicate Fits(fl: seq<Chunk>, c: nat, p: Chunk) {
    && Ordered(fl) && c <= |fl| && p.size > 0
    && (c > 0 ==> fl[c - 1].at + fl[c - 1].size <= p.at)
    && (c < |fl| ==> p.at + p.size <= fl[c].at)
  }

  lemma InsertFits(fl: seq<Chunk>, p: Chunk)
    requires Ordered(fl) && p.size > 0 && forall i :: 0 <= i < |fl| ==> Apart(p, fl[i])
    ensures Fits(fl, Below(fl, p.at), p)
  {
    BelowSplits(fl, p.at);
  }

  lemma OrderedJoin(l: seq<Chunk>, m: Chunk, r: seq<Chunk>)
    requires Ordered(l) && Ordered(r) && m.size > 0
    requires l != [] ==> l[|l| - 1].at + l[|l| - 1].size < m.at
    requires r != [] ==> m.at + m.size < r[0].at
    ensures Ordered(l + [m] + r)
  {
    var s := l + [m] + r;
    forall i, j | 0 <= i < j < |s|
      ensures s[i].at + s[i].size < s[j].at
    {
      BeforeMiddle(l, m, i);
      AfterMiddle(m, r, j - |l| - 1);
    }
  }

  lemma BeforeMiddle(l: seq<Chunk>, m: Chunk, i: int)
    requires Ordered(l) && (l != [] ==> l[|l| - 1].at + l[|l| - 1].size < m.at)
    ensures 0 <= i < |l| ==> l[i].at + l[i].size < m.at
  {
  }

  lemma AfterMiddle(m: Chunk, r: seq<Chunk>, j: int)
    requires Ordered(r) && m.size > 0 && (r != [] ==> m.at + m.size < r[0].at)
    ensures 0 <= j < |r| ==> m.at + m.size < r[j].at
  {
  }

  lemma OrderedPart(fl: seq<Chunk>, a: nat, b: nat)
    requires Ordered(fl) && a <= b <= |fl|
    ensures Ordered(fl[a..b])
  {
  }

  lemma LeftOfMiddle(fl: seq<Chunk>, c: nat, p: Chunk)
    requires Fits(fl, c, p)
    ensures var l, m := Left(fl, c, p), Middle(fl, c, p);
            Ordered(l) && m.size > 0 && (l != [] ==> l[|l| - 1].at + l[|l| - 1].size < m.at)
  {
    OrderedPart(fl, 0, if TouchesPrevious(fl, c, p) then c - 1 else c);
  }

  lemma RightOfMiddle(fl: seq<Chunk>, c: nat, p: Chunk)
    requires Fits(fl, c, p)
    ensures var r, m := Right(fl, c, p), Middle(fl, c, p);
            Ordered(r) && (r != [] ==> m.at + m.size < r[0].at)
  {
    OrderedPart(fl, if TouchesNext(fl, c, p) then c + 1 else c, |fl|);
  }

  lemma MergeKeepsOrder(fl: seq<Chunk>, c: nat, p: Chunk)
    requires Fits(fl, c, p)
    ensures Ordered(Merge(fl, c, p))
  {
    hide Ordered, Left, Middle, Right;
    LeftOfMiddle(fl, c, p);
    RightOfMiddle(fl, c, p);
    OrderedJoin(Left(fl, c, p), Middle(fl, c, p), Right(fl, c, p));
  }

  lemma MergeSum(fl: seq<Chunk>, c: nat, p: Chunk)
    requires c <= |fl|
    ensures Sum(Merge(fl, c, p)) == Sum(fl) + p.size
  {
    hide Sum, Left, Right;
    LeftSum(fl, c, p);
    RightSum(fl, c, p);
    assert fl == fl[..c] + fl[c..];
    SumAppend(fl[..c], fl[c..]);
    SumThree(Left(fl, c, p), Middle(fl, c, p), Right(fl, c, p));
  }

  lemma LeftSum(fl: seq<Chunk>, c: nat, p: Chunk)
    requires c <= |fl|
    ensures Sum(fl[..c]) == Sum(Left(fl, c, p)) + if TouchesPrevious(fl, c, p) then fl[c - 1].size else 0
  {
    if TouchesPrevious(fl, c, p) {
      assert fl[..c] == fl[..c - 1] + [fl[c - 1]];
      SumAppend(fl[..c - 1], [fl[c - 1]]);
      SumOne(fl[c - 1]);
    }
  }

  lemma RightSum(fl: seq<Chunk>, c: nat, p: Chunk)
    requires c <= |fl|
    ensures Sum(fl[c..]) == Sum(Right(fl, c, p)) + if TouchesNext(fl, c, p) then fl[c].size else 0
  {
    if TouchesNext(fl, c, p) {
      assert fl[c..] == [fl[c]] + fl[c + 1..];
      SumAppend([fl[c]], fl[c + 1..]);
      SumOne(fl[c]);
    }
  }

  /** What is apart from the list and from p is apart from the merged list. */
  lemma MergeApart(fl: seq<Chunk>, c: nat, p: Chunk, d: Chunk)
    requires c <= |fl| && d.size > 0 && Apart(d, p) && forall i :: 0 <= i < |fl| ==> Apart(d, fl[i])
    ensures forall i :: 0 <= i < |Merge(fl, c, p)| ==> Apart(d, Merge(fl, c, p)[i])
  {
  }

  lemma MergeKeepsOthers(fl: seq<Chunk>, c: nat, p: Chunk, b: Chunk)
    requires c <= |fl| && b in fl
    requires TouchesNext(fl, c, p) ==> fl[c] != b
    requires TouchesPrevious(fl, c, p) ==> fl[c - 1] != b
    ensures b in Merge(fl, c, p)
  {
  }

  // ----- taking a block -----

  /** A chunk of nu units, or one more, is taken whole; from a larger one the end is carved off. */
  function Block(c: Chunk, nu: nat): Chunk
    requires nu <= c.size
  {
    if c.size <= nu + 1 then c else Chunk(c.at + c.size - nu, nu)
  }

  function Take(fl: seq<Chunk>, i: nat, nu: nat): seq<Chunk>
    requires i < |fl| && nu <= fl[i].size
  {
    if fl[i].size <= nu + 1 then fl[..i] + fl[i + 1..]
    else fl[..i] + [Chunk(fl[i].at, fl[i].size - nu)] + fl[i + 1..]
  }

  lemma TakeKeepsOrder(fl: seq<Chunk>, i: nat, nu: nat)
    requires Ordered(fl) && i < |fl| && 0 < nu <= fl[i].size
    ensures Ordered(Take(fl, i, nu))
  {
    if fl[i].size > nu + 1 {
      OrderedJoin(fl[..i], Chunk(fl[i].at, fl[i].size - nu), fl[i + 1..]);
    }
  }

  lemma ApartFromOthers(fl: seq<Chunk>, i: nat, nu: nat, o: nat)
    requires Ordered(fl) && i < |fl| && o < |fl| && o != i && 0 < nu <= fl[i].size
    ensures Apart(Block(fl[i], nu), fl[o])
  {
  }

  lemma TakeApartAt(fl: seq<Chunk>, i: nat, nu: nat, j: nat)
    requires Ordered(fl) && i < |fl| && 0 < nu <= fl[i].size && j < |Take(fl, i, nu)|
    ensures Apart(Block(fl[i], nu), Take(fl, i, nu)[j])
  {
    var o := if fl[i].size <= nu + 1 && j >= i then j + 1 else j;
    if o != i {
      assert Take(fl, i, nu)[j] == fl[o];
      ApartFromOthers(fl, i, nu, o);
    }
  }

  lemma TakeApart(fl: seq<Chunk>, i: nat, nu: nat)
    requires Ordered(fl) && i < |fl| && 0 < nu <= fl[i].size
    ensures forall j :: 0 <= j < |Take(fl, i, nu)| ==> Apart(Block(fl[i], nu), Take(fl, i, nu)[j])
  {
    hide *;
    forall j | 0 <= j < |Take(fl, i, nu)|
      ensures Apart(Block(fl[i], nu), Take(fl, i, nu)[j])
    {
      TakeApartAt(fl, i, nu, j);
    }
  }

  lemma SumThree(a: seq<Chunk>, m: Chunk, b: seq<Chunk>)
    ensures Sum(a + [m] + b) == Sum(a) + m.size + Sum(b)
  {
    SumAppend(a + [m], b);
    SumAppend(a, [m]);
    SumOne(m);
  }

  lemma TakeSum(fl: seq<Chunk>, i: nat, nu: nat)
    requires i < |fl| && nu <= fl[i].size
    ensures Sum(Take(fl, i, nu)) + Block(fl[i], nu).size == Sum(fl)
  {
    hide Sum;
    var a, b := fl[..i], fl[i + 1..];
    assert fl == a + [fl[i]] + b;
    SumThree(a, fl[i], b);
    if fl[i].size <= nu + 1 {
      SumAppend(a, b);
    } else {
      SumThree(a, Chunk(fl[i].at, fl[i].size - nu), b);
    }
  }

  // ----- the search -----

  function Succ(i: nat, n: nat): nat {
    if i + 1 >= n then 0 else i + 1
  }

  /** The first of the next steps chunks, from index i on and round the circle, that has nu units. */
  function Fit(fl: seq<Chunk>, nu: nat, i: nat, steps: nat): (r: Option<nat>)
    requires i < |fl|
    ensures r.Some? ==> r.value < |fl| && fl[r.value].size >= nu
    decreases steps
  {
    if steps == 0 then None
    else if fl[i].size >= nu then Some(i)
    else Fit(fl, nu, Succ(i, |fl|), steps - 1)
  }

  /** The index that is k places after i. */
  function Around(i: nat, k: nat, n: nat): nat
    requires i < n && k < n
  {
    if i + k >= n then i + k - n else i + k
  }

  /** The k chunks from index i on are too small. */
  predicate TooSmall(fl: seq<Chunk>, nu: nat, i: nat, k: nat)
    requires i < |fl| && k <= |fl|
  {
    forall l :: 0 <= l < k ==> fl[Around(i, l, |fl|)].size < nu
  }

  lemma OneMoreTooSmall(fl: seq<Chunk>, nu: nat, i: nat, k: nat)
    requires i < |fl| && k < |fl| && fl[i].size < nu && TooSmall(fl, nu, Succ(i, |fl|), k)
    ensures TooSmall(fl, nu, i, k + 1)
    ensures k + 1 < |fl| ==> Around(Succ(i, |fl|), k, |fl|) == Around(i, k + 1, |fl|)
  {
    var n := |fl|;
    forall l | 0 <= l < k + 1
      ensures fl[Around(i, l, n)].size < nu
    {
      if l > 0 {
        assert Around(Succ(i, n), l - 1, n) == Around(i, l, n);
      }
    }
  }

  /** Fit misses nothing, and takes the first. */
  lemma {:induction false} FitIsFirst(fl: seq<Chunk>, nu: nat, i: nat, steps: nat)
    requires i < |fl| && steps <= |fl|
    ensures match Fit(fl, nu, i, steps)
            case None => TooSmall(fl, nu, i, steps)
            case Some(j) => exists k :: 0 <= k < steps && j == Around(i, k, |fl|) && TooSmall(fl, nu, i, k)
    decreases steps
  {
    if steps != 0 && fl[i].size >= nu {
      assert i == Around(i, 0, |fl|) && TooSmall(fl, nu, i, 0);
    } else if steps != 0 {
      var i1 := Succ(i, |fl|);
      FitIsFirst(fl, nu, i1, steps - 1);
      match Fit(fl, nu, i, steps)
      case None => OneMoreTooSmall(fl, nu, i, steps - 1);
      case Some(j) =>
        var k :| 0 <= k < steps - 1 && j == Around(i1, k, |fl|) && TooSmall(fl, nu, i1, k);
        OneMoreTooSmall(fl, nu, i, k);
        assert j == Around(i, k + 1, |fl|);
    }
  }

  function BaseIndex(fl: seq<Chunk>): nat {
    Below(fl, BASE)
  }

  lemma BaseAt(fl: seq<Chunk>)
    requires Ordered(fl) && Chunk(BASE, 1) in fl
    ensures BaseIndex(fl) < |fl| && fl[BaseIndex(fl)] == Chunk(BASE, 1)
  {
    BelowSplits(fl, BASE);
    var b :| 0 <= b < |fl| && fl[b] == Chunk(BASE, 1);
    assert BaseIndex(fl) <= b;
    assert fl[BaseIndex(fl)].at >= BASE;
  }

  /** First fit, starting behind Base. */
  function FirstFit(fl: seq<Chunk>, nu: nat): (r: Option<nat>)
    requires fl != []
    ensures r.Some? ==> r.value < |fl| && fl[r.value].size >= nu
  {
    Fit(fl, nu, Succ(BaseIndex(fl), |fl|), |fl|)
  }

  /** Any chunk that is large enough makes the search succeed. */
  lemma FirstFitFinds(fl: seq<Chunk>, nu: nat, j: nat)
    requires j < |fl| && fl[j].size >= nu
    ensures FirstFit(fl, nu).Some?
  {
    var n := |fl|;
    var i := Succ(Below(fl, BASE), n);
    FitIsFirst(fl, nu, i, n);
    var k := if j >= i then j - i else j - i + n;
    assert Around(i, k, n) == j;
  }

  // ----- the heap -----

  /** The free list, Base included, and the blocks handed out. */
  datatype State = State(free: seq<Chunk>, live: seq<Chunk>)

  predicate OffBase(c: Chunk) {
    c.at + c.size != BASE && c.at != BASE + 1
  }

  /** The blocks in use overlap neither each other nor the free list, and none touches Base. */
  ghost predicate Blocks(live: seq<Chunk>, free: seq<Chunk>) {
    && (forall k :: 0 <= k < |live| ==> live[k].size > 0 && OffBase(live[k]))
    && (forall k, l :: 0 <= k < l < |live| ==> Apart(live[k], live[l]))
    && (forall k, j :: 0 <= k < |live| && 0 <= j < |free| ==> Apart(live[k], free[j]))
  }

  ghost predicate Inv(s: State) {
    Ordered(s.free) && Chunk(BASE, 1) in s.free && Blocks(s.live, s.free)
  }

  function Without(live: seq<Chunk>, k: nat): seq<Chunk>
    requires k < |live|
  {
    live[..k] + live[k + 1..]
  }

  /** Free list entry i has at least nu units: hand out a block of it. */
  function Granted(s: State, i: nat, nu: nat): State
    requires i < |s.free| && nu <= s.free[i].size
  {
    State(Take(s.free, i, nu), s.live + [Block(s.free[i], nu)])
  }

  /** Block k goes back. */
  function Released(s: State, k: nat): State
    requires k < |s.live|
  {
    State(Insert(s.free, s.live[k]), Without(s.live, k))
  }

  /** New units from the system, treated as a block in use until they are freed. */
  function Adopted(s: State, c: Chunk): State {
    s.(live := s.live + [c])
  }

  /** All units that are or were obtained from the system. */
  function Units(s: State): int {
    Sum(s.free) - 1 + Sum(s.live)
  }

  lemma TakeIsPart(fl: seq<Chunk>, i: nat, nu: nat, d: Chunk)
    requires i < |fl| && 0 < nu <= fl[i].size && forall j :: 0 <= j < |fl| ==> Apart(d, fl[j])
    ensures Apart(d, Block(fl[i], nu))
    ensures forall j :: 0 <= j < |Take(fl, i, nu)| ==> Apart(d, Take(fl, i, nu)[j])
  {
  }

  lemma TakeKeepsBase(fl: seq<Chunk>, i: nat, nu: nat)
    requires Ordered(fl) && i < |fl| && 1 < nu <= fl[i].size && Chunk(BASE, 1) in fl
    ensures Chunk(BASE, 1) in Take(fl, i, nu) && OffBase(Block(fl[i], nu))
  {
    var b :| 0 <= b < |fl| && fl[b] == Chunk(BASE, 1);
    if b < i {
      assert Take(fl, i, nu)[b] == fl[b];
    } else {
      assert Take(fl, i, nu)[if fl[i].size <= nu + 1 then b - 1 else b] == fl[b];
    }
  }

  lemma MoreBlocks(live: seq<Chunk>, free: seq<Chunk>, c: Chunk)
    requires Blocks(live, free) && c.size > 0 && OffBase(c)
    requires forall k :: 0 <= k < |live| ==> Apart(live[k], c)
    requires forall j :: 0 <= j < |free| ==> Apart(c, free[j])
    ensures Blocks(live + [c], free)
  {
  }

  lemma GrantedKeepsInv(s: State, i: nat, nu: nat)
    requires Inv(s) && i < |s.free| && 1 < nu <= s.free[i].size
    ensures Inv(Granted(s, i, nu)) && Units(Granted(s, i, nu)) == Units(s)
  {
    var fl := Take(s.free, i, nu);
    forall k | 0 <= k < |s.live|
      ensures Apart(s.live[k], Block(s.free[i], nu))
      ensures forall j :: 0 <= j < |fl| ==> Apart(s.live[k], fl[j])
    {
      TakeIsPart(s.free, i, nu, s.live[k]);
    }
    TakeKeepsOrder(s.free, i, nu);
    TakeApart(s.free, i, nu);
    TakeKeepsBase(s.free, i, nu);
    TakeSum(s.free, i, nu);
    SumAppend(s.live, [Block(s.free[i], nu)]);
    SumOne(Block(s.free[i], nu));
    hide Take, Block, Ordered, Sum;
    MoreBlocks(s.live, fl, Block(s.free[i], nu));
  }

  lemma AdoptedKeepsInv(s: State, c: Chunk)
    requires Inv(s) && c.size > 0 && OffBase(c)
    requires forall k :: 0 <= k < |s.live| ==> Apart(s.live[k], c)
    requires forall j :: 0 <= j < |s.free| ==> Apart(c, s.free[j])
    ensures Inv(Adopted(s, c)) && Units(Adopted(s, c)) == Units(s) + c.size
  {
    SumAppend(s.live, [c]);
    SumOne(c);
    hide Sum, Ordered;
    MoreBlocks(s.live, s.free, c);
  }

  lemma FewerBlocks(live: seq<Chunk>, free: seq<Chunk>, k: nat)
    requires Blocks(live, free) && k < |live|
    ensures Blocks(Without(live, k), free)
    ensures forall l :: 0 <= l < |live| - 1 ==> Apart(Without(live, k)[l], live[k])
  {
    var rest := Without(live, k);
    forall l | 0 <= l < |rest|
      ensures rest[l] == live[if l < k then l else l + 1]
    {
    }
  }

  lemma WithoutSum(live: seq<Chunk>, k: nat)
    requires k < |live|
    ensures Sum(Without(live, k)) + live[k].size == Sum(live)
  {
    hide Sum;
    assert live == live[..k] + [live[k]] + live[k + 1..];
    SumThree(live[..k], live[k], live[k + 1..]);
    SumAppend(live[..k], live[k + 1..]);
  }

  lemma ReleasedKeepsInv(s: State, k: nat)
    requires Inv(s) && k < |s.live|
    ensures Inv(Released(s, k)) && Units(Released(s, k)) == Units(s)
    ensures Sum(Released(s, k).free) == Sum(s.free) + s.live[k].size
  {
    var p, fl := s.live[k], s.free;
    var c := Below(fl, p.at);
    var rest := Without(s.live, k);
    InsertFits(fl, p);
    MergeKeepsOrder(fl, c, p);
    MergeSum(fl, c, p);
    MergeKeepsOthers(fl, c, p, Chunk(BASE, 1));
    FewerBlocks(s.live, fl, k);
    WithoutSum(s.live, k);
    forall l | 0 <= l < |rest|
      ensures forall j :: 0 <= j < |Merge(fl, c, p)| ==> Apart(rest[l], Merge(fl, c, p)[j])
    {
      MergeApart(fl, c, p, rest[l]);
    }
  }
}
