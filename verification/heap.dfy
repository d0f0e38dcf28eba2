/** Block headers in memory: the circular free list, and what malloc and free write to it. */
module HeapMemory {
  import opened Common
  import opened HeapSpec

  function At(mem: map<int, Header>, a: int): Header {
    if a in mem then mem[a] else Header(a + 1, 0)
  }

  /** The headers of fl form a circle in the order of fl. */
  ghost predicate Linked(mem: map<int, Header>, fl: seq<Chunk>) {
    && fl != []
    && forall j {:trigger At(mem, fl[j].at)} :: 0 <= j < |fl| ==>
         fl[j].at in mem && At(mem, fl[j].at) == Header(fl[Succ(j, |fl|)].at, fl[j].size)
  }

  /** The header of a block in use points to itself. */
  ghost predicate Marked(mem: map<int, Header>, live: seq<Chunk>) {
    forall k {:trigger At(mem, live[k].at)} :: 0 <= k < |live| ==>
      live[k].at in mem && At(mem, live[k].at) == Header(live[k].at, live[k].size)
  }

  function Pred(c: nat, n: nat): (g: nat)
    requires n > 0
    ensures c <= n ==> g < n
  {
    if c == 0 then n - 1 else c - 1
  }

  // ----- free -----

  /** The header of p once joined to the front of what follows q. */
  function Joined(mem: map<int, Header>, p: int, q: int): Header {
    var next := At(mem, q).ptr;
    if p + At(mem, p).size == next then Header(At(mem, next).ptr, At(mem, p).size + At(mem, next).size)
    else Header(next, At(mem, p).size)
  }

  /** What free writes, inserting p behind q. */
  function FreeMem(mem: map<int, Header>, p: int, q: int): map<int, Header> {
    var hp, hq := Joined(mem, p, q), At(mem, q);
    mem[p := hp][q := if q + hq.size == p then Header(hp.ptr, hq.size + hp.size) else Header(p, hq.size)]
  }

  /** p can go behind q, the chunk before place c of the circle. */
  ghost predicate Insertable(mem: map<int, Header>, fl: seq<Chunk>, c: nat, p: Chunk, q: int) {
    && Linked(mem, fl) && Fits(fl, c, p) && Chunk(BASE, 1) in fl && OffBase(p)
    && At(mem, p.at).size == p.size && q == fl[Pred(c, |fl|)].at
    && forall j :: 0 <= j < |fl| ==> fl[j].at != p.at
  }

  lemma JoinedIs(mem: map<int, Header>, fl: seq<Chunk>, c: nat, p: Chunk, q: int)
    requires Insertable(mem, fl, c, p, q)
    ensures var n := |fl|;
            && (TouchesNext(fl, c, p) ==> n > 1)
            && Joined(mem, p.at, q)
            == if TouchesNext(fl, c, p) then Header(fl[Succ(c, n)].at, p.size + fl[c].size)
               else Header(fl[if c == n then 0 else c].at, p.size)
  {
    var n := |fl|;
    var g := Pred(c, n);
    assert At(mem, fl[g].at) == Header(fl[Succ(g, n)].at, fl[g].size);
    assert Succ(g, n) == if c == n then 0 else c;
    if c < n {
      assert At(mem, fl[c].at) == Header(fl[Succ(c, n)].at, fl[c].size);
    }
  }

  lemma FreeMemAt(mem: map<int, Header>, fl: seq<Chunk>, c: nat, p: Chunk, q: int, j: nat)
    requires Insertable(mem, fl, c, p, q) && j < |fl|
    ensures At(FreeMem(mem, p.at, q), fl[j].at)
         == if j != Pred(c, |fl|) then Header(fl[Succ(j, |fl|)].at, fl[j].size)
            else if TouchesPrevious(fl, c, p)
            then Header(Joined(mem, p.at, q).ptr, fl[j].size + Joined(mem, p.at, q).size)
            else Header(p.at, fl[j].size)
  {
    assert At(mem, fl[j].at) == Header(fl[Succ(j, |fl|)].at, fl[j].size);
  }

  lemma LeftIs(fl: seq<Chunk>, c: nat, p: Chunk, j: nat)
    requires c <= |fl| && j < |Left(fl, c, p)|
    ensures var r := Merge(fl, c, p);
            && j < c && r[j] == fl[j] && Succ(j, |r|) == j + 1
            && (j + 1 == c ==> !TouchesPrevious(fl, c, p))
            && r[j + 1].at == if j + 1 < c then fl[j + 1].at else p.at
  {
  }

  lemma LowerEntry(mem: map<int, Header>, fl: seq<Chunk>, c: nat, p: Chunk, q: int, j: nat)
    requires Insertable(mem, fl, c, p, q) && j < c && (j + 1 == c ==> !TouchesPrevious(fl, c, p))
    ensures j < |fl|
    ensures At(FreeMem(mem, p.at, q), fl[j].at) == Header(if j + 1 < c then fl[j + 1].at else p.at, fl[j].size)
  {
    FreeMemAt(mem, fl, c, p, q, j);
  }

  /** Entry j of the new circle, and the address after it. */
  lemma LeftEntry(mem: map<int, Header>, fl: seq<Chunk>, c: nat, p: Chunk, q: int, j: nat)
    requires Insertable(mem, fl, c, p, q) && j < |Left(fl, c, p)|
    ensures var r := Merge(fl, c, p);
            At(FreeMem(mem, p.at, q), r[j].at) == Header(r[Succ(j, |r|)].at, r[j].size) && r[j] == fl[j]
  {
    hide *;
    InsertableAt(mem, fl, c, p, q);
    LeftIs(fl, c, p, j);
    LowerEntry(mem, fl, c, p, q, j);
  }

  lemma RightIs(fl: seq<Chunk>, c: nat, p: Chunk, j: nat)
    requires c <= |fl| && |Left(fl, c, p)| < j < |Merge(fl, c, p)|
    ensures var r := Merge(fl, c, p);
            var i := |fl| - |r| + j;
            && c <= i < |fl| && r[j] == fl[i]
            && r[Succ(j, |r|)].at == if i + 1 < |fl| then fl[i + 1].at else if c == 0 then p.at else fl[0].at
  {
    var l, m, r := Left(fl, c, p), Middle(fl, c, p), Right(fl, c, p);
    var s := l + [m] + r;
    var i := |fl| - |s| + j;
    assert s[j] == r[j - |l| - 1] == fl[i];
    if i + 1 < |fl| {
      assert s[j + 1] == r[j - |l|] == fl[i + 1];
    } else {
      assert Succ(j, |s|) == 0;
      assert s[0] == if l == [] then m else fl[0];
    }
  }

  lemma HigherEntry(mem: map<int, Header>, fl: seq<Chunk>, c: nat, p: Chunk, q: int, i: nat)
    requires Insertable(mem, fl, c, p, q) && c <= i < |fl|
    ensures At(FreeMem(mem, p.at, q), fl[i].at)
         == Header(if i + 1 < |fl| then fl[i + 1].at else if c == 0 then p.at else fl[0].at, fl[i].size)
  {
    FreeMemAt(mem, fl, c, p, q, i);
  }

  lemma InsertableAt(mem: map<int, Header>, fl: seq<Chunk>, c: nat, p: Chunk, q: int)
    requires Insertable(mem, fl, c, p, q)
    ensures c <= |fl|
  {
  }

  lemma RightEntry(mem: map<int, Header>, fl: seq<Chunk>, c: nat, p: Chunk, q: int, j: nat)
    requires Insertable(mem, fl, c, p, q) && |Left(fl, c, p)| < j < |Merge(fl, c, p)|
    ensures var r := Merge(fl, c, p);
            At(FreeMem(mem, p.at, q), r[j].at) == Header(r[Succ(j, |r|)].at, r[j].size) && r[j] in fl
  {
    hide *;
    InsertableAt(mem, fl, c, p, q);
    RightIs(fl, c, p, j);
    HigherEntry(mem, fl, c, p, q, |fl| - |Merge(fl, c, p)| + j);
  }

  lemma MiddleEntry(mem: map<int, Header>, fl: seq<Chunk>, c: nat, p: Chunk, q: int)
    requires Insertable(mem, fl, c, p, q)
    ensures var r := Merge(fl, c, p);
            var j := |Left(fl, c, p)|;
            At(FreeMem(mem, p.at, q), r[j].at) == Header(r[Succ(j, |r|)].at, r[j].size)
            && r[j].at in FreeMem(mem, p.at, q)
  {
    var r := Merge(fl, c, p);
    JoinedIs(mem, fl, c, p, q);
    FreeMemAt(mem, fl, c, p, q, Pred(c, |fl|));
    assert Left(fl, c, p) != [] ==> r[0] == fl[0];
    assert Right(fl, c, p) != [] ==> r[|Left(fl, c, p)| + 1] == Right(fl, c, p)[0];
  }

  /** free puts p into the circle where it belongs, merged with its neighbours. */
  lemma FreeMemLinks(mem: map<int, Header>, fl: seq<Chunk>, c: nat, p: Chunk, q: int)
    requires Insertable(mem, fl, c, p, q)
    ensures Linked(FreeMem(mem, p.at, q), Merge(fl, c, p))
  {
    var r, m := Merge(fl, c, p), FreeMem(mem, p.at, q);
    assert forall j :: 0 <= j < |fl| ==> fl[j].at in mem by {
      forall j | 0 <= j < |fl|
        ensures fl[j].at in mem
      {
        assert At(mem, fl[j].at) == At(mem, fl[j].at);
      }
    }
    hide Left, Right, Middle, Insertable;
    forall j {:trigger r[j]} | 0 <= j < |r|
      ensures r[j].at in m && At(m, r[j].at) == Header(r[Succ(j, |r|)].at, r[j].size)
    {
      if j < |Left(fl, c, p)| {
        LeftEntry(mem, fl, c, p, q, j);
      } else if j > |Left(fl, c, p)| {
        RightEntry(mem, fl, c, p, q, j);
      } else {
        MiddleEntry(mem, fl, c, p, q);
      }
    }
  }

  // ----- malloc -----

  /** What malloc writes when it takes all of entry i, or its end. */
  function TakeMem(mem: map<int, Header>, p: int, q: int, nu: nat): map<int, Header> {
    var h := At(mem, p);
    if h.size <= nu + 1 then mem[q := At(mem, q).(ptr := h.ptr)][p := h.(ptr := p)]
    else
      var rest := h.size - nu;
      mem[p := h.(size := rest)][p + rest := Header(p + rest, nu)]
  }

  lemma Distinct(fl: seq<Chunk>)
    requires Ordered(fl)
    ensures forall i, j :: 0 <= i < |fl| && 0 <= j < |fl| && i != j ==> fl[i].at != fl[j].at
  {
  }

  lemma TakenEntry(mem: map<int, Header>, fl: seq<Chunk>, i: nat, nu: nat, j: nat)
    requires Linked(mem, fl) && Ordered(fl) && i < |fl| && j < |fl| && j != i && 1 < nu <= fl[i].size && |fl| > 1
    ensures var m := TakeMem(mem, fl[i].at, fl[Pred(i, |fl|)].at, nu);
            && fl[j].at in m
            && At(m, fl[j].at).size == fl[j].size
            && At(m, fl[j].at).ptr
            == if fl[i].size <= nu + 1 && j == Pred(i, |fl|) then fl[Succ(i, |fl|)].at else fl[Succ(j, |fl|)].at
  {
    assert At(mem, fl[i].at) == Header(fl[Succ(i, |fl|)].at, fl[i].size);
    assert At(mem, fl[j].at) == Header(fl[Succ(j, |fl|)].at, fl[j].size);
    Distinct(fl);
    assert fl[i].size > nu + 1 ==> fl[j].at != fl[i].at + (fl[i].size - nu);
  }

  lemma TakeMemLinks(mem: map<int, Header>, fl: seq<Chunk>, i: nat, nu: nat)
    requires Linked(mem, fl) && Ordered(fl) && i < |fl| && 1 < nu <= fl[i].size && |fl| > 1
    ensures Linked(TakeMem(mem, fl[i].at, fl[Pred(i, |fl|)].at, nu), Take(fl, i, nu))
  {
    var n, r, m := |fl|, Take(fl, i, nu), TakeMem(mem, fl[i].at, fl[Pred(i, |fl|)].at, nu);
    assert At(mem, fl[i].at) == Header(fl[Succ(i, n)].at, fl[i].size);
    forall j {:trigger r[j]} | 0 <= j < |r|
      ensures r[j].at in m && At(m, r[j].at) == Header(r[Succ(j, |r|)].at, r[j].size)
    {
      TakeEntry(mem, fl, i, nu, j);
    }
  }

  /** The index in fl of what is entry j after taking from entry i. */
  function Origin(fl: seq<Chunk>, i: nat, nu: nat, j: nat): nat
    requires i < |fl|
  {
    if fl[i].size <= nu + 1 && j >= i then j + 1 else j
  }

  lemma TakeIs(fl: seq<Chunk>, i: nat, nu: nat, j: nat)
    requires i < |fl| && nu <= fl[i].size && j < |Take(fl, i, nu)|
    ensures var r, o := Take(fl, i, nu), Origin(fl, i, nu, j);
            && o < |fl| && r[j].at == fl[o].at
            && r[j].size == (if o == i then fl[i].size - nu else fl[o].size)
            && (o == i ==> fl[i].size > nu + 1)
  {
  }

  lemma TakeSucc(fl: seq<Chunk>, i: nat, nu: nat, j: nat)
    requires i < |fl| && nu <= fl[i].size && j < |Take(fl, i, nu)|
    ensures var r, n, o := Take(fl, i, nu), |fl|, Origin(fl, i, nu, j);
            r[Succ(j, |r|)].at
            == fl[if fl[i].size <= nu + 1 && o == Pred(i, n) then Succ(i, n) else Succ(o, n)].at
  {
    TakeIs(fl, i, nu, Succ(j, |Take(fl, i, nu)|));
  }

  lemma CarvedEntry(mem: map<int, Header>, fl: seq<Chunk>, i: nat, nu: nat)
    requires Linked(mem, fl) && i < |fl| && 1 < nu && nu + 1 < fl[i].size
    ensures var m := TakeMem(mem, fl[i].at, fl[Pred(i, |fl|)].at, nu);
            fl[i].at in m && At(m, fl[i].at) == Header(fl[Succ(i, |fl|)].at, fl[i].size - nu)
  {
    assert At(mem, fl[i].at) == Header(fl[Succ(i, |fl|)].at, fl[i].size);
  }

  lemma TakeEntry(mem: map<int, Header>, fl: seq<Chunk>, i: nat, nu: nat, j: nat)
    requires Linked(mem, fl) && Ordered(fl) && i < |fl| && 1 < nu <= fl[i].size && |fl| > 1
    requires j < |Take(fl, i, nu)|
    ensures var r, m := Take(fl, i, nu), TakeMem(mem, fl[i].at, fl[Pred(i, |fl|)].at, nu);
            r[j].at in m && At(m, r[j].at) == Header(r[Succ(j, |r|)].at, r[j].size)
  {
    hide *;
    TakeIs(fl, i, nu, j);
    TakeSucc(fl, i, nu, j);
    if Origin(fl, i, nu, j) != i {
      TakenEntry(mem, fl, i, nu, Origin(fl, i, nu, j));
    } else {
      CarvedEntry(mem, fl, i, nu);
    }
  }
}

/** malloc, free and morecore. */
module Heap {
  import opened Common
  import opened HeapSpec
  import opened HeapMemory
  import opened Machine

  /** BTOU in 32-bit unsigned arithmetic: payload units plus one for the header. */
  function Btou(nb: nat): nat {
    ((nb + 7) % 0x1_0000_0000) / 8 + 1
  }

  /** What sbrk is asked for: the size in bytes, an unsigned, handed over as an int. */
  function Asked(nu: nat): int {
    I32(nu * 8 % 0x1_0000_0000)
  }

  const LARGEST: nat := 0x7FFF_FFF0

  /** The payload of Btou(nb) units holds nb bytes, and sbrk is asked for as many bytes as these units
      have, exactly up to LARGEST. */
  lemma PayloadFits(nb: nat)
    requires 0 < nb < 0x1_0000_0000
    ensures 8 * (Btou(nb) - 1) >= nb && Asked(Btou(nb)) == 8 * Btou(nb) <==> nb <= LARGEST
    ensures nb + 7 < 0x1_0000_0000 ==> Btou(nb) > 1 && 8 * (Btou(nb) - 1) >= nb
  {
  }

  /** Above that sbrk is asked to take memory back, or for none, or the units themselves are too few. */
  lemma TooLarge(nb: nat)
    requires LARGEST < nb < 0x1_0000_0000
    ensures nb <= 0xFFFF_FFF0 ==> Asked(Btou(nb)) < 0
    ensures 0xFFFF_FFF0 < nb <= 0xFFFF_FFF8 ==> Btou(nb) == 0x2000_0000 && Asked(Btou(nb)) == 0
    ensures 0xFFFF_FFF8 < nb ==> Btou(nb) == 1
  {
  }

  predicate InUse(live: seq<Chunk>, a: int) {
    exists k :: 0 <= k < |live| && live[k].at == a
  }

  /** The place of the block at address a among those in use. */
  function IndexOf(live: seq<Chunk>, a: int): (k: nat)
    ensures k <= |live|
    ensures k < |live| ==> live[k].at == a
    ensures InUse(live, a) <==> k < |live|
  {
    if live == [] then 0
    else if live[0].at == a then 0
    else
      assert forall k :: 0 < k < |live| ==> live[k] == live[1..][k - 1];
      1 + IndexOf(live[1..], a)
  }

  /** The effect of free on a pointer to the payload behind header a. */
  function Freed(s: State, a: int): State {
    var k := IndexOf(s.live, a);
    if k < |s.live| then Released(s, k) else s
  }

  datatype Outcome = Outcome(s: State, block: Option<Chunk>, morecores: nat)

  function Refilled(s: State, c: Chunk): State {
    Released(Adopted(s, c), |s.live|)
  }

  function Searched(s: State, nu: nat, calls: nat): Outcome
    requires s.free != []
  {
    match FirstFit(s.free, nu)
    case None => Outcome(s, None, calls)
    case Some(i) => Outcome(Granted(s, i, nu), Some(Block(s.free[i], nu)), calls)
  }

  /** The effect of malloc for nu units; core is what sbrk answers, irq whether it may be asked. */
  function Malloc(s: State, nu: nat, irq: bool, core: Option<int>): Outcome
    requires s.free != []
  {
    if FirstFit(s.free, nu).Some? then Searched(s, nu, 0)
    else if !irq then Outcome(s, None, 0)
    else if core == None then Outcome(s, None, 1)
    else Searched(Refilled(s, Chunk(core.value, nu)), nu, 1)
  }

  /** sbrk has given all nu units at address a, the system having been asked for as many bytes. */
  predicate Given(s: State, a: int, nu: nat) {
    Asked(nu) == 8 * nu && Fresh(s, Chunk(a, nu))
  }

  /** Units the system may give: new ones, and none next to Base. */
  predicate Fresh(s: State, c: Chunk) {
    && OffBase(c)
    && (forall k :: 0 <= k < |s.live| ==> Apart(s.live[k], c))
    && (forall j :: 0 <= j < |s.free| ==> Apart(c, s.free[j]))
  }

  lemma RefilledKeepsInv(s: State, c: Chunk)
    requires Inv(s) && c.size > 0 && Fresh(s, c)
    ensures Inv(Refilled(s, c)) && Units(Refilled(s, c)) == Units(s) + c.size
    ensures Refilled(s, c) == State(Insert(s.free, c), s.live)
  {
    AdoptedKeepsInv(s, c);
    ReleasedKeepsInv(Adopted(s, c), |s.live|);
    assert (s.live + [c])[..|s.live|] == s.live;
  }

  /** After a refill one more traversal finds a block. */
  lemma RefillFits(s: State, nu: nat, c: Chunk)
    requires c.size >= nu
    ensures FirstFit(Insert(s.free, c), nu).Some?
  {
    var n := Below(s.free, c.at);
    assert Merge(s.free, n, c)[|Left(s.free, n, c)|] == Middle(s.free, n, c);
    FirstFitFinds(Merge(s.free, n, c), nu, |Left(s.free, n, c)|);
  }

  /** malloc asks for more at most once; it keeps the heap in order and loses no unit; it fails only
      if no free chunk is large enough and none can be had; and what it hands out is a new block of
      at least nu units. */
  lemma MallocIsRight(s: State, nu: nat, irq: bool, core: Option<int>)
    requires Inv(s) && nu > 1 && (core.Some? ==> Given(s, core.value, nu))
    ensures s.free != []
    ensures var o := Malloc(s, nu, irq, core);
            && Inv(o.s) && o.morecores <= 1
            && Units(o.s) == Units(s) + (if o.morecores == 1 && core.Some? then nu else 0)
            && (o.block == None <==> FirstFit(s.free, nu) == None && (!irq || core == None))
            && (o.block.Some? ==> o.block.value.size >= nu && o.s.live == s.live + [o.block.value])
            && (o.block == None ==> o.s == s)
  {
    if FirstFit(s.free, nu).Some? {
      GrantedKeepsInv(s, FirstFit(s.free, nu).value, nu);
    } else if irq && core.Some? {
      var c := Chunk(core.value, nu);
      RefilledKeepsInv(s, c);
      RefillFits(s, nu, c);
      var s1 := Refilled(s, c);
      GrantedKeepsInv(s1, FirstFit(s1.free, nu).value, nu);
    }
  }

  /** A request for which sbrk is asked for nothing: if no free chunk is large enough, malloc hands out
      2^29 units all the same, wherever sbrk says that memory ends. */
  lemma BlockWithoutMemory(s: State, nb: nat, end: int)
    requires 0xFFFF_FFF0 < nb <= 0xFFFF_FFF8 && s.free != [] && FirstFit(s.free, Btou(nb)) == None
    ensures Asked(Btou(nb)) == 0
    ensures var o := Malloc(s, Btou(nb), true, Some(end)); o.block.Some? && o.block.value.size >= 0x2000_0000
  {
    TooLarge(nb);
    var c := Chunk(end, Btou(nb));
    RefillFits(s, Btou(nb), c);
    assert Refilled(s, c).free == Insert(s.free, c);
  }

  /** The largest requests get a block with room for eight bytes at most, on any heap. */
  lemma BlockTooSmall(s: State, nb: nat, irq: bool, core: Option<int>)
    requires Inv(s) && 0xFFFF_FFF8 < nb < 0x1_0000_0000
    ensures s.free != []
    ensures var o := Malloc(s, Btou(nb), irq, core); o.block.Some? && 8 * (o.block.value.size - 1) <= 8
  {
    TooLarge(nb);
    var b :| 0 <= b < |s.free| && s.free[b] == Chunk(BASE, 1);
    FirstFitFinds(s.free, 1, b);
  }

  // ----- free's search -----

  /** The loop of free stops at entry i: x lies between it and its successor, or i is the highest and
      x lies beyond either end. */
  predicate Stops(fl: seq<Chunk>, i: nat, x: int)
    requires i < |fl|
  {
    var q, next := fl[i].at, fl[Succ(i, |fl|)].at;
    (x > q && x < next) || (q >= next && (x > q || x < next))
  }

  /** There is exactly one place where the loop can stop. */
  lemma OneGap(fl: seq<Chunk>, i: nat, x: int)
    requires Ordered(fl) && i < |fl| && forall j :: 0 <= j < |fl| ==> fl[j].at != x
    ensures Stops(fl, i, x) <==> i == Pred(Below(fl, x), |fl|)
  {
    BelowSplits(fl, x);
  }

  function Distance(i: nat, g: nat, n: nat): nat
    requires i < n && g < n
  {
    if i <= g then g - i else g - i + n
  }

  lemma CanInsert(mem: map<int, Header>, s: State, k: nat, q: int)
    requires Inv(s) && Linked(mem, s.free) && Marked(mem, s.live) && k < |s.live|
    requires q == s.free[Pred(Below(s.free, s.live[k].at), |s.free|)].at
    ensures Insertable(mem, s.free, Below(s.free, s.live[k].at), s.live[k], q)
    ensures q != s.live[k].at && At(mem, s.live[k].at) == Header(s.live[k].at, s.live[k].size)
  {
    InsertFits(s.free, s.live[k]);
    ApartIsElsewhere(s, k);
    assert At(mem, s.live[k].at) == Header(s.live[k].at, s.live[k].size);
  }

  lemma MarkFewer(mem: map<int, Header>, m: map<int, Header>, live: seq<Chunk>, k: nat)
    requires Marked(mem, live) && k < |live|
    requires forall l :: 0 <= l < |live| && l != k ==> live[l].at in m && At(m, live[l].at) == At(mem, live[l].at)
    ensures Marked(m, Without(live, k))
  {
    var rest := Without(live, k);
    forall l {:trigger rest[l]} | 0 <= l < |rest|
      ensures rest[l].at in m && At(m, rest[l].at) == Header(rest[l].at, rest[l].size)
    {
      var o := if l < k then l else l + 1;
      assert rest[l] == live[o];
      assert At(mem, live[o].at) == Header(live[o].at, live[o].size);
    }
  }

  lemma OthersUntouched(mem: map<int, Header>, s: State, k: nat, q: int, l: nat)
    requires Inv(s) && Marked(mem, s.live) && k < |s.live| && l < |s.live| && l != k
    requires exists j :: 0 <= j < |s.free| && q == s.free[j].at
    ensures var m := FreeMem(mem, s.live[k].at, q);
            s.live[l].at in m && At(m, s.live[l].at) == At(mem, s.live[l].at)
  {
    ApartIsElsewhere(s, k);
    ApartIsElsewhere(s, l);
    assert At(mem, s.live[l].at) == Header(s.live[l].at, s.live[l].size);
  }

  lemma ReleasedIs(mem: map<int, Header>, s: State, k: nat, q: int)
    requires Inv(s) && Linked(mem, s.free) && Marked(mem, s.live) && k < |s.live|
    requires q == s.free[Pred(Below(s.free, s.live[k].at), |s.free|)].at
    ensures var p := s.live[k].at;
            var s' := Released(s, k);
            Linked(FreeMem(mem, p, q), s'.free) && Marked(FreeMem(mem, p, q), s'.live)
  {
    CanInsert(mem, s, k, q);
    hide Inv, Linked, Marked, FreeMem, Insertable, Below, Pred, Merge;
    FreeMemLinks(mem, s.free, Below(s.free, s.live[k].at), s.live[k], q);
    forall l | 0 <= l < |s.live| && l != k
      ensures s.live[l].at in FreeMem(mem, s.live[k].at, q)
      ensures At(FreeMem(mem, s.live[k].at, q), s.live[l].at) == At(mem, s.live[l].at)
    {
      OthersUntouched(mem, s, k, q, l);
    }
    MarkFewer(mem, FreeMem(mem, s.live[k].at, q), s.live, k);
  }

  lemma ApartIsElsewhere(s: State, k: nat)
    requires Inv(s) && k < |s.live|
    ensures forall j :: 0 <= j < |s.free| ==> s.free[j].at != s.live[k].at
    ensures forall l :: 0 <= l < |s.live| && l != k ==> s.live[l].at != s.live[k].at
  {
    forall l | 0 <= l < |s.live| && l != k
      ensures s.live[l].at != s.live[k].at
    {
      assert if l < k then Apart(s.live[l], s.live[k]) else Apart(s.live[k], s.live[l]);
    }
  }

  // ----- the headers after each operation -----

  /** Apart from Base, only the header of a block in use points to itself: the audit of free. */
  ghost predicate Audited(mem: map<int, Header>, live: seq<Chunk>) {
    forall a :: a in mem && a != BASE && mem[a].ptr == a ==> InUse(live, a)
  }

  ghost predicate MemOk(mem: map<int, Header>, s: State) {
    Linked(mem, s.free) && Marked(mem, s.live) && Audited(mem, s.live)
  }

  /** On the free list nobody but Base can be alone. */
  lemma NoSelfOnList(mem: map<int, Header>, fl: seq<Chunk>, j: nat)
    requires Linked(mem, fl) && Ordered(fl) && Chunk(BASE, 1) in fl && j < |fl| && fl[j].at != BASE
    ensures At(mem, fl[j].at).ptr != fl[j].at
  {
    assert At(mem, fl[j].at) == Header(fl[Succ(j, |fl|)].at, fl[j].size);
  }

  lemma OnList(mem: map<int, Header>, fl: seq<Chunk>, a: int)
    requires Linked(mem, fl) && Ordered(fl) && Chunk(BASE, 1) in fl && a != BASE
    requires exists j :: 0 <= j < |fl| && fl[j].at == a
    ensures At(mem, a).ptr != a
  {
    var j :| 0 <= j < |fl| && fl[j].at == a;
    NoSelfOnList(mem, fl, j);
  }

  /** The header that free leaves in q is on the list. */
  lemma GapOnList(fl: seq<Chunk>, c: nat, p: Chunk)
    requires Fits(fl, c, p) && fl != []
    requires TouchesNext(fl, c, p) ==> c != Pred(c, |fl|)
    ensures exists j :: 0 <= j < |Merge(fl, c, p)| && Merge(fl, c, p)[j].at == fl[Pred(c, |fl|)].at
  {
    var l, m, r := Left(fl, c, p), Middle(fl, c, p), Right(fl, c, p);
    var s := Merge(fl, c, p);
    if TouchesPrevious(fl, c, p) {
      assert s[|l|] == m;
    } else if c > 0 {
      assert s[c - 1] == fl[c - 1];
    } else {
      assert s[|l| + |r|] == r[|r| - 1];
      assert r[|r| - 1] == fl[|fl| - 1];
    }
  }

  lemma FreedHeader(mem: map<int, Header>, s: State, k: nat, q: int)
    requires Inv(s) && MemOk(mem, s) && k < |s.live|
    requires q == s.free[Pred(Below(s.free, s.live[k].at), |s.free|)].at
    ensures q != s.live[k].at && At(FreeMem(mem, s.live[k].at, q), s.live[k].at).ptr != s.live[k].at
  {
    CanInsert(mem, s, k, q);
    JoinedIs(mem, s.free, Below(s.free, s.live[k].at), s.live[k], q);
  }

  lemma GapHeader(mem: map<int, Header>, s: State, k: nat, q: int)
    requires Inv(s) && MemOk(mem, s) && k < |s.live|
    requires q == s.free[Pred(Below(s.free, s.live[k].at), |s.free|)].at && q != BASE
    ensures At(FreeMem(mem, s.live[k].at, q), q).ptr != q
  {
    var p, fl := s.live[k], s.free;
    var c := Below(fl, p.at);
    InsertFits(fl, p);
    assert TouchesNext(fl, c, p) ==> c != Pred(c, |fl|);
    GapOnList(fl, c, p);
    ReleasedIs(mem, s, k, q);
    ReleasedKeepsInv(s, k);
    hide FreeMem;
    OnList(FreeMem(mem, p.at, q), Released(s, k).free, q);
  }

  lemma AuditAfterFree(mem: map<int, Header>, live: seq<Chunk>, k: nat, q: int)
    requires Audited(mem, live) && k < |live| && q != live[k].at
    requires var m := FreeMem(mem, live[k].at, q);
             At(m, live[k].at).ptr != live[k].at && (q != BASE ==> At(m, q).ptr != q)
    ensures Audited(FreeMem(mem, live[k].at, q), Without(live, k))
  {
    var m := FreeMem(mem, live[k].at, q);
    forall a | a in m && a != BASE && m[a].ptr == a
      ensures InUse(Without(live, k), a)
    {
      assert a != live[k].at && a != q && a in mem && mem[a].ptr == a;
      StillInUse(live, k, a);
    }
  }

  /** free: the links, the marks and the audit are right again. */
  lemma FreeIsRight(mem: map<int, Header>, s: State, k: nat, q: int)
    requires Inv(s) && MemOk(mem, s) && k < |s.live|
    requires q == s.free[Pred(Below(s.free, s.live[k].at), |s.free|)].at
    ensures MemOk(FreeMem(mem, s.live[k].at, q), Released(s, k))
  {
    hide Inv, Linked, Marked, Audited, FreeMem, Insert, Below, Pred;
    ReleasedIs(mem, s, k, q);
    FreedHeader(mem, s, k, q);
    if q != BASE {
      GapHeader(mem, s, k, q);
    }
    AuditAfterFree(mem, s.live, k, q);
  }

  lemma StillInUse(live: seq<Chunk>, k: nat, a: int)
    requires k < |live| && InUse(live, a) && a != live[k].at
    ensures InUse(Without(live, k), a)
  {
    var l :| 0 <= l < |live| && live[l].at == a;
    assert Without(live, k)[if l < k then l else l - 1] == live[l];
  }

  /** morecore writes a header into the new units. */
  lemma AdoptIsRight(mem: map<int, Header>, s: State, c: Chunk)
    requires Inv(s) && MemOk(mem, s) && Fresh(s, c) && c.size > 0
    ensures MemOk(mem[c.at := Header(c.at, c.size)], Adopted(s, c))
  {
    var m := mem[c.at := Header(c.at, c.size)];
    assert Ordered(s.free);
    StillLinked(mem, m, s.free, c);
    forall k | 0 <= k < |s.live|
      ensures s.live[k].at in m && s.live[k].at != c.at
    {
      assert At(mem, s.live[k].at) == Header(s.live[k].at, s.live[k].size);
      assert s.live[k].size > 0 && Apart(s.live[k], c);
    }
    hide Inv, Linked, Marked, Audited;
    MarkMore(mem, m, s.live, c);
    AuditMore(mem, m, s.live, c);
  }

  lemma StillLinked(mem: map<int, Header>, m: map<int, Header>, fl: seq<Chunk>, c: Chunk)
    requires Linked(mem, fl) && Ordered(fl) && c.size > 0 && m == mem[c.at := Header(c.at, c.size)]
    requires forall j :: 0 <= j < |fl| ==> Apart(c, fl[j])
    ensures Linked(m, fl)
  {
    forall j {:trigger fl[j]} | 0 <= j < |fl|
      ensures fl[j].at in m && At(m, fl[j].at) == Header(fl[Succ(j, |fl|)].at, fl[j].size)
    {
      assert At(mem, fl[j].at) == Header(fl[Succ(j, |fl|)].at, fl[j].size);
    }
  }

  lemma MarkMore(mem: map<int, Header>, m: map<int, Header>, live: seq<Chunk>, c: Chunk)
    requires Marked(mem, live) && c.at in m && m[c.at] == Header(c.at, c.size)
    requires forall k :: 0 <= k < |live| ==> live[k].at in m && At(m, live[k].at) == At(mem, live[k].at)
    ensures Marked(m, live + [c])
  {
    var l := live + [c];
    forall k {:trigger l[k]} | 0 <= k < |l|
      ensures l[k].at in m && At(m, l[k].at) == Header(l[k].at, l[k].size)
    {
      if k < |live| {
        assert At(mem, live[k].at) == Header(live[k].at, live[k].size);
      }
    }
  }

  lemma AuditMore(mem: map<int, Header>, m: map<int, Header>, live: seq<Chunk>, c: Chunk)
    requires Audited(mem, live)
    requires forall a :: a in m && a != c.at && a != BASE && m[a].ptr == a ==> a in mem && mem[a].ptr == a
    ensures Audited(m, live + [c])
  {
    forall a | a in m && a != BASE && m[a].ptr == a
      ensures InUse(live + [c], a)
    {
      if a == c.at {
        assert (live + [c])[|live|] == c;
      } else {
        var k :| 0 <= k < |live| && live[k].at == a;
        assert (live + [c])[k] == live[k];
      }
    }
  }

  lemma GrantedHeaders(mem: map<int, Header>, s: State, i: nat, nu: nat)
    requires Inv(s) && MemOk(mem, s) && i < |s.free| && 1 < nu <= s.free[i].size
    ensures |s.free| > 1
    ensures var m, b := TakeMem(mem, s.free[i].at, s.free[Pred(i, |s.free|)].at, nu), Block(s.free[i], nu);
            && b.at in m && m[b.at] == Header(b.at, b.size)
            && forall k :: 0 <= k < |s.live| ==> s.live[k].at in m && At(m, s.live[k].at) == At(mem, s.live[k].at)
  {
    var n := |s.free|;
    var b :| 0 <= b < n && s.free[b] == Chunk(BASE, 1);
    assert At(mem, s.free[i].at) == Header(s.free[Succ(i, n)].at, s.free[i].size);
    Distinct(s.free);
    forall k | 0 <= k < |s.live|
      ensures s.live[k].at in mem && Apart(s.live[k], Block(s.free[i], nu))
    {
      assert At(mem, s.live[k].at) == Header(s.live[k].at, s.live[k].size);
    }
  }

  lemma PredHeader(mem: map<int, Header>, s: State, i: nat, nu: nat)
    requires Inv(s) && i < |s.free| && 1 < nu <= s.free[i].size <= nu + 1 && |s.free| > 1
    requires Linked(TakeMem(mem, s.free[i].at, s.free[Pred(i, |s.free|)].at, nu), Take(s.free, i, nu))
    ensures var q := s.free[Pred(i, |s.free|)].at;
            q != BASE ==> At(TakeMem(mem, s.free[i].at, q, nu), q).ptr != q
  {
    var q := s.free[Pred(i, |s.free|)].at;
    GrantedKeepsInv(s, i, nu);
    PredStays(s.free, i, nu);
    hide TakeMem, Take;
    if q != BASE {
      OnList(TakeMem(mem, s.free[i].at, q, nu), Take(s.free, i, nu), q);
    }
  }

  lemma GrantedAudit(mem: map<int, Header>, s: State, i: nat, nu: nat)
    requires Inv(s) && MemOk(mem, s) && i < |s.free| && 1 < nu <= s.free[i].size && |s.free| > 1
    requires Linked(TakeMem(mem, s.free[i].at, s.free[Pred(i, |s.free|)].at, nu), Take(s.free, i, nu))
    ensures Audited(TakeMem(mem, s.free[i].at, s.free[Pred(i, |s.free|)].at, nu), Granted(s, i, nu).live)
  {
    var q := s.free[Pred(i, |s.free|)].at;
    var m, b := TakeMem(mem, s.free[i].at, q, nu), Block(s.free[i], nu);
    assert At(mem, s.free[i].at) == Header(s.free[Succ(i, |s.free|)].at, s.free[i].size);
    if s.free[i].size <= nu + 1 {
      PredHeader(mem, s, i, nu);
    }
    Distinct(s.free);
    hide Inv, Linked, Marked, Ordered, Take;
    AuditMore(mem, m, s.live, b);
  }

  lemma PredStays(fl: seq<Chunk>, i: nat, nu: nat)
    requires i < |fl| && nu <= fl[i].size <= nu + 1 && |fl| > 1
    ensures exists j :: 0 <= j < |Take(fl, i, nu)| && Take(fl, i, nu)[j].at == fl[Pred(i, |fl|)].at
  {
    var g := Pred(i, |fl|);
    assert Take(fl, i, nu)[if g < i then g else g - 1] == fl[g];
  }

  /** malloc: likewise. */
  lemma TakeIsRight(mem: map<int, Header>, s: State, i: nat, nu: nat)
    requires Inv(s) && MemOk(mem, s) && i < |s.free| && 1 < nu <= s.free[i].size
    ensures MemOk(TakeMem(mem, s.free[i].at, s.free[Pred(i, |s.free|)].at, nu), Granted(s, i, nu))
  {
    var m := TakeMem(mem, s.free[i].at, s.free[Pred(i, |s.free|)].at, nu);
    GrantedHeaders(mem, s, i, nu);
    TakeMemLinks(mem, s.free, i, nu);
    GrantedAudit(mem, s, i, nu);
    hide Linked, Marked, Audited, TakeMem, Take, Pred;
    MarkMore(mem, m, s.live, Block(s.free[i], nu));
  }

  // ----- the allocator -----

  /** Memory is the map of all headers written so far; Allocp is null until the first malloc and &Base
      ever after. */
  class Allocator {
    var mem: map<int, Header>
    var ready: bool
    var availmem: nat
    var invalid: nat
    ghost var s: State

    constructor ()
      ensures Valid() && s == State([Chunk(BASE, 1)], [])
    {
      mem, ready, availmem, invalid := map[], false, 0, 0;
      s := State([Chunk(BASE, 1)], []);
      new;
      SumOne(Chunk(BASE, 1));
    }

    ghost predicate Valid()
      reads this`mem, this`ready, this`availmem, this`s
    {
      && Inv(s) && availmem == Sum(s.free) - 1
      && if ready then MemOk(mem, s) else s == State([Chunk(BASE, 1)], []) && mem == map[]
    }

    lemma Facts()
      requires Valid()
      ensures Inv(s) && s.free != [] && availmem == Sum(s.free) - 1
      ensures ready ==> MemOk(mem, s)
      ensures !ready ==> mem == map[]
    {
    }

    lemma StillValid()
      requires Inv(s) && availmem == Sum(s.free) - 1 && ready && MemOk(mem, s)
      ensures Valid()
    {
    }

    lemma BaseIsThere()
      requires Inv(s)
      ensures BaseIndex(s.free) < |s.free| && s.free[BaseIndex(s.free)] == Chunk(BASE, 1)
    {
      BaseAt(s.free);
    }

    /** The search of free, from &Base round the circle. */
    method FindGap(p: int, ghost g: nat) returns (q: int)
      requires Inv(s) && MemOk(mem, s) && g < |s.free|
      requires forall i :: 0 <= i < |s.free| ==> (Stops(s.free, i, p) <==> i == g)
      ensures q == s.free[g].at
    {
      BaseIsThere();
      hide Inv, Stops, Audited, Marked, Sum;
      assert Linked(mem, s.free);
      q := BASE;
      ghost var n := |s.free|;
      ghost var i: nat := BaseIndex(s.free);
      while true
        invariant i < n && q == s.free[i].at
        decreases Distance(i, g, n)
      {
        assert At(mem, s.free[i].at) == Header(s.free[Succ(i, n)].at, s.free[i].size);
        StopsIs(s.free, i, p);
        if p > q && p < mem[q].ptr {
          return;
        }
        if q >= mem[q].ptr && (p > q || p < mem[q].ptr) {
          return;
        }
        q := mem[q].ptr;
        i := Succ(i, n);
      }
    }

    lemma StopsIs(fl: seq<Chunk>, i: nat, x: int)
      requires i < |fl|
      ensures var q, next := fl[i].at, fl[Succ(i, |fl|)].at;
              Stops(fl, i, x) <==> (x > q && x < next) || (q >= next && (x > q || x < next))
    {
    }

    lemma GapKnown(g: nat)
      requires Valid() && ready && g < |s.free|
      ensures s.free[g].at in mem && mem[s.free[g].at].ptr in mem
    {
      var i := Succ(g, |s.free|);
      assert At(mem, s.free[g].at) == Header(s.free[i].at, s.free[g].size);
      assert At(mem, s.free[i].at) == Header(s.free[Succ(i, |s.free|)].at, s.free[i].size);
    }

    lemma FreeFacts(p: int)
      requires Valid() && ready && p in mem && p != BASE
      ensures mem[p].ptr == p <==> InUse(s.live, p)
      ensures InUse(s.live, p) ==>
                var k := IndexOf(s.live, p);
                var g := Pred(Below(s.free, p), |s.free|);
                && k < |s.live| && s.live[k] == Chunk(p, mem[p].size) && g < |s.free|
                && s.free[g].at in mem && s.free[g].at != p && mem[s.free[g].at].ptr in mem
                && (forall i :: 0 <= i < |s.free| ==> (Stops(s.free, i, p) <==> i == g))
                && var s' := Released(s, k);
                   && Freed(s, p) == s' && Inv(s') && Sum(s'.free) == Sum(s.free) + mem[p].size
                   && MemOk(FreeMem(mem, p, s.free[g].at), s')
    {
      var k := IndexOf(s.live, p);
      if k < |s.live| {
        assert At(mem, s.live[k].at) == Header(s.live[k].at, s.live[k].size);
        ApartIsElsewhere(s, k);
        forall i | 0 <= i < |s.free|
          ensures Stops(s.free, i, p) <==> i == Pred(Below(s.free, p), |s.free|)
        {
          OneGap(s.free, i, p);
        }
        GapKnown(Pred(Below(s.free, p), |s.free|));
        hide Inv, MemOk, Released, FreeMem;
        ReleasedKeepsInv(s, k);
        FreeIsRight(mem, s, k, s.free[Pred(Below(s.free, p), |s.free|)].at);
      }
    }

    /** free. blk points behind a header, that of a block in use or one it once was. */
    method Free(blk: Option<int>)
      requires Valid()
      requires blk.Some? ==> ready && blk.value - 1 in mem && blk.value - 1 != BASE
      modifies this
      ensures Valid() && ready == old(ready)
      ensures s == if blk == None then old(s) else Freed(old(s), blk.value - 1)
      ensures invalid == old(invalid) + if blk == None || InUse(old(s.live), blk.value - 1) then 0 else 1
    {
      hide *;
      if blk == None {
        return;
      }
      var p := blk.value - 1;
      Facts();
      FreeFacts(p);
      if mem[p].ptr != p {
        NothingFreed(s, p);
        invalid := invalid + 1;
        return;
      }
      availmem := availmem + mem[p].size;
      var q := FindGap(p, Pred(Below(s.free, p), |s.free|));
      Link(p, q);
      s := Freed(s, p);
      StillValid();
    }

    /** The assignments of free. */
    method Link(p: int, q: int)
      requires p in mem && q in mem && p != q && mem[q].ptr in mem
      modifies this`mem
      ensures mem == FreeMem(old(mem), p, q)
    {
      var next := mem[q].ptr;
      if p + mem[p].size == next {
        mem := mem[p := Header(mem[next].ptr, mem[p].size + mem[next].size)];
      } else {
        mem := mem[p := Header(next, mem[p].size)];
      }
      if q + mem[q].size == p {
        mem := mem[q := Header(mem[p].ptr, mem[q].size + mem[p].size)];
      } else {
        mem := mem[q := Header(p, mem[q].size)];
      }
    }

    lemma NothingFreed(s: State, p: int)
      requires !InUse(s.live, p)
      ensures Freed(s, p) == s
    {
    }

    lemma Started()
      requires Valid() && !ready
      ensures Inv(s) && availmem == Sum(s.free) - 1 && MemOk(map[BASE := Header(BASE, 1)], s) && mem == map[]
    {
      var m := map[BASE := Header(BASE, 1)];
      assert s.free[0].at == BASE && At(m, s.free[0].at) == Header(BASE, 1);
    }

    /** The first malloc makes Base a circle of its own. */
    method Start()
      requires Valid()
      modifies this`mem, this`ready
      ensures Valid() && ready
    {
      hide *;
      if !ready {
        Started();
        mem := mem[BASE := Header(BASE, 1)];
        ready := true;
        assert mem == map[BASE := Header(BASE, 1)];
        StillValid();
      }
    }

    lemma TakeFacts(i: nat, nu: nat)
      requires Valid() && ready && i < |s.free| && 1 < nu <= s.free[i].size
      ensures var p, q := s.free[i], s.free[Pred(i, |s.free|)].at;
              var s' := Granted(s, i, nu);
              && p.at in mem && q in mem && p.at != q && mem[p.at].size == p.size
              && MemOk(TakeMem(mem, p.at, q, nu), s') && Inv(s')
              && Sum(s'.free) + Block(p, nu).size == Sum(s.free)
              && Block(p, nu) == (if p.size <= nu + 1 then p else Chunk(p.at + p.size - nu, nu))
              && 0 < Sum(s'.free)
    {
      var g := Pred(i, |s.free|);
      assert At(mem, s.free[i].at) == Header(s.free[Succ(i, |s.free|)].at, s.free[i].size);
      assert At(mem, s.free[g].at) == Header(s.free[Succ(g, |s.free|)].at, s.free[g].size);
      Distinct(s.free);
      TakeIsRight(mem, s, i, nu);
      GrantedHeaders(mem, s, i, nu);
      GrantedKeepsInv(s, i, nu);
      TakeSum(s.free, i, nu);
      hide MemOk, TakeMem;
      SomethingLeft(Granted(s, i, nu));
    }

    lemma SomethingLeft(s: State)
      requires Inv(s)
      ensures 0 < Sum(s.free)
    {
      assert s.free[0].size > 0;
    }

    /** The assignments of malloc once p, behind q, is found large enough; h is the block's header. */
    method Carve(p: int, q: int, nu: nat) returns (h: int)
      requires p in mem && q in mem && p != q && 0 < nu <= mem[p].size
      modifies this`mem
      ensures mem == TakeMem(old(mem), p, q, nu)
      ensures old(mem[p].size) <= nu + 1 ==> h == p && h in mem && mem[h].size == old(mem[p].size)
      ensures old(mem[p].size) > nu + 1 ==> h == p + old(mem[p].size) - nu && h in mem && mem[h].size == nu
    {
      if mem[p].size <= nu + 1 {
        mem := mem[q := mem[q].(ptr := mem[p].ptr)];
        h := p;
      } else {
        mem := mem[p := mem[p].(size := mem[p].size - nu)];
        h := p + mem[p].size;
        mem := mem[h := Header(h, nu)];
      }
      ghost var m := mem;
      mem := mem[h := mem[h].(ptr := h)];
      assert old(mem[p].size) > nu + 1 ==> mem == m;
    }

    method TakeFrom(p: int, q: int, nu: nat, ghost i: nat) returns (h: int)
      requires Valid() && ready && i < |s.free| && 1 < nu <= s.free[i].size
      requires p == s.free[i].at && q == s.free[Pred(i, |s.free|)].at
      modifies this`mem, this`availmem, this`s
      ensures Valid() && s == Granted(old(s), i, nu) && h == Block(old(s.free[i]), nu).at
    {
      hide *;
      Facts();
      TakeFacts(i, nu);
      h := Carve(p, q, nu);
      availmem := availmem - mem[h].size;
      s := Granted(s, i, nu);
      StillValid();
    }

    static lemma AdoptedIsLast(s: State, c: Chunk)
      requires Inv(Adopted(s, c))
      ensures Freed(Adopted(s, c), c.at) == Refilled(s, c) && InUse(Adopted(s, c).live, c.at)
    {
      var live := s.live + [c];
      assert live[|s.live|] == c;
      ApartIsElsewhere(Adopted(s, c), |s.live|);
    }

    static lemma FreshIsNotBase(s: State, c: Chunk)
      requires Inv(s) && Fresh(s, c) && c.size > 0
      ensures c.at != BASE
    {
      BaseAt(s.free);
      assert Apart(c, s.free[BaseIndex(s.free)]);
    }

    lemma AdoptFacts(c: Chunk)
      requires Valid() && ready && Fresh(s, c) && c.size > 0
      ensures MemOk(mem[c.at := Header(c.at, c.size)], Adopted(s, c)) && Inv(Adopted(s, c))
      ensures Freed(Adopted(s, c), c.at) == Refilled(s, c) && InUse(Adopted(s, c).live, c.at)
      ensures Adopted(s, c).free == s.free && c.at != BASE
    {
      hide MemOk, Inv, Fresh, Freed, InUse, Refilled;
      AdoptIsRight(mem, s, c);
      AdoptedIsFine(s, c);
      AdoptedIsLast(s, c);
      FreshIsNotBase(s, c);
    }

    static lemma AdoptedIsFine(s: State, c: Chunk)
      requires Inv(s) && Fresh(s, c) && c.size > 0
      ensures Inv(Adopted(s, c))
    {
      AdoptedKeepsInv(s, c);
    }

    /** morecore, sbrk having given nu units at address core: mark them as a block and free it. */
    method Morecore(core: int, nu: nat)
      requires Valid() && ready && nu > 0 && Given(s, core, nu)
      modifies this
      ensures Valid() && ready && s == Refilled(old(s), Chunk(core, nu))
    {
      GivenMeans(s, core, nu);
      hide *;
      Facts();
      ghost var c := Chunk(core, nu);
      AdoptFacts(c);
      mem := mem[core := Header(core, nu)];
      s := Adopted(s, c);
      StillValid();
      Free(Some(core + 1));
    }

    static lemma GivenMeans(s: State, a: int, nu: nat)
      requires Given(s, a, nu)
      ensures Fresh(s, Chunk(a, nu))
    {
    }

    lemma SearchFacts(i: nat, nu: nat)
      requires Valid() && ready && i < |s.free|
      ensures var n, b := |s.free|, BaseIndex(s.free);
              && b < n && s.free[b] == Chunk(BASE, 1)
              && s.free[i].at in mem && mem[s.free[i].at] == Header(s.free[Succ(i, n)].at, s.free[i].size)
              && (s.free[i].at == BASE <==> i == b) && Succ(i, n) < n && Pred(Succ(i, n), n) == i
    {
      assert At(mem, s.free[i].at) == Header(s.free[Succ(i, |s.free|)].at, s.free[i].size);
      BaseAt(s.free);
      Distinct(s.free);
    }

    lemma StartSearch(nu: nat)
      requires BaseIndex(s.free) < |s.free|
      ensures var n, b := |s.free|, BaseIndex(s.free);
              && FirstFit(s.free, nu) == Fit(s.free, nu, Succ(b, n), n)
              && Succ(b, n) < n && n == Distance(Succ(b, n), b, n) + 1
    {
    }

    lemma FoundFacts(nu: nat, i: nat, steps: nat)
      requires i < |s.free| && steps > 0 && s.free[i].size >= nu
      ensures Fit(s.free, nu, i, steps) == Some(i)
    {
    }

    lemma PassedFacts(nu: nat, i: nat, steps: nat)
      requires i < |s.free| && s.free[i].size < nu && BaseIndex(s.free) < |s.free|
      requires steps == Distance(i, BaseIndex(s.free), |s.free|) + 1
      ensures var n, b := |s.free|, BaseIndex(s.free);
              && (i == b ==> Fit(s.free, nu, i, steps) == None)
              && (i != b ==> steps > 1 && Succ(i, n) < n && steps - 1 == Distance(Succ(i, n), b, n) + 1
                             && Fit(s.free, nu, i, steps) == Fit(s.free, nu, Succ(i, n), steps - 1))
    {
    }

    static lemma FoundIs(s0: State, s: State, nu: nat, irq: bool, core: Option<int>, calls: nat, i: nat)
      requires s0.free != [] && s.free != [] && FirstFit(s.free, nu) == Some(i) && calls <= 1
      requires calls == 0 ==> s == s0
      requires calls == 1 ==> FirstFit(s0.free, nu) == None && irq && core.Some?
                              && s == Refilled(s0, Chunk(core.value, nu))
      ensures Malloc(s0, nu, irq, core) == Outcome(Granted(s, i, nu), Some(Block(s.free[i], nu)), calls)
    {
    }

    static lemma FailedIs(s: State, nu: nat, irq: bool, core: Option<int>)
      requires s.free != [] && FirstFit(s.free, nu) == None && (!irq || core == None)
      ensures Malloc(s, nu, irq, core) == Outcome(s, None, if irq then 1 else 0)
    {
    }

    static lemma RefillFacts(s0: State, nu: nat, core: int)
      requires Inv(s0) && nu > 0 && Given(s0, core, nu)
      ensures var s1 := Refilled(s0, Chunk(core, nu)); s1.free != [] && FirstFit(s1.free, nu).Some?
    {
      RefilledKeepsInv(s0, Chunk(core, nu));
      hide Fresh, Insert;
      RefillFits(s0, nu, Chunk(core, nu));
    }

    /** The loop of malloc. */
    method Search(nu: nat, irq: bool, core: Option<int>) returns (h: Option<int>, ghost calls: nat)
      requires Valid() && ready && nu > 1
      requires core.Some? ==> Given(s, core.value, nu)
      modifies this
      ensures Valid() && ready
      ensures var o := Malloc(old(s), nu, irq, core);
              && s == o.s && calls == o.morecores
              && h == if o.block == None then None else Some(o.block.value.at)
    {
      hide *;
      Facts();
      BaseIsThere();
      var q := BASE;
      SearchFacts(BaseIndex(s.free), nu);
      var p := mem[q].ptr;
      calls := 0;
      ghost var n: nat := |s.free|;
      ghost var i: nat, steps: nat := Succ(BaseIndex(s.free), n), n;
      StartSearch(nu);
      while true
        invariant Valid() && ready && s.free != [] && n == |s.free| && i < n && 0 < steps <= n
        invariant BaseIndex(s.free) < n
        invariant p == s.free[i].at && q == s.free[Pred(i, n)].at
        invariant Fit(s.free, nu, i, steps) == FirstFit(s.free, nu)
        invariant steps == Distance(i, BaseIndex(s.free), n) + 1
        invariant calls <= 1
        invariant calls == 0 ==> s == old(s)
        invariant calls == 1 ==> FirstFit(old(s).free, nu) == None && irq && core.Some?
                                 && s == Refilled(old(s), Chunk(core.value, nu)) && FirstFit(s.free, nu).Some?
        decreases 1 - calls, steps
      {
        Facts();
        SearchFacts(i, nu);
        if mem[p].size >= nu {
          FoundFacts(nu, i, steps);
          FoundIs(old(s), s, nu, irq, core, calls, i);
          var a := TakeFrom(p, q, nu, i);
          h := Some(a);
          return;
        }
        PassedFacts(nu, i, steps);
        if p == BASE {
          if !irq || core == None {
            FailedIs(s, nu, irq, core);
            h := None;
            calls := if irq then 1 else 0;
            return;
          }
          Morecore(core.value, nu);
          calls := calls + 1;
          RefillFacts(old(s), nu, core.value);
          p := BASE;
          Facts();
          BaseIsThere();
          n := |s.free|;
          SearchFacts(BaseIndex(s.free), nu);
          q, p := p, mem[p].ptr;
          i, steps := Succ(BaseIndex(s.free), n), n;
          StartSearch(nu);
        } else {
          q, p := p, mem[p].ptr;
          i, steps := Succ(i, n), steps - 1;
        }
      }
    }

    /** malloc, which returns the address of the payload. With nb + 7 beyond 32 bits the request would
        be rounded to nothing. */
    method Alloc(nb: nat, irq: bool, core: Option<int>) returns (r: Option<int>, ghost calls: nat)
      requires Valid() && nb + 7 < 0x1_0000_0000
      requires core.Some? ==> nb <= LARGEST && Fresh(s, Chunk(core.value, Btou(nb)))
      modifies this
      ensures Valid()
      ensures nb == 0 ==> r == None && s == old(s)
      ensures nb > 0 ==>
                var o := Malloc(old(s), Btou(nb), irq, core);
                && s == o.s && calls == o.morecores
                && r == if o.block == None then None else Some(o.block.value.at + 1)
    {
      if nb == 0 {
        return None, 0;
      }
      PayloadFits(nb);
      assert core.Some? ==> Given(s, core.value, Btou(nb));
      hide *;
      Facts();
      Start();
      var h;
      h, calls := Search(Btou(nb), irq, core);
      r := if h == None then None else Some(h.value + 1);
    }
  }
}
