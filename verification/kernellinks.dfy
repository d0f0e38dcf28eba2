/** The links of core/kernel.c's doubly linked process queues, and what delproc and addproc do to them. */
module KernelLinks {
  import opened Common
  import opened Lists
  import opened KernelSpec

  /** struct proc: the links, the flags, the event waited for and the value kwait will return. */
  class Proc {
    var prev: Proc?
    var next: Proc?
    var suspend: bool
    var waiting: bool
    var event: nat
    var retval: int

    constructor ()
      ensures Snapshot() == NEW_PROC && prev == null && next == null
    {
      prev, next := null, null;
      suspend, waiting, event, retval := false, false, 0, 0;
    }

    function Snapshot(): Info
      reads this`suspend, this`waiting, this`event, this`retval
    {
      Info(suspend, waiting, event, retval)
    }
  }

  /** All links and list heads, as values. */
  datatype Links = Links(next: map<Proc, Proc?>, prev: map<Proc, Proc?>, head: seq<Proc?>)

  ghost function Next(l: Links, p: Proc): Proc? {
    if p in l.next then l.next[p] else null
  }

  ghost function Prev(l: Links, p: Proc): Proc? {
    if p in l.prev then l.prev[p] else null
  }

  /** head, next and prev spell out the queue s. */
  ghost predicate Linked(l: Links, s: seq<Proc>, head: Proc?) {
    && head == (if s == [] then null else s[0])
    && (forall j {:trigger Prev(l, s[j])} :: 0 <= j < |s| ==> Prev(l, s[j]) == if j == 0 then null else s[j - 1])
    && (forall j {:trigger Next(l, s[j])} :: 0 <= j < |s| ==> Next(l, s[j]) == if j + 1 < |s| then s[j + 1] else null)
  }

  ghost predicate Chains(l: Links, q: seq<seq<Proc>>) {
    && |l.head| == NQUEUES == |q|
    && forall i :: 0 <= i < NQUEUES ==> Linked(l, q[i], l.head[i])
  }

  /** The members of queue i belong there, once each. */
  ghost predicate Seated(s: seq<Proc>, i: nat, info: map<Proc, Info>) {
    Distinct(s) && forall p :: p in s ==> p in info && Home(info[p]) == i
  }

  ghost predicate Seats(q: seq<seq<Proc>>, info: map<Proc, Info>) {
    && |q| == NQUEUES
    && forall i :: 0 <= i < NQUEUES ==> Seated(q[i], i, info)
  }

  ghost predicate OnNone(q: seq<seq<Proc>>, e: Proc) {
    forall i :: 0 <= i < |q| ==> e !in q[i]
  }

  /** A new descriptor, with null links. */
  ghost function Extended(l: Links, p: Proc): Links {
    l.(next := l.next[p := null], prev := l.prev[p := null])
  }

  ghost function Dropped(l: Links, p: Proc): Links {
    Links(l.next - {p}, l.prev - {p}, l.head)
  }

  /** Links of processes that are on no queue do not matter. */
  lemma ChainsIgnore(l: Links, l': Links, q: seq<seq<Proc>>, info: map<Proc, Info>, e: Proc)
    requires Chains(l, q) && Seats(q, info) && OnNone(q, e) && l'.head == l.head
    requires forall p :: p in info && p != e ==> Next(l', p) == Next(l, p) && Prev(l', p) == Prev(l, p)
    ensures Chains(l', q)
  {
    forall i | 0 <= i < NQUEUES
      ensures Linked(l', q[i], l'.head[i])
    {
      assert Linked(l, q[i], l.head[i]) && Seated(q[i], i, info);
      assert forall j :: 0 <= j < |q[i]| ==> q[i][j] in info && q[i][j] != e;
    }
  }

  // ----- delproc -----

  ghost function SetNext(l: Links, p: Proc?, v: Proc?): Links {
    if p == null then l else l.(next := l.next[p := v])
  }

  ghost function SetPrev(l: Links, p: Proc?, v: Proc?): Links {
    if p == null then l else l.(prev := l.prev[p := v])
  }

  ghost function SetHead(l: Links, i: nat, v: Proc?): Links {
    if i < |l.head| then l.(head := l.head[i := v]) else l
  }

  ghost function Unlinked(l: Links, e: Proc, h: nat): Links {
    var l1 := SetPrev(l, Next(l, e), Prev(l, e));
    if Prev(l, e) != null then SetNext(l1, Prev(l, e), Next(l, e)) else SetHead(l1, h, Next(l, e))
  }

  lemma UnlinkedHere(l: Links, s: seq<Proc>, j: nat, h: nat)
    requires j < |s| && Distinct(s) && h < |l.head| && Linked(l, s, l.head[h])
    ensures var l' := Unlinked(l, s[j], h); Linked(l', s[..j] + s[j + 1..], l'.head[h])
  {
    var l' := Unlinked(l, s[j], h);
    var t := s[..j] + s[j + 1..];
    assert Next(l, s[j]) == if j + 1 < |s| then s[j + 1] else null;
    assert Prev(l, s[j]) == if j == 0 then null else s[j - 1];
    forall m {:trigger t[m]} | 0 <= m < |t|
      ensures Prev(l', t[m]) == if m == 0 then null else t[m - 1]
      ensures Next(l', t[m]) == if m + 1 < |t| then t[m + 1] else null
    {
      var o := if m < j then m else m + 1;
      assert t[m] == s[o];
      assert Prev(l, s[o]) == if o == 0 then null else s[o - 1];
      assert Next(l, s[o]) == if o + 1 < |s| then s[o + 1] else null;
    }
    HeadAfterUnlink(l, s, j, h);
  }

  lemma HeadAfterUnlink(l: Links, s: seq<Proc>, j: nat, h: nat)
    requires j < |s| && h < |l.head| && Linked(l, s, l.head[h])
    ensures var t := s[..j] + s[j + 1..];
            Unlinked(l, s[j], h).head[h] == if t == [] then null else t[0]
  {
    assert Next(l, s[j]) == if j + 1 < |s| then s[j + 1] else null;
    assert Prev(l, s[j]) == if j == 0 then null else s[j - 1];
    var t := s[..j] + s[j + 1..];
    if t != [] {
      assert t[0] == s[if j == 0 then 1 else 0];
    } else {
      assert |t| == |s| - 1;
    }
  }

  lemma UnlinkedElsewhere(l: Links, s: seq<Proc>, head: Proc?, e: Proc, h: nat)
    requires Linked(l, s, head)
    requires Next(l, e) == null || Next(l, e) !in s
    requires Prev(l, e) == null || Prev(l, e) !in s
    ensures Linked(Unlinked(l, e, h), s, head)
  {
    var l' := Unlinked(l, e, h);
    forall j | 0 <= j < |s|
      ensures Prev(l', s[j]) == Prev(l, s[j]) && Next(l', s[j]) == Next(l, s[j])
    {
    }
  }

  lemma Neighbours(l: Links, s: seq<Proc>, e: Proc, head: Proc?)
    requires Linked(l, s, head) && e in s
    ensures Next(l, e) == null || Next(l, e) in s
    ensures Prev(l, e) == null || Prev(l, e) in s
  {
    var j :| 0 <= j < |s| && s[j] == e;
    assert Next(l, s[j]) == if j + 1 < |s| then s[j + 1] else null;
    assert Prev(l, s[j]) == if j == 0 then null else s[j - 1];
  }

  lemma OnOneQueue(q: seq<seq<Proc>>, info: map<Proc, Info>, p: Proc, h: nat, i: nat)
    requires Seats(q, info) && h < NQUEUES && i < NQUEUES && p in q[h] && i != h
    ensures p !in q[i]
  {
    assert Seated(q[h], h, info) && Seated(q[i], i, info);
  }

  lemma UnlinkKeepsOne(l: Links, q: seq<seq<Proc>>, info: map<Proc, Info>, e: Proc, i: nat)
    requires Chains(l, q) && Seats(q, info) && e in info && e in q[Home(info[e])] && i < NQUEUES
    ensures var h := Home(info[e]);
            var l' := Unlinked(l, e, h);
            |l'.head| == NQUEUES && Linked(l', if i == h then Without(q[h], e) else q[i], l'.head[i])
  {
    var h := Home(info[e]);
    assert Seated(q[h], h, info) && Linked(l, q[h], l.head[h]) && Linked(l, q[i], l.head[i]);
    if i == h {
      var j :| 0 <= j < |q[h]| && q[h][j] == e;
      hide Linked;
      WithoutAt(q[h], j);
      UnlinkedHere(l, q[h], j, h);
    } else {
      hide Linked, Seats;
      Neighbours(l, q[h], e, l.head[h]);
      if Next(l, e) != null {
        OnOneQueue(q, info, Next(l, e), h, i);
      }
      if Prev(l, e) != null {
        OnOneQueue(q, info, Prev(l, e), h, i);
      }
      UnlinkedElsewhere(l, q[i], l.head[i], e, h);
    }
  }

  lemma UnlinkKeepsChains(l: Links, q: seq<seq<Proc>>, info: map<Proc, Info>, e: Proc)
    requires Chains(l, q) && Seats(q, info) && e in info && e in q[Home(info[e])]
    ensures var h := Home(info[e]); Chains(Unlinked(l, e, h), q[h := Without(q[h], e)])
  {
    hide Seats, Linked;
    forall i | 0 <= i < NQUEUES
      ensures var h := Home(info[e]);
              Linked(Unlinked(l, e, h), q[h := Without(q[h], e)][i], Unlinked(l, e, h).head[i])
    {
      UnlinkKeepsOne(l, q, info, e, i);
    }
  }

  lemma UnlinkKeepsSeats(q: seq<seq<Proc>>, info: map<Proc, Info>, e: Proc)
    requires Seats(q, info) && e in info && e in q[Home(info[e])]
    ensures var h := Home(info[e]); Seats(q[h := Without(q[h], e)], info)
    ensures OnNone(q[Home(info[e]) := Without(q[Home(info[e])], e)], e)
  {
    var h := Home(info[e]);
    assert Seated(q[h], h, info);
    WithoutMembers(q[h], e);
    forall i | 0 <= i < NQUEUES && i != h
      ensures e !in q[i]
    {
      OnOneQueue(q, info, e, h, i);
    }
  }

  lemma UnlinkKeepsOrder(l: Links, q: seq<seq<Proc>>, info: map<Proc, Info>, e: Proc)
    requires Chains(l, q) && Seats(q, info) && e in info && e in q[Home(info[e])]
    ensures var h := Home(info[e]);
            var q' := q[h := Without(q[h], e)];
            Chains(Unlinked(l, e, h), q') && Seats(q', info) && OnNone(q', e)
  {
    hide Linked, Seated, Unlinked, Without;
    UnlinkKeepsChains(l, q, info, e);
    UnlinkKeepsSeats(q, info, e);
  }

  // ----- addproc -----

  /** e, on no queue, behind the last process of queue h. */
  ghost function Appended(l: Links, e: Proc, last: Proc?, h: nat): Links {
    var l1 := SetPrev(SetNext(l, e, null), e, last);
    if last == null then SetHead(l1, h, e) else SetNext(l1, last, e)
  }

  ghost function Last(s: seq<Proc>): Proc? {
    if s == [] then null else s[|s| - 1]
  }

  lemma AppendedHere(l: Links, s: seq<Proc>, e: Proc, h: nat)
    requires e !in s && Distinct(s) && h < |l.head| && Linked(l, s, l.head[h])
    ensures var l' := Appended(l, e, Last(s), h); Linked(l', s + [e], l'.head[h])
  {
    var l' := Appended(l, e, Last(s), h);
    var t := s + [e];
    forall m {:trigger t[m]} | 0 <= m < |t|
      ensures Prev(l', t[m]) == if m == 0 then null else t[m - 1]
      ensures Next(l', t[m]) == if m + 1 < |t| then t[m + 1] else null
    {
      if m < |s| {
        assert t[m] == s[m];
        assert Prev(l, s[m]) == if m == 0 then null else s[m - 1];
        assert Next(l, s[m]) == if m + 1 < |s| then s[m + 1] else null;
      }
    }
    assert t[0] == if s == [] then e else s[0];
  }

  lemma AppendedElsewhere(l: Links, s: seq<Proc>, head: Proc?, e: Proc, last: Proc?, h: nat)
    requires Linked(l, s, head) && e !in s && (last == null || last !in s)
    ensures Linked(Appended(l, e, last, h), s, head)
  {
    var l' := Appended(l, e, last, h);
    forall j | 0 <= j < |s|
      ensures Prev(l', s[j]) == Prev(l, s[j]) && Next(l', s[j]) == Next(l, s[j])
    {
    }
  }

  lemma AppendKeepsOne(l: Links, q: seq<seq<Proc>>, info: map<Proc, Info>, e: Proc, h: nat, i: nat)
    requires Chains(l, q) && Seats(q, info) && h < NQUEUES && i < NQUEUES
    requires e !in q[h] && e !in q[i]
    ensures var l' := Appended(l, e, Last(q[h]), h);
            |l'.head| == NQUEUES && Linked(l', if i == h then q[h] + [e] else q[i], l'.head[i])
  {
    assert Seated(q[h], h, info) && Linked(l, q[h], l.head[h]) && Linked(l, q[i], l.head[i]);
    hide Linked, Seats;
    if i == h {
      AppendedHere(l, q[h], e, h);
    } else {
      if q[h] != [] {
        OnOneQueue(q, info, Last(q[h]), h, i);
      }
      AppendedElsewhere(l, q[i], l.head[i], e, Last(q[h]), h);
    }
  }

  lemma AppendKeepsChains(l: Links, q: seq<seq<Proc>>, info: map<Proc, Info>, e: Proc, h: nat)
    requires Chains(l, q) && Seats(q, info) && h < NQUEUES
    requires OnNone(q, e)
    ensures Chains(Appended(l, e, Last(q[h]), h), q[h := q[h] + [e]])
  {
    hide Seats, Linked;
    forall i | 0 <= i < NQUEUES
      ensures Linked(Appended(l, e, Last(q[h]), h), q[h := q[h] + [e]][i], Appended(l, e, Last(q[h]), h).head[i])
    {
      AppendKeepsOne(l, q, info, e, h, i);
    }
  }

  lemma AppendKeepsSeats(q: seq<seq<Proc>>, info: map<Proc, Info>, e: Proc)
    requires Seats(q, info) && e in info && OnNone(q, e)
    ensures var h := Home(info[e]); Seats(q[h := q[h] + [e]], info)
  {
    var h := Home(info[e]);
    assert Seated(q[h], h, info);
    AppendKeepsDistinct(q[h], e);
  }

  lemma AppendKeepsOrder(l: Links, q: seq<seq<Proc>>, info: map<Proc, Info>, e: Proc)
    requires Chains(l, q) && Seats(q, info) && e in info && OnNone(q, e)
    ensures var h := Home(info[e]);
            var q' := q[h := q[h] + [e]];
            Chains(Appended(l, e, Last(q[h]), h), q') && Seats(q', info)
  {
    hide Linked, Seated, Appended;
    AppendKeepsChains(l, q, info, e, Home(info[e]));
    AppendKeepsSeats(q, info, e);
  }

  /** Changing the flags of a process that is on no queue disturbs none. */
  lemma SeatsIgnore(q: seq<seq<Proc>>, info: map<Proc, Info>, info': map<Proc, Info>, e: Proc)
    requires Seats(q, info) && OnNone(q, e)
    requires forall p :: p in info && p != e ==> p in info' && info'[p] == info[p]
    ensures Seats(q, info')
  {
    forall i | 0 <= i < NQUEUES
      ensures Seated(q[i], i, info')
    {
      assert Seated(q[i], i, info);
    }
  }
}

/** One turn of the loops in ksig: what scanning the rest of a queue still has to do. */
module KernelScan {
  import opened Common
  import opened Lists
  import opened KernelSpec
  import opened KernelLinks

  lemma {:induction false} PickIgnores<P>(s: seq<P>, info: map<P, Info>, p: P, i: Info, e: nat, n: int)
    requires p !in s
    ensures Pick(s, info[p := i], e, n) == Pick(s, info, e, n)
    ensures Waiters(s, info[p := i], e) == Waiters(s, info, e)
    decreases |s|
  {
    if s != [] {
      PickIgnores(s[1..], info, p, i, e, if At(info, s[0]).event == e then n - 1 else n);
      if At(info, s[0]).event == e {
      } else {
      }
    }
  }

  lemma {:induction false} PickPassesOver<P>(s: seq<P>, info: map<P, Info>, p: P, e: nat, n: int)
    requires At(info, p).event != e
    ensures Pick(s + [p], info, e, n) == Pick(s, info, e, n)
    ensures Waiters(s + [p], info, e) == Waiters(s, info, e)
    decreases |s|
  {
    if s != [] {
      assert (s + [p])[1..] == s[1..] + [p];
      PickPassesOver(s[1..], info, p, e, if At(info, s[0]).event == e then n - 1 else n);
    }
  }

  /** What is left to scan of queue h once p, its first, has been woken: on the suspended queue p is
      itself among those the scan will still meet, unless p was the last. */
  ghost function RestAfter<P>(h: nat, rest: seq<P>): seq<P>
    requires rest != []
  {
    if h == SUSPENDED && |rest| > 1 then rest[1..] + [rest[0]] else rest[1..]
  }

  lemma FirstAfter<P>(h: nat, rest: seq<P>)
    requires rest != []
    ensures RestAfter(h, rest) != [] <==> |rest| > 1
    ensures |rest| > 1 ==> RestAfter(h, rest)[0] == rest[1]
  {
  }

  lemma PassOver<P>(rest: seq<P>, info: map<P, Info>, e: nat, n: nat)
    requires rest != [] && n > 0 && At(info, rest[0]).event != e
    ensures Pick(rest, info, e, n) == Pick(rest[1..], info, e, n)
    ensures Waiters(rest, info, e) == Waiters(rest[1..], info, e)
  {
  }

  lemma NothingToPick<P>(k: State<P>, rest: seq<P>, e: nat, n: nat)
    requires n == 0 || rest == []
    ensures Pick(rest, k.info, e, n) == []
    ensures WakeAll(k, Pick(rest, k.info, e, n)) == k
  {
  }

  lemma KsigOfNull<P>(k: State<P>, n: nat)
    ensures Ksig(k, 0, n) == k
  {
  }

  lemma {:induction false} PickAgrees<P>(s: seq<P>, info: map<P, Info>, info': map<P, Info>, e: nat, n: int)
    requires forall p :: p in s ==> At(info, p) == At(info', p)
    ensures Pick(s, info', e, n) == Pick(s, info, e, n)
    decreases |s|
  {
    if s != [] && n > 0 {
      PickAgrees(s[1..], info, info', e, if At(info, s[0]).event == e then n - 1 else n);
    }
  }

  lemma SuspendedNotWoken<P>(k: State<P>, e: nat, w: seq<P>, c: seq<P>)
    requires Inv(k) && AreWaiters(k, Chain(e), e, w)
    ensures var k1 := ChainAfter(k, e, c, w);
            && Queue(k1, SUSPENDED) == Queue(k, SUSPENDED)
            && forall p :: p in Queue(k, SUSPENDED) ==> At(k.info, p) == At(k1.info, p)
  {
    assert QueueOk(k.q[SUSPENDED], SUSPENDED, k.cur, k.info);
    assert QueueOk(k.q[Chain(e)], Chain(e), k.cur, k.info);
    assert forall p :: p in k.q[SUSPENDED] ==> p !in w;
  }

  lemma PickAfterScan<P>(k: State<P>, e: nat, w: seq<P>, left: nat)
    requires Inv(k) && e != 0 && AreWaiters(k, Chain(e), e, w)
    ensures var k1 := WakeAll(k, w);
            Pick(Queue(k1, SUSPENDED), k1.info, e, left) == Pick(Queue(k, SUSPENDED), k.info, e, left)
  {
    hide *;
    WakeFromChain(k, e, w);
    SuspendedNotWoken(k, e, w, WithoutAll(Queue(k, Chain(e)), w));
    PickAgrees(Queue(k, SUSPENDED), k.info, WakeAll(k, w).info, e, left);
  }

  lemma KsigIs<P>(k: State<P>, e: nat, n: nat)
    requires e != 0
    ensures Ksig(k, e, n) == WakeAll(k, Woken(k, e, n) + Freed(k, e, n))
    ensures Woken(k, e, n) == Pick(Queue(k, Chain(e)), k.info, e, Limit(n))
    ensures Freed(k, e, n) == Pick(Queue(k, SUSPENDED), k.info, e, Limit(n) - |Woken(k, e, n)|)
    ensures Chain(e) < NQUEUES
  {
  }

  /** Waking from the chain leaves the suspended waiters as they were: ksig's two loops are the
      two parts of the specification. */
  lemma KsigInTwoScans<P>(k: State<P>, e: nat, n: nat, left: nat, w: seq<P>)
    requires Inv(k) && e != 0 && w == Pick(Queue(k, Chain(e)), k.info, e, Limit(n)) && left == Limit(n) - |w|
    ensures var k1 := WakeAll(k, w);
            WakeAll(k1, Pick(Queue(k1, SUSPENDED), k1.info, e, left)) == Ksig(k, e, n)
  {
    hide *;
    KsigIs(k, e, n);
    PickedFromQueue(k, Chain(e), e, Limit(n));
    PickAfterScan(k, e, w, left);
    WakeAllAppend(k, w, Freed(k, e, n));
  }

  lemma NextOfRest(l: Links, s: seq<Proc>, head: Proc?, rest: seq<Proc>)
    requires Linked(l, s, head) && 0 < |rest| <= |s| && s[|s| - |rest|..] == rest
    ensures Next(l, rest[0]) == (if |rest| > 1 then rest[1] else null)
    ensures s[|s| - |rest[1..]|..] == rest[1..] && rest[0] in s
  {
    var j := |s| - |rest|;
    assert s[j] == rest[0];
    assert Next(l, s[j]) == if j + 1 < |s| then s[j + 1] else null;
  }

  ghost predicate Scanning<P>(k: State<P>, h: nat, rest: seq<P>) {
    |rest| <= |Queue(k, h)| && Queue(k, h)[|Queue(k, h)| - |rest|..] == rest
  }

  lemma FirstOfRest<P>(k: State<P>, h: nat, rest: seq<P>)
    requires Inv(k) && h < NQUEUES && Scanning(k, h, rest) && rest != []
    ensures var p := rest[0];
            && p in k.info && k.cur != Some(p) && Home(k.info[p]) == h
            && Distinct(rest) && p !in rest[1..] && p in k.q[h]
            && Without(k.q[h], p) == k.q[h][..|k.q[h]| - |rest|] + rest[1..]
  {
    var s := k.q[h];
    var j := |s| - |rest|;
    assert QueueOk(s, h, k.cur, k.info);
    assert s[j] == rest[0] && s[j + 1..] == rest[1..];
    assert s == s[..j] + rest;
    WithoutAt(s, j);
  }

  lemma WokenQueue<P>(k: State<P>, h: nat, rest: seq<P>, e: nat)
    requires Inv(k) && Scanning(k, h, rest) && rest != [] && e != 0
    requires h == SUSPENDED || h == Chain(e)
    ensures Scanning(Requeue(k, rest[0], Awake(At(k.info, rest[0]))), h, RestAfter(h, rest))
  {
    FirstOfRest(k, h, rest);
    var p := rest[0];
    var front := k.q[h][..|k.q[h]| - |rest|];
    var k' := Requeue(k, p, Awake(k.info[p]));
    if h == SUSPENDED {
      assert k'.q[h] == front + rest[1..] + [p];
      if |rest| > 1 {
        assert front + rest[1..] + [p] == front + RestAfter(h, rest);
      } else {
        assert RestAfter(h, rest) == [];
      }
    } else {
      assert k'.q[h] == front + rest[1..];
    }
  }

  lemma RequeueInfo<P>(k: State<P>, p: P, i: Info)
    ensures Requeue(k, p, i).info == k.info[p := i]
    ensures At(k.info[p := i], p) == i
  {
  }

  lemma WakeFirst<P>(k: State<P>, p: P, ps: seq<P>)
    ensures WakeAll(k, [p] + ps) == WakeAll(Requeue(k, p, Awake(At(k.info, p))), ps)
  {
    assert ([p] + ps)[1..] == ps;
  }

  lemma AwakeWaitsForNothing(i: Info)
    ensures Awake(i).event == 0
  {
  }

  lemma TakeFirst<P>(rest: seq<P>, info: map<P, Info>, e: nat, n: nat)
    requires rest != [] && n > 0 && At(info, rest[0]).event == e
    ensures Pick(rest, info, e, n) == [rest[0]] + Pick(rest[1..], info, e, n - 1)
    ensures |Waiters(rest, info, e)| == 1 + |Waiters(rest[1..], info, e)|
  {
  }

  lemma PickRestAfter<P>(h: nat, rest: seq<P>, info: map<P, Info>, e: nat, n: nat)
    requires rest != [] && At(info, rest[0]).event != e
    ensures Pick(RestAfter(h, rest), info, e, n) == Pick(rest[1..], info, e, n)
    ensures Waiters(RestAfter(h, rest), info, e) == Waiters(rest[1..], info, e)
  {
    PickPassesOver(rest[1..], info, rest[0], e, n);
  }

  lemma WokenRest<P>(k: State<P>, h: nat, rest: seq<P>, e: nat, n: nat)
    requires Inv(k) && h < NQUEUES && Scanning(k, h, rest) && rest != [] && e != 0 && n > 0
    requires At(k.info, rest[0]).event == e
    ensures var k' := Requeue(k, rest[0], Awake(At(k.info, rest[0])));
            && WakeAll(k', Pick(RestAfter(h, rest), k'.info, e, n - 1)) == WakeAll(k, Pick(rest, k.info, e, n))
            && |Pick(RestAfter(h, rest), k'.info, e, n - 1)| == |Pick(rest, k.info, e, n)| - 1
            && |Waiters(RestAfter(h, rest), k'.info, e)| == |Waiters(rest, k.info, e)| - 1
  {
    hide *;
    FirstOfRest(k, h, rest);
    var i := Awake(At(k.info, rest[0]));
    AwakeWaitsForNothing(At(k.info, rest[0]));
    RequeueInfo(k, rest[0], i);
    TakeFirst(rest, k.info, e, n);
    PickIgnores(rest[1..], k.info, rest[0], i, e, n - 1);
    PickRestAfter(h, rest, k.info[rest[0] := i], e, n - 1);
    WakeFirst(k, rest[0], Pick(rest[1..], k.info, e, n - 1));
  }
}
