/** The cooperative kernel of core/kernel.c on values: which queue every process is on,
    and what each kernel call does to the queues. P stands for the process descriptors. */
module KernelSpec {
  import opened Common
  import opened Lists

  const PHASH: nat := 15          // wait table hash chains
  const NQUEUES: nat := 17        // Rdytab, Susptab and the PHASH chains of Waittab
  const READY: nat := 0
  const SUSPENDED: nat := 1
  const EVERYBODY: nat := 65535   // what n == 0 means to ksig

  /** The fields of a process descriptor that decide its place. Event 0 is NULL. */
  datatype Info = Info(suspend: bool, waiting: bool, event: nat, retval: int)

  const NEW_PROC := Info(false, false, 0, 0)

  datatype Signal = Signal(event: nat, n: nat)

  /** cur is None while kwait has put the running process on a queue and chosen no other. */
  datatype State<P> = State(cur: Option<P>, q: seq<seq<P>>, info: map<P, Info>)

  /** phash: the address as a 32-bit unsigned, modulo PHASH. */
  function Phash(event: nat): (h: nat)
    ensures h < PHASH
  {
    (event % 0x1_0000_0000) % PHASH
  }

  function Chain(event: nat): (i: nat)
    ensures 2 <= i < NQUEUES
  {
    2 + Phash(event)
  }

  /** The queue a process belongs on, as addproc and delproc choose it. */
  function Home(i: Info): (h: nat)
    ensures h < NQUEUES
  {
    if i.suspend then SUSPENDED else if i.waiting then Chain(i.event) else READY
  }

  ghost function At<P>(info: map<P, Info>, p: P): Info {
    if p in info then info[p] else NEW_PROC
  }

  ghost function Queue<P>(k: State<P>, i: nat): seq<P> {
    if i < |k.q| then k.q[i] else []
  }

  ghost function SetQueue<P>(k: State<P>, i: nat, s: seq<P>): State<P> {
    if i < |k.q| then k.(q := k.q[i := s]) else k
  }

  /** Queue i holds, once each, processes that belong on it. */
  ghost predicate QueueOk<P>(s: seq<P>, i: nat, cur: Option<P>, info: map<P, Info>) {
    && Distinct(s)
    && (forall p :: p in s ==> p in info && cur != Some(p) && Home(info[p]) == i)
  }

  ghost predicate FlagsOk(i: Info) {
    i.waiting <==> i.event != 0
  }

  /** Every process but the running one is on exactly the queue its flags and event select. */
  ghost predicate Inv<P>(k: State<P>) {
    && |k.q| == NQUEUES
    && (forall i :: 0 <= i < NQUEUES ==> QueueOk(k.q[i], i, k.cur, k.info))
    && (forall p :: p in k.info && k.cur != Some(p) ==> p in k.q[Home(k.info[p])])
    && (forall p :: p in k.info ==> FlagsOk(k.info[p]))
    && (k.cur.Some? ==> k.cur.value in k.info && !k.info[k.cur.value].waiting)
  }

  // ----- removing from and adding to the queues -----

  /** delproc. */
  ghost function Delproc<P>(k: State<P>, p: P): State<P> {
    var h := Home(At(k.info, p));
    SetQueue(k, h, Without(Queue(k, h), p))
  }

  /** addproc: append to the queue the flags select. */
  ghost function Addproc<P>(k: State<P>, p: P): State<P> {
    var h := Home(At(k.info, p));
    SetQueue(k, h, Queue(k, h) + [p])
  }

  /** Move p to the end of the queue its new flags select; the running process only changes flags. */
  ghost function Requeue<P>(k: State<P>, p: P, i: Info): State<P> {
    if k.cur == Some(p) then k.(info := k.info[p := i])
    else Addproc(Delproc(k, p).(info := k.info[p := i]), p)
  }

  lemma AppendKeepsDistinct<P>(s: seq<P>, p: P)
    requires Distinct(s) && p !in s
    ensures Distinct(s + [p])
  {
  }

  ghost function RequeuedTo<P>(k: State<P>, p: P, i: Info, m: nat): seq<P> {
    var s := if m == Home(At(k.info, p)) then Without(Queue(k, m), p) else Queue(k, m);
    if m == Home(i) then s + [p] else s
  }

  lemma RequeueIs<P>(k: State<P>, p: P, i: Info, m: nat)
    requires |k.q| == NQUEUES && k.cur != Some(p) && m < NQUEUES
    ensures |Requeue(k, p, i).q| == NQUEUES && Requeue(k, p, i).q[m] == RequeuedTo(k, p, i, m)
    ensures Requeue(k, p, i).info == k.info[p := i]
  {
  }

  /** The queue lost by p, the queue gained by p, and the others. */
  lemma QueueAfterRequeue<P>(s: seq<P>, m: nat, cur: Option<P>, info: map<P, Info>, p: P, i: Info)
    requires QueueOk(s, m, cur, info) && p in info && cur != Some(p)
    requires p in s <==> Home(info[p]) == m
    ensures var s1 := if p in s then Without(s, p) else s;
            var s2 := if m == Home(i) then s1 + [p] else s1;
            && QueueOk(s2, m, cur, info[p := i])
            && forall x :: x != p ==> (x in s2 <==> x in s)
  {
    var s1 := if p in s then Without(s, p) else s;
    if p in s {
      WithoutMembers(s, p);
    }
    AppendKeepsDistinct(s1, p);
  }

  lemma RequeuedQueue<P>(k: State<P>, p: P, i: Info, m: nat)
    requires Inv(k) && p in k.info && k.cur != Some(p) && m < NQUEUES
    ensures |Requeue(k, p, i).q| == NQUEUES && Requeue(k, p, i).info == k.info[p := i]
    ensures var k' := Requeue(k, p, i);
            && QueueOk(k'.q[m], m, k.cur, k'.info)
            && forall x :: x != p ==> (x in k'.q[m] <==> x in k.q[m])
  {
    assert QueueOk(k.q[m], m, k.cur, k.info);
    assert p in k.q[m] <==> Home(k.info[p]) == m;
    hide Inv, QueueOk, Requeue, Without, Home;
    RequeueIs(k, p, i, m);
    QueueAfterRequeue(k.q[m], m, k.cur, k.info, p, i);
  }

  lemma RequeueKeepsInv<P>(k: State<P>, p: P, i: Info)
    requires Inv(k) && p in k.info && FlagsOk(i)
    requires k.cur == Some(p) ==> !i.waiting
    ensures Inv(Requeue(k, p, i))
  {
    if k.cur != Some(p) {
      var k' := Requeue(k, p, i);
      forall m | 0 <= m < NQUEUES
        ensures QueueOk(k'.q[m], m, k.cur, k'.info)
        ensures forall x :: x != p ==> (x in k'.q[m] <==> x in k.q[m])
      {
        RequeuedQueue(k, p, i, m);
      }
      assert p in k'.q[Home(i)];
    } else {
      assert forall m :: 0 <= m < NQUEUES ==> QueueOk(k.q[m], m, k.cur, k.info[p := i]);
    }
  }

  // ----- ksig -----

  function Awake(i: Info): Info {
    i.(waiting := false, event := 0, retval := 0)
  }

  /** The first n processes of s that wait for e, in queue order. */
  ghost function Pick<P>(s: seq<P>, info: map<P, Info>, e: nat, n: int): seq<P> {
    if s == [] || n <= 0 then []
    else if At(info, s[0]).event == e then [s[0]] + Pick(s[1..], info, e, n - 1)
    else Pick(s[1..], info, e, n)
  }

  /** Wake the processes ps one after the other. */
  ghost function WakeAll<P>(k: State<P>, ps: seq<P>): State<P>
    decreases |ps|
  {
    if ps == [] then k
    else WakeAll(Requeue(k, ps[0], Awake(At(k.info, ps[0]))), ps[1..])
  }

  function Limit(n: nat): nat {
    if n == 0 then EVERYBODY else n
  }

  /** Those ksig wakes: the first waiters of the chain, then suspended ones up to the limit. */
  ghost function Woken<P>(k: State<P>, e: nat, n: nat): seq<P> {
    Pick(Queue(k, Chain(e)), k.info, e, Limit(n))
  }

  ghost function Freed<P>(k: State<P>, e: nat, n: nat): seq<P> {
    Pick(Queue(k, SUSPENDED), k.info, e, Limit(n) - |Woken(k, e, n)|)
  }

  ghost function Ksig<P>(k: State<P>, e: nat, n: nat): State<P> {
    if e == 0 then k else WakeAll(k, Woken(k, e, n) + Freed(k, e, n))
  }

  lemma {:induction false} PickedAreWaiters<P>(s: seq<P>, info: map<P, Info>, e: nat, n: int)
    ensures forall p :: p in Pick(s, info, e, n) ==> p in s && At(info, p).event == e
    decreases |s|
  {
    if s != [] && n > 0 {
      PickedAreWaiters(s[1..], info, e, if At(info, s[0]).event == e then n - 1 else n);
    }
  }

  lemma WakeOneKeepsInv<P>(k: State<P>, p: P)
    requires Inv(k) && p in k.info
    ensures var k' := Requeue(k, p, Awake(At(k.info, p)));
            Inv(k') && k'.cur == k.cur && k'.info.Keys == k.info.Keys
  {
    RequeueKeepsInv(k, p, Awake(k.info[p]));
  }

  lemma {:induction false} WakeAllKeepsInv<P>(k: State<P>, ps: seq<P>)
    requires Inv(k) && forall p :: p in ps ==> p in k.info
    ensures Inv(WakeAll(k, ps))
    ensures WakeAll(k, ps).cur == k.cur && WakeAll(k, ps).info.Keys == k.info.Keys
    decreases |ps|
  {
    if ps != [] {
      hide Inv, Requeue, Awake, At;
      WakeOneKeepsInv(k, ps[0]);
      WakeAllKeepsInv(Requeue(k, ps[0], Awake(At(k.info, ps[0]))), ps[1..]);
    }
  }

  lemma MembersAreKnown<P>(k: State<P>, i: nat)
    requires Inv(k)
    ensures forall p :: p in Queue(k, i) ==> p in k.info
  {
    if i < NQUEUES {
      assert QueueOk(k.q[i], i, k.cur, k.info);
    }
  }

  lemma KsigKeepsInv<P>(k: State<P>, e: nat, n: nat)
    requires Inv(k)
    ensures Inv(Ksig(k, e, n))
    ensures Ksig(k, e, n).cur == k.cur && Ksig(k, e, n).info.Keys == k.info.Keys
  {
    if e != 0 {
      MembersAreKnown(k, Chain(e));
      MembersAreKnown(k, SUSPENDED);
      hide Inv, Pick;
      PickedAreWaiters(Queue(k, Chain(e)), k.info, e, Limit(n));
      PickedAreWaiters(Queue(k, SUSPENDED), k.info, e, Limit(n) - |Woken(k, e, n)|);
      WakeAllKeepsInv(k, Woken(k, e, n) + Freed(k, e, n));
    }
  }

  // ----- what ksig leaves: exact queues -----

  /** s without the processes Pick takes. */
  ghost function Keep<P>(s: seq<P>, info: map<P, Info>, e: nat, n: int): seq<P> {
    if s == [] || n <= 0 then s
    else if At(info, s[0]).event == e then Keep(s[1..], info, e, n - 1)
    else [s[0]] + Keep(s[1..], info, e, n)
  }

  ghost function AwakeInfo<P>(info: map<P, Info>, ps: seq<P>): map<P, Info> {
    map p | p in info :: if p in ps then Awake(info[p]) else info[p]
  }

  lemma AwakeNobody<P>(info: map<P, Info>)
    ensures AwakeInfo(info, []) == info
  {
    assert forall p :: p in info ==> AwakeInfo(info, [])[p] == info[p];
  }

  ghost function WithoutAll<P>(s: seq<P>, ps: seq<P>): seq<P>
    decreases |ps|
  {
    if ps == [] then s else WithoutAll(Without(s, ps[0]), ps[1..])
  }

  /** A chain, and the ready queue behind which the processes ps have gone from it. */
  ghost function ChainAfter<P>(k: State<P>, e: nat, chain: seq<P>, ps: seq<P>): State<P> {
    SetQueue(SetQueue(k, Chain(e), chain), READY, Queue(k, READY) + ps).(info := AwakeInfo(k.info, ps))
  }

  /** The suspended queue with the processes ps gone to its end, behind front. */
  ghost function SuspendedAfter<P>(k: State<P>, front: seq<P>, ps: seq<P>): State<P> {
    SetQueue(k, SUSPENDED, front + ps).(info := AwakeInfo(k.info, ps))
  }

  /** ps are distinct members of queue i that wait for e. */
  ghost predicate AreWaiters<P>(k: State<P>, i: nat, e: nat, ps: seq<P>) {
    && Distinct(ps)
    && forall p :: p in ps ==> p in k.info && p in Queue(k, i) && k.info[p].event == e
  }

  lemma RequeueOneWaiter<P>(k: State<P>, e: nat, ps: seq<P>)
    requires Inv(k) && e != 0 && AreWaiters(k, Chain(e), e, ps) && ps != []
    ensures var k' := Requeue(k, ps[0], Awake(At(k.info, ps[0])));
            && Inv(k')
            && k' == ChainAfter(k, e, Without(Queue(k, Chain(e)), ps[0]), [ps[0]])
            && AreWaiters(k', Chain(e), e, ps[1..])
  {
    var c, p := Chain(e), ps[0];
    assert QueueOk(k.q[c], c, k.cur, k.info);
    RequeueKeepsInv(k, p, Awake(k.info[p]));
    AwakeOne(k.info, p);
    WithoutMembers(k.q[c], p);
    forall x | x in ps[1..]
      ensures x in ps && x != p
    {
    }
  }

  lemma AwakeOne<P>(info: map<P, Info>, p: P)
    requires p in info
    ensures AwakeInfo(info, [p]) == info[p := Awake(info[p])]
  {
  }

  lemma AwakeBoth<P>(info: map<P, Info>, p: P, ps: seq<P>)
    ensures AwakeInfo(AwakeInfo(info, [p]), ps) == AwakeInfo(info, [p] + ps)
  {
    assert forall x :: x in [p] + ps <==> x == p || x in ps;
  }

  lemma ChainAfterTwice<P>(k: State<P>, e: nat, c1: seq<P>, p: P, c2: seq<P>, ps: seq<P>)
    requires |k.q| == NQUEUES
    ensures ChainAfter(ChainAfter(k, e, c1, [p]), e, c2, ps) == ChainAfter(k, e, c2, [p] + ps)
  {
    assert Queue(k, READY) + [p] + ps == Queue(k, READY) + ([p] + ps);
    AwakeBoth(k.info, p, ps);
  }

  lemma WakeFirstWaiter<P>(k: State<P>, e: nat, ps: seq<P>)
    requires Inv(k) && e != 0 && AreWaiters(k, Chain(e), e, ps) && ps != []
    ensures |k.q| == NQUEUES && ps == [ps[0]] + ps[1..]
    ensures var c, k' := Queue(k, Chain(e)), Requeue(k, ps[0], Awake(At(k.info, ps[0])));
            && Inv(k') && AreWaiters(k', Chain(e), e, ps[1..])
            && k' == ChainAfter(k, e, Without(c, ps[0]), [ps[0]])
            && Queue(k', Chain(e)) == Without(c, ps[0])
            && WakeAll(k, ps) == WakeAll(k', ps[1..])
            && WithoutAll(c, ps) == WithoutAll(Without(c, ps[0]), ps[1..])
  {
    assert |k.q| == NQUEUES;
    hide Inv, AreWaiters, ChainAfter, Requeue, Queue;
    RequeueOneWaiter(k, e, ps);
    ChainOf(k, e, Without(Queue(k, Chain(e)), ps[0]), [ps[0]]);
  }

  lemma WakeNobodyFromChain<P>(k: State<P>, e: nat)
    requires |k.q| == NQUEUES
    ensures WakeAll(k, []) == ChainAfter(k, e, WithoutAll(Queue(k, Chain(e)), []), [])
  {
    assert Queue(k, READY) + [] == Queue(k, READY);
    AwakeNobody(k.info);
  }

  /** Waking waiters of one chain moves them, in order, to the end of the ready queue. */
  lemma {:induction false} WakeFromChain<P>(k: State<P>, e: nat, ps: seq<P>)
    requires Inv(k) && e != 0 && AreWaiters(k, Chain(e), e, ps)
    ensures WakeAll(k, ps) == ChainAfter(k, e, WithoutAll(Queue(k, Chain(e)), ps), ps)
    decreases |ps|
  {
    assert |k.q| == NQUEUES;
    hide *;
    if ps == [] {
      WakeNobodyFromChain(k, e);
    } else {
      WakeFirstWaiter(k, e, ps);
      WakeFromChain(Requeue(k, ps[0], Awake(At(k.info, ps[0]))), e, ps[1..]);
      var c := Queue(k, Chain(e));
      ChainAfterTwice(k, e, Without(c, ps[0]), ps[0], WithoutAll(c, ps), ps[1..]);
    }
  }

  lemma ChainOf<P>(k: State<P>, e: nat, c: seq<P>, ps: seq<P>)
    requires |k.q| == NQUEUES
    ensures Queue(ChainAfter(k, e, c, ps), Chain(e)) == c
  {
  }

  lemma RequeueOneSuspended<P>(k: State<P>, e: nat, ps: seq<P>)
    requires Inv(k) && e != 0 && AreWaiters(k, SUSPENDED, e, ps) && ps != []
    ensures var k' := Requeue(k, ps[0], Awake(At(k.info, ps[0])));
            && Inv(k')
            && k' == SuspendedAfter(k, Without(Queue(k, SUSPENDED), ps[0]), [ps[0]])
            && AreWaiters(k', SUSPENDED, e, ps[1..])
  {
    var p := ps[0];
    assert QueueOk(k.q[SUSPENDED], SUSPENDED, k.cur, k.info);
    RequeueKeepsInv(k, p, Awake(k.info[p]));
    AwakeOne(k.info, p);
    WithoutMembers(k.q[SUSPENDED], p);
    forall x | x in ps[1..]
      ensures x in ps && x != p
    {
    }
  }

  lemma SuspendedAfterTwice<P>(k: State<P>, s1: seq<P>, p: P, s2: seq<P>, ps: seq<P>)
    requires |k.q| == NQUEUES
    ensures SuspendedAfter(SuspendedAfter(k, s1, [p]), s2 + [p], ps) == SuspendedAfter(k, s2, [p] + ps)
    ensures Queue(SuspendedAfter(k, s1, [p]), SUSPENDED) == s1 + [p]
  {
    assert s2 + [p] + ps == s2 + ([p] + ps);
    AwakeBoth(k.info, p, ps);
  }

  lemma {:induction false} WithoutSplits<P>(s: seq<P>, t: seq<P>, p: P)
    requires p in s
    ensures Without(s + t, p) == Without(s, p) + t
    decreases |s|
  {
    assert (s + t)[0] == s[0];
    if s[0] == p {
      assert (s + t)[1..] == s[1..] + t;
    } else {
      assert (s + t)[1..] == s[1..] + t;
      assert p in s[1..];
      WithoutSplits(s[1..], t, p);
      assert [s[0]] + (Without(s[1..], p) + t) == ([s[0]] + Without(s[1..], p)) + t;
    }
  }

  lemma {:induction false} WithoutAllSplits<P>(s: seq<P>, t: seq<P>, ps: seq<P>)
    requires Distinct(s) && Distinct(ps) && forall p :: p in ps ==> p in s
    ensures WithoutAll(s + t, ps) == WithoutAll(s, ps) + t
    decreases |ps|
  {
    if ps != [] {
      WithoutSplits(s, t, ps[0]);
      WithoutMembers(s, ps[0]);
      WithoutAllSplits(Without(s, ps[0]), t, ps[1..]);
    }
  }

  lemma WakeFirstSuspended<P>(k: State<P>, e: nat, ps: seq<P>)
    requires Inv(k) && e != 0 && AreWaiters(k, SUSPENDED, e, ps) && ps != []
    ensures |k.q| == NQUEUES && ps == [ps[0]] + ps[1..]
    ensures var s, k' := Queue(k, SUSPENDED), Requeue(k, ps[0], Awake(At(k.info, ps[0])));
            && Inv(k') && AreWaiters(k', SUSPENDED, e, ps[1..])
            && k' == SuspendedAfter(k, Without(s, ps[0]), [ps[0]])
            && Queue(k', SUSPENDED) == Without(s, ps[0]) + [ps[0]]
            && WakeAll(k, ps) == WakeAll(k', ps[1..])
            && WithoutAll(Queue(k', SUSPENDED), ps[1..]) == WithoutAll(s, ps) + [ps[0]]
  {
    assert |k.q| == NQUEUES;
    RestOfSuspended(k, e, ps);
    hide Inv, AreWaiters, SuspendedAfter, Requeue, Queue, WithoutAll;
    RequeueOneSuspended(k, e, ps);
    SuspendedAfterTwice(k, Without(Queue(k, SUSPENDED), ps[0]), ps[0], [], ps[1..]);
  }

  lemma WakeNobodyFromSuspended<P>(k: State<P>)
    requires |k.q| == NQUEUES
    ensures WakeAll(k, []) == SuspendedAfter(k, WithoutAll(Queue(k, SUSPENDED), []), [])
  {
    assert Queue(k, SUSPENDED) + [] == Queue(k, SUSPENDED);
    AwakeNobody(k.info);
  }

  /** A suspended process that is signalled stays suspended: it goes to the end of its own queue. */
  lemma {:induction false} WakeFromSuspended<P>(k: State<P>, e: nat, ps: seq<P>)
    requires Inv(k) && e != 0 && AreWaiters(k, SUSPENDED, e, ps)
    ensures WakeAll(k, ps) == SuspendedAfter(k, WithoutAll(Queue(k, SUSPENDED), ps), ps)
    decreases |ps|
  {
    assert |k.q| == NQUEUES;
    hide *;
    if ps == [] {
      WakeNobodyFromSuspended(k);
    } else {
      WakeFirstSuspended(k, e, ps);
      WakeFromSuspended(Requeue(k, ps[0], Awake(At(k.info, ps[0]))), e, ps[1..]);
      var s := Queue(k, SUSPENDED);
      SuspendedAfterTwice(k, Without(s, ps[0]), ps[0], WithoutAll(s, ps), ps[1..]);
    }
  }

  lemma RestOfSuspended<P>(k: State<P>, e: nat, ps: seq<P>)
    requires Inv(k) && AreWaiters(k, SUSPENDED, e, ps) && ps != []
    ensures var s := Queue(k, SUSPENDED);
            WithoutAll(Without(s, ps[0]) + [ps[0]], ps[1..]) == WithoutAll(s, ps) + [ps[0]]
  {
    var s := Queue(k, SUSPENDED);
    assert QueueOk(s, SUSPENDED, k.cur, k.info);
    WithoutMembers(s, ps[0]);
    WithoutAllSplits(Without(s, ps[0]), [ps[0]], ps[1..]);
  }

  // ----- which processes are picked, and who is left -----

  lemma {:induction false} PickIsDistinct<P>(s: seq<P>, info: map<P, Info>, e: nat, n: int)
    requires Distinct(s)
    ensures Distinct(Pick(s, info, e, n))
    decreases |s|
  {
    if s != [] && n > 0 {
      var m := if At(info, s[0]).event == e then n - 1 else n;
      PickIsDistinct(s[1..], info, e, m);
      PickedAreWaiters(s[1..], info, e, m);
    }
  }

  lemma {:induction false} SkipFront<P>(x: P, s: seq<P>, ps: seq<P>)
    requires x !in ps
    ensures WithoutAll([x] + s, ps) == [x] + WithoutAll(s, ps)
    decreases |ps|
  {
    if ps != [] {
      assert ([x] + s)[1..] == s;
      SkipFront(x, Without(s, ps[0]), ps[1..]);
    }
  }

  lemma {:induction false} KeepIsTheRest<P>(s: seq<P>, info: map<P, Info>, e: nat, n: int)
    requires Distinct(s)
    ensures WithoutAll(s, Pick(s, info, e, n)) == Keep(s, info, e, n)
    decreases |s|
  {
    if s != [] && n > 0 {
      var x, t := s[0], s[1..];
      assert s == [x] + t;
      if At(info, x).event == e {
        KeepIsTheRest(t, info, e, n - 1);
        assert ([x] + Pick(t, info, e, n - 1))[1..] == Pick(t, info, e, n - 1);
      } else {
        KeepIsTheRest(t, info, e, n);
        PickedAreWaiters(t, info, e, n);
        SkipFront(x, t, Pick(t, info, e, n));
      }
    }
  }

  lemma {:induction false} WakeAllAppend<P>(k: State<P>, a: seq<P>, b: seq<P>)
    ensures WakeAll(k, a + b) == WakeAll(WakeAll(k, a), b)
    decreases |a|
  {
    if a == [] {
      assert a + b == b;
    } else {
      assert (a + b)[1..] == a[1..] + b;
      WakeAllAppend(Requeue(k, a[0], Awake(At(k.info, a[0]))), a[1..], b);
    }
  }

  lemma PickedFromQueue<P>(k: State<P>, i: nat, e: nat, n: int)
    requires Inv(k) && i < NQUEUES
    ensures AreWaiters(k, i, e, Pick(Queue(k, i), k.info, e, n))
    ensures WithoutAll(Queue(k, i), Pick(Queue(k, i), k.info, e, n)) == Keep(Queue(k, i), k.info, e, n)
  {
    assert QueueOk(k.q[i], i, k.cur, k.info);
    PickIsDistinct(Queue(k, i), k.info, e, n);
    PickedAreWaiters(Queue(k, i), k.info, e, n);
    KeepIsTheRest(Queue(k, i), k.info, e, n);
  }

  lemma KsigInTwo<P>(k: State<P>, e: nat, w: seq<P>, u: seq<P>)
    requires Inv(k) && e != 0 && AreWaiters(k, Chain(e), e, w) && AreWaiters(k, SUSPENDED, e, u)
    ensures WakeAll(k, w + u)
         == SuspendedAfter(ChainAfter(k, e, WithoutAll(Queue(k, Chain(e)), w), w),
                           WithoutAll(Queue(k, SUSPENDED), u), u)
  {
    WaitersKnown(k, Chain(e), e, w);
    hide Inv, AreWaiters, WithoutAll;
    WakeAllAppend(k, w, u);
    WakeFromChain(k, e, w);
    WakeAllKeepsInv(k, w);
    StillWaiting(k, WakeAll(k, w), e, w, u);
    WakeFromSuspended(WakeAll(k, w), e, u);
  }

  lemma TwoSteps<P>(k: State<P>, e: nat, c: seq<P>, w: seq<P>, s: seq<P>, u: seq<P>)
    requires |k.q| == NQUEUES
    ensures SuspendedAfter(ChainAfter(k, e, c, w), s, u)
         == State(k.cur, k.q[READY := Queue(k, READY) + w][SUSPENDED := s + u][Chain(e) := c],
                  AwakeInfo(k.info, w + u))
  {
    AwakeAll(k.info, w, u);
  }

  /** ksig in closed form: the first waiters of the chain go to the end of the ready queue, then, if
      fewer than the limit waited, the first suspended waiters go to the end of the suspended queue.
      Both keep their order, everyone else keeps place and order, and only those woken change. */
  ghost function KsigResult<P>(k: State<P>, e: nat, n: nat): State<P>
    requires |k.q| == NQUEUES
  {
    State(k.cur,
          k.q[READY := Queue(k, READY) + Woken(k, e, n)]
             [SUSPENDED := StillSuspended(k, e, n) + Freed(k, e, n)]
             [Chain(e) := StillOnChain(k, e, n)],
          AwakeInfo(k.info, Woken(k, e, n) + Freed(k, e, n)))
  }

  ghost function StillOnChain<P>(k: State<P>, e: nat, n: nat): seq<P> {
    Keep(Queue(k, Chain(e)), k.info, e, Limit(n))
  }

  ghost function StillSuspended<P>(k: State<P>, e: nat, n: nat): seq<P> {
    Keep(Queue(k, SUSPENDED), k.info, e, Limit(n) - |Woken(k, e, n)|)
  }

  lemma WokenAndFreed<P>(k: State<P>, e: nat, n: nat)
    requires Inv(k)
    ensures AreWaiters(k, Chain(e), e, Woken(k, e, n)) && AreWaiters(k, SUSPENDED, e, Freed(k, e, n))
    ensures WithoutAll(Queue(k, Chain(e)), Woken(k, e, n)) == StillOnChain(k, e, n)
    ensures WithoutAll(Queue(k, SUSPENDED), Freed(k, e, n)) == StillSuspended(k, e, n)
  {
    hide Inv, AreWaiters, Pick, Keep, WithoutAll;
    PickedFromQueue(k, Chain(e), e, Limit(n));
    PickedFromQueue(k, SUSPENDED, e, Limit(n) - |Woken(k, e, n)|);
  }

  lemma KsigExactly<P>(k: State<P>, e: nat, n: nat)
    requires Inv(k) && e != 0
    ensures Ksig(k, e, n) == KsigResult(k, e, n)
  {
    assert |k.q| == NQUEUES;
    hide Inv, AreWaiters, WithoutAll, SuspendedAfter, ChainAfter, AwakeInfo, WakeAll, Queue, Woken, Freed,
         StillOnChain, StillSuspended;
    WokenAndFreed(k, e, n);
    KsigInTwo(k, e, Woken(k, e, n), Freed(k, e, n));
    TwoSteps(k, e, StillOnChain(k, e, n), Woken(k, e, n), StillSuspended(k, e, n), Freed(k, e, n));
  }

  lemma WaitersKnown<P>(k: State<P>, i: nat, e: nat, ps: seq<P>)
    requires AreWaiters(k, i, e, ps)
    ensures forall p :: p in ps ==> p in k.info
  {
  }

  lemma StillWaiting<P>(k: State<P>, k1: State<P>, e: nat, w: seq<P>, u: seq<P>)
    requires Inv(k) && AreWaiters(k, Chain(e), e, w) && AreWaiters(k, SUSPENDED, e, u)
    requires exists c :: k1 == ChainAfter(k, e, c, w)
    ensures AreWaiters(k1, SUSPENDED, e, u) && Queue(k1, SUSPENDED) == Queue(k, SUSPENDED)
  {
    assert QueueOk(k.q[SUSPENDED], SUSPENDED, k.cur, k.info);
    assert QueueOk(k.q[Chain(e)], Chain(e), k.cur, k.info);
    assert forall p :: p in u ==> p !in w;
  }

  lemma AwakeAll<P>(info: map<P, Info>, w: seq<P>, u: seq<P>)
    ensures AwakeInfo(AwakeInfo(info, w), u) == AwakeInfo(info, w + u)
  {
    assert forall p :: p in w + u <==> p in w || p in u;
  }

  // ----- what the picked and the kept are -----

  /** All the processes of s that wait for e, in order. */
  ghost function Waiters<P>(s: seq<P>, info: map<P, Info>, e: nat): seq<P> {
    if s == [] then []
    else if At(info, s[0]).event == e then [s[0]] + Waiters(s[1..], info, e)
    else Waiters(s[1..], info, e)
  }

  /** The others, hash collisions among them. */
  ghost function Others<P>(s: seq<P>, info: map<P, Info>, e: nat): seq<P> {
    if s == [] then []
    else if At(info, s[0]).event != e then [s[0]] + Others(s[1..], info, e)
    else Others(s[1..], info, e)
  }

  ghost predicate Subsequence<P>(a: seq<P>, s: seq<P>) {
    if a == [] then true
    else if s == [] then false
    else if a[0] == s[0] && Subsequence(a[1..], s[1..]) then true
    else Subsequence(a, s[1..])
  }

  /** Exactly the first min(n, waiters) are picked; the rest of the waiters and all others stay,
      each in their order. */
  lemma {:induction false} PickTakesTheFirst<P>(s: seq<P>, info: map<P, Info>, e: nat, n: int)
    ensures var w := Waiters(s, info, e);
            && Pick(s, info, e, n) == w[..Least(n, |w|)]
            && Waiters(Keep(s, info, e, n), info, e) == w[Least(n, |w|)..]
    ensures Others(Keep(s, info, e, n), info, e) == Others(s, info, e)
    decreases |s|
  {
    if s != [] && n > 0 {
      var x, t := s[0], s[1..];
      PickTakesTheFirst(t, info, e, if At(info, x).event == e then n - 1 else n);
      var kept := Keep(t, info, e, if At(info, x).event == e then n - 1 else n);
      assert ([x] + kept)[1..] == kept;
    }
  }

  lemma {:induction false} SubsequenceOfItself<P>(s: seq<P>)
    ensures Subsequence(s, s)
    decreases |s|
  {
    if s != [] {
      SubsequenceOfItself(s[1..]);
    }
  }

  /** Nobody who stays overtakes anybody. */
  lemma {:induction false} KeepKeepsOrder<P>(s: seq<P>, info: map<P, Info>, e: nat, n: int)
    ensures Subsequence(Keep(s, info, e, n), s)
    decreases |s|
  {
    if s == [] || n <= 0 {
      SubsequenceOfItself(s);
    } else {
      var x, t := s[0], s[1..];
      KeepKeepsOrder(t, info, e, if At(info, x).event == e then n - 1 else n);
      var kept := Keep(t, info, e, if At(info, x).event == e then n - 1 else n);
      assert ([x] + kept)[1..] == kept;
    }
  }

  lemma {:induction false} WaitersAreAll<P>(s: seq<P>, info: map<P, Info>, e: nat)
    ensures forall p :: p in Waiters(s, info, e) ==> p in s && At(info, p).event == e
    ensures forall p :: p in s && At(info, p).event == e ==> p in Waiters(s, info, e)
    ensures Distinct(s) ==> Distinct(Waiters(s, info, e))
    decreases |s|
  {
    if s != [] {
      WaitersAreAll(s[1..], info, e);
      assert forall p :: p in s ==> p == s[0] || p in s[1..];
      assert Distinct(s) ==> s[0] !in s[1..];
    }
  }

  /** All who wait for e, in the order in which ksig would wake them. */
  ghost function InLine<P>(k: State<P>, e: nat): seq<P> {
    Waiters(Queue(k, Chain(e)), k.info, e) + Waiters(Queue(k, SUSPENDED), k.info, e)
  }

  lemma DistinctBoth<P>(w: seq<P>, u: seq<P>)
    requires Distinct(w) && Distinct(u) && forall p :: p in w ==> p !in u
    ensures Distinct(w + u)
  {
    var s := w + u;
    forall i, j | 0 <= i < j < |s|
      ensures s[i] != s[j]
    {
      assert i < |w| ==> s[i] in w;
      assert j >= |w| ==> s[j] in u;
    }
  }

  lemma WaitersOfQueue<P>(k: State<P>, i: nat, e: nat)
    requires Inv(k) && i < NQUEUES
    ensures var w := Waiters(Queue(k, i), k.info, e);
            && Distinct(w)
            && forall p :: p in w ==> p in k.info && Home(k.info[p]) == i && k.info[p].event == e
  {
    assert QueueOk(k.q[i], i, k.cur, k.info);
    WaitersAreAll(k.q[i], k.info, e);
    hide Inv, Home, Waiters;
  }

  lemma InLineAreAll<P>(k: State<P>, e: nat)
    requires Inv(k) && e != 0
    ensures Distinct(InLine(k, e)) && forall p :: p in InLine(k, e) ==> p in k.info && k.info[p].event == e
    ensures forall p :: p in k.info && k.info[p].event == e ==> p in InLine(k, e)
  {
    hide Inv, Waiters, Queue, Home, Distinct;
    WaitersOfQueue(k, Chain(e), e);
    WaitersOfQueue(k, SUSPENDED, e);
    DistinctBoth(Waiters(Queue(k, Chain(e)), k.info, e), Waiters(Queue(k, SUSPENDED), k.info, e));
    forall p | p in k.info && k.info[p].event == e
      ensures p in InLine(k, e)
    {
      WaiterIsQueued(k, e, p);
    }
  }

  lemma WaiterIsQueued<P>(k: State<P>, e: nat, p: P)
    requires Inv(k) && e != 0 && p in k.info && k.info[p].event == e
    ensures p in Waiters(Queue(k, Chain(e)), k.info, e) || p in Waiters(Queue(k, SUSPENDED), k.info, e)
  {
    assert FlagsOk(k.info[p]);
    WaitersAreAll(Queue(k, Chain(e)), k.info, e);
    WaitersAreAll(Queue(k, SUSPENDED), k.info, e);
  }

  lemma FirstOfBoth<P>(w: seq<P>, u: seq<P>, n: nat)
    ensures var a := Least(n, |w|);
            w[..a] + u[..Least(n - a, |u|)] == (w + u)[..Least(n, |w + u|)]
  {
  }

  lemma WokenAreFirst<P>(k: State<P>, e: nat, n: nat)
    ensures var q := InLine(k, e); Woken(k, e, n) + Freed(k, e, n) == q[..Least(Limit(n), |q|)]
  {
    hide Waiters, Pick, Keep;
    PickTakesTheFirst(Queue(k, Chain(e)), k.info, e, Limit(n));
    PickTakesTheFirst(Queue(k, SUSPENDED), k.info, e, Limit(n) - |Woken(k, e, n)|);
    FirstOfBoth(Waiters(Queue(k, Chain(e)), k.info, e), Waiters(Queue(k, SUSPENDED), k.info, e), Limit(n));
  }

  lemma InPart<P>(q: seq<P>, i: nat, p: P)
    requires Distinct(q) && i <= |q|
    ensures p in q[i..] <==> p in q && p !in q[..i]
  {
    assert q == q[..i] + q[i..];
  }

  /** Those who still wait after ksig are exactly all but the first min(n, waiters). */
  lemma StillWaits<P>(k: State<P>, e: nat, n: nat, p: P)
    requires Inv(k) && e != 0
    ensures var q, k' := InLine(k, e), Ksig(k, e, n);
            p in k'.info && k'.info[p].event == e <==> p in q[Least(Limit(n), |q|)..]
  {
    var q := InLine(k, e);
    KsigKeepsInv(k, e, n);
    assert |k.q| == NQUEUES;
    hide Inv, Ksig, Woken, Freed, InLine;
    InLineAreAll(k, e);
    WokenAreFirst(k, e, n);
    KsigExactly(k, e, n);
    var i := Least(Limit(n), |q|);
    InPart(q, i, p);
    hide Queue, KsigResult;
    var info := Ksig(k, e, n).info;
    assert info == AwakeInfo(k.info, q[..i]);
    if p in k.info {
      assert info[p] == if p in q[..i] then Awake(k.info[p]) else k.info[p];
    }
  }

  /** ksig(event, 0) leaves nobody waiting for the event exactly if at most 65535 were, and ksig(event, n)
      exactly if at most n were. */
  lemma SignalToAllWakesAll<P>(k: State<P>, e: nat, n: nat)
    requires Inv(k) && e != 0
    ensures var k' := Ksig(k, e, n);
            (forall p :: p in k'.info ==> k'.info[p].event != e) <==> |InLine(k, e)| <= Limit(n)
  {
    var q, k' := InLine(k, e), Ksig(k, e, n);
    hide Inv, Ksig, InLine, Limit;
    forall p | p in k'.info && k'.info[p].event == e
      ensures p in q[Least(Limit(n), |q|)..]
    {
      StillWaits(k, e, n, p);
    }
    if |q| > Limit(n) {
      var p := q[Limit(n)];
      assert q[Limit(n)..][0] == p;
      StillWaits(k, e, n, p);
    }
  }
}
