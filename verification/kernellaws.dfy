/** What the calls of core/kernel.c promise their callers, said without the functions that specify them: who is woken
    and in which order, what a process then sees kwait return, and that a wait is posted before the queued signals are
    served. */
module KernelLaws {
  import opened Common
  import opened Lists
  import opened KernelSpec
  import opened KernelCalls

  // ----- what a signal leaves of a line -----

  lemma {:induction false} WaitersAppend<P>(a: seq<P>, b: seq<P>, info: map<P, Info>, e: nat)
    ensures Waiters(a + b, info, e) == Waiters(a, info, e) + Waiters(b, info, e)
    decreases |a|
  {
    if a == [] {
      assert a + b == b;
    } else {
      assert (a + b)[1..] == a[1..] + b;
      WaitersAppend(a[1..], b, info, e);
    }
  }

  lemma {:induction false} WaitersSame<P>(s: seq<P>, info: map<P, Info>, info': map<P, Info>, e: nat)
    requires forall p :: p in s ==> (At(info, p).event == e <==> At(info', p).event == e)
    ensures Waiters(s, info', e) == Waiters(s, info, e)
    decreases |s|
  {
    if s != [] {
      assert s[0] in s;
      WaitersSame(s[1..], info, info', e);
    }
  }

  lemma {:induction false} NoWaiters<P>(s: seq<P>, info: map<P, Info>, e: nat)
    requires forall p :: p in s ==> At(info, p).event != e
    ensures Waiters(s, info, e) == []
    decreases |s|
  {
    if s != [] {
      assert s[0] in s;
      NoWaiters(s[1..], info, e);
    }
  }

  lemma {:induction false} KeepOther<P>(s: seq<P>, info: map<P, Info>, e: nat, n: int, other: nat)
    requires e != other
    ensures Waiters(Keep(s, info, e, n), info, other) == Waiters(s, info, other)
    decreases |s|
  {
    if s != [] && n > 0 {
      var t, m := s[1..], if At(info, s[0]).event == e then n - 1 else n;
      KeepOther(t, info, e, m, other);
      assert ([s[0]] + Keep(t, info, e, m))[1..] == Keep(t, info, e, m);
    }
  }

  lemma {:induction false} KeptIsNotPicked<P>(s: seq<P>, info: map<P, Info>, e: nat, n: int)
    requires Distinct(s)
    ensures forall p :: p in Keep(s, info, e, n) ==> p in s && p !in Pick(s, info, e, n)
    decreases |s|
  {
    if s != [] && n > 0 {
      var t, m := s[1..], if At(info, s[0]).event == e then n - 1 else n;
      KeptIsNotPicked(t, info, e, m);
      PickedAreWaiters(t, info, e, m);
    }
  }

  lemma KsigQueues<P>(k: State<P>, e: nat, n: nat, other: nat)
    requires Inv(k) && e != 0
    ensures var k' := Ksig(k, e, n);
            && Queue(k', SUSPENDED) == StillSuspended(k, e, n) + Freed(k, e, n)
            && Queue(k', Chain(other)) == (if Chain(other) == Chain(e) then StillOnChain(k, e, n)
                                           else Queue(k, Chain(other)))
            && k'.info == AwakeInfo(k.info, Woken(k, e, n) + Freed(k, e, n))
  {
    assert |k.q| == NQUEUES;
    hide *;
    KsigExactly(k, e, n);
    ResultQueues(k, e, n, other);
  }

  lemma ResultQueues<P>(k: State<P>, e: nat, n: nat, other: nat)
    requires |k.q| == NQUEUES
    ensures var k' := KsigResult(k, e, n);
            && Queue(k', SUSPENDED) == StillSuspended(k, e, n) + Freed(k, e, n)
            && Queue(k', Chain(other)) == (if Chain(other) == Chain(e) then StillOnChain(k, e, n)
                                           else Queue(k, Chain(other)))
            && k'.info == AwakeInfo(k.info, Woken(k, e, n) + Freed(k, e, n))
  {
    hide Woken, Freed, StillOnChain, StillSuspended, AwakeInfo, Phash;
  }

  /** Who is awakened is in a queue of waiters, and has a new entry; the others have theirs. */
  lemma AwakeAt<P>(k: State<P>, e: nat, n: nat, p: P)
    requires Inv(k) && e != 0
    ensures var ps := Woken(k, e, n) + Freed(k, e, n);
            At(AwakeInfo(k.info, ps), p)
            == if p in ps then Info(At(k.info, p).suspend, false, 0, 0) else At(k.info, p)
    ensures p in Woken(k, e, n) + Freed(k, e, n) ==> p in k.info && k.info[p].event == e
  {
    WokenAndFreed(k, e, n);
    hide Woken, Freed, StillOnChain, StillSuspended, Inv, WithoutAll;
  }

  /** A signal for another event does not change the line. */
  lemma KsigOther<P>(k: State<P>, e: nat, n: nat, other: nat)
    requires Inv(k) && other != 0 && e != other
    ensures InLine(Ksig(k, e, n), other) == InLine(k, other)
  {
    if e != 0 {
      var k' := Ksig(k, e, n);
      hide *;
      KsigQueues(k, e, n, other);
      forall p
        ensures At(k.info, p).event == other <==> At(k'.info, p).event == other
      {
        AwakeAt(k, e, n, p);
        AtIs(k.info, p);
      }
      var u := Freed(k, e, n);
      forall p | p in u
        ensures At(k'.info, p).event != other
      {
        AwakeAt(k, e, n, p);
      }
      WaitersSame(Queue(k, Chain(other)), k.info, k'.info, other);
      WaitersSame(StillOnChain(k, e, n), k.info, k'.info, other);
      WaitersSame(StillSuspended(k, e, n), k.info, k'.info, other);
      WaitersAppend(StillSuspended(k, e, n), u, k'.info, other);
      NoWaiters(u, k'.info, other);
      StillOthers(k, e, n, other);
      LineIs(k, other);
      LineIs(k', other);
    }
  }

  lemma AtIs<P>(info: map<P, Info>, p: P)
    ensures p in info ==> At(info, p) == info[p]
    ensures p !in info ==> At(info, p) == Info(false, false, 0, 0)
  {
  }

  lemma LineIs<P>(k: State<P>, e: nat)
    ensures InLine(k, e) == Waiters(Queue(k, Chain(e)), k.info, e) + Waiters(Queue(k, SUSPENDED), k.info, e)
  {
  }

  lemma StillOthers<P>(k: State<P>, e: nat, n: nat, other: nat)
    requires e != other
    ensures Waiters(StillOnChain(k, e, n), k.info, other) == Waiters(Queue(k, Chain(e)), k.info, other)
    ensures Waiters(StillSuspended(k, e, n), k.info, other) == Waiters(Queue(k, SUSPENDED), k.info, other)
  {
    hide Keep, Waiters, Woken;
    KeepOther(Queue(k, Chain(e)), k.info, e, Limit(n), other);
    KeepOther(Queue(k, SUSPENDED), k.info, e, Limit(n) - |Woken(k, e, n)|, other);
  }

  /** A signal takes its limit off the front of its line. */
  lemma KsigSame<P>(k: State<P>, e: nat, n: nat)
    requires Inv(k) && e != 0
    ensures var q := InLine(k, e); InLine(Ksig(k, e, n), e) == q[Least(Limit(n), |q|)..]
  {
    var k' := Ksig(k, e, n);
    hide *;
    KsigQueues(k, e, n, e);
    var u := Freed(k, e, n);
    forall p | p in StillOnChain(k, e, n)
      ensures At(k'.info, p) == At(k.info, p)
    {
      StillIsNotAwake(k, e, n, p);
      AwakeAt(k, e, n, p);
    }
    forall p | p in StillSuspended(k, e, n)
      ensures At(k'.info, p) == At(k.info, p)
    {
      StillIsNotAwake(k, e, n, p);
      AwakeAt(k, e, n, p);
    }
    forall p | p in u
      ensures At(k'.info, p).event != e
    {
      AwakeAt(k, e, n, p);
    }
    WaitersSame(StillOnChain(k, e, n), k.info, k'.info, e);
    WaitersSame(StillSuspended(k, e, n), k.info, k'.info, e);
    WaitersAppend(StillSuspended(k, e, n), u, k'.info, e);
    NoWaiters(u, k'.info, e);
    LineIs(k, e);
    LineIs(k', e);
    StillIs(k, e, n);
  }

  lemma StillIsNotAwake<P>(k: State<P>, e: nat, n: nat, p: P)
    requires Inv(k) && e != 0 && (p in StillOnChain(k, e, n) || p in StillSuspended(k, e, n))
    ensures p !in Woken(k, e, n) + Freed(k, e, n)
  {
    var c, s := Queue(k, Chain(e)), Queue(k, SUSPENDED);
    assert QueueOk(c, Chain(e), k.cur, k.info) && QueueOk(s, SUSPENDED, k.cur, k.info);
    KeptIsNotPicked(c, k.info, e, Limit(n));
    KeptIsNotPicked(s, k.info, e, Limit(n) - |Woken(k, e, n)|);
    PickedAreWaiters(c, k.info, e, Limit(n));
    PickedAreWaiters(s, k.info, e, Limit(n) - |Woken(k, e, n)|);
    hide Keep, Pick, Inv, At;
  }

  lemma StillIs<P>(k: State<P>, e: nat, n: nat)
    ensures var q := InLine(k, e);
            Waiters(StillOnChain(k, e, n), k.info, e) + Waiters(StillSuspended(k, e, n), k.info, e)
            == q[Least(Limit(n), |q|)..]
  {
    hide Waiters, Pick, Keep;
    PickTakesTheFirst(Queue(k, Chain(e)), k.info, e, Limit(n));
    PickTakesTheFirst(Queue(k, SUSPENDED), k.info, e, Limit(n) - |Woken(k, e, n)|);
    RestOfBoth(Waiters(Queue(k, Chain(e)), k.info, e), Waiters(Queue(k, SUSPENDED), k.info, e), Limit(n));
  }

  lemma RestOfBoth<P>(w: seq<P>, u: seq<P>, n: nat)
    ensures var a := Least(n, |w|);
            w[a..] + u[Least(n - a, |u|)..] == (w + u)[Least(n, |w + u|)..]
  {
  }

  /** How many processes the signals for e among sigs may wake. */
  ghost function Claims(sigs: seq<Signal>, e: nat): nat {
    if sigs == [] then 0
    else (if sigs[0].event != e then 0 else if sigs[0].n == 0 then 65535 else sigs[0].n) + Claims(sigs[1..], e)
  }

  /** The queued signals take that many off the front of the line. */
  lemma {:induction false} ProcsigsLine<P>(k: State<P>, sigs: seq<Signal>, e: nat)
    requires Inv(k) && e != 0
    ensures var q := InLine(k, e); InLine(Procsigs(k, sigs), e) == q[Least(Claims(sigs, e), |q|)..]
    decreases |sigs|
  {
    var q := InLine(k, e);
    hide Inv, InLine, Ksig;
    if sigs != [] {
      var k1 := Ksig(k, sigs[0].event, sigs[0].n);
      KsigKeepsInv(k, sigs[0].event, sigs[0].n);
      if sigs[0].event == e {
        KsigSame(k, e, sigs[0].n);
      } else {
        KsigOther(k, sigs[0].event, sigs[0].n, e);
      }
      ProcsigsLine(k1, sigs[1..], e);
    }
  }

  // ----- what a process sees -----

  /** Exactly the first in line for the event are made ready or, if they are suspended, no longer wait, and all of
      them will see kwait return 0; nobody else changes. */
  lemma KsigValue<P>(k: State<P>, e: nat, n: nat, p: P)
    requires Inv(k) && e != 0 && p in k.info
    ensures var q, k' := InLine(k, e), Ksig(k, e, n);
            && p in k'.info
            && k'.info[p] == if p in q[..Least(if n == 0 then 65535 else n, |q|)]
                             then Info(k.info[p].suspend, false, 0, 0) else k.info[p]
  {
    hide *;
    KsigKeepsInv(k, e, n);
    KsigQueues(k, e, n, e);
    WokenAreFirst(k, e, n);
    AwakeAt(k, e, n, p);
    AtIs(k.info, p);
    AtIs(Ksig(k, e, n).info, p);
    LimitIs(n);
  }

  lemma LimitIs(n: nat)
    ensures Limit(n) == if n == 0 then 65535 else n
  {
  }

  lemma KsigOnOne<P>(k: State<P>, e: nat, n: nat, p: P)
    requires Inv(k) && p in k.info
    ensures var k' := Ksig(k, e, n);
            p in k'.info && (k'.info[p] == k.info[p]
                             || (k.info[p].event != 0 && k'.info[p] == Info(k.info[p].suspend, false, 0, 0)))
  {
    if e != 0 {
      hide *;
      KsigValue(k, e, n, p);
      InLineAreAll(k, e);
    }
  }

  /** The queued signals leave a process alone, or it waited and will now see 0. */
  lemma {:induction false} ProcsigsOnOne<P>(k: State<P>, sigs: seq<Signal>, p: P)
    requires Inv(k) && p in k.info
    ensures var k' := Procsigs(k, sigs);
            p in k'.info && (k'.info[p] == k.info[p]
                             || (k.info[p].event != 0 && k'.info[p] == Info(k.info[p].suspend, false, 0, 0)))
    decreases |sigs|
  {
    hide Inv, Ksig;
    if sigs != [] {
      KsigOnOne(k, sigs[0].event, sigs[0].n, p);
      KsigKeepsInv(k, sigs[0].event, sigs[0].n);
      ProcsigsOnOne(Ksig(k, sigs[0].event, sigs[0].n), sigs[1..], p);
    }
  }

  /** The process that is dispatched sees its return value, which is then 0 for the next time. */
  lemma DispatchValue<P>(k: State<P>)
    requires Queue(k, 0) != []
    ensures var p, o := Queue(k, 0)[0], Dispatch(k);
            && o.Returned? && o.k.cur == Some(p) && o.val == At(k.info, p).retval
            && o.k.info == k.info[p := At(k.info, p).(retval := 0)]
            && |o.k.q| == |k.q| && Queue(o.k, 0) == Queue(k, 0)[1..]
            && forall i :: 0 < i < |k.q| ==> o.k.q[i] == k.q[i]
  {
  }

  /** An alerted process does not wait any more, and sees the value. */
  lemma AlertValue<P>(k: State<P>, p: P, v: int)
    requires Inv(k) && p in k.info
    ensures var k' := Alert(k, p, v);
            && k'.cur == k.cur && k'.info == k.info[p := Info(k.info[p].suspend, false, 0, v)]
            && (k.cur != Some(p) ==> |k'.q| == 17 && var i := if k.info[p].suspend then 1 else 0;
                                     k'.q[i] != [] && k'.q[i][|k'.q[i]| - 1] == p)
  {
    assert |k.q| == NQUEUES;
    hide Inv, Without;
    if k.cur != Some(p) {
      RequeueIs(k, p, Info(k.info[p].suspend, false, 0, v), if k.info[p].suspend then 1 else 0);
    }
  }

  /** Whoever runs next after a signal that awakened it, sees 0. */
  lemma SignalledSeesZero<P>(k: State<P>, e: nat, n: nat)
    requires Inv(k) && e != 0 && Queue(Ksig(k, e, n), 0) != []
    ensures var p, q, o := Queue(Ksig(k, e, n), 0)[0], InLine(k, e), Dispatch(Ksig(k, e, n));
            && o.Returned? && o.k.cur == Some(p)
            && (p in q[..Least(if n == 0 then 65535 else n, |q|)] ==> o.val == 0)
  {
    var k' := Ksig(k, e, n);
    var p := Queue(k', 0)[0];
    hide *;
    KsigKeepsInv(k, e, n);
    ReadyIsKnown(k');
    KsigValue(k, e, n, p);
    DispatchValue(k');
    AtIs(k'.info, p);
  }

  /** Whoever runs next after an alert, sees its value. */
  lemma AlertedSeesValue<P>(k: State<P>, p: P, v: int)
    requires Inv(k) && p in k.info && Queue(Alert(k, p, v), 0) != [] && Queue(Alert(k, p, v), 0)[0] == p
    ensures var o := Dispatch(Alert(k, p, v)); o.Returned? && o.k.cur == Some(p) && o.val == v
  {
    hide *;
    AlertValue(k, p, v);
    DispatchValue(Alert(k, p, v));
    AtIs(Alert(k, p, v).info, p);
  }

  lemma ReadyIsKnown<P>(k: State<P>)
    requires Inv(k) && Queue(k, 0) != []
    ensures Queue(k, 0)[0] in k.info
  {
    assert QueueOk(k.q[READY], READY, k.cur, k.info);
    assert k.q[READY][0] in k.q[READY];
  }

  // ----- kwait -----

  lemma ParkQueues<P>(k: State<P>, p: P, i: Info, m: nat)
    requires Inv(k) && k.cur == Some(p) && m < NQUEUES
    ensures Queue(Park(k, p, i), m) == (if m == Home(i) then Queue(k, m) + [p] else Queue(k, m))
    ensures Park(k, p, i).info == k.info[p := i] && p !in Queue(k, m) && Park(k, p, i).cur == None
  {
    OnNoQueue(k, p);
  }

  lemma OneWaiter<P>(info: map<P, Info>, p: P, e: nat)
    requires p in info && info[p].event == e
    ensures Waiters([p], info, e) == [p]
  {
    assert [p][1..] == [];
  }

  /** A process that waits goes behind those that wait for the event already; suspended ones come last. */
  lemma ParkLine<P>(k: State<P>, p: P, i: Info)
    requires Inv(k) && k.cur == Some(p) && i.waiting && i.event != 0
    ensures var w := Waiters(Queue(k, Chain(i.event)), k.info, i.event);
            InLine(Park(k, p, i), i.event)
            == if i.suspend then InLine(k, i.event) + [p] else w + [p] + InLine(k, i.event)[|w|..]
  {
    var e, k' := i.event, Park(k, p, i);
    var c, u := Queue(k, Chain(e)), Queue(k, SUSPENDED);
    assert Home(i) == if i.suspend then SUSPENDED else Chain(e);
    assert SUSPENDED < NQUEUES && Chain(e) != SUSPENDED;
    hide *;
    ParkQueues(k, p, i, Chain(e));
    ParkQueues(k, p, i, SUSPENDED);
    forall x | x in c
      ensures At(k'.info, x) == At(k.info, x)
    {
      AtOther(k.info, p, i, x);
    }
    forall x | x in u
      ensures At(k'.info, x) == At(k.info, x)
    {
      AtOther(k.info, p, i, x);
    }
    WaitersSame(c, k.info, k'.info, e);
    WaitersSame(u, k.info, k'.info, e);
    WaitersAppend(c, [p], k'.info, e);
    WaitersAppend(u, [p], k'.info, e);
    OneWaiter(k'.info, p, e);
    LineIs(k, e);
    LineIs(k', e);
    var w, v := Waiters(c, k.info, e), Waiters(u, k.info, e);
    assert (w + v)[|w|..] == v && w + (v + [p]) == w + v + [p];
  }

  lemma AtOther<P>(info: map<P, Info>, p: P, i: Info, x: P)
    requires x != p
    ensures At(info[p := i], x) == At(info, x)
  {
  }

  /** Who waits for the event in front of p, once it waits for it. */
  ghost function Ahead<P>(k: State<P>, p: P, e: nat): nat {
    if At(k.info, p).suspend then |InLine(k, e)| else |Waiters(Queue(k, Chain(e)), k.info, e)|
  }

  lemma InRest<P>(a: seq<P>, p: P, b: seq<P>, n: nat)
    requires Distinct(a + [p] + b)
    ensures var q := a + [p] + b; p in q[Least(n, |q|)..] <==> n <= |a|
  {
    var q := a + [p] + b;
    var i := Least(n, |q|);
    assert q[|a|] == p;
    if n <= |a| {
      assert q[i..][|a| - i] == p;
    }
  }

  lemma ParkedInLine<P>(k: State<P>, p: P, i: Info) returns (a: seq<P>, b: seq<P>)
    requires Inv(k) && k.cur == Some(p) && p in k.info && i.waiting && i.event != 0 && i.suspend == k.info[p].suspend
    ensures var kp := Park(k, p, i);
            && Inv(kp) && kp.cur == None && p in kp.info && kp.info[p] == i
            && InLine(kp, i.event) == a + [p] + b && |a| == Ahead(k, p, i.event) && Distinct(a + [p] + b)
  {
    hide *;
    AtIs(k.info, p);
    WaitFlags(i);
    ParkKeepsInv(k, p, i);
    ParkLine(k, p, i);
    NoQueues();
    ParkQueues(k, p, i, 0);
    InLineAreAll(Park(k, p, i), i.event);
    AheadIs(k, p, i.event);
    var w := Waiters(Queue(k, Chain(i.event)), k.info, i.event);
    a, b := if i.suspend then InLine(k, i.event) else w, if i.suspend then [] else InLine(k, i.event)[|w|..];
    assert i.suspend ==> a + [p] + b == a + [p];
  }

  /** The queued signals find p waiting: they reach it exactly if they may wake more than wait in front of it. */
  lemma WaitMeetsSignals<P>(k: State<P>, p: P, event: nat, sigs: seq<Signal>)
    requires Inv(k) && k.cur == Some(p) && event != 0 && p in k.info
    ensures var i := k.info[p].(waiting := true, event := event);
            var k1 := Procsigs(Park(k, p, i), sigs);
            && Inv(k1) && k1.cur == None && p in k1.info
            && k1.info[p] == if Claims(sigs, event) > Ahead(k, p, event) then Info(i.suspend, false, 0, 0) else i
  {
    var i := k.info[p].(waiting := true, event := event);
    var kp := Park(k, p, i);
    hide *;
    var a, b := ParkedInLine(k, p, i);
    ProcsigsKeepsInv(kp, sigs);
    ProcsigsLine(kp, sigs, event);
    ProcsigsOnOne(kp, sigs, p);
    InLineAreAll(Procsigs(kp, sigs), event);
    InRest(a, p, b, Claims(sigs, event));
  }

  lemma NoQueues()
    ensures 0 < NQUEUES
  {
  }

  lemma WaitFlags(i: Info)
    requires i.waiting && i.event != 0
    ensures FlagsOk(i)
  {
  }

  lemma AheadIs<P>(k: State<P>, p: P, e: nat)
    ensures Ahead(k, p, e)
         == if At(k.info, p).suspend then |InLine(k, e)| else |Waiters(Queue(k, Chain(e)), k.info, e)|
    ensures |Waiters(Queue(k, Chain(e)), k.info, e)| <= |InLine(k, e)|
  {
  }

  /** Until somebody is ready, p is left alone, or it waited and is woken. What it sees if it is the one that runs. */
  lemma {:induction false} IdleOnOne<P>(k: State<P>, arrivals: seq<seq<Signal>>, p: P)
    requires Inv(k) && k.cur == None && p in k.info
    ensures var o := Idle(k, arrivals);
            var i, j := k.info[p], Info(k.info[p].suspend, false, 0, 0);
            && p in o.k.info
            && (if o.Returned? && o.k.cur == Some(p) then
                  o.k.info[p].event == 0 && (o.val == i.retval || (i.event != 0 && o.val == 0))
                else o.k.info[p] == i || (i.event != 0 && o.k.info[p] == j))
            && (i.event != 0 && o.Returned? && o.k.cur == Some(p) ==> o.val == 0)
            && (!i.suspend && i.event == 0 ==> o.Returned?)
    decreases |arrivals|
  {
    if Queue(k, READY) != [] || arrivals == [] {
      ReadyOnly(k, p);
    } else {
      ReadyOnly(k, p);
      hide Inv, Procsigs;
      ProcsigsKeepsInv(k, arrivals[0]);
      ProcsigsOnOne(k, arrivals[0], p);
      IdleOnOne(Procsigs(k, arrivals[0]), arrivals[1..], p);
    }
  }

  lemma ReadyOnly<P>(k: State<P>, p: P)
    requires Inv(k) && k.cur == None && p in k.info
    ensures p in Queue(k, READY) <==> !k.info[p].suspend && k.info[p].event == 0
    ensures Queue(k, READY) != [] ==> Queue(k, READY)[0] in Queue(k, READY)
  {
    assert QueueOk(k.q[READY], READY, k.cur, k.info);
    assert FlagsOk(k.info[p]);
    assert p in k.q[Home(k.info[p])];
  }

  /** kwait posts its wait before it looks at the queued signals: they reach the process exactly if they may wake more
      than wait for the event in front of it. Then it does not wait any more, and unless it is suspended somebody runs
      at once. If it runs itself, kwait has returned 0. */
  lemma KwaitPostsFirst<P>(k: State<P>, p: P, event: nat, sigs: seq<Signal>, arrivals: seq<seq<Signal>>)
    requires Inv(k) && k.cur == Some(p) && event != 0
    ensures p in k.info
    ensures var o := Kwait(k, p, event, sigs, arrivals);
            && p in o.k.info && (o.Returned? && o.k.cur == Some(p) ==> o.val == 0)
            && (Claims(sigs, event) > Ahead(k, p, event) ==>
                  o.k.info[p].event == 0 && (!k.info[p].suspend ==> o.Returned?))
            && (Claims(sigs, event) <= Ahead(k, p, event) && arrivals == [] ==>
                  o.k.cur != Some(p) && o.k.info[p] == Info(k.info[p].suspend, true, event, k.info[p].retval))
  {
    assert p in k.info;
    var i := k.info[p].(waiting := true, event := event);
    assert At(k.info, p) == k.info[p];
    var k1 := Procsigs(Park(k, p, i), sigs);
    hide Inv, Park, Procsigs, Ahead, Claims;
    WaitMeetsSignals(k, p, event, sigs);
    if arrivals == [] {
      ReadyOnly(k1, p);
    }
    IdleOnOne(k1, arrivals, p);
  }

  /** The null event lets the others run: with nobody ready kwait returns 0 at once; otherwise the first ready process
      runs, and the caller goes behind the others. */
  lemma KwaitYields<P>(k: State<P>, p: P, arrivals: seq<seq<Signal>>)
    requires Inv(k) && k.cur == Some(p) && p in k.info
    ensures var r, o := Queue(k, 0), Kwait(k, p, 0, [], arrivals);
            if r == [] then o == Returned(k, 0)
            else && o.Returned? && o.k.cur == Some(r[0]) && o.val == At(k.info, r[0]).retval
                 && Queue(o.k, 0) == r[1..] + (if k.info[p].suspend then [] else [p])
                 && Queue(o.k, 1) == Queue(k, 1) + (if k.info[p].suspend then [p] else [])
                 && o.k.info == k.info[r[0] := At(k.info, r[0]).(retval := 0)]
  {
    var i := k.info[p];
    assert FlagsOk(i) && !i.waiting && |k.q| == NQUEUES && At(k.info, p) == i && k.info[p := i] == k.info;
    assert Home(i) == if i.suspend then 1 else 0;
    var r, kp := Queue(k, 0), Park(k, p, i);
    ParkQueues(k, p, i, 0);
    ParkQueues(k, p, i, 1);
    hide Inv, Park, Home, FlagsOk;
    if r != [] {
      assert Queue(kp, 0) == r + (if i.suspend then [] else [p]);
      assert Queue(kp, 0)[0] == r[0];
    }
  }

  // ----- in which order -----

  /** The first in line that are not suspended go behind the ready processes, in order. */
  lemma KsigReady<P>(k: State<P>, e: nat, n: nat)
    requires Inv(k) && e != 0
    ensures var w := Waiters(Queue(k, Chain(e)), k.info, e);
            Queue(Ksig(k, e, n), 0) == Queue(k, 0) + w[..Least(if n == 0 then 65535 else n, |w|)]
  {
    assert |k.q| == NQUEUES;
    hide Inv, Ksig, Freed, StillOnChain, StillSuspended, AwakeInfo, Pick, Keep;
    KsigExactly(k, e, n);
    PickTakesTheFirst(Queue(k, Chain(e)), k.info, e, Limit(n));
  }

  /** A signal with interrupts on comes behind the queued ones: whom these make ready runs before whom it makes
      ready. */
  lemma KsignalIsLast<P>(k: State<P>, s: Signal, e: nat, n: nat)
    requires Inv(k) && e != 0 && s.event != 0 && s.event != e
    ensures var v, w := Waiters(Queue(k, Chain(s.event)), k.info, s.event), Waiters(Queue(k, Chain(e)), k.info, e);
            Queue(Ksignal(k, [s], e, n), 0)
            == Queue(k, 0) + v[..Least(if s.n == 0 then 65535 else s.n, |v|)]
               + w[..Least(if n == 0 then 65535 else n, |w|)]
  {
    var k1 := Ksig(k, s.event, s.n);
    assert Procsigs(k, [s]) == k1 by {
      assert [s][1..] == [];
      hide Ksig;
    }
    assert Ksignal(k, [s], e, n) == Ksig(k1, e, n) by {
      hide Ksig, Procsigs;
    }
    hide *;
    KsigKeepsInv(k, s.event, s.n);
    KsigReady(k, s.event, s.n);
    KsigReady(k1, e, n);
    ChainOther(k, s.event, s.n, e);
  }

  lemma ChainOther<P>(k: State<P>, e: nat, n: nat, other: nat)
    requires Inv(k) && e != 0 && other != 0 && e != other
    ensures var k' := Ksig(k, e, n);
            Waiters(Queue(k', Chain(other)), k'.info, other) == Waiters(Queue(k, Chain(other)), k.info, other)
  {
    var k' := Ksig(k, e, n);
    hide *;
    KsigQueues(k, e, n, other);
    forall p | p in Queue(k, Chain(other))
      ensures At(k.info, p).event == other <==> At(k'.info, p).event == other
    {
      AwakeAt(k, e, n, p);
      AtIs(k.info, p);
    }
    forall p | p in StillOnChain(k, e, n)
      ensures At(k.info, p).event == other <==> At(k'.info, p).event == other
    {
      AwakeAt(k, e, n, p);
      AtIs(k.info, p);
    }
    WaitersSame(Queue(k, Chain(other)), k.info, k'.info, other);
    WaitersSame(StillOnChain(k, e, n), k.info, k'.info, other);
    StillOthers(k, e, n, other);
  }

  /** Oldest first: the signals are served one after the other. */
  lemma OldestFirst<P>(k: State<P>, s: Signal, t: Signal)
    requires Inv(k) && s.event != 0 && t.event != 0 && s.event != t.event
    ensures var v, w := Waiters(Queue(k, Chain(s.event)), k.info, s.event),
                        Waiters(Queue(k, Chain(t.event)), k.info, t.event);
            Queue(Procsigs(k, [s, t]), 0)
            == Queue(k, 0) + v[..Least(if s.n == 0 then 65535 else s.n, |v|)]
               + w[..Least(if t.n == 0 then 65535 else t.n, |w|)]
  {
    hide *;
    KsignalIsLast(k, s, t.event, t.n);
    TwoSignals(k, s, t);
  }

  lemma TwoSignals<P>(k: State<P>, s: Signal, t: Signal)
    ensures Procsigs(k, [s, t]) == Ksignal(k, [s], t.event, t.n)
  {
    assert [s, t][1..] == [t] && [t][1..] == [] && [s][1..] == [];
    hide Ksig;
    assert Procsigs(k, [s]) == Ksig(k, s.event, s.n);
    assert Procsigs(Ksig(k, s.event, s.n), [t]) == Ksig(Ksig(k, s.event, s.n), t.event, t.n);
  }

  // ----- the other calls -----

  /** A new process is ready behind the others, and waits for nothing. */
  lemma NewprocIsReady<P>(k: State<P>, p: P)
    requires Inv(k) && p !in k.info
    ensures var k' := Newproc(k, p);
            && k'.cur == k.cur && k'.info == k.info[p := Info(false, false, 0, 0)] && |k'.q| == 17
            && Queue(k', 0) == Queue(k, 0) + [p] && forall i :: 0 < i < 17 ==> k'.q[i] == k.q[i]
  {
  }

  /** Suspending takes another process off the queue it is on and puts it last among the suspended ones; resuming puts
      it last where it then belongs. Neither changes what it waits for, or anybody else. */
  lemma SuspendAndResume<P>(k: State<P>, p: P, on: bool)
    requires Inv(k) && p in k.info && k.cur != Some(p)
    ensures var k', i := SetSuspend(k, p, on), k.info[p];
            && k'.cur == k.cur && k'.info == k.info[p := Info(on, i.waiting, i.event, i.retval)]
            && var m := if on then 1 else if i.waiting then Chain(i.event) else 0;
               |k'.q| == 17 && k'.q[m] != [] && k'.q[m][|k'.q[m]| - 1] == p
  {
    assert |k.q| == NQUEUES;
    hide Inv, Without;
    RequeueIs(k, p, k.info[p].(suspend := on),
              if on then 1 else if k.info[p].waiting then Chain(k.info[p].event) else 0);
  }

  /** Who is killed is gone, and on no queue. Those that waited for its death are awakened, as many as ksig serves, and
      see 0; the others are as they were. */
  lemma MournersWake<P>(k: State<P>, p: P, addr: nat, x: P)
    requires Inv(k) && addr != 0 && p in k.info && k.cur != Some(p) && x in k.info && x != p
    ensures var q, k' := InLine(k, addr), Killproc(k, p, addr, []);
            && p !in k'.info && (forall m :: 0 <= m < |k'.q| ==> p !in k'.q[m]) && k'.cur == k.cur
            && x in k'.info
            && k'.info[x] == if x in q[..Least(65535, |q|)] then Info(k.info[x].suspend, false, 0, 0) else k.info[x]
  {
    hide *;
    KillIs(k, p, addr, []);
    NoSignals(k);
    KsigValue(k, addr, 0, x);
    KillKeepsInv(k, p, addr, []);
    NotQueued(Killproc(k, p, addr, []), p);
  }

  lemma NoSignals<P>(k: State<P>)
    ensures Procsigs(k, []) == k
  {
  }

  lemma NotQueued<P>(k: State<P>, p: P)
    requires Inv(k) && p !in k.info
    ensures forall m :: 0 <= m < |k.q| ==> p !in k.q[m]
  {
    forall m | 0 <= m < |k.q|
      ensures p !in k.q[m]
    {
      assert QueueOk(k.q[m], m, k.cur, k.info);
    }
  }

  /** The chain of an event: its address as a 32-bit number, modulo 15. */
  lemma ChainOfEvent(e: nat)
    ensures Chain(e) == 2 + (e % 4294967296) % 15 < 17
  {
  }
}
