/** The calls of core/kernel.c as steps on KernelSpec states, and what every run of them keeps. */
module KernelCalls {
  import opened Common
  import opened Lists
  import opened KernelSpec

  /** procsigs: serve the queued signals in order. */
  ghost function Procsigs<P>(k: State<P>, sigs: seq<Signal>): State<P>
    decreases |sigs|
  {
    if sigs == [] then k else Procsigs(Ksig(k, sigs[0].event, sigs[0].n), sigs[1..])
  }

  /** Put the running process p on a queue, with new flags; nobody runs until Dispatch. */
  ghost function Park<P>(k: State<P>, p: P, i: Info): State<P> {
    Addproc(k.(cur := None, info := k.info[p := i]), p)
  }

  /** The state kwait leaves, and what the process then running sees it return. A halted machine
      waits in giveup for an interrupt. */
  datatype Outcome<P> = Returned(k: State<P>, val: int) | Halted(k: State<P>)

  /** Run the first ready process; it collects its return value. */
  ghost function Dispatch<P>(k: State<P>): Outcome<P> {
    var r := Queue(k, READY);
    if r == [] then Halted(k)
    else
      var i := At(k.info, r[0]);
      Returned(SetQueue(k, READY, r[1..]).(cur := Some(r[0]), info := k.info[r[0] := i.(retval := 0)]), i.retval)
  }

  /** Wait until somebody is ready; arrivals are the batches of signals that end each giveup. */
  ghost function Idle<P>(k: State<P>, arrivals: seq<seq<Signal>>): Outcome<P>
    decreases |arrivals|
  {
    if Queue(k, READY) != [] || arrivals == [] then Dispatch(k)
    else Idle(Procsigs(k, arrivals[0]), arrivals[1..])
  }

  /** kwait by process p; sigs are the signals queued when it looks. */
  ghost function Kwait<P>(k: State<P>, p: P, event: nat, sigs: seq<Signal>, arrivals: seq<seq<Signal>>): Outcome<P> {
    var i := At(k.info, p);
    if event != 0 then
      Idle(Procsigs(Park(k, p, i.(waiting := true, event := event)), sigs), arrivals)
    else
      var k1 := Procsigs(k, sigs);
      if Queue(k1, READY) == [] then Returned(k1, 0)
      else Idle(Park(k1, p, At(k1.info, p)), arrivals)
  }

  /** ksignal with interrupts on. */
  ghost function Ksignal<P>(k: State<P>, sigs: seq<Signal>, event: nat, n: nat): State<P> {
    Ksig(Procsigs(k, sigs), event, n)
  }

  ghost function Newproc<P>(k: State<P>, p: P): State<P> {
    Addproc(k.(info := k.info[p := NEW_PROC]), p)
  }

  ghost function Alert<P>(k: State<P>, p: P, val: int): State<P> {
    Requeue(k, p, At(k.info, p).(waiting := false, event := 0, retval := val))
  }

  ghost function SetSuspend<P>(k: State<P>, p: P, on: bool): State<P> {
    Requeue(k, p, At(k.info, p).(suspend := on))
  }

  /** killproc of another process, whose address is the event its mourners wait for. */
  ghost function Killproc<P>(k: State<P>, p: P, addr: nat, sigs: seq<Signal>): State<P> {
    var k1 := Delproc(Ksignal(k, sigs, addr, 0), p);
    k1.(info := k1.info - {p})
  }

  // ----- each call keeps the queues in order -----

  lemma {:induction false} ProcsigsKeepsInv<P>(k: State<P>, sigs: seq<Signal>)
    requires Inv(k)
    ensures Inv(Procsigs(k, sigs))
    ensures Procsigs(k, sigs).cur == k.cur && Procsigs(k, sigs).info.Keys == k.info.Keys
    decreases |sigs|
  {
    hide Inv, Ksig;
    if sigs != [] {
      KsigKeepsInv(k, sigs[0].event, sigs[0].n);
      ProcsigsKeepsInv(Ksig(k, sigs[0].event, sigs[0].n), sigs[1..]);
    }
  }

  /** Appending a process that is on no queue to the one its flags select. */
  lemma AppendedQueue<P>(k: State<P>, p: P, i: Info, cur: Option<P>, m: nat)
    requires Inv(k) && m < NQUEUES && p !in k.q[m]
    requires cur == None || (cur == k.cur && cur != Some(p))
    ensures QueueOk(if m == Home(i) then k.q[m] + [p] else k.q[m], m, cur, k.info[p := i])
  {
    assert QueueOk(k.q[m], m, k.cur, k.info);
    AppendKeepsDistinct(k.q[m], p);
  }

  lemma OnNoQueue<P>(k: State<P>, p: P)
    requires Inv(k) && (p !in k.info || k.cur == Some(p))
    ensures forall m :: 0 <= m < NQUEUES ==> p !in k.q[m]
  {
    forall m | 0 <= m < NQUEUES
      ensures p !in k.q[m]
    {
      assert QueueOk(k.q[m], m, k.cur, k.info);
    }
  }

  lemma ParkKeepsInv<P>(k: State<P>, p: P, i: Info)
    requires Inv(k) && FlagsOk(i) && k.cur == Some(p)
    ensures Inv(Park(k, p, i))
  {
    OnNoQueue(k, p);
    forall m | 0 <= m < NQUEUES
      ensures QueueOk(Park(k, p, i).q[m], m, None, k.info[p := i])
    {
      AppendedQueue(k, p, i, None, m);
    }
  }

  lemma NewprocKeepsInv<P>(k: State<P>, p: P)
    requires Inv(k) && p !in k.info
    ensures Inv(Newproc(k, p))
  {
    OnNoQueue(k, p);
    forall m | 0 <= m < NQUEUES
      ensures QueueOk(Newproc(k, p).q[m], m, k.cur, k.info[p := NEW_PROC])
    {
      AppendedQueue(k, p, NEW_PROC, k.cur, m);
    }
  }

  lemma DispatchKeepsInv<P>(k: State<P>)
    requires Inv(k) && k.cur == None
    ensures Inv(Dispatch(k).k) && Dispatch(k).k.info.Keys == k.info.Keys
    ensures Dispatch(k).Returned? ==> Dispatch(k).k.cur.Some?
  {
    var r := Queue(k, READY);
    if r != [] {
      var k' := Dispatch(k).k;
      assert QueueOk(r, READY, k.cur, k.info);
      assert FlagsOk(k.info[r[0]]);
      forall m | 0 <= m < NQUEUES
        ensures QueueOk(k'.q[m], m, k'.cur, k'.info)
      {
        assert QueueOk(k.q[m], m, k.cur, k.info);
      }
      forall x | x in k.info && x != r[0]
        ensures x in k'.q[Home(k'.info[x])]
      {
        assert x in k.q[Home(k.info[x])];
      }
    }
  }

  lemma {:induction false} IdleKeepsInv<P>(k: State<P>, arrivals: seq<seq<Signal>>)
    requires Inv(k) && k.cur == None
    ensures Inv(Idle(k, arrivals).k) && Idle(k, arrivals).k.info.Keys == k.info.Keys
    ensures Idle(k, arrivals).Returned? ==> Idle(k, arrivals).k.cur.Some?
    ensures Idle(k, arrivals).Halted? ==> Idle(k, arrivals).k.cur == None
    decreases |arrivals|
  {
    hide Inv, Procsigs;
    if Queue(k, READY) != [] || arrivals == [] {
      DispatchKeepsInv(k);
    } else {
      ProcsigsKeepsInv(k, arrivals[0]);
      IdleKeepsInv(Procsigs(k, arrivals[0]), arrivals[1..]);
    }
  }

  lemma ParkedKeepsInv<P>(k: State<P>, p: P, i: Info, sigs: seq<Signal>, arrivals: seq<seq<Signal>>)
    requires Inv(k) && FlagsOk(i) && k.cur == Some(p) && p in k.info
    ensures var o := Idle(Procsigs(Park(k, p, i), sigs), arrivals);
            Inv(o.k) && o.k.info.Keys == k.info.Keys && (o.Returned? <==> o.k.cur.Some?)
  {
    ParkKeepsInv(k, p, i);
    hide Inv, Procsigs, Idle;
    ProcsigsKeepsInv(Park(k, p, i), sigs);
    IdleKeepsInv(Procsigs(Park(k, p, i), sigs), arrivals);
  }

  lemma KwaitKeepsInv<P>(k: State<P>, p: P, event: nat, sigs: seq<Signal>, arrivals: seq<seq<Signal>>)
    requires Inv(k) && k.cur == Some(p)
    ensures var o := Kwait(k, p, event, sigs, arrivals);
            Inv(o.k) && o.k.info.Keys == k.info.Keys && (o.Returned? <==> o.k.cur.Some?)
  {
    assert p in k.info && FlagsOk(k.info[p]);
    if event != 0 {
      ParkedKeepsInv(k, p, At(k.info, p).(waiting := true, event := event), sigs, arrivals);
    } else {
      ProcsigsKeepsInv(k, sigs);
      var k1 := Procsigs(k, sigs);
      assert FlagsOk(k1.info[p]);
      ParkedKeepsInv(k1, p, At(k1.info, p), [], arrivals);
    }
  }

  lemma DropKeepsInv<P>(k: State<P>, p: P)
    requires Inv(k) && p in k.info && k.cur != Some(p)
    ensures var k' := Delproc(k, p); Inv(k'.(info := k'.info - {p}))
  {
    assert p in k.q[Home(k.info[p])];
    var k' := Delproc(k, p).(info := k.info - {p});
    forall m | 0 <= m < NQUEUES
      ensures QueueOk(k'.q[m], m, k'.cur, k'.info)
      ensures forall x :: x != p && x in k.q[m] ==> x in k'.q[m]
    {
      assert QueueOk(k.q[m], m, k.cur, k.info);
      if m == Home(k.info[p]) {
        WithoutMembers(k.q[m], p);
      }
    }
  }

  lemma KillIs<P>(k: State<P>, p: P, addr: nat, sigs: seq<Signal>)
    ensures var k1 := Ksig(Procsigs(k, sigs), addr, 0);
            var k2 := Delproc(k1, p);
            Killproc(k, p, addr, sigs) == k2.(info := k2.info - {p}) && k2.info == k1.info && k2.cur == k1.cur
  {
  }

  lemma KillKeepsInv<P>(k: State<P>, p: P, addr: nat, sigs: seq<Signal>)
    requires Inv(k) && p in k.info && k.cur != Some(p)
    ensures Inv(Killproc(k, p, addr, sigs))
    ensures Killproc(k, p, addr, sigs).cur == k.cur
    ensures Killproc(k, p, addr, sigs).info.Keys == k.info.Keys - {p}
  {
    hide *;
    ProcsigsKeepsInv(k, sigs);
    KsigKeepsInv(Procsigs(k, sigs), addr, 0);
    DropKeepsInv(Ksig(Procsigs(k, sigs), addr, 0), p);
    KillIs(k, p, addr, sigs);
  }

  // ----- runs -----

  /** What the running process, or the reaper on its behalf, may call; Arrive is the interrupt
      that a halted machine waits for. */
  datatype Call<P> =
    | New(p: P)
    | Wait(event: nat, sigs: seq<Signal>, arrivals: seq<seq<Signal>>)
    | Signalled(sigs: seq<Signal>, event: nat, n: nat)
    | Alerted(p: P, val: int)
    | Suspended(p: P)
    | SuspendsItself(sigs: seq<Signal>, arrivals: seq<seq<Signal>>)
    | Resumed(p: P)
    | Killed(p: P, addr: nat, sigs: seq<Signal>)
    | Arrive(arrivals: seq<seq<Signal>>)

  ghost predicate Legal<P>(k: State<P>, c: Call<P>) {
    match c
    case New(p) => k.cur.Some? && p !in k.info
    case Wait(_, _, _) => k.cur.Some?
    case Signalled(_, _, _) => k.cur.Some?
    case Alerted(p, _) => k.cur.Some? && p in k.info
    case Suspended(p) => k.cur.Some? && p in k.info && k.cur != Some(p)
    case SuspendsItself(_, _) => k.cur.Some?
    case Resumed(p) => k.cur.Some? && p in k.info && k.cur != Some(p)
    case Killed(p, _, _) => k.cur.Some? && p in k.info && k.cur != Some(p)
    case Arrive(_) => k.cur == None
  }

  ghost function Step<P>(k: State<P>, c: Call<P>): State<P> {
    match c
    case New(p) => Newproc(k, p)
    case Wait(event, sigs, arrivals) => if k.cur == None then k else Kwait(k, k.cur.value, event, sigs, arrivals).k
    case Signalled(sigs, event, n) => Ksignal(k, sigs, event, n)
    case Alerted(p, val) => Alert(k, p, val)
    case Suspended(p) => SetSuspend(k, p, true)
    case SuspendsItself(sigs, arrivals) =>
      if k.cur == None then k else Kwait(SetSuspend(k, k.cur.value, true), k.cur.value, 0, sigs, arrivals).k
    case Resumed(p) => SetSuspend(k, p, false)
    case Killed(p, addr, sigs) => Killproc(k, p, addr, sigs)
    case Arrive(arrivals) => Idle(k, arrivals).k
  }

  lemma StepKeepsInv<P>(k: State<P>, c: Call<P>)
    requires Inv(k) && Legal(k, c)
    ensures Inv(Step(k, c))
  {
    match c
    case New(p) => NewprocKeepsInv(k, p);
    case Wait(event, sigs, arrivals) => KwaitKeepsInv(k, k.cur.value, event, sigs, arrivals);
    case Signalled(sigs, event, n) => ProcsigsKeepsInv(k, sigs); KsigKeepsInv(Procsigs(k, sigs), event, n);
    case Alerted(p, val) => RequeueKeepsInv(k, p, At(k.info, p).(waiting := false, event := 0, retval := val));
    case Suspended(p) => assert FlagsOk(k.info[p]); RequeueKeepsInv(k, p, At(k.info, p).(suspend := true));
    case SuspendsItself(sigs, arrivals) => SelfSuspendKeepsInv(k, k.cur.value, sigs, arrivals);
    case Resumed(p) => assert FlagsOk(k.info[p]); RequeueKeepsInv(k, p, At(k.info, p).(suspend := false));
    case Killed(p, addr, sigs) => KillKeepsInv(k, p, addr, sigs);
    case Arrive(arrivals) => IdleKeepsInv(k, arrivals);
  }

  lemma SelfSuspendKeepsInv<P>(k: State<P>, p: P, sigs: seq<Signal>, arrivals: seq<seq<Signal>>)
    requires Inv(k) && k.cur == Some(p)
    ensures Inv(Kwait(SetSuspend(k, p, true), p, 0, sigs, arrivals).k)
  {
    assert p in k.info && FlagsOk(k.info[p]);
    RequeueKeepsInv(k, p, At(k.info, p).(suspend := true));
    KwaitKeepsInv(SetSuspend(k, p, true), p, 0, sigs, arrivals);
  }

  /** suspend of oneself takes effect at once only if, the queued signals served, somebody is ready;
      otherwise the process just runs on, with its suspend flag set. */
  lemma SelfSuspendNeedsAnother<P>(k: State<P>, p: P, sigs: seq<Signal>, arrivals: seq<seq<Signal>>)
    requires Inv(k) && k.cur == Some(p)
    ensures var k1 := Procsigs(SetSuspend(k, p, true), sigs);
            Kwait(SetSuspend(k, p, true), p, 0, sigs, arrivals).k.cur == Some(p) <==> Queue(k1, READY) == []
  {
    assert p in k.info && FlagsOk(k.info[p]);
    RequeueKeepsInv(k, p, At(k.info, p).(suspend := true));
    var k0 := SetSuspend(k, p, true);
    assert At(k0.info, p).suspend;
    ProcsigsKeepsInv(k0, sigs);
    ProcsigsKeepsSuspend(k0, sigs, p);
    if Queue(Procsigs(k0, sigs), READY) != [] {
      SuspendedIsNotDispatched(Procsigs(k0, sigs), p, arrivals);
    }
  }

  lemma SuspendedIsNotDispatched<P>(k: State<P>, p: P, arrivals: seq<seq<Signal>>)
    requires Inv(k) && k.cur == Some(p) && At(k.info, p).suspend && Queue(k, READY) != []
    ensures Idle(Park(k, p, At(k.info, p)), arrivals).k.cur != Some(p)
  {
    var r := k.q[READY];
    assert QueueOk(r, READY, k.cur, k.info);
    assert r[0] in r && r[0] != p;
    assert Queue(Park(k, p, At(k.info, p)), READY) == r;
  }

  lemma {:induction false} WakeAllKeepsSuspend<P>(k: State<P>, ps: seq<P>, p: P)
    ensures At(WakeAll(k, ps).info, p).suspend == At(k.info, p).suspend
    decreases |ps|
  {
    if ps != [] {
      WakeAllKeepsSuspend(Requeue(k, ps[0], Awake(At(k.info, ps[0]))), ps[1..], p);
    }
  }

  lemma {:induction false} ProcsigsKeepsSuspend<P>(k: State<P>, sigs: seq<Signal>, p: P)
    ensures At(Procsigs(k, sigs).info, p).suspend == At(k.info, p).suspend
    decreases |sigs|
  {
    if sigs != [] {
      var e, n := sigs[0].event, sigs[0].n;
      WakeAllKeepsSuspend(k, Woken(k, e, n) + Freed(k, e, n), p);
      ProcsigsKeepsSuspend(Ksig(k, e, n), sigs[1..], p);
    }
  }

  /** Whoever waited for a process learns of its death, exactly if at most 65535 did, or one more and that one is
      the process itself. */
  lemma NobodyWaitsForTheDead<P>(k: State<P>, p: P, addr: nat, sigs: seq<Signal>)
    requires Inv(k) && addr != 0 && p in k.info && k.cur != Some(p)
    ensures var q, k' := InLine(Procsigs(k, sigs), addr), Killproc(k, p, addr, sigs);
            (forall x :: x in k'.info ==> k'.info[x].event != addr)
            <==> |q| <= EVERYBODY || q[EVERYBODY..] == [p]
  {
    var k1 := Procsigs(k, sigs);
    var q, k2, k' := InLine(k1, addr), Ksig(k1, addr, 0), Killproc(k, p, addr, sigs);
    ProcsigsKeepsInv(k, sigs);
    assert k'.info == k2.info - {p};
    hide Procsigs, Ksig, Inv, Killproc, InLine;
    InLineAreAll(k1, addr);
    forall x | x in k2.info && k2.info[x].event == addr
      ensures x in q[Least(EVERYBODY, |q|)..]
    {
      StillWaits(k1, addr, 0, x);
    }
    forall x | x in q[Least(EVERYBODY, |q|)..]
      ensures x in k2.info && k2.info[x].event == addr
    {
      StillWaits(k1, addr, 0, x);
    }
    OnlyOne(q, EVERYBODY, p);
    if x :| x in q[Least(EVERYBODY, |q|)..] && x != p {
      assert x in k'.info && k'.info[x].event == addr;
    } else {
      assert forall x :: x in k'.info ==> x in k2.info && x != p && k'.info[x] == k2.info[x];
    }
  }

  lemma OnlyOne<P>(q: seq<P>, n: nat, p: P)
    requires Distinct(q)
    ensures (forall x :: x in q[Least(n, |q|)..] ==> x == p) <==> |q| <= n || q[n..] == [p]
  {
    if |q| > n {
      assert q[n..][0] in q[n..];
      if |q| > n + 1 {
        assert q[n..][1] in q[n..] && q[n] != q[n + 1];
      }
    }
  }

  ghost predicate LegalRun<P>(k: State<P>, calls: seq<Call<P>>)
    decreases |calls|
  {
    calls == [] || (Legal(k, calls[0]) && LegalRun(Step(k, calls[0]), calls[1..]))
  }

  ghost function Run<P>(k: State<P>, calls: seq<Call<P>>): State<P>
    decreases |calls|
  {
    if calls == [] then k else Run(Step(k, calls[0]), calls[1..])
  }

  /** mainproc: one running process and empty queues. */
  ghost function Initial<P>(main: P): State<P> {
    State(Some(main), seq(NQUEUES, _ => []), map[main := NEW_PROC])
  }

  lemma {:induction false} RunKeepsInv<P>(k: State<P>, calls: seq<Call<P>>)
    requires Inv(k) && LegalRun(k, calls)
    ensures Inv(Run(k, calls))
    decreases |calls|
  {
    hide Inv, Step, Legal;
    if calls != [] {
      StepKeepsInv(k, calls[0]);
      RunKeepsInv(Step(k, calls[0]), calls[1..]);
    }
  }

  /** In every reachable state each process but the running one is on exactly one queue, once, the
      one its flags and event select, and the running process is on none. */
  lemma EveryReachableStateIsInOrder<P>(main: P, calls: seq<Call<P>>, p: P)
    requires LegalRun(Initial(main), calls) && p in Run(Initial(main), calls).info
    ensures var k := Run(Initial(main), calls);
            && |k.q| == NQUEUES
            && (forall i :: 0 <= i < NQUEUES ==>
                  (p in k.q[i] <==> k.cur != Some(p) && i == Home(k.info[p])))
            && (forall i :: 0 <= i < NQUEUES ==> Distinct(k.q[i]))
  {
    var k := Run(Initial(main), calls);
    assert Inv(Initial(main)) by {
      forall i | 0 <= i < NQUEUES
        ensures QueueOk(Initial(main).q[i], i, Some(main), Initial(main).info)
      {
        assert Initial(main).q[i] == [];
      }
    }
    RunKeepsInv(Initial(main), calls);
    forall i | 0 <= i < NQUEUES
      ensures Distinct(k.q[i])
      ensures p in k.q[i] ==> k.cur != Some(p) && i == Home(k.info[p])
    {
      assert QueueOk(k.q[i], i, k.cur, k.info);
    }
  }
}
