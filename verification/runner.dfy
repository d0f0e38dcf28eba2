/** Token passing between the pthreads that play NOS processes (unix/ksubr_unix.c, and the context
    switch of core/kernel.c): every interleaving, spurious wake-ups included. */
module Runner {
  import opened Common

  /** Where a thread stands. Those marked * hold g_curproc_mutex. */
  datatype Pc =
    | Entry               // created, about to lock the mutex in proc_entry
    | Waiting             // blocked in pthread_cond_wait on its own condition
    | Woken               // awake inside pthread_cond_wait, needing the mutex to return
    | Checking            // * about to test flags.run and flags.exit
    | Running             // * executing NOS code
    | Handing(to: nat)    // * Curproc = to, proc_wakeup not yet called
    | Signalling(to: nat) // * to's run flag is set, its condition not yet signalled
    | Sleeping            // * entering proc_sleep
    | Killing(victim: nat)   // * victim's exit flag is set, its condition not yet signalled
    | Unlocking(victim: nat) // * about to drop the mutex for the victim
    | Joining(victim: nat)   // in pthread_join
    | Relocking(victim: nat) // about to take the mutex back
    | Exiting             // * saw its exit flag, about to unlock and end
    | Dead

  /** run and exit are the sets of processes whose flag is set; actor, an auxiliary variable, is the
      thread executing NOS code, if any. */
  datatype State = State(pc: map<nat, Pc>, run: set<nat>, exit: set<nat>, mutex: Option<nat>, cur: nat,
                         actor: Option<nat>)

  function At(s: State, p: nat): Pc {
    if p in s.pc then s.pc[p] else Dead
  }

  datatype Step =
    | Create(p: nat, child: nat)
    | Lock(p: nat)                // first lock, or on the way out of pthread_cond_wait
    | Check(p: nat)
    | Wake(p: nat)                // pthread_cond_wait may return at any time
    | Choose(p: nat, to: nat)     // kwait picks another process
    | SetRun(p: nat)
    | Signal(p: nat)
    | Sleep(p: nat)
    | Kill(p: nat, victim: nat)   // pteardown
    | SignalVictim(p: nat)
    | Unlock(p: nat)
    | Join(p: nat)
    | Relock(p: nat)
    | End(p: nat)

  predicate Enabled(s: State, st: Step) {
    match st
    case Create(p, child) => At(s, p) == Running && child !in s.pc
    case Lock(p) => (At(s, p) == Entry || At(s, p) == Woken) && s.mutex == None
    case Check(p) => At(s, p) == Checking
    case Wake(p) => At(s, p) == Waiting
    case Choose(p, to) => At(s, p) == Running && to != p && to in s.pc && to !in s.exit
    case SetRun(p) => At(s, p).Handing?
    case Signal(p) => At(s, p).Signalling?
    case Sleep(p) => At(s, p) == Sleeping
    case Kill(p, v) => At(s, p) == Running && v != p && v in s.pc && v !in s.exit
    case SignalVictim(p) => At(s, p).Killing?
    case Unlock(p) => At(s, p).Unlocking?
    case Join(p) => At(s, p).Joining? && At(s, At(s, p).victim) == Dead
    case Relock(p) => At(s, p).Relocking? && s.mutex == None
    case End(p) => At(s, p) == Exiting
  }

  function Go(s: State, p: nat, pc: Pc): State {
    s.(pc := s.pc[p := pc])
  }

  /** pthread_cond_signal on p's condition: its only possible waiter wakes. */
  function Notify(s: State, p: nat): State {
    if At(s, p) == Waiting then Go(s, p, Woken) else s
  }

  function Next(s: State, st: Step): State
    requires Enabled(s, st)
  {
    match st
    case Create(p, child) => Go(s, child, Entry)
    case Lock(p) => Go(s, p, Checking).(mutex := Some(p))
    case Check(p) =>
      if p in s.exit then Go(s, p, Exiting)
      else if p in s.run then Go(s, p, Running).(actor := Some(p))
      else Go(s, p, Waiting).(mutex := None)
    case Wake(p) => Go(s, p, Woken)
    case Choose(p, to) => Go(s, p, Handing(to)).(cur := to)
    case SetRun(p) => Go(s, p, Signalling(At(s, p).to)).(run := s.run + {At(s, p).to})
    case Signal(p) => Go(Notify(s, At(s, p).to), p, Sleeping)
    case Sleep(p) => Go(s, p, Checking).(run := s.run - {p}, actor := None)
    case Kill(p, v) => Go(s, p, Killing(v)).(exit := s.exit + {v})
    case SignalVictim(p) => Go(Notify(s, At(s, p).victim), p, Unlocking(At(s, p).victim))
    case Unlock(p) => Go(s, p, Joining(At(s, p).victim)).(mutex := None)
    case Join(p) => Go(s, p, Relocking(At(s, p).victim))
    case Relock(p) => Go(s, p, Running).(mutex := Some(p))
    case End(p) => Go(s, p, Dead).(mutex := None)
  }

  predicate Holds(pc: Pc) {
    !(pc.Entry? || pc.Waiting? || pc.Woken? || pc.Joining? || pc.Relocking? || pc.Dead?)
  }

  predicate Executing(pc: Pc) {
    (Holds(pc) && !pc.Checking? && !pc.Exiting?) || pc.Joining? || pc.Relocking?
  }

  predicate TearsDown(pc: Pc) {
    pc.Killing? || pc.Unlocking? || pc.Joining? || pc.Relocking?
  }

  /** What the flags are while thread a executes. */
  ghost predicate ActorOk(s: State, a: nat) {
    var pc := At(s, a);
    && a in s.pc && a !in s.exit
    && (pc.Running? ==> s.cur == a && s.run == {a})
    && (pc.Handing? ==> s.cur == pc.to && a != s.cur && s.run == {a})
    && (pc.Signalling? ==> s.cur == pc.to && a != s.cur && s.run == {a, s.cur})
    && (pc.Sleeping? ==> a != s.cur && s.run == {a, s.cur})
    && (TearsDown(pc) ==> s.cur == a && s.run == {a} && pc.victim != a && pc.victim in s.exit && pc.victim in s.pc)
    && (pc.Relocking? ==> At(s, pc.victim) == Dead)
  }

  /** p is asleep although it should not be, but somebody is about to signal it. */
  ghost predicate AboutToBeSignalled(s: State, p: nat) {
    s.actor.Some? && (At(s, s.actor.value) == Signalling(p) || At(s, s.actor.value) == Killing(p))
  }

  ghost predicate ThreadOk(s: State, p: nat) {
    var pc := At(s, p);
    && (Holds(pc) <==> s.mutex == Some(p))
    && (Executing(pc) <==> s.actor == Some(p))
    && (pc.Waiting? && (p in s.run || p in s.exit) ==> AboutToBeSignalled(s, p))
    && (pc.Exiting? || (pc.Dead? && p in s.pc) ==> p in s.exit)
    && (p in s.exit && p in s.pc && !pc.Dead? ==>
          s.actor.Some? && TearsDown(At(s, s.actor.value)) && At(s, s.actor.value).victim == p)
  }

  ghost predicate Inv(s: State) {
    && s.cur in s.pc && s.cur !in s.exit && s.exit <= s.pc.Keys
    && (s.mutex.Some? ==> s.mutex.value in s.pc)
    && (s.actor.Some? ==> s.actor.value in s.pc)
    && (s.actor.Some? ==> ActorOk(s, s.actor.value))
    && (s.actor.None? ==> s.run == {s.cur})
    && forall p :: p in s.pc ==> ThreadOk(s, p)
  }

  /** The steps of threads that are not executing NOS code. */
  predicate Idle(st: Step) {
    st.Lock? || st.Check? || st.Wake? || st.End?
  }

  /** The steps of a context switch. */
  predicate Switches(st: Step) {
    st.Choose? || st.SetRun? || st.Signal? || st.Sleep?
  }

  lemma IdleKeepsInv(s: State, st: Step)
    requires Inv(s) && Enabled(s, st) && Idle(st)
    ensures Inv(Next(s, st))
  {
    assert ThreadOk(s, st.p);
  }

  lemma SwitchKeepsInv(s: State, st: Step)
    requires Inv(s) && Enabled(s, st) && Switches(st)
    ensures Inv(Next(s, st))
  {
    assert ThreadOk(s, st.p);
  }

  lemma TeardownKeepsInv(s: State, st: Step)
    requires Inv(s) && Enabled(s, st) && (st.Unlock? || st.Join? || st.Relock?)
    ensures Inv(Next(s, st))
  {
    assert ThreadOk(s, st.p);
  }

  lemma CreateKeepsInv(s: State, st: Step)
    requires Inv(s) && Enabled(s, st) && st.Create?
    ensures Inv(Next(s, st))
  {
    assert ThreadOk(s, st.p);
  }

  lemma KillKeepsInv(s: State, st: Step)
    requires Inv(s) && Enabled(s, st) && (st.Kill? || st.SignalVictim?)
    ensures Inv(Next(s, st))
  {
    assert ThreadOk(s, st.p);
  }

  lemma NextKeepsInv(s: State, st: Step)
    requires Inv(s) && Enabled(s, st)
    ensures Inv(Next(s, st))
  {
    hide Inv, Enabled, Next;
    if Idle(st) {
      IdleKeepsInv(s, st);
    } else if Switches(st) {
      SwitchKeepsInv(s, st);
    } else if st.Unlock? || st.Join? || st.Relock? {
      TeardownKeepsInv(s, st);
    } else if st.Create? {
      CreateKeepsInv(s, st);
    } else {
      KillKeepsInv(s, st);
    }
  }

  // ----- runs -----

  /** init_psetup: the first thread is running and holds the mutex. */
  function Initial(main: nat): State {
    State(map[main := Running], {main}, {}, Some(main), main, Some(main))
  }

  predicate Possible(s: State, steps: seq<Step>)
    decreases |steps|
  {
    steps == [] || (Enabled(s, steps[0]) && Possible(Next(s, steps[0]), steps[1..]))
  }

  function After(s: State, steps: seq<Step>): State
    requires Possible(s, steps)
    decreases |steps|
  {
    if steps == [] then s else After(Next(s, steps[0]), steps[1..])
  }

  lemma {:induction false} RunKeepsInv(s: State, steps: seq<Step>)
    requires Inv(s) && Possible(s, steps)
    ensures Inv(After(s, steps))
    decreases |steps|
  {
    hide Inv, Enabled, Next;
    if steps != [] {
      NextKeepsInv(s, steps[0]);
      RunKeepsInv(Next(s, steps[0]), steps[1..]);
    }
  }

  /** s can be reached from start-up. */
  ghost predicate Reachable(s: State) {
    exists main: nat, steps: seq<Step> :: Possible(Initial(main), steps) && s == After(Initial(main), steps)
  }

  lemma ReachableIsInv(s: State)
    requires Reachable(s)
    ensures Inv(s)
  {
    var main: nat, steps: seq<Step> :|
      Possible(Initial(main), steps) && s == After(Initial(main), steps);
    hide Reachable, Possible, After;
    assert ThreadOk(Initial(main), main);
    RunKeepsInv(Initial(main), steps);
  }

  /** In every reachable state at most one thread executes NOS code, and unless it is half way
      through a switch that thread is Curproc. */
  lemma OneRunner(s: State, p: nat, q: nat)
    requires Reachable(s) && p in s.pc && q in s.pc && Executing(At(s, p))
    ensures Executing(At(s, q)) ==> p == q
    ensures At(s, p) == Running || TearsDown(At(s, p)) ==> s.cur == p
    ensures !At(s, p).Joining? && !At(s, p).Relocking? ==> s.mutex == Some(p)
    ensures p !in s.exit
  {
    ReachableIsInv(s);
    assert ThreadOk(s, p) && ThreadOk(s, q);
  }

  /** No assert of proc_sleep and proc_entry fails: who goes to sleep has its run flag set, and who
      is let through is Curproc. */
  lemma AssertionsHold(s: State, p: nat)
    requires Reachable(s) && p in s.pc
    ensures At(s, p) == Sleeping ==> p in s.run
    ensures At(s, p) == Checking && p in s.run && p !in s.exit ==> s.cur == p
  {
    ReachableIsInv(s);
    assert ThreadOk(s, p);
  }

  /** A process whose run or exit flag is set sleeps only until the signal that is already on its way. */
  lemma NobodyIsStranded(s: State, p: nat)
    requires Reachable(s) && p in s.pc && (p in s.run || p in s.exit) && At(s, p) == Waiting
    ensures s.actor.Some?
    ensures var a := s.actor.value;
            var st := if p in s.run then Signal(a) else SignalVictim(a);
            Enabled(s, st) && At(Next(s, st), p) == Woken
  {
    ReachableIsInv(s);
    assert ThreadOk(s, p);
  }

  /** While nobody executes, the only way to start is for Curproc to pass the check. */
  lemma OnlyCurprocStarts(s: State, st: Step)
    requires Reachable(s) && s.actor == None && Enabled(s, st)
    ensures Next(s, st).cur == s.cur
    ensures Next(s, st).actor == None || (st == Check(s.cur) && Next(s, st).actor == Some(s.cur))
  {
    ReachableIsInv(s);
    assert st.p in s.pc && ThreadOk(s, st.p);
  }

  // ----- nothing blocks -----

  lemma {:induction false} Append(s: State, x: seq<Step>, y: seq<Step>)
    requires Possible(s, x) && Possible(After(s, x), y)
    ensures Possible(s, x + y) && After(s, x + y) == After(After(s, x), y)
    decreases |x|
  {
    hide Enabled, Next;
    if x == [] {
      assert x + y == y;
    } else {
      assert (x + y)[1..] == x[1..] + y;
      Append(Next(s, x[0]), x[1..], y);
    }
  }

  lemma OneStep(s: State, st: Step)
    requires Enabled(s, st)
    ensures Possible(s, [st]) && After(s, [st]) == Next(s, st)
  {
    hide Enabled, Next;
    assert Possible(Next(s, st), [st][1..]);
  }

  lemma TwoSteps(s: State, a: Step, b: Step)
    requires Enabled(s, a) && Enabled(Next(s, a), b)
    ensures Possible(s, [a, b]) && After(s, [a, b]) == Next(Next(s, a), b)
  {
    OneStep(s, a);
    OneStep(Next(s, a), b);
    Append(s, [a], [b]);
  }

  /** A thread that has the mutex without executing gives it up at its next step, unless it may run
      or has to end. */
  function Clear(s: State): seq<Step> {
    if s.mutex == None then [] else [Check(s.mutex.value)]
  }

  lemma MutexClears(s: State)
    requires Inv(s) && (s.actor == None || At(s, s.actor.value).Joining? || At(s, s.actor.value).Relocking?)
    requires s.mutex.Some? ==> s.mutex.value !in s.run && s.mutex.value !in s.exit
    ensures Possible(s, Clear(s))
    ensures var s1 := After(s, Clear(s));
            && Inv(s1) && s1.mutex == None && s1.cur == s.cur
            && s1.run == s.run && s1.exit == s.exit && s1.actor == s.actor
    ensures var s1 := After(s, Clear(s));
            forall p :: p in s.pc && s.mutex != Some(p) ==> At(s1, p) == At(s, p)
  {
    if s.mutex.Some? {
      var h := s.mutex.value;
      assert ThreadOk(s, h);
      IdleKeepsInv(s, Check(h));
      OneStep(s, Check(h));
    }
  }

  /** Steps by which Curproc gets going. */
  function Resume(s: State): seq<Step> {
    if s.mutex == Some(s.cur) then [Check(s.cur)] else Clear(s) + [Lock(s.cur), Check(s.cur)]
  }

  lemma ResumeWithFreeMutex(s: State)
    requires Inv(s) && s.actor == None && s.mutex == None
    ensures Possible(s, [Lock(s.cur), Check(s.cur)])
    ensures At(After(s, [Lock(s.cur), Check(s.cur)]), s.cur) == Running
  {
    assert ThreadOk(s, s.cur);
    TwoSteps(s, Lock(s.cur), Check(s.cur));
  }

  /** A hand-over cannot get stuck: whenever nobody executes, at most three steps of the waiting
      threads themselves make Curproc run. */
  lemma CurprocGetsGoing(s: State)
    requires Reachable(s) && s.actor == None
    ensures |Resume(s)| <= 3 && Possible(s, Resume(s))
    ensures At(After(s, Resume(s)), s.cur) == Running
  {
    ReachableIsInv(s);
    if s.mutex == Some(s.cur) {
      assert ThreadOk(s, s.cur);
      OneStep(s, Check(s.cur));
    } else {
      if s.mutex.Some? {
        assert ThreadOk(s, s.mutex.value);
      }
      hide Inv, Reachable, Enabled, Next, At;
      MutexClears(s);
      var s1 := After(s, Clear(s));
      ResumeWithFreeMutex(s1);
      Append(s, Clear(s), [Lock(s.cur), Check(s.cur)]);
    }
  }

  /** Steps by which the victim v of a teardown ends. */
  function Leave(s: State, v: nat): seq<Step> {
    if At(s, v) == Dead then []
    else if At(s, v) == Exiting then [End(v)]
    else if At(s, v) == Checking then [Check(v), End(v)]
    else Clear(s) + [Lock(v), Check(v), End(v)]
  }

  lemma LeaveWithFreeMutex(s: State, v: nat)
    requires Enabled(s, Lock(v)) && v in s.exit
    ensures Possible(s, [Lock(v), Check(v), End(v)])
    ensures var s1 := After(s, [Lock(v), Check(v), End(v)]);
            s1 == Go(s, v, Dead)
  {
    TwoSteps(s, Lock(v), Check(v));
    var s1 := Next(Next(s, Lock(v)), Check(v));
    OneStep(s1, End(v));
    Append(s, [Lock(v), Check(v)], [End(v)]);
    assert [Lock(v), Check(v)] + [End(v)] == [Lock(v), Check(v), End(v)];
    assert Next(s1, End(v)).pc == s.pc[v := Dead];
  }

  lemma VictimLeaves(s: State, a: nat)
    requires Inv(s) && s.actor == Some(a) && At(s, a).Joining?
    ensures var v := At(s, a).victim;
            && Possible(s, Leave(s, v)) && |Leave(s, v)| <= 4
            && var s1 := After(s, Leave(s, v));
               && At(s1, v) == Dead && At(s1, a) == Joining(v)
               && (s.mutex == None || At(s, v) != Dead ==> s1.mutex == None)
  {
    var v := At(s, a).victim;
    assert ThreadOk(s, a) && ThreadOk(s, v);
    if At(s, v) == Dead {
    } else if At(s, v) == Exiting {
      OneStep(s, End(v));
    } else if At(s, v) == Checking {
      TwoSteps(s, Check(v), End(v));
    } else {
      if s.mutex.Some? {
        assert ThreadOk(s, s.mutex.value);
      }
      MutexClears(s);
      var s1 := After(s, Clear(s));
      LeaveWithFreeMutex(s1, v);
      Append(s, Clear(s), [Lock(v), Check(v), End(v)]);
    }
  }

  lemma RelockLater(s: State, a: nat)
    requires Inv(s) && s.actor == Some(a) && At(s, a).Relocking?
    ensures Possible(s, Clear(s) + [Relock(a)]) && At(After(s, Clear(s) + [Relock(a)]), a) == Running
  {
    assert ThreadOk(s, a);
    if s.mutex.Some? {
      assert ThreadOk(s, s.mutex.value);
    }
    MutexClears(s);
    var s1 := After(s, Clear(s));
    OneStep(s1, Relock(a));
    Append(s, Clear(s), [Relock(a)]);
  }

  /** Steps by which the teardown that a is waiting in comes to its end. */
  function Finish(s: State, a: nat): seq<Step>
    requires At(s, a).Joining? && Possible(s, Leave(s, At(s, a).victim))
    requires Enabled(After(s, Leave(s, At(s, a).victim)), Join(a))
  {
    var x := Leave(s, At(s, a).victim);
    x + ([Join(a)] + (Clear(Next(After(s, x), Join(a))) + [Relock(a)]))
  }

  lemma JoinLater(s: State, a: nat)
    requires Inv(s) && s.actor == Some(a) && Enabled(s, Join(a))
    ensures var y := [Join(a)] + (Clear(Next(s, Join(a))) + [Relock(a)]);
            Possible(s, y) && At(After(s, y), a) == Running
  {
    var s1 := Next(s, Join(a));
    TeardownKeepsInv(s, Join(a));
    assert s1.actor == Some(a) && At(s1, a).Relocking?;
    hide Inv, Enabled, Next, At;
    RelockLater(s1, a);
    OneStep(s, Join(a));
    Append(s, [Join(a)], Clear(s1) + [Relock(a)]);
  }

  /** pteardown cannot get stuck either: while a waits in pthread_join with the mutex dropped, some
      schedule of at most seven steps ends the victim and gives the mutex back to a. */
  lemma TeardownEnds(s: State, a: nat)
    requires Reachable(s) && s.actor == Some(a) && At(s, a).Joining?
    ensures Possible(s, Leave(s, At(s, a).victim))
    ensures Enabled(After(s, Leave(s, At(s, a).victim)), Join(a))
    ensures |Finish(s, a)| <= 7 && Possible(s, Finish(s, a)) && At(After(s, Finish(s, a)), a) == Running
  {
    ReachableIsInv(s);
    VictimLeaves(s, a);
    var x := Leave(s, At(s, a).victim);
    var s1 := After(s, x);
    RunKeepsInv(s, x);
    ActorStays(s1, a);
    JoinLater(s1, a);
    hide Inv, Enabled, Next, At, Reachable, Leave;
    Append(s, x, [Join(a)] + (Clear(Next(s1, Join(a))) + [Relock(a)]));
  }

  lemma ActorStays(s: State, a: nat)
    requires Inv(s) && At(s, a).Joining?
    ensures s.actor == Some(a)
  {
    assert ThreadOk(s, a);
  }
}
