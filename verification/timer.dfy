/** The arithmetic of core/timer.c: 32-bit tick counts that wrap around, and the sorted list. */
module TimerSpec {
  import opened Common
  import opened Machine

  const MSPTICK: int := 55

  // ----- set_timer -----

  /** Division as C does it. */
  function Quotient(a: int, b: int): int
    requires b > 0
  {
    if a >= 0 then a / b else -((-a) / b)
  }

  /** set_timer: the interval in ticks, rounded up, and one more. */
  function Duration(interval: int): int {
    if interval == 0 then 0 else 1 + Quotient(I32(interval + MSPTICK - 1), MSPTICK)
  }

  /** The rounded duration covers the interval and a tick more, exactly if rounding up does not overflow. */
  lemma DurationCovers(interval: int)
    requires 0 < interval < HALF
    ensures MSPTICK * Duration(interval) >= interval + MSPTICK <==> interval + MSPTICK - 1 < HALF
    ensures interval + MSPTICK - 1 < HALF ==> MSPTICK * Duration(interval) < interval + 2 * MSPTICK
  {
    if interval + MSPTICK - 1 >= HALF {
      assert I32(interval + MSPTICK - 1) == interval + MSPTICK - 1 - 0x1_0000_0000;
    }
  }

  /** A timer set for interval ms and started at real time t, while the clock stands at tick n, comes
      due, with tick n + Duration, after t + interval and within two ticks of it. */
  lemma DueInTime(t: real, n: int, interval: int)
    requires 0 < interval && interval + MSPTICK - 1 < HALF
    requires (MSPTICK * n) as real <= t < (MSPTICK * (n + 1)) as real
    ensures var due := (MSPTICK * (n + Duration(interval))) as real;
            t + interval as real < due <= t + (interval + 2 * MSPTICK) as real
  {
    DurationCovers(interval);
    assert MSPTICK * (n + Duration(interval)) == MSPTICK * n + MSPTICK * Duration(interval);
  }

  // ----- the sorted list -----

  ghost predicate Sorted<T>(s: seq<T>, due: map<T, int>) {
    && (forall t :: t in s ==> t in due)
    && forall i, j :: 0 <= i < j < |s| ==> due[s[i]] <= due[s[j]]
  }

  /** How many at the front come due before d. */
  ghost function Earlier<T>(s: seq<T>, due: map<T, int>, d: int): (n: nat)
    ensures n <= |s|
  {
    if s == [] || (s[0] in due && due[s[0]] >= d) then 0 else 1 + Earlier(s[1..], due, d)
  }

  lemma {:induction false} EarlierSplits<T>(s: seq<T>, due: map<T, int>, d: int)
    requires Sorted(s, due)
    ensures forall i :: 0 <= i < Earlier(s, due, d) ==> due[s[i]] < d
    ensures forall i :: Earlier(s, due, d) <= i < |s| ==> due[s[i]] >= d
    decreases |s|
  {
    if s != [] && due[s[0]] < d {
      assert forall i :: 0 < i < |s| ==> s[i] == s[1..][i - 1];
      EarlierSplits(s[1..], due, d);
    }
  }

  /** t goes in front of those that come due at d or later. */
  ghost function Placed<T>(s: seq<T>, due: map<T, int>, t: T, d: int): seq<T> {
    var i := Earlier(s, due, d);
    s[..i] + [t] + s[i..]
  }

  lemma PlacedIsSorted<T>(s: seq<T>, due: map<T, int>, t: T, d: int)
    requires Sorted(s, due) && t !in s
    ensures Sorted(Placed(s, due, t, d), due[t := d])
  {
    EarlierSplits(s, due, d);
    var i := Earlier(s, due, d);
    var p, due' := Placed(s, due, t, d), due[t := d];
    forall k | 0 <= k < |p|
      ensures p[k] == if k < i then s[k] else if k == i then t else s[k - 1]
    {
    }
    forall k, l | 0 <= k < l < |p|
      ensures due'[p[k]] <= due'[p[l]]
    {
    }
  }

  // ----- one timer over many ticks -----

  /** A timer that comes due at d, if it is running, is expired at tick n. */
  predicate IsDue(d: Option<int>, n: int) {
    d.Some? && d.value <= n
  }

  /** And then runs on with the duration with which it is restarted, if that is not 0. */
  function DueAfter(d: Option<int>, again: int, n: int): Option<int> {
    if IsDue(d, n) then (if again == 0 then None else Some(n + again)) else d
  }

  /** What happens to it: a tick, after which its function restarts it with a duration if that is not 0; a
      start or a stop; or what concerns other timers only. */
  datatype Act = At(tick: int, again: int) | Set(due: Option<int>) | Pass

  predicate Fires(d: Option<int>, a: Act) {
    a.At? && IsDue(d, a.tick)
  }

  function After(d: Option<int>, a: Act): Option<int> {
    match a
    case At(n, again) => DueAfter(d, again, n)
    case Set(due) => due
    case Pass => d
  }

  /** At which of the acts it fires. */
  function Firings(d: Option<int>, acts: seq<Act>): (f: seq<bool>)
    ensures |f| == |acts|
    decreases |acts|
  {
    if acts == [] then [] else [Fires(d, acts[0])] + Firings(After(d, acts[0]), acts[1..])
  }

  lemma FiringsStep(d: Option<int>, acts: seq<Act>)
    requires acts != []
    ensures Firings(d, acts)[0] == Fires(d, acts[0])
    ensures Firings(d, acts)[1..] == Firings(After(d, acts[0]), acts[1..])
  {
  }

  /** Does the act end a wait for d: as a tick at or behind d, or as a start or stop? */
  predicate Ends(d: int, a: Act) {
    a.Set? || (a.At? && a.tick >= d)
  }

  function FirstEnd(d: int, acts: seq<Act>): (i: nat)
    ensures i <= |acts| && (i < |acts| ==> Ends(d, acts[i])) && forall j :: 0 <= j < i ==> !Ends(d, acts[j])
  {
    if acts == [] || Ends(d, acts[0]) then 0
    else
      var i := FirstEnd(d, acts[1..]);
      assert forall j :: 0 < j <= i ==> acts[j] == acts[1..][j - 1];
      i + 1
  }

  /** A timer started to come due at d fires at the first tick at or behind d, if it is not stopped or started
      anew before, and not until then. From there on it is as the restart, the start or the stop leaves it. */
  lemma {:induction false} FiresOnTime(d: int, acts: seq<Act>)
    ensures var i, f := FirstEnd(d, acts), Firings(Some(d), acts);
            && (forall j :: 0 <= j < i ==> !f[j])
            && (i < |acts| ==> (f[i] <==> acts[i].At?) && f[i + 1..] == Firings(After(Some(d), acts[i]), acts[i + 1..]))
    decreases |acts|
  {
    if acts != [] {
      var f, i := Firings(Some(d), acts), FirstEnd(d, acts);
      FiringsStep(Some(d), acts);
      hide Firings;
      if i > 0 {
        FiresOnTime(d, acts[1..]);
        assert forall j :: 0 < j < |acts| ==> f[j] == f[1..][j - 1] && acts[j] == acts[1..][j - 1];
        assert i < |acts| ==> f[i + 1..] == f[1..][i..] && acts[i + 1..] == acts[1..][i..];
      }
    }
  }

  /** A stopped timer does not fire until it is started. */
  lemma {:induction false} StoppedIsSilent(acts: seq<Act>, i: nat)
    requires i <= |acts| && forall j :: 0 <= j < i ==> !acts[j].Set?
    ensures forall j :: 0 <= j < i ==> !Firings(None, acts)[j]
    ensures Firings(None, acts)[i..] == Firings(None, acts[i..])
    decreases i
  {
    if i == 0 {
      assert acts[0..] == acts;
    } else {
      var f := Firings(None, acts);
      FiringsStep(None, acts);
      StoppedIsSilent(acts[1..], i - 1);
      assert forall j :: 0 < j < |acts| ==> f[j] == f[1..][j - 1];
      assert f[i..] == f[1..][i - 1..] && acts[i..] == acts[1..][i - 1..];
    }
  }
}

/** The list of running timers, and the part of timerproc that expires them. */
module TimerList {
  import opened Common
  import opened Machine
  import opened TimerSpec
  import opened Lists

  datatype TimerState = STOP | RUN | EXPIRE

  /** struct timer. due is the expiration before it wraps. */
  class Timer {
    var next: Timer?
    var duration: int
    var expiration: int
    var state: TimerState
    ghost var due: int

    constructor ()
      ensures state == STOP && duration == 0
    {
      next, duration, expiration, state, due := null, 0, 0, STOP, 0;
    }
  }

  ghost function Next(next: map<Timer, Timer?>, t: Timer): Timer? {
    if t in next then next[t] else null
  }

  /** head and the links spell out the list s. */
  ghost predicate Linked(next: map<Timer, Timer?>, s: seq<Timer>, head: Timer?) {
    && head == (if s == [] then null else s[0])
    && forall j {:trigger Next(next, s[j])} :: 0 <= j < |s| ==>
         Next(next, s[j]) == if j + 1 < |s| then s[j + 1] else null
  }

  /** Exactly the members of s are running. */
  ghost predicate RunsExactly(state: map<Timer, TimerState>, s: seq<Timer>) {
    && (forall t :: t in s ==> t in state)
    && forall t :: t in state ==> (state[t] == RUN <==> t in s)
  }

  // ----- removing and inserting -----

  lemma LinkedWithout(next: map<Timer, Timer?>, s: seq<Timer>, j: nat, head: Timer?)
    requires Linked(next, s, head) && Distinct(s) && j < |s|
    ensures var after := Next(next, s[j]);
            Linked(if j == 0 then next else next[s[j - 1] := after], s[..j] + s[j + 1..],
                   if j == 0 then after else head)
  {
    var next', t := if j == 0 then next else next[s[j - 1] := Next(next, s[j])], s[..j] + s[j + 1..];
    assert Next(next, s[j]) == if j + 1 < |s| then s[j + 1] else null;
    forall m {:trigger t[m]} | 0 <= m < |t|
      ensures Next(next', t[m]) == if m + 1 < |t| then t[m + 1] else null
    {
      var o := if m < j then m else m + 1;
      assert t[m] == s[o];
      assert Next(next, s[o]) == if o + 1 < |s| then s[o + 1] else null;
    }
    if t != [] {
      assert t[0] == s[if j == 0 then 1 else 0];
    }
  }

  lemma LinkedWith(next: map<Timer, Timer?>, s: seq<Timer>, i: nat, t: Timer, head: Timer?)
    requires Linked(next, s, head) && Distinct(s) && i <= |s| && t !in s
    ensures var after := if i < |s| then s[i] else null;
            Linked((if i == 0 then next else next[s[i - 1] := t])[t := after], s[..i] + [t] + s[i..],
                   if i == 0 then t else head)
  {
    var after := if i < |s| then s[i] else null;
    var next', p := (if i == 0 then next else next[s[i - 1] := t])[t := after], s[..i] + [t] + s[i..];
    forall m {:trigger p[m]} | 0 <= m < |p|
      ensures Next(next', p[m]) == if m + 1 < |p| then p[m + 1] else null
    {
      assert p[m] == if m < i then s[m] else if m == i then t else s[m - 1];
      if m != i {
        var o := if m < i then m else m - 1;
        assert Next(next, s[o]) == if o + 1 < |s| then s[o + 1] else null;
      }
    }
  }

  /** Links outside the list do not matter. */
  lemma LinkedIgnores(next: map<Timer, Timer?>, next': map<Timer, Timer?>, s: seq<Timer>, head: Timer?)
    requires Linked(next, s, head) && forall t :: t in s ==> Next(next', t) == Next(next, t)
    ensures Linked(next', s, head)
  {
    forall j {:trigger s[j]} | 0 <= j < |s|
      ensures Next(next', s[j]) == if j + 1 < |s| then s[j + 1] else null
    {
      assert Next(next, s[j]) == if j + 1 < |s| then s[j + 1] else null;
    }
  }

  lemma SortedWithout(s: seq<Timer>, due: map<Timer, int>, j: nat)
    requires Sorted(s, due) && j < |s|
    ensures Sorted(s[..j] + s[j + 1..], due)
  {
  }

  /** A list on which somebody is his own successor is no list: the panic cannot happen. */
  lemma NoLoop(next: map<Timer, Timer?>, s: seq<Timer>, head: Timer?)
    requires Linked(next, s, head) && Distinct(s) && head != null
    ensures Next(next, head) != head
  {
    assert Next(next, s[0]) == if 1 < |s| then s[1] else null;
  }

  ghost function Reversed(s: seq<Timer>): seq<Timer> {
    if s == [] then [] else [s[|s| - 1]] + Reversed(s[..|s| - 1])
  }

  // ----- the list in memory -----

  class Wheel {
    var timers: Timer?
    var clock: int              // Clock, an int32
    ghost var now: int          // the ticks it counts
    ghost var all: set<Timer>
    ghost var list: seq<Timer>

    /** The timers of the system, none of them running. */
    constructor (ghost ts: set<Timer>)
      requires forall t :: t in ts ==> t.state != RUN
      ensures Valid() && list == [] && all == ts && now == 0
    {
      timers, clock, now, all, list := null, 0, 0, ts, [];
    }

    static ghost function Nexts(ps: set<Timer>): map<Timer, Timer?>
      reads ps`next
    {
      map t | t in ps :: t.next
    }

    static ghost function Dues(ps: set<Timer>): map<Timer, int>
      reads ps`due
    {
      map t | t in ps :: t.due
    }

    static ghost function States(ps: set<Timer>): map<Timer, TimerState>
      reads ps`state
    {
      map t | t in ps :: t.state
    }

    ghost predicate Chained()
      reads this`timers, this`all, this`list, all`next
    {
      Linked(Nexts(all), list, timers) && Distinct(list) && forall t :: t in list ==> t in all
    }

    ghost predicate Clocked()
      reads this`clock, this`now, this`all, this`list, all`due, all`expiration
    {
      && clock == I32(now) && Sorted(list, Dues(all))
      && forall t :: t in list ==> t in all && t.expiration == I32(t.due)
    }

    /** The list is a chain without loop, of exactly the running timers, in order of expiration. */
    ghost predicate Valid()
      reads this, all`next, all`due, all`expiration, all`state
    {
      Chained() && Clocked() && RunsExactly(States(all), list)
    }

    lemma NextIs(t: Timer)
      requires t in all
      ensures Next(Nexts(all), t) == t.next && Dues(all)[t] == t.due && States(all)[t] == t.state
    {
    }

    lemma Successor(j: nat)
      requires Chained() && j < |list|
      ensures list[j] in all && list[j].next == if j + 1 < |list| then list[j + 1] else null
      ensures timers != null && timers == list[0]
    {
      NextIs(list[j]);
      assert Next(Nexts(all), list[j]) == if j + 1 < |list| then list[j + 1] else null;
    }

    lemma EmptyList()
      requires Chained()
      ensures timers == null <==> list == []
    {
    }

    method SetNext(t: Timer, v: Timer?)
      requires t in all
      modifies t`next
      ensures t.next == v && Nexts(all) == old(Nexts(all))[t := v]
    {
      t.next := v;
    }

    method SetState(t: Timer, s: TimerState)
      requires t in all
      modifies t`state
      ensures t.state == s && States(all) == old(States(all))[t := s]
    {
      t.state := s;
    }

    /** Delete entry j, t, of the list. */
    method Unlink(t: Timer, tlast: Timer?, ghost j: nat)
      requires Chained() && j < |list| && t == list[j] && tlast == if j == 0 then null else list[j - 1]
      modifies this`timers, this`list, all`next
      ensures Chained() && list == old(list[..j] + list[j + 1..])
      ensures forall u :: u in all && u !in list ==> u.next == old(u.next)
    {
      hide *;
      CanUnlink(j);
      if tlast != null {
        SetNext(tlast, t.next);
      } else {
        timers := t.next;
      }
      assert j > 0 ==> list[j - 1] in list[..j];
      list := list[..j] + list[j + 1..];
      StillChained();
    }

    lemma CanUnlink(j: nat)
      requires Chained() && j < |list|
      ensures var s, after := list[..j] + list[j + 1..], list[j].next;
              && Linked(if j == 0 then Nexts(all) else Nexts(all)[list[j - 1] := after], s,
                        if j == 0 then after else timers)
              && Distinct(s) && forall t :: t in s ==> t in all
      ensures list[j] in all && (j > 0 ==> list[j - 1] in all)
    {
      NextIs(list[j]);
      LinkedWithout(Nexts(all), list, j, timers);
    }

    lemma StillChained()
      requires Linked(Nexts(all), list, timers) && Distinct(list) && forall t :: t in list ==> t in all
      ensures Chained()
    {
    }

    lemma Parts(timer: Timer)
      requires Valid() && timer in all
      ensures Chained() && Clocked() && RunsExactly(States(all), list)
      ensures timer.state == RUN <==> timer in list
    {
    }

    lemma StillValid()
      requires Chained() && RunsExactly(States(all), list)
      requires clock == I32(now) && Sorted(list, Dues(all))
      requires forall t :: t in list ==> t in all && t.expiration == I32(t.due)
      ensures Valid()
    {
    }

    static lemma RunsWithout(state: map<Timer, TimerState>, s: seq<Timer>, t: Timer)
      requires RunsExactly(state, s) && Distinct(s) && t in s
      ensures RunsExactly(state[t := STOP], Without(s, t))
      ensures forall u :: u in Without(s, t) ==> u in s
    {
      WithoutMembers(s, t);
    }

    lemma CanStop(j: nat)
      requires Valid() && j < |list|
      ensures var s := list[..j] + list[j + 1..];
              && s == Without(list, list[j]) && Sorted(s, Dues(all))
              && RunsExactly(States(all)[list[j] := STOP], s)
              && forall t :: t in s ==> t in all && t.expiration == I32(t.due)
      ensures clock == I32(now)
    {
      hide Sorted, Linked, RunsExactly, Nexts, Dues, States, Without;
      WithoutAt(list, j);
      SortedWithout(list, Dues(all), j);
      RunsWithout(States(all), list, list[j]);
    }

    static lemma NotYet(s: seq<Timer>, j: nat, timer: Timer)
      requires j < |s| && timer in s && timer !in s[..j] && s[j] != timer
      ensures j + 1 < |s| && timer !in s[..j + 1]
    {
      forall m | 0 <= m < j
        ensures s[m] != timer
      {
        assert s[..j][m] == s[m];
      }
      assert s[..j + 1] == s[..j] + [s[j]];
    }

    /** stop_timer. */
    method StopTimer(timer: Timer)
      requires Valid() && timer in all
      modifies this`timers, this`list, all`next, timer`state
      ensures Valid()
      ensures list == if old(timer.state) == RUN then Without(old(list), timer) else old(list)
      ensures timer.state == if old(timer.state) == RUN then STOP else old(timer.state)
      ensures forall u :: u in all && u !in list ==> u.next == old(u.next)
    {
      hide *;
      Parts(timer);
      if timer.state != RUN {
        return;
      }
      var t: Timer?, tlast: Timer? := timers, null;
      ghost var j: nat := 0;
      Successor(0);
      while t != null
        invariant j < |list| && t == list[j] && timer !in list[..j]
        invariant tlast == if j == 0 then null else list[j - 1]
        decreases |list| - j
        modifies {}
      {
        if t == timer {
          break;
        }
        Successor(j);
        NotYet(list, j, timer);
        tlast, t := t, t.next;
        j := j + 1;
      }
      CanStop(j);
      Unlink(t, tlast, j);
      SetState(timer, STOP);
      StillValid();
    }

    /** The loop of start_timer: find the first timer that comes due no earlier than t. */
    method FindPlace(t: Timer, ghost d: int) returns (tprev: Timer?, tnext: Timer?, ghost i: nat)
      requires Chained() && Clocked() && t.expiration == I32(d)
      requires forall u :: u in list ==> u in all && -HALF < u.due - d < HALF
      ensures i == Earlier(list, Dues(all), d) <= |list|
      ensures tnext == (if Earlier(list, Dues(all), d) < |list| then list[Earlier(list, Dues(all), d)] else null)
      ensures tprev == (if i == 0 then null else list[i - 1])
    {
      hide *;
      ClockedMeans();
      EmptyList();
      tprev, tnext, i := null, timers, 0;
      if tnext != null {
        HeadIs();
      }
      while tnext != null
        invariant i <= |list| && tnext == (if i < |list| then list[i] else null)
        invariant tprev == if i == 0 then null else list[i - 1]
        invariant forall k :: 0 <= k < i ==> Dues(all)[list[k]] < d
        decreases |list| - i
      {
        NextIs(tnext);
        WrappedDifference(tnext.due, d);
        if I32(tnext.expiration - t.expiration) >= 0 {
          break;
        }
        Successor(i);
        tprev, tnext := tnext, tnext.next;
        i := i + 1;
      }
      EarlierIs(list, Dues(all), d, i);
    }

    lemma HeadIs()
      requires Chained() && timers != null
      ensures list != [] && timers == list[0]
    {
    }

    lemma ClockedMeans()
      requires Clocked()
      ensures clock == I32(now) && Sorted(list, Dues(all)) && forall t :: t in list ==> t in all && t in Dues(all)
      ensures forall t :: t in list ==> t.expiration == I32(t.due)
    {
    }

    static lemma {:induction false} EarlierIs(s: seq<Timer>, due: map<Timer, int>, d: int, i: nat)
      requires Sorted(s, due) && i <= |s| && forall t :: t in s ==> t in due
      requires (forall k :: 0 <= k < i ==> due[s[k]] < d) && (i < |s| ==> due[s[i]] >= d)
      ensures i == Earlier(s, due, d)
      decreases i
    {
      if i > 0 {
        EarlierIs(s[1..], due, d, i - 1);
      }
    }

    /** Insert t before entry i. */
    method Link(t: Timer, tprev: Timer?, tnext: Timer?, ghost i: nat)
      requires Chained() && i <= |list| && t in all && t !in list
      requires tnext == (if i < |list| then list[i] else null) && tprev == (if i == 0 then null else list[i - 1])
      modifies this`timers, this`list, all`next
      ensures Chained() && list == old(list[..i] + [t] + list[i..])
      ensures forall u :: u in all && u !in list ==> u.next == old(u.next)
    {
      hide *;
      CanLink(t, i);
      if tprev == null {
        timers := t;
      } else {
        SetNext(tprev, t);
      }
      SetNext(t, tnext);
      assert i > 0 ==> list[i - 1] in list[..i];
      list := list[..i] + [t] + list[i..];
      StillChained();
    }

    lemma CanLink(t: Timer, i: nat)
      requires Chained() && i <= |list| && t in all && t !in list
      ensures var s, after := list[..i] + [t] + list[i..], if i < |list| then list[i] else null;
              && Linked((if i == 0 then Nexts(all) else Nexts(all)[list[i - 1] := t])[t := after], s,
                        if i == 0 then t else timers)
              && Distinct(s) && forall u :: u in s ==> u in all
      ensures i > 0 ==> list[i - 1] in all
    {
      LinkedWith(Nexts(all), list, i, t, timers);
    }

    /** t, stopped, is given its new expiration: the list does not notice. */
    method Arm(t: Timer)
      requires Valid() && t in all && t !in list
      modifies t`expiration, t`due
      ensures Chained() && Clocked() && RunsExactly(States(all), list)
      ensures t.due == now + t.duration && t.expiration == I32(t.due)
      ensures Dues(all) == old(Dues(all))[t := t.due]
    {
      Parts(t);
      WrappedSum(now, t.duration);
      ghost var dues := Dues(all);
      assert forall u :: u in list ==> u != t;
      t.expiration := I32(clock + t.duration);
      t.due := now + t.duration;
      assert Dues(all) == dues[t := t.due];
      hide Nexts, States, Linked, RunsExactly, Distinct;
      SortedIgnores(list, dues, t, t.due);
    }

    static lemma SortedIgnores(s: seq<Timer>, due: map<Timer, int>, t: Timer, d: int)
      requires Sorted(s, due) && t !in s
      ensures Sorted(s, due[t := d])
    {
    }

    /** What start_timer leaves of the list. */
    ghost function Started(t: Timer): seq<Timer>
      reads this`list, this`all, this`now, all`due, t`state, t`duration
    {
      var s := if t.state == RUN then Without(list, t) else list;
      if t.duration == 0 then s else Placed(s, Dues(all), t, now + t.duration)
    }

    lemma StartedIs(t: Timer)
      ensures Started(t) == var s := if t.state == RUN then Without(list, t) else list;
                            if t.duration == 0 then s else Placed(s, Dues(all), t, now + t.duration)
    {
    }

    static lemma WithoutFacts(s: seq<Timer>, t: Timer)
      requires Distinct(s)
      ensures forall u :: u in Without(s, t) ==> u in s && u != t
    {
      if t in s {
        WithoutMembers(s, t);
      } else {
        WithoutNobody(s, t);
      }
    }

    static lemma {:induction false} WithoutNobody(s: seq<Timer>, t: Timer)
      requires t !in s
      ensures Without(s, t) == s
      decreases |s|
    {
      if s != [] {
        WithoutNobody(s[1..], t);
      }
    }

    static lemma {:induction false} EarlierIgnores(s: seq<Timer>, due: map<Timer, int>, t: Timer, x: int, d: int)
      requires t !in s
      ensures Earlier(s, due[t := x], d) == Earlier(s, due, d)
      decreases |s|
    {
      if s != [] {
        EarlierIgnores(s[1..], due, t, x, d);
      }
    }

    static lemma PlacedFacts(s: seq<Timer>, due: map<Timer, int>, t: Timer, d: int)
      requires Sorted(s, due) && t !in s
      ensures var i := Earlier(s, due, d);
              i <= |s| && Placed(s, due, t, d) == s[..i] + [t] + s[i..]
      ensures Sorted(Placed(s, due, t, d), due[t := d])
      ensures forall u :: u in Placed(s, due, t, d) <==> u == t || u in s
    {
      PlacedIsSorted(s, due, t, d);
      var i := Earlier(s, due, d);
      assert s == s[..i] + s[i..];
    }

    static lemma RunsWith(state: map<Timer, TimerState>, s: seq<Timer>, p: seq<Timer>, t: Timer)
      requires RunsExactly(state, s) && t in state && forall u :: u in p <==> u == t || u in s
      ensures RunsExactly(state[t := RUN], p)
    {
    }

    /** The part of start_timer that reads the clock and finds the place. */
    method Locate(t: Timer) returns (tprev: Timer?, tnext: Timer?, ghost i: nat)
      requires Valid() && t in all && t.state != RUN
      requires forall u :: u in list ==> u in all && -HALF < u.due - (now + t.duration) < HALF
      modifies t`expiration, t`due
      ensures Chained() && RunsExactly(States(all), list) && clock == I32(now) && t !in list
      ensures i <= |list| && t.due == now + t.duration
      ensures tnext == (if i < |list| then list[i] else null) && tprev == (if i == 0 then null else list[i - 1])
      ensures var p := list[..i] + [t] + list[i..];
              && p == old(Placed(list, Dues(all), t, now + t.duration)) && Sorted(p, Dues(all))
              && (forall u :: u in p <==> u == t || u in list)
              && forall u :: u in p ==> u in all && u.expiration == I32(u.due)
    {
      hide *;
      Parts(t);
      ghost var dues := Dues(all);
      ClockedMeans();
      Arm(t);
      ClockedMeans();
      tprev, tnext, i := FindPlace(t, t.due);
      EarlierIgnores(list, dues, t, t.due, t.due);
      PlacedFacts(list, dues, t, t.due);
    }

    /** The part of start_timer for a timer that is not running and has a duration. */
    method Insert(t: Timer)
      requires Valid() && t in all && t.state != RUN
      requires forall u :: u in list ==> u in all && -HALF < u.due - (now + t.duration) < HALF
      modifies this`timers, this`list, all`next, t`state, t`expiration, t`due
      ensures Valid() && list == old(Placed(list, Dues(all), t, now + t.duration))
      ensures t.state == RUN && t.due == now + t.duration
      ensures forall u :: u in old(list) || u == t ==> u in list
      ensures forall u :: u in all && u !in list ==> u.next == old(u.next)
    {
      hide *;
      var tprev, tnext, i := Locate(t);
      StatesOf(t);
      RunsWith(States(all), list, list[..i] + [t] + list[i..], t);
      Link(t, tprev, tnext, i);
      SetState(t, RUN);
      StillValid();
    }

    lemma StatesOf(t: Timer)
      requires t in all
      ensures t in States(all)
    {
    }

    lemma Listed()
      requires Valid()
      ensures Distinct(list) && forall t :: t in list ==> t in all
    {
    }

    /** start_timer. Its expiration must lie within half the clock's range of the others. */
    method StartTimer(t: Timer)
      requires Valid() && t in all
      requires forall u :: u in list && u != t ==> u in all && -HALF < u.due - (now + t.duration) < HALF
      modifies this`timers, this`list, all`next, t`state, t`expiration, t`due
      ensures Valid() && list == old(Started(t))
      ensures t.duration != 0 ==> t.state == RUN && t.due == now + t.duration
      ensures t.duration == 0 ==> t.due == old(t.due)
      ensures forall u :: u in all && u !in list ==> u.next == old(u.next)
    {
      hide *;
      StartedIs(t);
      Parts(t);
      Listed();
      if t.state == RUN {
        WithoutFacts(list, t);
        StopTimer(t);
      }
      if t.duration == 0 {
        return;
      }
      Insert(t);
    }

    /** set_timer: the duration covers the interval and a tick more, but not two, exactly if rounding up
        does not overflow. */
    method SetTimer(t: Timer, interval: int)
      requires -HALF <= interval < HALF
      modifies t`duration
      ensures t.duration == Duration(interval)
      ensures interval == 0 ==> t.duration == 0
      ensures interval > 0 ==>
                (interval + MSPTICK <= MSPTICK * t.duration < interval + 2 * MSPTICK <==> interval + MSPTICK - 1 < HALF)
    {
      if interval > 0 {
        DurationCovers(interval);
      }
      if interval != 0 {
        t.duration := 1 + Quotient(I32(interval + MSPTICK - 1), MSPTICK);
      } else {
        t.duration := 0;
      }
    }

    /** A timer is set for interval ms and started at real time x, while the clock counts whole ticks:
        it will come due after x + interval, and within two ticks of that. */
    method SetAndStart(t: Timer, interval: int, ghost x: real)
      requires Valid() && t in all && 0 < interval && interval + MSPTICK - 1 < HALF
      requires forall u :: u in list && u != t ==> u in all && -HALF < u.due - (now + Duration(interval)) < HALF
      requires (MSPTICK * now) as real <= x < (MSPTICK * (now + 1)) as real
      modifies this`timers, this`list, all`next, t`state, t`expiration, t`due, t`duration
      ensures Valid() && t.state == RUN && t in list && t.due == now + Duration(interval)
      ensures x + interval as real < (MSPTICK * t.due) as real <= x + (interval + 2 * MSPTICK) as real
    {
      DurationCovers(interval);
      DueInTime(x, now, interval);
      assert Duration(interval) > 0;
      hide *;
      SetTimer(t, interval);
      StartTimer(t);
      Parts(t);
    }

    // ----- expiry -----

    lemma FirstOfList(t: Timer)
      requires Valid() && timers == t
      ensures list != [] && t == list[0] && t in all && t in list && t.state == RUN
      ensures Without(list, t) == list[1..] && t !in list[1..]
      ensures list == [t] + list[1..] && forall u :: u in list[1..] ==> u in list
      ensures t.next != t && clock == I32(now) && t.expiration == I32(t.due)
    {
      NextIs(t);
      NoLoop(Nexts(all), list, timers);
      Successor(0);
    }

    static ghost predicate Chain(ps: set<Timer>, s: seq<Timer>, head: Timer?)
      reads ps`next
    {
      Linked(Nexts(ps), s, head) && Distinct(s) && forall t :: t in s ==> t in ps
    }

    lemma ChainGrows(ex: seq<Timer>, head: Timer?, t: Timer)
      requires Chain(all, ex, head) && t in all && t !in ex
      ensures Linked(Nexts(all)[t := head], [t] + ex, t) && Distinct([t] + ex)
    {
      LinkedWith(Nexts(all), ex, 0, t, head);
      assert ex[..0] + [t] + ex[0..] == [t] + ex;
      assert (if ex == [] then null else ex[0]) == head;
    }

    lemma ChainStays(before: map<Timer, Timer?>, ex: seq<Timer>, head: Timer?)
      requires Linked(before, ex, head) && Distinct(ex)
      requires forall t :: t in ex ==> t in all && Next(before, t) == t.next
      ensures Chain(all, ex, head)
    {
      forall t | t in ex
        ensures Next(Nexts(all), t) == Next(before, t)
      {
        NextIs(t);
      }
      LinkedIgnores(before, Nexts(all), ex, head);
    }

    lemma ChainMeans(ex: seq<Timer>, head: Timer?)
      requires Chain(all, ex, head)
      ensures Linked(Nexts(all), ex, head) && Distinct(ex)
      ensures forall t :: t in ex ==> t in all && Next(Nexts(all), t) == t.next
    {
      forall t | t in ex
        ensures Next(Nexts(all), t) == t.next
      {
        NextIs(t);
      }
    }

    lemma ChainIs(ex: seq<Timer>, head: Timer?)
      requires Linked(Nexts(all), ex, head) && Distinct(ex) && forall t :: t in ex ==> t in all
      ensures Chain(all, ex, head)
    {
    }

    lemma ListIgnores(t: Timer, v: Timer?)
      requires Chained() && RunsExactly(States(all), list) && t !in list && t in all
      ensures Linked(Nexts(all)[t := v], list, timers) && Distinct(list) && forall u :: u in list ==> u in all
      ensures RunsExactly(States(all)[t := EXPIRE], list)
    {
      LinkedIgnores(Nexts(all), Nexts(all)[t := v], list, timers);
    }

    /** Take the head of the list, which is running, off it. */
    method StopFirst(ghost ex: seq<Timer>, expired: Timer?) returns (t: Timer)
      requires Valid() && timers != null && Chain(all, ex, expired) && forall u :: u in ex ==> u !in list
      modifies this`timers, this`list, all`next, timers`state
      ensures Valid() && t == old(timers) && old(list) == [t] + list && t !in list && t in all && t !in ex
      ensures Chain(all, ex, expired) && forall u :: u in ex ==> u !in list
    {
      hide *;
      FirstOfList(timers);
      ghost var next := Nexts(all);
      if timers.next == timers {
        assert false;    // "PANIC: Timer loop"
      }
      t := timers;
      ChainMeans(ex, expired);
      ghost var rest := list[1..];
      StopTimer(t);
      assert list == rest;
      forall u | u in ex
        ensures u !in list && Next(next, u) == u.next
      {
      }
      ChainStays(next, ex, expired);
    }

    /** Put t, just stopped, in front of the expired list. */
    method Push(t: Timer, expired: Timer?, ghost ex: seq<Timer>)
      requires Valid() && Chain(all, ex, expired) && t in all && t !in list && t !in ex
      modifies t`next, t`state
      ensures Valid() && Chain(all, [t] + ex, t) && t.state == EXPIRE
    {
      hide *;
      Parts(t);
      ClockedMeans();
      ChainMeans(ex, expired);
      ChainGrows(ex, expired, t);
      ListIgnores(t, expired);
      SetState(t, EXPIRE);
      SetNext(t, expired);
      StillChained();
      StillValid();
      ChainIs([t] + ex, t);
    }

    /** j timers of l have been moved. */
    ghost predicate Moved(l: seq<Timer>, j: nat, expired: Timer?, ex: seq<Timer>, states: map<Timer, TimerState>)
      reads this, all
    {
      && Valid() && Chain(all, ex, expired) && j <= |l| && list == l[j..] && ex == Reversed(l[..j])
      && (forall u :: u in ex ==> u in all && u !in list && u.state == EXPIRE)
      && (forall u :: u in all && u !in l && u in states ==> u.state == states[u])
    }

    method MoveOne(expired: Timer?, ghost ex: seq<Timer>, ghost l: seq<Timer>, ghost j: nat,
                   ghost states: map<Timer, TimerState>) returns (t: Timer)
      requires Moved(l, j, expired, ex, states) && timers != null
      modifies this`timers, this`list, all`next, all`state
      ensures Moved(l, j + 1, t, [t] + ex, states)
    {
      hide Valid, Chain, Reversed, Linked, Nexts, Dues, States;
      FirstOfList(timers);
      assert j < |l| && l[j] == timers;
      OneMore(l, j);
      t := StopFirst(ex, expired);
      Push(t, expired, ex);
    }

    /** The test of the loop sees through the wrap-around. */
    lemma DueNow(t: Timer)
      requires Valid() && timers == t && -HALF < now - t.due < HALF
      ensures I32(clock - t.expiration) >= 0 <==> t.due < now + 1
      ensures list != [] && t == list[0] && t in all && Dues(all)[t] == t.due
    {
      FirstOfList(t);
      NextIs(t);
      WrappedDifference(now, t.due);
    }

    /** The first loop of timerproc: move the expired timers to a list of their own, the latest in
        front. */
    method Collect() returns (expired: Timer?, ghost ex: seq<Timer>)
      requires Valid() && forall u :: u in list ==> -HALF < now - u.due < HALF
      modifies this`timers, this`list, all`next, all`state
      ensures Moved(old(list), Earlier(old(list), Dues(all), now + 1), expired, ex, old(States(all)))
    {
      hide *;
      expired, ex := null, [];
      ghost var l, dues, states := list, Dues(all), States(all);
      ghost var j: nat := 0;
      NoneMoved();
      SortedList();
      while timers != null
        invariant Moved(l, j, expired, ex, states) && j <= |l|
        invariant forall i :: 0 <= i < j ==> l[i] in dues && dues[l[i]] < now + 1
        decreases |l| - j
      {
        MovedMeans(l, j, expired, ex, states);
        HeadIs();
        assert l[j..][0] == l[j];
        DueNow(timers);
        if I32(clock - timers.expiration) < 0 {
          break;
        }
        var t := MoveOne(expired, ex, l, j, states);
        expired, ex := t, [t] + ex;
        j := j + 1;
      }
      MovedMeans(l, j, expired, ex, states);
      EmptyList();
      EarlierIs(l, dues, now + 1, j);
    }

    lemma NoneMoved()
      requires Valid()
      ensures Moved(list, 0, null, [], States(all))
    {
      assert list[0..] == list && list[..0] == [];
    }

    lemma MovedMeans(l: seq<Timer>, j: nat, expired: Timer?, ex: seq<Timer>, states: map<Timer, TimerState>)
      requires Moved(l, j, expired, ex, states)
      ensures Valid() && Chained() && j <= |l| && list == l[j..]
      ensures forall t :: t in l[j..] ==> t in l
    {
    }

    lemma SortedList()
      requires Valid()
      ensures Sorted(list, Dues(all)) && (forall t :: t in list ==> t in all && t in Dues(all)) && Chained()
    {
    }

    static lemma OneMore(l: seq<Timer>, j: nat)
      requires j < |l|
      ensures Reversed(l[..j + 1]) == [l[j]] + Reversed(l[..j])
      ensures l[j..] == [l[j]] + l[j + 1..]
    {
      assert l[..j + 1][..j] == l[..j];
    }

    // ----- the notify functions -----

    /** What a timer's function does to it: again[t] is the duration with which it restarts t, if it
        does; it touches no other timer. The new expirations must be within half the clock's range
        of each other and of those on the list. */
    ghost predicate CanRestart(ex: seq<Timer>, again: map<Timer, int>)
      reads this`list, this`now, this`all, all`due
    {
      && (forall t, u :: t in ex && t in again && u in list && u in all ==> -HALF < u.due - (now + again[t]) < HALF)
      && forall t, u :: t in ex && t in again && u in ex && u in again ==> -HALF < again[u] - again[t] < HALF
    }

    predicate Restarts(t: Timer, again: map<Timer, int>) {
      t in again && again[t] != 0
    }

    /** The functions of done have been called, those of rest not. */
    ghost predicate Fired(l: seq<Timer>, dues: map<Timer, int>, done: seq<Timer>, rest: seq<Timer>, expired: Timer?,
                          again: map<Timer, int>)
      reads this, all
    {
      && Valid() && Chain(all, rest, expired)
      && (forall u :: u in rest ==> u in all && u !in list && u !in done && u.state == EXPIRE)
      && (forall u :: u in all ==> (u in list <==> u in l || (u in done && Restarts(u, again))))
      && (forall u :: u in l ==> u in all && u in dues && u.due == dues[u] && u !in done)
      && (forall u :: u in done && Restarts(u, again) ==> u in all && u.due == now + again[u])
    }

    lemma FirstFired(l: seq<Timer>, dues: map<Timer, int>, done: seq<Timer>, rest: seq<Timer>, t: Timer,
                     again: map<Timer, int>)
      requires Fired(l, dues, done, rest, t, again)
      ensures rest != [] && t == rest[0] && t in all && t !in list && t !in done && t !in l && t.state == EXPIRE
      ensures Chain(all, rest[1..], t.next) && t !in rest[1..]
    {
      var s := rest[1..];
      NextIs(t);
      assert Next(Nexts(all), rest[0]) == if 1 < |rest| then rest[1] else null;
      forall j {:trigger s[j]} | 0 <= j < |s|
        ensures Next(Nexts(all), s[j]) == if j + 1 < |s| then s[j + 1] else null
      {
        assert s[j] == rest[j + 1];
        assert Next(Nexts(all), rest[j + 1]) == if j + 2 < |rest| then rest[j + 2] else null;
      }
    }

    /** A notify function restarts its timer t, whose descriptor it finds off the list. */
    method Restart(t: Timer, d: int, ghost rest: seq<Timer>, expired: Timer?)
      requires Valid() && t in all && t !in list && t.state != RUN
      requires forall u :: u in list ==> u in all && -HALF < u.due - (now + d) < HALF
      requires Chain(all, rest, expired) && t !in rest && forall u :: u in rest ==> u !in list
      modifies this`timers, this`list, all`next, t`duration, t`state, t`expiration, t`due
      ensures Valid() && Chain(all, rest, expired)
      ensures forall u :: u in all ==> (u in list <==> u in old(list) || (u == t && d != 0))
      ensures d != 0 ==> t.due == now + d
      ensures d == 0 ==> t.due == old(t.due)
    {
      hide *;
      t.duration := d;
      ghost var next := Nexts(all);
      ChainMeans(rest, expired);
      StartedList(t);
      StartTimer(t);
      ChainStays(next, rest, expired);
    }

    /** One turn of the loop that calls the functions. */
    method Call(t: Timer, again: map<Timer, int>, ghost l: seq<Timer>, ghost dues: map<Timer, int>,
                ghost done: seq<Timer>, ghost rest: seq<Timer>) returns (expired: Timer?)
      requires Fired(l, dues, done, rest, t, again) && rest != [] && rest[0] == t
      requires t in again ==> forall u :: u in list ==> u in all && -HALF < u.due - (now + again[t]) < HALF
      modifies this`timers, this`list, all
      ensures Fired(l, dues, done + [t], rest[1..], expired, again)
    {
      hide Valid, Chain;
      FirstFired(l, dues, done, rest, t, again);
      expired := t.next;
      assert forall u :: u in rest[1..] ==> u in rest;
      if t in again {
        Restart(t, again[t], rest[1..], expired);
      }
    }

    lemma StartedList(t: Timer)
      requires Valid() && t in all && t !in list && t.state != RUN
      ensures forall u :: u in Started(t) <==> u in list || (u == t && t.duration != 0)
    {
      if t.duration != 0 {
        PlacedFacts(list, Dues(all), t, now + t.duration);
      }
    }

    /** The second loop of timerproc. */
    method Fire(first: Timer?, again: map<Timer, int>, ghost ex: seq<Timer>) returns (fired: seq<Timer>)
      requires Valid() && Chain(all, ex, first) && forall u :: u in ex ==> u in all && u !in list && u.state == EXPIRE
      requires CanRestart(ex, again)
      modifies this`timers, this`list, all
      ensures Valid() && fired == ex
      ensures forall u :: u in old(list) ==> u.due == old(u.due)
      ensures forall u :: u in all ==> (u in list <==> u in old(list) || (u in ex && Restarts(u, again)))
      ensures forall u :: u in ex && Restarts(u, again) ==> u.due == now + again[u]
    {
      hide *;
      ghost var l, dues, rest := list, Dues(all), ex;
      NoneFired(again, ex, first);
      DuesNow();
      RestartsAreClose(ex, again);
      var expired := first;
      fired := [];
      while expired != null
        invariant Fired(l, dues, fired, rest, expired, again) && fired + rest == ex
        decreases |rest|
      {
        FirstFired(l, dues, fired, rest, expired, again);
        StaysClose(l, dues, fired, rest, expired, again, ex);
        var t := expired;
        assert (fired + [t]) + rest[1..] == ex;
        expired := Call(t, again, l, dues, fired, rest);
        fired, rest := fired + [t], rest[1..];
      }
      AllFired(l, dues, fired, rest, again);
    }

    lemma DuesNow()
      requires Valid()
      ensures forall u :: u in list ==> u in all && u in Dues(all) && Dues(all)[u] == u.due
    {
    }

    lemma NoneFired(again: map<Timer, int>, ex: seq<Timer>, first: Timer?)
      requires Valid() && Chain(all, ex, first) && forall u :: u in ex ==> u in all && u !in list && u.state == EXPIRE
      ensures Fired(list, Dues(all), [], ex, first, again)
    {
    }

    lemma AllFired(l: seq<Timer>, dues: map<Timer, int>, done: seq<Timer>, rest: seq<Timer>, again: map<Timer, int>)
      requires Fired(l, dues, done, rest, null, again)
      ensures rest == [] && Valid()
      ensures forall u :: u in l ==> u in all && u in dues && u.due == dues[u]
      ensures forall u :: u in all ==> (u in list <==> u in l || (u in done && Restarts(u, again)))
      ensures forall u :: u in done && Restarts(u, again) ==> u in all && u.due == now + again[u]
    {
    }

    /** The premise on new expirations carries over to every turn. */
    lemma StaysClose(l: seq<Timer>, dues: map<Timer, int>, done: seq<Timer>, rest: seq<Timer>, t: Timer,
                   again: map<Timer, int>, ex: seq<Timer>)
      requires Fired(l, dues, done, rest, t, again) && rest != [] && rest[0] == t && done + rest == ex
      requires CloseTo(l, dues, ex, again)
      ensures t in again ==> forall u :: u in list ==> u in all && -HALF < u.due - (now + again[t]) < HALF
    {
      assert t in ex;
      assert forall u :: u in done ==> u in ex;
      Listed();
    }

    ghost predicate CloseTo(l: seq<Timer>, dues: map<Timer, int>, ex: seq<Timer>, again: map<Timer, int>)
      reads this`now
    {
      && (forall t, u :: t in ex && t in again && u in l && u in dues ==> -HALF < dues[u] - (now + again[t]) < HALF)
      && forall t, u :: t in ex && t in again && u in ex && u in again ==> -HALF < again[u] - again[t] < HALF
    }

    lemma RestartsAreClose(ex: seq<Timer>, again: map<Timer, int>)
      requires CanRestart(ex, again)
      ensures CloseTo(list, Dues(all), ex, again)
    {
    }

    lemma DueSplit()
      requires Valid()
      ensures var k := Earlier(list, Dues(all), now + 1);
              k <= |list| && forall u :: u in list ==> u in all && (u in list[..k] <==> u.due <= now)
      ensures Distinct(list)
    {
      var k := Earlier(list, Dues(all), now + 1);
      EarlierSplits(list, Dues(all), now + 1);
      assert Distinct(list) && forall i :: 0 <= i < |list| ==> list[i] in all;
      hide *;
      forall u | u in list
        ensures u in all && (u in list[..k] <==> u.due <= now)
      {
        var i: nat :| i < |list| && list[i] == u;
        NextIs(u);
        if i < k {
          assert list[..k][i] == u;
        }
      }
    }

    lemma CollectedFacts(l: seq<Timer>, k: nat, expired: Timer?, ex: seq<Timer>, states: map<Timer, TimerState>)
      requires Moved(l, k, expired, ex, states)
      ensures Valid() && Chain(all, ex, expired) && k <= |l| && list == l[k..] && ex == Reversed(l[..k])
      ensures forall u :: u in ex ==> u in all && u !in list && u.state == EXPIRE
      ensures Distinct(ex)
    {
    }

    static lemma {:induction false} SameMembers(s: seq<Timer>)
      ensures forall u :: u in Reversed(s) <==> u in s
      decreases |s|
    {
      if s != [] {
        SameMembers(s[..|s| - 1]);
        assert s == s[..|s| - 1] + [s[|s| - 1]];
      }
    }

    static lemma SplitReversed(l: seq<Timer>, k: nat)
      requires k <= |l|
      ensures forall u :: u in Reversed(l[..k]) <==> u in l[..k]
      ensures forall u :: u in l <==> u in l[..k] || u in l[k..]
    {
      SameMembers(l[..k]);
      assert l == l[..k] + l[k..];
    }

    lemma CloseAfter(l: seq<Timer>, dues: map<Timer, int>, ex: seq<Timer>, again: map<Timer, int>)
      requires CloseTo(l, dues, l, again) && dues == Dues(all)
      requires (forall u :: u in ex ==> u in l) && forall u :: u in list ==> u in l
      ensures CanRestart(ex, again)
    {
    }

    /** One tick of timerproc. */
    method Tick(again: map<Timer, int>) returns (fired: seq<Timer>)
      requires Valid() && forall u :: u in list ==> -HALF < now - u.due < HALF
      requires CanRestart(list, again)
      modifies this`timers, this`list, all
      ensures Valid()
      ensures var k := Earlier(old(list), old(Dues(all)), now + 1); fired == Reversed(old(list)[..k])
      ensures forall u :: u in all ==> (u in fired <==> u in old(list) && old(u.due) <= now)
      ensures Distinct(fired)
      ensures forall u :: u in all ==>
                (u in list <==> (u in old(list) && old(u.due) > now) || (u in fired && Restarts(u, again)))
      ensures forall u :: u in fired && Restarts(u, again) ==> u.due == now + again[u]
      ensures forall u :: u in list && u !in fired ==> u.due == old(u.due)
    {
      hide *;
      ghost var l, dues, states := list, Dues(all), States(all);
      ghost var k := Earlier(l, dues, now + 1);
      DueSplit();
      RestartsAreClose(l, again);
      SplitReversed(l, k);
      var expired, ex := Collect();
      CollectedFacts(l, k, expired, ex, states);
      CloseAfter(l, dues, ex, again);
      fired := Fire(expired, again, ex);
      DuesNow();
    }

    // ----- many ticks -----

    /** The clock counts on. */
    method Advance(ticks: nat)
      requires Valid()
      modifies this`clock, this`now
      ensures Valid() && now == old(now) + ticks
    {
      WrappedSum(now, ticks);
      AllParts();
      hide *;
      clock := I32(clock + ticks);
      now := now + ticks;
      StillValid();
    }

    lemma AllParts()
      requires Valid()
      ensures Chained() && RunsExactly(States(all), list) && Sorted(list, Dues(all)) && clock == I32(now)
      ensures forall t :: t in list ==> t in all && t.expiration == I32(t.due)
    {
    }

    /** When each timer comes due, if it is running. */
    ghost function Plan(): (m: map<Timer, Option<int>>)
      reads this`list, this`all, all`due
      ensures m.Keys == all
    {
      map u | u in all :: if u in list then Some(u.due) else None
    }

    lemma PlanIs(u: Timer)
      requires u in all
      ensures Plan()[u] == if u in list then Some(u.due) else None
    {
    }

    static function Repeat(t: Timer, again: map<Timer, int>): int {
      if t in again then again[t] else 0
    }

    /** All running timers come due between lo and hi. */
    ghost predicate Within(lo: int, hi: int)
      reads this`list, this`all, all`due
    {
      forall u :: u in list ==> u in all && lo <= u.due <= hi
    }

    /** No restart is after more than most ticks. */
    static predicate Restrained(again: map<Timer, int>, most: nat) {
      forall t :: t in again ==> 0 <= again[t] <= most
    }

    lemma CanTick(again: map<Timer, int>, lo: int, hi: int, most: nat)
      requires Within(lo, hi) && Restrained(again, most) && lo <= now && now + most <= hi < lo + 0x8000_0000
      ensures CanRestart(list, again) && forall u :: u in list ==> -0x8000_0000 < now - u.due < 0x8000_0000
    {
    }

    lemma StillWithin(again: map<Timer, int>, lo: int, hi: int, most: nat, fired: seq<Timer>)
      requires Restrained(again, most) && lo <= now && now + most <= hi
      requires forall u :: u in list ==> u in all
      requires forall u :: u in list && u !in fired ==> lo <= u.due <= hi
      requires forall u :: u in list && u in fired ==> u in again && u.due == now + again[u]
      ensures Within(lo, hi)
    {
    }

    lemma WithinMeans(lo: int, hi: int)
      requires Within(lo, hi)
      ensures forall u :: u in list ==> u in all && lo <= u.due <= hi
    {
    }

    static lemma DueStep(d: Option<int>, e: Option<int>, fired: bool, restarts: bool, again: int, n: int)
      requires fired <==> d.Some? && d.value <= n
      requires restarts <==> again != 0
      requires e.Some? <==> (d.Some? && d.value > n) || (fired && restarts)
      requires fired && restarts ==> e == Some(n + again)
      requires e.Some? && !fired ==> e == d
      ensures (fired <==> IsDue(d, n)) && e == DueAfter(d, again, n)
    {
    }

    static lemma RestartsIs(u: Timer, again: map<Timer, int>)
      ensures Repeat(u, again) == (if u in again then again[u] else 0)
    {
    }

    lemma WhoRestarts(again: map<Timer, int>)
      ensures forall u :: Restarts(u, again) <==> u in again && again[u] != 0
    {
    }

    /** One tick, timer by timer. */
    method TickOn(again: map<Timer, int>, ghost lo: int, ghost hi: int, ghost most: nat) returns (fired: seq<Timer>)
      requires Valid() && Within(lo, hi) && Restrained(again, most)
      requires lo <= now && now + most <= hi < lo + 0x8000_0000
      modifies this`timers, this`list, all
      ensures Valid() && Within(lo, hi)
      ensures forall u :: u in all ==>
                && (u in fired <==> IsDue(old(Plan())[u], now))
                && Plan()[u] == DueAfter(old(Plan())[u], Repeat(u, again), now)
    {
      HalfIs();
      hide *;
      CanTick(again, lo, hi, most);
      WithinMeans(lo, hi);
      WhoRestarts(again);
      ghost var plan := Plan();
      forall u | u in all
        ensures plan[u] == if u in list then Some(u.due) else None
      {
        PlanIs(u);
      }
      fired := Tick(again);
      DuesNow();
      StillWithin(again, lo, hi, most, fired);
      forall u | u in all
        ensures (u in fired <==> IsDue(plan[u], now)) && Plan()[u] == DueAfter(plan[u], Repeat(u, again), now)
      {
        PlanIs(u);
        RestartsIs(u, again);
        DueStep(plan[u], Plan()[u], u in fired, Restarts(u, again), Repeat(u, again), now);
      }
    }

    /** The window of expirations. */
    lemma Widens(lo: int, hi: int, to: int)
      requires Within(lo, hi) && hi <= to
      ensures Within(lo, to)
    {
    }

    /** Behind a tick all running timers come due later. */
    lemma Tightens(lo: int, hi: int, plan: map<Timer, Option<int>>, again: map<Timer, int>, most: nat)
      requires Within(lo, hi) && Restrained(again, most) && plan.Keys == all
      requires forall u :: u in all ==> Plan()[u] == DueAfter(plan[u], Repeat(u, again), now)
      ensures Within(now, hi)
    {
      forall u | u in list
        ensures u in all && now <= u.due <= hi
      {
        PlanIs(u);
      }
    }

    static lemma PlacedMembers(s: seq<Timer>, due: map<Timer, int>, t: Timer, d: int)
      ensures forall u :: u in Placed(s, due, t, d) <==> u == t || u in s
    {
      var i := Earlier(s, due, d);
      assert s == s[..i] + s[i..];
    }

    lemma StartedMembers(t: Timer)
      requires Valid() && t in all
      ensures forall u :: u in Started(t) <==> if u == t then t.duration != 0 else u in list
    {
      Parts(t);
      Listed();
      hide *;
      StartedIs(t);
      var s := if t.state == RUN then Without(list, t) else list;
      if t.state == RUN {
        WithoutMembers(list, t);
      }
      assert forall u :: u in s <==> u in list && u != t;
      PlacedMembers(s, Dues(all), t, now + t.duration);
    }

    // ----- events -----

    /** t is given a duration and started. */
    method Begin(t: Timer, duration: int, ghost gap: nat, ghost most: nat)
      requires Valid() && t in all && 0 <= duration <= most
      requires Within(now - gap, now + most) && gap + most < 0x8000_0000
      modifies this`timers, this`list, all
      ensures Valid() && Within(now - gap, now + most)
      ensures Plan() == old(Plan())[t := if duration == 0 then None else Some(now + duration)]
    {
      HalfIs();
      hide *;
      WithinMeans(now - gap, now + most);
      ghost var plan := Plan();
      forall u | u in all
        ensures plan[u] == if u in list then Some(u.due) else None
      {
        PlanIs(u);
      }
      t.duration := duration;
      StartedMembers(t);
      StartTimer(t);
      Listed();
      BegunWithin(t, now - gap, now + most);
      forall u | u in all
        ensures Plan()[u] == plan[t := if duration == 0 then None else Some(now + duration)][u]
      {
        PlanIs(u);
      }
    }

    lemma BegunWithin(t: Timer, lo: int, hi: int)
      requires forall u :: u in list ==> u in all && (u != t ==> lo <= u.due <= hi)
      requires t in list ==> lo <= t.due <= hi
      ensures Within(lo, hi)
    {
    }

    method End(t: Timer, ghost lo: int, ghost hi: int)
      requires Valid() && t in all && Within(lo, hi)
      modifies this`timers, this`list, all`next, t`state
      ensures Valid() && Within(lo, hi) && Plan() == old(Plan())[t := None]
    {
      hide *;
      WithinMeans(lo, hi);
      ghost var plan := Plan();
      forall u | u in all
        ensures plan[u] == if u in list then Some(u.due) else None
      {
        PlanIs(u);
      }
      Parts(t);
      Listed();
      if t in list {
        WithoutMembers(list, t);
      }
      StopTimer(t);
      Listed();
      BegunWithin(t, lo, hi);
      forall u | u in all
        ensures Plan()[u] == plan[t := None][u]
      {
        PlanIs(u);
      }
    }

    /** One event. */
    method Do(e: Event, ghost gap: nat, ghost most: nat) returns (fired: seq<Timer>)
      requires Valid() && Within(now - gap, now + most) && gap + most < 0x8000_0000 && InTime(e, gap, most, all)
      modifies this`timers, this`list, this`clock, this`now, all
      ensures Valid() && now == Later(old(now), e) && Within(now - GapAfter(gap, e), now + most)
      ensures forall u :: u in all ==>
                && (u in fired <==> Fires(old(Plan())[u], ActOf(u, e, old(now))))
                && Plan()[u] == After(old(Plan())[u], ActOf(u, e, old(now)))
    {
      hide Valid, Within, Plan, DueAfter, IsDue, Repeat;
      fired := [];
      match e {
        case Tick(step, again) =>
          Widens(now - gap, now + most, now + step + most);
          ghost var plan := Plan();
          Advance(step);
          fired := TickOn(again, now - step - gap, now + most, most);
          Tightens(now - step - gap, now + most, plan, again, most);
        case Start(t, d) => Begin(t, d, gap, most);
        case Stop(t) => End(t, now - gap, now + most);
      }
    }

    /** Any number of ticks, starts and stops, over however many rounds of the clock: the log says of each event
        which timers fired, and every timer fires at exactly the ticks that its schedule says. */
    method Run(events: seq<Event>, ghost gap: nat, ghost most: nat) returns (log: seq<seq<Timer>>)
      requires Valid() && Within(now - gap, now + most) && gap + most < 0x8000_0000 && Timely(events, gap, most, all)
      modifies this, all
      ensures Valid() && all == old(all) && |log| == |events|
      ensures forall u, j :: u in all && 0 <= j < |log| ==>
                (u in log[j] <==> Firings(old(Plan())[u], Acts(u, events, old(now)))[j])
    {
      hide *;
      ghost var plan0, now0 := Plan(), now;
      ghost var g: nat := gap;
      ScheduleStarts(plan0, events, now);
      log := [];
      var i: nat := 0;
      assert events[0..] == events;
      while i < |events|
        invariant i == |log| <= |events| && Valid() && all == old(all) && Within(now - g, now + most)
        invariant g + most < 0x8000_0000 && Timely(events[i..], g, most, all)
        invariant OnSchedule(plan0, Plan(), log, events, now0, events[i..], now)
        modifies this, all
      {
        assert events[i..][0] == events[i] && events[i..][1..] == events[i + 1..];
        TimelyMeans(events[i..], g, most, all);
        ghost var plan, before := Plan(), now;
        var fired := Do(events[i], g, most);
        ScheduleStep(plan0, plan, Plan(), log, fired, events, now0, events[i..], before);
        g := GapAfter(g, events[i]);
        log := log + [fired];
        i := i + 1;
      }
      ScheduleEnds(plan0, Plan(), log, events, now0, events[i..], now);
    }
  }

  /** Time passes and a tick comes, after which again says which timers are restarted by their functions; or a timer
      is given a duration and started; or one is stopped. */
  datatype Event = Tick(step: nat, again: map<Timer, int>) | Start(timer: Timer, duration: int) | Stop(timer: Timer)

  function Later(now: int, e: Event): int {
    if e.Tick? then now + e.step else now
  }

  /** What an event is to timer u. */
  function ActOf(u: Timer, e: Event, now: int): Act {
    match e
    case Tick(step, again) => At(now + step, Wheel.Repeat(u, again))
    case Start(t, d) => if u != t then Pass else Set(if d == 0 then None else Some(now + d))
    case Stop(t) => if u != t then Pass else Set(None)
  }

  function Acts(u: Timer, events: seq<Event>, now: int): (acts: seq<Act>)
    ensures |acts| == |events|
    decreases |events|
  {
    if events == [] then [] else [ActOf(u, events[0], now)] + Acts(u, events[1..], Later(now, events[0]))
  }

  function GapAfter(gap: nat, e: Event): nat {
    if e.Tick? then 0 else gap
  }

  /** The duration is at most most, and a tick is less than 2^31 - most behind the last one, or behind a time gap
      ticks ago. */
  ghost predicate InTime(e: Event, gap: nat, most: nat, all: set<Timer>) {
    match e
    case Tick(step, again) => gap + step + most < 0x8000_0000 && Wheel.Restrained(again, most)
    case Start(t, d) => t in all && 0 <= d <= most
    case Stop(t) => t in all
  }

  /** So it is for all events, where only the first tick looks back over the gap. */
  ghost predicate Timely(events: seq<Event>, gap: nat, most: nat, all: set<Timer>)
    decreases |events|
  {
    events == [] || (InTime(events[0], gap, most, all) && Timely(events[1..], GapAfter(gap, events[0]), most, all))
  }

  lemma HalfIs()
    ensures HALF == 0x8000_0000
  {
  }

  lemma TimelyMeans(events: seq<Event>, gap: nat, most: nat, all: set<Timer>)
    requires Timely(events, gap, most, all) && events != []
    ensures InTime(events[0], gap, most, all)
    ensures Timely(events[1..], GapAfter(gap, events[0]), most, all) && GapAfter(gap, events[0]) <= gap
  {
  }

  /** Each timer has fired as its schedule says, and will go on so: rest are the events to come. */
  ghost predicate OnSchedule(plan0: map<Timer, Option<int>>, plan: map<Timer, Option<int>>, log: seq<seq<Timer>>,
                             events: seq<Event>, now0: int, rest: seq<Event>, now: int) {
    && plan.Keys == plan0.Keys && |events| == |log| + |rest|
    && forall u :: u in plan0 ==>
         var f := Firings(plan0[u], Acts(u, events, now0));
         && (forall j :: 0 <= j < |log| ==> (u in log[j] <==> f[j]))
         && f[|log|..] == Firings(plan[u], Acts(u, rest, now))
  }

  lemma ScheduleStarts(plan: map<Timer, Option<int>>, events: seq<Event>, now: int)
    ensures OnSchedule(plan, plan, [], events, now, events, now)
  {
    hide Firings, Acts;
  }

  lemma ScheduleEnds(plan0: map<Timer, Option<int>>, plan: map<Timer, Option<int>>, log: seq<seq<Timer>>,
                     events: seq<Event>, now0: int, rest: seq<Event>, now: int)
    requires OnSchedule(plan0, plan, log, events, now0, rest, now)
    ensures forall u, j :: u in plan0 && 0 <= j < |log| ==>
              j < |events| && (u in log[j] <==> Firings(plan0[u], Acts(u, events, now0))[j])
  {
    hide Firings, Acts;
  }

  lemma ActsStep(u: Timer, events: seq<Event>, now: int)
    requires events != []
    ensures Acts(u, events, now) != [] && Acts(u, events, now)[0] == ActOf(u, events[0], now)
    ensures Acts(u, events, now)[1..] == Acts(u, events[1..], Later(now, events[0]))
  {
  }

  lemma ScheduleStep(plan0: map<Timer, Option<int>>, plan: map<Timer, Option<int>>, after: map<Timer, Option<int>>,
                     log: seq<seq<Timer>>, fired: seq<Timer>, events: seq<Event>, now0: int, rest: seq<Event>,
                     now: int)
    requires OnSchedule(plan0, plan, log, events, now0, rest, now) && rest != [] && after.Keys == plan.Keys
    requires forall u :: u in plan ==>
               && (u in fired <==> Fires(plan[u], ActOf(u, rest[0], now)))
               && after[u] == After(plan[u], ActOf(u, rest[0], now))
    ensures OnSchedule(plan0, after, log + [fired], events, now0, rest[1..], Later(now, rest[0]))
  {
    forall u | u in plan0
      ensures var f := Firings(plan0[u], Acts(u, events, now0));
              && (u in fired <==> f[|log|])
              && f[|log| + 1..] == Firings(after[u], Acts(u, rest[1..], Later(now, rest[0])))
    {
      var f := Firings(plan0[u], Acts(u, events, now0));
      ActsStep(u, rest, now);
      FiringsStep(plan[u], Acts(u, rest, now));
      hide Firings, Acts, ActOf, Fires, After;
      assert f[|log|..][0] == f[|log|] && f[|log|..][1..] == f[|log| + 1..];
    }
    hide Firings, Acts, ActOf, Fires, After;
  }
}
