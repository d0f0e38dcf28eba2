/** What a caller of set_timer, start_timer and stop_timer may count on, in milliseconds and in ticks of 55 of them. */
module TimerLaws {
  import opened Common
  import opened TimerSpec
  import opened TimerList

  /** An interval is rounded up to ticks of 55 ms, and one more is added; 0 stays 0. */
  lemma TicksOf(interval: int)
    requires 0 <= interval <= 0x7FFF_FFFF - 54
    ensures Duration(0) == 0
    ensures interval > 0 ==> 55 * (Duration(interval) - 2) < interval <= 55 * (Duration(interval) - 1)
  {
  }

  /** Time passes tick by tick, at each of which the function would restart its timer with the duration again. */
  ghost predicate Steady(acts: seq<Act>, n: int, again: int) {
    forall j :: 0 <= j < |acts| ==> acts[j] == At(n + j, again)
  }

  /** A timer that is not restarted fires once, when it comes due. */
  lemma {:induction false} FiresOnce(d: int, n: int, acts: seq<Act>, j: nat)
    requires Steady(acts, n, 0) && n <= d && j < |acts|
    ensures Firings(Some(d), acts)[j] <==> n + j == d
    decreases |acts|
  {
    FiringsStep(Some(d), acts);
    var t := acts[1..];
    assert Steady(t, n + 1, 0);
    if j > 0 {
      if n == d {
        StoppedIsSilent(t, |t|);
      } else {
        FiresOnce(d, n + 1, t, j - 1);
      }
      hide Firings;
    }
  }

  /** Tick x is d, or a whole number of periods behind it. */
  ghost predicate Beat(x: int, d: int, period: int)
    requires period > 0
  {
    x >= d && (x - d) % period == 0
  }

  /** A timer that is restarted with the same duration whenever it fires, fires when it comes due and then every so many
      ticks, for ever. */
  lemma {:induction false} FiresPeriodically(d: int, again: int, n: int, acts: seq<Act>, j: nat)
    requires again > 0 && Steady(acts, n, again) && n <= d && j < |acts|
    ensures Firings(Some(d), acts)[j] <==> Beat(n + j, d, again)
    decreases |acts|
  {
    FiringsStep(Some(d), acts);
    var t := acts[1..];
    assert Steady(t, n + 1, again) && acts[0] == At(n, again);
    hide Firings, Steady, Beat;
    FirstBeat(n, d, again);
    if j > 0 && n == d {
      FiresPeriodically(n + again, again, n + 1, t, j - 1);
      NextBeat(n + j, n, again);
    } else if j > 0 {
      FiresPeriodically(d, again, n + 1, t, j - 1);
    }
  }

  lemma FirstBeat(n: int, d: int, again: int)
    requires again > 0 && n <= d
    ensures Beat(n, d, again) <==> n == d
  {
  }

  lemma NextBeat(x: int, d: int, again: int)
    requires again > 0 && x > d
    ensures Beat(x, d + again, again) <==> Beat(x, d, again)
  {
    OnePeriod(x - d, again);
    assert x - (d + again) == x - d - again;
  }

  lemma OnePeriod(j: int, again: int)
    requires again > 0 && j > 0
    ensures j >= again && (j - again) % again == 0 <==> j % again == 0
  {
    var q, r := j / again, j % again;
    if j < again {
      Remainder(j, 0, j, again);
    } else {
      Less(q, again);
      Remainder(j - again, q - 1, r, again);
    }
  }

  lemma Less(q: int, m: int)
    ensures (q - 1) * m == q * m - m
  {
  }

  lemma Remainder(x: int, q: int, r: int, m: int)
    requires 0 <= r < m && x == q * m + r
    ensures x % m == r
  {
    var k := x / m - q;
    assert k * m == x / m * m - q * m;
    Multiple(k, m);
  }

  lemma Multiple(k: int, m: int)
    requires m > 0
    ensures k > 0 ==> k * m >= m
    ensures k < 0 ==> k * m <= -m
  {
  }

  ghost predicate TickByTick(events: seq<Event>, u: Timer, again: int) {
    forall j :: 0 <= j < |events| ==>
      events[j].Tick? && events[j].step == 1 && Wheel.Repeat(u, events[j].again) == again
  }

  lemma {:induction false} ActsAreSteady(u: Timer, events: seq<Event>, now: int, again: int)
    requires TickByTick(events, u, again)
    ensures Steady(Acts(u, events, now), now + 1, again)
    decreases |events|
  {
    if events != [] {
      ActsStep(u, events, now);
      ActsAreSteady(u, events[1..], now + 1, again);
      var a := Acts(u, events, now);
      hide Acts;
      forall j | 0 <= j < |a|
        ensures a[j] == At(now + 1 + j, again)
      {
        if j > 0 {
          assert a[j] == a[1..][j - 1];
        }
      }
    }
  }

  /** A timer that is started with a duration of dur ticks, whatever it did before, fires at the dur-th tick behind the
      start, and then again every again ticks, if its function restarts it with that; otherwise not again. */
  lemma StartedFires(was: Option<int>, u: Timer, dur: int, ticks: seq<Event>, now: int, again: int, j: nat)
    requires dur > 0 && again >= 0 && TickByTick(ticks, u, again) && j < |ticks|
    ensures var f := Firings(was, Acts(u, [Start(u, dur)] + ticks, now));
            && !f[0]
            && (f[j + 1] <==> if again == 0 then j + 1 == dur else Beat(j + 1, dur, again))
  {
    var events := [Start(u, dur)] + ticks;
    var acts := Acts(u, events, now);
    assert events[1..] == ticks;
    ActsStep(u, events, now);
    FiringsStep(was, acts);
    ActsAreSteady(u, ticks, now, again);
    hide Acts, Firings, TickByTick, Beat;
    var t := Acts(u, ticks, now);
    if again == 0 {
      FiresOnce(now + dur, now + 1, t, j);
    } else {
      FiresPeriodically(now + dur, again, now + 1, t, j);
      BeatShifted(now, j + 1, dur, again);
    }
  }

  lemma BeatShifted(now: int, x: int, d: int, again: int)
    requires again > 0
    ensures Beat(now + x, now + d, again) <==> Beat(x, d, again)
  {
    assert now + x - (now + d) == x - d;
  }

  /** A timer that is stopped, or started with a duration of 0, does not fire, whatever it did before and however many
      ticks come. */
  lemma StoppedDoesNotFire(was: Option<int>, u: Timer, ticks: seq<Event>, now: int, again: int, j: nat)
    requires TickByTick(ticks, u, again) && j <= |ticks|
    ensures !Firings(was, Acts(u, [Stop(u)] + ticks, now))[j]
    ensures !Firings(was, Acts(u, [Start(u, 0)] + ticks, now))[j]
  {
    Silent(was, u, Stop(u), ticks, now, again, j);
    Silent(was, u, Start(u, 0), ticks, now, again, j);
    hide *;
  }

  lemma Silent(was: Option<int>, u: Timer, e: Event, ticks: seq<Event>, now: int, again: int, j: nat)
    requires TickByTick(ticks, u, again) && j <= |ticks| && (e == Stop(u) || e == Start(u, 0))
    ensures !Firings(was, Acts(u, [e] + ticks, now))[j]
  {
    var events := [e] + ticks;
    var acts := Acts(u, events, now);
    assert events[1..] == ticks;
    ActsStep(u, events, now);
    FiringsStep(was, acts);
    ActsAreSteady(u, ticks, now, again);
    hide Acts, Firings, TickByTick;
    if j > 0 {
      StoppedIsSilent(Acts(u, ticks, now), |ticks|);
    }
  }
}
