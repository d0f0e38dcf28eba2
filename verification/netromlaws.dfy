/** The routing table as a map from destinations and neighbours to bindings: what an offer, a tick and a drop each do to
    the one binding they concern, and that they leave all others alone. */
module NetromLaws {
  import opened Common
  import opened Netrom

  ghost function BindingIn(bs: seq<Bind>, np: Neighbour): Option<Bind> {
    if bs == [] then None else if bs[0].via == np then Some(bs[0]) else BindingIn(bs[1..], np)
  }

  /** The binding of a destination to a neighbour. */
  ghost function Binding(rs: seq<Route>, dest: Dest, np: Neighbour): Option<Bind> {
    if rs == [] then None else if rs[0].dest == dest then BindingIn(rs[0].binds, np) else Binding(rs[1..], dest, np)
  }

  /** At most one route to each destination. */
  ghost predicate OneEach(rs: seq<Route>) {
    forall i, j :: 0 <= i < j < |rs| ==> rs[i].dest != rs[j].dest
  }

  lemma {:induction false} BindingInIs(bs: seq<Bind>, np: Neighbour)
    ensures var k := FindBind(bs, np); BindingIn(bs, np) == if k < |bs| then Some(bs[k]) else None
    decreases |bs|
  {
    if bs != [] && bs[0].via != np {
      BindingInIs(bs[1..], np);
    }
  }

  lemma {:induction false} BindingIs(rs: seq<Route>, dest: Dest, np: Neighbour)
    ensures var j := FindRoute(rs, dest);
            Binding(rs, dest, np) == if j < |rs| then BindingIn(rs[j].binds, np) else None
    decreases |rs|
  {
    if rs != [] && rs[0].dest != dest {
      BindingIs(rs[1..], dest, np);
    }
  }

  lemma {:induction false} FindBindSame(a: seq<Bind>, b: seq<Bind>, np: Neighbour)
    requires |a| == |b| && forall i :: 0 <= i < |a| ==> a[i].via == b[i].via
    ensures FindBind(a, np) == FindBind(b, np)
    decreases |a|
  {
    if a != [] {
      FindBindSame(a[1..], b[1..], np);
    }
  }

  // ----- an offer -----

  /** What an offer makes of a binding: a permanent one yields only to a permanent offer, and a recorded route does not
      change what a broadcast has set. */
  ghost function Offered(was: Option<Bind>, np: Neighbour, o: Offer): Bind {
    if was.Some? && !o.permanent && (was.value.permanent || (o.record && !was.value.recorded)) then was.value
    else Bind(o.quality, o.init, o.permanent, o.record && !o.permanent, np)
  }

  lemma BoundBinding(r: Route, np: Neighbour, o: Offer, n: Neighbour)
    ensures BindingIn(Bound(r, np, o).binds, n)
         == if n == np then Some(Offered(BindingIn(r.binds, np), np, o)) else BindingIn(r.binds, n)
    ensures Bound(r, np, o).dest == r.dest
  {
    var k, bs := FindBind(r.binds, np), Bound(r, np, o).binds;
    BindingInIs(r.binds, np);
    BindingInIs(r.binds, n);
    BindingInIs(bs, n);
    if k < |r.binds| {
      assert Refreshed(r.binds[k], o) == Offered(Some(r.binds[k]), np, o);
      FindBindSame(r.binds, bs, n);
    } else {
      assert bs[1..] == r.binds;
    }
  }

  /** An offer enters the binding it is about, and changes no other one. */
  lemma OfferEnters(rs: seq<Route>, dest: Dest, np: Neighbour, o: Offer, d: Dest, n: Neighbour)
    ensures Binding(Added(rs, dest, np, o), d, n)
         == if d == dest && n == np then Some(Offered(Binding(rs, dest, np), np, o)) else Binding(rs, d, n)
  {
    var c := WithRoute(rs, dest);
    var j := FindRoute(c, dest);
    WithRouteVias(rs, dest);
    RouteMade(rs, dest, d, n);
    RouteMade(rs, dest, dest, np);
    RouteMade(rs, dest, dest, n);
    BoundBinding(c[j], np, o, n);
    FindRouteSame(Added(rs, dest, np, o), c, d);
    BindingIs(Added(rs, dest, np, o), d, n);
    BindingIs(c, d, n);
    BindingIs(c, dest, np);
    hide Bound, Offered, Binding, BindingIn, WithRoute, FindRoute;
  }

  lemma RouteMade(rs: seq<Route>, dest: Dest, d: Dest, n: Neighbour)
    ensures Binding(WithRoute(rs, dest), d, n) == Binding(rs, d, n)
    ensures FindRoute(WithRoute(rs, dest), dest) < |WithRoute(rs, dest)|
  {
    WithRouteVias(rs, dest);
    BindingIs(rs, d, n);
    if FindRoute(rs, dest) == |rs| {
      assert WithRoute(rs, dest)[1..] == rs;
    }
  }

  // ----- a tick -----

  /** What a tick leaves of a binding: the count is an unsigned, so that 0 does not end it. */
  ghost function Older(b: Bind): Option<Bind> {
    if b.permanent then Some(b)
    else if b.obsocnt == 1 then None
    else Some(b.(obsocnt := if b.obsocnt == 0 then 4294967295 else b.obsocnt - 1))
  }

  ghost function OlderIf(b: Option<Bind>): Option<Bind> {
    if b.Some? then Older(b.value) else None
  }

  lemma {:induction false} AgedBinding(bs: seq<Bind>, np: Neighbour)
    requires Single(bs)
    ensures BindingIn(AgedBinds(bs), np) == OlderIf(BindingIn(bs, np))
    decreases |bs|
  {
    if bs != [] {
      AgedBinding(bs[1..], np);
      if bs[0].via == np {
        NotThere(bs[1..], np);
      }
      var a := AgedBinds(bs);
      assert a != [] ==> a[1..] == AgedBinds(bs[1..]) || a == AgedBinds(bs[1..]);
    }
  }

  lemma {:induction false} NotThere(bs: seq<Bind>, np: Neighbour)
    requires forall i :: 0 <= i < |bs| ==> bs[i].via != np
    ensures BindingIn(bs, np) == None
    decreases |bs|
  {
    if bs != [] {
      NotThere(bs[1..], np);
    }
  }

  lemma {:induction false} NoRoute(rs: seq<Route>, dest: Dest, np: Neighbour)
    requires forall i :: 0 <= i < |rs| ==> rs[i].dest != dest
    ensures Binding(rs, dest, np) == None
    decreases |rs|
  {
    if rs != [] {
      NoRoute(rs[1..], dest, np);
    }
  }

  lemma {:induction false} NoneAged(rs: seq<Route>, dest: Dest)
    requires forall i :: 0 <= i < |rs| ==> rs[i].dest != dest
    ensures forall i :: 0 <= i < |AgedChain(rs)| ==> AgedChain(rs)[i].dest != dest
    decreases |rs|
  {
    if rs != [] {
      ChainStep(rs);
      NoneAged(rs[1..], dest);
      hide AgedBinds, AgedChain;
    }
  }

  lemma {:induction false} AgedOneEach(rs: seq<Route>)
    requires OneEach(rs)
    ensures OneEach(AgedChain(rs))
    decreases |rs|
  {
    if rs != [] {
      ChainStep(rs);
      AgedOneEach(rs[1..]);
      NoneAged(rs[1..], rs[0].dest);
      hide AgedBinds, AgedChain;
    }
  }

  /** A tick makes every binding older, and nothing else. */
  lemma {:induction false} TickAges(rs: seq<Route>, dest: Dest, np: Neighbour)
    requires ChainOk(rs) && OneEach(rs)
    ensures Binding(AgedChain(rs), dest, np) == OlderIf(Binding(rs, dest, np))
    decreases |rs|
  {
    if rs != [] {
      var t := rs[1..];
      assert RouteOk(rs[0]);
      ChainStep(rs);
      TickAges(t, dest, np);
      AgedBinding(rs[0].binds, np);
      if rs[0].dest == dest {
        NoneAged(t, dest);
        NoRoute(AgedChain(t), dest, np);
      }
      hide AgedBinds, AgedChain, Single, OlderIf;
      assert AgedBinds(rs[0].binds) != [] ==> AgedChain(rs)[1..] == AgedChain(t);
      assert BindingIn([], np) == None;
    }
  }

  ghost function AfterTicks(rs: seq<Route>, k: nat): seq<Route>
    decreases k
  {
    if k == 0 then rs else AfterTicks(AgedChain(rs), k - 1)
  }

  /** A binding with n ticks left goes at the n-th of them, and not before; a permanent one stays. */
  lemma {:induction false} Lifetime(rs: seq<Route>, dest: Dest, np: Neighbour, k: nat)
    requires ChainOk(rs) && OneEach(rs)
    requires Binding(rs, dest, np).Some? && var b := Binding(rs, dest, np).value; b.permanent || 0 < b.obsocnt
    ensures var b := Binding(rs, dest, np).value;
            Binding(AfterTicks(rs, k), dest, np)
            == if b.permanent then Some(b) else if k < b.obsocnt then Some(b.(obsocnt := b.obsocnt - k)) else None
    decreases k
  {
    if k > 0 {
      var b, t := Binding(rs, dest, np).value, AgedChain(rs);
      TickAges(rs, dest, np);
      AgedChainOk(rs);
      AgedOneEach(rs);
      OneTickMore(rs, k);
      OlderMeans(b);
      hide *;
      if b.permanent || b.obsocnt > 1 {
        Lifetime(t, dest, np, k - 1);
      } else {
        StaysAway(t, dest, np, k - 1);
      }
    }
  }

  lemma OneTickMore(rs: seq<Route>, k: nat)
    requires k > 0
    ensures AfterTicks(rs, k) == AfterTicks(AgedChain(rs), k - 1)
  {
  }

  lemma OlderMeans(b: Bind)
    requires b.permanent || 0 < b.obsocnt
    ensures OlderIf(Some(b)) == if b.permanent then Some(b) else if b.obsocnt == 1 then None
                                else Some(b.(obsocnt := b.obsocnt - 1))
  {
  }

  lemma {:induction false} StaysAway(rs: seq<Route>, dest: Dest, np: Neighbour, k: nat)
    requires ChainOk(rs) && OneEach(rs) && Binding(rs, dest, np) == None
    ensures Binding(AfterTicks(rs, k), dest, np) == None
    decreases k
  {
    if k > 0 {
      TickAges(rs, dest, np);
      AgedChainOk(rs);
      AgedOneEach(rs);
      hide AgedChain, ChainOk, OneEach, Binding;
      StaysAway(AgedChain(rs), dest, np, k - 1);
    }
  }

  // ----- a drop -----

  lemma {:induction false} CutOut(bs: seq<Bind>, k: nat, np: Neighbour)
    requires Single(bs) && k < |bs|
    ensures BindingIn(bs[..k] + bs[k + 1..], np) == if np == bs[k].via then None else BindingIn(bs, np)
    decreases k
  {
    var c := bs[..k] + bs[k + 1..];
    if k == 0 {
      assert c == bs[1..];
      if np == bs[0].via {
        NotThere(c, np);
      }
    } else {
      assert c[1..] == bs[1..][..k - 1] + bs[1..][k..] && c[0] == bs[0];
      CutOut(bs[1..], k - 1, np);
    }
  }

  /** A drop takes exactly the one binding out. */
  lemma DropTakesOne(rs: seq<Route>, j: nat, k: nat, d: Dest, n: Neighbour)
    requires ChainOk(rs) && OneEach(rs) && j < |rs| && k < |rs[j].binds|
    ensures Binding(Dropped(rs, j, k), d, n)
         == if d == rs[j].dest && n == rs[j].binds[k].via then None else Binding(rs, d, n)
  {
    var r := rs[j];
    var bs := r.binds[..k] + r.binds[k + 1..];
    assert RouteOk(r);
    DroppedIs(rs, j, k);
    CutOut(r.binds, k, n);
    if bs == [] {
      assert BindingIn(bs, n) == None;
      RouteCut(rs, j, d, n);
    } else {
      RouteSet(rs, j, Route(r.dest, |bs|, bs), d, n);
    }
  }

  lemma {:induction false} RouteCut(rs: seq<Route>, j: nat, d: Dest, n: Neighbour)
    requires OneEach(rs) && j < |rs|
    ensures Binding(rs[..j] + rs[j + 1..], d, n) == if d == rs[j].dest then None else Binding(rs, d, n)
    ensures d == rs[j].dest ==> Binding(rs, d, n) == BindingIn(rs[j].binds, n)
    decreases j
  {
    var c := rs[..j] + rs[j + 1..];
    if j == 0 {
      assert c == rs[1..];
      if d == rs[0].dest {
        NoRoute(c, d, n);
      }
    } else {
      assert c[1..] == rs[1..][..j - 1] + rs[1..][j..] && c[0] == rs[0];
      RouteCut(rs[1..], j - 1, d, n);
    }
  }

  lemma {:induction false} RouteSet(rs: seq<Route>, j: nat, r: Route, d: Dest, n: Neighbour)
    requires OneEach(rs) && j < |rs| && r.dest == rs[j].dest
    ensures Binding(rs[j := r], d, n) == if d == r.dest then BindingIn(r.binds, n) else Binding(rs, d, n)
    ensures Binding(rs, r.dest, n) == BindingIn(rs[j].binds, n)
    decreases j
  {
    if j == 0 {
      assert rs[0 := r][1..] == rs[1..];
    } else {
      assert rs[j := r][1..] == rs[1..][j - 1 := r];
      RouteSet(rs[1..], j - 1, r, d, n);
    }
  }

  // ----- one route to each destination -----

  lemma {:induction false} NotFound(rs: seq<Route>, dest: Dest)
    requires FindRoute(rs, dest) == |rs|
    ensures forall i :: 0 <= i < |rs| ==> rs[i].dest != dest
    decreases |rs|
  {
    if rs != [] {
      NotFound(rs[1..], dest);
      assert forall i :: 0 < i < |rs| ==> rs[i] == rs[1..][i - 1];
    }
  }

  /** An offer keeps at most one route to each destination, as a tick does. */
  lemma OfferKeepsOneEach(rs: seq<Route>, dest: Dest, np: Neighbour, o: Offer)
    requires OneEach(rs)
    ensures OneEach(Added(rs, dest, np, o))
  {
    var c := WithRoute(rs, dest);
    WithRouteVias(rs, dest);
    if FindRoute(rs, dest) == |rs| {
      NotFound(rs, dest);
    }
    assert OneEach(c);
    BoundBinding(c[FindRoute(c, dest)], np, o, np);
    hide FindRoute, Bound, Offered, BindingIn, WithRoute;
  }

  /** So does a drop. */
  lemma DropKeepsOneEach(rs: seq<Route>, j: nat, k: nat)
    requires ChainOk(rs) && OneEach(rs) && j < |rs| && k < |rs[j].binds|
    ensures OneEach(Dropped(rs, j, k))
  {
    DroppedIs(rs, j, k);
    hide Dropped, ChainOk;
  }
}
