/** The NET/ROM routing table: destinations with bindings to reference-counted neighbours
    (cmd/netrom/nrcmd.c, net/netrom/nr3.c). */
module Netrom {
  import opened Common

  const NRNUMCHAINS: nat := 17
  const MAXUINT: nat := 0xFFFF_FFFF

  type Neighbour = nat   // the address of a struct nrnbr_tab
  type Dest = nat        // a callsign

  datatype Bind = Bind(quality: nat, obsocnt: nat, permanent: bool, recorded: bool, via: Neighbour)

  datatype Route = Route(dest: Dest, numRoutes: nat, binds: seq<Bind>)

  // ----- counting references -----

  function Vias(bs: seq<Bind>): multiset<Neighbour> {
    if bs == [] then multiset{} else multiset{bs[0].via} + Vias(bs[1..])
  }

  function ChainVias(rs: seq<Route>): multiset<Neighbour> {
    if rs == [] then multiset{} else Vias(rs[0].binds) + ChainVias(rs[1..])
  }

  function TableVias(t: seq<seq<Route>>): multiset<Neighbour> {
    if t == [] then multiset{} else ChainVias(t[0]) + TableVias(t[1..])
  }

  lemma {:induction false} ViasAppend(a: seq<Bind>, b: seq<Bind>)
    ensures Vias(a + b) == Vias(a) + Vias(b)
    decreases |a|
  {
    if a == [] {
      assert a + b == b;
    } else {
      assert (a + b)[1..] == a[1..] + b;
      ViasAppend(a[1..], b);
    }
  }

  lemma {:induction false} ChainViasAppend(a: seq<Route>, b: seq<Route>)
    ensures ChainVias(a + b) == ChainVias(a) + ChainVias(b)
    decreases |a|
  {
    if a == [] {
      assert a + b == b;
    } else {
      assert (a + b)[1..] == a[1..] + b;
      ChainViasAppend(a[1..], b);
    }
  }

  lemma {:induction false} TableViasAppend(a: seq<seq<Route>>, b: seq<seq<Route>>)
    ensures TableVias(a + b) == TableVias(a) + TableVias(b)
    decreases |a|
  {
    if a == [] {
      assert a + b == b;
    } else {
      assert (a + b)[1..] == a[1..] + b;
      TableViasAppend(a[1..], b);
    }
  }

  lemma OneBind(b: Bind)
    ensures Vias([b]) == multiset{b.via}
  {
    assert [b][1..] == [];
  }

  lemma EmptyIsOk(t: seq<seq<Route>>, refcnt: map<Neighbour, nat>)
    requires |t| == NRNUMCHAINS && (forall h :: 0 <= h < |t| ==> t[h] == []) && refcnt == map[]
    ensures TableOk(t, refcnt)
  {
    NoVias(t);
  }

  lemma OneRoute(r: Route)
    ensures ChainVias([r]) == Vias(r.binds)
  {
    assert [r][1..] == [];
  }

  lemma OneChain(c: seq<Route>)
    ensures TableVias([c]) == ChainVias(c)
  {
    assert [c][1..] == [];
  }

  /** The reference counts are exactly the numbers of bindings, and no neighbour is unreferenced. */
  ghost predicate RefsOk(refcnt: map<Neighbour, nat>, vias: multiset<Neighbour>) {
    && (forall n :: n in refcnt ==> refcnt[n] == vias[n] > 0)
    && (forall n :: n in vias ==> n in refcnt)
  }

  /** At most one binding to each neighbour. */
  predicate Single(bs: seq<Bind>) {
    forall i, k :: 0 <= i < k < |bs| ==> bs[i].via != bs[k].via
  }

  predicate RouteOk(r: Route) {
    r.numRoutes == |r.binds| > 0 && Single(r.binds)
  }

  ghost predicate ChainOk(rs: seq<Route>) {
    forall j :: 0 <= j < |rs| ==> RouteOk(rs[j])
  }

  // ----- what a tick leaves -----

  /** --bp->obsocnt on an unsigned. */
  function Decremented(n: nat): nat {
    if n == 0 then MAXUINT else n - 1
  }

  /** A binding after a tick, if it survives. */
  function Aged(b: Bind): Option<Bind> {
    if b.permanent then Some(b)
    else if Decremented(b.obsocnt) == 0 then None
    else Some(b.(obsocnt := Decremented(b.obsocnt)))
  }

  function AgedBinds(bs: seq<Bind>): seq<Bind> {
    if bs == [] then []
    else match Aged(bs[0])
      case None => AgedBinds(bs[1..])
      case Some(b) => [b] + AgedBinds(bs[1..])
  }

  function AgedRoute(r: Route): Route {
    Route(r.dest, |AgedBinds(r.binds)|, AgedBinds(r.binds))
  }

  function AgedChain(rs: seq<Route>): seq<Route> {
    if rs == [] then []
    else if AgedBinds(rs[0].binds) == [] then AgedChain(rs[1..])
    else [AgedRoute(rs[0])] + AgedChain(rs[1..])
  }

  function AgedTable(t: seq<seq<Route>>): seq<seq<Route>> {
    if t == [] then [] else [AgedChain(t[0])] + AgedTable(t[1..])
  }

  /** Exactly the bindings that are permanent or have more than one tick left survive, in order. */
  lemma {:induction false} WhoSurvives(bs: seq<Bind>, b: Bind)
    ensures b in AgedBinds(bs) <==>
              exists a :: a in bs && a.(obsocnt := b.obsocnt) == b
                && (if a.permanent then a == b else a.obsocnt != 1 && b.obsocnt == Decremented(a.obsocnt))
    decreases |bs|
  {
    if bs != [] {
      WhoSurvives(bs[1..], b);
      assert bs == [bs[0]] + bs[1..];
      assert forall a :: a in bs <==> a == bs[0] || a in bs[1..];
    }
  }

  lemma {:induction false} AgedSingle(bs: seq<Bind>)
    requires Single(bs)
    ensures Single(AgedBinds(bs))
    ensures forall b :: b in AgedBinds(bs) ==> exists a :: a in bs && a.via == b.via
    decreases |bs|
  {
    if bs != [] {
      AgedSingle(bs[1..]);
      assert forall b :: b in bs[1..] ==> b in bs && b.via != bs[0].via;
      assert bs[0] in bs;
    }
  }

  lemma {:induction false} AgedChainOk(rs: seq<Route>)
    requires ChainOk(rs)
    ensures ChainOk(AgedChain(rs))
    decreases |rs|
  {
    if rs != [] {
      assert RouteOk(rs[0]);
      AgedSingle(rs[0].binds);
      AgedChainOk(rs[1..]);
    }
  }

  lemma AgedStep(bs: seq<Bind>)
    requires bs != []
    ensures AgedBinds(bs) == match Aged(bs[0])
                             case None => AgedBinds(bs[1..])
                             case Some(b) => [b] + AgedBinds(bs[1..])
    ensures Vias(bs) == multiset{bs[0].via} + Vias(bs[1..])
  {
  }

  /** One reference to v is gone. */
  lemma Released(refcnt: map<Neighbour, nat>, vias: multiset<Neighbour>, v: Neighbour)
    requires RefsOk(refcnt, vias + multiset{v})
    ensures v in refcnt && refcnt[v] > 0
    ensures RefsOk(if refcnt[v] == 1 then refcnt - {v} else refcnt[v := refcnt[v] - 1], vias)
  {
    var m := vias + multiset{v};
    assert v in m && m[v] == vias[v] + 1;
    forall n | n != v
      ensures m[n] == vias[n]
    {
    }
  }

  /** One reference to v is new. */
  lemma Gained(refcnt: map<Neighbour, nat>, vias: multiset<Neighbour>, v: Neighbour)
    requires RefsOk(refcnt, vias)
    ensures RefsOk(refcnt[v := 1 + if v in refcnt then refcnt[v] else 0], vias + multiset{v})
  {
    var m := vias + multiset{v};
    assert m[v] == vias[v] + 1;
    assert v !in refcnt ==> vias[v] == 0;
    forall n | n != v
      ensures m[n] == vias[n]
    {
    }
  }

  // ----- adding and dropping -----

  /** find_nrroute: the place of the first route to dest, or the length of the chain. */
  function FindRoute(rs: seq<Route>, dest: Dest): (j: nat)
    ensures j <= |rs| && (j < |rs| ==> rs[j].dest == dest)
  {
    if rs == [] || rs[0].dest == dest then 0 else 1 + FindRoute(rs[1..], dest)
  }

  /** find_binding. */
  function FindBind(bs: seq<Bind>, np: Neighbour): (k: nat)
    ensures k <= |bs| && (k < |bs| ==> bs[k].via == np)
  {
    if bs == [] || bs[0].via == np then 0 else 1 + FindBind(bs[1..], np)
  }

  /** find_worst, with the bounds it has so far. */
  function FindWorst(bs: seq<Bind>, minqual: nat): Option<Bind> {
    if bs == [] then None
    else if !bs[0].permanent && bs[0].quality < minqual then
      match FindWorst(bs[1..], bs[0].quality)
      case None => Some(bs[0])
      case Some(b) => Some(b)
    else FindWorst(bs[1..], minqual)
  }

  /** The worst is a binding of the list that is not permanent, and none of those is worse. */
  lemma {:induction false} WorstIsWorst(bs: seq<Bind>, minqual: nat)
    ensures match FindWorst(bs, minqual)
            case None => forall b :: b in bs && !b.permanent ==> b.quality >= minqual
            case Some(w) => w in bs && !w.permanent && w.quality < minqual
                              && forall b :: b in bs && !b.permanent ==> w.quality <= b.quality
    decreases |bs|
  {
    if bs != [] {
      var first := !bs[0].permanent && bs[0].quality < minqual;
      WorstIsWorst(bs[1..], if first then bs[0].quality else minqual);
      assert forall b :: b in bs ==> b == bs[0] || b in bs[1..];
    }
  }

  /** What nr_routeadd is told about a binding. */
  datatype Offer = Offer(quality: nat, permanent: bool, record: bool, init: nat)

  /** An existing binding after an offer: permanent ones yield only to permanent offers, and what a
      broadcast has set is not changed by a recorded route. */
  function Refreshed(b: Bind, o: Offer): Bind {
    if o.permanent then b.(quality := o.quality, obsocnt := o.init, permanent := true, recorded := false)
    else if b.permanent then b
    else if o.record then (if b.recorded then b.(quality := o.quality, obsocnt := o.init) else b)
    else b.(quality := o.quality, obsocnt := o.init, recorded := false)
  }

  function Bound(r: Route, np: Neighbour, o: Offer): Route {
    var k := FindBind(r.binds, np);
    if k < |r.binds| then r.(binds := r.binds[k := Refreshed(r.binds[k], o)])
    else Route(r.dest, r.numRoutes + 1,
               [Bind(o.quality, o.init, o.permanent, !o.permanent && o.record, np)] + r.binds)
  }

  /** The chain with a route to dest, a new one in front if there was none. */
  function WithRoute(rs: seq<Route>, dest: Dest): seq<Route> {
    if FindRoute(rs, dest) < |rs| then rs else [Route(dest, 0, [])] + rs
  }

  function Added(rs: seq<Route>, dest: Dest, np: Neighbour, o: Offer): seq<Route> {
    var c := WithRoute(rs, dest);
    var j := FindRoute(c, dest);
    if j < |c| then c[j := Bound(c[j], np, o)] else c
  }

  /** The chain without binding k of route j, and without the route if that was the last. */
  function Dropped(rs: seq<Route>, j: nat, k: nat): seq<Route>
    requires j < |rs| && k < |rs[j].binds|
  {
    var r := rs[j];
    var r' := Route(r.dest, if r.numRoutes > 0 then r.numRoutes - 1 else 0, r.binds[..k] + r.binds[k + 1..]);
    if r'.numRoutes == 0 then rs[..j] + rs[j + 1..] else rs[j := r']
  }

  lemma ChainViasAt(rs: seq<Route>, j: nat)
    requires j < |rs|
    ensures ChainVias(rs) == ChainVias(rs[..j] + rs[j + 1..]) + Vias(rs[j].binds)
  {
    hide *;
    assert rs == rs[..j] + [rs[j]] + rs[j + 1..];
    ChainViasAppend(rs[..j] + [rs[j]], rs[j + 1..]);
    ChainViasAppend(rs[..j], [rs[j]]);
    OneRoute(rs[j]);
    ChainViasAppend(rs[..j], rs[j + 1..]);
  }

  /** Replacing a route changes the references by those of its bindings. */
  lemma ChainViasSet(rs: seq<Route>, j: nat, r: Route)
    requires j < |rs|
    ensures ChainVias(rs[j := r]) + Vias(rs[j].binds) == ChainVias(rs) + Vias(r.binds)
  {
    hide *;
    ChainViasAt(rs, j);
    ChainViasAt(rs[j := r], j);
    assert rs[j := r][..j] + rs[j := r][j + 1..] == rs[..j] + rs[j + 1..];
  }

  lemma ViasAt(bs: seq<Bind>, k: nat)
    requires k < |bs|
    ensures Vias(bs) == Vias(bs[..k] + bs[k + 1..]) + multiset{bs[k].via}
  {
    hide *;
    assert bs == bs[..k] + [bs[k]] + bs[k + 1..];
    ViasAppend(bs[..k] + [bs[k]], bs[k + 1..]);
    ViasAppend(bs[..k], [bs[k]]);
    OneBind(bs[k]);
    ViasAppend(bs[..k], bs[k + 1..]);
  }

  lemma ViasSet(bs: seq<Bind>, k: nat, b: Bind)
    requires k < |bs| && b.via == bs[k].via
    ensures Vias(bs[k := b]) == Vias(bs)
  {
    hide *;
    ViasAt(bs, k);
    ViasAt(bs[k := b], k);
    assert bs[k := b][..k] + bs[k := b][k + 1..] == bs[..k] + bs[k + 1..];
  }

  lemma DroppedIs(rs: seq<Route>, j: nat, k: nat)
    requires ChainOk(rs) && j < |rs| && k < |rs[j].binds|
    ensures var r := rs[j];
            var bs := r.binds[..k] + r.binds[k + 1..];
            Dropped(rs, j, k) == if bs == [] then rs[..j] + rs[j + 1..] else rs[j := Route(r.dest, |bs|, bs)]
    ensures ChainOk(Dropped(rs, j, k))
  {
    assert RouteOk(rs[j]);
  }

  lemma NoBinds()
    ensures Vias([]) == multiset{}
  {
  }

  lemma DroppedVias(rs: seq<Route>, j: nat, k: nat)
    requires ChainOk(rs) && j < |rs| && k < |rs[j].binds|
    ensures ChainOk(Dropped(rs, j, k))
    ensures ChainVias(rs) == ChainVias(Dropped(rs, j, k)) + multiset{rs[j].binds[k].via}
  {
    hide *;
    var r := rs[j];
    var bs := r.binds[..k] + r.binds[k + 1..];
    DroppedIs(rs, j, k);
    ViasAt(r.binds, k);
    if bs == [] {
      ChainViasAt(rs, j);
      NoBinds();
    } else {
      ChainViasSet(rs, j, Route(r.dest, |bs|, bs));
      Cancel(ChainVias(Dropped(rs, j, k)), ChainVias(rs), Vias(bs), multiset{r.binds[k].via});
    }
  }

  lemma Cancel(a: multiset<Neighbour>, b: multiset<Neighbour>, c: multiset<Neighbour>, d: multiset<Neighbour>)
    requires a + (c + d) == b + c
    ensures b == a + d
  {
    forall n
      ensures b[n] == a[n] + d[n]
    {
      assert (a + (c + d))[n] == (b + c)[n];
    }
  }

  /** Does the offer make a new binding? */
  predicate IsNew(rs: seq<Route>, dest: Dest, np: Neighbour) {
    var j := FindRoute(rs, dest);
    j == |rs| || FindBind(rs[j].binds, np) == |rs[j].binds|
  }

  lemma {:induction false} NotBound(bs: seq<Bind>, np: Neighbour)
    requires FindBind(bs, np) == |bs|
    ensures forall k :: 0 <= k < |bs| ==> bs[k].via != np
    decreases |bs|
  {
    if bs != [] {
      NotBound(bs[1..], np);
      assert bs == [bs[0]] + bs[1..];
    }
  }

  lemma BoundIs(r: Route, np: Neighbour, o: Offer)
    ensures var k := FindBind(r.binds, np);
            && k <= |r.binds|
            && (k < |r.binds| ==> Bound(r, np, o).binds == r.binds[k := Refreshed(r.binds[k], o)]
                                  && Refreshed(r.binds[k], o).via == r.binds[k].via)
            && (k == |r.binds| ==> exists b: Bind :: b.via == np && Bound(r, np, o).binds == [b] + r.binds)
    ensures r.numRoutes == |r.binds| && Single(r.binds) ==> RouteOk(Bound(r, np, o))
  {
    var k := FindBind(r.binds, np);
    if k == |r.binds| {
      var b := Bind(o.quality, o.init, o.permanent, !o.permanent && o.record, np);
      assert Bound(r, np, o).binds == [b] + r.binds;
      NotBound(r.binds, np);
    }
  }

  lemma BoundVias(r: Route, np: Neighbour, o: Offer)
    ensures Vias(Bound(r, np, o).binds)
         == Vias(r.binds) + if FindBind(r.binds, np) == |r.binds| then multiset{np} else multiset{}
    ensures r.numRoutes == |r.binds| && Single(r.binds) ==> RouteOk(Bound(r, np, o))
  {
    hide *;
    BoundIs(r, np, o);
    var k := FindBind(r.binds, np);
    if k < |r.binds| {
      ViasSet(r.binds, k, Refreshed(r.binds[k], o));
    } else {
      var b: Bind :| b.via == np && Bound(r, np, o).binds == [b] + r.binds;
      ViasAppend([b], r.binds);
      OneBind(b);
    }
  }

  lemma WithRouteVias(rs: seq<Route>, dest: Dest)
    ensures var c, j := WithRoute(rs, dest), FindRoute(WithRoute(rs, dest), dest);
            && j < |c| && ChainVias(c) == ChainVias(rs)
            && (FindRoute(rs, dest) < |rs| ==> c == rs)
            && (FindRoute(rs, dest) == |rs| ==> j == 0 && c == [Route(dest, 0, [])] + rs)
  {
    if FindRoute(rs, dest) == |rs| {
      assert ([Route(dest, 0, [])] + rs)[1..] == rs;
    }
  }

  lemma AddedIs(rs: seq<Route>, dest: Dest, np: Neighbour, o: Offer)
    requires ChainOk(rs)
    ensures var c := WithRoute(rs, dest);
            var j := FindRoute(c, dest);
            && j < |c| && Added(rs, dest, np, o) == c[j := Bound(c[j], np, o)]
            && c[j].numRoutes == |c[j].binds| && Single(c[j].binds)
            && (IsNew(rs, dest, np) <==> FindBind(c[j].binds, np) == |c[j].binds|)
            && (RouteOk(Bound(c[j], np, o)) ==> ChainOk(c[j := Bound(c[j], np, o)]))
  {
    WithRouteVias(rs, dest);
    var j := FindRoute(rs, dest);
    if j < |rs| {
      assert RouteOk(rs[j]);
    }
  }

  /** A new binding adds one reference to its neighbour; an old one none. */
  lemma AddedVias(rs: seq<Route>, dest: Dest, np: Neighbour, o: Offer)
    requires ChainOk(rs)
    ensures ChainOk(Added(rs, dest, np, o))
    ensures ChainVias(Added(rs, dest, np, o))
         == ChainVias(rs) + if IsNew(rs, dest, np) then multiset{np} else multiset{}
  {
    hide *;
    var c := WithRoute(rs, dest);
    var j := FindRoute(c, dest);
    WithRouteVias(rs, dest);
    AddedIs(rs, dest, np, o);
    BoundVias(c[j], np, o);
    ChainViasSet(c, j, Bound(c[j], np, o));
    var d := if IsNew(rs, dest, np) then multiset{np} else multiset{};
    CancelBack(ChainVias(Added(rs, dest, np, o)), ChainVias(c), Vias(c[j].binds), d);
  }

  lemma CancelBack(a: multiset<Neighbour>, b: multiset<Neighbour>, c: multiset<Neighbour>, d: multiset<Neighbour>)
    requires a + c == b + (c + d)
    ensures a == b + d
  {
    forall n
      ensures a[n] == b[n] + d[n]
    {
      assert (a + c)[n] == (b + (c + d))[n];
    }
  }

  lemma TableViasAt(t: seq<seq<Route>>, h: nat)
    requires h < |t|
    ensures TableVias(t) == TableVias(t[..h] + t[h + 1..]) + ChainVias(t[h])
  {
    hide *;
    assert t == t[..h] + [t[h]] + t[h + 1..];
    TableViasAppend(t[..h] + [t[h]], t[h + 1..]);
    TableViasAppend(t[..h], [t[h]]);
    OneChain(t[h]);
    TableViasAppend(t[..h], t[h + 1..]);
  }

  /** What the tables keep: every chain is in order, and the reference counts are right. */
  ghost predicate TableOk(t: seq<seq<Route>>, refcnt: map<Neighbour, nat>) {
    && |t| == NRNUMCHAINS && (forall h :: 0 <= h < |t| ==> ChainOk(t[h]))
    && RefsOk(refcnt, TableVias(t))
  }

  /** The references from all chains but h. */
  function Elsewhere(t: seq<seq<Route>>, h: nat): multiset<Neighbour>
    requires h < |t|
  {
    TableVias(t[..h] + t[h + 1..])
  }

  lemma ChainOfTable(t: seq<seq<Route>>, refcnt: map<Neighbour, nat>, h: nat)
    requires TableOk(t, refcnt) && h < NRNUMCHAINS
    ensures h < |t| && ChainOk(t[h]) && RefsOk(refcnt, Elsewhere(t, h) + ChainVias(t[h]))
  {
    hide RefsOk, ChainOk;
    TableViasAt(t, h);
  }

  lemma TableWithChain(t: seq<seq<Route>>, refcnt: map<Neighbour, nat>, refcnt': map<Neighbour, nat>, h: nat,
                       c: seq<Route>)
    requires TableOk(t, refcnt) && h < |t| && ChainOk(c) && RefsOk(refcnt', Elsewhere(t, h) + ChainVias(c))
    ensures TableOk(t[h := c], refcnt')
  {
    hide RefsOk, ChainOk;
    TableViasAt(t[h := c], h);
    assert t[h := c][..h] + t[h := c][h + 1..] == t[..h] + t[h + 1..];
  }

  lemma {:induction false} NoVias(t: seq<seq<Route>>)
    requires forall i :: 0 <= i < |t| ==> t[i] == []
    ensures TableVias(t) == multiset{}
    decreases |t|
  {
    if t != [] {
      NoVias(t[1..]);
    }
  }

  lemma NoBindsLeft()
    ensures AgedBinds([]) == [] && Vias([]) == multiset{}
  {
  }

  lemma NoRoutesLeft()
    ensures AgedChain([]) == [] && ChainVias([]) == multiset{}
  {
  }

  lemma ChainStep(rs: seq<Route>)
    requires rs != []
    ensures AgedChain(rs) == if AgedBinds(rs[0].binds) == [] then AgedChain(rs[1..])
                             else [AgedRoute(rs[0])] + AgedChain(rs[1..])
    ensures ChainVias(rs) == Vias(rs[0].binds) + ChainVias(rs[1..])
  {
  }

  lemma {:induction false} AgedLength(t: seq<seq<Route>>)
    ensures |AgedTable(t)| == |t|
    ensures forall k :: 0 <= k < |t| ==> AgedTable(t)[k] == AgedChain(t[k])
    decreases |t|
  {
    if t != [] {
      AgedLength(t[1..]);
    }
  }

  lemma Numbered(rs: seq<Route>, j: nat)
    requires ChainOk(rs) && j < |rs|
    ensures rs[j].numRoutes == |rs[j].binds| > 0
  {
    assert RouteOk(rs[j]);
  }

  /** What nr_routeadd leaves of a chain: the offer entered, and then, if there are too many bindings,
      the worst that is not permanent dropped. */
  function Trimmed(rs: seq<Route>, dest: Dest, maxroutes: nat): seq<Route> {
    var j := FindRoute(rs, dest);
    if j < |rs| && rs[j].numRoutes > maxroutes then
      match FindWorst(rs[j].binds, 1000)
      case None => rs
      case Some(b) =>
        var k := FindBind(rs[j].binds, b.via);
        if k < |rs[j].binds| then Dropped(rs, j, k) else rs
    else rs
  }

  lemma TrimmedCases(rs: seq<Route>, dest: Dest, maxroutes: nat)
    requires FindRoute(rs, dest) < |rs|
    ensures var r := rs[FindRoute(rs, dest)];
            var worst := FindWorst(r.binds, 1000);
            if r.numRoutes <= maxroutes || worst == None then Trimmed(rs, dest, maxroutes) == rs
            else var k := FindBind(r.binds, worst.value.via);
                 Trimmed(rs, dest, maxroutes) == if k < |r.binds| then Dropped(rs, FindRoute(rs, dest), k) else rs
  {
  }

  lemma {:induction false} FoundBind(bs: seq<Bind>, w: Bind)
    requires Single(bs) && w in bs
    ensures FindBind(bs, w.via) < |bs| && bs[FindBind(bs, w.via)] == w
    decreases |bs|
  {
    if bs[0].via != w.via {
      FoundBind(bs[1..], w);
    }
  }

  /** Of too many bindings the worst goes, which is not permanent and of least quality among those. */
  lemma TheWorstGoes(rs: seq<Route>, dest: Dest, maxroutes: nat)
    requires ChainOk(rs) && FindRoute(rs, dest) < |rs|
    ensures var j := FindRoute(rs, dest);
            var bs := rs[j].binds;
            && (Trimmed(rs, dest, maxroutes) == rs <==>
                  |bs| <= maxroutes || forall b :: b in bs && !b.permanent ==> b.quality >= 1000)
            && (Trimmed(rs, dest, maxroutes) != rs ==>
                  exists k: nat :: k < |bs| && Trimmed(rs, dest, maxroutes) == Dropped(rs, j, k) && !bs[k].permanent
                                   && forall b :: b in bs && !b.permanent ==> bs[k].quality <= b.quality)
  {
    var j := FindRoute(rs, dest);
    var bs := rs[j].binds;
    hide FindRoute, FindWorst, FindBind, Dropped;
    assert RouteOk(rs[j]);
    TrimmedCases(rs, dest, maxroutes);
    WorstIsWorst(bs, 1000);
    var worst := FindWorst(bs, 1000);
    if |bs| > maxroutes && worst.Some? {
      FoundBind(bs, worst.value);
      DropsOne(rs, j, FindBind(bs, worst.value.via));
    }
  }

  lemma DropsOne(rs: seq<Route>, j: nat, k: nat)
    requires ChainOk(rs) && j < |rs| && k < |rs[j].binds|
    ensures Dropped(rs, j, k) != rs
  {
    var d := Dropped(rs, j, k);
    assert |d| == |rs| ==> d[j].numRoutes != rs[j].numRoutes by {
      assert RouteOk(rs[j]);
    }
  }

  lemma BoundFields(r: Route, np: Neighbour, o: Offer)
    ensures var k := FindBind(r.binds, np);
            && (k < |r.binds| ==>
                  Bound(r, np, o) == r.(binds := r.binds[k := Refreshed(r.binds[k], o)])
                  && Refreshed(r.binds[k], o) == (
                       var b := r.binds[k];
                       if o.permanent then
                         b.(quality := o.quality, obsocnt := o.init, permanent := true, recorded := false)
                       else if b.permanent then b
                       else if o.record then (if b.recorded then b.(quality := o.quality, obsocnt := o.init) else b)
                       else b.(quality := o.quality, obsocnt := o.init, recorded := false)))
            && (k >= |r.binds| ==>
                  Bound(r, np, o) == Route(r.dest, r.numRoutes + 1,
                    [Bind(o.quality, o.init, o.permanent, !o.permanent && o.record, np)] + r.binds))
  {
  }

  /** Whoever is bound to is known. */
  lemma Referenced(t: seq<seq<Route>>, refcnt: map<Neighbour, nat>, h: nat, j: nat, k: nat)
    requires TableOk(t, refcnt) && h < |t| && j < |t[h]| && k < |t[h][j].binds|
    ensures t[h][j].binds[k].via in refcnt
  {
    TableViasAt(t, h);
    ChainViasAt(t[h], j);
    ViasAt(t[h][j].binds, k);
  }

  lemma {:induction false} FindRouteSame(a: seq<Route>, b: seq<Route>, dest: Dest)
    requires |a| == |b| && forall i :: 0 <= i < |a| ==> a[i].dest == b[i].dest
    ensures FindRoute(a, dest) == FindRoute(b, dest)
    decreases |a|
  {
    if a != [] {
      FindRouteSame(a[1..], b[1..], dest);
    }
  }

  /** The offer does not move the route. */
  lemma AddedPlace(rs: seq<Route>, dest: Dest, np: Neighbour, o: Offer)
    ensures var c := WithRoute(rs, dest);
            && |Added(rs, dest, np, o)| == |c| && FindRoute(c, dest) < |c|
            && FindRoute(Added(rs, dest, np, o), dest) == FindRoute(c, dest)
  {
    hide FindRoute, Refreshed, FindBind;
    WithRouteVias(rs, dest);
    FindRouteSame(Added(rs, dest, np, o), WithRoute(rs, dest), dest);
  }

  /** Entering an offer keeps the counts right. */
  lemma EnteredRefs(t: seq<seq<Route>>, refcnt: map<Neighbour, nat>, h: nat, dest: Dest, np: Neighbour, o: Offer)
    requires TableOk(t, refcnt) && h < |t|
    ensures var n := if np in refcnt then refcnt[np] else 0;
            TableOk(t[h := Added(t[h], dest, np, o)],
                    if IsNew(t[h], dest, np) then refcnt[np := n + 1] else refcnt)
    ensures IsNew(t[h], dest, np) || np in refcnt
  {
    hide *;
    var rs := t[h];
    TableSize(t, refcnt);
    ChainOfTable(t, refcnt, h);
    AddedVias(rs, dest, np, o);
    var other := Elsewhere(t, h);
    if IsNew(rs, dest, np) {
      Gained(refcnt, other + ChainVias(rs), np);
      assert other + ChainVias(rs) + multiset{np} == other + (ChainVias(rs) + multiset{np});
    } else {
      assert ChainVias(rs) + multiset{} == ChainVias(rs);
      OldBinding(rs, dest, np);
      Referenced(t, refcnt, h, FindRoute(rs, dest), FindBind(rs[FindRoute(rs, dest)].binds, np));
    }
    var counts := if IsNew(rs, dest, np) then refcnt[np := 1 + if np in refcnt then refcnt[np] else 0] else refcnt;
    TableWithChain(t, refcnt, counts, h, Added(rs, dest, np, o));
  }

  lemma TableSize(t: seq<seq<Route>>, refcnt: map<Neighbour, nat>)
    requires TableOk(t, refcnt)
    ensures |t| == NRNUMCHAINS
  {
  }

  lemma OldBinding(rs: seq<Route>, dest: Dest, np: Neighbour)
    requires !IsNew(rs, dest, np)
    ensures FindRoute(rs, dest) < |rs|
    ensures var bs := rs[FindRoute(rs, dest)].binds; FindBind(bs, np) < |bs| && bs[FindBind(bs, np)].via == np
  {
  }
}
