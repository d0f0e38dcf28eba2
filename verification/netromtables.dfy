/** Nrroute_tab and Nrnbr_tab with all their nodes (cmd/netrom/nrcmd.c, net/netrom/nr3.c). */
module NetromTables {
  import opened Common
  import opened Lists
  import opened NetromMemory
  import Chains
  import opened Netrom

  class Tables {
    const hs: Hashes
    const binds: Chains.Nodes
    const routes: Chains.Nodes
    const nbrs: Chains.Nodes
    var bind: map<nat, Bind>
    var dest: map<nat, Dest>
    var num: map<nat, nat>
    var station: map<Neighbour, Station>
    var refcnt: map<Neighbour, nat>

    constructor (hs: Hashes)
      ensures Valid() && fresh(binds) && fresh(routes) && fresh(nbrs) && this.hs == hs
      ensures Empty(TableIn(Mem()))
    {
      this.hs := hs;
      var none: set<nat> := {};
      binds := new Chains.Nodes(none);
      routes := new Chains.Nodes(Below(NRNUMCHAINS));
      nbrs := new Chains.Nodes(Below(NRNUMCHAINS));
      bind, dest, num, station, refcnt := map[], map[], map[], map[], map[];
      new;
      hide *;
      MemIs();
      EmptyFits(Mem(), hs);
      MemIs();
      IsValid();
    }

    ghost function Mem(): Memory
      reads this, binds, routes, nbrs
    {
      Memory(binds.All(), routes.All(), nbrs.All(), bind, dest, num, station, refcnt)
    }

    /** All lists are linked, and the nodes fit together. */
    ghost predicate Linked()
      reads this, binds, routes, nbrs
    {
      && binds != routes && binds != nbrs && routes != nbrs
      && binds.Valid() && routes.Valid() && nbrs.Valid() && Fits(Mem(), hs)
    }

    lemma MemIs()
      ensures Mem() == Memory(Chains.Family(binds.lists, binds.owner), Chains.Family(routes.lists, routes.owner),
                              Chains.Family(nbrs.lists, nbrs.owner), bind, dest, num, station, refcnt)
      ensures Linked() <==> (&& binds != routes && binds != nbrs && routes != nbrs
                             && binds.Valid() && routes.Valid() && nbrs.Valid() && Fits(Mem(), hs))
    {
    }

    /** Binding x of route r is unlinked and freed. */
    method Unbind(r: nat, x: nat)
      requires Linked() && r in dest && x in ListOf(Mem().binds, r)
      modifies this`bind, this`num, binds
      ensures r in old(Mem()).binds.lists && r in old(num)
      ensures Linked() && Mem() == Unbound(old(Mem()), r, x)
    {
      hide Linked, Fits, Hashed, BindsFit, Chains.Took, Chains.Gave, ListOf, Chains.Nodes.Valid;
      ghost var m := Mem();
      MemIs();
      OnRoute(m, r, hs);
      UnboundFits(m, r, x, hs);
      binds.Unlink(r, x);
      bind := bind - {x};
      num := num[r := if num[r] > 0 then num[r] - 1 else 0];
      MemIs();
    }

    /** --np->refcnt; without references the neighbour is unlinked and freed. */
    method Release(np: Neighbour)
      requires Linked() && np in refcnt && refcnt[np] > 0
      modifies this`station, this`refcnt, nbrs
      ensures np in old(refcnt) && np in old(station) && hs.station(old(station)[np]) in old(Mem()).nbrs.lists
      ensures Linked() && Mem() == Less(old(Mem()), np, hs)
      ensures refcnt == if old(refcnt)[np] == 1 then old(refcnt) - {np} else old(refcnt)[np := old(refcnt)[np] - 1]
    {
      hide Linked, Fits, Hashed, BindsFit, Chains.Took, Chains.Gave, ListOf, Chains.Nodes.Valid;
      ghost var m := Mem();
      MemIs();
      LessFits(m, np, hs);

      refcnt := refcnt[np := refcnt[np] - 1];
      if refcnt[np] == 0 {
        nbrs.Unlink(hs.station(station[np]), np);
        station, refcnt := station - {np}, refcnt - {np};
        assert refcnt == m.refcnt - {np};
      }
      MemIs();
    }

    /** doobsotick on one binding. */
    method AgeBind(r: nat, bp: nat, ghost m0: Memory, ghost past: seq<nat>, ghost rest: seq<nat>,
                   ghost other: multiset<Neighbour>) returns (ghost past': seq<nat>)
      requires Linked() && BindsAged(m0, Mem(), r, past, rest) && rest != [] && bp == rest[0]
      requires RefsOk(refcnt, other + Refs(bind, past, rest))
      modifies this`bind, this`num, this`station, this`refcnt, binds, nbrs
      ensures Linked() && BindsAged(m0, Mem(), r, past', rest[1..])
      ensures RefsOk(refcnt, other + Refs(bind, past', rest[1..]))
    {
      hide *;
      ghost var m := Mem();
      MemIs();
      NextAged(m0, m, r, past, rest, hs);
      past' := past + [bp];
      if bind[bp].permanent {
        return;
      }
      var np := bind[bp].via;
      bind := bind[bp := bind[bp].(obsocnt := Decremented(bind[bp].obsocnt))];
      MemIs();
      if bind[bp].obsocnt == 0 {
        past' := past;
        Unbind(r, bp);
        MemIs();
        LastReference(np, other, Refs(bind, past, rest[1..]));
        ghost var m' := Mem();
        Release(np);
        MemIs();
        AgedStill(m0, m', Mem(), r, past, rest[1..]);
      }
    }

    /** np has the reference that goes. */
    lemma LastReference(np: Neighbour, other: multiset<Neighbour>, vias: multiset<Neighbour>)
      requires RefsOk(refcnt, other + (vias + multiset{np}))
      ensures np in refcnt && refcnt[np] > 0
      ensures RefsOk(if refcnt[np] == 1 then refcnt - {np} else refcnt[np := refcnt[np] - 1], other + vias)
    {
      hide RefsOk;
      assert other + (vias + multiset{np}) == other + vias + multiset{np};
      Released(refcnt, other + vias, np);
    }

    /** doobsotick on the bindings of route r; other counts the references from elsewhere. */
    method AgeBinds(r: nat, ghost other: multiset<Neighbour>)
      requires Linked() && r in dest && RouteOk(RouteIn(Mem(), r))
      requires RefsOk(refcnt, other + Vias(BindsIn(Mem(), r)))
      modifies this`bind, this`num, this`station, this`refcnt, binds, nbrs
      ensures Linked() && RouteIn(Mem(), r) == AgedRoute(RouteIn(old(Mem()), r)) && OthersKept(old(Mem()), Mem(), r)
      ensures r in num && (num[r] == 0 <==> AgedBinds(BindsIn(old(Mem()), r)) == [])
      ensures num[r] == |ListOf(Mem().binds, r)|
      ensures RefsOk(refcnt, other + Vias(BindsIn(Mem(), r)))
    {
      hide *;
      ghost var m0 := Mem();
      MemIs();
      AgeingStarts(m0, r, hs);
      ghost var past, rest := [], ListOf(m0.binds, r);
      WalkBinds(r, past, rest);
      WholeRefs(m0, r);
      var bp := binds.heads[r];
      while bp != 0
        invariant Linked() && BindsAged(m0, Mem(), r, past, rest) && bp == Chains.First(rest)
        invariant RefsOk(refcnt, other + Refs(bind, past, rest))
        decreases |rest|
      {
        AgedMeans(m0, Mem(), r, past, rest);
        MemIs();
        WalkBinds(r, past, rest);
        var bpnext := binds.next[bp];
        past := AgeBind(r, bp, m0, past, rest, other);
        rest := rest[1..];
        bp := bpnext;
      }
      MemIs();
      AgedMeans(m0, Mem(), r, past, rest);
      WalkBinds(r, past, rest);
      AgeingEnds(m0, Mem(), r, past);
      WholeRefs(Mem(), r);
    }

    /** Where the walk along the bindings of route r is. */
    lemma WalkBinds(r: nat, past: seq<nat>, rest: seq<nat>)
      requires Linked() && r in dest && ListOf(Mem().binds, r) == past + rest
      ensures r in num && r in binds.lists && r in binds.heads
      ensures past == [] ==> binds.heads[r] == Chains.First(rest)
      ensures rest == [] <==> Chains.First(rest) == 0
      ensures rest != [] ==> Chains.First(rest) == rest[0] && rest[0] in binds.next && rest[0] in bind && rest[0] != 0
                             && binds.next[rest[0]] == Chains.First(rest[1..])
    {
      hide *;
      MemIs();
      OnRoute(Mem(), r, hs);
      binds.Walk(r, past, rest);
      Chains.FirstIs(rest);
    }

    /** Route r, which has no bindings, is unlinked from chain h and freed. */
    method Part(h: nat, r: nat)
      requires Linked() && r in dest && h == hs.dest(dest[r]) && ListOf(Mem().binds, r) == []
      modifies this`dest, this`num, binds, routes
      ensures r in old(dest) && hs.dest(old(dest)[r]) in old(Mem()).routes.lists
      ensures Linked() && Mem() == Parted(old(Mem()), r, hs)
    {
      hide Linked, Fits, Hashed, BindsFit, Chains.Took, Chains.Gave, ListOf, Chains.Nodes.Valid;
      ghost var m := Mem();
      MemIs();
      PartedFits(m, r, hs);
      routes.Unlink(h, r);
      binds.FreeList(r);
      dest, num := dest - {r}, num - {r};
      MemIs();
    }

    /** doobsotick on one route. */
    method AgeRoute(h: nat, r: nat, ghost other: multiset<Neighbour>)
      requires Linked() && r in dest && h == hs.dest(dest[r]) && RouteOk(RouteIn(Mem(), r))
      requires RefsOk(refcnt, other + Vias(BindsIn(Mem(), r))) && h in Mem().routes.lists
      modifies this, binds, routes, nbrs
      ensures Linked() && h in old(Mem()).routes.lists && RouteTurned(old(Mem()), Mem(), h, r)
      ensures RefsOk(refcnt, other + if AgedBinds(BindsIn(old(Mem()), r)) == [] then multiset{}
                                     else Vias(BindsIn(Mem(), r)))
    {
      hide *;
      ghost var m := Mem();
      MemIs();
      AgeBinds(r, other);
      MemIs();
      if num[r] == 0 {
        ghost var m' := Mem();
        NoBindsIn(m', r);
        PartedFits(m', r, hs);
        FitsMeans(m', hs);
        PartedIs(m', r, hs);
        PartedKept(m', r, hs);
        Part(h, r);
        MemIs();
        KeptThrough(m, m', Mem(), r);
      }
      TurnedWhen(m, Mem(), h, r);
    }

    /** doobsotick on the routes of chain h; other counts the references from the other chains. */
    method AgeChain(h: nat, ghost other: multiset<Neighbour>)
      requires Linked() && h < NRNUMCHAINS && ChainOk(ChainIn(Mem(), h))
      requires RefsOk(refcnt, other + ChainVias(ChainIn(Mem(), h)))
      modifies this, binds, routes, nbrs
      ensures Linked() && ChainIn(Mem(), h) == AgedChain(ChainIn(old(Mem()), h))
      ensures forall k: nat :: k < NRNUMCHAINS && k != h ==> ChainIn(Mem(), k) == ChainIn(old(Mem()), k)
      ensures ChainOk(ChainIn(Mem(), h)) && RefsOk(refcnt, other + ChainVias(ChainIn(Mem(), h)))
    {
      hide *;
      ghost var m0 := Mem();
      MemIs();
      WholeChain(m0, h);
      ghost var past, rest := [], ListOf(m0.routes, h);
      WalkRoutes(h, past, rest);
      var rp := routes.heads[h];
      while rp != 0
        invariant Linked() && RoutesAged(m0, Mem(), h, past, rest) && rp == Chains.First(rest)
        invariant RefsOk(refcnt, other + ChainRefs(Mem(), past, rest))
        decreases |rest|
      {
        ghost var m := Mem();
        RoutesAgedMeans(m0, m, h, past, rest);
        WalkRoutes(h, past, rest);
        MemIs();
        OnChain(m, h, past, rest, hs);
        var rpnext := routes.next[rp];
        NextRoute(m, past, rest, other);
        AgeRoute(h, rp, other + ChainRefs(m, past, rest[1..]));
        RestKept(m, Mem(), h, past, rest, hs);
        ChainGoesOn(m0, m, Mem(), h, past, rest, hs);
        RefsAfter(m, Mem(), past, rest, other);
        if AgedBinds(BindsIn(m, rp)) != [] {
          past := past + [rp];
        }
        rest, rp := rest[1..], rpnext;
      }
      RoutesAgedMeans(m0, Mem(), h, past, rest);
      WalkRoutes(h, past, rest);
      ChainAgeingEnds(m0, Mem(), h, past);
    }

    /** Where the walk along chain h is. */
    lemma WalkRoutes(h: nat, past: seq<nat>, rest: seq<nat>)
      requires Linked() && h < NRNUMCHAINS && ListOf(Mem().routes, h) == past + rest
      ensures h in routes.lists && h in routes.heads
      ensures rest != [] ==> rest[0] in dest
      ensures past == [] ==> routes.heads[h] == Chains.First(rest)
      ensures rest == [] <==> Chains.First(rest) == 0
      ensures rest != [] ==> Chains.First(rest) == rest[0] && rest[0] in routes.next
                             && routes.next[rest[0]] == Chains.First(rest[1..])
    {
      hide *;
      MemIs();
      FitsMeans(Mem(), hs);
      OnSlot(Mem().routes, dest, hs.dest, h, if rest == [] then 0 else rest[0]);
      routes.Walk(h, past, rest);
      Chains.FirstIs(rest);
    }

    ghost predicate Valid()
      reads this, binds, routes, nbrs
    {
      Linked() && TableOk(TableIn(Mem()), refcnt)
    }

    /** One turn of the outer loop of doobsotick. */
    method AgeOne(h: nat)
      requires Valid() && h < NRNUMCHAINS
      modifies this, binds, routes, nbrs
      ensures Valid() && |TableIn(old(Mem()))| == NRNUMCHAINS
      ensures TableIn(Mem()) == TableIn(old(Mem()))[h := AgedChain(TableIn(old(Mem()))[h])]
    {
      ghost var m := Mem();
      ghost var t, counts := TableIn(m), refcnt;
      hide Linked, TableOk, TableIn, ChainIn, AgedChain, RefsOk, ChainOk, ChainVias, Elsewhere, Mem;
      ChainOfTable(t, refcnt, h);
      OneChainSet(m, m, h);
      AgeChain(h, Elsewhere(t, h));
      OneChainSet(m, Mem(), h);
      TableWithChain(t, counts, refcnt, h, ChainIn(Mem(), h));
    }

    /** doobsotick. */
    method Obsotick()
      requires Valid()
      modifies this, binds, routes, nbrs
      ensures Valid() && TableIn(Mem()) == AgedTable(TableIn(old(Mem())))
    {
      ghost var t := TableIn(Mem());
      AgedLength(t);
      var i := 0;
      hide Valid, AgedTable, AgedChain, ChainIn, Mem;
      while i < NRNUMCHAINS
        invariant Valid() && i <= NRNUMCHAINS == |t| == |TableIn(Mem())|
        invariant forall k :: 0 <= k < i ==> TableIn(Mem())[k] == AgedTable(t)[k]
        invariant forall k :: i <= k < |t| ==> TableIn(Mem())[k] == t[k]
      {
        AgeOne(i);
        i := i + 1;
      }
    }

    /** find_nrroute; 0 is NULL. */
    method Findroute(d: Dest) returns (rp: nat)
      requires Linked()
      ensures var h := hs.dest(d);
              var rs, s := ChainIn(Mem(), h), ListOf(Mem().routes, h);
              && |rs| == |s|
              && if rp == 0 then FindRoute(rs, d) == |rs| && d !in dest.Values
                 else FindRoute(rs, d) < |rs| && s[FindRoute(rs, d)] == rp && rp in dest && dest[rp] == d
    {
      hide *;
      var h := hs.dest(d);
      ghost var m := Mem();
      MemIs();
      ghost var past, rest := [], ListOf(m.routes, h);
      ChainLength(m, h);
      RouteSought(m, h, d);
      WalkRoutes(h, past, rest);
      rp := routes.heads[h];
      while rp != 0
        invariant SeekingRoute(m, h, d, past, rest) && rp == Chains.First(rest) && ListOf(m.routes, h) == past + rest
        decreases |rest|
      {
        WalkRoutes(h, past, rest);
        SeekRoute(m, h, d, past, rest);
        if dest[rp] == d {
          assert (past + rest)[|past|] == rest[0];
          return;
        }
        past, rest, rp := past + [rp], rest[1..], routes.next[rp];
      }
      WalkRoutes(h, past, rest);
      SeekingEnds(m, h, d, past, hs);
    }

    /** find_nrnbr. */
    method Findnbr(st: Station) returns (np: nat)
      requires Linked()
      ensures if np == 0 then st !in station.Values else np in station && station[np] == st
    {
      hide *;
      var h := hs.station(st);
      MemIs();
      ghost var m := Mem();
      ghost var past, rest := [], ListOf(m.nbrs, h);
      WalkNbrs(h, past, rest);
      np := nbrs.heads[h];
      while np != 0
        invariant np == Chains.First(rest) && ListOf(m.nbrs, h) == past + rest
        invariant forall q :: q in past ==> q in station && station[q] != st
        decreases |rest|
      {
        WalkNbrs(h, past, rest);
        if station[np] == st {
          return;
        }
        assert past + [np] + rest[1..] == past + rest;
        past, rest, np := past + [np], rest[1..], nbrs.next[np];
      }
      WalkNbrs(h, past, rest);
      assert past + [] == past;
      forall q | q in station
        ensures station[q] != st
      {
        FitsMeans(m, hs);
        InItsSlot(m.nbrs, station, hs.station, q);
      }
    }

    lemma WalkNbrs(h: nat, past: seq<nat>, rest: seq<nat>)
      requires Linked() && h < NRNUMCHAINS && ListOf(Mem().nbrs, h) == past + rest
      ensures h in nbrs.lists && h in nbrs.heads
      ensures rest != [] ==> rest[0] in station
      ensures past == [] ==> nbrs.heads[h] == Chains.First(rest)
      ensures rest == [] <==> Chains.First(rest) == 0
      ensures rest != [] ==> Chains.First(rest) == rest[0] && rest[0] in nbrs.next
                             && nbrs.next[rest[0]] == Chains.First(rest[1..])
    {
      hide *;
      MemIs();
      FitsMeans(Mem(), hs);
      OnSlot(Mem().nbrs, station, hs.station, h, if rest == [] then 0 else rest[0]);
      nbrs.Walk(h, past, rest);
      Chains.FirstIs(rest);
    }

    /** find_binding. */
    method Findbinding(r: nat, np: Neighbour) returns (bp: nat)
      requires Linked() && r in dest
      ensures var bs, s := BindsIn(Mem(), r), ListOf(Mem().binds, r);
              && |bs| == |s|
              && if bp == 0 then FindBind(bs, np) == |bs|
                 else FindBind(bs, np) < |bs| && s[FindBind(bs, np)] == bp && bp in bind
    {
      hide *;
      ghost var m := Mem();
      MemIs();
      ghost var past, rest := [], ListOf(m.binds, r);
      BindSought(m, r, np);
      WalkBinds(r, past, rest);
      bp := binds.heads[r];
      while bp != 0
        invariant SeekingBind(m, r, np, past, rest) && bp == Chains.First(rest) && ListOf(m.binds, r) == past + rest
        decreases |rest|
      {
        WalkBinds(r, past, rest);
        SeekBind(m, r, np, past, rest);
        if bind[bp].via == np {
          return;
        }
        past, rest, bp := past + [bp], rest[1..], binds.next[bp];
      }
      WalkBinds(r, past, rest);
      SeekBindEnds(m, r, np, past);
    }

    /** find_worst. */
    method Findworst(r: nat) returns (worst: nat)
      requires Linked() && r in dest
      ensures if worst == 0 then FindWorst(BindsIn(Mem(), r), 1000) == None
              else worst in ListOf(Mem().binds, r) && worst in bind
                   && FindWorst(BindsIn(Mem(), r), 1000) == Option.Some(bind[worst])
    {
      hide *;
      ghost var m := Mem();
      MemIs();
      ghost var past, rest := [], ListOf(m.binds, r);
      WorstSought(m, r);
      WalkBinds(r, past, rest);
      var minqual := 1000;
      var bp := binds.heads[r];
      worst := 0;
      while bp != 0
        invariant SeekingWorst(m, r, worst, minqual, past, rest) && bp == Chains.First(rest)
        invariant ListOf(m.binds, r) == past + rest
        decreases |rest|
      {
        WalkBinds(r, past, rest);
        SeekWorst(m, r, worst, minqual, past, rest);
        if !bind[bp].permanent && bind[bp].quality < minqual {
          worst, minqual := bp, bind[bp].quality;
        }
        past, rest, bp := past + [bp], rest[1..], binds.next[bp];
      }
      WalkBinds(r, past, rest);
      SeekWorstEnds(m, r, worst, minqual, past);
      OnRoute(m, r, hs);
      BoundAt(m, worst);
    }

    lemma ValidMeans()
      requires Valid()
      ensures Linked() && Fits(Mem(), hs) && TableOk(TableIn(Mem()), refcnt)
    {
      hide TableOk, TableIn, Fits;
    }

    lemma IsValid()
      requires Linked() && TableOk(TableIn(Mem()), refcnt)
      ensures Valid()
    {
    }

    /** The end of nr_routedrop: binding bp of route rp goes, and what nothing refers to then. */
    method Drop(h: nat, rp: nat, bp: nat, ghost j: nat, ghost k: nat)
      requires Valid() && h < NRNUMCHAINS && j < |ListOf(Mem().routes, h)| && ListOf(Mem().routes, h)[j] == rp
      requires k < |ListOf(Mem().binds, rp)| && ListOf(Mem().binds, rp)[k] == bp
      modifies this, binds, routes, nbrs
      ensures Valid() && h < |TableIn(old(Mem()))|
      ensures j < |ChainIn(old(Mem()), h)| && k < |ChainIn(old(Mem()), h)[j].binds|
      ensures TableIn(Mem()) == TableIn(old(Mem()))[h := Dropped(ChainIn(old(Mem()), h), j, k)]
    {
      hide *;
      ghost var m, counts := Mem(), refcnt;
      ghost var rs, t := ChainIn(m, h), TableIn(m);
      ValidMeans();
      MemIs();
      DropFacts(m, h, j, k, hs);
      var np := bind[bp].via;
      Unbind(rp, bp);
      ghost var m1 := Mem();
      MemIs();
      OnSlots(m, h, hs);
      LastBinding(m, h, j, k, hs);
      RouteUnbound(m, rp, k, hs);
      UnboundIs(m, rp, bp);
      if num[rp] == 0 {
        PartedFits(m1, rp, hs);
        FitsMeans(m1, hs);
        PartedIs(m1, rp, hs);
        PartedKept(m1, rp, hs);
        Part(h, rp);
        MemIs();
      } else {
        NoneChanged(m1, rp);
      }
      ghost var m2 := Mem();
      DropChain(m, m1, m2, h, j, k, hs);
      LastReference(np, Elsewhere(t, h), ChainVias(Dropped(rs, j, k)));
      Release(np);
      MemIs();
      SameChains(m2, Mem());
      OneChainSet(m, Mem(), h);
      TableWithChain(t, counts, refcnt, h, Dropped(rs, j, k));
      IsValid();
    }

    /** nr_routedrop. */
    method Routedrop(d: Dest, st: Station) returns (ok: bool)
      requires Valid()
      modifies this, binds, routes, nbrs
      ensures Valid() && hs.dest(d) < |TableIn(old(Mem()))|
      ensures var h := hs.dest(d);
              var rs, np := ChainIn(old(Mem()), h), Known(old(station), st);
              var j := FindRoute(rs, d);
              && (ok <==> j < |rs| && np != 0 && FindBind(rs[j].binds, np) < |rs[j].binds|)
              && (ok ==> TableIn(Mem()) == TableIn(old(Mem()))[h := Dropped(rs, j, FindBind(rs[j].binds, np))])
      ensures !ok ==> Mem() == old(Mem())
    {
      hide *;
      var h := hs.dest(d);
      ghost var m := Mem();
      ValidMeans();
      MemIs();
      OneChainSet(m, m, h);
      var rp := Findroute(d);
      if rp == 0 {
        return false;
      }
      ghost var j := FindRoute(ChainIn(m, h), d);
      ChainLength(m, h);
      RouteBinds(m, rp);
      var np := Findnbr(st);
      if np == 0 {
        return false;
      }
      OnlyOne(m, hs, np);
      var bp := Findbinding(rp, np);
      if bp == 0 {
        return false;
      }
      Drop(h, rp, bp, j, FindBind(BindsIn(m, rp), np));
      ok := true;
    }

    /** The route to d, which is made at rp0 if there is none. */
    method EnterRoute(d: Dest, rp0: nat) returns (rp: nat)
      requires Linked() && rp0 != 0 && rp0 !in dest
      modifies this`dest, this`num, binds, routes
      ensures Linked() && rp in dest
      ensures var h := hs.dest(d);
              var c, j := WithRoute(ChainIn(old(Mem()), h), d), FindRoute(WithRoute(ChainIn(old(Mem()), h), d), d);
              && ChainIn(Mem(), h) == c && |ListOf(Mem().routes, h)| == |c| && j < |c|
              && ListOf(Mem().routes, h)[j] == rp
              && forall k: nat :: k < NRNUMCHAINS && k != h ==> ChainIn(Mem(), k) == ChainIn(old(Mem()), k)
    {
      hide Linked, Fits, Hashed, BindsFit, Chains.Took, Chains.Gave, ListOf, Chains.Nodes.Valid;
      hide WithRoute, FindRoute, ChainIn, Chains.Nodes.Now;
      var h := hs.dest(d);
      ghost var m := Mem();
      MemIs();
      ChainLength(m, h);
      WithRouteVias(ChainIn(m, h), d);
      rp := Findroute(d);
      if rp == 0 {
        rp := rp0;
        WithNewFits(m, rp, d, hs);
        NewRoute(m, rp, d, hs);
        NewChain(m, rp, d, hs);
        dest, num := dest[rp := d], num[rp := 0];
        binds.NewList(rp);
        routes.Push(h, rp);
        MemIs();
      }
    }

    /** The neighbour at st, which is made at np0 if there is none. */
    method EnterNbr(st: Station, np0: nat) returns (np: nat)
      requires Linked() && np0 != 0 && np0 !in station
      modifies this`station, this`refcnt, nbrs
      ensures Linked() && np in refcnt
      ensures np == (if Known(old(station), st) != 0 then Known(old(station), st) else np0)
      ensures np in old(refcnt) <==> Known(old(station), st) != 0
      ensures refcnt == if np in old(refcnt) then old(refcnt) else old(refcnt)[np := 0]
    {
      hide Linked, Fits, Hashed, BindsFit, Chains.Took, Chains.Gave, ListOf, Chains.Nodes.Valid, Known;
      ghost var m := Mem();
      MemIs();
      FitsMeans(m, hs);
      np := Findnbr(st);
      if np == 0 {
        np := np0;
        WithNbrFits(m, np, st, hs);
        station, refcnt := station[np := st], refcnt[np := 0];
        nbrs.Push(hs.station(st), np);
        MemIs();
      } else {
        OnlyOne(m, hs, np);
      }
    }

    /** The binding of route rp to np, which is made at bp0 if there is none, after the offer. */
    method EnterBind(rp: nat, np: Neighbour, o: Offer, bp0: nat)
      requires Linked() && rp in dest && np in refcnt && bp0 != 0 && bp0 !in bind
      modifies this`bind, this`num, this`refcnt, binds
      ensures Linked() && RouteIn(Mem(), rp) == Bound(RouteIn(old(Mem()), rp), np, o)
      ensures OthersKept(old(Mem()), Mem(), rp)
      ensures var bs := BindsIn(old(Mem()), rp);
              refcnt == if FindBind(bs, np) == |bs| then old(refcnt)[np := old(refcnt)[np] + 1] else old(refcnt)
    {
      hide Linked, Fits, Hashed, BindsFit, Chains.Took, Chains.Gave, ListOf, Chains.Nodes.Valid;
      hide RouteIn, BindsIn, Bound, Refreshed, FindBind, OthersKept;
      ghost var m := Mem();
      MemIs();
      RouteBinds(m, rp);
      BoundFields(RouteIn(m, rp), np, o);
      var bp := Findbinding(rp, np);
      if bp == 0 {
        var b := Bind(o.quality, o.init, false, false, np);
        if o.permanent {
          b := b.(permanent := true);
        } else if o.record {
          b := b.(recorded := true);
        }
        WithBindFits(m, rp, bp0, b, hs);
        NewBinding(m, rp, bp0, b, hs);
        binds.Push(rp, bp0);
        bind, num, refcnt := bind[bp0 := b], num[rp := num[rp] + 1], refcnt[np := refcnt[np] + 1];
        assert refcnt.Keys == m.refcnt.Keys;
        FitsWithCounts(WithBind(m, rp, bp0, b), refcnt, hs);
        MemIs();
        KeptOn(m, WithBind(m, rp, bp0, b), Mem(), rp);
      } else {
        var b := bind[bp];
        if o.permanent {
          b := b.(quality := o.quality, obsocnt := o.init, permanent := true, recorded := false);
        } else if !b.permanent {
          if o.record {
            if b.recorded {
              b := b.(quality := o.quality, obsocnt := o.init);
            }
          } else {
            b := b.(quality := o.quality, obsocnt := o.init, recorded := false);
          }
        }
        OldBindingSet(m, rp, FindBind(BindsIn(m, rp), np), b, hs);
        SetFits(m, bp, b, hs);
        bind := bind[bp := b];
        MemIs();
      }
    }

    /** The part of nr_routeadd that enters the offer; rp0, np0 and bp0 are the memory callocw would give. */
    method Enter(d: Dest, st: Station, o: Offer, rp0: nat, np0: nat, bp0: nat) returns (rp: nat)
      requires Valid() && rp0 != 0 && rp0 !in dest && np0 != 0 && np0 !in station && bp0 != 0 && bp0 !in bind
      modifies this, binds, routes, nbrs
      ensures Valid() && rp in dest
      ensures var h, m := hs.dest(d), old(Mem());
              var np := if Known(m.station, st) != 0 then Known(m.station, st) else np0;
              var c := Added(ChainIn(m, h), d, np, o);
              && h < |TableIn(m)| && TableIn(Mem()) == TableIn(m)[h := c] && ChainIn(Mem(), h) == c
              && FindRoute(c, d) < |c| == |ListOf(Mem().routes, h)| && ListOf(Mem().routes, h)[FindRoute(c, d)] == rp
    {
      hide *;
      var h := hs.dest(d);
      ghost var m, counts := Mem(), refcnt;
      ghost var t, rs := TableIn(m), ChainIn(m, h);
      ValidMeans();
      MemIs();
      OneChainSet(m, m, h);
      ChainOfTable(t, counts, h);
      rp := EnterRoute(d, rp0);
      ghost var mr := Mem();
      MemIs();
      var np := EnterNbr(st, np0);
      ghost var m1 := Mem();
      MemIs();
      SameChains(mr, m1);
      EnterBind(rp, np, o, bp0);
      MemIs();
      Entered(m, m1, Mem(), h, d, np, o, hs);
      EnteredRefs(t, counts, h, d, np, o);
      assert counts[np := 0][np := 1] == counts[np := 1];
      OneChainSet(m, Mem(), h);
      IsValid();
    }

    /** nr_routeadd. */
    method Routeadd(d: Dest, st: Station, o: Offer, maxroutes: nat, rp0: nat, np0: nat, bp0: nat)
      requires Valid() && rp0 != 0 && rp0 !in dest && np0 != 0 && np0 !in station && bp0 != 0 && bp0 !in bind
      modifies this, binds, routes, nbrs
      ensures Valid() && hs.dest(d) < |TableIn(old(Mem()))|
      ensures var h, m := hs.dest(d), old(Mem());
              var np := if Known(m.station, st) != 0 then Known(m.station, st) else np0;
              TableIn(Mem()) == TableIn(m)[h := Trimmed(Added(ChainIn(m, h), d, np, o), d, maxroutes)]
    {
      hide *;
      var rp := Enter(d, st, o, rp0, np0, bp0);
      ghost var h, m := hs.dest(d), Mem();
      ghost var c := ChainIn(m, h);
      ValidMeans();
      MemIs();
      PlacedRoute(m, h, FindRoute(c, d), hs);
      TrimmedCases(c, d, maxroutes);
      OneChainSet(m, m, h);
      if num[rp] > maxroutes {
        var worst := Findworst(rp);
        if worst != 0 {
          OnlyOne(m, hs, bind[worst].via);
          var ok := Routedrop(d, station[bind[worst].via]);
        }
      }
    }
  }
}
