/** The NET/ROM tables as they are in memory: neighbours, routes and bindings are nodes on doubly linked lists
    (net/netrom/netrom.h). A memory stands for a table of Netrom, which is a value. */
module NetromMemory {
  import opened Common
  import opened Lists
  import opened Chains
  import opened Netrom

  /** An entry of a hash table. */
  type Slot = h: nat | h < NRNUMCHAINS

  /** What find_nrnbr looks for. */
  datatype Station = Station(call: Dest, iface: nat)

  /** The lists of bindings by route, of routes and of neighbours by hash value, and the other fields of the nodes. */
  datatype Memory = Memory(
    binds: Family, routes: Family, nbrs: Family,
    bind: map<nat, Bind>, dest: map<nat, Dest>, num: map<nat, nat>,
    station: map<Neighbour, Station>, refcnt: map<Neighbour, nat>)

  // ----- the table in memory -----

  function BindAt(bind: map<nat, Bind>, x: nat): Bind {
    if x in bind then bind[x] else Bind(0, 0, false, false, 0)
  }

  function Got(bind: map<nat, Bind>, s: seq<nat>): seq<Bind> {
    seq(|s|, j requires 0 <= j < |s| => BindAt(bind, s[j]))
  }

  function ListOf(f: Family, k: nat): seq<nat> {
    if k in f.lists then f.lists[k] else []
  }

  function BindsIn(m: Memory, r: nat): seq<Bind> {
    Got(m.bind, ListOf(m.binds, r))
  }

  function RouteIn(m: Memory, r: nat): Route {
    Route(if r in m.dest then m.dest[r] else 0, if r in m.num then m.num[r] else 0, BindsIn(m, r))
  }

  function RoutesIn(m: Memory, s: seq<nat>): seq<Route> {
    seq(|s|, j requires 0 <= j < |s| => RouteIn(m, s[j]))
  }

  function ChainIn(m: Memory, h: nat): seq<Route> {
    RoutesIn(m, ListOf(m.routes, h))
  }

  function TableIn(m: Memory): seq<seq<Route>> {
    seq(NRNUMCHAINS, h requires 0 <= h < NRNUMCHAINS => ChainIn(m, h))
  }

  // ----- what fits together -----

  ghost predicate BindsFit(m: Memory) {
    && Placed(m.binds) && m.bind.Keys == m.binds.owner.Keys
    && m.binds.lists.Keys == m.dest.Keys == m.num.Keys
  }

  /** A hash table: every node is on the list of the hash value of its key, and no key has two nodes. */
  ghost predicate Hashed<K>(f: Family, key: map<nat, K>, hash: K -> Slot) {
    && Placed(f) && key.Keys == f.owner.Keys
    && (forall h: nat :: h in f.lists <==> h < NRNUMCHAINS)
    && (forall x :: x in key ==> f.owner[x] == hash(key[x]))
    && (forall x, y :: x in key && y in key && key[x] == key[y] ==> x == y)
  }

  lemma TookIsHashed<K>(f: Family, key: map<nat, K>, hash: K -> Slot, x: nat)
    requires Hashed(f, key, hash) && x in key
    ensures x != 0 && hash(key[x]) in f.lists && x in f.lists[hash(key[x])] && x in f.owner
    ensures Hashed(Took(f, hash(key[x]), x), key - {x}, hash)
  {
    OnOneList(f, f.owner[x], x);
    TookIsPlaced(f, f.owner[x], x);
    hide Placed;
  }

  lemma GaveIsHashed<K>(f: Family, key: map<nat, K>, hash: K -> Slot, x: nat, k: K)
    requires Hashed(f, key, hash) && x != 0 && x !in key && forall y :: y in key ==> key[y] != k
    ensures hash(k) in f.lists && Hashed(Gave(f, hash(k), x), key[x := k], hash)
  {
    GaveIsPlaced(f, hash(k), x);
    hide Placed;
  }

  /** nrhash, of a destination and of a neighbour's call. */
  datatype Hashes = Hashes(dest: Dest -> Slot, station: Station -> Slot)

  ghost predicate Fits(m: Memory, hs: Hashes) {
    && BindsFit(m) && Hashed(m.routes, m.dest, hs.dest)
    && Hashed(m.nbrs, m.station, hs.station) && m.refcnt.Keys == m.station.Keys
  }

  lemma FitsMeans(m: Memory, hs: Hashes)
    requires Fits(m, hs)
    ensures BindsFit(m) && Hashed(m.routes, m.dest, hs.dest)
    ensures Hashed(m.nbrs, m.station, hs.station) && m.refcnt.Keys == m.station.Keys
    ensures Placed(m.binds) && m.bind.Keys == m.binds.owner.Keys && m.binds.lists.Keys == m.dest.Keys == m.num.Keys
  {
  }

  lemma FitsWhen(m: Memory, hs: Hashes)
    requires BindsFit(m) && Hashed(m.routes, m.dest, hs.dest)
    requires Hashed(m.nbrs, m.station, hs.station) && m.refcnt.Keys == m.station.Keys
    ensures Fits(m, hs)
  {
  }

  function Below(n: nat): (s: set<nat>)
    ensures forall h: nat :: h in s <==> h < n
  {
    if n == 0 then {} else Below(n - 1) + {n - 1}
  }

  lemma EmptyFits(m: Memory, hs: Hashes)
    requires m.binds == Family(map[], map[]) && m.bind == map[] && m.dest == map[] && m.num == map[]
    requires m.routes == Family(map h | h in Below(NRNUMCHAINS) :: [], map[])
    requires m.nbrs == m.routes && m.station == map[] && m.refcnt == map[]
    ensures Fits(m, hs) && TableOk(TableIn(m), m.refcnt) && Empty(TableIn(m))
  {
    EmptyTable(m);
    EmptyIsOk(TableIn(m), m.refcnt);
    hide TableOk, TableIn;
  }

  predicate Empty(t: seq<seq<Route>>) {
    |t| == NRNUMCHAINS && forall h :: 0 <= h < |t| ==> t[h] == []
  }

  lemma EmptyTable(m: Memory)
    requires forall h :: ListOf(m.routes, h) == []
    ensures Empty(TableIn(m))
  {
    forall h: nat | h < NRNUMCHAINS
      ensures ChainIn(m, h) == []
    {
      assert ListOf(m.routes, h) == [];
    }
    hide ChainIn;
  }

  // ----- lists of nodes -----

  lemma GotSplit(bind: map<nat, Bind>, a: seq<nat>, b: seq<nat>)
    ensures Got(bind, a + b) == Got(bind, a) + Got(bind, b)
  {
  }

  lemma GotNone(bind: map<nat, Bind>)
    ensures Got(bind, []) == []
  {
  }

  lemma GotFirst(bind: map<nat, Bind>, s: seq<nat>)
    requires s != [] && s[0] in bind
    ensures Got(bind, s) != [] && Got(bind, s)[0] == bind[s[0]] && Got(bind, s)[1..] == Got(bind, s[1..])
    ensures Got(bind, s) == [bind[s[0]]] + Got(bind, s[1..])
    ensures Got(bind, [s[0]]) == [bind[s[0]]]
  {
  }

  lemma RoutesSplit(m: Memory, a: seq<nat>, b: seq<nat>)
    ensures RoutesIn(m, a + b) == RoutesIn(m, a) + RoutesIn(m, b)
  {
  }

  lemma RoutesFirst(m: Memory, s: seq<nat>)
    ensures RoutesIn(m, []) == []
    ensures s != [] ==> RoutesIn(m, s) != [] && RoutesIn(m, s)[0] == RouteIn(m, s[0])
                        && RoutesIn(m, s)[1..] == RoutesIn(m, s[1..])
                        && RoutesIn(m, s) == [RouteIn(m, s[0])] + RoutesIn(m, s[1..])
                        && RoutesIn(m, [s[0]]) == [RouteIn(m, s[0])]
  {
  }

  /** All routes but r are as before. */
  ghost predicate OthersKept(m: Memory, m': Memory, r: nat) {
    forall q :: q in m.dest && q != r ==> RouteIn(m', q) == RouteIn(m, q)
  }

  lemma RoutesKept(m: Memory, m': Memory, r: nat, s: seq<nat>)
    requires OthersKept(m, m', r) && r !in s && forall q :: q in s ==> q in m.dest
    ensures RoutesIn(m', s) == RoutesIn(m, s)
  {
    hide RouteIn;
    forall j | 0 <= j < |s|
      ensures RouteIn(m', s[j]) == RouteIn(m, s[j])
    {
      assert s[j] in s;
    }
  }

  // ----- the steps of the operations -----

  /** Binding x of route r is unlinked and freed. */
  ghost function Unbound(m: Memory, r: nat, x: nat): Memory
    requires r in m.binds.lists && r in m.num
  {
    m.(binds := Took(m.binds, r, x), bind := m.bind - {x},
       num := m.num[r := if m.num[r] > 0 then m.num[r] - 1 else 0])
  }

  lemma UnboundFits(m: Memory, r: nat, x: nat, hs: Hashes)
    requires Fits(m, hs) && r in m.binds.lists && x in m.binds.lists[r]
    ensures r in m.num && Fits(Unbound(m, r, x), hs)
  {
    hide *;
    FitsMeans(m, hs);
    TookIsPlaced(m.binds, r, x);
    UnboundIs(m, r, x);
    FitsWhen(Unbound(m, r, x), hs);
  }

  lemma UnboundIs(m: Memory, r: nat, x: nat)
    requires r in m.binds.lists && r in m.num
    ensures var m' := Unbound(m, r, x);
            && m' == m.(binds := m'.binds, bind := m.bind - {x}, num := m'.num)
            && m'.binds == Took(m.binds, r, x) && m'.num.Keys == m.num.Keys
            && m'.binds.lists.Keys == m.binds.lists.Keys
            && m'.binds.owner.Keys == m.binds.owner.Keys - {x}
  {
  }

  lemma OnRoute(m: Memory, r: nat, hs: Hashes)
    requires Fits(m, hs) && r in m.dest
    ensures r in m.binds.lists && r in m.num && ListOf(m.binds, r) == m.binds.lists[r]
    ensures forall x :: x in m.binds.lists[r] ==> x in m.bind
    ensures forall q, x :: q in m.dest && q != r && x in m.binds.lists[r] ==> x !in ListOf(m.binds, q)
  {
    hide Fits, Placed, BindsFit, Hashed;
    FitsMeans(m, hs);
    forall x | x in m.binds.lists[r]
      ensures x in m.bind
    {
      OnOneList(m.binds, r, x);
    }
    forall q, x | q in m.dest && q != r && x in m.binds.lists[r]
      ensures x !in ListOf(m.binds, q)
    {
      OnOneList(m.binds, r, x);
    }
  }

  /** What becomes of the binding at x. */
  function Changed(bind: map<nat, Bind>, x: nat, b: Option<Bind>): map<nat, Bind> {
    match b
    case None => bind - {x}
    case Some(c) => bind[x := c]
  }

  lemma GotElsewhere(bind: map<nat, Bind>, s: seq<nat>, x: nat, b: Option<Bind>)
    requires x !in s
    ensures Got(Changed(bind, x, b), s) == Got(bind, s)
  {
  }

  /** Only binding x of route r differs. */
  lemma OneBindChanged(m: Memory, m': Memory, r: nat, x: nat, b: Option<Bind>, hs: Hashes)
    requires Fits(m, hs) && r in m.dest && x in ListOf(m.binds, r) && m'.dest == m.dest
    requires m'.bind == Changed(m.bind, x, b)
    requires forall q :: q in m.dest && q != r ==>
               ListOf(m'.binds, q) == ListOf(m.binds, q) && q in m.num && q in m'.num && m'.num[q] == m.num[q]
    ensures OthersKept(m, m', r)
  {
    OnRoute(m, r, hs);
    hide Fits, Got, Changed;
    forall q | q in m.dest && q != r
      ensures RouteIn(m', q) == RouteIn(m, q)
    {
      GotElsewhere(m.bind, ListOf(m.binds, q), x, b);
    }
  }

  lemma KeptOn(m: Memory, m': Memory, m'': Memory, r: nat)
    requires OthersKept(m, m', r) && forall q :: RouteIn(m'', q) == RouteIn(m', q)
    ensures OthersKept(m, m'', r)
  {
    hide RouteIn;
  }

  lemma NoneChanged(m: Memory, r: nat)
    ensures OthersKept(m, m, r)
  {
  }

  lemma KeptThrough(m: Memory, m': Memory, m'': Memory, r: nat)
    requires OthersKept(m, m', r) && OthersKept(m', m'', r) && m'.dest == m.dest
    ensures OthersKept(m, m'', r)
  {
    hide RouteIn;
  }

  // ----- ageing the bindings of a route -----

  /** The bindings past have been aged, and rest are still to come; all of it will make done. */
  ghost predicate Ageing(bind: map<nat, Bind>, past: seq<nat>, rest: seq<nat>, done: seq<Bind>) {
    Got(bind, past) + AgedBinds(Got(bind, rest)) == done
  }

  lemma AgeingGoesOn(bind: map<nat, Bind>, past: seq<nat>, rest: seq<nat>, done: seq<Bind>)
    requires Ageing(bind, past, rest, done) && rest != [] && rest[0] in bind
    requires rest[0] !in past && rest[0] !in rest[1..]
    ensures var x := rest[0];
            var b := Aged(bind[x]);
            Ageing(Changed(bind, x, b), if b == None then past else past + [x], rest[1..], done)
  {
    var x := rest[0];
    var b := Aged(bind[x]);
    var bind' := Changed(bind, x, b);
    hide AgedBinds, Aged, Got, Changed;
    GotFirst(bind, rest);
    AgedStep(Got(bind, rest));
    GotElsewhere(bind, past, x, b);
    GotElsewhere(bind, rest[1..], x, b);
    if b.Some? {
      GotSplit(bind', past, [x]);
      GotChanged(bind, x, b.value);
      assert Got(bind, past) + ([b.value] + AgedBinds(Got(bind, rest[1..])))
          == Got(bind, past) + [b.value] + AgedBinds(Got(bind, rest[1..]));
    }
  }

  lemma GotChanged(bind: map<nat, Bind>, x: nat, b: Bind)
    ensures Got(Changed(bind, x, Option.Some(b)), [x]) == [b]
  {
  }

  /** One turn of the loop, but for the neighbour. */
  ghost function Turned(m: Memory, r: nat, x: nat): Memory
    requires r in m.binds.lists && r in m.num && x in m.bind
  {
    match Aged(m.bind[x])
    case None => Unbound(m, r, x)
    case Some(b) => m.(bind := m.bind[x := b])
  }

  ghost predicate BindsAged(m0: Memory, m: Memory, r: nat, past: seq<nat>, rest: seq<nat>) {
    && m.dest == m0.dest && m.routes == m0.routes && r in m.dest && r in m.num
    && ListOf(m.binds, r) == past + rest && m.num[r] == |past| + |rest|
    && Ageing(m.bind, past, rest, AgedBinds(BindsIn(m0, r)))
    && OthersKept(m0, m, r)
  }

  lemma AgeingStarts(m: Memory, r: nat, hs: Hashes)
    requires Fits(m, hs) && r in m.dest && RouteOk(RouteIn(m, r))
    ensures BindsAged(m, m, r, [], ListOf(m.binds, r))
  {
    hide AgedBinds, Placed;
    GotNone(m.bind);
  }

  lemma TookFrom(f: Family, k: nat, past: seq<nat>, rest: seq<nat>)
    requires k in f.lists && f.lists[k] == past + rest && rest != [] && Distinct(f.lists[k])
    ensures rest[0] !in past && rest[0] !in rest[1..]
    ensures Took(f, k, rest[0]) == Family(f.lists[k := past + rest[1..]], f.owner - {rest[0]})
  {
    hide Without, Distinct;
    WithoutAt(f.lists[k], |past|);
    Split(past, rest);
  }

  lemma OnRest(m: Memory, r: nat, past: seq<nat>, rest: seq<nat>, hs: Hashes)
    requires Fits(m, hs) && r in m.dest && ListOf(m.binds, r) == past + rest && rest != []
    ensures r in m.binds.lists && r in m.num && rest[0] in m.bind && rest[0] in m.binds.lists[r]
    ensures m.binds.lists[r] == past + rest && Distinct(m.binds.lists[r])
  {
    hide Fits, Distinct;
    assert (past + rest)[|past|] == rest[0];
    OnRoute(m, r, hs);
    FitsMeans(m, hs);
    OnOneList(m.binds, r, rest[0]);
  }

  lemma TurnedIs(m: Memory, r: nat, past: seq<nat>, rest: seq<nat>)
    requires r in m.binds.lists && r in m.num && m.binds.lists.Keys == m.num.Keys == m.dest.Keys
    requires m.binds.lists[r] == past + rest && rest != [] && Distinct(m.binds.lists[r]) && rest[0] in m.bind
    ensures var x := rest[0];
            var m' := Turned(m, r, x);
            var b := Aged(m.bind[x]);
            && x !in past && x !in rest[1..]
            && m'.dest == m.dest && m'.routes == m.routes && m'.bind == Changed(m.bind, x, b) && r in m'.num
            && ListOf(m'.binds, r) == (if b == None then past else past + [x]) + rest[1..]
            && (m.num[r] == |past| + |rest| ==>
                  m'.num[r] == |if b == None then past else past + [x]| + |rest[1..]|)
            && (forall q :: q in m.dest && q != r ==>
                  ListOf(m'.binds, q) == ListOf(m.binds, q) && q in m.num && q in m'.num && m'.num[q] == m.num[q])
  {
    hide Aged, Distinct, Took;
    TookFrom(m.binds, r, past, rest);
    assert past + [rest[0]] + rest[1..] == past + rest;
  }

  lemma AgeOneOn(m0: Memory, m: Memory, r: nat, past: seq<nat>, rest: seq<nat>, hs: Hashes)
    requires Fits(m, hs) && BindsAged(m0, m, r, past, rest) && rest != []
    ensures r in m.binds.lists && r in m.num && rest[0] in m.bind && rest[0] in m.binds.lists[r]
    ensures BindsAged(m0, Turned(m, r, rest[0]), r, if Aged(m.bind[rest[0]]) == None then past else past + [rest[0]],
                      rest[1..])
  {
    var x := rest[0];
    hide Fits, Aged, AgedBinds, OthersKept, BindsIn, Turned, Ageing, Changed, Distinct, ListOf;
    OnRest(m, r, past, rest, hs);
    FitsMeans(m, hs);
    TurnedIs(m, r, past, rest);
    var m' := Turned(m, r, x);
    assert x in ListOf(m.binds, r);
    OneBindChanged(m, m', r, x, Aged(m.bind[x]), hs);
    KeptThrough(m0, m, m', r);
    AgeingGoesOn(m.bind, past, rest, AgedBinds(BindsIn(m0, r)));
  }

  /** The neighbours are of no concern. */
  lemma AgedStill(m0: Memory, m: Memory, m': Memory, r: nat, past: seq<nat>, rest: seq<nat>)
    requires BindsAged(m0, m, r, past, rest)
    requires m'.dest == m.dest && m'.binds == m.binds && m'.bind == m.bind && m'.num == m.num && m'.routes == m.routes
    ensures BindsAged(m0, m', r, past, rest)
  {
    hide Ageing;
  }

  lemma AgeingEnds(m0: Memory, m: Memory, r: nat, past: seq<nat>)
    requires BindsAged(m0, m, r, past, [])
    ensures RouteIn(m, r) == AgedRoute(RouteIn(m0, r)) && OthersKept(m0, m, r)
    ensures m.num[r] == |ListOf(m.binds, r)| == |AgedBinds(BindsIn(m0, r))| && ListOf(m.binds, r) == past
  {
    hide AgedBinds, OthersKept;
    NoBindsLeft();
    GotNone(m.bind);
    assert past + [] == past;
  }

  /** The references of the bindings past and rest. */
  function Refs(bind: map<nat, Bind>, past: seq<nat>, rest: seq<nat>): multiset<Neighbour> {
    Vias(Got(bind, past)) + Vias(Got(bind, rest))
  }

  lemma WholeRefs(m: Memory, r: nat)
    ensures var s := ListOf(m.binds, r);
            Refs(m.bind, [], s) == Refs(m.bind, s, []) == Vias(BindsIn(m, r))
  {
    GotNone(m.bind);
    NoBindsLeft();
  }

  /** A binding that is freed takes its reference with it. */
  lemma RefsGoOn(bind: map<nat, Bind>, past: seq<nat>, rest: seq<nat>)
    requires rest != [] && rest[0] in bind && rest[0] !in past && rest[0] !in rest[1..]
    ensures var x := rest[0];
            var b := Aged(bind[x]);
            var bind' := Changed(bind, x, b);
            Refs(bind, past, rest) == if b == None then Refs(bind', past, rest[1..]) + multiset{bind[x].via}
                                      else Refs(bind', past + [x], rest[1..])
  {
    var x := rest[0];
    var b := Aged(bind[x]);
    var bind' := Changed(bind, x, b);
    hide Got, Changed, Vias, Aged;
    GotFirst(bind, rest);
    AgedStep(Got(bind, rest));
    GotElsewhere(bind, past, x, b);
    GotElsewhere(bind, rest[1..], x, b);
    if b.Some? {
      GotSplit(bind', past, [x]);
      GotChanged(bind, x, b.value);
      ViasAppend(Got(bind', past), [b.value]);
      OneBind(b.value);
      AgedVia(bind[x]);
    }
  }

  lemma AgedVia(b: Bind)
    ensures Aged(b).Some? ==> Aged(b).value.via == b.via
  {
  }

  /** What a turn of the loop does to the next binding, and what it keeps. */
  lemma NextAged(m0: Memory, m: Memory, r: nat, past: seq<nat>, rest: seq<nat>, hs: Hashes)
    requires Fits(m, hs) && BindsAged(m0, m, r, past, rest) && rest != []
    ensures var x := rest[0];
            && r in m.dest && x in ListOf(m.binds, r) && x in m.bind && r in m.binds.lists && r in m.num
            && var m' := m.(bind := m.bind[x := m.bind[x].(obsocnt := Decremented(m.bind[x].obsocnt))]);
            && Fits(m', hs)
            && (if m.bind[x].permanent then
                  && BindsAged(m0, m, r, past + [x], rest[1..])
                  && Refs(m.bind, past, rest) == Refs(m.bind, past + [x], rest[1..])
                else if m'.bind[x].obsocnt == 0 then
                  && Unbound(m', r, x).bind == m.bind - {x} && Unbound(m', r, x).refcnt == m.refcnt
                  && BindsAged(m0, Unbound(m', r, x), r, past, rest[1..])
                  && Refs(m.bind, past, rest) == Refs(m.bind - {x}, past, rest[1..]) + multiset{m.bind[x].via}
                else
                  && BindsAged(m0, m', r, past + [x], rest[1..])
                  && Refs(m.bind, past, rest) == Refs(m'.bind, past + [x], rest[1..]))
  {
    var x := rest[0];
    hide *;
    AgedMeans(m0, m, r, past, rest);
    OnRest(m, r, past, rest, hs);
    AgeOneOn(m0, m, r, past, rest, hs);
    FitsMeans(m, hs);
    TookFrom(m.binds, r, past, rest);
    RefsGoOn(m.bind, past, rest);
    SetFits(m, x, m.bind[x].(obsocnt := Decremented(m.bind[x].obsocnt)), hs);
    TurnedCases(m, r, x);
  }

  lemma TurnedCases(m: Memory, r: nat, x: nat)
    requires r in m.binds.lists && r in m.num && x in m.bind
    ensures var m' := m.(bind := m.bind[x := m.bind[x].(obsocnt := Decremented(m.bind[x].obsocnt))]);
            var b := Aged(m.bind[x]);
            if m.bind[x].permanent then b.Some? && Turned(m, r, x) == m && Changed(m.bind, x, b) == m.bind
            else if m'.bind[x].obsocnt == 0 then
              && b == None && Turned(m, r, x) == Unbound(m', r, x) && Changed(m.bind, x, b) == m.bind - {x}
              && Unbound(m', r, x).bind == m.bind - {x} && Unbound(m', r, x).refcnt == m.refcnt
            else b.Some? && Turned(m, r, x) == m' && Changed(m.bind, x, b) == m'.bind
  {
    assert m.bind[x := m.bind[x]] == m.bind;
    hide Took, Decremented;
    assert m.bind[x := m.bind[x].(obsocnt := Decremented(m.bind[x].obsocnt))] - {x} == m.bind - {x};
  }

  lemma AgedMeans(m0: Memory, m: Memory, r: nat, past: seq<nat>, rest: seq<nat>)
    requires BindsAged(m0, m, r, past, rest)
    ensures m.dest == m0.dest && m.routes == m0.routes && r in m.dest && r in m.num
    ensures ListOf(m.binds, r) == past + rest
    ensures rest != [] ==> rest[0] in ListOf(m.binds, r)
  {
    assert rest != [] ==> (past + rest)[|past|] == rest[0];
  }

  // ----- neighbours -----

  /** --np->refcnt, and np is freed if that was the last reference. */
  ghost function Less(m: Memory, np: Neighbour, hs: Hashes): Memory
    requires np in m.refcnt && np in m.station && hs.station(m.station[np]) in m.nbrs.lists
  {
    if m.refcnt[np] == 1 then
      m.(nbrs := Took(m.nbrs, hs.station(m.station[np]), np), station := m.station - {np}, refcnt := m.refcnt - {np})
    else m.(refcnt := m.refcnt[np := if m.refcnt[np] > 0 then m.refcnt[np] - 1 else 0])
  }

  lemma LessFits(m: Memory, np: Neighbour, hs: Hashes)
    requires Fits(m, hs) && np in m.refcnt
    ensures np != 0 && np in m.station && np in m.nbrs.owner
    ensures var h := hs.station(m.station[np]); h in m.nbrs.lists && np in m.nbrs.lists[h]
    ensures Fits(Less(m, np, hs), hs)
  {
    hide Hashed, Placed, Took;
    TookIsHashed(m.nbrs, m.station, hs.station, np);
  }

  /** The neighbours are not part of the table. */
  lemma SameRoutes(m: Memory, m': Memory)
    requires m'.dest == m.dest && m'.binds == m.binds && m'.bind == m.bind && m'.num == m.num
    ensures forall q :: RouteIn(m', q) == RouteIn(m, q)
  {
  }

  // ----- the other steps -----

  /** The binding at x becomes b. */
  lemma SetFits(m: Memory, x: nat, b: Bind, hs: Hashes)
    requires Fits(m, hs) && x in m.bind
    ensures Fits(m.(bind := m.bind[x := b]), hs)
  {
    hide Placed, Hashed;
  }

  /** Route r, without bindings, is unlinked and freed. */
  ghost function Parted(m: Memory, r: nat, hs: Hashes): Memory
    requires r in m.dest && hs.dest(m.dest[r]) in m.routes.lists
  {
    m.(binds := m.binds.(lists := m.binds.lists - {r}), routes := Took(m.routes, hs.dest(m.dest[r]), r),
       dest := m.dest - {r}, num := m.num - {r})
  }

  lemma PartedFits(m: Memory, r: nat, hs: Hashes)
    requires Fits(m, hs) && r in m.dest && ListOf(m.binds, r) == []
    ensures r != 0 && hs.dest(m.dest[r]) in m.routes.lists && r in m.routes.lists[hs.dest(m.dest[r])]
    ensures r in m.binds.lists && m.binds.lists[r] == [] && r in m.num
    ensures Fits(Parted(m, r, hs), hs)
  {
    hide *;
    FitsMeans(m, hs);
    TookIsHashed(m.routes, m.dest, hs.dest, r);
    PartedIs(m, r, hs);
    FitsWhen(Parted(m, r, hs), hs);
  }

  lemma PartedIs(m: Memory, r: nat, hs: Hashes)
    requires r in m.dest && hs.dest(m.dest[r]) in m.routes.lists
    requires BindsFit(m) && ListOf(m.binds, r) == []
    ensures r in m.binds.lists && m.binds.lists[r] == [] && r in m.num
    ensures var m' := Parted(m, r, hs);
            && m' == m.(binds := m'.binds, routes := m'.routes, dest := m'.dest, num := m'.num)
            && m'.binds == m.binds.(lists := m.binds.lists - {r}) && m'.num == m.num - {r}
            && m'.routes == Took(m.routes, hs.dest(m.dest[r]), r) && m'.dest == m.dest - {r}
            && BindsFit(m')
  {
    NoListIsPlaced(m.binds, r);
    hide Took, Placed;
  }

  lemma RoutesKnown(m: Memory, hs: Hashes)
    requires Fits(m, hs)
    ensures m.routes.owner.Keys == m.dest.Keys && m.nbrs.owner.Keys == m.station.Keys
  {
  }

  /** A new route to d without bindings. */
  ghost function WithNew(m: Memory, r: nat, d: Dest, hs: Hashes): Memory
    requires hs.dest(d) in m.routes.lists
  {
    m.(binds := m.binds.(lists := m.binds.lists[r := []]), routes := Gave(m.routes, hs.dest(d), r),
       dest := m.dest[r := d], num := m.num[r := 0])
  }

  lemma WithNewFits(m: Memory, r: nat, d: Dest, hs: Hashes)
    requires Fits(m, hs) && r != 0 && r !in m.dest && d !in m.dest.Values
    ensures r !in m.binds.lists && r !in m.routes.owner
    ensures hs.dest(d) in m.routes.lists && Fits(WithNew(m, r, d, hs), hs)
  {
    hide Hashed, Placed, Gave;
    RoutesKnown(m, hs);
    assert forall y :: y in m.dest ==> m.dest[y] != d;
    GaveIsHashed(m.routes, m.dest, hs.dest, r, d);
    ListIsPlaced(m.binds, r);
  }

  /** A new neighbour without references. */
  ghost function WithNbr(m: Memory, n: Neighbour, st: Station, hs: Hashes): Memory
    requires hs.station(st) in m.nbrs.lists
  {
    m.(nbrs := Gave(m.nbrs, hs.station(st), n), station := m.station[n := st], refcnt := m.refcnt[n := 0])
  }

  lemma WithNbrFits(m: Memory, n: Neighbour, st: Station, hs: Hashes)
    requires Fits(m, hs) && n != 0 && n !in m.station && st !in m.station.Values
    ensures n !in m.nbrs.owner && hs.station(st) in m.nbrs.lists && Fits(WithNbr(m, n, st, hs), hs)
  {
    hide Hashed, Placed, Gave;
    RoutesKnown(m, hs);
    assert forall y :: y in m.station ==> m.station[y] != st;
    GaveIsHashed(m.nbrs, m.station, hs.station, n, st);
  }

  /** A new binding x of route r. */
  ghost function WithBind(m: Memory, r: nat, x: nat, b: Bind): Memory
    requires r in m.binds.lists && r in m.num
  {
    m.(binds := Gave(m.binds, r, x), bind := m.bind[x := b], num := m.num[r := m.num[r] + 1])
  }

  lemma WithBindFits(m: Memory, r: nat, x: nat, b: Bind, hs: Hashes)
    requires Fits(m, hs) && r in m.dest && x != 0 && x !in m.bind
    ensures r in m.binds.lists && r in m.num && x !in m.binds.owner && Fits(WithBind(m, r, x, b), hs)
  {
    hide Hashed, Placed;
    GaveIsPlaced(m.binds, r, x);
  }

  /** The reference counts are of no concern. */
  lemma FitsWithCounts(m: Memory, refcnt: map<Neighbour, nat>, hs: Hashes)
    requires Fits(m, hs) && refcnt.Keys == m.refcnt.Keys
    ensures Fits(m.(refcnt := refcnt), hs) && forall q :: RouteIn(m.(refcnt := refcnt), q) == RouteIn(m, q)
  {
    hide Hashed, BindsFit;
    SameRoutes(m, m.(refcnt := refcnt));
    hide RouteIn;
    BindsFitStill(m, refcnt);
  }

  lemma BindsFitStill(m: Memory, refcnt: map<Neighbour, nat>)
    requires BindsFit(m)
    ensures BindsFit(m.(refcnt := refcnt))
  {
    hide Placed;
  }

  // ----- ageing the routes of a chain -----

  lemma PartedKept(m: Memory, r: nat, hs: Hashes)
    requires Fits(m, hs) && r in m.dest && ListOf(m.binds, r) == [] && hs.dest(m.dest[r]) in m.routes.lists
    ensures OthersKept(m, Parted(m, r, hs), r)
  {
    hide Got, Took, Hashed, Placed;
  }

  /** From m0, the routes past of chain h have been aged, and rest are still to come. */
  ghost predicate RoutesAged(m0: Memory, m: Memory, h: nat, past: seq<nat>, rest: seq<nat>) {
    && ListOf(m.routes, h) == past + rest
    && RoutesIn(m, past) + AgedChain(RoutesIn(m, rest)) == AgedChain(ChainIn(m0, h)) && ChainOk(RoutesIn(m, rest))
    && forall k: nat :: k < NRNUMCHAINS && k != h ==> ChainIn(m, k) == ChainIn(m0, k)
  }

  lemma OnSlot<K>(f: Family, key: map<nat, K>, hash: K -> Slot, h: nat, x: nat)
    requires Hashed(f, key, hash) && h < NRNUMCHAINS
    ensures h in f.lists && ListOf(f, h) == f.lists[h] && Distinct(f.lists[h])
    ensures x in f.lists[h] ==> x in key && hash(key[x]) == h
  {
    hide Distinct;
  }

  lemma OnChain(m: Memory, h: nat, past: seq<nat>, rest: seq<nat>, hs: Hashes)
    requires Fits(m, hs) && h < NRNUMCHAINS && ListOf(m.routes, h) == past + rest && rest != []
    ensures var r := rest[0];
            && r in m.dest && h == hs.dest(m.dest[r]) && r !in past && r !in rest[1..]
            && h in m.routes.lists && m.routes.lists[h] == past + rest && r in m.routes.lists[h]
            && Took(m.routes, h, r) == Family(m.routes.lists[h := past + rest[1..]], m.routes.owner - {r})
    ensures forall q :: q in past || q in rest[1..] ==> q in m.dest
    ensures forall k: nat, q :: k < NRNUMCHAINS && k != h && q in ListOf(m.routes, k) ==> q in m.dest && q != rest[0]
  {
    var r := rest[0];
    assert (past + rest)[|past|] == r;
    assert forall q :: q in past || q in rest[1..] ==> q in past + rest;
    hide *;
    FitsMeans(m, hs);
    OnSlot(m.routes, m.dest, hs.dest, h, r);
    TookFrom(m.routes, h, past, rest);
    forall q | q in past || q in rest[1..]
      ensures q in m.dest
    {
      OnSlot(m.routes, m.dest, hs.dest, h, q);
    }
    forall k: nat, q | k < NRNUMCHAINS && k != h && q in ListOf(m.routes, k)
      ensures q in m.dest && q != rest[0]
    {
      OnSlot(m.routes, m.dest, hs.dest, k, q);
    }
  }

  lemma ChainStays(m: Memory, m': Memory, h: nat, k: nat, r: nat)
    requires OthersKept(m, m', r) && ListOf(m'.routes, k) == ListOf(m.routes, k)
    requires forall q :: q in ListOf(m.routes, k) ==> q in m.dest && q != r
    ensures ChainIn(m', k) == ChainIn(m, k)
  {
    hide OthersKept, ListOf, RoutesIn;
    RoutesKept(m, m', r, ListOf(m.routes, k));
  }

  /** One route further, on the values. */
  lemma ChainEquation(done: seq<Route>, todo: seq<Route>, all: seq<Route>)
    requires todo != [] && done + AgedChain(todo) == all
    ensures if AgedBinds(todo[0].binds) == [] then done + AgedChain(todo[1..]) == all
            else done + [AgedRoute(todo[0])] + AgedChain(todo[1..]) == all
    ensures ChainOk(todo) ==> ChainOk(todo[1..]) && RouteOk(todo[0])
  {
    hide AgedChain, AgedBinds, AgedRoute, RouteOk;
    ChainStep(todo);
    assert done + ([AgedRoute(todo[0])] + AgedChain(todo[1..])) == done + [AgedRoute(todo[0])] + AgedChain(todo[1..]);
  }

  /** The turn for route rest[0] has made m' of m. */
  ghost predicate RouteTurned(m: Memory, m': Memory, h: nat, r: nat)
    requires h in m.routes.lists
  {
    && OthersKept(m, m', r)
    && if AgedBinds(BindsIn(m, r)) == [] then m'.routes == Took(m.routes, h, r)
       else m'.routes == m.routes && RouteIn(m', r) == AgedRoute(RouteIn(m, r))
  }

  lemma TurnedWhen(m: Memory, m': Memory, h: nat, r: nat)
    requires h in m.routes.lists && OthersKept(m, m', r)
    requires if AgedBinds(BindsIn(m, r)) == [] then m'.routes == Took(m.routes, h, r)
             else m'.routes == m.routes && RouteIn(m', r) == AgedRoute(RouteIn(m, r))
    ensures RouteTurned(m, m', h, r)
  {
  }

  lemma NoBindsIn(m: Memory, r: nat)
    requires |ListOf(m.binds, r)| == 0
    ensures ListOf(m.binds, r) == [] && Vias(BindsIn(m, r)) == multiset{}
  {
  }

  lemma RestKept(m: Memory, m': Memory, h: nat, past: seq<nat>, rest: seq<nat>, hs: Hashes)
    requires Fits(m, hs) && h < NRNUMCHAINS && ListOf(m.routes, h) == past + rest && rest != []
    requires h in m.routes.lists && RouteTurned(m, m', h, rest[0])
    ensures RoutesIn(m', past) == RoutesIn(m, past) && RoutesIn(m', rest[1..]) == RoutesIn(m, rest[1..])
    ensures forall k: nat :: k < NRNUMCHAINS && k != h ==> ChainIn(m', k) == ChainIn(m, k)
    ensures var past' := if AgedBinds(BindsIn(m, rest[0])) == [] then past else past + [rest[0]];
            ListOf(m'.routes, h) == past' + rest[1..]
  {
    var r := rest[0];
    hide Fits, RoutesIn, ChainIn, Took, ListOf, AgedBinds, BindsIn, OthersKept, AgedRoute;
    OnChain(m, h, past, rest, hs);
    ListsStay(m, m', h, past, rest, h);
    TurnedRest(m, m', h, past, rest);
    hide *;
    RoutesKept(m, m', r, past);
    RoutesKept(m, m', r, rest[1..]);
    forall k: nat | k < NRNUMCHAINS && k != h
      ensures ChainIn(m', k) == ChainIn(m, k)
    {
      ListsStay(m, m', h, past, rest, k);
      ChainStays(m, m', h, k, r);
    }
  }

  lemma ChainGoesOn(m0: Memory, m: Memory, m': Memory, h: nat, past: seq<nat>, rest: seq<nat>, hs: Hashes)
    requires Fits(m, hs) && h < NRNUMCHAINS && RoutesAged(m0, m, h, past, rest) && rest != []
    requires h in m.routes.lists && RouteTurned(m, m', h, rest[0])
    ensures var past' := if AgedBinds(BindsIn(m, rest[0])) == [] then past else past + [rest[0]];
            RoutesAged(m0, m', h, past', rest[1..])
  {
    var r := rest[0];
    hide Fits, ListOf, RoutesIn, ChainIn, AgedChain, AgedBinds, BindsIn, RouteIn, ChainOk, Took, OthersKept, AgedRoute;
    RestKept(m, m', h, past, rest, hs);
    RoutesFirst(m, rest);
    RouteBinds(m, r);
    ChainEquation(RoutesIn(m, past), RoutesIn(m, rest), AgedChain(ChainIn(m0, h)));
    if AgedBinds(BindsIn(m, r)) != [] {
      RoutesSplit(m', past, [r]);
      RoutesFirst(m', [r]);
    }
  }

  /** The references of the routes past and rest. */
  function ChainRefs(m: Memory, past: seq<nat>, rest: seq<nat>): multiset<Neighbour> {
    ChainVias(RoutesIn(m, past)) + ChainVias(RoutesIn(m, rest))
  }

  lemma ChainRefsSplit(m: Memory, past: seq<nat>, rest: seq<nat>)
    requires rest != []
    ensures ChainRefs(m, past, rest) == ChainRefs(m, past, rest[1..]) + Vias(BindsIn(m, rest[0]))
  {
    hide RoutesIn, RouteIn, BindsIn, AgedChain, ChainVias;
    RoutesFirst(m, rest);
    RouteBinds(m, rest[0]);
    ChainStep(RoutesIn(m, rest));
  }

  lemma ChainRefsKept(m: Memory, m': Memory, past: seq<nat>, rest: seq<nat>)
    requires rest != []
    requires RoutesIn(m', past) == RoutesIn(m, past) && RoutesIn(m', rest[1..]) == RoutesIn(m, rest[1..])
    ensures ChainRefs(m', past, rest[1..]) == ChainRefs(m, past, rest[1..])
    ensures ChainRefs(m', past + [rest[0]], rest[1..]) == ChainRefs(m, past, rest[1..]) + Vias(BindsIn(m', rest[0]))
  {
    var r := rest[0];
    hide RoutesIn, RouteIn, BindsIn, AgedChain, ChainVias;
    RoutesSplit(m', past, [r]);
    RoutesFirst(m', [r]);
    RouteBinds(m', r);
    ChainViasAppend(RoutesIn(m', past), [RouteIn(m', r)]);
    OneRoute(RouteIn(m', r));
  }

  lemma NextRoute(m: Memory, past: seq<nat>, rest: seq<nat>, other: multiset<Neighbour>)
    requires rest != [] && ChainOk(RoutesIn(m, rest))
    ensures RouteOk(RouteIn(m, rest[0]))
    ensures other + ChainRefs(m, past, rest)
         == other + ChainRefs(m, past, rest[1..]) + Vias(BindsIn(m, rest[0]))
  {
    hide RouteIn, RouteOk, ChainRefs;
    RoutesFirst(m, rest);
    ChainRefsSplit(m, past, rest);
  }

  lemma RefsAfter(m: Memory, m': Memory, past: seq<nat>, rest: seq<nat>, other: multiset<Neighbour>)
    requires rest != []
    requires RoutesIn(m', past) == RoutesIn(m, past) && RoutesIn(m', rest[1..]) == RoutesIn(m, rest[1..])
    ensures other + ChainRefs(m, past, rest[1..]) + multiset{} == other + ChainRefs(m', past, rest[1..])
    ensures other + ChainRefs(m, past, rest[1..]) + Vias(BindsIn(m', rest[0]))
         == other + ChainRefs(m', past + [rest[0]], rest[1..])
  {
    hide *;
    ChainRefsKept(m, m', past, rest);
  }

  lemma RoutesAgedMeans(m0: Memory, m: Memory, h: nat, past: seq<nat>, rest: seq<nat>)
    requires RoutesAged(m0, m, h, past, rest)
    ensures ListOf(m.routes, h) == past + rest && ChainOk(RoutesIn(m, rest))
  {
  }

  lemma WholeChain(m: Memory, h: nat)
    requires ChainOk(ChainIn(m, h))
    ensures var s := ListOf(m.routes, h);
            && ChainRefs(m, [], s) == ChainRefs(m, s, []) == ChainVias(ChainIn(m, h))
            && RoutesAged(m, m, h, [], s)
  {
    hide RouteIn, AgedChain;
    RoutesFirst(m, []);
    NoRoutesLeft();
  }

  lemma ChainAgeingEnds(m0: Memory, m: Memory, h: nat, past: seq<nat>)
    requires RoutesAged(m0, m, h, past, []) && ChainOk(ChainIn(m0, h))
    ensures ChainIn(m, h) == AgedChain(ChainIn(m0, h)) && ListOf(m.routes, h) == past
    ensures forall k: nat :: k < NRNUMCHAINS && k != h ==> ChainIn(m, k) == ChainIn(m0, k)
    ensures ChainOk(ChainIn(m, h)) && ChainRefs(m, past, []) == ChainVias(ChainIn(m, h))
  {
    hide RouteIn, AgedChain, ChainOk;
    RoutesFirst(m, []);
    NoRoutesLeft();
    AgedChainOk(ChainIn(m0, h));
  }

  lemma OneChainSet(m: Memory, m': Memory, h: nat)
    requires h < NRNUMCHAINS && forall k: nat :: k < NRNUMCHAINS && k != h ==> ChainIn(m', k) == ChainIn(m, k)
    ensures |TableIn(m)| == NRNUMCHAINS && TableIn(m)[h] == ChainIn(m, h)
    ensures TableIn(m') == TableIn(m)[h := ChainIn(m', h)]
  {
    hide ChainIn;
  }

  lemma ListsStay(m: Memory, m': Memory, h: nat, past: seq<nat>, rest: seq<nat>, k: nat)
    requires h in m.routes.lists && m.routes.lists[h] == past + rest && rest != []
    requires Took(m.routes, h, rest[0]) == Family(m.routes.lists[h := past + rest[1..]], m.routes.owner - {rest[0]})
    requires m'.routes == m.routes || m'.routes == Took(m.routes, h, rest[0])
    ensures ListOf(m'.routes, k) == if k == h && m'.routes != m.routes then past + rest[1..] else ListOf(m.routes, k)
  {
    hide Took;
  }

  lemma TurnedRest(m: Memory, m': Memory, h: nat, past: seq<nat>, rest: seq<nat>)
    requires h in m.routes.lists && rest != [] && RouteTurned(m, m', h, rest[0]) && m.routes.lists[h] == past + rest
    requires Took(m.routes, h, rest[0]) == Family(m.routes.lists[h := past + rest[1..]], m.routes.owner - {rest[0]})
    ensures past + rest == past + [rest[0]] + rest[1..]
    ensures OthersKept(m, m', rest[0]) && (m'.routes == m.routes || m'.routes == Took(m.routes, h, rest[0]))
    ensures m'.routes == Took(m.routes, h, rest[0]) <==> AgedBinds(BindsIn(m, rest[0])) == []
  {
    hide Took, OthersKept, AgedBinds, BindsIn, RouteIn, AgedRoute;
    assert Took(m.routes, h, rest[0]).lists[h] == past + rest[1..];
    assert |past + rest| != |past + rest[1..]|;
  }

  lemma RouteBinds(m: Memory, r: nat)
    ensures RouteIn(m, r).binds == BindsIn(m, r)
  {
  }

  // ----- searching -----

  /** The search for a route to d has passed past. */
  ghost predicate SeekingRoute(m: Memory, h: nat, d: Dest, past: seq<nat>, rest: seq<nat>) {
    && ListOf(m.routes, h) == past + rest
    && FindRoute(ChainIn(m, h), d) == |past| + FindRoute(RoutesIn(m, rest), d)
    && forall q :: q in past ==> q in m.dest && m.dest[q] != d
  }

  lemma SeekRoute(m: Memory, h: nat, d: Dest, past: seq<nat>, rest: seq<nat>)
    requires SeekingRoute(m, h, d, past, rest) && rest != [] && rest[0] in m.dest
    ensures if m.dest[rest[0]] == d then FindRoute(ChainIn(m, h), d) == |past| < |ChainIn(m, h)|
            else SeekingRoute(m, h, d, past + [rest[0]], rest[1..])
    ensures past + [rest[0]] + rest[1..] == past + rest
  {
    hide ChainIn, FindRoute;
    RoutesFirst(m, rest);
    FoundRoute(RoutesIn(m, rest), d);
    hide RoutesIn;
    assert |ChainIn(m, h)| == |past + rest| by {
      ChainLength(m, h);
    }
  }

  lemma ChainLength(m: Memory, h: nat)
    ensures |ChainIn(m, h)| == |ListOf(m.routes, h)|
    ensures forall j :: 0 <= j < |ListOf(m.routes, h)| ==> ChainIn(m, h)[j] == RouteIn(m, ListOf(m.routes, h)[j])
  {
  }

  lemma FoundRoute(rs: seq<Route>, d: Dest)
    ensures FindRoute(rs, d) == if rs == [] || rs[0].dest == d then 0 else 1 + FindRoute(rs[1..], d)
  {
  }

  lemma SeekingEnds(m: Memory, h: nat, d: Dest, past: seq<nat>, hs: Hashes)
    requires Fits(m, hs) && h == hs.dest(d) && SeekingRoute(m, h, d, past, [])
    ensures FindRoute(ChainIn(m, h), d) == |ChainIn(m, h)| && d !in m.dest.Values
  {
    hide ChainIn;
    ChainLength(m, h);
    RoutesFirst(m, []);
    hide RoutesIn, RouteIn;
    assert past + [] == past;
    forall q | q in m.dest
      ensures m.dest[q] != d
    {
      InItsSlot(m.routes, m.dest, hs.dest, q);
    }
  }

  lemma InItsSlot<K>(f: Family, key: map<nat, K>, hash: K -> Slot, x: nat)
    requires Hashed(f, key, hash) && x in key
    ensures x in ListOf(f, hash(key[x]))
  {
    hide Distinct;
  }

  ghost predicate SeekingBind(m: Memory, r: nat, np: Neighbour, past: seq<nat>, rest: seq<nat>) {
    && ListOf(m.binds, r) == past + rest
    && FindBind(BindsIn(m, r), np) == |past| + FindBind(Got(m.bind, rest), np)
  }

  lemma SeekBind(m: Memory, r: nat, np: Neighbour, past: seq<nat>, rest: seq<nat>)
    requires SeekingBind(m, r, np, past, rest) && rest != [] && rest[0] in m.bind
    ensures if m.bind[rest[0]].via == np then FindBind(BindsIn(m, r), np) == |past| < |BindsIn(m, r)|
            else SeekingBind(m, r, np, past + [rest[0]], rest[1..])
    ensures past + [rest[0]] + rest[1..] == past + rest && (past + rest)[|past|] == rest[0]
  {
    GotFirst(m.bind, rest);
    assert |BindsIn(m, r)| == |past + rest|;
    hide Got, BindsIn;
    assert past + [rest[0]] + rest[1..] == past + rest;
  }

  lemma SeekBindEnds(m: Memory, r: nat, np: Neighbour, past: seq<nat>)
    requires SeekingBind(m, r, np, past, [])
    ensures FindBind(BindsIn(m, r), np) == |BindsIn(m, r)|
  {
  }

  /** The search for the worst binding: worst, of quality minqual, is the best candidate before rest. */
  ghost predicate SeekingWorst(m: Memory, r: nat, worst: nat, minqual: nat, past: seq<nat>, rest: seq<nat>) {
    && ListOf(m.binds, r) == past + rest
    && FindWorst(BindsIn(m, r), 1000) == (match FindWorst(Got(m.bind, rest), minqual)
                                          case None => if worst == 0 then None
                                                       else Option.Some(BindAt(m.bind, worst))
                                          case Some(b) => Option.Some(b))
    && (worst != 0 ==> worst in past)
  }

  lemma SeekWorst(m: Memory, r: nat, worst: nat, minqual: nat, past: seq<nat>, rest: seq<nat>)
    requires SeekingWorst(m, r, worst, minqual, past, rest) && rest != [] && rest[0] in m.bind && rest[0] != 0
    ensures var x := rest[0];
            if !m.bind[x].permanent && m.bind[x].quality < minqual then
              SeekingWorst(m, r, x, m.bind[x].quality, past + [x], rest[1..])
            else SeekingWorst(m, r, worst, minqual, past + [x], rest[1..])
    ensures past + [rest[0]] + rest[1..] == past + rest
  {
    GotFirst(m.bind, rest);
    hide Got, BindsIn;
    assert past + [rest[0]] + rest[1..] == past + rest;
  }

  lemma RouteSought(m: Memory, h: nat, d: Dest)
    ensures SeekingRoute(m, h, d, [], ListOf(m.routes, h))
  {
  }

  lemma BindSought(m: Memory, r: nat, np: Neighbour)
    ensures SeekingBind(m, r, np, [], ListOf(m.binds, r)) && |BindsIn(m, r)| == |ListOf(m.binds, r)|
  {
  }

  lemma WorstSought(m: Memory, r: nat)
    ensures SeekingWorst(m, r, 0, 1000, [], ListOf(m.binds, r))
  {
  }

  lemma BoundAt(m: Memory, x: nat)
    ensures x in m.bind ==> BindAt(m.bind, x) == m.bind[x]
  {
  }

  lemma SeekWorstEnds(m: Memory, r: nat, worst: nat, minqual: nat, past: seq<nat>)
    requires SeekingWorst(m, r, worst, minqual, past, [])
    ensures FindWorst(BindsIn(m, r), 1000) == if worst == 0 then None else Option.Some(BindAt(m.bind, worst))
    ensures worst != 0 ==> worst in ListOf(m.binds, r)
  {
  }

  // ----- dropping -----

  lemma RouteUnbound(m: Memory, r: nat, k: nat, hs: Hashes)
    requires Fits(m, hs) && r in m.dest && k < |ListOf(m.binds, r)|
    ensures var x := ListOf(m.binds, r)[k];
            && r in m.binds.lists && r in m.num && x in m.bind && m.binds.lists[r] == ListOf(m.binds, r)
            && var m' := Unbound(m, r, x);
            && OthersKept(m, m', r) && BindsIn(m, r)[k] == m.bind[x]
            && RouteIn(m', r) == Route(RouteIn(m, r).dest, if m.num[r] > 0 then m.num[r] - 1 else 0,
                                       BindsIn(m, r)[..k] + BindsIn(m, r)[k + 1..])
            && m'.num[r] == RouteIn(m', r).numRoutes && m'.num[r] == (if m.num[r] > 0 then m.num[r] - 1 else 0)
            && ListOf(m'.binds, r) == ListOf(m.binds, r)[..k] + ListOf(m.binds, r)[k + 1..]
  {
    var s := ListOf(m.binds, r);
    var x, t := s[k], s[..k] + s[k + 1..];
    hide *;
    OnRoute(m, r, hs);
    FitsMeans(m, hs);
    OnOneList(m.binds, r, x);
    var m' := Unbound(m, r, x);
    UnboundLists(m, r, k);
    OneBindChanged(m, m', r, x, None, hs);
    NotAmong(s, k);
    GotElsewhere(m.bind, t, x, None);
    GotAround(m.bind, s, k);
    RouteFields(m, r);
    RouteFields(m', r);
  }

  lemma UnboundLists(m: Memory, r: nat, k: nat)
    requires r in m.binds.lists && r in m.num && m.dest.Keys == m.num.Keys
    requires k < |m.binds.lists[r]| && Distinct(m.binds.lists[r])
    ensures var s := m.binds.lists[r];
            var m' := Unbound(m, r, s[k]);
            && m'.bind == Changed(m.bind, s[k], None) && m'.dest == m.dest && m'.num.Keys == m.num.Keys
            && ListOf(m'.binds, r) == s[..k] + s[k + 1..]
            && m'.num[r] == (if m.num[r] > 0 then m.num[r] - 1 else 0)
            && forall q :: q in m.dest && q != r ==> ListOf(m'.binds, q) == ListOf(m.binds, q) && m'.num[q] == m.num[q]
  {
    var s := m.binds.lists[r];
    hide Distinct, Without;
    WithoutAt(s, k);
  }

  lemma RouteFields(m: Memory, r: nat)
    requires r in m.dest && r in m.num
    ensures RouteIn(m, r) == Route(m.dest[r], m.num[r], BindsIn(m, r))
    ensures BindsIn(m, r) == Got(m.bind, ListOf(m.binds, r))
  {
  }

  lemma NotAmong(s: seq<nat>, k: nat)
    requires Distinct(s) && k < |s|
    ensures s[k] !in s[..k] + s[k + 1..]
  {
  }

  lemma GotAround(bind: map<nat, Bind>, s: seq<nat>, k: nat)
    requires k < |s| && s[k] in bind
    ensures |Got(bind, s)| == |s| && Got(bind, s)[k] == bind[s[k]]
    ensures Got(bind, s[..k] + s[k + 1..]) == Got(bind, s)[..k] + Got(bind, s)[k + 1..]
  {
  }

  lemma OthersStay(m: Memory, m': Memory, h: nat, j: nat, hs: Hashes)
    requires Fits(m, hs) && h < NRNUMCHAINS && j < |ListOf(m.routes, h)|
    requires OthersKept(m, m', ListOf(m.routes, h)[j])
    requires forall k: nat :: k < NRNUMCHAINS && k != h ==> ListOf(m'.routes, k) == ListOf(m.routes, k)
    ensures forall k: nat :: k < NRNUMCHAINS && k != h ==> ChainIn(m', k) == ChainIn(m, k)
  {
    var s := ListOf(m.routes, h);
    var r := s[j];
    hide *;
    FitsMeans(m, hs);
    OnSlot(m.routes, m.dest, hs.dest, h, r);
    forall k: nat | k < NRNUMCHAINS && k != h
      ensures ChainIn(m', k) == ChainIn(m, k)
    {
      forall q | q in ListOf(m.routes, k)
        ensures q in m.dest && q != r
      {
        OnSlot(m.routes, m.dest, hs.dest, k, q);
      }
      ChainStays(m, m', h, k, r);
    }
  }

  /** Only route j of chain h has changed. */
  lemma ChainSet(m: Memory, m': Memory, h: nat, j: nat, hs: Hashes)
    requires Fits(m, hs) && h < NRNUMCHAINS && j < |ListOf(m.routes, h)|
    requires OthersKept(m, m', ListOf(m.routes, h)[j]) && m'.routes == m.routes
    ensures |ChainIn(m, h)| == |ListOf(m.routes, h)| && ListOf(m.routes, h)[j] in m.dest
    ensures ChainIn(m', h) == ChainIn(m, h)[j := RouteIn(m', ListOf(m.routes, h)[j])]
    ensures forall k: nat :: k < NRNUMCHAINS && k != h ==> ChainIn(m', k) == ChainIn(m, k)
  {
    var s := ListOf(m.routes, h);
    hide Fits, RouteIn, Distinct, ChainIn;
    OthersStay(m, m', h, j, hs);
    ChainLength(m, h);
    ChainLength(m', h);
    OnSlots(m, h, hs);
    NotAmong(s, j);
    forall i | 0 <= i < |s| && i != j
      ensures ChainIn(m', h)[i] == ChainIn(m, h)[i]
    {
      assert (s[..j] + s[j + 1..])[if i < j then i else i - 1] == s[i];
    }
  }

  lemma OnSlots(m: Memory, h: nat, hs: Hashes)
    requires Fits(m, hs) && h < NRNUMCHAINS
    ensures h in m.routes.lists && ListOf(m.routes, h) == m.routes.lists[h] && Distinct(ListOf(m.routes, h))
    ensures forall q :: q in ListOf(m.routes, h) ==> q in m.dest && hs.dest(m.dest[q]) == h
  {
    hide *;
    FitsMeans(m, hs);
    OnSlot(m.routes, m.dest, hs.dest, h, 0);
    forall q | q in ListOf(m.routes, h)
      ensures q in m.dest && hs.dest(m.dest[q]) == h
    {
      OnSlot(m.routes, m.dest, hs.dest, h, q);
    }
  }

  /** Route j of chain h has gone. */
  lemma ChainGone(m: Memory, m': Memory, h: nat, j: nat, hs: Hashes)
    requires Fits(m, hs) && h < NRNUMCHAINS && j < |ListOf(m.routes, h)| && h in m.routes.lists
    requires OthersKept(m, m', ListOf(m.routes, h)[j]) && m'.routes == Took(m.routes, h, ListOf(m.routes, h)[j])
    ensures |ChainIn(m, h)| == |ListOf(m.routes, h)|
    ensures ChainIn(m', h) == ChainIn(m, h)[..j] + ChainIn(m, h)[j + 1..]
    ensures forall k: nat :: k < NRNUMCHAINS && k != h ==> ChainIn(m', k) == ChainIn(m, k)
  {
    var s := ListOf(m.routes, h);
    hide Fits, RouteIn, Distinct, ChainIn, Without, OthersKept;
    OnSlots(m, h, hs);
    OthersStay(m, m', h, j, hs);
    ChainLength(m, h);
    ChainLength(m', h);
    NotAmong(s, j);
    WithoutAt(s, j);
    var t := s[..j] + s[j + 1..];
    assert ListOf(m'.routes, h) == t;
    RoutesKept(m, m', s[j], t);
    ChainsList(m, h);
    ChainsList(m', h);
    RoutesAround(m, s, j);
  }

  lemma ChainsList(m: Memory, h: nat)
    ensures ChainIn(m, h) == RoutesIn(m, ListOf(m.routes, h))
  {
  }

  lemma RoutesAround(m: Memory, s: seq<nat>, j: nat)
    requires j < |s|
    ensures |RoutesIn(m, s)| == |s| && RoutesIn(m, s[..j] + s[j + 1..]) == RoutesIn(m, s)[..j] + RoutesIn(m, s)[j + 1..]
  {
  }

  /** Dropping binding k of route j of chain h is sound, and takes one reference. */
  lemma DropFacts(m: Memory, h: nat, j: nat, k: nat, hs: Hashes)
    requires Fits(m, hs) && h < NRNUMCHAINS
    requires j < |ListOf(m.routes, h)| && k < |ListOf(m.binds, ListOf(m.routes, h)[j])|
    requires TableOk(TableIn(m), m.refcnt)
    ensures var r := ListOf(m.routes, h)[j];
            var x := ListOf(m.binds, r)[k];
            && r in m.dest && hs.dest(m.dest[r]) == h && x in ListOf(m.binds, r) && x in m.bind
            && h < |TableIn(m)| && TableIn(m)[h] == ChainIn(m, h) && ChainOk(ChainIn(m, h))
            && j < |ChainIn(m, h)| && k < |ChainIn(m, h)[j].binds|
            && ChainOk(Dropped(ChainIn(m, h), j, k))
            && RefsOk(m.refcnt, Elsewhere(TableIn(m), h)
                                + (ChainVias(Dropped(ChainIn(m, h), j, k)) + multiset{m.bind[x].via}))
  {
    var r := ListOf(m.routes, h)[j];
    hide *;
    OnSlots(m, h, hs);
    ChainLength(m, h);
    RouteUnbound(m, r, k, hs);
    RouteFields(m, r);
    GotAround(m.bind, ListOf(m.binds, r), k);
    OneChainSet(m, m, h);
    ChainOfTable(TableIn(m), m.refcnt, h);
    DroppedVias(ChainIn(m, h), j, k);
  }

  /** Without bindings, the last one has just gone. */
  lemma LastBinding(m: Memory, h: nat, j: nat, k: nat, hs: Hashes)
    requires Fits(m, hs) && h < NRNUMCHAINS
    requires j < |ListOf(m.routes, h)| && k < |ListOf(m.binds, ListOf(m.routes, h)[j])|
    requires ChainOk(ChainIn(m, h))
    ensures var r := ListOf(m.routes, h)[j];
            && r in m.dest && r in m.num
            && m.num[r] == |ListOf(m.binds, r)| > 0
            && (m.num[r] == 1 ==> ListOf(m.binds, r)[..k] + ListOf(m.binds, r)[k + 1..] == [])
  {
    var r := ListOf(m.routes, h)[j];
    hide Fits, Hashed, BindsFit, Placed;
    OnSlots(m, h, hs);
    OnRoute(m, r, hs);
    ChainLength(m, h);
    Numbered(ChainIn(m, h), j);
    GotLength(m.bind, ListOf(m.binds, r));
  }

  lemma GotLength(bind: map<nat, Bind>, s: seq<nat>)
    ensures |Got(bind, s)| == |s|
  {
  }

  lemma SameChains(m: Memory, m': Memory)
    requires m'.dest == m.dest && m'.binds == m.binds && m'.bind == m.bind && m'.num == m.num && m'.routes == m.routes
    ensures forall h: nat :: ChainIn(m', h) == ChainIn(m, h)
  {
    SameRoutes(m, m');
    hide RouteIn;
  }

  /** What is left of chain h: m1 is m without the binding, m2 also without the route if that was its last. */
  lemma DropChain(m: Memory, m1: Memory, m2: Memory, h: nat, j: nat, k: nat, hs: Hashes)
    requires Fits(m, hs) && h < NRNUMCHAINS
    requires j < |ListOf(m.routes, h)| && k < |ListOf(m.binds, ListOf(m.routes, h)[j])|
    requires ChainOk(ChainIn(m, h)) && h in m.routes.lists
    requires var r := ListOf(m.routes, h)[j];
             && r in m.dest && r in m.binds.lists && r in m.num && m1 == Unbound(m, r, ListOf(m.binds, r)[k])
             && r in m1.num
             && OthersKept(m1, m2, r) && m2.routes == (if m1.num[r] == 0 then Took(m.routes, h, r) else m.routes)
             && (m1.num[r] != 0 ==> m2 == m1)
    ensures j < |ChainIn(m, h)| && k < |ChainIn(m, h)[j].binds| && ChainIn(m2, h) == Dropped(ChainIn(m, h), j, k)
    ensures forall q: nat :: q < NRNUMCHAINS && q != h ==> ChainIn(m2, q) == ChainIn(m, q)
  {
    var r := ListOf(m.routes, h)[j];
    hide *;
    DropRoute(m, h, j, k, hs);
    RouteUnbound(m, r, k, hs);
    UnboundIs(m, r, ListOf(m.binds, r)[k]);
    DroppedIs(ChainIn(m, h), j, k);
    KeptThrough(m, m1, m2, r);
    if m1.num[r] == 0 {
      ChainGone(m, m2, h, j, hs);
    } else {
      ChainSet(m, m2, h, j, hs);
    }
  }

  lemma DropRoute(m: Memory, h: nat, j: nat, k: nat, hs: Hashes)
    requires Fits(m, hs) && h < NRNUMCHAINS
    requires j < |ListOf(m.routes, h)| && k < |ListOf(m.binds, ListOf(m.routes, h)[j])|
    requires ChainOk(ChainIn(m, h))
    ensures var r, rs := ListOf(m.routes, h)[j], ChainIn(m, h);
            && j < |rs| && k < |rs[j].binds| && r in m.binds.lists && r in m.num
            && var m1 := Unbound(m, r, ListOf(m.binds, r)[k]);
            && var bs := rs[j].binds[..k] + rs[j].binds[k + 1..];
            && r in m1.num && RouteIn(m1, r) == Route(rs[j].dest, |bs|, bs) && (m1.num[r] == 0 <==> bs == [])
  {
    hide *;
    RouteOfList(m, h, j, k, hs);
    RouteUnbound(m, ListOf(m.routes, h)[j], k, hs);
    FitsMeans(m, hs);
    UnboundIs(m, ListOf(m.routes, h)[j], ListOf(m.binds, ListOf(m.routes, h)[j])[k]);
  }

  lemma RouteOfList(m: Memory, h: nat, j: nat, k: nat, hs: Hashes)
    requires Fits(m, hs) && h < NRNUMCHAINS
    requires j < |ListOf(m.routes, h)| && k < |ListOf(m.binds, ListOf(m.routes, h)[j])|
    requires ChainOk(ChainIn(m, h))
    ensures var r, rs := ListOf(m.routes, h)[j], ChainIn(m, h);
            && j < |rs| && rs[j] == RouteIn(m, r) && rs[j].binds == BindsIn(m, r) && k < |rs[j].binds|
            && r in m.dest && r in m.num && m.num[r] == |rs[j].binds|
            && |rs[j].binds[..k] + rs[j].binds[k + 1..]| == |rs[j].binds| - 1
  {
    var r, rs := ListOf(m.routes, h)[j], ChainIn(m, h);
    hide *;
    ChainLength(m, h);
    OnSlots(m, h, hs);
    OnRoute(m, r, hs);
    RouteFields(m, r);
    GotLength(m.bind, ListOf(m.binds, r));
    Numbered(rs, j);
  }

  /** The address of the neighbour at st, 0 if there is none. */
  ghost function Known(station: map<Neighbour, Station>, st: Station): (np: nat)
    ensures st in station.Values ==> np in station && station[np] == st
    ensures st !in station.Values ==> np == 0
  {
    if st in station.Values then
      var n :| n in station && station[n] == st;
      n
    else 0
  }

  lemma OnlyOne(m: Memory, hs: Hashes, np: Neighbour)
    requires Fits(m, hs) && np in m.station
    ensures Known(m.station, m.station[np]) == np != 0
  {
    hide BindsFit, Known;
    assert m.station[np] in m.station.Values;
  }

  // ----- adding -----

  lemma NewRoute(m: Memory, r: nat, d: Dest, hs: Hashes)
    requires Fits(m, hs) && r !in m.dest && hs.dest(d) in m.routes.lists
    ensures var h, m' := hs.dest(d), WithNew(m, r, d, hs);
            && RouteIn(m', r) == Route(d, 0, []) && OthersKept(m, m', r) && r in m'.dest && m'.dest[r] == d
            && ListOf(m'.routes, h) == [r] + ListOf(m.routes, h)
            && (forall k: nat :: k != h ==> ListOf(m'.routes, k) == ListOf(m.routes, k))
  {
    hide Fits, Hashed;
    FitsMeans(m, hs);
  }

  lemma NewChain(m: Memory, r: nat, d: Dest, hs: Hashes)
    requires Fits(m, hs) && r !in m.dest && hs.dest(d) in m.routes.lists
    ensures var h, m' := hs.dest(d), WithNew(m, r, d, hs);
            && ChainIn(m', h) == [Route(d, 0, [])] + ChainIn(m, h)
            && forall k: nat :: k < NRNUMCHAINS && k != h ==> ChainIn(m', k) == ChainIn(m, k)
  {
    var h, m' := hs.dest(d), WithNew(m, r, d, hs);
    hide *;
    NewRoute(m, r, d, hs);
    forall k: nat | k < NRNUMCHAINS && k != h
      ensures ChainIn(m', k) == ChainIn(m, k)
    {
      OnSlots(m, k, hs);
      ChainStays(m, m', h, k, r);
    }
    OnSlots(m, h, hs);
    RoutesKept(m, m', r, ListOf(m.routes, h));
    ChainsList(m, h);
    ChainsList(m', h);
    RoutesSplit(m', [r], ListOf(m.routes, h));
    RoutesFirst(m', [r]);
  }

  lemma NewBinding(m: Memory, r: nat, x: nat, b: Bind, hs: Hashes)
    requires Fits(m, hs) && r in m.dest && x !in m.bind
    ensures r in m.binds.lists && r in m.num
    ensures var m' := WithBind(m, r, x, b);
            && OthersKept(m, m', r) && m'.routes == m.routes && m'.dest == m.dest
            && RouteIn(m', r) == Route(RouteIn(m, r).dest, m.num[r] + 1, [b] + BindsIn(m, r))
            && RouteIn(m, r).numRoutes == m.num[r]
  {
    hide *;
    FitsMeans(m, hs);
    OnRoute(m, r, hs);
    var m' := WithBind(m, r, x, b);
    WithBindLists(m, r, x, b);
    RouteFields(m, r);
    RouteFields(m', r);
    GotWith(m.bind, ListOf(m.binds, r), x, b);
    forall q | q in m.dest && q != r
      ensures RouteIn(m', q) == RouteIn(m, q)
    {
      RouteFields(m, q);
      RouteFields(m', q);
      OnRoute(m, q, hs);
      GotWith(m.bind, ListOf(m.binds, q), x, b);
    }
    KeptWhen(m, m', r);
  }

  lemma KeptWhen(m: Memory, m': Memory, r: nat)
    requires forall q :: q in m.dest && q != r ==> RouteIn(m', q) == RouteIn(m, q)
    ensures OthersKept(m, m', r)
  {
    hide RouteIn;
  }

  lemma WithBindLists(m: Memory, r: nat, x: nat, b: Bind)
    requires r in m.binds.lists && r in m.num && m.dest.Keys == m.num.Keys
    ensures var m' := WithBind(m, r, x, b);
            && m'.routes == m.routes && m'.dest == m.dest && m'.bind == m.bind[x := b] && m'.num.Keys == m.num.Keys
            && ListOf(m'.binds, r) == [x] + ListOf(m.binds, r) && m'.num[r] == m.num[r] + 1
            && forall q :: q in m.dest && q != r ==> ListOf(m'.binds, q) == ListOf(m.binds, q) && m'.num[q] == m.num[q]
  {
  }

  lemma GotWith(bind: map<nat, Bind>, s: seq<nat>, x: nat, b: Bind)
    requires x !in bind && forall y :: y in s ==> y in bind
    ensures Got(bind[x := b], s) == Got(bind, s) && Got(bind[x := b], [x] + s) == [b] + Got(bind, s)
  {
    assert x !in s;
  }

  lemma OldBindingSet(m: Memory, r: nat, k: nat, b: Bind, hs: Hashes)
    requires Fits(m, hs) && r in m.dest && k < |ListOf(m.binds, r)|
    ensures var x := ListOf(m.binds, r)[k];
            var m' := m.(bind := m.bind[x := b]);
            && x in m.bind && OthersKept(m, m', r) && k < |BindsIn(m, r)| && BindsIn(m, r)[k] == m.bind[x]
            && RouteIn(m', r) == RouteIn(m, r).(binds := BindsIn(m, r)[k := b])
  {
    var s := ListOf(m.binds, r);
    var x := s[k];
    var m' := m.(bind := m.bind[x := b]);
    hide *;
    FitsMeans(m, hs);
    OnRoute(m, r, hs);
    OnOneList(m.binds, r, x);
    SetIsChanged(m.bind, x, b);
    OneBindChanged(m, m', r, x, Option.Some(b), hs);
    RouteFields(m, r);
    RouteFields(m', r);
    GotAround(m.bind, s, k);
    GotSetAt(m.bind, s, k, b);
  }

  /** m1 is m with a route to d, m2 is m1 after the offer. */
  lemma Entered(m: Memory, m1: Memory, m2: Memory, h: nat, d: Dest, np: Neighbour, o: Offer, hs: Hashes)
    requires Fits(m1, hs) && h < NRNUMCHAINS && ChainOk(ChainIn(m, h))
    requires ChainIn(m1, h) == WithRoute(ChainIn(m, h), d) && |ListOf(m1.routes, h)| == |ChainIn(m1, h)|
    requires forall k: nat :: k < NRNUMCHAINS && k != h ==> ChainIn(m1, k) == ChainIn(m, k)
    requires FindRoute(ChainIn(m1, h), d) < |ChainIn(m1, h)| && m2.routes == m1.routes
    requires var r := ListOf(m1.routes, h)[FindRoute(ChainIn(m1, h), d)];
             OthersKept(m1, m2, r) && RouteIn(m2, r) == Bound(RouteIn(m1, r), np, o)
    ensures ChainIn(m2, h) == Added(ChainIn(m, h), d, np, o)
    ensures forall k: nat :: k < NRNUMCHAINS && k != h ==> ChainIn(m2, k) == ChainIn(m, k)
    ensures var c := ChainIn(m2, h);
            FindRoute(c, d) == FindRoute(ChainIn(m1, h), d) < |c| == |ListOf(m2.routes, h)|
    ensures var bs := BindsIn(m1, ListOf(m1.routes, h)[FindRoute(ChainIn(m1, h), d)]);
            IsNew(ChainIn(m, h), d, np) <==> FindBind(bs, np) == |bs|
  {
    var j := FindRoute(ChainIn(m1, h), d);
    hide *;
    ChainLength(m1, h);
    RouteBinds(m1, ListOf(m1.routes, h)[j]);
    AddedIs(ChainIn(m, h), d, np, o);
    AddedPlace(ChainIn(m, h), d, np, o);
    ChainSet(m1, m2, h, j, hs);
  }

  /** Route j of chain h, and the neighbours its bindings refer to. */
  lemma PlacedRoute(m: Memory, h: nat, j: nat, hs: Hashes)
    requires Fits(m, hs) && TableOk(TableIn(m), m.refcnt) && h < NRNUMCHAINS && j < |ListOf(m.routes, h)|
    ensures var r := ListOf(m.routes, h)[j];
            && j < |ChainIn(m, h)| && r in m.dest && r in m.num
            && ChainIn(m, h)[j].numRoutes == m.num[r] && ChainIn(m, h)[j].binds == BindsIn(m, r)
            && forall x :: x in ListOf(m.binds, r) ==> x in m.bind && m.bind[x].via in m.station
  {
    var r := ListOf(m.routes, h)[j];
    var s := ListOf(m.binds, r);
    hide *;
    FitsMeans(m, hs);
    OnSlots(m, h, hs);
    ChainLength(m, h);
    OnRoute(m, r, hs);
    RouteFields(m, r);
    OneChainSet(m, m, h);
    forall x | x in s
      ensures x in m.bind && m.bind[x].via in m.station
    {
      var k: nat :| k < |s| && s[k] == x;
      GotAround(m.bind, s, k);
      Referenced(TableIn(m), m.refcnt, h, j, k);
    }
  }

  lemma SetIsChanged(bind: map<nat, Bind>, x: nat, b: Bind)
    ensures Changed(bind, x, Option.Some(b)) == bind[x := b]
  {
  }

  lemma GotSetAt(bind: map<nat, Bind>, s: seq<nat>, k: nat, b: Bind)
    requires Distinct(s) && k < |s|
    ensures |Got(bind, s)| == |s| && Got(bind[s[k] := b], s) == Got(bind, s)[k := b]
  {
    assert forall i :: 0 <= i < |s| && i != k ==> s[i] != s[k];
  }
}
