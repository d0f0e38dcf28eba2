/** Doubly linked lists of nodes in memory. A node is known by its address, 0 is NULL, and each field of
    the nodes is a map from addresses; a node that has been freed is in none of them. */
module Chains {
  import opened Lists

  datatype Links = Links(next: map<nat, nat>, prev: map<nat, nat>)

  function Next(l: Links, x: nat): nat {
    if x in l.next then l.next[x] else 0
  }

  function Prev(l: Links, x: nat): nat {
    if x in l.prev then l.prev[x] else 0
  }

  /** head, next and prev spell out the list s. */
  ghost predicate Chain(l: Links, s: seq<nat>, head: nat) {
    && head == (if s == [] then 0 else s[0]) && Distinct(s) && 0 !in s
    && forall j {:trigger Next(l, s[j])} {:trigger Prev(l, s[j])} :: 0 <= j < |s| ==>
         && s[j] in l.next && s[j] in l.prev
         && Next(l, s[j]) == (if j + 1 < |s| then s[j + 1] else 0)
         && Prev(l, s[j]) == (if j > 0 then s[j - 1] else 0)
  }

  /** x is taken out between its neighbours, and freed. */
  function Unlinked(l: Links, x: nat): Links {
    var n, p := Next(l, x), Prev(l, x);
    Links((if p != 0 then l.next[p := n] else l.next) - {x}, (if n != 0 then l.prev[n := p] else l.prev) - {x})
  }

  function HeadWithout(l: Links, x: nat, head: nat): nat {
    if Prev(l, x) == 0 then Next(l, x) else head
  }

  lemma At(l: Links, s: seq<nat>, head: nat, j: nat)
    requires Chain(l, s, head) && j < |s|
    ensures s[j] in l.next && s[j] in l.prev && s[j] != 0
    ensures Next(l, s[j]) == (if j + 1 < |s| then s[j + 1] else 0)
    ensures Prev(l, s[j]) == (if j > 0 then s[j - 1] else 0)
  {
    assert Next(l, s[j]) == (if j + 1 < |s| then s[j + 1] else 0);
  }

  lemma UnlinkedAt(l: Links, s: seq<nat>, head: nat, j: nat, m: nat)
    requires Chain(l, s, head) && j < |s| && m < |s| && m != j
    ensures var l' := Unlinked(l, s[j]);
            && s[m] in l'.next && s[m] in l'.prev
            && Next(l', s[m]) == (if m + 1 == j then Next(l, s[j]) else Next(l, s[m]))
            && Prev(l', s[m]) == (if m == j + 1 then Prev(l, s[j]) else Prev(l, s[m]))
  {
    At(l, s, head, j);
    At(l, s, head, m);
    assert Distinct(s);
  }

  lemma UnlinkHere(l: Links, s: seq<nat>, head: nat, j: nat)
    requires Chain(l, s, head) && j < |s|
    ensures Chain(Unlinked(l, s[j]), s[..j] + s[j + 1..], HeadWithout(l, s[j], head))
  {
    var t, l' := s[..j] + s[j + 1..], Unlinked(l, s[j]);
    At(l, s, head, j);
    assert Distinct(s) && Distinct(t) && 0 !in t;
    forall k {:trigger t[k]} | 0 <= k < |t|
      ensures t[k] in l'.next && t[k] in l'.prev
      ensures Next(l', t[k]) == (if k + 1 < |t| then t[k + 1] else 0)
      ensures Prev(l', t[k]) == (if k > 0 then t[k - 1] else 0)
    {
      var m := if k < j then k else k + 1;
      assert t[k] == s[m];
      At(l, s, head, m);
      UnlinkedAt(l, s, head, j, m);
      hide *;
    }
    hide Unlinked, Next, Prev, Distinct;
  }

  lemma UnlinkElsewhere(l: Links, s: seq<nat>, head: nat, x: nat)
    requires Chain(l, s, head) && x !in s && Next(l, x) !in s && Prev(l, x) !in s
    ensures Chain(Unlinked(l, x), s, head)
  {
    var l' := Unlinked(l, x);
    forall j {:trigger s[j]} | 0 <= j < |s|
      ensures s[j] in l'.next && s[j] in l'.prev && Next(l', s[j]) == Next(l, s[j]) && Prev(l', s[j]) == Prev(l, s[j])
    {
      At(l, s, head, j);
    }
    hide Unlinked, Next, Prev, Distinct;
  }

  /** x, a new node, is put in front of head. */
  function Pushed(l: Links, x: nat, head: nat): Links {
    Links(l.next[x := head], (if head != 0 then l.prev[head := x] else l.prev)[x := 0])
  }

  lemma PushHere(l: Links, s: seq<nat>, head: nat, x: nat)
    requires Chain(l, s, head) && x != 0 && x !in s
    ensures Chain(Pushed(l, x, head), [x] + s, x)
  {
    var t, l' := [x] + s, Pushed(l, x, head);
    assert Distinct(t) && 0 !in t;
    forall k {:trigger t[k]} | 0 <= k < |t|
      ensures t[k] in l'.next && t[k] in l'.prev
      ensures Next(l', t[k]) == (if k + 1 < |t| then t[k + 1] else 0)
      ensures Prev(l', t[k]) == (if k > 0 then t[k - 1] else 0)
    {
      if k > 0 {
        assert t[k] == s[k - 1];
        At(l, s, head, k - 1);
        assert Distinct(s);
      }
    }
    hide Pushed, Next, Prev, Distinct;
  }

  lemma PushElsewhere(l: Links, s: seq<nat>, head: nat, x: nat, h: nat)
    requires Chain(l, s, head) && x !in s && h !in s
    ensures Chain(Pushed(l, x, h), s, head)
  {
    var l' := Pushed(l, x, h);
    forall j {:trigger s[j]} | 0 <= j < |s|
      ensures s[j] in l'.next && s[j] in l'.prev && Next(l', s[j]) == Next(l, s[j]) && Prev(l', s[j]) == Prev(l, s[j])
    {
      At(l, s, head, j);
    }
    hide Pushed, Next, Prev, Distinct;
  }

  // ----- many lists of nodes of one kind -----

  /** lists are the lists by key, heads their heads, and owner tells on which list a node is. */
  datatype Layout = Layout(links: Links, heads: map<nat, nat>, lists: map<nat, seq<nat>>, owner: map<nat, nat>)

  /** Every list is linked, no node is on two, and there are no other nodes. */
  ghost predicate Ok(f: Layout) {
    && f.heads.Keys == f.lists.Keys
    && (forall k :: k in f.lists ==> Chain(f.links, f.lists[k], f.heads[k]))
    && (forall k, x :: k in f.lists && x in f.lists[k] ==> x in f.owner && f.owner[x] == k)
    && (forall x :: x in f.owner ==> f.owner[x] in f.lists && x in f.lists[f.owner[x]])
    && f.links.next.Keys == f.links.prev.Keys == f.owner.Keys
  }

  ghost function Removed(f: Layout, k: nat, x: nat): Layout
    requires k in f.lists && k in f.heads
  {
    Layout(Unlinked(f.links, x), f.heads[k := HeadWithout(f.links, x, f.heads[k])],
           f.lists[k := Without(f.lists[k], x)], f.owner - {x})
  }

  ghost function Extended(f: Layout, k: nat, x: nat): Layout
    requires k in f.lists && k in f.heads
  {
    Layout(Pushed(f.links, x, f.heads[k]), f.heads[k := x], f.lists[k := [x] + f.lists[k]], f.owner[x := k])
  }

  lemma NeighboursOnList(f: Layout, k: nat, x: nat)
    requires Ok(f) && k in f.lists && x in f.lists[k]
    ensures x in f.links.next && x in f.links.prev && x != 0
    ensures Next(f.links, x) == 0 || Next(f.links, x) in f.lists[k]
    ensures Prev(f.links, x) == 0 || Prev(f.links, x) in f.lists[k]
  {
    var s := f.lists[k];
    var j :| 0 <= j < |s| && s[j] == x;
    At(f.links, s, f.heads[k], j);
  }

  lemma UnlinkedKeys(l: Links, x: nat)
    requires l.next.Keys == l.prev.Keys
    requires (Next(l, x) == 0 || Next(l, x) in l.prev) && (Prev(l, x) == 0 || Prev(l, x) in l.next)
    ensures Unlinked(l, x).next.Keys == Unlinked(l, x).prev.Keys == l.next.Keys - {x}
  {
  }

  lemma OneList(f: Layout, k: nat)
    requires Ok(f) && k in f.lists
    ensures k in f.heads && Chain(f.links, f.lists[k], f.heads[k]) && Distinct(f.lists[k]) && 0 !in f.lists[k]
    ensures f.heads[k] == if f.lists[k] == [] then 0 else f.lists[k][0]
    ensures forall x :: x in f.lists[k] ==> x in f.owner && f.owner[x] == k
  {
  }

  lemma TwoLists(f: Layout, k: nat, m: nat)
    requires Ok(f) && k in f.lists && m in f.lists && k != m
    ensures forall x :: x in f.lists[m] ==> x !in f.lists[k]
  {
    OneList(f, k);
    OneList(f, m);
    hide *;
  }

  lemma RemovedIs(f: Layout, k: nat, x: nat)
    requires k in f.lists && k in f.heads
    ensures var g := Removed(f, k, x);
            && g.links == Unlinked(f.links, x) && g.owner == f.owner - {x}
            && g.lists == f.lists[k := Without(f.lists[k], x)]
            && g.heads == f.heads[k := HeadWithout(f.links, x, f.heads[k])]
  {
  }

  lemma RemoveList(f: Layout, k: nat, x: nat, m: nat)
    requires Ok(f) && k in f.lists && x in f.lists[k] && m in f.lists
    ensures k in f.heads
    ensures var g := Removed(f, k, x); m in g.lists && m in g.heads && Chain(g.links, g.lists[m], g.heads[m])
  {
    hide *;
    OneList(f, k);
    OneList(f, m);
    RemovedIs(f, k, x);
    NeighboursOnList(f, k, x);
    if m == k {
      var s := f.lists[k];
      var j: nat :| j < |s| && s[j] == x;
      WithoutAt(s, j);
      UnlinkHere(f.links, s, f.heads[k], j);
    } else {
      TwoLists(f, k, m);
      UnlinkElsewhere(f.links, f.lists[m], f.heads[m], x);
    }
  }

  lemma KeysOf(f: Layout)
    requires Ok(f)
    ensures f.links.next.Keys == f.links.prev.Keys == f.owner.Keys && f.heads.Keys == f.lists.Keys
    ensures forall x :: x in f.owner ==> f.owner[x] in f.lists && x in f.lists[f.owner[x]]
  {
  }

  lemma IsOk(f: Layout)
    requires f.heads.Keys == f.lists.Keys
    requires forall k :: k in f.lists ==> Chain(f.links, f.lists[k], f.heads[k])
    requires forall k :: k in f.lists ==> forall x :: x in f.lists[k] ==> x in f.owner && f.owner[x] == k
    requires forall x :: x in f.owner ==> f.owner[x] in f.lists && x in f.lists[f.owner[x]]
    requires f.links.next.Keys == f.links.prev.Keys == f.owner.Keys
    ensures Ok(f)
  {
  }

  lemma RemoveKeepsOk(f: Layout, k: nat, x: nat)
    requires Ok(f) && k in f.lists && x in f.lists[k]
    ensures k in f.heads && Ok(Removed(f, k, x))
  {
    hide *;
    OneList(f, k);
    RemovedIs(f, k, x);
    KeysOf(f);
    var g, s := Removed(f, k, x), f.lists[k];
    WithoutMembers(s, x);
    NeighboursOnList(f, k, x);
    UnlinkedKeys(f.links, x);
    forall m | m in g.lists
      ensures Chain(g.links, g.lists[m], g.heads[m])
      ensures forall y :: y in g.lists[m] ==> y in g.owner && g.owner[y] == m
    {
      RemoveList(f, k, x, m);
      OneList(f, m);
      if m != k {
        TwoLists(f, k, m);
      }
    }
    IsOk(g);
  }

  lemma ExtendedIs(f: Layout, k: nat, x: nat)
    requires k in f.lists && k in f.heads
    ensures var g := Extended(f, k, x);
            && g.links == Pushed(f.links, x, f.heads[k]) && g.owner == f.owner[x := k]
            && g.lists == f.lists[k := [x] + f.lists[k]] && g.heads == f.heads[k := x]
  {
  }

  lemma PushedKeys(l: Links, x: nat, head: nat)
    requires l.next.Keys == l.prev.Keys && (head == 0 || head in l.prev)
    ensures Pushed(l, x, head).next.Keys == Pushed(l, x, head).prev.Keys == l.next.Keys + {x}
  {
  }

  lemma AddList(f: Layout, k: nat, x: nat, m: nat)
    requires Ok(f) && k in f.lists && x != 0 && x !in f.owner && m in f.lists
    ensures k in f.heads
    ensures var g := Extended(f, k, x); m in g.lists && m in g.heads && Chain(g.links, g.lists[m], g.heads[m])
  {
    hide *;
    OneList(f, k);
    OneList(f, m);
    ExtendedIs(f, k, x);
    if m == k {
      PushHere(f.links, f.lists[k], f.heads[k], x);
    } else {
      TwoLists(f, k, m);
      PushElsewhere(f.links, f.lists[m], f.heads[m], x, f.heads[k]);
    }
  }

  lemma AddKeepsOk(f: Layout, k: nat, x: nat)
    requires Ok(f) && k in f.lists && x != 0 && x !in f.owner
    ensures k in f.heads && Ok(Extended(f, k, x))
  {
    hide *;
    OneList(f, k);
    ExtendedIs(f, k, x);
    KeysOf(f);
    var g := Extended(f, k, x);
    PushedKeys(f.links, x, f.heads[k]);
    forall m | m in g.lists
      ensures Chain(g.links, g.lists[m], g.heads[m])
      ensures forall y :: y in g.lists[m] ==> y in g.owner && g.owner[y] == m
    {
      AddList(f, k, x, m);
      OneList(f, m);
    }
    IsOk(g);
  }

  lemma NewListIsOk(f: Layout, k: nat)
    requires Ok(f) && k !in f.lists
    ensures Ok(f.(lists := f.lists[k := []], heads := f.heads[k := 0]))
  {
    hide *;
    KeysOf(f);
    var g := f.(lists := f.lists[k := []], heads := f.heads[k := 0]);
    forall m | m in g.lists
      ensures Chain(g.links, g.lists[m], g.heads[m])
      ensures forall y :: y in g.lists[m] ==> y in g.owner && g.owner[y] == m
    {
      NoChain(g.links);
      if m != k {
        OneList(f, m);
      }
    }
    IsOk(g);
  }

  lemma NoChain(l: Links)
    ensures Chain(l, [], 0)
  {
  }

  lemma OldListIsOk(f: Layout, k: nat)
    requires Ok(f) && k in f.lists && f.lists[k] == []
    ensures Ok(f.(lists := f.lists - {k}, heads := f.heads - {k}))
  {
    hide *;
    KeysOf(f);
    var g := f.(lists := f.lists - {k}, heads := f.heads - {k});
    forall m | m in g.lists
      ensures Chain(g.links, g.lists[m], g.heads[m])
      ensures forall y :: y in g.lists[m] ==> y in g.owner && g.owner[y] == m
    {
      OneList(f, m);
    }
    IsOk(g);
  }

  function First(s: seq<nat>): nat {
    if s == [] then 0 else s[0]
  }

  lemma FirstIs(s: seq<nat>)
    ensures First(s) == if s == [] then 0 else s[0]
  {
  }

  /** A walk along list k has come to node x, with rest still to come. */
  lemma OnTheWay(f: Layout, k: nat, past: seq<nat>, rest: seq<nat>)
    requires Ok(f) && k in f.lists && f.lists[k] == past + rest
    ensures k in f.heads && Distinct(past + rest)
    ensures past == [] ==> f.heads[k] == if rest == [] then 0 else rest[0]
    ensures rest != [] ==>
              && rest[0] != 0 && rest[0] in f.lists[k] && rest[0] in f.links.next && rest[0] in f.links.prev
              && f.links.next[rest[0]] == (if |rest| > 1 then rest[1] else 0)
              && rest[0] !in past && rest[0] !in rest[1..]
              && Without(past + rest, rest[0]) == past + rest[1..]
              && past + rest == past + [rest[0]] + rest[1..]
  {
    hide *;
    var s := f.lists[k];
    OneList(f, k);
    if rest != [] {
      var j := |past|;
      At(f.links, s, f.heads[k], j);
      NextIs(f.links, s[j]);
      WithoutAt(s, j);
      Split(past, rest);
    }
  }

  lemma NextIs(l: Links, x: nat)
    requires x in l.next
    ensures Next(l, x) == l.next[x]
  {
  }

  lemma Split(past: seq<nat>, rest: seq<nat>)
    requires Distinct(past + rest) && rest != []
    ensures var s, j := past + rest, |past|;
            && s[j] == rest[0] && s[..j] == past && s[j + 1..] == rest[1..] && s == past + [rest[0]] + rest[1..]
            && rest[0] in s && rest[0] !in past && rest[0] !in rest[1..] && (|rest| > 1 ==> s[j + 1] == rest[1])
  {
    var s, j := past + rest, |past|;
    assert forall i :: 0 <= i < j ==> s[i] == past[i];
    assert forall i :: 0 <= i < |rest| ==> s[j + i] == rest[i];
    assert forall i :: 0 <= i < |rest| - 1 ==> rest[1..][i] == s[j + 1 + i];
  }

  // ----- the lists without the links -----

  datatype Family = Family(lists: map<nat, seq<nat>>, owner: map<nat, nat>)

  /** The nodes are those of the lists, each on one list and once. */
  ghost predicate Placed(f: Family) {
    && (forall k :: k in f.lists ==> Distinct(f.lists[k]) && 0 !in f.lists[k])
    && (forall k, x :: k in f.lists && x in f.lists[k] ==> x in f.owner && f.owner[x] == k)
    && (forall x :: x in f.owner ==> f.owner[x] in f.lists && x in f.lists[f.owner[x]])
  }

  /** x, of list k, is freed. */
  ghost function Took(f: Family, k: nat, x: nat): Family
    requires k in f.lists
  {
    Family(f.lists[k := Without(f.lists[k], x)], f.owner - {x})
  }

  lemma TookIs(f: Family, k: nat, x: nat)
    requires k in f.lists
    ensures Took(f, k, x) == Family(f.lists[k := Without(f.lists[k], x)], f.owner - {x})
  {
  }

  lemma TookIsPlaced(f: Family, k: nat, x: nat)
    requires Placed(f) && k in f.lists && x in f.lists[k]
    ensures Placed(Took(f, k, x))
  {
    var g := Took(f, k, x);
    WithoutMembers(f.lists[k], x);
    hide Without, Distinct;
    forall l, y | l in g.lists && y in g.lists[l]
      ensures y in g.owner && g.owner[y] == l
    {
      assert l in f.lists && y in f.lists[l];
      assert f.owner[y] == l && f.owner[x] == k && y != x;
    }
    forall y | y in g.owner
      ensures g.owner[y] in g.lists && y in g.lists[g.owner[y]]
    {
      assert y in f.lists[f.owner[y]];
    }
  }

  /** x is new on list k. */
  ghost function Gave(f: Family, k: nat, x: nat): Family
    requires k in f.lists
  {
    Family(f.lists[k := [x] + f.lists[k]], f.owner[x := k])
  }

  lemma GaveIs(f: Family, k: nat, x: nat)
    requires k in f.lists
    ensures Gave(f, k, x) == Family(f.lists[k := [x] + f.lists[k]], f.owner[x := k])
  {
  }

  lemma GaveIsPlaced(f: Family, k: nat, x: nat)
    requires Placed(f) && k in f.lists && x !in f.owner && x != 0
    ensures Placed(Gave(f, k, x))
  {
    var s := f.lists[k];
    assert x !in s;
    assert Distinct([x] + s) && 0 !in [x] + s;
  }

  lemma ListIsPlaced(f: Family, k: nat)
    requires Placed(f) && k !in f.lists
    ensures Placed(Family(f.lists[k := []], f.owner))
  {
    hide Distinct;
    assert Distinct<nat>([]) by {
      NoneTwice();
    }
  }

  lemma NoneTwice()
    ensures Distinct<nat>([])
  {
  }

  lemma NoListIsPlaced(f: Family, k: nat)
    requires Placed(f) && k in f.lists && f.lists[k] == []
    ensures Placed(Family(f.lists - {k}, f.owner))
  {
    hide Distinct;
  }

  lemma OnOneList(f: Family, k: nat, x: nat)
    requires Placed(f) && k in f.lists && x in f.lists[k]
    ensures x != 0 && x in f.owner && f.owner[x] == k && Distinct(f.lists[k])
    ensures forall m :: m in f.lists && m != k ==> x !in f.lists[m]
  {
  }

  /** The nodes of one kind: their next and prev fields, and the variables that hold the lists' heads. */
  class Nodes {
    var next: map<nat, nat>
    var prev: map<nat, nat>
    var heads: map<nat, nat>
    ghost var lists: map<nat, seq<nat>>
    ghost var owner: map<nat, nat>

    constructor (keys: set<nat>)
      ensures Valid() && lists == (map k | k in keys :: []) && owner == map[]
    {
      next, prev, heads := map[], map[], map k | k in keys :: 0;
      lists, owner := map k | k in keys :: [], map[];
    }

    ghost function Now(): Layout
      reads this
    {
      Layout(Links(next, prev), heads, lists, owner)
    }

    ghost predicate Valid()
      reads this
    {
      Ok(Now())
    }

    ghost function All(): Family
      reads this
    {
      Family(lists, owner)
    }

    lemma NowIs()
      ensures All() == Family(lists, owner)
      ensures Now() == Layout(Links(next, prev), heads, lists, owner)
      ensures Valid() <==> Ok(Now())
    {
    }

    /** A walk along list k has come to rest. */
    lemma Walk(k: nat, past: seq<nat>, rest: seq<nat>)
      requires Valid() && k in lists && lists[k] == past + rest
      ensures k in heads && (past == [] ==> heads[k] == First(rest))
      ensures rest != [] ==>
                && First(rest) == rest[0] != 0 && rest[0] in lists[k] && rest[0] in next && rest[0] in owner
                && owner[rest[0]] == k && next[rest[0]] == First(rest[1..])
                && rest[0] !in past && rest[0] !in rest[1..]
                && Without(lists[k], rest[0]) == past + rest[1..] && lists[k] == past + [rest[0]] + rest[1..]
    {
      hide Chain, Distinct, Ok, Without;
      OnTheWay(Now(), k, past, rest);
      OneList(Now(), k);
    }

    /** x is unlinked from list k and freed. */
    method Unlink(k: nat, x: nat)
      requires Valid() && k in lists && x in lists[k]
      modifies this
      ensures Valid() && k in old(All()).lists && All() == Took(old(All()), k, x)
    {
      ghost var f, all := Now(), All();
      hide *;
      NowIs();
      TookIs(all, k, x);
      OneList(f, k);
      RemoveKeepsOk(f, k, x);
      RemovedIs(f, k, x);
      NeighboursOnList(f, k, x);
      UnlinkedIs(f.links, x, f.heads[k]);
      var n, p := next[x], prev[x];
      if n != 0 {
        prev := prev[n := p];
      }
      if p != 0 {
        next := next[p := n];
      } else {
        heads := heads[k := n];
      }
      next, prev := next - {x}, prev - {x};
      lists, owner := lists[k := Without(lists[k], x)], owner - {x};
      assert heads == f.heads[k := HeadWithout(f.links, x, f.heads[k])];
      NowIs();
    }

    static lemma UnlinkedIs(l: Links, x: nat, head: nat)
      requires x in l.next && x in l.prev
      ensures var n, p := l.next[x], l.prev[x];
              && Unlinked(l, x) == Links((if p != 0 then l.next[p := n] else l.next) - {x},
                                         (if n != 0 then l.prev[n := p] else l.prev) - {x})
              && HeadWithout(l, x, head) == if p == 0 then n else head
    {
    }

    /** A new node at address x, in front of list k. */
    method Push(k: nat, x: nat)
      requires Valid() && k in lists && x != 0 && x !in owner
      modifies this
      ensures Valid() && k in old(All()).lists && All() == Gave(old(All()), k, x)
    {
      ghost var f, all := Now(), All();
      hide *;
      NowIs();
      GaveIs(all, k, x);
      OneList(f, k);
      AddKeepsOk(f, k, x);
      ExtendedIs(f, k, x);
      PushedIs(f.links, x, f.heads[k]);
      var n := heads[k];
      next := next[x := n];
      if n != 0 {
        prev := prev[n := x];
      }
      prev := prev[x := 0];
      heads := heads[k := x];
      lists, owner := lists[k := [x] + lists[k]], owner[x := k];
      NowIs();
    }

    static lemma PushedIs(l: Links, x: nat, head: nat)
      ensures Pushed(l, x, head) == Links(l.next[x := head], (if head != 0 then l.prev[head := x] else l.prev)[x := 0])
    {
    }

    /** A variable for another list. */
    method NewList(k: nat)
      requires Valid() && k !in lists
      modifies this
      ensures Valid() && All() == Family(old(lists)[k := []], old(owner))
    {
      ghost var f := Now();
      hide *;
      NowIs();
      NewListIsOk(f, k);
      heads := heads[k := 0];
      lists := lists[k := []];
      NowIs();
    }

    /** The variable of an empty list is freed. */
    method FreeList(k: nat)
      requires Valid() && k in lists && lists[k] == []
      modifies this
      ensures Valid() && All() == Family(old(lists) - {k}, old(owner))
    {
      ghost var f := Now();
      hide *;
      NowIs();
      OldListIsOk(f, k);
      heads := heads - {k};
      lists := lists - {k};
      NowIs();
    }
  }
}
