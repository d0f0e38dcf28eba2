/** The ring in which ksignal leaves signals while interrupts are off. */
module KernelSignals {
  import opened Common
  import opened Lists
  import opened Modular
  import opened KernelSpec

  const SIGQSIZE: nat := 200

  /** The queued signals, oldest first, and the static lastevent of ksignal. */
  datatype Pending = Pending(sigs: seq<Signal>, last: nat)

  /** ksignal at interrupt level: a repetition of the newest event is dropped, and so is anything
      that finds the ring full. */
  ghost function Queued(p: Pending, s: Signal): Pending {
    if (s.event == p.last && p.sigs != []) || |p.sigs| == SIGQSIZE then p
    else Pending(p.sigs + [s], s.event)
  }

  ghost function QueuedAll(p: Pending, batch: seq<Signal>): Pending
    decreases |batch|
  {
    if batch == [] then p else QueuedAll(Queued(p, batch[0]), batch[1..])
  }

  /** At most 200 signals, no two in a row for the same event, and last is the newest one's. */
  ghost predicate Orderly(p: Pending) {
    && |p.sigs| <= 200 && (p.sigs != [] ==> p.last == p.sigs[|p.sigs| - 1].event)
    && forall i :: 0 < i < |p.sigs| ==> p.sigs[i - 1].event != p.sigs[i].event
  }

  ghost predicate Announces(sigs: seq<Signal>, e: nat) {
    exists i :: 0 <= i < |sigs| && sigs[i].event == e
  }

  /** What was queued stays, in order; as long as there is room, every event that was signalled is announced; and an
      event other than the newest one's gets an entry of its own. */
  lemma {:induction false} NothingIsLost(p: Pending, batch: seq<Signal>)
    requires Orderly(p)
    ensures var r := QueuedAll(p, batch);
            && Orderly(r) && p.sigs <= r.sigs
            && (|r.sigs| < 200 ==> forall i :: 0 <= i < |batch| ==> Announces(r.sigs, batch[i].event))
            && (batch != [] && |p.sigs| < 200 && (p.sigs == [] || batch[0].event != p.last) ==>
                  |r.sigs| > |p.sigs| && r.sigs[|p.sigs|] == batch[0])
    decreases |batch|
  {
    if batch != [] {
      var q, r := Queued(p, batch[0]), QueuedAll(p, batch);
      OneQueued(p, batch[0]);
      NothingIsLost(q, batch[1..]);
      hide Queued, Orderly, QueuedAll;
      if |r.sigs| < 200 {
        var i :| 0 <= i < |q.sigs| && q.sigs[i].event == batch[0].event;
        assert r.sigs[i] == q.sigs[i];
        assert Announces(r.sigs, batch[0].event);
        forall i | 0 <= i < |batch|
          ensures Announces(r.sigs, batch[i].event)
        {
          if i > 0 {
            assert batch[i] == batch[1..][i - 1];
          }
        }
      }
    }
  }

  lemma OneQueued(p: Pending, s: Signal)
    requires Orderly(p)
    ensures var q := Queued(p, s);
            && Orderly(q) && p.sigs <= q.sigs && (|q.sigs| < 200 ==> Announces(q.sigs, s.event))
            && (|p.sigs| < 200 && (p.sigs == [] || s.event != p.last) ==> q.sigs == p.sigs + [s])
  {
    var q := Queued(p, s);
    if q != p {
      assert q.sigs[|p.sigs|] == s;
    } else if |p.sigs| < 200 {
      assert p.sigs[|p.sigs| - 1].event == s.event;
    }
  }

  class SignalRing {
    const entry: array<Signal>
    var wp: nat
    var rp: nat
    var nentries: nat
    var lastevent: nat
    ghost var sigs: seq<Signal>

    constructor ()
      ensures Valid() && fresh(entry) && Contents() == Pending([], 0)
    {
      entry := new Signal[SIGQSIZE](_ => Signal(0, 0));
      wp, rp, nentries, lastevent, sigs := 0, 0, 0, 0, [];
    }

    ghost predicate Valid()
      reads this, entry
    {
      && entry.Length == SIGQSIZE && rp < SIGQSIZE
      && nentries == |sigs| <= SIGQSIZE && wp == Place(rp, nentries, SIGQSIZE)
      && forall j :: 0 <= j < |sigs| ==> entry[Place(rp, j, SIGQSIZE)] == sigs[j]
    }

    ghost function Contents(): Pending
      reads this`sigs, this`lastevent
    {
      Pending(sigs, lastevent)
    }

    /** ksignal with interrupts off. */
    method Put(event: nat, n: nat)
      requires Valid()
      modifies this, entry
      ensures Valid() && Contents() == Queued(old(Contents()), Signal(event, n))
    {
      if event == lastevent && nentries != 0 {
        return;
      }
      if nentries == SIGQSIZE {
        return;
      }
      lastevent := event;
      entry[wp] := Signal(event, n);
      wp := wp + 1;
      if wp >= SIGQSIZE {
        wp := 0;
      }
      nentries := nentries + 1;
      sigs := sigs + [Signal(event, n)];
    }

    /** One turn of procsigs up to its call of ksig: claim an entry and read it. */
    method Take() returns (s: Signal)
      requires Valid() && nentries != 0
      modifies this
      ensures Valid() && old(sigs) == [s] + sigs && lastevent == old(lastevent)
    {
      nentries := nentries - 1;
      s := entry[rp];
      rp := rp + 1;
      if rp >= SIGQSIZE {
        rp := 0;
      }
      ghost var rest := sigs[1..];
      assert s == entry[Place(old(rp), 0, SIGQSIZE)];
      assert forall j :: 0 <= j < |rest| ==> Place(rp, j, SIGQSIZE) == Place(old(rp), j + 1, SIGQSIZE);
      sigs := rest;
    }

    /** The interrupts of one giveup. */
    method Interrupts(batch: seq<Signal>)
      requires Valid()
      modifies this, entry
      ensures Valid() && Contents() == QueuedAll(old(Contents()), batch)
    {
      for i := 0 to |batch|
        invariant Valid() && QueuedAll(Contents(), batch[i..]) == QueuedAll(old(Contents()), batch)
      {
        hide Valid, Queued;
        assert batch[i..][1..] == batch[i + 1..];
        Put(batch[i].event, batch[i].n);
      }
    }
  }
}

/** The process tables, the signal ring and the calls of core/kernel.c, updating descriptors in place. */
module Kernel {
  import opened Common
  import opened Lists
  import opened KernelSpec
  import opened KernelCalls
  import opened KernelLinks
  import opened KernelScan
  import opened KernelSignals

  class Tables {
    var rdytab: Proc?
    var susptab: Proc?
    const waittab: array<Proc?>

    var curproc: Proc

    ghost var procs: set<Proc>
    ghost var q: seq<seq<Proc>>
    ghost var parked: bool      // kwait has queued Curproc and not yet chosen the next process

    ghost function Heads(): seq<Proc?>
      reads this`rdytab, this`susptab, waittab
    {
      [rdytab, susptab] + waittab[..]
    }

    static ghost function NextOf(ps: set<Proc>): map<Proc, Proc?>
      reads ps`next
    {
      map p | p in ps :: p.next
    }

    static ghost function PrevOf(ps: set<Proc>): map<Proc, Proc?>
      reads ps`prev
    {
      map p | p in ps :: p.prev
    }

    static ghost function InfoOf(ps: set<Proc>): map<Proc, Info>
      reads ps`suspend, ps`waiting, ps`event, ps`retval
    {
      map p | p in ps :: p.Snapshot()
    }

    ghost function AllLinks(): Links
      reads this`rdytab, this`susptab, this`procs, waittab, procs`next, procs`prev
    {
      Links(NextOf(procs), PrevOf(procs), Heads())
    }

    ghost function Infos(): map<Proc, Info>
      reads this`procs, procs`suspend, procs`waiting, procs`event, procs`retval
    {
      InfoOf(procs)
    }

    /** The heads and links spell out q, and everybody in q is where he belongs. */
    ghost predicate Ordered()
      reads this`rdytab, this`susptab, this`procs, this`q, waittab, procs
    {
      && waittab.Length == PHASH
      && Chains(AllLinks(), q)
      && Seats(q, Infos())
    }

    /** mainproc: the caller becomes the first, running, process. */
    constructor ()
      ensures Valid() && Abs() == Initial(curproc)
      ensures fresh(waittab) && fresh(procs)
    {
      var main := new Proc();
      curproc, rdytab, susptab := main, null, null;
      waittab := new Proc?[PHASH](_ => null);
      procs, q, parked := {main}, seq(NQUEUES, _ => []), false;
      new;
      InitialState(q, main, AllLinks());
      assert Infos() == map[main := NEW_PROC];
      hide *;
      StillOrdered(Infos());
      StillValid(Initial<Proc>(main));
    }

    ghost function Cur(): Option<Proc>
      reads this`curproc, this`parked
    {
      if parked then None else Some(curproc)
    }

    /** The state of KernelSpec that the tables stand for. */
    ghost function Abs(): State<Proc>
      reads this`curproc, this`parked, this`q, this`procs, procs`suspend, procs`waiting, procs`event, procs`retval
    {
      State(Cur(), q, Infos())
    }

    ghost function StateOf(main: Proc, q: seq<seq<Proc>>): State<Proc> {
      State(Some(main), q, map[main := NEW_PROC])
    }

    lemma InitialState(q: seq<seq<Proc>>, main: Proc, l: Links)
      requires q == seq(NQUEUES, _ => [])
      requires |l.head| == NQUEUES && forall i :: 0 <= i < NQUEUES ==> l.head[i] == null
      ensures Chains(l, q) && Seats(q, map[main := NEW_PROC])
      ensures Initial<Proc>(main) == StateOf(main, q) && Inv(Initial<Proc>(main))
    {
      forall i | 0 <= i < NQUEUES
        ensures QueueOk(Initial<Proc>(main).q[i], i, Some(main), Initial<Proc>(main).info)
        ensures Linked(l, q[i], l.head[i]) && Seated(q[i], i, map[main := NEW_PROC])
      {
        assert q[i] == [] && Initial<Proc>(main).q[i] == [];
      }
      assert q == Initial<Proc>(main).q;
    }

    ghost predicate Valid()
      reads this, waittab, procs
    {
      Ordered() && curproc in procs && Inv(Abs())
    }

    method SetNextOf(p: Proc, v: Proc?)
      requires p in procs
      modifies p`next
      ensures p.next == v && AllLinks() == SetNext(old(AllLinks()), p, v)
    {
      p.next := v;
    }

    method SetPrevOf(p: Proc, v: Proc?)
      requires p in procs
      modifies p`prev
      ensures p.prev == v && AllLinks() == SetPrev(old(AllLinks()), p, v)
    {
      p.prev := v;
    }

    /** *head = v, for the list that the flags of p select. */
    method SetHeadFor(p: Proc, v: Proc?)
      requires waittab.Length == PHASH
      modifies this`rdytab, this`susptab, waittab
      ensures AllLinks() == SetHead(old(AllLinks()), Home(p.Snapshot()), v)
    {
      if p.suspend {
        susptab := v;
      } else if p.waiting {
        waittab[Phash(p.event)] := v;
      } else {
        rdytab := v;
      }
    }

    lemma LinksOf(p: Proc)
      requires p in procs
      ensures Next(AllLinks(), p) == p.next && Prev(AllLinks(), p) == p.prev
    {
    }

    /** The assignments of delproc. */
    method Relink(entry: Proc)
      requires waittab.Length == PHASH && entry in procs
      requires entry.next == null || entry.next in procs
      requires entry.prev == null || entry.prev in procs
      modifies this`rdytab, this`susptab, waittab, procs`next, procs`prev
      ensures AllLinks() == Unlinked(old(AllLinks()), entry, Home(entry.Snapshot()))
    {
      hide AllLinks;
      LinksOf(entry);
      if entry.next != null {
        SetPrevOf(entry.next, entry.prev);
      }
      if entry.prev != null {
        SetNextOf(entry.prev, entry.next);
      } else {
        SetHeadFor(entry, entry.next);
      }
    }

    /** The last process of the list p starts; addproc finds it by walking. */
    method LastOf(p: Proc, ghost s: seq<Proc>, ghost l: Links)
      returns (last: Proc)
      requires l == AllLinks() && Linked(l, s, p) && s != [] && forall x :: x in s ==> x in procs
      ensures last == s[|s| - 1]
    {
      last := p;
      ghost var j := 0;
      while last.next != null
        invariant j < |s| && s[j] == last
        decreases |s| - j
      {
        LinksOf(last);
        assert Next(l, s[j]) == if j + 1 < |s| then s[j + 1] else null;
        last := last.next;
        j := j + 1;
      }
      LinksOf(last);
      assert Next(l, s[j]) == null;
    }

    /** The assignments of addproc. */
    method Append(entry: Proc, ghost s: seq<Proc>)
      requires waittab.Length == PHASH && entry in procs && entry !in s
      requires Linked(AllLinks(), s, Heads()[Home(entry.Snapshot())])
      requires forall x :: x in s ==> x in procs
      modifies this`rdytab, this`susptab, waittab, procs`next, procs`prev
      ensures AllLinks() == Appended(old(AllLinks()), entry, Last(s), Home(entry.Snapshot()))
    {
      var head := if entry.suspend then susptab else if entry.waiting then waittab[Phash(entry.event)] else rdytab;
      assert head == Heads()[Home(entry.Snapshot())];
      var last: Proc? := null;
      if head != null {
        last := LastOf(head, s, AllLinks());
      }
      hide AllLinks, Heads, Linked, Home;
      SetNextOf(entry, null);
      SetPrevOf(entry, last);
      if last == null {
        SetHeadFor(entry, entry);
      } else {
        SetNextOf(last, entry);
      }
    }

    /** delproc: unlink entry from the queue its flags select. */
    method Delproc(entry: Proc)
      requires Ordered() && entry in procs && entry in q[Home(entry.Snapshot())]
      modifies this`rdytab, this`susptab, this`q, waittab, procs`next, procs`prev
      ensures Ordered() && OnNone(q, entry)
      ensures var h := Home(entry.Snapshot()); q == old(q)[h := Without(old(q[h]), entry)]
    {
      hide *;
      CanUnlink(entry);
      ghost var h, info := Home(entry.Snapshot()), Infos();
      Relink(entry);
      q := q[h := Without(q[h], entry)];
      StillOrdered(info);
    }

    lemma CanUnlink(entry: Proc)
      requires Ordered() && entry in procs && entry in q[Home(entry.Snapshot())]
      ensures waittab.Length == PHASH && |q| == NQUEUES
      ensures entry.next == null || entry.next in procs
      ensures entry.prev == null || entry.prev in procs
      ensures var h := Home(entry.Snapshot());
              var q' := q[h := Without(q[h], entry)];
              Chains(Unlinked(AllLinks(), entry, h), q') && Seats(q', Infos()) && OnNone(q', entry)
    {
      assert Infos()[entry] == entry.Snapshot();
      NeighboursKnown(entry);
      hide AllLinks, Without, Unlinked;
      UnlinkKeepsOrder(AllLinks(), q, Infos(), entry);
    }

    lemma StillOrdered(info: map<Proc, Info>)
      requires waittab.Length == PHASH && Chains(AllLinks(), q) && Seats(q, info) && info == Infos()
      ensures Ordered()
    {
    }

    lemma NeighboursKnown(entry: Proc)
      requires Ordered() && entry in procs && entry in q[Home(entry.Snapshot())]
      ensures entry.next == null || entry.next in procs
      ensures entry.prev == null || entry.prev in procs
    {
      var h := Home(entry.Snapshot());
      assert Linked(AllLinks(), q[h], AllLinks().head[h]) && Seated(q[h], h, Infos());
      hide Linked, AllLinks;
      Neighbours(AllLinks(), q[h], entry, AllLinks().head[h]);
      LinksOf(entry);
    }

    /** addproc: append entry to the queue its flags select. */
    method Addproc(entry: Proc)
      requires Ordered() && entry in procs && OnNone(q, entry)
      modifies this`rdytab, this`susptab, this`q, waittab, procs`next, procs`prev
      ensures Ordered()
      ensures var h := Home(entry.Snapshot()); q == old(q)[h := old(q[h]) + [entry]]
    {
      hide *;
      CanAppend(entry);
      ghost var h, info := Home(entry.Snapshot()), Infos();
      Append(entry, q[h]);
      q := q[h := q[h] + [entry]];
      StillOrdered(info);
    }

    lemma CanAppend(entry: Proc)
      requires Ordered() && entry in procs && OnNone(q, entry)
      ensures waittab.Length == PHASH && |q| == NQUEUES
      ensures var h := Home(entry.Snapshot());
              && Linked(AllLinks(), q[h], Heads()[h]) && entry !in q[h]
              && (forall x :: x in q[h] ==> x in procs)
              && var q' := q[h := q[h] + [entry]];
                 Chains(Appended(AllLinks(), entry, Last(q[h]), h), q') && Seats(q', Infos())
    {
      var h := Home(entry.Snapshot());
      assert Infos()[entry] == entry.Snapshot();
      assert Linked(AllLinks(), q[h], Heads()[h]) && Seated(q[h], h, Infos());
      hide AllLinks, Appended;
      AppendKeepsOrder(AllLinks(), q, Infos(), entry);
    }

    method SetFlags(p: Proc, i: Info)
      requires p in procs
      modifies p`suspend, p`waiting, p`event, p`retval
      ensures p.Snapshot() == i && Infos() == old(Infos())[p := i]
    {
      p.suspend, p.waiting, p.event, p.retval := i.suspend, i.waiting, i.event, i.retval;
    }

    /** Assign the flags, event and return value of p, which is on no queue. */
    method Reflag(p: Proc, i: Info)
      requires Ordered() && p in procs && OnNone(q, p)
      modifies p`suspend, p`waiting, p`event, p`retval
      ensures Ordered() && p.Snapshot() == i && Infos() == old(Infos())[p := i]
    {
      hide *;
      CanReflag(p, i);
      ghost var l := AllLinks();
      SetFlags(p, i);
      assert AllLinks() == l;
      StillOrdered(Infos());
    }

    lemma CanReflag(p: Proc, i: Info)
      requires Ordered() && p in procs && OnNone(q, p)
      ensures waittab.Length == PHASH && Chains(AllLinks(), q) && Seats(q, Infos()[p := i])
    {
      SeatsIgnore(q, Infos(), Infos()[p := i], p);
    }

    /** Take p off its queue, give it new flags, and append it where it belongs now. */
    method Shift(p: Proc, i: Info)
      requires Valid() && p in procs && Cur() != Some(p) && FlagsOk(i)
      modifies this`rdytab, this`susptab, this`q, waittab, procs
      ensures Valid() && Abs() == Requeue(old(Abs()), p, i)
    {
      hide *;
      CanShift(p, i);
      ghost var k := Abs();
      Delproc(p);
      Reflag(p, i);
      Addproc(p);
      StillValid(Requeue(k, p, i));
    }

    lemma StillValid(k: State<Proc>)
      requires Ordered() && curproc in procs && k == State(Cur(), q, Infos()) && Inv(k)
      ensures Valid() && Abs() == k
    {
    }

    lemma CanShift(p: Proc, i: Info)
      requires Valid() && p in procs && Cur() != Some(p) && FlagsOk(i)
      ensures Ordered() && curproc in procs && |q| == NQUEUES
      ensures p in q[Home(p.Snapshot())] && Home(i) < NQUEUES
      ensures var h, g := Home(p.Snapshot()), Home(i);
              var q1 := q[h := Without(q[h], p)];
              Requeue(Abs(), p, i) == State(Cur(), q1[g := q1[g] + [p]], Infos()[p := i])
      ensures Inv(Requeue(Abs(), p, i))
    {
      assert Infos()[p] == p.Snapshot();
      RequeueKeepsInv(Abs(), p, i);
    }

    lemma NextInScan(h: nat, rest: seq<Proc>)
      requires Valid() && h < NQUEUES && Scanning(Abs(), h, rest) && rest != []
      ensures rest[0] in procs && Infos()[rest[0]] == rest[0].Snapshot()
      ensures rest[0].next == (if |rest| > 1 then rest[1] else null)
      ensures Scanning(Abs(), h, rest[1..])
    {
      assert Linked(AllLinks(), q[h], Heads()[h]) && Seated(q[h], h, Infos());
      hide Ordered, Valid, Linked, AllLinks, Heads;
      NextOfRest(AllLinks(), q[h], Heads()[h], rest);
      LinksOf(rest[0]);
    }

    /** What one turn of a scan knows about the first process of rest. */
    lemma FirstInScan(h: nat, rest: seq<Proc>, event: nat)
      requires Valid() && h < NQUEUES && Scanning(Abs(), h, rest) && rest != []
      requires event != 0 && (h == SUSPENDED || h == Chain(event))
      ensures var p, i := rest[0], Awake(rest[0].Snapshot());
              && p in procs && Cur() != Some(p) && At(Abs().info, p) == p.Snapshot() && FlagsOk(i)
              && (At(Abs().info, p).event == event <==> p.event == event)
              && p.next == (if |rest| > 1 then rest[1] else null)
              && Inv(Abs()) && Scanning(Abs(), h, rest[1..])
              && Scanning(Requeue(Abs(), p, i), h, RestAfter(h, rest))
    {
      NextInScan(h, rest);
      hide Ordered, Scanning;
      FirstOfRest(Abs(), h, rest);
      WokenQueue(Abs(), h, rest, event);
    }

    lemma StartOfScan(h: nat)
      requires Valid() && h < NQUEUES
      ensures |Heads()| == NQUEUES && h < |q| && Scanning(Abs(), h, q[h]) && Queue(Abs(), h) == q[h]
      ensures Heads()[h] == if q[h] == [] then null else q[h][0]
    {
      assert Linked(AllLinks(), q[h], Heads()[h]);
    }

    /** One loop of ksig: wake the first n that wait for event on the queue starting at first. */
    method Scan(first: Proc?, ghost h: nat, event: nat, n: nat) returns (left: nat)
      requires Valid() && event != 0 && h < NQUEUES && (h == SUSPENDED || h == Chain(event))
      requires |Heads()| > h && first == Heads()[h]
      modifies this`rdytab, this`susptab, this`q, waittab, procs
      ensures Valid()
      ensures var ps := Pick(Queue(old(Abs()), h), old(Abs()).info, event, n);
              left == n - |ps| && Abs() == WakeAll(old(Abs()), ps)
    {
      hide *;
      StartOfScan(h);
      var pp := first;
      left := n;
      ghost var k, rest := Abs(), q[h];
      ghost var ps := Pick(rest, Abs().info, event, n);
      while left != 0 && pp != null
        invariant Valid() && Scanning(Abs(), h, rest)
        invariant pp == if rest == [] then null else rest[0]
        invariant WakeAll(Abs(), Pick(rest, Abs().info, event, left)) == WakeAll(k, ps)
        invariant left - |Pick(rest, Abs().info, event, left)| == n - |ps|
        decreases |Waiters(rest, Abs().info, event)|, |rest|
      {
        FirstInScan(h, rest, event);
        var pnext := pp.next;
        if pp.event == event {
          WokenRest(Abs(), h, rest, event, left);
          FirstAfter(h, rest);
          Shift(pp, Awake(pp.Snapshot()));
          left := left - 1;
          rest := RestAfter(h, rest);
        } else {
          PassOver(rest, Abs().info, event, left);
          rest := rest[1..];
        }
        pp := pnext;
      }
      NothingToPick(Abs(), rest, event, left);
    }

    /** ksig. */
    method Ksig(event: nat, n: nat)
      requires Valid()
      modifies this`rdytab, this`susptab, this`q, waittab, procs
      ensures Valid() && Abs() == KernelSpec.Ksig(old(Abs()), event, n)
    {
      hide *;
      if event == 0 {
        KsigOfNull(Abs(), n);
        return;
      }
      var limit := Limit(n);
      ChainHead(event);
      var left := Scan(waittab[Phash(event)], Chain(event), event, limit);
      SuspendedHead();
      KsigInTwoScans(old(Abs()), event, n, left, Pick(Queue(old(Abs()), Chain(event)), old(Abs()).info, event, limit));
      left := Scan(susptab, SUSPENDED, event, left);
    }

    lemma ChainHead(event: nat)
      requires Valid()
      ensures Inv(Abs()) && Chain(event) < NQUEUES && Phash(event) < waittab.Length && Chain(event) < |Heads()|
      ensures Heads()[Chain(event)] == waittab[Phash(event)]
    {
    }

    lemma SuspendedHead()
      requires Valid()
      ensures SUSPENDED < NQUEUES && SUSPENDED < |Heads()| && Heads()[SUSPENDED] == susptab
    {
    }

    lemma Runs()
      requires Valid() && !parked
      ensures Ordered() && curproc in procs && OnNone(q, curproc) && |q| == NQUEUES
      ensures Infos()[curproc] == curproc.Snapshot() && Home(curproc.Snapshot()) < NQUEUES
    {
      OnNoQueue(Abs(), curproc);
    }

    lemma CanPark(i: Info)
      requires Valid() && !parked && FlagsOk(i)
      ensures KernelCalls.Park(Abs(), curproc, i)
           == State(None, q[Home(i) := q[Home(i)] + [curproc]], Infos()[curproc := i])
      ensures Inv(KernelCalls.Park(Abs(), curproc, i))
    {
      ParkKeepsInv(Abs(), curproc, i);
    }

    /** Queue the running process, with new flags. */
    method Park(i: Info)
      requires Valid() && !parked && FlagsOk(i)
      modifies this, waittab, procs
      ensures Valid() && parked && curproc == old(curproc) && procs == old(procs)
      ensures Abs() == KernelCalls.Park(old(Abs()), curproc, i)
    {
      hide *;
      Runs();
      CanPark(i);
      ghost var k := KernelCalls.Park(Abs(), curproc, i);
      Reflag(curproc, i);
      Addproc(curproc);
      parked := true;
      NowParked();
      StillValid(k);
    }

    lemma NowParked()
      requires parked
      ensures Cur() == None
    {
    }

    lemma FirstReady()
      requires Valid() && parked
      ensures Ordered() && Inv(Abs()) && Abs().cur == None
      ensures |q| == NQUEUES && READY < NQUEUES && Queue(Abs(), READY) == q[READY]
      ensures rdytab == if q[READY] == [] then null else q[READY][0]
      ensures q[READY] != [] ==>
                var p := q[READY][0];
                && p in procs && Home(p.Snapshot()) == READY && p in q[READY]
                && At(Abs().info, p) == p.Snapshot() && p.Snapshot().retval == p.retval
                && Without(q[READY], p) == q[READY][1..]
    {
      assert Linked(AllLinks(), q[READY], Heads()[READY]) && Seated(q[READY], READY, Infos());
      if q[READY] != [] {
        var p := q[READY][0];
        assert p in q[READY] && Infos()[p] == p.Snapshot();
      }
    }

    lemma ReadyHead()
      requires Valid()
      ensures rdytab == null <==> Queue(Abs(), READY) == []
    {
      assert Linked(AllLinks(), q[READY], Heads()[READY]);
    }

    lemma CanDispatch(i: Info)
      requires Valid() && parked && q[READY] != [] && i == q[READY][0].Snapshot().(retval := 0)
      ensures KernelCalls.Dispatch(Abs())
           == Returned(State(Some(q[READY][0]), q[READY := q[READY][1..]], Infos()[q[READY][0] := i]),
                       q[READY][0].retval)
      ensures Inv(KernelCalls.Dispatch(Abs()).k)
    {
      FirstReady();
      DispatchKeepsInv(Abs());
    }

    /** The end of kwait: the first ready process becomes Curproc and collects its return value. */
    method Dispatch() returns (val: int)
      requires Valid() && parked && rdytab != null
      modifies this, waittab, procs
      ensures Valid() && !parked && procs == old(procs)
      ensures KernelCalls.Dispatch(old(Abs())) == Returned(Abs(), val)
    {
      hide *;
      FirstReady();
      ghost var i := rdytab.Snapshot().(retval := 0);
      CanDispatch(i);
      ghost var k := KernelCalls.Dispatch(Abs()).k;
      curproc := rdytab;
      Delproc(curproc);
      val := curproc.retval;
      Reflag(curproc, curproc.Snapshot().(retval := 0));
      parked := false;
      NowRuns();
      StillValid(k);
    }

    lemma NowRuns()
      requires !parked
      ensures Cur() == Some(curproc)
    {
    }

    lemma CanEnlist(p: Proc)
      requires Ordered() && p !in procs
      ensures waittab.Length == PHASH && OnNone(q, p)
      ensures Chains(Extended(AllLinks(), p), q) && Seats(q, Infos()[p := NEW_PROC])
    {
      forall i | 0 <= i < NQUEUES
        ensures p !in q[i]
      {
        assert Seated(q[i], i, Infos());
      }
      hide Chains, Seats, Home, Heads;
      ChainsIgnore(AllLinks(), Extended(AllLinks(), p), q, Infos(), p);
      SeatsIgnore(q, Infos(), Infos()[p := NEW_PROC], p);
    }

    method Include(p: Proc)
      requires p !in procs && p.next == null && p.prev == null
      modifies this`procs
      ensures procs == old(procs) + {p}
      ensures AllLinks() == Extended(old(AllLinks()), p) && Infos() == old(Infos())[p := p.Snapshot()]
    {
      OneMore(procs, p);
      hide NextOf, PrevOf, InfoOf;
      procs := procs + {p};
    }

    lemma OneMore(ps: set<Proc>, p: Proc)
      ensures NextOf(ps + {p}) == NextOf(ps)[p := p.next]
      ensures PrevOf(ps + {p}) == PrevOf(ps)[p := p.prev]
      ensures InfoOf(ps + {p}) == InfoOf(ps)[p := p.Snapshot()]
    {
    }

    lemma CanAddNew(p: Proc)
      requires Valid() && p !in procs
      ensures Ordered() && curproc in procs && Home(NEW_PROC) < |q|
      ensures var h := Home(NEW_PROC);
              KernelCalls.Newproc(Abs(), p) == State(Cur(), q[h := q[h] + [p]], Infos()[p := NEW_PROC])
      ensures Inv(KernelCalls.Newproc(Abs(), p))
    {
      NewprocKeepsInv(Abs(), p);
    }

    /** newproc: a ready process with an empty descriptor. */
    method Newproc() returns (p: Proc)
      requires Valid()
      modifies this, waittab, procs
      ensures fresh(p) && procs == old(procs) + {p}
      ensures Valid() && Abs() == KernelCalls.Newproc(old(Abs()), p)
    {
      hide *;
      p := new Proc();
      CanAddNew(p);
      CanEnlist(p);
      ghost var k := KernelCalls.Newproc(Abs(), p);
      Include(p);
      StillOrdered(Infos());
      Addproc(p);
      StillValid(k);
    }

    method Exclude(p: Proc)
      modifies this`procs
      ensures procs == old(procs) - {p}
      ensures AllLinks() == Dropped(old(AllLinks()), p) && Infos() == old(Infos()) - {p}
    {
      OneLess(procs, p);
      hide NextOf, PrevOf, InfoOf;
      procs := procs - {p};
    }

    lemma OneLess(ps: set<Proc>, p: Proc)
      ensures NextOf(ps - {p}) == NextOf(ps) - {p} && PrevOf(ps - {p}) == PrevOf(ps) - {p}
      ensures InfoOf(ps - {p}) == InfoOf(ps) - {p}
    {
    }

    lemma CanDrop(p: Proc)
      requires Ordered() && OnNone(q, p)
      ensures waittab.Length == PHASH && Chains(Dropped(AllLinks(), p), q) && Seats(q, Infos() - {p})
    {
      hide Chains, Seats, Home, Heads;
      ChainsIgnore(AllLinks(), Dropped(AllLinks(), p), q, Infos(), p);
      SeatsIgnore(q, Infos(), Infos() - {p}, p);
    }

    lemma CanRemove(p: Proc)
      requires Valid() && p in procs && !parked && p != curproc
      ensures Ordered() && curproc in procs && p in q[Home(p.Snapshot())]
      ensures KernelCalls.Killproc(Abs(), p, 0, [])
           == State(Cur(), q[Home(p.Snapshot()) := Without(q[Home(p.Snapshot())], p)], Infos() - {p})
      ensures Inv(KernelCalls.Killproc(Abs(), p, 0, []))
    {
      assert Infos()[p] == p.Snapshot();
      KillKeepsInv(Abs(), p, 0, []);
    }

    /** The end of killproc: off its queue, and free the descriptor. */
    method Remove(p: Proc)
      requires Valid() && p in procs && !parked && p != curproc
      modifies this, waittab, procs
      ensures !parked && curproc == old(curproc) && procs == old(procs) - {p}
      ensures Valid() && Abs() == KernelCalls.Killproc(old(Abs()), p, 0, [])
    {
      hide *;
      CanRemove(p);
      ghost var k := KernelCalls.Killproc(Abs(), p, 0, []);
      Delproc(p);
      CanDrop(p);
      Exclude(p);
      StillOrdered(Infos());
      StillValid(k);
    }

    lemma CanRunOn(i: Info)
      requires Valid() && !parked && FlagsOk(i) && !i.waiting
      ensures Requeue(Abs(), curproc, i) == State(Cur(), q, Infos()[curproc := i])
      ensures Inv(Requeue(Abs(), curproc, i))
    {
      RequeueKeepsInv(Abs(), curproc, i);
    }

    /** Change the flags of the running process, which is on no queue. */
    method RunOn(i: Info)
      requires Valid() && !parked && FlagsOk(i) && !i.waiting
      modifies this, waittab, procs
      ensures Valid() && Abs() == Requeue(old(Abs()), curproc, i)
      ensures !parked && curproc == old(curproc) && procs == old(procs)
    {
      hide *;
      Runs();
      CanRunOn(i);
      ghost var k := Requeue(Abs(), curproc, i);
      Reflag(curproc, i);
      StillValid(k);
    }

    lemma FlagsOf(p: Proc)
      requires Valid() && p in procs
      ensures At(Abs().info, p) == p.Snapshot() && FlagsOk(p.Snapshot())
      ensures !parked && p != curproc ==> Cur() != Some(p)
      ensures FlagsOk(p.Snapshot().(suspend := true)) && FlagsOk(p.Snapshot().(suspend := false))
      ensures !parked && p == curproc ==> !p.Snapshot().waiting
    {
    }

    lemma AlertFlags(k: State<Proc>, p: Proc, val: int)
      ensures var i := At(k.info, p).(waiting := false, event := 0, retval := val);
              FlagsOk(i) && !i.waiting && KernelCalls.Alert(k, p, val) == Requeue(k, p, i)
    {
    }

    lemma SuspendFlags(k: State<Proc>, p: Proc, on: bool)
      ensures SetSuspend(k, p, on) == Requeue(k, p, At(k.info, p).(suspend := on))
    {
    }

    /** alert. */
    method Alert(p: Proc, val: int)
      requires Valid() && !parked && p in procs
      modifies this, waittab, procs
      ensures !parked && curproc == old(curproc) && procs == old(procs)
      ensures Valid() && Abs() == KernelCalls.Alert(old(Abs()), p, val)
    {
      hide *;
      FlagsOf(p);
      AlertFlags(Abs(), p, val);
      var i := p.Snapshot().(waiting := false, event := 0, retval := val);
      if p != curproc {
        Shift(p, i);
      } else {
        RunOn(i);
      }
    }

    /** suspend, of another process. */
    method Suspend(p: Proc)
      requires Valid() && !parked && p in procs && p != curproc
      modifies this, waittab, procs
      ensures !parked && curproc == old(curproc) && procs == old(procs)
      ensures Valid() && Abs() == SetSuspend(old(Abs()), p, true)
    {
      hide *;
      FlagsOf(p);
      SuspendFlags(Abs(), p, true);
      Shift(p, p.Snapshot().(suspend := true));
    }

    /** resume: never of the running process. */
    method Resume(p: Proc)
      requires Valid() && !parked && p in procs && p != curproc
      modifies this, waittab, procs
      ensures !parked && curproc == old(curproc) && procs == old(procs)
      ensures Valid() && Abs() == SetSuspend(old(Abs()), p, false)
    {
      hide *;
      FlagsOf(p);
      SuspendFlags(Abs(), p, false);
      Shift(p, p.Snapshot().(suspend := false));
    }
  }

  /** The batches that procsigs finds after each giveup, given the signals raised during it. */
  ghost function Batches(last: nat, arrivals: seq<seq<Signal>>): seq<seq<Signal>>
    decreases |arrivals|
  {
    if arrivals == [] then []
    else
      var p := QueuedAll(Pending([], last), arrivals[0]);
      [p.sigs] + Batches(p.last, arrivals[1..])
  }

  class Kernel {
    const tables: Tables
    const ring: SignalRing

    constructor ()
      ensures Valid() && tables.Abs() == Initial(tables.curproc) && ring.Contents() == Pending([], 0)
      ensures fresh(tables) && fresh(ring) && fresh(tables.procs)
    {
      hide *;
      tables := new Tables();
      ring := new SignalRing();
      new;
      Whole();
    }

    lemma Whole()
      requires tables.Valid() && ring.Valid()
      ensures Valid()
    {
    }

    ghost predicate Valid()
      reads tables, tables.waittab, tables.procs, ring, ring.entry
    {
      tables.Valid() && ring.Valid()
    }

    /** The running process, or Curproc waiting on a queue, and who exists, are as before. */
    twostate predicate SameProcesses()
      reads tables
    {
      tables.curproc == old(tables.curproc) && tables.parked == old(tables.parked) && tables.procs == old(tables.procs)
    }

    /** procsigs: serve all queued signals, oldest first. */
    method Procsigs()
      requires Valid()
      modifies tables, tables.waittab, tables.procs, ring
      ensures Valid() && SameProcesses() && ring.Contents() == Pending([], old(ring.lastevent))
      ensures tables.Abs() == KernelCalls.Procsigs(old(tables.Abs()), old(ring.sigs))
    {
      hide Tables.Valid, Tables.Abs, KernelSpec.Ksig;
      while ring.nentries != 0
        invariant Valid() && SameProcesses() && ring.lastevent == old(ring.lastevent)
        invariant KernelCalls.Procsigs(tables.Abs(), ring.sigs)
               == KernelCalls.Procsigs(old(tables.Abs()), old(ring.sigs))
        decreases |ring.sigs|
      {
        var s := ring.Take();
        tables.Ksig(s.event, s.n);
      }
    }

    /** ksignal; irq tells whether interrupts are on. */
    method Ksignal(event: nat, n: nat, irq: bool)
      requires Valid()
      modifies tables, tables.waittab, tables.procs, ring, ring.entry
      ensures Valid() && SameProcesses()
      ensures irq ==> ring.sigs == []
                      && tables.Abs() == KernelCalls.Ksignal(old(tables.Abs()), old(ring.sigs), event, n)
      ensures !irq ==> tables.Abs() == old(tables.Abs())
                       && ring.Contents() == Queued(old(ring.Contents()), Signal(event, n))
    {
      hide Tables.Valid, Tables.Abs, KernelSpec.Ksig, KernelCalls.Procsigs;
      if irq {
        Procsigs();
        tables.Ksig(event, n);
        return;
      }
      ring.Put(event, n);
    }

    /** kwait's search for a ready process, from the moment Curproc has been queued. The signals
        that interrupt handlers raise during the i-th giveup are arrivals[i]; a machine on which
        they run out stays halted. */
    method Switch(arrivals: seq<seq<Signal>>) returns (halted: bool, val: int)
      requires Valid() && tables.parked && ring.sigs == []
      modifies tables, tables.waittab, tables.procs, ring, ring.entry
      ensures Valid() && tables.parked == halted && tables.procs == old(tables.procs)
      ensures Idle(old(tables.Abs()), Batches(old(ring.lastevent), arrivals))
           == if halted then Halted(tables.Abs()) else Returned(tables.Abs(), val)
    {
      halted, val := false, 0;
      hide Tables.Valid, Tables.Abs, SignalRing.Valid, Idle, Batches, QueuedAll, KernelCalls.Procsigs,
           KernelCalls.Dispatch;
      var i := 0;
      ghost var o := Idle(tables.Abs(), Batches(ring.lastevent, arrivals));
      while tables.rdytab == null
        invariant Valid() && tables.parked && ring.sigs == [] && tables.procs == old(tables.procs)
        invariant i <= |arrivals|
        invariant Idle(tables.Abs(), Batches(ring.lastevent, arrivals[i..])) == o
        decreases |arrivals| - i
      {
        NobodyReady(arrivals[i..]);
        if i == |arrivals| {
          halted := true;
          return;
        }
        ring.Interrupts(arrivals[i]);
        Procsigs();
        i := i + 1;
      }
      SomebodyReady(arrivals[i..]);
      val := tables.Dispatch();
    }

    ghost function AfterOne(k: State<Proc>, last: nat, arrivals: seq<seq<Signal>>): Outcome<Proc>
      requires arrivals != []
    {
      var p := QueuedAll(Pending([], last), arrivals[0]);
      Idle(KernelCalls.Procsigs(k, p.sigs), Batches(p.last, arrivals[1..]))
    }

    lemma NobodyReady(arrivals: seq<seq<Signal>>)
      requires tables.Valid() && tables.parked && tables.rdytab == null
      ensures var k := tables.Abs();
              if arrivals == [] then Idle(k, Batches(ring.lastevent, arrivals)) == Halted(k)
              else Idle(k, Batches(ring.lastevent, arrivals)) == AfterOne(k, ring.lastevent, arrivals)
    {
      tables.FirstReady();
      hide Tables.Valid, Tables.Abs, QueuedAll, KernelCalls.Procsigs;
      if arrivals != [] {
        var p := QueuedAll(Pending([], ring.lastevent), arrivals[0]);
        assert Batches(ring.lastevent, arrivals)[1..] == Batches(p.last, arrivals[1..]);
      }
    }

    lemma SomebodyReady(arrivals: seq<seq<Signal>>)
      requires tables.Valid() && tables.parked && tables.rdytab != null
      ensures Idle(tables.Abs(), Batches(ring.lastevent, arrivals)) == KernelCalls.Dispatch(tables.Abs())
    {
      tables.FirstReady();
      hide Tables.Valid, Tables.Abs, QueuedAll, KernelCalls.Procsigs, KernelCalls.Dispatch;
    }

    /** kwait, with interrupts on. */
    method Kwait(event: nat, arrivals: seq<seq<Signal>>) returns (halted: bool, val: int)
      requires Valid() && !tables.parked
      modifies tables, tables.waittab, tables.procs, ring, ring.entry
      ensures Valid() && tables.parked == halted && tables.procs == old(tables.procs)
      ensures KernelCalls.Kwait(old(tables.Abs()), old(tables.curproc), event, old(ring.sigs),
                                Batches(old(ring.lastevent), arrivals))
           == if halted then Halted(tables.Abs()) else Returned(tables.Abs(), val)
    {
      hide Tables.Valid, Tables.Abs, SignalRing.Valid, Idle, Batches, KernelCalls.Procsigs, KernelCalls.Park,
           FlagsOk, Proc.Snapshot, At, Queue;
      if event != 0 {
        tables.Runs();
        tables.FlagsOf(tables.curproc);
        WaitFlags(tables.curproc.Snapshot(), event);
        tables.Park(tables.curproc.Snapshot().(waiting := true, event := event));
      }
      Procsigs();
      if event == 0 {
        tables.ReadyHead();
        if tables.rdytab == null {
          return false, 0;
        }
        tables.Runs();
        tables.FlagsOf(tables.curproc);
        tables.Park(tables.curproc.Snapshot());
      }
      halted, val := Switch(arrivals);
    }

    lemma WaitFlags(i: Info, event: nat)
      requires event != 0
      ensures FlagsOk(i.(waiting := true, event := event))
    {
    }

    /** suspend of the running process. */
    method SuspendSelf(arrivals: seq<seq<Signal>>) returns (halted: bool, val: int)
      requires Valid() && !tables.parked
      modifies tables, tables.waittab, tables.procs, ring, ring.entry
      ensures Valid() && tables.parked == halted && tables.procs == old(tables.procs)
      ensures KernelCalls.Kwait(SetSuspend(old(tables.Abs()), old(tables.curproc), true), old(tables.curproc), 0,
                                old(ring.sigs), Batches(old(ring.lastevent), arrivals))
           == if halted then Halted(tables.Abs()) else Returned(tables.Abs(), val)
    {
      hide Tables.Valid, Tables.Abs, SignalRing.Valid, Batches, KernelCalls.Kwait, SetSuspend, At;
      tables.Runs();
      tables.FlagsOf(tables.curproc);
      tables.SuspendFlags(tables.Abs(), tables.curproc, true);
      tables.RunOn(tables.curproc.Snapshot().(suspend := true));
      halted, val := Kwait(0, arrivals);
    }

    lemma KillInTwo(k: State<Proc>, p: Proc, addr: nat, sigs: seq<Signal>)
      ensures KernelCalls.Killproc(KernelCalls.Ksignal(k, sigs, addr, 0), p, 0, [])
           == KernelCalls.Killproc(k, p, addr, sigs)
    {
    }

    /** killproc of another process, at address addr: wake its mourners and free it. */
    method Killproc(p: Proc, addr: nat)
      requires Valid() && !tables.parked && p in tables.procs && p != tables.curproc
      modifies tables, tables.waittab, tables.procs, ring, ring.entry
      ensures Valid() && !tables.parked && tables.procs == old(tables.procs) - {p}
      ensures tables.Abs() == KernelCalls.Killproc(old(tables.Abs()), p, addr, old(ring.sigs))
    {
      hide Tables.Valid, Tables.Abs, SignalRing.Valid, KernelCalls.Killproc, KernelCalls.Ksignal;
      KillInTwo(tables.Abs(), p, addr, ring.sigs);
      Ksignal(addr, 0, true);
      tables.Remove(p);
    }
  }
}
