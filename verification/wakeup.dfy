/** The receive ring of unix/unix_socket.c: the interrupt thread puts, one NOS process takes. */
module ReceiveFifo {
  import opened Common
  import opened Modular

  type byte = b: int | 0 <= b < 256

  const COUNTS: nat := 0x1_0000   // what an unsigned short can count

  /** What a ring of the given size accepts of data when its count stands at cnt. */
  function Accepted(cnt: nat, size: nat, data: seq<byte>): seq<byte>
    requires cnt <= size
  {
    data[..Least(|data|, size - cnt)]
  }

  /** m bytes have been stored and pos of them read: what the unsigned short then says. */
  predicate Counted(m: nat, pos: nat, cnt: nat, size: nat) {
    && pos <= m && cnt <= size && cnt == (m - pos) % COUNTS
    && (size < COUNTS ==> cnt == m - pos)
  }

  lemma CountedMeans(m: nat, pos: nat, cnt: nat, size: nat)
    requires Counted(m, pos, cnt, size)
    ensures pos + cnt <= m && cnt < COUNTS
  {
  }

  lemma StoreCounts(m: nat, pos: nat, cnt: nat, size: nat, n: nat)
    requires Counted(m, pos, cnt, size) && cnt + n <= size
    ensures Counted(m + n, pos, (cnt + n) % COUNTS, size)
  {
  }

  lemma ReadCounts(m: nat, pos: nat, cnt: nat, size: nat, n: nat)
    requires Counted(m, pos, cnt, size) && n <= cnt
    ensures Counted(m, pos + n, cnt - n, size)
  {
  }

  /** What the slot of stored byte p holds now: that byte, unless later ones have been stored over it. */
  function Latest(stored: seq<byte>, size: nat, p: nat): byte
    requires size > 0 && p < |stored|
    decreases |stored| - p
  {
    if p + size < |stored| then Latest(stored, size, p + size) else stored[p]
  }

  /** n bytes read from the slot of byte p on. */
  function ReadOut(stored: seq<byte>, size: nat, p: nat, n: nat): (r: seq<byte>)
    requires size > 0 && p + n <= |stored|
    ensures |r| == n
    ensures |stored| - p <= size ==> r == stored[p..p + n]
    decreases n
  {
    if n == 0 then [] else [Latest(stored, size, p)] + ReadOut(stored, size, p + 1, n - 1)
  }

  lemma ReadOutStep(stored: seq<byte>, size: nat, p: nat, n: nat)
    requires size > 0 && p + n <= |stored|
    ensures n == 0 ==> ReadOut(stored, size, p, n) == []
    ensures n > 0 ==> ReadOut(stored, size, p, n) == [Latest(stored, size, p)] + ReadOut(stored, size, p + 1, n - 1)
  {
  }

  /** The slots hold the last bytes stored. */
  ghost predicate Holds(buf: seq<byte>, stored: seq<byte>) {
    && |buf| > 0
    && forall p {:trigger stored[p]} :: 0 <= p < |stored| && |stored| <= p + |buf| ==> buf[Slot(p, |buf|)] == stored[p]
  }

  lemma HoldsMore(buf: seq<byte>, stored: seq<byte>, b: byte)
    requires Holds(buf, stored)
    ensures Holds(buf[Slot(|stored|, |buf|) := b], stored + [b])
  {
    var m, after := |stored|, stored + [b];
    forall p: nat {:trigger after[p]} | p < m + 1 && m + 1 <= p + |buf|
      ensures buf[Slot(m, |buf|) := b][Slot(p, |buf|)] == after[p]
    {
      hide Slot;
      if p < m {
        SlotsDiffer(p, m, |buf|);
        assert stored[p] == after[p];
      }
    }
  }

  lemma {:induction false} SlotHoldsLatest(buf: seq<byte>, stored: seq<byte>, p: nat)
    requires Holds(buf, stored) && p < |stored|
    ensures buf[Slot(p, |buf|)] == Latest(stored, |buf|, p)
    decreases |stored| - p
  {
    if p + |buf| < |stored| {
      SlotRepeats(p, |buf|);
      SlotHoldsLatest(buf, stored, p + |buf|);
    } else {
      assert stored[p] == stored[p];
    }
  }

  /** The fifo of a unix socket. stored are the bytes accepted so far, of which pos have been read. */
  class Fifo {
    const buf: array<byte>
    var wp: nat
    var rp: nat
    var cnt: nat
    var overrun: nat
    ghost var stored: seq<byte>
    ghost var pos: nat

    constructor (bufsize: nat)
      requires bufsize > 0
      ensures Valid() && stored == [] && pos == overrun == 0 && buf.Length == bufsize && fresh(buf)
    {
      buf := new byte[bufsize](_ => 0);
      wp, rp, cnt, overrun, stored, pos := 0, 0, 0, 0, [], 0;
    }

    ghost predicate Ring()
      reads this`rp, this`wp, this`stored, this`pos, buf
    {
      && Holds(buf[..], stored) && pos <= |stored|
      && wp == Slot(|stored|, buf.Length) && rp == Slot(pos, buf.Length)
    }

    ghost predicate Valid()
      reads this, buf
    {
      Ring() && Counted(|stored|, pos, cnt, buf.Length)
    }

    /** *wp++ = b, wrapping. */
    method PutByte(b: byte)
      requires Ring()
      modifies this`wp, this`stored, buf
      ensures Ring() && stored == old(stored) + [b]
    {
      HoldsMore(buf[..], stored, b);
      SlotOfNext(|stored|, buf.Length);
      hide Holds, Slot;
      ghost var before := buf[..];
      buf[wp] := b;
      assert buf[..] == before[wp := b];
      wp := wp + 1;
      if wp >= buf.Length {
        wp := 0;
      }
      stored := stored + [b];
    }

    /** *rp++, wrapping. */
    method TakeByte() returns (b: byte)
      requires Ring() && pos < |stored|
      modifies this`rp, this`pos
      ensures buf.Length > 0 && Ring() && pos == old(pos) + 1 && b == Latest(stored, buf.Length, old(pos))
    {
      SlotHoldsLatest(buf[..], stored, pos);
      SlotOfNext(pos, buf.Length);
      hide Slot, Latest;
      b := buf[rp];
      rp := rp + 1;
      if rp >= buf.Length {
        rp := 0;
      }
      pos := pos + 1;
    }

    /** The part of unix_socket_io_read_proc between interrupt_enter and ksignal; cnt is an unsigned
        short, and brought up to date before the bytes are copied. */
    method Put(data: seq<byte>)
      requires Valid()
      modifies this, buf
      ensures Valid() && pos == old(pos) && old(cnt) <= buf.Length
      ensures var got := Accepted(old(cnt), buf.Length, data);
              && stored == old(stored) + got && overrun == old(overrun) + |data| - |got|
              && cnt == (old(cnt) + |got|) % COUNTS
    {
      var n, room := |data|, buf.Length - cnt;
      if n > room {
        overrun := overrun + (n - room);
        n := room;
      }
      StoreCounts(|stored|, pos, cnt, buf.Length, n);
      cnt := (cnt + n) % COUNTS;
      hide Holds, Slot, Counted;
      for i := 0 to n
        invariant Ring() && n <= |data| && pos == old(pos) && cnt == (old(cnt) + n) % COUNTS
        invariant stored == old(stored) + data[..i]
        invariant overrun == old(overrun) + |data| - n
      {
        PutByte(data[i]);
      }
    }

    /** The part of unix_socket_read that runs once it has seen cnt != 0, interrupts still off. */
    method Take(want: nat) returns (out: seq<byte>)
      requires Valid()
      modifies this`rp, this`cnt, this`pos
      ensures Valid() && buf.Length > 0
      ensures var n := Least(want, old(cnt));
              && cnt == old(cnt) - n && pos == old(pos) + n <= |stored|
              && out == ReadOut(stored, buf.Length, old(pos), n)
    {
      hide Holds, Slot, Counted, ReadOut;
      CountedMeans(|stored|, pos, cnt, buf.Length);
      var n := if want > cnt then cnt else want;
      ReadCounts(|stored|, pos, cnt, buf.Length, n);
      cnt := cnt - n;
      out := TakeBytes(n);
    }

    /** The loop of unix_socket_read. */
    method TakeBytes(n: nat) returns (out: seq<byte>)
      requires Ring() && pos + n <= |stored|
      modifies this`rp, this`pos
      ensures Ring() && pos == old(pos) + n && buf.Length > 0
      ensures out == ReadOut(stored, buf.Length, old(pos), n)
    {
      hide *;
      RingMeans();
      out := [];
      for i: nat := 0 to n
        invariant Ring() && pos == old(pos) + i && pos + (n - i) <= |stored| && buf.Length > 0
        invariant out + ReadOut(stored, buf.Length, pos, n - i) == ReadOut(stored, buf.Length, old(pos), n)
      {
        ReadOutStep(stored, buf.Length, pos, n - i);
        var b := TakeByte();
        out := out + [b];
      }
      ReadOutStep(stored, buf.Length, pos, 0);
    }

    lemma RingMeans()
      requires Ring()
      ensures buf.Length > 0
    {
    }

    /** A ring of fewer than 65536 bytes is a queue: what is read is what was stored, in order. */
    lemma IsQueue(n: nat)
      requires Valid() && buf.Length < COUNTS && n <= cnt
      ensures pos + cnt == |stored| && ReadOut(stored, buf.Length, pos, n) == stored[pos..pos + n]
    {
    }
  }
}

/** No lost wake-up: the reader of the receive ring, the interrupt threads, the signal ring and the
    halting machine, over every interleaving (unix/unix_socket.c, unix/ksubr_unix.c, core/kernel.c). */
module Wakeup {
  import opened Common
  import opened Modular
  import opened ReceiveFifo
  import KernelSignals
  import K = KernelSpec

  const SIGQSIZE := KernelSignals.SIGQSIZE
  const READ: nat := 1024
  const FIFO: nat := 1   // the address of the receive ring, the event its reader waits for

  /** Where the one process that calls unix_socket_read stands. */
  datatype Reader =
    | Outside
    | Testing(want: nat)   // about to look at cnt, interrupts off
    | Posting(want: nat)   // saw cnt == 0, about to post its wait in kwait
    | Parked(want: nat)    // waiting for FIFO
    | Ready(want: nat)     // signalled, on the ready queue

  /** What the one thread executing NOS code is doing. */
  datatype Cpu =
    | Working   // anything but the following
    | Reading   // it is the reader, in unix_socket_read
    | Serving   // in procsigs, between claiming an entry and ksig
    | Entering  // in giveup, about to lock
    | Asleep    // in giveup, in pthread_cond_wait
    | Awake     // in giveup, out of pthread_cond_wait, about to test again

  /** received are the bytes stored in the ring so far, taken those that the reader got out of it. */
  datatype State = State(
    cnt: nat, size: nat, overrun: nat,
    slot: seq<K.Signal>, wp: nat, rp: nat, nentries: nat, last: nat,
    halted: bool,                      // g_proc_halted
    reader: Reader, cpu: Cpu,
    received: seq<byte>, taken: seq<byte>, arrived: nat)

  datatype Step =
    | Call(want: nat)          // unix_socket_read
    | Test
    | Post
    | Claim                    // procsigs: count an entry out
    | Deliver                  // procsigs: read it and call ksig
    | Alert                    // somebody alerts the waiting reader
    | Dispatch                 // the woken reader runs again
    | EnterGiveup
    | GiveupTest               // lock, and leave giveup or wait
    | Spurious                 // pthread_cond_wait returns unasked
    | Receive(data: seq<byte>) // the interrupt thread of this ring
    | Interrupt(event: nat, n: nat)   // any other interrupt that signals

  predicate Enabled(s: State, st: Step) {
    match st
    case Call(want) => s.cpu == Working && s.reader == Outside && want > 0
    case Test => s.reader.Testing?
    case Post => s.reader.Posting?
    case Claim => s.cpu == Working && s.nentries != 0
    case Deliver => s.cpu == Serving
    case Alert => s.cpu == Working && s.reader.Parked?
    case Dispatch => s.cpu == Working && s.reader.Ready?
    case EnterGiveup => s.cpu == Working && !s.reader.Ready?
    case GiveupTest => s.cpu == Entering || s.cpu == Awake
    case Spurious => s.cpu == Asleep
    case Receive(data) => |data| <= READ   // read(ttyfd, buf, sizeof(buf))
    case Interrupt(event, _) => event != FIFO
  }

  /** ksignal with interrupts off. */
  function Put(s: State, sig: K.Signal): State
    requires s.wp < |s.slot|
  {
    if sig.event == s.last && s.nentries != 0 then s
    else if s.nentries == SIGQSIZE then s
    else s.(slot := s.slot[s.wp := sig], wp := Place(s.wp, 1, SIGQSIZE), nentries := s.nentries + 1,
            last := sig.event)
  }

  /** interrupt_leave. */
  function Leave(s: State): State {
    if s.halted && s.nentries > 0 then s.(halted := false, cpu := if s.cpu == Asleep then Awake else s.cpu) else s
  }

  function Store(s: State, data: seq<byte>): State
    requires s.cnt <= s.size
  {
    var got := Accepted(s.cnt, s.size, data);
    s.(cnt := (s.cnt + |got|) % COUNTS, received := s.received + got, arrived := s.arrived + |data|,
       overrun := s.overrun + |data| - |got|)
  }

  /** The rest of unix_socket_read. */
  function Fetch(s: State, want: nat): State
    requires Shape(s) && s.cnt != 0
  {
    var n := Least(want, s.cnt);
    s.(cnt := s.cnt - n, taken := s.taken + ReadOut(s.received, s.size, |s.taken|, n))
  }

  /** The bytes that the reader has still to get. */
  function Waiting(s: State): seq<byte> {
    if |s.taken| <= |s.received| then s.received[|s.taken|..] else []
  }

  function Next(s: State, st: Step): State
    requires Shape(s) && Enabled(s, st)
  {
    match st
    case Call(want) => s.(reader := Testing(want), cpu := Reading)
    case Test =>
      if s.cnt == 0 then s.(reader := Posting(s.reader.want))
      else Fetch(s, s.reader.want).(reader := Outside, cpu := Working)
    case Post => s.(reader := Parked(s.reader.want), cpu := Working)
    case Claim => s.(nentries := s.nentries - 1, cpu := Serving)
    case Deliver =>
      s.(rp := Place(s.rp, 1, SIGQSIZE), cpu := Working,
         reader := if s.slot[s.rp].event == FIFO && s.reader.Parked? then Ready(s.reader.want) else s.reader)
    case Alert => s.(reader := Outside)
    case Dispatch => s.(reader := Testing(s.reader.want), cpu := Reading)
    case EnterGiveup => s.(cpu := Entering)
    case GiveupTest => if s.nentries == 0 then s.(halted := true, cpu := Asleep) else s.(cpu := Working)
    case Spurious => s.(cpu := Awake)
    case Receive(data) => Leave(Put(Store(s, data), K.Signal(FIFO, 1)))
    case Interrupt(event, n) => Leave(Put(s, K.Signal(event, n)))
  }

  /** Pointers and counts in range. */
  predicate Shape(s: State) {
    && |s.slot| == SIGQSIZE && s.rp < SIGQSIZE && s.wp < SIGQSIZE && s.nentries <= SIGQSIZE
    && Counted(|s.received|, |s.taken|, s.cnt, s.size)
  }

  /** How many slots procsigs has still to read: the counted ones and the one it has claimed. */
  function Unread(s: State): nat {
    s.nentries + if s.cpu == Serving then 1 else 0
  }

  /** The signals procsigs will deliver from here on, if no other comes. */
  function Pending(s: State): (p: seq<K.Signal>)
    requires Shape(s) && Unread(s) <= SIGQSIZE
    ensures |p| == Unread(s)
  {
    seq(Unread(s), j requires 0 <= j < Unread(s) => s.slot[Place(s.rp, j, SIGQSIZE)])
  }

  ghost predicate RingOk(s: State) {
    && Shape(s) && Unread(s) <= SIGQSIZE
    && s.wp == Place(s.rp, Unread(s), SIGQSIZE)
    && (s.nentries > 0 ==> Pending(s)[Unread(s) - 1].event == s.last)
  }

  predicate Signalled(p: seq<K.Signal>) {
    exists j :: 0 <= j < |p| && p[j].event == FIFO
  }

  /** The reader does not sleep, nor go to sleep, over counted bytes without a signal under way. */
  ghost predicate Watched(s: State)
    requires RingOk(s)
  {
    (s.reader.Parked? || s.reader.Posting?) && s.cnt != 0 ==> Signalled(Pending(s))
  }

  ghost predicate HaltOk(s: State) {
    && (s.cpu == Reading <==> s.reader.Testing? || s.reader.Posting?)
    && (s.cpu == Asleep ==> s.halted)
    && (s.halted ==> s.nentries == 0 && (s.cpu == Asleep || s.cpu == Awake))
    && (s.cpu == Entering || s.cpu == Asleep || s.cpu == Awake ==> !s.reader.Ready?)
  }

  ghost predicate BytesOk(s: State) {
    (s.size < COUNTS ==> s.taken <= s.received) && |s.received| + s.overrun == s.arrived
  }

  ghost predicate Inv(s: State) {
    RingOk(s) && Watched(s) && HaltOk(s) && BytesOk(s)
  }

  // ----- the signal ring -----

  predicate Duplicate(s: State, sig: K.Signal) {
    sig.event == s.last && s.nentries != 0
  }

  /** A signal put while a slot is to spare goes behind the others, unless it repeats the newest. */
  lemma PutAppends(s: State, sig: K.Signal)
    requires RingOk(s) && (Duplicate(s, sig) || Unread(s) < SIGQSIZE)
    ensures RingOk(Put(s, sig))
    ensures Pending(Put(s, sig)) == if Duplicate(s, sig) then Pending(s) else Pending(s) + [sig]
  {
    var s' := Put(s, sig);
    if !Duplicate(s, sig) {
      assert forall j :: 0 <= j < Unread(s) ==> Pending(s')[j] == Pending(s)[j];
    }
  }

  /** The slots and pointers do what the specification of ksignal says of the sequence of signals. */
  lemma PutIsQueued(s: State, sig: K.Signal)
    requires RingOk(s) && s.cpu != Serving
    ensures var s' := Put(s, sig);
            && RingOk(s')
            && KernelSignals.Queued(KernelSignals.Pending(Pending(s), s.last), sig)
            == KernelSignals.Pending(Pending(s'), s'.last)
  {
    if Unread(s) < SIGQSIZE {
      PutAppends(s, sig);
    }
  }

  lemma ClaimKeepsPending(s: State)
    requires RingOk(s) && Enabled(s, Claim)
    ensures RingOk(Next(s, Claim)) && Pending(Next(s, Claim)) == Pending(s)
  {
  }

  lemma DeliverTakesFirst(s: State)
    requires RingOk(s) && Enabled(s, Deliver)
    ensures RingOk(Next(s, Deliver)) && Pending(Next(s, Deliver)) == Pending(s)[1..]
    ensures s.slot[s.rp] == Pending(s)[0]
  {
    var s' := Next(s, Deliver);
    assert forall j :: 0 <= j < Unread(s') ==> Pending(s')[j] == Pending(s)[j + 1];
  }

  // ----- every step keeps the invariant -----

  predicate Interrupts(st: Step) {
    st.Receive? || st.Interrupt?
  }

  function SignalOf(st: Step): K.Signal
    requires Interrupts(st)
  {
    match st
    case Receive(_) => K.Signal(FIFO, 1)
    case Interrupt(event, n) => K.Signal(event, n)
  }

  /** An interrupt repeats the newest signal, or finds a slot to spare, one being served counted. */
  predicate HasRoom(s: State, st: Step) {
    Interrupts(st) ==> Duplicate(s, SignalOf(st)) || Unread(s) < SIGQSIZE
  }

  lemma LeaveKeeps(s: State)
    requires RingOk(s) && Watched(s) && BytesOk(s)
    requires s.cpu == Reading <==> s.reader.Testing? || s.reader.Posting?
    requires s.cpu == Asleep ==> s.halted
    requires s.halted ==> s.cpu == Asleep || s.cpu == Awake
    requires s.cpu == Entering || s.cpu == Asleep || s.cpu == Awake ==> !s.reader.Ready?
    ensures Inv(Leave(s))
  {
    assert Unread(Leave(s)) == Unread(s);
    assert Pending(Leave(s)) == Pending(s);
  }

  lemma SignalStays(p: seq<K.Signal>, sig: K.Signal)
    ensures Signalled(p) ==> Signalled(p + [sig])
    ensures sig.event == FIFO ==> Signalled(p + [sig])
  {
    if Signalled(p) {
      var j :| 0 <= j < |p| && p[j].event == FIFO;
      assert (p + [sig])[j].event == FIFO;
    }
    assert (p + [sig])[|p|] == sig;
  }

  /** Dropping a repetition is harmless: the newest entry is a signal for the same event. */
  lemma SuppressedIsQueued(s: State, sig: K.Signal)
    requires RingOk(s) && Duplicate(s, sig)
    ensures Pending(s)[Unread(s) - 1].event == sig.event
    ensures sig.event == FIFO ==> Signalled(Pending(s))
  {
  }

  lemma InterruptKeepsInv(s: State, event: nat, n: nat)
    requires Inv(s) && event != FIFO && HasRoom(s, Interrupt(event, n))
    ensures Inv(Next(s, Interrupt(event, n)))
  {
    var sig := K.Signal(event, n);
    PutAppends(s, sig);
    SignalStays(Pending(s), sig);
    hide RingOk, Pending, Signalled;
    LeaveKeeps(Put(s, sig));
  }

  lemma StoreKeeps(s: State, data: seq<byte>)
    requires RingOk(s) && HaltOk(s) && BytesOk(s)
    ensures RingOk(Store(s, data)) && HaltOk(Store(s, data)) && BytesOk(Store(s, data))
  {
    var got := Accepted(s.cnt, s.size, data);
    StoreCounts(|s.received|, |s.taken|, s.cnt, s.size, |got|);
    hide Counted;
    assert Pending(Store(s, data)) == Pending(s);
  }

  /** Whatever the ring held, after a reception a signal for it is under way. */
  lemma ReceiveSignals(s: State, data: seq<byte>)
    requires RingOk(s) && HasRoom(s, Receive(data))
    ensures var s' := Put(s, K.Signal(FIFO, 1)); RingOk(s') && Signalled(Pending(s'))
  {
    var sig := K.Signal(FIFO, 1);
    PutAppends(s, sig);
    SignalStays(Pending(s), sig);
    if Duplicate(s, sig) {
      SuppressedIsQueued(s, sig);
    }
  }

  lemma ReceiveKeepsInv(s: State, data: seq<byte>)
    requires Inv(s) && |data| <= READ && HasRoom(s, Receive(data))
    ensures Inv(Next(s, Receive(data)))
  {
    StoreKeeps(s, data);
    assert HasRoom(Store(s, data), Receive(data));
    ReceiveSignals(Store(s, data), data);
    hide RingOk, Pending, Signalled, Store;
    LeaveKeeps(Put(Store(s, data), K.Signal(FIFO, 1)));
  }

  lemma DeliverKeepsInv(s: State)
    requires Inv(s) && s.cpu == Serving
    ensures Inv(Next(s, Deliver))
  {
    DeliverTakesFirst(s);
    hide RingOk, Pending;
    var s' := Next(s, Deliver);
    if Signalled(Pending(s)) && Pending(s)[0].event != FIFO {
      var j :| 0 <= j < |Pending(s)| && Pending(s)[j].event == FIFO;
      assert Pending(s')[j - 1].event == FIFO;
    }
  }

  /** Test, Call, Dispatch: nothing changes in the signal ring. */
  lemma OtherStepsKeepInv(s: State, st: Step)
    requires Inv(s) && Enabled(s, st) && !Interrupts(st) && !st.Deliver? && !st.Claim?
    ensures Inv(Next(s, st))
  {
    if st.Test? && s.cnt != 0 {
      FetchKeeps(s, s.reader.want);
    }
    hide Counted, ReadOut, Fetch;
    assert Unread(Next(s, st)) == Unread(s);
    assert Pending(Next(s, st)) == Pending(s);
  }

  /** What is fetched from a ring of fewer than 65536 bytes are the next bytes received. */
  lemma FetchKeeps(s: State, want: nat)
    requires Shape(s) && BytesOk(s) && s.cnt != 0
    ensures var u, n := Fetch(s, want), Least(want, s.cnt);
            && Shape(u) && BytesOk(u) && u == s.(cnt := s.cnt - n, taken := u.taken)
            && (s.size < COUNTS ==> u.taken == s.taken + Waiting(s)[..Least(want, |Waiting(s)|)]
                                    && Waiting(u) == Waiting(s)[Least(want, |Waiting(s)|)..])
  {
    FetchCounts(s, want);
    if s.size < COUNTS {
      SmallRing(s);
      hide Shape, Fetch;
      NextBytes(s.taken, s.received, Least(want, s.cnt));
    }
  }

  lemma FetchCounts(s: State, want: nat)
    requires Shape(s) && s.cnt != 0
    ensures var u, n := Fetch(s, want), Least(want, s.cnt);
            && Shape(u) && u == s.(cnt := s.cnt - n, taken := u.taken) && |s.taken| + n <= |s.received|
            && (|s.received| - |s.taken| <= s.size ==>
                  u.taken == s.taken + s.received[|s.taken|..|s.taken| + n])
  {
    CountedMeans(|s.received|, |s.taken|, s.cnt, s.size);
    ReadCounts(|s.received|, |s.taken|, s.cnt, s.size, Least(want, s.cnt));
    hide Counted;
  }

  lemma SmallRing(s: State)
    requires Shape(s) && s.size < COUNTS
    ensures |s.received| - |s.taken| == s.cnt == |Waiting(s)| <= s.size
  {
  }

  lemma NextBytes(taken: seq<byte>, received: seq<byte>, n: nat)
    requires taken <= received && |taken| + n <= |received|
    ensures var w := received[|taken|..];
            var more := taken + received[|taken|..|taken| + n];
            more == taken + w[..n] && more <= received && received[|more|..] == w[n..]
  {
    var more := taken + received[|taken|..|taken| + n];
    assert more == received[..|taken| + n];
  }

  lemma ClaimKeepsInv(s: State)
    requires Inv(s) && Enabled(s, Claim)
    ensures Inv(Next(s, Claim))
  {
    ClaimKeepsPending(s);
    hide RingOk, Pending;
  }

  lemma NextKeepsInv(s: State, st: Step)
    requires Inv(s) && Enabled(s, st) && HasRoom(s, st)
    ensures Inv(Next(s, st))
  {
    hide Inv, RingOk;
    match st
    case Receive(data) => ReceiveKeepsInv(s, data);
    case Interrupt(event, n) => InterruptKeepsInv(s, event, n);
    case Deliver => DeliverKeepsInv(s);
    case Claim => ClaimKeepsInv(s);
    case _ => OtherStepsKeepInv(s, st);
  }

  // ----- runs -----

  function Initial(size: nat): State {
    State(0, size, 0, seq(SIGQSIZE, _ => K.Signal(0, 0)), 0, 0, 0, 0, false, Outside, Working, [], [], 0)
  }

  predicate Possible(s: State, steps: seq<Step>)
    decreases |steps|
  {
    steps == [] || (Shape(s) && Enabled(s, steps[0]) && Possible(Next(s, steps[0]), steps[1..]))
  }

  function After(s: State, steps: seq<Step>): State
    requires Possible(s, steps)
    decreases |steps|
  {
    if steps == [] then s else After(Next(s, steps[0]), steps[1..])
  }

  /** Every interrupt of the run found a slot to spare. */
  predicate Roomy(s: State, steps: seq<Step>)
    requires Possible(s, steps)
    decreases |steps|
  {
    steps == [] || (HasRoom(s, steps[0]) && Roomy(Next(s, steps[0]), steps[1..]))
  }

  lemma {:induction false} RunKeepsInv(s: State, steps: seq<Step>)
    requires Inv(s) && Possible(s, steps) && Roomy(s, steps)
    ensures Inv(After(s, steps))
    decreases |steps|
  {
    hide Inv, Enabled, Next, HasRoom;
    if steps != [] {
      NextKeepsInv(s, steps[0]);
      RunKeepsInv(Next(s, steps[0]), steps[1..]);
    }
  }

  lemma ShapeStays(s: State, st: Step)
    requires Shape(s) && Enabled(s, st)
    ensures Shape(Next(s, st))
  {
    match st
    case Receive(data) =>
      StoreCounts(|s.received|, |s.taken|, s.cnt, s.size, |Accepted(s.cnt, s.size, data)|);
      hide Counted;
    case Test =>
      if s.cnt != 0 {
        FetchCounts(s, s.reader.want);
      }
      hide Counted, Fetch;
    case _ =>
      hide Counted;
  }

  lemma {:induction false} RunKeepsShape(s: State, steps: seq<Step>)
    requires Shape(s) && Possible(s, steps)
    ensures Shape(After(s, steps)) && After(s, steps).size == s.size
    decreases |steps|
  {
    if steps != [] {
      ShapeStays(s, steps[0]);
      assert Next(s, steps[0]).size == s.size;
      hide Shape, Enabled, Next;
      RunKeepsShape(Next(s, steps[0]), steps[1..]);
    }
  }

  /** With a ring of fewer than 65536 bytes, after any run in which every interrupt repeats the newest
      signal or finds a slot to spare: a reader waiting while bytes are there has its signal under way,
      so procsigs will find it and the machine is not asleep; and the bytes read and the bytes waiting
      are, in order, those accepted, the others having been counted as overrun. */
  lemma NoLostWakeup(size: nat, steps: seq<Step>)
    requires size < COUNTS && Possible(Initial(size), steps) && Roomy(Initial(size), steps)
    ensures var s := After(Initial(size), steps);
            && Shape(s) && Unread(s) <= SIGQSIZE
            && (s.reader.Parked? && Waiting(s) != [] ==> Signalled(Pending(s)) && s.cpu != Asleep)
            && s.received == s.taken + Waiting(s) && |s.received| + s.overrun == s.arrived
  {
    assert Inv(Initial(size));
    RunKeepsInv(Initial(size), steps);
    RunKeepsShape(Initial(size), steps);
  }

  /** giveup never sleeps over a queued signal, whatever the run. */
  lemma NeverAsleepOverSignals(size: nat, steps: seq<Step>)
    requires Possible(Initial(size), steps)
    ensures var s := After(Initial(size), steps); s.cpu == Asleep ==> s.nentries == 0
  {
    hide Possible, After;
    HaltOkInRun(Initial(size), steps);
  }

  lemma {:induction false} HaltOkInRun(s: State, steps: seq<Step>)
    requires HaltOk(s) && Possible(s, steps)
    ensures HaltOk(After(s, steps))
    decreases |steps|
  {
    if steps != [] {
      HaltOkNext(s, steps[0]);
      hide HaltOk, Enabled, Next;
      HaltOkInRun(Next(s, steps[0]), steps[1..]);
    }
  }

  lemma HaltOkNext(s: State, st: Step)
    requires Shape(s) && HaltOk(s) && Enabled(s, st)
    ensures HaltOk(Next(s, st))
  {
  }

  // ----- the wake-up arrives -----

  predicate SameBytes(s: State, u: State) {
    u.cnt == s.cnt && u.size == s.size && u.taken == s.taken && u.received == s.received
  }

  /** procsigs, undisturbed. */
  function Drain(s: State): State
    requires RingOk(s) && s.cpu == Working
    decreases s.nentries
  {
    if s.nentries == 0 then s
    else
      ClaimKeepsPending(s);
      DeliverTakesFirst(Next(s, Claim));
      Drain(Next(Next(s, Claim), Deliver))
  }

  lemma ServeOne(s: State)
    requires Inv(s) && s.cpu == Working && s.nentries != 0
    ensures var s' := Next(Next(s, Claim), Deliver);
            && Inv(s') && s'.cpu == Working && s'.nentries == s.nentries - 1
            && Pending(s') == Pending(s)[1..] && SameBytes(s, s')
            && s'.reader == if s.reader.Parked? && Pending(s)[0].event == FIFO then Ready(s.reader.want) else s.reader
  {
    ClaimKeepsInv(s);
    ClaimKeepsPending(s);
    DeliverTakesFirst(Next(s, Claim));
    DeliverKeepsInv(Next(s, Claim));
  }

  lemma {:induction false} DrainWakes(s: State)
    requires Inv(s) && s.cpu == Working
    ensures Inv(Drain(s)) && Drain(s).cpu == Working && Drain(s).nentries == 0
    ensures SameBytes(s, Drain(s))
    ensures Drain(s).reader == if s.reader.Parked? && Signalled(Pending(s)) then Ready(s.reader.want) else s.reader
    decreases s.nentries
  {
    if s.nentries != 0 {
      ServeOne(s);
      var s', p := Next(Next(s, Claim), Deliver), Pending(s);
      assert forall j :: 0 < j < |p| ==> p[1..][j - 1] == p[j];
      assert Signalled(p) <==> p[0].event == FIFO || Signalled(p[1..]);
      hide Inv, RingOk, Pending, Signalled;
      DrainWakes(s');
    }
  }

  /** A reader parked over received bytes gets them: once the running process lets procsigs finish,
      the reader is ready, and dispatched it takes as many as it wants. */
  lemma ParkedReaderIsServed(s: State)
    requires Inv(s) && s.size < COUNTS && s.cpu == Working && s.reader.Parked? && Waiting(s) != []
    ensures var s1 := Drain(s);
            && Shape(s1) && Enabled(s1, Dispatch)
            && Shape(Next(s1, Dispatch)) && Enabled(Next(s1, Dispatch), Test)
            && var s2 := Next(Next(s1, Dispatch), Test);
               var n := Least(s.reader.want, |Waiting(s)|);
               s2.taken == s.taken + Waiting(s)[..n] && Waiting(s2) == Waiting(s)[n..] && s2.reader == Outside
  {
    DrainWakes(s);
    WaitingIsSignalled(s);
    hide Inv, Drain, Signalled, Shape, Next, Pending, RingOk;
    DispatchedReads(Drain(s), s.reader.want);
  }

  lemma WaitingIsSignalled(s: State)
    requires Inv(s) && s.size < COUNTS && s.reader.Parked? && Waiting(s) != []
    ensures RingOk(s) && Signalled(Pending(s))
  {
    SmallRing(s);
  }

  lemma DispatchedReads(s: State, want: nat)
    requires Inv(s) && s.size < COUNTS && s.cpu == Working && s.reader == Ready(want) && Waiting(s) != []
    ensures Shape(s) && Enabled(s, Dispatch)
    ensures Shape(Next(s, Dispatch)) && Enabled(Next(s, Dispatch), Test)
    ensures var u, n := Next(Next(s, Dispatch), Test), Least(want, |Waiting(s)|);
            u.taken == s.taken + Waiting(s)[..n] && Waiting(u) == Waiting(s)[n..] && u.reader == Outside
  {
    SmallRing(s);
    var v := s.(reader := Testing(want), cpu := Reading);
    assert Shape(v) && BytesOk(v) && Waiting(v) == Waiting(s);
    FetchKeeps(v, want);
    hide Counted, Fetch, Pending;
  }

  // ----- exactly when a signal is safe -----

  /** Put leaves the older signals as they were and makes sure of the new one. */
  predicate SafelyPut(s: State, sig: K.Signal)
    requires RingOk(s)
  {
    var s' := Put(s, sig);
    && 0 < Unread(s') <= SIGQSIZE && Pending(s) <= Pending(s')
    && Pending(s')[Unread(s') - 1].event == sig.event
  }

  /** An interrupt's signal is safe exactly if it repeats the newest one or a slot is to spare,
      counting the slot that procsigs has claimed but not read. */
  lemma SafelyPutExactly(s: State, sig: K.Signal)
    requires RingOk(s)
    ensures SafelyPut(s, sig) <==> Duplicate(s, sig) || Unread(s) < SIGQSIZE
  {
    if Unread(s) < SIGQSIZE {
      PutAppends(s, sig);
    }
  }

  // ----- the full ring -----

  /** A reader waits, a byte has come, and k other signals after it. */
  function Filled(k: nat): State
    requires k < SIGQSIZE
  {
    State(1, 10, 0,
          seq(SIGQSIZE, (i: nat) => if i == 0 then K.Signal(FIFO, 1) else if i <= k then Other(i) else K.Signal(0, 0)),
          Place(k, 1, SIGQSIZE), 0, k + 1, if k == 0 then FIFO else Other(k).event, false, Parked(1), Working,
          [7], [], 1)
  }

  function Other(i: nat): K.Signal {
    K.Signal(2 + i % 2, 1)
  }

  function Fill(k: nat): seq<Step> {
    if k == 0 then [Call(1), Test, Post, Receive([7])]
    else Fill(k - 1) + [Interrupt(2 + k % 2, 1)]
  }

  lemma {:induction false} Append(s: State, x: seq<Step>, y: seq<Step>)
    requires Possible(s, x) && Possible(After(s, x), y)
    ensures Possible(s, x + y) && After(s, x + y) == After(After(s, x), y)
    decreases |x|
  {
    hide Enabled, Next, Shape;
    if x == [] {
      assert x + y == y;
    } else {
      assert (x + y)[1..] == x[1..] + y;
      Append(Next(s, x[0]), x[1..], y);
    }
  }

  lemma OneStep(s: State, st: Step)
    requires Shape(s) && Enabled(s, st)
    ensures Possible(s, [st]) && After(s, [st]) == Next(s, st)
  {
    hide Enabled, Next, Shape;
    assert Possible(Next(s, st), [st][1..]);
  }

  lemma FillOne(k: nat)
    requires 0 < k < SIGQSIZE
    ensures Shape(Filled(k - 1)) && Next(Filled(k - 1), Interrupt(2 + k % 2, 1)) == Filled(k)
  {
    assert Filled(k - 1).slot[k := Other(k)] == Filled(k).slot;
  }

  lemma FillNone()
    ensures Possible(Initial(10), Fill(0)) && After(Initial(10), Fill(0)) == Filled(0)
  {
    var s := Initial(10);
    var s1 := Next(s, Call(1));
    var s2 := Next(s1, Test);
    var s3 := Next(s2, Post);
    assert Next(s3, Receive([7])).slot == Filled(0).slot;
    OneStep(s, Call(1));
    OneStep(s1, Test);
    OneStep(s2, Post);
    OneStep(s3, Receive([7]));
    Append(s, [Call(1)], [Test]);
    Append(s, [Call(1)] + [Test], [Post]);
    Append(s, [Call(1)] + [Test] + [Post], [Receive([7])]);
    assert Fill(0) == [Call(1)] + [Test] + [Post] + [Receive([7])];
  }

  lemma {:induction false} FillReaches(k: nat)
    requires k < SIGQSIZE
    ensures Possible(Initial(10), Fill(k)) && After(Initial(10), Fill(k)) == Filled(k)
  {
    if k == 0 {
      FillNone();
    } else {
      FillReaches(k - 1);
      FillOne(k);
      hide Filled, Initial, Next;
      OneStep(Filled(k - 1), Interrupt(2 + k % 2, 1));
      Append(Initial(10), Fill(k - 1), [Interrupt(2 + k % 2, 1)]);
    }
  }

  /** Fill the ring, claim the oldest entry, take one more interrupt, deliver. */
  function Overflow(): seq<Step> {
    Fill(SIGQSIZE - 1) + ([Claim] + ([Interrupt(4, 1)] + [Deliver]))
  }

  /** One interrupt too many, with the ring full and an entry claimed, overwrites that entry: the
      reader is left waiting over a received byte, with no signal under way. */
  lemma FullRingLosesTheWakeup()
    ensures Possible(Initial(10), Overflow())
    ensures var s := After(Initial(10), Overflow());
            && s.reader.Parked? && Waiting(s) != [] && s.cpu == Working
            && forall i :: 0 <= i < |s.slot| ==> s.slot[i].event != FIFO
  {
    var k := SIGQSIZE - 1;
    FillReaches(k);
    var s := Filled(k);
    var s1 := Next(s, Claim);
    var s2 := Next(s1, Interrupt(4, 1));
    var s3 := Next(s2, Deliver);
    OneStep(s2, Deliver);
    OneStep(s1, Interrupt(4, 1));
    OneStep(s, Claim);
    Append(s1, [Interrupt(4, 1)], [Deliver]);
    Append(s, [Claim], [Interrupt(4, 1)] + [Deliver]);
    Append(Initial(10), Fill(k), [Claim] + ([Interrupt(4, 1)] + [Deliver]));
  }

  // ----- rings of 65536 bytes and more -----

  function Chunk(): (c: seq<byte>)
    ensures |c| == READ
  {
    seq(READ, _ => 7)
  }

  function Burst(k: nat): seq<Step> {
    if k == 0 then [] else Burst(k - 1) + [Receive(Chunk())]
  }

  /** k reads of 1024 bytes have come, and nobody has looked. */
  function Flooded(k: nat, size: nat): State {
    State(READ * k % COUNTS, size, 0,
          seq(SIGQSIZE, (i: nat) => if i == 0 && k > 0 then K.Signal(FIFO, 1) else K.Signal(0, 0)),
          if k > 0 then 1 else 0, 0, if k > 0 then 1 else 0, if k > 0 then FIFO else 0, false, Outside, Working,
          seq(READ * k, _ => 7), [], READ * k)
  }

  lemma BurstOne(k: nat, size: nat)
    requires k < 64 && size >= COUNTS
    ensures Shape(Flooded(k, size)) && HasRoom(Flooded(k, size), Receive(Chunk()))
    ensures Next(Flooded(k, size), Receive(Chunk())) == Flooded(k + 1, size)
  {
    var s, u := Flooded(k, size), Flooded(k + 1, size);
    assert Accepted(s.cnt, s.size, Chunk()) == Chunk();
    assert s.received + Chunk() == u.received;
    if k == 0 {
      assert s.slot[0 := K.Signal(FIFO, 1)] == u.slot;
    } else {
      assert s.slot == u.slot;
    }
  }

  lemma {:induction false} RoomyAppend(s: State, x: seq<Step>, y: seq<Step>)
    requires Possible(s, x) && Roomy(s, x) && Possible(After(s, x), y) && Roomy(After(s, x), y)
    ensures Possible(s, x + y) && Roomy(s, x + y)
    decreases |x|
  {
    Append(s, x, y);
    hide Enabled, Next, Shape, HasRoom;
    if x == [] {
      assert x + y == y;
    } else {
      assert (x + y)[1..] == x[1..] + y;
      RoomyAppend(Next(s, x[0]), x[1..], y);
    }
  }

  lemma OneRoomy(s: State, st: Step)
    requires Shape(s) && Enabled(s, st) && HasRoom(s, st)
    ensures Possible(s, [st]) && Roomy(s, [st])
  {
    OneStep(s, st);
    hide Enabled, Next, Shape, HasRoom;
    assert Roomy(Next(s, st), [st][1..]);
  }

  lemma {:induction false} BurstReaches(k: nat, size: nat)
    requires k <= 64 && size >= COUNTS
    ensures Possible(Initial(size), Burst(k)) && Roomy(Initial(size), Burst(k))
    ensures After(Initial(size), Burst(k)) == Flooded(k, size)
  {
    if k == 0 {
      assert Initial(size).slot == Flooded(0, size).slot;
    } else {
      BurstReaches(k - 1, size);
      BurstOne(k - 1, size);
      hide Flooded, Initial, Next, Shape, HasRoom;
      OneStep(Flooded(k - 1, size), Receive(Chunk()));
      OneRoomy(Flooded(k - 1, size), Receive(Chunk()));
      Append(Initial(size), Burst(k - 1), [Receive(Chunk())]);
      RoomyAppend(Initial(size), Burst(k - 1), [Receive(Chunk())]);
    }
  }

  /** procsigs serves the one signal; then the reader comes and looks. */
  function Look(): seq<Step> {
    [Claim] + ([Deliver] + ([Call(1)] + ([Test] + [Post])))
  }

  lemma Before(s: State, st: Step, rest: seq<Step>)
    requires Shape(s) && Enabled(s, st) && HasRoom(s, st)
    requires Possible(Next(s, st), rest) && Roomy(Next(s, st), rest)
    ensures Possible(s, [st] + rest) && Roomy(s, [st] + rest) && After(s, [st] + rest) == After(Next(s, st), rest)
  {
    OneStep(s, st);
    OneRoomy(s, st);
    hide Enabled, Next, Shape, HasRoom;
    Append(s, [st], rest);
    RoomyAppend(s, [st], rest);
  }

  lemma LookReaches(size: nat)
    requires size >= COUNTS
    ensures var s := Flooded(64, size);
            && Possible(s, Look()) && Roomy(s, Look())
            && After(s, Look()) == s.(nentries := 0, rp := 1, reader := Parked(1))
  {
    var s := Flooded(64, size);
    assert s.cnt == 0 && s.slot[0] == K.Signal(FIFO, 1);
    var s1 := s.(nentries := 0, cpu := Serving);
    var s2 := s.(nentries := 0, rp := 1);
    var s3 := s2.(reader := Testing(1), cpu := Reading);
    var s4 := s2.(reader := Posting(1), cpu := Reading);
    assert Shape(s) && Shape(s1) && Shape(s2) && Shape(s3) && Shape(s4);
    assert Next(s, Claim) == s1 && Next(s1, Deliver) == s2 && Next(s2, Call(1)) == s3 && Next(s3, Test) == s4;
    OneStep(s4, Post);
    OneRoomy(s4, Post);
    hide Shape, Next, Flooded;
    Before(s3, Test, [Post]);
    Before(s2, Call(1), [Test] + [Post]);
    Before(s1, Deliver, [Call(1)] + ([Test] + [Post]));
    Before(s, Claim, [Deliver] + ([Call(1)] + ([Test] + [Post])));
  }

  /** The reader waits while bytes do, and no signal for it is under way. */
  ghost predicate Overslept(s: State) {
    s.reader.Parked? && Waiting(s) != [] && !(RingOk(s) && Signalled(Pending(s)))
  }

  /** Sixty-four reads of 1024 bytes bring the count of a ring that large back to zero. */
  lemma CountWrapsAround(size: nat)
    requires size >= COUNTS
    ensures var steps := Burst(64) + Look();
            && Possible(Initial(size), steps) && Roomy(Initial(size), steps)
            && var s := After(Initial(size), steps);
               Overslept(s) && s.cnt == 0 && |Waiting(s)| == COUNTS
  {
    BurstReaches(64, size);
    LookReaches(size);
    var s := Flooded(64, size).(nentries := 0, rp := 1, reader := Parked(1));
    assert |Waiting(s)| == COUNTS && (RingOk(s) ==> Pending(s) == []);
    hide Initial, Flooded, Shape;
    Append(Initial(size), Burst(64), Look());
    RoomyAppend(Initial(size), Burst(64), Look());
  }

  /** The count says how many bytes wait, whatever the run, exactly if the ring has fewer than 65536. */
  lemma CountIsRightExactly(size: nat)
    ensures (forall steps: seq<Step> :: Possible(Initial(size), steps) ==>
               var s := After(Initial(size), steps); s.cnt == |Waiting(s)|)
            <==> size < COUNTS
  {
    if size < COUNTS {
      forall steps: seq<Step> | Possible(Initial(size), steps)
        ensures var s := After(Initial(size), steps); s.cnt == |Waiting(s)|
      {
        RunKeepsShape(Initial(size), steps);
      }
    } else {
      CountWrapsAround(size);
      assert Possible(Initial(size), Burst(64) + Look());
    }
  }

  /** No wake-up is lost, in any run in which interrupts find room for their signals, exactly if the
      ring has fewer than 65536 bytes. */
  lemma NoLostWakeupExactly(size: nat)
    ensures (forall steps: seq<Step> :: Possible(Initial(size), steps) && Roomy(Initial(size), steps) ==>
               !Overslept(After(Initial(size), steps)))
            <==> size < COUNTS
  {
    if size < COUNTS {
      forall steps: seq<Step> | Possible(Initial(size), steps) && Roomy(Initial(size), steps)
        ensures !Overslept(After(Initial(size), steps))
      {
        NoLostWakeup(size, steps);
        assert Inv(Initial(size));
        RunKeepsInv(Initial(size), steps);
      }
    } else {
      CountWrapsAround(size);
      assert Roomy(Initial(size), Burst(64) + Look());
    }
  }
}
