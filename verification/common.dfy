/** What several cores share. */
module Common {
  datatype Option<+T> = None | Some(value: T)

  /** The smaller one; a negative count is none. */
  function Least(m: int, n: nat): nat {
    if m < 0 then 0 else if m < n then m else n
  }
}

/** Lists without repetition, and removing from them. */
module Lists {
  ghost predicate Distinct<P>(s: seq<P>) {
    forall j, l :: 0 <= j < l < |s| ==> s[j] != s[l]
  }

  ghost function Without<P>(s: seq<P>, p: P): seq<P> {
    if s == [] then [] else if s[0] == p then s[1..] else [s[0]] + Without(s[1..], p)
  }

  lemma {:induction false} WithoutAt<P>(s: seq<P>, j: nat)
    requires j < |s| && Distinct(s)
    ensures Without(s, s[j]) == s[..j] + s[j + 1..]
    decreases |s|
  {
    if j > 0 {
      WithoutAt(s[1..], j - 1);
      assert s[1..][..j - 1] == s[1..j];
      assert s[..j] == [s[0]] + s[1..j];
    }
  }

  lemma WithoutMembers<P>(s: seq<P>, p: P)
    requires Distinct(s) && p in s
    ensures Distinct(Without(s, p)) && p !in Without(s, p)
    ensures forall x :: x in s && x != p ==> x in Without(s, p)
    ensures forall x :: x in Without(s, p) ==> x in s
    ensures |Without(s, p)| == |s| - 1
  {
    var j :| 0 <= j < |s| && s[j] == p;
    WithoutAt(s, j);
    var t := s[..j] + s[j + 1..];
    forall x | x in s && x != p
      ensures x in t
    {
      var m :| 0 <= m < |s| && s[m] == x;
      assert m < j ==> t[m] == x;
      assert m > j ==> t[m - 1] == x;
    }
  }
}

/** The source's integer widths. */
module Machine {
  const HALF: int := 0x8000_0000

  /** Conversion to a two's complement int32. */
  function I32(x: int): (r: int)
    ensures -HALF <= r < HALF
  {
    (x + HALF) % 0x1_0000_0000 - HALF
  }

  /** Subtracting wrapped tick counts gives their true distance, within half the range. */
  lemma WrappedDifference(a: int, b: int)
    requires -HALF <= a - b < HALF
    ensures I32(I32(a) - I32(b)) == a - b
  {
  }

  lemma WrappedSum(a: int, d: int)
    ensures I32(I32(a) + d) == I32(a + d)
  {
  }
}

/** Remainders of natural numbers, as places in a ring. */
module Modular {
  /** i % n. */
  function Slot(i: nat, n: nat): (s: nat)
    requires n > 0
    ensures s < n
  {
    i % n
  }

  /** The place j behind start in a ring of n, counted without a division. */
  function Place(start: nat, j: nat, n: nat): (i: nat)
    ensures start < n && j <= n ==> i < n
  {
    if start + j >= n then start + j - n else start + j
  }

  lemma {:induction false} NextMultiple(p: nat, q: nat, n: nat)
    requires p < q
    ensures p * n + n <= q * n
  {
    if p + 1 == q {
      assert q * n == p * n + n;
    } else {
      NextMultiple(p, q - 1, n);
      assert q * n == (q - 1) * n + n;
    }
  }

  /** Quotient and remainder are unique. */
  lemma Unique(x: nat, q: nat, r: nat, n: nat)
    requires n > 0 && r < n && x == q * n + r
    ensures x % n == r
  {
    var p, s := x / n, x % n;
    assert x == p * n + s;
    if q > p {
      NextMultiple(p, q, n);
    } else if p > q {
      NextMultiple(q, p, n);
    }
  }

  /** x is q rounds and r. */
  ghost predicate Rounds(x: nat, q: nat, r: nat, n: nat) {
    r < n && x == q * n + r
  }

  lemma SlotRounds(x: nat, q: nat, r: nat, n: nat)
    requires n > 0 && Rounds(x, q, r, n)
    ensures Slot(x, n) == r
  {
    Unique(x, q, r, n);
  }

  lemma InRounds(x: nat, n: nat)
    requires n > 0
    ensures Rounds(x, x / n, Slot(x, n), n)
  {
  }

  lemma AddRounds(a: nat, q: nat, s: nat, b: nat, p: nat, r: nat, n: nat)
    requires Rounds(a, q, s, n) && Rounds(s + b, p, r, n)
    ensures Rounds(a + b, q + p, r, n)
  {
    assert (q + p) * n == q * n + p * n;
  }

  lemma SlotOfSum(a: nat, b: nat, n: nat)
    requires n > 0
    ensures Slot(Slot(a, n) + b, n) == Slot(a + b, n)
  {
    hide *;
    InRounds(a, n);
    InRounds(Slot(a, n) + b, n);
    AddRounds(a, a / n, Slot(a, n), b, (Slot(a, n) + b) / n, Slot(Slot(a, n) + b, n), n);
    SlotRounds(a + b, a / n + (Slot(a, n) + b) / n, Slot(Slot(a, n) + b, n), n);
  }

  lemma PlaceIsSlot(start: nat, j: nat, n: nat)
    requires start < n && j <= n
    ensures Place(start, j, n) == Slot(start + j, n)
  {
    if start + j >= n {
      Unique(start + j, 1, start + j - n, n);
    } else {
      Unique(start + j, 0, start + j, n);
    }
  }

  /** Different lines of the last size have different slots. */
  lemma SlotsDiffer(a: nat, b: nat, n: nat)
    requires a < b < a + n
    ensures Slot(a, n) != Slot(b, n)
  {
    var q, p := a / n, b / n;
    assert a == q * n + a % n && b == p * n + b % n;
    if p > q {
      NextMultiple(q, p, n);
    } else if p < q {
      NextMultiple(p, q, n);
    }
  }

  lemma SlotRepeats(i: nat, n: nat)
    requires n > 0
    ensures Slot(i + n, n) == Slot(i, n)
  {
    var q := i / n;
    assert i == q * n + i % n;
    assert (q + 1) * n == q * n + n;
    Unique(i + n, q + 1, i % n, n);
  }

  /** Counting on in a ring. */
  lemma SlotOfNext(i: nat, n: nat)
    requires n > 0
    ensures Slot(i + 1, n) == if Slot(i, n) + 1 >= n then 0 else Slot(i, n) + 1
  {
    InRounds(i, n);
    var q, s := i / n, Slot(i, n);
    assert (q + 1) * n == q * n + n;
    if s + 1 >= n {
      SlotRounds(i + 1, q + 1, 0, n);
    } else {
      SlotRounds(i + 1, q, s + 1, n);
    }
  }
}
