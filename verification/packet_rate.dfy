/** The packet rate counter of internal/stats/packet_rate.go: what its ring buffer really
    counts, and the repaired rotation that counts what its name says. */
module PacketRates {
  const WORD: nat := 0x1_0000_0000_0000_0000

  type Word = w: int | 0 <= w < WORD

  /** 64-bit wrap-around. */
  function Wrap(n: int): Word { n % WORD }

  lemma WrapSub(a: int, b: int)
    ensures Wrap(Wrap(a) - Wrap(b)) == Wrap(a - b)
    ensures Wrap(0) == 0
  {
  }

  lemma WrapInc(a: int)
    ensures Wrap(Wrap(a) + 1) == Wrap(a + 1)
  {
  }

  /** The place after `cur` in a ring. */
  function Advance(cur: nat, size: nat): (next: nat)
    requires cur < size
    ensures next == if cur + 1 == size then 0 else cur + 1
  {
    (cur + 1) % size
  }

  // ---------- what there is to count ----------

  datatype Event = Packet | Tick

  /** The packets of the last k intervals, the current one included. */
  function Window(history: seq<Event>, k: nat): nat {
    if history == [] || k == 0 then 0
    else
      var front := history[..|history| - 1];
      match history[|history| - 1]
      case Packet => Window(front, k) + 1
      case Tick => Window(front, k - 1)
  }

  /** The packets of the j-th interval back; the current one is interval 0. */
  function Interval(history: seq<Event>, j: nat): nat {
    if history == [] then 0
    else
      var front := history[..|history| - 1];
      match history[|history| - 1]
      case Packet => Interval(front, j) + if j == 0 then 1 else 0
      case Tick => if j == 0 then 0 else Interval(front, j - 1)
  }

  lemma {:induction false} WindowIsIntervals(history: seq<Event>, k: nat)
    ensures Window(history, k + 1) == Window(history, k) + Interval(history, k)
  {
    if history != [] {
      var front := history[..|history| - 1];
      match history[|history| - 1]
      case Packet =>
        WindowIsIntervals(front, k);
        if k == 0 {
          assert Window(front, 0) == 0;
        }
      case Tick =>
        if k > 0 {
          WindowIsIntervals(front, k - 1);
        }
    }
  }

  lemma OneMore(history: seq<Event>, e: Event, k: nat)
    ensures Window(history + [e], k) ==
      if k == 0 then 0 else if e == Packet then Window(history, k) + 1 else Window(history, k - 1)
    ensures Interval(history + [e], k) ==
      if e == Packet then Interval(history, k) + (if k == 0 then 1 else 0) else if k == 0 then 0 else Interval(history, k - 1)
  {
    assert (history + [e])[..|history + [e]| - 1] == history;
  }

  /** The packets since the last tick are those of the whole window iff the intervals before
      were empty. */
  lemma {:induction false} WindowGrows(history: seq<Event>, size: nat)
    requires size > 0
    ensures Window(history, 1) <= Window(history, size)
    ensures Window(history, 1) == Window(history, size) <==> forall j | 1 <= j < size :: Interval(history, j) == 0
  {
    if size > 1 {
      WindowGrows(history, size - 1);
      WindowIsIntervals(history, size - 1);
    }
  }

  // ---------- the counter as it is ----------

  class PacketRate {
    const size: nat
    const buckets: array<Word>
    var cur: nat
    var total: Word
    ghost var history: seq<Event>

    /** Every bucket but the current one is zero, so the total is that bucket alone. */
    ghost predicate Valid()
      reads this, buckets
    {
      && 0 < size == buckets.Length && cur < size
      && (forall i | 0 <= i < size :: i != cur ==> buckets[i] == 0)
      && total == buckets[cur] == Wrap(Window(history, 1))
    }

    constructor (size: int)
      ensures Valid() && fresh(buckets) && history == [] && this.size == if size <= 0 then 60 else size
    {
      this.size := if size <= 0 then 60 else size;
      buckets := new Word[if size <= 0 then 60 else size](_ => 0);
      cur, total, history := 0, 0, [];
    }

    method Inc()
      requires Valid()
      modifies this, buckets
      ensures Valid() && history == old(history) + [Packet]
    {
      OneMore(history, Packet, 1);
      var n: int, t: int := buckets[cur], total;
      buckets[cur], total := Wrap(n + 1), Wrap(t + 1);
      history := history + [Packet];
    }

    /** Clears the bucket that it is leaving. */
    method Rotate()
      requires Valid()
      modifies this, buckets
      ensures Valid() && history == old(history) + [Tick]
    {
      OneMore(history, Tick, 1);
      total := Wrap(total - buckets[cur]);
      buckets[cur] := 0;
      cur := Advance(cur, size);
      history := history + [Tick];
    }

    /** The packets since the last tick, spread over the whole window. */
    method Rate() returns (r: real)
      requires Valid()
      ensures r == Wrap(Window(history, 1)) as real / size as real
    {
      r := total as real / size as real;
    }
  }

  /** Rate is the average over the window iff there were no packets before the last tick (as
      long as the counts fit 64 bits). */
  lemma RateIsAverageIff(history: seq<Event>, size: nat)
    requires size > 0 && Window(history, size) < WORD
    ensures Wrap(Window(history, 1)) as real / size as real == Window(history, size) as real / size as real
      <==> forall j | 1 <= j < size :: Interval(history, j) == 0
  {
    hide Window, Interval, Wrap;
    WindowGrows(history, size);
    WrapSmall(Window(history, 1));
    SameQuotient(Window(history, 1), Window(history, size), size);
  }

  lemma WrapSmall(n: nat)
    requires n < WORD
    ensures Wrap(n) == n
  {
  }

  lemma SameQuotient(a: nat, b: nat, n: nat)
    requires n > 0
    ensures a as real / n as real == b as real / n as real <==> a == b
  {
    var r := n as real;
    assert a as real / r * r == a as real && b as real / r * r == b as real;
  }

  /** A packet, then a tick: the counter says 0, the last minute had one packet. */
  lemma TickForgets()
    ensures Wrap(Window([Packet, Tick], 1)) == 0 && Window([Packet, Tick], 60) == 1
  {
    OneMore([], Packet, 0);
    OneMore([], Packet, 59);
    assert [] + [Packet] == [Packet];
    OneMore([Packet], Tick, 1);
    OneMore([Packet], Tick, 60);
    assert [Packet] + [Tick] == [Packet, Tick];
  }

  // ---------- the repaired rotation ----------

  /** The same counter with a rotation that advances first and then clears the bucket that
      it has reached, which is the oldest one. */
  class SlidingRate {
    const size: nat
    const buckets: array<Word>
    var cur: nat
    var total: Word
    ghost var history: seq<Event>

    /** Where the count of the j-th interval back is kept. */
    function At(j: nat): nat
      requires cur < size && j < size
      reads this
    {
      if j <= cur then cur - j else cur + size - j
    }

    ghost predicate Valid()
      reads this, buckets
    {
      && 0 < size == buckets.Length && cur < size
      && (forall j | 0 <= j < size :: buckets[At(j)] == Wrap(Interval(history, j)))
      && total == Wrap(Window(history, size))
    }

    constructor (size: int)
      ensures Valid() && fresh(buckets) && history == [] && this.size == if size <= 0 then 60 else size
    {
      this.size := if size <= 0 then 60 else size;
      buckets := new Word[if size <= 0 then 60 else size](_ => 0);
      cur, total, history := 0, 0, [];
    }

    method Inc()
      requires Valid()
      modifies this, buckets
      ensures Valid() && history == old(history) + [Packet]
    {
      hide Window, Interval, Wrap;
      WrapInc(Window(history, size));
      WrapInc(Interval(history, 0));
      forall j: nat ensures Interval(history + [Packet], j) == Interval(history, j) + if j == 0 then 1 else 0 {
        OneMore(history, Packet, j);
      }
      OneMore(history, Packet, size);
      var n: int, t: int := buckets[cur], total;
      buckets[cur], total := Wrap(n + 1), Wrap(t + 1);
      history := history + [Packet];
    }

    method Rotate()
      requires Valid()
      modifies this, buckets
      ensures Valid() && history == old(history) + [Tick]
    {
      hide Window, Interval, Wrap, Advance;
      forall j: nat ensures Interval(history + [Tick], j) == if j == 0 then 0 else Interval(history, j - 1) {
        OneMore(history, Tick, j);
      }
      OneMore(history, Tick, size);
      WindowIsIntervals(history, size - 1);
      WrapSub(Window(history, size), Interval(history, size - 1));
      assert At(size - 1) == Advance(cur, size);
      cur := Advance(cur, size);
      total := Wrap(total - buckets[cur]);
      buckets[cur] := 0;
      history := history + [Tick];
    }

    /** The average over the last `size` intervals. */
    method Rate() returns (r: real)
      requires Valid()
      ensures r == Wrap(Window(history, size)) as real / size as real
    {
      r := total as real / size as real;
    }
  }
}
