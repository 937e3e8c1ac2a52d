/** The recycle as the program writes it (offset = bid), driven in lock step: each pick is recycled
    before the next pick. */
module RingLockStep {
  import opened Bits
  import opened Seqs
  import opened RingSpec

  datatype Drive = Drive(ring: Ring, head: nat)

  /** One pick at the head, then the written recycle of the bid picked. */
  function Turn(d: Drive, entrySize: nat): (d': Drive)
    requires |d.ring.slots| > 0
    ensures |d'.ring.slots| == |d.ring.slots|
  {
    var bid := BidAt(d.ring, d.head);
    Drive(Advance(Add(d.ring, BufferOf(bid, entrySize), bid), 1), NextHead(d.head))
  }

  function Turns(n: nat, entrySize: nat, k: nat): (d: Drive)
    requires n > 0
    ensures |d.ring.slots| == n
  {
    if k == 0 then Drive(InitRing(n, entrySize), 0) else Turn(Turns(n, entrySize, k - 1), entrySize)
  }

  /** The bid slot `j` holds after `k` turns, k <= n: bid 1 spreads one slot per turn, and
      reaches slot 0 last. */
  function BidAfter(n: nat, k: nat, j: nat): nat {
    if 1 <= j <= k then 1
    else if j == 0 then (if k >= n then 1 else 0)
    else j
  }

  ghost predicate Holds(n: nat, k: nat, slots: seq<Slot>) {
    |slots| == n && forall j :: 0 <= j < n ==> slots[j].bid == BidAfter(n, k, j)
  }

  ghost predicate Spread(n: nat, k: nat, d: Drive) {
    && d.ring.tail == (n + k) % U16 && d.head == k % U16
    && Holds(n, k, d.ring.slots)
  }

  lemma FirstTurn(n: nat, entrySize: nat)
    requires Entries(n) && n >= 2
    ensures Spread(n, 1, Turns(n, entrySize, 1))
  {
    var d := Turns(n, entrySize, 0);
    ModuloUnique(0, n, 0, 0);
    assert BidAt(d.ring, 0) == 0;
    ModuloShift(0, n);
    assert (d.ring.tail + 0) % n == 0;
  }

  /** Where turn k + 1 writes: the next slot, or slot 0 when it closes the round. */
  lemma SlotWritten(n: nat, k: nat)
    requires Entries(n) && 1 <= k < n
    ensures ((n + k) % U16 + 1) % n == if k + 1 < n then k + 1 else 0
  {
    WrappedIndex(n + k, 1, n);
    ModuloShift(k + 1, n);
    if k + 1 < n {
      ModuloUnique(k + 1, n, 0, k + 1);
    } else {
      ModuloUnique(k + 1, n, 1, 0);
    }
  }

  lemma WriteSpreads(n: nat, k: nat, slots: seq<Slot>, s: Slot)
    requires n >= 2 && 1 <= k < n && Holds(n, k, slots) && s.bid == 1
    ensures Holds(n, k + 1, slots[if k + 1 < n then k + 1 else 0 := s])
  {
  }

  lemma LaterTurn(n: nat, entrySize: nat, k: nat, d: Drive)
    requires Entries(n) && n >= 2 && 1 <= k < n && Spread(n, k, d)
    ensures Spread(n, k + 1, Turn(d, entrySize))
  {
    HeadIsOne(n, k, d);
    var w := if k + 1 < n then k + 1 else 0;
    SlotWritten(n, k);
    TurnWrites(d, entrySize, w);
    WriteSpreads(n, k, d.ring.slots, BufferOf(1, entrySize));
    Wrapped(n + k);
    Wrapped(k);
  }

  lemma Wrapped(x: nat)
    ensures (x % U16 + 1) % U16 == (x + 1) % U16
  {
  }

  lemma HeadIsOne(n: nat, k: nat, d: Drive)
    requires Entries(n) && n >= 2 && 1 <= k < n && Spread(n, k, d)
    ensures BidAt(d.ring, d.head) == 1
  {
    ModuloUnique(k, n, 0, k);
    assert d.head == k && k % n == k;
    assert d.ring.slots[k].bid == BidAfter(n, k, k);
  }

  lemma TurnWrites(d: Drive, entrySize: nat, w: nat)
    requires w < |d.ring.slots| && (d.ring.tail + 1) % |d.ring.slots| == w && BidAt(d.ring, d.head) == 1
    ensures Turn(d, entrySize)
         == Drive(Ring(d.ring.slots[w := BufferOf(1, entrySize)], (d.ring.tail + 1) % U16), NextHead(d.head))
  {
  }

  lemma {:induction false} UpToOneRound(n: nat, entrySize: nat, k: nat)
    requires Entries(n) && n >= 2 && 1 <= k <= n
    ensures Spread(n, k, Turns(n, entrySize, k))
  {
    if k == 1 {
      FirstTurn(n, entrySize);
    } else {
      UpToOneRound(n, entrySize, k - 1);
      LaterTurn(n, entrySize, k - 1, Turns(n, entrySize, k - 1));
    }
  }

  /** After one round, and from then on, every slot offers bid 1. */
  lemma {:induction false} OneBidEverywhere(n: nat, entrySize: nat, k: nat)
    requires Entries(n) && n >= 2 && k >= n
    ensures forall j :: 0 <= j < n ==> Turns(n, entrySize, k).ring.slots[j].bid == 1
    decreases k
  {
    if k == n {
      UpToOneRound(n, entrySize, n);
    } else {
      OneBidEverywhere(n, entrySize, k - 1);
      var d := Turns(n, entrySize, k - 1);
      assert BidAt(d.ring, d.head) == 1;
    }
  }

  ghost predicate Full(d: Drive) {
    WellFormed(d.ring) && d.head < U16 && Count(d.ring, d.head) == |d.ring.slots|
  }

  lemma TurnKeepsFull(d: Drive, entrySize: nat)
    requires Full(d)
    ensures Full(Turn(d, entrySize))
  {
    DistanceKept(d.ring.tail, d.head);
  }

  lemma DistanceKept(t: nat, h: nat)
    requires t < U16 && h < U16
    ensures ((t + 1) % U16 - (h + 1) % U16) % U16 == (t - h) % U16
  {
  }

  lemma {:induction false} AlwaysFull(n: nat, entrySize: nat, k: nat)
    requires Entries(n)
    ensures n > 0 && Full(Turns(n, entrySize, k))
  {
    if k > 0 {
      AlwaysFull(n, entrySize, k - 1);
      TurnKeepsFull(Turns(n, entrySize, k - 1), entrySize);
    }
  }

  ghost predicate EachBidOnce(n: nat, v: seq<nat>) {
    multiset(v) == multiset(Range(n))
  }

  /** In lock step the ring keeps offering every buffer exactly once if and only if at most one
      completion has been recycled (or there is a single buffer). */
  lemma LockStepConservesIff(n: nat, entrySize: nat, k: nat)
    requires Entries(n)
    ensures n > 0
    ensures EachBidOnce(n, Visible(Turns(n, entrySize, k).ring, Turns(n, entrySize, k).head)) <==> n == 1 || k <= 1
  {
    AlwaysFull(n, entrySize, k);
    var d := Turns(n, entrySize, k);
    var v := Visible(d.ring, d.head);
    if k == 0 {
      InitExposesAll(n, entrySize);
    } else if n == 1 {
      SingleBuffer(entrySize, k);
      assert v[0] == BidAt(d.ring, d.head + 0) == 0;
      assert v == Range(1);
    } else if k == 1 {
      UpToOneRound(n, entrySize, 1);
      OneTurnKeepsAll(n, d);
    } else {
      var i, j := TwoSlotsOfferOne(n, entrySize, k);
      SharedBidShowsTwice(d, i, j);
      RangeHolds(n, 1);
    }
  }

  lemma SharedBidShowsTwice(d: Drive, i: nat, j: nat)
    requires Full(d) && i < |d.ring.slots| && j < |d.ring.slots| && i != j
    requires d.ring.slots[i].bid == d.ring.slots[j].bid
    ensures multiset(Visible(d.ring, d.head))[d.ring.slots[i].bid] >= 2
  {
    var v := Visible(d.ring, d.head);
    var p := PlaceOf(d, i);
    var q := PlaceOf(d, j);
    if p < q { TwiceInMultiset(v, p, q); } else { TwiceInMultiset(v, q, p); }
  }

  /** Where in the queue slot i comes up. */
  lemma PlaceOf(d: Drive, i: nat) returns (p: nat)
    requires Full(d) && i < |d.ring.slots|
    ensures p < |d.ring.slots| && (d.head + p) % |d.ring.slots| == i
    ensures Visible(d.ring, d.head)[p] == d.ring.slots[i].bid
  {
    p := (i - d.head) % |d.ring.slots|;
    ResiduePosition(d.head, i, p, |d.ring.slots|);
    assert Visible(d.ring, d.head)[p] == BidAt(d.ring, d.head + p);
  }

  lemma {:induction false} SingleBuffer(entrySize: nat, k: nat)
    ensures Turns(1, entrySize, k).ring.slots[0].bid == 0
  {
    if k > 0 { SingleBuffer(entrySize, k - 1); }
  }

  lemma OneTurnKeepsAll(n: nat, d: Drive)
    requires Entries(n) && n >= 2 && Spread(n, 1, d)
    ensures EachBidOnce(n, Visible(d.ring, d.head))
  {
    var v := Visible(d.ring, d.head);
    assert Count(d.ring, d.head) == n;
    forall i | 0 <= i < n
      ensures v[i] == if i < n - 1 then i + 1 else 0
    {
      if i < n - 1 { ModuloUnique(1 + i, n, 0, 1 + i); } else { ModuloUnique(1 + i, n, 1, 0); }
      assert v[i] == BidAt(d.ring, 1 + i);
    }
    var tail := Range(n)[1..];
    assert v == tail + [0];
    assert Range(n) == [0] + tail;
  }

  lemma TwoSlotsOfferOne(n: nat, entrySize: nat, k: nat) returns (i: nat, j: nat)
    requires Entries(n) && n >= 2 && k >= 2
    ensures i < n && j < n && i != j
    ensures Turns(n, entrySize, k).ring.slots[i].bid == 1 == Turns(n, entrySize, k).ring.slots[j].bid
  {
    i, j := 1, if n == 2 then 0 else 2;
    if k <= n {
      UpToOneRound(n, entrySize, k);
    } else {
      OneBidEverywhere(n, entrySize, k);
    }
  }
}
