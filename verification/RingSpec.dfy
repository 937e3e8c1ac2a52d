/** The provided-buffer ring as a value: slots, a 16-bit tail owned by the application and a
    16-bit head owned by the kernel. */
module RingSpec {
  import opened Bits
  import opened Seqs

  datatype Slot = Slot(addr: nat, len: nat, bid: nat)

  datatype Ring = Ring(slots: seq<Slot>, tail: nat)

  const MAX_ENTRIES := 0x8000

  ghost predicate Entries(n: nat) {
    IsPow2(n) && n <= MAX_ENTRIES
  }

  ghost predicate WellFormed(r: Ring) {
    Entries(|r.slots|) && r.tail < U16
  }

  /** The record that hands buffer `bid` to the kernel. */
  function BufferOf(bid: nat, entrySize: nat): Slot {
    assert bid * entrySize >= 0;
    Slot(bid * entrySize, entrySize, bid)
  }

  /** io_uring_buf_ring_add: the slot `off` past the tail is written; the tail stays. */
  function Add(r: Ring, s: Slot, off: nat): (r': Ring)
    requires |r.slots| > 0
    ensures |r'.slots| == |r.slots|
  {
    r.(slots := r.slots[(r.tail + off) % |r.slots| := s])
  }

  /** io_uring_buf_ring_advance: the 16-bit tail moves on. */
  function Advance(r: Ring, count: nat): Ring {
    r.(tail := (r.tail + count) % U16)
  }

  /** How many slots the kernel may still pick: 16-bit distance from head to tail. */
  function Count(r: Ring, head: nat): nat {
    (r.tail - head) % U16
  }

  /** The bid recorded at an unbounded position. */
  function BidAt(r: Ring, pos: int): nat
    requires |r.slots| > 0
  {
    r.slots[pos % |r.slots|].bid
  }

  /** The bids the kernel would pick, in picking order. */
  function Visible(r: Ring, head: nat): (v: seq<nat>)
    requires |r.slots| > 0
    ensures |v| == Count(r, head)
    ensures forall i :: 0 <= i < |v| ==> v[i] == BidAt(r, head + i)
  {
    seq<nat>(Count(r, head), i requires 0 <= i => BidAt(r, head + i))
  }

  function NextHead(head: nat): nat {
    (head + 1) % U16
  }

  /** Every slot describes one of the buffers, completely. */
  ghost predicate Consistent(r: Ring, entrySize: nat) {
    forall i :: 0 <= i < |r.slots| ==>
      r.slots[i].bid < |r.slots| && r.slots[i] == BufferOf(r.slots[i].bid, entrySize)
  }

  function InitRing(n: nat, entrySize: nat): (r: Ring)
    ensures |r.slots| == n
    ensures forall i :: 0 <= i < n ==> r.slots[i] == BufferOf(i, entrySize)
  {
    Ring(seq(n, i requires 0 <= i => BufferOf(i, entrySize)), n % U16)
  }

  // ---- wrapping ----

  lemma WrappedIndex(t: int, off: int, n: nat)
    requires Entries(n)
    ensures n > 0 && (t % U16 + off) % n == (t + off) % n
  {
    assert n > 0;
    WrapThenModulo(t, n);
    ModuloAbsorbs(t % U16, off, n);
    ModuloAbsorbs(t, off, n);
  }

  datatype Call = AddCall(s: Slot, off: nat) | AdvanceCall(count: nat)

  function Run(r: Ring, calls: seq<Call>): (r': Ring)
    requires |r.slots| > 0
    ensures |r'.slots| == |r.slots|
    decreases |calls|
  {
    if calls == [] then r
    else match calls[0]
      case AddCall(s, off) => Run(Add(r, s, off), calls[1..])
      case AdvanceCall(count) => Run(Advance(r, count), calls[1..])
  }

  /** The same calls on a ring whose tail never wraps. */
  function RunUnbounded(r: Ring, calls: seq<Call>): (r': Ring)
    requires |r.slots| > 0
    ensures |r'.slots| == |r.slots|
    decreases |calls|
  {
    if calls == [] then r
    else match calls[0]
      case AddCall(s, off) => RunUnbounded(Add(r, s, off), calls[1..])
      case AdvanceCall(count) => RunUnbounded(r.(tail := r.tail + count), calls[1..])
  }

  /** Forever: any run of adds and advances touches the same slots with the 16-bit tail as with an
      unbounded counter. */
  lemma {:induction false} WrapRefinesUnbounded(u: Ring, calls: seq<Call>)
    requires Entries(|u.slots|)
    ensures var u' := RunUnbounded(u, calls);
            Run(u.(tail := u.tail % U16), calls) == u'.(tail := u'.tail % U16)
    decreases |calls|
  {
    if calls != [] {
      var r := u.(tail := u.tail % U16);
      match calls[0]
      case AddCall(s, off) =>
        WrappedIndex(u.tail, off, |u.slots|);
        assert Add(r, s, off) == Add(u, s, off).(tail := u.tail % U16);
        WrapRefinesUnbounded(Add(u, s, off), calls[1..]);
      case AdvanceCall(count) =>
        assert Advance(r, count) == r.(tail := (u.tail + count) % U16);
        WrapRefinesUnbounded(u.(tail := u.tail + count), calls[1..]);
    }
  }

  // ---- the queue the ring stands for ----

  /** Initialisation exposes exactly the queue 0, 1, .., n-1. */
  lemma InitExposesAll(n: nat, entrySize: nat)
    requires Entries(n)
    ensures n > 0 && Visible(InitRing(n, entrySize), 0) == Range(n)
  {
    var r := InitRing(n, entrySize);
    forall i | 0 <= i < n
      ensures BidAt(r, i) == i
    {
      ModuloUnique(i, n, 0, i);
    }
    var v := Visible(r, 0);
    assert forall i :: 0 <= i < n ==> v[i] == BidAt(r, 0 + i);
  }

  /** A kernel pick dequeues. */
  lemma PickDequeues(r: Ring, head: nat)
    requires WellFormed(r) && head < U16 && Count(r, head) > 0
    ensures Visible(r, head) == [BidAt(r, head)] + Visible(r, NextHead(head))
    ensures Count(r, NextHead(head)) == Count(r, head) - 1
  {
    var n := |r.slots|;
    var v, w := Visible(r, head), Visible(r, NextHead(head));
    assert |w| == |v| - 1;
    forall i | 0 <= i < |w|
      ensures w[i] == v[i + 1]
    {
      WrappedIndex(head + 1, i, n);
      assert BidAt(r, NextHead(head) + i) == BidAt(r, head + (i + 1));
    }
  }

  /** The position just past the visible ones is the tail's slot. */
  lemma EndIsTail(r: Ring, head: nat)
    requires WellFormed(r) && head < U16
    ensures (head + Count(r, head)) % |r.slots| == r.tail % |r.slots|
  {
    WrappedIndex(r.tail - head, head, |r.slots|);
  }

  /** Advancing by one exposes the slot at the tail. */
  lemma AdvanceVisible(r: Ring, head: nat)
    requires WellFormed(r) && head < U16 && Count(r, head) < |r.slots|
    ensures Visible(Advance(r, 1), head) == Visible(r, head) + [BidAt(r, r.tail)]
    ensures Count(Advance(r, 1), head) == Count(r, head) + 1
  {
    EndIsTail(r, head);
    CountAfterAdvance(r, head);
    ExposeOne(r, Advance(r, 1), head);
  }

  lemma CountAfterAdvance(r: Ring, head: nat)
    requires r.tail < U16 && head < U16 && Count(r, head) < MAX_ENTRIES
    ensures Count(Advance(r, 1), head) == Count(r, head) + 1
  {
  }

  lemma ExposeOne(r: Ring, r': Ring, head: nat)
    requires |r.slots| > 0 && r'.slots == r.slots && Count(r', head) == Count(r, head) + 1
    requires (head + Count(r, head)) % |r.slots| == r.tail % |r.slots|
    ensures Visible(r', head) == Visible(r, head) + [BidAt(r, r.tail)]
  {
    var v, v' := Visible(r, head), Visible(r', head);
    forall i | 0 <= i < |v|
      ensures v'[i] == v[i]
    {
      assert BidAt(r', head + i) == BidAt(r, head + i);
    }
    assert v'[|v|] == BidAt(r', head + |v|) == BidAt(r, r.tail);
  }

  /** Slot `w` lies between head and tail. */
  predicate SlotVisible(r: Ring, head: nat, w: nat)
    requires |r.slots| > 0
  {
    (w - head) % |r.slots| < Count(r, head)
  }

  lemma VisiblePosition(r: Ring, head: nat, w: nat, i: nat)
    requires |r.slots| > 0 && Count(r, head) <= |r.slots| && w < |r.slots| && i < Count(r, head)
    ensures (head + i) % |r.slots| == w <==> i == (w - head) % |r.slots|
  {
    ResiduePosition(head, w, i, |r.slots|);
  }

  /** The only offset below n that reaches residue w from `head`. */
  lemma ResiduePosition(head: nat, w: nat, i: nat, n: nat)
    requires w < n && i < n
    ensures (head + i) % n == w <==> i == (w - head) % n
  {
    var k := (w - head) % n;
    ModuloAbsorbs(w - head, head, n);
    ModuloUnique(w, n, 0, w);
    assert (head + k) % n == w;
    if i < k {
      CloseResiduesDiffer(head + i, head + k, n);
    } else if k < i {
      CloseResiduesDiffer(head + k, head + i, n);
    }
  }

  lemma TailNotVisible(r: Ring, head: nat)
    requires WellFormed(r) && head < U16 && Count(r, head) < |r.slots|
    ensures !SlotVisible(r, head, r.tail % |r.slots|)
  {
    var n := |r.slots|;
    var minus: int := 0 - (head as int);
    ModuloAbsorbs(r.tail, minus, n);
    WrapThenModulo(r.tail - head, n);
    ModuloUnique(Count(r, head), n, 0, Count(r, head));
  }

  /** The add alone changes what the kernel sees only if the written slot is visible. */
  lemma AddVisible(r: Ring, head: nat, s: Slot, off: nat)
    requires WellFormed(r) && head < U16 && Count(r, head) < |r.slots|
    ensures var n := |r.slots|; var w := (r.tail + off) % n;
            Visible(Add(r, s, off), head) == if SlotVisible(r, head, w)
                                             then Visible(r, head)[(w - head) % n := s.bid]
                                             else Visible(r, head)
  {
    var n := |r.slots|;
    var w := (r.tail + off) % n;
    var a := Add(r, s, off);
    forall i | 0 <= i < Count(r, head)
      ensures Visible(a, head)[i] == if i == (w - head) % n then s.bid else Visible(r, head)[i]
    {
      VisiblePosition(r, head, w, i);
      assert Visible(a, head)[i] == BidAt(a, head + i);
    }
  }

  /** The slot written is the slot exposed exactly when the offset is 0 modulo the ring size. */
  lemma WrittenIsExposedIff(r: Ring, off: nat)
    requires |r.slots| > 0
    ensures (r.tail + off) % |r.slots| == r.tail % |r.slots| <==> off % |r.slots| == 0
  {
    var n := |r.slots|;
    var k := off % n;
    ModuloAbsorbs(off, r.tail, n);
    if k == 0 {
    } else {
      CloseResiduesDiffer(r.tail, r.tail + k, n);
    }
  }

  /** Offset 0: a recycle enqueues the recycled bid. */
  lemma RecycleEnqueues(r: Ring, head: nat, s: Slot)
    requires WellFormed(r) && head < U16 && Count(r, head) < |r.slots|
    ensures Visible(Advance(Add(r, s, 0), 1), head) == Visible(r, head) + [s.bid]
  {
    TailNotVisible(r, head);
    AddVisible(r, head, s, 0);
    AdvanceVisible(Add(r, s, 0), head);
  }

  /** The test that decides whether a recycle of `bid` at offset `off` loses or duplicates a bid. */
  predicate RecycleSafe(r: Ring, head: nat, bid: nat, off: nat)
    requires |r.slots| > 0
  {
    var n := |r.slots|;
    var w := (r.tail + off) % n;
    var stale := BidAt(r, r.tail);
    off % n == 0 || stale == if SlotVisible(r, head, w) then r.slots[w].bid else bid
  }

  /** Any offset, any ring with room: the recycle adds exactly `bid` to what the kernel can pick
      if and only if the written slot is the exposed one, or the record already lying in the
      exposed slot makes up for the record destroyed. */
  lemma RecycleConservesIff(r: Ring, head: nat, s: Slot, off: nat)
    requires WellFormed(r) && head < U16 && Count(r, head) < |r.slots|
    ensures multiset(Visible(Advance(Add(r, s, off), 1), head)) == multiset(Visible(r, head)) + multiset{s.bid}
       <==> RecycleSafe(r, head, s.bid, off)
  {
    var a := Add(r, s, off);
    AdvanceVisible(a, head);
    Exposed(r, head, s, off);
    if SlotVisible(r, head, (r.tail + off) % |r.slots|) {
      OverwriteBalances(r, head, s, off, BidAt(a, r.tail));
    } else {
      AddVisible(r, head, s, off);
      SingletonsBalance(multiset(Visible(r, head)), BidAt(a, r.tail), s.bid);
    }
  }

  /** What the advance exposes after the add: the slot written, which no one could see, or a stale record. */
  lemma Exposed(r: Ring, head: nat, s: Slot, off: nat)
    requires WellFormed(r) && head < U16 && Count(r, head) < |r.slots|
    ensures BidAt(Add(r, s, off), r.tail) == if off % |r.slots| == 0 then s.bid else BidAt(r, r.tail)
    ensures off % |r.slots| == 0 ==> !SlotVisible(r, head, (r.tail + off) % |r.slots|)
  {
    TailNotVisible(r, head);
    WrittenIsExposedIff(r, off);
  }

  /** An add over a visible slot, with one more bid exposed: balanced exactly when that bid is the one
      destroyed. */
  lemma OverwriteBalances(r: Ring, head: nat, s: Slot, off: nat, exposed: nat)
    requires WellFormed(r) && head < U16 && Count(r, head) < |r.slots|
    requires SlotVisible(r, head, (r.tail + off) % |r.slots|)
    ensures multiset(Visible(Add(r, s, off), head)) + multiset{exposed}
            == multiset(Visible(r, head)) + multiset{s.bid}
       <==> exposed == r.slots[(r.tail + off) % |r.slots|].bid
  {
    var v := Visible(r, head);
    var w := (r.tail + off) % |r.slots|;
    var k := (w - head) % |r.slots|;
    AddVisible(r, head, s, off);
    VisiblePosition(r, head, w, k);
    assert v[k] == r.slots[w].bid;
    UpdateSwaps(v, k, s.bid);
    SwapBalances(multiset(v), v[k], s.bid, exposed);
  }

  lemma UpdateSwaps(v: seq<nat>, k: nat, x: nat)
    requires k < |v|
    ensures multiset(v[k := x]) == multiset(v) - multiset{v[k]} + multiset{x} && v[k] in multiset(v)
  {
  }

  lemma SwapBalances(m: multiset<nat>, out: nat, put: nat, extra: nat)
    requires out in m
    ensures m - multiset{out} + multiset{put} + multiset{extra} == m + multiset{put} <==> extra == out
  {
    var l := m - multiset{out} + multiset{put} + multiset{extra};
    if extra != out {
      assert l[out] != (m + multiset{put})[out];
    }
  }

  lemma SingletonsBalance(m: multiset<nat>, x: nat, y: nat)
    ensures m + multiset{x} == m + multiset{y} <==> x == y
  {
    if x != y {
      assert (m + multiset{x})[x] != (m + multiset{y})[x];
    }
  }
}
