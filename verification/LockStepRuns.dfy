/** Whole runs of the program as written in which every message is handled before the kernel picks
    the next buffer. */
module LockStepRuns {
  import opened Bits
  import opened Seqs
  import opened RingSpec
  import opened RingLockStep
  import opened Model
  import opened StateShape
  import opened RingQueue
  import opened Messages
  import opened Ledger
  import opened Runs

  /** The kernel picks only while the application holds nothing. */
  ghost predicate LockStep(c: Config, s: State, acts: seq<Action>)
    decreases |acts|
  {
    acts == [] ||
    (&& (acts[0].CompleteRecv? && Enabled(c, s, acts[0]) ==> Held(s) == [])
     && LockStep(c, Apply(c, s, acts[0]), acts[1..]))
  }

  function Driven(c: Config, s: State): Drive
    requires c.entries > 0
  {
    Turns(c.entries, c.entrySize, |s.a.hist.recycled|)
  }

  /** A recycle has written its slot and not yet advanced. */
  predicate HalfWay(a: App) {
    a.todo != [] && a.todo[0].RingAdvance?
  }

  /** The ring is where so many turns of pick and recycle have driven it. */
  ghost predicate InStep(c: Config, s: State) {
    && c.entries > 0
    && var d, h := Driven(c, s), Held(s);
       if h == [] then
         s.a.ring == d.ring && s.k.head == d.head
       else
         && |h| == 1 && h[0] == BidAt(d.ring, d.head) && s.k.head == NextHead(d.head)
         && s.a.ring == if HalfWay(s.a) then Add(d.ring, BufferOf(h[0], c.entrySize), h[0]) else d.ring
  }

  lemma InStepOthers(c: Config, s: State, act: Action)
    requires Inv(c, s) && InStep(c, s) && !TouchesRing(s, act)
    ensures InStep(c, Apply(c, s, act))
  {
    OthersLeaveRing(c, s, act);
    if HalfWay(s.a) && Enabled(c, s, act) {
      KernelKeepsBooks(c, s, act);
    }
  }

  lemma InStepPick(c: Config, s: State, i: nat, payload: seq<char>, more: bool)
    requires InStep(c, s) && Held(s) == []
    requires i < |s.k.active| && CanPick(s, |payload|) && s.k.active[i].req.Recv?
    requires !HalfWay(s.a)
    ensures InStep(c, NextRecv(s, i, payload, more))
  {
    PickHolds(c, s, i, payload, more);
  }

  lemma HalfWayHolds(s: State)
    requires HalfWay(s.a)
    ensures Held(s) != []
  {
    assert Held(s)[0] == s.a.todo[0].bid;
  }

  lemma InStepAdd(c: Config, s: State, bid: nat)
    requires c.policy == AsWritten && InStep(c, s) && s.a.todo != [] && s.a.todo[0] == RingAdd(bid)
    ensures InStep(c, s.(a := DoRingAdd(c, s.a, bid)))
  {
    assert Held(s)[0] == bid;
    AddHolds(c, s, bid);
  }

  lemma InStepAdvance(c: Config, s: State, bid: nat)
    requires ValidConfig(c) && Sizes(c, s) && RingCounts(c, s) && InStep(c, s)
    requires s.a.todo != [] && s.a.todo[0] == RingAdvance(bid)
    ensures InStep(c, s.(a := DoRingAdvance(s.a, bid)))
  {
    AdvanceCounts(c, s, bid);
    var t := s.(a := DoRingAdvance(s.a, bid));
    assert Held(t) == [];
    assert |t.a.hist.recycled| == |s.a.hist.recycled| + 1;
    assert Driven(c, t) == Turn(Driven(c, s), c.entrySize);
  }

  lemma InStepTouch(c: Config, s: State, act: Action)
    requires ValidConfig(c) && Sizes(c, s) && RingCounts(c, s) && c.policy == AsWritten && InStep(c, s)
    requires TouchesRing(s, act) && Enabled(c, s, act) && (act.CompleteRecv? ==> Held(s) == [])
    ensures InStep(c, Next(c, s, act))
  {
    if act.CompleteRecv? {
      if HalfWay(s.a) { HalfWayHolds(s); }
      InStepPick(c, s, act.i, act.payload, act.more);
    } else if s.a.todo[0].RingAdd? {
      InStepAdd(c, s, s.a.todo[0].bid);
    } else {
      InStepAdvance(c, s, s.a.todo[0].bid);
    }
  }

  lemma InStepStep(c: Config, s: State, act: Action)
    requires Inv(c, s) && c.policy == AsWritten && InStep(c, s)
    requires act.CompleteRecv? && Enabled(c, s, act) ==> Held(s) == []
    ensures InStep(c, Apply(c, s, act))
  {
    if !TouchesRing(s, act) {
      InStepOthers(c, s, act);
    } else if Enabled(c, s, act) {
      InStepTouch(c, s, act);
    }
  }

  lemma {:induction false} InStepRun(c: Config, s: State, acts: seq<Action>)
    requires Inv(c, s) && c.policy == AsWritten && InStep(c, s) && LockStep(c, s, acts)
    ensures InStep(c, Exec(c, s, acts))
    decreases |acts|
  {
    if acts != [] {
      InStepStep(c, s, acts[0]);
      InvStep(c, s, acts[0]);
      InStepRun(c, Apply(c, s, acts[0]), acts[1..]);
    }
  }

  lemma InStepAfter(c: Config, b: Boot, mem: seq<char>, rmem: seq<char>, acts: seq<Action>)
    requires ValidStart(c, b, mem, rmem) && c.policy == AsWritten && LockStep(c, Init(c, b, mem, rmem), acts)
    ensures Inv(c, After(c, b, mem, rmem, acts)) && InStep(c, After(c, b, mem, rmem, acts))
  {
    InvInit(c, b, mem, rmem);
    BootHolds(b);
    InStepRun(c, Init(c, b, mem, rmem), acts);
    InvAfter(c, b, mem, rmem, acts);
  }

  /** The program as written, in lock step: once `entries` messages have been handled, every slot of
      the ring offers buffer 1. */
  lemma AsWrittenEndsOnOneBuffer(c: Config, b: Boot, mem: seq<char>, rmem: seq<char>, acts: seq<Action>)
    requires ValidStart(c, b, mem, rmem) && c.policy == AsWritten && c.entries >= 2
    requires LockStep(c, Init(c, b, mem, rmem), acts)
    requires var s := After(c, b, mem, rmem, acts); Held(s) == [] && |s.a.hist.recycled| >= c.entries
    ensures var r := After(c, b, mem, rmem, acts).a.ring;
            |r.slots| == c.entries && forall j :: 0 <= j < c.entries ==> r.slots[j].bid == 1
  {
    InStepAfter(c, b, mem, rmem, acts);
    OneBidEverywhere(c.entries, c.entrySize, |After(c, b, mem, rmem, acts).a.hist.recycled|);
  }

  /** As written, in lock step: every buffer is still on offer exactly once if and only if at most one
      message has been handled, or there is only one buffer. */
  lemma AsWrittenConservesIff(c: Config, b: Boot, mem: seq<char>, rmem: seq<char>, acts: seq<Action>)
    requires ValidStart(c, b, mem, rmem) && c.policy == AsWritten
    requires LockStep(c, Init(c, b, mem, rmem), acts) && Held(After(c, b, mem, rmem, acts)) == []
    ensures var s := After(c, b, mem, rmem, acts);
            && |s.a.ring.slots| == c.entries > 0
            && (multiset(Visible(s.a.ring, s.k.head)) == multiset(Range(c.entries))
                <==> c.entries == 1 || |s.a.hist.recycled| <= 1)
  {
    InStepAfter(c, b, mem, rmem, acts);
    LockStepConservesIff(c.entries, c.entrySize, |After(c, b, mem, rmem, acts).a.hist.recycled|);
  }

  /** What that costs: from such a state two deliveries in a row go to the same buffer, and the second
      destroys the first message while its completion still waits to be handled, unless they agree. */
  lemma AsWrittenLosesMessages(c: Config, b: Boot, mem: seq<char>, rmem: seq<char>, acts: seq<Action>,
                               i: nat, first: seq<char>, second: seq<char>)
    requires ValidStart(c, b, mem, rmem) && c.policy == AsWritten && c.entries >= 2
    requires LockStep(c, Init(c, b, mem, rmem), acts)
    requires var s := After(c, b, mem, rmem, acts);
             && Held(s) == [] && |s.a.hist.recycled| >= c.entries
             && i < |s.k.active| && s.k.active[i].req.Recv?
    requires |first| <= c.entrySize && |second| <= c.entrySize
    ensures var s := After(c, b, mem, rmem, acts);
            && CanPick(s, |first|)
            && CanPick(NextRecv(s, i, first, true), |second|)
            && var t := NextRecv(NextRecv(s, i, first, true), i, second, true);
               && Held(t) == [1, 1]
               && t.k.cq[|s.k.cq|].payload == first
               && (HoldsMessage(c, t.a.rmem, 1, first) <==> Agree(second, first))
  {
    var s := After(c, b, mem, rmem, acts);
    InStepAfter(c, b, mem, rmem, acts);
    AsWrittenEndsOnOneBuffer(c, b, mem, rmem, acts);
    FirstDelivery(c, s, i, first);
    SecondDelivery(c, NextRecv(s, i, first, true), i, first, second);
  }

  ghost predicate OneBuffer(c: Config, s: State) {
    && ValidConfig(c) && Sizes(c, s) && c.entries >= 2
    && forall j :: 0 <= j < c.entries ==> s.a.ring.slots[j].bid == 1
  }

  lemma FirstDelivery(c: Config, s: State, i: nat, first: seq<char>)
    requires i < |s.k.active| && s.k.active[i].req.Recv?
    requires OneBuffer(c, s) && Held(s) == [] && Count(s.a.ring, s.k.head) == c.entries && |first| <= c.entrySize
    ensures CanPick(s, |first|)
    ensures var u := NextRecv(s, i, first, true);
            && OneBuffer(c, u) && Held(u) == [1] && Count(u.a.ring, u.k.head) >= 1
            && HoldsMessage(c, u.a.rmem, 1, first)
            && u.k.active == s.k.active && |u.k.cq| == |s.k.cq| + 1 && u.k.cq[|s.k.cq|].payload == first
  {
    OneBufferIsOffered(c, s, |first|);
    PickHolds(c, s, i, first, true);
    PickCounts(s, i, first);
    DeliveryInPlace(c, s, i, first, true);
  }

  lemma PickCounts(s: State, i: nat, first: seq<char>)
    requires s.a.ring.tail < U16 && s.k.head < U16
    requires i < |s.k.active| && CanPick(s, |first|) && s.k.active[i].req.Recv?
    ensures var u := NextRecv(s, i, first, true);
            && Count(u.a.ring, u.k.head) == Count(s.a.ring, s.k.head) - 1
            && u.k.head < U16 && |u.a.rmem| == |s.a.rmem|
            && u.k.active == s.k.active && |u.k.cq| == |s.k.cq| + 1 && u.k.cq[|s.k.cq|].payload == first
  {
  }

  lemma SecondDelivery(c: Config, u: State, i: nat, first: seq<char>, second: seq<char>)
    requires OneBuffer(c, u) && Held(u) == [1] && Count(u.a.ring, u.k.head) >= 1 && |second| <= c.entrySize
    requires HoldsMessage(c, u.a.rmem, 1, first) && i < |u.k.active| && u.k.active[i].req.Recv?
    ensures CanPick(u, |second|)
    ensures var t := NextRecv(u, i, second, true);
            && Held(t) == [1, 1] && t.k.cq[..|u.k.cq|] == u.k.cq
            && (HoldsMessage(c, t.a.rmem, 1, first) <==> Agree(second, first))
  {
    OneBufferIsOffered(c, u, |second|);
    PickHolds(c, u, i, second, true);
    DeliveryKeepsIff(c, u, i, second, true, 1, first);
  }

  lemma OneBufferIsOffered(c: Config, s: State, len: nat)
    requires Sizes(c, s) && c.entries >= 2 && Count(s.a.ring, s.k.head) > 0 && len <= c.entrySize
    requires forall j :: 0 <= j < c.entries ==> s.a.ring.slots[j].bid == 1
    ensures CanPick(s, len) && BidAt(s.a.ring, s.k.head) == 1
  {
    var slot := s.a.ring.slots[s.k.head % |s.a.ring.slots|];
    assert slot == BufferOf(1, c.entrySize);
    assert 1 * c.entrySize + c.entrySize <= c.entries * c.entrySize by {
      Geometry.SliceBounds(1, c.entrySize, c.entries);
    }
  }
}
