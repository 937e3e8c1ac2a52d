/** The program as written under every schedule: when its ring stops offering every buffer once, and
    that a buffer is gone for good by the end of the first round. */
module LostBuffers {
  import opened Bits
  import opened Seqs
  import opened RingSpec
  import opened Model
  import opened StateShape
  import opened Tagging
  import opened RingQueue
  import opened Ledger
  import opened Runs
  import opened LockStepRuns
  import opened RecycleTrace

  // ---- a buffer gone for good ----

  /** Buffer x is in no slot of the ring and not held. */
  ghost predicate Gone(s: State, x: nat) {
    Missing(s.a.ring.slots, Held(s), x)
  }

  lemma GonePick(c: Config, s: State, i: nat, payload: seq<char>, more: bool, x: nat)
    requires Gone(s, x) && i < |s.k.active| && CanPick(s, |payload|) && s.k.active[i].req.Recv?
    ensures Gone(NextRecv(s, i, payload, more), x)
  {
    PickHolds(c, s, i, payload, more);
  }

  lemma GoneAdd(c: Config, s: State, bid: nat, x: nat)
    requires Gone(s, x) && s.a.todo != [] && s.a.todo[0] == RingAdd(bid)
    ensures Gone(s.(a := DoRingAdd(c, s.a, bid)), x)
  {
    AddHolds(c, s, bid);
    assert Held(s)[0] == bid;
  }

  lemma GoneAdvance(s: State, bid: nat, x: nat)
    requires Gone(s, x) && s.a.todo != [] && s.a.todo[0] == RingAdvance(bid)
    ensures Gone(s.(a := DoRingAdvance(s.a, bid)), x)
  {
    assert Held(s) == [bid] + Held(s.(a := DoRingAdvance(s.a, bid)));
  }

  lemma GoneStays(c: Config, s: State, act: Action, x: nat)
    requires Shape(c, s) && Tagged(s) && Gone(s, x)
    ensures Gone(Apply(c, s, act), x)
  {
    if !TouchesRing(s, act) {
      OthersLeaveRing(c, s, act);
    } else if Enabled(c, s, act) {
      if act.CompleteRecv? {
        GonePick(c, s, act.i, act.payload, act.more, x);
      } else if s.a.todo[0].RingAdd? {
        GoneAdd(c, s, s.a.todo[0].bid, x);
      } else {
        GoneAdvance(s, s.a.todo[0].bid, x);
      }
    }
  }

  /** Nothing the program or the kernel does brings it back. */
  lemma {:induction false} GoneForGood(c: Config, s: State, acts: seq<Action>, x: nat)
    requires Inv(c, s) && Gone(s, x)
    ensures Gone(Exec(c, s, acts), x)
    decreases |acts|
  {
    if acts != [] {
      GoneStays(c, s, acts[0], x);
      InvStep(c, s, acts[0]);
      GoneForGood(c, Apply(c, s, acts[0]), acts[1..], x);
    }
  }

  // ---- the trace of a run ----

  /** A ring of 2h slots, h even. */
  ghost predicate Sized(c: Config, h: nat) {
    c.entries == 2 * h && h >= 2 && Even(h)
  }

  /** Recycles that have written their slot. */
  function Adds(s: State): nat {
    |s.a.hist.recycled| + if HalfWay(s.a) then 1 else 0
  }

  /** Tail and head count the advances and the picks. */
  ghost predicate Positions(c: Config, s: State) {
    && s.a.ring.tail == (c.entries + |s.a.hist.recycled|) % U16
    && s.k.head == |s.k.picked| % U16
  }

  ghost predicate OnTrack(h: nat, s: State) {
    && Adds(s) <= 2 * h
    && Table(h, Adds(s), s.a.ring.slots)
    && Ahead(h, Adds(s), s.k.picked)
  }

  /** A buffer is gone; when the second recycle was the last to write, it is buffer 2. */
  ghost predicate Losing(c: Config, s: State) {
    && Adds(s) >= 2
    && exists x: nat :: x < c.entries && (Adds(s) == 2 ==> x == 2) && Gone(s, x)
  }

  ghost predicate Traced(c: Config, h: nat, s: State) {
    Positions(c, s) && (OnTrack(h, s) || Losing(c, s))
  }

  lemma TracedInit(c: Config, h: nat, b: Boot, mem: seq<char>, rmem: seq<char>)
    requires ValidStart(c, b, mem, rmem) && c.entries == 2 * h
    ensures Traced(c, h, Init(c, b, mem, rmem))
  {
    forall j | 0 <= j < 2 * h
      ensures RecordAfter(h, 0, j) == j
    {
      if Even(j) { assert j == 2 * (j / 2); }
    }
  }

  lemma LosingStays(c: Config, s: State, act: Action)
    requires Shape(c, s) && Tagged(s) && Losing(c, s) && Adds(s) <= Adds(Apply(c, s, act))
    ensures Losing(c, Apply(c, s, act))
  {
    var x: nat :| x < c.entries && (Adds(s) == 2 ==> x == 2) && Gone(s, x);
    GoneStays(c, s, act, x);
  }

  // ---- steps that leave the ring alone ----

  lemma OthersKeepAdds(c: Config, s: State, act: Action)
    requires Shape(c, s) && Tagged(s) && !TouchesRing(s, act)
    ensures var t := Apply(c, s, act);
            RingUntouched(s, t) && Adds(t) == Adds(s)
  {
    OthersLeaveRing(c, s, act);
    if HalfWay(s.a) && Enabled(c, s, act) {
      KernelKeepsBooks(c, s, act);
    }
  }

  lemma UntouchedTraced(c: Config, h: nat, s: State, t: State)
    requires RingUntouched(s, t) && Adds(t) == Adds(s)
    ensures Positions(c, s) ==> Positions(c, t)
    ensures OnTrack(h, s) ==> OnTrack(h, t)
  {
  }

  lemma TracedOthers(c: Config, h: nat, s: State, act: Action)
    requires Shape(c, s) && Tagged(s) && Traced(c, h, s) && !TouchesRing(s, act)
    ensures Traced(c, h, Apply(c, s, act))
  {
    OthersKeepAdds(c, s, act);
    UntouchedTraced(c, h, s, Apply(c, s, act));
    if Losing(c, s) { LosingStays(c, s, act); }
  }

  // ---- picks ----

  lemma HeadSlot(c: Config, s: State)
    requires ValidConfig(c) && Positions(c, s)
    ensures c.entries > 0 && s.k.head % c.entries == |s.k.picked| % c.entries
  {
    WrapThenModulo(|s.k.picked|, c.entries);
  }

  lemma NextHeadCounts(k: nat)
    ensures NextHead(k % U16) == (k + 1) % U16
  {
  }

  lemma PickPositions(c: Config, s: State, i: nat, payload: seq<char>, more: bool)
    requires Positions(c, s) && i < |s.k.active| && CanPick(s, |payload|) && s.k.active[i].req.Recv?
    ensures var t := NextRecv(s, i, payload, more);
            Positions(c, t) && Adds(t) == Adds(s)
  {
    PickHolds(c, s, i, payload, more);
    NextHeadCounts(|s.k.picked|);
  }

  lemma PickOnTrack(c: Config, h: nat, s: State, i: nat, payload: seq<char>, more: bool)
    requires ValidConfig(c) && Sizes(c, s) && RingCounts(c, s) && Sized(c, h)
    requires Positions(c, s) && OnTrack(h, s)
    requires i < |s.k.active| && CanPick(s, |payload|) && s.k.active[i].req.Recv?
    ensures OnTrack(h, NextRecv(s, i, payload, more))
  {
    PickPositions(c, s, i, payload, more);
    PickHolds(c, s, i, payload, more);
    HeadSlot(c, s);
    PickStaysAhead(h, Adds(s), |s.a.hist.recycled|, s.a.ring.slots, s.k.picked);
  }

  lemma TracedPick(c: Config, h: nat, s: State, act: Action)
    requires Inv(c, s) && Sized(c, h) && Traced(c, h, s) && act.CompleteRecv? && Enabled(c, s, act)
    ensures Traced(c, h, Next(c, s, act))
  {
    PickPositions(c, s, act.i, act.payload, act.more);
    if OnTrack(h, s) {
      PickOnTrack(c, h, s, act.i, act.payload, act.more);
    } else {
      LosingStays(c, s, act);
    }
  }

  // ---- recycles ----

  lemma TailSlot(c: Config, s: State, bid: nat)
    requires ValidConfig(c) && Positions(c, s)
    ensures c.entries > 0
    ensures (s.a.ring.tail + bid) % c.entries == (c.entries + |s.a.hist.recycled| + bid) % c.entries
  {
    WrappedIndex(c.entries + |s.a.hist.recycled|, bid, c.entries);
  }

  /** The write of a recycle, in terms of the trace. */
  ghost predicate Wrote(c: Config, s: State, t: State, bid: nat) {
    var n, a, picked := c.entries, Adds(s), s.k.picked;
    && a < |picked| <= a + n && bid == picked[a] && t.k == s.k
    && Adds(t) == a + 1 && Held(t) == picked[a..]
    && n > 0 && |s.a.ring.slots| == n
    && t.a.ring.slots == s.a.ring.slots[(n + a + picked[a]) % n := BufferOf(bid, c.entrySize)]
  }

  lemma AddWrites(c: Config, s: State, bid: nat)
    requires ValidConfig(c) && Sizes(c, s) && RingCounts(c, s) && c.policy == AsWritten && Positions(c, s)
    requires s.a.todo != [] && s.a.todo[0] == RingAdd(bid)
    ensures var t := s.(a := DoRingAdd(c, s.a, bid));
            Wrote(c, s, t, bid) && Positions(c, t)
  {
    assert Held(s)[0] == bid;
    AddHolds(c, s, bid);
    TailSlot(c, s, bid);
    assert s.k.picked[|s.a.hist.recycled|..] == Held(s);
  }

  lemma OutcomeIsTrace(c: Config, h: nat, t: State, a: nat, x: nat)
    requires c.entries == 2 * h && a <= |t.k.picked| && Adds(t) == a + 1 && Held(t) == t.k.picked[a..]
    requires GoesOnOrLoses(h, a, t.a.ring.slots, t.k.picked, x)
    ensures OnTrack(h, t) || Losing(c, t)
  {
    assert Missing(t.a.ring.slots, t.k.picked[a..], x) ==> Gone(t, x);
  }

  lemma WriteTraced(c: Config, h: nat, s: State, t: State, bid: nat)
    requires Sized(c, h) && OnTrack(h, s) && Wrote(c, s, t, bid)
    ensures OnTrack(h, t) || Losing(c, t)
  {
    AddOutcome(c.entries, h, Adds(s), s.a.ring.slots, s.k.picked, BufferOf(bid, c.entrySize));
    OutcomeIsTrace(c, h, t, Adds(s), Casualty(h, Adds(s)));
  }

  lemma TracedAdd(c: Config, h: nat, s: State, bid: nat)
    requires ValidConfig(c) && Shape(c, s) && Tagged(s) && RingCounts(c, s)
    requires Sized(c, h) && c.policy == AsWritten && Traced(c, h, s)
    requires s.a.status == Running && s.a.todo != [] && s.a.todo[0] == RingAdd(bid)
    ensures Traced(c, h, Apply(c, s, RunOp))
  {
    AddWrites(c, s, bid);
    if OnTrack(h, s) {
      WriteTraced(c, h, s, Apply(c, s, RunOp), bid);
    } else {
      LosingStays(c, s, RunOp);
    }
  }

  lemma AdvanceKeepsAdds(c: Config, s: State, bid: nat)
    requires Positions(c, s) && ContinuationsFirst(s.a.todo) && s.a.todo != [] && s.a.todo[0] == RingAdvance(bid)
    ensures var t := s.(a := DoRingAdvance(s.a, bid));
            && Adds(t) == Adds(s) && Positions(c, t)
            && t.a.ring.slots == s.a.ring.slots && t.k == s.k
  {
  }

  lemma TracedAdvance(c: Config, h: nat, s: State, bid: nat)
    requires Shape(c, s) && Tagged(s) && Traced(c, h, s)
    requires s.a.status == Running && s.a.todo != [] && s.a.todo[0] == RingAdvance(bid)
    ensures Traced(c, h, Apply(c, s, RunOp))
  {
    AdvanceKeepsAdds(c, s, bid);
    if Losing(c, s) {
      LosingStays(c, s, RunOp);
    }
  }

  // ---- every run ----

  lemma TracedStep(c: Config, h: nat, s: State, act: Action)
    requires Inv(c, s) && Sized(c, h) && c.policy == AsWritten && Traced(c, h, s)
    ensures Traced(c, h, Apply(c, s, act))
  {
    if !TouchesRing(s, act) {
      TracedOthers(c, h, s, act);
    } else if Enabled(c, s, act) {
      if act.CompleteRecv? {
        TracedPick(c, h, s, act);
      } else if s.a.todo[0].RingAdd? {
        TracedAdd(c, h, s, s.a.todo[0].bid);
      } else {
        TracedAdvance(c, h, s, s.a.todo[0].bid);
      }
    }
  }

  lemma {:induction false} TracedRun(c: Config, h: nat, s: State, acts: seq<Action>)
    requires Inv(c, s) && Sized(c, h) && c.policy == AsWritten && Traced(c, h, s)
    ensures Traced(c, h, Exec(c, s, acts))
    decreases |acts|
  {
    if acts != [] {
      TracedStep(c, h, s, acts[0]);
      InvStep(c, s, acts[0]);
      TracedRun(c, h, Apply(c, s, acts[0]), acts[1..]);
    }
  }

  lemma TracedAfter(c: Config, b: Boot, mem: seq<char>, rmem: seq<char>, acts: seq<Action>) returns (h: nat)
    requires ValidStart(c, b, mem, rmem) && c.policy == AsWritten && c.entries >= 4
    ensures var s := After(c, b, mem, rmem, acts);
            Sized(c, h) && Inv(c, s) && Traced(c, h, s)
  {
    InvInit(c, b, mem, rmem);
    h := Halved(c.entries);
    TracedInit(c, h, b, mem, rmem);
    TracedRun(c, h, Init(c, b, mem, rmem), acts);
    InvAfter(c, b, mem, rmem, acts);
  }

  // ---- what is accessible ----

  /** Everything accessible, oldest pick first. */
  function InOrder(s: State): seq<nat>
    requires |s.a.ring.slots| > 0
  {
    Held(s) + Visible(s.a.ring, s.k.head)
  }

  lemma AccessibleInOrder(s: State)
    requires |s.a.ring.slots| > 0
    ensures Accessible(s) == multiset(InOrder(s))
  {
  }

  /** The bid at a visible position is still in its slot. */
  lemma VisibleLies(c: Config, s: State, k: nat)
    requires ValidConfig(c) && Sizes(c, s) && Positions(c, s) && k < Count(s.a.ring, s.k.head)
    ensures |s.a.ring.slots| > 0
    ensures Visible(s.a.ring, s.k.head)[k] == s.a.ring.slots[(|s.k.picked| + k) % |s.a.ring.slots|].bid
  {
    WrappedIndex(|s.k.picked|, k, c.entries);
    assert Visible(s.a.ring, s.k.head)[k] == BidAt(s.a.ring, s.k.head + k);
  }

  /** In order, what is accessible lies at the positions from the first not recycled on. */
  lemma PositionLies(c: Config, s: State, p: nat)
    requires ValidConfig(c) && Sizes(c, s) && RingCounts(c, s) && Positions(c, s)
    requires |s.a.hist.recycled| <= p < c.entries + |s.a.hist.recycled| && p < 2 * c.entries
    ensures |s.a.ring.slots| == c.entries == |InOrder(s)|
    ensures InOrder(s)[p - |s.a.hist.recycled|] == Lies(s.a.ring.slots, s.k.picked, p)
  {
    if p >= |s.k.picked| {
      VisibleLies(c, s, p - |s.k.picked|);
      SlotIsModulo(c.entries, p);
    }
  }

  /** What is accessible lies at consecutive positions. */
  ghost predicate LinedUp(n: nat, s: State) {
    && |s.a.ring.slots| == n > 0 && |InOrder(s)| == n
    && forall p :: |s.a.hist.recycled| <= p < n + |s.a.hist.recycled| && p < 2 * n ==>
         InOrder(s)[p - |s.a.hist.recycled|] == Lies(s.a.ring.slots, s.k.picked, p)
  }

  lemma RingLinesUp(c: Config, s: State)
    requires ValidConfig(c) && Sizes(c, s) && RingCounts(c, s) && Positions(c, s)
    ensures LinedUp(c.entries, s)
  {
    HeadSlot(c, s);
    forall p | |s.a.hist.recycled| <= p < c.entries + |s.a.hist.recycled| && p < 2 * c.entries
      ensures InOrder(s)[p - |s.a.hist.recycled|] == Lies(s.a.ring.slots, s.k.picked, p)
    {
      PositionLies(c, s, p);
    }
  }

  lemma GoneNotConserved(c: Config, s: State, x: nat)
    requires |s.a.ring.slots| > 0 && x < c.entries && Gone(s, x)
    ensures Accessible(s) != multiset(Range(c.entries))
  {
    RangeHolds(c.entries, x);
    var v: seq<nat> := Visible(s.a.ring, s.k.head);
    assert x !in v;
    assert Accessible(s)[x] == 0;
  }

  lemma TwiceIsNotConserved(all: seq<nat>, n: nat, i: nat, j: nat)
    requires i < |all| && j < |all| && i != j && all[i] == all[j]
    ensures multiset(all) != multiset(Range(n))
  {
    if i < j { TwiceInMultiset(all, i, j); } else { TwiceInMultiset(all, j, i); }
    RangeHolds(n, all[i]);
  }

  /** The whole range, from some point on and round. */
  lemma RotatedRange(all: seq<nat>, n: nat, a: nat)
    requires |all| == n && a <= n && forall i :: 0 <= i < n ==> all[i] == SlotOf(n, a + i)
    ensures multiset(all) == multiset(Range(n))
  {
    assert all == Range(n)[a..] + Range(n)[..a];
    assert Range(n) == Range(n)[..a] + Range(n)[a..];
  }

  lemma EarlyPosition(h: nat, s: State, i: nat)
    requires h >= 2 && LinedUp(2 * h, s) && OnTrack(h, s) && Adds(s) <= 2 && !HalfWay(s.a) && i < 2 * h
    ensures InOrder(s)[i] == SlotOf(2 * h, Adds(s) + i)
  {
    var p := Adds(s) + i;
    LiesInOrder(h, Adds(s), s.a.ring.slots, s.k.picked, p);
  }

  /** Up to the second message the accessible buffers are such a range. */
  lemma EarlyConserved(h: nat, s: State)
    requires h >= 2 && LinedUp(2 * h, s) && OnTrack(h, s) && Adds(s) <= 2 && !HalfWay(s.a)
    ensures Accessible(s) == multiset(Range(2 * h))
  {
    var all := InOrder(s);
    forall i | 0 <= i < 2 * h
      ensures all[i] == SlotOf(2 * h, Adds(s) + i)
    {
      EarlyPosition(h, s, i);
    }
    RotatedRange(all, 2 * h, Adds(s));
    AccessibleInOrder(s);
  }

  /** From the third message on one buffer is accessible twice. */
  lemma AccessibleTwice(h: nat, s: State) returns (i: nat, j: nat)
    requires h >= 2 && Even(h) && LinedUp(2 * h, s) && OnTrack(h, s) && |s.a.hist.recycled| >= 3
    ensures i < |InOrder(s)| && j < |InOrder(s)| && i != j && InOrder(s)[i] == InOrder(s)[j]
  {
    var r := |s.a.hist.recycled|;
    var p := LiesTwice(h, Adds(s), r, s.a.ring.slots, s.k.picked);
    i, j := p - r, 2 * h + 2 - r;
  }

  lemma LateNotConserved(h: nat, s: State)
    requires h >= 2 && Even(h) && LinedUp(2 * h, s) && OnTrack(h, s) && |s.a.hist.recycled| >= 3
    ensures Accessible(s) != multiset(Range(2 * h))
  {
    var i, j := AccessibleTwice(h, s);
    TwiceIsNotConserved(InOrder(s), 2 * h, i, j);
    AccessibleInOrder(s);
  }

  lemma ThirdNotConserved(c: Config, h: nat, s: State)
    requires ValidConfig(c) && Sizes(c, s) && RingCounts(c, s) && Sized(c, h) && Traced(c, h, s)
    requires |s.a.hist.recycled| >= 3
    ensures Accessible(s) != multiset(Range(c.entries))
  {
    if OnTrack(h, s) {
      RingLinesUp(c, s);
      LateNotConserved(h, s);
    } else {
      var x: nat :| x < c.entries && Gone(s, x);
      GoneNotConserved(c, s, x);
    }
  }

  lemma ConservesHere(c: Config, h: nat, s: State)
    requires ValidConfig(c) && Sizes(c, s) && RingCounts(c, s) && Sized(c, h) && Traced(c, h, s) && !HalfWay(s.a)
    ensures var handled := |s.a.hist.recycled|;
            Accessible(s) == multiset(Range(c.entries))
            <==> handled <= 1 || (handled == 2 && |s.k.picked| >= 3 && s.k.picked[2] == 2)
  {
    if |s.a.hist.recycled| >= 3 {
      ThirdNotConserved(c, h, s);
    } else if OnTrack(h, s) {
      RingLinesUp(c, s);
      EarlyConserved(h, s);
      if Adds(s) == 2 { assert PickFinds(h, 2, 2, s.k.picked[2]); }
    } else {
      GoneNotConserved(c, s, 2);
      if |s.k.picked| >= 3 {
        assert s.k.picked[2] == Held(s)[0];
      }
    }
  }

  // ---- the results ----

  /** As written, four buffers or more, every schedule: between recycles, every buffer is accessible
      exactly once if and only if at most one message has been handled, or two and the kernel's third
      pick was of buffer 2, that is, made before the second recycle overwrote its record. */
  lemma ConservesIff(c: Config, b: Boot, mem: seq<char>, rmem: seq<char>, acts: seq<Action>)
    requires ValidStart(c, b, mem, rmem) && c.policy == AsWritten && c.entries >= 4
    requires !HalfWay(After(c, b, mem, rmem, acts).a)
    ensures var s := After(c, b, mem, rmem, acts); var handled := |s.a.hist.recycled|;
            && |s.a.ring.slots| > 0
            && (Accessible(s) == multiset(Range(c.entries))
                <==> handled <= 1 || (handled == 2 && |s.k.picked| >= 3 && s.k.picked[2] == 2))
  {
    var h := TracedAfter(c, b, mem, rmem, acts);
    ConservesHere(c, h, After(c, b, mem, rmem, acts));
  }

  /** In particular no timing of the kernel's saves the ring past its third message, between recycles
      or within one. */
  lemma NeverConservesAfterThird(c: Config, b: Boot, mem: seq<char>, rmem: seq<char>, acts: seq<Action>)
    requires ValidStart(c, b, mem, rmem) && c.policy == AsWritten && c.entries >= 4
    requires |After(c, b, mem, rmem, acts).a.hist.recycled| >= 3
    ensures var s := After(c, b, mem, rmem, acts);
            |s.a.ring.slots| > 0 && Accessible(s) != multiset(Range(c.entries))
  {
    var h := TracedAfter(c, b, mem, rmem, acts);
    ThirdNotConserved(c, h, After(c, b, mem, rmem, acts));
  }

  /** And once more messages have been handled than there are buffers, some buffer is in no slot and
      not held, now and in every continuation: the kernel will never use it again. */
  lemma BufferGoneForGood(c: Config, b: Boot, mem: seq<char>, rmem: seq<char>, acts: seq<Action>) returns (x: nat)
    requires ValidStart(c, b, mem, rmem) && c.policy == AsWritten && c.entries >= 4
    requires |After(c, b, mem, rmem, acts).a.hist.recycled| > c.entries
    ensures x < c.entries
    ensures forall more: seq<Action> :: Gone(After(c, b, mem, rmem, acts + more), x)
  {
    var h := TracedAfter(c, b, mem, rmem, acts);
    var s := After(c, b, mem, rmem, acts);
    x :| x < c.entries && Gone(s, x);
    forall more: seq<Action>
      ensures Gone(After(c, b, mem, rmem, acts + more), x)
    {
      ExecAppend(c, Init(c, b, mem, rmem), acts, more);
      GoneForGood(c, s, more, x);
    }
  }
}
