/** The program as written on rings of one and of two buffers, under every schedule. */
module SmallRings {
  import opened Seqs
  import opened RingSpec
  import opened Model
  import opened StateShape
  import opened Tagging
  import opened RingQueue
  import opened Runs
  import opened LockStepRuns
  import opened RecycleTrace
  import opened LostBuffers

  // ---- one buffer ----

  /** One buffer is always accessible, whatever the recycle. */
  lemma OneConserves(c: Config, b: Boot, mem: seq<char>, rmem: seq<char>, acts: seq<Action>)
    requires ValidStart(c, b, mem, rmem) && c.entries == 1
    ensures var s := After(c, b, mem, rmem, acts);
            |s.a.ring.slots| > 0 && Accessible(s) == multiset(Range(c.entries))
  {
    InvAfter(c, b, mem, rmem, acts);
    OneInOrder(c, After(c, b, mem, rmem, acts));
  }

  lemma OneInOrder(c: Config, s: State)
    requires Sizes(c, s) && RingCounts(c, s) && c.entries == 1
    ensures Accessible(s) == multiset(Range(1))
  {
    var v := Visible(s.a.ring, s.k.head);
    if Held(s) == [] {
      assert v[0] == BidAt(s.a.ring, s.k.head + 0);
    }
    assert InOrder(s) == Range(1);
    AccessibleInOrder(s);
  }

  // ---- two buffers: the recycles in turn ----

  /** The last even position a recycle has reached. */
  function LastEven(adds: nat): nat {
    adds - adds % 2
  }

  /** The picks have alternated, and each of buffer 0 came before the recycle that overwrites its record. */
  ghost predicate Alternates(adds: nat, slots: seq<Slot>, picked: seq<nat>) {
    && |slots| == 2 && slots[1].bid == 1
    && slots[0].bid == (if adds == 0 || adds % 2 == 1 then 0 else 1)
    && (forall p :: 0 <= p < |picked| ==> picked[p] == p % 2)
    && (adds >= 2 ==> |picked| > LastEven(adds))
  }

  lemma AlternatesPick(adds: nat, advances: nat, slots: seq<Slot>, picked: seq<nat>)
    requires Alternates(adds, slots, picked) && advances <= adds && |picked| < 2 + advances
    ensures Alternates(adds, slots, picked + [slots[|picked| % 2].bid])
  {
  }

  /** Every recycle writes slot 0; the second of a pair is late if the next pick has not been made. */
  lemma WritesSlotZero(n: nat, a: nat, slots: seq<Slot>, picked: seq<nat>)
    requires n == 2 && Alternates(a, slots, picked) && a < |picked|
    ensures (n + a + picked[a]) % n == 0
  {
    assert picked[a] == a % 2;
  }

  lemma AlternatesAdd(a: nat, slots: seq<Slot>, picked: seq<nat>, r: Slot)
    requires Alternates(a, slots, picked) && a < |picked| <= a + 2 && r.bid == picked[a]
    ensures var slots' := slots[0 := r];
            Alternates(a + 1, slots', picked)
            || (a % 2 == 1 && |picked| == a + 1 && Missing(slots', picked[a..], 0))
  {
    assert picked[a] == a % 2;
  }

  ghost predicate InTurn(s: State) {
    Alternates(Adds(s), s.a.ring.slots, s.k.picked)
  }

  /** Buffer 0 is gone, and was not what the last even pick found. */
  ghost predicate Late(s: State) {
    && Adds(s) >= 2 && Gone(s, 0)
    && (LastEven(Adds(s)) < |s.k.picked| ==> s.k.picked[LastEven(Adds(s))] != 0)
  }

  ghost predicate Turned(c: Config, s: State) {
    Positions(c, s) && (InTurn(s) || Late(s))
  }

  // ---- every step ----

  lemma LateOthers(s: State, t: State)
    requires RingUntouched(s, t) && Adds(t) == Adds(s)
    ensures InTurn(s) ==> InTurn(t)
    ensures Late(s) ==> Late(t)
  {
  }

  lemma TurnedPick(c: Config, s: State, i: nat, payload: seq<char>, more: bool)
    requires ValidConfig(c) && Sizes(c, s) && RingCounts(c, s) && c.entries == 2 && Turned(c, s)
    requires i < |s.k.active| && CanPick(s, |payload|) && s.k.active[i].req.Recv?
    ensures Turned(c, NextRecv(s, i, payload, more))
  {
    PickPositions(c, s, i, payload, more);
    PickHolds(c, s, i, payload, more);
    HeadSlot(c, s);
    if InTurn(s) {
      AlternatesPick(Adds(s), |s.a.hist.recycled|, s.a.ring.slots, s.k.picked);
    } else {
      GonePick(c, s, i, payload, more, 0);
    }
  }

  lemma TurnedAdd(c: Config, s: State, bid: nat)
    requires ValidConfig(c) && Sizes(c, s) && RingCounts(c, s) && c.policy == AsWritten && c.entries == 2
    requires Turned(c, s) && s.a.todo != [] && s.a.todo[0] == RingAdd(bid)
    ensures Turned(c, s.(a := DoRingAdd(c, s.a, bid)))
  {
    var t := s.(a := DoRingAdd(c, s.a, bid));
    AddWrites(c, s, bid);
    if InTurn(s) {
      WriteInTurn(c, s, t, bid);
    } else {
      GoneAdd(c, s, bid, 0);
      assert s.k.picked[Adds(s)..] == Held(s);
      WriteWhenLate(s, t);
    }
  }

  lemma WriteInTurn(c: Config, s: State, t: State, bid: nat)
    requires c.entries == 2 && Wrote(c, s, t, bid) && InTurn(s)
    ensures InTurn(t) || Late(t)
  {
    WritesSlotZero(c.entries, Adds(s), s.a.ring.slots, s.k.picked);
    AlternatesAdd(Adds(s), s.a.ring.slots, s.k.picked, BufferOf(bid, c.entrySize));
    LateFromMissing(t, Adds(s));
  }

  lemma LateFromMissing(t: State, a: nat)
    requires Adds(t) == a + 1 && a <= |t.k.picked| && Held(t) == t.k.picked[a..]
    ensures a % 2 == 1 && |t.k.picked| == a + 1 && Missing(t.a.ring.slots, t.k.picked[a..], 0) ==> Late(t)
  {
    assert Missing(t.a.ring.slots, t.k.picked[a..], 0) ==> Gone(t, 0);
  }

  /** The position an even recycle comes to is held, so not of buffer 0. */
  lemma WriteWhenLate(s: State, t: State)
    requires Late(s) && Gone(t, 0) && t.k == s.k && Adds(t) == Adds(s) + 1
    requires Adds(s) < |s.k.picked| && s.k.picked[Adds(s)..] == Held(s)
    ensures Late(t)
  {
    var e := LastEven(Adds(t));
    if e == Adds(t) {
      assert e < |s.k.picked| ==> s.k.picked[e] in s.k.picked[Adds(s)..];
    } else {
      assert e == LastEven(Adds(s));
    }
  }

  lemma TurnedAdvance(c: Config, s: State, bid: nat)
    requires Turned(c, s) && ContinuationsFirst(s.a.todo) && s.a.todo != [] && s.a.todo[0] == RingAdvance(bid)
    ensures Turned(c, s.(a := DoRingAdvance(s.a, bid)))
  {
    AdvanceKeepsAdds(c, s, bid);
    if Late(s) { GoneAdvance(s, bid, 0); }
  }

  lemma TurnedTouch(c: Config, s: State, act: Action)
    requires ValidConfig(c) && Shape(c, s) && RingCounts(c, s) && c.policy == AsWritten && c.entries == 2
    requires Turned(c, s) && TouchesRing(s, act) && Enabled(c, s, act)
    ensures Turned(c, Next(c, s, act))
  {
    if act.CompleteRecv? {
      TurnedPick(c, s, act.i, act.payload, act.more);
    } else if s.a.todo[0].RingAdd? {
      TurnedAdd(c, s, s.a.todo[0].bid);
    } else {
      TurnedAdvance(c, s, s.a.todo[0].bid);
    }
  }

  lemma TurnedOthers(c: Config, s: State, act: Action)
    requires Shape(c, s) && Tagged(s) && Turned(c, s) && !TouchesRing(s, act)
    ensures Turned(c, Apply(c, s, act))
  {
    OthersKeepAdds(c, s, act);
    LateOthers(s, Apply(c, s, act));
  }

  lemma TurnedStep(c: Config, s: State, act: Action)
    requires Inv(c, s) && c.policy == AsWritten && c.entries == 2 && Turned(c, s)
    ensures Turned(c, Apply(c, s, act))
  {
    if !TouchesRing(s, act) {
      TurnedOthers(c, s, act);
    } else if Enabled(c, s, act) {
      TurnedTouch(c, s, act);
    }
  }

  lemma {:induction false} TurnedRun(c: Config, s: State, acts: seq<Action>)
    requires Inv(c, s) && c.policy == AsWritten && c.entries == 2 && Turned(c, s)
    ensures Turned(c, Exec(c, s, acts))
    decreases |acts|
  {
    if acts != [] {
      TurnedStep(c, s, acts[0]);
      InvStep(c, s, acts[0]);
      TurnedRun(c, Apply(c, s, acts[0]), acts[1..]);
    }
  }

  lemma TurnedAfter(c: Config, b: Boot, mem: seq<char>, rmem: seq<char>, acts: seq<Action>)
    requires ValidStart(c, b, mem, rmem) && c.policy == AsWritten && c.entries == 2
    ensures var s := After(c, b, mem, rmem, acts); Inv(c, s) && Turned(c, s)
  {
    InvInit(c, b, mem, rmem);
    TurnedRun(c, Init(c, b, mem, rmem), acts);
    InvAfter(c, b, mem, rmem, acts);
  }

  // ---- two buffers: the result ----

  lemma AlternatesLies(a: nat, slots: seq<Slot>, picked: seq<nat>, p: nat)
    requires Alternates(a, slots, picked) && a <= p < a + 2 && |picked| <= p
    ensures slots[p % 2].bid == p % 2
  {
  }

  lemma TurnPosition(c: Config, s: State, i: nat)
    requires ValidConfig(c) && Sizes(c, s) && RingCounts(c, s) && Positions(c, s) && c.entries == 2
    requires InTurn(s) && !HalfWay(s.a) && i < 2
    ensures |InOrder(s)| == 2 && InOrder(s)[i] == (|s.a.hist.recycled| + i) % 2
  {
    var p := |s.a.hist.recycled| + i;
    if p < |s.k.picked| {
      assert InOrder(s)[i] == s.k.picked[p];
    } else {
      VisibleLies(c, s, p - |s.k.picked|);
      AlternatesLies(Adds(s), s.a.ring.slots, s.k.picked, p);
    }
  }

  lemma TwoInOrder(all: seq<nat>, r: nat)
    requires |all| == 2 && all[0] == r % 2 && all[1] == (r + 1) % 2
    ensures multiset(all) == multiset(Range(2))
  {
    if r % 2 == 0 { assert all == [0, 1]; } else { assert all == [1, 0]; }
    assert Range(2) == [0, 1];
  }

  lemma InTurnConserves(c: Config, s: State)
    requires ValidConfig(c) && Sizes(c, s) && RingCounts(c, s) && Positions(c, s) && c.entries == 2
    requires InTurn(s) && !HalfWay(s.a)
    ensures Accessible(s) == multiset(Range(2))
  {
    TurnPosition(c, s, 0);
    TurnPosition(c, s, 1);
    TwoInOrder(InOrder(s), |s.a.hist.recycled|);
    AccessibleInOrder(s);
  }

  /** In turn, the last even pick reached found buffer 0. */
  lemma InTurnPicked(adds: nat, slots: seq<Slot>, picked: seq<nat>)
    requires Alternates(adds, slots, picked) && adds >= 2
    ensures LastEven(adds) < |picked| && picked[LastEven(adds)] == 0
  {
    assert LastEven(adds) % 2 == 0;
  }

  lemma TwoConserveHere(c: Config, s: State)
    requires ValidConfig(c) && Sizes(c, s) && RingCounts(c, s) && c.entries == 2 && Turned(c, s) && !HalfWay(s.a)
    ensures var e := LastEven(|s.a.hist.recycled|);
            Accessible(s) == multiset(Range(2))
            <==> |s.a.hist.recycled| <= 1 || (|s.k.picked| > e && s.k.picked[e] == 0)
  {
    if InTurn(s) {
      InTurnConserves(c, s);
      if Adds(s) >= 2 { InTurnPicked(Adds(s), s.a.ring.slots, s.k.picked); }
    } else {
      GoneNotConserved(c, s, 0);
    }
  }

  /** As written, two buffers, every schedule: between recycles both are accessible if and only if at most
      one message has been handled, or the last even pick the recycles have reached found buffer 0, that
      is, was made before the recycle that overwrote its record. */
  lemma TwoConserveIff(c: Config, b: Boot, mem: seq<char>, rmem: seq<char>, acts: seq<Action>)
    requires ValidStart(c, b, mem, rmem) && c.policy == AsWritten && c.entries == 2
    requires !HalfWay(After(c, b, mem, rmem, acts).a)
    ensures var s := After(c, b, mem, rmem, acts); var handled := |s.a.hist.recycled|;
            var e := LastEven(handled);
            && |s.a.ring.slots| > 0
            && (Accessible(s) == multiset(Range(c.entries))
                <==> handled <= 1 || (|s.k.picked| > e && s.k.picked[e] == 0))
  {
    TurnedAfter(c, b, mem, rmem, acts);
    TwoConserveHere(c, After(c, b, mem, rmem, acts));
  }
}
