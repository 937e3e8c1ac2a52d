/** Exactly when some run loses a buffer for good. */
module Losses {
  import opened Seqs
  import opened RingSpec
  import opened Model
  import opened RingQueue
  import opened Ledger
  import opened Runs
  import opened LostBuffers
  import opened QueueBound
  import opened Progress

  // ---- before the first recycle ----

  /** Until the first recycle writes, the slots are as initialised. */
  ghost predicate Unwritten(c: Config, s: State) {
    Adds(s) == 0 ==> s.a.ring.slots == InitRing(c.entries, c.entrySize).slots
  }

  lemma UnwrittenTouched(c: Config, s: State, act: Action)
    requires Unwritten(c, s) && TouchesRing(s, act) && Enabled(c, s, act) && s.a.todo != [] && act.RunOp?
    requires s.a.todo[0].RingAdd? ==> s.a.todo[0].bid < |s.a.ring.slots|
    ensures Unwritten(c, Next(c, s, act))
  {
  }

  lemma UnwrittenStep(c: Config, s: State, act: Action)
    requires Inv(c, s) && Unwritten(c, s)
    ensures Unwritten(c, Apply(c, s, act))
  {
    if !TouchesRing(s, act) {
      OthersKeepAdds(c, s, act);
    } else if Enabled(c, s, act) {
      if act.CompleteRecv? {
        PickHolds(c, s, act.i, act.payload, act.more);
      } else {
        if s.a.todo[0].RingAdd? { AddInBounds(c, s); }
        UnwrittenTouched(c, s, act);
      }
    }
  }

  lemma {:induction false} UnwrittenRun(c: Config, s: State, acts: seq<Action>)
    requires Inv(c, s) && Unwritten(c, s)
    ensures Unwritten(c, Exec(c, s, acts))
    decreases |acts|
  {
    if acts != [] {
      UnwrittenStep(c, s, acts[0]);
      InvStep(c, s, acts[0]);
      UnwrittenRun(c, Apply(c, s, acts[0]), acts[1..]);
    }
  }

  lemma UnwrittenAfter(c: Config, b: Boot, mem: seq<char>, rmem: seq<char>, acts: seq<Action>)
    requires ValidStart(c, b, mem, rmem)
    ensures Unwritten(c, After(c, b, mem, rmem, acts))
  {
    InvInit(c, b, mem, rmem);
    UnwrittenRun(c, Init(c, b, mem, rmem), acts);
  }

  /** Start-up recycles nothing. */
  lemma BootingAddsNone(c: Config, b: Boot, s: State)
    requires Inv(c, s) && Booting(b, s)
    ensures Adds(s) == 0
  {
    GatherNone(s.a.todo, ReadFd);
  }

  // ---- what rules a loss out ----

  lemma ConservedKeeps(c: Config, s: State, x: nat)
    requires |s.a.ring.slots| > 0 && Accessible(s) == multiset(Range(c.entries)) && x < c.entries
    ensures !Gone(s, x)
  {
    if Gone(s, x) {
      GoneNotConserved(c, s, x);
    }
  }

  /** Offset 0 loses nothing. */
  lemma ManualKeeps(c: Config, s: State, x: nat)
    requires Inv(c, s) && c.policy == Manual && x < c.entries
    ensures !Gone(s, x)
  {
    QueueConserves(c, s);
    ConservedKeeps(c, s, x);
  }

  /** Start-up loses nothing. */
  lemma BootingKeeps(c: Config, b: Boot, s: State, x: nat)
    requires Inv(c, s) && Booting(b, s) && Unwritten(c, s) && x < c.entries
    ensures !Gone(s, x)
  {
    BootingAddsNone(c, b, s);
    assert s.a.ring.slots[x].bid == x;
  }

  /** A ring of one buffer always records it. */
  lemma OneSlotKeeps(c: Config, s: State, x: nat)
    requires Inv(c, s) && c.entries == 1 && x < c.entries
    ensures !Gone(s, x)
  {
    assert s.a.ring.slots[0].bid == 0;
  }

  lemma LossNeeds(c: Config, b: Boot, mem: seq<char>, rmem: seq<char>, acts: seq<Action>, x: nat)
    requires ValidStart(c, b, mem, rmem) && x < c.entries && Gone(After(c, b, mem, rmem, acts), x)
    ensures c.policy == AsWritten && c.entries >= 2 && Boots(c, b)
  {
    var s := After(c, b, mem, rmem, acts);
    InvAfter(c, b, mem, rmem, acts);
    if c.policy == Manual { ManualKeeps(c, s, x); }
    if c.entries == 1 { OneSlotKeeps(c, s, x); }
    PhaseAfter(c, b, mem, rmem, acts);
    if Booting(b, s) {
      UnwrittenAfter(c, b, mem, rmem, acts);
      BootingKeeps(c, b, s, x);
    }
  }

  // ---- exactly ----

  lemma OneBufferMeansLoss(c: Config, s: State)
    requires |s.a.ring.slots| == c.entries && Held(s) == []
    requires forall j :: 0 <= j < c.entries ==> s.a.ring.slots[j].bid == 1
    ensures Gone(s, 0)
  {
  }

  /** Some run loses a buffer for good exactly when the recycle passes the buffer id, the ring has at
      least two buffers and start-up can succeed. */
  lemma LossIff(c: Config, b: Boot, mem: seq<char>, rmem: seq<char>)
    requires ValidStart(c, b, mem, rmem)
    ensures (exists acts: seq<Action>, x: nat :: x < c.entries && Gone(After(c, b, mem, rmem, acts), x))
       <==> c.policy == AsWritten && c.entries >= 2 && c.pool >= 4 && c.depth >= 5 && b.submitOk
  {
    if c.policy == AsWritten && c.entries >= 2 && Boots(c, b) {
      var acts := OneBufferIsReached(c, b, mem, rmem, b.sock + 1);
      OneBufferMeansLoss(c, After(c, b, mem, rmem, acts));
      assert 0 < c.entries && Gone(After(c, b, mem, rmem, acts), 0);
    }
    if acts: seq<Action>, x: nat :| x < c.entries && Gone(After(c, b, mem, rmem, acts), x) {
      LossNeeds(c, b, mem, rmem, acts, x);
    }
  }
}
