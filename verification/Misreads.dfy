/** Exactly when some run reads something other than what was delivered. */
module Misreads {
  import opened Model
  import opened Tagging
  import opened RingQueue
  import opened Messages
  import opened Ledger
  import opened Runs
  import opened LockStepRuns
  import opened Deliveries
  import opened QueueBound
  import opened Progress
  import opened Guarantees

  // ---- a read has the length of its message ----

  ghost predicate ReadsSized(c: Config, a: App) {
    forall p :: p in a.hist.received ==> |p.read| == |p.delivered| <= c.entrySize
  }

  lemma SizedOp(c: Config, s: State)
    requires Inv(c, s) && ReadsSized(c, s.a) && s.a.todo != []
    ensures ReadsSized(c, StepOp(c, s.a))
  {
    OpReads(c, s.a);
    if s.a.todo[0].ReadPacket? {
      ReadInBounds(c, s);
    }
  }

  lemma SizedDispatch(s: State, e: Env)
    requires Tagged(s) && s.a.todo == [] && s.k.cq != []
    ensures NextDispatch(s, e).a.hist.received == s.a.hist.received
  {
    DispatchIsTake(s, e);
    HandlerReads(s.a, s.k.cq[0], e);
  }

  lemma SizedStep(c: Config, s: State, act: Action)
    requires Inv(c, s) && ReadsSized(c, s.a)
    ensures ReadsSized(c, Apply(c, s, act).a)
  {
    if Enabled(c, s, act) {
      match act
      case Dispatch(e) => SizedDispatch(s, e);
      case RunOp => SizedOp(c, s);
      case _ => KernelKeepsBooks(c, s, act);
    }
  }

  lemma {:induction false} SizedRun(c: Config, s: State, acts: seq<Action>)
    requires Inv(c, s) && ReadsSized(c, s.a)
    ensures ReadsSized(c, Exec(c, s, acts).a)
    decreases |acts|
  {
    if acts != [] {
      SizedStep(c, s, acts[0]);
      InvStep(c, s, acts[0]);
      SizedRun(c, Apply(c, s, acts[0]), acts[1..]);
    }
  }

  // ---- one slot ----

  lemma OneSlotOffered(c: Config, s: State, act: Action)
    requires RingCounts(c, s) && c.entries == 1 && act.CompleteRecv? && Enabled(c, s, act)
    ensures Held(s) == []
  {
  }

  /** A ring of one buffer offers it only while nothing is held. */
  lemma {:induction false} OneSlotIsLockStep(c: Config, s: State, acts: seq<Action>)
    requires Inv(c, s) && c.entries == 1
    ensures LockStep(c, s, acts)
    decreases |acts|
  {
    if acts != [] {
      var act, t := acts[0], Apply(c, s, acts[0]);
      InvStep(c, s, act);
      OneSlotIsLockStep(c, t, acts[1..]);
      if act.CompleteRecv? && Enabled(c, s, act) {
        OneSlotOffered(c, s, act);
      }
    }
  }

  // ---- exactly ----

  /** What a misread needs. */
  lemma MisreadNeeds(c: Config, b: Boot, mem: seq<char>, rmem: seq<char>, acts: seq<Action>, p: Packet)
    requires ValidStart(c, b, mem, rmem)
    requires p in After(c, b, mem, rmem, acts).a.hist.received && p.read != p.delivered
    ensures c.policy == AsWritten && c.entries >= 2 && c.entrySize >= 1 && Boots(c, b)
  {
    InvInit(c, b, mem, rmem);
    SizedRun(c, Init(c, b, mem, rmem), acts);
    BoundedAfter(c, b, mem, rmem, acts);
    if c.policy == Manual {
      ManualReadsWhatArrived(c, b, mem, rmem, acts, p);
    }
    if c.entries < 2 {
      OneSlotIsLockStep(c, Init(c, b, mem, rmem), acts);
      LockStepReadsWhatArrived(c, b, mem, rmem, acts, p);
    }
  }

  /** Some run reads a message other than the one delivered exactly when the recycle passes the buffer
      id, the ring has at least two buffers of at least one byte, and start-up can succeed. */
  lemma MisreadIff(c: Config, b: Boot, mem: seq<char>, rmem: seq<char>)
    requires ValidStart(c, b, mem, rmem)
    ensures (exists acts: seq<Action>, p: Packet ::
               p in After(c, b, mem, rmem, acts).a.hist.received && p.read != p.delivered)
       <==> c.policy == AsWritten && c.entries >= 2 && c.entrySize >= 1
            && c.pool >= 4 && c.depth >= 5 && b.submitOk
  {
    if c.policy == AsWritten && c.entries >= 2 && c.entrySize >= 1 && Boots(c, b) {
      var acts, p := MisreadIsReached(c, b, mem, rmem, b.sock + 1);
    }
    if acts: seq<Action>, p: Packet :|
      p in After(c, b, mem, rmem, acts).a.hist.received && p.read != p.delivered
    {
      MisreadNeeds(c, b, mem, rmem, acts, p);
    }
  }
}
