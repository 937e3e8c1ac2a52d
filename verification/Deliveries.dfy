/** Messages over whole runs, under either recycle: what it takes for every read to return what was
    delivered, and that the program as written can fail it. */
module Deliveries {
  import opened RingSpec
  import opened Model
  import opened RingQueue
  import opened Messages
  import opened Runs
  import opened LockStepRuns

  /** Every delivery of the run spares the messages not yet read. */
  ghost predicate SparingRun(c: Config, s: State, acts: seq<Action>)
    decreases |acts|
  {
    acts == [] || (Sparing(c, s, acts[0]) && SparingRun(c, Apply(c, s, acts[0]), acts[1..]))
  }

  /** No pick of the run names a buffer the application still holds. */
  ghost predicate FreshRun(c: Config, s: State, acts: seq<Action>)
    decreases |acts|
  {
    acts == [] ||
    (&& (acts[0].CompleteRecv? && Enabled(c, s, acts[0]) ==> BidAt(s.a.ring, s.k.head) !in Held(s))
     && FreshRun(c, Apply(c, s, acts[0]), acts[1..]))
  }

  /** At every moment of the run each unread message is in its buffer. */
  ghost predicate AlwaysInPlace(c: Config, s: State, acts: seq<Action>)
    decreases |acts|
  {
    UnreadInPlace(c, s) && (acts == [] || AlwaysInPlace(c, Apply(c, s, acts[0]), acts[1..]))
  }

  /** A run keeps every unread message in place throughout if and only if its deliveries spare them. */
  lemma {:induction false} InPlaceIffSparing(c: Config, s: State, acts: seq<Action>)
    requires Inv(c, s) && UnreadInPlace(c, s)
    ensures AlwaysInPlace(c, s, acts) <==> SparingRun(c, s, acts)
    decreases |acts|
  {
    if acts != [] {
      var t := Apply(c, s, acts[0]);
      InPlaceStepIff(c, s, acts[0]);
      InvStep(c, s, acts[0]);
      if UnreadInPlace(c, t) {
        InPlaceIffSparing(c, t, acts[1..]);
      }
    }
  }

  lemma {:induction false} SparingReads(c: Config, s: State, acts: seq<Action>)
    requires Inv(c, s) && MessagesHeld(c, s) && SparingRun(c, s, acts)
    ensures MessagesHeld(c, Exec(c, s, acts))
    decreases |acts|
  {
    if acts != [] {
      InPlaceStepIff(c, s, acts[0]);
      InvStep(c, s, acts[0]);
      SparingReads(c, Apply(c, s, acts[0]), acts[1..]);
    }
  }

  lemma {:induction false} FreshSpares(c: Config, s: State, acts: seq<Action>)
    requires Inv(c, s) && FreshRun(c, s, acts)
    ensures SparingRun(c, s, acts)
    decreases |acts|
  {
    if acts != [] {
      if acts[0].CompleteRecv? && Enabled(c, s, acts[0]) {
        FreshPickSpares(c, s, acts[0].payload);
      }
      InvStep(c, s, acts[0]);
      FreshSpares(c, Apply(c, s, acts[0]), acts[1..]);
    }
  }

  lemma {:induction false} LockStepIsFresh(c: Config, s: State, acts: seq<Action>)
    requires LockStep(c, s, acts)
    ensures FreshRun(c, s, acts)
    decreases |acts|
  {
    if acts != [] {
      LockStepIsFresh(c, Apply(c, s, acts[0]), acts[1..]);
    }
  }

  // ---- from start-up ----

  /** Exactly the runs whose deliveries agree with what is unread keep every unread message in place. */
  lemma UnreadStaysIff(c: Config, b: Boot, mem: seq<char>, rmem: seq<char>, acts: seq<Action>)
    requires ValidStart(c, b, mem, rmem)
    ensures AlwaysInPlace(c, Init(c, b, mem, rmem), acts) <==> SparingRun(c, Init(c, b, mem, rmem), acts)
  {
    InvInit(c, b, mem, rmem);
    FitInit(c, b, mem, rmem);
    InPlaceIffSparing(c, Init(c, b, mem, rmem), acts);
  }

  /** Either recycle: if no pick names a buffer still held, every message read is the one delivered. */
  lemma FreshRunReadsWhatArrived(c: Config, b: Boot, mem: seq<char>, rmem: seq<char>, acts: seq<Action>, p: Packet)
    requires ValidStart(c, b, mem, rmem) && FreshRun(c, Init(c, b, mem, rmem), acts)
    requires p in After(c, b, mem, rmem, acts).a.hist.received
    ensures p.read == p.delivered
  {
    InvInit(c, b, mem, rmem);
    FitInit(c, b, mem, rmem);
    FreshSpares(c, Init(c, b, mem, rmem), acts);
    SparingReads(c, Init(c, b, mem, rmem), acts);
  }

  /** So the program as written reads correctly for as long as each message is handled before the next
      pick, however few buffers its ring still offers. */
  lemma LockStepReadsWhatArrived(c: Config, b: Boot, mem: seq<char>, rmem: seq<char>, acts: seq<Action>, p: Packet)
    requires ValidStart(c, b, mem, rmem) && LockStep(c, Init(c, b, mem, rmem), acts)
    requires p in After(c, b, mem, rmem, acts).a.hist.received
    ensures p.read == p.delivered
  {
    LockStepIsFresh(c, Init(c, b, mem, rmem), acts);
    FreshRunReadsWhatArrived(c, b, mem, rmem, acts, p);
  }
}
