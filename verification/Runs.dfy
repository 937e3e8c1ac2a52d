/** Everything that holds in every state of every run. */
module Runs {
  import opened Bits
  import opened Geometry
  import opened LogLine
  import opened Model
  import opened StateShape
  import opened Tagging
  import opened Ownership
  import opened Integrity
  import opened RingQueue
  import opened Messages
  import opened Ledger
  import opened Causality
  import opened Returns
  import opened Arrivals

  /** Why a run may have stopped: never for a stray access or a double put. */
  ghost predicate StopExplained(c: Config, a: App) {
    match a.status
    case Faulted(f) => f == NullSqe && |a.sq| == c.depth
    case Aborted(NoSqe) => |a.sq| == c.depth && a.todo != [] && (a.todo[0].LogQueue? || a.todo[0].QueueAccept?)
    case Aborted(PoolEmpty) => a.free == [] && a.todo != [] && a.todo[0].LogPop?
    case _ => true
  }

  ghost predicate Inv(c: Config, s: State) {
    && ValidConfig(c)
    && Shape(c, s)
    && Tagged(s)
    && Partition(c, s)
    && Images(s)
    && RingCounts(c, s)
    && MessagesFit(c, s)
    && Balanced(c, s.a)
    && Caused(s)
    && ReturnsInOrder(s)
    && Accounted(s)
    && StopExplained(c, s.a)
    && (c.policy == Manual ==> QueueLaw(c, s) && MessagesHeld(c, s))
  }

  lemma InvInit(c: Config, b: Boot, mem: seq<char>, rmem: seq<char>)
    requires ValidStart(c, b, mem, rmem)
    ensures Inv(c, Init(c, b, mem, rmem))
  {
    ShapeInit(c, b, mem, rmem);
    PartitionInit(c, b, mem, rmem);
    ImagesInit(c, b, mem, rmem);
    RingInit(c, b, mem, rmem);
    FitInit(c, b, mem, rmem);
    LedgerInit(c, b, mem, rmem);
    CausedInit(c, b, mem, rmem);
    ReturnsInit(c, b, mem, rmem);
    AccountedInit(c, b, mem, rmem);
  }

  // ---- no stray access, no double put ----

  lemma PopInBounds(c: Config, s: State)
    requires Shape(c, s) && Partition(c, s) && s.a.free != []
    ensures (s.a.free[0] + 1) * BUFSIZE <= |s.a.mem|
  {
    OneOwner(c, s, s.a.free[0]);
  }

  lemma ReadInBounds(c: Config, s: State)
    requires Shape(c, s) && MessagesFit(c, s) && s.a.todo != [] && s.a.todo[0].ReadPacket?
    ensures var op := s.a.todo[0];
            op.bid < c.entries && op.len <= c.entrySize && (op.bid + 1) * c.entrySize <= |s.a.rmem|
  {
    SliceBounds(s.a.todo[0].bid, c.entrySize, c.entries);
  }

  lemma AddInBounds(c: Config, s: State)
    requires Shape(c, s) && RingCounts(c, s) && s.a.todo != [] && s.a.todo[0].RingAdd?
    ensures s.a.todo[0].bid < |s.a.ring.slots|
  {
    assert Held(s)[0] == s.a.todo[0].bid;
  }

  /** The current operation stays inside the memory and the pool it addresses. */
  ghost predicate OpInBounds(c: Config, a: App)
    requires a.todo != []
  {
    match a.todo[0]
    case LogPop(_, _, _, _) => a.free != [] ==> (a.free[0] + 1) * BUFSIZE <= |a.mem|
    case LogQueue(bid, _, _) => (bid + 1) * BUFSIZE <= |a.mem|
    case ReadPacket(bid, len, _, _, _) =>
      bid < c.entries && len <= c.entrySize && (bid + 1) * c.entrySize <= |a.rmem|
    case RingAdd(bid) => bid < |a.ring.slots|
    case Put(bid) => bid < c.pool && bid !in a.free
    case _ => true
  }

  lemma AlwaysInBounds(c: Config, s: State)
    requires Shape(c, s) && Partition(c, s) && Images(s) && RingCounts(c, s) && MessagesFit(c, s)
    requires s.a.todo != []
    ensures OpInBounds(c, s.a)
  {
    var op := s.a.todo[0];
    match op
    case LogPop(_, _, _, _) => if s.a.free != [] { PopInBounds(c, s); }
    case LogQueue(_, _, _) => assert Formatted(s.a.mem, op);
    case ReadPacket(_, _, _, _, _) => ReadInBounds(c, s);
    case RingAdd(_) => AddInBounds(c, s);
    case Put(bid) => PutIsLegal(c, s, bid);
    case _ =>
  }

  lemma InBoundsExplained(c: Config, a: App)
    requires a.status == Running && a.todo != [] && OpInBounds(c, a) && |a.sq| <= c.depth
    ensures StopExplained(c, StepOp(c, a))
  {
  }

  lemma OpExplained(c: Config, s: State)
    requires Shape(c, s) && Partition(c, s) && Images(s) && RingCounts(c, s) && MessagesFit(c, s)
    requires s.a.status == Running && s.a.todo != []
    ensures StopExplained(c, StepOp(c, s.a))
  {
    AlwaysInBounds(c, s);
    InBoundsExplained(c, s.a);
  }

  lemma DispatchExplained(c: Config, s: State, e: Env)
    requires s.a.status == Running && s.k.cq != []
    ensures StopExplained(c, NextDispatch(s, e).a)
  {
  }

  lemma StopStep(c: Config, s: State, act: Action)
    requires Shape(c, s) && Partition(c, s) && Images(s) && RingCounts(c, s) && MessagesFit(c, s)
    requires StopExplained(c, s.a)
    ensures StopExplained(c, Apply(c, s, act).a)
  {
    if Enabled(c, s, act) {
      match act
      case Dispatch(e) => DispatchExplained(c, s, e);
      case RunOp => OpExplained(c, s);
      case _ => KernelKeepsStatus(c, s, act);
    }
  }

  lemma KernelKeepsStatus(c: Config, s: State, act: Action)
    requires Enabled(c, s, act) && !act.Dispatch? && !act.RunOp?
    ensures Next(c, s, act).a.status == if act.WaitFails? then Aborted(SyscallFailed) else Running
  {
  }

  // ---- every step, every run ----

  lemma InvStep(c: Config, s: State, act: Action)
    requires Inv(c, s)
    ensures Inv(c, Apply(c, s, act))
  {
    ShapeStep(c, s, act);
    TaggedStep(c, s, act);
    PartitionStep(c, s, act);
    ImagesStep(c, s, act);
    RingStep(c, s, act);
    FitStep(c, s, act);
    LedgerStep(c, s, act);
    CausedStep(c, s, act);
    ReturnsStep(c, s, act);
    AccountedStep(c, s, act);
    StopStep(c, s, act);
    if c.policy == Manual {
      QueueSpares(c, s, act);
      InPlaceStepIff(c, s, act);
    }
  }

  lemma {:induction false} InvExec(c: Config, s: State, acts: seq<Action>)
    requires Inv(c, s)
    ensures Inv(c, Exec(c, s, acts))
    decreases |acts|
  {
    if acts != [] {
      InvStep(c, s, acts[0]);
      InvExec(c, Apply(c, s, acts[0]), acts[1..]);
    }
  }

  /** The state after a run from start-up. */
  function After(c: Config, b: Boot, mem: seq<char>, rmem: seq<char>, acts: seq<Action>): State
    requires ValidBoot(b)
  {
    Exec(c, Init(c, b, mem, rmem), acts)
  }

  lemma InvAfter(c: Config, b: Boot, mem: seq<char>, rmem: seq<char>, acts: seq<Action>)
    requires ValidStart(c, b, mem, rmem)
    ensures Inv(c, After(c, b, mem, rmem, acts))
  {
    InvInit(c, b, mem, rmem);
    InvExec(c, Init(c, b, mem, rmem), acts);
  }

  lemma {:induction false} ExecAppend(c: Config, s: State, acts: seq<Action>, more: seq<Action>)
    ensures Exec(c, s, acts + more) == Exec(c, Exec(c, s, acts), more)
    decreases |acts|
  {
    if acts == [] {
      assert acts + more == more;
    } else {
      assert (acts + more)[1..] == acts[1..] + more;
      ExecAppend(c, Apply(c, s, acts[0]), acts[1..], more);
    }
  }

  lemma ExecLast(c: Config, s: State, acts: seq<Action>, act: Action)
    ensures Exec(c, s, acts + [act]) == Apply(c, Exec(c, s, acts), act)
  {
    ExecAppend(c, s, acts, [act]);
    assert Exec(c, Exec(c, s, acts), [act]) == Exec(c, Apply(c, Exec(c, s, acts), act), []);
  }

  /** Some run from start-up leads here. */
  ghost predicate Reachable(c: Config, s: State) {
    exists b: Boot, mem: seq<char>, rmem: seq<char>, acts: seq<Action> ::
      ValidStart(c, b, mem, rmem) && s == After(c, b, mem, rmem, acts)
  }

  lemma ReachableInit(c: Config, b: Boot, mem: seq<char>, rmem: seq<char>)
    requires ValidStart(c, b, mem, rmem)
    ensures Reachable(c, Init(c, b, mem, rmem))
  {
    assert Init(c, b, mem, rmem) == After(c, b, mem, rmem, []);
  }

  lemma ReachableExec(c: Config, s: State, more: seq<Action>)
    requires Reachable(c, s)
    ensures Reachable(c, Exec(c, s, more))
  {
    var b, mem, rmem, acts :| ValidStart(c, b, mem, rmem) && s == After(c, b, mem, rmem, acts);
    ExecAppend(c, Init(c, b, mem, rmem), acts, more);
    assert Exec(c, s, more) == After(c, b, mem, rmem, acts + more);
  }

  lemma ReachableStep(c: Config, s: State, act: Action)
    requires Reachable(c, s)
    ensures Reachable(c, Apply(c, s, act))
  {
    ReachableExec(c, s, [act]);
    assert Exec(c, s, [act]) == Exec(c, Apply(c, s, act), []);
  }

  lemma ReachableInv(c: Config, s: State)
    requires Reachable(c, s)
    ensures Inv(c, s)
  {
    var b, mem, rmem, acts :| ValidStart(c, b, mem, rmem) && s == After(c, b, mem, rmem, acts);
    InvAfter(c, b, mem, rmem, acts);
  }

  lemma ReachableTagged(c: Config, s: State)
    requires Reachable(c, s)
    ensures Tagged(s)
  {
    ReachableInv(c, s);
  }

  lemma ReachableMessages(c: Config, s: State)
    requires Reachable(c, s)
    ensures ValidConfig(c) && Sizes(c, s) && MessagesFit(c, s)
  {
    ReachableInv(c, s);
  }

  /** What a reachable state lets the next operation of a handler rely on. */
  lemma OpReady(c: Config, s: State)
    requires Reachable(c, s) && s.a.status == Running && s.a.todo != []
    ensures OpInBounds(c, s.a) && Reachable(c, s.(a := StepOp(c, s.a)))
    ensures c.pool <= U16 && |s.a.mem| == c.pool * BUFSIZE && |s.a.sq| <= c.depth && |s.a.ring.slots| == c.entries
  {
    ReachableInv(c, s);
    AlwaysInBounds(c, s);
    ReachableStep(c, s, RunOp);
  }

  lemma PoolInBounds(c: Config, s: State)
    requires Reachable(c, s) && s.a.free != []
    ensures (s.a.free[0] + 1) * BUFSIZE <= |s.a.mem|
  {
    ReachableInv(c, s);
    PopInBounds(c, s);
  }

  lemma DispatchReady(c: Config, s: State, e: Env)
    requires Reachable(c, s) && s.a.status == Running && s.a.todo == [] && s.k.cq != []
    ensures Reachable(c, NextDispatch(s, e))
  {
    ReachableStep(c, s, Dispatch(e));
  }

  /** One state leads to another by some run. */
  ghost predicate LeadsTo(c: Config, s: State, t: State) {
    exists acts: seq<Action> :: t == Exec(c, s, acts)
  }

  lemma LeadsToItself(c: Config, s: State)
    ensures LeadsTo(c, s, s)
  {
    assert s == Exec(c, s, []);
  }

  lemma LeadsToTransitive(c: Config, s: State, t: State, u: State)
    requires LeadsTo(c, s, t) && LeadsTo(c, t, u)
    ensures LeadsTo(c, s, u)
  {
    var acts: seq<Action> :| t == Exec(c, s, acts);
    var more: seq<Action> :| u == Exec(c, t, more);
    ExecAppend(c, s, acts, more);
    assert u == Exec(c, s, acts + more);
  }

  lemma StepLeadsTo(c: Config, s: State, act: Action)
    ensures LeadsTo(c, s, Apply(c, s, act))
  {
    assert Exec(c, s, [act]) == Exec(c, Apply(c, s, act), []);
  }
}
