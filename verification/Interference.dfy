/** Handlers with the kernel at work between their operations. */
module Interference {
  import opened Model
  import opened StateShape
  import opened Ledger
  import opened Runs
  import opened Handlers
  import opened Submission
  import opened QueueBound

  /** Only the rest of the current handler, and the kernel. */
  ghost predicate OneHandler(acts: seq<Action>) {
    forall i :: 0 <= i < |acts| ==> acts[i].RunOp? || KernelAct(acts[i])
  }

  /** Entries, buffers and a submit enough for all that is left of the handler. */
  ghost predicate Provided(c: Config, a: App) {
    && a.status == Running
    && |a.sq| + Demand(a.todo) <= c.depth
    && |Gather(a.todo, LogLevel)| <= |a.free|
    && forall i :: 0 <= i < |a.todo| && a.todo[i].Submit? ==> a.todo[i].ok
  }

  lemma ProvidedGoesOn(c: Config, a: App)
    requires Provided(c, a) && a.todo != [] && OpInBounds(c, a)
    ensures StepOp(c, a).status == Running
  {
    assert Demand(a.todo) == (if Reserves(a.todo[0]) then 1 else 0) + Demand(a.todo[1..]);
    assert Gather(a.todo, LogLevel) == LogLevel(a.todo[0]) + Gather(a.todo[1..], LogLevel);
  }

  lemma SubmitsStayOk(c: Config, a: App)
    requires a.todo != [] && forall i :: 0 <= i < |a.todo| && a.todo[i].Submit? ==> a.todo[i].ok
    ensures var t := StepOp(c, a).todo; forall i :: 0 <= i < |t| && t[i].Submit? ==> t[i].ok
  {
    StepTodo(c, a);
    var t := StepOp(c, a).todo;
    assert forall i :: 0 <= i < |a.todo[1..]| ==> a.todo[1..][i] == a.todo[i + 1];
    assert forall i :: 1 <= i < |t| ==> t[i] == t[1..][i - 1];
  }

  lemma BuffersSuffice(c: Config, a: App)
    requires a.todo != [] && a.status == Running && StepOp(c, a).status == Running
    requires |Gather(a.todo, LogLevel)| <= |a.free|
    ensures |Gather(StepOp(c, a).todo, LogLevel)| <= |StepOp(c, a).free|
  {
    StopOrMove(c, a);
    StepHistory(c, a);
    GatherStep(c, a, LogLevel);
  }

  lemma ProvidedOp(c: Config, s: State)
    requires Inv(c, s) && Provided(c, s.a) && s.a.todo != []
    ensures Provided(c, StepOp(c, s.a))
  {
    AlwaysInBounds(c, s);
    ProvidedGoesOn(c, s.a);
    DemandStep(c, s.a);
    BuffersSuffice(c, s.a);
    SubmitsStayOk(c, s.a);
  }

  lemma ProvidedKernel(c: Config, s: State, act: Action)
    requires Provided(c, s.a) && KernelAct(act) && Enabled(c, s, act)
    ensures Provided(c, Next(c, s, act).a)
  {
    KernelKeepsBooks(c, s, act);
    KernelKeepsStatus(c, s, act);
    KernelShortensQueue(c, s, act);
  }

  lemma KernelShortensQueue(c: Config, s: State, act: Action)
    requires KernelAct(act) && Enabled(c, s, act)
    ensures |Next(c, s, act).a.sq| <= |s.a.sq|
  {
  }

  lemma ProvidedStep(c: Config, s: State, act: Action)
    requires Inv(c, s) && Provided(c, s.a) && (act.RunOp? || KernelAct(act))
    ensures Provided(c, Apply(c, s, act).a)
  {
    if Enabled(c, s, act) {
      if act.RunOp? { ProvidedOp(c, s); } else { ProvidedKernel(c, s, act); }
    }
  }

  lemma {:induction false} ProvidedRun(c: Config, s: State, acts: seq<Action>)
    requires Inv(c, s) && Provided(c, s.a) && OneHandler(acts)
    ensures Provided(c, Exec(c, s, acts).a)
    decreases |acts|
  {
    if acts != [] {
      assert forall i :: 0 <= i < |acts[1..]| ==> acts[1..][i] == acts[i + 1];
      ProvidedStep(c, s, acts[0]);
      InvStep(c, s, acts[0]);
      ProvidedRun(c, Apply(c, s, acts[0]), acts[1..]);
    }
  }

  /** No interleaving of the kernel with the rest of the handler stops the run. */
  ghost predicate Unstoppable(c: Config, s: State) {
    forall acts: seq<Action> :: OneHandler(acts) ==> Exec(c, s, acts).a.status == Running
  }

  lemma ProvidedIsUnstoppable(c: Config, s: State)
    requires Inv(c, s) && Provided(c, s.a)
    ensures Unstoppable(c, s)
  {
    forall acts: seq<Action> | OneHandler(acts)
      ensures Exec(c, s, acts).a.status == Running
    {
      ProvidedRun(c, s, acts);
    }
  }

  lemma UnstoppableFinishes(c: Config, s: State)
    requires Unstoppable(c, s)
    ensures Finish(c, s.a).status == Running
  {
    var acts := FinishIsARun(c, s);
    assert OneHandler(acts);
  }

  /** The accept handler survives every interleaving exactly when two entries and one buffer are free
      as it starts and its submit goes through. */
  lemma AcceptUnstoppableIff(c: Config, s: State, clientfd: nat, e: Env)
    requires Reachable(c, s) && s.a.status == Running && s.a.todo == AcceptOps(clientfd, e)
    ensures Unstoppable(c, s) <==> |s.a.sq| + 2 <= c.depth && s.a.free != [] && e.submitOk
  {
    ReachableInv(c, s);
    if |s.a.sq| + 2 <= c.depth && s.a.free != [] && e.submitOk {
      DemandOfAccept(clientfd, e);
      GatherAccept(clientfd, e, LogLevel);
      ProvidedIsUnstoppable(c, s);
    } else if Unstoppable(c, s) {
      UnstoppableFinishes(c, s);
      if s.a.free != [] { PoolInBounds(c, s); }
      AcceptOutcome(c, s.a, clientfd, e);
    }
  }

  lemma RecvProvided(c: Config, a: App, fd: nat, bid: nat, len: nat, x: Cqe, e: Env)
    requires a.status == Running && a.todo == RecvOps(fd, bid, len, x, e) && e.submitOk
    requires |a.sq| + 2 <= c.depth && a.free != []
    ensures Provided(c, a)
  {
    DemandOfRecv(fd, bid, len, x, e);
    GatherRecv(fd, bid, len, x, e, LogLevel);
  }

  lemma RecvNeeds(c: Config, s: State, fd: nat, bid: nat, len: nat, x: Cqe, e: Env)
    requires Reachable(c, s) && s.a.status == Running && s.a.todo == RecvOps(fd, bid, len, x, e)
    requires Finish(c, s.a).status == Running
    ensures |s.a.sq| + 2 <= c.depth && s.a.free != [] && e.submitOk
  {
    OpReady(c, s);
    if s.a.free != [] { PoolInBounds(c, s); }
    RecvOutcome(c, s.a, fd, bid, len, x, e);
  }

  /** So does the message handler, under the same condition. */
  lemma RecvUnstoppableIff(c: Config, s: State, fd: nat, bid: nat, len: nat, x: Cqe, e: Env)
    requires Reachable(c, s) && s.a.status == Running && s.a.todo == RecvOps(fd, bid, len, x, e)
    ensures Unstoppable(c, s) <==> |s.a.sq| + 2 <= c.depth && s.a.free != [] && e.submitOk
  {
    if |s.a.sq| + 2 <= c.depth && s.a.free != [] && e.submitOk {
      ReachableInv(c, s);
      RecvProvided(c, s.a, fd, bid, len, x, e);
      ProvidedIsUnstoppable(c, s);
    } else if Unstoppable(c, s) {
      UnstoppableFinishes(c, s);
      RecvNeeds(c, s, fd, bid, len, x, e);
    }
  }
}
