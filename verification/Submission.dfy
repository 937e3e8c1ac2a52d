/** How many submission entries the program reserves between two submits, and what happens when
    one is missing. */
module Submission {
  import opened Bits
  import opened Model
  import opened Tagging
  import opened Runs

  predicate Reserves(op: Op) {
    op.QueueAccept? || op.QueueRecv? || op.QueueSend? || op.LogPop? || op.LogQueue?
  }

  /** Entries the operations still to come will reserve. */
  function Demand(ops: seq<Op>): nat {
    if ops == [] then 0 else (if Reserves(ops[0]) then 1 else 0) + Demand(ops[1..])
  }

  lemma DemandCons(op: Op, rest: seq<Op>)
    ensures Demand([op] + rest) == (if Reserves(op) then 1 else 0) + Demand(rest)
  {
    assert ([op] + rest)[1..] == rest;
  }

  lemma DemandOfBoot(b: Boot)
    requires ValidBoot(b)
    ensures Demand(BootOps(b)) == 5
  {
    var ops := BootOps(b);
    assert ops[5..] == [ops[5]] + [] && ops[4..] == [ops[4]] + ops[5..] && ops[3..] == [ops[3]] + ops[4..]
        && ops[2..] == [ops[2]] + ops[3..] && ops[1..] == [ops[1]] + ops[2..] && ops == [ops[0]] + ops[1..];
    DemandCons(ops[5], []);
    DemandCons(ops[4], ops[5..]);
    DemandCons(ops[3], ops[4..]);
    DemandCons(ops[2], ops[3..]);
    DemandCons(ops[1], ops[2..]);
    DemandCons(ops[0], ops[1..]);
  }

  lemma DemandOfAccept(clientfd: nat, e: Env)
    ensures Demand(AcceptOps(clientfd, e)) == 2
  {
    var ops := AcceptOps(clientfd, e);
    assert ops[2..] == [ops[2]] + [] && ops[1..] == [ops[1]] + ops[2..] && ops == [ops[0]] + ops[1..];
    DemandCons(ops[2], []);
    DemandCons(ops[1], ops[2..]);
    DemandCons(ops[0], ops[1..]);
  }

  lemma DemandOfRecv(fd: nat, bid: nat, len: nat, x: Cqe, e: Env)
    ensures Demand(RecvOps(fd, bid, len, x, e)) == 2
  {
    var ops := RecvOps(fd, bid, len, x, e);
    assert ops[4..] == [ops[4]] + [] && ops[3..] == [ops[3]] + ops[4..] && ops[2..] == [ops[2]] + ops[3..]
        && ops[1..] == [ops[1]] + ops[2..] && ops == [ops[0]] + ops[1..];
    DemandCons(ops[4], []);
    DemandCons(ops[3], ops[4..]);
    DemandCons(ops[2], ops[3..]);
    DemandCons(ops[1], ops[2..]);
    DemandCons(ops[0], ops[1..]);
  }

  /** No completion makes its handler reserve more than two entries. */
  lemma DemandOfHandler(a: App, x: Cqe, e: Env)
    requires a.todo == []
    ensures Demand(HandleRequest(a, x, e).todo) <= 2
  {
    if x.origin.Accept? && x.res >= 0 {
      DemandOfAccept(x.res, e);
    } else if x.origin.Recv? && x.res >= 0 && e.valid {
      DemandOfRecv(x.origin.fd % U16, x.flags / BUFFER_SHIFT, x.res, x, e);
    } else if x.origin.Write? {
      DemandCons(Submit(e.submitOk), []);
      DemandCons(Put(x.origin.bid % U16), [Submit(e.submitOk)]);
      assert [Submit(e.submitOk)] + [] == [Submit(e.submitOk)];
      assert [Put(x.origin.bid % U16)] + [Submit(e.submitOk)] == [Put(x.origin.bid % U16), Submit(e.submitOk)];
    } else if x.origin.Send? {
      DemandCons(Submit(e.submitOk), []);
      assert [Submit(e.submitOk)] + [] == [Submit(e.submitOk)];
    }
  }

  /** Room is left for everything the current handler will reserve. */
  ghost predicate Budgeted(c: Config, a: App) {
    && |a.sq| + Demand(a.todo) <= c.depth
    && !a.status.Faulted? && a.status != Aborted(NoSqe)
  }

  lemma StepTodoDemand(c: Config, a: App)
    requires a.todo != [] && a.status == Running && OpInBounds(c, a) && Budgeted(c, a)
    ensures Budgeted(c, StepOp(c, a))
  {
    assert a.todo == [a.todo[0]] + a.todo[1..];
    var t := StepOp(c, a).todo;
    if t != a.todo && t != a.todo[1..] {
      DemandCons(t[0], a.todo[1..]);
    }
  }

  /** Whenever the loop takes a completion, at least two entries are free. */
  ghost predicate Roomy(c: Config, s: State, acts: seq<Action>)
    decreases |acts|
  {
    acts == [] ||
    (&& (acts[0].Dispatch? && Enabled(c, s, acts[0]) ==> |s.a.sq| + 2 <= c.depth)
     && Roomy(c, Apply(c, s, acts[0]), acts[1..]))
  }

  lemma BudgetDispatch(c: Config, s: State, e: Env)
    requires Tagged(s) && Budgeted(c, s.a) && s.a.todo == [] && s.k.cq != [] && |s.a.sq| + 2 <= c.depth
    ensures Budgeted(c, NextDispatch(s, e).a)
  {
    DispatchIsTake(s, e);
    HandleFrame(s.a, s.k.cq[0], e);
    DemandOfHandler(s.a, s.k.cq[0], e);
  }

  lemma BudgetStep(c: Config, s: State, act: Action)
    requires Inv(c, s) && Budgeted(c, s.a)
    requires act.Dispatch? && Enabled(c, s, act) ==> |s.a.sq| + 2 <= c.depth
    ensures Budgeted(c, Apply(c, s, act).a)
  {
    if Enabled(c, s, act) {
      match act
      case Dispatch(e) => BudgetDispatch(c, s, e);
      case RunOp =>
        AlwaysInBounds(c, s);
        StepTodoDemand(c, s.a);
      case _ => BudgetKernel(c, s, act);
    }
  }

  lemma BudgetKernel(c: Config, s: State, act: Action)
    requires Budgeted(c, s.a) && Enabled(c, s, act) && !act.Dispatch? && !act.RunOp?
    ensures Budgeted(c, Next(c, s, act).a)
  {
  }

  lemma {:induction false} BudgetRun(c: Config, s: State, acts: seq<Action>)
    requires Inv(c, s) && Budgeted(c, s.a) && Roomy(c, s, acts)
    ensures Budgeted(c, Exec(c, s, acts).a)
    decreases |acts|
  {
    if acts != [] {
      BudgetStep(c, s, acts[0]);
      InvStep(c, s, acts[0]);
      BudgetRun(c, Apply(c, s, acts[0]), acts[1..]);
    }
  }

  /** With room for five entries at start-up and for two at every wait, no run ever finds the
      submission queue full: neither unchecked null dereference can happen. */
  lemma RoomySubmissionIsSafe(c: Config, b: Boot, mem: seq<char>, rmem: seq<char>, acts: seq<Action>)
    requires ValidStart(c, b, mem, rmem) && c.depth >= 5 && Roomy(c, Init(c, b, mem, rmem), acts)
    ensures var a := After(c, b, mem, rmem, acts).a;
            && !a.status.Faulted? && a.status != Aborted(NoSqe)
            && |a.sq| + Demand(a.todo) <= c.depth
  {
    InvInit(c, b, mem, rmem);
    DemandOfBoot(b);
    BudgetRun(c, Init(c, b, mem, rmem), acts);
  }
}
