/** A handler run to its end with the kernel idle, and the exact outcome of each. */
module Handlers {
  import opened Seqs
  import opened LogLine
  import opened RingSpec
  import opened Model
  import opened StateShape
  import opened Runs

  function OpWeight(op: Op): nat {
    if op.LogPop? || op.RingAdd? then 2 else 1
  }

  function Weight(ops: seq<Op>): nat {
    if ops == [] then 0 else OpWeight(ops[0]) + Weight(ops[1..])
  }

  function Remaining(a: App): nat {
    if a.status == Running then 1 + Weight(a.todo) else 0
  }

  lemma StepShrinks(c: Config, a: App)
    requires a.todo != [] && a.status == Running
    ensures Remaining(StepOp(c, a)) < Remaining(a)
  {
    var a' := StepOp(c, a);
    if a'.status == Running && a'.todo != a.todo[1..] {
      assert a'.todo[1..] == a.todo[1..];
    }
  }

  /** Carry out every remaining operation, or stop where the run stops. */
  function Finish(c: Config, a: App): (r: App)
    ensures r.status == Running ==> r.todo == []
    decreases Remaining(a)
  {
    if a.todo == [] || a.status != Running then a
    else
      StepShrinks(c, a);
      Finish(c, StepOp(c, a))
  }

  /** Carry out a handler up to, but not including, the submit that ends the loop's iteration. */
  function Carry(c: Config, a: App): App
    decreases Remaining(a)
  {
    if a.todo == [] || a.todo[0].Submit? || a.status != Running then a
    else
      StepShrinks(c, a);
      Carry(c, StepOp(c, a))
  }

  lemma CarryUnfolds(c: Config, a: App)
    requires a.status == Running && a.todo != [] && !a.todo[0].Submit?
    ensures Carry(c, a) == Carry(c, StepOp(c, a))
  {
  }

  lemma CarryStops(c: Config, a: App)
    requires a.status != Running || a.todo == [] || a.todo[0].Submit?
    ensures Carry(c, a) == a
  {
  }

  lemma {:induction false} FinishAfterCarry(c: Config, a: App)
    ensures Finish(c, a) == Finish(c, Carry(c, a))
    decreases Remaining(a)
  {
    if a.todo != [] && !a.todo[0].Submit? && a.status == Running {
      StepShrinks(c, a);
      FinishAfterCarry(c, StepOp(c, a));
    }
  }

  /** A log call: the pop with its formatting, then the queued write, or the first alone if it stops. */
  function LogSteps(c: Config, a: App): App
    requires a.todo != []
  {
    var popped := StepOp(c, a);
    if popped.status == Running && popped.todo != [] then StepOp(c, popped) else popped
  }

  lemma CarryPastLog(c: Config, a: App)
    requires a.status == Running && a.todo != [] && a.todo[0].LogPop?
    ensures Carry(c, a) == Carry(c, LogSteps(c, a))
    ensures LogSteps(c, a).status == Running ==> LogSteps(c, a).todo == a.todo[1..]
  {
    CarryUnfolds(c, a);
    var popped := StepOp(c, a);
    if popped.status == Running {
      assert popped.todo[0].LogQueue? && popped.todo[1..] == a.todo[1..];
      CarryUnfolds(c, popped);
    }
  }

  /** A dispatch that does not stop the run leaves exactly its submit after the handler. */
  lemma CarryEnds(c: Config, s: State, e: Env)
    requires s.a.status == Running && s.a.todo == [] && s.k.cq != []
    ensures var a := Carry(c, NextDispatch(s, e).a);
            a.status == Running ==> a.todo == [Submit(e.submitOk)]
  {
    var a := NextDispatch(s, e).a;
    if a.status == Running {
      CarryKeepsLast(c, a, e.submitOk);
    } else {
      CarryStops(c, a);
    }
  }

  ghost predicate OneSubmitLast(todo: seq<Op>, ok: bool) {
    && todo != [] && todo[|todo| - 1] == Submit(ok)
    && forall i :: 0 <= i < |todo| - 1 ==> !todo[i].Submit?
  }

  lemma StepKeepsLast(c: Config, a: App, ok: bool)
    requires OneSubmitLast(a.todo, ok) && !a.todo[0].Submit?
    ensures OneSubmitLast(StepOp(c, a).todo, ok)
  {
    StepTodo(c, a);
    var t := StepOp(c, a).todo;
    assert |a.todo| > 1;
    assert forall i :: 0 <= i < |a.todo[1..]| ==> a.todo[1..][i] == a.todo[i + 1];
    if t != a.todo && t != a.todo[1..] {
      assert t == [t[0]] + a.todo[1..];
    }
  }

  lemma {:induction false} CarryKeepsLast(c: Config, a: App, ok: bool)
    requires OneSubmitLast(a.todo, ok)
    ensures Carry(c, a).status == Running ==> Carry(c, a).todo == [Submit(ok)]
    decreases Remaining(a)
  {
    if a.status == Running {
      if a.todo[0].Submit? {
        CarryStops(c, a);
        assert |a.todo| == 1;
      } else {
        StepShrinks(c, a);
        StepKeepsLast(c, a, ok);
        CarryKeepsLast(c, StepOp(c, a), ok);
      }
    } else {
      CarryStops(c, a);
    }
  }

  lemma FinishUnfolds(c: Config, a: App)
    requires a.status == Running && a.todo != []
    ensures Finish(c, a) == Finish(c, StepOp(c, a))
  {
  }

  /** The remaining operations as steps of the system: a handler uninterrupted is one of its runs. */
  lemma {:induction false} FinishIsARun(c: Config, s: State) returns (acts: seq<Action>)
    ensures Exec(c, s, acts) == s.(a := Finish(c, s.a))
    ensures forall i :: 0 <= i < |acts| ==> acts[i] == RunOp
    decreases Remaining(s.a)
  {
    if s.a.todo == [] || s.a.status != Running {
      acts := [];
    } else {
      StepShrinks(c, s.a);
      var rest := FinishIsARun(c, s.(a := StepOp(c, s.a)));
      acts := [RunOp] + rest;
      assert acts[1..] == rest;
    }
  }

  // ---- exact outcomes ----

  /** The log call at the head of `todo`, up to and including its queued write. */
  lemma LogOutcome(c: Config, a: App)
    requires a.status == Running && a.todo != [] && a.todo[0].LogPop?
    requires a.free != [] ==> (a.free[0] + 1) * BUFSIZE <= |a.mem|
    ensures a.free == [] ==> Finish(c, a).status == Aborted(PoolEmpty) && Finish(c, a).ring == a.ring
    ensures a.free != [] && |a.sq| >= c.depth ==> Finish(c, a).status == Aborted(NoSqe) && Finish(c, a).ring == a.ring
    ensures a.free != [] && |a.sq| < c.depth ==>
              var a2 := StepOp(c, StepOp(c, a));
              && a2.status == Running && a2.todo == a.todo[1..]
              && |a2.sq| == |a.sq| + 1 && a2.sq[..|a.sq|] == a.sq && a2.sq[|a.sq|].req.Write?
              && a2.free == a.free[1..] && a2.rmem == a.rmem && a2.ring == a.ring
              && Finish(c, a) == Finish(c, a2)
  {
    var a1 := StepOp(c, a);
    if a.free != [] {
      FinishUnfolds(c, a);
      FinishUnfolds(c, a1);
      assert a1.todo[0].LogQueue? && a1.todo[1..] == a.todo[1..];
    }
  }

  /** A connection is taken on completely, or the run ends for a reason visible beforehand. */
  lemma AcceptOutcome(c: Config, a: App, clientfd: nat, e: Env)
    requires a.status == Running && a.todo == AcceptOps(clientfd, e)
    requires a.free != [] ==> (a.free[0] + 1) * BUFSIZE <= |a.mem|
    ensures var r := Finish(c, a);
            && (r.status == Faulted(NullSqe) <==> |a.sq| >= c.depth)
            && (r.status == Aborted(PoolEmpty) <==> |a.sq| < c.depth && a.free == [])
            && (r.status == Aborted(NoSqe) <==> |a.sq| + 1 == c.depth && a.free != [])
            && (r.status == Running <==> |a.sq| + 2 <= c.depth && a.free != [] && e.submitOk)
            && (r.status == Running ==> |r.sq| == |a.sq| + 2 == r.submitted && r.free == a.free[1..])
  {
    var a1 := StepOp(c, a);
    if |a.sq| < c.depth {
      assert a1.todo == a.todo[1..] && a1.todo[0] == a.todo[1];
      LogOutcome(c, a1);
      if a.free != [] && |a.sq| + 1 < c.depth {
        var a3 := StepOp(c, StepOp(c, a1));
        assert a3.todo == a.todo[2..] == [Submit(e.submitOk)];
        LastSubmit(c, a3, e.submitOk);
      }
    }
  }

  lemma LastSubmit(c: Config, a: App, ok: bool)
    requires a.status == Running && a.todo == [Submit(ok)]
    ensures Finish(c, a) == DoSubmit(a, ok)
  {
    assert StepOp(c, a) == DoSubmit(a, ok);
    assert ok ==> StepOp(c, a).todo == [];
    FinishUnfolds(c, a);
  }

  /** A message is logged, its buffer recycled and the reply queued; or the run ends, and with exactly
      one free entry it ends in the unchecked null, after the log line took that entry. The buffer goes
      back between the line and the reply: not at all when the line fails, and already when the reply
      finds no entry. */
  lemma RecvOutcome(c: Config, a: App, fd: nat, bid: nat, len: nat, x: Cqe, e: Env)
    requires a.status == Running && a.todo == RecvOps(fd, bid, len, x, e)
    requires a.free != [] ==> (a.free[0] + 1) * BUFSIZE <= |a.mem|
    requires bid < c.entries == |a.ring.slots| && len <= c.entrySize && (bid + 1) * c.entrySize <= |a.rmem|
    ensures var r := Finish(c, a);
            && (r.status == Aborted(PoolEmpty) <==> a.free == [])
            && (r.status == Aborted(NoSqe) <==> a.free != [] && |a.sq| >= c.depth)
            && (r.status == Faulted(NullSqe) <==> a.free != [] && |a.sq| + 1 == c.depth)
            && (r.status == Running <==> a.free != [] && |a.sq| + 2 <= c.depth && e.submitOk)
            && (r.status == Running ==> |r.sq| == |a.sq| + 2 == r.submitted && r.free == a.free[1..]
                                        && r.sq[|a.sq|].req.Write? && r.sq[|a.sq| + 1].req.Send?)
    ensures Finish(c, a).ring == if a.free == [] || |a.sq| >= c.depth then a.ring
                                 else Advance(Add(a.ring, BufferOf(bid, c.entrySize), Offset(c, bid)), 1)
  {
    var a1 := StepOp(c, a);
    assert a1 == DoReadPacket(c, a, bid, len, fd, x.origin, x.payload);
    assert a1.todo == a.todo[1..] && a1.todo[0] == a.todo[1];
    LogOutcome(c, a1);
    if a.free != [] && |a.sq| < c.depth {
      var a3 := StepOp(c, StepOp(c, a1));
      assert a3.todo == a.todo[2..];
      RecycleThenReply(c, a3, fd, bid, e);
    }
  }

  lemma RecycleThenReply(c: Config, a: App, fd: nat, bid: nat, e: Env)
    requires a.status == Running && a.todo == [RingAdd(bid), QueueSend(fd, e.reqPad), Submit(e.submitOk)]
    requires bid < |a.ring.slots|
    ensures Finish(c, a).status == if |a.sq| >= c.depth then Faulted(NullSqe)
                                   else if e.submitOk then Running
                                   else Aborted(SyscallFailed)
    ensures Finish(c, a).ring == Advance(Add(a.ring, BufferOf(bid, c.entrySize), Offset(c, bid)), 1)
    ensures |a.sq| < c.depth && e.submitOk ==>
              var r := Finish(c, a);
              && |r.sq| == |a.sq| + 1 == r.submitted && r.free == a.free
              && r.sq[..|a.sq|] == a.sq && r.sq[|a.sq|].req.Send?
  {
    var a1 := StepOp(c, a);
    assert a1.todo == [RingAdvance(bid), QueueSend(fd, e.reqPad), Submit(e.submitOk)];
    var a2 := StepOp(c, a1);
    assert a2.todo == [QueueSend(fd, e.reqPad), Submit(e.submitOk)];
    var a3 := StepOp(c, a2);
    FinishUnfolds(c, a);
    FinishUnfolds(c, a1);
    FinishUnfolds(c, a2);
    if |a.sq| < c.depth {
      assert a3.todo == [Submit(e.submitOk)];
      LastSubmit(c, a3, e.submitOk);
    }
  }

  ghost predicate LogsThenSubmit(ops: seq<Op>, ok: bool) {
    && ops != [] && ops[|ops| - 1] == Submit(ok)
    && forall i :: 0 <= i < |ops| - 1 ==> ops[i].LogPop?
  }

  ghost predicate FreeInBounds(a: App) {
    forall i :: 0 <= i < |a.free| ==> (a.free[i] + 1) * BUFSIZE <= |a.mem|
  }

  ghost predicate LogRow(a: App, ok: bool) {
    a.status == Running && LogsThenSubmit(a.todo, ok) && FreeInBounds(a)
  }

  /** One log call of the row, when it succeeds. */
  lemma LogRowStep(c: Config, a: App, ok: bool) returns (a': App)
    requires LogRow(a, ok) && |a.todo| > 1 && a.free != [] && |a.sq| < c.depth
    ensures LogRow(a', ok) && Finish(c, a) == Finish(c, a')
    ensures |a'.todo| == |a.todo| - 1 && |a'.sq| == |a.sq| + 1 && |a'.free| == |a.free| - 1
  {
    LogOutcome(c, a);
    a' := StepOp(c, StepOp(c, a));
    LogKeepsMemory(c, a);
    assert forall i :: 0 <= i < |a'.todo| ==> a'.todo[i] == a.todo[i + 1];
    assert forall i :: 0 <= i < |a'.free| ==> a'.free[i] == a.free[i + 1];
  }

  lemma LogKeepsMemory(c: Config, a: App)
    requires a.status == Running && a.todo != [] && a.todo[0].LogPop?
    requires a.free != [] && (a.free[0] + 1) * BUFSIZE <= |a.mem| && |a.sq| < c.depth
    ensures |StepOp(c, StepOp(c, a)).mem| == |a.mem|
  {
  }

  /** A row of log calls gets as far as buffers and entries last; the pop is tried first. */
  lemma {:induction false} LogRowOutcome(c: Config, a: App, ok: bool)
    requires LogRow(a, ok) && |a.sq| <= c.depth
    ensures var r := Finish(c, a); var j, f, m := |a.todo| - 1, |a.free|, c.depth - |a.sq|;
            && (r.status == Running <==> j <= f && j <= m && ok)
            && (r.status == Aborted(PoolEmpty) <==> f < j && f <= m)
            && (r.status == Aborted(NoSqe) <==> m < j && m < f)
    decreases |a.todo|
  {
    if |a.todo| == 1 {
      assert a.todo == [Submit(ok)];
      LastSubmit(c, a, ok);
    } else if a.free != [] && |a.sq| < c.depth {
      var a' := LogRowStep(c, a, ok);
      LogRowOutcome(c, a', ok);
    } else {
      LogOutcome(c, a);
    }
  }

  /** Start-up with the kernel idle succeeds exactly when the pool has four buffers, the queue five
      entries and the submit goes through; otherwise the failing assertion is determined. */
  lemma BootOutcome(c: Config, b: Boot, mem: seq<char>, rmem: seq<char>)
    requires ValidStart(c, b, mem, rmem)
    ensures var r := Finish(c, Init(c, b, mem, rmem).a);
            && (r.status == Running <==> c.pool >= 4 && c.depth >= 5 && b.submitOk)
            && (r.status == Aborted(PoolEmpty) <==> c.pool < 4 && c.pool < c.depth)
            && (r.status == Aborted(NoSqe) <==> c.depth < 5 && c.depth <= c.pool)
  {
    var a := Init(c, b, mem, rmem).a;
    var a1 := StepOp(c, a);
    FinishUnfolds(c, a);
    if c.depth > 0 {
      assert a1.todo == BootOps(b)[1..];
      assert a1.free == Countdown(c.pool) && a1.mem == mem && |a1.sq| == 1;
      LogRowOutcome(c, a1, b.submitOk);
    }
  }

  // ---- kernel steps and the books ----

  /** The state with the free list, the handler and the history blanked out: all a kernel step sees. */
  function Shared(s: State): State {
    s.(a := s.a.(free := [], todo := [], hist := EmptyHistory()))
  }

  /** A kernel step reads and writes only what the two sides share. */
  lemma KernelSeesShared(c: Config, s: State, act: Action)
    requires KernelAct(act)
    ensures var t, t' := Apply(c, s, act), Apply(c, Shared(s), act);
            t == s.(a := s.a.(sq := t'.a.sq, submitted := t'.a.submitted, rmem := t'.a.rmem), k := t'.k)
  {
  }

  /** An iteration of the loop is a run of the system: the dispatch, then every operation. */
  lemma IterationLeadsTo(c: Config, s: State, e: Env)
    requires s.a.status == Running && s.a.todo == [] && s.k.cq != []
    ensures var t := NextDispatch(s, e); LeadsTo(c, s, t.(a := Finish(c, t.a)))
  {
    var t := NextDispatch(s, e);
    StepLeadsTo(c, s, Dispatch(e));
    var acts := FinishIsARun(c, t);
    LeadsToTransitive(c, s, t, t.(a := Finish(c, t.a)));
  }
}
