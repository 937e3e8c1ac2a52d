/** With no further connections or messages the system winds down, within a bound, to a full pool. */
module Quiescence {
  import opened Seqs
  import opened Model
  import opened StateShape
  import opened Tagging
  import opened Ownership
  import opened Runs

  /** Not a new connection, not a message, not a failing wait. */
  predicate Quiet(act: Action) {
    !act.CompleteAccept? && !act.CompleteRecv? && !act.FailRecv? && !act.WaitFails?
  }

  /** Nothing but write and send completions is being handled or waits to be. */
  ghost predicate QuietState(s: State) {
    && (forall x :: x in s.k.cq ==> x.origin.Write? || x.origin.Send?)
    && (forall op :: op in s.a.todo ==> op.Put? || op.Submit?)
  }

  // ---- two measures ----

  function ReqWork(r: Request): nat {
    match r
    case Write(_, _, _, _) => 4
    case Send(_, left) => if left == 2 then 6 else 3
    case _ => 0
  }

  function QueuedWork(q: Sqe): nat { 1 + ReqWork(q.req) }

  function ActiveWork(q: Sqe): nat { ReqWork(q.req) }

  function WaitingWork(x: Cqe): nat { if x.origin.Write? then 3 else 2 }

  /** A bound on the steps still possible. */
  function Work(s: State): nat {
    Sum(s.a.sq, QueuedWork) + Sum(s.k.active, ActiveWork) + Sum(s.k.cq, WaitingWork) + |s.a.todo|
    + if s.a.status == Running then 1 else 0
  }

  function Completions(q: Sqe): nat {
    match q.req
    case Write(_, _, _, _) => 1
    case Send(_, left) => left
    case _ => 0
  }

  /** Completions that may still be handled: one a write, two a send, those waiting. */
  function Expected(s: State): nat {
    Sum(s.a.sq, Completions) + Sum(s.k.active, Completions) + |s.k.cq|
  }

  // ---- one quiet step ----

  ghost predicate Winds(s: State, t: State) {
    && QuietState(t)
    && Work(t) < Work(s)
    && t.a.hist.handled + Expected(t) <= s.a.hist.handled + Expected(s)
    && t.a.hist.logs == s.a.hist.logs
  }

  lemma QuietOp(c: Config, s: State)
    requires QuietState(s) && s.a.todo != [] && s.a.status == Running
    ensures Winds(s, s.(a := StepOp(c, s.a)))
  {
    var op := s.a.todo[0];
    assert op.Put? || op.Submit?;
    assert forall o :: o in s.a.todo[1..] ==> o in s.a.todo;
  }

  lemma QuietDispatch(c: Config, s: State, e: Env)
    requires Tagged(s) && QuietState(s) && s.a.todo == [] && s.k.cq != [] && s.a.status == Running
    ensures Winds(s, NextDispatch(s, e))
  {
    DispatchIsTake(s, e);
    var x := s.k.cq[0];
    assert x.origin.Write? || x.origin.Send?;
    assert forall y :: y in s.k.cq[1..] ==> y in s.k.cq;
  }

  lemma QuietConsume(s: State)
    requires QuietState(s) && s.a.submitted > 0 && s.a.sq != []
    ensures Winds(s, NextConsume(s))
  {
    SumAppend(s.k.active, s.a.sq[0], ActiveWork);
    SumAppend(s.k.active, s.a.sq[0], Completions);
  }

  lemma QuietWrite(s: State, i: nat, n: nat)
    requires QuietState(s) && i < |s.k.active| && s.k.active[i].req.Write?
    ensures Winds(s, NextWrite(s, i, n))
  {
    var x := NextWrite(s, i, n).k.cq[|s.k.cq|];
    SumRemove(s.k.active, i, ActiveWork);
    SumRemove(s.k.active, i, Completions);
    SumAppend(s.k.cq, x, WaitingWork);
  }

  lemma QuietSend(s: State, i: nat, res: int, more: bool)
    requires QuietState(s) && i < |s.k.active| && s.k.active[i].req.Send? && s.k.active[i].req.left >= 1
    ensures Winds(s, NextSend(s, i, res, more))
  {
    var q := s.k.active[i];
    var x := NextSend(s, i, res, more).k.cq[|s.k.cq|];
    SumAppend(s.k.cq, x, WaitingWork);
    if more && q.req.left == 2 {
      SumUpdate(s.k.active, i, q.(req := q.req.(left := 1)), ActiveWork);
      SumUpdate(s.k.active, i, q.(req := q.req.(left := 1)), Completions);
    } else {
      SumRemove(s.k.active, i, ActiveWork);
      SumRemove(s.k.active, i, Completions);
    }
  }

  /** A send completes once or twice. */
  ghost predicate SendsCounted(s: State) {
    && (forall q :: q in s.a.sq && q.req.Send? ==> 1 <= q.req.left <= 2)
    && (forall q :: q in s.k.active && q.req.Send? ==> 1 <= q.req.left <= 2)
  }

  lemma SendsOp(c: Config, s: State)
    requires SendsCounted(s) && s.a.todo != []
    ensures SendsCounted(s.(a := StepOp(c, s.a)))
  {
  }

  lemma SendsStep(c: Config, s: State, act: Action)
    requires Tagged(s) && SendsCounted(s)
    ensures SendsCounted(Apply(c, s, act))
  {
    if Enabled(c, s, act) {
      match act
      case Dispatch(e) =>
        DispatchIsTake(s, e);
        HandleFrame(s.a, s.k.cq[0], e);
      case RunOp => SendsOp(c, s);
      case _ => SendsKernel(c, s, act);
    }
  }

  lemma SendsKernel(c: Config, s: State, act: Action)
    requires SendsCounted(s) && Enabled(c, s, act) && !act.Dispatch? && !act.RunOp?
    ensures SendsCounted(Next(c, s, act))
  {
    match act
    case WaitFails =>
    case Consume =>
    case CompleteAccept(i, res, more) =>
    case CompleteRecv(i, payload, more) =>
    case FailRecv(i, res) =>
    case CompleteWrite(i, n) =>
    case CompleteSend(i, res, more) =>
  }

  lemma {:induction false} SendsExec(c: Config, s: State, acts: seq<Action>)
    requires Inv(c, s) && SendsCounted(s)
    ensures SendsCounted(Exec(c, s, acts))
    decreases |acts|
  {
    if acts != [] {
      InvStep(c, s, acts[0]);
      SendsStep(c, s, acts[0]);
      SendsExec(c, Apply(c, s, acts[0]), acts[1..]);
    }
  }

  /** Every quiet step that can happen makes progress. */
  lemma QuietStep(c: Config, s: State, act: Action)
    requires Tagged(s) && SendsCounted(s) && QuietState(s) && Quiet(act) && Enabled(c, s, act)
    ensures Winds(s, Next(c, s, act))
  {
    match act
    case Dispatch(e) => QuietDispatch(c, s, e);
    case RunOp => QuietOp(c, s);
    case Consume => QuietConsume(s);
    case CompleteWrite(i, n) => QuietWrite(s, i, n);
    case CompleteSend(i, res, more) =>
      assert s.k.active[i] in s.k.active;
      QuietSend(s, i, res, more);
  }

  // ---- quiet runs ----

  /** How many actions of the run really happen. */
  function Effective(c: Config, s: State, acts: seq<Action>): nat
    decreases |acts|
  {
    if acts == [] then 0
    else (if Enabled(c, s, acts[0]) then 1 else 0) + Effective(c, Apply(c, s, acts[0]), acts[1..])
  }

  ghost predicate Winding(c: Config, s: State) {
    Reachable(c, s) && QuietState(s)
  }

  lemma ReachableSends(c: Config, s: State)
    requires Reachable(c, s)
    ensures SendsCounted(s)
  {
    var b: Boot, mem: seq<char>, rmem: seq<char>, acts: seq<Action> :|
      ValidStart(c, b, mem, rmem) && s == After(c, b, mem, rmem, acts);
    InvInit(c, b, mem, rmem);
    SendsExec(c, Init(c, b, mem, rmem), acts);
  }

  lemma QuietProgress(c: Config, s: State, act: Action)
    requires Winding(c, s) && Quiet(act) && Enabled(c, s, act)
    ensures Winding(c, Apply(c, s, act)) && Winds(s, Apply(c, s, act))
  {
    ReachableInv(c, s);
    ReachableSends(c, s);
    QuietStep(c, s, act);
    ReachableStep(c, s, act);
  }

  lemma ExecCons(c: Config, s: State, act: Action, rest: seq<Action>)
    ensures Exec(c, s, [act] + rest) == Exec(c, Apply(c, s, act), rest)
  {
    assert ([act] + rest)[1..] == rest;
  }

  /** A quiet run takes at most `Work` steps, handles at most `Expected` completions and logs nothing:
      logging does not feed itself. */
  lemma {:induction false} QuietRunIsBounded(c: Config, s: State, acts: seq<Action>)
    requires Winding(c, s)
    requires forall i :: 0 <= i < |acts| ==> Quiet(acts[i])
    ensures var t := Exec(c, s, acts);
            && Effective(c, s, acts) + Work(t) <= Work(s)
            && t.a.hist.handled - s.a.hist.handled <= Expected(s) - Expected(t)
            && t.a.hist.logs == s.a.hist.logs
            && QuietState(t)
    decreases |acts|
  {
    if acts != [] {
      assert forall i :: 0 <= i < |acts[1..]| ==> acts[1..][i] == acts[i + 1];
      if Enabled(c, s, acts[0]) {
        QuietProgress(c, s, acts[0]);
      }
      QuietRunIsBounded(c, Apply(c, s, acts[0]), acts[1..]);
    }
  }

  function IsWrite(q: Sqe): nat { if q.req.Write? then 1 else 0 }

  function IsSend(q: Sqe): nat { if q.req.Send? then 1 else 0 }

  lemma {:induction false} CompletionsBound(qs: seq<Sqe>)
    requires forall q :: q in qs && q.req.Send? ==> 1 <= q.req.left <= 2
    ensures Sum(qs, Completions) <= Sum(qs, IsWrite) + 2 * Sum(qs, IsSend)
    decreases |qs|
  {
    if qs != [] {
      assert qs[0] in qs;
      assert forall q :: q in qs[1..] ==> q in qs;
      CompletionsBound(qs[1..]);
    }
  }

  /** From any reachable quiet state at most (writes + 2 * sends queued or in the kernel + completions
      waiting) completions are handled before the system is still. */
  lemma HandledBound(c: Config, s: State, acts: seq<Action>)
    requires Winding(c, s) && forall i :: 0 <= i < |acts| ==> Quiet(acts[i])
    ensures var writes := Sum(s.a.sq, IsWrite) + Sum(s.k.active, IsWrite);
            var sends := Sum(s.a.sq, IsSend) + Sum(s.k.active, IsSend);
            Exec(c, s, acts).a.hist.handled - s.a.hist.handled <= writes + 2 * sends + |s.k.cq|
  {
    ReachableSends(c, s);
    QuietRunIsBounded(c, s, acts);
    CompletionsBound(s.a.sq);
    CompletionsBound(s.k.active);
  }

  /** No quiet step is possible any more. */
  ghost predicate Still(c: Config, s: State) {
    forall act :: Quiet(act) ==> !Enabled(c, s, act)
  }

  lemma {:induction false} NoWritesNoBids(qs: seq<Sqe>)
    requires forall i :: 0 <= i < |qs| ==> !qs[i].req.Write?
    ensures SqeBids(qs) == multiset{}
    decreases |qs|
  {
    if qs != [] { NoWritesNoBids(qs[1..]); }
  }

  lemma StillIsIdle(c: Config, s: State)
    requires SubmitsLast(s.a) && s.a.status == Running && Still(c, s)
    ensures s.a.todo == [] && s.a.sq == [] && s.k.cq == []
  {
    var e := Env(true, true, "", "", 0, 0);
    assert Quiet(RunOp) && Quiet(Dispatch(e)) && Quiet(Consume);
    assert !Enabled(c, s, RunOp);
    assert !Enabled(c, s, Dispatch(e));
    assert !Enabled(c, s, Consume);
  }

  lemma StillActive(c: Config, s: State, i: nat)
    requires s.a.status == Running && Still(c, s) && i < |s.k.active|
    ensures s.k.active[i].req.Accept? || s.k.active[i].req.Recv?
  {
    assert Quiet(CompleteWrite(i, 0)) && Quiet(CompleteSend(i, 0, false));
    assert !Enabled(c, s, CompleteWrite(i, 0));
    assert !Enabled(c, s, CompleteSend(i, 0, false));
  }

  /** A running system in which no quiet step is possible waits with a full pool, nothing queued,
      and only accepts and receives armed. */
  lemma StillMeansFullPool(c: Config, s: State)
    requires SubmitsLast(s.a) && Partition(c, s) && s.a.status == Running && Still(c, s)
    ensures s.a.todo == [] && s.a.sq == [] && s.k.cq == []
    ensures forall i :: 0 <= i < |s.k.active| ==> s.k.active[i].req.Accept? || s.k.active[i].req.Recv?
    ensures multiset(s.a.free) == multiset(Range(c.pool)) && |s.a.free| == c.pool
  {
    StillIsIdle(c, s);
    forall i | 0 <= i < |s.k.active|
      ensures s.k.active[i].req.Accept? || s.k.active[i].req.Recv?
    {
      StillActive(c, s, i);
    }
    NoWritesNoBids(s.k.active);
    EmptyIffAllOutstanding(c, s);
    assert Outstanding(s) == multiset{};
  }

  lemma NotStill(c: Config, s: State) returns (act: Action)
    requires !Still(c, s)
    ensures Quiet(act) && Enabled(c, s, act)
  {
    act :| Quiet(act) && Enabled(c, s, act);
  }

  /** From any quiet state some finite run of quiet steps ends in stillness. */
  lemma {:induction false} StillnessIsReached(c: Config, s: State) returns (acts: seq<Action>)
    requires Winding(c, s)
    ensures forall i :: 0 <= i < |acts| ==> Quiet(acts[i])
    ensures Still(c, Exec(c, s, acts))
    decreases Work(s)
  {
    if Still(c, s) {
      acts := [];
    } else {
      var act := NotStill(c, s);
      QuietProgress(c, s, act);
      var rest := StillnessIsReached(c, Apply(c, s, act));
      acts := [act] + rest;
      ExecCons(c, s, act, rest);
    }
  }

  /** From any reachable quiet state, every continuation by quiet steps is shorter than `Work`, logs
      nothing, and wherever it can go no further with the program running the pool is full again. */
  lemma WindsDownToFullPool(c: Config, s: State, acts: seq<Action>)
    requires Winding(c, s) && forall i :: 0 <= i < |acts| ==> Quiet(acts[i])
    ensures var t := Exec(c, s, acts);
            && Effective(c, s, acts) <= Work(s)
            && t.a.hist.logs == s.a.hist.logs
            && (t.a.status == Running && Still(c, t) ==> |t.a.free| == c.pool && t.k.cq == [])
  {
    QuietRunIsBounded(c, s, acts);
    ReachableExec(c, s, acts);
    var t := Exec(c, s, acts);
    ReachableInv(c, t);
    if t.a.status == Running && Still(c, t) {
      StillMeansFullPool(c, t);
    }
  }
}
