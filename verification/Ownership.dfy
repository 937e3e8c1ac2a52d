/** Each registered buffer is in exactly one place: the free list, a log call in progress, a queued
    write, a write in the kernel, an unhandled completion, or a put in progress. */
module Ownership {
  import opened Bits
  import opened Seqs
  import opened LogLine
  import opened Model
  import opened Tagging

  function OpBid(op: Op): multiset<nat> {
    match op
    case LogQueue(bid, _, _) => multiset{bid}
    case Put(bid) => multiset{bid}
    case _ => multiset{}
  }

  function ReqBid(r: Request): multiset<nat> {
    if r.Write? then multiset{r.bid} else multiset{}
  }

  function TodoBids(ops: seq<Op>): multiset<nat> {
    if ops == [] then multiset{} else OpBid(ops[0]) + TodoBids(ops[1..])
  }

  function SqeBids(qs: seq<Sqe>): multiset<nat> {
    if qs == [] then multiset{} else ReqBid(qs[0].req) + SqeBids(qs[1..])
  }

  function CqeBids(xs: seq<Cqe>): multiset<nat> {
    if xs == [] then multiset{} else ReqBid(xs[0].origin) + CqeBids(xs[1..])
  }

  /** The bids that are somewhere other than the free list. */
  function Outstanding(s: State): multiset<nat> {
    TodoBids(s.a.todo) + SqeBids(s.a.sq) + SqeBids(s.k.active) + CqeBids(s.k.cq)
  }

  ghost predicate Partition(c: Config, s: State) {
    multiset(s.a.free) + Outstanding(s) == multiset(Range(c.pool))
  }

  // ---- how the places add up ----

  lemma {:induction false} SqeBidsAppend(qs: seq<Sqe>, q: Sqe)
    ensures SqeBids(qs + [q]) == SqeBids(qs) + ReqBid(q.req)
    decreases |qs|
  {
    if qs != [] {
      assert (qs + [q])[1..] == qs[1..] + [q];
      SqeBidsAppend(qs[1..], q);
    } else {
      assert qs + [q] == [q];
    }
  }

  lemma {:induction false} CqeBidsAppend(xs: seq<Cqe>, x: Cqe)
    ensures CqeBids(xs + [x]) == CqeBids(xs) + ReqBid(x.origin)
    decreases |xs|
  {
    if xs != [] {
      assert (xs + [x])[1..] == xs[1..] + [x];
      CqeBidsAppend(xs[1..], x);
    } else {
      assert xs + [x] == [x];
    }
  }

  lemma {:induction false} SqeBidsRemove(qs: seq<Sqe>, i: nat)
    requires i < |qs|
    ensures SqeBids(qs) == SqeBids(RemoveAt(qs, i)) + ReqBid(qs[i].req)
    decreases |qs|
  {
    if i > 0 {
      assert RemoveAt(qs, i)[0] == qs[0] && RemoveAt(qs, i)[1..] == RemoveAt(qs[1..], i - 1);
      SqeBidsRemove(qs[1..], i - 1);
    } else {
      assert RemoveAt(qs, 0) == qs[1..];
    }
  }

  lemma {:induction false} SqeBidsUpdate(qs: seq<Sqe>, i: nat, q: Sqe)
    requires i < |qs| && ReqBid(q.req) == ReqBid(qs[i].req)
    ensures SqeBids(qs[i := q]) == SqeBids(qs)
    decreases |qs|
  {
    if i > 0 {
      assert qs[i := q][1..] == qs[1..][i - 1 := q];
      SqeBidsUpdate(qs[1..], i - 1, q);
    } else {
      assert qs[0 := q][1..] == qs[1..];
    }
  }

  lemma {:induction false} SqeBidIn(qs: seq<Sqe>, i: nat)
    requires i < |qs| && qs[i].req.Write?
    ensures qs[i].req.bid in SqeBids(qs)
  {
    SqeBidsRemove(qs, i);
  }

  lemma {:induction false} CqeBidIn(xs: seq<Cqe>, i: nat)
    requires i < |xs| && xs[i].origin.Write?
    ensures xs[i].origin.bid in CqeBids(xs)
    decreases |xs|
  {
    if i > 0 { CqeBidIn(xs[1..], i - 1); }
  }

  lemma {:induction false} NoBids(ops: seq<Op>)
    requires forall i :: 0 <= i < |ops| ==> OpBid(ops[i]) == multiset{}
    ensures TodoBids(ops) == multiset{}
    decreases |ops|
  {
    if ops != [] { NoBids(ops[1..]); }
  }

  // ---- preservation ----

  lemma PartitionInit(c: Config, b: Boot, mem: seq<char>, rmem: seq<char>)
    requires ValidStart(c, b, mem, rmem)
    ensures Partition(c, Init(c, b, mem, rmem))
  {
    NoBids(BootOps(b));
    CountdownHoldsRange(c.pool);
  }

  ghost predicate SameOwners(s: State, t: State) {
    multiset(t.a.free) + Outstanding(t) == multiset(s.a.free) + Outstanding(s)
  }

  /** A step that moves no bid: the current operation owns none and is dropped, or stays. */
  lemma OwnersSkip(s: State, a': App)
    requires a'.free == s.a.free && a'.sq == s.a.sq
    requires a'.todo == s.a.todo || (s.a.todo != [] && a'.todo == s.a.todo[1..] && OpBid(s.a.todo[0]) == multiset{})
    ensures SameOwners(s, s.(a := a'))
  {
  }

  lemma OwnersEnqueue(s: State, a': App, q: Sqe)
    requires s.a.todo != [] && OpBid(s.a.todo[0]) == ReqBid(q.req)
    requires a'.free == s.a.free && a'.sq == s.a.sq + [q] && a'.todo == s.a.todo[1..]
    ensures SameOwners(s, s.(a := a'))
  {
    SqeBidsAppend(s.a.sq, q);
  }

  lemma OwnersContinue(s: State, a': App, op: Op)
    requires s.a.todo != [] && OpBid(s.a.todo[0]) == multiset{} && a'.todo == [op] + s.a.todo[1..]
    requires a'.sq == s.a.sq && multiset(a'.free) + OpBid(op) == multiset(s.a.free)
    ensures SameOwners(s, s.(a := a'))
  {
    assert a'.todo[1..] == s.a.todo[1..];
  }

  lemma OwnersLogPop(s: State, level: Level, stamp: string, text: string, pad: nat)
    requires s.a.todo != [] && s.a.todo[0] == LogPop(level, stamp, text, pad)
    ensures SameOwners(s, s.(a := DoLogPop(s.a, level, stamp, text, pad)))
  {
    var a, a' := s.a, DoLogPop(s.a, level, stamp, text, pad);
    if a.free == [] || (a.free[0] + 1) * BUFSIZE > |a.mem| {
      OwnersSkip(s, a');
    } else {
      assert a.free == [a.free[0]] + a.free[1..];
      OwnersContinue(s, a', a'.todo[0]);
    }
  }

  lemma OwnersLogQueue(c: Config, s: State, bid: nat, line: string, pad: nat)
    requires s.a.todo != [] && s.a.todo[0] == LogQueue(bid, line, pad)
    ensures SameOwners(s, s.(a := DoLogQueue(c, s.a, bid, line, pad)))
  {
    var a' := DoLogQueue(c, s.a, bid, line, pad);
    if |s.a.sq| >= c.depth || (bid + 1) * BUFSIZE > |s.a.mem| {
      OwnersSkip(s, a');
    } else {
      OwnersEnqueue(s, a', a'.sq[|s.a.sq|]);
    }
  }

  lemma OwnersRequest(c: Config, s: State)
    requires s.a.todo != []
    requires s.a.todo[0].QueueAccept? || s.a.todo[0].QueueRecv? || s.a.todo[0].QueueSend?
    ensures SameOwners(s, s.(a := StepOp(c, s.a)))
  {
    var a' := StepOp(c, s.a);
    if |s.a.sq| >= c.depth {
      OwnersSkip(s, a');
    } else {
      OwnersEnqueue(s, a', a'.sq[|s.a.sq|]);
    }
  }

  lemma OwnersReturn(s: State, a': App, bid: nat)
    requires s.a.todo != [] && s.a.todo[0] == Put(bid)
    requires a'.free == [bid] + s.a.free && a'.sq == s.a.sq && a'.todo == s.a.todo[1..]
    ensures SameOwners(s, s.(a := a'))
  {
    assert TodoBids(s.a.todo) == multiset{bid} + TodoBids(a'.todo);
    assert multiset(a'.free) == multiset{bid} + multiset(s.a.free);
  }

  lemma OwnersPut(c: Config, s: State, bid: nat)
    requires s.a.todo != [] && s.a.todo[0] == Put(bid)
    ensures SameOwners(s, s.(a := DoPut(c, s.a, bid)))
  {
    if bid >= c.pool || bid in s.a.free {
      OwnersSkip(s, DoPut(c, s.a, bid));
    } else {
      OwnersReturn(s, DoPut(c, s.a, bid), bid);
    }
  }

  lemma OwnersRingAdd(c: Config, s: State, bid: nat)
    requires s.a.todo != [] && s.a.todo[0] == RingAdd(bid)
    ensures SameOwners(s, s.(a := DoRingAdd(c, s.a, bid)))
  {
    if bid >= |s.a.ring.slots| {
      OwnersSkip(s, DoRingAdd(c, s.a, bid));
    } else {
      OwnersContinue(s, DoRingAdd(c, s.a, bid), RingAdvance(bid));
    }
  }

  lemma OwnersPlainOp(c: Config, s: State)
    requires s.a.todo != []
    requires s.a.todo[0].ReadPacket? || s.a.todo[0].RingAdvance? || s.a.todo[0].Submit?
    ensures SameOwners(s, s.(a := StepOp(c, s.a)))
  {
    OwnersSkip(s, StepOp(c, s.a));
  }

  lemma OwnersStepOp(c: Config, s: State)
    requires s.a.todo != []
    ensures SameOwners(s, s.(a := StepOp(c, s.a)))
  {
    var op := s.a.todo[0];
    if op.LogPop? {
      OwnersLogPop(s, op.level, op.stamp, op.text, op.pad);
    } else if op.LogQueue? {
      OwnersLogQueue(c, s, op.bid, op.line, op.pad);
    } else if op.Put? {
      OwnersPut(c, s, op.bid);
    } else if op.RingAdd? {
      OwnersRingAdd(c, s, op.bid);
    } else if op.ReadPacket? || op.RingAdvance? || op.Submit? {
      OwnersPlainOp(c, s);
    } else {
      OwnersRequest(c, s);
    }
  }

  lemma PutBids(bid: nat, ok: bool)
    ensures TodoBids([Put(bid), Submit(ok)]) == multiset{bid}
  {
    assert [Put(bid), Submit(ok)][1..] == [Submit(ok)];
    NoBids([Submit(ok)]);
  }

  lemma AcceptBids(clientfd: nat, e: Env)
    ensures TodoBids(AcceptOps(clientfd, e)) == multiset{}
  {
    NoBids(AcceptOps(clientfd, e));
  }

  lemma RecvBids(fd: nat, bid: nat, len: nat, x: Cqe, e: Env)
    ensures TodoBids(RecvOps(fd, bid, len, x, e)) == multiset{}
  {
    NoBids(RecvOps(fd, bid, len, x, e));
  }

  /** What the new handler owns is what the completion carried. */
  lemma HandlerBids(a: App, x: Cqe, e: Env)
    requires HandleRequest(a, x, e).status == Running
    requires x.origin.Write? ==> x.origin.bid < U16
    ensures TodoBids(HandleRequest(a, x, e).todo) == ReqBid(x.origin)
  {
    if x.origin.Write? {
      PutBids(x.origin.bid, e.submitOk);
    } else if x.origin.Accept? {
      AcceptBids(x.res, e);
    } else if x.origin.Recv? {
      RecvBids(x.origin.fd % U16, x.flags / BUFFER_SHIFT, x.res, x, e);
    } else {
      NoBids([Submit(e.submitOk)]);
    }
  }

  lemma OwnedBidsFit(c: Config, s: State, bid: nat)
    requires ValidConfig(c) && Partition(c, s) && bid in Outstanding(s)
    ensures bid < c.pool <= U16
  {
    assert (multiset(s.a.free) + Outstanding(s))[bid] > 0;
    RangeHolds(c.pool, bid);
  }

  lemma OwnersDispatch(c: Config, s: State, e: Env)
    requires ValidConfig(c) && Tagged(s) && Partition(c, s) && s.a.todo == [] && s.k.cq != [] && s.a.status == Running
    ensures SameOwners(s, NextDispatch(s, e))
  {
    DispatchIsTake(s, e);
    HandleFrame(s.a, s.k.cq[0], e);
    if HandleRequest(s.a, s.k.cq[0], e).status == Running {
      OwnersHandled(c, s, s.k.cq[0], e);
    } else {
      StoppedKeepsTodo(s.a, s.k.cq[0], e);
    }
  }

  lemma OwnersHandled(c: Config, s: State, x: Cqe, e: Env)
    requires ValidConfig(c) && Partition(c, s) && s.a.todo == [] && s.k.cq != [] && x == s.k.cq[0]
    requires s.a.status == Running && HandleRequest(s.a, x, e).status == Running
    ensures SameOwners(s, State(HandleRequest(s.a, x, e), s.k.(cq := s.k.cq[1..])))
  {
    if x.origin.Write? {
      CqeBidIn(s.k.cq, 0);
      OwnedBidsFit(c, s, x.origin.bid);
    }
    HandlerBids(s.a, x, e);
    HandleFrame(s.a, x, e);
    OwnersTake(s, HandleRequest(s.a, x, e));
  }

  lemma OwnersTake(s: State, a': App)
    requires s.a.todo == [] && s.k.cq != [] && a'.free == s.a.free && a'.sq == s.a.sq
    requires TodoBids(a'.todo) == ReqBid(s.k.cq[0].origin)
    ensures SameOwners(s, State(a', s.k.(cq := s.k.cq[1..])))
  {
    assert TodoBids(s.a.todo) == multiset{};
  }

  lemma OwnersPost(s: State, t: State, i: nat, stays: bool, x: Cqe)
    requires i < |s.k.active| && ReqBid(x.origin) == ReqBid(s.k.active[i].req)
    requires stays ==> ReqBid(x.origin) == multiset{}
    requires t.a.free == s.a.free && t.a.todo == s.a.todo && t.a.sq == s.a.sq
    requires SqeBids(t.k.active) == SqeBids(Post(s.k, i, stays, x).active) && t.k.cq == s.k.cq + [x]
    ensures SameOwners(s, t)
  {
    CqeBidsAppend(s.k.cq, x);
    SqeBidsRemove(s.k.active, i);
  }

  lemma OwnersSend(s: State, i: nat, res: int, more: bool)
    requires i < |s.k.active| && s.k.active[i].req.Send?
    ensures SameOwners(s, NextSend(s, i, res, more))
  {
    var q, t := s.k.active[i], NextSend(s, i, res, more);
    SqeBidsUpdate(s.k.active, i, q.(req := q.req.(left := 1)));
    OwnersPost(s, t, i, more && q.req.left == 2, t.k.cq[|s.k.cq|]);
  }

  lemma OwnersConsume(s: State)
    requires s.a.submitted > 0 && s.a.sq != []
    ensures SameOwners(s, NextConsume(s))
  {
    SqeBidsAppend(s.k.active, s.a.sq[0]);
  }

  lemma OwnersKernel(c: Config, s: State, act: Action)
    requires Enabled(c, s, act) && !act.Dispatch? && !act.WaitFails? && !act.RunOp?
    ensures SameOwners(s, Next(c, s, act))
  {
    var t := Next(c, s, act);
    match act
    case Consume => OwnersConsume(s);
    case CompleteAccept(i, res, more) => OwnersPost(s, t, i, more, t.k.cq[|s.k.cq|]);
    case CompleteRecv(i, payload, more) => OwnersPost(s, t, i, more, t.k.cq[|s.k.cq|]);
    case FailRecv(i, res) => OwnersPost(s, t, i, false, t.k.cq[|s.k.cq|]);
    case CompleteWrite(i, n) => OwnersPost(s, t, i, false, t.k.cq[|s.k.cq|]);
    case CompleteSend(i, res, more) => OwnersSend(s, i, res, more);
  }

  lemma PartitionStep(c: Config, s: State, act: Action)
    requires ValidConfig(c) && Tagged(s) && Partition(c, s)
    ensures Partition(c, Apply(c, s, act))
  {
    if Enabled(c, s, act) {
      match act
      case Dispatch(e) => OwnersDispatch(c, s, e);
      case WaitFails =>
      case RunOp => OwnersStepOp(c, s);
      case _ => OwnersKernel(c, s, act);
    }
  }

  // ---- what the partition means for one bid ----

  /** Every bid of the pool is free or outstanding, never both and never twice; no other bid is. */
  lemma OneOwner(c: Config, s: State, bid: nat)
    requires Partition(c, s)
    ensures multiset(s.a.free)[bid] + Outstanding(s)[bid] == if bid < c.pool then 1 else 0
    ensures bid in s.a.free ==> bid !in Outstanding(s)
    ensures bid < c.pool && bid !in s.a.free ==> Outstanding(s)[bid] == 1
  {
    RangeHolds(c.pool, bid);
    assert multiset(s.a.free)[bid] + Outstanding(s)[bid] == (multiset(s.a.free) + Outstanding(s))[bid];
    assert bid in s.a.free <==> multiset(s.a.free)[bid] > 0;
  }

  lemma FreeIsDistinct(c: Config, s: State)
    requires Partition(c, s)
    ensures Distinct(s.a.free)
  {
    forall i, j | 0 <= i < j < |s.a.free|
      ensures s.a.free[i] != s.a.free[j]
    {
      OneOwner(c, s, s.a.free[i]);
      if s.a.free[i] == s.a.free[j] {
        TwiceInMultiset(s.a.free, i, j);
      }
    }
  }

  /** The free list is empty exactly when every buffer of the pool is outstanding. */
  lemma EmptyIffAllOutstanding(c: Config, s: State)
    requires Partition(c, s)
    ensures s.a.free == [] <==> Outstanding(s) == multiset(Range(c.pool))
    ensures |s.a.free| + |Outstanding(s)| == c.pool
  {
    assert |multiset(s.a.free) + Outstanding(s)| == |multiset(Range(c.pool))| == c.pool;
    if Outstanding(s) == multiset(Range(c.pool)) {
      assert |s.a.free| == 0;
    }
  }

  /** `put` is only ever called with a bid of the pool that is not free. */
  lemma PutIsLegal(c: Config, s: State, bid: nat)
    requires Partition(c, s) && s.a.todo != [] && s.a.todo[0] == Put(bid)
    ensures bid < c.pool && bid !in s.a.free
  {
    assert bid in TodoBids(s.a.todo) && bid in Outstanding(s);
    OneOwner(c, s, bid);
  }
}
