/** The order in which registered buffers come home. */
module Returns {
  import opened Bits
  import opened Model
  import opened Tagging
  import opened Ownership
  import opened Ledger

  function WriteBid(x: Cqe): seq<nat> {
    if x.origin.Write? then [x.origin.bid] else []
  }

  function WritesDone(xs: seq<Cqe>): seq<nat> {
    if xs == [] then [] else WriteBid(xs[0]) + WritesDone(xs[1..])
  }

  /** Bids come back to the free list in the order their writes completed: those put back, the one
      being put back, those whose completions wait. */
  ghost predicate ReturnsInOrder(s: State) {
    s.k.finished == s.a.hist.returned + (Gather(s.a.todo, PutBid) + WritesDone(s.k.cq))
  }

  lemma {:induction false} WritesDoneAppend(xs: seq<Cqe>, x: Cqe)
    ensures WritesDone(xs + [x]) == WritesDone(xs) + WriteBid(x)
    decreases |xs|
  {
    if xs != [] {
      assert (xs + [x])[1..] == xs[1..] + [x];
      WritesDoneAppend(xs[1..], x);
    } else {
      assert xs + [x] == [x];
    }
  }

  lemma ReturnsInit(c: Config, b: Boot, mem: seq<char>, rmem: seq<char>)
    requires ValidStart(c, b, mem, rmem)
    ensures ReturnsInOrder(Init(c, b, mem, rmem))
  {
    GatherBoot(b, PutBid);
  }

  lemma ReturnsOp(c: Config, s: State)
    requires ReturnsInOrder(s) && s.a.todo != [] && s.a.status == Running
    ensures ReturnsInOrder(s.(a := StepOp(c, s.a)))
  {
    var a, a' := s.a, StepOp(c, s.a);
    StopOrMove(c, a);
    if a'.status == Running {
      StepHistory(c, a);
      GatherStep(c, a, PutBid);
      Regroup(a.hist.returned, PutBid(a.todo[0]), Gather(a'.todo, PutBid), WritesDone(s.k.cq));
    }
  }

  lemma Regroup(done: seq<nat>, x: seq<nat>, rest: seq<nat>, waiting: seq<nat>)
    ensures done + ((x + rest) + waiting) == (done + x) + (rest + waiting)
  {
  }

  lemma HandlerPuts(a: App, x: Cqe, e: Env)
    requires HandleRequest(a, x, e).status == Running && (x.origin.Write? ==> x.origin.bid < U16)
    ensures Gather(HandleRequest(a, x, e).todo, PutBid) == WriteBid(x)
    ensures HandleRequest(a, x, e).hist.returned == a.hist.returned
  {
    if x.origin.Write? {
      var ops := [Put(x.origin.bid)] + [Submit(e.submitOk)];
      assert ops == HandleRequest(a, x, e).todo;
      GatherCons(Put(x.origin.bid), [Submit(e.submitOk)], PutBid);
      GatherOne(Submit(e.submitOk), PutBid);
    } else if x.origin.Accept? {
      GatherAccept(x.res, e, PutBid);
    } else if x.origin.Recv? {
      GatherRecv(x.origin.fd % U16, x.flags / BUFFER_SHIFT, x.res, x, e, PutBid);
    } else {
      GatherOne(Submit(e.submitOk), PutBid);
    }
  }

  lemma ReturnsHandled(s: State, a': App)
    requires ReturnsInOrder(s) && s.a.todo == [] && s.k.cq != []
    requires Gather(a'.todo, PutBid) == WriteBid(s.k.cq[0]) && a'.hist.returned == s.a.hist.returned
    ensures ReturnsInOrder(State(a', s.k.(cq := s.k.cq[1..])))
  {
    assert Gather(s.a.todo, PutBid) == [];
    assert [] + WritesDone(s.k.cq) == WritesDone(s.k.cq);
  }

  lemma ReturnsTake(s: State, e: Env)
    requires ReturnsInOrder(s) && s.a.todo == [] && s.k.cq != [] && s.a.status == Running
    requires s.k.cq[0].origin.Write? ==> s.k.cq[0].origin.bid < U16
    ensures ReturnsInOrder(Take(s, e))
  {
    var x := s.k.cq[0];
    var a' := HandleRequest(s.a, x, e);
    if a'.status == Running {
      HandlerPuts(s.a, x, e);
      ReturnsHandled(s, a');
    } else {
      StoppedKeepsTodo(s.a, x, e);
    }
  }

  lemma ReturnsDispatch(c: Config, s: State, e: Env)
    requires ValidConfig(c) && Tagged(s) && Partition(c, s) && ReturnsInOrder(s)
    requires s.a.todo == [] && s.k.cq != [] && s.a.status == Running
    ensures ReturnsInOrder(NextDispatch(s, e))
  {
    DispatchIsTake(s, e);
    if s.k.cq[0].origin.Write? {
      CqeBidIn(s.k.cq, 0);
      OwnedBidsFit(c, s, s.k.cq[0].origin.bid);
    }
    ReturnsTake(s, e);
  }

  lemma ReturnsPost(s: State, t: State, x: Cqe)
    requires ReturnsInOrder(s) && SameBooks(s.a, t.a)
    requires t.k.cq == s.k.cq + [x] && t.k.finished == s.k.finished + WriteBid(x)
    ensures ReturnsInOrder(t)
  {
    WritesDoneAppend(s.k.cq, x);
  }

  lemma ReturnsKernel(c: Config, s: State, act: Action)
    requires ReturnsInOrder(s) && Enabled(c, s, act) && !act.Dispatch? && !act.RunOp?
    ensures ReturnsInOrder(Next(c, s, act))
  {
    var t := Next(c, s, act);
    match act
    case WaitFails =>
    case Consume =>
    case CompleteAccept(i, res, more) => ReturnsPost(s, t, t.k.cq[|s.k.cq|]);
    case CompleteRecv(i, payload, more) => ReturnsPost(s, t, t.k.cq[|s.k.cq|]);
    case FailRecv(i, res) => ReturnsPost(s, t, t.k.cq[|s.k.cq|]);
    case CompleteWrite(i, n) => ReturnsPost(s, t, t.k.cq[|s.k.cq|]);
    case CompleteSend(i, res, more) => ReturnsPost(s, t, t.k.cq[|s.k.cq|]);
  }

  lemma ReturnsStep(c: Config, s: State, act: Action)
    requires ValidConfig(c) && Tagged(s) && Partition(c, s) && ReturnsInOrder(s)
    ensures ReturnsInOrder(Apply(c, s, act))
  {
    if Enabled(c, s, act) {
      match act
      case Dispatch(e) => ReturnsDispatch(c, s, e);
      case RunOp => ReturnsOp(c, s);
      case _ => ReturnsKernel(c, s, act);
    }
  }
}
