/** The messages, with whom they are from: the kernel's posts, the reads and the recycles, in order. */
module Arrivals {
  import opened Bits
  import opened Model
  import opened StateShape
  import opened Tagging
  import opened RingQueue
  import opened Messages
  import opened Ledger

  datatype Message = Message(peer: nat, content: seq<char>)

  /** The messages read, as they were delivered. */
  function Arrived(ps: seq<Packet>): (r: seq<Message>)
    ensures |r| == |ps| && forall i :: 0 <= i < |ps| ==> r[i] == Message(ps[i].peer, ps[i].delivered)
  {
    seq(|ps|, i requires 0 <= i < |ps| => Message(ps[i].peer, ps[i].delivered))
  }

  function Reading(op: Op): seq<Message> {
    if op.ReadPacket? then [Message(if op.origin.Recv? then op.origin.fd else 0, op.payload)] else []
  }

  function CqeMessage(x: Cqe): seq<Message> {
    if Carries(x) then [Message(x.origin.fd, x.payload)] else []
  }

  /** The messages a row of completions carries, oldest first. */
  function MessagesIn(xs: seq<Cqe>): seq<Message> {
    if xs == [] then [] else CqeMessage(xs[0]) + MessagesIn(xs[1..])
  }

  function Senders(ms: seq<Message>): (r: seq<nat>)
    ensures |r| == |ms| && forall i :: 0 <= i < |ms| ==> r[i] == ms[i].peer
  {
    seq(|ms|, i requires 0 <= i < |ms| => ms[i].peer)
  }

  /** What the kernel posted is what was read, is being read, or waits: in that order. */
  ghost predicate ReadInOrder(s: State) {
    MessagesIn(s.k.posted) == Arrived(s.a.hist.received) + (Gather(s.a.todo, Reading) + MessagesIn(s.k.cq))
  }

  /** Every message read gives its buffer back. */
  ghost predicate RecyclesRead(a: App) {
    |a.hist.received| + |Gather(a.todo, ReadFd)| == |a.hist.recycled| + |HeldByOps(a.todo)|
  }

  ghost predicate Accounted(s: State) {
    ReadInOrder(s) && RecyclesRead(s.a)
  }

  lemma {:induction false} MessagesInAppend(xs: seq<Cqe>, x: Cqe)
    ensures MessagesIn(xs + [x]) == MessagesIn(xs) + CqeMessage(x)
    decreases |xs|
  {
    if xs != [] {
      assert (xs + [x])[1..] == xs[1..] + [x];
      MessagesInAppend(xs[1..], x);
    } else {
      assert xs + [x] == [x];
    }
  }

  lemma AccountedInit(c: Config, b: Boot, mem: seq<char>, rmem: seq<char>)
    requires ValidStart(c, b, mem, rmem)
    ensures Accounted(Init(c, b, mem, rmem))
  {
    GatherBoot(b, Reading);
    GatherBoot(b, ReadFd);
    BootHolds(b);
  }

  // ---- operations ----

  /** The one entry each of these operations adds to the books. */
  lemma ReadHistory(c: Config, a: App)
    requires a.todo != [] && a.status == Running && StepOp(c, a).status == Running
    ensures var op := a.todo[0]; var h, h' := a.hist, StepOp(c, a).hist;
            && Arrived(h'.received) == Arrived(h.received) + Reading(op)
            && |h'.received| == |h.received| + |ReadFd(op)|
            && |h'.recycled| == |h.recycled| + (if op.RingAdvance? then 1 else 0)
  {
  }

  lemma HeldByOpsStep(c: Config, a: App)
    requires a.todo != [] && a.status == Running && StepOp(c, a).status == Running
    ensures |HeldByOps(a.todo)| == |HeldByOps(StepOp(c, a).todo)| + if a.todo[0].RingAdvance? then 1 else 0
  {
    StepTodo(c, a);
    StopOrMove(c, a);
    TodoByKind(c, a);
    var t := StepOp(c, a).todo;
    if t != a.todo[1..] {
      assert HeldByOps(t) == OpHeld(t[0]) + HeldByOps(a.todo[1..]);
    }
  }

  lemma TodoByKind(c: Config, a: App)
    requires a.todo != [] && a.status == Running && StepOp(c, a).status == Running
    ensures var t := StepOp(c, a).todo;
            if a.todo[0].RingAdd? then t != [] && t[0].RingAdvance? && t[1..] == a.todo[1..]
            else if a.todo[0].LogPop? then t != [] && t[0].LogQueue? && t[1..] == a.todo[1..]
            else t == a.todo[1..]
  {
  }

  lemma Regrouped<T>(done: seq<T>, x: seq<T>, rest: seq<T>, waiting: seq<T>)
    ensures done + ((x + rest) + waiting) == (done + x) + (rest + waiting)
  {
  }

  lemma AccountedOp(c: Config, s: State)
    requires Accounted(s) && s.a.todo != [] && s.a.status == Running
    ensures Accounted(s.(a := StepOp(c, s.a)))
  {
    var a, a' := s.a, StepOp(c, s.a);
    StopOrMove(c, a);
    if a'.status == Running {
      ReadHistory(c, a);
      GatherStep(c, a, Reading);
      GatherStep(c, a, ReadFd);
      HeldByOpsStep(c, a);
      Regrouped(Arrived(a.hist.received), Reading(a.todo[0]), Gather(a'.todo, Reading), MessagesIn(s.k.cq));
    } else {
      StoppedRing(c, a);
    }
  }

  lemma StoppedRing(c: Config, a: App)
    requires a.todo != [] && a.status == Running && StepOp(c, a).status != Running
    ensures StepOp(c, a) == Stop(a, StepOp(c, a).status)
  {
  }

  // ---- dispatch ----

  lemma HandlerMessages(a: App, x: Cqe, e: Env)
    requires HandleRequest(a, x, e).status == Running && a.todo == []
    ensures var a' := HandleRequest(a, x, e);
            && Gather(a'.todo, Reading) == CqeMessage(x)
            && |Gather(a'.todo, ReadFd)| == |HeldByOps(a'.todo)|
            && a'.hist.received == a.hist.received && a'.hist.recycled == a.hist.recycled
  {
    HandlerHolds(a, x, e);
    if x.origin.Recv? {
      var fd, bid := x.origin.fd % U16, x.flags / BUFFER_SHIFT;
      GatherRecv(fd, bid, x.res, x, e, Reading);
      GatherRecv(fd, bid, x.res, x, e, ReadFd);
    } else if x.origin.Accept? {
      GatherAccept(x.res, e, Reading);
      GatherAccept(x.res, e, ReadFd);
    } else {
      GatherNone(HandleRequest(a, x, e).todo, Reading);
      GatherNone(HandleRequest(a, x, e).todo, ReadFd);
    }
  }

  lemma AccountedTake(s: State, a': App)
    requires Accounted(s) && s.a.todo == [] && s.k.cq != []
    requires Gather(a'.todo, Reading) == CqeMessage(s.k.cq[0]) && |Gather(a'.todo, ReadFd)| == |HeldByOps(a'.todo)|
    requires a'.hist.received == s.a.hist.received && a'.hist.recycled == s.a.hist.recycled
    ensures Accounted(State(a', s.k.(cq := s.k.cq[1..])))
  {
    assert Gather(s.a.todo, Reading) == [] && Gather(s.a.todo, ReadFd) == [] && HeldByOps(s.a.todo) == [];
    assert [] + MessagesIn(s.k.cq) == CqeMessage(s.k.cq[0]) + MessagesIn(s.k.cq[1..]);
  }

  lemma AccountedDispatch(s: State, e: Env)
    requires Tagged(s) && Accounted(s) && s.a.todo == [] && s.k.cq != [] && s.a.status == Running
    ensures Accounted(NextDispatch(s, e))
  {
    DispatchIsTake(s, e);
    var x := s.k.cq[0];
    if HandleRequest(s.a, x, e).status == Running {
      HandlerMessages(s.a, x, e);
      AccountedTake(s, HandleRequest(s.a, x, e));
    } else {
      StoppedKeepsTodo(s.a, x, e);
    }
  }

  // ---- the kernel ----

  lemma AccountedPost(s: State, t: State, x: Cqe)
    requires Accounted(s) && SameBooks(s.a, t.a)
    requires t.k.cq == s.k.cq + [x] && t.k.posted == s.k.posted + [x]
    ensures Accounted(t)
  {
    MessagesInAppend(s.k.cq, x);
    MessagesInAppend(s.k.posted, x);
  }

  lemma AccountedKernel(c: Config, s: State, act: Action)
    requires Accounted(s) && Enabled(c, s, act) && !act.Dispatch? && !act.RunOp?
    ensures Accounted(Next(c, s, act))
  {
    var t := Next(c, s, act);
    match act
    case WaitFails =>
    case Consume =>
    case CompleteAccept(i, res, more) => AccountedPost(s, t, t.k.cq[|s.k.cq|]);
    case CompleteRecv(i, payload, more) => AccountedPost(s, t, t.k.cq[|s.k.cq|]);
    case FailRecv(i, res) => AccountedPost(s, t, t.k.cq[|s.k.cq|]);
    case CompleteWrite(i, n) => AccountedPost(s, t, t.k.cq[|s.k.cq|]);
    case CompleteSend(i, res, more) => AccountedPost(s, t, t.k.cq[|s.k.cq|]);
  }

  lemma AccountedStep(c: Config, s: State, act: Action)
    requires Tagged(s) && Accounted(s)
    ensures Accounted(Apply(c, s, act))
  {
    if Enabled(c, s, act) {
      match act
      case Dispatch(e) => AccountedDispatch(s, e);
      case RunOp => AccountedOp(c, s);
      case _ => AccountedKernel(c, s, act);
    }
  }
}
