/** Replies over whole runs: the receives and sends really queued, against the connections and messages
    the kernel posted. */
module Replies {
  import opened Bits
  import opened Model
  import opened Tagging
  import opened RingQueue
  import opened Ledger
  import opened Causality
  import opened Arrivals
  import opened Runs
  import opened Requests

  /** What a row of entries contributes, in order. */
  function Project<T>(qs: seq<Sqe>, f: Sqe -> seq<T>): seq<T> {
    if qs == [] then [] else f(qs[0]) + Project(qs[1..], f)
  }

  function SendTo(q: Sqe): seq<nat> { if q.req.Send? then [q.req.fd] else [] }

  function RecvOn(q: Sqe): seq<nat> { if q.req.Recv? then [q.req.fd] else [] }

  function Connected(x: Cqe): seq<nat> {
    if x.origin.Accept? && x.res >= 0 then [x.res] else []
  }

  /** The descriptors a row of completions brings, oldest first. */
  function Connections(xs: seq<Cqe>): seq<nat> {
    if xs == [] then [] else Connected(xs[0]) + Connections(xs[1..])
  }

  /** The sends and receives ever queued, and the connections ever posted. */
  function Sends(s: State): seq<nat> { Project(Queued(s), SendTo) }

  function Arms(s: State): seq<nat> { Project(Queued(s), RecvOn) }

  ghost predicate Recorded(s: State) {
    && Sends(s) == s.a.hist.sent
    && Arms(s) == s.a.hist.armed
    && Connections(s.k.posted) == s.a.hist.accepted + Connections(s.k.cq)
  }

  lemma {:induction false} ProjectAppend<T>(qs: seq<Sqe>, q: Sqe, f: Sqe -> seq<T>)
    ensures Project(qs + [q], f) == Project(qs, f) + f(q)
    decreases |qs|
  {
    if qs != [] {
      assert (qs + [q])[1..] == qs[1..] + [q];
      ProjectAppend(qs[1..], q, f);
    } else {
      assert qs + [q] == [q];
    }
  }

  lemma {:induction false} ConnectionsAppend(xs: seq<Cqe>, x: Cqe)
    ensures Connections(xs + [x]) == Connections(xs) + Connected(x)
    decreases |xs|
  {
    if xs != [] {
      assert (xs + [x])[1..] == xs[1..] + [x];
      ConnectionsAppend(xs[1..], x);
    } else {
      assert xs + [x] == [x];
    }
  }

  lemma {:induction false} ProjectIn<T>(qs: seq<Sqe>, f: Sqe -> seq<T>, q: Sqe, x: T)
    requires q in qs && f(q) == [x]
    ensures x in Project(qs, f)
    decreases |qs|
  {
    if qs[0] != q { ProjectIn(qs[1..], f, q, x); }
  }

  // ---- every step ----

  lemma RecordedInit(c: Config, b: Boot, mem: seq<char>, rmem: seq<char>)
    requires ValidStart(c, b, mem, rmem)
    ensures Recorded(Init(c, b, mem, rmem))
  {
  }

  /** What one operation queues and what it writes down agree. */
  lemma OpRecords(c: Config, a: App)
    requires a.todo != []
    ensures var a' := StepOp(c, a); var h, h' := a.hist, a'.hist;
            || (a'.sq == a.sq && h'.sent == h.sent && h'.armed == h.armed)
            || (|a'.sq| == |a.sq| + 1 && a'.sq[..|a.sq|] == a.sq
                && h'.sent == h.sent + SendTo(a'.sq[|a.sq|]) && h'.armed == h.armed + RecvOn(a'.sq[|a.sq|]))
    ensures StepOp(c, a).hist.accepted == a.hist.accepted
  {
  }

  lemma RecordedOp(c: Config, s: State)
    requires Recorded(s) && s.a.todo != []
    ensures Recorded(s.(a := StepOp(c, s.a)))
  {
    var t := s.(a := StepOp(c, s.a));
    OpRecords(c, s.a);
    if t.a.sq != s.a.sq {
      var q := t.a.sq[|s.a.sq|];
      assert Queued(t) == Queued(s) + [q];
      ProjectAppend(Queued(s), q, SendTo);
      ProjectAppend(Queued(s), q, RecvOn);
    }
  }

  lemma HandlerRecords(a: App, x: Cqe, e: Env)
    requires HandleRequest(a, x, e).status == Running
    ensures var h, h' := a.hist, HandleRequest(a, x, e).hist;
            h'.sent == h.sent && h'.armed == h.armed && h'.accepted == h.accepted + Connected(x)
  {
  }

  lemma RecordedDispatch(s: State, e: Env)
    requires Tagged(s) && Recorded(s) && s.a.status == Running && s.k.cq != []
    ensures Recorded(NextDispatch(s, e))
  {
    var x := s.k.cq[0];
    DispatchIsTake(s, e);
    HandleFrame(s.a, x, e);
    if HandleRequest(s.a, x, e).status == Running {
      HandlerRecords(s.a, x, e);
      ShiftLeft(s.a.hist.accepted, Connected(x), Connections(s.k.cq[1..]));
    } else {
      StoppedKeepsTodo(s.a, x, e);
    }
  }

  lemma RecordedPost(s: State, t: State, x: Cqe)
    requires Recorded(s) && SameBooks(s.a, t.a) && Queued(t) == Queued(s)
    requires t.k.cq == s.k.cq + [x] && t.k.posted == s.k.posted + [x]
    ensures Recorded(t)
  {
    ConnectionsAppend(s.k.cq, x);
    ConnectionsAppend(s.k.posted, x);
    ShiftLeft(s.a.hist.accepted, Connections(s.k.cq), Connected(x));
  }

  lemma RecordedKernel(c: Config, s: State, act: Action)
    requires Recorded(s) && Enabled(c, s, act) && !act.Dispatch? && !act.RunOp?
    ensures Recorded(Next(c, s, act))
  {
    var t := Next(c, s, act);
    KernelKeepsQueued(c, s, act);
    match act
    case WaitFails =>
    case Consume =>
    case CompleteAccept(i, res, more) => RecordedPost(s, t, t.k.cq[|s.k.cq|]);
    case CompleteRecv(i, payload, more) => RecordedPost(s, t, t.k.cq[|s.k.cq|]);
    case FailRecv(i, res) => RecordedPost(s, t, t.k.cq[|s.k.cq|]);
    case CompleteWrite(i, n) => RecordedPost(s, t, t.k.cq[|s.k.cq|]);
    case CompleteSend(i, res, more) => RecordedPost(s, t, t.k.cq[|s.k.cq|]);
  }

  lemma RecordedStep(c: Config, s: State, act: Action)
    requires Tagged(s) && Recorded(s)
    ensures Recorded(Apply(c, s, act))
  {
    if Enabled(c, s, act) {
      match act
      case Dispatch(e) => RecordedDispatch(s, e);
      case RunOp => RecordedOp(c, s);
      case _ => RecordedKernel(c, s, act);
    }
  }

  lemma {:induction false} RecordedRun(c: Config, s: State, acts: seq<Action>)
    requires Inv(c, s) && Recorded(s)
    ensures Recorded(Exec(c, s, acts))
    decreases |acts|
  {
    if acts != [] {
      RecordedStep(c, s, acts[0]);
      InvStep(c, s, acts[0]);
      RecordedRun(c, Apply(c, s, acts[0]), acts[1..]);
    }
  }

  lemma RecordedAfter(c: Config, b: Boot, mem: seq<char>, rmem: seq<char>, acts: seq<Action>)
    requires ValidStart(c, b, mem, rmem)
    ensures Inv(c, After(c, b, mem, rmem, acts)) && Recorded(After(c, b, mem, rmem, acts))
  {
    InvInit(c, b, mem, rmem);
    RecordedInit(c, b, mem, rmem);
    RecordedRun(c, Init(c, b, mem, rmem), acts);
    InvAfter(c, b, mem, rmem, acts);
  }

  // ---- replies ----

  /** Each receive queued is for a connection the kernel posted and the program handled, and each send
      goes to the 16-bit key of one; a packet's descriptor is its peer's exactly when that fits 16 bits. */
  lemma RepliesAreCaused(c: Config, b: Boot, mem: seq<char>, rmem: seq<char>, acts: seq<Action>)
    requires ValidStart(c, b, mem, rmem)
    ensures var s := After(c, b, mem, rmem, acts); var conns := s.a.hist.accepted;
            && conns + Connections(s.k.cq) == Connections(s.k.posted)
            && (forall q :: q in Queued(s) && q.req.Recv? ==> q.req.fd in conns)
            && (forall q :: q in Queued(s) && q.req.Send? ==> FromPeer(conns, q.req.fd))
            && (forall p :: p in s.a.hist.received ==> p.peer in conns && (p.fd == p.peer <==> p.peer < U16))
  {
    RecordedAfter(c, b, mem, rmem, acts);
    CausedRequested(After(c, b, mem, rmem, acts));
  }

  lemma CausedRequested(s: State)
    requires AppCaused(s.a) && ArmsAccepted(s.a) && Recorded(s)
    ensures var conns := s.a.hist.accepted;
            && (forall q :: q in Queued(s) && q.req.Recv? ==> q.req.fd in conns)
            && (forall q :: q in Queued(s) && q.req.Send? ==> FromPeer(conns, q.req.fd))
            && (forall p :: p in s.a.hist.received ==> p.peer in conns && (p.fd == p.peer <==> p.peer < U16))
  {
    var conns := s.a.hist.accepted;
    forall q | q in Queued(s) && q.req.Recv?
      ensures q.req.fd in conns
    {
      ProjectIn(Queued(s), RecvOn, q, q.req.fd);
    }
    forall q | q in Queued(s) && q.req.Send?
      ensures FromPeer(conns, q.req.fd)
    {
      ProjectIn(Queued(s), SendTo, q, q.req.fd);
    }
    assert forall p :: p in s.a.hist.received ==> PacketCaused(conns, p);
  }

  lemma SmallFdsReachTheirPeer(c: Config, b: Boot, mem: seq<char>, rmem: seq<char>, acts: seq<Action>, q: Sqe)
    requires ValidStart(c, b, mem, rmem)
    requires var s := After(c, b, mem, rmem, acts);
             q in Queued(s) && q.req.Send? && forall p :: p in s.a.hist.accepted ==> p < U16
    ensures q.req.fd in After(c, b, mem, rmem, acts).a.hist.accepted
  {
    RepliesAreCaused(c, b, mem, rmem, acts);
    var conns := After(c, b, mem, rmem, acts).a.hist.accepted;
    var p :| p in conns && q.req.fd == p % U16;
  }

  /** At every wait: the receives queued are for the connections posted, less those that wait; each
      message read has given its buffer back and been answered by a send, in order; and the messages
      posted are those read followed by those that wait. */
  lemma AnsweredAtWait(c: Config, b: Boot, mem: seq<char>, rmem: seq<char>, acts: seq<Action>)
    requires ValidStart(c, b, mem, rmem) && After(c, b, mem, rmem, acts).a.todo == []
    ensures var s := After(c, b, mem, rmem, acts); var h := s.a.hist;
            && Arms(s) + Connections(s.k.cq) == Connections(s.k.posted)
            && Sends(s) == ReplyFds(h.received)
            && |h.received| == |h.recycled|
            && Arrived(h.received) + MessagesIn(s.k.cq) == MessagesIn(s.k.posted)
  {
    RecordedAfter(c, b, mem, rmem, acts);
    BooksAtWait(After(c, b, mem, rmem, acts));
  }

  lemma BooksAtWait(s: State)
    requires ArmsAccepted(s.a) && AnswersReceived(s.a) && Accounted(s) && Recorded(s) && s.a.todo == []
    ensures Arms(s) + Connections(s.k.cq) == Connections(s.k.posted)
    ensures Sends(s) == ReplyFds(s.a.hist.received)
    ensures |s.a.hist.received| == |s.a.hist.recycled|
    ensures Arrived(s.a.hist.received) + MessagesIn(s.k.cq) == MessagesIn(s.k.posted)
  {
    var h := s.a.hist;
    assert Gather(s.a.todo, ReadFd) == [] && Gather(s.a.todo, SendFd) == [] && Gather(s.a.todo, ArmFd) == [];
    assert Gather(s.a.todo, Reading) == [] && HeldByOps(s.a.todo) == [];
    assert ReplyFds(h.received) == ReplyFds(h.received) + Gather(s.a.todo, ReadFd) == h.sent;
    assert h.armed + [] == h.armed;
    assert [] + MessagesIn(s.k.cq) == MessagesIn(s.k.cq);
  }

  /** So at every wait the i-th send ever queued answers the i-th message the kernel ever posted: it goes
      to that message's descriptor, cut to 16 bits. */
  lemma SendsAnswerPosts(c: Config, b: Boot, mem: seq<char>, rmem: seq<char>, acts: seq<Action>)
    requires ValidStart(c, b, mem, rmem) && After(c, b, mem, rmem, acts).a.todo == []
    ensures var s := After(c, b, mem, rmem, acts); var ms := MessagesIn(s.k.posted);
            && |Sends(s)| + |MessagesIn(s.k.cq)| == |ms|
            && forall i :: 0 <= i < |Sends(s)| ==> Sends(s)[i] == ms[i].peer % U16
  {
    AnsweredAtWait(c, b, mem, rmem, acts);
    InvAfter(c, b, mem, rmem, acts);
    var s := After(c, b, mem, rmem, acts);
    var received := s.a.hist.received;
    forall i | 0 <= i < |Sends(s)|
      ensures Sends(s)[i] == MessagesIn(s.k.posted)[i].peer % U16
    {
      assert received[i] in received;
      assert MessagesIn(s.k.posted)[i] == Arrived(received)[i];
    }
  }

  /** Per descriptor, when all of them fit 16 bits: the sends queued to fd are the messages from fd that
      were posted, less those still waiting. */
  lemma SendsPerPeer(c: Config, b: Boot, mem: seq<char>, rmem: seq<char>, acts: seq<Action>, fd: nat)
    requires ValidStart(c, b, mem, rmem) && After(c, b, mem, rmem, acts).a.todo == []
    requires forall p :: p in After(c, b, mem, rmem, acts).a.hist.accepted ==> p < U16
    ensures var s := After(c, b, mem, rmem, acts);
            multiset(Sends(s))[fd] + multiset(Senders(MessagesIn(s.k.cq)))[fd]
            == multiset(Senders(MessagesIn(s.k.posted)))[fd]
  {
    AnsweredAtWait(c, b, mem, rmem, acts);
    RepliesAreCaused(c, b, mem, rmem, acts);
    var s := After(c, b, mem, rmem, acts);
    var received := s.a.hist.received;
    forall i | 0 <= i < |received|
      ensures ReplyFds(received)[i] == Senders(Arrived(received))[i]
    {
      assert received[i] in received;
    }
    assert Sends(s) == Senders(Arrived(received));
    assert Senders(MessagesIn(s.k.posted)) == Senders(Arrived(received)) + Senders(MessagesIn(s.k.cq));
  }
}
