/** User data: every request carries the tag of its own kind, and every completion is dispatched
    by the tag of the request it completes. */
module Tagging {
  import opened Bits
  import opened UserData
  import opened Model

  function OpcodeOf(r: Request): nat {
    match r
    case Accept(_) => OP_ACCEPT
    case Recv(_) => OP_RECVMSG
    case Write(_, _, _, _) => OP_WRITE_FIXED
    case Send(_, _) => OP_SENDMSG
  }

  function KeyOf(r: Request): nat {
    match r
    case Accept(sock) => sock
    case Recv(fd) => fd
    case Write(bid, _, _, _) => bid
    case Send(fd, _) => fd
  }

  ghost predicate TagFits(r: Request, ud: nat) {
    Decode(ud) == Tag(KeyOf(r) % U16, OpcodeOf(r))
  }

  ghost predicate Tagged(s: State) {
    && (forall q :: q in s.a.sq ==> TagFits(q.req, q.ud))
    && (forall q :: q in s.k.active ==> TagFits(q.req, q.ud))
    && (forall x :: x in s.k.cq ==> TagFits(x.origin, x.ud))
  }

  lemma EncodedFits(r: Request, pad: nat)
    ensures TagFits(r, Encode(KeyOf(r), OpcodeOf(r), pad))
  {
    RoundTrip(KeyOf(r), OpcodeOf(r), pad);
  }

  lemma TaggedEnqueue(a: App, r: Request, pad: nat)
    requires a.todo != [] && forall q :: q in a.sq ==> TagFits(q.req, q.ud)
    ensures forall q :: q in Enqueue(a, Sqe(r, Encode(KeyOf(r), OpcodeOf(r), pad))).sq ==> TagFits(q.req, q.ud)
  {
    EncodedFits(r, pad);
  }

  lemma TaggedStepOp(c: Config, a: App)
    requires a.todo != [] && forall q :: q in a.sq ==> TagFits(q.req, q.ud)
    ensures forall q :: q in StepOp(c, a).sq ==> TagFits(q.req, q.ud)
  {
    match a.todo[0]
    case QueueAccept(sock, pad) => TaggedEnqueue(a, Accept(sock), pad);
    case QueueRecv(fd, pad) => TaggedEnqueue(a, Recv(fd), pad);
    case QueueSend(fd, pad) => TaggedEnqueue(a, Send(fd, 2), pad);
    case LogQueue(bid, line, pad) =>
      EncodedFits(Write(bid, 0, "", []), pad);
    case _ =>
  }

  lemma TaggedStep(c: Config, s: State, act: Action)
    requires Tagged(s)
    ensures Tagged(Apply(c, s, act))
  {
    if Enabled(c, s, act) && act.RunOp? {
      TaggedStepOp(c, s.a);
    }
  }

  /** Which branch of the event loop a completion takes. */
  function Branch(cqe: Cqe): nat {
    Decode(cqe.ud).op
  }

  /** The dispatch is never misled: a completion in the queue takes the branch of the request it
      completes and carries that request's key, cut to 16 bits. */
  lemma DispatchByOrigin(s: State, x: Cqe)
    requires Tagged(s) && x in s.k.cq
    ensures Branch(x) == OpcodeOf(x.origin) && Decode(x.ud).fd == KeyOf(x.origin) % U16
    ensures Branch(x) == OP_WRITE_FIXED <==> x.origin.Write?
    ensures Branch(x) == OP_ACCEPT <==> x.origin.Accept?
    ensures Branch(x) == OP_RECVMSG <==> x.origin.Recv?
    ensures Branch(x) == OP_SENDMSG <==> x.origin.Send?
  {
  }

  /** The handling a completion deserves, decided by the request it completes. */
  function HandleRequest(a: App, x: Cqe, e: Env): App {
    var h := a.hist.(handled := a.hist.handled + 1);
    match x.origin
    case Write(bid, _, _, _) => a.(hist := h, todo := [Put(bid % U16), Submit(e.submitOk)])
    case Accept(_) =>
      if x.res < 0 then Stop(a, Aborted(BadResult))
      else a.(hist := h.(accepted := h.accepted + [x.res]), todo := AcceptOps(x.res, e))
    case Recv(fd) =>
      if x.res < 0 then Stop(a, Aborted(BadResult))
      else if !e.valid then Stop(a, Aborted(InvalidMessage))
      else a.(hist := h, todo := RecvOps(fd % U16, x.flags / BUFFER_SHIFT, x.res, x, e))
    case Send(_, _) => a.(hist := h, todo := [Submit(e.submitOk)])
  }

  /** The event loop, which sees only the tag, does what the request deserves. */
  lemma HandleByOrigin(a: App, x: Cqe, e: Env)
    requires TagFits(x.origin, x.ud)
    ensures Handle(a, x, e) == HandleRequest(a, x, e)
  {
  }

  /** Taking a completion touches nothing but the handler to run and the history. */
  lemma HandleFrame(a: App, x: Cqe, e: Env)
    ensures var a' := HandleRequest(a, x, e);
            && a'.free == a.free && a'.mem == a.mem && a'.rmem == a.rmem && a'.ring == a.ring
            && a'.sq == a.sq && a'.submitted == a.submitted
  {
  }

  lemma StoppedKeepsTodo(a: App, x: Cqe, e: Env)
    requires a.status == Running && HandleRequest(a, x, e).status != Running
    ensures HandleRequest(a, x, e) == Stop(a, HandleRequest(a, x, e).status)
  {
  }

  /** The dispatch step, by the request completed. */
  function Take(s: State, e: Env): State
    requires s.k.cq != []
  {
    var a := HandleRequest(s.a, s.k.cq[0], e);
    if a.status == Running then State(a, s.k.(cq := s.k.cq[1..])) else State(a, s.k)
  }

  lemma DispatchIsTake(s: State, e: Env)
    requires Tagged(s) && s.k.cq != []
    ensures NextDispatch(s, e) == Take(s, e)
  {
    HandleByOrigin(s.a, s.k.cq[0], e);
  }
}
