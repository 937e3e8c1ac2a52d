/** Where replies go: every descriptor in flight comes from an earlier accept. */
module Causality {
  import opened Bits
  import opened Model
  import opened Tagging

  /** The 16-bit key of some accepted descriptor. */
  ghost predicate FromPeer(accepted: seq<nat>, fd: nat) {
    exists p :: p in accepted && fd == p % U16
  }

  ghost predicate ReqCaused(accepted: seq<nat>, r: Request) {
    && (r.Recv? ==> r.fd in accepted)
    && (r.Send? ==> FromPeer(accepted, r.fd))
  }

  ghost predicate OpCaused(accepted: seq<nat>, op: Op) {
    && (op.QueueRecv? ==> op.fd in accepted)
    && (op.QueueSend? ==> FromPeer(accepted, op.fd))
    && (op.ReadPacket? ==> op.origin.Recv? && op.origin.fd in accepted && op.fd == op.origin.fd % U16)
  }

  ghost predicate PacketCaused(accepted: seq<nat>, p: Packet) {
    p.peer in accepted && p.fd == p.peer % U16
  }

  ghost predicate AppCaused(a: App) {
    var acc := a.hist.accepted;
    && (forall q :: q in a.sq ==> ReqCaused(acc, q.req))
    && (forall op :: op in a.todo ==> OpCaused(acc, op))
    && (forall p :: p in a.hist.received ==> PacketCaused(acc, p))
    && (forall fd :: fd in a.hist.sent ==> FromPeer(acc, fd))
  }

  ghost predicate KernelCaused(accepted: seq<nat>, k: Kernel) {
    && (forall q :: q in k.active ==> ReqCaused(accepted, q.req))
    && (forall x :: x in k.cq ==> ReqCaused(accepted, x.origin))
  }

  /** In every place a descriptor can be, it is one an earlier accept returned (cut to 16 bits
      once it has been through a tag). */
  ghost predicate Caused(s: State) {
    AppCaused(s.a) && KernelCaused(s.a.hist.accepted, s.k)
  }

  lemma CausedInit(c: Config, b: Boot, mem: seq<char>, rmem: seq<char>)
    requires ValidStart(c, b, mem, rmem)
    ensures Caused(Init(c, b, mem, rmem))
  {
    var s := Init(c, b, mem, rmem);
    forall op | op in s.a.todo
      ensures OpCaused([], op)
    {
      var i :| 0 <= i < |s.a.todo| && s.a.todo[i] == op;
      assert op == BootOps(b)[i];
    }
  }

  lemma CausedRequests(c: Config, a: App)
    requires AppCaused(a) && a.todo != []
    ensures var a' := StepOp(c, a); var acc := a.hist.accepted;
            && a'.hist.accepted == acc
            && (forall q :: q in a'.sq ==> ReqCaused(acc, q.req))
            && (forall op :: op in a'.todo ==> OpCaused(acc, op))
  {
    assert OpCaused(a.hist.accepted, a.todo[0]);
  }

  lemma CausedHistory(c: Config, a: App)
    requires AppCaused(a) && a.todo != []
    ensures var h := StepOp(c, a).hist; var acc := a.hist.accepted;
            && (forall p :: p in h.received ==> PacketCaused(acc, p))
            && (forall fd :: fd in h.sent ==> FromPeer(acc, fd))
  {
    assert OpCaused(a.hist.accepted, a.todo[0]);
  }

  lemma CausedOp(c: Config, a: App)
    requires AppCaused(a) && a.todo != []
    ensures AppCaused(StepOp(c, a)) && StepOp(c, a).hist.accepted == a.hist.accepted
  {
    CausedRequests(c, a);
    CausedHistory(c, a);
  }

  lemma MoreAccepted(acc: seq<nat>, fd: nat, r: Request)
    requires ReqCaused(acc, r)
    ensures ReqCaused(acc + [fd], r)
  {
    if r.Send? {
      var p :| p in acc && r.fd == p % U16;
      assert p in acc + [fd];
    }
  }

  lemma MorePeers(acc: seq<nat>, fd: nat, x: nat)
    requires FromPeer(acc, x)
    ensures FromPeer(acc + [fd], x)
  {
    var p :| p in acc && x == p % U16;
    assert p in acc + [fd];
  }

  lemma CausedAccept(a: App, k: Kernel, x: Cqe, e: Env)
    requires AppCaused(a) && KernelCaused(a.hist.accepted, k) && a.todo == [] && x.origin.Accept? && x.res >= 0
    ensures AppCaused(HandleRequest(a, x, e)) && KernelCaused(HandleRequest(a, x, e).hist.accepted, k)
  {
    var acc := a.hist.accepted;
    forall q | q in a.sq || q in k.active ensures ReqCaused(acc + [x.res], q.req) { MoreAccepted(acc, x.res, q.req); }
    forall y | y in k.cq ensures ReqCaused(acc + [x.res], y.origin) { MoreAccepted(acc, x.res, y.origin); }
    forall fd | fd in a.hist.sent ensures FromPeer(acc + [x.res], fd) { MorePeers(acc, x.res, fd); }
  }

  lemma CausedRecv(a: App, x: Cqe, e: Env)
    requires AppCaused(a) && ReqCaused(a.hist.accepted, x.origin) && a.todo == []
    requires x.origin.Recv? && x.res >= 0 && e.valid
    ensures AppCaused(HandleRequest(a, x, e))
  {
    var peer := x.origin.fd;
    assert FromPeer(a.hist.accepted, peer % U16);
  }

  lemma CausedDispatch(s: State, e: Env)
    requires Tagged(s) && Caused(s) && s.a.todo == [] && s.k.cq != []
    ensures Caused(NextDispatch(s, e))
  {
    DispatchIsTake(s, e);
    var x := s.k.cq[0];
    var k := s.k.(cq := s.k.cq[1..]);
    assert KernelCaused(s.a.hist.accepted, k);
    if x.origin.Accept? && x.res >= 0 {
      CausedAccept(s.a, k, x, e);
      CausedAccept(s.a, s.k, x, e);
    } else if x.origin.Recv? && x.res >= 0 && e.valid {
      CausedRecv(s.a, x, e);
    }
  }

  lemma CausedKernel(c: Config, s: State, act: Action)
    requires Caused(s) && Enabled(c, s, act) && !act.Dispatch? && !act.RunOp?
    ensures Caused(Next(c, s, act))
  {
    match act
    case WaitFails =>
    case Consume =>
    case CompleteAccept(i, res, more) => assert s.k.active[i] in s.k.active;
    case CompleteRecv(i, payload, more) => assert s.k.active[i] in s.k.active;
    case FailRecv(i, res) => assert s.k.active[i] in s.k.active;
    case CompleteWrite(i, n) => assert s.k.active[i] in s.k.active;
    case CompleteSend(i, res, more) => assert s.k.active[i] in s.k.active;
  }

  lemma CausedStep(c: Config, s: State, act: Action)
    requires Tagged(s) && Caused(s)
    ensures Caused(Apply(c, s, act))
  {
    if Enabled(c, s, act) {
      match act
      case Dispatch(e) => CausedDispatch(s, e);
      case RunOp => CausedOp(c, s.a);
      case _ => CausedKernel(c, s, act);
    }
  }
}
