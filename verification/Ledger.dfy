/** Sums over whole runs: connections armed, messages answered, lines logged, buffers out. */
module Ledger {
  import opened Bits
  import opened LogLine
  import opened Model
  import opened StateShape
  import opened Tagging

  /** What the operations still to come contribute, in order. */
  function Gather<T>(ops: seq<Op>, f: Op -> seq<T>): seq<T> {
    if ops == [] then [] else f(ops[0]) + Gather(ops[1..], f)
  }

  function ArmFd(op: Op): seq<nat> { if op.QueueRecv? then [op.fd] else [] }

  function SendFd(op: Op): seq<nat> { if op.QueueSend? then [op.fd] else [] }

  function ReadFd(op: Op): seq<nat> { if op.ReadPacket? then [op.fd] else [] }

  function LogLevel(op: Op): seq<Level> { if op.LogPop? then [op.level] else [] }

  function PutBid(op: Op): seq<nat> { if op.Put? then [op.bid] else [] }

  function ReplyFds(ps: seq<Packet>): (r: seq<nat>)
    ensures |r| == |ps| && forall i :: 0 <= i < |ps| ==> r[i] == ps[i].fd
  {
    seq(|ps|, i requires 0 <= i < |ps| => ps[i].fd)
  }

  function Repeat<T>(x: T, k: nat): (r: seq<T>)
    ensures |r| == k && forall i :: 0 <= i < k ==> r[i] == x
  {
    seq(k, _ => x)
  }

  /** Every accepted connection is armed once, in order. */
  ghost predicate ArmsAccepted(a: App) {
    a.hist.accepted == a.hist.armed + Gather(a.todo, ArmFd)
  }

  /** Every message read is answered once, in order. */
  ghost predicate AnswersReceived(a: App) {
    ReplyFds(a.hist.received) + Gather(a.todo, ReadFd) == a.hist.sent + Gather(a.todo, SendFd)
  }

  /** Four start-up lines, then one debug line per connection and per message; nothing else logs. */
  ghost predicate LogsExpected(a: App) {
    a.hist.logs + Gather(a.todo, LogLevel)
    == GREETING_LEVELS + Repeat(Debug, |a.hist.accepted| + |a.hist.received| + |Gather(a.todo, ReadFd)|)
  }

  /** One buffer leaves the free list per line logged, and one comes back per put. */
  ghost predicate PoolBalance(c: Config, a: App) {
    |a.free| + |a.hist.logs| == c.pool + |a.hist.returned|
  }

  ghost predicate Balanced(c: Config, a: App) {
    ArmsAccepted(a) && AnswersReceived(a) && LogsExpected(a) && PoolBalance(c, a)
  }

  lemma {:induction false} GatherNone<T>(ops: seq<Op>, f: Op -> seq<T>)
    requires forall i :: 0 <= i < |ops| ==> f(ops[i]) == []
    ensures Gather(ops, f) == []
    decreases |ops|
  {
    if ops != [] { GatherNone(ops[1..], f); }
  }

  lemma {:induction false} GatherAppend<T>(ops: seq<Op>, more: seq<Op>, f: Op -> seq<T>)
    ensures Gather(ops + more, f) == Gather(ops, f) + Gather(more, f)
    decreases |ops|
  {
    if ops == [] {
      assert ops + more == more;
    } else {
      assert (ops + more)[1..] == ops[1..] + more;
      GatherAppend(ops[1..], more, f);
    }
  }

  lemma GatherOne<T>(op: Op, f: Op -> seq<T>)
    ensures Gather([op], f) == f(op)
  {
    assert [op][1..] == [];
  }

  /** Split off the first operation. */
  lemma GatherCons<T>(op: Op, rest: seq<Op>, f: Op -> seq<T>)
    ensures Gather([op] + rest, f) == f(op) + Gather(rest, f)
  {
    GatherAppend([op], rest, f);
    GatherOne(op, f);
  }

  lemma GatherAccept<T>(clientfd: nat, e: Env, f: Op -> seq<T>)
    ensures var ops := AcceptOps(clientfd, e);
            Gather(ops, f) == f(ops[0]) + f(ops[1]) + f(ops[2])
  {
    var ops := AcceptOps(clientfd, e);
    GatherOne(ops[2], f);
    GatherCons(ops[1], [ops[2]], f);
    GatherCons(ops[0], [ops[1], ops[2]], f);
    assert [ops[1]] + [ops[2]] == [ops[1], ops[2]];
    assert ops == [ops[0]] + [ops[1], ops[2]];
  }

  lemma GatherRecv<T>(fd: nat, bid: nat, len: nat, x: Cqe, e: Env, f: Op -> seq<T>)
    ensures var ops := RecvOps(fd, bid, len, x, e);
            Gather(ops, f) == f(ops[0]) + f(ops[1]) + f(ops[2]) + f(ops[3]) + f(ops[4])
  {
    var ops := RecvOps(fd, bid, len, x, e);
    GatherOne(ops[4], f);
    GatherCons(ops[3], ops[4..], f);
    GatherCons(ops[2], ops[3..], f);
    GatherCons(ops[1], ops[2..], f);
    GatherCons(ops[0], ops[1..], f);
    assert ops[4..] == [ops[4]] && ops[3..] == [ops[3]] + ops[4..] && ops[2..] == [ops[2]] + ops[3..]
        && ops[1..] == [ops[1]] + ops[2..] && ops == [ops[0]] + ops[1..];
  }

  lemma GatherBoot<T>(b: Boot, f: Op -> seq<T>)
    requires ValidBoot(b)
    ensures var ops := BootOps(b);
            Gather(ops, f) == f(ops[0]) + f(ops[1]) + f(ops[2]) + f(ops[3]) + f(ops[4]) + f(ops[5])
  {
    var ops := BootOps(b);
    GatherOne(ops[5], f);
    GatherCons(ops[4], ops[5..], f);
    GatherCons(ops[3], ops[4..], f);
    GatherCons(ops[2], ops[3..], f);
    GatherCons(ops[1], ops[2..], f);
    GatherCons(ops[0], ops[1..], f);
    assert ops[5..] == [ops[5]] && ops[4..] == [ops[4]] + ops[5..] && ops[3..] == [ops[3]] + ops[4..]
        && ops[2..] == [ops[2]] + ops[3..] && ops[1..] == [ops[1]] + ops[2..] && ops == [ops[0]] + ops[1..];
  }

  lemma LedgerInit(c: Config, b: Boot, mem: seq<char>, rmem: seq<char>)
    requires ValidStart(c, b, mem, rmem)
    ensures Balanced(c, Init(c, b, mem, rmem).a)
  {
    GatherBoot(b, ArmFd);
    GatherBoot(b, SendFd);
    GatherBoot(b, ReadFd);
    GatherBoot(b, LogLevel);
    assert Gather(BootOps(b), LogLevel) == GREETING_LEVELS;
  }

  /** What is left to gather after one operation: the operation's own share is gone, and a
      continuation contributes nothing. */
  lemma GatherStep<T>(c: Config, a: App, f: Op -> seq<T>)
    requires a.todo != []
    requires forall op: Op :: op.LogQueue? || op.RingAdvance? ==> f(op) == []
    ensures var t := StepOp(c, a).todo;
            t == a.todo || Gather(a.todo, f) == f(a.todo[0]) + Gather(t, f)
  {
    var t := StepOp(c, a).todo;
    StepTodo(c, a);
    if t != a.todo && t != a.todo[1..] {
      assert Gather(t, f) == f(t[0]) + Gather(t[1..], f);
    }
  }

  /** A stopped run leaves its books as they were. */
  lemma StopOrMove(c: Config, a: App)
    requires a.todo != [] && a.status == Running
    ensures StepOp(c, a).status != a.status ==>
              StepOp(c, a).todo == a.todo && StepOp(c, a).hist == a.hist && StepOp(c, a).free == a.free
    ensures StepOp(c, a).status == a.status ==> |StepOp(c, a).todo| < |a.todo| || StepOp(c, a).todo[0] != a.todo[0]
  {
  }

  lemma ShiftLeft<T>(done: seq<T>, x: seq<T>, rest: seq<T>)
    ensures done + (x + rest) == (done + x) + rest
  {
  }

  /** The history entries one operation adds. */
  lemma StepHistory(c: Config, a: App)
    requires a.todo != [] && a.status == Running && StepOp(c, a).status == Running
    ensures var op := a.todo[0]; var h, h' := a.hist, StepOp(c, a).hist;
            && h'.accepted == h.accepted
            && h'.armed == h.armed + ArmFd(op)
            && h'.sent == h.sent + SendFd(op)
            && h'.logs == h.logs + LogLevel(op)
            && h'.returned == h.returned + PutBid(op)
            && ReplyFds(h'.received) == ReplyFds(h.received) + ReadFd(op)
            && |StepOp(c, a).free| + |LogLevel(op)| == |a.free| + |PutBid(op)|
  {
    StepRequests(c, a);
    StepPool(c, a);
    StepReads(c, a);
  }

  lemma StepRequests(c: Config, a: App)
    requires a.todo != [] && a.status == Running && StepOp(c, a).status == Running
    ensures var op := a.todo[0]; var h, h' := a.hist, StepOp(c, a).hist;
            h'.accepted == h.accepted && h'.armed == h.armed + ArmFd(op) && h'.sent == h.sent + SendFd(op)
  {
  }

  lemma StepPool(c: Config, a: App)
    requires a.todo != [] && a.status == Running && StepOp(c, a).status == Running
    ensures var op := a.todo[0]; var h, h' := a.hist, StepOp(c, a).hist;
            && h'.logs == h.logs + LogLevel(op) && h'.returned == h.returned + PutBid(op)
            && |StepOp(c, a).free| + |LogLevel(op)| == |a.free| + |PutBid(op)|
  {
  }

  lemma StepReads(c: Config, a: App)
    requires a.todo != [] && a.status == Running && StepOp(c, a).status == Running
    ensures ReplyFds(StepOp(c, a).hist.received) == ReplyFds(a.hist.received) + ReadFd(a.todo[0])
  {
  }

  lemma LedgerOp(c: Config, a: App)
    requires Balanced(c, a) && a.todo != [] && a.status == Running
    ensures Balanced(c, StepOp(c, a))
  {
    var a' := StepOp(c, a);
    StopOrMove(c, a);
    if a'.status == Running {
      StepHistory(c, a);
      GatherStep(c, a, ArmFd);
      GatherStep(c, a, SendFd);
      GatherStep(c, a, ReadFd);
      GatherStep(c, a, LogLevel);
      LedgerShift(c, a, a');
    }
  }

  lemma LedgerShift(c: Config, a: App, a': App)
    requires Balanced(c, a) && a.todo != []
    requires a'.hist.accepted == a.hist.accepted
    requires var op := a.todo[0];
             && Gather(a.todo, ArmFd) == ArmFd(op) + Gather(a'.todo, ArmFd)
             && Gather(a.todo, SendFd) == SendFd(op) + Gather(a'.todo, SendFd)
             && Gather(a.todo, ReadFd) == ReadFd(op) + Gather(a'.todo, ReadFd)
             && Gather(a.todo, LogLevel) == LogLevel(op) + Gather(a'.todo, LogLevel)
             && a'.hist.armed == a.hist.armed + ArmFd(op)
             && a'.hist.sent == a.hist.sent + SendFd(op)
             && a'.hist.logs == a.hist.logs + LogLevel(op)
             && a'.hist.returned == a.hist.returned + PutBid(op)
             && ReplyFds(a'.hist.received) == ReplyFds(a.hist.received) + ReadFd(op)
             && |a'.free| + |LogLevel(op)| == |a.free| + |PutBid(op)|
    ensures Balanced(c, a')
  {
    var op := a.todo[0];
    ShiftLeft(a.hist.armed, ArmFd(op), Gather(a'.todo, ArmFd));
    ShiftLeft(a.hist.sent, SendFd(op), Gather(a'.todo, SendFd));
    ShiftLeft(ReplyFds(a.hist.received), ReadFd(op), Gather(a'.todo, ReadFd));
    ShiftLeft(a.hist.logs, LogLevel(op), Gather(a'.todo, LogLevel));
    assert |ReplyFds(a'.hist.received)| == |a'.hist.received|;
    assert |ReplyFds(a.hist.received)| == |a.hist.received|;
  }

  /** A put and a submit, or a submit alone, add nothing to any book. */
  lemma LedgerPlain(c: Config, a: App, x: Cqe, e: Env)
    requires Balanced(c, a) && a.todo == [] && (x.origin.Write? || x.origin.Send?)
    ensures Balanced(c, HandleRequest(a, x, e))
  {
    var t := HandleRequest(a, x, e).todo;
    GatherNone(t, ArmFd);
    GatherNone(t, SendFd);
    GatherNone(t, ReadFd);
    GatherNone(t, LogLevel);
  }

  lemma LedgerHandler(c: Config, a: App, x: Cqe, e: Env)
    requires Balanced(c, a) && a.todo == [] && a.status == Running
    ensures Balanced(c, HandleRequest(a, x, e))
  {
    if HandleRequest(a, x, e).status != Running {
      StoppedKeepsTodo(a, x, e);
    } else if x.origin.Accept? {
      LedgerAccept(c, a, x, e);
    } else if x.origin.Recv? {
      LedgerRecv(c, a, x, e);
    } else {
      LedgerPlain(c, a, x, e);
    }
  }

  lemma OneMore(k: nat)
    ensures GREETING_LEVELS + Repeat(Debug, k + 1) == (GREETING_LEVELS + Repeat(Debug, k)) + [Debug]
  {
  }

  lemma LedgerAccept(c: Config, a: App, x: Cqe, e: Env)
    requires Balanced(c, a) && a.todo == [] && a.status == Running
    requires x.origin.Accept? && x.res >= 0
    ensures Balanced(c, HandleRequest(a, x, e))
  {
    GatherAccept(x.res, e, ArmFd);
    GatherAccept(x.res, e, SendFd);
    GatherAccept(x.res, e, ReadFd);
    GatherAccept(x.res, e, LogLevel);
    OneMore(|a.hist.accepted| + |a.hist.received|);
  }

  lemma LedgerRecv(c: Config, a: App, x: Cqe, e: Env)
    requires Balanced(c, a) && a.todo == [] && a.status == Running
    requires x.origin.Recv? && x.res >= 0 && e.valid
    ensures Balanced(c, HandleRequest(a, x, e))
  {
    var fd, bid := x.origin.fd % U16, x.flags / BUFFER_SHIFT;
    GatherRecv(fd, bid, x.res, x, e, ArmFd);
    GatherRecv(fd, bid, x.res, x, e, SendFd);
    GatherRecv(fd, bid, x.res, x, e, ReadFd);
    GatherRecv(fd, bid, x.res, x, e, LogLevel);
    assert ReplyFds(a.hist.received) == ReplyFds(a.hist.received) + Gather(a.todo, ReadFd) == a.hist.sent;
    OneMore(|a.hist.accepted| + |a.hist.received|);
  }

  ghost predicate SameBooks(a: App, b: App) {
    b.todo == a.todo && b.hist == a.hist && b.free == a.free
  }

  lemma KernelKeepsBooks(c: Config, s: State, act: Action)
    requires Enabled(c, s, act) && !act.Dispatch? && !act.RunOp?
    ensures SameBooks(s.a, Next(c, s, act).a)
  {
  }

  lemma LedgerStep(c: Config, s: State, act: Action)
    requires Tagged(s) && Balanced(c, s.a)
    ensures Balanced(c, Apply(c, s, act).a)
  {
    if Enabled(c, s, act) {
      match act
      case Dispatch(e) =>
        DispatchIsTake(s, e);
        LedgerHandler(c, s.a, s.k.cq[0], e);
      case RunOp => LedgerOp(c, s.a);
      case _ => KernelKeepsBooks(c, s, act);
    }
  }
}
