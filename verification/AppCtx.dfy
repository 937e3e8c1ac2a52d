/** The application context in memory. Its methods are the program's functions; each is proved to
    make exactly the steps of the model, on the heap structures that the model's values stand for. */
module AppCtx {
  import opened Bits
  import opened Seqs
  import opened Geometry
  import opened UserData
  import opened LogLine
  import opened RingSpec
  import opened BufPool
  import opened BufRing
  import opened Model
  import opened Ownership
  import opened Integrity
  import opened Runs
  import opened Handlers
  import opened Requests
  import opened EventLoop

  /** `snprintf` into the BUFSIZE bytes at `at`. */
  method Snprintf(buf: array<char>, at: nat, line: string)
    requires at + BUFSIZE <= buf.Length
    modifies buf
    ensures buf[..] == Store(old(buf[..]), at, Print(old(buf[at..at + BUFSIZE]), line))
  {
    var m := if |line| < BUFSIZE then |line| else BUFSIZE - 1;
    for i := 0 to m
      invariant forall k :: 0 <= k < i ==> buf[at + k] == line[k]
      invariant forall k :: 0 <= k < buf.Length && !(at <= k < at + i) ==> buf[k] == old(buf[k])
    {
      buf[at + i] := line[i];
    }
    buf[at + m] := '\0';
    ghost var was := old(buf[..]);
    ghost var out := Print(was[at..at + BUFSIZE], line);
    forall k | 0 <= k < buf.Length
      ensures buf[k] == Store(was, at, out)[k]
    {
      if at <= k < at + BUFSIZE {
        assert Store(was, at, out)[k] == out[k - at];
      }
    }
  }

  lemma BootInOrder(b: Boot)
    requires ValidBoot(b)
    ensures var ops := BootOps(b);
            && |ops| == 6 && ops[0] == QueueAccept(b.sock, b.pad) && ops[5..] == [Submit(b.submitOk)]
            && forall i :: 0 <= i < 4 ==> ops[i + 1..] == [BootLog(b, i)] + ops[i + 2..]
  {
  }

  class AppCtx {
    const c: Config
    const pool: BufPool
    const ring: BufRing

    // the submission ring and what it shares with the kernel
    var sq: seq<Sqe>
    var submitted: nat
    var kernel: Kernel
    var rmem: seq<char>

    var status: Status

    ghost var todo: seq<Op>
    ghost var hist: History

    ghost function System(): State
      reads this, pool, pool.buf, ring, ring.br
    {
      State(App(pool.free, pool.buf[..], rmem, ring.Value(), sq, submitted, todo, status, hist), kernel)
    }

    ghost function Repr(): set<object>
      reads this, pool, ring
    {
      {this, pool, pool.buf, pool.iovecs, pool.freelistMem, ring, ring.br, ring.bufs}
    }

    /** The heap structures are sound and the state they stand for is one a run can reach. */
    ghost predicate Valid()
      reads this, pool, ring, Repr()
    {
      && Represented()
      && Reachable(c, System())
    }

    ghost predicate Represented()
      reads this, pool, ring, Repr()
    {
      && pool.Valid() && ring.Valid()
      && pool.bufSize == BUFSIZE && pool.freelistMem.Length == c.pool
      && ring.br.Length == c.entries && ring.entrySize == c.entrySize
    }

    /** appctx_init: the pool, then the ring the connections use. */
    constructor (c: Config, ghost b: Boot, rmem: seq<char>)
      requires ValidConfig(c) && ValidBoot(b) && |rmem| == c.entries * c.entrySize
      ensures Valid() && fresh(Repr())
      ensures this.c == c && status == Running
      ensures System() == Init(c, b, pool.buf[..], rmem)
    {
      this.c := c;
      pool := new BufPool.Init(BUFSIZE, c.pool);
      ring := new BufRing.Init(c.entries, c.entrySize);
      sq, submitted, kernel := [], 0, EmptyKernel();
      this.rmem, status := rmem, Running;
      todo, hist := BootOps(b), EmptyHistory();
      new;
      assert Represented();
      Starts(b);
    }

    /** Freshly built parts stand for the state `main` starts from. */
    lemma Starts(b: Boot)
      requires ValidConfig(c) && ValidBoot(b) && Represented() && |rmem| == c.entries * c.entrySize
      requires pool.free == Countdown(c.pool) && ring.Value() == InitRing(c.entries, c.entrySize)
      requires sq == [] && submitted == 0 && kernel == EmptyKernel() && status == Running
      requires todo == BootOps(b) && hist == EmptyHistory()
      ensures System() == Init(c, b, pool.buf[..], rmem) && Valid()
    {
      ReachableInit(c, b, pool.buf[..], rmem);
    }

    /** What is registered with the kernel covers the two allocations, each byte once; and every record of
        the ring describes one of the ring's buffers completely. */
    lemma Registered()
      requires Valid()
      ensures Tiles(pool.iovecs[..], pool.buf.Length) && Tiles(ring.bufs[..], |rmem|)
      ensures forall j :: 0 <= j < ring.br.Length ==>
                && ring.br[j].bid < ring.bufs.Length
                && ring.bufs[ring.br[j].bid] == Iovec(ring.br[j].addr, ring.br[j].len)
    {
      ReachableInv(c, System());
      pool.Registered();
      ring.Laid(|rmem|);
      forall j | 0 <= j < ring.br.Length
        ensures ring.br[j].bid < ring.bufs.Length
                && ring.bufs[ring.br[j].bid] == Iovec(ring.br[j].addr, ring.br[j].len)
      {
        assert System().a.ring.slots[j] == ring.br[j];
      }
    }

    /** What a sound context guarantees about its own memory. */
    lemma SoundMemory()
      requires Valid()
      ensures status != Faulted(WildAccess) && status != Faulted(DoublePut)
      ensures Chain(pool.freelistMem[..], pool.freelistHead, pool.free) && Distinct(pool.free)
      ensures forall q :: (q in sq || q in kernel.active) && q.req.Write? ==>
                && (q.req.bid + 1) * BUFSIZE <= pool.buf.Length && q.req.bid !in pool.free
                && Slice(pool.buf[..], BUFSIZE, q.req.bid) == q.req.image
    {
      var s := System();
      ReachableInv(c, s);
      FreeIsDistinct(c, s);
      forall q | (q in sq || q in kernel.active) && q.req.Write?
        ensures (q.req.bid + 1) * BUFSIZE <= pool.buf.Length && q.req.bid !in pool.free
                && Slice(pool.buf[..], BUFSIZE, q.req.bid) == q.req.image
      {
        SqeOutstanding(s, q);
        OneOwner(c, s, q.req.bid);
        assert Intact(s.a.mem, q.req);
      }
    }

    // ---- log_event ----

    /** bufpool_pop, the null check and the formatting. */
    method LogFormat(level: Level, stamp: string, text: string, ghost pad: nat) returns (bid: nat, line: string)
      requires Valid() && status == Running && todo != [] && todo[0] == LogPop(level, stamp, text, pad)
      modifies this`status, this`todo, this`hist, pool`freelistHead, pool`free, pool.buf
      ensures Valid()
      ensures System() == old(System()).(a := StepOp(c, old(System().a)))
      ensures status == Running ==> todo == [LogQueue(bid, line, pad)] + old(todo)[1..]
    {
      OpReady(c, System());
      bid, line := 0, "";
      var regbuf := PopNode();
      if regbuf == Null {
        status := Aborted(PoolEmpty);
        return;
      }
      bid, line := FormatInto(regbuf.i, level, stamp, text);
      todo := [LogQueue(bid, line, pad)] + todo[1..];
      hist := hist.(logs := hist.logs + [level]);
    }

    method PopNode() returns (p: Ptr)
      requires Represented()
      modifies pool`freelistHead, pool`free
      ensures Represented()
      ensures p == Null ==> old(pool.free) == [] == pool.free
      ensures p != Null ==> old(pool.free) != [] && p.i == old(pool.free)[0] && p.i < c.pool
      ensures p != Null ==> pool.free == old(pool.free)[1..]
    {
      p := pool.Pop();
    }

    /** The line is printed where the popped node's iovec says. */
    method FormatInto(node: nat, level: Level, stamp: string, text: string) returns (bid: nat, line: string)
      requires Represented() && node < pool.freelistMem.Length == c.pool <= U16
      requires (node + 1) * BUFSIZE <= pool.buf.Length
      modifies pool.buf
      ensures Represented()
      ensures bid == node && line == Line(stamp, node, level, text)
      ensures var was := old(pool.buf[..]);
              pool.buf[..] == Store(was, node * BUFSIZE, Print(Slice(was, BUFSIZE, node), line))
    {
      var regbuf := pool.freelistMem[node];
      var logBuf := pool.iovecs[regbuf.iov].base;
      bid := regbuf.bid;
      line := Line(stamp, bid, level, text);
      assert pool.buf[logBuf..logBuf + BUFSIZE] == Slice(pool.buf[..], BUFSIZE, node);
      Snprintf(pool.buf, logBuf, line);
    }

    /** io_uring_get_sqe: null when every entry is reserved and unconsumed. */
    method GetSqe() returns (found: bool)
      ensures found <==> |sq| < c.depth
    {
      found := |sq| < c.depth;
    }

    /** io_uring_prep_write_fixed on the formatted buffer, tagged with its bid. */
    method LogSubmit(bid: nat, line: string, pad: nat)
      requires Valid() && status == Running && todo != [] && todo[0] == LogQueue(bid, line, pad)
      modifies this`status, this`todo, this`sq
      ensures Valid()
      ensures System() == old(System()).(a := StepOp(c, old(System().a)))
    {
      OpReady(c, System());
      var sqe := GetSqe();
      if !sqe {
        status := Aborted(NoSqe);
        return;
      }
      var image := pool.buf[bid * BUFSIZE..(bid + 1) * BUFSIZE];
      sq := sq + [Sqe(Write(bid, |line|, line, image), Encode(bid, OP_WRITE_FIXED, pad))];
      todo := todo[1..];
    }

    /** log_event: the two steps of the model, or the first one if it stops the run. */
    method LogEvent(level: Level, stamp: string, text: string, pad: nat)
      requires Valid() && status == Running && todo != [] && todo[0] == LogPop(level, stamp, text, pad)
      modifies this`status, this`todo, this`hist, this`sq, pool`freelistHead, pool`free, pool.buf
      ensures Valid()
      ensures System() == old(System()).(a := LogSteps(c, old(System().a)))
      ensures Carry(c, old(System().a)) == Carry(c, System().a)
      ensures status == Running ==> todo == old(todo)[1..]
      ensures status == Running ==>
                && |sq| == |old(sq)| + 1 && sq[..|old(sq)|] == old(sq)
                && EntryMeets(sq[|old(sq)|], Logging(level, stamp, text))
    {
      LogAnswers(c, System());
      CarryPastLog(c, System().a);
      var bid, line := LogFormat(level, stamp, text, pad);
      if status == Running {
        LogSubmit(bid, line, pad);
      }
    }

    // ---- the handlers' own requests ----

    /** The accept request of start-up, the one request whose entry is checked. */
    method QueueAcceptRequest(sock: nat, pad: nat)
      requires Valid() && status == Running && todo != [] && todo[0] == QueueAccept(sock, pad)
      modifies this`status, this`todo, this`sq
      ensures Valid()
      ensures System() == old(System()).(a := StepOp(c, old(System().a)))
    {
      OpReady(c, System());
      var sqe := GetSqe();
      if !sqe {
        status := Aborted(NoSqe);
        return;
      }
      sq := sq + [Sqe(Accept(sock), Encode(sock, OP_ACCEPT, pad))];
      todo := todo[1..];
    }

    /** A missing entry is dereferenced: the run ends in a fault. */
    method QueueRecvRequest(clientfd: nat, pad: nat)
      requires Valid() && status == Running && todo != [] && todo[0] == QueueRecv(clientfd, pad)
      modifies this`status, this`todo, this`sq, this`hist
      ensures Valid()
      ensures System() == old(System()).(a := StepOp(c, old(System().a)))
    {
      OpReady(c, System());
      var sqe := GetSqe();
      if !sqe {
        status := Faulted(NullSqe);
        return;
      }
      sq := sq + [Sqe(Recv(clientfd), Encode(clientfd, OP_RECVMSG, pad))];
      todo := todo[1..];
      hist := hist.(armed := hist.armed + [clientfd]);
    }

    method QueueSendRequest(fd: nat, pad: nat)
      requires Valid() && status == Running && todo != [] && todo[0] == QueueSend(fd, pad)
      modifies this`status, this`todo, this`sq, this`hist
      ensures Valid()
      ensures System() == old(System()).(a := StepOp(c, old(System().a)))
    {
      OpReady(c, System());
      var sqe := GetSqe();
      if !sqe {
        status := Faulted(NullSqe);
        return;
      }
      sq := sq + [Sqe(Send(fd, 2), Encode(fd, OP_SENDMSG, pad))];
      todo := todo[1..];
      hist := hist.(sent := hist.sent + [fd]);
    }

    /** The message is read where the completion says it is. */
    method Read(bid: nat, len: nat, ghost fd: nat, ghost origin: Request, ghost payload: seq<char>)
      returns (message: seq<char>)
      requires Valid() && status == Running && todo != [] && todo[0] == ReadPacket(bid, len, fd, origin, payload)
      modifies this`todo, this`hist
      ensures Valid()
      ensures System() == old(System()).(a := StepOp(c, old(System().a)))
      ensures |message| == len && hist.received != [] && hist.received[|hist.received| - 1].read == message
    {
      OpReady(c, System());
      SliceBounds(bid, c.entrySize, c.entries);
      message := rmem[bid * c.entrySize..(bid + 1) * c.entrySize][..len];
      var peer := if origin.Recv? then origin.fd else 0;
      hist := hist.(received := hist.received + [Packet(fd, peer, payload, message)]);
      todo := todo[1..];
    }

    /** io_uring_buf_ring_add of the picked buffer, at the offset the policy passes. */
    method RecycleAdd(bid: nat)
      requires Valid() && status == Running && todo != [] && todo[0] == RingAdd(bid)
      modifies this`todo, ring.br
      ensures Valid()
      ensures System() == old(System()).(a := StepOp(c, old(System().a)))
      ensures todo == [RingAdvance(bid)] + old(todo)[1..]
    {
      OpReady(c, System());
      ring.Add(ring.bufs[bid].base, ring.bufs[bid].len, bid, ring.br.Length - 1, Offset(c, bid));
      todo := [RingAdvance(bid)] + todo[1..];
    }

    method RecycleAdvance(ghost bid: nat)
      requires Valid() && status == Running && todo != [] && todo[0] == RingAdvance(bid)
      modifies this`todo, this`hist, ring`tail
      ensures Valid()
      ensures System() == old(System()).(a := StepOp(c, old(System().a)))
    {
      OpReady(c, System());
      ring.Advance(1);
      todo := todo[1..];
      hist := hist.(recycled := hist.recycled + [bid]);
    }

    method PutBuffer(bid: nat)
      requires Valid() && status == Running && todo != [] && todo[0] == Put(bid)
      modifies this`todo, this`hist, pool`freelistHead, pool`free, pool.freelistMem
      ensures Valid()
      ensures System() == old(System()).(a := StepOp(c, old(System().a)))
    {
      OpReady(c, System());
      pool.Put(bid);
      todo := todo[1..];
      hist := hist.(returned := hist.returned + [bid]);
    }

    /** io_uring_submit: every reserved entry is published, or the program stops. */
    method SubmitAll(ok: bool)
      requires Valid() && status == Running && todo != [] && todo[0] == Submit(ok)
      modifies this`status, this`todo, this`submitted
      ensures Valid()
      ensures System() == old(System()).(a := StepOp(c, old(System().a)))
    {
      OpReady(c, System());
      if !ok {
        status := Aborted(SyscallFailed);
        return;
      }
      submitted := |sq|;
      todo := todo[1..];
    }

    // ---- one completion ----

    /** The completion at the head of the queue is the loop's now. */
    method Begin(ghost ops: seq<Op>, ghost h: History)
      requires kernel.cq != []
      modifies this`kernel, this`todo, this`hist
      ensures System() == old(System()).(a := old(System().a).(todo := ops, hist := h),
                                         k := old(System().k).(cq := old(System().k.cq)[1..]))
    {
      kernel := kernel.(cq := kernel.cq[1..]);
      todo, hist := ops, h;
    }

    /** appctx_handle_accept. */
    method HandleAccept(cqe: Cqe, e: Env)
      requires Valid() && status == Running && todo == []
      requires kernel.cq != [] && cqe == kernel.cq[0] && Decode(cqe.ud).op == OP_ACCEPT
      modifies this`status, this`kernel, this`todo, this`hist, this`sq, pool`freelistHead, pool`free, pool.buf
      ensures Valid()
      ensures var s := NextDispatch(old(System()), e); System() == s.(a := Carry(c, s.a))
      ensures status == Running ==> Answered(old(sq), sq, WantsOf(cqe, e))
    {
      DispatchReady(c, System(), e);
      HandlerAnswers(c, System(), e);
      var clientfd := cqe.res;
      if clientfd < 0 {
        status := Aborted(BadResult);
        CarryStops(c, System().a);
        return;
      }
      Begin(AcceptOps(clientfd, e),
            hist.(handled := hist.handled + 1, accepted := hist.accepted + [clientfd]));
      TakeOn(clientfd, e);
    }

    /** Arm the connection and log it. */
    method TakeOn(clientfd: nat, e: Env)
      requires Valid() && status == Running && todo == AcceptOps(clientfd, e)
      modifies this`status, this`todo, this`hist, this`sq, pool`freelistHead, pool`free, pool.buf
      ensures Valid()
      ensures System() == old(System()).(a := Carry(c, old(System().a)))
    {
      CarryUnfolds(c, System().a);
      QueueRecvRequest(clientfd, e.reqPad);
      if status == Running {
        LogEvent(Debug, e.stamp, e.text, e.logPad);
      }
      CarryStops(c, System().a);
    }

    /** appctx_handle_recvmsg. */
    method HandleRecvmsg(cqe: Cqe, e: Env)
      requires Valid() && status == Running && todo == []
      requires kernel.cq != [] && cqe == kernel.cq[0] && Decode(cqe.ud).op == OP_RECVMSG
      modifies this`status, this`kernel, this`todo, this`hist, this`sq, pool`freelistHead, pool`free, pool.buf,
               ring.br, ring`tail
      ensures Valid()
      ensures var s := NextDispatch(old(System()), e); System() == s.(a := Carry(c, s.a))
      ensures status == Running ==> Answered(old(sq), sq, WantsOf(cqe, e))
    {
      DispatchReady(c, System(), e);
      HandlerAnswers(c, System(), e);
      var ud := Decode(cqe.ud);
      var bid := cqe.flags / BUFFER_SHIFT;
      var msglen := cqe.res;
      if msglen < 0 || !e.valid {
        status := Aborted(if msglen < 0 then BadResult else InvalidMessage);
        CarryStops(c, System().a);
        return;
      }
      Begin(RecvOps(ud.fd, bid, msglen, cqe, e), hist.(handled := hist.handled + 1));
      AnswerMessage(ud.fd, bid, msglen, cqe, e);
    }

    /** Read and log the message, recycle its buffer, reply. */
    method AnswerMessage(fd: nat, bid: nat, msglen: nat, cqe: Cqe, e: Env)
      requires Valid() && status == Running && todo == RecvOps(fd, bid, msglen, cqe, e)
      modifies this`status, this`todo, this`hist, this`sq, pool`freelistHead, pool`free, pool.buf, ring.br, ring`tail
      ensures Valid()
      ensures System() == old(System()).(a := Carry(c, old(System().a)))
    {
      CarryUnfolds(c, System().a);
      var message := Read(bid, msglen, fd, cqe.origin, cqe.payload);
      LogEvent(Debug, e.stamp, e.text, e.logPad);
      if status == Running {
        RecycleAndReply(fd, bid, e);
      } else {
        CarryStops(c, System().a);
      }
    }

    method RecycleAndReply(fd: nat, bid: nat, e: Env)
      requires Valid() && status == Running && todo == [RingAdd(bid), QueueSend(fd, e.reqPad), Submit(e.submitOk)]
      modifies this`status, this`todo, this`hist, this`sq, ring.br, ring`tail
      ensures Valid()
      ensures System() == old(System()).(a := Carry(c, old(System().a)))
    {
      Recycle(bid);
      CarryUnfolds(c, System().a);
      QueueSendRequest(fd, e.reqPad);
      CarryStops(c, System().a);
    }

    /** The recycle: an add, then an advance by one. */
    method Recycle(bid: nat)
      requires Valid() && status == Running && todo != [] && todo[0] == RingAdd(bid)
      modifies this`todo, this`hist, ring.br, ring`tail
      ensures Valid()
      ensures status == Running && System().k == old(System()).k && todo == old(todo)[1..]
      ensures Carry(c, old(System().a)) == Carry(c, System().a)
    {
      CarryUnfolds(c, System().a);
      RecycleAdd(bid);
      CarryUnfolds(c, System().a);
      RecycleAdvance(bid);
      assert todo == old(todo)[1..];
    }

    /** One iteration of run_event_loop with a completion at hand: dispatch, then submit. */
    method Iterate(e: Env)
      requires Valid() && status == Running && todo == [] && kernel.cq != []
      modifies this`status, this`kernel, this`todo, this`hist, this`sq, this`submitted,
               pool`freelistHead, pool`free, pool.buf, pool.freelistMem, ring.br, ring`tail
      ensures Valid()
      ensures var s := NextDispatch(old(System()), e); System() == s.(a := Finish(c, s.a))
      ensures status == Running ==> todo == [] && Answered(old(sq), sq, WantsOf(old(kernel.cq)[0], e))
    {
      ghost var s := NextDispatch(System(), e);
      if Finish(c, s.a).status == Running { IterationAnswers(c, System(), e); }
      FinishAfterCarry(c, s.a);
      DispatchCqe(e);
      CarryEnds(c, old(System()), e);
      CloseIteration(e.submitOk);
    }

    /** The switch on the decoded op, up to the submit. */
    method DispatchCqe(e: Env)
      requires Valid() && status == Running && todo == [] && kernel.cq != []
      modifies this`status, this`kernel, this`todo, this`hist, this`sq,
               pool`freelistHead, pool`free, pool.buf, pool.freelistMem, ring.br, ring`tail
      ensures Valid()
      ensures var s := NextDispatch(old(System()), e); System() == s.(a := Carry(c, s.a))
    {
      var cqe := kernel.cq[0];
      var ud := Decode(cqe.ud);
      if ud.op == OP_WRITE_FIXED {
        HandleWriteFixed(cqe, e);
      } else if ud.op == OP_ACCEPT {
        HandleAccept(cqe, e);
      } else if ud.op == OP_RECVMSG {
        HandleRecvmsg(cqe, e);
      } else {
        DispatchReady(c, System(), e);
        Begin([Submit(e.submitOk)], hist.(handled := hist.handled + 1));
        CarryStops(c, System().a);
      }
    }

    /** The bid in the tag goes back to the pool. */
    method HandleWriteFixed(cqe: Cqe, e: Env)
      requires Valid() && status == Running && todo == []
      requires kernel.cq != [] && cqe == kernel.cq[0] && Decode(cqe.ud).op == OP_WRITE_FIXED
      modifies this`kernel, this`todo, this`hist, pool`freelistHead, pool`free, pool.freelistMem
      ensures Valid()
      ensures var s := NextDispatch(old(System()), e); System() == s.(a := Carry(c, s.a))
    {
      DispatchReady(c, System(), e);
      var bid := Decode(cqe.ud).fd % U16;
      Begin([Put(bid), Submit(e.submitOk)], hist.(handled := hist.handled + 1));
      CarryUnfolds(c, System().a);
      PutBuffer(bid);
      CarryStops(c, System().a);
    }

    method CloseIteration(ok: bool)
      requires Valid() && (status != Running || todo == [Submit(ok)])
      modifies this`status, this`todo, this`submitted
      ensures Valid()
      ensures System() == old(System()).(a := Finish(c, old(System().a)))
      ensures status == Running ==> todo == []
    {
      if status == Running {
        FinishUnfolds(c, System().a);
        SubmitAll(ok);
      }
    }

    // ---- start-up and the loop ----

    /** Start-up: the accept request, four log lines, the first submit. */
    method Boot(b: Boot)
      requires Valid() && status == Running && ValidBoot(b) && todo == BootOps(b)
      modifies this`status, this`todo, this`hist, this`sq, this`submitted, pool`freelistHead, pool`free, pool.buf
      ensures Valid()
      ensures System() == old(System()).(a := Finish(c, old(System().a)))
      ensures status == Running ==> Answered(old(sq), sq, StartupWants(b))
    {
      if Finish(c, System().a).status == Running { StartupAnswers(c, System(), b); }
      FinishAfterCarry(c, System().a);
      OpenServer(b);
      CloseIteration(b.submitOk);
    }

    /** Everything before the first submit. */
    method OpenServer(b: Boot)
      requires Valid() && status == Running && ValidBoot(b) && todo == BootOps(b)
      modifies this`status, this`todo, this`hist, this`sq, pool`freelistHead, pool`free, pool.buf
      ensures Valid()
      ensures System() == old(System()).(a := Carry(c, old(System().a)))
      ensures status == Running ==> todo == [Submit(b.submitOk)]
    {
      ghost var ops := BootOps(b);
      BootInOrder(b);
      CarryUnfolds(c, System().a);
      QueueAcceptRequest(b.sock, b.pad);
      Greet(b, 0, ops[2..]);
      Greet(b, 1, ops[3..]);
      Greet(b, 2, ops[4..]);
      Greet(b, 3, ops[5..]);
      CarryStops(c, System().a);
    }

    /** The i-th line logged at start-up, unless the run has stopped. */
    method Greet(b: Boot, i: nat, ghost rest: seq<Op>)
      requires Valid() && ValidBoot(b) && i < 4 && (status == Running ==> todo == [BootLog(b, i)] + rest)
      modifies this`status, this`todo, this`hist, this`sq, pool`freelistHead, pool`free, pool.buf
      ensures Valid()
      ensures System().k == old(System().k) && Carry(c, System().a) == Carry(c, old(System().a))
      ensures status == Running ==> todo == rest
    {
      if status == Running {
        LogEvent(GREETING_LEVELS[i], b.stamps[i], b.texts[i], b.logPads[i]);
      }
    }

    /** One step of the kernel on what it shares with the program. */
    method KernelMove(act: Action)
      requires Valid() && KernelAct(act)
      modifies this`sq, this`submitted, this`kernel, this`rmem
      ensures Valid()
      ensures System() == Apply(c, old(System()), act)
    {
      KernelSeesShared(c, System(), act);
      ReachableStep(c, System(), act);
      var s := State(App([], pool.buf[..], rmem, ring.Value(), sq, submitted, [], status, EmptyHistory()), kernel);
      var t := Apply(c, s, act);
      sq, submitted, rmem, kernel := t.a.sq, t.a.submitted, t.a.rmem, t.k;
    }

    /** run_event_loop, for as many turns as the schedule has: in each the kernel takes any steps, and a
        completion that waits is handled. The state it stops in is the one the schedule determines, and one
        a run of the model reaches, so everything proved of runs holds of the heap. Undisturbed by the
        kernel, it handles one completion a turn, oldest first, until none is left. */
    method RunEventLoop(turns: seq<Turn>)
      requires Valid() && (status == Running ==> todo == [])
      requires forall i :: 0 <= i < |turns| ==> KernelTurn(turns[i])
      modifies this`status, this`kernel, this`todo, this`hist, this`sq, this`submitted, this`rmem,
               pool`freelistHead, pool`free, pool.buf, pool.freelistMem, ring.br, ring`tail
      ensures Valid()
      ensures System() == AfterTurns(c, old(System()), turns)
      ensures LeadsTo(c, old(System()), System())
      ensures status == Running ==> todo == [] && hist.handled == old(hist.handled) + Busy(c, old(System()), turns)
      ensures status == Running && (forall i :: 0 <= i < |turns| ==> turns[i].acts == []) ==>
                && hist.handled == old(hist.handled) + Min(|turns|, |old(kernel.cq)|)
                && kernel.cq == old(kernel.cq)[Min(|turns|, |old(kernel.cq)|)..]
    {
      LoopHandles(c, System(), turns);
      RunTurns(turns);
    }

    method RunTurns(turns: seq<Turn>)
      requires Valid() && (status == Running ==> todo == [])
      requires forall i :: 0 <= i < |turns| ==> KernelTurn(turns[i])
      modifies this`status, this`kernel, this`todo, this`hist, this`sq, this`submitted, this`rmem,
               pool`freelistHead, pool`free, pool.buf, pool.freelistMem, ring.br, ring`tail
      ensures Valid()
      ensures System() == AfterTurns(c, old(System()), turns)
      ensures status == Running ==> todo == []
    {
      ghost var start := System();
      for i := 0 to |turns|
        invariant Valid() && System() == AfterTurns(c, start, turns[..i])
        invariant status == Running ==> todo == []
      {
        TurnsOneMore(c, start, turns, i);
        TakeTurn(turns[i]);
      }
      assert turns[..|turns|] == turns;
    }

    /** One wait: the kernel moves, and a completion, if there is one, is handled. */
    method TakeTurn(turn: Turn)
      requires Valid() && (status == Running ==> todo == []) && KernelTurn(turn)
      modifies this`status, this`kernel, this`todo, this`hist, this`sq, this`submitted, this`rmem,
               pool`freelistHead, pool`free, pool.buf, pool.freelistMem, ring.br, ring`tail
      ensures Valid()
      ensures System() == AfterTurn(c, old(System()), turn)
      ensures status == Running ==> todo == []
      ensures var u := Exec(c, old(System()), turn.acts);
              if u.a.status != Running || (turn.waitOk && u.k.cq == []) then System() == u
              else if !turn.waitOk then status == Aborted(SyscallFailed)
              else status == Running ==>
                     kernel.cq == u.k.cq[1..] && hist.handled == old(hist.handled) + 1 && submitted == |sq|
    {
      TurnHandlesOne(c, System(), turn);
      KernelTurns(turn.acts);
      if status == Running {
        if !turn.waitOk {
          WaitFailed();
        } else if kernel.cq != [] {
          Iterate(turn.e);
        }
      }
    }

    /** io_uring_wait_cqe returned an error: the program stops. */
    method WaitFailed()
      requires Valid() && status == Running && todo == []
      modifies this`status
      ensures Valid()
      ensures System() == Apply(c, old(System()), WaitFails) && status == Aborted(SyscallFailed)
    {
      ReachableStep(c, System(), WaitFails);
      status := Aborted(SyscallFailed);
    }

    method KernelTurns(acts: seq<Action>)
      requires Valid() && forall j :: 0 <= j < |acts| ==> KernelAct(acts[j])
      modifies this`sq, this`submitted, this`kernel, this`rmem
      ensures Valid()
      ensures System() == Exec(c, old(System()), acts)
    {
      for j := 0 to |acts|
        invariant Valid() && System() == Exec(c, old(System()), acts[..j])
      {
        KernelMove(acts[j]);
        ExecLast(c, old(System()), acts[..j], acts[j]);
        assert acts[..j + 1] == acts[..j] + [acts[j]];
      }
      assert acts[..|acts|] == acts;
    }
  }
}
