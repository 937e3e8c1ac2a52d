/** The server and the kernel as one step system.

    The application's state carries `todo`, the operations left in the start-up sequence or in the
    handler of the current completion, so kernel steps interleave with every single operation.
    `hist`, `picked`, `finished`, `emitted`, `consumed`, `posted`, `origin`, `line`, `image`, `payload`
    record what happened; no step's choice depends on them. */
module Model {
  import opened Bits
  import opened Seqs
  import opened Geometry
  import opened UserData
  import opened LogLine
  import opened RingSpec

  /** Where a recycled buffer is written, relative to the tail: the manual's offset 0, or the
      buffer id, as the program passes. */
  datatype Policy = Manual | AsWritten

  datatype Config = Config(pool: nat, entries: nat, entrySize: nat, depth: nat, policy: Policy)

  ghost predicate ValidConfig(c: Config) {
    c.pool <= U16 && Entries(c.entries)
  }

  function Offset(c: Config, bid: nat): nat {
    if c.policy == Manual then 0 else bid
  }

  // ---- requests and completions ----

  datatype Request =
    | Accept(sock: nat)
    | Recv(fd: nat)
    | Write(bid: nat, len: nat, line: string, image: seq<char>)
    | Send(fd: nat, left: nat)

  datatype Sqe = Sqe(req: Request, ud: nat)

  datatype Cqe = Cqe(ud: nat, res: int, flags: nat, origin: Request, payload: seq<char>)

  const BUFFER_SHIFT := 0x1_0000  // flags >> 16

  // ---- the application ----

  datatype Cause = PoolEmpty | NoSqe | BadResult | InvalidMessage | SyscallFailed
  datatype Fault = NullSqe | WildAccess | DoublePut
  datatype Status = Running | Aborted(cause: Cause) | Faulted(fault: Fault)

  datatype Op =
    | QueueAccept(sock: nat, pad: nat)
    | LogPop(level: Level, stamp: string, text: string, pad: nat)
    | LogQueue(bid: nat, line: string, pad: nat)
    | QueueRecv(fd: nat, pad: nat)
    | QueueSend(fd: nat, pad: nat)
    | ReadPacket(bid: nat, len: nat, fd: nat, origin: Request, payload: seq<char>)
    | RingAdd(bid: nat)
    | RingAdvance(bid: nat)
    | Put(bid: nat)
    | Submit(ok: bool)

  datatype Packet = Packet(fd: nat, peer: nat, delivered: seq<char>, read: seq<char>)

  datatype History = History(accepted: seq<nat>, armed: seq<nat>, received: seq<Packet>, sent: seq<nat>,
                             logs: seq<Level>, returned: seq<nat>, recycled: seq<nat>, handled: nat)

  datatype App = App(free: seq<nat>, mem: seq<char>, rmem: seq<char>, ring: Ring,
                     sq: seq<Sqe>, submitted: nat, todo: seq<Op>, status: Status, hist: History)

  function Stop(a: App, s: Status): App {
    a.(status := s)
  }

  function Enqueue(a: App, q: Sqe): App
    requires a.todo != []
  {
    a.(sq := a.sq + [q], todo := a.todo[1..])
  }

  /** bufpool_pop and the formatting half of log_event. */
  function DoLogPop(a: App, level: Level, stamp: string, text: string, pad: nat): App
    requires a.todo != []
  {
    if a.free == [] then Stop(a, Aborted(PoolEmpty))
    else
      var bid := a.free[0];
      if (bid + 1) * BUFSIZE > |a.mem| then Stop(a, Faulted(WildAccess))
      else
        var line := Line(stamp, bid, level, text);
        a.(free := a.free[1..],
           mem := Store(a.mem, bid * BUFSIZE, Print(Slice(a.mem, BUFSIZE, bid), line)),
           hist := a.hist.(logs := a.hist.logs + [level]),
           todo := [LogQueue(bid, line, pad)] + a.todo[1..])
  }

  /** The queueing half of log_event. */
  function DoLogQueue(c: Config, a: App, bid: nat, line: string, pad: nat): App
    requires a.todo != []
  {
    if |a.sq| >= c.depth then Stop(a, Aborted(NoSqe))
    else if (bid + 1) * BUFSIZE > |a.mem| then Stop(a, Faulted(WildAccess))
    else Enqueue(a, Sqe(Write(bid, |line|, line, Slice(a.mem, BUFSIZE, bid)), Encode(bid, OP_WRITE_FIXED, pad)))
  }

  function DoQueueAccept(c: Config, a: App, sock: nat, pad: nat): App
    requires a.todo != []
  {
    if |a.sq| >= c.depth then Stop(a, Aborted(NoSqe))
    else Enqueue(a, Sqe(Accept(sock), Encode(sock, OP_ACCEPT, pad)))
  }

  /** The handler does not check io_uring_get_sqe for null. */
  function DoQueueRecv(c: Config, a: App, fd: nat, pad: nat): App
    requires a.todo != []
  {
    if |a.sq| >= c.depth then Stop(a, Faulted(NullSqe))
    else Enqueue(a, Sqe(Recv(fd), Encode(fd, OP_RECVMSG, pad))).(hist := a.hist.(armed := a.hist.armed + [fd]))
  }

  /** Nor does this one. A zero-copy send may complete twice. */
  function DoQueueSend(c: Config, a: App, fd: nat, pad: nat): App
    requires a.todo != []
  {
    if |a.sq| >= c.depth then Stop(a, Faulted(NullSqe))
    else Enqueue(a, Sqe(Send(fd, 2), Encode(fd, OP_SENDMSG, pad))).(hist := a.hist.(sent := a.hist.sent + [fd]))
  }

  /** The handler reads the message in the buffer the completion names. */
  function DoReadPacket(c: Config, a: App, bid: nat, len: nat, fd: nat, origin: Request, payload: seq<char>): App
    requires a.todo != []
  {
    if bid >= c.entries || len > c.entrySize || (bid + 1) * c.entrySize > |a.rmem| then
      Stop(a, Faulted(WildAccess))
    else
      var peer := if origin.Recv? then origin.fd else 0;
      var packet := Packet(fd, peer, payload, Slice(a.rmem, c.entrySize, bid)[..len]);
      a.(hist := a.hist.(received := a.hist.received + [packet]), todo := a.todo[1..])
  }

  function DoRingAdd(c: Config, a: App, bid: nat): App
    requires a.todo != []
  {
    if bid >= |a.ring.slots| then Stop(a, Faulted(WildAccess))
    else a.(ring := Add(a.ring, BufferOf(bid, c.entrySize), Offset(c, bid)),
            todo := [RingAdvance(bid)] + a.todo[1..])
  }

  function DoRingAdvance(a: App, bid: nat): App
    requires a.todo != []
  {
    a.(ring := Advance(a.ring, 1), hist := a.hist.(recycled := a.hist.recycled + [bid]), todo := a.todo[1..])
  }

  /** bufpool_put. The pool checks nothing; a node that is already listed, or no node at all, is
      the failure the protocol has to rule out. */
  function DoPut(c: Config, a: App, bid: nat): App
    requires a.todo != []
  {
    if bid >= c.pool then Stop(a, Faulted(WildAccess))
    else if bid in a.free then Stop(a, Faulted(DoublePut))
    else a.(free := [bid] + a.free, hist := a.hist.(returned := a.hist.returned + [bid]), todo := a.todo[1..])
  }

  function DoSubmit(a: App, ok: bool): App
    requires a.todo != []
  {
    if !ok then Stop(a, Aborted(SyscallFailed))
    else a.(submitted := |a.sq|, todo := a.todo[1..])
  }

  /** One operation of the current handler. */
  function StepOp(c: Config, a: App): App
    requires a.todo != []
  {
    match a.todo[0]
    case QueueAccept(sock, pad) => DoQueueAccept(c, a, sock, pad)
    case LogPop(level, stamp, text, pad) => DoLogPop(a, level, stamp, text, pad)
    case LogQueue(bid, line, pad) => DoLogQueue(c, a, bid, line, pad)
    case QueueRecv(fd, pad) => DoQueueRecv(c, a, fd, pad)
    case QueueSend(fd, pad) => DoQueueSend(c, a, fd, pad)
    case ReadPacket(bid, len, fd, origin, payload) => DoReadPacket(c, a, bid, len, fd, origin, payload)
    case RingAdd(bid) => DoRingAdd(c, a, bid)
    case RingAdvance(bid) => DoRingAdvance(a, bid)
    case Put(bid) => DoPut(c, a, bid)
    case Submit(ok) => DoSubmit(a, ok)
  }

  // ---- dispatch ----

  /** What the outside decides while one completion is handled. */
  datatype Env = Env(valid: bool, submitOk: bool, stamp: string, text: string, reqPad: nat, logPad: nat)

  function AcceptOps(clientfd: nat, e: Env): seq<Op> {
    [QueueRecv(clientfd, e.reqPad), LogPop(Debug, e.stamp, e.text, e.logPad), Submit(e.submitOk)]
  }

  function RecvOps(fd: nat, bid: nat, len: nat, cqe: Cqe, e: Env): seq<Op> {
    [ReadPacket(bid, len, fd, cqe.origin, cqe.payload), LogPop(Debug, e.stamp, e.text, e.logPad), RingAdd(bid),
     QueueSend(fd, e.reqPad), Submit(e.submitOk)]
  }

  /** One completion taken by the event loop: the switch on the decoded op. */
  function Handle(a: App, cqe: Cqe, e: Env): App {
    var tag := Decode(cqe.ud);
    var h := a.hist.(handled := a.hist.handled + 1);
    if tag.op == OP_WRITE_FIXED then
      a.(hist := h, todo := [Put(tag.fd % U16), Submit(e.submitOk)])
    else if tag.op == OP_ACCEPT then
      if cqe.res < 0 then Stop(a, Aborted(BadResult))
      else a.(hist := h.(accepted := h.accepted + [cqe.res]), todo := AcceptOps(cqe.res, e))
    else if tag.op == OP_RECVMSG then
      if cqe.res < 0 then Stop(a, Aborted(BadResult))
      else if !e.valid then Stop(a, Aborted(InvalidMessage))
      else a.(hist := h, todo := RecvOps(tag.fd, cqe.flags / BUFFER_SHIFT, cqe.res, cqe, e))
    else
      a.(hist := h, todo := [Submit(e.submitOk)])
  }

  // ---- the kernel ----

  datatype Emission = Emission(bid: nat, res: int, data: seq<char>, line: string)

  /** `consumed` and `posted` are all entries ever taken from the submission queue and all completions
      ever put into the completion queue. */
  datatype Kernel = Kernel(head: nat, active: seq<Sqe>, cq: seq<Cqe>, picked: seq<nat>, finished: seq<nat>,
                           emitted: seq<Emission>, consumed: seq<Sqe>, posted: seq<Cqe>)

  datatype State = State(a: App, k: Kernel)

  datatype Action =
    | Dispatch(e: Env)
    | WaitFails
    | RunOp
    | Consume
    | CompleteAccept(i: nat, res: int, more: bool)
    | CompleteRecv(i: nat, payload: seq<char>, more: bool)
    | FailRecv(i: nat, res: int)
    | CompleteWrite(i: nat, n: nat)
    | CompleteSend(i: nat, res: int, more: bool)

  /** Post a completion of request i, which stays active or not. */
  function Post(k: Kernel, i: nat, stays: bool, cqe: Cqe): Kernel
    requires i < |k.active|
  {
    k.(active := if stays then k.active else RemoveAt(k.active, i), cq := k.cq + [cqe], posted := k.posted + [cqe])
  }

  predicate CanPick(s: State, len: nat) {
    && |s.a.ring.slots| > 0
    && Count(s.a.ring, s.k.head) > 0
    && var slot := s.a.ring.slots[s.k.head % |s.a.ring.slots|];
       len <= slot.len && slot.addr + len <= |s.a.rmem|
  }

  predicate Enabled(c: Config, s: State, act: Action) {
    && s.a.status == Running
    && match act
       case Dispatch(e) => s.a.todo == [] && s.k.cq != []
       case WaitFails => s.a.todo == []
       case RunOp => s.a.todo != []
       case Consume => s.a.submitted > 0 && s.a.sq != []
       case CompleteAccept(i, res, more) => i < |s.k.active| && s.k.active[i].req.Accept?
       case CompleteRecv(i, payload, more) => i < |s.k.active| && s.k.active[i].req.Recv? && CanPick(s, |payload|)
       case FailRecv(i, res) => i < |s.k.active| && s.k.active[i].req.Recv? && res < 0
       case CompleteWrite(i, n) => i < |s.k.active| && s.k.active[i].req.Write?
       case CompleteSend(i, res, more) => i < |s.k.active| && s.k.active[i].req.Send?
  }

  /** The kernel's own actions: everything the program does not do. */
  predicate KernelAct(act: Action) {
    !act.Dispatch? && !act.WaitFails? && !act.RunOp?
  }

  function NextDispatch(s: State, e: Env): State
    requires s.k.cq != []
  {
    var a := Handle(s.a, s.k.cq[0], e);
    if a.status == Running then State(a, s.k.(cq := s.k.cq[1..])) else State(a, s.k)
  }

  function NextConsume(s: State): State
    requires s.a.submitted > 0 && s.a.sq != []
  {
    State(s.a.(sq := s.a.sq[1..], submitted := s.a.submitted - 1),
          s.k.(active := s.k.active + [s.a.sq[0]], consumed := s.k.consumed + [s.a.sq[0]]))
  }

  function NextAccept(s: State, i: nat, res: int, more: bool): State
    requires i < |s.k.active|
  {
    var q := s.k.active[i];
    State(s.a, Post(s.k, i, more, Cqe(q.ud, res, if more then 2 else 0, q.req, [])))
  }

  /** The kernel takes the buffer at the head, stores the message there and names it in the flags. */
  function NextRecv(s: State, i: nat, payload: seq<char>, more: bool): State
    requires i < |s.k.active| && CanPick(s, |payload|) && s.k.active[i].req.Recv?
  {
    var q := s.k.active[i];
    var slot := s.a.ring.slots[s.k.head % |s.a.ring.slots|];
    var cqe := Cqe(q.ud, |payload|, slot.bid * BUFFER_SHIFT + 1 + (if more then 2 else 0), q.req, payload);
    State(s.a.(rmem := Store(s.a.rmem, slot.addr, payload)),
          Post(s.k, i, more, cqe).(head := NextHead(s.k.head), picked := s.k.picked + [slot.bid]))
  }

  function NextFailRecv(s: State, i: nat, res: int): State
    requires i < |s.k.active|
  {
    var q := s.k.active[i];
    State(s.a, Post(s.k, i, false, Cqe(q.ud, res, 0, q.req, [])))
  }

  /** A fixed write reads the registered buffer some time before it completes, exactly once. A
      length beyond the buffer fails; a short write is possible. */
  function NextWrite(s: State, i: nat, n: nat): State
    requires i < |s.k.active| && s.k.active[i].req.Write?
  {
    var q := s.k.active[i];
    var w := q.req;
    var ok := w.len <= BUFSIZE && n <= w.len && (w.bid + 1) * BUFSIZE <= |s.a.mem|;
    var data := if ok then Slice(s.a.mem, BUFSIZE, w.bid)[..n] else [];
    var res := if ok then n else -14;
    State(s.a, Post(s.k, i, false, Cqe(q.ud, res, 0, w, []))
               .(finished := s.k.finished + [w.bid], emitted := s.k.emitted + [Emission(w.bid, res, data, w.line)]))
  }

  /** At most two completions: a first one announcing more, then the notification. */
  function NextSend(s: State, i: nat, res: int, more: bool): State
    requires i < |s.k.active| && s.k.active[i].req.Send?
  {
    var q := s.k.active[i];
    var again := more && q.req.left == 2;
    var k := Post(s.k, i, again, Cqe(q.ud, res, if again then 2 else 0, q.req, []));
    State(s.a, if again then k.(active := k.active[i := q.(req := q.req.(left := 1))]) else k)
  }

  function Next(c: Config, s: State, act: Action): State
    requires Enabled(c, s, act)
  {
    match act
    case Dispatch(e) => NextDispatch(s, e)
    case WaitFails => s.(a := Stop(s.a, Aborted(SyscallFailed)))
    case RunOp => s.(a := StepOp(c, s.a))
    case Consume => NextConsume(s)
    case CompleteAccept(i, res, more) => NextAccept(s, i, res, more)
    case CompleteRecv(i, payload, more) => NextRecv(s, i, payload, more)
    case FailRecv(i, res) => NextFailRecv(s, i, res)
    case CompleteWrite(i, n) => NextWrite(s, i, n)
    case CompleteSend(i, res, more) => NextSend(s, i, res, more)
  }

  /** A disabled action changes nothing, so every sequence of actions is a run. */
  function Apply(c: Config, s: State, act: Action): State {
    if Enabled(c, s, act) then Next(c, s, act) else s
  }

  function Exec(c: Config, s: State, acts: seq<Action>): State
    decreases |acts|
  {
    if acts == [] then s else Exec(c, Apply(c, s, acts[0]), acts[1..])
  }

  // ---- start-up ----

  /** What `main` is given: the listening socket, and per start-up line its time stamp and text. */
  datatype Boot = Boot(sock: nat, pad: nat, stamps: seq<string>, texts: seq<string>, logPads: seq<nat>, submitOk: bool)

  predicate ValidBoot(b: Boot) {
    |b.stamps| == 4 && |b.texts| == 4 && |b.logPads| == 4
  }

  const GREETING_LEVELS: seq<Level> := [Debug, Info, Warn, Error]

  function BootLog(b: Boot, i: nat): Op
    requires ValidBoot(b) && i < 4
  {
    LogPop(GREETING_LEVELS[i], b.stamps[i], b.texts[i], b.logPads[i])
  }

  function BootOps(b: Boot): seq<Op>
    requires ValidBoot(b)
  {
    [QueueAccept(b.sock, b.pad), BootLog(b, 0), BootLog(b, 1), BootLog(b, 2), BootLog(b, 3), Submit(b.submitOk)]
  }

  function EmptyHistory(): History {
    History([], [], [], [], [], [], [], 0)
  }

  function EmptyKernel(): Kernel {
    Kernel(0, [], [], [], [], [], [], [])
  }

  /** The state `main` enters with both allocations holding whatever malloc returned. */
  function Init(c: Config, b: Boot, mem: seq<char>, rmem: seq<char>): State
    requires ValidBoot(b)
  {
    State(App(Countdown(c.pool), mem, rmem, InitRing(c.entries, c.entrySize), [], 0, BootOps(b), Running,
              EmptyHistory()),
          EmptyKernel())
  }

  ghost predicate ValidStart(c: Config, b: Boot, mem: seq<char>, rmem: seq<char>) {
    ValidConfig(c) && ValidBoot(b) && |mem| == c.pool * BUFSIZE && |rmem| == c.entries * c.entrySize
  }
}
