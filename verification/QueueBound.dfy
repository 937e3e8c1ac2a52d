/** How full the submission queue can get, whatever the kernel does or leaves undone. */
module QueueBound {
  import opened Bits
  import opened Model
  import opened StateShape
  import opened Tagging
  import opened Ownership
  import opened Ledger
  import opened Runs
  import opened Handlers
  import opened Submission

  // ---- writes balance the other entries ----

  function EntryBalance(q: Sqe): int {
    if q.req.Write? then -1 else 1
  }

  function OpBalance(op: Op): int {
    if op.LogPop? || op.LogQueue? then -1
    else if op.QueueAccept? || op.QueueRecv? || op.QueueSend? then 1
    else 0
  }

  /** Entries that are no writes, less writes. */
  function QueueBalance(qs: seq<Sqe>): int {
    if qs == [] then 0 else EntryBalance(qs[0]) + QueueBalance(qs[1..])
  }

  function TodoBalance(ops: seq<Op>): int {
    if ops == [] then 0 else OpBalance(ops[0]) + TodoBalance(ops[1..])
  }

  lemma {:induction false} QueueBalanceAppend(qs: seq<Sqe>, q: Sqe)
    ensures QueueBalance(qs + [q]) == QueueBalance(qs) + EntryBalance(q)
    decreases |qs|
  {
    if qs != [] {
      assert (qs + [q])[1..] == qs[1..] + [q];
      QueueBalanceAppend(qs[1..], q);
    } else {
      assert qs + [q] == [q];
    }
  }

  /** The length of a queue from its balance and its writes. */
  lemma {:induction false} LengthFromBalance(qs: seq<Sqe>)
    ensures |qs| == QueueBalance(qs) + 2 * |SqeBids(qs)|
    decreases |qs|
  {
    if qs != [] { LengthFromBalance(qs[1..]); }
  }

  lemma WritesFitPool(c: Config, s: State)
    requires Partition(c, s)
    ensures |SqeBids(s.a.sq)| + |TodoBids(s.a.todo)| <= c.pool
  {
    EmptyIffAllOutstanding(c, s);
  }

  // ---- the invariant of the loop ----

  /** Wherever the kernel has got to, what is left of the queue has at most one entry more that is no
      write than it has writes, the handler's share included. */
  ghost predicate Interleaved(a: App) {
    && (forall i :: 0 <= i <= |a.sq| ==> QueueBalance(a.sq[i..]) + TodoBalance(a.todo) <= 1)
    && (forall j :: 0 <= j <= |a.todo| ==> TodoBalance(a.todo[j..]) <= 1)
  }

  /** What a handler of the loop still has to queue when it comes to each of its requests. */
  ghost predicate LoopOrder(todo: seq<Op>) {
    forall j :: 0 <= j < |todo| ==>
      && (todo[j].QueueRecv? || todo[j].QueueSend? ==> TodoBalance(todo[j..]) >= 0)
      && (todo[j].LogPop? || todo[j].LogQueue? ==> TodoBalance(todo[j..]) >= -1)
      && !todo[j].QueueAccept?
  }

  lemma TodoBalanceSplit(ops: seq<Op>)
    requires ops != []
    ensures TodoBalance(ops) == OpBalance(ops[0]) + TodoBalance(ops[1..])
  {
  }

  lemma SuffixOfTail<T>(s: seq<T>, k: nat, j: nat)
    requires k <= |s| && j <= |s| - k
    ensures s[k..][j..] == s[k + j..]
  {
  }

  /** An operation that stays, goes, or makes way for its continuation leaves the todo's tails alone. */
  lemma TailsStep(c: Config, a: App)
    requires a.todo != [] && Interleaved(a)
    ensures var t := StepOp(c, a).todo;
            forall j :: 0 <= j <= |t| ==> TodoBalance(t[j..]) <= 1
    ensures LoopOrder(a.todo) ==> LoopOrder(StepOp(c, a).todo)
    ensures StepOp(c, a).todo == a.todo[1..] || TodoBalance(StepOp(c, a).todo) == TodoBalance(a.todo)
  {
    var t := StepOp(c, a).todo;
    StepTodo(c, a);
    TodoBalanceSplit(a.todo);
    assert a.todo[0..] == a.todo && t[0..] == t;
    assert TodoBalance(a.todo[0..]) <= 1;
    if t != a.todo {
      forall j | 0 <= j <= |a.todo| - 1
        ensures a.todo[1..][j..] == a.todo[j + 1..]
      {
        SuffixOfTail(a.todo, 1, j);
      }
      if t != a.todo[1..] {
        ContinuationBalance(c, a);
        assert TodoBalance(t) == TodoBalance(a.todo);
        forall j | 1 <= j <= |t|
          ensures t[j..] == a.todo[j..]
        {
          SuffixOfTail(t, 1, j - 1);
          SuffixOfTail(a.todo, 1, j - 1);
        }
      }
    }
  }

  lemma ContinuationBalance(c: Config, a: App)
    requires a.todo != [] && StepOp(c, a).todo != a.todo && StepOp(c, a).todo != a.todo[1..]
    ensures var t := StepOp(c, a).todo;
            && t != [] && t[1..] == a.todo[1..] && OpBalance(t[0]) == OpBalance(a.todo[0])
            && ((t[0].LogQueue? && a.todo[0].LogPop?) || (t[0].RingAdvance? && a.todo[0].RingAdd?))
  {
  }

  /** What an operation does to the queue, in balance. */
  lemma QueueStep(c: Config, a: App)
    requires a.todo != []
    ensures var a' := StepOp(c, a);
            || (a'.sq == a.sq && (a'.todo == a.todo[1..] ==> OpBalance(a.todo[0]) == 0))
            || (a'.todo == a.todo[1..] && |a'.sq| == |a.sq| + 1 && a'.sq[..|a.sq|] == a.sq
                && EntryBalance(a'.sq[|a.sq|]) == OpBalance(a.todo[0]))
  {
  }

  /** An entry that moves from the handler's share into the queue keeps every suffix in balance. */
  lemma EnqueueBalances(sq: seq<Sqe>, q: Sqe, share: int)
    requires forall i :: 0 <= i <= |sq| ==> QueueBalance(sq[i..]) + EntryBalance(q) + share <= 1
    requires share <= 1
    ensures forall i :: 0 <= i <= |sq + [q]| ==> QueueBalance((sq + [q])[i..]) + share <= 1
  {
    var sq' := sq + [q];
    forall i | 0 <= i <= |sq'|
      ensures QueueBalance(sq'[i..]) + share <= 1
    {
      if i <= |sq| {
        assert sq'[i..] == sq[i..] + [q];
        QueueBalanceAppend(sq[i..], q);
      } else {
        assert sq'[i..] == [];
      }
    }
  }

  lemma InterleavedOp(c: Config, a: App)
    requires a.todo != [] && Interleaved(a)
    ensures Interleaved(StepOp(c, a))
  {
    var a' := StepOp(c, a);
    TailsStep(c, a);
    QueueStep(c, a);
    TodoBalanceSplit(a.todo);
    if a'.sq != a.sq {
      var q := a'.sq[|a.sq|];
      assert a'.sq == a.sq + [q];
      EnqueueBalances(a.sq, q, TodoBalance(a'.todo));
    }
  }

  /** Every handler of the loop queues as many writes as other entries. */
  lemma HandlerIsBalanced(a: App, x: Cqe, e: Env)
    requires a.todo == []
    ensures var t := HandleRequest(a, x, e).todo;
            && TodoBalance(t) == 0 && LoopOrder(t)
            && forall j :: 0 <= j <= |t| ==> TodoBalance(t[j..]) <= 1
  {
    var t := HandleRequest(a, x, e).todo;
    if x.origin.Accept? && x.res >= 0 {
      AcceptIsBalanced(x.res, e);
    } else if x.origin.Recv? && x.res >= 0 && e.valid {
      RecvIsBalanced(x.origin.fd % U16, x.flags / BUFFER_SHIFT, x.res, x, e);
    } else {
      PlainIsBalanced(t);
    }
  }

  lemma PlainIsBalanced(t: seq<Op>)
    requires |t| <= 2 && forall i :: 0 <= i < |t| ==> t[i].Put? || t[i].Submit?
    ensures TodoBalance(t) == 0 && LoopOrder(t)
    ensures forall j :: 0 <= j <= |t| ==> TodoBalance(t[j..]) <= 1
  {
    forall j | 0 <= j <= |t|
      ensures TodoBalance(t[j..]) == 0
    {
      if j < |t| { SuffixOfTail(t, j, 1); }
      if j + 1 < |t| { SuffixOfTail(t, j + 1, 1); }
    }
    assert t[0..] == t;
  }

  lemma AcceptIsBalanced(clientfd: nat, e: Env)
    ensures var t := AcceptOps(clientfd, e);
            && TodoBalance(t) == 0 && LoopOrder(t)
            && forall j :: 0 <= j <= |t| ==> TodoBalance(t[j..]) <= 1
  {
    var t := AcceptOps(clientfd, e);
    assert t[2..][1..] == [] && t[1..][1..] == t[2..] && t[3..] == [] && t[0..] == t;
    assert TodoBalance(t[2..]) == 0;
    assert TodoBalance(t[1..]) == -1;
    assert TodoBalance(t) == 0;
  }

  lemma RecvIsBalanced(fd: nat, bid: nat, len: nat, x: Cqe, e: Env)
    ensures var t := RecvOps(fd, bid, len, x, e);
            && TodoBalance(t) == 0 && LoopOrder(t)
            && forall j :: 0 <= j <= |t| ==> TodoBalance(t[j..]) <= 1
  {
    var t := RecvOps(fd, bid, len, x, e);
    assert t[4..][1..] == [] && t[3..][1..] == t[4..] && t[2..][1..] == t[3..] && t[1..][1..] == t[2..];
    assert t[5..] == [] && t[0..] == t;
    assert TodoBalance(t[4..]) == 0;
    assert TodoBalance(t[3..]) == 1;
    assert TodoBalance(t[2..]) == 1;
    assert TodoBalance(t[1..]) == 0;
    assert TodoBalance(t) == 0;
  }

  lemma InterleavedDispatch(s: State, e: Env)
    requires Tagged(s) && Interleaved(s.a) && s.a.todo == [] && s.k.cq != [] && s.a.status == Running
    ensures var a := NextDispatch(s, e).a; Interleaved(a) && LoopOrder(a.todo)
  {
    DispatchIsTake(s, e);
    HandleFrame(s.a, s.k.cq[0], e);
    HandlerIsBalanced(s.a, s.k.cq[0], e);
    if HandleRequest(s.a, s.k.cq[0], e).status != Running {
      StoppedKeepsTodo(s.a, s.k.cq[0], e);
    }
  }

  lemma InterleavedConsume(s: State)
    requires Interleaved(s.a) && s.a.submitted > 0 && s.a.sq != []
    ensures Interleaved(NextConsume(s).a)
  {
    forall i | 0 <= i <= |s.a.sq| - 1
      ensures s.a.sq[1..][i..] == s.a.sq[i + 1..]
    {
      SuffixOfTail(s.a.sq, 1, i);
    }
  }

  // ---- start-up ----

  ghost predicate StartupOps(todo: seq<Op>) {
    forall i :: 0 <= i < |todo| ==>
      todo[i].LogPop? || todo[i].LogQueue? || todo[i].Submit? || (i == 0 && todo[i].QueueAccept?)
  }

  /** The kernel has nothing before the first submit, so start-up runs undisturbed; its entries are the
      accept and then writes only. */
  ghost predicate Booting(b: Boot, s: State) {
    && s.k.active == [] && s.k.cq == [] && s.a.submitted == 0
    && OneSubmitLast(s.a.todo, b.submitOk)
    && StartupOps(s.a.todo)
    && |s.a.sq| + Demand(s.a.todo) == 5
    && QueueBalance(s.a.sq) + TodoBalance(s.a.todo) == -3
    && s.a.hist.accepted == [] && s.a.hist.received == [] && s.a.hist.returned == []
    && !s.a.status.Faulted?
  }

  /** What start-up needs to get through. */
  predicate Boots(c: Config, b: Boot) {
    c.pool >= 4 && c.depth >= 5 && b.submitOk
  }

  lemma BootBalance(b: Boot)
    requires ValidBoot(b)
    ensures var t := BootOps(b);
            TodoBalance(t) == -3 && forall j :: 0 <= j <= |t| ==> TodoBalance(t[j..]) <= 1
  {
    var t := BootOps(b);
    assert t[5..][1..] == [] && t[4..][1..] == t[5..] && t[3..][1..] == t[4..] && t[2..][1..] == t[3..]
        && t[1..][1..] == t[2..] && t[6..] == [] && t[0..] == t;
    assert TodoBalance(t[5..]) == 0;
    assert TodoBalance(t[4..]) == -1;
    assert TodoBalance(t[3..]) == -2;
    assert TodoBalance(t[2..]) == -3;
    assert TodoBalance(t[1..]) == -4;
    assert TodoBalance(t) == -3;
  }

  lemma BootingInit(c: Config, b: Boot, mem: seq<char>, rmem: seq<char>)
    requires ValidStart(c, b, mem, rmem)
    ensures Booting(b, Init(c, b, mem, rmem)) && Interleaved(Init(c, b, mem, rmem).a)
  {
    DemandOfBoot(b);
    BootBalance(b);
  }

  /** Reserved and still to be reserved: one moves into the other. */
  lemma DemandStep(c: Config, a: App)
    requires a.todo != []
    ensures |StepOp(c, a).sq| + Demand(StepOp(c, a).todo) == |a.sq| + Demand(a.todo)
  {
    StepTodo(c, a);
    var t := StepOp(c, a).todo;
    assert a.todo == [a.todo[0]] + a.todo[1..];
    if t != a.todo && t != a.todo[1..] {
      ContinuationBalance(c, a);
    }
    DemandByKind(c, a);
  }

  lemma DemandByKind(c: Config, a: App)
    requires a.todo != []
    ensures var a' := StepOp(c, a);
            |a'.sq| == |a.sq| + if a'.todo == a.todo[1..] && Reserves(a.todo[0]) then 1 else 0
    ensures StepOp(c, a).todo == a.todo || StepOp(c, a).todo == a.todo[1..] || StepOp(c, a).sq == a.sq
  {
  }

  lemma BalanceStep(c: Config, a: App)
    requires a.todo != []
    ensures var a' := StepOp(c, a);
            QueueBalance(a'.sq) + TodoBalance(a'.todo) == QueueBalance(a.sq) + TodoBalance(a.todo)
  {
    var a' := StepOp(c, a);
    StepTodo(c, a);
    QueueStep(c, a);
    TodoBalanceSplit(a.todo);
    if a'.todo != a.todo && a'.todo != a.todo[1..] {
      ContinuationBalance(c, a);
    }
    if a'.sq != a.sq {
      assert a'.sq == a.sq + [a'.sq[|a.sq|]];
      QueueBalanceAppend(a.sq, a'.sq[|a.sq|]);
    }
  }

  lemma BootingShape(c: Config, b: Boot, a: App)
    requires OneSubmitLast(a.todo, b.submitOk) && !a.todo[0].Submit? && StartupOps(a.todo)
    ensures OneSubmitLast(StepOp(c, a).todo, b.submitOk) && StartupOps(StepOp(c, a).todo)
  {
    StepKeepsLast(c, a, b.submitOk);
    StepTodo(c, a);
    var t := StepOp(c, a).todo;
    assert forall i :: 0 <= i < |a.todo[1..]| ==> a.todo[1..][i] == a.todo[i + 1];
    if t != a.todo && t != a.todo[1..] {
      ContinuationBalance(c, a);
      assert t == [t[0]] + a.todo[1..];
    }
  }

  /** No put, read or request of the loop belongs to start-up. */
  lemma BootingBooks(c: Config, a: App)
    requires a.todo != [] && a.status == Running && OpInBounds(c, a)
    requires StartupOps(a.todo)
    ensures var a' := StepOp(c, a);
            && a'.hist.accepted == a.hist.accepted && a'.hist.received == a.hist.received
            && a'.hist.returned == a.hist.returned && !a'.status.Faulted?
            && (!a.todo[0].Submit? ==> a'.submitted == a.submitted)
  {
  }

  /** The first submit closes start-up, and finds everything start-up needs. */
  lemma FirstSubmit(c: Config, b: Boot, s: State)
    requires Inv(c, s) && Booting(b, s) && s.a.status == Running && s.a.todo[0].Submit?
    ensures c.pool >= 4 && c.depth >= 5 && s.a.todo == [Submit(b.submitOk)]
  {
    var todo := s.a.todo;
    assert |todo| == 1;
    assert todo[1..] == [];
    assert Demand(todo) == 0;
    assert Gather(todo, LogLevel) == LogLevel(todo[0]) + Gather(todo[1..], LogLevel) == [];
    assert Gather(todo, ReadFd) == ReadFd(todo[0]) + Gather(todo[1..], ReadFd) == [];
    assert s.a.hist.logs == s.a.hist.logs + [];
    assert |s.a.hist.logs| == 4;
  }

  lemma BootingOp(c: Config, b: Boot, s: State)
    requires Inv(c, s) && Booting(b, s) && s.a.status == Running
    ensures var t := s.(a := StepOp(c, s.a)); Booting(b, t) || (Boots(c, b) && t.a.todo == [])
  {
    AlwaysInBounds(c, s);
    BootingBooks(c, s.a);
    DemandStep(c, s.a);
    BalanceStep(c, s.a);
    if s.a.todo[0].Submit? {
      FirstSubmit(c, b, s);
      assert StepOp(c, s.a) == DoSubmit(s.a, b.submitOk);
    } else {
      BootingShape(c, b, s.a);
    }
  }

  // ---- both phases ----

  /** Start-up under way, or start-up got through and the loop running. */
  ghost predicate Phased(c: Config, b: Boot, s: State) {
    Interleaved(s.a) && (Booting(b, s) || (Boots(c, b) && LoopOrder(s.a.todo)))
  }

  lemma PhasedOp(c: Config, b: Boot, s: State)
    requires Inv(c, s) && Phased(c, b, s) && s.a.todo != [] && s.a.status == Running
    ensures Phased(c, b, s.(a := StepOp(c, s.a)))
  {
    InterleavedOp(c, s.a);
    if Booting(b, s) {
      BootingOp(c, b, s);
      var t := s.(a := StepOp(c, s.a));
      assert !Booting(b, t) ==> LoopOrder(t.a.todo);
    } else {
      TailsStep(c, s.a);
    }
  }

  lemma PhasedKernel(c: Config, b: Boot, s: State, act: Action)
    requires Phased(c, b, s) && Enabled(c, s, act) && !act.Dispatch? && !act.RunOp?
    ensures Phased(c, b, Next(c, s, act))
  {
    if act.Consume? {
      InterleavedConsume(s);
    } else {
      KernelKeepsQueue(c, s, act);
    }
  }

  lemma PhasedStep(c: Config, b: Boot, s: State, act: Action)
    requires Inv(c, s) && Phased(c, b, s)
    ensures Phased(c, b, Apply(c, s, act))
  {
    if Enabled(c, s, act) {
      match act
      case Dispatch(e) => InterleavedDispatch(s, e);
      case RunOp => PhasedOp(c, b, s);
      case _ => PhasedKernel(c, b, s, act);
    }
  }

  lemma KernelKeepsQueue(c: Config, s: State, act: Action)
    requires Enabled(c, s, act) && !act.Dispatch? && !act.RunOp? && !act.Consume?
    ensures var a := Next(c, s, act).a; a.sq == s.a.sq && a.todo == s.a.todo
    ensures s.k.active == [] ==> act.WaitFails?
  {
  }

  predicate Requests(op: Op) {
    op.QueueRecv? || op.QueueSend? || op.LogQueue? || op.QueueAccept?
  }

  /** Entries, from the balance and the buffers the writes hold. */
  lemma LengthFromPool(c: Config, s: State)
    requires Partition(c, s) && s.a.todo != []
    ensures |s.a.sq| <= QueueBalance(s.a.sq) + 2 * (c.pool - if s.a.todo[0].LogQueue? then 1 else 0)
  {
    WritesFitPool(c, s);
    LengthFromBalance(s.a.sq);
    assert TodoBids(s.a.todo) == OpBid(s.a.todo[0]) + TodoBids(s.a.todo[1..]);
  }

  lemma RoomInLoop(c: Config, s: State)
    requires Partition(c, s) && Interleaved(s.a) && LoopOrder(s.a.todo) && s.a.todo != [] && Requests(s.a.todo[0])
    ensures |s.a.sq| <= 2 * c.pool + 1
  {
    LengthFromPool(c, s);
    assert s.a.todo[0..] == s.a.todo && s.a.sq[0..] == s.a.sq;
  }

  lemma RoomAtBoot(c: Config, b: Boot, s: State)
    requires Partition(c, s) && Booting(b, s) && Requests(s.a.todo[0])
    ensures |s.a.sq| <= 2 * c.pool + 1
  {
    var todo := s.a.todo;
    LengthFromPool(c, s);
    assert forall i :: 0 <= i < |todo[1..]| ==> todo[1..][i] == todo[i + 1];
    LogsOnly(todo[1..]);
    TodoBalanceSplit(todo);
    assert Demand(todo) == 1 + Demand(todo[1..]);
  }

  /** How full the queue is when the next request looks for an entry. */
  lemma RoomForRequest(c: Config, b: Boot, s: State)
    requires Partition(c, s) && Phased(c, b, s) && s.a.todo != [] && Requests(s.a.todo[0])
    ensures |s.a.sq| <= 2 * c.pool + 1
  {
    if Booting(b, s) { RoomAtBoot(c, b, s); } else { RoomInLoop(c, s); }
  }

  lemma {:induction false} LogsOnly(ops: seq<Op>)
    requires forall i :: 0 <= i < |ops| ==> ops[i].LogPop? || ops[i].LogQueue? || ops[i].Submit?
    ensures TodoBalance(ops) + Demand(ops) == 0
    decreases |ops|
  {
    if ops != [] { LogsOnly(ops[1..]); }
  }

  // ---- every run ----

  /** Whatever stops a run by finding the queue full. */
  ghost predicate StopBounded(c: Config, b: Boot, r: Status) {
    && (r.Faulted? ==> Boots(c, b))
    && (r.Faulted? || r == Aborted(NoSqe) ==> c.depth <= 2 * c.pool + 1)
  }

  ghost predicate Bounded(c: Config, b: Boot, s: State) {
    Inv(c, s) && Phased(c, b, s) && StopBounded(c, b, s.a.status)
  }

  /** A request that finds no entry shows how small the queue is. */
  lemma FullMeansSmall(c: Config, b: Boot, s: State)
    requires Inv(c, s) && Phased(c, b, s) && s.a.status == Running && s.a.todo != []
    ensures StopBounded(c, b, StepOp(c, s.a).status)
  {
    AlwaysInBounds(c, s);
    FullAtRequest(c, s.a);
    if Requests(s.a.todo[0]) {
      RoomForRequest(c, b, s);
    }
  }

  lemma FullAtRequest(c: Config, a: App)
    requires a.status == Running && a.todo != [] && OpInBounds(c, a)
    ensures var r := StepOp(c, a).status;
            && (r.Faulted? ==> a.todo[0].QueueRecv? || a.todo[0].QueueSend?)
            && (r.Faulted? || r == Aborted(NoSqe) ==>
                  |a.sq| >= c.depth && Requests(a.todo[0]))
  {
  }

  lemma StopBoundedStep(c: Config, b: Boot, s: State, act: Action)
    requires Inv(c, s) && Phased(c, b, s) && StopBounded(c, b, s.a.status)
    ensures StopBounded(c, b, Apply(c, s, act).a.status)
  {
    if Enabled(c, s, act) {
      match act
      case Dispatch(e) => DispatchNeverFull(s, e);
      case RunOp => FullMeansSmall(c, b, s);
      case _ => KernelKeepsStatus(c, s, act);
    }
  }

  lemma BoundedStep(c: Config, b: Boot, s: State, act: Action)
    requires Bounded(c, b, s)
    ensures Bounded(c, b, Apply(c, s, act))
  {
    InvStep(c, s, act);
    PhasedStep(c, b, s, act);
    StopBoundedStep(c, b, s, act);
  }

  lemma DispatchNeverFull(s: State, e: Env)
    requires s.k.cq != [] && s.a.status == Running
    ensures !NextDispatch(s, e).a.status.Faulted? && NextDispatch(s, e).a.status != Aborted(NoSqe)
  {
  }

  lemma {:induction false} BoundedRun(c: Config, b: Boot, s: State, acts: seq<Action>)
    requires Bounded(c, b, s)
    ensures Bounded(c, b, Exec(c, s, acts))
    decreases |acts|
  {
    if acts != [] {
      BoundedStep(c, b, s, acts[0]);
      BoundedRun(c, b, Apply(c, s, acts[0]), acts[1..]);
    }
  }

  lemma BoundedInit(c: Config, b: Boot, mem: seq<char>, rmem: seq<char>)
    requires ValidStart(c, b, mem, rmem)
    ensures Bounded(c, b, Init(c, b, mem, rmem))
  {
    InvInit(c, b, mem, rmem);
    BootingInit(c, b, mem, rmem);
  }

  lemma BoundedAfter(c: Config, b: Boot, mem: seq<char>, rmem: seq<char>, acts: seq<Action>)
    requires ValidStart(c, b, mem, rmem)
    ensures Bounded(c, b, After(c, b, mem, rmem, acts))
  {
    BoundedInit(c, b, mem, rmem);
    BoundedRun(c, b, Init(c, b, mem, rmem), acts);
  }

  lemma PhaseOf(c: Config, b: Boot, s: State)
    requires Phased(c, b, s)
    ensures Booting(b, s) || Boots(c, b)
  {
  }

  /** Start-up is under way or could succeed. */
  lemma PhaseAfter(c: Config, b: Boot, mem: seq<char>, rmem: seq<char>, acts: seq<Action>)
    requires ValidStart(c, b, mem, rmem)
    ensures Booting(b, After(c, b, mem, rmem, acts)) || Boots(c, b)
  {
    BoundedAfter(c, b, mem, rmem, acts);
    PhaseOf(c, b, After(c, b, mem, rmem, acts));
  }

  /** A submission queue of at least twice the pool and two more is never found full by any request,
      whatever the kernel leaves unconsumed: the buffers run out first. */
  lemma DeepQueueNeverFull(c: Config, b: Boot, mem: seq<char>, rmem: seq<char>, acts: seq<Action>)
    requires ValidStart(c, b, mem, rmem) && c.depth >= 2 * c.pool + 2
    ensures var r := After(c, b, mem, rmem, acts).a.status; !r.Faulted? && r != Aborted(NoSqe)
  {
    BoundedAfter(c, b, mem, rmem, acts);
  }
}
