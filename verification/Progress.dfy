/** Runs that exist: the system can always wind down, take on a connection and serve messages. */
module Progress {
  import opened Bits
  import opened Seqs
  import opened Geometry
  import opened RingSpec
  import opened Model
  import opened Tagging
  import opened RingQueue
  import opened Messages
  import opened Runs
  import opened Handlers
  import opened Quiescence
  import opened LockStepRuns

  /** Waiting, with nothing under way but accepts and receives, and the pool full. */
  ghost predicate Calm(c: Config, s: State) {
    && Reachable(c, s) && s.a.status == Running
    && s.a.todo == [] && s.a.sq == [] && s.k.cq == [] && |s.a.free| == c.pool
  }

  /** Winding down, with no submit about to fail. */
  ghost predicate Settling(c: Config, s: State) {
    Winding(c, s) && s.a.status == Running && forall op :: op in s.a.todo ==> op.Submit? ==> op.ok
  }

  /** A request that stays: queued or active, and neither a write nor a send. */
  ghost predicate Stays(s: State, q: Sqe) {
    (q in s.a.sq || q in s.k.active) && !q.req.Write? && !q.req.Send?
  }

  /** No connection accepted and no buffer picked in between. */
  ghost predicate NoArrival(s: State, t: State) {
    t.a.hist.accepted == s.a.hist.accepted && t.k.picked == s.k.picked
  }

  /** No such request is lost. */
  ghost predicate KeepsArmed(s: State, t: State) {
    forall q :: Stays(s, q) ==> Stays(t, q)
  }

  const GOOD: Env := Env(true, true, "", "", 0, 0)

  /** Some quiet action that does not end the run, while there is anything left to do. */
  lemma NextQuiet(c: Config, s: State) returns (act: Action)
    requires Settling(c, s) && !Still(c, s)
    ensures Quiet(act) && Enabled(c, s, act) && (act.Dispatch? ==> act.e == GOOD)
  {
    act := NotStill(c, s);
    if act.Dispatch? {
      act := Dispatch(GOOD);
    }
  }

  lemma QuietOpGoesOn(c: Config, s: State)
    requires Settling(c, s) && s.a.todo != []
    ensures var a := StepOp(c, s.a);
            a.status == Running && a.todo == s.a.todo[1..] && a.sq == s.a.sq
            && a.hist.accepted == s.a.hist.accepted
  {
    OpReady(c, s);
    assert s.a.todo[0] in s.a.todo;
  }

  lemma QuietDispatchGoesOn(c: Config, s: State)
    requires Tagged(s) && QuietState(s) && s.a.status == Running && s.k.cq != []
    ensures var t := NextDispatch(s, GOOD);
            t.a.status == Running && t.a.sq == s.a.sq && t.k.active == s.k.active && NoArrival(s, t)
            && forall op :: op in t.a.todo ==> op.Submit? ==> op.ok
  {
    DispatchIsTake(s, GOOD);
    assert s.k.cq[0] in s.k.cq;
  }

  lemma KernelGoesOn(c: Config, s: State, act: Action)
    requires Quiet(act) && KernelAct(act) && Enabled(c, s, act)
    ensures var t := Next(c, s, act);
            t.a.status == Running && t.a.todo == s.a.todo && KeepsArmed(s, t) && NoArrival(s, t)
  {
    forall q | Stays(s, q)
      ensures Stays(Next(c, s, act), q)
    {
      KernelKeepsArmed(c, s, act, q);
    }
  }

  lemma KernelKeepsArmed(c: Config, s: State, act: Action, q: Sqe)
    requires Quiet(act) && KernelAct(act) && Enabled(c, s, act) && Stays(s, q)
    ensures Stays(Next(c, s, act), q)
  {
    match act
    case Consume =>
      if q in s.a.sq { assert q == s.a.sq[0] || q in s.a.sq[1..]; }
    case CompleteWrite(i, n) => StaysActive(s.k.active, i, q);
    case CompleteSend(i, res, more) =>
      StaysActive(s.k.active, i, q);
      StaysUpdated(s.k.active, i, s.k.active[i].(req := s.k.active[i].req.(left := 1)), q);
  }

  lemma StaysActive(qs: seq<Sqe>, i: nat, q: Sqe)
    requires i < |qs| && q != qs[i]
    ensures q in qs ==> q in RemoveAt(qs, i)
  {
    if q in qs {
      var j :| 0 <= j < |qs| && qs[j] == q;
      assert RemoveAt(qs, i)[if j < i then j else j - 1] == q;
    }
  }

  lemma StaysUpdated(qs: seq<Sqe>, i: nat, x: Sqe, q: Sqe)
    requires i < |qs| && q != qs[i]
    ensures q in qs ==> q in qs[i := x]
  {
    if q in qs {
      var j :| 0 <= j < |qs| && qs[j] == q;
      assert qs[i := x][j] == q;
    }
  }

  lemma SettlingStep(c: Config, s: State, act: Action)
    requires Settling(c, s) && Quiet(act) && Enabled(c, s, act) && (act.Dispatch? ==> act.e == GOOD)
    ensures var t := Apply(c, s, act);
            Settling(c, t) && KeepsArmed(s, t) && Work(t) < Work(s) && NoArrival(s, t)
  {
    QuietProgress(c, s, act);
    if act.RunOp? {
      QuietOpGoesOn(c, s);
    } else if act.Dispatch? {
      ReachableInv(c, s);
      QuietDispatchGoesOn(c, s);
    } else {
      KernelGoesOn(c, s, act);
    }
  }

  ghost predicate NoPicks(acts: seq<Action>) {
    forall i :: 0 <= i < |acts| ==> !acts[i].CompleteRecv?
  }

  /** From any settling state the program, still running, gets back to a full pool, and every accept
      and receive that was queued or active is active then. */
  lemma {:induction false} Settles(c: Config, s: State) returns (acts: seq<Action>)
    requires Settling(c, s)
    ensures forall i :: 0 <= i < |acts| ==> Quiet(acts[i])
    ensures var t := Exec(c, s, acts);
            Calm(c, t) && KeepsArmed(s, t) && NoArrival(s, t)
    decreases Work(s)
  {
    if Still(c, s) {
      acts := [];
      ReachableInv(c, s);
      StillMeansFullPool(c, s);
    } else {
      var act := NextQuiet(c, s);
      var t := Apply(c, s, act);
      SettlingStep(c, s, act);
      var rest := Settles(c, t);
      acts := [act] + rest;
      ExecCons(c, s, act, rest);
      ArmedThrough(s, t, Exec(c, t, rest));
    }
  }

  lemma ArmedThrough(s: State, t: State, u: State)
    requires KeepsArmed(s, t) && KeepsArmed(t, u)
    ensures KeepsArmed(s, u)
  {
  }

  // ---- one completion served ----

  lemma {:induction false} FinishKeepsQueue(c: Config, a: App, q: Sqe)
    requires q in a.sq
    ensures q in Finish(c, a).sq
    decreases Remaining(a)
  {
    if a.todo != [] && a.status == Running {
      StepShrinks(c, a);
      OpKeepsQueue(c, a, q);
      FinishKeepsQueue(c, StepOp(c, a), q);
    }
  }

  lemma OpKeepsQueue(c: Config, a: App, q: Sqe)
    requires a.todo != [] && q in a.sq
    ensures q in StepOp(c, a).sq
  {
  }

  lemma {:induction false} FinishAcceptsNone(c: Config, a: App)
    ensures Finish(c, a).hist.accepted == a.hist.accepted
    decreases Remaining(a)
  {
    if a.todo != [] && a.status == Running {
      StepShrinks(c, a);
      OpAcceptsNone(c, a);
      FinishAcceptsNone(c, StepOp(c, a));
    }
  }

  lemma OpAcceptsNone(c: Config, a: App)
    requires a.todo != []
    ensures StepOp(c, a).hist.accepted == a.hist.accepted
  {
  }

  /** After a handler that ended well, the rest settles. */
  lemma FinishSettles(c: Config, s: State) returns (acts: seq<Action>)
    requires Reachable(c, s) && s.k.cq == [] && Finish(c, s.a).status == Running
    ensures NoPicks(acts)
    ensures var t := Exec(c, s, acts);
            Calm(c, t) && KeepsArmed(s.(a := Finish(c, s.a)), t) && NoArrival(s, t)
  {
    var ops := FinishIsARun(c, s);
    var u := s.(a := Finish(c, s.a));
    ReachableExec(c, s, ops);
    var rest := Settles(c, u);
    FinishAcceptsNone(c, s.a);
    ExecAppend(c, s, ops, rest);
    acts := ops + rest;
  }

  /** Enough for start-up, and so for every handler that finds the system calm. */
  ghost predicate Sufficient(c: Config) {
    c.pool >= 4 && c.depth >= 5
  }

  /** A connection arrives: afterwards a receive for it is active, with everything armed before, and
      the system is calm again. */
  lemma TakesConnection(c: Config, s: State, q: Sqe, fd: nat) returns (acts: seq<Action>, r: Sqe)
    requires Calm(c, s) && Sufficient(c) && q in s.k.active && q.req.Accept?
    ensures NoPicks(acts) && r.req == Recv(fd)
    ensures var t := Exec(c, s, acts);
            Calm(c, t) && r in t.k.active && KeepsArmed(s, t)
            && t.k.picked == s.k.picked && t.a.hist.accepted == s.a.hist.accepted + [fd]
  {
    var i :| 0 <= i < |s.k.active| && s.k.active[i] == q;
    var first := [CompleteAccept(i, fd, true), Dispatch(GOOD)];
    var s2 := NextDispatch(NextAccept(s, i, fd, true), GOOD);
    ReachableTagged(c, s);
    AcceptDispatched(c, s, i, fd);
    ExecTwo(c, s, first[0], first[1]);
    ReachableExec(c, s, first);
    PoolInBounds(c, s);
    AcceptOutcome(c, s2.a, fd, GOOD);
    r := ArmedBy(c, s2.a, fd);
    var rest := FinishSettles(c, s2);
    ExecAppend(c, s, first, rest);
    acts := first + rest;
    var u := s2.(a := Finish(c, s2.a));
    assert Stays(u, r);
    ArmedThrough(s, u, Exec(c, s, acts));
  }

  lemma ExecTwo(c: Config, s: State, a1: Action, a2: Action)
    ensures Exec(c, s, [a1, a2]) == Apply(c, Apply(c, s, a1), a2)
  {
    assert [a1, a2] == [a1] + [a2] && [a2] == [a2] + [];
    ExecCons(c, s, a1, [a2]);
    ExecCons(c, Apply(c, s, a1), a2, []);
  }

  lemma AcceptDispatched(c: Config, s: State, i: nat, fd: nat)
    requires Tagged(s) && s.a.status == Running && s.a.todo == [] && s.k.cq == []
    requires i < |s.k.active| && s.k.active[i].req.Accept?
    ensures Enabled(c, s, CompleteAccept(i, fd, true)) && Enabled(c, NextAccept(s, i, fd, true), Dispatch(GOOD))
    ensures var t := NextDispatch(NextAccept(s, i, fd, true), GOOD);
            && t.a.status == Running && t.a.todo == AcceptOps(fd, GOOD) && t.k.cq == []
            && t.a.free == s.a.free && t.a.mem == s.a.mem && t.a.sq == s.a.sq
            && t.k.active == s.k.active && t.k.picked == s.k.picked
            && t.a.hist.accepted == s.a.hist.accepted + [fd]
  {
    var u := NextAccept(s, i, fd, true);
    assert s.k.active[i] in s.k.active;
    assert u.k.cq == [u.k.cq[0]];
    HandleByOrigin(u.a, u.k.cq[0], GOOD);
  }

  /** The accept handler queues a receive for the descriptor. */
  lemma ArmedBy(c: Config, a: App, fd: nat) returns (r: Sqe)
    requires a.status == Running && a.todo == AcceptOps(fd, GOOD) && |a.sq| < c.depth
    ensures r.req == Recv(fd) && r in Finish(c, a).sq
  {
    var a1 := StepOp(c, a);
    r := a1.sq[|a.sq|];
    FinishUnfolds(c, a);
    FinishKeepsQueue(c, a1, r);
  }

  /** A message arrives: one more pick, and afterwards the system is calm again. */
  lemma ServesMessage(c: Config, s: State, r: Sqe) returns (acts: seq<Action>)
    requires Calm(c, s) && Sufficient(c) && r in s.k.active && r.req.Recv?
    ensures LockStep(c, s, acts)
    ensures var t := Exec(c, s, acts);
            Calm(c, t) && KeepsArmed(s, t)
            && |t.k.picked| == |s.k.picked| + 1 && t.a.hist.accepted == s.a.hist.accepted
  {
    var i :| 0 <= i < |s.k.active| && s.k.active[i] == r;
    var first := [CompleteRecv(i, [], true), Dispatch(GOOD)];
    ReachableTagged(c, s);
    CalmCanPick(c, s);
    MessageDispatched(c, s, i);
    ExecTwo(c, s, first[0], first[1]);
    ReachableExec(c, s, first);
    var s2 := NextDispatch(NextRecv(s, i, [], true), GOOD);
    PoolInBounds(c, s);
    MessageCompletes(c, s2, BidAt(s.a.ring, s.k.head));
    var rest := FinishSettles(c, s2);
    ExecAppend(c, s, first, rest);
    acts := first + rest;
    ArmedThrough(s, s2.(a := Finish(c, s2.a)), Exec(c, s, acts));
    LockStepFirst(c, s, first[0], first[1], rest);
  }

  lemma CalmCanPick(c: Config, s: State)
    requires Calm(c, s)
    ensures CanPick(s, 0) && Held(s) == [] && |s.k.picked| == |s.a.hist.recycled|
  {
    ReachableInv(c, s);
    assert Held(s) == [];
    var slot := s.a.ring.slots[s.k.head % |s.a.ring.slots|];
    assert slot == BufferOf(slot.bid, c.entrySize) && slot.bid < c.entries;
    SliceBounds(slot.bid, c.entrySize, c.entries);
  }

  lemma MessageDispatched(c: Config, s: State, i: nat)
    requires Tagged(s) && s.a.status == Running && s.a.todo == [] && s.k.cq == [] && CanPick(s, 0)
    requires i < |s.k.active| && s.k.active[i].req.Recv?
    ensures Enabled(c, s, CompleteRecv(i, [], true)) && Enabled(c, NextRecv(s, i, [], true), Dispatch(GOOD))
    ensures var u := NextRecv(s, i, [], true); var t := NextDispatch(u, GOOD);
            && u.k.cq != [] && t.a.status == Running && t.k.cq == []
            && t.a.todo == RecvOps(s.k.active[i].req.fd % U16, BidAt(s.a.ring, s.k.head), 0, u.k.cq[0], GOOD)
            && t.a.free == s.a.free && t.a.mem == s.a.mem && t.a.sq == s.a.sq
            && t.k.active == s.k.active && |t.k.picked| == |s.k.picked| + 1
            && t.a.hist.accepted == s.a.hist.accepted
  {
    var u := NextRecv(s, i, [], true);
    assert s.k.active[i] in s.k.active;
    assert u.k.cq == [u.k.cq[0]];
    assert u.k.cq[0].flags / BUFFER_SHIFT == BidAt(s.a.ring, s.k.head);
    HandleByOrigin(u.a, u.k.cq[0], GOOD);
  }

  lemma MessageCompletes(c: Config, s: State, bid: nat)
    requires Reachable(c, s) && Sufficient(c) && s.a.status == Running && s.a.sq == [] && s.a.free != []
    requires exists fd: nat, x: Cqe :: s.a.todo == RecvOps(fd, bid, 0, x, GOOD)
    ensures Finish(c, s.a).status == Running
  {
    var fd: nat, x: Cqe :| s.a.todo == RecvOps(fd, bid, 0, x, GOOD);
    OpReady(c, s);
    PoolInBounds(c, s);
    RecvOutcome(c, s.a, fd, bid, 0, x, GOOD);
  }

  // ---- lock step ----

  lemma {:induction false} NoPicksLockStep(c: Config, s: State, acts: seq<Action>)
    requires NoPicks(acts)
    ensures LockStep(c, s, acts)
    decreases |acts|
  {
    if acts != [] {
      assert forall i :: 0 <= i < |acts[1..]| ==> acts[1..][i] == acts[i + 1];
      NoPicksLockStep(c, Apply(c, s, acts[0]), acts[1..]);
    }
  }

  lemma {:induction false} LockStepAppend(c: Config, s: State, acts: seq<Action>, more: seq<Action>)
    requires LockStep(c, s, acts) && LockStep(c, Exec(c, s, acts), more)
    ensures LockStep(c, s, acts + more)
    decreases |acts|
  {
    if acts == [] {
      assert acts + more == more;
    } else {
      assert (acts + more)[1..] == acts[1..] + more;
      LockStepAppend(c, Apply(c, s, acts[0]), acts[1..], more);
    }
  }

  lemma LockStepFirst(c: Config, s: State, pick: Action, next: Action, rest: seq<Action>)
    requires Held(s) == [] && !next.CompleteRecv? && NoPicks(rest)
    ensures LockStep(c, s, [pick, next] + rest)
  {
    assert ([pick, next] + rest)[1..] == [next] + rest;
    assert ([next] + rest)[1..] == rest;
    var u := Apply(c, s, pick);
    NoPicksLockStep(c, Apply(c, u, next), rest);
  }

  // ---- from start-up ----

  /** Calm, with one connection accepted and more of them welcome. */
  ghost predicate Serving(c: Config, s: State, q: Sqe, r: Sqe) {
    Calm(c, s) && q in s.k.active && q.req.Accept? && r in s.k.active && r.req.Recv?
  }

  lemma StillServing(c: Config, s: State, t: State, q: Sqe, r: Sqe)
    requires Serving(c, s, q, r) && Calm(c, t) && KeepsArmed(s, t)
    ensures Serving(c, t, q, r)
  {
    assert Stays(s, q) && Stays(s, r);
  }

  /** Start-up, one connection on any descriptor, then as many messages as wanted, each handled before the next pick. */
  lemma {:induction false} LockStepRunExists(c: Config, b: Boot, mem: seq<char>, rmem: seq<char>, fd: nat, k: nat)
    returns (acts: seq<Action>, q: Sqe, r: Sqe)
    requires ValidStart(c, b, mem, rmem) && Sufficient(c) && b.submitOk
    ensures LockStep(c, Init(c, b, mem, rmem), acts)
    ensures var s := After(c, b, mem, rmem, acts);
            Serving(c, s, q, r) && |s.k.picked| == k && s.a.hist.accepted == [fd]
    decreases k
  {
    if k == 0 {
      acts, q, r := FirstConnection(c, b, mem, rmem, fd);
      NoPicksLockStep(c, Init(c, b, mem, rmem), acts);
    } else {
      acts, q, r := LockStepRunExists(c, b, mem, rmem, fd, k - 1);
      var s := After(c, b, mem, rmem, acts);
      var more := ServesMessage(c, s, r);
      StillServing(c, s, Exec(c, s, more), q, r);
      LockStepAppend(c, Init(c, b, mem, rmem), acts, more);
      ExecAppend(c, Init(c, b, mem, rmem), acts, more);
      acts := acts + more;
    }
  }

  lemma FirstConnection(c: Config, b: Boot, mem: seq<char>, rmem: seq<char>, fd: nat)
    returns (acts: seq<Action>, q: Sqe, r: Sqe)
    requires ValidStart(c, b, mem, rmem) && Sufficient(c) && b.submitOk
    ensures NoPicks(acts)
    ensures var s := After(c, b, mem, rmem, acts);
            Serving(c, s, q, r) && s.k.picked == [] && s.a.hist.accepted == [fd]
  {
    var s := Init(c, b, mem, rmem);
    ReachableInit(c, b, mem, rmem);
    BootOutcome(c, b, mem, rmem);
    q := BootArms(c, b, mem, rmem);
    var booted := FinishSettles(c, s);
    var t := Exec(c, s, booted);
    assert Stays(s.(a := Finish(c, s.a)), q);
    assert Stays(t, q);
    var connected, recv := TakesConnection(c, t, q, fd);
    r := recv;
    assert Stays(Exec(c, t, connected), q);
    ExecAppend(c, s, booted, connected);
    acts := booted + connected;
  }

  /** Start-up queues the accept. */
  lemma BootArms(c: Config, b: Boot, mem: seq<char>, rmem: seq<char>) returns (q: Sqe)
    requires ValidStart(c, b, mem, rmem) && c.depth > 0
    ensures q.req == Accept(b.sock) && q in Finish(c, Init(c, b, mem, rmem).a).sq
  {
    var a := Init(c, b, mem, rmem).a;
    FinishUnfolds(c, a);
    q := StepOp(c, a).sq[0];
    FinishKeepsQueue(c, StepOp(c, a), q);
  }

  /** The program as written does reach the state in which every slot offers buffer 1, whatever the
      ring size from two up: some run from start-up ends there. */
  lemma OneBufferIsReached(c: Config, b: Boot, mem: seq<char>, rmem: seq<char>, fd: nat) returns (acts: seq<Action>)
    requires ValidStart(c, b, mem, rmem) && Sufficient(c) && b.submitOk && c.policy == AsWritten && c.entries >= 2
    ensures var s := After(c, b, mem, rmem, acts);
            && s.a.status == Running && s.a.hist.accepted == [fd] && Held(s) == [] && |s.a.ring.slots| == c.entries
            && forall j :: 0 <= j < c.entries ==> s.a.ring.slots[j].bid == 1
  {
    var q, r;
    acts, q, r := LockStepRunExists(c, b, mem, rmem, fd, c.entries);
    var s := After(c, b, mem, rmem, acts);
    CalmCanPick(c, s);
    AsWrittenEndsOnOneBuffer(c, b, mem, rmem, acts);
  }

  /** The waiting message is dispatched to its read. */
  lemma WaitingMessageIsRead(c: Config, s: State, x: Cqe)
    requires Tagged(s) && s.a.status == Running && s.a.todo == [] && s.k.cq != [] && x == s.k.cq[0] && Carries(x)
    ensures var t := NextDispatch(s, GOOD);
            && t.a.status == Running && t.a.rmem == s.a.rmem && t.a.todo != []
            && t.a.hist.accepted == s.a.hist.accepted
            && t.a.todo[0] == ReadPacket(x.flags / BUFFER_SHIFT, x.res, x.origin.fd % U16, x.origin, x.payload)
  {
    HandleByOrigin(s.a, x, GOOD);
  }

  /** A message that is gone when its turn comes is misread. */
  lemma GoneMeansMisread(c: Config, s: State, x: Cqe) returns (acts: seq<Action>, p: Packet)
    requires Reachable(c, s) && s.a.status == Running && s.a.todo == [] && s.k.cq != [] && x == s.k.cq[0]
    requires Carries(x) && !HoldsMessage(c, s.a.rmem, x.flags / BUFFER_SHIFT, x.payload)
    ensures var t := Exec(c, s, acts);
            p in t.a.hist.received && p.delivered == x.payload && p.read != p.delivered
            && t.a.hist.accepted == s.a.hist.accepted
  {
    ReachableTagged(c, s);
    WaitingMessageIsRead(c, s, x);
    var t := NextDispatch(s, GOOD);
    DispatchReady(c, s, GOOD);
    ReachableMessages(c, t);
    ReadIsTrueIff(c, t);
    acts := [Dispatch(GOOD), RunOp];
    ExecTwo(c, s, acts[0], acts[1]);
    OpAcceptsNone(c, t.a);
    var h := StepOp(c, t.a).hist.received;
    p := h[|h| - 1];
  }

  /** The two deliveries that spoil the first message, as steps of a run. */
  lemma TwoDeliveriesRun(c: Config, s: State, i: nat, first: seq<char>, second: seq<char>)
    requires Calm(c, s) && i < |s.k.active| && s.k.active[i].req.Recv?
    requires CanPick(s, |first|) && CanPick(NextRecv(s, i, first, true), |second|)
    ensures var t := NextRecv(NextRecv(s, i, first, true), i, second, true);
            && Exec(c, s, [CompleteRecv(i, first, true), CompleteRecv(i, second, true)]) == t
            && Reachable(c, t) && t.a.hist == s.a.hist
            && t.a.status == Running && t.a.todo == [] && |t.k.cq| == 2 && Carries(t.k.cq[0])
            && t.k.cq[0].flags / BUFFER_SHIFT == BidAt(s.a.ring, s.k.head)
  {
    var u := NextRecv(s, i, first, true);
    assert u.k.active == s.k.active && u.a.status == Running;
    ExecTwo(c, s, CompleteRecv(i, first, true), CompleteRecv(i, second, true));
    ReachableExec(c, s, [CompleteRecv(i, first, true), CompleteRecv(i, second, true)]);
  }

  /** The program as written does read a wrong message: with a ring of two buffers or more, of at least
      one byte, some run from start-up has read something other than what was delivered. */
  lemma MisreadIsReached(c: Config, b: Boot, mem: seq<char>, rmem: seq<char>, fd: nat)
    returns (acts: seq<Action>, p: Packet)
    requires ValidStart(c, b, mem, rmem) && Sufficient(c) && b.submitOk
    requires c.policy == AsWritten && c.entries >= 2 && c.entrySize >= 1
    ensures var h := After(c, b, mem, rmem, acts).a.hist;
            p in h.received && p.read != p.delivered && h.accepted == [fd]
  {
    var served, q, r := LockStepRunExists(c, b, mem, rmem, fd, c.entries);
    var s := After(c, b, mem, rmem, served);
    CalmCanPick(c, s);
    var i :| 0 <= i < |s.k.active| && s.k.active[i] == r;
    var first, second := ['a'], ['b'];
    AsWrittenLosesMessages(c, b, mem, rmem, served, i, first, second);
    AsWrittenEndsOnOneBuffer(c, b, mem, rmem, served);
    TwoDeliveriesRun(c, s, i, first, second);
    var deliveries := [CompleteRecv(i, first, true), CompleteRecv(i, second, true)];
    var t := Exec(c, s, deliveries);
    assert !Agree(second, first) by { assert second[..1] == second && first[..1] == first; }
    var tail, packet := GoneMeansMisread(c, t, t.k.cq[0]);
    p := packet;
    ExecAppend(c, Init(c, b, mem, rmem), served, deliveries);
    ExecAppend(c, Init(c, b, mem, rmem), served + deliveries, tail);
    acts := served + deliveries + tail;
  }
}
