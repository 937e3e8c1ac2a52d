/** The unchecked null entry is reached: runs that fill the submission queue, and the exact sizes for
    which there are any. */
module Overflow {
  import opened Bits
  import opened Seqs
  import opened LogLine
  import opened RingSpec
  import opened Model
  import opened Tagging
  import opened Runs
  import opened Handlers
  import opened Quiescence
  import opened Progress
  import opened QueueBound

  /** The accepts so far returned the first of the descriptors `fds`. */
  ghost predicate Supplied(fds: nat -> nat, a: App) {
    forall i :: 0 <= i < |a.hist.accepted| ==> a.hist.accepted[i] == fds(i)
  }

  /** Waiting with an accept armed and `n` entries the kernel has not consumed. */
  ghost predicate Loaded(c: Config, s: State, fds: nat -> nat, q: Sqe, n: nat) {
    && Reachable(c, s) && s.a.status == Running && s.a.todo == [] && s.k.cq == []
    && q in s.k.active && q.req.Accept? && |s.a.sq| == n && Supplied(fds, s.a)
  }

  lemma SuppliedOneMore(fds: nat -> nat, a: App, a': App)
    requires Supplied(fds, a) && a'.hist.accepted == a.hist.accepted + [fds(|a.hist.accepted|)]
    ensures Supplied(fds, a')
  {
  }

  /** The steps that hand the accept handler a connection on the next descriptor. */
  lemma OneMoreAccept(c: Config, s: State, fds: nat -> nat, q: Sqe, n: nat)
    returns (acts: seq<Action>, t: State, fd: nat)
    requires Loaded(c, s, fds, q, n)
    ensures t == Exec(c, s, acts) && Reachable(c, t) && Supplied(fds, Finish(c, t.a))
    ensures t.a.status == Running && t.a.todo == AcceptOps(fd, GOOD) && t.k.cq == [] && t.k.active == s.k.active
    ensures t.a.sq == s.a.sq && t.a.free == s.a.free && |t.a.sq| <= c.depth
  {
    fd := fds(|s.a.hist.accepted|);
    acts, t := AcceptOn(c, s, q, fd);
    FinishAcceptsNone(c, t.a);
    SuppliedOneMore(fds, s.a, Finish(c, t.a));
  }

  lemma AcceptOn(c: Config, s: State, q: Sqe, fd: nat) returns (acts: seq<Action>, t: State)
    requires Reachable(c, s) && s.a.status == Running && s.a.todo == [] && s.k.cq == []
    requires q in s.k.active && q.req.Accept?
    ensures t == Exec(c, s, acts) && Reachable(c, t) && t.a.hist.accepted == s.a.hist.accepted + [fd]
    ensures t.a.status == Running && t.a.todo == AcceptOps(fd, GOOD) && t.k.cq == [] && t.k.active == s.k.active
    ensures t.a.sq == s.a.sq && t.a.free == s.a.free && |t.a.sq| <= c.depth
  {
    var i :| 0 <= i < |s.k.active| && s.k.active[i] == q;
    acts := [CompleteAccept(i, fd, true), Dispatch(GOOD)];
    t := NextDispatch(NextAccept(s, i, fd, true), GOOD);
    ReachableTagged(c, s);
    AcceptDispatched(c, s, i, fd);
    ExecTwo(c, s, acts[0], acts[1]);
    ReachableExec(c, s, acts);
    OpReady(c, t);
  }

  /** With two entries and a buffer left, a connection takes two entries and a buffer. */
  lemma LoadTwo(c: Config, s: State, fds: nat -> nat, q: Sqe, n: nat) returns (acts: seq<Action>)
    requires Loaded(c, s, fds, q, n) && n + 2 <= c.depth && s.a.free != []
    ensures var t := Exec(c, s, acts); Loaded(c, t, fds, q, n + 2) && |t.a.free| == |s.a.free| - 1
  {
    var first, u, fd := OneMoreAccept(c, s, fds, q, n);
    PoolInBounds(c, u);
    AcceptOutcome(c, u.a, fd, GOOD);
    var rest := FinishIsARun(c, u);
    ExecAppend(c, s, first, rest);
    ReachableExec(c, u, rest);
    acts := first + rest;
  }

  /** With no entry left, the next connection ends the run in the unchecked null. */
  lemma OneTooMany(c: Config, s: State, fds: nat -> nat, q: Sqe) returns (acts: seq<Action>)
    requires Loaded(c, s, fds, q, c.depth)
    ensures var a := Exec(c, s, acts).a; a.status == Faulted(NullSqe) && Supplied(fds, a)
  {
    var first, u, fd := OneMoreAccept(c, s, fds, q, c.depth);
    if u.a.free != [] { PoolInBounds(c, u); }
    AcceptOutcome(c, u.a, fd, GOOD);
    var rest := FinishIsARun(c, u);
    ExecAppend(c, s, first, rest);
    acts := first + rest;
  }

  /** Connections until the queue is full, then one more. */
  lemma {:induction false} FillThenFault(c: Config, s: State, fds: nat -> nat, q: Sqe, n: nat, m: nat)
    returns (acts: seq<Action>)
    requires Loaded(c, s, fds, q, n) && n + 2 * m == c.depth && m <= |s.a.free|
    ensures var a := Exec(c, s, acts).a; a.status == Faulted(NullSqe) && Supplied(fds, a)
    decreases m
  {
    if m == 0 {
      acts := OneTooMany(c, s, fds, q);
    } else {
      var first := LoadTwo(c, s, fds, q, n);
      var rest := FillThenFault(c, Exec(c, s, first), fds, q, n + 2, m - 1);
      ExecAppend(c, s, first, rest);
      acts := first + rest;
    }
  }

  // ---- an odd depth: leave one send behind ----

  /** The write of a served message has been consumed, completed and put back; its send has not. */
  lemma LeaveSend(c: Config, s: State, fds: nat -> nat, q: Sqe, r: Sqe) returns (acts: seq<Action>)
    requires Serving(c, s, q, r) && Sufficient(c) && Supplied(fds, s.a)
    ensures var t := Exec(c, s, acts); Loaded(c, t, fds, q, 1) && |t.a.free| == c.pool
  {
    var first, u := MessageHandled(c, s, r);
    var second, v := WriteTakenUp(c, u);
    var third := WriteReturned(c, v);
    ExecAppend(c, s, first, second);
    ExecAppend(c, s, first + second, third);
    acts := first + second + third;
  }

  lemma MessageHandled(c: Config, s: State, r: Sqe) returns (acts: seq<Action>, u: State)
    requires Calm(c, s) && Sufficient(c) && r in s.k.active && r.req.Recv?
    ensures u == Exec(c, s, acts) && Reachable(c, u) && u.a.status == Running && u.a.todo == [] && u.k.cq == []
    ensures |u.a.sq| == 2 == u.a.submitted && u.a.sq[0].req.Write? && u.k.active == s.k.active
    ensures |u.a.free| == c.pool - 1 && u.a.hist.accepted == s.a.hist.accepted
  {
    var i :| 0 <= i < |s.k.active| && s.k.active[i] == r;
    var first := [CompleteRecv(i, [], true), Dispatch(GOOD)];
    ReachableTagged(c, s);
    CalmCanPick(c, s);
    MessageDispatched(c, s, i);
    ExecTwo(c, s, first[0], first[1]);
    ReachableExec(c, s, first);
    var x := NextRecv(s, i, [], true).k.cq[0];
    var t := NextDispatch(NextRecv(s, i, [], true), GOOD);
    var rest := RecvGoesThrough(c, t, s.k.active[i].req.fd % U16, BidAt(s.a.ring, s.k.head), x);
    ExecAppend(c, s, first, rest);
    ReachableExec(c, t, rest);
    acts := first + rest;
    u := t.(a := Finish(c, t.a));
  }

  /** The message handler, with nothing in the queue before it. */
  lemma RecvGoesThrough(c: Config, t: State, fd: nat, bid: nat, x: Cqe) returns (acts: seq<Action>)
    requires Reachable(c, t) && t.a.status == Running && t.a.todo == RecvOps(fd, bid, 0, x, GOOD)
    requires t.a.sq == [] && t.a.free != [] && c.depth >= 2
    ensures var r := Finish(c, t.a);
            && Exec(c, t, acts) == t.(a := r)
            && r.status == Running && |r.sq| == 2 == r.submitted && r.sq[0].req.Write?
            && |r.free| == |t.a.free| - 1 && r.hist.accepted == t.a.hist.accepted
  {
    PoolInBounds(c, t);
    OpReady(c, t);
    RecvOutcome(c, t.a, fd, bid, 0, x, GOOD);
    FinishAcceptsNone(c, t.a);
    acts := FinishIsARun(c, t);
  }

  /** The kernel consumes the write and completes it. */
  lemma WriteTakenUp(c: Config, u: State) returns (acts: seq<Action>, v: State)
    requires Reachable(c, u) && u.a.status == Running && u.a.todo == [] && u.k.cq == []
    requires |u.a.sq| == 2 == u.a.submitted && u.a.sq[0].req.Write?
    ensures v == Exec(c, u, acts) && Reachable(c, v) && v.a.status == Running && v.a.todo == []
    ensures |v.k.cq| == 1 && v.k.cq[0].origin.Write? && v.k.active == u.k.active
    ensures |v.a.sq| == 1 && v.a.free == u.a.free && v.a.hist == u.a.hist
  {
    var i := |u.k.active|;
    acts := [Consume, CompleteWrite(i, 0)];
    ExecTwo(c, u, acts[0], acts[1]);
    ReachableExec(c, u, acts);
    var m := NextConsume(u);
    assert m.k.active[i] == u.a.sq[0];
    assert RemoveAt(m.k.active, i) == u.k.active;
    v := NextWrite(m, i, 0);
  }

  /** The completion is handled and its buffer put back. */
  lemma WriteReturned(c: Config, v: State) returns (acts: seq<Action>)
    requires Reachable(c, v) && v.a.status == Running && v.a.todo == [] && |v.k.cq| == 1 && v.k.cq[0].origin.Write?
    ensures var t := Exec(c, v, acts);
            && Reachable(c, t) && t.a.status == Running && t.a.todo == [] && t.k.cq == []
            && t.k.active == v.k.active && t.a.sq == v.a.sq && |t.a.free| == |v.a.free| + 1
            && t.a.hist.accepted == v.a.hist.accepted
  {
    ReachableTagged(c, v);
    WriteDispatched(v);
    var d := NextDispatch(v, GOOD);
    DispatchReady(c, v, GOOD);
    OpReady(c, d);
    PutThenSubmit(c, d.a);
    FinishAcceptsNone(c, d.a);
    var rest := FinishIsARun(c, d);
    acts := [Dispatch(GOOD)] + rest;
    ExecCons(c, v, Dispatch(GOOD), rest);
    ReachableExec(c, d, rest);
  }

  lemma WriteDispatched(v: State)
    requires Tagged(v) && v.a.status == Running && v.a.todo == [] && |v.k.cq| == 1 && v.k.cq[0].origin.Write?
    ensures var d := NextDispatch(v, GOOD);
            && d.a.status == Running && |d.a.todo| == 2 && d.a.todo[0].Put? && d.a.todo[1] == Submit(true)
            && d.a.sq == v.a.sq && d.a.free == v.a.free && d.k.active == v.k.active && d.k.cq == []
            && d.a.hist.accepted == v.a.hist.accepted
  {
    HandleByOrigin(v.a, v.k.cq[0], GOOD);
  }

  lemma PutThenSubmit(c: Config, a: App)
    requires a.status == Running && |a.todo| == 2 && a.todo[0].Put? && a.todo[1] == Submit(true) && OpInBounds(c, a)
    ensures var r := Finish(c, a);
            r.status == Running && r.sq == a.sq && |r.free| == |a.free| + 1
  {
    FinishUnfolds(c, a);
    var a1 := StepOp(c, a);
    assert a1.todo == [Submit(true)];
    LastSubmit(c, a1, true);
  }

  // ---- from start-up ----

  /** For every depth up to 2 * pool + 1 for which start-up succeeds, some run faults, whatever
      descriptors its accepts return. */
  lemma FaultIsReached(c: Config, b: Boot, mem: seq<char>, rmem: seq<char>, fds: nat -> nat)
    returns (acts: seq<Action>)
    requires ValidStart(c, b, mem, rmem) && Boots(c, b) && c.depth <= 2 * c.pool + 1
    ensures var a := After(c, b, mem, rmem, acts).a; a.status == Faulted(NullSqe) && Supplied(fds, a)
  {
    var s0 := Init(c, b, mem, rmem);
    var started, q, r := FirstConnection(c, b, mem, rmem, fds(0));
    var s := Exec(c, s0, started);
    if c.depth % 2 == 0 {
      var rest := FillThenFault(c, s, fds, q, 0, c.depth / 2);
      ExecAppend(c, s0, started, rest);
      acts := started + rest;
    } else {
      var odd := LeaveSend(c, s, fds, q, r);
      var rest := FillThenFault(c, Exec(c, s, odd), fds, q, 1, c.depth / 2);
      ExecAppend(c, s0, started, odd);
      ExecAppend(c, s0, started + odd, rest);
      acts := started + odd + rest;
    }
  }

  /** Some run ends in the unchecked null exactly when start-up can succeed and the queue is no deeper
      than twice the pool and one; and then there is one for any descriptors the accepts may return. */
  lemma NullFaultIff(c: Config, b: Boot, mem: seq<char>, rmem: seq<char>, fds: nat -> nat)
    requires ValidStart(c, b, mem, rmem)
    ensures (exists acts: seq<Action> :: After(c, b, mem, rmem, acts).a.status == Faulted(NullSqe))
       <==> c.pool >= 4 && c.depth >= 5 && b.submitOk && c.depth <= 2 * c.pool + 1
    ensures (exists acts: seq<Action> :: After(c, b, mem, rmem, acts).a.status == Faulted(NullSqe))
        ==> exists acts: seq<Action> ::
              var a := After(c, b, mem, rmem, acts).a; a.status == Faulted(NullSqe) && Supplied(fds, a)
  {
    if Boots(c, b) && c.depth <= 2 * c.pool + 1 {
      var acts := FaultIsReached(c, b, mem, rmem, fds);
    }
    if acts: seq<Action> :| After(c, b, mem, rmem, acts).a.status == Faulted(NullSqe) {
      BoundedAfter(c, b, mem, rmem, acts);
    }
  }

  /** The program's own sizes: sixteen buffers and sixteen entries leave room for the fault. */
  lemma ShippedSizesFault(b: Boot, mem: seq<char>, rmem: seq<char>, fds: nat -> nat) returns (acts: seq<Action>)
    requires ValidBoot(b) && b.submitOk && |mem| == 16 * BUFSIZE && |rmem| == 16 * 1024
    ensures var c := Config(16, 16, 1024, 16, AsWritten);
            && ValidStart(c, b, mem, rmem)
            && var a := After(c, b, mem, rmem, acts).a; a.status == Faulted(NullSqe) && Supplied(fds, a)
  {
    var c := Config(16, 16, 1024, 16, AsWritten);
    assert Pow2(4) == 16 by { assert Pow2(2) == 4; Pow2Adds(2, 2); }
    acts := FaultIsReached(c, b, mem, rmem, fds);
  }
}
