/** The two shortages the program checks for, no log buffer and no submission entry: runs that stop for
    each, and the exact sizes for which there are any. */
module Exhaustion {
  import opened Model
  import opened Ledger
  import opened Runs
  import opened Handlers
  import opened Submission
  import opened Progress
  import opened QueueBound
  import opened Overflow

  // ---- no buffer, in the loop ----

  /** The kernel consumes one entry and completes nothing. */
  lemma TakeOne(c: Config, s: State, fds: nat -> nat, q: Sqe, n: nat)
    requires Loaded(c, s, fds, q, n + 1)
    ensures var t := Apply(c, s, Consume); Loaded(c, t, fds, q, n) && t.a.free == s.a.free
  {
    ReachableInv(c, s);
    ReachableStep(c, s, Consume);
  }

  /** A connection is taken on and its two entries are consumed: a buffer is gone, the queue is empty. */
  lemma LoadAndTake(c: Config, s: State, fds: nat -> nat, q: Sqe) returns (acts: seq<Action>)
    requires Loaded(c, s, fds, q, 0) && c.depth >= 2 && s.a.free != []
    ensures var t := Exec(c, s, acts); Loaded(c, t, fds, q, 0) && |t.a.free| == |s.a.free| - 1
  {
    var load := LoadTwo(c, s, fds, q, 0);
    var t := Exec(c, s, load);
    TakeOne(c, t, fds, q, 1);
    TakeOne(c, Apply(c, t, Consume), fds, q, 0);
    ExecTwo(c, t, Consume, Consume);
    ExecAppend(c, s, load, [Consume, Consume]);
    acts := load + [Consume, Consume];
  }

  /** With nothing free, the next connection ends the run at its log line. */
  lemma NothingLeft(c: Config, s: State, fds: nat -> nat, q: Sqe) returns (acts: seq<Action>)
    requires Loaded(c, s, fds, q, 0) && c.depth >= 2 && s.a.free == []
    ensures var a := Exec(c, s, acts).a; a.status == Aborted(PoolEmpty) && Supplied(fds, a)
  {
    var first, u, fd := OneMoreAccept(c, s, fds, q, 0);
    AcceptOutcome(c, u.a, fd, GOOD);
    var rest := FinishIsARun(c, u);
    ExecAppend(c, s, first, rest);
    acts := first + rest;
  }

  /** Connections, with no write ever completed, until the pool is dry. */
  lemma {:induction false} DrainThenAbort(c: Config, s: State, fds: nat -> nat, q: Sqe) returns (acts: seq<Action>)
    requires Loaded(c, s, fds, q, 0) && c.depth >= 2
    ensures var a := Exec(c, s, acts).a; a.status == Aborted(PoolEmpty) && Supplied(fds, a)
    decreases |s.a.free|
  {
    if s.a.free == [] {
      acts := NothingLeft(c, s, fds, q);
    } else {
      var first := LoadAndTake(c, s, fds, q);
      var rest := DrainThenAbort(c, Exec(c, s, first), fds, q);
      ExecAppend(c, s, first, rest);
      acts := first + rest;
    }
  }

  // ---- no buffer, at start-up ----

  lemma {:induction false} LogsDemand(ops: seq<Op>)
    requires forall i :: 0 <= i < |ops| ==> ops[i].LogPop? || ops[i].Submit?
    ensures Demand(ops) == |Gather(ops, LogLevel)| && Gather(ops, ReadFd) == []
    decreases |ops|
  {
    if ops != [] { LogsDemand(ops[1..]); }
  }

  /** Start-up stopped by an empty pool: each of its buffers holds a line, and each line an entry. */
  lemma BootRanDry(c: Config, b: Boot, s: State)
    requires Inv(c, s) && Booting(b, s) && s.a.status == Aborted(PoolEmpty)
    ensures c.pool < 4 && c.pool < c.depth
  {
    var todo := s.a.todo;
    assert forall i :: 0 <= i < |todo| ==> todo[i].LogPop? || todo[i].Submit?;
    LogsDemand(todo);
    assert Gather(todo, LogLevel) == LogLevel(todo[0]) + Gather(todo[1..], LogLevel);
    assert |s.a.hist.logs + Gather(todo, LogLevel)| == 4;
  }

  // ---- no buffer, exactly ----

  /** Either way into an empty pool, as a run; in the loop, whatever descriptors its accepts return. */
  lemma PoolRunsDry(c: Config, b: Boot, mem: seq<char>, rmem: seq<char>, fds: nat -> nat) returns (acts: seq<Action>)
    requires ValidStart(c, b, mem, rmem) && (Boots(c, b) || (c.pool < 4 && c.pool < c.depth))
    ensures var a := After(c, b, mem, rmem, acts).a; a.status == Aborted(PoolEmpty) && Supplied(fds, a)
  {
    var s0 := Init(c, b, mem, rmem);
    if Boots(c, b) {
      var started, q, r := FirstConnection(c, b, mem, rmem, fds(0));
      var rest := DrainThenAbort(c, Exec(c, s0, started), fds, q);
      ExecAppend(c, s0, started, rest);
      acts := started + rest;
    } else {
      BootOutcome(c, b, mem, rmem);
      FinishAcceptsNone(c, s0.a);
      acts := FinishIsARun(c, s0);
    }
  }

  /** Some run stops for an empty pool exactly when start-up can succeed, or the pool is too small for
      the lines of start-up and runs out before the entries do. */
  lemma PoolEmptyReachedIff(c: Config, b: Boot, mem: seq<char>, rmem: seq<char>, fds: nat -> nat)
    requires ValidStart(c, b, mem, rmem)
    ensures (exists acts: seq<Action> :: After(c, b, mem, rmem, acts).a.status == Aborted(PoolEmpty))
       <==> (c.pool >= 4 && c.depth >= 5 && b.submitOk) || (c.pool < 4 && c.pool < c.depth)
    ensures (exists acts: seq<Action> :: After(c, b, mem, rmem, acts).a.status == Aborted(PoolEmpty))
        ==> exists acts: seq<Action> ::
              var a := After(c, b, mem, rmem, acts).a; a.status == Aborted(PoolEmpty) && Supplied(fds, a)
  {
    if Boots(c, b) || (c.pool < 4 && c.pool < c.depth) {
      var acts := PoolRunsDry(c, b, mem, rmem, fds);
    }
    if acts: seq<Action> :| After(c, b, mem, rmem, acts).a.status == Aborted(PoolEmpty) {
      BoundedAfter(c, b, mem, rmem, acts);
      if Booting(b, After(c, b, mem, rmem, acts)) {
        BootRanDry(c, b, After(c, b, mem, rmem, acts));
      }
    }
  }

  // ---- no entry ----

  /** With one entry left and a buffer, the next connection ends the run at its log line. */
  lemma OneEntryShort(c: Config, s: State, fds: nat -> nat, q: Sqe, n: nat) returns (acts: seq<Action>)
    requires Loaded(c, s, fds, q, n) && n + 1 == c.depth && s.a.free != []
    ensures var a := Exec(c, s, acts).a; a.status == Aborted(NoSqe) && Supplied(fds, a)
  {
    var first, u, fd := OneMoreAccept(c, s, fds, q, n);
    PoolInBounds(c, u);
    AcceptOutcome(c, u.a, fd, GOOD);
    var rest := FinishIsARun(c, u);
    ExecAppend(c, s, first, rest);
    acts := first + rest;
  }

  /** Connections until one entry is left, then one more. */
  lemma {:induction false} FillThenAbort(c: Config, s: State, fds: nat -> nat, q: Sqe, n: nat, m: nat)
    returns (acts: seq<Action>)
    requires Loaded(c, s, fds, q, n) && n + 2 * m + 1 == c.depth && m < |s.a.free|
    ensures var a := Exec(c, s, acts).a; a.status == Aborted(NoSqe) && Supplied(fds, a)
    decreases m
  {
    if m == 0 {
      acts := OneEntryShort(c, s, fds, q, n);
    } else {
      var first := LoadTwo(c, s, fds, q, n);
      var rest := FillThenAbort(c, Exec(c, s, first), fds, q, n + 2, m - 1);
      ExecAppend(c, s, first, rest);
      acts := first + rest;
    }
  }

  lemma EntriesRunOut(c: Config, b: Boot, mem: seq<char>, rmem: seq<char>, fds: nat -> nat)
    returns (acts: seq<Action>)
    requires ValidStart(c, b, mem, rmem)
    requires (Boots(c, b) && c.depth <= 2 * c.pool) || (c.depth < 5 && c.depth <= c.pool)
    ensures var a := After(c, b, mem, rmem, acts).a; a.status == Aborted(NoSqe) && Supplied(fds, a)
  {
    var s0 := Init(c, b, mem, rmem);
    if !Boots(c, b) {
      BootOutcome(c, b, mem, rmem);
      FinishAcceptsNone(c, s0.a);
      acts := FinishIsARun(c, s0);
    } else {
      var started, q, r := FirstConnection(c, b, mem, rmem, fds(0));
      var s := Exec(c, s0, started);
      if c.depth % 2 == 1 {
        var rest := FillThenAbort(c, s, fds, q, 0, c.depth / 2);
        ExecAppend(c, s0, started, rest);
        acts := started + rest;
      } else {
        var even := LeaveSend(c, s, fds, q, r);
        var rest := FillThenAbort(c, Exec(c, s, even), fds, q, 1, c.depth / 2 - 1);
        ExecAppend(c, s0, started, even);
        ExecAppend(c, s0, started + even, rest);
        acts := started + even + rest;
      }
    }
  }

  /** The log line that found no entry in the loop holds a buffer of its own. */
  lemma LoopRanOut(c: Config, s: State)
    requires Inv(c, s) && Interleaved(s.a) && LoopOrder(s.a.todo) && s.a.status == Aborted(NoSqe)
    ensures c.depth <= 2 * c.pool
  {
    LengthFromPool(c, s);
    assert s.a.todo[0..] == s.a.todo && s.a.sq[0..] == s.a.sq;
  }

  lemma BootRanOut(c: Config, b: Boot, s: State)
    requires Inv(c, s) && Booting(b, s) && s.a.status == Aborted(NoSqe)
    ensures c.depth < 5 && c.depth <= c.pool
  {
    var todo := s.a.todo;
    assert forall i :: 0 <= i < |todo[1..]| ==> todo[1..][i] == todo[i + 1];
    LogsDemand(todo[1..]);
    assert Demand(todo) == 1 + Demand(todo[1..]);
    assert Gather(todo, LogLevel) == LogLevel(todo[0]) + Gather(todo[1..], LogLevel);
    assert Gather(todo, ReadFd) == ReadFd(todo[0]) + Gather(todo[1..], ReadFd);
    assert |s.a.hist.logs + Gather(todo, LogLevel)| == 4;
  }

  /** Some run stops for want of an entry exactly when start-up can succeed and the queue is no deeper
      than twice the pool, or the queue is too short for start-up and fills before the pool runs dry. */
  lemma NoSqeReachedIff(c: Config, b: Boot, mem: seq<char>, rmem: seq<char>, fds: nat -> nat)
    requires ValidStart(c, b, mem, rmem)
    ensures (exists acts: seq<Action> :: After(c, b, mem, rmem, acts).a.status == Aborted(NoSqe))
       <==> (c.pool >= 4 && c.depth >= 5 && b.submitOk && c.depth <= 2 * c.pool) || (c.depth < 5 && c.depth <= c.pool)
    ensures (exists acts: seq<Action> :: After(c, b, mem, rmem, acts).a.status == Aborted(NoSqe))
        ==> exists acts: seq<Action> ::
              var a := After(c, b, mem, rmem, acts).a; a.status == Aborted(NoSqe) && Supplied(fds, a)
  {
    if (Boots(c, b) && c.depth <= 2 * c.pool) || (c.depth < 5 && c.depth <= c.pool) {
      var acts := EntriesRunOut(c, b, mem, rmem, fds);
    }
    if acts: seq<Action> :| After(c, b, mem, rmem, acts).a.status == Aborted(NoSqe) {
      BoundedAfter(c, b, mem, rmem, acts);
      var s := After(c, b, mem, rmem, acts);
      if Booting(b, s) { BootRanOut(c, b, s); } else { LoopRanOut(c, s); }
    }
  }
}
