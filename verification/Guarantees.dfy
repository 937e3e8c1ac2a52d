/** The main results: safety of every run from start-up, under every interleaving of kernel steps
    with single operations of the program. */
module Guarantees {
  import opened Bits
  import opened Seqs
  import opened Geometry
  import opened UserData
  import opened LogLine
  import opened RingSpec
  import opened Model
  import opened Tagging
  import opened Ownership
  import opened Integrity
  import opened RingQueue
  import opened Ledger
  import opened Runs

  // ---- memory ----

  /** No run reads or writes outside its allocations, and no run puts a free buffer. The only crash
      left is the unchecked null of a full submission queue. */
  lemma NoStrayAccess(c: Config, b: Boot, mem: seq<char>, rmem: seq<char>, acts: seq<Action>)
    requires ValidStart(c, b, mem, rmem)
    ensures var a := After(c, b, mem, rmem, acts).a;
            && a.status != Faulted(WildAccess) && a.status != Faulted(DoublePut)
            && (a.status == Faulted(NullSqe) ==> |a.sq| == c.depth)
            && (a.todo != [] ==> OpInBounds(c, a))
  {
    InvAfter(c, b, mem, rmem, acts);
    var s := After(c, b, mem, rmem, acts);
    if s.a.todo != [] {
      AlwaysInBounds(c, s);
    }
  }

  /** Each bid is in exactly one of the five places. */
  lemma ExactlyOnePlace(c: Config, b: Boot, mem: seq<char>, rmem: seq<char>, acts: seq<Action>, bid: nat)
    requires ValidStart(c, b, mem, rmem)
    ensures var s := After(c, b, mem, rmem, acts);
            multiset(s.a.free)[bid] + TodoBids(s.a.todo)[bid] + SqeBids(s.a.sq)[bid] + SqeBids(s.k.active)[bid]
            + CqeBids(s.k.cq)[bid] == if bid < c.pool then 1 else 0
  {
    InvAfter(c, b, mem, rmem, acts);
    OneOwner(c, After(c, b, mem, rmem, acts), bid);
  }

  /** How one step can change the free list. */
  lemma FreeListMoves(c: Config, s: State, act: Action)
    ensures var a, a' := s.a, Apply(c, s, act).a;
            || (a'.free == a.free && a'.hist.returned == a.hist.returned && a'.hist.logs == a.hist.logs)
            || (a.free != [] && a'.free == a.free[1..] && a'.hist.returned == a.hist.returned
                && |a'.hist.logs| == |a.hist.logs| + 1)
            || (a'.free != [] && a'.free[1..] == a.free && a'.hist.returned == a.hist.returned + [a'.free[0]]
                && a'.hist.logs == a.hist.logs)
  {
    if Enabled(c, s, act) {
      match act
      case Dispatch(e) =>
      case RunOp =>
      case _ => KernelKeepsBooks(c, s, act);
    }
  }

  function Puts(s: State, bid: nat): nat {
    multiset(s.a.hist.returned)[bid]
  }

  /** Only a put of `bid` frees it. */
  lemma FreedByPut(c: Config, s: State, act: Action, bid: nat)
    requires bid !in s.a.free
    ensures Puts(Apply(c, s, act), bid) == Puts(s, bid) || Puts(Apply(c, s, act), bid) == Puts(s, bid) + 1
    ensures bid in Apply(c, s, act).a.free ==> Puts(Apply(c, s, act), bid) == Puts(s, bid) + 1
  {
    FreeListMoves(c, s, act);
    FreedSeq(s.a.free, Apply(c, s, act).a.free, bid);
  }

  lemma FreedSeq(free: seq<nat>, free': seq<nat>, bid: nat)
    requires bid !in free
    ensures free != [] && free' == free[1..] ==> bid !in free'
    ensures free' != [] && free'[1..] == free && bid in free' ==> free'[0] == bid
  {
  }

  lemma StaysOutstanding(c: Config, s: State, act: Action, bid: nat)
    requires Inv(c, s) && bid in Outstanding(s)
    ensures var t := Apply(c, s, act);
            Puts(s, bid) <= Puts(t, bid) && (bid in Outstanding(t) || Puts(t, bid) == Puts(s, bid) + 1)
  {
    InvStep(c, s, act);
    OneOwner(c, s, bid);
    OneOwner(c, Apply(c, s, act), bid);
    FreedByPut(c, s, act, bid);
  }

  lemma {:induction false} ReturnedGrows(c: Config, s: State, acts: seq<Action>)
    ensures s.a.hist.returned <= Exec(c, s, acts).a.hist.returned
    decreases |acts|
  {
    if acts != [] {
      FreeListMoves(c, s, acts[0]);
      ReturnedGrows(c, Apply(c, s, acts[0]), acts[1..]);
    }
  }

  lemma PutsGrow(c: Config, s: State, acts: seq<Action>, bid: nat)
    ensures Puts(s, bid) <= Puts(Exec(c, s, acts), bid)
  {
    ReturnedGrows(c, s, acts);
    var r, r' := s.a.hist.returned, Exec(c, s, acts).a.hist.returned;
    assert r' == r + r'[|r|..];
  }

  /** In-flight integrity: from any moment at which a buffer is out until it is put back, whatever
      happens in between, no byte of its slice changes, and it stays out. */
  lemma {:induction false} InFlightIntact(c: Config, s: State, acts: seq<Action>, bid: nat)
    requires Inv(c, s) && bid in Outstanding(s)
    requires Puts(Exec(c, s, acts), bid) == Puts(s, bid)
    ensures bid in Outstanding(Exec(c, s, acts))
    ensures (bid + 1) * BUFSIZE <= |s.a.mem| == |Exec(c, s, acts).a.mem|
    ensures Slice(Exec(c, s, acts).a.mem, BUFSIZE, bid) == Slice(s.a.mem, BUFSIZE, bid)
    decreases |acts|
  {
    OneOwner(c, s, bid);
    if acts != [] {
      var t := Apply(c, s, acts[0]);
      InvStep(c, s, acts[0]);
      StaysOutstanding(c, s, acts[0], bid);
      StepKeepsOutstanding(c, s, acts[0], bid);
      PutsGrow(c, t, acts[1..], bid);
      InFlightIntact(c, t, acts[1..], bid);
    }
  }

  /** A write's slice holds the image taken when it was queued, with its line, for as long as the
      request is queued or active and while its completion waits. */
  lemma QueuedWriteKeepsImage(c: Config, b: Boot, mem: seq<char>, rmem: seq<char>, acts: seq<Action>, w: Request)
    requires ValidStart(c, b, mem, rmem) && w.Write?
    requires var s := After(c, b, mem, rmem, acts);
             (exists q :: (q in s.a.sq || q in s.k.active) && q.req == w) || (exists x :: x in s.k.cq && x.origin == w)
    ensures var s := After(c, b, mem, rmem, acts);
            && (w.bid + 1) * BUFSIZE <= |s.a.mem| && Slice(s.a.mem, BUFSIZE, w.bid) == w.image
            && HoldsLine(w.image, w.line) && w.len == |w.line|
  {
    InvAfter(c, b, mem, rmem, acts);
    assert Intact(After(c, b, mem, rmem, acts).a.mem, w);
  }

  // ---- the buffer ring ----

  /** Both recycles: visible and held buffers always number `entries`, so the tail never laps the
      head; every slot is a complete record of one buffer; buffers are recycled in picking order. */
  lemma RingKeepsCount(c: Config, b: Boot, mem: seq<char>, rmem: seq<char>, acts: seq<Action>)
    requires ValidStart(c, b, mem, rmem)
    ensures var s := After(c, b, mem, rmem, acts);
            && Count(s.a.ring, s.k.head) + |Held(s)| == c.entries
            && Consistent(s.a.ring, c.entrySize)
            && s.a.hist.recycled <= s.k.picked
  {
    InvAfter(c, b, mem, rmem, acts);
  }

  /** Offset 0: the ring is an unbounded FIFO queue of buffers, and loses none. */
  lemma ManualRingIsAQueue(c: Config, b: Boot, mem: seq<char>, rmem: seq<char>, acts: seq<Action>)
    requires ValidStart(c, b, mem, rmem) && c.policy == Manual
    ensures var s := After(c, b, mem, rmem, acts);
            && |s.a.ring.slots| > 0
            && Range(c.entries) + s.a.hist.recycled == s.k.picked + Visible(s.a.ring, s.k.head)
            && multiset(Visible(s.a.ring, s.k.head)) + multiset(Held(s)) == multiset(Range(c.entries))
  {
    InvAfter(c, b, mem, rmem, acts);
    QueueConserves(c, After(c, b, mem, rmem, acts));
  }

  /** Offset 0: every message read is the message that completion delivered. */
  lemma ManualReadsWhatArrived(c: Config, b: Boot, mem: seq<char>, rmem: seq<char>, acts: seq<Action>, p: Packet)
    requires ValidStart(c, b, mem, rmem) && c.policy == Manual
    requires p in After(c, b, mem, rmem, acts).a.hist.received
    ensures p.read == p.delivered
  {
    InvAfter(c, b, mem, rmem, acts);
  }

  // ---- dispatch ----

  /** Every completion of every run is dispatched by its own request: whichever completion the loop
      takes, the tag sends it into the branch of the request it completes, with that request's key cut
      to 16 bits, and the step taken is the one the request calls for. */
  lemma DispatchedByOwnRequest(c: Config, b: Boot, mem: seq<char>, rmem: seq<char>, acts: seq<Action>, x: Cqe, e: Env)
    requires ValidStart(c, b, mem, rmem) && x in After(c, b, mem, rmem, acts).k.cq
    ensures var s := After(c, b, mem, rmem, acts);
            && Branch(x) == OpcodeOf(x.origin) && Decode(x.ud).fd == KeyOf(x.origin) % U16
            && (x.origin.Write? ==> x.origin.bid < c.pool && Decode(x.ud).fd == x.origin.bid)
            && Handle(s.a, x, e) == HandleRequest(s.a, x, e)
            && NextDispatch(s, e) == Take(s, e)
  {
    InvAfter(c, b, mem, rmem, acts);
    OwnRequest(c, After(c, b, mem, rmem, acts), x, e);
  }

  lemma OwnRequest(c: Config, s: State, x: Cqe, e: Env)
    requires ValidConfig(c) && Tagged(s) && Partition(c, s) && x in s.k.cq
    ensures Branch(x) == OpcodeOf(x.origin) && Decode(x.ud).fd == KeyOf(x.origin) % U16
    ensures x.origin.Write? ==> x.origin.bid < c.pool && Decode(x.ud).fd == x.origin.bid
    ensures Handle(s.a, x, e) == HandleRequest(s.a, x, e)
    ensures NextDispatch(s, e) == Take(s, e)
  {
    DispatchByOrigin(s, x);
    HandleByOrigin(s.a, x, e);
    DispatchIsTake(s, e);
    if x.origin.Write? {
      CqeOutstanding(s, x);
      OwnedBidsFit(c, s, x.origin.bid);
    }
  }

  // ---- the pool's books ----

  /** At every wait: four lines at start-up, one per connection, one per message; each took a buffer
      and each put gave one back. */
  lemma PoolAccountAtWait(c: Config, b: Boot, mem: seq<char>, rmem: seq<char>, acts: seq<Action>)
    requires ValidStart(c, b, mem, rmem) && After(c, b, mem, rmem, acts).a.todo == []
    ensures var a := After(c, b, mem, rmem, acts).a; var h := a.hist;
            && |a.free| == c.pool - (4 + |h.accepted| + |h.received|) + |h.returned|
            && h.logs == [Debug, Info, Warn, Error] + Repeat(Debug, |h.accepted| + |h.received|)
  {
    InvAfter(c, b, mem, rmem, acts);
    var a := After(c, b, mem, rmem, acts).a;
    assert Gather(a.todo, ReadFd) == [] && Gather(a.todo, LogLevel) == [];
    assert a.hist.logs + [] == a.hist.logs;
  }

  /** A log call about to pop aborts the run exactly when every buffer of the pool is out. */
  lemma PoolEmptyIff(c: Config, b: Boot, mem: seq<char>, rmem: seq<char>, acts: seq<Action>)
    requires ValidStart(c, b, mem, rmem)
    requires var a := After(c, b, mem, rmem, acts).a; a.status == Running && a.todo != [] && a.todo[0].LogPop?
    ensures var s := After(c, b, mem, rmem, acts);
            Apply(c, s, RunOp).a.status == Aborted(PoolEmpty) <==> Outstanding(s) == multiset(Range(c.pool))
  {
    InvAfter(c, b, mem, rmem, acts);
    var s := After(c, b, mem, rmem, acts);
    EmptyIffAllOutstanding(c, s);
    PopOutcome(c, s);
  }

  lemma PopOutcome(c: Config, s: State)
    requires s.a.status == Running && s.a.todo != [] && s.a.todo[0].LogPop?
    ensures Apply(c, s, RunOp).a.status == Aborted(PoolEmpty) <==> s.a.free == []
  {
  }

  /** And no other abort reports an empty pool. */
  lemma PoolEmptyMeansAllOut(c: Config, b: Boot, mem: seq<char>, rmem: seq<char>, acts: seq<Action>)
    requires ValidStart(c, b, mem, rmem) && After(c, b, mem, rmem, acts).a.status == Aborted(PoolEmpty)
    ensures Outstanding(After(c, b, mem, rmem, acts)) == multiset(Range(c.pool))
  {
    InvAfter(c, b, mem, rmem, acts);
    EmptyIffAllOutstanding(c, After(c, b, mem, rmem, acts));
  }

  // ---- the free list over runs ----

  lemma {:induction false} LogsGrow(c: Config, s: State, acts: seq<Action>)
    ensures |s.a.hist.logs| <= |Exec(c, s, acts).a.hist.logs|
    decreases |acts|
  {
    if acts != [] {
      FreeListMoves(c, s, acts[0]);
      LogsGrow(c, Apply(c, s, acts[0]), acts[1..]);
    }
  }

  lemma DrainStep(free: seq<nat>, x: nat, more: seq<nat>)
    ensures Reverse(more) + ([x] + free) == Reverse([x] + more) + free
  {
    assert ([x] + more)[1..] == more;
  }

  /** Drain order: over any stretch of a run without a log call, the buffers put back lie on the
      free list in reverse order of their puts, on top of what was there. */
  lemma {:induction false} DrainOrder(c: Config, s: State, acts: seq<Action>)
    requires |Exec(c, s, acts).a.hist.logs| == |s.a.hist.logs|
    ensures var t := Exec(c, s, acts);
            && s.a.hist.returned <= t.a.hist.returned
            && t.a.free == Reverse(t.a.hist.returned[|s.a.hist.returned|..]) + s.a.free
    decreases |acts|
  {
    if acts == [] {
      assert Reverse(s.a.hist.returned[|s.a.hist.returned|..]) == [];
    } else {
      var u := Apply(c, s, acts[0]);
      FreeListMoves(c, s, acts[0]);
      LogsGrow(c, u, acts[1..]);
      DrainOrder(c, u, acts[1..]);
      if u.a.hist.returned != s.a.hist.returned {
        var x := u.a.free[0];
        var r, r' := s.a.hist.returned, Exec(c, s, acts).a.hist.returned;
        assert r'[|r|..] == [x] + r'[|r| + 1..];
        DrainStep(s.a.free, x, r'[|r| + 1..]);
      }
    }
  }

  /** The puts of that stretch are the write completions in the order the kernel posted them. */
  lemma DrainInCompletionOrder(c: Config, s: State, acts: seq<Action>)
    requires Inv(c, s) && |Exec(c, s, acts).a.hist.logs| == |s.a.hist.logs|
    ensures var t := Exec(c, s, acts); var m, n := |s.a.hist.returned|, |t.a.hist.returned|;
            && m <= n <= |t.k.finished|
            && t.a.free == Reverse(t.k.finished[m..n]) + s.a.free
            && Distinct(t.a.free)
  {
    var t := Exec(c, s, acts);
    InvExec(c, s, acts);
    DrainOrder(c, s, acts);
    FreeIsDistinct(c, t);
    var m, n := |s.a.hist.returned|, |t.a.hist.returned|;
    assert t.k.finished[..n] == t.a.hist.returned;
    assert t.k.finished[m..n] == t.a.hist.returned[m..];
  }
}
