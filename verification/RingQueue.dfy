/** The provided-buffer ring over whole runs: what both recycles keep, and the queue law of the
    manual's recycle. */
module RingQueue {
  import opened Bits
  import opened Seqs
  import opened RingSpec
  import opened Model
  import opened StateShape
  import opened Tagging

  // ---- the buffers the application holds, oldest first ----

  function OpHeld(op: Op): seq<nat> {
    match op
    case RingAdd(bid) => [bid]
    case RingAdvance(bid) => [bid]
    case _ => []
  }

  function CqeHeld(x: Cqe): seq<nat> {
    if x.origin.Recv? && x.res >= 0 then [x.flags / BUFFER_SHIFT] else []
  }

  function HeldByOps(ops: seq<Op>): seq<nat> {
    if ops == [] then [] else OpHeld(ops[0]) + HeldByOps(ops[1..])
  }

  function HeldByCqes(xs: seq<Cqe>): seq<nat> {
    if xs == [] then [] else CqeHeld(xs[0]) + HeldByCqes(xs[1..])
  }

  /** Buffers picked and not yet recycled: the current handler's, then the waiting completions'. */
  function Held(s: State): seq<nat> {
    HeldByOps(s.a.todo) + HeldByCqes(s.k.cq)
  }

  // ---- the invariants ----

  /** Kept by either recycle: the tail never laps the head, buffers come back in the order they
      were taken, and completions name real buffers. */
  ghost predicate RingCounts(c: Config, s: State) {
    && Count(s.a.ring, s.k.head) + |Held(s)| == c.entries
    && s.k.picked == s.a.hist.recycled + Held(s)
    && forall i :: 0 <= i < |Held(s)| ==> Held(s)[i] < c.entries
  }

  /** Offset 0 only: everything ever offered is what was picked, then what is still visible. */
  ghost predicate QueueLaw(c: Config, s: State) {
    && |s.a.ring.slots| > 0
    && Range(c.entries) + s.a.hist.recycled == s.k.picked + Visible(s.a.ring, s.k.head)
    && (s.a.todo != [] && s.a.todo[0].RingAdvance? ==> BidAt(s.a.ring, s.a.ring.tail) == s.a.todo[0].bid)
  }

  // ---- how holdings add up ----

  lemma {:induction false} HeldByCqesAppend(xs: seq<Cqe>, x: Cqe)
    ensures HeldByCqes(xs + [x]) == HeldByCqes(xs) + CqeHeld(x)
    decreases |xs|
  {
    if xs != [] {
      assert (xs + [x])[1..] == xs[1..] + [x];
      HeldByCqesAppend(xs[1..], x);
    } else {
      assert xs + [x] == [x];
    }
  }

  lemma {:induction false} HeldByNone(ops: seq<Op>)
    requires forall i :: 0 <= i < |ops| ==> OpHeld(ops[i]) == []
    ensures HeldByOps(ops) == []
    decreases |ops|
  {
    if ops != [] { HeldByNone(ops[1..]); }
  }

  lemma RecvHolds(fd: nat, bid: nat, len: nat, x: Cqe, e: Env)
    ensures HeldByOps(RecvOps(fd, bid, len, x, e)) == [bid]
  {
    var ops := RecvOps(fd, bid, len, x, e);
    HeldByNone(ops[3..]);
    assert ops[2..][1..] == ops[3..];
    assert ops[1..][1..] == ops[2..];
    assert HeldByOps(ops[2..]) == [bid];
    assert HeldByOps(ops[1..]) == [bid];
  }

  lemma AcceptHolds(clientfd: nat, e: Env)
    ensures HeldByOps(AcceptOps(clientfd, e)) == []
  {
    HeldByNone(AcceptOps(clientfd, e));
  }

  lemma BootHolds(b: Boot)
    requires ValidBoot(b)
    ensures HeldByOps(BootOps(b)) == []
  {
    HeldByNone(BootOps(b));
  }

  lemma HandlerHolds(a: App, x: Cqe, e: Env)
    requires HandleRequest(a, x, e).status == Running
    ensures HeldByOps(HandleRequest(a, x, e).todo) == CqeHeld(x)
  {
    if x.origin.Recv? {
      RecvHolds(x.origin.fd % U16, x.flags / BUFFER_SHIFT, x.res, x, e);
    } else if x.origin.Accept? {
      AcceptHolds(x.res, e);
    } else {
      HeldByNone(HandleRequest(a, x, e).todo);
    }
  }

  // ---- preservation ----

  /** A step the ring cannot notice. */
  ghost predicate RingUntouched(s: State, t: State) {
    && t.a.ring == s.a.ring && t.k.head == s.k.head && t.k.picked == s.k.picked
    && t.a.hist.recycled == s.a.hist.recycled && Held(t) == Held(s)
    && (t.a.todo != [] && t.a.todo[0].RingAdvance? ==> t.a.todo == s.a.todo)
  }

  lemma RingInit(c: Config, b: Boot, mem: seq<char>, rmem: seq<char>)
    requires ValidStart(c, b, mem, rmem)
    ensures RingCounts(c, Init(c, b, mem, rmem)) && QueueLaw(c, Init(c, b, mem, rmem))
  {
    BootHolds(b);
    InitExposesAll(c.entries, c.entrySize);
  }

  lemma OpLeavesRing(c: Config, s: State)
    requires Shape(c, s) && s.a.todo != []
    requires !s.a.todo[0].RingAdd? && !s.a.todo[0].RingAdvance?
    ensures RingUntouched(s, s.(a := StepOp(c, s.a)))
  {
    var a' := StepOp(c, s.a);
    assert OpHeld(s.a.todo[0]) == [];
    OpFrame(c, s.a);
    if s.a.todo[0].LogPop? && a'.todo != s.a.todo {
      assert a'.todo[1..] == s.a.todo[1..];
    }
  }

  lemma OpFrame(c: Config, a: App)
    requires a.todo != [] && !a.todo[0].RingAdd? && !a.todo[0].RingAdvance?
    ensures var a' := StepOp(c, a);
            && a'.ring == a.ring && a'.hist.recycled == a.hist.recycled
            && (a'.todo == a.todo || a'.todo == a.todo[1..] ||
                (a.todo[0].LogPop? && |a'.todo| == |a.todo| && a'.todo[0].LogQueue? && a'.todo[1..] == a.todo[1..]))
  {
  }

  lemma DispatchLeavesRing(s: State, e: Env)
    requires Tagged(s) && s.a.todo == [] && s.k.cq != [] && s.a.status == Running
    ensures RingUntouched(s, NextDispatch(s, e))
  {
    DispatchIsTake(s, e);
    var x := s.k.cq[0];
    HandleFrame(s.a, x, e);
    if HandleRequest(s.a, x, e).status == Running {
      HandlerHolds(s.a, x, e);
    } else {
      StoppedKeepsTodo(s.a, x, e);
    }
  }

  lemma PostLeavesRing(s: State, t: State, x: Cqe)
    requires t.a.ring == s.a.ring && t.a.todo == s.a.todo && t.a.hist == s.a.hist
    requires t.k.head == s.k.head && t.k.picked == s.k.picked && t.k.cq == s.k.cq + [x] && CqeHeld(x) == []
    ensures RingUntouched(s, t)
  {
    HeldByCqesAppend(s.k.cq, x);
  }

  lemma KernelLeavesRing(c: Config, s: State, act: Action)
    requires Enabled(c, s, act) && !act.Dispatch? && !act.RunOp? && !act.CompleteRecv?
    ensures RingUntouched(s, Next(c, s, act))
  {
    var t := Next(c, s, act);
    match act
    case WaitFails =>
    case Consume =>
    case CompleteAccept(i, res, more) => PostLeavesRing(s, t, t.k.cq[|s.k.cq|]);
    case FailRecv(i, res) => PostLeavesRing(s, t, t.k.cq[|s.k.cq|]);
    case CompleteWrite(i, n) => PostLeavesRing(s, t, t.k.cq[|s.k.cq|]);
    case CompleteSend(i, res, more) => PostLeavesRing(s, t, t.k.cq[|s.k.cq|]);
  }

  predicate TouchesRing(s: State, act: Action) {
    act.CompleteRecv? || (act.RunOp? && s.a.todo != [] && (s.a.todo[0].RingAdd? || s.a.todo[0].RingAdvance?))
  }

  lemma OthersLeaveRing(c: Config, s: State, act: Action)
    requires Shape(c, s) && Tagged(s) && !TouchesRing(s, act)
    ensures RingUntouched(s, Apply(c, s, act))
  {
    if Enabled(c, s, act) {
      match act
      case Dispatch(e) => DispatchLeavesRing(s, e);
      case RunOp => OpLeavesRing(c, s);
      case _ => KernelLeavesRing(c, s, act);
    }
  }

  /** The kernel's pick moves the bid at the head from the visible ones to the held ones. */
  lemma PickHolds(c: Config, s: State, i: nat, payload: seq<char>, more: bool)
    requires i < |s.k.active| && CanPick(s, |payload|) && s.k.active[i].req.Recv?
    ensures var t := NextRecv(s, i, payload, more); var bid := BidAt(s.a.ring, s.k.head);
            && Held(t) == Held(s) + [bid] && t.k.picked == s.k.picked + [bid]
            && t.a.ring == s.a.ring && t.k.head == NextHead(s.k.head) && t.a.todo == s.a.todo && t.a.hist == s.a.hist
  {
    var t := NextRecv(s, i, payload, more);
    var x := t.k.cq[|s.k.cq|];
    var bid := BidAt(s.a.ring, s.k.head);
    HeldByCqesAppend(s.k.cq, x);
    assert x.flags / BUFFER_SHIFT == bid;
  }

  lemma RingPick(c: Config, s: State, i: nat, payload: seq<char>, more: bool)
    requires ValidConfig(c) && Sizes(c, s) && RingCounts(c, s)
    requires i < |s.k.active| && CanPick(s, |payload|) && s.k.active[i].req.Recv?
    ensures RingCounts(c, NextRecv(s, i, payload, more))
    ensures QueueLaw(c, s) ==> QueueLaw(c, NextRecv(s, i, payload, more))
  {
    PickHolds(c, s, i, payload, more);
    PickDequeues(s.a.ring, s.k.head);
    var t := NextRecv(s, i, payload, more);
    var bid := BidAt(s.a.ring, s.k.head);
    assert t.k.picked == t.a.hist.recycled + Held(t);
    if QueueLaw(c, s) {
      assert s.k.picked + ([bid] + Visible(t.a.ring, t.k.head)) == t.k.picked + Visible(t.a.ring, t.k.head);
    }
  }

  lemma AddHolds(c: Config, s: State, bid: nat)
    requires s.a.todo != [] && s.a.todo[0] == RingAdd(bid)
    ensures Held(s.(a := DoRingAdd(c, s.a, bid))) == Held(s)
  {
    var a' := DoRingAdd(c, s.a, bid);
    if bid < |s.a.ring.slots| {
      assert a'.todo[1..] == s.a.todo[1..];
    }
  }

  lemma RingAddKeeps(c: Config, s: State, bid: nat)
    requires ValidConfig(c) && Sizes(c, s) && RingCounts(c, s)
    requires s.a.todo != [] && s.a.todo[0] == RingAdd(bid)
    ensures RingCounts(c, s.(a := DoRingAdd(c, s.a, bid)))
    ensures c.policy == Manual && QueueLaw(c, s) ==> QueueLaw(c, s.(a := DoRingAdd(c, s.a, bid)))
  {
    AddHolds(c, s, bid);
    var r := s.a.ring;
    assert Held(s)[0] == bid;
    assert Count(r, s.k.head) < |r.slots|;
    if c.policy == Manual {
      TailNotVisible(r, s.k.head);
      AddVisible(r, s.k.head, BufferOf(bid, c.entrySize), 0);
    }
  }

  lemma AdvanceCounts(c: Config, s: State, bid: nat)
    requires ValidConfig(c) && Sizes(c, s) && RingCounts(c, s)
    requires s.a.todo != [] && s.a.todo[0] == RingAdvance(bid)
    ensures RingCounts(c, s.(a := DoRingAdvance(s.a, bid)))
    ensures Held(s) == [bid] + Held(s.(a := DoRingAdvance(s.a, bid)))
    ensures Count(s.a.ring, s.k.head) < c.entries
  {
    var t := s.(a := DoRingAdvance(s.a, bid));
    assert Held(s) == [bid] + Held(t);
    assert s.a.hist.recycled + ([bid] + Held(t)) == t.a.hist.recycled + Held(t);
    assert forall i :: 0 <= i < |Held(t)| ==> Held(t)[i] == Held(s)[i + 1];
    AdvanceVisible(s.a.ring, s.k.head);
  }

  lemma RingAdvanceKeeps(c: Config, s: State, bid: nat)
    requires ValidConfig(c) && Sizes(c, s) && RingCounts(c, s)
    requires s.a.todo != [] && s.a.todo[0] == RingAdvance(bid) && !(|s.a.todo| > 1 && s.a.todo[1].RingAdvance?)
    ensures RingCounts(c, s.(a := DoRingAdvance(s.a, bid)))
    ensures QueueLaw(c, s) ==> QueueLaw(c, s.(a := DoRingAdvance(s.a, bid)))
  {
    AdvanceCounts(c, s, bid);
    if QueueLaw(c, s) {
      AdvanceVisible(s.a.ring, s.k.head);
      AppendBoth(Range(c.entries), s.a.hist.recycled, s.k.picked, Visible(s.a.ring, s.k.head), bid);
    }
  }

  lemma AppendBoth(a: seq<nat>, b: seq<nat>, p: seq<nat>, q: seq<nat>, x: nat)
    requires a + b == p + q
    ensures a + (b + [x]) == p + (q + [x])
  {
    assert a + (b + [x]) == (a + b) + [x];
    assert p + (q + [x]) == (p + q) + [x];
  }

  lemma RingStep(c: Config, s: State, act: Action)
    requires ValidConfig(c) && Shape(c, s) && Tagged(s) && RingCounts(c, s)
    ensures RingCounts(c, Apply(c, s, act))
    ensures c.policy == Manual && QueueLaw(c, s) ==> QueueLaw(c, Apply(c, s, act))
  {
    if !TouchesRing(s, act) {
      OthersLeaveRing(c, s, act);
    } else if Enabled(c, s, act) {
      match act
      case CompleteRecv(i, payload, more) => RingPick(c, s, i, payload, more);
      case RunOp =>
        var bid := s.a.todo[0].bid;
        if s.a.todo[0].RingAdd? { RingAddKeeps(c, s, bid); } else { RingAdvanceKeeps(c, s, bid); }
    }
  }

  // ---- what the laws mean ----

  /** Offset 0 conserves: visible and held bids together are always each buffer exactly once. */
  lemma QueueConserves(c: Config, s: State)
    requires RingCounts(c, s) && QueueLaw(c, s)
    ensures multiset(Visible(s.a.ring, s.k.head)) + multiset(Held(s)) == multiset(Range(c.entries))
  {
    var v: seq<nat> := Visible(s.a.ring, s.k.head);
    var rec := s.a.hist.recycled;
    assert multiset(Range(c.entries) + rec) == multiset(s.k.picked + v);
    assert multiset(s.k.picked) == multiset(rec) + multiset(Held(s));
    assert multiset(Range(c.entries)) + multiset(rec) == (multiset(Held(s)) + multiset(v)) + multiset(rec);
    CancelRight(multiset(Range(c.entries)), multiset(Held(s)) + multiset(v), multiset(rec));
  }

  lemma CancelRight(a: multiset<nat>, b: multiset<nat>, m: multiset<nat>)
    requires a + m == b + m
    ensures a == b
  {
    forall x
      ensures a[x] == b[x]
    {
      assert (a + m)[x] == (b + m)[x];
    }
  }

  /** Offset 0: a held buffer is held once and is not on offer. */
  lemma HeldNotVisible(c: Config, s: State, bid: nat)
    requires RingCounts(c, s) && QueueLaw(c, s) && bid in Held(s)
    ensures bid !in Visible(s.a.ring, s.k.head) && multiset(Held(s))[bid] == 1
  {
    QueueConserves(c, s);
    RangeHolds(c.entries, bid);
    var v: seq<nat> := Visible(s.a.ring, s.k.head);
    assert (multiset(v) + multiset(Held(s)))[bid] <= 1;
    assert multiset(Held(s))[bid] >= 1;
    assert bid in v <==> multiset(v)[bid] > 0;
  }

  // ---- one recycle, exactly ----

  /** Every buffer the kernel may pick or the application holds. */
  function Accessible(s: State): multiset<nat>
    requires |s.a.ring.slots| > 0
  {
    multiset(Visible(s.a.ring, s.k.head)) + multiset(Held(s))
  }

  /** A pick moves one buffer from visible to held. */
  lemma PickKeepsAccessible(c: Config, s: State, i: nat, payload: seq<char>, more: bool)
    requires ValidConfig(c) && Sizes(c, s)
    requires i < |s.k.active| && CanPick(s, |payload|) && s.k.active[i].req.Recv?
    ensures Accessible(NextRecv(s, i, payload, more)) == Accessible(s)
  {
    PickHolds(c, s, i, payload, more);
    PickDequeues(s.a.ring, s.k.head);
  }

  lemma KernelKeepsAccessible(c: Config, s: State, act: Action)
    requires ValidConfig(c) && Shape(c, s) && RingCounts(c, s) && KernelAct(act)
    ensures var t := Apply(c, s, act);
            && Shape(c, t) && RingCounts(c, t)
            && t.a.ring == s.a.ring && t.a.todo == s.a.todo && Accessible(t) == Accessible(s)
  {
    ShapeStep(c, s, act);
    if Enabled(c, s, act) {
      if act.CompleteRecv? {
        RingPick(c, s, act.i, act.payload, act.more);
        PickHolds(c, s, act.i, act.payload, act.more);
        PickKeepsAccessible(c, s, act.i, act.payload, act.more);
      } else {
        KernelLeavesRing(c, s, act);
        KernelKeepsTodo(c, s, act);
      }
    }
  }

  lemma KernelKeepsTodo(c: Config, s: State, act: Action)
    requires Enabled(c, s, act) && KernelAct(act)
    ensures Next(c, s, act).a.todo == s.a.todo
  {
  }

  lemma {:induction false} KernelRunKeepsAccessible(c: Config, s: State, acts: seq<Action>)
    requires ValidConfig(c) && Shape(c, s) && RingCounts(c, s)
    requires forall i :: 0 <= i < |acts| ==> KernelAct(acts[i])
    ensures var t := Exec(c, s, acts);
            && Shape(c, t) && RingCounts(c, t)
            && t.a.ring == s.a.ring && t.a.todo == s.a.todo && Accessible(t) == Accessible(s)
    decreases |acts|
  {
    if acts != [] {
      assert forall i :: 0 <= i < |acts[1..]| ==> acts[1..][i] == acts[i + 1];
      KernelKeepsAccessible(c, s, acts[0]);
      KernelRunKeepsAccessible(c, Apply(c, s, acts[0]), acts[1..]);
    }
  }

  /** The advance makes the buffer recorded at the tail visible and lets go of the one recycled. */
  lemma AdvanceAccessible(c: Config, s: State, bid: nat)
    requires ValidConfig(c) && Sizes(c, s) && RingCounts(c, s)
    requires s.a.todo != [] && s.a.todo[0] == RingAdvance(bid)
    ensures var t := s.(a := DoRingAdvance(s.a, bid));
            Accessible(t) + multiset{bid} == Accessible(s) + multiset{BidAt(s.a.ring, s.a.ring.tail)}
  {
    AdvanceCounts(c, s, bid);
    AdvanceVisible(s.a.ring, s.k.head);
    var t := s.(a := DoRingAdvance(s.a, bid));
    assert multiset(Held(s)) == multiset{bid} + multiset(Held(t));
  }

  /** The recycle with nothing between add and advance. */
  lemma PlainRecycleIff(c: Config, s: State, bid: nat)
    requires ValidConfig(c) && Shape(c, s) && RingCounts(c, s)
    requires s.a.todo != [] && s.a.todo[0] == RingAdd(bid)
    ensures var u := s.(a := DoRingAdd(c, s.a, bid));
            && Shape(c, u) && RingCounts(c, u) && u.a.todo != [] && u.a.todo[0] == RingAdvance(bid)
            && (Accessible(u) + multiset{BidAt(u.a.ring, u.a.ring.tail)} == Accessible(s) + multiset{bid}
                <==> RecycleSafe(s.a.ring, s.k.head, bid, Offset(c, bid)))
  {
    assert Held(s)[0] == bid;
    var u := s.(a := DoRingAdd(c, s.a, bid));
    ShapeStepOp(c, s);
    AddHolds(c, s, bid);
    RingAddKeeps(c, s, bid);
    var t := s.(a := DoRingAdvance(u.a, bid));
    AdvanceAccessible(c, u, bid);
    AdvanceCounts(c, u, bid);
    RecycleConservesIff(s.a.ring, s.k.head, BufferOf(bid, c.entrySize), Offset(c, bid));
    assert multiset(Held(s)) == multiset{bid} + multiset(Held(t));
    MoveOver(multiset(Visible(t.a.ring, t.k.head)), multiset(Visible(s.a.ring, s.k.head)), multiset(Held(t)), bid);
    AddBothSides(Accessible(t), Accessible(s), bid);
  }

  lemma AddBothSides(a: multiset<nat>, b: multiset<nat>, x: nat)
    ensures a == b <==> a + multiset{x} == b + multiset{x}
  {
    if a + multiset{x} == b + multiset{x} {
      CancelRight(a, b, multiset{x});
    }
  }

  lemma MoveOver(v': multiset<nat>, v: multiset<nat>, h: multiset<nat>, bid: nat)
    ensures v' + h == v + (multiset{bid} + h) <==> v' == v + multiset{bid}
  {
    assert v + (multiset{bid} + h) == (v + multiset{bid}) + h;
    if v' + h == v + (multiset{bid} + h) {
      CancelRight(v', v + multiset{bid}, h);
    }
  }

  /** Either policy, any state, any kernel steps between the add and the advance, picks included: the
      recycle keeps every buffer visible or held exactly when the test on the ring before it says so. */
  lemma RecycleKeepsBuffersIff(c: Config, s: State, bid: nat, between: seq<Action>)
    requires ValidConfig(c) && Shape(c, s) && RingCounts(c, s)
    requires s.a.todo != [] && s.a.todo[0] == RingAdd(bid)
    requires forall i :: 0 <= i < |between| ==> KernelAct(between[i])
    ensures var v := Exec(c, s.(a := DoRingAdd(c, s.a, bid)), between);
            && v.a.todo != [] && |v.a.ring.slots| > 0
            && (Accessible(v.(a := DoRingAdvance(v.a, bid))) == Accessible(s)
                <==> RecycleSafe(s.a.ring, s.k.head, bid, Offset(c, bid)))
  {
    var u := s.(a := DoRingAdd(c, s.a, bid));
    PlainRecycleIff(c, s, bid);
    KernelRunKeepsAccessible(c, u, between);
    var v := Exec(c, u, between);
    AdvanceAccessible(c, v, bid);
    AddBothSides(Accessible(v.(a := DoRingAdvance(v.a, bid))), Accessible(s), bid);
  }
}
