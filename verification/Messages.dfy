/** Received messages: the buffer a completion names still holds the message when it is read. */
module Messages {
  import opened Bits
  import opened Geometry
  import opened RingSpec
  import opened Model
  import opened StateShape
  import opened Tagging
  import opened RingQueue

  /** A message of this length fits the buffer named. */
  ghost predicate Fits(c: Config, bid: nat, len: int, payload: seq<char>) {
    bid < c.entries && len == |payload| && |payload| <= c.entrySize
  }

  /** Buffer `bid` starts with the message. */
  ghost predicate HoldsMessage(c: Config, rmem: seq<char>, bid: nat, payload: seq<char>) {
    && (bid + 1) * c.entrySize <= |rmem| && |payload| <= c.entrySize
    && Slice(rmem, c.entrySize, bid)[..|payload|] == payload
  }

  predicate Carries(x: Cqe) {
    x.origin.Recv? && x.res >= 0
  }

  ghost predicate CqesFit(c: Config, xs: seq<Cqe>) {
    forall x :: x in xs && Carries(x) ==> Fits(c, x.flags / BUFFER_SHIFT, x.res, x.payload)
  }

  /** A read is the first operation of its handler, which still holds the buffer. */
  ghost predicate ReadsFit(c: Config, todo: seq<Op>) {
    && (forall i :: 1 <= i < |todo| ==> !todo[i].ReadPacket?)
    && (todo != [] && todo[0].ReadPacket? ==>
          Fits(c, todo[0].bid, todo[0].len, todo[0].payload) && todo[0].bid in HeldByOps(todo))
  }

  /** Kept by either recycle. */
  ghost predicate MessagesFit(c: Config, s: State) {
    CqesFit(c, s.k.cq) && ReadsFit(c, s.a.todo)
  }

  /** Every message not yet read is where its completion, or the handler about to read it, says. */
  ghost predicate UnreadInPlace(c: Config, s: State) {
    && (forall x :: x in s.k.cq && Carries(x) ==> HoldsMessage(c, s.a.rmem, x.flags / BUFFER_SHIFT, x.payload))
    && (s.a.todo != [] && s.a.todo[0].ReadPacket? ==> HoldsMessage(c, s.a.rmem, s.a.todo[0].bid, s.a.todo[0].payload))
  }

  /** Every read so far returned what was delivered. */
  ghost predicate ReadsTrue(a: App) {
    forall p :: p in a.hist.received ==> p.read == p.delivered
  }

  ghost predicate MessagesHeld(c: Config, s: State) {
    UnreadInPlace(c, s) && ReadsTrue(s.a)
  }

  // ---- messages fit ----

  lemma FitInit(c: Config, b: Boot, mem: seq<char>, rmem: seq<char>)
    requires ValidStart(c, b, mem, rmem)
    ensures MessagesFit(c, Init(c, b, mem, rmem)) && MessagesHeld(c, Init(c, b, mem, rmem))
  {
  }

  lemma FitOp(c: Config, s: State)
    requires ReadsFit(c, s.a.todo) && s.a.todo != []
    ensures ReadsFit(c, StepOp(c, s.a).todo)
    ensures StepOp(c, s.a).todo != s.a.todo ==>
              StepOp(c, s.a).todo == [] || !StepOp(c, s.a).todo[0].ReadPacket?
  {
    StepTodo(c, s.a);
    var t := StepOp(c, s.a).todo;
    assert forall i :: 0 <= i < |s.a.todo[1..]| ==> s.a.todo[1..][i] == s.a.todo[i + 1];
    assert forall i :: 0 <= i < |t| - 1 ==> t[1..][i] == t[i + 1];
  }

  lemma FitHandler(c: Config, a: App, x: Cqe, e: Env)
    requires a.todo == [] && (Carries(x) ==> Fits(c, x.flags / BUFFER_SHIFT, x.res, x.payload))
    ensures ReadsFit(c, HandleRequest(a, x, e).todo)
  {
    if x.origin.Recv? && x.res >= 0 && e.valid {
      RecvHolds(x.origin.fd % U16, x.flags / BUFFER_SHIFT, x.res, x, e);
    }
  }

  lemma FitDispatch(c: Config, s: State, e: Env)
    requires Tagged(s) && MessagesFit(c, s) && s.a.todo == [] && s.k.cq != []
    ensures MessagesFit(c, NextDispatch(s, e))
  {
    DispatchIsTake(s, e);
    FitHandler(c, s.a, s.k.cq[0], e);
  }

  lemma FitRecv(c: Config, s: State, i: nat, payload: seq<char>, more: bool)
    requires ValidConfig(c) && Sizes(c, s) && MessagesFit(c, s)
    requires i < |s.k.active| && CanPick(s, |payload|) && s.k.active[i].req.Recv?
    ensures MessagesFit(c, NextRecv(s, i, payload, more))
  {
    var t := NextRecv(s, i, payload, more);
    var x := t.k.cq[|s.k.cq|];
    var slot := s.a.ring.slots[s.k.head % |s.a.ring.slots|];
    assert slot == BufferOf(slot.bid, c.entrySize) && slot.bid < c.entries;
    assert x.flags / BUFFER_SHIFT == slot.bid;
  }

  lemma FitKernel(c: Config, s: State, act: Action)
    requires MessagesFit(c, s) && Enabled(c, s, act) && !act.Dispatch? && !act.RunOp? && !act.CompleteRecv?
    ensures MessagesFit(c, Next(c, s, act))
  {
    match act
    case WaitFails =>
    case Consume =>
    case CompleteAccept(i, res, more) =>
    case FailRecv(i, res) =>
    case CompleteWrite(i, n) =>
    case CompleteSend(i, res, more) =>
  }

  lemma FitStep(c: Config, s: State, act: Action)
    requires ValidConfig(c) && Shape(c, s) && Tagged(s) && MessagesFit(c, s)
    ensures MessagesFit(c, Apply(c, s, act))
  {
    if Enabled(c, s, act) {
      match act
      case Dispatch(e) => FitDispatch(c, s, e);
      case RunOp => FitOp(c, s);
      case CompleteRecv(i, payload, more) => FitRecv(c, s, i, payload, more);
      case _ => FitKernel(c, s, act);
    }
  }

  // ---- messages stay ----

  lemma {:induction false} CqeIsHeld(xs: seq<Cqe>, x: Cqe)
    requires x in xs && Carries(x)
    ensures x.flags / BUFFER_SHIFT in HeldByCqes(xs)
    decreases |xs|
  {
    if xs[0] != x { CqeIsHeld(xs[1..], x); }
  }

  // ---- exactly when a delivery spoils an unread message ----

  /** The two agree as far as both reach. */
  predicate Agree(a: seq<char>, b: seq<char>) {
    var m := if |a| <= |b| then |a| else |b|;
    a[..m] == b[..m]
  }

  lemma OverwriteKeepsIff(old': seq<char>, payload: seq<char>, message: seq<char>)
    requires |payload| <= |old'| && |message| <= |old'| && old'[..|message|] == message
    ensures (payload + old'[|payload|..])[..|message|] == message <==> Agree(payload, message)
  {
    var new' := payload + old'[|payload|..];
    if |message| <= |payload| {
      assert new'[..|message|] == payload[..|message|];
      assert message[..|message|] == message;
    } else {
      assert forall k :: |payload| <= k < |message| ==> new'[k] == old'[k] == old'[..|message|][k];
      assert new'[..|message|][..|payload|] == payload == payload[..|payload|];
      if Agree(payload, message) {
        assert forall k :: 0 <= k < |payload| ==> new'[k] == message[..|payload|][k];
      }
    }
  }

  lemma DeliveryInPlace(c: Config, s: State, i: nat, payload: seq<char>, more: bool)
    requires ValidConfig(c) && Sizes(c, s)
    requires i < |s.k.active| && CanPick(s, |payload|) && s.k.active[i].req.Recv?
    ensures var bid := BidAt(s.a.ring, s.k.head);
            HoldsMessage(c, NextRecv(s, i, payload, more).a.rmem, bid, payload)
  {
    var slot := s.a.ring.slots[s.k.head % |s.a.ring.slots|];
    assert slot == BufferOf(slot.bid, c.entrySize) && slot.bid < c.entries;
    StoreSlice(s.a.rmem, c.entrySize, c.entries, slot.bid, payload);
  }

  lemma DeliveredSlice(c: Config, s: State, i: nat, payload: seq<char>, more: bool)
    requires ValidConfig(c) && Sizes(c, s)
    requires i < |s.k.active| && CanPick(s, |payload|) && s.k.active[i].req.Recv?
    ensures var bid := BidAt(s.a.ring, s.k.head); var t := NextRecv(s, i, payload, more);
            && |payload| <= c.entrySize && (bid + 1) * c.entrySize <= |s.a.rmem| == |t.a.rmem|
            && Slice(t.a.rmem, c.entrySize, bid) == payload + Slice(s.a.rmem, c.entrySize, bid)[|payload|..]
  {
    var slot := s.a.ring.slots[s.k.head % |s.a.ring.slots|];
    assert slot == BufferOf(slot.bid, c.entrySize) && slot.bid < c.entries;
    StoreSlice(s.a.rmem, c.entrySize, c.entries, slot.bid, payload);
    StoreTail(s.a.rmem, c.entrySize, c.entries, slot.bid, payload);
    var after := Slice(NextRecv(s, i, payload, more).a.rmem, c.entrySize, slot.bid);
    assert after == after[..|payload|] + after[|payload|..];
  }

  /** Either policy, any state: a delivery leaves the message in buffer `bid` readable exactly when
      the slot at the head names another buffer, or the new message agrees with the old one. */
  lemma DeliveryKeepsIff(c: Config, s: State, i: nat, payload: seq<char>, more: bool, bid: nat, message: seq<char>)
    requires ValidConfig(c) && Sizes(c, s) && bid < c.entries
    requires i < |s.k.active| && CanPick(s, |payload|) && s.k.active[i].req.Recv?
    requires HoldsMessage(c, s.a.rmem, bid, message)
    ensures HoldsMessage(c, NextRecv(s, i, payload, more).a.rmem, bid, message)
       <==> BidAt(s.a.ring, s.k.head) != bid || Agree(payload, message)
  {
    var slot := s.a.ring.slots[s.k.head % |s.a.ring.slots|];
    assert slot == BufferOf(slot.bid, c.entrySize) && slot.bid < c.entries;
    if slot.bid != bid {
      OtherSlice(s.a.rmem, c.entrySize, c.entries, slot.bid, payload, bid);
    } else {
      DeliveredSlice(c, s, i, payload, more);
      OverwriteKeepsIff(Slice(s.a.rmem, c.entrySize, bid), payload, message);
    }
  }

  /** The new message agrees with every unread message of the buffer it goes to. */
  ghost predicate Spares(s: State, payload: seq<char>)
    requires |s.a.ring.slots| > 0
  {
    var bid := BidAt(s.a.ring, s.k.head);
    && (forall x :: x in s.k.cq && Carries(x) && x.flags / BUFFER_SHIFT == bid ==> Agree(payload, x.payload))
    && (s.a.todo != [] && s.a.todo[0].ReadPacket? && s.a.todo[0].bid == bid ==> Agree(payload, s.a.todo[0].payload))
  }

  /** Either policy: a delivery keeps all unread messages in place exactly when it spares them. */
  lemma DeliveryKeepsAllIff(c: Config, s: State, i: nat, payload: seq<char>, more: bool)
    requires ValidConfig(c) && Sizes(c, s) && MessagesFit(c, s) && UnreadInPlace(c, s)
    requires i < |s.k.active| && CanPick(s, |payload|) && s.k.active[i].req.Recv?
    ensures UnreadInPlace(c, NextRecv(s, i, payload, more)) <==> Spares(s, payload)
  {
    var t := NextRecv(s, i, payload, more);
    var y := t.k.cq[|s.k.cq|];
    assert y.flags / BUFFER_SHIFT == BidAt(s.a.ring, s.k.head);
    DeliveryInPlace(c, s, i, payload, more);
    forall x | x in s.k.cq && Carries(x)
      ensures x in t.k.cq
      ensures HoldsMessage(c, t.a.rmem, x.flags / BUFFER_SHIFT, x.payload)
         <==> BidAt(s.a.ring, s.k.head) != x.flags / BUFFER_SHIFT || Agree(payload, x.payload)
    {
      DeliveryKeepsIff(c, s, i, payload, more, x.flags / BUFFER_SHIFT, x.payload);
    }
    if s.a.todo != [] && s.a.todo[0].ReadPacket? {
      DeliveryKeepsIff(c, s, i, payload, more, s.a.todo[0].bid, s.a.todo[0].payload);
    }
  }

  /** A pick that names no held buffer spares every unread message. */
  lemma FreshPickSpares(c: Config, s: State, payload: seq<char>)
    requires MessagesFit(c, s) && |s.a.ring.slots| > 0 && BidAt(s.a.ring, s.k.head) !in Held(s)
    ensures Spares(s, payload)
  {
    forall x | x in s.k.cq && Carries(x)
      ensures x.flags / BUFFER_SHIFT != BidAt(s.a.ring, s.k.head)
    {
      CqeIsHeld(s.k.cq, x);
    }
  }

  /** Offset 0: no pick ever names a held buffer. */
  lemma QueuePicksFresh(c: Config, s: State)
    requires ValidConfig(c) && Sizes(c, s) && RingCounts(c, s) && QueueLaw(c, s) && Count(s.a.ring, s.k.head) > 0
    ensures BidAt(s.a.ring, s.k.head) !in Held(s)
  {
    PickDequeues(s.a.ring, s.k.head);
    var bid := BidAt(s.a.ring, s.k.head);
    assert bid in Visible(s.a.ring, s.k.head);
    if bid in Held(s) {
      HeldNotVisible(c, s, bid);
    }
  }

  /** The read about to run returns what was delivered exactly when the message is still in place. */
  lemma ReadIsTrueIff(c: Config, s: State)
    requires ValidConfig(c) && Sizes(c, s) && MessagesFit(c, s)
    requires s.a.status == Running && s.a.todo != [] && s.a.todo[0].ReadPacket?
    ensures var op := s.a.todo[0]; var h := StepOp(c, s.a).hist.received;
            && |h| == |s.a.hist.received| + 1
            && h[|h| - 1].delivered == op.payload
            && (h[|h| - 1].read == op.payload <==> HoldsMessage(c, s.a.rmem, op.bid, op.payload))
  {
    SliceBounds(s.a.todo[0].bid, c.entrySize, c.entries);
  }

  // ---- preservation ----

  lemma OpReads(c: Config, a: App)
    requires a.todo != []
    ensures StepOp(c, a).rmem == a.rmem
    ensures !a.todo[0].ReadPacket? ==> StepOp(c, a).hist.received == a.hist.received
  {
  }

  lemma InPlaceOp(c: Config, s: State)
    requires Shape(c, s) && MessagesFit(c, s) && UnreadInPlace(c, s) && s.a.todo != []
    ensures var t := s.(a := StepOp(c, s.a));
            UnreadInPlace(c, t) && (ReadsTrue(s.a) ==> ReadsTrue(t.a))
  {
    OpReads(c, s.a);
    FitOp(c, s);
    if s.a.todo[0].ReadPacket? {
      var op := s.a.todo[0];
      assert HoldsMessage(c, s.a.rmem, op.bid, op.payload);
    }
  }

  lemma InPlaceDispatch(c: Config, s: State, e: Env)
    requires Tagged(s) && UnreadInPlace(c, s) && s.a.todo == [] && s.k.cq != []
    ensures var t := NextDispatch(s, e);
            UnreadInPlace(c, t) && (ReadsTrue(s.a) ==> ReadsTrue(t.a))
  {
    DispatchIsTake(s, e);
    HandleFrame(s.a, s.k.cq[0], e);
    HandlerReads(s.a, s.k.cq[0], e);
  }

  lemma HandlerReads(a: App, x: Cqe, e: Env)
    requires a.todo == []
    ensures var a' := HandleRequest(a, x, e);
            && a'.hist.received == a.hist.received
            && (a'.todo != [] && a'.todo[0].ReadPacket? ==>
                  Carries(x) && a'.todo[0].bid == x.flags / BUFFER_SHIFT && a'.todo[0].payload == x.payload)
  {
  }

  lemma InPlaceKernel(c: Config, s: State, act: Action)
    requires UnreadInPlace(c, s) && Enabled(c, s, act) && !act.Dispatch? && !act.RunOp? && !act.CompleteRecv?
    ensures var t := Next(c, s, act);
            UnreadInPlace(c, t) && (ReadsTrue(s.a) ==> ReadsTrue(t.a))
  {
    match act
    case WaitFails =>
    case Consume =>
    case CompleteAccept(i, res, more) =>
    case FailRecv(i, res) =>
    case CompleteWrite(i, n) =>
    case CompleteSend(i, res, more) =>
  }

  /** An action that is a delivery spares what is unread. */
  ghost predicate Sparing(c: Config, s: State, act: Action) {
    act.CompleteRecv? && Enabled(c, s, act) ==> Spares(s, act.payload)
  }

  /** A step keeps every unread message in place exactly when it is no delivery or a sparing one; and
      from a state with all of them in place no read goes wrong. */
  lemma InPlaceStepIff(c: Config, s: State, act: Action)
    requires ValidConfig(c) && Shape(c, s) && Tagged(s) && MessagesFit(c, s) && UnreadInPlace(c, s)
    ensures UnreadInPlace(c, Apply(c, s, act)) <==> Sparing(c, s, act)
    ensures ReadsTrue(s.a) ==> ReadsTrue(Apply(c, s, act).a)
  {
    if Enabled(c, s, act) {
      match act
      case Dispatch(e) => InPlaceDispatch(c, s, e);
      case RunOp => InPlaceOp(c, s);
      case CompleteRecv(i, payload, more) => DeliveryKeepsAllIff(c, s, i, payload, more);
      case _ => InPlaceKernel(c, s, act);
    }
  }

  lemma QueueSpares(c: Config, s: State, act: Action)
    requires ValidConfig(c) && Sizes(c, s) && MessagesFit(c, s) && RingCounts(c, s) && QueueLaw(c, s)
    ensures Sparing(c, s, act)
  {
    if act.CompleteRecv? && Enabled(c, s, act) {
      QueuePicksFresh(c, s);
      FreshPickSpares(c, s, act.payload);
    }
  }
}
