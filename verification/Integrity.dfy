/** Memory handed to the kernel keeps its contents until the completion has been handled. */
module Integrity {
  import opened Geometry
  import opened LogLine
  import opened Model
  import opened StateShape
  import opened Tagging
  import opened Ownership

  /** What `snprintf` of `line` leaves in a buffer of BUFSIZE bytes, as far as it is determined. */
  ghost predicate HoldsLine(image: seq<char>, line: string) {
    && |image| == BUFSIZE
    && var m := if |line| < BUFSIZE then |line| else BUFSIZE - 1;
       image[..m] == line[..m] && image[m] == '\0'
  }

  /** The slice a write refers to still holds what it held when the write was queued: its line. */
  ghost predicate Intact(mem: seq<char>, r: Request) {
    r.Write? ==>
      && (r.bid + 1) * BUFSIZE <= |mem|
      && Slice(mem, BUFSIZE, r.bid) == r.image
      && HoldsLine(r.image, r.line)
      && r.len == |r.line|
  }

  /** A log call between formatting and queueing has its line in its slice. */
  ghost predicate Formatted(mem: seq<char>, op: Op) {
    op.LogQueue? ==> (op.bid + 1) * BUFSIZE <= |mem| && HoldsLine(Slice(mem, BUFSIZE, op.bid), op.line)
  }

  /** What the output device gets when the whole queued length of a line is written. */
  function Rendered(line: string): seq<char> {
    if |line| == BUFSIZE then line[..BUFSIZE - 1] + ['\0'] else line
  }

  /** The result of a write tells exactly what came out: that many characters of the line as it was
      rendered, all of it when the result is the length queued; and a line too long for its buffer
      fails with nothing written. */
  ghost predicate Faithful(e: Emission) {
    if |e.line| <= BUFSIZE && e.res >= 0 then
      |e.data| == e.res && e.data <= Rendered(e.line)
    else
      e.res == -14 && e.data == []
  }

  ghost predicate Images(s: State) {
    && (forall q :: q in s.a.sq ==> Intact(s.a.mem, q.req))
    && (forall q :: q in s.k.active ==> Intact(s.a.mem, q.req))
    && (forall x :: x in s.k.cq ==> Intact(s.a.mem, x.origin))
    && (forall op :: op in s.a.todo ==> Formatted(s.a.mem, op))
    && (forall e :: e in s.k.emitted ==> Faithful(e))
  }

  lemma PrintHoldsLine(buf: seq<char>, line: string)
    requires |buf| == BUFSIZE
    ensures HoldsLine(Print(buf, line), line)
  {
  }

  // ---- the one step that writes pool memory ----

  lemma OutstandingNotHead(c: Config, s: State, bid: nat)
    requires Partition(c, s) && s.a.free != [] && bid in Outstanding(s)
    ensures bid < c.pool && s.a.free[0] < c.pool && bid != s.a.free[0]
  {
    OneOwner(c, s, bid);
    OneOwner(c, s, s.a.free[0]);
  }

  /** Formatting a line touches no slice that is outstanding. */
  lemma LogPopKeepsOutstanding(c: Config, s: State, level: Level, stamp: string, text: string, pad: nat, bid: nat)
    requires Sizes(c, s) && Partition(c, s) && s.a.todo != [] && bid in Outstanding(s)
    ensures bid < c.pool && (bid + 1) * BUFSIZE <= |s.a.mem|
    ensures var mem' := DoLogPop(s.a, level, stamp, text, pad).mem;
            |mem'| == |s.a.mem| && Slice(mem', BUFSIZE, bid) == Slice(s.a.mem, BUFSIZE, bid)
  {
    OneOwner(c, s, bid);
    if s.a.free != [] {
      OutstandingNotHead(c, s, bid);
      var head := s.a.free[0];
      var line := Line(stamp, head, level, text);
      OtherSlice(s.a.mem, BUFSIZE, c.pool, head, Print(Slice(s.a.mem, BUFSIZE, head), line), bid);
    }
  }

  lemma SqeOutstanding(s: State, q: Sqe)
    requires q.req.Write? && (q in s.a.sq || q in s.k.active)
    ensures q.req.bid in Outstanding(s)
  {
    if q in s.a.sq {
      var i :| 0 <= i < |s.a.sq| && s.a.sq[i] == q;
      SqeBidIn(s.a.sq, i);
    } else {
      var i :| 0 <= i < |s.k.active| && s.k.active[i] == q;
      SqeBidIn(s.k.active, i);
    }
  }

  lemma CqeOutstanding(s: State, x: Cqe)
    requires x.origin.Write? && x in s.k.cq
    ensures x.origin.bid in Outstanding(s)
  {
    var i :| 0 <= i < |s.k.cq| && s.k.cq[i] == x;
    CqeBidIn(s.k.cq, i);
  }

  lemma IntactElsewhere(mem: seq<char>, mem': seq<char>, r: Request)
    requires Intact(mem, r) && |mem'| == |mem|
    requires r.Write? ==> Slice(mem', BUFSIZE, r.bid) == Slice(mem, BUFSIZE, r.bid)
    ensures Intact(mem', r)
  {
  }

  lemma LogPopKeepsRequests(c: Config, s: State, level: Level, stamp: string, text: string, pad: nat)
    requires Sizes(c, s) && Partition(c, s) && Images(s) && s.a.todo != []
    ensures var mem' := DoLogPop(s.a, level, stamp, text, pad).mem;
            && (forall q :: q in s.a.sq ==> Intact(mem', q.req))
            && (forall q :: q in s.k.active ==> Intact(mem', q.req))
            && (forall x :: x in s.k.cq ==> Intact(mem', x.origin))
  {
    var mem' := DoLogPop(s.a, level, stamp, text, pad).mem;
    forall q | q in s.a.sq || q in s.k.active
      ensures Intact(mem', q.req)
    {
      if q.req.Write? {
        SqeOutstanding(s, q);
        LogPopKeepsOutstanding(c, s, level, stamp, text, pad, q.req.bid);
        IntactElsewhere(s.a.mem, mem', q.req);
      }
    }
    forall x | x in s.k.cq
      ensures Intact(mem', x.origin)
    {
      if x.origin.Write? {
        CqeOutstanding(s, x);
        LogPopKeepsOutstanding(c, s, level, stamp, text, pad, x.origin.bid);
        IntactElsewhere(s.a.mem, mem', x.origin);
      }
    }
  }

  lemma LogPopFormats(c: Config, s: State, level: Level, stamp: string, text: string, pad: nat)
    requires Shape(c, s) && Partition(c, s) && s.a.todo != [] && s.a.todo[0] == LogPop(level, stamp, text, pad)
    ensures var a' := DoLogPop(s.a, level, stamp, text, pad);
            a'.status == s.a.status ==> forall op :: op in a'.todo ==> Formatted(a'.mem, op)
  {
    var a' := DoLogPop(s.a, level, stamp, text, pad);
    assert forall op :: op in s.a.todo[1..] ==> !op.LogQueue?;
    if s.a.free != [] {
      var head := s.a.free[0];
      OneOwner(c, s, head);
      assert head < c.pool;
      if (head + 1) * BUFSIZE <= |s.a.mem| {
        var line := Line(stamp, head, level, text);
        var data := Print(Slice(s.a.mem, BUFSIZE, head), line);
        PrintHoldsLine(Slice(s.a.mem, BUFSIZE, head), line);
        StoreSlice(s.a.mem, BUFSIZE, c.pool, head, data);
        assert Slice(a'.mem, BUFSIZE, head) == Slice(a'.mem, BUFSIZE, head)[..|data|] == data;
        assert a'.todo == [LogQueue(head, line, pad)] + s.a.todo[1..];
      }
    } else {
      assert forall op :: op in s.a.todo ==> op == s.a.todo[0] || op in s.a.todo[1..];
    }
  }

  // ---- preservation ----

  lemma ImagesInit(c: Config, b: Boot, mem: seq<char>, rmem: seq<char>)
    requires ValidStart(c, b, mem, rmem)
    ensures Images(Init(c, b, mem, rmem))
  {
  }

  lemma ImagesLogPop(c: Config, s: State, level: Level, stamp: string, text: string, pad: nat)
    requires Shape(c, s) && Partition(c, s) && Images(s)
    requires s.a.todo != [] && s.a.todo[0] == LogPop(level, stamp, text, pad)
    ensures Images(s.(a := DoLogPop(s.a, level, stamp, text, pad)))
  {
    LogPopKeepsRequests(c, s, level, stamp, text, pad);
    LogPopFormats(c, s, level, stamp, text, pad);
    var a' := DoLogPop(s.a, level, stamp, text, pad);
    if a'.status != s.a.status {
      assert a'.mem == s.a.mem && a'.todo == s.a.todo;
    }
  }

  lemma ImagesLogQueue(c: Config, s: State, bid: nat, line: string, pad: nat)
    requires Shape(c, s) && Images(s)
    requires s.a.todo != [] && s.a.todo[0] == LogQueue(bid, line, pad)
    ensures Images(s.(a := DoLogQueue(c, s.a, bid, line, pad)))
  {
    assert Formatted(s.a.mem, s.a.todo[0]);
  }

  lemma ImagesOther(s: State, a': App)
    requires Images(s) && a'.mem == s.a.mem
    requires forall op :: op in a'.todo ==> op in s.a.todo || !op.LogQueue?
    requires forall q :: q in a'.sq ==> q in s.a.sq || !q.req.Write?
    ensures Images(s.(a := a'))
  {
  }

  /** No other operation writes the pool, queues a write or starts a log call. */
  lemma OtherOps(c: Config, a: App)
    requires a.todo != [] && !a.todo[0].LogPop? && !a.todo[0].LogQueue?
    ensures var a' := StepOp(c, a);
            && a'.mem == a.mem
            && (a'.todo == a.todo || a'.todo == a.todo[1..] ||
                (a'.todo != [] && a'.todo[0].RingAdvance? && a'.todo[1..] == a.todo[1..]))
            && (a'.sq == a.sq || (a'.sq != [] && a'.sq[..|a'.sq| - 1] == a.sq && !a'.sq[|a'.sq| - 1].req.Write?))
  {
  }

  lemma ImagesOtherOp(c: Config, s: State)
    requires Images(s) && s.a.todo != [] && !s.a.todo[0].LogPop? && !s.a.todo[0].LogQueue?
    ensures Images(s.(a := StepOp(c, s.a)))
  {
    OtherOps(c, s.a);
    var a, a' := s.a, StepOp(c, s.a);
    if a'.todo != a.todo && a'.todo != a.todo[1..] {
      assert a'.todo == [a'.todo[0]] + a.todo[1..];
    }
    if a'.sq != a.sq {
      assert a'.sq == a.sq + [a'.sq[|a'.sq| - 1]];
    }
    ImagesOther(s, a');
  }

  lemma ImagesStepOp(c: Config, s: State)
    requires Shape(c, s) && Partition(c, s) && Images(s) && s.a.todo != []
    ensures Images(s.(a := StepOp(c, s.a)))
  {
    match s.a.todo[0]
    case LogPop(level, stamp, text, pad) => ImagesLogPop(c, s, level, stamp, text, pad);
    case LogQueue(bid, line, pad) => ImagesLogQueue(c, s, bid, line, pad);
    case _ => ImagesOtherOp(c, s);
  }

  lemma ImagesDispatch(s: State, e: Env)
    requires Tagged(s) && Images(s) && s.k.cq != []
    ensures Images(NextDispatch(s, e))
  {
    DispatchIsTake(s, e);
    HandleFrame(s.a, s.k.cq[0], e);
    assert forall op :: op in HandleRequest(s.a, s.k.cq[0], e).todo ==> op in s.a.todo || !op.LogQueue?;
    ImagesOther(s, HandleRequest(s.a, s.k.cq[0], e));
  }

  lemma SliceRenders(mem: seq<char>, w: Request, n: nat)
    requires w.Write? && Intact(mem, w) && w.len <= BUFSIZE && n <= w.len
    ensures Slice(mem, BUFSIZE, w.bid)[..n] <= Rendered(w.line)
  {
    var m := if |w.line| < BUFSIZE then |w.line| else BUFSIZE - 1;
    var whole := w.image[..m] + [w.image[m]];
    assert w.image[..n] <= if w.len < BUFSIZE then w.line else whole;
  }

  lemma ImagesWrite(s: State, i: nat, n: nat)
    requires Images(s) && i < |s.k.active| && s.k.active[i].req.Write?
    ensures Images(NextWrite(s, i, n))
  {
    var w := s.k.active[i].req;
    assert Intact(s.a.mem, w);
    if n <= w.len <= BUFSIZE {
      SliceRenders(s.a.mem, w, n);
    }
    var t := NextWrite(s, i, n);
    assert Faithful(t.k.emitted[|s.k.emitted|]);
  }

  /** A kernel step that only moves requests from one place to the next. */
  lemma ImagesCarried(s: State, t: State)
    requires Images(s) && t.a.mem == s.a.mem && t.a.todo == s.a.todo && t.k.emitted == s.k.emitted
    requires forall q :: q in t.a.sq ==> q in s.a.sq
    requires forall q :: q in t.k.active ==> q in s.a.sq || q in s.k.active || !q.req.Write?
    requires forall x :: x in t.k.cq ==> x in s.k.cq || !x.origin.Write?
    ensures Images(t)
  {
  }

  lemma ImagesConsume(s: State)
    requires Images(s) && s.a.submitted > 0 && s.a.sq != []
    ensures Images(NextConsume(s))
  {
    ImagesCarried(s, NextConsume(s));
  }

  lemma ImagesSend(s: State, i: nat, res: int, more: bool)
    requires Images(s) && i < |s.k.active| && s.k.active[i].req.Send?
    ensures Images(NextSend(s, i, res, more))
  {
    ImagesCarried(s, NextSend(s, i, res, more));
  }

  lemma ImagesKernel(c: Config, s: State, act: Action)
    requires Images(s) && Enabled(c, s, act) && !act.Dispatch? && !act.RunOp?
    ensures Images(Next(c, s, act))
  {
    match act
    case WaitFails =>
    case Consume => ImagesConsume(s);
    case CompleteAccept(i, res, more) => ImagesCarried(s, NextAccept(s, i, res, more));
    case CompleteRecv(i, payload, more) => ImagesCarried(s, NextRecv(s, i, payload, more));
    case FailRecv(i, res) => ImagesCarried(s, NextFailRecv(s, i, res));
    case CompleteWrite(i, n) => ImagesWrite(s, i, n);
    case CompleteSend(i, res, more) => ImagesSend(s, i, res, more);
  }

  lemma ImagesStep(c: Config, s: State, act: Action)
    requires Shape(c, s) && Tagged(s) && Partition(c, s) && Images(s)
    ensures Images(Apply(c, s, act))
  {
    if Enabled(c, s, act) {
      match act
      case Dispatch(e) => ImagesDispatch(s, e);
      case RunOp => ImagesStepOp(c, s);
      case _ => ImagesKernel(c, s, act);
    }
  }

  predicate WritesPool(s: State, act: Action) {
    act.RunOp? && s.a.todo != [] && s.a.todo[0].LogPop?
  }

  /** Formatting a log line is the only step that writes pool memory. */
  lemma OnlyLoggingWrites(c: Config, s: State, act: Action)
    ensures !WritesPool(s, act) ==> Apply(c, s, act).a.mem == s.a.mem
  {
  }

  /** No step at all changes a byte of an outstanding slice. */
  lemma StepKeepsOutstanding(c: Config, s: State, act: Action, bid: nat)
    requires Shape(c, s) && Partition(c, s) && bid in Outstanding(s)
    ensures (bid + 1) * BUFSIZE <= |s.a.mem| == |Apply(c, s, act).a.mem|
    ensures Slice(Apply(c, s, act).a.mem, BUFSIZE, bid) == Slice(s.a.mem, BUFSIZE, bid)
  {
    OneOwner(c, s, bid);
    OnlyLoggingWrites(c, s, act);
    if WritesPool(s, act) && Enabled(c, s, act) {
      var op := s.a.todo[0];
      LogPopKeepsOutstanding(c, s, op.level, op.stamp, op.text, op.pad, bid);
    }
  }
}
