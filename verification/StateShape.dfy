/** What every step keeps about sizes, indices and the order of operations. */
module StateShape {
  import opened Bits
  import opened LogLine
  import opened RingSpec
  import opened Model

  ghost predicate Sizes(c: Config, s: State) {
    && |s.a.mem| == c.pool * BUFSIZE
    && |s.a.rmem| == c.entries * c.entrySize
    && |s.a.ring.slots| == c.entries
    && s.a.ring.tail < U16 && s.k.head < U16
    && Consistent(s.a.ring, c.entrySize)
  }

  /** A continuation (the second half of a log call or of a recycle) is only ever next in line. */
  ghost predicate ContinuationsFirst(todo: seq<Op>) {
    forall i :: 1 <= i < |todo| ==> !todo[i].LogQueue? && !todo[i].RingAdvance?
  }

  /** The program submits before it waits: at every wait all reserved entries are published. */
  ghost predicate SubmitsLast(a: App) {
    && |a.sq| >= a.submitted
    && if a.todo == [] then a.submitted == |a.sq| else a.todo[|a.todo| - 1].Submit?
  }

  ghost predicate Shape(c: Config, s: State) {
    && Sizes(c, s)
    && ContinuationsFirst(s.a.todo)
    && SubmitsLast(s.a)
    && |s.a.sq| <= c.depth
  }

  lemma ShapeInit(c: Config, b: Boot, mem: seq<char>, rmem: seq<char>)
    requires ValidStart(c, b, mem, rmem)
    ensures Shape(c, Init(c, b, mem, rmem))
  {
  }

  /** An operation leaves its successors, behind its continuation if it has one; or, stopping, itself. */
  lemma StepTodo(c: Config, a: App)
    requires a.todo != []
    ensures var t := StepOp(c, a).todo;
            t == a.todo || t == a.todo[1..] ||
            (t != [] && (t[0].LogQueue? || t[0].RingAdvance?) && t[1..] == a.todo[1..])
  {
  }

  lemma SizesStepOp(c: Config, s: State)
    requires ValidConfig(c) && Sizes(c, s) && s.a.todo != []
    ensures Sizes(c, s.(a := StepOp(c, s.a)))
  {
  }

  lemma OrderStepOp(c: Config, a: App)
    requires ContinuationsFirst(a.todo) && a.todo != []
    ensures ContinuationsFirst(StepOp(c, a).todo)
  {
    StepTodo(c, a);
    var t := StepOp(c, a).todo;
    assert forall i :: 0 <= i < |a.todo[1..]| ==> a.todo[1..][i] == a.todo[i + 1];
    assert forall i :: 1 <= i < |t| ==> t[i] == t[1..][i - 1];
  }

  lemma QueueLengthStepOp(c: Config, a: App)
    requires a.submitted <= |a.sq| <= c.depth && a.todo != []
    ensures var a' := StepOp(c, a); a'.submitted <= |a'.sq| <= c.depth
  {
  }

  lemma SubmitStepOp(c: Config, a: App)
    requires a.todo != [] && a.todo[0].Submit?
    ensures var a' := StepOp(c, a);
            a'.todo == a.todo || (a'.todo == a.todo[1..] && a'.submitted == |a'.sq|)
  {
  }

  lemma QueueStepOp(c: Config, a: App)
    requires SubmitsLast(a) && |a.sq| <= c.depth && a.todo != []
    ensures SubmitsLast(StepOp(c, a)) && |StepOp(c, a).sq| <= c.depth
  {
    QueueLengthStepOp(c, a);
    if a.todo[0].Submit? {
      SubmitStepOp(c, a);
    } else {
      StepTodo(c, a);
    }
  }

  lemma ShapeStepOp(c: Config, s: State)
    requires ValidConfig(c) && Shape(c, s) && s.a.todo != []
    ensures Shape(c, s.(a := StepOp(c, s.a)))
  {
    SizesStepOp(c, s);
    OrderStepOp(c, s.a);
    QueueStepOp(c, s.a);
  }

  lemma ShapeStep(c: Config, s: State, act: Action)
    requires ValidConfig(c) && Shape(c, s)
    ensures Shape(c, Apply(c, s, act))
  {
    if Enabled(c, s, act) && act.RunOp? {
      ShapeStepOp(c, s);
    }
  }
}
