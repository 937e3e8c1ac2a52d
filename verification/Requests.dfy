/** What the program asks the kernel for, against what the kernel told it. The completions posted and
    the choices of the outside determine every request of a run: kind, descriptor, line and order. */
module Requests {
  import opened Bits
  import opened LogLine
  import opened Model
  import opened Tagging
  import opened Integrity
  import opened Submission
  import opened Runs

  /** Every entry the program has queued, in order: those consumed, then those still in the queue. */
  function Queued(s: State): seq<Sqe> {
    s.k.consumed + s.a.sq
  }

  // ---- what is wanted ----

  datatype Want =
    | Accepting(sock: nat)
    | Receiving(fd: nat)
    | Logging(level: Level, stamp: string, text: string)
    | Replying(fd: nat)

  /** Start-up: the accept, then a line of each level. */
  function StartupWants(b: Boot): seq<Want>
    requires ValidBoot(b)
  {
    [Accepting(b.sock),
     Logging(Debug, b.stamps[0], b.texts[0]),
     Logging(Info, b.stamps[1], b.texts[1]),
     Logging(Warn, b.stamps[2], b.texts[2]),
     Logging(Error, b.stamps[3], b.texts[3])]
  }

  /** One completion: a connection is armed and logged, a message is logged and answered. */
  function WantsOf(x: Cqe, e: Env): seq<Want> {
    if x.res < 0 then []
    else match x.origin
      case Accept(_) => [Receiving(x.res), Logging(Debug, e.stamp, e.text)]
      case Recv(fd) => if e.valid then [Logging(Debug, e.stamp, e.text), Replying(fd % U16)] else []
      case _ => []
  }

  /** The first |envs| completions posted, each with the outside's choices for it. */
  function Wants(posts: seq<Cqe>, envs: seq<Env>): seq<Want>
    requires |envs| <= |posts|
  {
    if envs == [] then []
    else
      var n := |envs| - 1;
      Wants(posts, envs[..n]) + WantsOf(posts[n], envs[n])
  }

  function EnvOf(c: Config, s: State, act: Action): seq<Env> {
    if act.Dispatch? && Enabled(c, s, act) then [act.e] else []
  }

  /** The choices of the outside along a run, one for each completion taken. */
  function Envs(c: Config, s: State, acts: seq<Action>): seq<Env>
    decreases |acts|
  {
    if acts == [] then [] else EnvOf(c, s, acts[0]) + Envs(c, Apply(c, s, acts[0]), acts[1..])
  }

  /** A request is the one wanted. A line is the one asked for, with the bid of the write's own buffer,
      and is what that buffer holds. */
  ghost predicate Meets(r: Request, w: Want) {
    match w
    case Accepting(sock) => r.Accept? && r.sock == sock
    case Receiving(fd) => r.Recv? && r.fd == fd
    case Logging(level, stamp, text) =>
      && r.Write? && r.line == Line(stamp, r.bid, level, text)
      && r.len == |r.line| && HoldsLine(r.image, r.line)
    case Replying(fd) => r.Send? && r.fd == fd && r.left == 2
  }

  /** And carries its own tag. */
  ghost predicate EntryMeets(q: Sqe, w: Want) {
    Meets(q.req, w) && TagFits(q.req, q.ud)
  }

  // ---- the operations still to come ----

  predicate OpMeets(op: Op, w: Want) {
    match op
    case QueueAccept(sock, _) => w == Accepting(sock)
    case QueueRecv(fd, _) => w == Receiving(fd)
    case QueueSend(fd, _) => w == Replying(fd)
    case LogPop(level, stamp, text, _) => w == Logging(level, stamp, text)
    case LogQueue(bid, line, _) => w.Logging? && line == Line(w.stamp, bid, w.level, w.text)
    case _ => false
  }

  /** They will queue exactly these. */
  predicate Fits(ops: seq<Op>, ws: seq<Want>) {
    if ops == [] then ws == []
    else if Reserves(ops[0]) then ws != [] && OpMeets(ops[0], ws[0]) && Fits(ops[1..], ws[1..])
    else Fits(ops[1..], ws)
  }

  /** The entries queued meet the first of the wants, and the operations to come the rest. */
  ghost predicate Meeting(s: State, ws: seq<Want>) {
    && |Queued(s)| <= |ws|
    && (forall i :: 0 <= i < |Queued(s)| ==> EntryMeets(Queued(s)[i], ws[i]))
    && Fits(s.a.todo, ws[|Queued(s)|..])
  }

  lemma StartupFits(b: Boot)
    requires ValidBoot(b)
    ensures Fits(BootOps(b), StartupWants(b))
  {
    var ops, ws := BootOps(b), StartupWants(b);
    assert ops[5..][1..] == [] && ops[4..][1..] == ops[5..] && ops[3..][1..] == ops[4..]
        && ops[2..][1..] == ops[3..] && ops[1..][1..] == ops[2..];
    assert ws[5..] == [] && ws[4..][1..] == ws[5..] && ws[3..][1..] == ws[4..]
        && ws[2..][1..] == ws[3..] && ws[1..][1..] == ws[2..];
    assert Fits(ops[5..], ws[5..]);
    assert Fits(ops[4..], ws[4..]);
    assert Fits(ops[3..], ws[3..]);
    assert Fits(ops[2..], ws[2..]);
    assert Fits(ops[1..], ws[1..]);
  }

  lemma MeetingInit(c: Config, b: Boot, mem: seq<char>, rmem: seq<char>)
    requires ValidStart(c, b, mem, rmem)
    ensures Meeting(Init(c, b, mem, rmem), StartupWants(b))
  {
    StartupFits(b);
    assert StartupWants(b)[|Queued(Init(c, b, mem, rmem))|..] == StartupWants(b);
  }

  /** The entry an operation queues is the one it was to queue. */
  lemma OpQueues(c: Config, s: State, w: Want)
    requires Tagged(s) && Images(s) && s.a.todo != [] && (Reserves(s.a.todo[0]) ==> OpMeets(s.a.todo[0], w))
    ensures var a' := StepOp(c, s.a);
            || a'.sq == s.a.sq
            || (|a'.sq| == |s.a.sq| + 1 && a'.sq[..|s.a.sq|] == s.a.sq && EntryMeets(a'.sq[|s.a.sq|], w)
                && a'.todo == s.a.todo[1..] && Reserves(s.a.todo[0]))
  {
    TaggedStepOp(c, s.a);
    OpQueuesRequest(c, s, w);
    var a' := StepOp(c, s.a);
    if a'.sq != s.a.sq {
      assert a'.sq[|s.a.sq|] in a'.sq;
    }
  }

  lemma OpQueuesRequest(c: Config, s: State, w: Want)
    requires Images(s) && s.a.todo != [] && (Reserves(s.a.todo[0]) ==> OpMeets(s.a.todo[0], w))
    ensures var a' := StepOp(c, s.a);
            || a'.sq == s.a.sq
            || (|a'.sq| == |s.a.sq| + 1 && a'.sq[..|s.a.sq|] == s.a.sq && Meets(a'.sq[|s.a.sq|].req, w)
                && a'.todo == s.a.todo[1..] && Reserves(s.a.todo[0]))
  {
    if s.a.todo[0].LogQueue? {
      assert Formatted(s.a.mem, s.a.todo[0]);
    }
  }

  /** An operation that queues nothing stays, makes way for its continuation, or had nothing to queue. */
  lemma OpWaits(c: Config, a: App, ws: seq<Want>)
    requires a.todo != [] && StepOp(c, a).sq == a.sq && Fits(a.todo, ws)
    ensures Fits(StepOp(c, a).todo, ws)
  {
    var t := StepOp(c, a).todo;
    OpTodo(c, a);
    if t != a.todo && t != a.todo[1..] {
      assert t[1..] == a.todo[1..];
    }
  }

  lemma OpTodo(c: Config, a: App)
    requires a.todo != [] && StepOp(c, a).sq == a.sq
    ensures var op := a.todo[0]; var t := StepOp(c, a).todo;
            || t == a.todo
            || (t == a.todo[1..] && !Reserves(op))
            || (t != [] && t[1..] == a.todo[1..] && Reserves(t[0]) == Reserves(op)
                && forall w :: OpMeets(op, w) ==> OpMeets(t[0], w))
  {
  }

  lemma MeetingOp(c: Config, s: State, ws: seq<Want>)
    requires Tagged(s) && Images(s) && Meeting(s, ws) && s.a.todo != []
    ensures Meeting(s.(a := StepOp(c, s.a)), ws)
  {
    var k := |Queued(s)|;
    var t := s.(a := StepOp(c, s.a));
    OpQueues(c, s, if k < |ws| then ws[k] else Accepting(0));
    if t.a.sq == s.a.sq {
      OpWaits(c, s.a, ws[k..]);
    } else {
      assert Queued(t)[..k] == Queued(s);
      assert ws[k..][1..] == ws[k + 1..];
      assert forall i :: 0 <= i < k ==> Queued(t)[i] == Queued(t)[..k][i];
    }
  }

  // ---- dispatch ----

  lemma HandlerFits(a: App, x: Cqe, e: Env)
    requires a.todo == []
    ensures Fits(HandleRequest(a, x, e).todo, WantsOf(x, e))
  {
    var t, ws := HandleRequest(a, x, e).todo, WantsOf(x, e);
    if x.origin.Accept? && x.res >= 0 {
      assert t[2..][1..] == [] && t[1..][1..] == t[2..] && ws[1..][1..] == [];
      assert Fits(t[2..], ws[1..][1..]);
      assert Fits(t[1..], ws[1..]);
    } else if x.origin.Recv? && x.res >= 0 && e.valid {
      assert t[4..][1..] == [] && t[3..][1..] == t[4..] && t[2..][1..] == t[3..] && t[1..][1..] == t[2..]
          && ws[1..][1..] == [];
      assert Fits(t[4..], ws[1..][1..]);
      assert Fits(t[3..], ws[1..]);
      assert Fits(t[2..], ws[1..]);
      assert Fits(t[1..], ws);
    } else if x.origin.Write? {
      assert t[1..][1..] == [];
      assert Fits(t[1..], []);
    } else if x.origin.Send? {
      assert t[1..] == [];
    }
  }

  lemma MeetingDispatch(s: State, e: Env, ws: seq<Want>)
    requires Tagged(s) && Meeting(s, ws) && s.a.todo == [] && s.k.cq != []
    ensures Meeting(NextDispatch(s, e), ws + WantsOf(s.k.cq[0], e))
  {
    var x := s.k.cq[0];
    DispatchIsTake(s, e);
    HandleFrame(s.a, x, e);
    HandlerFits(s.a, x, e);
    assert (ws + WantsOf(x, e))[|Queued(s)|..] == WantsOf(x, e);
  }

  // ---- every step ----

  lemma MeetingKernel(c: Config, s: State, act: Action, ws: seq<Want>)
    requires Meeting(s, ws) && Enabled(c, s, act) && !act.Dispatch? && !act.RunOp?
    ensures Meeting(Next(c, s, act), ws)
  {
    KernelKeepsQueued(c, s, act);
  }

  lemma KernelKeepsQueued(c: Config, s: State, act: Action)
    requires Enabled(c, s, act) && !act.Dispatch? && !act.RunOp?
    ensures var t := Next(c, s, act); Queued(t) == Queued(s) && t.a.todo == s.a.todo
  {
    if act.Consume? {
      assert s.a.sq == [s.a.sq[0]] + s.a.sq[1..];
    }
  }

  /** What the step adds to the wants. */
  function Taken(c: Config, s: State, act: Action): seq<Want> {
    if act.Dispatch? && Enabled(c, s, act) then WantsOf(s.k.cq[0], act.e) else []
  }

  lemma MeetingStep(c: Config, s: State, act: Action, ws: seq<Want>)
    requires Tagged(s) && Images(s) && Meeting(s, ws)
    ensures Meeting(Apply(c, s, act), ws + Taken(c, s, act))
  {
    assert ws + [] == ws;
    if Enabled(c, s, act) {
      match act
      case Dispatch(e) => MeetingDispatch(s, e, ws);
      case RunOp => MeetingOp(c, s, ws);
      case _ => MeetingKernel(c, s, act, ws);
    }
  }

  // ---- the completions posted, in order ----

  /** A completion that ends the run when its turn comes. */
  predicate Failed(x: Cqe) {
    x.res < 0 && (x.origin.Accept? || x.origin.Recv?)
  }

  /** The program takes the completions in the order posted and leaves none out; it is past none that
      failed, and a run that stopped for one stopped at it. */
  ghost predicate PostsInOrder(s: State) {
    var n := s.a.hist.handled;
    && n <= |s.k.posted| && s.k.posted[n..] == s.k.cq
    && (forall j :: 0 <= j < n ==> !Failed(s.k.posted[j]))
    && (s.a.status == Aborted(BadResult) ==> s.k.cq != [] && Failed(s.k.cq[0]))
    && (s.a.status == Aborted(InvalidMessage) ==> s.k.cq != [] && s.k.cq[0].origin.Recv? && s.k.cq[0].res >= 0)
  }

  lemma PostsDispatch(s: State, e: Env)
    requires Tagged(s) && PostsInOrder(s) && s.a.status == Running && s.k.cq != []
    ensures var t := NextDispatch(s, e);
            && PostsInOrder(t) && t.k.posted == s.k.posted
            && t.a.hist.handled == s.a.hist.handled + if t.a.status == Running then 1 else 0
  {
    DispatchIsTake(s, e);
    var n := s.a.hist.handled;
    assert s.k.posted[n] == s.k.cq[0];
    assert s.k.posted[n + 1..] == s.k.cq[1..];
  }

  lemma PostsOp(c: Config, s: State)
    requires PostsInOrder(s) && s.a.status == Running && s.a.todo != []
    ensures PostsInOrder(s.(a := StepOp(c, s.a))) && StepOp(c, s.a).hist.handled == s.a.hist.handled
  {
  }

  lemma PostsKernel(c: Config, s: State, act: Action)
    requires PostsInOrder(s) && Enabled(c, s, act) && !act.Dispatch? && !act.RunOp?
    ensures var t := Next(c, s, act);
            PostsInOrder(t) && t.a.hist == s.a.hist && s.k.posted <= t.k.posted
  {
  }

  lemma PostsStep(c: Config, s: State, act: Action)
    requires Tagged(s) && PostsInOrder(s)
    ensures PostsInOrder(Apply(c, s, act)) && s.k.posted <= Apply(c, s, act).k.posted
  {
    if Enabled(c, s, act) {
      match act
      case Dispatch(e) => PostsDispatch(s, e);
      case RunOp => PostsOp(c, s);
      case _ => PostsKernel(c, s, act);
    }
  }

  // ---- the wants of a run ----

  lemma {:induction false} WantsIgnoreLater(posts: seq<Cqe>, more: seq<Cqe>, envs: seq<Env>)
    requires |envs| <= |posts| && posts <= more
    ensures Wants(posts, envs) == Wants(more, envs)
    decreases |envs|
  {
    if envs != [] { WantsIgnoreLater(posts, more, envs[..|envs| - 1]); }
  }

  lemma WantsOneMore(posts: seq<Cqe>, envs: seq<Env>, e: Env)
    requires |envs| < |posts|
    ensures Wants(posts, envs + [e]) == Wants(posts, envs) + WantsOf(posts[|envs|], e)
  {
    assert (envs + [e])[..|envs|] == envs;
  }

  lemma {:induction false} StoppedStays(c: Config, s: State, acts: seq<Action>)
    requires s.a.status != Running
    ensures Exec(c, s, acts) == s
    decreases |acts|
  {
    if acts != [] { StoppedStays(c, s, acts[1..]); }
  }

  lemma HandledStays(c: Config, s: State, act: Action)
    requires PostsInOrder(s) && !(act.Dispatch? && Enabled(c, s, act))
    ensures Apply(c, s, act).a.hist.handled == s.a.hist.handled
  {
    if Enabled(c, s, act) {
      if act.RunOp? { PostsOp(c, s); } else { PostsKernel(c, s, act); }
    }
  }

  /** The choices so far go with the completions taken, and the requests are those wanted. */
  ghost predicate Answering(s: State, envs: seq<Env>, ws: seq<Want>) {
    && PostsInOrder(s) && |envs| <= |s.k.posted|
    && (s.a.status == Running ==> |envs| == s.a.hist.handled)
    && Meeting(s, ws + Wants(s.k.posted, envs))
  }

  lemma WantedNext(s: State, e: Env, envs: seq<Env>, ws: seq<Want>)
    requires PostsInOrder(s) && |envs| == s.a.hist.handled && s.k.cq != []
    ensures |envs| < |s.k.posted|
    ensures (ws + Wants(s.k.posted, envs)) + WantsOf(s.k.cq[0], e) == ws + Wants(s.k.posted, envs + [e])
  {
    assert s.k.posted[|envs|] == s.k.cq[0];
    WantsOneMore(s.k.posted, envs, e);
  }

  lemma AnsweringDispatch(s: State, e: Env, envs: seq<Env>, ws: seq<Want>)
    requires Tagged(s) && Answering(s, envs, ws) && s.a.status == Running && s.a.todo == [] && s.k.cq != []
    ensures Answering(NextDispatch(s, e), envs + [e], ws)
  {
    MeetingDispatch(s, e, ws + Wants(s.k.posted, envs));
    PostsDispatch(s, e);
    WantedNext(s, e, envs, ws);
  }

  lemma AnsweringOther(c: Config, s: State, act: Action, envs: seq<Env>, ws: seq<Want>)
    requires Tagged(s) && Images(s) && Answering(s, envs, ws) && s.a.status == Running
    requires !(act.Dispatch? && Enabled(c, s, act))
    ensures Answering(Apply(c, s, act), envs, ws)
  {
    var t := Apply(c, s, act);
    var w := ws + Wants(s.k.posted, envs);
    MeetingStep(c, s, act, w);
    assert w + [] == w;
    PostsStep(c, s, act);
    HandledStays(c, s, act);
    WantsIgnoreLater(s.k.posted, t.k.posted, envs);
  }

  lemma AnsweringStep(c: Config, s: State, act: Action, envs: seq<Env>, ws: seq<Want>)
    requires Inv(c, s) && Answering(s, envs, ws)
    ensures Answering(Apply(c, s, act), envs + EnvOf(c, s, act), ws)
  {
    assert envs + [] == envs;
    if s.a.status == Running {
      if act.Dispatch? && Enabled(c, s, act) {
        AnsweringDispatch(s, act.e, envs, ws);
      } else {
        AnsweringOther(c, s, act, envs, ws);
      }
    }
  }

  lemma EnvsAppend(envs: seq<Env>, first: seq<Env>, rest: seq<Env>)
    ensures (envs + first) + rest == envs + (first + rest)
  {
  }

  /** What the program has been asked for by the end of a run, from a state that has taken `envs`. */
  lemma {:induction false} AnsweringRun(c: Config, s: State, acts: seq<Action>, envs: seq<Env>, ws: seq<Want>)
    requires Inv(c, s) && Answering(s, envs, ws)
    ensures Answering(Exec(c, s, acts), envs + Envs(c, s, acts), ws)
    decreases |acts|
  {
    if acts == [] {
      assert envs + [] == envs;
    } else {
      var t := Apply(c, s, acts[0]);
      AnsweringStep(c, s, acts[0], envs, ws);
      InvStep(c, s, acts[0]);
      AnsweringRun(c, t, acts[1..], envs + EnvOf(c, s, acts[0]), ws);
      EnvsAppend(envs, EnvOf(c, s, acts[0]), Envs(c, t, acts[1..]));
    }
  }

  // ---- from start-up ----

  /** All that is wanted in a run: the requests of start-up, then those of each completion taken. */
  function Wanted(c: Config, b: Boot, mem: seq<char>, rmem: seq<char>, acts: seq<Action>): seq<Want>
    requires ValidBoot(b) && |Envs(c, Init(c, b, mem, rmem), acts)| <= |After(c, b, mem, rmem, acts).k.posted|
  {
    StartupWants(b) + Wants(After(c, b, mem, rmem, acts).k.posted, Envs(c, Init(c, b, mem, rmem), acts))
  }

  lemma WantedAfter(c: Config, b: Boot, mem: seq<char>, rmem: seq<char>, acts: seq<Action>)
    requires ValidStart(c, b, mem, rmem)
    ensures var s := After(c, b, mem, rmem, acts);
            && |Envs(c, Init(c, b, mem, rmem), acts)| <= |s.k.posted|
            && PostsInOrder(s) && Meeting(s, Wanted(c, b, mem, rmem, acts))
  {
    var s, envs := Init(c, b, mem, rmem), Envs(c, Init(c, b, mem, rmem), acts);
    InvInit(c, b, mem, rmem);
    AnsweringInit(c, b, mem, rmem);
    AnsweringRun(c, s, acts, [], StartupWants(b));
    assert [] + envs == envs;
  }

  lemma AnsweringInit(c: Config, b: Boot, mem: seq<char>, rmem: seq<char>)
    requires ValidStart(c, b, mem, rmem)
    ensures Answering(Init(c, b, mem, rmem), [], StartupWants(b))
  {
    MeetingInit(c, b, mem, rmem);
    assert StartupWants(b) + [] == StartupWants(b);
  }

  /** Every request of every run, whatever the kernel does in between: the i-th entry ever queued carries
      its own tag and is the i-th thing wanted; nothing else is queued, and at every wait nothing wanted
      is missing. */
  lemma RequestsAnswerPosts(c: Config, b: Boot, mem: seq<char>, rmem: seq<char>, acts: seq<Action>)
    requires ValidStart(c, b, mem, rmem)
    ensures var s := After(c, b, mem, rmem, acts);
            && |Envs(c, Init(c, b, mem, rmem), acts)| <= |s.k.posted|
            && var ws, qs := Wanted(c, b, mem, rmem, acts), Queued(s);
               && |qs| <= |ws| && (s.a.todo == [] ==> |qs| == |ws|)
               && forall i :: 0 <= i < |qs| ==> EntryMeets(qs[i], ws[i])
  {
    WantedAfter(c, b, mem, rmem, acts);
  }

  /** A failed accept or receive ends the run when its turn comes, a message that fails validation ends
      it too, and nothing else does at a dispatch. */
  lemma FailuresEndTheRun(c: Config, b: Boot, mem: seq<char>, rmem: seq<char>, acts: seq<Action>, e: Env,
                          more: seq<Action>)
    requires ValidStart(c, b, mem, rmem)
    requires var s := After(c, b, mem, rmem, acts); s.a.status == Running && s.a.todo == [] && s.k.cq != []
    ensures var s := After(c, b, mem, rmem, acts); var x := s.k.cq[0]; var t := Apply(c, s, Dispatch(e));
            && (t.a.status == Aborted(BadResult) <==> x.res < 0 && (x.origin.Accept? || x.origin.Recv?))
            && (t.a.status == Aborted(InvalidMessage) <==> x.origin.Recv? && x.res >= 0 && !e.valid)
            && (t.a.status == Running || t.a.status == Aborted(BadResult) || t.a.status == Aborted(InvalidMessage))
            && (t.a.status != Running ==> Queued(t) == Queued(s) && Exec(c, t, more) == t)
  {
    InvAfter(c, b, mem, rmem, acts);
    var s := After(c, b, mem, rmem, acts);
    DispatchIsTake(s, e);
    var t := Apply(c, s, Dispatch(e));
    if t.a.status != Running {
      StoppedKeepsTodo(s.a, s.k.cq[0], e);
      StoppedStays(c, t, more);
    }
  }

  /** The completions are taken in the order posted, none left out, and none that failed was passed. */
  lemma TakenInOrder(c: Config, b: Boot, mem: seq<char>, rmem: seq<char>, acts: seq<Action>)
    requires ValidStart(c, b, mem, rmem)
    ensures var s := After(c, b, mem, rmem, acts); var n := s.a.hist.handled;
            && n <= |s.k.posted| && s.k.posted[n..] == s.k.cq
            && (forall j :: 0 <= j < n ==> !Failed(s.k.posted[j]))
            && (s.a.status == Aborted(BadResult) ==> n < |s.k.posted| && Failed(s.k.posted[n]))
  {
    WantedAfter(c, b, mem, rmem, acts);
    var s := After(c, b, mem, rmem, acts);
    assert s.k.cq != [] ==> s.k.cq[0] == s.k.posted[s.a.hist.handled];
  }
}
