/** What comes out: every line the program was to log, once, as it was asked for. */
module Output {
  import opened Seqs
  import opened LogLine
  import opened Model
  import opened Integrity
  import opened Runs
  import opened Requests
  import opened Replies

  /** A line with the buffer it was printed into. */
  datatype Entry = Entry(bid: nat, line: string)

  function LineIn(q: Sqe): seq<Entry> { if q.req.Write? then [Entry(q.req.bid, q.req.line)] else [] }

  function Emitted(es: seq<Emission>): (r: seq<Entry>)
    ensures |r| == |es| && forall i :: 0 <= i < |es| ==> r[i] == Entry(es[i].bid, es[i].line)
  {
    seq(|es|, i requires 0 <= i < |es| => Entry(es[i].bid, es[i].line))
  }

  /** The lines of all writes ever queued, in order. */
  function Lines(s: State): seq<Entry> { Project(Queued(s), LineIn) }

  // ---- the lines queued are the lines asked for ----

  function Asked(w: Want): seq<Want> { if w.Logging? then [w] else [] }

  /** The log calls among the wants, in order. */
  function LogCalls(ws: seq<Want>): seq<Want> {
    if ws == [] then [] else Asked(ws[0]) + LogCalls(ws[1..])
  }

  ghost predicate Says(e: Entry, w: Want) {
    w.Logging? && e.line == Line(w.stamp, e.bid, w.level, w.text)
  }

  /** Line by line, as far as there are lines. */
  ghost predicate AllSay(lines: seq<Entry>, calls: seq<Want>) {
    |lines| <= |calls| && forall j :: 0 <= j < |lines| ==> Says(lines[j], calls[j])
  }

  lemma SayOneMore(e: Entry, w: Want, lines: seq<Entry>, calls: seq<Want>)
    requires Says(e, w) && AllSay(lines, calls)
    ensures AllSay([e] + lines, [w] + calls)
  {
    var lines', calls' := [e] + lines, [w] + calls;
    forall j | 0 <= j < |lines'|
      ensures Says(lines'[j], calls'[j])
    {
      if j == 0 {
        assert lines'[j] == e && calls'[j] == w;
      } else {
        assert lines'[j] == lines[j - 1] && calls'[j] == calls[j - 1];
      }
    }
  }

  lemma {:induction false} LinesAreAsked(qs: seq<Sqe>, ws: seq<Want>)
    requires |qs| <= |ws| && forall i :: 0 <= i < |qs| ==> EntryMeets(qs[i], ws[i])
    ensures AllSay(Project(qs, LineIn), LogCalls(ws))
    ensures |qs| == |ws| ==> |Project(qs, LineIn)| == |LogCalls(ws)|
    decreases |qs|
  {
    if qs != [] {
      var q, w := qs[0], ws[0];
      assert EntryMeets(q, w);
      assert forall i :: 0 <= i < |qs[1..]| ==> qs[1..][i] == qs[i + 1] && ws[1..][i] == ws[i + 1];
      LinesAreAsked(qs[1..], ws[1..]);
      if q.req.Write? {
        SayOneMore(Entry(q.req.bid, q.req.line), w, Project(qs[1..], LineIn), LogCalls(ws[1..]));
      }
    }
  }

  /** The j-th line queued in a run is what the j-th log call asks for, with the bid of its own buffer:
      the four of start-up, then those of the completions taken. At a wait none is missing. */
  lemma LinesAreThoseAsked(c: Config, b: Boot, mem: seq<char>, rmem: seq<char>, acts: seq<Action>)
    requires ValidStart(c, b, mem, rmem)
    ensures var s := After(c, b, mem, rmem, acts);
            && |Envs(c, Init(c, b, mem, rmem), acts)| <= |s.k.posted|
            && var calls := LogCalls(Wanted(c, b, mem, rmem, acts));
               AllSay(Lines(s), calls) && (s.a.todo == [] ==> |Lines(s)| == |calls|)
  {
    RequestsAnswerPosts(c, b, mem, rmem, acts);
    LinesAreAsked(Queued(After(c, b, mem, rmem, acts)), Wanted(c, b, mem, rmem, acts));
  }

  lemma LogCallsCons(w: Want, rest: seq<Want>)
    ensures LogCalls([w] + rest) == Asked(w) + LogCalls(rest)
  {
    assert ([w] + rest)[1..] == rest;
  }

  lemma StartupCalls(b: Boot, rest: seq<Want>)
    requires ValidBoot(b)
    ensures LogCalls(StartupWants(b) + rest)
         == [Logging(Debug, b.stamps[0], b.texts[0]), Logging(Info, b.stamps[1], b.texts[1]),
             Logging(Warn, b.stamps[2], b.texts[2]), Logging(Error, b.stamps[3], b.texts[3])] + LogCalls(rest)
  {
    var ws := StartupWants(b);
    LogCallsCons(ws[4], rest);
    LogCallsCons(ws[3], [ws[4]] + rest);
    LogCallsCons(ws[2], [ws[3]] + ([ws[4]] + rest));
    LogCallsCons(ws[1], [ws[2]] + ([ws[3]] + ([ws[4]] + rest)));
    LogCallsCons(ws[0], [ws[1]] + ([ws[2]] + ([ws[3]] + ([ws[4]] + rest))));
    assert ws + rest == [ws[0]] + ([ws[1]] + ([ws[2]] + ([ws[3]] + ([ws[4]] + rest))));
  }

  /** At every wait the first four lines queued are those of start-up, a debug, an info, a warning and an
      error line in that order, each with its own time stamp and text. */
  lemma StartupLines(c: Config, b: Boot, mem: seq<char>, rmem: seq<char>, acts: seq<Action>)
    requires ValidStart(c, b, mem, rmem) && After(c, b, mem, rmem, acts).a.todo == []
    ensures var lines := Lines(After(c, b, mem, rmem, acts));
            && |lines| >= 4
            && lines[0].line == Line(b.stamps[0], lines[0].bid, Debug, b.texts[0])
            && lines[1].line == Line(b.stamps[1], lines[1].bid, Info, b.texts[1])
            && lines[2].line == Line(b.stamps[2], lines[2].bid, Warn, b.texts[2])
            && lines[3].line == Line(b.stamps[3], lines[3].bid, Error, b.texts[3])
  {
    LinesAreThoseAsked(c, b, mem, rmem, acts);
    var s := After(c, b, mem, rmem, acts);
    var rest := Wants(s.k.posted, Envs(c, Init(c, b, mem, rmem), acts));
    StartupCalls(b, rest);
    FirstFour(Lines(s), LogCalls(StartupWants(b) + rest));
  }

  lemma FirstFour(lines: seq<Entry>, calls: seq<Want>)
    requires AllSay(lines, calls) && |lines| == |calls| >= 4
    ensures Says(lines[0], calls[0]) && Says(lines[1], calls[1]) && Says(lines[2], calls[2]) && Says(lines[3], calls[3])
  {
  }

  // ---- each line comes out once ----

  /** The writes the kernel has taken: those done, then those under way. */
  ghost predicate WritesOut(s: State) {
    multiset(Project(s.k.consumed, LineIn))
    == multiset(Emitted(s.k.emitted)) + multiset(Project(s.k.active, LineIn))
  }

  lemma {:induction false} ProjectRemove<T>(qs: seq<Sqe>, f: Sqe -> seq<T>, i: nat)
    requires i < |qs|
    ensures multiset(Project(qs, f)) == multiset(Project(RemoveAt(qs, i), f)) + multiset(f(qs[i]))
    decreases |qs|
  {
    if i > 0 {
      assert RemoveAt(qs, i)[0] == qs[0] && RemoveAt(qs, i)[1..] == RemoveAt(qs[1..], i - 1);
      ProjectRemove(qs[1..], f, i - 1);
    } else {
      assert RemoveAt(qs, 0) == qs[1..];
    }
  }

  lemma {:induction false} ProjectUpdate<T>(qs: seq<Sqe>, f: Sqe -> seq<T>, i: nat, q: Sqe)
    requires i < |qs| && f(q) == f(qs[i])
    ensures Project(qs[i := q], f) == Project(qs, f)
    decreases |qs|
  {
    if i > 0 {
      assert qs[i := q][1..] == qs[1..][i - 1 := q];
      ProjectUpdate(qs[1..], f, i - 1, q);
    } else {
      assert qs[0 := q][1..] == qs[1..];
    }
  }

  lemma {:induction false} ProjectSplit<T>(qs: seq<Sqe>, more: seq<Sqe>, f: Sqe -> seq<T>)
    ensures Project(qs + more, f) == Project(qs, f) + Project(more, f)
    decreases |qs|
  {
    if qs == [] {
      assert qs + more == more;
    } else {
      assert (qs + more)[1..] == qs[1..] + more;
      ProjectSplit(qs[1..], more, f);
    }
  }

  lemma WritesConsume(s: State)
    requires WritesOut(s) && s.a.submitted > 0 && s.a.sq != []
    ensures WritesOut(NextConsume(s))
  {
    ProjectAppend(s.k.consumed, s.a.sq[0], LineIn);
    ProjectAppend(s.k.active, s.a.sq[0], LineIn);
  }

  lemma EmittedOneMore(es: seq<Emission>, e: Emission)
    ensures Emitted(es + [e]) == Emitted(es) + [Entry(e.bid, e.line)]
  {
  }

  lemma MovesOver(all: multiset<Entry>, out: multiset<Entry>, active: multiset<Entry>, rest: multiset<Entry>, x: Entry)
    requires all == out + active && active == rest + multiset{x}
    ensures all == (out + multiset{x}) + rest
  {
  }

  lemma WriteComesOut(s: State, i: nat, n: nat)
    requires WritesOut(s) && i < |s.k.active| && s.k.active[i].req.Write?
    ensures WritesOut(NextWrite(s, i, n))
  {
    var t, q := NextWrite(s, i, n), s.k.active[i];
    var x := Entry(q.req.bid, q.req.line);
    EmittedOneMore(s.k.emitted, t.k.emitted[|s.k.emitted|]);
    ProjectRemove(s.k.active, LineIn, i);
    assert multiset(LineIn(q)) == multiset{x};
    assert multiset(Emitted(t.k.emitted)) == multiset(Emitted(s.k.emitted)) + multiset{x};
    MovesOver(multiset(Project(s.k.consumed, LineIn)), multiset(Emitted(s.k.emitted)),
              multiset(Project(s.k.active, LineIn)), multiset(Project(t.k.active, LineIn)), x);
  }

  /** A post of anything but a write. */
  lemma WritesKept(s: State, t: State, i: nat, q: Sqe)
    requires WritesOut(s) && i < |s.k.active| && !s.k.active[i].req.Write? && !q.req.Write?
    requires t.k.consumed == s.k.consumed && t.k.emitted == s.k.emitted
    requires t.k.active == s.k.active || t.k.active == RemoveAt(s.k.active, i) || t.k.active == s.k.active[i := q]
    ensures WritesOut(t)
  {
    ProjectRemove(s.k.active, LineIn, i);
    ProjectUpdate(s.k.active, LineIn, i, q);
    assert multiset(LineIn(s.k.active[i])) == multiset{};
  }

  lemma WritesKernel(c: Config, s: State, act: Action)
    requires WritesOut(s) && Enabled(c, s, act) && !act.Dispatch? && !act.RunOp?
    ensures WritesOut(Next(c, s, act))
  {
    var t := Next(c, s, act);
    match act
    case WaitFails =>
    case Consume => WritesConsume(s);
    case CompleteAccept(i, res, more) => WritesKept(s, t, i, s.k.active[i]);
    case CompleteRecv(i, payload, more) => WritesKept(s, t, i, s.k.active[i]);
    case FailRecv(i, res) => WritesKept(s, t, i, s.k.active[i]);
    case CompleteWrite(i, n) => WriteComesOut(s, i, n);
    case CompleteSend(i, res, more) => WritesKept(s, t, i, s.k.active[i].(req := s.k.active[i].req.(left := 1)));
  }

  lemma WritesStep(c: Config, s: State, act: Action)
    requires WritesOut(s)
    ensures WritesOut(Apply(c, s, act))
  {
    if Enabled(c, s, act) && !act.Dispatch? && !act.RunOp? {
      WritesKernel(c, s, act);
    }
  }

  lemma {:induction false} WritesRun(c: Config, s: State, acts: seq<Action>)
    requires WritesOut(s)
    ensures WritesOut(Exec(c, s, acts))
    decreases |acts|
  {
    if acts != [] {
      WritesStep(c, s, acts[0]);
      WritesRun(c, Apply(c, s, acts[0]), acts[1..]);
    }
  }

  lemma WritesAfter(c: Config, b: Boot, mem: seq<char>, rmem: seq<char>, acts: seq<Action>)
    requires ValidStart(c, b, mem, rmem)
    ensures WritesOut(After(c, b, mem, rmem, acts))
  {
    assert Emitted([]) == [];
    WritesRun(c, Init(c, b, mem, rmem), acts);
  }

  /** Every line queued comes out once or is still on its way: being written, or in the queue. */
  lemma EachLineOnce(c: Config, b: Boot, mem: seq<char>, rmem: seq<char>, acts: seq<Action>)
    requires ValidStart(c, b, mem, rmem)
    ensures var s := After(c, b, mem, rmem, acts);
            multiset(Lines(s)) == multiset(Emitted(s.k.emitted)) + multiset(Project(s.k.active, LineIn))
                                  + multiset(Project(s.a.sq, LineIn))
  {
    var s := After(c, b, mem, rmem, acts);
    WritesAfter(c, b, mem, rmem, acts);
    ProjectSplit(s.k.consumed, s.a.sq, LineIn);
  }

  // ---- end to end ----

  /** End to end, for every write completed in any run: its line is one the program was to log, with the
      bid of the buffer it went through; a line that left room for its terminator comes out as far as the
      result says, and entirely when the result is its length; at exactly BUFSIZE the newline comes out
      as the terminator; a longer line fails and nothing comes out. */
  lemma OutputIsWhatWasLogged(c: Config, b: Boot, mem: seq<char>, rmem: seq<char>, acts: seq<Action>, e: Emission)
    requires ValidStart(c, b, mem, rmem) && e in After(c, b, mem, rmem, acts).k.emitted
    ensures |Envs(c, Init(c, b, mem, rmem), acts)| <= |After(c, b, mem, rmem, acts).k.posted|
    ensures exists w :: w in LogCalls(Wanted(c, b, mem, rmem, acts)) && Says(Entry(e.bid, e.line), w)
    ensures |e.line| < BUFSIZE ==> e.data <= e.line && (e.res == |e.line| ==> e.data == e.line)
    ensures |e.line| == BUFSIZE ==> e.data <= e.line[..BUFSIZE - 1] + ['\0']
    ensures |e.line| == BUFSIZE && e.res == BUFSIZE ==> e.data == e.line[..BUFSIZE - 1] + ['\0']
    ensures |e.line| > BUFSIZE ==> e.res < 0 && e.data == []
    ensures e.res >= 0 ==> |e.data| == e.res
  {
    EmittedFaithfully(c, b, mem, rmem, acts, e);
    var s := After(c, b, mem, rmem, acts);
    EmittedWasQueued(c, b, mem, rmem, acts, e);
    LinesAreThoseAsked(c, b, mem, rmem, acts);
    var j :| 0 <= j < |Lines(s)| && Lines(s)[j] == Entry(e.bid, e.line);
    assert Says(Lines(s)[j], LogCalls(Wanted(c, b, mem, rmem, acts))[j]);
  }

  lemma EmittedWasQueued(c: Config, b: Boot, mem: seq<char>, rmem: seq<char>, acts: seq<Action>, e: Emission)
    requires ValidStart(c, b, mem, rmem) && e in After(c, b, mem, rmem, acts).k.emitted
    ensures Entry(e.bid, e.line) in Lines(After(c, b, mem, rmem, acts))
  {
    EachLineOnce(c, b, mem, rmem, acts);
    var s := After(c, b, mem, rmem, acts);
    var i :| 0 <= i < |s.k.emitted| && s.k.emitted[i] == e;
    assert Emitted(s.k.emitted)[i] == Entry(e.bid, e.line);
    assert Entry(e.bid, e.line) in multiset(Emitted(s.k.emitted));
    assert Entry(e.bid, e.line) in multiset(Lines(s));
  }

  lemma EmittedFaithfully(c: Config, b: Boot, mem: seq<char>, rmem: seq<char>, acts: seq<Action>, e: Emission)
    requires ValidStart(c, b, mem, rmem) && e in After(c, b, mem, rmem, acts).k.emitted
    ensures |e.line| < BUFSIZE ==> e.data <= e.line && (e.res == |e.line| ==> e.data == e.line)
    ensures |e.line| == BUFSIZE ==> e.data <= e.line[..BUFSIZE - 1] + ['\0']
    ensures |e.line| == BUFSIZE && e.res == BUFSIZE ==> e.data == e.line[..BUFSIZE - 1] + ['\0']
    ensures |e.line| > BUFSIZE ==> e.res < 0 && e.data == []
    ensures e.res >= 0 ==> |e.data| == e.res
  {
    InvAfter(c, b, mem, rmem, acts);
    assert Faithful(e);
    if |e.line| <= BUFSIZE && e.res == |e.line| {
      assert e.data == Rendered(e.line)[..|e.data|];
    }
  }
}
