/** The event loop as a function of a schedule: what each turn does to the state, and that every turn
    that finds a completion handles exactly one. */
module EventLoop {
  import opened Model
  import opened Tagging
  import opened Integrity
  import opened Submission
  import opened Runs
  import opened Handlers
  import opened Requests

  /** One wait: the kernel's steps before it, whether it succeeds, and what the outside decides while the
      completion found is handled. */
  datatype Turn = Turn(acts: seq<Action>, waitOk: bool, e: Env)

  ghost predicate KernelTurn(turn: Turn) {
    forall i :: 0 <= i < |turn.acts| ==> KernelAct(turn.acts[i])
  }

  /** The kernel moves; then a completion, if there is one, is dispatched and handled to its end. */
  function AfterTurn(c: Config, s: State, turn: Turn): State {
    var u := Exec(c, s, turn.acts);
    if u.a.status != Running then u
    else if !turn.waitOk then Apply(c, u, WaitFails)
    else if u.k.cq == [] then u
    else
      var v := NextDispatch(u, turn.e);
      v.(a := Finish(c, v.a))
  }

  function AfterTurns(c: Config, s: State, turns: seq<Turn>): State
    decreases |turns|
  {
    if turns == [] then s
    else AfterTurn(c, AfterTurns(c, s, turns[..|turns| - 1]), turns[|turns| - 1])
  }

  lemma TurnsOneMore(c: Config, s: State, turns: seq<Turn>, i: nat)
    requires i < |turns|
    ensures AfterTurns(c, s, turns[..i + 1]) == AfterTurn(c, AfterTurns(c, s, turns[..i]), turns[i])
  {
    assert turns[..i + 1][..i] == turns[..i];
  }

  // ---- a turn is a run ----

  lemma TurnLeadsTo(c: Config, s: State, turn: Turn)
    requires s.a.status == Running ==> s.a.todo == []
    requires KernelTurn(turn)
    ensures LeadsTo(c, s, AfterTurn(c, s, turn))
    ensures AfterTurn(c, s, turn).a.status == Running ==> AfterTurn(c, s, turn).a.todo == []
  {
    var u := Exec(c, s, turn.acts);
    KernelRunWaits(c, s, turn.acts);
    assert LeadsTo(c, s, u);
    if u.a.status == Running {
      if !turn.waitOk {
        StepLeadsTo(c, u, WaitFails);
        LeadsToTransitive(c, s, u, Apply(c, u, WaitFails));
      } else if u.k.cq != [] {
        IterationLeadsTo(c, u, turn.e);
        LeadsToTransitive(c, s, u, AfterTurn(c, s, turn));
      }
    }
  }

  /** Kernel steps leave the handler, the books and the run going. */
  lemma {:induction false} KernelRunWaits(c: Config, s: State, acts: seq<Action>)
    requires forall i :: 0 <= i < |acts| ==> KernelAct(acts[i])
    ensures var u := Exec(c, s, acts);
            u.a.status == s.a.status && u.a.todo == s.a.todo && u.a.hist == s.a.hist && s.k.cq <= u.k.cq
    decreases |acts|
  {
    if acts != [] {
      assert forall i :: 0 <= i < |acts[1..]| ==> acts[1..][i] == acts[i + 1];
      KernelStepWaits(c, s, acts[0]);
      KernelRunWaits(c, Apply(c, s, acts[0]), acts[1..]);
    }
  }

  lemma KernelStepWaits(c: Config, s: State, act: Action)
    requires KernelAct(act)
    ensures var u := Apply(c, s, act);
            u.a.status == s.a.status && u.a.todo == s.a.todo && u.a.hist == s.a.hist && s.k.cq <= u.k.cq
  {
  }

  lemma {:induction false} FinishHandlesNone(c: Config, a: App)
    ensures Finish(c, a).hist.handled == a.hist.handled
    decreases Remaining(a)
  {
    if a.todo != [] && a.status == Running {
      StepShrinks(c, a);
      OpHandlesNone(c, a);
      FinishHandlesNone(c, StepOp(c, a));
    }
  }

  lemma OpHandlesNone(c: Config, a: App)
    requires a.todo != []
    ensures StepOp(c, a).hist.handled == a.hist.handled
  {
  }

  lemma LeadsToReachable(c: Config, s: State, t: State)
    requires Reachable(c, s) && LeadsTo(c, s, t)
    ensures Reachable(c, t)
  {
    var acts: seq<Action> :| t == Exec(c, s, acts);
    ReachableExec(c, s, acts);
  }

  // ---- a turn handles one completion ----

  /** A turn that finds a completion waiting takes that one off the queue, handles it to the end and
      publishes every entry, or the run ends; a turn that finds none changes nothing. */
  lemma TurnHandlesOne(c: Config, s: State, turn: Turn)
    requires Reachable(c, s) && (s.a.status == Running ==> s.a.todo == []) && KernelTurn(turn)
    ensures var u := Exec(c, s, turn.acts); var v := AfterTurn(c, s, turn);
            && Reachable(c, v) && (v.a.status == Running ==> v.a.todo == [])
            && (u.a.status == Running && turn.waitOk && u.k.cq != [] && v.a.status == Running ==>
                  && v.k == u.k.(cq := u.k.cq[1..])
                  && v.a.hist.handled == s.a.hist.handled + 1
                  && v.a.submitted == |v.a.sq|)
            && (u.a.status == Running && !turn.waitOk ==> v.a.status == Aborted(SyscallFailed))
            && (u.a.status != Running || (turn.waitOk && u.k.cq == []) ==> v == u)
  {
    var u := Exec(c, s, turn.acts);
    var v := AfterTurn(c, s, turn);
    TurnLeadsTo(c, s, turn);
    LeadsToReachable(c, s, v);
    KernelRunWaits(c, s, turn.acts);
    if u.a.status == Running && turn.waitOk && u.k.cq != [] && v.a.status == Running {
      var d := NextDispatch(u, turn.e);
      FinishHandlesNone(c, d.a);
      DispatchHandlesOne(c, u, turn.e);
      ReachableInv(c, v);
    }
  }

  lemma DispatchHandlesOne(c: Config, s: State, e: Env)
    requires s.a.status == Running && s.k.cq != [] && Finish(c, NextDispatch(s, e).a).status == Running
    ensures var t := NextDispatch(s, e);
            t.k == s.k.(cq := s.k.cq[1..]) && t.a.hist.handled == s.a.hist.handled + 1
  {
  }

  // ---- and answers it ----

  /** The queue has grown by exactly the requests wanted, in order. */
  ghost predicate Answered(sq: seq<Sqe>, sq': seq<Sqe>, ws: seq<Want>) {
    && sq <= sq' && |sq'| == |sq| + |ws|
    && forall i :: 0 <= i < |ws| ==> EntryMeets(sq'[|sq| + i], ws[i])
  }

  lemma AnsweredCons(sq: seq<Sqe>, q: Sqe, sq': seq<Sqe>, ws: seq<Want>)
    requires ws != [] && EntryMeets(q, ws[0]) && Answered(sq + [q], sq', ws[1..])
    ensures Answered(sq, sq', ws)
  {
    assert sq <= sq + [q];
    assert sq'[|sq|] == (sq + [q])[|sq|];
    forall i | 0 <= i < |ws|
      ensures EntryMeets(sq'[|sq| + i], ws[i])
    {
      if i > 0 { assert ws[i] == ws[1..][i - 1] && sq'[|sq| + i] == sq'[|sq + [q]| + (i - 1)]; }
    }
  }

  /** One operation of a reachable state: it queues its own request or nothing. */
  lemma ReachableQueues(c: Config, s: State, w: Want)
    requires Reachable(c, s) && s.a.status == Running && s.a.todo != []
    requires Reserves(s.a.todo[0]) ==> OpMeets(s.a.todo[0], w)
    ensures var a' := StepOp(c, s.a);
            && Reachable(c, s.(a := a'))
            && (a'.sq == s.a.sq
                || (a'.sq != [] && a'.sq == s.a.sq + [a'.sq[|s.a.sq|]] && EntryMeets(a'.sq[|s.a.sq|], w)
                    && a'.todo == s.a.todo[1..] && Reserves(s.a.todo[0])))
  {
    OpReady(c, s);
    ReachableImages(c, s);
    OpQueues(c, s, w);
  }

  lemma ReachableImages(c: Config, s: State)
    requires Reachable(c, s)
    ensures Tagged(s) && Images(s)
  {
    ReachableInv(c, s);
  }

  /** A handler that runs to its end queues what it was to queue. */
  lemma {:induction false} FinishAnswers(c: Config, s: State, ws: seq<Want>)
    requires Reachable(c, s) && Fits(s.a.todo, ws) && Finish(c, s.a).status == Running
    ensures Answered(s.a.sq, Finish(c, s.a).sq, ws)
    decreases Remaining(s.a)
  {
    if s.a.todo != [] {
      var t := s.(a := StepOp(c, s.a));
      FinishUnfolds(c, s.a);
      StepShrinks(c, s.a);
      ReachableQueues(c, s, if ws != [] then ws[0] else Accepting(0));
      if t.a.sq == s.a.sq {
        OpWaits(c, s.a, ws);
        FinishAnswers(c, t, ws);
      } else {
        FinishAnswers(c, t, ws[1..]);
        AnsweredCons(s.a.sq, t.a.sq[|s.a.sq|], Finish(c, t.a).sq, ws);
      }
    }
  }

  /** So does one carried up to its submit. */
  lemma {:induction false} CarryAnswers(c: Config, s: State, ok: bool, ws: seq<Want>)
    requires Reachable(c, s) && Fits(s.a.todo, ws) && Carry(c, s.a).status == Running && s.a.status == Running
    requires OneSubmitLast(s.a.todo, ok)
    ensures Answered(s.a.sq, Carry(c, s.a).sq, ws)
    decreases Remaining(s.a)
  {
    if s.a.todo[0].Submit? {
      CarryStops(c, s.a);
      assert |s.a.todo| == 1;
      assert s.a.todo[1..] == [];
    } else {
      var t := s.(a := StepOp(c, s.a));
      CarryUnfolds(c, s.a);
      StepShrinks(c, s.a);
      StepKeepsLast(c, s.a, ok);
      ReachableQueues(c, s, if ws != [] then ws[0] else Accepting(0));
      if t.a.status != Running { CarryStops(c, t.a); }
      if t.a.sq == s.a.sq {
        OpWaits(c, s.a, ws);
        CarryAnswers(c, t, ok, ws);
      } else {
        CarryAnswers(c, t, ok, ws[1..]);
        AnsweredCons(s.a.sq, t.a.sq[|s.a.sq|], Carry(c, t.a).sq, ws);
      }
    }
  }

  /** A log call queues its line. */
  lemma LogAnswers(c: Config, s: State)
    requires Reachable(c, s) && s.a.status == Running && s.a.todo != [] && s.a.todo[0].LogPop?
    ensures var op := s.a.todo[0]; var r := LogSteps(c, s.a);
            r.status == Running ==>
              && |r.sq| == |s.a.sq| + 1 && r.sq[..|s.a.sq|] == s.a.sq
              && EntryMeets(r.sq[|s.a.sq|], Logging(op.level, op.stamp, op.text))
  {
    var op := s.a.todo[0];
    var w := Logging(op.level, op.stamp, op.text);
    ReachableQueues(c, s, w);
    var t := s.(a := StepOp(c, s.a));
    if t.a.status == Running {
      LogPopped(c, s.a);
      ReachableQueues(c, t, w);
      if LogSteps(c, s.a).status == Running { QueueGrows(c, t.a); }
    }
  }

  lemma LogPopped(c: Config, a: App)
    requires a.todo != [] && a.todo[0].LogPop? && a.status == Running && StepOp(c, a).status == Running
    ensures var op := a.todo[0]; var t := StepOp(c, a);
            && t.sq == a.sq && t.todo != [] && t.todo[0].LogQueue?
            && OpMeets(t.todo[0], Logging(op.level, op.stamp, op.text))
  {
  }

  lemma QueueGrows(c: Config, a: App)
    requires a.todo != [] && a.todo[0].LogQueue? && a.status == Running && StepOp(c, a).status == Running
    ensures |StepOp(c, a).sq| == |a.sq| + 1
  {
  }

  /** One iteration queues exactly what its completion calls for. */
  lemma IterationAnswers(c: Config, s: State, e: Env)
    requires Reachable(c, s) && s.a.status == Running && s.a.todo == [] && s.k.cq != []
    requires Finish(c, NextDispatch(s, e).a).status == Running
    ensures Answered(s.a.sq, Finish(c, NextDispatch(s, e).a).sq, WantsOf(s.k.cq[0], e))
  {
    DispatchFits(c, s, e);
    FinishAnswers(c, NextDispatch(s, e), WantsOf(s.k.cq[0], e));
  }

  lemma DispatchFits(c: Config, s: State, e: Env)
    requires Reachable(c, s) && s.a.status == Running && s.a.todo == [] && s.k.cq != []
    ensures var t := NextDispatch(s, e);
            && Reachable(c, t) && t.a.sq == s.a.sq && Fits(t.a.todo, WantsOf(s.k.cq[0], e))
            && (t.a.status == Running ==> OneSubmitLast(t.a.todo, e.submitOk))
  {
    ReachableTagged(c, s);
    DispatchIsTake(s, e);
    HandleFrame(s.a, s.k.cq[0], e);
    HandlerFits(s.a, s.k.cq[0], e);
    DispatchReady(c, s, e);
  }

  /** The handler alone already does. */
  lemma HandlerAnswers(c: Config, s: State, e: Env)
    requires Reachable(c, s) && s.a.status == Running && s.a.todo == [] && s.k.cq != []
    ensures var a := Carry(c, NextDispatch(s, e).a);
            a.status == Running ==> Answered(s.a.sq, a.sq, WantsOf(s.k.cq[0], e))
  {
    var t := NextDispatch(s, e);
    DispatchFits(c, s, e);
    if t.a.status != Running {
      CarryStops(c, t.a);
    } else if Carry(c, t.a).status == Running {
      CarryAnswers(c, t, e.submitOk, WantsOf(s.k.cq[0], e));
    }
  }

  /** Start-up queues the accept and its four lines. */
  lemma StartupAnswers(c: Config, s: State, b: Boot)
    requires Reachable(c, s) && ValidBoot(b) && s.a.todo == BootOps(b) && Finish(c, s.a).status == Running
    ensures Answered(s.a.sq, Finish(c, s.a).sq, StartupWants(b))
  {
    StartupFits(b);
    FinishAnswers(c, s, StartupWants(b));
  }

  // ---- any number of turns ----

  lemma {:induction false} TurnsLeadTo(c: Config, s: State, turns: seq<Turn>)
    requires Reachable(c, s) && (s.a.status == Running ==> s.a.todo == [])
    requires forall i :: 0 <= i < |turns| ==> KernelTurn(turns[i])
    ensures var t := AfterTurns(c, s, turns);
            LeadsTo(c, s, t) && Reachable(c, t) && (t.a.status == Running ==> t.a.todo == [])
    decreases |turns|
  {
    if turns == [] {
      LeadsToItself(c, s);
    } else {
      var n := |turns| - 1;
      var u := AfterTurns(c, s, turns[..n]);
      TurnsLeadTo(c, s, turns[..n]);
      TurnLeadsTo(c, u, turns[n]);
      LeadsToTransitive(c, s, u, AfterTurn(c, u, turns[n]));
      LeadsToReachable(c, s, AfterTurn(c, u, turns[n]));
    }
  }

  /** The turns at which a completion was waiting. */
  function Busy(c: Config, s: State, turns: seq<Turn>): nat
    decreases |turns|
  {
    if turns == [] then 0
    else
      var n := |turns| - 1;
      Busy(c, s, turns[..n]) + if Exec(c, AfterTurns(c, s, turns[..n]), turns[n].acts).k.cq != [] then 1 else 0
  }

  lemma RunningBefore(c: Config, s: State, turn: Turn)
    requires AfterTurn(c, s, turn).a.status == Running
    ensures s.a.status == Running
  {
    if s.a.status != Running {
      StoppedStays(c, s, turn.acts);
    }
  }

  /** A loop still running has handled one completion at each turn that found one. */
  lemma {:induction false} TurnsHandle(c: Config, s: State, turns: seq<Turn>)
    requires Reachable(c, s) && (s.a.status == Running ==> s.a.todo == [])
    requires forall i :: 0 <= i < |turns| ==> KernelTurn(turns[i])
    requires AfterTurns(c, s, turns).a.status == Running
    ensures AfterTurns(c, s, turns).a.hist.handled == s.a.hist.handled + Busy(c, s, turns)
    decreases |turns|
  {
    if turns != [] {
      var n := |turns| - 1;
      var u := AfterTurns(c, s, turns[..n]);
      RunningBefore(c, u, turns[n]);
      TurnsLeadTo(c, s, turns[..n]);
      TurnsHandle(c, s, turns[..n]);
      TurnHandlesOne(c, u, turns[n]);
      KernelRunWaits(c, u, turns[n].acts);
    }
  }

  function Min(a: nat, b: nat): nat {
    if a <= b then a else b
  }

  /** With the kernel idle, a loop still running has handled as many of the completions that waited as it
      had turns, oldest first, or all of them. */
  lemma {:induction false} TurnsDrain(c: Config, s: State, turns: seq<Turn>)
    requires Reachable(c, s) && (s.a.status == Running ==> s.a.todo == [])
    requires forall i :: 0 <= i < |turns| ==> turns[i].acts == []
    requires AfterTurns(c, s, turns).a.status == Running
    ensures var t := AfterTurns(c, s, turns); var m := Min(|turns|, |s.k.cq|);
            t.a.hist.handled == s.a.hist.handled + m && t.k == s.k.(cq := s.k.cq[m..])
    decreases |turns|
  {
    if turns != [] {
      var n := |turns| - 1;
      var u := AfterTurns(c, s, turns[..n]);
      RunningBefore(c, u, turns[n]);
      TurnsLeadTo(c, s, turns[..n]);
      TurnsDrain(c, s, turns[..n]);
      TurnHandlesOne(c, u, turns[n]);
      assert Exec(c, u, []) == u;
    }
  }

  /** Together, for a loop whatever becomes of it. */
  lemma LoopHandles(c: Config, s: State, turns: seq<Turn>)
    requires Reachable(c, s) && (s.a.status == Running ==> s.a.todo == [])
    requires forall i :: 0 <= i < |turns| ==> KernelTurn(turns[i])
    ensures var t := AfterTurns(c, s, turns);
            && LeadsTo(c, s, t)
            && (t.a.status == Running ==> t.a.todo == [] && t.a.hist.handled == s.a.hist.handled + Busy(c, s, turns))
    ensures var t := AfterTurns(c, s, turns); var m := Min(|turns|, |s.k.cq|);
            t.a.status == Running && (forall i :: 0 <= i < |turns| ==> turns[i].acts == []) ==>
              t.a.hist.handled == s.a.hist.handled + m && t.k.cq == s.k.cq[m..]
  {
    TurnsLeadTo(c, s, turns);
    if AfterTurns(c, s, turns).a.status == Running {
      TurnsHandle(c, s, turns);
      if forall i :: 0 <= i < |turns| ==> turns[i].acts == [] {
        TurnsDrain(c, s, turns);
      }
    }
  }
}
