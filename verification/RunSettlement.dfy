/** How `repo-agent/backend/app/agents/run_service.py` leaves a run under any interleaving of its
    task, its cancellation and its done-callback. */
module RunSettlement {
  import opened Wrappers
  import opened RunEvents
  import opened RunLifecycle
  import opened RunService
  import opened RunOutcomes

  function At(trace: seq<Effect>, moves: seq<Move>): World {
    Play(Launched(trace), moves)
  }

  /** A cancel came before the run had ended. */
  ghost predicate CancelledInTime(trace: seq<Effect>, moves: seq<Move>) {
    exists k :: 0 <= k < |moves| && moves[k].Cancel? && !Ends(At(trace, moves[..k]).status)
  }

  /** The task crashed before the run had ended. */
  ghost predicate CrashedInTime(trace: seq<Effect>, moves: seq<Move>) {
    exists k :: 0 <= k < |moves| && moves[k].Crash? && IsOpen(At(trace, moves[..k]))
  }

  predicate IsOpen(w: World) {
    w.task.Active? && !Ends(w.status)
  }

  /** The task crashed after it had set the run's end and before it could tell it. */
  ghost predicate CrashedUntold(trace: seq<Effect>, moves: seq<Move>) {
    exists k :: 0 <= k < |moves| && moves[k].Crash? && IsUntold(At(trace, moves[..k]))
  }

  predicate IsUntold(w: World) {
    w.task.Active? && Ends(w.status) && w.task.rest != []
  }

  /** The status the task sets last. */
  function EndStatus(trace: seq<Effect>): RunStatus
    requires EndsOnce(trace)
  {
    trace[|trace| - 2].status
  }

  /** What has happened so far, read off the run. */
  ghost predicate Accounts(w: World, end: RunStatus, cancelled: bool, crashed: bool, untold: bool) {
    && (w.status.Cancelled? <==> cancelled)
    && (w.task.Active? ==> !cancelled && !crashed && !untold)
    && (!w.task.Active? && !Ends(w.status) ==> crashed && w.task.Crashed?)
    && (crashed && !cancelled && Ends(w.status) ==> w.status.Failed? && w.task.Finished?)
    && (!crashed && !cancelled && Ends(w.status) ==> w.status == end)
    && (!w.task.Active? && Ends(w.status) && w.outbox == [] ==> (untold <==> NoneTerminal(w.events)))
    && (untold ==> w.outbox == [] && NoneTerminal(w.events) && Ends(w.status))
  }

  ghost predicate Accounted(trace: seq<Effect>, moves: seq<Move>)
    requires EndsOnce(trace)
  {
    Accounts(At(trace, moves), EndStatus(trace), CancelledInTime(trace, moves), CrashedInTime(trace, moves),
             CrashedUntold(trace, moves))
  }

  lemma {:induction false} HistorySnoc(trace: seq<Effect>, moves: seq<Move>, m: Move)
    ensures var w := At(trace, moves);
            && (CancelledInTime(trace, moves + [m]) <==>
                  CancelledInTime(trace, moves) || (m.Cancel? && !Ends(w.status)))
            && (CrashedInTime(trace, moves + [m]) <==> CrashedInTime(trace, moves) || (m.Crash? && IsOpen(w)))
            && (CrashedUntold(trace, moves + [m]) <==> CrashedUntold(trace, moves) || (m.Crash? && IsUntold(w)))
  {
    var more := moves + [m];
    assert more[..|moves|] == moves;
    forall k | 0 <= k < |moves| ensures more[k] == moves[k] && more[..k] == moves[..k] {
    }
  }

  /** While the run is open its task has the end of its trace ahead. */
  lemma {:induction false} EndAhead(trace: seq<Effect>, moves: seq<Move>)
    requires EndsOnce(trace) && Watchdog !in moves
    ensures var w := At(trace, moves);
            IsOpen(w) ==> |w.task.rest| >= 2 && w.task.rest[|w.task.rest| - 2] == SetStatus(EndStatus(trace))
  {
    InvAlways(trace, moves);
    RestIsTail(trace, moves);
    var w := At(trace, moves);
    if IsOpen(w) {
      assert EndsOnce(w.task.rest);
    }
  }

  lemma {:induction false} ProceedAccounts(w: World, end: RunStatus)
    requires Inv(w) && w.task.Active? && Accounts(w, end, false, false, false)
    requires IsOpen(w) ==> |w.task.rest| >= 2 && w.task.rest[|w.task.rest| - 2] == SetStatus(end)
    ensures Accounts(Next(w, Proceed), end, false, false, false)
  {
    var rest := w.task.rest;
    WorkKeeps(w);
    if IsOpen(w) {
      if |rest| > 2 {
        RestEndsOnce(rest);
      }
    } else if rest == [] {
      assert IsTerminal(w.events[|w.events| - 1]);
    }
  }

  lemma {:induction false} MoveAccounts(w: World, m: Move, end: RunStatus, cancelled: bool, crashed: bool, untold: bool)
    requires Inv(w) && Possible(w, m) && m != Watchdog && Accounts(w, end, cancelled, crashed, untold)
    requires IsOpen(w) ==> |w.task.rest| >= 2 && w.task.rest[|w.task.rest| - 2] == SetStatus(end)
    ensures Accounts(Next(w, m), end, cancelled || (m.Cancel? && !Ends(w.status)),
                     crashed || (m.Crash? && IsOpen(w)), untold || (m.Crash? && IsUntold(w)))
  {
    match m
    case Proceed => ProceedAccounts(w, end);
    case Crash =>
      if Ends(w.status) && w.task.rest == [] {
        assert IsTerminal(w.events[|w.events| - 1]);
      }
    case Cancel =>
    case TaskDone =>
    case Flush =>
      var next := Next(w, m);
      assert next.events[|w.events|] == w.outbox[0];
      assert IsTerminal(w.outbox[0]);
  }

  lemma {:induction false} AccountedAlways(trace: seq<Effect>, moves: seq<Move>)
    requires EndsOnce(trace) && Watchdog !in moves
    ensures Accounted(trace, moves)
    decreases |moves|
  {
    if moves != [] {
      var init, m := moves[..|moves| - 1], moves[|moves| - 1];
      assert moves == init + [m] && m in moves;
      var w := At(trace, init);
      AccountedAlways(trace, init);
      InvAlways(trace, init);
      EndAhead(trace, init);
      HistorySnoc(trace, init, m);
      if Possible(w, m) {
        MoveAccounts(w, m, EndStatus(trace), CancelledInTime(trace, init), CrashedInTime(trace, init),
                     CrashedUntold(trace, init));
      }
    }
  }

  /** A settled run is cancelled if and only if a cancel came before it had ended; failed if, with
      none, the task crashed before that; and otherwise what the task made of it. Its end has been
      told, once no publish is owed, if and only if the task did not crash between setting that end
      and telling it. */
  lemma {:induction false} SettledOutcome(trace: seq<Effect>, moves: seq<Move>)
    requires EndsOnce(trace) && Watchdog !in moves && At(trace, moves).task.Finished?
    ensures var w := At(trace, moves);
            && w.status == (if CancelledInTime(trace, moves) then Cancelled
                            else if CrashedInTime(trace, moves) then Failed else EndStatus(trace))
            && (w.outbox == [] ==>
                  ((w.events != [] && RunService.Told(w.status, w.events[|w.events| - 1]))
                   <==> !CrashedUntold(trace, moves)))
  {
    AccountedAlways(trace, moves);
    InvAlways(trace, moves);
    var w := At(trace, moves);
    if w.events != [] {
      assert RunService.Told(w.status, w.events[|w.events| - 1]) ==> !NoneTerminal(w.events);
    }
  }

  /** And at any time, settled or not, it stands cancelled exactly when a cancel came in time. */
  lemma {:induction false} CancelledIff(trace: seq<Effect>, moves: seq<Move>)
    requires EndsOnce(trace) && Watchdog !in moves
    ensures At(trace, moves).status.Cancelled? <==> CancelledInTime(trace, moves)
  {
    AccountedAlways(trace, moves);
  }

  /** A run that crashed before it had ended, and was not cancelled, ends failed and says so. */
  lemma {:induction false} CrashIsTold(trace: seq<Effect>, moves: seq<Move>)
    requires EndsOnce(trace) && Watchdog !in moves
    requires CrashedInTime(trace, moves) && !CancelledInTime(trace, moves)
    requires At(trace, moves).task.Finished? && At(trace, moves).outbox == []
    ensures var w := At(trace, moves);
            w.status.Failed? && w.events != [] && w.events[|w.events| - 1].RunFailed?
  {
    SettledOutcome(trace, moves);
    CrashOnce(trace, moves);
  }

  /** The task crashes once at most. */
  lemma {:induction false} CrashOnce(trace: seq<Effect>, moves: seq<Move>)
    requires EndsOnce(trace) && Watchdog !in moves
    ensures !(CrashedInTime(trace, moves) && CrashedUntold(trace, moves))
    decreases |moves|
  {
    if moves != [] {
      var init, m := moves[..|moves| - 1], moves[|moves| - 1];
      assert moves == init + [m];
      CrashOnce(trace, init);
      AccountedAlways(trace, init);
      HistorySnoc(trace, init, m);
    }
  }

  /** End to end: a run interleaved with any cancels and crashes. */
  lemma {:induction false} RunIsSettled(env: Setting, moves: seq<Move>)
    requires QuietSetting(env) && Watchdog !in moves && At(RunTrace(env), moves).task.Finished?
    ensures var trace, w := RunTrace(env), At(RunTrace(env), moves);
            w.status == if CancelledInTime(trace, moves) then Cancelled
                        else if CrashedInTime(trace, moves) then Failed
                        else if && SetsUp(env) && LoopLeaves(env, 0)
                                && (OwesValidation(env) ==> env.finalValidation.Some?) && env.compose.succeeds
                        then Completed else Failed
  {
    var trace := RunTrace(env);
    RunEndsOnce(env);
    SettledOutcome(trace, moves);
    RunCompletesIff(env);
    assert trace[|trace| - 2..][0] == trace[|trace| - 2];
  }
}
