/** Model of `repo-agent/backend/app/agents/run_service.py`: one launched run whose task,
    cancellation, done-callback and stale-run watchdog interleave. */
module RunService {
  import opened Wrappers
  import opened RunEvents
  import opened RunLifecycle

  /** The orchestrator's task: what it still has to do, or how it stopped. `Stopped` is a
      task cancelled at its suspension point; `Crashed` let an exception escape. */
  datatype Task = Active(rest: seq<Effect>) | Stopped | Crashed | Finished

  /** One run: its stored status, its published events, its task, and publishes that
      `cancel`, the done-callback and the watchdog have begun and not yet made. */
  datatype World = World(status: RunStatus, events: seq<EventType>, task: Task, outbox: seq<EventType>)

  function Launched(trace: seq<Effect>): World {
    World(Queued, [], Active(trace), [])
  }

  datatype Move = Proceed | Crash | Cancel | TaskDone | Flush | Watchdog

  function Perform(w: World, e: Effect, rest: seq<Effect>): World {
    match e
    case SetStatus(s) => w.(status := s, task := Active(rest))
    case Emit(k) => w.(events := w.events + [k], task := Active(rest))
    case AskDecision => w.(task := Active(rest))
  }

  /** `cancel`: nothing on an ended run; otherwise stop the task and end the run. */
  function CancelRun(w: World): World {
    if Ends(w.status) then w
    else w.(task := if w.task.Active? then Stopped else w.task, status := Cancelled,
            outbox := w.outbox + [RunCancelled])
  }

  /** `_on_task_done`: a crash on a run not ended yet ends it as failed. */
  function Settle(w: World): World {
    if w.task.Crashed? && !Ends(w.status)
    then w.(task := Finished, status := Failed, outbox := w.outbox + [RunFailed])
    else w.(task := Finished)
  }

  /** The statuses `list_active` looks for: a watchdog tick fails such a run, however it is
      found idle, and leaves its task alone. */
  predicate IsActive(status: RunStatus) {
    !Ends(status) && !status.Completing?
  }

  predicate Possible(w: World, m: Move) {
    match m
    case Proceed => w.task.Active?
    case Crash => w.task.Active?
    case Cancel => true
    case TaskDone => w.task.Stopped? || w.task.Crashed?
    case Flush => w.outbox != []
    case Watchdog => IsActive(w.status)
  }

  function Next(w: World, m: Move): World
    requires Possible(w, m)
  {
    match m
    case Proceed => if w.task.rest == [] then w.(task := Finished) else Perform(w, w.task.rest[0], w.task.rest[1..])
    case Crash => w.(task := Crashed)
    case Cancel => CancelRun(w)
    case TaskDone => Settle(w)
    case Flush => w.(events := w.events + [w.outbox[0]], outbox := w.outbox[1..])
    case Watchdog => w.(status := Failed, outbox := w.outbox + [RunFailed])
  }

  function Play(w: World, moves: seq<Move>): World
    decreases |moves|
  {
    if moves == [] then w
    else
      var before, m := Play(w, moves[..|moves| - 1]), moves[|moves| - 1];
      if Possible(before, m) then Next(before, m) else before
  }

  // ---- the code under study ------------------------------------------------

  class Service {
    var status: RunStatus
    var events: seq<EventType>
    var task: Task
    var outbox: seq<EventType>

    function View(): World
      reads this
    {
      World(status, events, task, outbox)
    }

    constructor (trace: seq<Effect>)
      ensures View() == Launched(trace)
    {
      status, events, task, outbox := Queued, [], Active(trace), [];
    }

    method CancelRequest()
      modifies this
      ensures View() == Next(old(View()), Cancel)
    {
      if Ends(status) {
        return;
      }
      if task.Active? {
        task := Stopped;
      }
      status := Cancelled;
      outbox := outbox + [RunCancelled];
    }

    /** A watchdog tick that finds the run idle for too long. */
    method WatchdogTick()
      modifies this
      ensures View() == if IsActive(old(status)) then Next(old(View()), Watchdog) else old(View())
    {
      if status.Queued? || status.Planning? || status.Running? || status.WaitingForAuth? || status.Validating? {
        status := Failed;
        outbox := outbox + [RunFailed];
      }
    }

    method OnTaskDone()
      requires task.Stopped? || task.Crashed?
      modifies this
      ensures View() == Next(old(View()), TaskDone)
    {
      var cancelled := task.Stopped?;
      task := Finished;
      if cancelled {
        return;
      }
      if !Ends(status) {
        status := Failed;
        outbox := outbox + [RunFailed];
      }
    }
  }

  // ---- every interleaving the watchdog stays out of ------------------------

  predicate Told(status: RunStatus, kind: EventType) {
    || (status.Completed? && kind.RunCompleted?)
    || (status.Failed? && kind.RunFailed?)
    || (status.Cancelled? && kind.RunCancelled?)
  }

  predicate NoneTerminal(events: seq<EventType>) {
    forall i :: 0 <= i < |events| ==> !IsTerminal(events[i])
  }

  /** The run has ended once: either its one terminal event has been published, as the
      last event and for the status it has, or that publish is still owed. */
  ghost predicate Inv(w: World) {
    var published := w.events != [] && NoneTerminal(w.events[..|w.events| - 1])
                     && Told(w.status, w.events[|w.events| - 1]);
    if !Ends(w.status) then
      && NoneTerminal(w.events) && w.outbox == [] && !w.task.Stopped? && !w.task.Finished?
      && (w.task.Active? ==> EndsOnce(w.task.rest))
    else match w.task
      case Active(rest) =>
        && w.outbox == [] && !w.status.Cancelled?
        && if rest == [] then published
           else NoneTerminal(w.events) && rest[0].Emit? && Told(w.status, rest[0].kind) && |rest| == 1
      case _ =>
        || (w.outbox == [] && published)
        || (NoneTerminal(w.events) && |w.outbox| == 1 && Told(w.status, w.outbox[0]))
        || (NoneTerminal(w.events) && w.outbox == [] && !w.status.Cancelled? && !w.task.Stopped?)
  }

  /** What is left of a trace that ends the run once, after an effect that does not end it. */
  lemma RestEndsOnce(rest: seq<Effect>)
    requires EndsOnce(rest) && |rest| > 2
    ensures EndsOnce(rest[1..]) && (rest[0].AskDecision? || IsQuiet(rest[0]))
  {
    var more := rest[1..];
    assert rest[..|rest| - 2][0] == rest[0];
    assert more[..|more| - 2] == rest[..|rest| - 2][1..];
    assert more[|more| - 2..] == rest[|rest| - 2..];
  }

  lemma OpenWorkKeeps(w: World)
    requires Inv(w) && w.task.Active? && !Ends(w.status)
    ensures Inv(Next(w, Proceed))
  {
    var rest := w.task.rest;
    if |rest| > 2 {
      RestEndsOnce(rest);
    } else {
      assert rest[0..] == rest;
    }
  }

  lemma WorkKeeps(w: World)
    requires Inv(w) && w.task.Active?
    ensures Inv(Next(w, Proceed))
  {
    var rest := w.task.rest;
    if !Ends(w.status) {
      OpenWorkKeeps(w);
    } else if rest != [] {
      assert (w.events + [rest[0].kind])[..|w.events|] == w.events;
    }
  }

  lemma MoveKeeps(w: World, m: Move)
    requires Inv(w) && Possible(w, m) && m != Watchdog
    ensures Inv(Next(w, m))
  {
    match m
    case Proceed => WorkKeeps(w);
    case Crash =>
    case Cancel =>
    case TaskDone =>
    case Flush => assert (w.events + [w.outbox[0]])[..|w.events|] == w.events;
  }

  lemma {:induction false} InvAlways(trace: seq<Effect>, moves: seq<Move>)
    requires EndsOnce(trace) && Watchdog !in moves
    ensures Inv(Play(Launched(trace), moves))
    decreases |moves|
  {
    if moves != [] {
      var before := Play(Launched(trace), moves[..|moves| - 1]);
      InvAlways(trace, moves[..|moves| - 1]);
      if Possible(before, moves[|moves| - 1]) {
        MoveKeeps(before, moves[|moves| - 1]);
      }
    }
  }

  /** A terminal status is never left. */
  lemma {:induction false} TerminalIsAbsorbing(trace: seq<Effect>, moves: seq<Move>, m: Move)
    requires EndsOnce(trace) && Watchdog !in moves
    requires var w := Play(Launched(trace), moves); Ends(w.status) && Possible(w, m)
    ensures var w := Play(Launched(trace), moves); Next(w, m).status == w.status
  {
    InvAlways(trace, moves);
  }

  /** At most one terminal event is ever published, it is the last event of the run, and
      it tells the status the run has. */
  lemma {:induction false} OneTerminalEvent(trace: seq<Effect>, moves: seq<Move>, i: nat)
    requires EndsOnce(trace) && Watchdog !in moves
    requires var w := Play(Launched(trace), moves); i < |w.events| && IsTerminal(w.events[i])
    ensures var w := Play(Launched(trace), moves); i == |w.events| - 1 && Told(w.status, w.events[i])
  {
    InvAlways(trace, moves);
    var w := Play(Launched(trace), moves);
    forall k | 0 <= k < |w.events| - 1 ensures w.events[..|w.events| - 1][k] == w.events[k] {
    }
  }

  /** A run that has settled without a crash has ended, and said so. */
  lemma {:induction false} SettledRunHasEnded(trace: seq<Effect>, moves: seq<Move>)
    requires EndsOnce(trace) && Crash !in moves && Watchdog !in moves
    requires var w := Play(Launched(trace), moves); w.task.Finished? && w.outbox == []
    ensures var w := Play(Launched(trace), moves);
            Ends(w.status) && w.events != [] && Told(w.status, w.events[|w.events| - 1])
  {
    InvAlways(trace, moves);
    NoCrashTells(trace, moves);
  }

  /** Without a crash, an ended run has published its terminal event or owes it. */
  lemma {:induction false} NoCrashTells(trace: seq<Effect>, moves: seq<Move>)
    requires EndsOnce(trace) && Crash !in moves && Watchdog !in moves
    ensures var w := Play(Launched(trace), moves);
            && !w.task.Crashed?
            && (Ends(w.status) && NoneTerminal(w.events) ==> w.outbox != [] || (w.task.Active? && w.task.rest != []))
    decreases |moves|
  {
    if moves != [] {
      var init, m := moves[..|moves| - 1], moves[|moves| - 1];
      var w := Play(Launched(trace), init);
      NoCrashTells(trace, init);
      InvAlways(trace, init);
      assert m in moves;
      if Possible(w, m) {
        MoveKeeps(w, m);
        if m.Flush? || m.Proceed? {
          var next := Next(w, m);
          if |next.events| > |w.events| {
            assert next.events[|w.events|] == next.events[|next.events| - 1];
          }
        }
      }
    }
  }

  /** The whole run: launched with what the orchestrator does, interleaved with any
      cancellations, its status once terminal stays, and it tells it once. */
  lemma {:induction false} RunIsToldOnce(env: Setting, moves: seq<Move>, m: Move)
    requires QuietSetting(env) && Watchdog !in moves
    requires var w := Play(Launched(RunTrace(env)), moves); Ends(w.status) && Possible(w, m)
    ensures var w := Play(Launched(RunTrace(env)), moves);
            && Next(w, m).status == w.status
            && forall i :: 0 <= i < |w.events| && IsTerminal(w.events[i]) ==>
                 i == |w.events| - 1 && Told(w.status, w.events[i])
  {
    RunEndsOnce(env);
    TerminalIsAbsorbing(RunTrace(env), moves, m);
    var w := Play(Launched(RunTrace(env)), moves);
    forall i | 0 <= i < |w.events| && IsTerminal(w.events[i])
      ensures i == |w.events| - 1 && Told(w.status, w.events[i])
    {
      OneTerminalEvent(RunTrace(env), moves, i);
    }
  }

  // ---- the watchdog --------------------------------------------------------

  /** The task has yet to set a status other than failed. */
  predicate Overwrites(rest: seq<Effect>) {
    exists i :: 0 <= i < |rest| && rest[i].SetStatus? && rest[i].status != Failed
  }

  lemma {:induction false} PlayAppend(w: World, a: seq<Move>, b: seq<Move>)
    ensures Play(w, a + b) == Play(Play(w, a), b)
    decreases |b|
  {
    if b == [] {
      assert a + b == a;
    } else {
      assert (a + b)[..|a + b| - 1] == a + b[..|b| - 1];
      PlayAppend(w, a, b[..|b| - 1]);
    }
  }

  lemma {:induction false} PlayOne(w: World, m: Move)
    requires Possible(w, m)
    ensures Play(w, [m]) == Next(w, m)
  {
    assert [m][..0] == [];
  }

  /** A failed run whose task sets no other status stays failed, whatever happens. */
  lemma {:induction false} StaysFailed(w: World, moves: seq<Move>)
    requires w.status.Failed? && (w.task.Active? ==> !Overwrites(w.task.rest))
    ensures var v := Play(w, moves); v.status.Failed? && (v.task.Active? ==> !Overwrites(v.task.rest))
    decreases |moves|
  {
    if moves != [] {
      var before := Play(w, moves[..|moves| - 1]);
      StaysFailed(w, moves[..|moves| - 1]);
      if before.task.Active? && before.task.rest != [] {
        var rest := before.task.rest;
        assert forall i :: 0 <= i < |rest[1..]| ==> rest[1..][i] == rest[i + 1];
      }
    }
  }

  /** One whose task does leaves that status as the task goes on. */
  lemma {:induction false} GoesOn(w: World) returns (moves: seq<Move>)
    requires w.task.Active? && Overwrites(w.task.rest)
    ensures Play(w, moves).status != Failed
    decreases if w.task.Active? then |w.task.rest| else 0
  {
    var rest := w.task.rest;
    PlayOne(w, Proceed);
    if rest[0].SetStatus? && rest[0].status != Failed {
      moves := [Proceed];
    } else {
      var i :| 0 <= i < |rest| && rest[i].SetStatus? && rest[i].status != Failed;
      assert rest[1..][i - 1] == rest[i];
      var more := GoesOn(Next(w, Proceed));
      PlayAppend(w, [Proceed], more);
      moves := [Proceed] + more;
    }
  }

  /** For any run that stands failed: its status can still change if and only if its task is
      running and has yet to set another one. */
  lemma {:induction false} FailedCanChangeIff(w: World)
    requires w.status.Failed?
    ensures (exists moves :: Play(w, moves).status != Failed) <==> w.task.Active? && Overwrites(w.task.rest)
  {
    if w.task.Active? && Overwrites(w.task.rest) {
      var moves := GoesOn(w);
    } else {
      forall moves ensures Play(w, moves).status.Failed? {
        StaysFailed(w, moves);
      }
    }
  }

  /** What the task has left to do is always the end of what it was launched with. */
  lemma {:induction false} RestIsTail(trace: seq<Effect>, moves: seq<Move>)
    ensures var w := Play(Launched(trace), moves);
            w.task.Active? ==> |w.task.rest| <= |trace| && w.task.rest == trace[|trace| - |w.task.rest|..]
    decreases |moves|
  {
    if moves != [] {
      RestIsTail(trace, moves[..|moves| - 1]);
    }
  }

  /** A task that is to complete the run, left alone, does. */
  lemma {:induction false} RunsOut(w: World) returns (moves: seq<Move>)
    requires w.task.Active? && |w.task.rest| >= 2
    requires w.task.rest[|w.task.rest| - 2..] == [SetStatus(Completed), Emit(RunCompleted)]
    ensures var v := Play(w, moves);
            v.status.Completed? && w.events < v.events && v.events[|v.events| - 1] == RunCompleted
    decreases if w.task.Active? then |w.task.rest| else 0
  {
    if |w.task.rest| == 2 {
      moves := [Proceed] + [Proceed];
      LastTwo(w);
    } else {
      var next := WorksOn(w);
      var more := RunsOut(next);
      PlayAppend(w, [Proceed], more);
      moves := [Proceed] + more;
    }
  }

  lemma {:induction false} WorksOn(w: World) returns (next: World)
    requires w.task.Active? && |w.task.rest| > 2
    ensures next == Play(w, [Proceed]) && w.events <= next.events
    ensures next.task == Active(w.task.rest[1..])
    ensures next.task.rest[|next.task.rest| - 2..] == w.task.rest[|w.task.rest| - 2..]
  {
    PlayOne(w, Proceed);
    next := Next(w, Proceed);
  }

  lemma {:induction false} LastTwo(w: World)
    requires w.task == Active([SetStatus(Completed), Emit(RunCompleted)])
    ensures Play(w, [Proceed] + [Proceed])
         == World(Completed, w.events + [RunCompleted], Active([]), w.outbox)
  {
    var half := World(Completed, w.events, Active([Emit(RunCompleted)]), w.outbox);
    assert Next(w, Proceed) == half;
    PlayOne(w, Proceed);
    PlayOne(half, Proceed);
    PlayAppend(w, [Proceed], [Proceed]);
  }

  /** Both endings are told: the run is published as failed and then as completed. */
  predicate ToldTwice(w: World) {
    w.status.Completed? && RunFailed in w.events && w.events[|w.events| - 1] == RunCompleted
  }

  /** Over any run of the orchestrator: wherever a watchdog tick catches it with its task
      going on, the failed status can change if and only if the task has yet to set another;
      and if the run is one that completes, it can end completed and told twice. */
  lemma {:induction false} WatchdogIsOverwritten(env: Setting, moves: seq<Move>)
    requires QuietSetting(env) && Watchdog !in moves
    requires var w := Play(Launched(RunTrace(env)), moves); w.task.Active? && Possible(w, Watchdog)
    ensures var w := Play(Launched(RunTrace(env)), moves);
            && Next(w, Watchdog).status.Failed?
            && ((exists more :: Play(Next(w, Watchdog), more).status != Failed) <==> Overwrites(w.task.rest))
            && (Completes(env) ==> exists more :: ToldTwice(Play(Next(w, Watchdog), more)))
  {
    FailedCanChangeIff(Next(Play(Launched(RunTrace(env)), moves), Watchdog));
    if Completes(env) {
      var more := CompletionOverwrites(env, moves);
    }
  }

  lemma {:induction false} CompletionOverwrites(env: Setting, moves: seq<Move>) returns (more: seq<Move>)
    requires QuietSetting(env) && Watchdog !in moves && Completes(env)
    requires var w := Play(Launched(RunTrace(env)), moves); w.task.Active? && Possible(w, Watchdog)
    ensures ToldTwice(Play(Next(Play(Launched(RunTrace(env)), moves), Watchdog), more))
  {
    RunEndsOnce(env);
    OpenRunCompletes(RunTrace(env), moves);
    more := EndsTwice(Play(Launched(RunTrace(env)), moves));
  }

  lemma {:induction false} OpenRunCompletes(trace: seq<Effect>, moves: seq<Move>)
    requires EndsOnce(trace) && trace[|trace| - 1] == Emit(RunCompleted) && Watchdog !in moves
    requires var w := Play(Launched(trace), moves); w.task.Active? && !Ends(w.status)
    ensures var w := Play(Launched(trace), moves);
            && w.outbox == [] && |w.task.rest| >= 2
            && w.task.rest[|w.task.rest| - 2..] == [SetStatus(Completed), Emit(RunCompleted)]
  {
    InvAlways(trace, moves);
    RestIsTail(trace, moves);
    CompletingRest(trace, Play(Launched(trace), moves).task.rest);
  }

  predicate Completes(env: Setting) {
    var t := RunTrace(env); |t| > 0 && t[|t| - 1] == Emit(RunCompleted)
  }

  lemma CompletingRest(trace: seq<Effect>, rest: seq<Effect>)
    requires EndsOnce(trace) && trace[|trace| - 1] == Emit(RunCompleted)
    requires EndsOnce(rest) && |rest| <= |trace| && rest == trace[|trace| - |rest|..]
    ensures rest[|rest| - 2..] == [SetStatus(Completed), Emit(RunCompleted)]
  {
    assert rest[|rest| - 1] == trace[|trace| - 1];
    assert rest[|rest| - 2..][1] == rest[|rest| - 1];
  }

  lemma {:induction false} EndsTwice(w: World) returns (moves: seq<Move>)
    requires w.task.Active? && Possible(w, Watchdog) && w.outbox == [] && |w.task.rest| >= 2
    requires w.task.rest[|w.task.rest| - 2..] == [SetStatus(Completed), Emit(RunCompleted)]
    ensures ToldTwice(Play(Next(w, Watchdog), moves))
  {
    var failed := Next(w, Watchdog);
    var told := Next(failed, Flush);
    PlayOne(failed, Flush);
    assert told.events == w.events + [RunFailed];
    assert told.events[|w.events|] == RunFailed;
    var more := RunsOut(told);
    PlayAppend(failed, [Flush], more);
    assert Play(told, more).events[|w.events|] == RunFailed;
    moves := [Flush] + more;
  }

  const Fine: Work := Work([], true)

  /** A run that answers at its first decision. */
  const QuickAnswer: Setting :=
    Setting(false, false, 1, Fine, Fine, false, Fine, Fine, (i: nat) => (Fine, Decision("respond", false)),
            (i: nat) => Ran(true), (i: nat) => None, None, Fine)

  lemma QuickAnswerCompletes()
    ensures QuietSetting(QuickAnswer) && Completes(QuickAnswer)
  {
    var env := QuickAnswer;
    var setup := Setup(env, []);
    assert setup.ok;
    var loop := Loop(env, 0, 0, setup.trace);
    assert loop.end == Leave;
    assert Finish(env, loop.summaries, loop.trace).ok;
  }

  /** It happens: a tick right after the launch of that run. */
  lemma WatchdogOverwritten()
    ensures exists more :: ToldTwice(Play(Next(Launched(RunTrace(QuickAnswer)), Watchdog), more))
  {
    QuickAnswerCompletes();
    assert Play(Launched(RunTrace(QuickAnswer)), []) == Launched(RunTrace(QuickAnswer));
    WatchdogIsOverwritten(QuickAnswer, []);
  }
}
