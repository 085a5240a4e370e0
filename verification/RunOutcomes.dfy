/** How a run of `repo-agent/backend/app/agents/orchestrator.py` ends, what it tells on the way and
    under which statuses it works, in terms of how its collaborators behave. */
module RunOutcomes {
  import opened Wrappers
  import opened RunEvents
  import opened RunLifecycle

  // ---- the turns of the loop -----------------------------------------------

  predicate CallsTool(env: Setting, i: nat) {
    env.decide(i).1 == Decision("tool_call", true)
  }

  predicate Validates(env: Setting, i: nat) {
    env.decide(i).1.action == "validate"
  }

  /** The turn decides on a tool call or a validation, and neither it nor the work raises. */
  predicate Continues(env: Setting, i: nat) {
    && env.decide(i).0.succeeds
    && ((CallsTool(env, i) && env.tool(i).Ran?) || (Validates(env, i) && env.validation(i).Some?))
  }

  /** The turn decides to answer: on anything but a tool call, a validation or giving up. */
  predicate Answers(env: Setting, i: nat) {
    env.decide(i).0.succeeds && !CallsTool(env, i) && !Validates(env, i) && env.decide(i).1.action != "fail"
  }

  /** The first turn, from this one on, that does not continue, or the limit. */
  function StopsAt(env: Setting, i: nat): (n: nat)
    requires i <= Limit(env)
    ensures i <= n <= Limit(env) && (n < Limit(env) ==> !Continues(env, n))
    ensures forall k :: i <= k < n ==> Continues(env, k)
    decreases Limit(env) - i
  {
    if i < Limit(env) && Continues(env, i) then StopsAt(env, i + 1) else i
  }

  /** No turn the loop reaches raises or gives up. */
  predicate LoopLeaves(env: Setting, i: nat)
    requires i <= Limit(env)
  {
    StopsAt(env, i) == Limit(env) || Answers(env, StopsAt(env, i))
  }

  /** The results the turns from `i` up to `n` have collected. */
  function Gathered(env: Setting, i: nat, n: nat): nat
    requires i <= n && forall k :: i <= k < n ==> Continues(env, k)
    decreases n - i
  {
    if i == n then 0
    else
      assert Continues(env, i);
      (if Validates(env, i) then env.validation(i).value else 0) + Gathered(env, i + 1, n)
  }

  lemma {:induction false} LoopEnds(env: Setting, i: nat, summaries: nat, t: seq<Effect>)
    requires i <= Limit(env)
    ensures var loop := Loop(env, i, summaries, t);
            && (loop.end.Leave? <==> LoopLeaves(env, i))
            && (loop.end.Leave? ==> loop.summaries == summaries + Gathered(env, i, StopsAt(env, i)))
    decreases Limit(env) - i
  {
    if i < Limit(env) && Continues(env, i) {
      var (work, decision) := env.decide(i);
      var asked := t + [AskDecision] + work.effects;
      if CallsTool(env, i) {
        LoopEnds(env, i + 1, summaries, ToolFlow(asked, env.tool(i)).trace + [Emit(PlanUpdated)]);
      } else {
        LoopEnds(env, i + 1, summaries + env.validation(i).value, ValidationFlow(asked, env.validation(i)).trace);
      }
    }
  }

  // ---- how a run ends ------------------------------------------------------

  predicate EndsWith(t: seq<Effect>, status: RunStatus, kind: EventType) {
    |t| >= 2 && t[|t| - 2..] == [SetStatus(status), Emit(kind)]
  }

  predicate SetsUp(env: Setting) {
    env.open.succeeds && env.prepare.succeeds && env.client.succeeds && env.plan.succeeds
  }

  /** The run is left with nothing validated although it should be. */
  predicate OwesValidation(env: Setting) {
    env.agentMode && env.enableValidation && Gathered(env, 0, StopsAt(env, 0)) == 0
  }

  /** A run completes if and only if nothing it reaches raises and the decision that stops its loop
      is not to give up; otherwise it fails. */
  lemma {:induction false} RunCompletesIff(env: Setting)
    ensures EndsWith(RunTrace(env), Completed, RunCompleted) <==>
              && SetsUp(env) && LoopLeaves(env, 0)
              && (OwesValidation(env) ==> env.finalValidation.Some?)
              && env.compose.succeeds
    ensures EndsWith(RunTrace(env), Failed, RunFailed) <==> !EndsWith(RunTrace(env), Completed, RunCompleted)
  {
    var setup := Setup(env, []);
    assert setup.ok <==> SetsUp(env);
    if setup.ok {
      LoopEnds(env, 0, 0, setup.trace);
      var loop := Loop(env, 0, 0, setup.trace);
      if loop.end.Leave? {
        var finish := Finish(env, loop.summaries, loop.trace);
        Tail(finish.trace, Completed, RunCompleted);
        Tail(finish.trace, Failed, RunFailed);
      } else {
        Tail(loop.trace, Failed, RunFailed);
      }
    } else {
      Tail(setup.trace, Failed, RunFailed);
    }
  }

  lemma Tail(t: seq<Effect>, status: RunStatus, kind: EventType)
    ensures EndsWith(t + [SetStatus(status)] + [Emit(kind)], status, kind)
  {
    var all := t + [SetStatus(status)] + [Emit(kind)];
    assert all[|t|..] == [SetStatus(status), Emit(kind)];
  }

  // ---- what a run tells ----------------------------------------------------

  /** The events the run tells itself; sign-in and the streamed answer are its collaborators'. */
  predicate IsOwn(e: Effect) {
    && e.Emit? && !e.kind.ReauthenticationRequired? && !e.kind.Reauthenticated?
    && !e.kind.ResponseBatchStarted? && !e.kind.ResponseDelta? && !e.kind.ResponseBatchCompleted?
  }

  function Tells(t: seq<Effect>): seq<EventType> {
    if t == [] then []
    else Tells(t[..|t| - 1]) + if IsOwn(t[|t| - 1]) then [t[|t| - 1].kind] else []
  }

  ghost predicate AsideSetting(env: Setting) {
    && Tells(env.open.effects) == [] && Tells(env.prepare.effects) == [] && Tells(env.client.effects) == []
    && Tells(env.plan.effects) == [] && Tells(env.compose.effects) == []
    && forall i: nat :: Tells(env.decide(i).0.effects) == []
  }

  lemma {:induction false} TellsSnoc(t: seq<Effect>, e: Effect)
    ensures Tells(t + [e]) == Tells(t) + if IsOwn(e) then [e.kind] else []
  {
    assert (t + [e])[..|t|] == t;
  }

  lemma {:induction false} TellsAppend(t: seq<Effect>, more: seq<Effect>)
    ensures Tells(t + more) == Tells(t) + Tells(more)
    decreases |more|
  {
    if more == [] {
      assert t + more == t;
    } else {
      assert (t + more)[..|t + more| - 1] == t + more[..|more| - 1];
      TellsAppend(t, more[..|more| - 1]);
    }
  }

  /** A tool call is told as started, then what was seen of it, how it went, and the plan after it;
      a validation as started and completed. Each stops where something raises. */
  function TurnStory(env: Setting, i: nat): seq<EventType> {
    if !env.decide(i).0.succeeds then []
    else if CallsTool(env, i) then ToolStory(env.tool(i))
    else if Validates(env, i) then ValidationStory(env.validation(i))
    else []
  }

  function ToolStory(run: ToolRun): seq<EventType> {
    match run
    case SnapshotRaises => [ToolStarted]
    case ExecuteRaises => [ToolStarted]
    case RecordRaises => [ToolStarted, ObservationCreated]
    case Ran(true) => [ToolStarted, ObservationCreated, ToolCompleted, PlanUpdated]
    case Ran(false) => [ToolStarted, ObservationCreated, ToolFailed, PlanUpdated]
  }

  function ValidationStory(results: Option<nat>): seq<EventType> {
    if results.Some? then [ValidationStarted, ValidationCompleted] else [ValidationStarted]
  }

  /** What has been told, and then the turns from `i` to the one the loop stops at. */
  function WithTurns(env: Setting, i: nat, told: seq<EventType>): seq<EventType>
    requires i <= Limit(env)
    decreases Limit(env) - i
  {
    if i == Limit(env) then told
    else if Continues(env, i) then WithTurns(env, i + 1, told + TurnStory(env, i))
    else told + TurnStory(env, i)
  }

  lemma Regroup(a: seq<EventType>, b: seq<EventType>, c: seq<EventType>)
    ensures a + b + c == a + (b + c)
  {
  }

  lemma FourTold(a: seq<EventType>, b: EventType, c: EventType, d: EventType, e: EventType)
    ensures a + [b] + [c] == a + [b, c]
    ensures a + [b] + [c] + [d] + [e] == a + [b, c, d, e]
  {
  }

  lemma {:induction false} AsideTells(t: seq<Effect>, work: Work)
    requires Tells(work.effects) == []
    ensures Tells(t + work.effects) == Tells(t)
  {
    TellsAppend(t, work.effects);
  }

  lemma {:induction false} RanTells(t: seq<Effect>, success: bool)
    ensures Tells(ToolFlow(t, Ran(success)).trace + [Emit(PlanUpdated)]) == Tells(t) + ToolStory(Ran(success))
  {
    var outcome := if success then ToolCompleted else ToolFailed;
    var t1 := t + [Emit(ToolStarted)];
    var t2 := t1 + [Emit(ObservationCreated)];
    var t3 := t2 + [Emit(outcome)];
    TellsSnoc(t, Emit(ToolStarted));
    TellsSnoc(t1, Emit(ObservationCreated));
    TellsSnoc(t2, Emit(outcome));
    TellsSnoc(t3, Emit(PlanUpdated));
    FourTold(Tells(t), ToolStarted, ObservationCreated, outcome, PlanUpdated);
  }

  lemma {:induction false} RaisedTells(t: seq<Effect>, run: ToolRun)
    requires !run.Ran?
    ensures Tells(ToolFlow(t, run).trace) == Tells(t) + ToolStory(run)
  {
    TellsSnoc(t, Emit(ToolStarted));
    if run.RecordRaises? {
      var t1 := t + [Emit(ToolStarted)];
      assert Tells(t1 + [Emit(ObservationCreated)]) == Tells(t1) + [ObservationCreated] by {
        TellsSnoc(t1, Emit(ObservationCreated));
      }
      Regroup(Tells(t), [ToolStarted], [ObservationCreated]);
    }
  }

  lemma {:induction false} ValidationTells(t: seq<Effect>, results: Option<nat>)
    ensures Tells(ValidationFlow(t, results).trace) == Tells(t) + ValidationStory(results)
  {
    var begun := t + [SetStatus(Validating)];
    var started := begun + [Emit(ValidationStarted)];
    Regroup(Tells(t), [ValidationStarted], [ValidationCompleted]);
    TellsSnoc(t, SetStatus(Validating));
    TellsSnoc(begun, Emit(ValidationStarted));
    TellsSnoc(started, Emit(ValidationCompleted));
    TellsSnoc(started + [Emit(ValidationCompleted)], SetStatus(Running));
  }

  lemma {:induction false} TurnTells(env: Setting, i: nat, t: seq<Effect>)
    requires AsideSetting(env)
    ensures Tells(Turn(env, i, t)) == Tells(t) + TurnStory(env, i)
  {
    var work := env.decide(i).0;
    var asked := t + [AskDecision] + work.effects;
    assert Tells(asked) == Tells(t) by {
      TellsSnoc(t, AskDecision);
      AsideTells(t + [AskDecision], work);
    }
    if work.succeeds && CallsTool(env, i) {
      var run := env.tool(i);
      if run.Ran? {
        RanTells(asked, run.success);
      } else {
        RaisedTells(asked, run);
      }
    } else if work.succeeds && Validates(env, i) {
      ValidationTells(asked, env.validation(i));
    }
  }

  /** The trace of the loop from turn `i` on. */
  function Turns(env: Setting, i: nat, t: seq<Effect>): seq<Effect>
    requires i <= Limit(env)
    decreases Limit(env) - i
  {
    if i == Limit(env) then t
    else if Continues(env, i) then Turns(env, i + 1, Turn(env, i, t))
    else Turn(env, i, t)
  }

  lemma {:induction false} LoopIsTurns(env: Setting, i: nat, summaries: nat, t: seq<Effect>)
    requires i <= Limit(env)
    ensures Loop(env, i, summaries, t).trace == Turns(env, i, t)
    decreases Limit(env) - i
  {
    if i < Limit(env) && Continues(env, i) {
      var more := if Validates(env, i) then env.validation(i).value else 0;
      LoopIsTurns(env, i + 1, summaries + more, Turn(env, i, t));
    }
  }

  lemma {:induction false} TurnsTell(env: Setting, i: nat, t: seq<Effect>)
    requires AsideSetting(env) && i <= Limit(env)
    ensures Tells(Turns(env, i, t)) == WithTurns(env, i, Tells(t))
    decreases Limit(env) - i
  {
    if i == Limit(env) {
      assert Turns(env, i, t) == t;
    } else {
      var turn := Turn(env, i, t);
      TurnTells(env, i, t);
      if Continues(env, i) {
        TurnsTell(env, i + 1, turn);
        assert Turns(env, i, t) == Turns(env, i + 1, turn);
      } else {
        assert Turns(env, i, t) == turn;
      }
    }
  }

  /** Started, compacted if it was, planned; then the turns; then the validation owed, and the end. */
  function RunStory(env: Setting): seq<EventType> {
    if !SetsUp(env) then SetupStory(env) + [RunFailed]
    else if !LoopLeaves(env, 0) then WithTurns(env, 0, SetupStory(env)) + [RunFailed]
    else
      WithTurns(env, 0, SetupStory(env))
      + (if OwesValidation(env) then ValidationStory(env.finalValidation) else [])
      + if env.compose.succeeds && (OwesValidation(env) ==> env.finalValidation.Some?)
        then [RunCompleted] else [RunFailed]
  }

  /** What a run tells before its turns. */
  function SetupStory(env: Setting): seq<EventType> {
    var compacted := if env.open.succeeds && env.prepare.succeeds && env.compacted
                     then [RunStarted] + [ConversationCompacted] else [RunStarted];
    if SetsUp(env) then compacted + [PlanCreated] else compacted
  }

  lemma OpenTells(env: Setting)
    requires AsideSetting(env)
    ensures Tells([] + [Emit(RunStarted)] + env.open.effects) == [RunStarted]
  {
    TellsSnoc([], Emit(RunStarted));
    AsideTells([] + [Emit(RunStarted)], env.open);
  }

  lemma {:induction false} PlanTells(env: Setting, built: seq<Effect>)
    requires AsideSetting(env)
    ensures var planned := built + [SetStatus(Planning)] + env.plan.effects;
            && Tells(planned) == Tells(built)
            && Tells(planned + [Emit(PlanCreated)] + [SetStatus(Running)]) == Tells(built) + [PlanCreated]
  {
    var planned := built + [SetStatus(Planning)] + env.plan.effects;
    TellsSnoc(built, SetStatus(Planning));
    AsideTells(built + [SetStatus(Planning)], env.plan);
    TellsSnoc(planned, Emit(PlanCreated));
    TellsSnoc(planned + [Emit(PlanCreated)], SetStatus(Running));
  }

  lemma {:induction false} SetupTells(env: Setting)
    requires AsideSetting(env)
    ensures Tells(Setup(env, []).trace) == SetupStory(env)
  {
    var ready := [] + [Emit(RunStarted)] + env.open.effects;
    OpenTells(env);
    var prepared := ready + env.prepare.effects;
    AsideTells(ready, env.prepare);
    TellsSnoc(prepared, Emit(ConversationCompacted));
    var compacted := if env.compacted then prepared + [Emit(ConversationCompacted)] else prepared;
    AsideTells(compacted, env.client);
    PlanTells(env, compacted + env.client.effects);
  }

  lemma {:induction false} FinishTells(env: Setting, summaries: nat, t: seq<Effect>)
    requires AsideSetting(env)
    ensures Tells(Finish(env, summaries, t).trace)
         == Tells(t) + if env.agentMode && env.enableValidation && summaries == 0
                       then ValidationStory(env.finalValidation) else []
  {
    ValidationTells(t, env.finalValidation);
    var checked := if env.agentMode && env.enableValidation && summaries == 0
                   then ValidationFlow(t, env.finalValidation) else Flow(t, true);
    TellsSnoc(checked.trace, SetStatus(Completing));
    TellsAppend(checked.trace + [SetStatus(Completing)], env.compose.effects);
  }

  lemma {:induction false} EndTells(t: seq<Effect>, status: RunStatus, kind: EventType)
    requires IsTerminal(kind)
    ensures Tells(t + [SetStatus(status)] + [Emit(kind)]) == Tells(t) + [kind]
  {
    TellsSnoc(t, SetStatus(status));
    TellsSnoc(t + [SetStatus(status)], Emit(kind));
  }

  /** Every run tells exactly its story. */
  lemma {:induction false} RunTells(env: Setting)
    requires AsideSetting(env)
    ensures Tells(RunTrace(env)) == RunStory(env)
  {
    var setup := Setup(env, []);
    SetupTells(env);
    if !setup.ok {
      EndTells(setup.trace, Failed, RunFailed);
    } else {
      LoopEnds(env, 0, 0, setup.trace);
      AfterSetupTells(env, setup.trace, Loop(env, 0, 0, setup.trace));
    }
  }

  lemma {:induction false} AfterSetupTells(env: Setting, t: seq<Effect>, loop: LoopRun)
    requires AsideSetting(env) && SetsUp(env) && t == Setup(env, []).trace && Tells(t) == SetupStory(env)
    requires loop == Loop(env, 0, 0, t) && (loop.end.Leave? <==> LoopLeaves(env, 0))
    requires loop.end.Leave? ==> loop.summaries == Gathered(env, 0, StopsAt(env, 0))
    ensures Tells(RunTrace(env)) == RunStory(env)
  {
    assert Tells(loop.trace) == WithTurns(env, 0, SetupStory(env)) by {
      LoopIsTurns(env, 0, 0, t);
      TurnsTell(env, 0, t);
    }
    if loop.end.Leave? {
      var finish := Finish(env, loop.summaries, loop.trace);
      FinishTells(env, loop.summaries, loop.trace);
      if finish.ok {
        EndTells(finish.trace, Completed, RunCompleted);
      } else {
        EndTells(finish.trace, Failed, RunFailed);
      }
    } else {
      EndTells(loop.trace, Failed, RunFailed);
    }
  }

  // ---- under which statuses it works ---------------------------------------

  /** The status stored after these effects, from this one on. */
  function StatusAfter(start: RunStatus, t: seq<Effect>): RunStatus {
    if t == [] then start
    else
      var e := t[|t| - 1];
      if e.SetStatus? then e.status else StatusAfter(start, t[..|t| - 1])
  }

  /** A run decides and calls tools while it is running, and validates while validating; it has
      left the queue when its plan is made, and its end is stored before it is told. */
  predicate Suits(e: Effect, status: RunStatus) {
    match e
    case SetStatus(_) => true
    case AskDecision => status.Running?
    case Emit(kind) =>
      match kind
      case ToolStarted => status.Running?
      case ObservationCreated => status.Running?
      case ToolCompleted => status.Running?
      case ToolFailed => status.Running?
      case PlanUpdated => status.Running?
      case ValidationStarted => status.Validating?
      case ValidationCompleted => status.Validating?
      case PlanCreated => status.Planning? || status.Running?
      case RunCompleted => status.Completed?
      case RunFailed => status.Failed?
      case _ => true
  }

  ghost predicate Staged(t: seq<Effect>) {
    forall i :: 0 <= i < |t| ==> SuitsAt(t, i)
  }

  predicate SuitsAt(t: seq<Effect>, i: nat)
    requires i < |t|
  {
    Suits(t[i], StatusAfter(Queued, t[..i]))
  }

  /** A sign-in on the way, if it succeeds, leaves the run running again. */
  ghost predicate Restores(work: Work) {
    work.succeeds ==> forall s :: StatusAfter(s, work.effects) == s || StatusAfter(s, work.effects).Running?
  }

  ghost predicate RestoringSetting(env: Setting) {
    Restores(env.plan) && forall i: nat :: Restores(env.decide(i).0)
  }

  function StatusOf(t: seq<Effect>): RunStatus {
    StatusAfter(Queued, t)
  }

  lemma {:induction false} StageSnoc(t: seq<Effect>, e: Effect)
    requires Staged(t) && Suits(e, StatusOf(t))
    ensures Staged(t + [e]) && StatusOf(t + [e]) == if e.SetStatus? then e.status else StatusOf(t)
  {
    var more := t + [e];
    assert more[..|t|] == t;
    forall i | 0 <= i < |more| ensures SuitsAt(more, i) {
      if i < |t| {
        assert SuitsAt(t, i) && more[..i] == t[..i];
      }
    }
  }

  lemma {:induction false} StageWork(t: seq<Effect>, effects: seq<Effect>)
    requires Staged(t) && Quiet(effects) && Tells(effects) == []
    ensures Staged(t + effects) && StatusOf(t + effects) == StatusAfter(StatusOf(t), effects)
    decreases |effects|
  {
    if effects == [] {
      assert t + effects == t;
    } else {
      var init, e := effects[..|effects| - 1], effects[|effects| - 1];
      StageWork(t, init);
      assert IsQuiet(e) && !IsOwn(e);
      StageSnoc(t + init, e);
      assert t + effects == t + init + [e];
    }
  }

  lemma StageTool(t: seq<Effect>, run: ToolRun)
    requires Staged(t) && StatusOf(t).Running?
    ensures var tool := ToolFlow(t, run);
            Staged(tool.trace) && StatusOf(tool.trace).Running?
  {
    var started := t + [Emit(ToolStarted)];
    StageSnoc(t, Emit(ToolStarted));
    if run.Ran? || run.RecordRaises? {
      var observed := started + [Emit(ObservationCreated)];
      StageSnoc(started, Emit(ObservationCreated));
      if run.Ran? {
        StageSnoc(observed, Emit(if run.success then ToolCompleted else ToolFailed));
      }
    }
  }

  lemma StageValidation(t: seq<Effect>, results: Option<nat>)
    requires Staged(t)
    ensures var v := ValidationFlow(t, results); Staged(v.trace) && (v.ok ==> StatusOf(v.trace).Running?)
  {
    var begun := t + [SetStatus(Validating)];
    var started := begun + [Emit(ValidationStarted)];
    StageSnoc(t, SetStatus(Validating));
    StageSnoc(begun, Emit(ValidationStarted));
    StageSnoc(started, Emit(ValidationCompleted));
    StageSnoc(started + [Emit(ValidationCompleted)], SetStatus(Running));
  }

  lemma StageTurn(env: Setting, i: nat, t: seq<Effect>)
    requires QuietSetting(env) && AsideSetting(env) && RestoringSetting(env)
    requires Staged(t) && StatusOf(t).Running?
    ensures Staged(Turn(env, i, t)) && (Continues(env, i) ==> StatusOf(Turn(env, i, t)).Running?)
  {
    var work := env.decide(i).0;
    var asked := t + [AskDecision] + work.effects;
    StageSnoc(t, AskDecision);
    StageWork(t + [AskDecision], work.effects);
    if work.succeeds && CallsTool(env, i) {
      StageTool(asked, env.tool(i));
      StageSnoc(ToolFlow(asked, env.tool(i)).trace, Emit(PlanUpdated));
    } else if work.succeeds && Validates(env, i) {
      StageValidation(asked, env.validation(i));
    }
  }

  lemma {:induction false} StageTurns(env: Setting, i: nat, t: seq<Effect>)
    requires QuietSetting(env) && AsideSetting(env) && RestoringSetting(env) && i <= Limit(env)
    requires Staged(t) && StatusOf(t).Running?
    ensures Staged(Turns(env, i, t))
    decreases Limit(env) - i
  {
    if i < Limit(env) {
      StageTurn(env, i, t);
      if Continues(env, i) {
        StageTurns(env, i + 1, Turn(env, i, t));
      }
    }
  }

  lemma StagePlan(env: Setting, built: seq<Effect>)
    requires QuietSetting(env) && AsideSetting(env) && RestoringSetting(env) && Staged(built)
    ensures var planned := built + [SetStatus(Planning)] + env.plan.effects;
            && Staged(planned)
            && (env.plan.succeeds ==>
                  var ready := planned + [Emit(PlanCreated)] + [SetStatus(Running)];
                  Staged(ready) && StatusOf(ready).Running?)
  {
    var planned := built + [SetStatus(Planning)] + env.plan.effects;
    StageSnoc(built, SetStatus(Planning));
    StageWork(built + [SetStatus(Planning)], env.plan.effects);
    if env.plan.succeeds {
      StageSnoc(planned, Emit(PlanCreated));
      StageSnoc(planned + [Emit(PlanCreated)], SetStatus(Running));
    }
  }

  lemma StageOpen(env: Setting)
    requires QuietSetting(env) && AsideSetting(env)
    ensures Staged([] + [Emit(RunStarted)] + env.open.effects)
  {
    StageSnoc([], Emit(RunStarted));
    StageWork([] + [Emit(RunStarted)], env.open.effects);
  }

  lemma StagePrepare(env: Setting, ready: seq<Effect>)
    requires QuietSetting(env) && AsideSetting(env) && Staged(ready)
    ensures var prepared := ready + env.prepare.effects;
            var compacted := if env.compacted then prepared + [Emit(ConversationCompacted)] else prepared;
            Staged(prepared) && Staged(compacted + env.client.effects)
  {
    StageWork(ready, env.prepare.effects);
    var prepared := ready + env.prepare.effects;
    if env.compacted {
      StageSnoc(prepared, Emit(ConversationCompacted));
      StageWork(prepared + [Emit(ConversationCompacted)], env.client.effects);
    } else {
      StageWork(prepared, env.client.effects);
    }
  }

  lemma {:induction false} StageSetup(env: Setting)
    requires QuietSetting(env) && AsideSetting(env) && RestoringSetting(env)
    ensures var setup := Setup(env, []); Staged(setup.trace) && (setup.ok ==> StatusOf(setup.trace).Running?)
  {
    var ready := [] + [Emit(RunStarted)] + env.open.effects;
    StageOpen(env);
    if env.open.succeeds {
      StagePrepare(env, ready);
      var prepared := ready + env.prepare.effects;
      var compacted := if env.compacted then prepared + [Emit(ConversationCompacted)] else prepared;
      if env.prepare.succeeds && env.client.succeeds {
        StagePlan(env, compacted + env.client.effects);
      }
    }
  }

  lemma StageFinish(env: Setting, summaries: nat, t: seq<Effect>)
    requires QuietSetting(env) && AsideSetting(env) && Staged(t)
    ensures Staged(Finish(env, summaries, t).trace)
  {
    StageValidation(t, env.finalValidation);
    var checked := if env.agentMode && env.enableValidation && summaries == 0
                   then ValidationFlow(t, env.finalValidation) else Flow(t, true);
    StageSnoc(checked.trace, SetStatus(Completing));
    StageWork(checked.trace + [SetStatus(Completing)], env.compose.effects);
  }

  lemma StageEnd(t: seq<Effect>, status: RunStatus, kind: EventType)
    requires Staged(t) && Suits(Emit(kind), status)
    ensures Staged(t + [SetStatus(status)] + [Emit(kind)])
  {
    StageSnoc(t, SetStatus(status));
    StageSnoc(t + [SetStatus(status)], Emit(kind));
  }

  /** Whatever the run does, it does under a status that suits it. */
  lemma {:induction false} RunIsStaged(env: Setting)
    requires QuietSetting(env) && AsideSetting(env) && RestoringSetting(env)
    ensures Staged(RunTrace(env))
  {
    var setup := Setup(env, []);
    StageSetup(env);
    if !setup.ok {
      StageEnd(setup.trace, Failed, RunFailed);
    } else {
      var loop := Loop(env, 0, 0, setup.trace);
      LoopIsTurns(env, 0, 0, setup.trace);
      StageTurns(env, 0, setup.trace);
      AfterLoopStaged(env, loop);
    }
  }

  lemma {:induction false} AfterLoopStaged(env: Setting, loop: LoopRun)
    requires QuietSetting(env) && AsideSetting(env) && Setup(env, []).ok
    requires loop == Loop(env, 0, 0, Setup(env, []).trace) && Staged(loop.trace)
    ensures Staged(RunTrace(env))
  {
    if loop.end.Leave? {
      var finish := Finish(env, loop.summaries, loop.trace);
      StageFinish(env, loop.summaries, loop.trace);
      if finish.ok {
        StageEnd(finish.trace, Completed, RunCompleted);
      } else {
        StageEnd(finish.trace, Failed, RunFailed);
      }
    } else {
      StageEnd(loop.trace, Failed, RunFailed);
    }
  }
}
