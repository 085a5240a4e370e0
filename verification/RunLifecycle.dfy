/** Model of one agent run: the plan-act-observe loop of
    `repo-agent/backend/app/agents/orchestrator.py`, and its cancellation and done-callback
    in `repo-agent/backend/app/agents/run_service.py`. Persistence and logging do not raise. */
module RunLifecycle {
  import opened Wrappers
  import opened RunEvents

  datatype RunStatus =
    | Queued | Planning | Running | WaitingForAuth | Validating | Completing | Completed | Failed | Cancelled

  predicate Ends(status: RunStatus) {
    status.Completed? || status.Failed? || status.Cancelled?
  }

  /** What the run's task does to the outside, one at a time. */
  datatype Effect = SetStatus(status: RunStatus) | Emit(kind: EventType) | AskDecision

  // ---- the collaborators ---------------------------------------------------

  /** A call into a collaborator: what it emits on the way, and whether it returns. The
      sign-in callbacks change the status and emit; the composer emits response batches. */
  datatype Work = Work(effects: seq<Effect>, succeeds: bool)

  datatype Decision = Decision(action: string, hasCall: bool)

  datatype ToolRun = SnapshotRaises | ExecuteRaises | RecordRaises | Ran(success: bool)

  /** How the collaborators behave in one run; the number is the loop's iteration, and
      `finalValidation` is the validation after the loop. */
  datatype Setting = Setting(
    agentMode: bool, enableValidation: bool, maxIterations: int,
    open: Work, prepare: Work, compacted: bool, client: Work, plan: Work,
    decide: nat -> (Work, Decision), tool: nat -> ToolRun,
    validation: nat -> Option<nat>, finalValidation: Option<nat>, compose: Work)

  /** A collaborator never ends the run itself. */
  predicate Quiet(effects: seq<Effect>) {
    forall i :: 0 <= i < |effects| ==> IsQuiet(effects[i])
  }

  predicate IsQuiet(e: Effect) {
    match e
    case SetStatus(s) => !Ends(s)
    case Emit(k) => !IsTerminal(k)
    case AskDecision => false
  }

  ghost predicate QuietSetting(env: Setting) {
    && Quiet(env.open.effects) && Quiet(env.prepare.effects) && Quiet(env.client.effects)
    && Quiet(env.plan.effects) && Quiet(env.compose.effects)
    && forall i: nat :: Quiet(env.decide(i).0.effects)
  }

  // ---- the specification: the effects of a run, and how it ends -------------

  /** Everything done so far, and whether control goes on or an exception flies. */
  datatype Flow = Flow(trace: seq<Effect>, ok: bool)

  /** `_execute_tool` */
  function ToolFlow(t: seq<Effect>, run: ToolRun): Flow {
    var started := t + [Emit(ToolStarted)];
    if run.SnapshotRaises? || run.ExecuteRaises? then Flow(started, false) else
    var observed := started + [Emit(ObservationCreated)];
    if run.RecordRaises? then Flow(observed, false)
    else Flow(observed + [Emit(if run.success then ToolCompleted else ToolFailed)], true)
  }

  /** `_run_validation`; `None` when the validators raise. */
  function ValidationFlow(t: seq<Effect>, results: Option<nat>): Flow {
    var started := t + [SetStatus(Validating)] + [Emit(ValidationStarted)];
    if results.None? then Flow(started, false)
    else Flow(started + [Emit(ValidationCompleted)] + [SetStatus(Running)], true)
  }

  datatype LoopEnd = Leave | DecidedToFail | Threw

  datatype LoopRun = LoopRun(trace: seq<Effect>, end: LoopEnd, summaries: nat)

  function Limit(env: Setting): nat {
    if env.maxIterations < 1 then 1 else env.maxIterations
  }

  /** The loop from iteration `i` on, with `summaries` validation results collected. */
  function Loop(env: Setting, i: nat, summaries: nat, t: seq<Effect>): LoopRun
    decreases Limit(env) - i
  {
    if i >= Limit(env) then LoopRun(t, Leave, summaries) else
    var (work, decision) := env.decide(i);
    var asked := t + [AskDecision] + work.effects;
    if !work.succeeds then LoopRun(asked, Threw, summaries)
    else if decision.action == "tool_call" && decision.hasCall then
      var tool := ToolFlow(asked, env.tool(i));
      if tool.ok then Loop(env, i + 1, summaries, tool.trace + [Emit(PlanUpdated)])
      else LoopRun(tool.trace, Threw, summaries)
    else if decision.action == "validate" then
      var v := ValidationFlow(asked, env.validation(i));
      if v.ok then Loop(env, i + 1, summaries + env.validation(i).value, v.trace)
      else LoopRun(v.trace, Threw, summaries)
    else if decision.action == "fail" then LoopRun(asked, DecidedToFail, summaries)
    else LoopRun(asked, Leave, summaries)
  }

  function Setup(env: Setting, t: seq<Effect>): Flow {
    var ready := t + [Emit(RunStarted)] + env.open.effects;
    if !env.open.succeeds then Flow(ready, false) else
    var prepared := ready + env.prepare.effects;
    if !env.prepare.succeeds then Flow(prepared, false) else
    var compacted := if env.compacted then prepared + [Emit(ConversationCompacted)] else prepared;
    var built := compacted + env.client.effects;
    if !env.client.succeeds then Flow(built, false) else
    var planned := built + [SetStatus(Planning)] + env.plan.effects;
    if !env.plan.succeeds then Flow(planned, false)
    else Flow(planned + [Emit(PlanCreated)] + [SetStatus(Running)], true)
  }

  /** The final validation of an agent run that collected no result, then the answer. */
  function Finish(env: Setting, summaries: nat, t: seq<Effect>): Flow {
    var checked := if env.agentMode && env.enableValidation && summaries == 0
                   then ValidationFlow(t, env.finalValidation) else Flow(t, true);
    if !checked.ok then checked
    else Flow(checked.trace + [SetStatus(Completing)] + env.compose.effects, env.compose.succeeds)
  }

  function Failing(t: seq<Effect>): seq<Effect> {
    t + [SetStatus(Failed)] + [Emit(RunFailed)]
  }

  /** Everything one uncancelled run does. */
  function RunTrace(env: Setting): seq<Effect> {
    var setup := Setup(env, []);
    if !setup.ok then Failing(setup.trace) else
    var loop := Loop(env, 0, 0, setup.trace);
    if loop.end != Leave then Failing(loop.trace) else
    var finish := Finish(env, loop.summaries, loop.trace);
    if !finish.ok then Failing(finish.trace)
    else finish.trace + [SetStatus(Completed)] + [Emit(RunCompleted)]
  }

  // ---- the code under study ------------------------------------------------

  /** `AgentOrchestrator.run`; `trace` is what it has done. */
  class AgentOrchestrator {
    var trace: seq<Effect>

    constructor ()
      ensures trace == []
    {
      trace := [];
    }

    method Do(e: Effect)
      modifies this
      ensures trace == old(trace) + [e]
    {
      trace := trace + [e];
    }

    method Await(w: Work) returns (ok: bool)
      modifies this
      ensures trace == old(trace) + w.effects && ok == w.succeeds
    {
      trace := trace + w.effects;
      ok := w.succeeds;
    }

    method ExecuteTool(run: ToolRun) returns (ok: bool)
      modifies this
      ensures Flow(trace, ok) == ToolFlow(old(trace), run)
    {
      Do(Emit(ToolStarted));
      if run.SnapshotRaises? || run.ExecuteRaises? {
        return false;
      }
      Do(Emit(ObservationCreated));
      if run.RecordRaises? {
        return false;
      }
      Do(Emit(if run.success then ToolCompleted else ToolFailed));
      return true;
    }

    method RunValidation(results: Option<nat>) returns (ok: bool)
      modifies this
      ensures Flow(trace, ok) == ValidationFlow(old(trace), results)
    {
      Do(SetStatus(Validating));
      Do(Emit(ValidationStarted));
      if results.None? {
        return false;
      }
      Do(Emit(ValidationCompleted));
      Do(SetStatus(Running));
      return true;
    }

    method Prepare(env: Setting) returns (ok: bool)
      modifies this
      ensures Flow(trace, ok) == Setup(env, old(trace))
    {
      Do(Emit(RunStarted));
      ok := Await(env.open);
      if !ok { return; }
      ok := Await(env.prepare);
      if !ok { return; }
      if env.compacted {
        Do(Emit(ConversationCompacted));
      }
      ok := Await(env.client);
      if !ok { return; }
      Do(SetStatus(Planning));
      ok := Await(env.plan);
      if !ok { return; }
      Do(Emit(PlanCreated));
      Do(SetStatus(Running));
    }

    method DecideAndAct(env: Setting) returns (end: LoopEnd, summaries: nat)
      modifies this
      ensures LoopRun(trace, end, summaries) == Loop(env, 0, 0, old(trace))
    {
      summaries := 0;
      for i := 0 to Limit(env)
        invariant Loop(env, i, summaries, trace) == Loop(env, 0, 0, old(trace))
      {
        var (work, decision) := env.decide(i);
        Do(AskDecision);
        var ok := Await(work);
        if !ok {
          return Threw, summaries;
        }
        if decision.action == "tool_call" && decision.hasCall {
          ok := ExecuteTool(env.tool(i));
          if !ok {
            return Threw, summaries;
          }
          Do(Emit(PlanUpdated));
        } else if decision.action == "validate" {
          ok := RunValidation(env.validation(i));
          if !ok {
            return Threw, summaries;
          }
          summaries := summaries + env.validation(i).value;
        } else if decision.action == "fail" {
          return DecidedToFail, summaries;
        } else {
          return Leave, summaries;
        }
      }
      return Leave, summaries;
    }

    method Fail()
      modifies this
      ensures trace == Failing(old(trace))
    {
      Do(SetStatus(Failed));
      Do(Emit(RunFailed));
    }

    method Run(env: Setting)
      requires trace == []
      modifies this
      ensures trace == RunTrace(env)
    {
      var ok := Prepare(env);
      if !ok {
        Fail();
        return;
      }
      var end, summaries := DecideAndAct(env);
      if end != Leave {
        Fail();
        return;
      }
      if env.agentMode && env.enableValidation && summaries == 0 {
        ok := RunValidation(env.finalValidation);
        if !ok {
          Fail();
          return;
        }
      }
      Do(SetStatus(Completing));
      ok := Await(env.compose);
      if !ok {
        Fail();
        return;
      }
      Do(SetStatus(Completed));
      Do(Emit(RunCompleted));
    }
  }

  // ---- what every uncancelled run does -------------------------------------

  /** Nothing in `t` ends the run. */
  predicate NonEnding(t: seq<Effect>) {
    forall i :: 0 <= i < |t| ==> t[i].AskDecision? || IsQuiet(t[i])
  }

  /** `t` ends the run once, with its last two effects: a terminal status, then the
      terminal event that tells it. */
  predicate EndsOnce(t: seq<Effect>) {
    && |t| >= 2 && NonEnding(t[..|t| - 2])
    && (t[|t| - 2..] == [SetStatus(Completed), Emit(RunCompleted)]
        || t[|t| - 2..] == [SetStatus(Failed), Emit(RunFailed)])
  }

  function Decisions(t: seq<Effect>): nat {
    if t == [] then 0 else Decisions(t[..|t| - 1]) + if t[|t| - 1].AskDecision? then 1 else 0
  }

  lemma {:induction false} DecisionsAppend(a: seq<Effect>, b: seq<Effect>)
    ensures Decisions(a + b) == Decisions(a) + Decisions(b)
    decreases |b|
  {
    if b == [] {
      assert a + b == a;
    } else {
      assert (a + b)[..|a + b| - 1] == a + b[..|b| - 1];
      DecisionsAppend(a, b[..|b| - 1]);
    }
  }

  lemma {:induction false} QuietAsksNothing(t: seq<Effect>)
    requires Quiet(t)
    ensures Decisions(t) == 0
    decreases |t|
  {
    if t != [] {
      QuietAsksNothing(t[..|t| - 1]);
    }
  }

  /** `more` is `t` followed by effects that neither end the run nor ask for a decision. */
  ghost predicate Extends(t: seq<Effect>, more: seq<Effect>) {
    t <= more && Quiet(more[|t|..])
  }

  lemma ExtendsBy(t: seq<Effect>, more: seq<Effect>, effects: seq<Effect>)
    requires Extends(t, more) && Quiet(effects)
    ensures Extends(t, more + effects)
  {
    assert (more + effects)[|t|..] == more[|t|..] + effects;
  }

  lemma {:induction false} ExtendsKeeps(t: seq<Effect>, more: seq<Effect>)
    requires Extends(t, more)
    ensures NonEnding(t) ==> NonEnding(more)
    ensures Decisions(more) == Decisions(t)
  {
    assert more == t + more[|t|..];
    DecisionsAppend(t, more[|t|..]);
    QuietAsksNothing(more[|t|..]);
  }

  lemma ToolExtends(t: seq<Effect>, run: ToolRun)
    ensures Extends(t, ToolFlow(t, run).trace)
  {
  }

  lemma ValidationExtends(t: seq<Effect>, results: Option<nat>)
    ensures Extends(t, ValidationFlow(t, results).trace)
    ensures ValidationFlow(t, results).ok ==> Emit(ValidationCompleted) in ValidationFlow(t, results).trace
  {
    var v := ValidationFlow(t, results);
    if v.ok {
      assert v.trace[|t| + 2] == Emit(ValidationCompleted);
    }
  }

  lemma SetupExtends(env: Setting)
    requires QuietSetting(env)
    ensures Extends([], Setup(env, []).trace)
  {
  }

  /** Asking for a decision costs one. */
  lemma {:induction false} AskKeeps(t: seq<Effect>, work: Work)
    requires NonEnding(t) && Quiet(work.effects)
    ensures var asked := t + [AskDecision] + work.effects;
            t <= asked && NonEnding(asked) && Decisions(asked) == Decisions(t) + 1
  {
    var question := t + [AskDecision];
    assert question[..|question| - 1] == t;
    ExtendsBy(question, question, work.effects);
    ExtendsKeeps(question, question + work.effects);
  }

  lemma {:induction false} ToolKeeps(t: seq<Effect>, run: ToolRun)
    requires NonEnding(t)
    ensures var tool := ToolFlow(t, run).trace;
            && t <= tool && NonEnding(tool) && Decisions(tool) == Decisions(t)
            && NonEnding(tool + [Emit(PlanUpdated)]) && Decisions(tool + [Emit(PlanUpdated)]) == Decisions(t)
  {
    var tool := ToolFlow(t, run).trace;
    ToolExtends(t, run);
    ExtendsKeeps(t, tool);
    ExtendsBy(t, tool, [Emit(PlanUpdated)]);
    ExtendsKeeps(t, tool + [Emit(PlanUpdated)]);
  }

  /** A loop run from trace `t` on asks for at most `turns` decisions, ends nothing, and
      counts validation results only after a validation has completed. */
  ghost predicate Fits(loop: LoopRun, turns: nat, summaries: nat, t: seq<Effect>) {
    && t <= loop.trace && NonEnding(loop.trace)
    && Decisions(loop.trace) <= Decisions(t) + turns
    && (loop.summaries > summaries ==> Emit(ValidationCompleted) in loop.trace)
  }

  /** The trace of the turn at iteration `i`, up to the next one or the loop's end. */
  function Turn(env: Setting, i: nat, t: seq<Effect>): seq<Effect> {
    var (work, decision) := env.decide(i);
    var asked := t + [AskDecision] + work.effects;
    if !work.succeeds then asked
    else if decision.action == "tool_call" && decision.hasCall then
      var tool := ToolFlow(asked, env.tool(i));
      if tool.ok then tool.trace + [Emit(PlanUpdated)] else tool.trace
    else if decision.action == "validate" then ValidationFlow(asked, env.validation(i)).trace
    else asked
  }

  lemma {:induction false} TurnKeeps(env: Setting, i: nat, t: seq<Effect>)
    requires QuietSetting(env) && NonEnding(t)
    ensures var turn := Turn(env, i, t);
            t <= turn && NonEnding(turn) && Decisions(turn) == Decisions(t) + 1
  {
    var (work, decision) := env.decide(i);
    var asked := t + [AskDecision] + work.effects;
    AskKeeps(t, work);
    if work.succeeds {
      if decision.action == "tool_call" && decision.hasCall {
        ToolKeeps(asked, env.tool(i));
      } else if decision.action == "validate" {
        ValidationExtends(asked, env.validation(i));
        ExtendsKeeps(asked, ValidationFlow(asked, env.validation(i)).trace);
      }
    }
  }

  /** One turn, then either the end or the rest of the loop, from the results counted so far. */
  lemma LoopTurns(env: Setting, i: nat, summaries: nat, t: seq<Effect>) returns (turn: seq<Effect>, next: Option<nat>)
    requires QuietSetting(env) && NonEnding(t) && i < Limit(env)
    ensures t <= turn && NonEnding(turn) && Decisions(turn) == Decisions(t) + 1
    ensures var loop := Loop(env, i, summaries, t);
            match next
            case None => loop.trace == turn && loop.summaries == summaries
            case Some(after) =>
              && loop == Loop(env, i + 1, after, turn)
              && (after == summaries || Emit(ValidationCompleted) in turn)
  {
    turn := Turn(env, i, t);
    TurnKeeps(env, i, t);
    var (work, decision) := env.decide(i);
    var asked := t + [AskDecision] + work.effects;
    ValidationExtends(asked, env.validation(i));
    next := None;
    if work.succeeds {
      if decision.action == "tool_call" && decision.hasCall {
        next := if ToolFlow(asked, env.tool(i)).ok then Some(summaries) else None;
      } else if decision.action == "validate" && ValidationFlow(asked, env.validation(i)).ok {
        next := Some(summaries + env.validation(i).value);
      }
    }
  }

  lemma {:induction false} TurnFits(loop: LoopRun, turns: nat, summaries: nat,
                                    t: seq<Effect>, turn: seq<Effect>, after: nat)
    requires t <= turn && Decisions(turn) == Decisions(t) + 1
    requires Fits(loop, turns, after, turn) && (after == summaries || Emit(ValidationCompleted) in turn)
    ensures Fits(loop, turns + 1, summaries, t)
  {
  }

  lemma {:induction false} LoopKeeps(env: Setting, i: nat, summaries: nat, t: seq<Effect>, left: nat)
    requires QuietSetting(env) && NonEnding(t) && i + left == Limit(env)
    ensures Fits(Loop(env, i, summaries, t), left, summaries, t)
    decreases left
  {
    if left > 0 {
      var turn, next := LoopTurns(env, i, summaries, t);
      var after := if next.Some? then next.value else summaries;
      if next.Some? {
        LoopKeeps(env, i + 1, after, turn, left - 1);
      }
      TurnFits(Loop(env, i, summaries, t), left - 1, summaries, t, turn, after);
    }
  }

  lemma FinishExtends(env: Setting, summaries: nat, t: seq<Effect>)
    requires QuietSetting(env)
    ensures var finish := Finish(env, summaries, t);
            && Extends(t, finish.trace)
            && (finish.ok && env.agentMode && env.enableValidation && summaries == 0 ==>
                  Emit(ValidationCompleted) in finish.trace)
  {
    ValidationExtends(t, env.finalValidation);
    var checked := if env.agentMode && env.enableValidation && summaries == 0
                   then ValidationFlow(t, env.finalValidation) else Flow(t, true);
    ExtendsBy(t, checked.trace, [SetStatus(Completing)]);
    ExtendsBy(t, checked.trace + [SetStatus(Completing)], env.compose.effects);
  }

  lemma {:induction false} Closing(t: seq<Effect>, status: RunStatus, kind: EventType)
    requires NonEnding(t)
    requires (status == Completed && kind == RunCompleted) || (status == Failed && kind == RunFailed)
    ensures EndsOnce(t + [SetStatus(status)] + [Emit(kind)])
    ensures Decisions(t + [SetStatus(status)] + [Emit(kind)]) == Decisions(t)
  {
    var all := t + [SetStatus(status)] + [Emit(kind)];
    assert all[..|all| - 2] == t && all[|all| - 2..] == [SetStatus(status), Emit(kind)];
    assert all[..|all| - 1] == t + [SetStatus(status)] && (t + [SetStatus(status)])[..|t|] == t;
  }

  /** Every uncancelled run asks for at most max(1, max iterations) decisions and ends in
      a terminal status with one terminal event, published last. One that completes in
      agent mode with validation on has completed a validation. */
  lemma RunEndsOnce(env: Setting)
    requires QuietSetting(env)
    ensures var t := RunTrace(env);
            && EndsOnce(t) && Decisions(t) <= Limit(env)
            && (t[|t| - 1] == Emit(RunCompleted) && env.agentMode && env.enableValidation ==>
                  Emit(ValidationCompleted) in t)
  {
    var setup := Setup(env, []);
    SetupExtends(env);
    ExtendsKeeps([], setup.trace);
    Closing(setup.trace, Failed, RunFailed);
    if setup.ok {
      var loop := Loop(env, 0, 0, setup.trace);
      LoopKeeps(env, 0, 0, setup.trace, Limit(env));
      Closing(loop.trace, Failed, RunFailed);
      if loop.end == Leave {
        var finish := Finish(env, loop.summaries, loop.trace);
        FinishExtends(env, loop.summaries, loop.trace);
        ExtendsKeeps(loop.trace, finish.trace);
        Closing(finish.trace, Failed, RunFailed);
        Closing(finish.trace, Completed, RunCompleted);
      }
    }
  }
}
