/** Model of the tool-use loop of `Bedrock.run` in `agentic-workspace-chat/backend/app/bedrock.py`,
    with the plan tool of `agentic-workspace-chat/backend/app/tools.py`. The model's replies,
    how other tools fare, what the critic finds and when the caller cancels are arbitrary. */
module ToolLoop {
  import opened Wrappers

  datatype Item = Item(step: string, status: string)

  datatype ToolCall = UpdatePlan(steps: seq<Item>) | OtherTool

  datatype Use = Use(id: string, call: ToolCall)

  datatype Reply = Reply(text: string, uses: seq<Use>, cutOff: bool)

  datatype ToolResult = ToolResult(id: string, isError: bool)

  /** The messages from the prompt on. */
  datatype Message = Prompt | Continue | Repair | Results(results: seq<ToolResult>) | Answer(reply: Reply)

  predicate FromUser(m: Message) {
    !m.Answer?
  }

  datatype Config = Config(plainSteps: int, plannedSteps: int, continuations: int)

  /** What the loop meets: the reply to call `k`, whether use `n` of it fails, whether the
      critic objects after it, and whether poll `p` of the cancel event finds it set. */
  datatype World = World(reply: nat -> Reply, fails: (nat, nat) -> bool, flawed: nat -> bool, cancelled: nat -> bool)

  predicate ValidItem(i: Item) {
    i.step != "" && (i.status == "pending" || i.status == "in_progress" || i.status == "completed")
  }

  predicate ValidPlan(steps: seq<Item>) {
    |steps| <= 20 && forall i :: 0 <= i < |steps| ==> ValidItem(steps[i])
  }

  predicate UseFails(world: World, k: nat, uses: seq<Use>, n: nat)
    requires n < |uses|
  {
    match uses[n].call
    case UpdatePlan(steps) => !ValidPlan(steps)
    case OtherTool => world.fails(k, n)
  }

  /** The plan after the first `n` uses: a valid update replaces it, even by an empty one. */
  function PlanAfter(plan: seq<Item>, uses: seq<Use>, n: nat): seq<Item>
    requires n <= |uses|
  {
    if n == 0 then plan
    else if uses[n - 1].call.UpdatePlan? && ValidPlan(uses[n - 1].call.steps) then uses[n - 1].call.steps
    else PlanAfter(plan, uses, n - 1)
  }

  /** The plan after the first `k` replies of a run that has made all the uses they ask for. */
  function PlanAt(world: World, resumed: seq<Item>, k: nat): seq<Item> {
    if k == 0 then resumed
    else PlanAfter(PlanAt(world, resumed, k - 1), world.reply(k - 1).uses, |world.reply(k - 1).uses|)
  }

  /** How often the cancel event has been polled by then: before each call and before each use. */
  function PollsBefore(world: World, k: nat): nat {
    if k == 0 then 0 else PollsBefore(world, k - 1) + 1 + |world.reply(k - 1).uses|
  }

  /** None of the first `polls` polls finds the cancel event set. */
  ghost predicate Unasked(world: World, polls: nat) {
    forall p: nat :: p < polls ==> !world.cancelled(p)
  }

  /** The poll at `polls` is the first to find the event set, with the uses of reply `k` made up to
      it since poll `since`. */
  ghost predicate StopsInUses(world: World, k: nat, since: nat, polls: nat, plan: seq<Item>, plan': seq<Item>) {
    var uses := world.reply(k).uses;
    && since <= polls < since + |uses|
    && world.cancelled(polls) && Unasked(world, polls) && plan' == PlanAfter(plan, uses, polls - since)
  }

  /** All uses of reply `k` are made, and no poll by then finds the event set. */
  ghost predicate MakesUses(world: World, k: nat, since: nat, polls: nat, plan: seq<Item>, plan': seq<Item>) {
    var uses := world.reply(k).uses;
    polls == since + |uses| && Unasked(world, polls) && plan' == PlanAfter(plan, uses, |uses|)
  }

  /** After `|plans|` calls, each made under its plan in `plans`: every poll made has found the event
      unset, and the plan is what the replies have made of it. */
  ghost predicate InStep(world: World, resumed: seq<Item>, plans: seq<seq<Item>>, plan: seq<Item>, polls: nat) {
    && (forall k :: 0 <= k < |plans| ==> plans[k] == PlanAt(world, resumed, k))
    && plan == PlanAt(world, resumed, |plans|)
    && polls == PollsBefore(world, |plans|) && Unasked(world, polls)
  }

  /** The same, but the last reply's uses are cut short by a cancel. */
  ghost predicate StopsInStep(world: World, resumed: seq<Item>, plans: seq<seq<Item>>, plan: seq<Item>, polls: nat) {
    && plans != [] && (forall k :: 0 <= k < |plans| ==> plans[k] == PlanAt(world, resumed, k))
    && var last := |plans| - 1;
       StopsInUses(world, last, PollsBefore(world, last) + 1, polls, PlanAt(world, resumed, last), plan)
  }

  lemma StaysInStep(world: World, resumed: seq<Item>, plans: seq<seq<Item>>, plan: seq<Item>, polls: nat,
                    plan': seq<Item>, polls': nat)
    requires InStep(world, resumed, plans, plan, polls)
    ensures MakesUses(world, |plans|, polls + 1, polls', plan, plan') ==>
              InStep(world, resumed, plans + [plan], plan', polls')
    ensures StopsInUses(world, |plans|, polls + 1, polls', plan, plan') ==>
              StopsInStep(world, resumed, plans + [plan], plan', polls')
  {
  }

  /** The results of the first `n` uses, each under its use's id. */
  function ResultsOf(world: World, k: nat, uses: seq<Use>, n: nat): (r: seq<ToolResult>)
    requires n <= |uses|
    ensures |r| == n && forall i :: 0 <= i < n ==> r[i] == ToolResult(uses[i].id, UseFails(world, k, uses, i))
  {
    if n == 0 then []
    else ResultsOf(world, k, uses, n - 1) + [ToolResult(uses[n - 1].id, UseFails(world, k, uses, n - 1))]
  }

  function Budget(config: Config, plan: seq<Item>): int {
    if plan != [] then config.plannedSteps else config.plainSteps
  }

  /** Call `k`, made while the plan was `plans[k]`, kept to the budget of that plan. */
  ghost predicate WithinBudget(config: Config, plans: seq<seq<Item>>) {
    forall k :: 0 <= k < |plans| ==> k < Budget(config, plans[k])
  }

  function Max(a: int, b: int): int {
    if a < b then b else a
  }

  /** Everything the first `k` replies say. */
  function Said(world: World, k: nat): string {
    if k == 0 then "" else Said(world, k - 1) + world.reply(k - 1).text
  }

  /** How many of the first `n` messages ask for a continuation or a repair. */
  function Continued(messages: seq<Message>, n: nat): nat
    requires n <= |messages|
  {
    if n == 0 then 0 else Continued(messages, n - 1) + if IsNudge(messages[n - 1]) then 1 else 0
  }

  /** The user message that may follow reply `k`. */
  predicate Follows(world: World, k: nat, m: Message) {
    var reply := world.reply(k);
    if reply.uses != [] then m == Results(ResultsOf(world, k, reply.uses, |reply.uses|))
    else (m.Continue? && reply.cutOff) || (m.Repair? && !reply.cutOff && world.flawed(k))
  }

  predicate IsReply(world: World, messages: seq<Message>, k: nat) {
    2 * k + 1 < |messages| && messages[2 * k + 1] == Answer(world.reply(k))
  }

  predicate IsFollowed(world: World, messages: seq<Message>, k: nat) {
    2 * k + 2 < |messages| && Follows(world, k, messages[2 * k + 2])
  }

  /** The messages are the prompt and then the replies in order, each but perhaps the last with
      the user message it calls for. */
  ghost predicate Protocol(world: World, messages: seq<Message>, calls: nat) {
    && 2 * calls <= |messages| <= 2 * calls + 1 && messages != []
    && messages[0].Prompt?
    && (forall k :: 0 <= k < calls ==> IsReply(world, messages, k))
    && (forall k :: 0 <= k < calls && 2 * k + 2 < |messages| ==> IsFollowed(world, messages, k))
  }

  datatype Outcome = Finished | Stopped | OutOfSteps

  // ---- the loop ------------------------------------------------------------

  method RunTools(world: World, k: nat, plan: seq<Item>, polls: nat)
    returns (results: seq<ToolResult>, plan': seq<Item>, polls': nat, stopped: bool)
    requires Unasked(world, polls)
    ensures var uses := world.reply(k).uses;
            if stopped then StopsInUses(world, k, polls, polls', plan, plan')
            else results == ResultsOf(world, k, uses, |uses|) && MakesUses(world, k, polls, polls', plan, plan')
  {
    var uses := world.reply(k).uses;
    results, plan', polls', stopped := [], plan, polls, false;
    for n := 0 to |uses|
      invariant results == ResultsOf(world, k, uses, n) && plan' == PlanAfter(plan, uses, n)
      invariant polls' == polls + n && Unasked(world, polls')
    {
      if world.cancelled(polls') {
        stopped := true;
        return;
      }
      polls' := polls' + 1;
      var isError := true;
      match uses[n].call {
        case UpdatePlan(steps) =>
          if ValidPlan(steps) {
            plan' := steps;
            isError := false;
          }
        case OtherTool =>
          isError := world.fails(k, n);
      }
      results := results + [ToolResult(uses[n].id, isError)];
    }
  }

  predicate IsNudge(m: Message) {
    m.Continue? || m.Repair?
  }

  /** What follows reply `k`: the next user message, or the end of the run. */
  method FollowUp(config: Config, world: World, k: nat, plan: seq<Item>, polls: nat, continuations: nat)
    returns (ended: Option<Outcome>, next: Message, plan': seq<Item>, polls': nat)
    requires Unasked(world, polls)
    ensures if ended == Some(Stopped) then StopsInUses(world, k, polls, polls', plan, plan')
            else MakesUses(world, k, polls, polls', plan, plan')
    ensures ended == None ==> Follows(world, k, next)
    ensures ended == None && IsNudge(next) ==> continuations < config.continuations
    ensures ended == Some(Finished) ==>
              && world.reply(k).uses == []
              && (continuations < config.continuations ==> !world.reply(k).cutOff && !world.flawed(k))
    ensures ended != Some(OutOfSteps)
  {
    ended, next, plan', polls' := None, Continue, plan, polls;
    var reply := world.reply(k);
    if reply.uses != [] {
      var results, stopped;
      results, plan', polls', stopped := RunTools(world, k, plan, polls);
      if stopped {
        ended := Some(Stopped);
      } else {
        next := Results(results);
      }
    } else if reply.cutOff && continuations < config.continuations {
      next := Continue;
    } else if world.flawed(k) && continuations < config.continuations {
      next := Repair;
    } else {
      ended := Some(Finished);
    }
  }

  /** One call and what follows it. */
  method Turn(config: Config, world: World, messages: seq<Message>, calls: nat, plan: seq<Item>, polls: nat,
              continuations: nat)
    returns (ended: Option<Outcome>, messages': seq<Message>, plan': seq<Item>, polls': nat, continuations': nat)
    requires Protocol(world, messages, calls) && |messages| == 2 * calls + 1
    requires continuations == Continued(messages, |messages|) <= Max(0, config.continuations)
    requires Unasked(world, polls)
    ensures if ended == Some(Stopped) then StopsInUses(world, calls, polls, polls', plan, plan')
            else MakesUses(world, calls, polls, polls', plan, plan')
    ensures Protocol(world, messages', calls + 1)
    ensures |messages'| == 2 * calls + if ended.None? then 3 else 2
    ensures continuations' == Continued(messages', |messages'|) <= Max(0, config.continuations)
    ensures ended == Some(Finished) ==>
              && world.reply(calls).uses == []
              && (continuations' < config.continuations ==> !world.reply(calls).cutOff && !world.flawed(calls))
    ensures ended != Some(OutOfSteps)
  {
    ReplyKeeps(world, messages, calls);
    messages', continuations' := messages + [Answer(world.reply(calls))], continuations;
    var next;
    ended, next, plan', polls' := FollowUp(config, world, calls, plan, polls, continuations);
    if ended.None? {
      FollowKeeps(world, messages', calls + 1, next);
      messages' := messages' + [next];
      if IsNudge(next) {
        continuations' := continuations + 1;
      }
    }
  }

  /** Each call `k` was made within the budget that the plan of the moment allowed, and the
      transcript keeps the message protocol whatever the world does. */
  method Run(config: Config, world: World, resumed: seq<Item>)
    returns (outcome: Outcome, messages: seq<Message>, finalText: string, plan: seq<Item>,
             calls: nat, continuations: nat, plans: seq<seq<Item>>, polls: nat)
    ensures Protocol(world, messages, calls)
    ensures |plans| == calls && WithinBudget(config, plans)
    ensures if outcome.Stopped? && |messages| == 2 * calls then StopsInStep(world, resumed, plans, plan, polls)
            else InStep(world, resumed, plans, plan, polls)
    ensures outcome.Stopped? ==> world.cancelled(polls)
    ensures continuations == Continued(messages, |messages|) <= Max(0, config.continuations)
    ensures match outcome
            case Finished =>
              && calls > 0 && |messages| == 2 * calls && finalText == Said(world, calls)
              && world.reply(calls - 1).uses == []
              && (continuations < config.continuations ==> !world.reply(calls - 1).cutOff && !world.flawed(calls - 1))
            case Stopped =>
              && finalText == Said(world, calls) + "\n\nGeneration stopped."
            case OutOfSteps =>
              && |messages| == 2 * calls + 1 && calls >= Budget(config, plan)
  {
    messages, finalText, plan, calls, continuations, plans, polls := [Prompt], "", resumed, 0, 0, [], 0;
    while calls < Budget(config, plan)
      invariant Protocol(world, messages, calls) && |messages| == 2 * calls + 1
      invariant WithinBudget(config, plans) && |plans| == calls
      invariant InStep(world, resumed, plans, plan, polls)
      invariant continuations == Continued(messages, |messages|) <= Max(0, config.continuations)
      invariant finalText == Said(world, calls)
      decreases Max(config.plainSteps, config.plannedSteps) - calls
    {
      if world.cancelled(polls) {
        finalText := finalText + "\n\nGeneration stopped.";
        outcome := Stopped;
        return;
      }
      PlanKeeps(config, plans, plan);
      finalText := finalText + world.reply(calls).text;
      var ended, plan', polls';
      ended, messages, plan', polls', continuations :=
        Turn(config, world, messages, calls, plan, polls + 1, continuations);
      StaysInStep(world, resumed, plans, plan, polls, plan', polls');
      plans, plan, polls := plans + [plan], plan', polls';
      calls := calls + 1;
      if ended.Some? {
        outcome := ended.value;
        if outcome.Stopped? {
          finalText := finalText + "\n\nGeneration stopped.";
        }
        return;
      }
    }
    finalText := finalText + "\n\nI reached the configured agent step limit." +
                 " Review any proposed changes before continuing.";
    outcome := OutOfSteps;
  }

  lemma PlanKeeps(config: Config, plans: seq<seq<Item>>, plan: seq<Item>)
    requires WithinBudget(config, plans) && |plans| < Budget(config, plan)
    ensures WithinBudget(config, plans + [plan])
  {
  }

  lemma {:induction false} ContinuedPrefix(messages: seq<Message>, m: Message, n: nat)
    requires n <= |messages|
    ensures Continued(messages + [m], n) == Continued(messages, n)
  {
    if n > 0 {
      ContinuedPrefix(messages, m, n - 1);
    }
  }

  lemma {:induction false} ContinuedSnoc(messages: seq<Message>, m: Message)
    ensures Continued(messages + [m], |messages| + 1)
              == Continued(messages, |messages|) + if IsNudge(m) then 1 else 0
  {
    ContinuedPrefix(messages, m, |messages|);
  }

  lemma {:induction false} ReplyKeeps(world: World, messages: seq<Message>, calls: nat)
    requires Protocol(world, messages, calls) && |messages| == 2 * calls + 1
    ensures Protocol(world, messages + [Answer(world.reply(calls))], calls + 1)
    ensures Continued(messages + [Answer(world.reply(calls))], |messages| + 1) == Continued(messages, |messages|)
  {
    ContinuedSnoc(messages, Answer(world.reply(calls)));
    var more := messages + [Answer(world.reply(calls))];
    forall k | 0 <= k < calls + 1 ensures IsReply(world, more, k) {
      assert k < calls ==> IsReply(world, messages, k);
    }
    forall k | 0 <= k < calls ensures IsFollowed(world, more, k) {
      assert IsFollowed(world, messages, k);
    }
  }

  lemma {:induction false} FollowKeeps(world: World, messages: seq<Message>, calls: nat, m: Message)
    requires Protocol(world, messages, calls) && |messages| == 2 * calls && calls > 0 && Follows(world, calls - 1, m)
    ensures Protocol(world, messages + [m], calls)
    ensures Continued(messages + [m], |messages| + 1) == Continued(messages, |messages|) + if IsNudge(m) then 1 else 0
  {
    ContinuedSnoc(messages, m);
    var more := messages + [m];
    forall k | 0 <= k < calls ensures IsReply(world, more, k) && IsFollowed(world, more, k) {
      assert IsReply(world, messages, k);
      assert k < calls - 1 ==> IsFollowed(world, messages, k);
    }
  }

  // ---- what the protocol means ---------------------------------------------

  /** From the prompt on, user and model take turns. */
  lemma TurnsAlternate(world: World, messages: seq<Message>, calls: nat, i: nat)
    requires Protocol(world, messages, calls) && i < |messages|
    ensures FromUser(messages[i]) <==> i % 2 == 0
  {
    if i % 2 == 1 {
      assert IsReply(world, messages, i / 2);
    } else if i > 0 {
      assert IsFollowed(world, messages, i / 2 - 1);
    }
  }

  /** Every reply that asks for tools and is not the last message is answered at once, each
      use exactly once and in order. */
  lemma UsesAnswered(world: World, messages: seq<Message>, calls: nat, i: nat)
    requires Protocol(world, messages, calls) && i + 1 < |messages|
    requires messages[i].Answer? && messages[i].reply.uses != []
    ensures messages[i + 1].Results?
    ensures var uses, results := messages[i].reply.uses, messages[i + 1].results;
            |results| == |uses| && forall n :: 0 <= n < |uses| ==> results[n].id == uses[n].id
  {
    TurnsAlternate(world, messages, calls, i);
    assert IsReply(world, messages, i / 2) && IsFollowed(world, messages, i / 2);
  }

  /** However the plan comes and goes, the calls stay within the larger step limit. */
  lemma CallsBounded(config: Config, plans: seq<seq<Item>>)
    requires WithinBudget(config, plans)
    ensures |plans| <= Max(0, Max(config.plainSteps, config.plannedSteps))
    ensures (forall k :: 0 <= k < |plans| ==> plans[k] == []) ==> |plans| <= Max(0, config.plainSteps)
  {
    if plans != [] {
      assert |plans| - 1 < Budget(config, plans[|plans| - 1]);
    }
  }

  // ---- what the plan is ----------------------------------------------------

  /** Use `n` of reply `k` is a plan update that is accepted. */
  predicate IsUpdate(world: World, k: nat, n: nat) {
    && n < |world.reply(k).uses| && world.reply(k).uses[n].call.UpdatePlan?
    && ValidPlan(world.reply(k).uses[n].call.steps)
  }

  /** The last accepted update among the first `n` uses of reply `k`, if there is one. */
  ghost predicate LastInReply(world: World, k: nat, n: nat, last: Option<nat>) {
    match last
    case None => forall m :: 0 <= m < n ==> !IsUpdate(world, k, m)
    case Some(at) => at < n && IsUpdate(world, k, at) && forall m :: at < m < n ==> !IsUpdate(world, k, m)
  }

  lemma {:induction false} PlanAfterIs(world: World, plan: seq<Item>, k: nat, n: nat) returns (last: Option<nat>)
    requires n <= |world.reply(k).uses|
    ensures LastInReply(world, k, n, last)
    ensures PlanAfter(plan, world.reply(k).uses, n)
         == if last.None? then plan else world.reply(k).uses[last.value].call.steps
  {
    if n == 0 {
      last := None;
    } else if IsUpdate(world, k, n - 1) {
      last := Some(n - 1);
    } else {
      last := PlanAfterIs(world, plan, k, n - 1);
    }
  }

  /** The last accepted update of the first `k` replies. */
  ghost predicate LastUpdate(world: World, k: nat, i: nat, n: nat) {
    && i < k && LastInReply(world, i, |world.reply(i).uses|, Some(n))
    && forall j :: i < j < k ==> LastInReply(world, j, |world.reply(j).uses|, None)
  }

  ghost predicate NoUpdate(world: World, k: nat) {
    forall j :: 0 <= j < k ==> LastInReply(world, j, |world.reply(j).uses|, None)
  }

  /** At each call the plan is what the last accepted update before it says, or, with none, the one
      resumed: no update is lost, and a refused one changes nothing. */
  lemma {:induction false} PlanIsLastUpdate(world: World, resumed: seq<Item>, k: nat)
    returns (updated: bool, i: nat, n: nat)
    ensures if updated
            then LastUpdate(world, k, i, n) && PlanAt(world, resumed, k) == world.reply(i).uses[n].call.steps
            else NoUpdate(world, k) && PlanAt(world, resumed, k) == resumed
  {
    updated, i, n := false, 0, 0;
    if k > 0 {
      var last := PlanAfterIs(world, PlanAt(world, resumed, k - 1), k - 1, |world.reply(k - 1).uses|);
      if last.Some? {
        updated, i, n := true, k - 1, last.value;
      } else {
        updated, i, n := PlanIsLastUpdate(world, resumed, k - 1);
      }
    }
  }
}
