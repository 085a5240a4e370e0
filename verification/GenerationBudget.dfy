/** Model of `api-agent/worktop/api_agent/app/governance/generation_budget.py`. Every reading
    of the clock is an arbitrary input, and so is how a number of seconds is shown. */
module GenerationBudget {
  datatype Limits = Limits(llmCalls: int, toolCalls: int, repositoryReads: int, promptChars: int, seconds: real)

  datatype Usage = Usage(llmCalls: nat, toolCalls: nat, repositoryReads: nat, promptChars: nat,
                         completionChars: nat, repairAttempts: nat)

  const Unused := Usage(0, 0, 0, 0, 0, 0)

  datatype Counter = LlmCalls | PromptChars | ToolCalls | RepositoryReads

  /** The text of an escalation. */
  datatype Reason = Over(counter: Counter, used: int, limit: int) | Late(shown: int)

  datatype Setup = Setup(limits: Limits, strict: bool, shown: real -> int)

  /** A budget, with the clock readings its checks have made. */
  datatype Ledger = Ledger(usage: Usage, exceeded: seq<Reason>, readings: seq<real>)

  const Opened := Ledger(Unused, [], [])

  function Max(a: int, b: int): int {
    if a < b then b else a
  }

  function Escalated(l: Ledger, r: Reason): Ledger {
    if r in l.exceeded then l else l.(exceeded := l.exceeded + [r])
  }

  /** `_check_time`: the new ledger, and whether the check lets the caller go on. */
  function CheckTime(c: Setup, l: Ledger, t: real): (Ledger, bool) {
    var read := l.(readings := l.readings + [t]);
    if t > c.limits.seconds then (Escalated(read, Late(c.shown(t))), !c.strict) else (read, true)
  }

  /** `_enforce`: the clock first, then the counter. */
  function Enforce(c: Setup, l: Ledger, counter: Counter, used: int, limit: int, t: real): (Ledger, bool) {
    var (timed, ok) := CheckTime(c, l, t);
    if !ok then (timed, false)
    else if used <= limit then (timed, true)
    else (Escalated(timed, Over(counter, used, limit)), !c.strict)
  }

  function LlmUsage(u: Usage, prompt: int, completion: int): Usage {
    u.(llmCalls := u.llmCalls + 1, promptChars := u.promptChars + Max(prompt, 0),
       completionChars := u.completionChars + Max(completion, 0))
  }

  function ChargeLlm(c: Setup, l: Ledger, prompt: int, completion: int, t1: real, t2: real): (Ledger, bool) {
    var u := LlmUsage(l.usage, prompt, completion);
    var (counted, ok) := Enforce(c, l.(usage := u), LlmCalls, u.llmCalls, c.limits.llmCalls, t1);
    if !ok then (counted, false)
    else Enforce(c, counted, PromptChars, u.promptChars, c.limits.promptChars, t2)
  }

  function ChargeTool(c: Setup, l: Ledger, t: real): (Ledger, bool) {
    var u := l.usage.(toolCalls := l.usage.toolCalls + 1);
    Enforce(c, l.(usage := u), ToolCalls, u.toolCalls, c.limits.toolCalls, t)
  }

  function ChargeRead(c: Setup, l: Ledger, t: real): (Ledger, bool) {
    var u := l.usage.(repositoryReads := l.usage.repositoryReads + 1);
    Enforce(c, l.(usage := u), RepositoryReads, u.repositoryReads, c.limits.repositoryReads, t)
  }

  function ChargeRepair(c: Setup, l: Ledger, t: real): (Ledger, bool) {
    CheckTime(c, l.(usage := l.usage.(repairAttempts := l.usage.repairAttempts + 1)), t)
  }

  // ---- the code under study ------------------------------------------------

  /** Each method returns whether it came back without raising. */
  class GenerationBudget {
    const setup: Setup
    var usage: Usage
    var exceeded: seq<Reason>
    ghost var readings: seq<real>

    ghost function View(): Ledger
      reads this
    {
      Ledger(usage, exceeded, readings)
    }

    constructor (setup: Setup)
      ensures this.setup == setup && View() == Opened
    {
      this.setup, usage, exceeded, readings := setup, Unused, [], [];
    }

    method Escalate(r: Reason) returns (ok: bool)
      modifies this`exceeded
      ensures View() == Escalated(old(View()), r) && ok == !setup.strict
    {
      if r !in exceeded {
        exceeded := exceeded + [r];
      }
      ok := !setup.strict;
    }

    method CheckClock(t: real) returns (ok: bool)
      modifies this`exceeded, this`readings
      ensures (View(), ok) == CheckTime(setup, old(View()), t)
    {
      readings := readings + [t];
      ok := true;
      if t > setup.limits.seconds {
        ok := Escalate(Late(setup.shown(t)));
      }
    }

    method EnforceLimit(counter: Counter, used: int, limit: int, t: real) returns (ok: bool)
      modifies this`exceeded, this`readings
      ensures (View(), ok) == Enforce(setup, old(View()), counter, used, limit, t)
    {
      ok := CheckClock(t);
      if ok && used > limit {
        ok := Escalate(Over(counter, used, limit));
      }
    }

    method ChargeLlmCall(prompt: int, completion: int, t1: real, t2: real) returns (ok: bool)
      modifies this
      ensures (View(), ok) == ChargeLlm(setup, old(View()), prompt, completion, t1, t2)
    {
      usage := usage.(llmCalls := usage.llmCalls + 1);
      usage := usage.(promptChars := usage.promptChars + Max(prompt, 0));
      usage := usage.(completionChars := usage.completionChars + Max(completion, 0));
      ok := EnforceLimit(LlmCalls, usage.llmCalls, setup.limits.llmCalls, t1);
      if ok {
        ok := EnforceLimit(PromptChars, usage.promptChars, setup.limits.promptChars, t2);
      }
    }

    method ChargeToolCall(t: real) returns (ok: bool)
      modifies this
      ensures (View(), ok) == ChargeTool(setup, old(View()), t)
    {
      usage := usage.(toolCalls := usage.toolCalls + 1);
      ok := EnforceLimit(ToolCalls, usage.toolCalls, setup.limits.toolCalls, t);
    }

    method ChargeRepositoryRead(t: real) returns (ok: bool)
      modifies this
      ensures (View(), ok) == ChargeRead(setup, old(View()), t)
    {
      usage := usage.(repositoryReads := usage.repositoryReads + 1);
      ok := EnforceLimit(RepositoryReads, usage.repositoryReads, setup.limits.repositoryReads, t);
    }

    method ChargeRepairAttempt(t: real) returns (ok: bool)
      modifies this
      ensures (View(), ok) == ChargeRepair(setup, old(View()), t)
    {
      usage := usage.(repairAttempts := usage.repairAttempts + 1);
      ok := CheckClock(t);
    }
  }

  /** The wrapper every model call goes through, with what it has forwarded. */
  class BudgetedLLMClient {
    const budget: GenerationBudget
    ghost var forwarded: nat
    ghost var forwardedChars: nat

    constructor (budget: GenerationBudget)
      ensures this.budget == budget && forwarded == 0 && forwardedChars == 0
    {
      this.budget, forwarded, forwardedChars := budget, 0, 0;
    }

    ghost function View(): Client
      reads this, budget
    {
      Client(budget.View(), forwarded, forwardedChars)
    }

    /** `complete`, and `complete_structured` with `reply` of length zero; the inner model is
        called between the charge and the count of its reply. */
    method Complete(prompt: string, reply: string, t1: real, t2: real) returns (ok: bool)
      modifies this, budget
      ensures View() == Act(budget.setup, old(View()), CallModel(|prompt|, |reply|, t1, t2))
      ensures ok == ChargeLlm(budget.setup, old(budget.View()), |prompt|, 0, t1, t2).1
    {
      ok := budget.ChargeLlmCall(|prompt|, 0, t1, t2);
      if ok {
        forwarded, forwardedChars := forwarded + 1, forwardedChars + |prompt|;
        budget.usage := budget.usage.(completionChars := budget.usage.completionChars + |reply|);
      }
    }
  }

  // ---- any sequence of calls -----------------------------------------------

  datatype Client = Client(ledger: Ledger, forwarded: nat, forwardedChars: nat)

  datatype Action =
    | CallModel(promptLen: nat, replyLen: nat, t1: real, t2: real)
    | DirectCharge(prompt: int, completion: int, t1: real, t2: real)
    | UseTool(t: real)
    | ReadRepository(t: real)
    | AttemptRepair(t: real)

  /** Whether the action came back without raising. */
  predicate Passes(c: Setup, w: Client, a: Action) {
    match a
    case CallModel(prompt, _, t1, t2) => ChargeLlm(c, w.ledger, prompt, 0, t1, t2).1
    case DirectCharge(prompt, completion, t1, t2) => ChargeLlm(c, w.ledger, prompt, completion, t1, t2).1
    case UseTool(t) => ChargeTool(c, w.ledger, t).1
    case ReadRepository(t) => ChargeRead(c, w.ledger, t).1
    case AttemptRepair(t) => ChargeRepair(c, w.ledger, t).1
  }

  function Act(c: Setup, w: Client, a: Action): Client {
    match a
    case CallModel(prompt, reply, t1, t2) =>
      var (l, ok) := ChargeLlm(c, w.ledger, prompt, 0, t1, t2);
      if !ok then w.(ledger := l)
      else
        Client(l.(usage := l.usage.(completionChars := l.usage.completionChars + reply)),
               w.forwarded + 1, w.forwardedChars + prompt)
    case DirectCharge(prompt, completion, t1, t2) => w.(ledger := ChargeLlm(c, w.ledger, prompt, completion, t1, t2).0)
    case UseTool(t) => w.(ledger := ChargeTool(c, w.ledger, t).0)
    case ReadRepository(t) => w.(ledger := ChargeRead(c, w.ledger, t).0)
    case AttemptRepair(t) => w.(ledger := ChargeRepair(c, w.ledger, t).0)
  }

  /** After the first `k` actions, whatever was caught and retried in between. */
  function After(c: Setup, actions: seq<Action>, k: nat): Client
    requires k <= |actions|
  {
    if k == 0 then Client(Opened, 0, 0) else Act(c, After(c, actions, k - 1), actions[k - 1])
  }

  predicate CounterOver(c: Setup, u: Usage) {
    || (u.llmCalls > 0 && (u.llmCalls > c.limits.llmCalls || u.promptChars > c.limits.promptChars))
    || (u.toolCalls > 0 && u.toolCalls > c.limits.toolCalls)
    || (u.repositoryReads > 0 && u.repositoryReads > c.limits.repositoryReads)
  }

  predicate ReadLate(c: Setup, readings: seq<real>) {
    exists i :: 0 <= i < |readings| && readings[i] > c.limits.seconds
  }

  /** A limit was overrun at a check: by a counter that has been charged, or by the clock. */
  predicate SomeOverrun(c: Setup, l: Ledger) {
    CounterOver(c, l.usage) || ReadLate(c, l.readings)
  }

  lemma ReadLateSnoc(c: Setup, readings: seq<real>, t: real)
    ensures ReadLate(c, readings + [t]) <==> ReadLate(c, readings) || t > c.limits.seconds
  {
    var more := readings + [t];
    assert more[|readings|] == t;
    if i :| 0 <= i < |readings| && readings[i] > c.limits.seconds {
      assert more[i] > c.limits.seconds;
    }
  }

  /** A check records an overrun exactly when there is one, and stops the caller only then and
      only in strict mode. */
  lemma EnforceRecords(c: Setup, l: Ledger, counter: Counter, used: int, limit: int, t: real)
    ensures var (after, ok) := Enforce(c, l, counter, used, limit, t);
            && after.usage == l.usage
            && (ReadLate(c, after.readings) <==> ReadLate(c, l.readings) || t > c.limits.seconds)
            && (after.exceeded != [] <==> l.exceeded != [] || t > c.limits.seconds || used > limit)
            && (ok <==> !c.strict || (t <= c.limits.seconds && used <= limit))
  {
    ReadLateSnoc(c, l.readings, t);
  }

  /** A review is called for exactly when some limit was overrun at a check. */
  lemma {:induction false} ReviewRequiredIff(c: Setup, actions: seq<Action>, k: nat)
    requires k <= |actions|
    ensures var l := After(c, actions, k).ledger; l.exceeded != [] <==> SomeOverrun(c, l)
  {
    if k == 0 {
      assert !SomeOverrun(c, Opened);
    } else {
      ReviewRequiredIff(c, actions, k - 1);
      ActRecords(c, After(c, actions, k - 1), actions[k - 1], After(c, actions, k));
    }
  }

  lemma ActRecords(c: Setup, w: Client, a: Action, next: Client)
    requires next == Act(c, w, a)
    requires w.ledger.exceeded != [] <==> SomeOverrun(c, w.ledger)
    ensures next.ledger.exceeded != [] <==> SomeOverrun(c, next.ledger)
  {
    match a
    case CallModel(prompt, _, t1, t2) => LlmRecords(c, w.ledger, prompt, 0, t1, t2);
    case DirectCharge(prompt, completion, t1, t2) => LlmRecords(c, w.ledger, prompt, completion, t1, t2);
    case UseTool(t) =>
      var u := w.ledger.usage.(toolCalls := w.ledger.usage.toolCalls + 1);
      EnforceRecords(c, w.ledger.(usage := u), ToolCalls, u.toolCalls, c.limits.toolCalls, t);
    case ReadRepository(t) =>
      var u := w.ledger.usage.(repositoryReads := w.ledger.usage.repositoryReads + 1);
      EnforceRecords(c, w.ledger.(usage := u), RepositoryReads, u.repositoryReads, c.limits.repositoryReads, t);
    case AttemptRepair(t) => ReadLateSnoc(c, w.ledger.readings, t);
  }

  /** The two checks of a model call record an overrun exactly when one of them has one. */
  lemma LlmChecksRecord(c: Setup, l: Ledger, u: Usage, t1: real, t2: real)
    requires l.usage == u
    ensures var (counted, ok) := Enforce(c, l, LlmCalls, u.llmCalls, c.limits.llmCalls, t1);
            var after := if ok then Enforce(c, counted, PromptChars, u.promptChars, c.limits.promptChars, t2).0
                         else counted;
            && after.usage == u
            && (ReadLate(c, l.readings) ==> ReadLate(c, after.readings))
            && (after.exceeded != [] <==>
                  || l.exceeded != []
                  || u.llmCalls > c.limits.llmCalls || u.promptChars > c.limits.promptChars
                  || (ReadLate(c, after.readings) && !ReadLate(c, l.readings))
                  || t1 > c.limits.seconds || (ok && t2 > c.limits.seconds))
            && (t1 > c.limits.seconds || (ok && t2 > c.limits.seconds) ==> ReadLate(c, after.readings))
  {
    EnforceRecords(c, l, LlmCalls, u.llmCalls, c.limits.llmCalls, t1);
    var (counted, ok) := Enforce(c, l, LlmCalls, u.llmCalls, c.limits.llmCalls, t1);
    if ok {
      EnforceRecords(c, counted, PromptChars, u.promptChars, c.limits.promptChars, t2);
    }
  }

  lemma LlmRecords(c: Setup, l: Ledger, prompt: int, completion: int, t1: real, t2: real)
    requires l.exceeded != [] <==> SomeOverrun(c, l)
    ensures var after := ChargeLlm(c, l, prompt, completion, t1, t2).0;
            after.usage.llmCalls == l.usage.llmCalls + 1 && (after.exceeded != [] <==> SomeOverrun(c, after))
  {
    var u := LlmUsage(l.usage, prompt, completion);
    LlmChecksRecord(c, l.(usage := u), u, t1, t2);
    assert CounterOver(c, l.usage) ==> CounterOver(c, u);
  }

  /** In strict mode, over any calls and retries, the model is never called more often than the
      limit, nor given more prompt characters than theirs. */
  lemma {:induction false} StrictForwardsWithin(c: Setup, actions: seq<Action>, k: nat)
    requires c.strict && k <= |actions|
    ensures var w := After(c, actions, k);
            && w.forwarded <= w.ledger.usage.llmCalls && w.forwardedChars <= w.ledger.usage.promptChars
            && w.forwarded <= Max(0, c.limits.llmCalls) && w.forwardedChars <= Max(0, c.limits.promptChars)
  {
    if k > 0 {
      StrictForwardsWithin(c, actions, k - 1);
      ActForwards(c, After(c, actions, k - 1), actions[k - 1]);
    }
  }

  lemma ActForwards(c: Setup, w: Client, a: Action)
    requires c.strict
    requires w.forwarded <= w.ledger.usage.llmCalls && w.forwardedChars <= w.ledger.usage.promptChars
    requires w.forwarded <= Max(0, c.limits.llmCalls) && w.forwardedChars <= Max(0, c.limits.promptChars)
    ensures var v := Act(c, w, a);
            && v.forwarded <= v.ledger.usage.llmCalls && v.forwardedChars <= v.ledger.usage.promptChars
            && v.forwarded <= Max(0, c.limits.llmCalls) && v.forwardedChars <= Max(0, c.limits.promptChars)
  {
  }

  /** In review mode nothing is blocked. */
  lemma ReviewPasses(c: Setup, w: Client, a: Action)
    requires !c.strict
    ensures Passes(c, w, a) && Act(c, w, a).forwarded == w.forwarded + if a.CallModel? then 1 else 0
  {
  }

  /** So every model call is forwarded. */
  lemma {:induction false} ReviewForwardsAll(c: Setup, actions: seq<Action>, k: nat)
    requires !c.strict && k <= |actions|
    ensures After(c, actions, k).forwarded == ModelCalls(actions, k)
  {
    if k > 0 {
      ReviewForwardsAll(c, actions, k - 1);
      ReviewPasses(c, After(c, actions, k - 1), actions[k - 1]);
    }
  }

  function ModelCalls(actions: seq<Action>, k: nat): nat
    requires k <= |actions|
  {
    if k == 0 then 0 else ModelCalls(actions, k - 1) + if actions[k - 1].CallModel? then 1 else 0
  }

  /** In strict mode, once the calls are used up no later model call passes, retried or not. */
  lemma {:induction false} ExhaustedStaysExhausted(c: Setup, actions: seq<Action>, i: nat, k: nat)
    requires c.strict && i <= k < |actions|
    requires After(c, actions, i).ledger.usage.llmCalls >= c.limits.llmCalls
    ensures After(c, actions, k).ledger.usage.llmCalls >= c.limits.llmCalls
    ensures actions[k].CallModel? ==> !Passes(c, After(c, actions, k), actions[k])
    decreases k
  {
    if i < k {
      ExhaustedStaysExhausted(c, actions, i, k - 1);
    }
  }

  // ---- what has been used, told from the actions ---------------------------

  function Sum(amount: Action -> nat, actions: seq<Action>, k: nat): nat
    requires k <= |actions|
  {
    if k == 0 then 0 else Sum(amount, actions, k - 1) + amount(actions[k - 1])
  }

  function One(holds: bool): nat {
    if holds then 1 else 0
  }

  function ModelUse(a: Action): nat {
    One(a.CallModel? || a.DirectCharge?)
  }

  function ToolUse(a: Action): nat {
    One(a.UseTool?)
  }

  function ReadUse(a: Action): nat {
    One(a.ReadRepository?)
  }

  function RepairUse(a: Action): nat {
    One(a.AttemptRepair?)
  }

  /** The prompt a model call or a direct charge brings; a negative charge brings none. */
  function PromptUse(a: Action): nat {
    match a
    case CallModel(prompt, _, _, _) => prompt
    case DirectCharge(prompt, _, _, _) => Max(prompt, 0)
    case _ => 0
  }

  /** The characters of completions: those charged, and those of replies to forwarded calls. */
  function Completions(c: Setup, actions: seq<Action>, k: nat): nat
    requires k <= |actions|
  {
    if k == 0 then 0
    else
      var a := actions[k - 1];
      Completions(c, actions, k - 1)
      + match a
        case CallModel(_, reply, _, _) => if Passes(c, After(c, actions, k - 1), a) then reply else 0
        case DirectCharge(_, completion, _, _) => Max(completion, 0)
        case _ => 0
  }

  function Used(c: Setup, actions: seq<Action>, k: nat): Usage
    requires k <= |actions|
  {
    Usage(Sum(ModelUse, actions, k), Sum(ToolUse, actions, k), Sum(ReadUse, actions, k),
          Sum(PromptUse, actions, k), Completions(c, actions, k), Sum(RepairUse, actions, k))
  }

  /** Whatever is refused or late, every action is counted, and under its own name. */
  lemma {:induction false} UsageTellsActions(c: Setup, actions: seq<Action>, k: nat)
    requires k <= |actions|
    ensures After(c, actions, k).ledger.usage == Used(c, actions, k)
  {
    if k > 0 {
      UsageTellsActions(c, actions, k - 1);
      ActCounts(c, After(c, actions, k - 1), actions[k - 1]);
    }
  }

  lemma ActCounts(c: Setup, w: Client, a: Action)
    ensures var u, v := w.ledger.usage, Act(c, w, a).ledger.usage;
            && v.llmCalls == u.llmCalls + ModelUse(a) && v.toolCalls == u.toolCalls + ToolUse(a)
            && v.repositoryReads == u.repositoryReads + ReadUse(a)
            && v.repairAttempts == u.repairAttempts + RepairUse(a)
            && v.promptChars == u.promptChars + PromptUse(a)
            && v.completionChars
                 == u.completionChars
                    + match a
                      case CallModel(_, reply, _, _) => if Passes(c, w, a) then reply else 0
                      case DirectCharge(_, completion, _, _) => Max(completion, 0)
                      case _ => 0
  {
  }

  /** Both clock readings of a model call, or the one of another action, are in time. */
  predicate OnTime(c: Setup, a: Action) {
    match a
    case CallModel(_, _, t1, t2) => t1 <= c.limits.seconds && t2 <= c.limits.seconds
    case DirectCharge(_, _, t1, t2) => t1 <= c.limits.seconds && t2 <= c.limits.seconds
    case UseTool(t) => t <= c.limits.seconds
    case ReadRepository(t) => t <= c.limits.seconds
    case AttemptRepair(t) => t <= c.limits.seconds
  }

  /** In strict mode an action passes if and only if it is on time and what it counts towards, with
      it and everything tried before it, is within its limit. */
  lemma {:induction false} StrictPassesIff(c: Setup, actions: seq<Action>, k: nat)
    requires c.strict && k < |actions|
    ensures Passes(c, After(c, actions, k), actions[k]) <==>
              && OnTime(c, actions[k])
              && match actions[k]
                 case UseTool(_) => Sum(ToolUse, actions, k + 1) <= c.limits.toolCalls
                 case ReadRepository(_) => Sum(ReadUse, actions, k + 1) <= c.limits.repositoryReads
                 case AttemptRepair(_) => true
                 case _ =>
                   && Sum(ModelUse, actions, k + 1) <= c.limits.llmCalls
                   && Sum(PromptUse, actions, k + 1) <= c.limits.promptChars
  {
    UsageTellsActions(c, actions, k);
    PassesIff(c, After(c, actions, k), actions[k]);
  }

  lemma PassesIff(c: Setup, w: Client, a: Action)
    requires c.strict
    ensures var u := w.ledger.usage;
            Passes(c, w, a) <==>
              && OnTime(c, a)
              && match a
                 case UseTool(_) => u.toolCalls + 1 <= c.limits.toolCalls
                 case ReadRepository(_) => u.repositoryReads + 1 <= c.limits.repositoryReads
                 case AttemptRepair(_) => true
                 case _ =>
                   && u.llmCalls + 1 <= c.limits.llmCalls && u.promptChars + PromptUse(a) <= c.limits.promptChars
  {
  }

  /** How many of the first `k` actions are model calls that pass. */
  function PassedCalls(c: Setup, actions: seq<Action>, k: nat): nat
    requires k <= |actions|
  {
    if k == 0 then 0
    else
      PassedCalls(c, actions, k - 1)
      + One(actions[k - 1].CallModel? && Passes(c, After(c, actions, k - 1), actions[k - 1]))
  }

  /** A model call reaches the model exactly when it passes. */
  lemma {:induction false} ForwardsWhatPasses(c: Setup, actions: seq<Action>, k: nat)
    requires k <= |actions|
    ensures After(c, actions, k).forwarded == PassedCalls(c, actions, k)
  {
    if k > 0 {
      ForwardsWhatPasses(c, actions, k - 1);
      ActForwardsOne(c, After(c, actions, k - 1), actions[k - 1]);
    }
  }

  lemma ActForwardsOne(c: Setup, w: Client, a: Action)
    ensures Act(c, w, a).forwarded == w.forwarded + One(a.CallModel? && Passes(c, w, a))
  {
  }

  // ---- which reasons are given ---------------------------------------------

  function Counted(u: Usage, counter: Counter): nat {
    match counter
    case LlmCalls => u.llmCalls
    case PromptChars => u.promptChars
    case ToolCalls => u.toolCalls
    case RepositoryReads => u.repositoryReads
  }

  function LimitOn(limits: Limits, counter: Counter): int {
    match counter
    case LlmCalls => limits.llmCalls
    case PromptChars => limits.promptChars
    case ToolCalls => limits.toolCalls
    case RepositoryReads => limits.repositoryReads
  }

  /** The reason tells of a counter at a value it has come to, beyond its own limit, or of a late
      reading of the clock as that is shown. */
  ghost predicate IsGiven(c: Setup, l: Ledger, r: Reason) {
    match r
    case Over(counter, used, limit) =>
      limit == LimitOn(c.limits, counter) && limit < used <= Counted(l.usage, counter)
    case Late(shown) => exists i :: 0 <= i < |l.readings| && IsLate(c, l.readings[i], shown)
  }

  predicate IsLate(c: Setup, t: real, shown: int) {
    t > c.limits.seconds && c.shown(t) == shown
  }

  ghost predicate AllGiven(c: Setup, l: Ledger) {
    && (forall i :: 0 <= i < |l.exceeded| ==> IsGiven(c, l, l.exceeded[i]))
    && (forall i, j :: 0 <= i < j < |l.exceeded| ==> l.exceeded[i] != l.exceeded[j])
  }

  /** In review mode, no value of a counter that goes up by one beyond its limit goes unsaid. */
  ghost predicate NoneUnsaid(c: Setup, l: Ledger, counter: Counter) {
    forall n :: Max(LimitOn(c.limits, counter), 0) < n <= Counted(l.usage, counter) ==>
      Over(counter, n, LimitOn(c.limits, counter)) in l.exceeded
  }

  lemma GivenLater(c: Setup, l: Ledger, later: Ledger, r: Reason)
    requires IsGiven(c, l, r)
    requires l.readings <= later.readings
    requires forall counter :: Counted(l.usage, counter) <= Counted(later.usage, counter)
    ensures IsGiven(c, later, r)
  {
    if r.Late? {
      var i :| 0 <= i < |l.readings| && IsLate(c, l.readings[i], r.shown);
      assert later.readings[i] == l.readings[i];
    }
  }

  /** Recording one given reason more, if it is new. */
  lemma EscalatedGives(c: Setup, l: Ledger, r: Reason)
    requires AllGiven(c, l) && IsGiven(c, l, r)
    ensures AllGiven(c, Escalated(l, r))
  {
    var next := Escalated(l, r);
    forall i | 0 <= i < |next.exceeded| ensures IsGiven(c, next, next.exceeded[i]) {
      GivenLater(c, l, next, next.exceeded[i]);
    }
  }

  /** A check gives only reasons there are. */
  lemma CheckGives(c: Setup, l: Ledger, t: real)
    requires AllGiven(c, l)
    ensures AllGiven(c, CheckTime(c, l, t).0)
  {
    var read := l.(readings := l.readings + [t]);
    forall i | 0 <= i < |read.exceeded| ensures IsGiven(c, read, read.exceeded[i]) {
      GivenLater(c, l, read, read.exceeded[i]);
    }
    if t > c.limits.seconds {
      assert IsLate(c, read.readings[|l.readings|], c.shown(t));
      EscalatedGives(c, read, Late(c.shown(t)));
    }
  }

  lemma EnforceGives(c: Setup, l: Ledger, counter: Counter, t: real)
    requires AllGiven(c, l)
    ensures AllGiven(c, Enforce(c, l, counter, Counted(l.usage, counter), LimitOn(c.limits, counter), t).0)
  {
    var used, limit := Counted(l.usage, counter), LimitOn(c.limits, counter);
    CheckGives(c, l, t);
    var timed := CheckTime(c, l, t).0;
    if used > limit {
      EscalatedGives(c, timed, Over(counter, used, limit));
    }
  }

  /** Usage that has only grown leaves every reason given. */
  lemma ChargedGives(c: Setup, l: Ledger, u: Usage)
    requires AllGiven(c, l) && forall counter :: Counted(l.usage, counter) <= Counted(u, counter)
    ensures AllGiven(c, l.(usage := u))
  {
    var next := l.(usage := u);
    forall i | 0 <= i < |next.exceeded| ensures IsGiven(c, next, next.exceeded[i]) {
      GivenLater(c, l, next, next.exceeded[i]);
    }
  }

  lemma LlmGives(c: Setup, l: Ledger, prompt: int, completion: int, t1: real, t2: real)
    requires AllGiven(c, l)
    ensures AllGiven(c, ChargeLlm(c, l, prompt, completion, t1, t2).0)
  {
    var u := LlmUsage(l.usage, prompt, completion);
    ChargedGives(c, l, u);
    EnforceGives(c, l.(usage := u), LlmCalls, t1);
    var (counted, ok) := Enforce(c, l.(usage := u), LlmCalls, u.llmCalls, c.limits.llmCalls, t1);
    if ok {
      EnforceGives(c, counted, PromptChars, t2);
    }
  }

  lemma ToolGives(c: Setup, l: Ledger, t: real)
    requires AllGiven(c, l)
    ensures AllGiven(c, ChargeTool(c, l, t).0)
  {
    var u := l.usage.(toolCalls := l.usage.toolCalls + 1);
    ChargedGives(c, l, u);
    EnforceGives(c, l.(usage := u), ToolCalls, t);
  }

  lemma ReadGives(c: Setup, l: Ledger, t: real)
    requires AllGiven(c, l)
    ensures AllGiven(c, ChargeRead(c, l, t).0)
  {
    var u := l.usage.(repositoryReads := l.usage.repositoryReads + 1);
    ChargedGives(c, l, u);
    EnforceGives(c, l.(usage := u), RepositoryReads, t);
  }

  lemma RepairGives(c: Setup, l: Ledger, t: real)
    requires AllGiven(c, l)
    ensures AllGiven(c, ChargeRepair(c, l, t).0)
  {
    var u := l.usage.(repairAttempts := l.usage.repairAttempts + 1);
    ChargedGives(c, l, u);
    CheckGives(c, l.(usage := u), t);
  }

  lemma CallGives(c: Setup, l: Ledger, prompt: nat, reply: nat, t1: real, t2: real)
    requires AllGiven(c, l)
    ensures var after := ChargeLlm(c, l, prompt, 0, t1, t2).0;
            && AllGiven(c, after)
            && AllGiven(c, after.(usage := after.usage.(completionChars := after.usage.completionChars + reply)))
  {
    LlmGives(c, l, prompt, 0, t1, t2);
    var after := ChargeLlm(c, l, prompt, 0, t1, t2).0;
    ChargedGives(c, after, after.usage.(completionChars := after.usage.completionChars + reply));
  }

  lemma ActGives(c: Setup, w: Client, a: Action)
    requires AllGiven(c, w.ledger)
    ensures AllGiven(c, Act(c, w, a).ledger)
  {
    match a
    case CallModel(prompt, reply, t1, t2) => CallGives(c, w.ledger, prompt, reply, t1, t2);
    case DirectCharge(prompt, completion, t1, t2) => LlmGives(c, w.ledger, prompt, completion, t1, t2);
    case UseTool(t) => ToolGives(c, w.ledger, t);
    case ReadRepository(t) => ReadGives(c, w.ledger, t);
    case AttemptRepair(t) => RepairGives(c, w.ledger, t);
  }

  /** Over any actions in either mode: each reason is given once, and there is one for it. */
  lemma {:induction false} ReasonsAreGiven(c: Setup, actions: seq<Action>, k: nat)
    requires k <= |actions|
    ensures AllGiven(c, After(c, actions, k).ledger)
  {
    if k == 0 {
      assert AllGiven(c, Opened);
    } else {
      ReasonsAreGiven(c, actions, k - 1);
      ActGives(c, After(c, actions, k - 1), actions[k - 1]);
    }
  }

  /** In review mode what was given stays, and a check of a counter over its limit says so. */
  lemma EnforceSays(c: Setup, l: Ledger, counter: Counter, used: int, limit: int, t: real)
    requires !c.strict
    ensures var after := Enforce(c, l, counter, used, limit, t).0;
            && l.exceeded <= after.exceeded
            && (used > limit ==> Over(counter, used, limit) in after.exceeded)
  {
    var timed := CheckTime(c, l, t).0;
    assert l.exceeded <= timed.exceeded;
    if used > limit {
      var r := Over(counter, used, limit);
      assert (timed.exceeded + [r])[|timed.exceeded|] == r;
    }
  }

  /** What was said stays said, the other counters stay, and this one goes up by one and says so if
      it is then over its limit. */
  ghost predicate Says(c: Setup, l: Ledger, after: Ledger, counter: Counter) {
    && l.exceeded <= after.exceeded
    && (forall other :: other != counter && !other.PromptChars? ==>
          Counted(after.usage, other) == Counted(l.usage, other))
    && Counted(after.usage, counter) == Counted(l.usage, counter) + 1
    && (Counted(after.usage, counter) > LimitOn(c.limits, counter) ==>
          Over(counter, Counted(after.usage, counter), LimitOn(c.limits, counter)) in after.exceeded)
  }

  lemma LlmSays(c: Setup, l: Ledger, prompt: int, completion: int, t1: real, t2: real)
    requires !c.strict
    ensures Says(c, l, ChargeLlm(c, l, prompt, completion, t1, t2).0, LlmCalls)
  {
    var u := LlmUsage(l.usage, prompt, completion);
    EnforceSays(c, l.(usage := u), LlmCalls, u.llmCalls, c.limits.llmCalls, t1);
    var counted := Enforce(c, l.(usage := u), LlmCalls, u.llmCalls, c.limits.llmCalls, t1).0;
    EnforceSays(c, counted, PromptChars, u.promptChars, c.limits.promptChars, t2);
  }

  lemma ToolSays(c: Setup, l: Ledger, t: real)
    requires !c.strict
    ensures Says(c, l, ChargeTool(c, l, t).0, ToolCalls)
  {
    var u := l.usage.(toolCalls := l.usage.toolCalls + 1);
    EnforceSays(c, l.(usage := u), ToolCalls, u.toolCalls, c.limits.toolCalls, t);
  }

  lemma ReadSays(c: Setup, l: Ledger, t: real)
    requires !c.strict
    ensures Says(c, l, ChargeRead(c, l, t).0, RepositoryReads)
  {
    var u := l.usage.(repositoryReads := l.usage.repositoryReads + 1);
    EnforceSays(c, l.(usage := u), RepositoryReads, u.repositoryReads, c.limits.repositoryReads, t);
  }

  lemma SaidStays(c: Setup, l: Ledger, after: Ledger, charged: Counter, counter: Counter)
    requires Says(c, l, after, charged) && NoneUnsaid(c, l, counter) && !counter.PromptChars?
    ensures NoneUnsaid(c, after, counter)
  {
    forall n | Max(LimitOn(c.limits, counter), 0) < n <= Counted(after.usage, counter)
      ensures Over(counter, n, LimitOn(c.limits, counter)) in after.exceeded
    {
      if n <= Counted(l.usage, counter) {
        assert Over(counter, n, LimitOn(c.limits, counter)) in l.exceeded;
      }
    }
  }

  lemma ActSays(c: Setup, w: Client, a: Action, counter: Counter)
    requires !c.strict && !counter.PromptChars? && NoneUnsaid(c, w.ledger, counter)
    ensures NoneUnsaid(c, Act(c, w, a).ledger, counter)
  {
    var l := w.ledger;
    match a
    case CallModel(prompt, _, t1, t2) =>
      LlmSays(c, l, prompt, 0, t1, t2);
      SaidStays(c, l, ChargeLlm(c, l, prompt, 0, t1, t2).0, LlmCalls, counter);
    case DirectCharge(prompt, completion, t1, t2) =>
      LlmSays(c, l, prompt, completion, t1, t2);
      SaidStays(c, l, ChargeLlm(c, l, prompt, completion, t1, t2).0, LlmCalls, counter);
    case UseTool(t) =>
      ToolSays(c, l, t);
      SaidStays(c, l, ChargeTool(c, l, t).0, ToolCalls, counter);
    case ReadRepository(t) =>
      ReadSays(c, l, t);
      SaidStays(c, l, ChargeRead(c, l, t).0, RepositoryReads, counter);
    case AttemptRepair(_) =>
  }

  /** And in review mode none of a call, tool or read counter's values beyond its limit is missing. */
  lemma {:induction false} ReviewSaysAll(c: Setup, actions: seq<Action>, k: nat, counter: Counter)
    requires !c.strict && k <= |actions| && !counter.PromptChars?
    ensures NoneUnsaid(c, After(c, actions, k).ledger, counter)
  {
    if k > 0 {
      ReviewSaysAll(c, actions, k - 1, counter);
      ActSays(c, After(c, actions, k - 1), actions[k - 1], counter);
    }
  }
}
