/** How a generation job of
    `api-agent/worktop/api_agent/app/task_managers/api_test_generation_task_manager.py` ends and
    what it has published, told from the moves of its worker and its abort calls. */
module JobOutcomes {
  import opened JobLifecycle

  function At(moves: seq<Move>, program: seq<Op>): World {
    Play(Enqueued(), moves, program)
  }

  function Step(w: World, m: Move, program: seq<Op>): World {
    if Possible(w, m) then Next(w, m, program) else w
  }

  lemma {:induction false} PlaySnoc(w: World, moves: seq<Move>, m: Move, program: seq<Op>)
    ensures Play(w, moves + [m], program) == Step(Play(w, moves, program), m, program)
  {
    PlayAppend(w, moves, [m], program);
    assert [m][1..] == [];
  }

  predicate AtCheck(w: World) {
    w.worker.Body? && w.worker.rest != [] && w.worker.rest[0].Check?
  }

  /** The worker came to a check after an abort call. */
  ghost predicate Caught(moves: seq<Move>, program: seq<Op>) {
    exists k :: 0 <= k < |moves| && moves[k].Advance? && AtCheck(At(moves[..k], program)) && Abort in moves[..k]
  }

  /** Some of the worker's work raised. */
  ghost predicate Threw(moves: seq<Move>, program: seq<Op>) {
    exists k :: 0 <= k < |moves| && moves[k].Raise? && Possible(At(moves[..k], program), Raise)
  }

  /** An abort call landed between the worker's start and its end. */
  ghost predicate AbortedAtWork(moves: seq<Move>, program: seq<Op>) {
    exists k :: 0 <= k < |moves| && moves[k].Abort? && AtWork(At(moves[..k], program))
  }

  predicate AtWork(w: World) {
    w.worker.Body? || w.worker.Raised?
  }

  lemma {:induction false} MovesSnoc(moves: seq<Move>, m: Move, program: seq<Op>)
    ensures var w := At(moves, program);
            && (Caught(moves + [m], program) <==>
                  Caught(moves, program) || (m.Advance? && AtCheck(w) && Abort in moves))
            && (Threw(moves + [m], program) <==> Threw(moves, program) || (m.Raise? && Possible(w, Raise)))
            && (AbortedAtWork(moves + [m], program) <==>
                  AbortedAtWork(moves, program) || (m.Abort? && AtWork(w)))
  {
    var more := moves + [m];
    assert more[..|moves|] == moves;
    forall k | 0 <= k < |moves| ensures more[k] == moves[k] && more[..k] == moves[..k] {
    }
  }

  function Outcome(caught: bool, threw: bool): Status {
    if caught then Aborted else if threw then Failed else Completed
  }

  /** What has happened so far, read off the job. */
  ghost predicate Accounts(w: World, aborted: bool, caught: bool, threw: bool, atWork: bool) {
    && !(caught && threw)
    && (!HasEnded(w.worker) ==> (w.job.abortRequested <==> aborted))
    && (HasEnded(w.worker) ==> w.job.status == Outcome(caught, threw))
    && match w.worker
       case Submitted => !caught && !threw && !atWork && w.job.status == (if aborted then Aborting else Queued)
       case Body(_) => !caught && !threw && w.job.status == (if atWork then Aborting else Running)
       case Raised(outcome) =>
         && (caught || threw) && outcome == Outcome(caught, threw)
         && w.job.status == (if atWork then Aborting else Running)
       case _ => true
  }

  lemma {:induction false} StepAccounts(w: World, m: Move, program: seq<Op>,
                                        aborted: bool, caught: bool, threw: bool, atWork: bool)
    requires Inv(w) && AllPlain(program) && Accounts(w, aborted, caught, threw, atWork)
    ensures Accounts(Step(w, m, program), aborted || m.Abort?,
                     caught || (m.Advance? && AtCheck(w) && aborted),
                     threw || (m.Raise? && Possible(w, Raise)),
                     atWork || (m.Abort? && AtWork(w)))
  {
    match m
    case Advance =>
    case Raise =>
    case Abort =>
    case SendAborting =>
    case StageAborting =>
  }

  lemma {:induction false} AccountedAlways(moves: seq<Move>, program: seq<Op>)
    requires AllPlain(program)
    ensures Accounts(At(moves, program), Abort in moves, Caught(moves, program), Threw(moves, program),
                     AbortedAtWork(moves, program))
    decreases |moves|
  {
    if moves != [] {
      var init, m := moves[..|moves| - 1], moves[|moves| - 1];
      assert moves == init + [m];
      AccountedAlways(init, program);
      EnqueuedIsInv();
      InvAlways(Enqueued(), init, program);
      PlaySnoc(Enqueued(), init, m, program);
      MovesSnoc(init, m, program);
      StepAccounts(At(init, program), m, program, Abort in init, Caught(init, program), Threw(init, program),
                   AbortedAtWork(init, program));
    }
  }

  /** A job that has ended is aborted if and only if its worker came to a check after an abort call,
      failed if and only if its work raised, and otherwise completed; the first two exclude each
      other. */
  lemma {:induction false} EndedOutcome(moves: seq<Move>, program: seq<Op>)
    requires AllPlain(program) && HasEnded(At(moves, program).worker)
    ensures var status := At(moves, program).job.status;
            && (status.Aborted? <==> Caught(moves, program))
            && (status.Failed? <==> Threw(moves, program))
            && (status.Completed? <==> !Caught(moves, program) && !Threw(moves, program))
  {
    AccountedAlways(moves, program);
  }

  /** While it has not ended: it is aborting once an abort call has landed on the working worker,
      or on the waiting job; the worker's start calls it running again. */
  lemma {:induction false} OpenStatus(moves: seq<Move>, program: seq<Op>)
    requires AllPlain(program)
    ensures var w := At(moves, program);
            && (AtWork(w) ==> w.job.status == if AbortedAtWork(moves, program) then Aborting else Running)
            && (w.worker.Submitted? ==> w.job.status == if Abort in moves then Aborting else Queued)
            && (!HasEnded(w.worker) ==> (w.job.abortRequested <==> Abort in moves))
  {
    AccountedAlways(moves, program);
  }

  /** When nothing raises, an abort call with a check ahead of the worker ends the job aborted. */
  lemma {:induction false} AbortIsObeyed(moves: seq<Move>, more: seq<Move>, program: seq<Op>)
    requires AllPlain(program) && Raise !in moves && Raise !in more
    requires var w := At(moves, program); w.job.abortRequested && CheckAhead(w, program)
    requires HasEnded(At(moves + more, program).worker)
    ensures At(moves + more, program).job.status.Aborted?
  {
    EnqueuedIsInv();
    InvAlways(Enqueued(), moves, program);
    PlayAppend(Enqueued(), moves, more, program);
    AbortIsHeeded(At(moves, program), more, program);
    EndedOutcome(moves + more, program);
  }

  // ---- what has been published ---------------------------------------------

  /** The events the worker publishes; abort calls publish their own on the side. */
  function OfWorker(events: seq<EventKind>): seq<EventKind> {
    if events == [] then []
    else
      var last := events[|events| - 1];
      OfWorker(events[..|events| - 1]) + if last.AbortingEvent? then [] else [last]
  }

  lemma {:induction false} OfWorkerSnoc(events: seq<EventKind>, kind: EventKind)
    ensures OfWorker(events + [kind]) == OfWorker(events) + if kind.AbortingEvent? then [] else [kind]
  {
    assert (events + [kind])[..|events|] == events;
  }

  function EmitsOf(ops: seq<Op>): seq<EventKind> {
    if ops == [] then []
    else (if ops[0].Emit? then [ops[0].kind] else []) + EmitsOf(ops[1..])
  }

  predicate NoAborting(ops: seq<Op>) {
    forall i :: 0 <= i < |ops| ==> ops[i] != Emit(AbortingEvent)
  }

  /** The worker's events and those it has ahead are always those of its program. */
  ghost predicate Publishes(w: World, program: seq<Op>) {
    var told, all := OfWorker(w.job.events), [QueuedEvent, RunningEvent] + EmitsOf(program);
    match w.worker
    case Submitted => told == [QueuedEvent]
    case Body(rest) => NoAborting(rest) && told + EmitsOf(rest) == all
    case Raised(_) => told <= all
    case Announcing(outcome) => told <= all && (outcome.Completed? ==> told == all)
    case Labelling(outcome) => ToldTo(told, all, outcome)
    case Done => ToldTo(told, all, w.job.status)
  }

  ghost predicate ToldTo(told: seq<EventKind>, all: seq<EventKind>, outcome: Status) {
    && told != [] && told[|told| - 1] == Ended(outcome) && told[..|told| - 1] <= all
    && (outcome.Completed? ==> told == all + [Ended(outcome)])
  }

  lemma StartPublishes(w: World, program: seq<Op>)
    requires w.worker.Submitted? && Publishes(w, program) && NoAborting(program)
    ensures Publishes(AdvanceWorker(w, program), program)
  {
    var head := [Emit(RunningEvent), Stage("running")];
    var rest := head + program;
    assert rest[1..][1..] == program;
    assert forall i :: 2 <= i < |rest| ==> rest[i] == program[i - 2];
    assert EmitsOf(rest[1..]) == EmitsOf(program);
    assert EmitsOf(rest) == [RunningEvent] + EmitsOf(program);
    assert [QueuedEvent] + ([RunningEvent] + EmitsOf(program)) == [QueuedEvent, RunningEvent] + EmitsOf(program);
  }

  lemma EmitPublishes(w: World, program: seq<Op>)
    requires w.worker.Body? && Publishes(w, program) && w.worker.rest != [] && w.worker.rest[0].Emit?
    ensures Publishes(AdvanceWorker(w, program), program)
  {
    var rest, told, kind := w.worker.rest, OfWorker(w.job.events), w.worker.rest[0].kind;
    var next := AdvanceWorker(w, program);
    assert OfWorker(next.job.events) == told + [kind] by {
      OfWorkerSnoc(w.job.events, kind);
    }
    assert EmitsOf(rest) == [kind] + EmitsOf(rest[1..]);
    Regroup(told, [kind], EmitsOf(rest[1..]));
    assert NoAborting(rest[1..]);
  }

  lemma Regroup(a: seq<EventKind>, b: seq<EventKind>, c: seq<EventKind>)
    ensures a + b + c == a + (b + c)
  {
  }

  lemma PassPublishes(w: World, program: seq<Op>)
    requires w.worker.Body? && Publishes(w, program) && (w.worker.rest == [] || !w.worker.rest[0].Emit?)
    ensures Publishes(AdvanceWorker(w, program), program)
  {
    var rest, told := w.worker.rest, OfWorker(w.job.events);
    if rest == [] {
      assert told + [] == told;
    } else {
      assert [] + EmitsOf(rest[1..]) == EmitsOf(rest);
      assert told <= told + EmitsOf(rest);
    }
  }

  lemma BodyPublishes(w: World, program: seq<Op>)
    requires w.worker.Body? && Publishes(w, program)
    ensures Publishes(AdvanceWorker(w, program), program)
  {
    if w.worker.rest != [] && w.worker.rest[0].Emit? {
      EmitPublishes(w, program);
    } else {
      PassPublishes(w, program);
    }
  }

  lemma AnnouncePublishes(w: World, program: seq<Op>)
    requires Inv(w) && w.worker.Announcing? && Publishes(w, program)
    ensures Publishes(AdvanceWorker(w, program), program)
  {
    var told, end := OfWorker(w.job.events), Ended(w.worker.outcome);
    OfWorkerSnoc(w.job.events, end);
    assert (told + [end])[..|told|] == told;
  }

  lemma RestPublishes(w: World, program: seq<Op>)
    requires Inv(w) && (w.worker.Raised? || w.worker.Labelling?) && Publishes(w, program)
    ensures Publishes(AdvanceWorker(w, program), program)
  {
  }

  lemma AsidePublishes(w: World, m: Move, program: seq<Op>)
    requires Publishes(w, program) && (m.Abort? || m.StageAborting? || m.SendAborting?) && Possible(w, m)
    requires Inv(w)
    ensures Publishes(Next(w, m, program), program)
  {
    var next := Next(w, m, program);
    OfWorkerSnoc(w.job.events, AbortingEvent);
    assert OfWorker(w.job.events) + [] == OfWorker(w.job.events);
    assert next.worker == w.worker && OfWorker(next.job.events) == OfWorker(w.job.events);
    assert w.worker.Done? ==> next.job.status == w.job.status;
  }

  lemma RaisePublishes(w: World, program: seq<Op>)
    requires Publishes(w, program) && Possible(w, Raise)
    ensures Publishes(Next(w, Raise, program), program)
  {
    var told := OfWorker(w.job.events);
    assert told <= told + EmitsOf(w.worker.rest);
  }

  lemma StepPublishes(w: World, m: Move, program: seq<Op>)
    requires Inv(w) && Publishes(w, program) && NoAborting(program) && Possible(w, m)
    ensures Publishes(Next(w, m, program), program)
  {
    match m
    case Advance =>
      match w.worker {
        case Submitted => StartPublishes(w, program);
        case Body(_) => BodyPublishes(w, program);
        case Announcing(_) => AnnouncePublishes(w, program);
        case Raised(_) => RestPublishes(w, program);
        case Labelling(_) => RestPublishes(w, program);
      }
    case Raise => RaisePublishes(w, program);
    case _ => AsidePublishes(w, m, program);
  }

  lemma {:induction false} PublishesAlways(moves: seq<Move>, program: seq<Op>)
    requires AllPlain(program) && NoAborting(program)
    ensures Publishes(At(moves, program), program)
    decreases |moves|
  {
    if moves == [] {
      OfWorkerSnoc([], QueuedEvent);
    } else {
      var init, m := moves[..|moves| - 1], moves[|moves| - 1];
      assert moves == init + [m];
      PublishesAlways(init, program);
      EnqueuedIsInv();
      InvAlways(Enqueued(), init, program);
      PlaySnoc(Enqueued(), init, m, program);
      if Possible(At(init, program), m) {
        StepPublishes(At(init, program), m, program);
      }
    }
  }

  /** A job at rest has published, besides the announcements of its abort calls, events of its
      program in order and then its end; all of them if it completed. */
  lemma {:induction false} DoneHasPublished(moves: seq<Move>, program: seq<Op>)
    requires AllPlain(program) && NoAborting(program) && At(moves, program).worker.Done?
    ensures var job := At(moves, program).job;
            ToldTo(OfWorker(job.events), [QueuedEvent, RunningEvent] + EmitsOf(program), job.status)
  {
    PublishesAlways(moves, program);
  }

  // ---- the two paths -------------------------------------------------------

  lemma NoAbortingAppend(a: seq<Op>, b: seq<Op>)
    ensures NoAborting(a + b) <==> NoAborting(a) && NoAborting(b)
  {
    assert forall i :: 0 <= i < |a| ==> (a + b)[i] == a[i];
    assert forall i :: 0 <= i < |b| ==> (a + b)[|a| + i] == b[i];
  }

  lemma GeneratingAnnouncesNoAbort(o: Options)
    ensures NoAborting(GeneratingPath(o))
  {
    assert NoAborting(DiscoveringPath()) && NoAborting(StrategyPath(o)) && NoAborting(PlacementPath(o));
    NoAbortingAppend(DiscoveringPath(), StrategyPath(o));
    NoAbortingAppend(DiscoveringPath() + StrategyPath(o), PlacementPath(o));
  }

  lemma PathsAnnounceNoAbort(o: Options)
    ensures NoAborting(ScenarioPath()) && NoAborting(TestCodePath(o))
  {
    assert NoAborting(PlanningPath()) && NoAborting(ScenarioTail()) && NoAborting(PlanningTail());
    NoAbortingAppend(PlanningTail(), Publish("approval_required") + [Work]);
    NoAbortingAppend([Check], ApprovalTail());
    NoAbortingAppend(PlanningPath(), [Check] + ApprovalTail());
    GeneratingAnnouncesNoAbort(o);
    assert NoAborting(WritingTail(o));
    NoAbortingAppend(PlanningPath() + [Check], GeneratingPath(o));
    NoAbortingAppend(PlanningPath() + [Check] + GeneratingPath(o), [Check] + WritingTail(o));
  }

  /** On either path: how the job ends, and what it has published. */
  lemma {:induction false} PathsEnd(o: Options, scenarios: bool, moves: seq<Move>)
    ensures var program := if scenarios then ScenarioPath() else TestCodePath(o);
            var w := At(moves, program);
            && (HasEnded(w.worker) ==> w.job.status == Outcome(Caught(moves, program), Threw(moves, program)))
            && (w.worker.Done? ==>
                  ToldTo(OfWorker(w.job.events), [QueuedEvent, RunningEvent] + EmitsOf(program), w.job.status))
  {
    var program := if scenarios then ScenarioPath() else TestCodePath(o);
    PathsArePlain(o);
    PathsAnnounceNoAbort(o);
    if HasEnded(At(moves, program).worker) {
      EndedOutcome(moves, program);
    }
    PublishesAlways(moves, program);
  }
}
