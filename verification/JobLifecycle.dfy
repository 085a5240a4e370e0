/** Model of one generation job: the lock sections of
    `api-agent/worktop/api_agent/app/task_managers/api_test_generation_task_manager.py`
    interleaved with its single worker, whose work is the two paths of
    `api-agent/worktop/api_agent/app/services/generation_orchestrator.py`. Publishing and
    logging do not raise. */
module JobLifecycle {
  datatype Status = Queued | Running | Aborting | Aborted | Completed | Failed

  predicate IsTerminal(s: Status) {
    s.Completed? || s.Failed? || s.Aborted?
  }

  datatype EventKind = QueuedEvent | RunningEvent | AbortingEvent | Progress | Ended(status: Status)

  datatype Job = Job(status: Status, stage: string, abortRequested: bool, events: seq<EventKind>)

  function StageOf(s: Status): string {
    match s
    case Queued => "queued"
    case Running => "running"
    case Aborting => "aborting"
    case Aborted => "aborted"
    case Completed => "completed"
    case Failed => "failed"
  }

  // ---- the lock sections ---------------------------------------------------

  function MarkRunning(j: Job): Job {
    j.(status := Running, stage := "running")
  }

  function MarkEnded(j: Job, s: Status): Job {
    j.(status := s, stage := StageOf(s), abortRequested := j.abortRequested || s.Aborted?)
  }

  function RequestAbort(j: Job): Job {
    if IsTerminal(j.status) then j else j.(status := Aborting, stage := "aborting", abortRequested := true)
  }

  /** The job the task manager keeps; each method is one section under its lock. */
  class GenerationJob {
    var status: Status
    var stage: string
    var abortRequested: bool
    var events: seq<EventKind>

    function View(): Job
      reads this
    {
      Job(status, stage, abortRequested, events)
    }

    constructor ()
      ensures View() == Job(Queued, "queued", false, [QueuedEvent])
    {
      status, stage, abortRequested, events := Queued, "queued", false, [QueuedEvent];
    }

    /** `abort` up to its publish, which only a job not yet ended reaches. */
    method Abort() returns (requested: bool)
      modifies this
      ensures View() == RequestAbort(old(View())) && (requested <==> !IsTerminal(old(status)))
    {
      if status == Completed || status == Failed || status == Aborted {
        return false;
      }
      abortRequested := true;
      status := Aborting;
      stage := "aborting";
      requested := true;
    }

    method Start()
      modifies this
      ensures View() == MarkRunning(old(View()))
    {
      status := Running;
      stage := "running";
    }

    /** `_mark_completed`, `_mark_failed` and `_mark_aborted`. */
    method End(s: Status)
      requires IsTerminal(s)
      modifies this
      ensures View() == MarkEnded(old(View()), s)
    {
      status := s;
      stage := StageOf(s);
      if s == Aborted {
        abortRequested := true;
      }
    }
  }

  // ---- the worker and its interleaving -------------------------------------

  /** What a worker does between lock sections: look for an abort, do work that may raise,
      append an event, and set the stage of a publish. */
  datatype Op = Check | Work | Emit(kind: EventKind) | Stage(name: string)

  /** `Announcing` and `Labelling` are the two halves of the publish that follows the terminal
      write. */
  datatype Worker =
    | Submitted
    | Body(rest: seq<Op>)
    | Raised(outcome: Status)
    | Announcing(outcome: Status)
    | Labelling(outcome: Status)
    | Done

  predicate HasEnded(r: Worker) {
    r.Announcing? || r.Labelling? || r.Done?
  }

  /** A job with its worker, the abort calls that have left the lock but not yet appended
      their event, those that have not yet set the stage, and every status written. */
  datatype World = World(job: Job, worker: Worker, unsent: nat, unstaged: nat, written: seq<Status>)

  function Enqueued(): World {
    World(Job(Queued, "queued", false, [QueuedEvent]), Submitted, 0, 0, [Queued])
  }

  datatype Move = Advance | Raise | Abort | SendAborting | StageAborting

  predicate Possible(w: World, m: Move) {
    match m
    case Advance => !w.worker.Done?
    case Raise => w.worker.Body? && w.worker.rest != [] && w.worker.rest[0].Work?
    case Abort => true
    case SendAborting => w.unsent > 0
    case StageAborting => w.unstaged > 0
  }

  function Perform(j: Job, op: Op): Job {
    match op
    case Emit(kind) => j.(events := j.events + [kind])
    case Stage(name) => j.(stage := name)
    case _ => j
  }

  function Finish(w: World, s: Status): World {
    w.(job := MarkEnded(w.job, s), worker := Announcing(s), written := w.written + [s])
  }

  /** The worker's next step on the path `program`. */
  function AdvanceWorker(w: World, program: seq<Op>): World
    requires Possible(w, Advance)
  {
    match w.worker
    case Submitted =>
      w.(job := MarkRunning(w.job), written := w.written + [Running],
         worker := Body([Emit(RunningEvent), Stage("running")] + program))
    case Body(rest) =>
      if rest == [] then Finish(w, Completed)
      else if rest[0].Check? && w.job.abortRequested then w.(worker := Raised(Aborted))
      else w.(job := Perform(w.job, rest[0]), worker := Body(rest[1..]))
    case Raised(outcome) => Finish(w, outcome)
    case Announcing(outcome) => w.(job := Perform(w.job, Emit(Ended(outcome))), worker := Labelling(outcome))
    case Labelling(outcome) => w.(job := Perform(w.job, Stage(StageOf(outcome))), worker := Done)
  }

  function Next(w: World, m: Move, program: seq<Op>): World
    requires Possible(w, m)
  {
    match m
    case Advance => AdvanceWorker(w, program)
    case Raise => w.(worker := Raised(Failed))
    case Abort =>
      if IsTerminal(w.job.status) then w
      else w.(job := RequestAbort(w.job), unsent := w.unsent + 1, written := w.written + [Aborting])
    case SendAborting =>
      w.(job := w.job.(events := w.job.events + [AbortingEvent]), unsent := w.unsent - 1, unstaged := w.unstaged + 1)
    case StageAborting => w.(job := w.job.(stage := "aborting"), unstaged := w.unstaged - 1)
  }

  /** Any interleaving: moves that are not possible when their turn comes do nothing. */
  function Play(w: World, moves: seq<Move>, program: seq<Op>): World
    decreases |moves|
  {
    if moves == [] then w
    else Play(if Possible(w, moves[0]) then Next(w, moves[0], program) else w, moves[1..], program)
  }

  // ---- the two paths -------------------------------------------------------

  function Publish(stage: string): seq<Op> {
    [Emit(Progress), Stage(stage)]
  }

  /** `generate_scenarios`. */
  function ScenarioPath(): seq<Op> {
    ([Check] + Publish("reading_story") +
     [Check] + Publish("scanning_repository") + [Work] +
     [Check] + Publish("finding_api_endpoints") + [Work] +
     [Check] + Publish("discovering_repository") + [Work]) +
    ([Check] + ScenarioTail())
  }

  /** What `generate_scenarios` does after its last abort check. */
  function ScenarioTail(): seq<Op> {
    Publish("generating_scenarios") + [Work] + Publish("completed") + [Work]
  }

  datatype Options = Options(approvalRequired: bool, review: bool, placement: bool, validated: bool)

  /** `generate_test_code`, up to where it may stop for an approval. */
  function PlanningPath(): seq<Op> {
    [Check] + Publish("scanning_repository") + [Work] +
    [Check] + Publish("classifying_execution_targets") +
    [Check] + Publish("extracting_existing_examples") + [Work]
  }

  function PlanningTail(): seq<Op> {
    Publish("planning_mocks_and_stubs") + [Work]
  }

  function ApprovalTail(): seq<Op> {
    PlanningTail() + Publish("approval_required") + [Work]
  }

  function DiscoveringPath(): seq<Op> {
    PlanningTail() + [Work] + [Check] + Publish("discovering_repository") + [Work]
  }

  function StrategyPath(o: Options): seq<Op> {
    [Check] + (if o.review then Publish("reviewing_strategy_evidence") + [Work] else []) +
    Publish("selecting_generation_strategy")
  }

  function PlacementPath(o: Options): seq<Op> {
    [Check] + (if o.placement then Publish("planning_test_placement") else []) +
    Publish("generating_test_code") + [Work]
  }

  function GeneratingPath(o: Options): seq<Op> {
    DiscoveringPath() + StrategyPath(o) + PlacementPath(o)
  }

  function WritingTail(o: Options): seq<Op> {
    Publish("writing_files") + (if o.validated then Publish("validating") else []) + Publish("completed") + [Work]
  }

  function TestCodePath(o: Options): seq<Op> {
    if o.approvalRequired then PlanningPath() + ([Check] + ApprovalTail())
    else (PlanningPath() + [Check] + GeneratingPath(o)) + ([Check] + WritingTail(o))
  }

  predicate HasCheck(ops: seq<Op>) {
    exists i :: 0 <= i < |ops| && ops[i].Check?
  }

  // ---- the invariant -------------------------------------------------------

  function EndedEvents(events: seq<EventKind>): (r: seq<Status>) {
    if events == [] then []
    else
      var last := events[|events| - 1];
      EndedEvents(events[..|events| - 1]) + if last.Ended? then [last.status] else []
  }

  function TerminalWrites(written: seq<Status>): (r: seq<Status>) {
    if written == [] then []
    else
      var last := written[|written| - 1];
      TerminalWrites(written[..|written| - 1]) + if IsTerminal(last) then [last] else []
  }

  predicate Plain(op: Op) {
    op.Emit? ==> !op.kind.Ended?
  }

  predicate AllPlain(ops: seq<Op>) {
    forall i :: 0 <= i < |ops| ==> Plain(ops[i])
  }

  /** A terminal status is in place exactly when the worker has written it; it is the one
      terminal write, and the one terminal event follows from what the worker has left. */
  ghost predicate Inv(w: World) {
    var j := w.job;
    && (j.status.Aborting? ==> j.abortRequested)
    && (j.status.Aborted? ==> j.abortRequested)
    && (IsTerminal(j.status) <==> HasEnded(w.worker))
    && TerminalWrites(w.written) == (if HasEnded(w.worker) then [j.status] else [])
    && EndedEvents(j.events) == (if w.worker.Labelling? || w.worker.Done? then [j.status] else [])
    && match w.worker
       case Body(rest) => AllPlain(rest)
       case Raised(outcome) => outcome.Failed? || outcome.Aborted?
       case Announcing(outcome) => outcome == j.status
       case Labelling(outcome) => outcome == j.status
       case _ => true
  }

  lemma {:induction false} EndedSnoc(events: seq<EventKind>, kind: EventKind)
    ensures EndedEvents(events + [kind]) == EndedEvents(events) + if kind.Ended? then [kind.status] else []
  {
    assert (events + [kind])[..|events|] == events;
  }

  lemma {:induction false} WritesSnoc(written: seq<Status>, s: Status)
    ensures TerminalWrites(written + [s]) == TerminalWrites(written) + if IsTerminal(s) then [s] else []
  {
    assert (written + [s])[..|written|] == written;
  }

  lemma FinishKeepsInv(w: World, s: Status)
    requires Inv(w) && !HasEnded(w.worker) && IsTerminal(s)
    ensures Inv(Finish(w, s))
  {
    WritesSnoc(w.written, s);
  }

  lemma RestIsPlain(rest: seq<Op>)
    requires rest != [] && AllPlain(rest)
    ensures Plain(rest[0]) && AllPlain(rest[1..])
  {
  }

  lemma EmitKeepsInv(w: World, kind: EventKind, rest: seq<Op>)
    requires Inv(w) && w.worker.Body? && !kind.Ended? && AllPlain(rest)
    ensures Inv(w.(job := Perform(w.job, Emit(kind)), worker := Body(rest)))
  {
    EndedSnoc(w.job.events, kind);
  }

  lemma StageKeepsInv(w: World, name: string, rest: seq<Op>)
    requires Inv(w) && w.worker.Body? && AllPlain(rest)
    ensures Inv(w.(job := Perform(w.job, Stage(name)), worker := Body(rest)))
  {
  }

  lemma PassKeepsInv(w: World, rest: seq<Op>)
    requires Inv(w) && w.worker.Body? && AllPlain(rest)
    ensures Inv(w.(worker := Body(rest)))
  {
  }

  lemma RaiseKeepsInv(w: World, outcome: Status)
    requires Inv(w) && w.worker.Body? && (outcome.Failed? || outcome.Aborted?)
    ensures Inv(w.(worker := Raised(outcome)))
  {
  }

  lemma BodyKeepsInv(w: World, program: seq<Op>)
    requires Inv(w) && w.worker.Body? && w.worker.rest != []
    ensures Inv(AdvanceWorker(w, program))
  {
    var op, rest := w.worker.rest[0], w.worker.rest[1..];
    RestIsPlain(w.worker.rest);
    match op
    case Emit(kind) => EmitKeepsInv(w, kind, rest);
    case Stage(name) => StageKeepsInv(w, name, rest);
    case Work => PassKeepsInv(w, rest);
    case Check =>
      RaiseKeepsInv(w, Aborted);
      PassKeepsInv(w, rest);
  }

  lemma StartKeepsInv(w: World, program: seq<Op>)
    requires Inv(w) && w.worker.Submitted? && AllPlain(program)
    ensures Inv(AdvanceWorker(w, program))
  {
    WritesSnoc(w.written, Running);
    var rest := [Emit(RunningEvent), Stage("running")] + program;
    assert forall i :: 2 <= i < |rest| ==> rest[i] == program[i - 2];
  }

  lemma AnnounceKeepsInv(w: World, program: seq<Op>)
    requires Inv(w) && w.worker.Announcing?
    ensures Inv(AdvanceWorker(w, program))
  {
    EndedSnoc(w.job.events, Ended(w.job.status));
  }

  lemma LabelKeepsInv(w: World, program: seq<Op>)
    requires Inv(w) && w.worker.Labelling?
    ensures Inv(AdvanceWorker(w, program))
  {
  }

  lemma AdvanceKeepsInv(w: World, program: seq<Op>)
    requires Inv(w) && Possible(w, Advance) && AllPlain(program)
    ensures Inv(AdvanceWorker(w, program))
  {
    if w.worker.Submitted? {
      StartKeepsInv(w, program);
    } else if w.worker.Raised? {
      FinishKeepsInv(w, w.worker.outcome);
    } else if w.worker.Body? && w.worker.rest == [] {
      FinishKeepsInv(w, Completed);
    } else if w.worker.Body? {
      BodyKeepsInv(w, program);
    } else if w.worker.Announcing? {
      AnnounceKeepsInv(w, program);
    } else {
      LabelKeepsInv(w, program);
    }
  }

  lemma NextKeepsInv(w: World, m: Move, program: seq<Op>)
    requires Inv(w) && Possible(w, m) && AllPlain(program)
    ensures Inv(Next(w, m, program))
  {
    if m.Advance? {
      AdvanceKeepsInv(w, program);
    } else if m.Abort? {
      WritesSnoc(w.written, Aborting);
    } else if m.SendAborting? {
      EndedSnoc(w.job.events, AbortingEvent);
    }
  }

  lemma {:induction false} InvAlways(w: World, moves: seq<Move>, program: seq<Op>)
    requires Inv(w) && AllPlain(program)
    ensures Inv(Play(w, moves, program))
    decreases |moves|
  {
    if moves != [] {
      if Possible(w, moves[0]) {
        NextKeepsInv(w, moves[0], program);
        InvAlways(Next(w, moves[0], program), moves[1..], program);
      } else {
        InvAlways(w, moves[1..], program);
      }
    }
  }

  lemma EnqueuedIsInv()
    ensures Inv(Enqueued())
  {
    EndedSnoc([], QueuedEvent);
    WritesSnoc([], Queued);
  }

  // ---- safety over every interleaving --------------------------------------

  lemma NextOutcome(w: World, m: Move, program: seq<Op>)
    requires Inv(w) && Possible(w, m)
    ensures IsTerminal(w.job.status) ==> Next(w, m, program).job.status == w.job.status
    ensures w.job.abortRequested ==> Next(w, m, program).job.abortRequested
  {
  }

  /** Whatever moves follow: a terminal status stays, and an abort request stays. */
  lemma {:induction false} OutcomeStays(w: World, moves: seq<Move>, program: seq<Op>)
    requires Inv(w) && AllPlain(program)
    ensures IsTerminal(w.job.status) ==> Play(w, moves, program).job.status == w.job.status
    ensures w.job.abortRequested ==> Play(w, moves, program).job.abortRequested
    decreases |moves|
  {
    if moves != [] {
      if Possible(w, moves[0]) {
        NextKeepsInv(w, moves[0], program);
        NextOutcome(w, moves[0], program);
        OutcomeStays(Next(w, moves[0], program), moves[1..], program);
      } else {
        OutcomeStays(w, moves[1..], program);
      }
    }
  }

  /** In any interleaving of a job from its creation, a terminal status is written at most
      once, and a worker that is done has written it and published it exactly once. */
  lemma {:induction false} EndsOnce(moves: seq<Move>, program: seq<Op>)
    requires AllPlain(program)
    ensures var w := Play(Enqueued(), moves, program);
            && TerminalWrites(w.written) == (if IsTerminal(w.job.status) then [w.job.status] else [])
            && (w.worker.Done? ==> IsTerminal(w.job.status) && EndedEvents(w.job.events) == [w.job.status])
  {
    EnqueuedIsInv();
    InvAlways(Enqueued(), moves, program);
  }

  /** The worker still has an abort check ahead of it, or has seen one. */
  predicate CheckAhead(w: World, program: seq<Op>) {
    match w.worker
    case Submitted => HasCheck(program)
    case Body(rest) => HasCheck(rest)
    case Raised(_) => true
    case _ => !w.job.status.Completed?
  }

  lemma CheckStays(rest: seq<Op>)
    requires HasCheck(rest)
    ensures rest[0].Check? || HasCheck(rest[1..])
  {
    var i :| 0 <= i < |rest| && rest[i].Check?;
    if i > 0 {
      assert rest[1..][i - 1] == rest[i];
    }
  }

  lemma CheckAheadNext(w: World, m: Move, program: seq<Op>)
    requires Inv(w) && Possible(w, m) && w.job.abortRequested && CheckAhead(w, program)
    ensures var v := Next(w, m, program); v.job.abortRequested && CheckAhead(v, program)
  {
    if m.Advance? {
      if w.worker.Submitted? {
        var i :| 0 <= i < |program| && program[i].Check?;
        assert ([Emit(RunningEvent), Stage("running")] + program)[i + 2] == program[i];
      } else if w.worker.Body? {
        CheckStays(w.worker.rest);
      }
    }
  }

  /** An abort that lands before the last check on the worker's path never ends completed. */
  lemma {:induction false} AbortIsHeeded(w: World, moves: seq<Move>, program: seq<Op>)
    requires Inv(w) && AllPlain(program) && w.job.abortRequested && CheckAhead(w, program)
    ensures !Play(w, moves, program).job.status.Completed?
    decreases |moves|
  {
    if moves != [] {
      if Possible(w, moves[0]) {
        NextKeepsInv(w, moves[0], program);
        CheckAheadNext(w, moves[0], program);
        AbortIsHeeded(Next(w, moves[0], program), moves[1..], program);
      } else {
        AbortIsHeeded(w, moves[1..], program);
      }
    }
  }

  /** With no check left, the worker's own steps complete the job, abort or not. */
  lemma {:induction false} TailCompletes(w: World, program: seq<Op>) returns (moves: seq<Move>)
    requires w.worker.Body? && !HasCheck(w.worker.rest)
    ensures var v := Play(w, moves, program);
            && v.job.status.Completed? && v.worker == Announcing(Completed)
            && v.unsent == w.unsent && v.unstaged == w.unstaged
    decreases |w.worker.rest|
  {
    var v := Next(w, Advance, program);
    if w.worker.rest == [] {
      moves := [Advance];
      assert Play(v, [], program) == v;
    } else {
      assert !w.worker.rest[0].Check?;
      assert forall i :: 0 <= i < |v.worker.rest| ==> v.worker.rest[i] == w.worker.rest[i + 1];
      var more := TailCompletes(v, program);
      moves := [Advance] + more;
      assert moves[1..] == more;
    }
  }

  /** A job not started goes the whole way to its end. */
  lemma {:induction false} StartCompletes(w: World, program: seq<Op>) returns (moves: seq<Move>)
    requires w.worker.Submitted? && !HasCheck(program)
    ensures Play(w, moves, program).job.status.Completed?
  {
    var v := Next(w, Advance, program);
    var rest := [Emit(RunningEvent), Stage("running")] + program;
    assert forall i :: 2 <= i < |rest| ==> rest[i] == program[i - 2];
    var more := TailCompletes(v, program);
    moves := [Advance] + more;
    assert moves[1..] == more;
  }

  /** Once an abort is requested, in any state of the worker: the job can still complete if and only
      if no abort check is ahead of the worker or has been seen by it. */
  lemma {:induction false} AbortedCanCompleteIff(w: World, program: seq<Op>)
    requires Inv(w) && AllPlain(program) && w.job.abortRequested
    ensures (exists moves :: Play(w, moves, program).job.status.Completed?) <==> !CheckAhead(w, program)
  {
    if CheckAhead(w, program) {
      forall moves ensures !Play(w, moves, program).job.status.Completed? {
        AbortIsHeeded(w, moves, program);
      }
    } else {
      var moves := CompletesAfterAll(w, program);
    }
  }

  lemma {:induction false} CompletesAfterAll(w: World, program: seq<Op>) returns (moves: seq<Move>)
    requires !CheckAhead(w, program)
    ensures Play(w, moves, program).job.status.Completed?
  {
    match w.worker
    case Submitted => moves := StartCompletes(w, program);
    case Body(_) => moves := TailCompletes(w, program);
    case _ => moves := [];
  }

  /** Where the checks end: scenario generation itself, the planning before an approval, and
      the publishing of generated tests all come after the last one. */
  lemma LastChecks(o: Options)
    ensures !HasCheck(ScenarioTail()) && !HasCheck(ApprovalTail()) && !HasCheck(WritingTail(o))
    ensures ScenarioTail() <= ScenarioPath()[|ScenarioPath()| - |ScenarioTail()|..]
    ensures ScenarioPath()[|ScenarioPath()| - |ScenarioTail()| - 1].Check?
    ensures var tail := if o.approvalRequired then ApprovalTail() else WritingTail(o);
            var path := TestCodePath(o);
            && |path| > |tail| && path[|path| - |tail|..] == tail && path[|path| - |tail| - 1].Check?
  {
    TailAfterCheck(ScenarioPath()[..|ScenarioPath()| - |ScenarioTail()| - 1], ScenarioTail());
    if o.approvalRequired {
      TailAfterCheck(PlanningPath(), ApprovalTail());
    } else {
      TailAfterCheck(PlanningPath() + [Check] + GeneratingPath(o), WritingTail(o));
    }
  }

  lemma TailAfterCheck(head: seq<Op>, tail: seq<Op>)
    ensures var path := head + ([Check] + tail);
            && |path| > |tail| && path[|path| - |tail|..] == tail && path[|path| - |tail| - 1].Check?
  {
  }

  /** When no abort call is still on its way out as the worker ends the job, the job comes to
      rest with the stage of its status. */
  lemma {:induction false} StageSettles(w: World, moves: seq<Move>, program: seq<Op>)
    requires Inv(w) && AllPlain(program) && HasEnded(w.worker) && w.unsent == w.unstaged == 0
    requires w.job.stage == StageOf(w.job.status)
    ensures Play(w, moves, program).job.stage == StageOf(w.job.status)
    decreases |moves|
  {
    if moves != [] {
      if Possible(w, moves[0]) {
        NextKeepsInv(w, moves[0], program);
        StageSettles(Next(w, moves[0], program), moves[1..], program);
      } else {
        StageSettles(w, moves[1..], program);
      }
    }
  }

  /** A job at rest under a stage that is not its status's. */
  predicate Mislabelled(w: World) {
    w.worker.Done? && w.unsent == w.unstaged == 0 && w.job.stage != StageOf(w.job.status)
  }

  /** Once the worker has ended the job, it can come to rest mislabelled if and only if an abort
      call is still on its way out, or it already has. */
  lemma {:induction false} MislabelledIff(w: World, program: seq<Op>)
    requires Inv(w) && AllPlain(program) && HasEnded(w.worker)
    ensures (exists moves :: Mislabelled(Play(w, moves, program))) <==> w.unsent + w.unstaged > 0 || Mislabelled(w)
  {
    if w.unsent + w.unstaged > 0 || Mislabelled(w) {
      var moves := Mislabel(w, program);
      assert exists m :: Mislabelled(Play(w, m, program)) by {
        assert Mislabelled(Play(w, moves, program));
      }
    } else {
      forall moves ensures !Mislabelled(Play(w, moves, program)) {
        NeverMislabelled(w, moves, program);
      }
    }
  }

  lemma {:induction false} NeverMislabelled(w: World, moves: seq<Move>, program: seq<Op>)
    requires Inv(w) && AllPlain(program) && HasEnded(w.worker) && w.unsent == w.unstaged == 0 && !Mislabelled(w)
    ensures !Mislabelled(Play(w, moves, program))
    decreases |moves|
  {
    if moves != [] {
      if Possible(w, moves[0]) {
        NextKeepsInv(w, moves[0], program);
        NeverMislabelled(Next(w, moves[0], program), moves[1..], program);
      } else {
        NeverMislabelled(w, moves[1..], program);
      }
    }
  }

  /** The worker's last steps first, then every abort call's event, then their stages. */
  lemma {:induction false} Mislabel(w: World, program: seq<Op>) returns (moves: seq<Move>)
    requires Inv(w) && AllPlain(program) && HasEnded(w.worker) && (w.unsent + w.unstaged > 0 || Mislabelled(w))
    ensures Mislabelled(Play(w, moves, program))
    decreases if w.worker.Announcing? then 2 else if w.worker.Labelling? then 1 else 0, w.unsent, w.unstaged
  {
    if Mislabelled(w) {
      moves := [];
    } else {
      var m := if !w.worker.Done? then Advance else if w.unsent > 0 then SendAborting else StageAborting;
      var next := Next(w, m, program);
      NextKeepsInv(w, m, program);
      var more := Mislabel(next, program);
      moves := [m] + more;
      assert moves[1..] == more;
    }
  }

  lemma {:induction false} PlayAppend(w: World, a: seq<Move>, b: seq<Move>, program: seq<Op>)
    ensures Play(w, a + b, program) == Play(Play(w, a, program), b, program)
    decreases |a|
  {
    if a == [] {
      assert a + b == b;
    } else {
      assert (a + b)[1..] == a[1..] + b;
      PlayAppend(if Possible(w, a[0]) then Next(w, a[0], program) else w, a[1..], b, program);
    }
  }

  /** Otherwise it need not: from any point past the last check, an abort call can be
      overtaken by the completion and label the completed job as aborting for good. */
  lemma LateAbortMislabels(w: World, program: seq<Op>) returns (moves: seq<Move>)
    requires Inv(w) && w.worker.Body? && !HasCheck(w.worker.rest)
    ensures var v := Play(w, moves, program);
            v.job.status.Completed? && v.worker.Done? && v.unsent == w.unsent && v.job.stage == "aborting"
  {
    var v := Next(Next(w, Abort, program), SendAborting, program);
    var middle := TailCompletes(v, program);
    var last := [Advance, Advance, StageAborting];
    PlayAppend(v, middle, last, program);
    MislabelledAtRest(Play(v, middle, program), program);
    moves := [Abort, SendAborting] + (middle + last);
    assert moves[1..] == [SendAborting] + (middle + last) && moves[1..][1..] == middle + last;
  }

  lemma {:induction false} MislabelledAtRest(w: World, program: seq<Op>)
    requires w.job.status.Completed? && w.worker == Announcing(Completed) && w.unstaged > 0
    ensures var v := Play(w, [Advance, Advance, StageAborting], program);
            v.job.status.Completed? && v.worker.Done? && v.unsent == w.unsent && v.job.stage == "aborting"
  {
    var sent := Next(w, Advance, program);
    var staged := Next(sent, Advance, program);
    var late := Next(staged, StageAborting, program);
    assert Play(late, [], program) == late;
    assert Play(staged, [StageAborting], program) == late;
    assert Play(sent, [Advance, StageAborting], program) == late;
  }

  /** Neither path publishes a terminal event itself. */
  lemma PathsArePlain(o: Options)
    ensures AllPlain(ScenarioPath()) && AllPlain(TestCodePath(o))
  {
    assert AllPlain(ScenarioTail()) && AllPlain(PlanningPath()) && AllPlain(PlanningTail());
    PlainAppend([Check], ScenarioTail());
    PlainAppend(PlanningTail(), Publish("approval_required") + [Work]);
    PlainAppend([Check], ApprovalTail());
    PlainAppend(PlanningPath(), [Check] + ApprovalTail());
    GeneratingIsPlain(o);
    assert AllPlain(WritingTail(o));
    PlainAppend(PlanningPath() + [Check], GeneratingPath(o));
    PlainAppend(PlanningPath() + [Check] + GeneratingPath(o), [Check] + WritingTail(o));
  }

  lemma PlainAppend(a: seq<Op>, b: seq<Op>)
    ensures AllPlain(a + b) <==> AllPlain(a) && AllPlain(b)
  {
    assert forall i :: 0 <= i < |a| ==> (a + b)[i] == a[i];
    assert forall i :: 0 <= i < |b| ==> (a + b)[|a| + i] == b[i];
  }

  lemma GeneratingIsPlain(o: Options)
    ensures AllPlain(GeneratingPath(o))
  {
    assert AllPlain(DiscoveringPath()) && AllPlain(StrategyPath(o)) && AllPlain(PlacementPath(o));
    PlainAppend(DiscoveringPath(), StrategyPath(o));
    PlainAppend(DiscoveringPath() + StrategyPath(o), PlacementPath(o));
  }
}
