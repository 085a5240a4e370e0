/** What the page of `repo-agent/preview/app.js` shows after the events of a run: each part of its
    state, told from the log itself. */
module PageContent {
  import opened Wrappers
  import opened RunEvents
  import opened RunEventProofs
  import opened RunClient

  /** The page once it has folded these events. */
  function Shown(log: seq<Event>): View {
    FoldLog(Reduce, log)
  }

  lemma {:induction false} ShownSnoc(log: seq<Event>, e: Event)
    ensures Shown(log + [e]) == Reduce(Shown(log).(lastSequence := e.sequence), e.kind, e.payload)
  {
    assert (log + [e])[..|log|] == log;
  }

  /** The last event of one of these kinds. */
  function LastOf(log: seq<Event>, kinds: set<EventType>): (r: Option<Event>)
    ensures r == None ==> forall i :: 0 <= i < |log| ==> log[i].kind !in kinds
    ensures r.Some? ==> exists i :: 0 <= i < |log| && log[i] == r.value && IsLastOf(log, kinds, i)
  {
    if log == [] then None
    else
      var n := |log| - 1;
      if log[n].kind in kinds then assert IsLastOf(log, kinds, n); Some(log[n])
      else
        var r := LastOf(log[..n], kinds);
        assert r.Some? ==> exists i :: 0 <= i < n && log[i] == r.value && IsLastOf(log, kinds, i) by {
          if r.Some? {
            var i :| 0 <= i < n && log[..n][i] == r.value && IsLastOf(log[..n], kinds, i);
            assert log[i] == r.value && IsLastOf(log, kinds, i);
          }
        }
        assert forall i :: 0 <= i < n ==> log[..n][i] == log[i];
        r
  }

  predicate IsLastOf(log: seq<Event>, kinds: set<EventType>, i: nat)
    requires i < |log|
  {
    log[i].kind in kinds && forall j :: i < j < |log| ==> log[j].kind !in kinds
  }

  lemma {:induction false} LastSnoc(log: seq<Event>, e: Event, kinds: set<EventType>)
    ensures LastOf(log + [e], kinds) == if e.kind in kinds then Some(e) else LastOf(log, kinds)
  {
    assert (log + [e])[..|log|] == log;
  }

  // ---- plan, validation, stage, banner, end --------------------------------

  const PlanKinds: set<EventType> := {PlanCreated, PlanUpdated}
  const ResultKinds: set<EventType> := {ValidationCompleted}
  const StageKinds: set<EventType> := {RunStarted, ValidationStarted, RunCompleted, RunFailed}
  const BannerKinds: set<EventType> := {ReauthenticationRequired, Reauthenticated, RunFailed}

  function FieldOf(e: Option<Event>, name: string): Option<Value> {
    if e.Some? then Field(e.value.payload, name) else None
  }

  function StageAfter(e: Option<Event>): Option<string> {
    if e.None? then None
    else match e.value.kind
      case RunStarted => Some("running")
      case ValidationStarted => Some("validating")
      case RunCompleted => Some("completed")
      case _ => Some("failed")
  }

  function BannerAfter(e: Option<Event>): Option<Label> {
    if e.None? then None
    else match e.value.kind
      case ReauthenticationRequired => Some(Label("AWS session expired.", None))
      case RunFailed => Some(Label("Run failed: ", Field(e.value.payload, "error")))
      case _ => None
  }

  /** The page shows the plan of the last plan event, the results of the last validation, the stage
      and the banner that the last event to set them calls for, and has finished exactly when the
      run's end has been told. */
  ghost predicate ShowsProgress(v: View, log: seq<Event>) {
    && v.plan == FieldOf(LastOf(log, PlanKinds), "plan")
    && v.validation == FieldOf(LastOf(log, ResultKinds), "results")
    && v.stage == StageAfter(LastOf(log, StageKinds))
    && v.banner == BannerAfter(LastOf(log, BannerKinds))
    && (v.finished <==> !NoTerminal(log))
  }

  /** What one event does to the plan, the results, the stage, the banner and the end. */
  ghost predicate MovesProgress(v: View, next: View, e: Event) {
    && next.plan == (if e.kind in PlanKinds then Field(e.payload, "plan") else v.plan)
    && next.validation == (if e.kind in ResultKinds then Field(e.payload, "results") else v.validation)
    && next.stage == (if e.kind in StageKinds then StageAfter(Some(e)) else v.stage)
    && next.banner == (if e.kind in BannerKinds then BannerAfter(Some(e)) else v.banner)
    && next.finished == (v.finished || IsTerminal(e.kind))
  }

  lemma ReduceMovesPlan(v: View, e: Event)
    ensures var next := Reduce(v, e.kind, e.payload);
            && next.plan == (if e.kind in PlanKinds then Field(e.payload, "plan") else v.plan)
            && next.validation == (if e.kind in ResultKinds then Field(e.payload, "results") else v.validation)
  {
    match e.kind
    case _ =>
  }

  lemma ReduceMovesStage(v: View, e: Event)
    ensures Reduce(v, e.kind, e.payload).stage == if e.kind in StageKinds then StageAfter(Some(e)) else v.stage
  {
    match e.kind
    case _ =>
  }

  lemma ReduceMovesBanner(v: View, e: Event)
    ensures Reduce(v, e.kind, e.payload).banner == if e.kind in BannerKinds then BannerAfter(Some(e)) else v.banner
  {
    match e.kind
    case _ =>
  }

  lemma ReduceFinishes(v: View, e: Event)
    ensures Reduce(v, e.kind, e.payload).finished == (v.finished || IsTerminal(e.kind))
  {
    match e.kind
    case _ =>
  }

  lemma ProgressSnoc(v: View, next: View, log: seq<Event>, e: Event)
    requires ShowsProgress(v, log) && MovesProgress(v, next, e)
    ensures ShowsProgress(next, log + [e])
  {
    LastSnoc(log, e, PlanKinds);
    LastSnoc(log, e, ResultKinds);
    LastSnoc(log, e, StageKinds);
    LastSnoc(log, e, BannerKinds);
    TerminalSnoc(log, e);
  }

  lemma {:induction false} ProgressIsShown(log: seq<Event>)
    ensures ShowsProgress(Shown(log), log)
    decreases |log|
  {
    if log != [] {
      var init, e := log[..|log| - 1], log[|log| - 1];
      ProgressIsShown(init);
      assert log == init + [e];
      ShownSnoc(init, e);
      var v := Shown(init).(lastSequence := e.sequence);
      ReduceMovesPlan(v, e);
      ReduceMovesStage(v, e);
      ReduceMovesBanner(v, e);
      ReduceFinishes(v, e);
      ProgressSnoc(v, Shown(log), init, e);
    }
  }

  lemma TerminalSnoc(log: seq<Event>, e: Event)
    ensures NoTerminal(log + [e]) <==> NoTerminal(log) && !IsTerminal(e.kind)
  {
    assert (log + [e])[|log|] == e;
    assert forall i :: 0 <= i < |log| ==> (log + [e])[i] == log[i];
  }

  // ---- counters ------------------------------------------------------------

  /** A completion that carries a number under this name. */
  predicate Sets(e: Event, name: string) {
    e.kind.RunCompleted? && name in e.payload && e.payload[name].Number?
  }

  /** One past the place of the last such completion, or zero. */
  function SetUpTo(log: seq<Event>, name: string): (k: nat)
    ensures k <= |log| && (k > 0 ==> Sets(log[k - 1], name))
    ensures forall i :: k <= i < |log| ==> !Sets(log[i], name)
  {
    if log == [] then 0
    else if Sets(log[|log| - 1], name) then |log|
    else SetUpTo(log[..|log| - 1], name)
  }

  function NumberSet(log: seq<Event>, name: string): int {
    var k := SetUpTo(log, name);
    if k == 0 then 0 else log[k - 1].payload[name].number
  }

  predicate IsToolEnd(e: Event) {
    e.kind.ToolCompleted? || e.kind.ToolFailed?
  }

  function ToolEnds(log: seq<Event>): nat {
    if log == [] then 0
    else ToolEnds(log[..|log| - 1]) + if IsToolEnd(log[|log| - 1]) then 1 else 0
  }

  /** A counter is the number the last completion gave it, if any did; the tool counter has grown
      by one for every tool call that ended since. */
  ghost predicate ShowsCounters(v: View, log: seq<Event>) {
    && v.filesRead == NumberSet(log, "files_read")
    && v.mods == NumberSet(log, "files_modified")
    && v.tools == NumberSet(log, "tool_calls") + ToolEnds(log[SetUpTo(log, "tool_calls")..])
  }

  lemma {:induction false} SetSnoc(log: seq<Event>, e: Event, name: string)
    ensures SetUpTo(log + [e], name) == if Sets(e, name) then |log| + 1 else SetUpTo(log, name)
    ensures NumberSet(log + [e], name) == if Sets(e, name) then e.payload[name].number else NumberSet(log, name)
  {
    assert (log + [e])[..|log|] == log;
  }

  lemma {:induction false} ToolEndsSnoc(log: seq<Event>, e: Event)
    ensures ToolEnds(log + [e]) == ToolEnds(log) + if IsToolEnd(e) then 1 else 0
  {
    assert (log + [e])[..|log|] == log;
  }

  lemma {:induction false} CountersAreShown(log: seq<Event>)
    ensures ShowsCounters(Shown(log), log)
    decreases |log|
  {
    if log != [] {
      var init, e := log[..|log| - 1], log[|log| - 1];
      CountersAreShown(init);
      assert log == init + [e];
      ShownSnoc(init, e);
      var v := Shown(init).(lastSequence := e.sequence);
      ReduceMovesCounters(v, e);
      CountersSnoc(v, Shown(log), init, e);
    }
  }

  /** What one event does to the counters. */
  ghost predicate MovesCounters(v: View, next: View, e: Event) {
    && next.filesRead == (if Sets(e, "files_read") then e.payload["files_read"].number else v.filesRead)
    && next.mods == (if Sets(e, "files_modified") then e.payload["files_modified"].number else v.mods)
    && next.tools == (if Sets(e, "tool_calls") then e.payload["tool_calls"].number
                      else v.tools + if IsToolEnd(e) then 1 else 0)
  }

  lemma ReduceMovesCounters(v: View, e: Event)
    ensures MovesCounters(v, Reduce(v, e.kind, e.payload), e)
  {
    match e.kind
    case _ =>
  }

  lemma CountersSnoc(v: View, next: View, log: seq<Event>, e: Event)
    requires ShowsCounters(v, log) && MovesCounters(v, next, e)
    ensures ShowsCounters(next, log + [e])
  {
    SetSnoc(log, e, "files_read");
    SetSnoc(log, e, "files_modified");
    SetSnoc(log, e, "tool_calls");
    var k := SetUpTo(log, "tool_calls");
    if Sets(e, "tool_calls") {
      assert (log + [e])[|log| + 1..] == [];
    } else {
      assert (log + [e])[k..] == log[k..] + [e];
      ToolEndsSnoc(log[k..], e);
    }
  }

  // ---- what was done lately ------------------------------------------------

  /** What the page says of an event in its list of actions. */
  function Said(e: Event): Option<Label> {
    match e.kind
    case RunStarted => Some(Label("Run started", None))
    case PlanCreated => Some(Label("Plan created", None))
    case ToolStarted => Some(Label("Started ", Field(e.payload, "tool_name")))
    case ToolCompleted => Some(ToolSaid(e.payload))
    case ToolFailed => Some(ToolSaid(e.payload))
    case ValidationStarted => Some(Label("Validation started", None))
    case ValidationCompleted => Some(Label("Validation completed", None))
    case ConversationCompacted => Some(Label("Older context compacted", None))
    case RunCompleted => Some(Label("Run completed", None))
    case RunCancelled => Some(Label("Run cancelled", None))
    case _ => None
  }

  /** Marked unless it succeeded; its summary, or without one the tool's name. */
  function ToolSaid(data: Payload): Label {
    Label(if "success" in data && data["success"] == Flag(true) then "" else "Failed ",
          if "summary" in data && data["summary"] != Text("") then Some(data["summary"]) else Field(data, "tool_name"))
  }

  /** A payload as the server writes it for a tool: a flag for success, and a text, if anything,
      for the summary. */
  predicate ToolPayload(data: Payload) {
    && ("success" in data ==> data["success"].Flag?)
    && ("summary" in data ==> data["summary"].Text?)
  }

  /** Everything said, newest first. */
  function AllSaid(log: seq<Event>): seq<Label> {
    if log == [] then []
    else
      var said := Said(log[|log| - 1]);
      (if said.Some? then [said.value] else []) + AllSaid(log[..|log| - 1])
  }

  predicate ToolPayloads(log: seq<Event>) {
    forall i :: 0 <= i < |log| && IsToolEnd(log[i]) ==> ToolPayload(log[i].payload)
  }

  /** The list of actions holds the last eight things said, newest first. */
  predicate ShowsActions(v: View, log: seq<Event>) {
    ToolPayloads(log) ==> v.actions == FirstEight(AllSaid(log))
  }

  lemma {:induction false} ActionsAreShown(log: seq<Event>)
    ensures ShowsActions(Shown(log), log)
    decreases |log|
  {
    if log != [] && ToolPayloads(log) {
      var init, e := log[..|log| - 1], log[|log| - 1];
      assert ToolPayloads(init) by {
        assert forall i :: 0 <= i < |init| ==> init[i] == log[i];
      }
      ActionsAreShown(init);
      assert log == init + [e];
      ShownSnoc(init, e);
      ReduceMovesActions(Shown(init).(lastSequence := e.sequence), e);
    }
  }

  lemma CountToolSays(v: View, data: Payload)
    requires ToolPayload(data)
    ensures CountTool(v, data).actions == FirstEight([ToolSaid(data)] + v.actions)
  {
  }

  lemma SaysOther(v: View, e: Event)
    requires !IsToolEnd(e)
    ensures Reduce(v, e.kind, e.payload).actions
         == match Said(e)
            case None => v.actions
            case Some(entry) => FirstEight([entry] + v.actions)
  {
    match e.kind
    case _ =>
  }

  lemma ReduceMovesActions(v: View, e: Event)
    requires IsToolEnd(e) ==> ToolPayload(e.payload)
    ensures Reduce(v, e.kind, e.payload).actions
         == match Said(e)
            case None => v.actions
            case Some(entry) => FirstEight([entry] + v.actions)
  {
    if IsToolEnd(e) {
      CountToolSays(v, e.payload);
    } else {
      SaysOther(v, e);
    }
  }

  function FirstEight(all: seq<Label>): seq<Label> {
    if |all| > 8 then all[..8] else all
  }

  // ---- the streamed answer -------------------------------------------------

  predicate Starts(e: Event, id: Option<Value>) {
    e.kind.ResponseBatchStarted? && Field(e.payload, "batch_id") == id
  }

  /** Where the batch with this id was first started, or how many events there are. */
  function FirstStart(log: seq<Event>, id: Option<Value>): (k: nat)
    ensures k <= |log| && (k < |log| ==> Starts(log[k], id))
    ensures forall j :: 0 <= j < k ==> !Starts(log[j], id)
  {
    if log == [] then 0
    else
      var n := |log| - 1;
      var k := FirstStart(log[..n], id);
      assert forall j :: 0 <= j < n ==> log[..n][j] == log[j];
      if k < n || Starts(log[n], id) then k else n + 1
  }

  predicate IsDelta(e: Event, id: Option<Value>) {
    e.kind.ResponseDelta? && Field(e.payload, "batch_id") == id
  }

  /** The texts streamed for a batch by these events, in order. */
  function DeltasOf(events: seq<Event>, id: Option<Value>): seq<Option<Value>> {
    if events == [] then []
    else
      var e := events[|events| - 1];
      DeltasOf(events[..|events| - 1], id) + if IsDelta(e, id) then [Field(e.payload, "delta")] else []
  }

  /** The batch shown at `i` is one the log starts, with what was streamed for it since. */
  ghost predicate ShowsBatch(batch: BatchView, log: seq<Event>) {
    var k := FirstStart(log, batch.id);
    k < |log| && batch.deltas == DeltasOf(log[k + 1..], batch.id)
  }

  /** One batch for each id the log starts, in the order of their first starts. */
  ghost predicate ShowsBatches(batches: seq<BatchView>, log: seq<Event>) {
    && (forall i :: 0 <= i < |batches| ==> ShowsBatch(batches[i], log))
    && InOrder(batches, log)
    && (forall id :: FirstStart(log, id) < |log| ==> Holds(batches, id))
  }

  ghost predicate InOrder(batches: seq<BatchView>, log: seq<Event>) {
    Rising(FirstStarts(batches, log))
  }

  predicate Rising(places: seq<nat>) {
    forall i, j :: 0 <= i < j < |places| ==> places[i] < places[j]
  }

  /** Where each batch was first started. */
  function FirstStarts(batches: seq<BatchView>, log: seq<Event>): seq<nat> {
    seq(|batches|, i requires 0 <= i < |batches| => FirstStart(log, batches[i].id))
  }

  ghost predicate Holds(batches: seq<BatchView>, id: Option<Value>) {
    exists i :: 0 <= i < |batches| && batches[i].id == id
  }

  lemma {:induction false} FirstStartSnoc(log: seq<Event>, e: Event, id: Option<Value>)
    ensures FirstStart(log + [e], id)
         == if FirstStart(log, id) < |log| || Starts(e, id) then FirstStart(log, id) else |log| + 1
  {
    assert (log + [e])[..|log|] == log;
  }

  lemma {:induction false} DeltasSnoc(events: seq<Event>, e: Event, id: Option<Value>)
    ensures DeltasOf(events + [e], id)
         == DeltasOf(events, id) + if IsDelta(e, id) then [Field(e.payload, "delta")] else []
  {
    assert (events + [e])[..|events|] == events;
  }

  function Grown(batch: BatchView, e: Event): BatchView {
    if IsDelta(e, batch.id) then batch.(deltas := batch.deltas + [Field(e.payload, "delta")]) else batch
  }

  /** A batch keeps being shown as one event more comes, with its text if that is for it. */
  lemma {:induction false} BatchGrows(batch: BatchView, log: seq<Event>, e: Event)
    requires ShowsBatch(batch, log)
    ensures ShowsBatch(Grown(batch, e), log + [e])
    ensures FirstStart(log + [e], batch.id) == FirstStart(log, batch.id)
  {
    var k := FirstStart(log, batch.id);
    FirstStartSnoc(log, e, batch.id);
    assert (log + [e])[k + 1..] == log[k + 1..] + [e];
    DeltasSnoc(log[k + 1..], e, batch.id);
  }

  /** What the page does to its batches on an event. */
  function NextBatches(batches: seq<BatchView>, e: Event): seq<BatchView> {
    if e.kind.ResponseBatchStarted? then EnsureBatch(Fresh.(batches := batches), e.payload).batches
    else if e.kind.ResponseDelta? then AppendDelta(Fresh.(batches := batches), e.payload).batches
    else batches
  }

  lemma NextBatchesIs(v: View, e: Event)
    ensures Reduce(v, e.kind, e.payload).batches == NextBatches(v.batches, e)
  {
  }

  /** A start of a batch already shown changes none. */
  lemma {:induction false} AgainKeepsBatches(batches: seq<BatchView>, log: seq<Event>, e: Event)
    requires ShowsBatches(batches, log) && e.kind.ResponseBatchStarted?
    requires Holds(batches, Field(e.payload, "batch_id"))
    ensures ShowsBatches(batches, log + [e])
  {
    OthersGrow(batches, log, e);
    assert FirstStarts(batches, log + [e]) == FirstStarts(batches, log);
    StillHeld(batches, batches, log, e);
  }

  /** The first start of a batch puts it, empty, behind the others. */
  lemma {:induction false} StartKeepsBatches(batches: seq<BatchView>, log: seq<Event>, e: Event, id: Option<Value>)
    requires ShowsBatches(batches, log) && Starts(e, id) && !Holds(batches, id)
    ensures ShowsBatches(batches + [BatchView(id, [])], log + [e])
  {
    var next := batches + [BatchView(id, [])];
    OthersGrow(batches, log, e);
    NewBatch(batches, log, e, id);
    assert next[|batches|].id == id;
    assert FirstStarts(next, log + [e]) == FirstStarts(batches, log) + [|log|];
    StillHeld(batches, next, log, e);
  }

  /** An event that is no text for any batch leaves all of them shown. */
  lemma {:induction false} OthersGrow(batches: seq<BatchView>, log: seq<Event>, e: Event)
    requires ShowsBatches(batches, log) && !e.kind.ResponseDelta?
    ensures forall i :: 0 <= i < |batches| ==> ShowsBatch(batches[i], log + [e])
    ensures forall i :: 0 <= i < |batches| ==>
              FirstStart(log + [e], batches[i].id) == FirstStart(log, batches[i].id)
  {
    forall i | 0 <= i < |batches|
      ensures ShowsBatch(batches[i], log + [e])
      ensures FirstStart(log + [e], batches[i].id) == FirstStart(log, batches[i].id)
    {
      BatchGrows(batches[i], log, e);
    }
  }

  lemma {:induction false} NewBatch(batches: seq<BatchView>, log: seq<Event>, e: Event, id: Option<Value>)
    requires ShowsBatches(batches, log) && Starts(e, id) && !Holds(batches, id)
    ensures ShowsBatch(BatchView(id, []), log + [e]) && FirstStart(log + [e], id) == |log|
  {
    FirstStartSnoc(log, e, id);
    assert (log + [e])[|log| + 1..] == [];
  }

  /** Every id the longer log starts is held. */
  lemma {:induction false} StillHeld(batches: seq<BatchView>, next: seq<BatchView>, log: seq<Event>, e: Event)
    requires ShowsBatches(batches, log) && |batches| <= |next|
    requires forall i :: 0 <= i < |batches| ==> next[i].id == batches[i].id
    requires e.kind.ResponseBatchStarted? ==> Holds(next, Field(e.payload, "batch_id"))
    ensures forall id :: FirstStart(log + [e], id) < |log + [e]| ==> Holds(next, id)
  {
    forall id | FirstStart(log + [e], id) < |log + [e]| ensures Holds(next, id) {
      FirstStartSnoc(log, e, id);
      if FirstStart(log, id) < |log| {
        var i :| 0 <= i < |batches| && batches[i].id == id;
        assert next[i].id == id;
      }
    }
  }

  /** A text goes to the one batch that has its id. */
  lemma {:induction false} DeltaLands(batches: seq<BatchView>, log: seq<Event>, e: Event, j: nat)
    requires InOrder(batches, log) && e.kind.ResponseDelta? && j < |batches|
    ensures |NextBatches(batches, e)| == |batches| && NextBatches(batches, e)[j] == Grown(batches[j], e)
  {
    var i := FindBatch(batches, Field(e.payload, "batch_id"));
    var starts := FirstStarts(batches, log);
    assert i < |batches| && batches[i].id == batches[j].id ==> starts[i] == starts[j];
  }

  lemma {:induction false} DeltaKeepsBatches(batches: seq<BatchView>, next: seq<BatchView>, log: seq<Event>, e: Event)
    requires ShowsBatches(batches, log) && e.kind.ResponseDelta?
    requires |next| == |batches| && forall i :: 0 <= i < |batches| ==> next[i] == Grown(batches[i], e)
    ensures ShowsBatches(next, log + [e])
  {
    forall i | 0 <= i < |next|
      ensures ShowsBatch(next[i], log + [e])
      ensures FirstStart(log + [e], next[i].id) == FirstStart(log, batches[i].id)
    {
      BatchGrows(batches[i], log, e);
    }
    assert FirstStarts(next, log + [e]) == FirstStarts(batches, log);
    StillHeld(batches, next, log, e);
  }

  /** After any events the page shows one batch for each id started, in the order of their first
      starts, each with exactly the texts streamed for it since, in order. */
  lemma {:induction false} BatchesAreShown(log: seq<Event>)
    ensures ShowsBatches(Shown(log).batches, log)
    decreases |log|
  {
    if log != [] {
      var init, e := log[..|log| - 1], log[|log| - 1];
      var batches := Shown(init).batches;
      BatchesAreShown(init);
      assert log == init + [e];
      ShownSnoc(init, e);
      NextBatchesIs(Shown(init).(lastSequence := e.sequence), e);
      if e.kind.ResponseBatchStarted? {
        var id := Field(e.payload, "batch_id");
        var i := FindBatch(batches, id);
        assert Holds(batches, id) <==> i < |batches|;
        if Holds(batches, id) {
          AgainKeepsBatches(batches, init, e);
        } else {
          StartKeepsBatches(batches, init, e, id);
        }
      } else if e.kind.ResponseDelta? {
        var next := NextBatches(batches, e);
        forall j | 0 <= j < |batches| ensures next[j] == Grown(batches[j], e) {
          DeltaLands(batches, init, e, j);
        }
        DeltaKeepsBatches(batches, next, init, e);
      } else {
        OthersGrow(batches, init, e);
        assert FirstStarts(batches, log) == FirstStarts(batches, init);
        StillHeld(batches, batches, init, e);
      }
    }
  }

  /** End to end: over any faithful connections the page shows all this of the log prefix up to its
      last sequence. */
  lemma {:induction false} PageShowsLog(s: System, connections: seq<Connection>)
    requires Reachable(s)
    requires forall i :: 0 <= i < |connections| ==> Served(s, connections[i])
    requires Faithful(Reduce, s, connections)
    ensures var page := Page(Reduce, s, connections);
            && 0 <= page.lastSequence <= |s.ch.log|
            && var seen := s.ch.log[..page.lastSequence];
               && ShowsProgress(page, seen) && ShowsCounters(page, seen)
               && ShowsActions(page, seen) && ShowsBatches(page.batches, seen)
  {
    PageIsOneFold(s, connections);
    var seen := s.ch.log[..Page(Reduce, s, connections).lastSequence];
    ProgressIsShown(seen);
    CountersAreShown(seen);
    ActionsAreShown(seen);
    BatchesAreShown(seen);
  }
}
