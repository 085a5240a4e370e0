/** Model of the client reducer in `repo-agent/preview/app.js` (`handleEvent`, `connect`)
    and its place at the end of a run's streams. The connection light and the wall-clock
    fields are not part of the state. */
module RunClient {
  import opened Wrappers
  import opened RunEvents
  import opened RunEventProofs

  /** A line of text built from a fixed part and a value of the event. */
  datatype Label = Label(fixed: string, value: Option<Value>)

  /** An entry of `state.batches`; its markdown is the deltas appended in order. */
  datatype BatchView = BatchView(id: Option<Value>, deltas: seq<Option<Value>>)

  datatype View = View(
    lastSequence: int, filesRead: int, tools: int, mods: int,
    batches: seq<BatchView>, actions: seq<Label>, stage: Option<string>,
    plan: Option<Value>, validation: Option<Value>, banner: Option<Label>, finished: bool)

  const Fresh: View := View(0, 0, 0, 0, [], [], None, None, None, None, false)

  function Field(data: Payload, name: string): Option<Value> {
    if name in data then Some(data[name]) else None
  }

  predicate Truthy(v: Option<Value>) {
    match v
    case None => false
    case Some(Text(t)) => t != ""
    case Some(Number(n)) => n != 0
    case Some(Flag(b)) => b
    case Some(Other(json)) => json != "null"
  }

  /** `data[name] ?? current` for a counter. */
  function CounterOr(data: Payload, name: string, current: int): int {
    match Field(data, name)
    case Some(Number(n)) => n
    case _ => current
  }

  /** `pushAction`: newest first, at most eight. */
  function PushAction(v: View, entry: Label): View {
    var all := [entry] + v.actions;
    v.(actions := if |all| > 8 then all[..8] else all)
  }

  function Say(v: View, text: string): View {
    PushAction(v, Label(text, None))
  }

  /** The index of the entry with this id, or how many entries there are. */
  function FindBatch(batches: seq<BatchView>, id: Option<Value>): (i: nat)
    ensures i <= |batches|
    ensures i < |batches| ==> batches[i].id == id
    ensures forall k :: 0 <= k < i ==> batches[k].id != id
  {
    if batches == [] || batches[0].id == id then 0 else 1 + FindBatch(batches[1..], id)
  }

  function EnsureBatch(v: View, data: Payload): View {
    var id := Field(data, "batch_id");
    if FindBatch(v.batches, id) < |v.batches| then v else v.(batches := v.batches + [BatchView(id, [])])
  }

  function AppendDelta(v: View, data: Payload): View {
    var i := FindBatch(v.batches, Field(data, "batch_id"));
    if i == |v.batches| then v
    else v.(batches := v.batches[i := v.batches[i].(deltas := v.batches[i].deltas + [Field(data, "delta")])])
  }

  function CountTool(v: View, data: Payload): View {
    var summary := Field(data, "summary");
    PushAction(v.(tools := v.tools + 1),
               Label(if Truthy(Field(data, "success")) then "" else "Failed ",
                     if Truthy(summary) then summary else Field(data, "tool_name")))
  }

  /** The `switch` of `handleEvent`. */
  function Reduce(v: View, kind: EventType, data: Payload): View {
    match kind
    case RunStarted => Say(v, "Run started").(stage := Some("running"))
    case PlanCreated => Say(v.(plan := Field(data, "plan")), "Plan created")
    case PlanUpdated => v.(plan := Field(data, "plan"))
    case ToolStarted => PushAction(v, Label("Started ", Field(data, "tool_name")))
    case ToolCompleted => CountTool(v, data)
    case ToolFailed => CountTool(v, data)
    case ObservationCreated => v
    case ValidationStarted => Say(v.(stage := Some("validating")), "Validation started")
    case ValidationCompleted => Say(v.(validation := Field(data, "results")), "Validation completed")
    case ReauthenticationRequired => v.(banner := Some(Label("AWS session expired.", None)))
    case Reauthenticated => v.(banner := None)
    case ConversationCompacted => Say(v, "Older context compacted")
    case ResponseBatchStarted => EnsureBatch(v, data)
    case ResponseDelta => AppendDelta(v, data)
    case ResponseBatchCompleted => v
    case RunCompleted =>
      Say(v.(stage := Some("completed"), filesRead := CounterOr(data, "files_read", v.filesRead),
             tools := CounterOr(data, "tool_calls", v.tools), mods := CounterOr(data, "files_modified", v.mods)),
          "Run completed").(finished := true)
    case RunFailed =>
      v.(stage := Some("failed"), banner := Some(Label("Run failed: ", Field(data, "error"))), finished := true)
    case RunCancelled => Say(v, "Run cancelled").(finished := true)
  }

  /** What a reducer does with one event. The theorems below hold for any that leaves the
      last sequence to `handleEvent`, and `Reduce` is one. */
  type Reducer = (View, EventType, Payload) -> View

  ghost predicate KeepsSequence(r: Reducer) {
    forall v, kind, data :: r(v, kind, data).lastSequence == v.lastSequence
  }

  lemma ReduceKeepsSequence()
    ensures KeepsSequence(Reduce)
  {
  }

  /** `handleEvent`: events and heartbeats both carry a sequence, and both are dropped
      when it is not above the last one seen. */
  function Handle(r: Reducer, v: View, f: Frame): View {
    match f
    case EventFrame(e) =>
      if e.sequence <= v.lastSequence then v
      else r(v.(lastSequence := e.sequence), e.kind, e.payload)
    case HeartbeatFrame(sequence) =>
      if sequence <= v.lastSequence then v else v.(lastSequence := sequence)
  }

  /** The page's `state` object. */
  class Client {
    var view: View

    constructor ()
      ensures view == Fresh
    {
      view := Fresh;
    }

    method HandleEvent(f: Frame)
      modifies this
      ensures view == Handle(Reduce, old(view), f)
    {
      var sequence := if f.EventFrame? then f.event.sequence else f.sequence;
      if sequence <= view.lastSequence {
        return;
      }
      view := view.(lastSequence := sequence);
      if f.EventFrame? {
        view := Reduce(view, f.event.kind, f.event.payload);
      }
    }
  }

  /** One connection's frames, in the order the browser dispatches them. */
  function Receive(r: Reducer, v: View, frames: seq<Frame>): View {
    if frames == [] then v
    else Handle(r, Receive(r, v, frames[..|frames| - 1]), frames[|frames| - 1])
  }

  // ---- the client folds the log --------------------------------------------

  /** The reference meaning: every stored event applied once, in order. */
  function FoldLog(r: Reducer, log: seq<Event>): View {
    if log == [] then Fresh
    else
      var e := log[|log| - 1];
      r(FoldLog(r, log[..|log| - 1]).(lastSequence := e.sequence), e.kind, e.payload)
  }

  lemma {:induction false} FoldSequence(r: Reducer, log: seq<Event>)
    requires KeepsSequence(r) && Numbered(log)
    ensures FoldLog(r, log).lastSequence == |log|
  {
    if log != [] {
      var e := log[|log| - 1];
      var before := FoldLog(r, log[..|log| - 1]).(lastSequence := e.sequence);
      assert r(before, e.kind, e.payload).lastSequence == before.lastSequence;
    }
  }

  lemma GapFreePrefix(log: seq<Event>, base: nat, frames: seq<Frame>, n: nat)
    requires n <= |frames| && GapFree(log, base, frames)
    ensures GapFree(log, base, frames[..n])
    decreases |frames| - n
  {
    if n < |frames| {
      GapFreePrefix(log, base, frames, n + 1);
      var longer := frames[..n + 1];
      assert longer == frames[..n] + [frames[n]];
      SentAppend(frames[..n], frames[n]);
      var k := |Sent(frames[..n])|;
      assert Sent(frames[..n]) == Sent(longer)[..k];
      forall i | 0 <= i < n ensures InStep(frames[..n], base, i) {
        assert InStep(longer, base, i);
        assert frames[..n][..i] == longer[..i] && frames[..n][i] == longer[i];
      }
    } else {
      assert frames[..n] == frames;
    }
  }

  function Later(a: int, b: int): int {
    if a < b then b else a
  }

  /** An event at or below the fold's end changes nothing; the next one extends the fold. */
  lemma EventFolds(r: Reducer, log: seq<Event>, at: nat, reached: nat)
    requires KeepsSequence(r) && Numbered(log) && at <= reached <= |log| && at < |log|
    ensures Handle(r, FoldLog(r, log[..reached]), EventFrame(log[at])) == FoldLog(r, log[..Later(reached, at + 1)])
  {
    FoldSequence(r, log[..reached]);
    if at == reached {
      var longer := log[..at + 1];
      assert longer[..|longer| - 1] == log[..at] && longer[|longer| - 1] == log[at];
    }
  }

  lemma HeartbeatFolds(r: Reducer, log: seq<Event>, sequence: nat, reached: nat)
    requires KeepsSequence(r) && Numbered(log) && sequence <= reached <= |log|
    ensures Handle(r, FoldLog(r, log[..reached]), HeartbeatFrame(sequence)) == FoldLog(r, log[..reached])
  {
    FoldSequence(r, log[..reached]);
  }

  /** The last frame of a gap-free stretch is the next event, or a heartbeat behind it. */
  lemma {:induction false} NextFrame(log: seq<Event>, base: nat, init: seq<Frame>, f: Frame)
    requires GapFree(log, base, init + [f])
    ensures var at := base + |Sent(init)|;
            if f.EventFrame? then at < |log| && f.event == log[at] && |Sent(init + [f])| == |Sent(init)| + 1
            else f.sequence <= at && |Sent(init + [f])| == |Sent(init)|
  {
    var frames := init + [f];
    SentAppend(init, f);
    if f.EventFrame? {
      assert Sent(frames)[|Sent(init)|] == log[base..base + |Sent(frames)|][|Sent(init)|];
    } else {
      assert InStep(frames, base, |init|);
      assert frames[|init|] == f && frames[..|init|] == init;
    }
  }

  /** The next event, or a heartbeat behind it, keeps the page at the fold of what it has seen. */
  lemma FrameFolds(r: Reducer, log: seq<Event>, at: nat, f: Frame, seen: nat)
    requires KeepsSequence(r) && Numbered(log) && at <= |log| && seen <= |log|
    requires if f.EventFrame? then at < |log| && f.event == log[at] else f.sequence <= at
    ensures var next := Later(seen, if f.EventFrame? then at + 1 else at);
            Handle(r, FoldLog(r, log[..Later(seen, at)]), f) == FoldLog(r, log[..next])
  {
    if f.EventFrame? {
      EventFolds(r, log, at, Later(seen, at));
      assert f == EventFrame(log[at]);
    } else {
      HeartbeatFolds(r, log, f.sequence, Later(seen, at));
    }
  }

  lemma {:induction false} ReceiveLast(r: Reducer, v: View, init: seq<Frame>, f: Frame)
    ensures Receive(r, v, init + [f]) == Handle(r, Receive(r, v, init), f)
  {
    assert (init + [f])[..|init|] == init;
  }

  /** The frame at `k` is the next event, or a heartbeat behind it. */
  ghost predicate Onward(log: seq<Event>, base: nat, frames: seq<Frame>, k: nat)
    requires k < |frames|
  {
    var at, next, f := base + |Sent(frames[..k])|, base + |Sent(frames[..k + 1])|, frames[k];
    && next <= |log|
    && if f.EventFrame? then at < |log| && f.event == log[at] && next == at + 1 else f.sequence <= at && next == at
  }

  /** As every frame of a gap-free stretch is. */
  lemma {:induction false} FrameAt(log: seq<Event>, base: nat, frames: seq<Frame>, k: nat)
    requires GapFree(log, base, frames) && k < |frames|
    ensures Onward(log, base, frames, k)
  {
    GapFreePrefix(log, base, frames, k + 1);
    assert frames[..k + 1] == frames[..k] + [frames[k]];
    NextFrame(log, base, frames[..k], frames[k]);
  }

  /** A page that each frame takes from one view to the next ends at the last. */
  lemma {:induction false} Tracks(r: Reducer, frames: seq<Frame>, views: seq<View>, n: nat)
    requires n <= |frames| && |views| == |frames| + 1
    requires forall k :: 0 <= k < |frames| ==> Handle(r, views[k], frames[k]) == views[k + 1]
    ensures Receive(r, views[0], frames[..n]) == views[n]
  {
    if n > 0 {
      Tracks(r, frames, views, n - 1);
      ReceiveLast(r, views[0], frames[..n - 1], frames[n - 1]);
      assert frames[..n] == frames[..n - 1] + [frames[n - 1]];
    }
  }

  /** The fold of the log up to `seen`, or up to what the first `k` frames reach. */
  function FoldTo(r: Reducer, log: seq<Event>, base: nat, frames: seq<Frame>, seen: nat, k: nat): View
    requires k <= |frames| && seen <= |log|
  {
    var reached := base + |Sent(frames[..k])|;
    FoldLog(r, log[..Later(seen, if reached <= |log| then reached else 0)])
  }

  lemma FoldsTo(r: Reducer, log: seq<Event>, base: nat, frames: seq<Frame>, seen: nat, k: nat)
    requires KeepsSequence(r) && Numbered(log) && seen <= |log| && GapFree(log, base, frames) && k < |frames|
    ensures Handle(r, FoldTo(r, log, base, frames, seen, k), frames[k]) == FoldTo(r, log, base, frames, seen, k + 1)
  {
    FrameAt(log, base, frames, k);
    FrameFolds(r, log, base + |Sent(frames[..k])|, frames[k], seen);
  }

  /** Over one gap-free connection from no further than the client's last sequence, what
      was already folded has no effect and the rest is folded once. */
  lemma {:induction false} ConnectionFolds(r: Reducer, log: seq<Event>, base: nat, frames: seq<Frame>, seen: nat)
    requires KeepsSequence(r) && Numbered(log) && base <= seen <= |log| && GapFree(log, base, frames)
    ensures Receive(r, FoldLog(r, log[..seen]), frames) == FoldLog(r, log[..Later(seen, base + |Sent(frames)|)])
  {
    var views := FoldedViews(r, log, base, frames, seen);
    Tracks(r, frames, views, |frames|);
    assert frames[..|frames|] == frames;
  }

  lemma {:induction false} FoldedViews(r: Reducer, log: seq<Event>, base: nat, frames: seq<Frame>, seen: nat)
    returns (views: seq<View>)
    requires KeepsSequence(r) && Numbered(log) && base <= seen <= |log| && GapFree(log, base, frames)
    ensures |views| == |frames| + 1
    ensures views[0] == FoldLog(r, log[..seen])
    ensures views[|frames|] == FoldLog(r, log[..Later(seen, base + |Sent(frames)|)])
    ensures forall k :: 0 <= k < |frames| ==> Handle(r, views[k], frames[k]) == views[k + 1]
  {
    views := seq(|frames| + 1, k requires 0 <= k <= |frames| => FoldTo(r, log, base, frames, seen, k));
    forall k | 0 <= k < |frames| ensures Handle(r, views[k], frames[k]) == views[k + 1] {
      FoldsTo(r, log, base, frames, seen, k);
    }
    FoldedEnds(r, log, base, frames, seen);
  }

  lemma {:induction false} FoldedEnds(r: Reducer, log: seq<Event>, base: nat, frames: seq<Frame>, seen: nat)
    requires base <= seen <= |log| && base + |Sent(frames)| <= |log|
    ensures FoldTo(r, log, base, frames, seen, 0) == FoldLog(r, log[..seen])
    ensures FoldTo(r, log, base, frames, seen, |frames|)
         == FoldLog(r, log[..Later(seen, base + |Sent(frames)|)])
  {
    assert frames[..0] == [] && frames[..|frames|] == frames;
  }

  /** A connection: which stream, and how many of its frames reached the page. */
  datatype Connection = Connection(stream: nat, received: nat)

  /** The page after a series of connections, each ended by a disconnect. */
  function Page(r: Reducer, s: System, connections: seq<Connection>): View
    requires forall i :: 0 <= i < |connections| ==> Served(s, connections[i])
  {
    if connections == [] then Fresh
    else
      var c := connections[|connections| - 1];
      assert Served(s, c);
      Receive(r, Page(r, s, connections[..|connections| - 1]), s.streams[c.stream].frames[..c.received])
  }

  predicate Served(s: System, c: Connection) {
    c.stream in s.streams && c.received <= |s.streams[c.stream].frames|
  }

  /** Every connection asks for no more than the page has seen, its stream had no publish
      between replay and subscription, and no heartbeat overtook a queued event. */
  ghost predicate Faithful(r: Reducer, s: System, connections: seq<Connection>)
    requires forall i :: 0 <= i < |connections| ==> Served(s, connections[i])
  {
    forall i :: 0 <= i < |connections| ==>
      assert Served(s, connections[i]);
      var st := s.streams[connections[i].stream];
      && st.after <= Page(r, s, connections[..i]).lastSequence
      && st.readAt == st.joinedAt && !st.hurried
  }

  /** End to end: over any number of disconnects and reconnects, the page is one fold over
      the log prefix up to its last sequence. */
  lemma {:induction false} PageFoldsLog(r: Reducer, s: System, connections: seq<Connection>)
    requires KeepsSequence(r) && Reachable(s)
    requires forall i :: 0 <= i < |connections| ==> Served(s, connections[i])
    requires Faithful(r, s, connections)
    ensures var page := Page(r, s, connections);
            0 <= page.lastSequence <= |s.ch.log| && page == FoldLog(r, s.ch.log[..page.lastSequence])
    decreases |connections|
  {
    if connections != [] {
      var n := |connections| - 1;
      var init, c := connections[..n], connections[n];
      forall i | 0 <= i < n ensures init[..i] == connections[..i] && init[i] == connections[i] {
      }
      assert Faithful(r, s, init) by {
        forall i | 0 <= i < n ensures Served(s, init[i]) && Page(r, s, init[..i]) == Page(r, s, connections[..i]) {
        }
      }
      PageFoldsLog(r, s, init);
      assert Served(s, c);
      var st := s.streams[c.stream];
      OneMore(r, s, c, Page(r, s, init));
    }
  }

  lemma {:induction false} ReceivedIsGapFree(s: System, c: Connection)
    requires Reachable(s) && Served(s, c)
    requires var st := s.streams[c.stream]; st.readAt == st.joinedAt && !st.hurried
    ensures var st := s.streams[c.stream]; GapFree(s.ch.log, Skipped(st.after, st.readAt), st.frames[..c.received])
  {
    var st := s.streams[c.stream];
    StreamIsGapFree(s, c.stream);
    GapFreePrefix(s.ch.log, Skipped(st.after, st.readAt), st.frames, c.received);
  }

  lemma {:induction false} OneMore(r: Reducer, s: System, c: Connection, page: View)
    requires KeepsSequence(r) && Reachable(s) && Served(s, c) && 0 <= page.lastSequence <= |s.ch.log|
    requires page == FoldLog(r, s.ch.log[..page.lastSequence])
    requires var st := s.streams[c.stream];
             st.after <= page.lastSequence && st.readAt == st.joinedAt && !st.hurried
    ensures var next := Receive(r, page, s.streams[c.stream].frames[..c.received]);
            0 <= next.lastSequence <= |s.ch.log| && next == FoldLog(r, s.ch.log[..next.lastSequence])
  {
    var log, st := s.ch.log, s.streams[c.stream];
    var base, frames := Skipped(st.after, st.readAt), st.frames[..c.received];
    LogIsNumbered(s);
    ReceivedIsGapFree(s, c);
    ConnectionFolds(r, log, base, frames, page.lastSequence);
    FoldSequence(r, log[..Later(page.lastSequence, base + |Sent(frames)|)]);
  }

  /** The page of `app.js`, in particular. */
  lemma {:induction false} PageIsOneFold(s: System, connections: seq<Connection>)
    requires Reachable(s)
    requires forall i :: 0 <= i < |connections| ==> Served(s, connections[i])
    requires Faithful(Reduce, s, connections)
    ensures var page := Page(Reduce, s, connections);
            0 <= page.lastSequence <= |s.ch.log| && page == FoldLog(Reduce, s.ch.log[..page.lastSequence])
  {
    ReduceKeepsSequence();
    PageFoldsLog(Reduce, s, connections);
  }

  // ---- when a connection loses an event ------------------------------------

  function Number(f: Frame): nat {
    if f.EventFrame? then f.event.sequence else f.sequence
  }

  /** `handleEvent` returns early on this event frame of a connection. */
  predicate Dropped(r: Reducer, v: View, frames: seq<Frame>, k: nat)
    requires k < |frames| && frames[k].EventFrame?
  {
    frames[k].event.sequence <= Receive(r, v, frames[..k]).lastSequence
  }

  /** An earlier heartbeat carries a number at or above that of the event at `k`. */
  predicate Outrun(frames: seq<Frame>, k: nat)
    requires k < |frames| && frames[k].EventFrame?
  {
    exists j :: 0 <= j < k && frames[j].HeartbeatFrame? && frames[k].event.sequence <= frames[j].sequence
  }

  /** The last number seen is the largest one received. */
  lemma {:induction false} SequenceReached(r: Reducer, v: View, frames: seq<Frame>, n: int)
    requires KeepsSequence(r)
    ensures n <= Receive(r, v, frames).lastSequence
       <==> n <= v.lastSequence || exists j :: 0 <= j < |frames| && n <= Number(frames[j])
    decreases |frames|
  {
    if frames != [] {
      var init, f := frames[..|frames| - 1], frames[|frames| - 1];
      var before := Receive(r, v, init);
      SequenceReached(r, v, init, n);
      if f.EventFrame? {
        var moved := before.(lastSequence := f.event.sequence);
        assert r(moved, f.event.kind, f.event.payload).lastSequence == moved.lastSequence;
      }
      assert forall j :: 0 <= j < |init| ==> init[j] == frames[j];
    }
  }

  /** An event frame is found among the events sent, after those of the frames before it. */
  lemma {:induction false} SentAt(frames: seq<Frame>, k: nat)
    requires k < |frames| && frames[k].EventFrame?
    ensures var n := |Sent(frames[..k])|; n < |Sent(frames)| && Sent(frames)[n] == frames[k].event
    decreases |frames|
  {
    var init, f := frames[..|frames| - 1], frames[|frames| - 1];
    if k == |init| {
      assert Sent(frames) == Sent(init) + [f.event];
    } else {
      SentAt(init, k);
      assert init[..k] == frames[..k];
    }
  }

  lemma EarlierIsSmaller(s: System, id: nat, j: nat, k: nat)
    requires Reachable(s) && id in s.streams && j < k < |s.streams[id].frames|
    requires s.streams[id].frames[j].EventFrame? && s.streams[id].frames[k].EventFrame?
    ensures s.streams[id].frames[j].event.sequence < s.streams[id].frames[k].event.sequence
  {
    var frames := s.streams[id].frames;
    StreamIsIncreasing(s, id);
    SentAt(frames, j);
    SentAt(frames, k);
    SentAt(frames[..k], j);
    assert frames[..k][..j] == frames[..j];
  }

  /** Over any connection of any stream, gap-free or not, from any state of the page: an
      event the page has not seen is dropped if and only if an earlier heartbeat of that
      connection carries its number or a higher one. */
  lemma DroppedIff(r: Reducer, s: System, id: nat, v: View, k: nat)
    requires KeepsSequence(r) && Reachable(s) && id in s.streams
    requires k < |s.streams[id].frames| && s.streams[id].frames[k].EventFrame?
    requires v.lastSequence < s.streams[id].frames[k].event.sequence
    ensures Dropped(r, v, s.streams[id].frames, k) <==> Outrun(s.streams[id].frames, k)
  {
    var frames := s.streams[id].frames;
    var n := frames[k].event.sequence;
    SequenceReached(r, v, frames[..k], n);
    if Dropped(r, v, frames, k) {
      var j :| 0 <= j < |frames[..k]| && n <= Number(frames[..k][j]);
      assert frames[..k][j] == frames[j];
      if frames[j].EventFrame? {
        EarlierIsSmaller(s, id, j, k);
      }
    }
    if Outrun(frames, k) {
      var j :| 0 <= j < k && frames[j].HeartbeatFrame? && n <= frames[j].sequence;
      assert n <= Number(frames[..k][j]);
    }
  }

  // ---- the page over any connections ---------------------------------------

  function Highest(frames: seq<Frame>): (h: int)
    ensures h >= 0
  {
    if frames == [] then 0
    else Later(Highest(frames[..|frames| - 1]), Number(frames[|frames| - 1]))
  }

  /** The events received before any frame with as high a number. */
  function Counted(frames: seq<Frame>): seq<Event> {
    if frames == [] then []
    else
      var init, f := frames[..|frames| - 1], frames[|frames| - 1];
      Counted(init) + if f.EventFrame? && Highest(init) < Number(f) then [f.event] else []
  }

  lemma {:induction false} HighestIs(frames: seq<Frame>, n: int)
    ensures n <= Highest(frames) <==> n <= 0 || exists j :: 0 <= j < |frames| && n <= Number(frames[j])
    decreases |frames|
  {
    if frames != [] {
      var init := frames[..|frames| - 1];
      HighestIs(init, n);
      assert forall j :: 0 <= j < |init| ==> init[j] == frames[j];
    }
  }

  /** The frame at `k` brings this event, above every number before it. */
  predicate CountsAt(frames: seq<Frame>, e: Event, k: nat)
    requires k < |frames|
  {
    frames[k] == EventFrame(e) && 0 < e.sequence && forall j :: 0 <= j < k ==> Number(frames[j]) < e.sequence
  }

  /** An event counts if and only if some frame brings it above every number before. */
  lemma {:induction false} CountedIff(frames: seq<Frame>, e: Event)
    ensures e in Counted(frames) <==> exists k: nat :: k < |frames| && CountsAt(frames, e, k)
  {
    if e in Counted(frames) {
      var k := CountedComes(frames, e);
    }
    if k: nat :| k < |frames| && CountsAt(frames, e, k) {
      CountsIsCounted(frames, e, k);
    }
  }

  lemma {:induction false} CountedComes(frames: seq<Frame>, e: Event) returns (k: nat)
    requires e in Counted(frames)
    ensures k < |frames| && CountsAt(frames, e, k)
    decreases |frames|
  {
    var n := |frames| - 1;
    CountedLast(frames, e);
    if e in Counted(frames[..n]) {
      k := CountedComes(frames[..n], e);
      CountsInPrefix(frames, e, k);
    } else {
      LastCounts(frames, e);
      k := n;
    }
  }

  lemma {:induction false} CountsIsCounted(frames: seq<Frame>, e: Event, k: nat)
    requires k < |frames| && CountsAt(frames, e, k)
    ensures e in Counted(frames)
    decreases |frames|
  {
    CountedLast(frames, e);
    if k < |frames| - 1 {
      CountsInPrefix(frames, e, k);
      CountsIsCounted(frames[..|frames| - 1], e, k);
    } else {
      LastCounts(frames, e);
    }
  }

  lemma {:induction false} CountedLast(frames: seq<Frame>, e: Event)
    requires frames != []
    ensures var n := |frames| - 1;
            e in Counted(frames)
            <==> e in Counted(frames[..n]) || (frames[n] == EventFrame(e) && Highest(frames[..n]) < e.sequence)
  {
  }

  lemma {:induction false} LastCounts(frames: seq<Frame>, e: Event)
    requires frames != []
    ensures var n := |frames| - 1;
            CountsAt(frames, e, n) <==> frames[n] == EventFrame(e) && Highest(frames[..n]) < e.sequence
  {
    var init := frames[..|frames| - 1];
    HighestIs(init, e.sequence);
    assert forall j :: 0 <= j < |init| ==> init[j] == frames[j];
  }

  lemma CountsInPrefix(frames: seq<Frame>, e: Event, k: nat)
    requires k < |frames| - 1
    ensures CountsAt(frames[..|frames| - 1], e, k) <==> CountsAt(frames, e, k)
  {
    assert forall j :: 0 <= j <= k ==> frames[..|frames| - 1][j] == frames[j];
  }

  /** Whatever is received, the page is one fold of the events that count. */
  lemma {:induction false} ReceiveFolds(r: Reducer, frames: seq<Frame>)
    requires KeepsSequence(r)
    ensures Receive(r, Fresh, frames) == FoldLog(r, Counted(frames)).(lastSequence := Highest(frames))
    decreases |frames|
  {
    if frames != [] {
      var init, f := frames[..|frames| - 1], frames[|frames| - 1];
      ReceiveFolds(r, init);
      if f.EventFrame? && Highest(init) < Number(f) {
        FoldOneMore(r, Counted(init), f.event);
      } else {
        assert Counted(frames) == Counted(init);
      }
    }
  }

  lemma {:induction false} FoldOneMore(r: Reducer, events: seq<Event>, e: Event)
    requires KeepsSequence(r)
    ensures var more := FoldLog(r, events + [e]);
            && more == r(FoldLog(r, events).(lastSequence := e.sequence), e.kind, e.payload)
            && more.lastSequence == e.sequence
  {
    assert (events + [e])[..|events|] == events;
    var before := FoldLog(r, events).(lastSequence := e.sequence);
    assert r(before, e.kind, e.payload).lastSequence == before.lastSequence;
  }

  /** All frames the page has received, over its connections in order. */
  function Received(s: System, connections: seq<Connection>): seq<Frame>
    requires forall i :: 0 <= i < |connections| ==> Served(s, connections[i])
  {
    if connections == [] then []
    else
      var c := connections[|connections| - 1];
      assert Served(s, c);
      Received(s, connections[..|connections| - 1]) + s.streams[c.stream].frames[..c.received]
  }

  lemma {:induction false} ReceiveAppend(r: Reducer, v: View, a: seq<Frame>, b: seq<Frame>)
    ensures Receive(r, v, a + b) == Receive(r, Receive(r, v, a), b)
    decreases |b|
  {
    if b == [] {
      assert a + b == a;
    } else {
      assert (a + b)[..|a + b| - 1] == a + b[..|b| - 1];
      ReceiveAppend(r, v, a, b[..|b| - 1]);
    }
  }

  /** For any connections of any streams, from any `after` and with any gaps: the page is one fold
      of the events received before any frame with as high a number. */
  lemma {:induction false} PageFoldsCounted(r: Reducer, s: System, connections: seq<Connection>)
    requires KeepsSequence(r)
    requires forall i :: 0 <= i < |connections| ==> Served(s, connections[i])
    ensures var frames := Received(s, connections);
            Page(r, s, connections) == FoldLog(r, Counted(frames)).(lastSequence := Highest(frames))
  {
    PageReceives(r, s, connections);
    ReceiveFolds(r, Received(s, connections));
  }

  lemma {:induction false} PageReceives(r: Reducer, s: System, connections: seq<Connection>)
    requires forall i :: 0 <= i < |connections| ==> Served(s, connections[i])
    ensures Page(r, s, connections) == Receive(r, Fresh, Received(s, connections))
    decreases |connections|
  {
    if connections != [] {
      var init, c := connections[..|connections| - 1], connections[|connections| - 1];
      PageReceives(r, s, init);
      assert Served(s, c);
      ReceiveAppend(r, Fresh, Received(s, init), s.streams[c.stream].frames[..c.received]);
    }
  }

  /** Later frames never make an event count whose number has been reached. */
  lemma {:induction false} NotCountedLater(frames: seq<Frame>, all: seq<Frame>, e: Event)
    requires frames <= all && e !in Counted(frames) && e.sequence <= Highest(frames)
    ensures e !in Counted(all)
  {
    CountedIff(frames, e);
    CountedIff(all, e);
    HighestIs(frames, e.sequence);
    if e.sequence > 0 {
      var j :| 0 <= j < |frames| && e.sequence <= Number(frames[j]);
      assert all[j] == frames[j];
      forall k: nat | k < |all| ensures !CountsAt(all, e, k) {
        if k < |frames| {
          assert !CountsAt(frames, e, k);
          assert forall i :: 0 <= i <= k ==> all[i] == frames[i];
        }
      }
    }
  }

  lemma {:induction false} ReceivedAppend(s: System, connections: seq<Connection>, later: seq<Connection>)
    requires forall i :: 0 <= i < |connections| ==> Served(s, connections[i])
    requires forall i :: 0 <= i < |later| ==> Served(s, later[i])
    ensures forall i :: 0 <= i < |connections + later| ==> Served(s, (connections + later)[i])
    ensures Received(s, connections) <= Received(s, connections + later)
    decreases |later|
  {
    if later == [] {
      assert connections + later == connections;
    } else {
      var all := connections + later;
      assert all[..|all| - 1] == connections + later[..|later| - 1];
      ReceivedAppend(s, connections, later[..|later| - 1]);
    }
  }

  /** An event the page has passed over is lost to it for good: no later connection, not even one
      that replays the log from its start, makes it count. */
  lemma {:induction false} LostForGood(r: Reducer, s: System, connections: seq<Connection>,
                                       later: seq<Connection>, e: Event)
    requires KeepsSequence(r)
    requires forall i :: 0 <= i < |connections| ==> Served(s, connections[i])
    requires forall i :: 0 <= i < |later| ==> Served(s, later[i])
    requires e.sequence <= Page(r, s, connections).lastSequence && e !in Counted(Received(s, connections))
    ensures forall i :: 0 <= i < |connections + later| ==> Served(s, (connections + later)[i])
    ensures e !in Counted(Received(s, connections + later))
  {
    PageFoldsCounted(r, s, connections);
    ReceivedAppend(s, connections, later);
    NotCountedLater(Received(s, connections), Received(s, connections + later), e);
  }

  /** So it is with an event published between a stream's replay read and its subscription, once
      the page has received a later number on that connection. */
  lemma {:induction false} WindowEventIsLost(r: Reducer, s: System, c: Connection, later: seq<Connection>, e: Event)
    requires KeepsSequence(r) && Reachable(s) && Served(s, c)
    requires forall i :: 0 <= i < |later| ==> Served(s, later[i])
    requires var st := s.streams[c.stream]; st.readAt < e.sequence <= st.joinedAt
    requires e.sequence <= Highest(s.streams[c.stream].frames[..c.received])
    ensures forall i :: 0 <= i < |[c] + later| ==> Served(s, ([c] + later)[i])
    ensures e !in Counted(Received(s, [c] + later))
  {
    ReceivedOne(s, c);
    NotSent(s, c, e);
    PageFoldsCounted(r, s, [c]);
    LostForGood(r, s, [c], later, e);
  }

  lemma {:induction false} ReceivedOne(s: System, c: Connection)
    requires Served(s, c)
    ensures Received(s, [c]) == s.streams[c.stream].frames[..c.received]
  {
    assert [c][..0] == [];
  }

  lemma NotSent(s: System, c: Connection, e: Event)
    requires Reachable(s) && Served(s, c)
    requires var st := s.streams[c.stream]; st.readAt < e.sequence <= st.joinedAt
    ensures e !in Counted(s.streams[c.stream].frames[..c.received])
  {
    var frames := s.streams[c.stream].frames;
    CountedIff(frames[..c.received], e);
    if k: nat :| k < c.received && CountsAt(frames[..c.received], e, k) {
      assert frames[k] == EventFrame(e);
      SentAt(frames, k);
      NothingTwice(s, c.stream, |Sent(frames[..k])|);
      assert false;
    }
  }

  // ---- a heartbeat that overtakes ------------------------------------------

  function Hurried(payload: Payload): seq<Frame> {
    [HeartbeatFrame(1), EventFrame(Event(1, ToolCompleted, payload))]
  }

  /** A heartbeat over a queue that holds the one event of the log. */
  function Overtaking(payload: Payload): System {
    var e := Event(1, ToolCompleted, payload);
    System(Channel(1, [e], map[0 := [e]], false), map[0 := Stream(0, Beating, [HeartbeatFrame(1)], 0, 0, true)])
  }

  lemma OvertakingIsReachable(payload: Payload)
    ensures Reachable(Overtaking(payload))
  {
    IdleIsReachable();
    var idle := System(Channel(0, [], map[0 := []], false), map[0 := Idle]);
    var told := Act(idle, Publish(ToolCompleted, payload));
    ReachableNext(idle, Publish(ToolCompleted, payload));
    var e := Event(1, ToolCompleted, payload);
    assert idle.ch.queues[0] == [];
    assert [] + [e] == [e];
    assert told.ch == Channel(1, [e], map[0 := [e]], false);
    ReachableNext(told, SendHeartbeat(0));
    assert Idle.frames + [HeartbeatFrame(1)] == [HeartbeatFrame(1)];
    assert Act(told, SendHeartbeat(0)).streams[0] == Overtaking(payload).streams[0];
    assert Act(told, SendHeartbeat(0)) == Overtaking(payload);
  }

  /** A stream sends such frames: it joins, an event is published, and the heartbeat's
      timer fires before the event is taken off the queue. */
  lemma HurriedFramesAreSent(payload: Payload)
    ensures exists s :: Reachable(s) && 0 in s.streams && s.streams[0].frames == Hurried(payload)
                        && s.ch.log == [Event(1, ToolCompleted, payload)]
  {
    OvertakingIsReachable(payload);
    var live := Act(Overtaking(payload), CheckTerminal(0));
    ReachableNext(Overtaking(payload), CheckTerminal(0));
    ReachableNext(live, Deliver(0));
    assert Act(live, Deliver(0)).streams[0].frames == Hurried(payload);
  }

  /** And then the event never counts: the page has seen number 1 and no tool, while the
      log it was streamed holds one. */
  lemma {:induction false} HurriedHeartbeatLosesEvent(payload: Payload)
    ensures exists s :: Reachable(s) && 0 in s.streams
                        && Receive(Reduce, Fresh, s.streams[0].frames) == Fresh.(lastSequence := 1)
                        && FoldLog(Reduce, s.ch.log).tools == 1
  {
    HurriedFramesAreSent(payload);
    var s :| Reachable(s) && 0 in s.streams && s.streams[0].frames == Hurried(payload)
             && s.ch.log == [Event(1, ToolCompleted, payload)];
    var frames := Hurried(payload);
    assert frames[..1] == [HeartbeatFrame(1)] && frames[..1][..0] == [];
    assert Receive(Reduce, Fresh, frames[..1]) == Fresh.(lastSequence := 1);
    assert Receive(Reduce, Fresh, s.streams[0].frames) == Fresh.(lastSequence := 1);
    assert s.ch.log[..0] == [];
    assert FoldLog(Reduce, s.ch.log).tools == 1;
  }
}
