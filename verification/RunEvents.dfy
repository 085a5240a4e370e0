/** Model of one run's event log and its streams:
    `repo-agent/backend/app/streaming/event_bus.py` (publish, subscribe, replay) and
    `repo-agent/backend/app/streaming/sse_manager.py` (replay, then live, then close). */
module RunEvents {
  datatype EventType =
    | RunStarted | PlanCreated | PlanUpdated | ToolStarted | ToolCompleted | ToolFailed | ObservationCreated
    | ResponseBatchStarted | ResponseDelta | ResponseBatchCompleted
    | ReauthenticationRequired | Reauthenticated | ValidationStarted | ValidationCompleted
    | ConversationCompacted | RunCompleted | RunFailed | RunCancelled

  predicate IsTerminal(kind: EventType) {
    kind.RunCompleted? || kind.RunFailed? || kind.RunCancelled?
  }

  /** A JSON value of an event payload, as far as the client looks into it. */
  datatype Value = Text(text: string) | Number(number: int) | Flag(flag: bool) | Other(json: string)

  type Payload = map<string, Value>

  datatype Event = Event(sequence: nat, kind: EventType, payload: Payload)

  // ---- one run's share of the bus ------------------------------------------

  /** `counter` is `_sequences[run]`, `log` the stored rows by sequence, `queues` the
      live subscriber queues, `terminal` whether the run is in `_terminal`. */
  datatype Channel = Channel(counter: nat, log: seq<Event>, queues: map<nat, seq<Event>>, terminal: bool)

  const EmptyChannel: Channel := Channel(0, [], map[], false)

  /** `INSERT OR IGNORE` under the key (run, sequence), kept in sequence order. */
  function Insert(log: seq<Event>, e: Event): seq<Event> {
    if log == [] then [e]
    else if log[0].sequence == e.sequence then log
    else if e.sequence < log[0].sequence then [e] + log
    else [log[0]] + Insert(log[1..], e)
  }

  /** The rows with a sequence above `after`. */
  function ListAfter(log: seq<Event>, after: int): seq<Event> {
    if log == [] then []
    else (if log[0].sequence > after then [log[0]] else []) + ListAfter(log[1..], after)
  }

  function PublishTo(ch: Channel, kind: EventType, payload: Payload): Channel {
    var e := Event(ch.counter + 1, kind, payload);
    Channel(ch.counter + 1, Insert(ch.log, e), map q | q in ch.queues :: ch.queues[q] + [e],
            ch.terminal || IsTerminal(kind))
  }

  function SubscribeTo(ch: Channel, q: nat): Channel {
    ch.(queues := ch.queues[q := []])
  }

  function UnsubscribeFrom(ch: Channel, q: nat): Channel {
    ch.(queues := ch.queues - {q})
  }

  /** What `replay_after` does to the counter; it returns `ListAfter(log, after)`. */
  function Restored(ch: Channel): Channel {
    if ch.log == [] then ch
    else
      var last := ch.log[|ch.log| - 1].sequence;
      ch.(counter := if ch.counter < last then last else ch.counter)
  }

  // ---- one stream ----------------------------------------------------------

  datatype Frame = EventFrame(event: Event) | HeartbeatFrame(sequence: nat)

  /** How a stream ends: it has sent a terminal event, it has found the run ended after a
      heartbeat, or it was cut off by the client or a restart. */
  datatype Ending = Told | Checked | Cut

  /** `Beating` is the suspension between a heartbeat and the look at `is_terminal` that
      follows it. An ended stream records how much of the log it had been given, its replay
      read if it never subscribed and the whole log if it did, and what it had not sent of it. */
  datatype Phase =
    | Waiting | Replaying(rows: seq<Event>) | Live | Beating
    | Ended(how: Ending, reach: nat, unsent: seq<Event>)

  predicate Subscribed(phase: Phase) {
    phase.Live? || phase.Beating?
  }

  /** One `_event_stream` generator. `readAt` and `joinedAt` record how long the log
      was at the replay read and at the subscription; `hurried` records a heartbeat sent
      while events were queued. */
  datatype Stream = Stream(after: int, phase: Phase, frames: seq<Frame>, readAt: nat, joinedAt: nat, hurried: bool)

  function Opened(after: int): Stream {
    Stream(after, Waiting, [], 0, 0, false)
  }

  /** The events among the frames sent. */
  function Sent(frames: seq<Frame>): seq<Event> {
    if frames == [] then []
    else
      var last := frames[|frames| - 1];
      Sent(frames[..|frames| - 1]) + if last.EventFrame? then [last.event] else []
  }

  /** Sends the first of what is left to send of a log `reach` long. The return after a
      terminal event is made with it: by itself it only gives up the queue. */
  function Send(st: Stream, e: Event, next: Phase, reach: nat, rest: seq<Event>): Stream {
    st.(frames := st.frames + [EventFrame(e)], phase := if IsTerminal(e.kind) then Ended(Told, reach, rest) else next)
  }

  /** The generator's first step: read what the client missed. */
  function ReadReplay(ch: Channel, st: Stream): Stream {
    st.(phase := Replaying(ListAfter(ch.log, st.after)), readAt := |ch.log|, joinedAt := |ch.log|)
  }

  function YieldRow(st: Stream): Stream
    requires st.phase.Replaying? && st.phase.rows != []
  {
    Send(st, st.phase.rows[0], Replaying(st.phase.rows[1..]), st.readAt, st.phase.rows[1..])
  }

  function YieldQueued(ch: Channel, st: Stream, e: Event, rest: seq<Event>): Stream {
    Send(st, e, Live, |ch.log|, rest)
  }

  function YieldHeartbeat(ch: Channel, st: Stream, queued: seq<Event>): Stream {
    st.(frames := st.frames + [HeartbeatFrame(ch.counter)], hurried := st.hurried || queued != [], phase := Beating)
  }

  /** The generator resumed after a heartbeat. */
  function Resumed(ch: Channel, st: Stream, queued: seq<Event>): Stream {
    st.(phase := if ch.terminal then Ended(Checked, |ch.log|, queued) else Live)
  }

  function CutOff(st: Stream): Stream {
    if st.phase.Ended? then st else st.(phase := Ended(Cut, 0, []))
  }

  // ---- the interleaved system ----------------------------------------------

  datatype System = System(ch: Channel, streams: map<nat, Stream>)

  /** One stretch of the event loop between suspensions, or a restart of the process. */
  datatype Action =
    | Publish(kind: EventType, payload: Payload)
    | Open(id: nat, after: int)
    | Read(id: nat)
    | Replay(id: nat)
    | Join(id: nat)
    | Deliver(id: nat)
    | SendHeartbeat(id: nat)
    | CheckTerminal(id: nat)
    | Disconnect(id: nat)
    | Restart

  const NoStreams: map<nat, Stream> := map[]

  const Start: System := System(EmptyChannel, NoStreams)

  /** Leaving the generator runs its `finally` and gives up the queue. */
  function Update(s: System, id: nat, ch: Channel, st: Stream): System {
    System(if st.phase.Ended? then UnsubscribeFrom(ch, id) else ch, s.streams[id := st])
  }

  predicate Enabled(s: System, a: Action) {
    match a
    case Publish(_, _) => true
    case Open(id, _) => id !in s.streams
    case Read(id) => id in s.streams && s.streams[id].phase.Waiting?
    case Replay(id) => id in s.streams && s.streams[id].phase.Replaying? && s.streams[id].phase.rows != []
    case Join(id) => id in s.streams && s.streams[id].phase.Replaying? && s.streams[id].phase.rows == []
    case Deliver(id) => id in s.streams && s.streams[id].phase.Live? && id in s.ch.queues && s.ch.queues[id] != []
    case SendHeartbeat(id) => id in s.streams && s.streams[id].phase.Live? && id in s.ch.queues
    case CheckTerminal(id) => id in s.streams && s.streams[id].phase.Beating? && id in s.ch.queues
    case Disconnect(id) => id in s.streams && !s.streams[id].phase.Ended?
    case Restart => true
  }

  function Act(s: System, a: Action): System
    requires Enabled(s, a)
  {
    match a
    case Publish(kind, payload) => s.(ch := PublishTo(s.ch, kind, payload))
    case Open(id, after) => s.(streams := s.streams[id := Opened(after)])
    case Read(id) => Update(s, id, Restored(s.ch), ReadReplay(s.ch, s.streams[id]))
    case Replay(id) => s.(streams := s.streams[id := YieldRow(s.streams[id])])
    case Join(id) => Update(s, id, SubscribeTo(s.ch, id), s.streams[id].(phase := Live, joinedAt := |s.ch.log|))
    case Deliver(id) =>
      var e, rest := s.ch.queues[id][0], s.ch.queues[id][1..];
      Update(s, id, s.ch.(queues := s.ch.queues[id := rest]), YieldQueued(s.ch, s.streams[id], e, rest))
    case SendHeartbeat(id) => Update(s, id, s.ch, YieldHeartbeat(s.ch, s.streams[id], s.ch.queues[id]))
    case CheckTerminal(id) => Update(s, id, s.ch, Resumed(s.ch, s.streams[id], s.ch.queues[id]))
    case Disconnect(id) => Update(s, id, s.ch, CutOff(s.streams[id]))
    case Restart => System(Channel(0, s.ch.log, map[], false), map id | id in s.streams :: CutOff(s.streams[id]))
  }

  /** A run of the system; an action that is not enabled does not happen. */
  function Execute(s: System, actions: seq<Action>): System
    decreases |actions|
  {
    if actions == [] then s
    else
      var before := Execute(s, actions[..|actions| - 1]);
      var a := actions[|actions| - 1];
      if Enabled(before, a) then Act(before, a) else before
  }

  // ---- the code under study, over every run --------------------------------

  /** `EventBus`, its dictionaries keyed by run id. A subscriber's queue object is known
      by a number. */
  class EventBus {
    var sequences: map<string, nat>
    var stored: map<string, seq<Event>>
    var subscribers: map<string, map<nat, seq<Event>>>
    var terminal: set<string>

    constructor ()
      ensures forall run :: Chan(run) == EmptyChannel
    {
      sequences, stored, subscribers, terminal := map[], map[], map[], {};
    }

    function Chan(run: string): Channel
      reads this
    {
      Channel(if run in sequences then sequences[run] else 0,
              if run in stored then stored[run] else [],
              if run in subscribers then subscribers[run] else map[],
              run in terminal)
    }

    method Publish(run: string, kind: EventType, payload: Payload) returns (event: Event)
      modifies this
      ensures Chan(run) == PublishTo(old(Chan(run)), kind, payload)
      ensures event == Event(old(Chan(run).counter) + 1, kind, payload)
      ensures forall other :: other != run ==> Chan(other) == old(Chan(other))
    {
      var ch := Chan(run);
      var sequence := ch.counter + 1;
      event := Event(sequence, kind, payload);
      var rows := Insert(ch.log, event);
      var queues := FanOut(ch.queues, event);
      Record(run, sequence, rows, queues, IsTerminal(kind));
    }

    method Record(run: string, sequence: nat, rows: seq<Event>, queues: map<nat, seq<Event>>, ends: bool)
      modifies this
      ensures Chan(run) == Channel(sequence, rows, queues, old(Chan(run)).terminal || ends)
      ensures forall other :: other != run ==> Chan(other) == old(Chan(other))
    {
      sequences := sequences[run := sequence];
      stored := stored[run := rows];
      subscribers := subscribers[run := queues];
      if ends {
        terminal := terminal + {run};
      }
    }

    /** The loop of `publish` over the subscribers (event_bus.py:43-44). */
    static method FanOut(subscribed: map<nat, seq<Event>>, event: Event) returns (queues: map<nat, seq<Event>>)
      ensures queues == map q | q in subscribed :: subscribed[q] + [event]
    {
      queues := subscribed;
      var waiting := subscribed.Keys;
      while waiting != {}
        invariant queues.Keys == subscribed.Keys && waiting <= subscribed.Keys
        invariant forall q :: q in queues ==>
          queues[q] == if q in waiting then subscribed[q] else subscribed[q] + [event]
        decreases |waiting|
      {
        var q :| q in waiting;
        queues := queues[q := queues[q] + [event]];
        waiting := waiting - {q};
      }
    }

    method Subscribe(run: string, queue: nat)
      modifies this
      ensures Chan(run) == SubscribeTo(old(Chan(run)), queue)
      ensures forall other :: other != run ==> Chan(other) == old(Chan(other))
    {
      subscribers := subscribers[run := Chan(run).queues[queue := []]];
    }

    method Unsubscribe(run: string, queue: nat)
      modifies this
      ensures forall r :: Chan(r) == if r == run then UnsubscribeFrom(old(Chan(r)), queue) else old(Chan(r))
    {
      if run in subscribers {
        subscribers := subscribers[run := subscribers[run] - {queue}];
      }
    }

    method ReplayAfter(run: string, after: int) returns (rows: seq<Event>)
      modifies this
      ensures Chan(run) == Restored(old(Chan(run)))
      ensures rows == ListAfter(old(Chan(run).log), after)
      ensures forall other :: other != run ==> Chan(other) == old(Chan(other))
    {
      var persisted := Chan(run).log;
      if persisted != [] {
        var last := persisted[|persisted| - 1].sequence;
        sequences := sequences[run := if Chan(run).counter < last then last else Chan(run).counter];
      }
      rows := ListAfter(persisted, after);
    }

    /** The consumer's `queue.get()` once an item is there. */
    method Get(run: string, queue: nat) returns (e: Event)
      requires queue in Chan(run).queues && Chan(run).queues[queue] != []
      modifies this
      ensures e == old(Chan(run).queues[queue][0])
      ensures var ch := old(Chan(run)); Chan(run) == ch.(queues := ch.queues[queue := ch.queues[queue][1..]])
      ensures forall other :: other != run ==> Chan(other) == old(Chan(other))
    {
      var items := subscribers[run][queue];
      e := items[0];
      var queues: map<nat, seq<Event>> := subscribers[run][queue := items[1..]];
      subscribers := subscribers[run := queues];
    }
  }

  /** The generator `_event_stream`, resumed one stretch at a time. */
  class EventStream {
    const bus: EventBus
    const run: string
    const id: nat
    var state: Stream

    constructor (bus: EventBus, run: string, id: nat, after: int)
      ensures this.bus == bus && this.run == run && this.id == id && state == Opened(after)
    {
      this.bus, this.run, this.id, state := bus, run, id, Opened(after);
    }

    /** This stream's part of the system, next to the run's channel. */
    function View(): System
      reads this, bus
    {
      System(bus.Chan(run), NoStreams[id := state])
    }

    method StartReplay()
      requires state.phase.Waiting?
      modifies this, bus
      ensures View() == Act(old(View()), Read(id))
    {
      var length := |bus.Chan(run).log|;
      var rows := bus.ReplayAfter(run, state.after);
      state := state.(phase := Replaying(rows), readAt := length, joinedAt := length);
    }

    method YieldReplayed() returns (frame: Frame)
      requires state.phase.Replaying? && state.phase.rows != []
      modifies this
      ensures View() == Act(old(View()), Replay(id))
      ensures frame == EventFrame(old(state.phase.rows[0]))
    {
      var event := state.phase.rows[0];
      frame := EventFrame(event);
      var rest := state.phase.rows[1..];
      if IsTerminal(event.kind) {
        state := state.(frames := state.frames + [frame], phase := Ended(Told, state.readAt, rest));
      } else {
        state := state.(frames := state.frames + [frame], phase := Replaying(rest));
      }
    }

    method GoLive()
      requires state.phase.Replaying? && state.phase.rows == []
      modifies this, bus
      ensures View() == Act(old(View()), Join(id))
    {
      state := state.(phase := Live, joinedAt := |bus.Chan(run).log|);
      bus.Subscribe(run, id);
    }

    method YieldLive() returns (frame: Frame)
      requires state.phase.Live? && id in bus.Chan(run).queues && bus.Chan(run).queues[id] != []
      modifies this, bus
      ensures View() == Act(old(View()), Deliver(id))
      ensures frame == EventFrame(old(bus.Chan(run).queues[id][0]))
    {
      var event := bus.Get(run, id);
      frame := EventFrame(event);
      if IsTerminal(event.kind) {
        var ch := bus.Chan(run);
        state := state.(frames := state.frames + [frame], phase := Ended(Told, |ch.log|, ch.queues[id]));
        bus.Unsubscribe(run, id);
      } else {
        state := state.(frames := state.frames + [frame]);
      }
    }

    method YieldIdle() returns (frame: Frame)
      requires state.phase.Live? && id in bus.Chan(run).queues
      modifies this
      ensures View() == Act(old(View()), SendHeartbeat(id))
      ensures frame == HeartbeatFrame(old(bus.Chan(run).counter))
    {
      var ch := bus.Chan(run);
      frame := HeartbeatFrame(ch.counter);
      state := state.(frames := state.frames + [frame], hurried := state.hurried || ch.queues[id] != [],
                      phase := Beating);
    }

    /** The next stretch after a heartbeat. */
    method ResumeIdle()
      requires state.phase.Beating? && id in bus.Chan(run).queues
      modifies this, bus
      ensures View() == Act(old(View()), CheckTerminal(id))
    {
      var ch := bus.Chan(run);
      if ch.terminal {
        state := state.(phase := Ended(Checked, |ch.log|, ch.queues[id]));
        bus.Unsubscribe(run, id);
      } else {
        state := state.(phase := Live);
      }
    }
  }
}
