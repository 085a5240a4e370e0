/** What a run's log and its streams keep over every interleaving of publishes, replay
    reads, yields, subscriptions, live deliveries, heartbeats, terminal checks, disconnects
    and restarts. */
module RunEventProofs {
  import opened RunEvents

  // ---- the log -------------------------------------------------------------

  predicate NumberedFrom(log: seq<Event>, n: nat) {
    forall i :: 0 <= i < |log| ==> log[i].sequence == n + i + 1
  }

  predicate Numbered(log: seq<Event>) {
    NumberedFrom(log, 0)
  }

  lemma {:induction false} InsertNumbered(log: seq<Event>, n: nat, e: Event)
    requires NumberedFrom(log, n) && n < e.sequence <= n + |log| + 1
    ensures Insert(log, e) == if e.sequence == n + |log| + 1 then log + [e] else log
  {
    if log != [] && log[0].sequence != e.sequence {
      forall i | 0 <= i < |log| - 1 ensures log[1..][i].sequence == n + 1 + i + 1 {
        assert log[1..][i] == log[i + 1];
      }
      InsertNumbered(log[1..], n + 1, e);
      assert log == [log[0]] + log[1..];
    }
  }

  /** How many rows a replay after `after` skips. */
  function Skipped(after: int, length: nat): (k: nat)
    ensures k <= length
  {
    if after < 0 then 0 else if after > length then length else after
  }

  lemma {:induction false} ListAfterNumbered(log: seq<Event>, n: nat, after: int)
    requires NumberedFrom(log, n)
    ensures ListAfter(log, after) == log[Skipped(after - n, |log|)..]
  {
    if log != [] {
      forall i | 0 <= i < |log| - 1 ensures log[1..][i].sequence == n + 1 + i + 1 {
        assert log[1..][i] == log[i + 1];
      }
      ListAfterNumbered(log[1..], n + 1, after);
      if after <= n {
        assert log[0..] == [log[0]] + log[1..][0..];
      } else {
        assert log[1..][Skipped(after - n - 1, |log| - 1)..] == log[Skipped(after - n, |log|)..];
      }
    }
  }

  // ---- sent frames ---------------------------------------------------------

  lemma {:induction false} SentAppend(frames: seq<Frame>, f: Frame)
    ensures Sent(frames + [f]) == Sent(frames) + if f.EventFrame? then [f.event] else []
  {
    assert (frames + [f])[..|frames|] == frames;
  }

  predicate NoTerminal(events: seq<Event>) {
    forall i :: 0 <= i < |events| ==> !IsTerminal(events[i].kind)
  }

  /** Nothing follows a terminal event. */
  predicate TerminalLast(events: seq<Event>) {
    events != [] ==> NoTerminal(events[..|events| - 1])
  }

  /** What a stream is to deliver: the replayed rows, then what is published after it joins. */
  function Planned(log: seq<Event>, st: Stream): seq<Event>
    requires st.readAt <= st.joinedAt <= |log|
  {
    log[Skipped(st.after, st.readAt)..st.readAt] + log[st.joinedAt..]
  }

  /** No heartbeat runs ahead of the events sent before it, counted from `base`. */
  predicate Calm(frames: seq<Frame>, base: nat) {
    forall k :: 0 <= k < |frames| ==> InStep(frames, base, k)
  }

  predicate InStep(frames: seq<Frame>, base: nat, k: nat)
    requires k < |frames|
  {
    frames[k].HeartbeatFrame? ==> frames[k].sequence <= base + |Sent(frames[..k])|
  }

  ghost predicate StreamInv(ch: Channel, id: nat, st: Stream) {
    && st.readAt <= st.joinedAt <= |ch.log|
    && Sent(st.frames) <= Planned(ch.log, st)
    && TerminalLast(Sent(st.frames))
    && (st.readAt == st.joinedAt ==> (Calm(st.frames, Skipped(st.after, st.readAt)) <==> !st.hurried))
    && (st.phase.Waiting? ==> st.frames == [] && st.readAt == st.joinedAt == 0 && !st.hurried)
    && (st.phase.Replaying? ==>
          && NoTerminal(Sent(st.frames)) && ch.counter == |ch.log| && st.readAt == st.joinedAt
          && Sent(st.frames) + st.phase.rows == ch.log[Skipped(st.after, st.readAt)..st.readAt])
    && (Subscribed(st.phase) ==>
          && NoTerminal(Sent(st.frames)) && ch.counter == |ch.log|
          && id in ch.queues && Sent(st.frames) + ch.queues[id] == Planned(ch.log, st))
    && (st.phase.Ended? && !st.phase.how.Cut? ==> Closed(ch.log, st))
  }

  /** A stream that ended by itself: what it sent and what it left unsent are its plan for
      the log it had been given, and a check ends it before any terminal event is sent. */
  ghost predicate Closed(log: seq<Event>, st: Stream)
    requires st.readAt <= st.joinedAt && st.phase.Ended?
  {
    && st.joinedAt <= st.phase.reach <= |log|
    && Sent(st.frames) + st.phase.unsent == Planned(log[..st.phase.reach], st)
    && (st.phase.how.Checked? ==> NoTerminal(Sent(st.frames)))
    && (st.phase.how.Told? ==> EndsTerminal(Sent(st.frames)))
  }

  predicate EndsTerminal(events: seq<Event>) {
    events != [] && IsTerminal(events[|events| - 1].kind)
  }

  ghost predicate Inv(s: System) {
    && Numbered(s.ch.log) && s.ch.counter <= |s.ch.log|
    && forall id :: id in s.streams ==> StreamInv(s.ch, id, s.streams[id])
  }

  /** A publish is stored when the counter has caught up with the log, else dropped. */
  lemma PublishStored(ch: Channel, kind: EventType, payload: Payload)
    requires Numbered(ch.log) && ch.counter <= |ch.log|
    ensures PublishTo(ch, kind, payload).log
         == if ch.counter == |ch.log| then ch.log + [Event(ch.counter + 1, kind, payload)] else ch.log
  {
    InsertNumbered(ch.log, 0, Event(ch.counter + 1, kind, payload));
  }

  lemma LogGrows(log: seq<Event>, st: Stream, e: Event)
    requires st.readAt <= st.joinedAt <= |log|
    ensures Planned(log + [e], st) == Planned(log, st) + [e]
    ensures var base := Skipped(st.after, st.readAt); (log + [e])[base..st.readAt] == log[base..st.readAt]
  {
    assert (log + [e])[st.joinedAt..] == log[st.joinedAt..] + [e];
  }

  lemma PublishKeeps(ch: Channel, kind: EventType, payload: Payload, id: nat, st: Stream)
    requires Numbered(ch.log) && ch.counter <= |ch.log| && StreamInv(ch, id, st)
    ensures StreamInv(PublishTo(ch, kind, payload), id, st)
  {
    var e := Event(ch.counter + 1, kind, payload);
    PublishStored(ch, kind, payload);
    GrownStream(ch, PublishTo(ch, kind, payload), id, st, e);
  }

  lemma GrownStream(ch: Channel, next: Channel, id: nat, st: Stream, e: Event)
    requires StreamInv(ch, id, st) && ch.counter <= |ch.log|
    requires if ch.counter == |ch.log| then next.log == ch.log + [e] && next.counter == ch.counter + 1
             else next.log == ch.log
    requires id in ch.queues ==> id in next.queues && next.queues[id] == ch.queues[id] + [e]
    ensures StreamInv(next, id, st)
  {
    if ch.counter == |ch.log| {
      LogGrows(ch.log, st, e);
      if st.phase.Ended? && !st.phase.how.Cut? {
        assert next.log[..st.phase.reach] == ch.log[..st.phase.reach];
      }
      if Subscribed(st.phase) {
        assert Sent(st.frames) + (ch.queues[id] + [e]) == Sent(st.frames) + ch.queues[id] + [e];
      }
    }
  }

  lemma {:induction false} SentKeepsOrder(frames: seq<Frame>, e: Event)
    requires NoTerminal(Sent(frames))
    ensures TerminalLast(Sent(frames + [EventFrame(e)]))
    ensures !IsTerminal(e.kind) ==> NoTerminal(Sent(frames + [EventFrame(e)]))
  {
    SentAppend(frames, EventFrame(e));
    assert (Sent(frames) + [e])[..|Sent(frames)|] == Sent(frames);
  }

  lemma {:induction false} CalmAppend(frames: seq<Frame>, f: Frame, base: nat)
    ensures Calm(frames + [f], base)
       <==> Calm(frames, base) && (f.HeartbeatFrame? ==> f.sequence <= base + |Sent(frames)|)
  {
    var more := frames + [f];
    assert more[..|frames|] == frames;
    forall k | 0 <= k < |frames| ensures InStep(more, base, k) <==> InStep(frames, base, k) {
      assert more[..k] == frames[..k];
    }
    if Calm(more, base) {
      assert InStep(more, base, |frames|);
      forall k | 0 <= k < |frames| ensures InStep(frames, base, k) {
        assert InStep(more, base, k);
      }
    }
  }

  /** The plan for the whole log, and for the log as it was at the replay read. */
  lemma PlanGiven(log: seq<Event>, st: Stream, reach: nat)
    requires st.readAt <= st.joinedAt <= reach <= |log|
    ensures reach == |log| ==> Planned(log[..reach], st) == Planned(log, st)
    ensures reach == st.joinedAt ==> Planned(log[..reach], st) == log[Skipped(st.after, st.readAt)..st.readAt]
  {
    assert log[..reach][st.joinedAt..] == log[st.joinedAt..reach];
    assert log[..reach][Skipped(st.after, st.readAt)..st.readAt] == log[Skipped(st.after, st.readAt)..st.readAt];
    assert log[..|log|] == log;
  }

  /** What sending one event more does to the frames. */
  lemma SendFrames(st: Stream, e: Event, base: nat)
    requires NoTerminal(Sent(st.frames))
    ensures var frames := st.frames + [EventFrame(e)];
            && Sent(frames) == Sent(st.frames) + [e]
            && TerminalLast(Sent(frames)) && (!IsTerminal(e.kind) ==> NoTerminal(Sent(frames)))
            && (Calm(frames, base) <==> Calm(st.frames, base))
  {
    SentAppend(st.frames, EventFrame(e));
    SentKeepsOrder(st.frames, e);
    CalmAppend(st.frames, EventFrame(e), base);
  }

  lemma TakeOne(sent: seq<Event>, e: Event, rest: seq<Event>, plan: seq<Event>)
    requires sent + ([e] + rest) == plan
    ensures sent + [e] <= plan && (sent + [e]) + rest == plan
  {
    assert (sent + [e]) + rest == sent + ([e] + rest);
  }

  /** Sending the next row keeps a stream on its plan. */
  lemma SendRow(ch: Channel, id: nat, st: Stream, e: Event, rest: seq<Event>)
    requires StreamInv(ch, id, st) && st.phase == Replaying([e] + rest)
    ensures StreamInv(ch, id, Send(st, e, Replaying(rest), st.readAt, rest))
  {
    var base := Skipped(st.after, st.readAt);
    PlanGiven(ch.log, st, st.readAt);
    SendFrames(st, e, base);
    TakeOne(Sent(st.frames), e, rest, ch.log[base..st.readAt]);
  }

  /** So does sending the head of the queue and staying live. */
  lemma SendQueued(ch: Channel, id: nat, st: Stream, e: Event, rest: seq<Event>)
    requires StreamInv(ch, id, st) && st.phase.Live? && ch.queues[id] == [e] + rest && !IsTerminal(e.kind)
    ensures StreamInv(ch.(queues := ch.queues[id := rest]), id, Send(st, e, Live, |ch.log|, rest))
  {
    SendFrames(st, e, Skipped(st.after, st.readAt));
    TakeOne(Sent(st.frames), e, rest, Planned(ch.log, st));
  }

  /** And so does ending with it, when the queue is given up. */
  lemma SendLast(ch: Channel, id: nat, st: Stream, e: Event, rest: seq<Event>)
    requires StreamInv(ch, id, st) && st.phase.Live? && ch.queues[id] == [e] + rest && IsTerminal(e.kind)
    ensures StreamInv(UnsubscribeFrom(ch.(queues := ch.queues[id := rest]), id), id, Send(st, e, Live, |ch.log|, rest))
  {
    PlanGiven(ch.log, st, |ch.log|);
    SendFrames(st, e, Skipped(st.after, st.readAt));
    TakeOne(Sent(st.frames), e, rest, Planned(ch.log, st));
  }

  lemma RestoredCounter(ch: Channel)
    requires Numbered(ch.log) && ch.counter <= |ch.log|
    ensures Restored(ch) == ch.(counter := |ch.log|)
  {
  }

  /** A stream is not disturbed by what happens to the queues of others. */
  lemma OthersKept(ch: Channel, ch': Channel, id: nat, st: Stream)
    requires StreamInv(ch, id, st) && ch'.log == ch.log
    requires ch'.counter == ch.counter || ch'.counter == |ch.log|
    requires id in ch.queues ==> id in ch'.queues && ch'.queues[id] == ch.queues[id]
    ensures StreamInv(ch', id, st)
  {
  }

  /** An update of one stream keeps the invariant if the updated stream satisfies it. */
  lemma UpdateKeeps(s: System, id: nat, ch: Channel, st: Stream)
    requires Inv(s) && ch.log == s.ch.log && (ch.counter == s.ch.counter || ch.counter == |ch.log|)
    requires forall q :: q in s.ch.queues && q != id ==> q in ch.queues && ch.queues[q] == s.ch.queues[q]
    requires StreamInv(Update(s, id, ch, st).ch, id, st)
    ensures Inv(Update(s, id, ch, st))
  {
    var next := Update(s, id, ch, st);
    forall k | k in next.streams ensures StreamInv(next.ch, k, next.streams[k]) {
      if k != id {
        OthersKept(s.ch, next.ch, k, s.streams[k]);
      }
    }
  }

  lemma ReadStream(ch: Channel, id: nat, st: Stream)
    requires Numbered(ch.log) && ch.counter <= |ch.log| && st.phase.Waiting? && StreamInv(ch, id, st)
    ensures StreamInv(Restored(ch), id, ReadReplay(ch, st))
  {
    RestoredCounter(ch);
    ListAfterNumbered(ch.log, 0, st.after);
    StartedStream(Restored(ch), id, ReadReplay(ch, st), ch.log[Skipped(st.after, |ch.log|)..]);
  }

  /** A stream that has read its rows and sent none. */
  lemma StartedStream(ch: Channel, id: nat, st: Stream, rows: seq<Event>)
    requires ch.counter == |ch.log| && st.frames == [] && st.phase == Replaying(rows) && !st.hurried
    requires st.readAt == st.joinedAt == |ch.log| && rows == ch.log[Skipped(st.after, |ch.log|)..]
    ensures StreamInv(ch, id, st)
  {
    assert Sent(st.frames) == [];
    assert rows == ch.log[Skipped(st.after, st.readAt)..st.readAt];
    assert Sent(st.frames) + rows == rows;
  }

  lemma ReadKeeps(s: System, id: nat)
    requires Inv(s) && Enabled(s, Read(id))
    ensures Inv(Act(s, Read(id)))
  {
    RestoredCounter(s.ch);
    ReadStream(s.ch, id, s.streams[id]);
    UpdateKeeps(s, id, Restored(s.ch), ReadReplay(s.ch, s.streams[id]));
  }

  lemma ReplayStream(ch: Channel, id: nat, st: Stream)
    requires StreamInv(ch, id, st) && st.phase.Replaying? && st.phase.rows != []
    ensures StreamInv(ch, id, YieldRow(st))
  {
    var e, rest := st.phase.rows[0], st.phase.rows[1..];
    assert st.phase.rows == [e] + rest;
    SendRow(ch, id, st, e, rest);
  }

  lemma ReplayKeeps(s: System, id: nat)
    requires Inv(s) && Enabled(s, Replay(id))
    ensures Inv(Act(s, Replay(id)))
  {
    ReplayStream(s.ch, id, s.streams[id]);
  }

  lemma JoinStream(ch: Channel, id: nat, st: Stream)
    requires StreamInv(ch, id, st) && st.phase.Replaying? && st.phase.rows == []
    ensures StreamInv(SubscribeTo(ch, id), id, st.(phase := Live, joinedAt := |ch.log|))
  {
    assert Sent(st.frames) + [] == Sent(st.frames);
  }

  lemma JoinKeeps(s: System, id: nat)
    requires Inv(s) && Enabled(s, Join(id))
    ensures Inv(Act(s, Join(id)))
  {
    var st := s.streams[id];
    JoinStream(s.ch, id, st);
    UpdateKeeps(s, id, SubscribeTo(s.ch, id), st.(phase := Live, joinedAt := |s.ch.log|));
  }

  lemma DeliverStream(ch: Channel, id: nat, st: Stream)
    requires StreamInv(ch, id, st) && st.phase.Live? && ch.queues[id] != []
    ensures var e, rest := ch.queues[id][0], ch.queues[id][1..];
            var taken, sent := ch.(queues := ch.queues[id := rest]), YieldQueued(ch, st, e, rest);
            StreamInv(if sent.phase.Ended? then UnsubscribeFrom(taken, id) else taken, id, sent)
  {
    var e, rest := ch.queues[id][0], ch.queues[id][1..];
    assert ch.queues[id] == [e] + rest;
    if IsTerminal(e.kind) {
      SendLast(ch, id, st, e, rest);
    } else {
      SendQueued(ch, id, st, e, rest);
    }
  }

  lemma DeliverKeeps(s: System, id: nat)
    requires Inv(s) && Enabled(s, Deliver(id))
    ensures Inv(Act(s, Deliver(id)))
  {
    var st := s.streams[id];
    var e, rest := s.ch.queues[id][0], s.ch.queues[id][1..];
    DeliverStream(s.ch, id, st);
    UpdateKeeps(s, id, s.ch.(queues := s.ch.queues[id := rest]), YieldQueued(s.ch, st, e, rest));
  }

  lemma HeartbeatStream(ch: Channel, id: nat, st: Stream)
    requires StreamInv(ch, id, st) && st.phase.Live?
    ensures StreamInv(ch, id, YieldHeartbeat(ch, st, ch.queues[id]))
  {
    var next := YieldHeartbeat(ch, st, ch.queues[id]);
    var base := Skipped(st.after, st.readAt);
    SentAppend(st.frames, HeartbeatFrame(ch.counter));
    assert Sent(next.frames) == Sent(st.frames);
    CalmAppend(st.frames, HeartbeatFrame(ch.counter), base);
    if st.readAt == st.joinedAt {
      assert |Sent(st.frames)| + |ch.queues[id]| == |Planned(ch.log, st)| == |ch.log| - base;
    }
  }

  lemma HeartbeatKeeps(s: System, id: nat)
    requires Inv(s) && Enabled(s, SendHeartbeat(id))
    ensures Inv(Act(s, SendHeartbeat(id)))
  {
    HeartbeatStream(s.ch, id, s.streams[id]);
    UpdateKeeps(s, id, s.ch, YieldHeartbeat(s.ch, s.streams[id], s.ch.queues[id]));
  }

  lemma CheckStream(ch: Channel, id: nat, st: Stream)
    requires StreamInv(ch, id, st) && st.phase.Beating?
    ensures var next := Resumed(ch, st, ch.queues[id]);
            StreamInv(if ch.terminal then UnsubscribeFrom(ch, id) else ch, id, next)
  {
    PlanGiven(ch.log, st, |ch.log|);
  }

  lemma CheckKeeps(s: System, id: nat)
    requires Inv(s) && Enabled(s, CheckTerminal(id))
    ensures Inv(Act(s, CheckTerminal(id)))
  {
    CheckStream(s.ch, id, s.streams[id]);
    UpdateKeeps(s, id, s.ch, Resumed(s.ch, s.streams[id], s.ch.queues[id]));
  }

  lemma PublishKeepsAll(s: System, kind: EventType, payload: Payload)
    requires Inv(s)
    ensures Inv(Act(s, Publish(kind, payload)))
  {
    PublishStored(s.ch, kind, payload);
    forall id | id in s.streams ensures StreamInv(PublishTo(s.ch, kind, payload), id, s.streams[id]) {
      PublishKeeps(s.ch, kind, payload, id, s.streams[id]);
    }
  }

  lemma OpenedStream(ch: Channel, id: nat, after: int)
    ensures StreamInv(ch, id, Opened(after))
  {
    assert Sent([]) == [];
  }

  lemma OpenKeeps(s: System, id: nat, after: int)
    requires Inv(s) && Enabled(s, Open(id, after))
    ensures Inv(Act(s, Open(id, after)))
  {
    OpenedStream(s.ch, id, after);
  }

  lemma CutStream(ch: Channel, id: nat, st: Stream)
    requires StreamInv(ch, id, st) && !st.phase.Ended?
    ensures StreamInv(UnsubscribeFrom(ch, id), id, CutOff(st))
  {
  }

  lemma DisconnectKeeps(s: System, id: nat)
    requires Inv(s) && Enabled(s, Disconnect(id))
    ensures Inv(Act(s, Disconnect(id)))
  {
    CutStream(s.ch, id, s.streams[id]);
    UpdateKeeps(s, id, s.ch, CutOff(s.streams[id]));
  }

  lemma RestartKeeps(s: System)
    requires Inv(s)
    ensures Inv(Act(s, Restart))
  {
    var next := Act(s, Restart);
    forall id | id in next.streams ensures StreamInv(next.ch, id, next.streams[id]) {
      assert StreamInv(s.ch, id, s.streams[id]);
    }
  }

  /** Every action keeps the invariant. */
  lemma ActKeeps(s: System, a: Action)
    requires Inv(s) && Enabled(s, a)
    ensures Inv(Act(s, a))
  {
    match a
    case Publish(kind, payload) => PublishKeepsAll(s, kind, payload);
    case Open(id, after) => OpenKeeps(s, id, after);
    case Read(id) => ReadKeeps(s, id);
    case Replay(id) => ReplayKeeps(s, id);
    case Join(id) => JoinKeeps(s, id);
    case Deliver(id) => DeliverKeeps(s, id);
    case SendHeartbeat(id) => HeartbeatKeeps(s, id);
    case CheckTerminal(id) => CheckKeeps(s, id);
    case Disconnect(id) => DisconnectKeeps(s, id);
    case Restart => RestartKeeps(s);
  }

  lemma {:induction false} InvAlways(actions: seq<Action>)
    ensures Inv(Execute(Start, actions))
    decreases |actions|
  {
    if actions != [] {
      InvAlways(actions[..|actions| - 1]);
      var before, a := Execute(Start, actions[..|actions| - 1]), actions[|actions| - 1];
      if Enabled(before, a) {
        ActKeeps(before, a);
      }
    }
  }

  // ---- the promises --------------------------------------------------------

  /** The states some interleaving leads to. */
  ghost predicate Reachable(s: System) {
    exists actions :: s == Execute(Start, actions)
  }

  lemma ReachableInv(s: System)
    requires Reachable(s)
    ensures Inv(s)
  {
    var actions :| s == Execute(Start, actions);
    InvAlways(actions);
  }

  /** In any interleaving, restarts included, the stored log is numbered 1..n. */
  lemma LogIsNumbered(s: System)
    requires Reachable(s)
    ensures Numbered(s.ch.log)
  {
    ReachableInv(s);
  }

  /** The events published, in order, as long as the process lives. */
  function Published(actions: seq<Action>): seq<(EventType, Payload)> {
    if actions == [] then []
    else
      var last := actions[|actions| - 1];
      Published(actions[..|actions| - 1]) + if last.Publish? then [(last.kind, last.payload)] else []
  }

  function Contents(log: seq<Event>): seq<(EventType, Payload)> {
    seq(|log|, i requires 0 <= i < |log| => (log[i].kind, log[i].payload))
  }

  lemma ActLog(s: System, a: Action)
    requires Inv(s) && Enabled(s, a) && !a.Restart? && s.ch.counter == |s.ch.log|
    ensures var ch := Act(s, a).ch;
            && ch.counter == |ch.log|
            && Contents(ch.log) == Contents(s.ch.log) + if a.Publish? then [(a.kind, a.payload)] else []
  {
    if a.Publish? {
      PublishStored(s.ch, a.kind, a.payload);
      ContentsSnoc(s.ch.log, Event(s.ch.counter + 1, a.kind, a.payload));
    } else {
      LogUntouched(s, a);
    }
  }

  lemma LogUntouched(s: System, a: Action)
    requires Numbered(s.ch.log) && Enabled(s, a) && !a.Restart? && !a.Publish? && s.ch.counter == |s.ch.log|
    ensures Act(s, a).ch.log == s.ch.log && Act(s, a).ch.counter == s.ch.counter
  {
    RestoredCounter(s.ch);
  }

  lemma ContentsSnoc(log: seq<Event>, e: Event)
    ensures Contents(log + [e]) == Contents(log) + [(e.kind, e.payload)]
  {
  }

  /** In one process lifetime the log is exactly what was published, in order. */
  lemma {:induction false} LogIsComplete(actions: seq<Action>)
    requires Restart !in actions
    ensures var ch := Execute(Start, actions).ch;
            ch.counter == |ch.log| && Contents(ch.log) == Published(actions)
    decreases |actions|
  {
    if actions != [] {
      var init, a := actions[..|actions| - 1], actions[|actions| - 1];
      LogIsComplete(init);
      InvAlways(init);
      assert a in actions;
      if Enabled(Execute(Start, init), a) {
        ActLog(Execute(Start, init), a);
      }
    }
  }

  /** What every stream keeps to in every reachable state. */
  lemma OnPlan(s: System, id: nat)
    requires Reachable(s) && id in s.streams
    ensures var st := s.streams[id];
            && Numbered(s.ch.log) && st.readAt <= st.joinedAt <= |s.ch.log|
            && Sent(st.frames) <= Planned(s.ch.log, st)
            && TerminalLast(Sent(st.frames)) && (!st.phase.Ended? ==> NoTerminal(Sent(st.frames)))
            && (st.readAt == st.joinedAt ==> (Calm(st.frames, Skipped(st.after, st.readAt)) <==> !st.hurried))
  {
    ReachableInv(s);
    assert StreamInv(s.ch, id, s.streams[id]);
  }

  /** What a stream sends is a strictly increasing subsequence of the log: rows of its replay
      read above `after`, then events published since it joined, whatever `after` is. */
  lemma StreamIsIncreasing(s: System, id: nat)
    requires Reachable(s) && id in s.streams
    ensures var sent := Sent(s.streams[id].frames);
            && (forall i, j :: 0 <= i < j < |sent| ==> sent[i].sequence < sent[j].sequence)
            && (forall i :: 0 <= i < |sent| ==>
                  1 <= sent[i].sequence <= |s.ch.log| && s.ch.log[sent[i].sequence - 1] == sent[i])
    ensures var st := s.streams[id];
            forall i :: 0 <= i < |Sent(st.frames)| ==> FromPlan(st, Sent(st.frames)[i].sequence)
  {
    OnPlan(s, id);
    PlanIsIncreasing(s.ch.log, s.streams[id], Sent(s.streams[id].frames));
  }

  /** A number the stream is to send. */
  predicate FromPlan(st: Stream, sequence: nat) {
    st.after < sequence <= st.readAt || st.joinedAt < sequence
  }

  lemma PlanIsIncreasing(log: seq<Event>, st: Stream, sent: seq<Event>)
    requires Numbered(log) && st.readAt <= st.joinedAt <= |log| && sent <= Planned(log, st)
    ensures forall i, j :: 0 <= i < j < |sent| ==> sent[i].sequence < sent[j].sequence
    ensures forall i :: 0 <= i < |sent| ==> 1 <= sent[i].sequence <= |log| && log[sent[i].sequence - 1] == sent[i]
    ensures forall i :: 0 <= i < |sent| ==> FromPlan(st, sent[i].sequence)
  {
    var base := Skipped(st.after, st.readAt);
    var read := st.readAt - base;
    forall i | 0 <= i < |sent|
      ensures sent[i] == log[if i < read then base + i else st.joinedAt + i - read]
      ensures sent[i].sequence == 1 + if i < read then base + i else st.joinedAt + i - read
    {
      assert sent[i] == Planned(log, st)[i];
    }
  }

  /** So no number at or below `after` is sent by a stream that had joined a log at least that
      long, and none ever from between its replay read and its subscription. */
  lemma NothingTwice(s: System, id: nat, i: nat)
    requires Reachable(s) && id in s.streams && i < |Sent(s.streams[id].frames)|
    ensures var st := s.streams[id];
            && (st.after <= st.joinedAt ==> st.after < Sent(st.frames)[i].sequence)
            && !(st.readAt < Sent(st.frames)[i].sequence <= st.joinedAt)
  {
    StreamIsIncreasing(s, id);
    assert FromPlan(s.streams[id], Sent(s.streams[id].frames)[i].sequence);
  }

  /** One asked to start beyond the end of the log does: live events are not compared with
      `after`, so the next event published goes out however far below it lies. */
  lemma StartBeyondLog(s: System, id: nat, kind: EventType, payload: Payload)
    requires Reachable(s) && id in s.streams && s.streams[id].phase.Live? && s.streams[id].after > |s.ch.log|
    requires id in s.ch.queues && s.ch.queues[id] == []
    ensures var e := Event(|s.ch.log| + 1, kind, payload);
            var told := Act(s, Publish(kind, payload));
            && Enabled(told, Deliver(id))
            && Sent(Act(told, Deliver(id)).streams[id].frames) == Sent(s.streams[id].frames) + [e]
            && e.sequence <= s.streams[id].after
  {
    SubscribedIsCounted(s, id);
    SentAppend(s.streams[id].frames, EventFrame(Event(|s.ch.log| + 1, kind, payload)));
  }

  lemma SubscribedIsCounted(s: System, id: nat)
    requires Reachable(s) && id in s.streams && Subscribed(s.streams[id].phase)
    ensures Numbered(s.ch.log) && s.ch.counter == |s.ch.log| && id in s.ch.queues
  {
    ReachableInv(s);
    assert StreamInv(s.ch, id, s.streams[id]);
  }

  /** A stream stops at the first terminal event it delivers. */
  lemma StreamStopsAtTerminal(s: System, id: nat, i: nat)
    requires Reachable(s) && id in s.streams
    requires i < |Sent(s.streams[id].frames)| && IsTerminal(Sent(s.streams[id].frames)[i].kind)
    ensures i == |Sent(s.streams[id].frames)| - 1 && s.streams[id].phase.Ended?
  {
    OnPlan(s, id);
  }

  /** And it stops nowhere else: a stream that no disconnect or restart cut off has ended either with
      a terminal event, the last it delivered, or at the check after a heartbeat. */
  lemma EndsOnlyTold(s: System, id: nat)
    requires Reachable(s) && id in s.streams && s.streams[id].phase.Ended?
    ensures s.streams[id].phase.how.Told? ==> EndsTerminal(Sent(s.streams[id].frames))
    ensures EndsTerminal(Sent(s.streams[id].frames)) ==> !s.streams[id].phase.how.Checked?
  {
    ReachableInv(s);
    assert StreamInv(s.ch, id, s.streams[id]);
  }

  // ---- the run's end and the check -----------------------------------------

  /** A terminal event has been published since the process started. */
  ghost predicate EndPublished(actions: seq<Action>) {
    exists j :: 0 <= j < |actions| && EndsAt(actions, j)
  }

  /** The action at `j` publishes a terminal event, and no restart follows it. */
  ghost predicate EndsAt(actions: seq<Action>, j: nat)
    requires j < |actions|
  {
    actions[j].Publish? && IsTerminal(actions[j].kind) && forall i :: j < i < |actions| ==> actions[i] != Restart
  }

  lemma EndPublishedSnoc(actions: seq<Action>, a: Action)
    ensures EndPublished(actions + [a])
       <==> a != Restart && (EndPublished(actions) || (a.Publish? && IsTerminal(a.kind)))
  {
    var more, n := actions + [a], |actions|;
    assert more[n] == a;
    assert EndsAt(more, n) <==> a.Publish? && IsTerminal(a.kind);
    forall j | 0 <= j < n ensures EndsAt(more, j) <==> EndsAt(actions, j) && a != Restart {
      assert forall i :: 0 <= i < n ==> more[i] == actions[i];
    }
  }

  /** In every interleaving the run counts as ended exactly when that is so. */
  lemma {:induction false} TerminalIff(actions: seq<Action>)
    ensures Execute(Start, actions).ch.terminal <==> EndPublished(actions)
    decreases |actions|
  {
    if actions != [] {
      var init, a := actions[..|actions| - 1], actions[|actions| - 1];
      TerminalIff(init);
      assert actions == init + [a];
      EndPublishedSnoc(init, a);
    }
  }

  predicate EndedAtCheck(s: System, id: nat) {
    id in s.streams && s.streams[id].phase.Ended? && s.streams[id].phase.how.Checked?
  }

  /** A stream that has ended at the check ended at a time when a terminal event had been
      published since the process started. */
  lemma {:induction false} CheckedAfterEnd(actions: seq<Action>, id: nat) returns (k: nat)
    requires EndedAtCheck(Execute(Start, actions), id)
    ensures k < |actions| && actions[k] == CheckTerminal(id) && EndPublished(actions[..k])
    ensures !EndedAtCheck(Execute(Start, actions[..k]), id) && EndedAtCheck(Execute(Start, actions[..k + 1]), id)
    decreases |actions|
  {
    var n := |actions| - 1;
    if EndedAtCheck(Execute(Start, actions[..n]), id) {
      k := CheckedAfterEnd(actions[..n], id);
      assert actions[..n][..k] == actions[..k] && actions[..n][..k + 1] == actions[..k + 1];
    } else {
      k := n;
      TerminalIff(actions[..n]);
      assert actions[..n + 1] == actions;
      OnlyCheckEnds(Execute(Start, actions[..n]), actions[n], id);
    }
  }

  lemma OnlyCheckEnds(s: System, a: Action, id: nat)
    requires Enabled(s, a) && !EndedAtCheck(s, id) && EndedAtCheck(Act(s, a), id)
    ensures a == CheckTerminal(id) && s.ch.terminal
  {
  }

  /** As long as none has been, a stream that has sent a heartbeat goes on live: nothing of its
      queue or of the channel is touched, and it delivers the next event published after what
      is queued. */
  lemma {:induction false} BeatGoesOn(actions: seq<Action>, id: nat, kind: EventType, payload: Payload)
    requires id in Execute(Start, actions).streams && Execute(Start, actions).streams[id].phase.Beating?
    requires !EndPublished(actions)
    ensures var s := Execute(Start, actions);
            && Enabled(s, CheckTerminal(id))
            && var next := Act(s, CheckTerminal(id));
               && next.ch == s.ch && next.streams == s.streams[id := s.streams[id].(phase := Live)]
               && var told, e := Act(next, Publish(kind, payload)), Event(|s.ch.log| + 1, kind, payload);
                  && Enabled(told, Deliver(id)) && told.ch.queues[id] == s.ch.queues[id] + [e]
                  && (s.ch.queues[id] == [] ==>
                        Act(told, Deliver(id)).streams[id].frames == s.streams[id].frames + [EventFrame(e)])
  {
    var s := Execute(Start, actions);
    TerminalIff(actions);
    SubscribedIsCounted(s, id);
    assert s.ch.queues[id] == [] ==> s.ch.queues[id] + [Event(|s.ch.log| + 1, kind, payload)]
                                     == [Event(|s.ch.log| + 1, kind, payload)];
  }

  /** A subscribed stream has delivered, or holds queued, the whole tail of the log after
      `after`, or after the end of its replay read when `after` lies beyond that, exactly when
      nothing was published between its replay read and its subscription. */
  lemma LiveStreamIsGapFree(s: System, id: nat)
    requires Reachable(s) && id in s.streams && Subscribed(s.streams[id].phase)
    ensures var st := s.streams[id];
            && id in s.ch.queues && st.readAt <= |s.ch.log|
            && (Sent(st.frames) + s.ch.queues[id] == s.ch.log[Skipped(st.after, st.readAt)..]
                <==> st.readAt == st.joinedAt)
  {
    ReachableInv(s);
    assert StreamInv(s.ch, id, s.streams[id]);
    PlanIsTail(s.ch.log, s.streams[id]);
  }

  lemma PlanIsTail(log: seq<Event>, st: Stream)
    requires st.readAt <= st.joinedAt <= |log|
    ensures Planned(log, st) == log[Skipped(st.after, st.readAt)..] <==> st.readAt == st.joinedAt
  {
    assert |Planned(log, st)| == |log[Skipped(st.after, st.readAt)..]| - (st.joinedAt - st.readAt);
  }

  /** What an ended stream has delivered. One that no disconnect or restart cut off has sent
      the whole log it was given, from there on too, if and only if nothing was published
      between its replay read and its subscription and it had nothing left to send when it
      ended. With nothing published there, what it leaves unsent is exactly what is missing. */
  lemma ClosedStreamIsComplete(s: System, id: nat)
    requires Reachable(s) && id in s.streams && s.streams[id].phase.Ended? && !s.streams[id].phase.how.Cut?
    ensures var st := s.streams[id];
            var base := Skipped(st.after, st.readAt);
            && base <= st.phase.reach <= |s.ch.log|
            && (Sent(st.frames) == s.ch.log[base..st.phase.reach]
                <==> st.readAt == st.joinedAt && st.phase.unsent == [])
            && (st.readAt == st.joinedAt ==> Sent(st.frames) + st.phase.unsent == s.ch.log[base..st.phase.reach])
  {
    ReachableInv(s);
    var st := s.streams[id];
    assert StreamInv(s.ch, id, st);
    var given := s.ch.log[..st.phase.reach];
    PlanIsTail(given, st);
    assert given[Skipped(st.after, st.readAt)..] == s.ch.log[Skipped(st.after, st.readAt)..st.phase.reach];
    assert |Sent(st.frames) + st.phase.unsent| == |Planned(given, st)|;
  }

  lemma CheckedIsUntold(s: System, id: nat)
    requires Reachable(s) && id in s.streams && s.streams[id].phase.Ended? && s.streams[id].phase.how.Checked?
    ensures NoTerminal(Sent(s.streams[id].frames))
  {
    ReachableInv(s);
    assert StreamInv(s.ch, id, s.streams[id]);
  }

  lemma TailOfSum(sent: seq<Event>, unsent: seq<Event>, all: seq<Event>, k: nat)
    requires sent + unsent == all && k < |all| && NoTerminal(sent) && IsTerminal(all[k].kind)
    ensures all[k] in unsent
  {
    forall j | 0 <= j < |sent| ensures !IsTerminal(all[j].kind) {
      assert all[j] == sent[j];
    }
    assert all[k] == unsent[k - |sent|];
  }

  /** A stream that ends at the check after a heartbeat has sent no terminal event: each one
      in the log it was to send is among what it leaves unsent. */
  lemma CheckLeavesTheEnd(s: System, id: nat, i: nat)
    requires Reachable(s) && id in s.streams && s.streams[id].readAt == s.streams[id].joinedAt
    requires s.streams[id].phase.Ended? && s.streams[id].phase.how.Checked?
    requires var st := s.streams[id]; Skipped(st.after, st.readAt) <= i < st.phase.reach
    requires i < |s.ch.log| && IsTerminal(s.ch.log[i].kind)
    ensures s.ch.log[i] in s.streams[id].phase.unsent
  {
    var st := s.streams[id];
    var base, sent := Skipped(st.after, st.readAt), Sent(st.frames);
    ClosedStreamIsComplete(s, id);
    CheckedIsUntold(s, id);
    TailOfSum(sent, st.phase.unsent, s.ch.log[base..st.phase.reach], i - base);
  }

  /** So from any point where a stream stands between a heartbeat and that check, a terminal
      event published then is never delivered by it, whatever was queued before. */
  lemma EndPublishedAtCheckIsLost(s: System, id: nat, kind: EventType, payload: Payload)
    requires Reachable(s) && id in s.streams && s.streams[id].phase.Beating? && IsTerminal(kind)
    ensures var e := Event(|s.ch.log| + 1, kind, payload);
            var told := Act(s, Publish(kind, payload));
            && Enabled(told, CheckTerminal(id)) && told.ch.log == s.ch.log + [e]
            && var next := Act(told, CheckTerminal(id)).streams[id];
               && next.phase == Ended(Checked, |s.ch.log| + 1, s.ch.queues[id] + [e])
               && next.frames == s.streams[id].frames
  {
    SubscribedIsCounted(s, id);
    PublishStored(s.ch, kind, payload);
  }

  lemma {:induction false} ExecuteMore(actions: seq<Action>, a: Action)
    requires Enabled(Execute(Start, actions), a)
    ensures Execute(Start, actions + [a]) == Act(Execute(Start, actions), a)
    ensures Reachable(Act(Execute(Start, actions), a))
  {
    assert (actions + [a])[..|actions|] == actions;
  }

  /** One action more is reached too. */
  lemma ReachableNext(s: System, a: Action)
    requires Reachable(s) && Enabled(s, a)
    ensures Reachable(Act(s, a))
  {
    var actions :| s == Execute(Start, actions);
    ExecuteMore(actions, a);
  }

  const Idle: Stream := Stream(0, Live, [], 0, 0, false)

  /** A stream on an empty log, joined and idle. */
  lemma IdleIsReachable()
    ensures Reachable(System(Channel(0, [], map[0 := []], false), map[0 := Idle]))
  {
    assert Start == Execute(Start, []);
    var first := Act(Start, Open(0, 0));
    ReachableNext(Start, Open(0, 0));
    var reading := Act(first, Read(0));
    ReachableNext(first, Read(0));
    ReachableNext(reading, Join(0));
    assert Act(reading, Join(0)) == System(Channel(0, [], map[0 := []], false), map[0 := Idle]);
  }

  /** The smallest such loss: the stream beats over an empty queue, the run completes, and
      the stream ends without having delivered anything. */
  lemma CheckLosesCompletion(payload: Payload)
    ensures exists s :: Reachable(s) && 0 in s.streams && s.ch.log == [Event(1, RunCompleted, payload)]
                        && s.streams[0] == Idle.(phase := Ended(Checked, 1, s.ch.log), frames := [HeartbeatFrame(0)])
  {
    IdleIsReachable();
    var idle := System(Channel(0, [], map[0 := []], false), map[0 := Idle]);
    var beating := Act(idle, SendHeartbeat(0));
    ReachableNext(idle, SendHeartbeat(0));
    var told := Act(beating, Publish(RunCompleted, payload));
    ReachableNext(beating, Publish(RunCompleted, payload));
    EndPublishedAtCheckIsLost(beating, 0, RunCompleted, payload);
    ReachableNext(told, CheckTerminal(0));
    var s := Act(told, CheckTerminal(0));
    assert s.ch.log == [Event(1, RunCompleted, payload)];
  }

  /** A frame sequence without gaps: the events are those of the log from `base` on,
      and no heartbeat runs ahead of them. */
  ghost predicate GapFree(log: seq<Event>, base: nat, frames: seq<Frame>) {
    && base + |Sent(frames)| <= |log|
    && Sent(frames) == log[base..base + |Sent(frames)|]
    && Calm(frames, base)
  }

  /** With no publish in that window, what a stream has sent at any time is a contiguous
      stretch of the log; a heartbeat runs ahead of it exactly when one met a filled queue. */
  lemma StreamIsGapFree(s: System, id: nat)
    requires Reachable(s) && id in s.streams && s.streams[id].readAt == s.streams[id].joinedAt
    ensures var st := s.streams[id];
            var base, k := Skipped(st.after, st.readAt), |Sent(st.frames)|;
            && base + k <= |s.ch.log| && Sent(st.frames) == s.ch.log[base..base + k]
            && (GapFree(s.ch.log, base, st.frames) <==> !st.hurried)
  {
    OnPlan(s, id);
    SentIsStretch(s.ch.log, s.streams[id]);
  }

  lemma {:induction false} SentIsStretch(log: seq<Event>, st: Stream)
    requires st.readAt == st.joinedAt <= |log| && Sent(st.frames) <= Planned(log, st)
    ensures var base, k := Skipped(st.after, st.readAt), |Sent(st.frames)|;
            base + k <= |log| && Sent(st.frames) == log[base..base + k]
  {
    PlanIsTail(log, st);
    PrefixOfTail(log, Skipped(st.after, st.readAt), Sent(st.frames));
  }

  lemma PrefixOfTail(log: seq<Event>, base: nat, sent: seq<Event>)
    requires base <= |log| && sent <= log[base..]
    ensures base + |sent| <= |log| && sent == log[base..base + |sent|]
  {
    assert log[base..][..|sent|] == log[base..base + |sent|];
  }

  /** A replay read brings the counter up to the last stored sequence, so the next publish
      is stored; without one, a publish is stored only if the counter is already there. */
  lemma ReplayRestoresCounter(s: System, kind: EventType, payload: Payload)
    requires Reachable(s)
    ensures var ch := s.ch;
            && Restored(ch).counter == |ch.log|
            && PublishTo(Restored(ch), kind, payload).log == ch.log + [Event(|ch.log| + 1, kind, payload)]
            && (PublishTo(ch, kind, payload).log != ch.log <==> ch.counter == |ch.log|)
  {
    ReachableInv(s);
    RestoredCounter(s.ch);
    PublishStored(s.ch, kind, payload);
    PublishStored(Restored(s.ch), kind, payload);
  }

  /** The loss this allows: from any point on, an event published right after a restart, before
      any replay read, is dropped if and only if something had been stored before. */
  lemma PublishLostAfterRestart(s: System, kind: EventType, payload: Payload)
    requires Reachable(s)
    ensures var next := Act(Act(s, Restart), Publish(kind, payload));
            next.ch.log == s.ch.log <==> s.ch.log != []
  {
    ReachableInv(s);
    PublishStored(Act(s, Restart).ch, kind, payload);
  }
}
