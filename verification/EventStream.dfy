/** The daemon's event stream: clients are registered first and handed their backlog later,
    while the daemon's own watcher broadcasts in between. */
module EventStream {
  import opened Wrappers
  import opened Events
  import opened Retention
  import opened Watcher

  function RelevantOnly(agent: Option<string>, events: seq<Event>): seq<Event> {
    if events == [] then []
    else
      RelevantOnly(agent, events[..|events| - 1]) +
      if Relevant(agent, events[|events| - 1]) then [events[|events| - 1]] else []
  }

  lemma {:induction false} RelevantOnlyMeaning(agent: Option<string>, events: seq<Event>)
    ensures forall e :: e in RelevantOnly(agent, events) <==> e in events && Relevant(agent, e)
  {
    if events != [] {
      assert events == events[..|events| - 1] + [events[|events| - 1]];
      RelevantOnlyMeaning(agent, events[..|events| - 1]);
    }
  }

  lemma {:induction false} RelevantOnlyOrdered(agent: Option<string>, events: seq<Event>)
    requires Increasing(events)
    ensures Increasing(RelevantOnly(agent, events))
  {
    if events != [] {
      var init, last := events[..|events| - 1], events[|events| - 1];
      var chosen := RelevantOnly(agent, init);
      RelevantOnlyOrdered(agent, init);
      RelevantOnlyMeaning(agent, init);
      forall i | 0 <= i < |chosen| ensures chosen[i].seqNo < last.seqNo {
        assert chosen[i] in init;
        var j :| 0 <= j < |init| && init[j] == chosen[i];
        assert events[j] == chosen[i];
      }
    }
  }

  function Raised(cursor: int, events: seq<Event>): int {
    if events != [] && HighSeq(events) > cursor then HighSeq(events) else cursor
  }

  class SseClient {
    const agent: Option<string>
    var cursor: int
    var sent: seq<Event>

    constructor (agent: Option<string>, cursor: int)
      ensures this.agent == agent && this.cursor == cursor && sent == []
    {
      this.agent, this.cursor, sent := agent, cursor, [];
    }

    /** sendSSE: writes every event and moves the client's cursor up, never down. */
    method Send(events: seq<Event>)
      modifies this
      ensures sent == old(sent) + events && cursor == Raised(old(cursor), events)
      ensures cursor >= old(cursor) && forall e | e in events :: e.seqNo <= cursor
      ensures cursor == old(cursor) || exists e :: e in events && e.seqNo == cursor
    {
      HighSeqBounds(events);
      for i := 0 to |events|
        invariant sent == old(sent) + events[..i] && cursor == Raised(old(cursor), events[..i])
      {
        assert events[..i + 1][..i] == events[..i];
        HighSeqBounds(events[..i + 1]);
        sent := sent + [events[i]];
        if events[i].seqNo > cursor { cursor := events[i].seqNo; }
      }
      assert events[..|events|] == events;
    }
  }

  method Filter(agent: Option<string>, events: seq<Event>) returns (relevant: seq<Event>)
    ensures relevant == RelevantOnly(agent, events)
    ensures forall e :: e in relevant <==>
              e in events && (agent.None? || e.to == "*" || agent.value in {e.to, e.from})
    ensures Increasing(events) ==> Increasing(relevant)
  {
    RelevantOnlyMeaning(agent, events);
    if Increasing(events) { RelevantOnlyOrdered(agent, events); }
    relevant := [];
    for i := 0 to |events|
      invariant relevant == RelevantOnly(agent, events[..i])
    {
      assert events[..i + 1][..i] == events[..i];
      if Relevant(agent, events[i]) { relevant := relevant + [events[i]]; }
    }
    assert events[..|events|] == events;
  }

  /** broadcastToClients: each client gets its relevant events, whatever the order of the map. */
  method Broadcast(clients: set<SseClient>, events: seq<Event>)
    modifies clients
    ensures forall c | c in clients ::
              c.sent == old(c.sent) + RelevantOnly(c.agent, events)
              && c.cursor == Raised(old(c.cursor), RelevantOnly(c.agent, events))
    ensures forall c, e | c in clients ::
              e in c.sent <==>
                || e in old(c.sent)
                || (e in events && (c.agent.None? || e.to == "*" || c.agent.value in {e.to, e.from}))
  {
    forall agent: Option<string> ensures forall e :: e in RelevantOnly(agent, events) <==>
                                   e in events && (agent.None? || e.to == "*" || agent.value in {e.to, e.from})
    {
      RelevantOnlyMeaning(agent, events);
    }
    var todo := clients;
    while todo != {}
      invariant todo <= clients
      invariant forall c | c in todo :: c.sent == old(c.sent) && c.cursor == old(c.cursor)
      invariant forall c | c in clients - todo ::
                  c.sent == old(c.sent) + RelevantOnly(c.agent, events)
                  && c.cursor == Raised(old(c.cursor), RelevantOnly(c.agent, events))
      decreases todo
    {
      var c :| c in todo;
      var relevant := Filter(c.agent, events);
      if |relevant| > 0 { c.Send(relevant); }
      todo := todo - {c};
    }
  }

  // ---- The hand-over ----

  /** Where a subscription stands: registered, holding the log it read for its backlog, or live. */
  datatype Phase = Registered | Holding(backlog: seq<Event>) | Live

  /** `since` is the daemon watcher's cursor at the moment of registration. */
  datatype Client = Client(agent: Option<string>, from: int, since: int, phase: Phase, sent: seq<Event>)

  datatype Hub = Hub(watch: System, clients: map<nat, Client>)

  datatype HubStep =
    | Watch(step: Step)
    | Subscribe(client: nat, agent: Option<string>, from: int)
    | ReadBacklog(client: nat)
    | SendBacklog(client: nat)
    | Disconnect(client: nat)

  ghost predicate HubEnabled(h: Hub, step: HubStep) {
    match step
    case Watch(s) => Enabled(h.watch, s)
    case Subscribe(c, _, from) => c !in h.clients && from >= -1
    case ReadBacklog(c) => c in h.clients && h.clients[c].phase.Registered?
    case SendBacklog(c) => c in h.clients && h.clients[c].phase.Holding?
    case Disconnect(c) => c in h.clients
  }

  /** The events the daemon's unfiltered watcher hands on in one step. */
  ghost function Batch(w: System, step: Step): seq<Event>
    requires Enabled(w, step)
  {
    if step.Complete? then Deliver(None, w.cursor, w.inFlight[step.read].value).1 else []
  }

  ghost function HubAfter(h: Hub, step: HubStep): Hub
    requires HubEnabled(h, step)
  {
    match step
    case Watch(s) =>
      var batch := Batch(h.watch, s);
      Hub(After(None, h.watch, s),
          map c | c in h.clients ::
            h.clients[c].(sent := h.clients[c].sent + RelevantOnly(h.clients[c].agent, batch)))
    case Subscribe(c, agent, from) =>
      // Without a cursor there is no backlog: the client is live at once.
      h.(clients := h.clients[c := Client(agent, from, h.watch.cursor, if from >= 0 then Registered else Live, [])])
    case ReadBacklog(c) =>
      h.(clients := h.clients[c := h.clients[c].(phase := Holding(h.watch.log))])
    case SendBacklog(c) =>
      var client := h.clients[c];
      var backlog := Select(client.phase.backlog, client.agent, client.from, HighSeq(client.phase.backlog));
      h.(clients := h.clients[c := client.(phase := Live, sent := client.sent + backlog)])
    case Disconnect(c) => h.(clients := h.clients - {c})
  }

  ghost predicate IsHubRun(states: seq<Hub>, steps: seq<HubStep>) {
    && |states| == |steps| + 1
    && forall i | 0 <= i < |steps| :: HubEnabled(states[i], steps[i]) && states[i + 1] == HubAfter(states[i], steps[i])
  }

  /** The daemon starts its watcher at the current watermark, before any client. */
  ghost predicate HubInitial(h: Hub) {
    Initial(h.watch, HighSeq(h.watch.log)) && h.clients == map[]
  }

  /** Every relevant event the log still has, numbered in (low, high], was sent. */
  ghost predicate SentBetween(w: System, c: Client, low: int, high: int) {
    forall e | e in w.log && e in w.history && Relevant(c.agent, e) && low < e.seqNo <= high :: e in c.sent
  }

  ghost predicate ClientFine(w: System, c: Client) {
    && c.since <= w.cursor
    && SentBetween(w, c, c.since, w.cursor)
    && (c.phase.Holding? ==> Covering(w, c.phase.backlog) && c.since <= HighSeq(c.phase.backlog))
    && (c.phase.Live? && c.from >= 0 ==> SentBetween(w, c, c.from, w.cursor))
  }

  ghost predicate HubInvariant(h: Hub, start: int) {
    && Invariant(None, h.watch, start) && h.watch.cursor <= HighSeq(h.watch.log)
    && forall c | c in h.clients :: ClientFine(h.watch, h.clients[c])
  }

  lemma {:induction false} WatchStepKeepsCovering(w: System, step: Step, start: int, snapshot: seq<Event>)
    requires Invariant(None, w, start) && Enabled(w, step) && Covering(w, snapshot)
    ensures Covering(After(None, w, step), snapshot)
    ensures HighSeq(After(None, w, step).log) >= HighSeq(w.log)
  {
    match step
    case Append(e) =>
      AppendIncreasing(w.log, e);
      HighSeqBounds(w.log);
    case Compaction(keepStart, id, now) =>
      CompactionKeepsState(w.log, keepStart, id, now);
      CompactionInventsNothing(w, keepStart, id, now);
    case _ =>
  }

  /** A broadcast covers the gap between the old cursor and the new one, for every client. */
  lemma {:induction false} WatchStepCoversGap(w: System, step: Step, start: int, c: Client, low: int)
    requires Invariant(None, w, start) && Enabled(w, step) && w.cursor <= HighSeq(w.log)
    requires SentBetween(w, c, low, w.cursor)
    ensures var after := After(None, w, step);
            SentBetween(after, c.(sent := c.sent + RelevantOnly(c.agent, Batch(w, step))), low, after.cursor)
  {
    var after := After(None, w, step);
    match step
    case Append(e) => HighSeqBounds(w.log);
    case Compaction(keepStart, id, now) => CompactionInventsNothing(w, keepStart, id, now);
    case Complete(i) =>
      var snapshot := w.inFlight[i].value;
      assert Covering(w, snapshot);
      SelectMeaning(snapshot, None, w.cursor, HighSeq(snapshot));
      RelevantOnlyMeaning(c.agent, Batch(w, step));
    case _ =>
  }

  lemma {:induction false} CursorWithinLog(w: System, step: Step, start: int)
    requires Invariant(None, w, start) && Enabled(w, step) && w.cursor <= HighSeq(w.log)
    ensures After(None, w, step).cursor <= HighSeq(After(None, w, step).log)
  {
    WatchStepKeepsCovering(w, step, start, w.log);
    if step.Complete? { assert Covering(w, w.inFlight[step.read].value); }
  }

  lemma {:induction false} WatchStepKeeps(h: Hub, step: Step, start: int)
    requires HubInvariant(h, start) && HubEnabled(h, Watch(step))
    ensures HubInvariant(HubAfter(h, Watch(step)), start)
  {
    var w, after := h.watch, HubAfter(h, Watch(step));
    StepKeeps(None, w, step, start);
    CursorWithinLog(w, step, start);
    forall c | c in after.clients ensures ClientFine(after.watch, after.clients[c]) {
      var client := h.clients[c];
      WatchStepCoversGap(w, step, start, client, client.since);
      if client.phase.Live? && client.from >= 0 { WatchStepCoversGap(w, step, start, client, client.from); }
      if client.phase.Holding? { WatchStepKeepsCovering(w, step, start, client.phase.backlog); }
    }
  }

  lemma {:induction false} SendKeeps(w: System, client: Client)
    requires client.phase.Holding? && ClientFine(w, client)
    ensures ClientFine(w, client.(phase := Live,
                                  sent := client.sent
                                      + Select(client.phase.backlog, client.agent, client.from,
                                               HighSeq(client.phase.backlog))))
  {
    var snapshot := client.phase.backlog;
    SelectMeaning(snapshot, client.agent, client.from, HighSeq(snapshot));
  }

  lemma {:induction false} HubStepKeeps(h: Hub, step: HubStep, start: int)
    requires HubInvariant(h, start) && HubEnabled(h, step)
    ensures HubInvariant(HubAfter(h, step), start)
  {
    match step
    case Watch(s) => WatchStepKeeps(h, s, start);
    case Subscribe(c, agent, from) =>
    case ReadBacklog(c) =>
    case SendBacklog(c) => SendKeeps(h.watch, h.clients[c]);
    case Disconnect(c) =>
  }

  lemma {:induction false} HubRunKeeps(states: seq<Hub>, steps: seq<HubStep>, n: nat)
    requires IsHubRun(states, steps) && HubInitial(states[0]) && n < |states|
    ensures HubInvariant(states[n], HighSeq(states[0].watch.log))
  {
    if n > 0 {
      HubRunKeeps(states, steps, n - 1);
      HubStepKeeps(states[n - 1], steps[n - 1], HighSeq(states[0].watch.log));
    }
  }

  /** Nothing is lost in the hand-over: for a connected client that asked for a backlog and got
      it, every relevant event above its cursor that the log still has was sent to it, or is
      still ahead of the daemon's watcher and will be broadcast. */
  lemma {:induction false} NothingLost(states: seq<Hub>, steps: seq<HubStep>, n: nat, c: nat, e: Event)
    requires IsHubRun(states, steps) && HubInitial(states[0]) && n < |states|
    requires c in states[n].clients && states[n].clients[c].phase.Live? && states[n].clients[c].from >= 0
    requires e in states[n].watch.log && e in states[n].watch.history
    requires Relevant(states[n].clients[c].agent, e) && e.seqNo > states[n].clients[c].from
    ensures e in states[n].clients[c].sent || e.seqNo > states[n].watch.cursor
  {
    HubRunKeeps(states, steps, n);
    assert ClientFine(states[n].watch, states[n].clients[c]);
  }

  // ---- What is not sent ----

  /** The event goes to the client's agent, comes from it or goes to all, and is above what the client
      had, or above what was broadcast before it came. */
  predicate Meant(c: Client, e: Event) {
    && (c.agent.None? || e.to == "*" || c.agent.value in {e.to, e.from})
    && ((c.from >= 0 && e.seqNo > c.from) || e.seqNo > c.since)
  }

  ghost predicate OnlyMeant(w: System, c: Client) {
    c.since <= w.cursor && forall e | e in c.sent :: Meant(c, e)
  }

  lemma {:induction false} WatchSendsMeant(w: System, step: Step, start: int, c: Client)
    requires Invariant(None, w, start) && Enabled(w, step) && OnlyMeant(w, c)
    ensures OnlyMeant(After(None, w, step), c.(sent := c.sent + RelevantOnly(c.agent, Batch(w, step))))
  {
    RelevantOnlyMeaning(c.agent, Batch(w, step));
    if step.Complete? {
      var snapshot := w.inFlight[step.read].value;
      SelectMeaning(snapshot, None, w.cursor, HighSeq(snapshot));
    }
  }

  ghost predicate AllMeant(h: Hub) {
    forall c | c in h.clients ::
      OnlyMeant(h.watch, h.clients[c]) && (!h.clients[c].phase.Live? ==> h.clients[c].from >= 0)
  }

  lemma {:induction false} StepSendsMeant(h: Hub, step: HubStep, start: int)
    requires HubInvariant(h, start) && HubEnabled(h, step) && AllMeant(h)
    ensures AllMeant(HubAfter(h, step))
  {
    match step
    case Watch(s) =>
      forall c | c in h.clients ensures OnlyMeant(HubAfter(h, step).watch, HubAfter(h, step).clients[c]) {
        WatchSendsMeant(h.watch, s, start, h.clients[c]);
      }
    case SendBacklog(c) =>
      var client := h.clients[c];
      SelectMeaning(client.phase.backlog, client.agent, client.from, HighSeq(client.phase.backlog));
    case _ =>
  }

  lemma {:induction false} RunSendsMeant(states: seq<Hub>, steps: seq<HubStep>, n: nat)
    requires IsHubRun(states, steps) && HubInitial(states[0]) && n < |states|
    ensures AllMeant(states[n])
  {
    if n > 0 {
      RunSendsMeant(states, steps, n - 1);
      HubRunKeeps(states, steps, n - 1);
      StepSendsMeant(states[n - 1], steps[n - 1], HighSeq(states[0].watch.log));
    }
  }

  /** Nobody is sent what does not concern its agent, or what it already had when it came. */
  lemma {:induction false} OnlyMeantIsSent(states: seq<Hub>, steps: seq<HubStep>, n: nat, c: nat, e: Event)
    requires IsHubRun(states, steps) && HubInitial(states[0]) && n < |states|
    requires c in states[n].clients && e in states[n].clients[c].sent
    ensures var client := states[n].clients[c];
            && (client.agent.None? || e.to == "*" || client.agent.value == e.to || client.agent.value == e.from)
            && ((client.from >= 0 && e.seqNo > client.from) || e.seqNo > client.since)
  {
    RunSendsMeant(states, steps, n);
    assert OnlyMeant(states[n].watch, states[n].clients[c]);
  }

  /** Who subscribes with a cursor is live two steps later and has been sent what its agent may see above
      the cursor; who has none is live at once and has been sent nothing. */
  lemma {:induction false} GoesLive(h: Hub, c: nat, agent: Option<string>, from: int) returns (there: Hub)
    requires c !in h.clients && from >= -1
    ensures var step := Subscribe(c, agent, from);
            && HubEnabled(h, step)
            && (from < 0 ==> there == HubAfter(h, step))
            && (from >= 0 ==>
                  && HubEnabled(HubAfter(h, step), ReadBacklog(c))
                  && HubEnabled(HubAfter(HubAfter(h, step), ReadBacklog(c)), SendBacklog(c))
                  && there == HubAfter(HubAfter(HubAfter(h, step), ReadBacklog(c)), SendBacklog(c)))
    ensures there.watch == h.watch && c in there.clients && there.clients[c].phase.Live?
    ensures forall e :: e in there.clients[c].sent <==>
              && from >= 0 && e in h.watch.log && e.seqNo > from
              && (agent.None? || e.to == "*" || agent.value in {e.to, e.from})
  {
    there := HubAfter(h, Subscribe(c, agent, from));
    if from >= 0 {
      there := HubAfter(HubAfter(there, ReadBacklog(c)), SendBacklog(c));
      SelectMeaning(h.watch.log, agent, from, HighSeq(h.watch.log));
      HighSeqBounds(h.watch.log);
    }
  }
}
