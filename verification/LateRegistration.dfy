/** The event stream had the daemon read a backlog before it registers the client. */
module LateRegistration {
  import opened Wrappers
  import opened Events
  import opened Retention
  import opened Watcher
  import opened EventStream

  /** The daemon, and the backlogs that were read for clients still to be registered. */
  datatype LateHub = LateHub(hub: Hub, read: map<nat, seq<Event>>)

  datatype LateStep =
    | Ordinary(step: HubStep)
    | ReadFirst(client: nat)
    | RegisterAfter(client: nat, agent: Option<string>, from: int)

  ghost predicate LateEnabled(h: LateHub, step: LateStep) {
    match step
    case Ordinary(s) => HubEnabled(h.hub, s)
    case ReadFirst(c) => c !in h.read
    case RegisterAfter(c, _, from) => c in h.read && c !in h.hub.clients && from >= 0
  }

  /** The same events are sent and the same client is left, only the read comes first. */
  ghost function LateAfter(h: LateHub, step: LateStep): LateHub
    requires LateEnabled(h, step)
  {
    match step
    case Ordinary(s) => h.(hub := HubAfter(h.hub, s))
    case ReadFirst(c) => h.(read := h.read[c := h.hub.watch.log])
    case RegisterAfter(c, agent, from) =>
      var client := Client(agent, from, h.hub.watch.cursor, Live, Select(h.read[c], agent, from, HighSeq(h.read[c])));
      LateHub(h.hub.(clients := h.hub.clients[c := client]), h.read - {c})
  }

  ghost predicate IsLateRun(states: seq<LateHub>, steps: seq<LateStep>) {
    && |states| == |steps| + 1
    && forall i | 0 <= i < |steps| ::
         LateEnabled(states[i], steps[i]) && states[i + 1] == LateAfter(states[i], steps[i])
  }

  ghost predicate LateInitial(h: LateHub) {
    HubInitial(h.hub) && h.read == map[]
  }

  ghost predicate LateInvariant(h: LateHub, start: int) {
    && Invariant(None, h.hub.watch, start) && h.hub.watch.cursor <= HighSeq(h.hub.watch.log)
    && forall c | c in h.read :: Covering(h.hub.watch, h.read[c])
  }

  lemma {:induction false} LateStepKeeps(h: LateHub, step: LateStep, start: int)
    requires LateInvariant(h, start) && LateEnabled(h, step)
    ensures LateInvariant(LateAfter(h, step), start)
  {
    var after := LateAfter(h, step);
    if step.Ordinary? && step.step.Watch? {
      var s := step.step.step;
      StepKeeps(None, h.hub.watch, s, start);
      CursorWithinLog(h.hub.watch, s, start);
      forall c | c in after.read ensures Covering(after.hub.watch, after.read[c]) {
        WatchStepKeepsCovering(h.hub.watch, s, start, h.read[c]);
      }
    }
  }

  lemma {:induction false} LateRunKeeps(states: seq<LateHub>, steps: seq<LateStep>, n: nat)
    requires IsLateRun(states, steps) && LateInitial(states[0]) && n < |states|
    ensures LateInvariant(states[n], HighSeq(states[0].hub.watch.log))
  {
    if n > 0 {
      LateRunKeeps(states, steps, n - 1);
      LateStepKeeps(states[n - 1], steps[n - 1], HighSeq(states[0].hub.watch.log));
    }
  }

  /** What a client registered that way has got: the snapshot, and what was broadcast since. */
  ghost predicate Tracked(w: System, client: Client, snapshot: seq<Event>) {
    && client.phase.Live? && client.since <= w.cursor && Covering(w, snapshot)
    && SentBetween(w, client, client.since, w.cursor)
    && (forall e | e in Select(snapshot, client.agent, client.from, HighSeq(snapshot)) :: e in client.sent)
    && forall e | e in client.sent ::
         e.seqNo > client.since || e in Select(snapshot, client.agent, client.from, HighSeq(snapshot))
  }

  lemma {:induction false} WatchKeepsTracked(w: System, step: Step, start: int, client: Client, snapshot: seq<Event>)
    requires Invariant(None, w, start) && w.cursor <= HighSeq(w.log) && Enabled(w, step) && Tracked(w, client, snapshot)
    ensures Tracked(After(None, w, step),
                    client.(sent := client.sent + RelevantOnly(client.agent, Batch(w, step))), snapshot)
  {
    WatchStepKeepsCovering(w, step, start, snapshot);
    WatchStepCoversGap(w, step, start, client, client.since);
    RelevantOnlyMeaning(client.agent, Batch(w, step));
    if step.Complete? {
      SelectMeaning(w.inFlight[step.read].value, None, w.cursor, HighSeq(w.inFlight[step.read].value));
    }
  }

  lemma {:induction false} StepKeepsTracked(h: LateHub, step: LateStep, start: int, c: nat, snapshot: seq<Event>)
    requires LateInvariant(h, start) && LateEnabled(h, step) && step != Ordinary(Disconnect(c))
    requires c in h.hub.clients && Tracked(h.hub.watch, h.hub.clients[c], snapshot)
    ensures var after := LateAfter(h, step).hub;
            && c in after.clients && Tracked(after.watch, after.clients[c], snapshot)
            && after.clients[c].(sent := []) == h.hub.clients[c].(sent := [])
  {
    if step.Ordinary? && step.step.Watch? {
      WatchKeepsTracked(h.hub.watch, step.step.step, start, h.hub.clients[c], snapshot);
    }
  }

  lemma {:induction false} RegisterTracks(h: LateHub, start: int, c: nat, agent: Option<string>, from: int)
    requires LateInvariant(h, start) && LateEnabled(h, RegisterAfter(c, agent, from))
    ensures var after := LateAfter(h, RegisterAfter(c, agent, from)).hub;
            && c in after.clients && Tracked(after.watch, after.clients[c], h.read[c])
            && after.clients[c].(sent := []) == Client(agent, from, h.hub.watch.cursor, Live, [])
  {
  }

  lemma {:induction false} RunTracks(states: seq<LateHub>, steps: seq<LateStep>, m: nat, n: nat, c: nat,
                                     agent: Option<string>, from: int)
    requires IsLateRun(states, steps) && LateInitial(states[0]) && m < n < |states|
    requires steps[m] == RegisterAfter(c, agent, from)
    requires forall i | m < i < n :: steps[i] != Ordinary(Disconnect(c))
    ensures var h := states[n].hub;
            && c in h.clients && Tracked(h.watch, h.clients[c], states[m].read[c])
            && h.clients[c].(sent := []) == Client(agent, from, states[m].hub.watch.cursor, Live, [])
  {
    var start := HighSeq(states[0].hub.watch.log);
    LateRunKeeps(states, steps, n - 1);
    if n == m + 1 {
      RegisterTracks(states[m], start, c, agent, from);
    } else {
      RunTracks(states, steps, m, n - 1, c, agent, from);
      StepKeepsTracked(states[n - 1], steps[n - 1], start, c, states[m].read[c]);
    }
  }

  lemma {:induction false} StaysRead(states: seq<LateHub>, steps: seq<LateStep>, k: nat, m: nat, c: nat)
    requires IsLateRun(states, steps) && k < m < |states| && steps[k] == ReadFirst(c)
    requires forall i | k < i < m :: !(steps[i].RegisterAfter? && steps[i].client == c)
    ensures c in states[m].read && states[m].read[c] == states[k].hub.watch.log
  {
    if m > k + 1 { StaysRead(states, steps, k, m - 1, c); }
  }

  /** A live client that was not sent the event, which the daemon's watcher has passed. */
  ghost predicate Missed(h: Hub, c: nat, e: Event) {
    c in h.clients && h.clients[c].phase.Live? && e !in h.clients[c].sent && e.seqNo <= h.watch.cursor
  }

  /** Why a client is registered before its backlog is read. In every run of a daemon that reads at
      k and registers at m, the client misses, for as long as it stays, exactly the events that were
      logged after k and broadcast before m. */
  lemma {:induction false} LosesExactly(states: seq<LateHub>, steps: seq<LateStep>, k: nat, m: nat, n: nat, c: nat,
                                        agent: Option<string>, from: int, e: Event)
    requires IsLateRun(states, steps) && LateInitial(states[0]) && k < m < n < |states|
    requires steps[k] == ReadFirst(c) && steps[m] == RegisterAfter(c, agent, from)
    requires forall i | k < i < m :: !(steps[i].RegisterAfter? && steps[i].client == c)
    requires forall i | m < i < n :: steps[i] != Ordinary(Disconnect(c))
    requires e in states[n].hub.watch.log && e in states[n].hub.watch.history
    requires Relevant(agent, e) && e.seqNo > from
    ensures Missed(states[n].hub, c, e)
            <==> HighSeq(states[k].hub.watch.log) < e.seqNo <= states[m].hub.watch.cursor
  {
    StaysRead(states, steps, k, m, c);
    RunTracks(states, steps, m, n, c, agent, from);
    var snapshot := states[k].hub.watch.log;
    SelectMeaning(snapshot, agent, from, HighSeq(snapshot));
  }

  /** One event is logged and broadcast after the read. */
  function BroadcastSteps(e: Event, c: nat): seq<LateStep> {
    [ReadFirst(c)] + [Ordinary(Watch(Append(e)))] + [Ordinary(Watch(Begin))] + [Ordinary(Watch(Step.Read(0)))]
    + [Ordinary(Watch(Complete(0)))]
  }

  /** The daemon's watcher learns of an event that is appended. */
  lemma {:induction false} OneBroadcast(w: System, e: Event)
    requires Increasing(w.log) && !w.stopped && w.inFlight == [] && w.cursor < e.seqNo
    requires e.seqNo == HighSeq(w.log) + 1
    ensures var begun := w.(history := w.history + [e], log := w.log + [e], inFlight := [None]);
            var read := begun.(inFlight := [Some(begun.log)]);
            var done := After(None, read, Complete(0));
            && After(None, After(None, w, Append(e)), Begin) == begun
            && After(None, begun, Step.Read(0)) == read
            && done.log == begun.log && done.history == begun.history && done.cursor == e.seqNo
  {
    AppendIncreasing(w.log, e);
  }

  lemma {:induction false} OneMore(states: seq<LateHub>, steps: seq<LateStep>, step: LateStep, after: LateHub)
    requires IsLateRun(states, steps) && LateEnabled(states[|steps|], step) && after == LateAfter(states[|steps|], step)
    ensures IsLateRun(states + [after], steps + [step])
  {
  }

  /** A run goes on with a step of the watcher. */
  lemma {:induction false} WatchOn(states: seq<LateHub>, steps: seq<LateStep>, step: Step) returns (after: LateHub)
    requires IsLateRun(states, steps) && states[|steps|].hub.clients == map[]
    requires Enabled(states[|steps|].hub.watch, step)
    ensures IsLateRun(states + [after], steps + [Ordinary(Watch(step))]) && after.read == states[|steps|].read
    ensures after.hub.watch == After(None, states[|steps|].hub.watch, step) && after.hub.clients == map[]
  {
    after := LateAfter(states[|steps|], Ordinary(Watch(step)));
    OneMore(states, steps, Ordinary(Watch(step)), after);
  }

  lemma {:induction false} ReadAndBroadcast(h: LateHub, e: Event, c: nat) returns (states: seq<LateHub>, s: LateHub)
    requires LateInitial(h) && e.seqNo == HighSeq(h.hub.watch.log) + 1
    ensures |states| == 5 && states[0] == h && IsLateRun(states + [s], BroadcastSteps(e, c))
    ensures c in s.read && s.hub.clients == map[] && s.hub.watch.cursor == e.seqNo
    ensures e in s.hub.watch.log && e in s.hub.watch.history
  {
    OneBroadcast(h.hub.watch, e);
    var s1 := LateAfter(h, ReadFirst(c));
    OneMore([h], [], ReadFirst(c), s1);
    var steps := [ReadFirst(c)];
    assert [] + steps == steps;
    var s2 := WatchOn([h] + [s1], steps, Append(e));
    steps := steps + [Ordinary(Watch(Append(e)))];
    var s3 := WatchOn([h] + [s1] + [s2], steps, Begin);
    steps := steps + [Ordinary(Watch(Begin))];
    var s4 := WatchOn([h] + [s1] + [s2] + [s3], steps, Step.Read(0));
    steps := steps + [Ordinary(Watch(Step.Read(0)))];
    s := WatchOn([h] + [s1] + [s2] + [s3] + [s4], steps, Complete(0));
    states := [h] + [s1] + [s2] + [s3] + [s4];
  }

  /** That run of the late daemon, from any start, and the event it loses. */
  lemma {:induction false} LosingRun(h: LateHub, e: Event, c: nat, agent: Option<string>, from: int)
    returns (states: seq<LateHub>)
    requires LateInitial(h) && e.seqNo == HighSeq(h.hub.watch.log) + 1
    requires Relevant(agent, e) && 0 <= from < e.seqNo
    ensures IsLateRun(states, BroadcastSteps(e, c) + [RegisterAfter(c, agent, from)])
    ensures states[0] == h && Missed(states[6].hub, c, e)
  {
    var before, s := ReadAndBroadcast(h, e, c);
    var last := LateAfter(s, RegisterAfter(c, agent, from));
    OneMore(before + [s], BroadcastSteps(e, c), RegisterAfter(c, agent, from), last);
    states := before + [s] + [last];
    LosesExactly(states, BroadcastSteps(e, c) + [RegisterAfter(c, agent, from)], 0, 5, 6, c, agent, from, e);
  }
}
