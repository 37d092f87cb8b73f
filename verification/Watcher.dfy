/** The live watcher: a cursor, and reads of the log that overlap freely. */
module Watcher {
  import opened Wrappers
  import opened Events
  import opened Retention

  predicate Relevant(agent: Option<string>, e: Event) {
    agent.None? || e.to == agent.value || e.to == "*" || e.from == agent.value
  }

  /** The relevant events numbered above low and up to high, in log order. */
  function Select(log: seq<Event>, agent: Option<string>, low: int, high: int): seq<Event> {
    if log == [] then []
    else
      var last := log[|log| - 1];
      Select(log[..|log| - 1], agent, low, high) +
      if low < last.seqNo <= high && Relevant(agent, last) then [last] else []
  }

  lemma {:induction false} SelectMeaning(log: seq<Event>, agent: Option<string>, low: int, high: int)
    ensures forall e :: e in Select(log, agent, low, high) <==>
                        e in log && low < e.seqNo <= high && Relevant(agent, e)
  {
    if log != [] {
      assert log == log[..|log| - 1] + [log[|log| - 1]];
      SelectMeaning(log[..|log| - 1], agent, low, high);
    }
  }

  lemma {:induction false} SelectOrdered(log: seq<Event>, agent: Option<string>, low: int, high: int)
    requires Increasing(log)
    ensures Increasing(Select(log, agent, low, high))
  {
    if log != [] {
      var init, last := log[..|log| - 1], log[|log| - 1];
      var chosen := Select(init, agent, low, high);
      SelectOrdered(init, agent, low, high);
      SelectMeaning(init, agent, low, high);
      forall i | 0 <= i < |chosen| ensures chosen[i].seqNo < last.seqNo {
        assert chosen[i] in init;
        var j :| 0 <= j < |init| && init[j] == chosen[i];
        assert log[j] == chosen[i];
      }
    }
  }

  /** A read takes the log as it finds it, and acts on the cursor it finds when it completes. */
  class CoordinationWatcher {
    const agent: Option<string>
    var cursor: int
    var stopped: bool

    constructor (agent: Option<string>, from: Option<int>, initial: seq<Event>)
      ensures this.agent == agent && !stopped
      ensures cursor == if from.Some? then from.value else HighSeq(initial)
    {
      var high := ComputeHighSeq(initial);
      this.agent := agent;
      cursor := if from.Some? then from.value else high;
      stopped := false;
    }

    /** What checkForUpdates does once its read has returned: nothing awaited from here on. */
    method Complete(snapshot: seq<Event>) returns (batch: seq<Event>)
      modifies this`cursor
      ensures (cursor, batch) == Deliver(agent, old(cursor), snapshot)
      ensures forall e :: e in batch <==>
                && e in snapshot && e.seqNo > old(cursor)
                && (agent.None? || e.to == "*" || agent.value in {e.to, e.from})
    {
      batch := [];
      DeliveredExactly(agent, cursor, snapshot);
      var high := ComputeHighSeq(snapshot);
      if high <= cursor { return; }
      for i := 0 to |snapshot|
        invariant cursor == old(cursor) && batch == Select(snapshot[..i], agent, cursor, high)
      {
        assert snapshot[..i + 1][..i] == snapshot[..i];
        WithinHigh(snapshot, i);
        if snapshot[i].seqNo > cursor && Relevant(agent, snapshot[i]) { batch := batch + [snapshot[i]]; }
      }
      assert snapshot[..|snapshot|] == snapshot;
      cursor := high;
    }

    method Stop()
      modifies this`stopped
      ensures stopped
    {
      stopped := true;
    }
  }

  lemma {:induction false} WithinHigh(log: seq<Event>, i: nat)
    requires i < |log|
    ensures log[i].seqNo <= HighSeq(log)
  {
    HighSeqBounds(log);
    assert log[i] in log;
  }

  function Deliver(agent: Option<string>, cursor: int, snapshot: seq<Event>): (int, seq<Event>) {
    var high := HighSeq(snapshot);
    if high <= cursor then (cursor, []) else (high, Select(snapshot, agent, cursor, high))
  }

  /** A batch has the events above the cursor that go to all, and of those that go to one agent the
      ones to or from the watcher's; without an agent it has them all. */
  lemma {:induction false} DeliveredExactly(agent: Option<string>, cursor: int, snapshot: seq<Event>)
    ensures forall e :: e in Deliver(agent, cursor, snapshot).1 <==>
              && e in snapshot && e.seqNo > cursor
              && (agent.None? || e.to == "*" || agent.value in {e.to, e.from})
  {
    HighSeqBounds(snapshot);
    SelectMeaning(snapshot, agent, cursor, HighSeq(snapshot));
  }

  // ---- Any number of overlapping reads ----

  /** The system around one watcher. The history never forgets; a read is pending until it has
      seen the log, and completes at any later time. */
  datatype System = System(history: seq<Event>, log: seq<Event>, cursor: int, stopped: bool,
                           inFlight: seq<Option<seq<Event>>>, delivered: seq<Event>)

  datatype Step =
    | Append(event: Event)
    | Compaction(keepStart: nat, id: string, now: int)
    | Begin
    | Read(index: nat)
    | Complete(read: nat)
    | Stop

  ghost predicate Enabled(s: System, step: Step) {
    match step
    case Append(e) => e.seqNo == HighSeq(s.log) + 1
    case Compaction(keepStart, id, _) => keepStart <= |s.log| && forall e | e in s.history :: e.id != id
    case Begin => !s.stopped
    case Read(i) => i < |s.inFlight| && s.inFlight[i].None?
    case Complete(i) => i < |s.inFlight| && s.inFlight[i].Some?
    case Stop => true
  }

  ghost function After(agent: Option<string>, s: System, step: Step): System
    requires Enabled(s, step)
  {
    match step
    case Append(e) => s.(history := s.history + [e], log := s.log + [e])
    case Compaction(keepStart, id, now) => s.(log := CompactAt(s.log, keepStart, id, now))
    case Begin => s.(inFlight := s.inFlight + [None])
    case Read(i) => s.(inFlight := s.inFlight[i := Some(s.log)])
    case Complete(i) =>
      var (cursor, batch) := Deliver(agent, s.cursor, s.inFlight[i].value);
      s.(cursor := cursor, delivered := s.delivered + batch, inFlight := s.inFlight[..i] + s.inFlight[i + 1..])
    case Stop => s.(stopped := true)
  }

  /** The states a run passes through, from first to last. */
  ghost predicate IsRun(agent: Option<string>, states: seq<System>, steps: seq<Step>) {
    && |states| == |steps| + 1
    && forall i | 0 <= i < |steps| :: Enabled(states[i], steps[i]) && states[i + 1] == After(agent, states[i], steps[i])
  }

  ghost predicate Initial(s: System, start: int) {
    && Increasing(s.log) && s.history == s.log && s.cursor == start
    && !s.stopped && s.inFlight == [] && s.delivered == []
  }

  /** A snapshot holds every event of the log up to its own watermark that was not forgotten. */
  ghost predicate Covering(s: System, snapshot: seq<Event>) {
    && Increasing(snapshot) && HighSeq(snapshot) <= HighSeq(s.log)
    && forall e | e in s.log && e in s.history && e.seqNo <= HighSeq(snapshot) :: e in snapshot
  }

  ghost predicate Invariant(agent: Option<string>, s: System, start: int) {
    && Increasing(s.log) && (s.cursor == start || start < s.cursor <= HighSeq(s.log))
    && (forall i | 0 <= i < |s.inFlight| && s.inFlight[i].Some? :: Covering(s, s.inFlight[i].value))
    && Delivered(agent, s, start)
  }

  /** Delivered so far: in order and without repeats, only relevant events between the start
      and the cursor, and of those every one the log still has. */
  ghost predicate Delivered(agent: Option<string>, s: System, start: int) {
    && Increasing(s.delivered)
    && (forall e | e in s.delivered :: Relevant(agent, e) && start < e.seqNo <= s.cursor)
    && (forall e | e in s.log && e in s.history && Relevant(agent, e) && start < e.seqNo <= s.cursor ::
        e in s.delivered)
  }

  lemma {:induction false} AppendKeeps(agent: Option<string>, s: System, e: Event, start: int)
    requires Invariant(agent, s, start) && e.seqNo == HighSeq(s.log) + 1
    ensures Invariant(agent, After(agent, s, Append(e)), start)
  {
    AppendIncreasing(s.log, e);
    HighSeqBounds(s.log);
  }

  lemma {:induction false} CompactionKeeps(agent: Option<string>, s: System, keepStart: nat, id: string, now: int,
                                           start: int)
    requires Invariant(agent, s, start) && Enabled(s, Compaction(keepStart, id, now))
    ensures Invariant(agent, After(agent, s, Compaction(keepStart, id, now)), start)
  {
    CompactionKeepsState(s.log, keepStart, id, now);
    CompactionInventsNothing(s, keepStart, id, now);
  }

  lemma {:induction false} CompactionInventsNothing(s: System, keepStart: nat, id: string, now: int)
    requires Increasing(s.log) && Enabled(s, Compaction(keepStart, id, now))
    ensures forall e | e in CompactAt(s.log, keepStart, id, now) && e in s.history :: e in s.log
  {
    var removable, kept := s.log[..keepStart], s.log[keepStart..];
    assert s.log == removable + kept;
    if Removed(removable, kept) != [] {
      CompactedLog(s.log, removable, kept, SummaryEvent(Removed(removable, kept), id, now));
    }
  }

  lemma {:induction false} ReadKeeps(agent: Option<string>, s: System, i: nat, start: int)
    requires Invariant(agent, s, start) && Enabled(s, Read(i))
    ensures Invariant(agent, After(agent, s, Read(i)), start)
  {
    var after := After(agent, s, Read(i));
    forall j | 0 <= j < |after.inFlight| && after.inFlight[j].Some? ensures Covering(after, after.inFlight[j].value) {
      if j != i { assert Covering(s, s.inFlight[j].value); }
    }
  }

  lemma {:induction false} CompleteKeeps(agent: Option<string>, s: System, i: nat, start: int)
    requires Invariant(agent, s, start) && Enabled(s, Complete(i))
    ensures Invariant(agent, After(agent, s, Complete(i)), start)
    ensures HighSeq(s.inFlight[i].value) <= After(agent, s, Complete(i)).cursor
  {
    var after := After(agent, s, Complete(i));
    assert Covering(s, s.inFlight[i].value);
    BatchExtends(agent, s, s.inFlight[i].value, after, start);
    forall j | 0 <= j < |after.inFlight| && after.inFlight[j].Some? ensures Covering(after, after.inFlight[j].value) {
      var k := if j < i then j else j + 1;
      assert after.inFlight[j] == s.inFlight[k];
      assert Covering(s, s.inFlight[k].value);
    }
  }

  lemma {:induction false} BatchExtends(agent: Option<string>, s: System, snapshot: seq<Event>, after: System,
                                        start: int)
    requires Delivered(agent, s, start) && start <= s.cursor && Covering(s, snapshot)
    requires after.log == s.log && after.history == s.history
    requires after.cursor == Deliver(agent, s.cursor, snapshot).0
    requires after.delivered == s.delivered + Deliver(agent, s.cursor, snapshot).1
    ensures Delivered(agent, after, start)
  {
    var batch := Deliver(agent, s.cursor, snapshot).1;
    SelectMeaning(snapshot, agent, s.cursor, HighSeq(snapshot));
    SelectOrdered(snapshot, agent, s.cursor, HighSeq(snapshot));
    forall j, k | 0 <= j < k < |after.delivered| ensures after.delivered[j].seqNo < after.delivered[k].seqNo {
      if j < |s.delivered| <= k {
        assert s.delivered[j] in s.delivered && batch[k - |s.delivered|] in batch;
      }
    }
  }

  lemma {:induction false} StepKeeps(agent: Option<string>, s: System, step: Step, start: int)
    requires Invariant(agent, s, start) && Enabled(s, step)
    ensures Invariant(agent, After(agent, s, step), start)
  {
    match step
    case Append(e) => AppendKeeps(agent, s, e, start);
    case Compaction(keepStart, id, now) => CompactionKeeps(agent, s, keepStart, id, now, start);
    case Begin =>
    case Read(i) => ReadKeeps(agent, s, i, start);
    case Complete(i) => CompleteKeeps(agent, s, i, start);
    case Stop =>
  }

  /** In every run, with reads overlapping and finishing in any order and compactions in
      between: nothing is delivered twice or out of order, and every relevant event above the
      starting cursor and up to the current one is delivered unless it was compacted away. */
  lemma {:induction false} WatchedInOrder(agent: Option<string>, states: seq<System>, steps: seq<Step>, start: int,
                                          n: nat)
    requires IsRun(agent, states, steps) && Initial(states[0], start) && n < |states|
    ensures Invariant(agent, states[n], start)
  {
    if n > 0 {
      WatchedInOrder(agent, states, steps, start, n - 1);
      StepKeeps(agent, states[n - 1], steps[n - 1], start);
    }
  }

  /** Until it is stopped a watcher can catch up with the log at any time, whatever reads are in flight:
      a read begins, sees the log and completes. */
  lemma {:induction false} CatchesUp(agent: Option<string>, s: System) returns (t: System)
    requires !s.stopped
    ensures var begun, i := After(agent, s, Begin), |s.inFlight|;
            && Enabled(s, Begin) && Enabled(begun, Read(i)) && Enabled(After(agent, begun, Read(i)), Complete(i))
            && t == After(agent, After(agent, begun, Read(i)), Complete(i))
    ensures t.log == s.log && t.history == s.history && t.inFlight == s.inFlight
    ensures t.cursor == if HighSeq(s.log) > s.cursor then HighSeq(s.log) else s.cursor
    ensures forall e :: e in t.delivered <==>
              e in s.delivered || (e in s.log && e.seqNo > s.cursor
                                   && (agent.None? || e.to == "*" || agent.value in {e.to, e.from}))
  {
    var begun, i := After(agent, s, Begin), |s.inFlight|;
    assert begun.inFlight == s.inFlight + [None];
    var read := After(agent, begun, Read(i));
    assert read.inFlight == s.inFlight + [Some(s.log)];
    DeliveredExactly(agent, s.cursor, s.log);
    t := After(agent, read, Complete(i));
    assert t.inFlight == s.inFlight;
  }

  /** After stopping no read begins; the reads in flight still deliver, and without any nothing does. */
  lemma {:induction false} StopEndsReads(agent: Option<string>, states: seq<System>, steps: seq<Step>, n: nat, m: nat)
    requires IsRun(agent, states, steps) && n <= m < |states|
    requires n > 0 && steps[n - 1].Stop?
    ensures states[m].stopped && |states[m].inFlight| <= |states[n].inFlight|
    ensures states[n].inFlight == [] ==>
              states[m].cursor == states[n].cursor && states[m].delivered == states[n].delivered
    decreases m - n
  {
    if n < m {
      StopEndsReads(agent, states, steps, n, m - 1);
      var before, step := states[m - 1], steps[m - 1];
      assert states[m] == After(agent, before, step);
      assert states[n].inFlight == [] ==> !step.Complete?;
    }
  }

  lemma {:induction false} UncompactedRemembers(agent: Option<string>, states: seq<System>, steps: seq<Step>,
                                                start: int, n: nat)
    requires IsRun(agent, states, steps) && Initial(states[0], start) && n < |states|
    requires forall step | step in steps :: !step.Compaction?
    ensures states[n].log == states[n].history
    ensures forall i | 0 <= i < |states[n].inFlight| && states[n].inFlight[i].Some? ::
              states[n].inFlight[i].value <= states[n].log
    ensures forall e | e in states[n].delivered :: e in states[n].log
  {
    if n > 0 {
      UncompactedRemembers(agent, states, steps, start, n - 1);
      assert steps[n - 1] in steps;
      var s := states[n - 1];
      if steps[n - 1].Complete? {
        var snapshot := s.inFlight[steps[n - 1].read].value;
        SelectMeaning(snapshot, agent, s.cursor, HighSeq(snapshot));
      }
    }
  }

  /** Without compaction, delivery is exactly once: the batches, put end to end, are the relevant
      events of the log above the starting cursor and up to the current one. */
  lemma {:induction false} ExactlyOnce(agent: Option<string>, states: seq<System>, steps: seq<Step>, start: int, n: nat)
    requires IsRun(agent, states, steps) && Initial(states[0], start) && n < |states|
    requires forall step | step in steps :: !step.Compaction?
    ensures states[n].delivered == Select(states[n].log, agent, start, states[n].cursor)
  {
    WatchedInOrder(agent, states, steps, start, n);
    UncompactedRemembers(agent, states, steps, start, n);
    SelectMeaning(states[n].log, agent, start, states[n].cursor);
    SelectOrdered(states[n].log, agent, start, states[n].cursor);
    SameEventsSameLog(states[n].delivered, Select(states[n].log, agent, start, states[n].cursor));
  }

  lemma {:induction false} SameEventsSameLog(a: seq<Event>, b: seq<Event>)
    requires Increasing(a) && Increasing(b) && forall e :: e in a <==> e in b
    ensures a == b
  {
    assert |a| > 0 ==> a[0] in b;
    assert |b| > 0 ==> b[0] in a;
    if a != [] && b != [] {
      var a', b', x, y := a[..|a| - 1], b[..|b| - 1], a[|a| - 1], b[|b| - 1];
      BelowLast(a, a', x);
      BelowLast(b, b', y);
      assert x in b && y in a;
      SameSeqSameEvent(a, x, y);
      SameEventsSameLog(a', b');
      assert a == a' + [x] && b == b' + [y];
    }
  }

  lemma {:induction false} BelowLast(a: seq<Event>, init: seq<Event>, last: Event)
    requires Increasing(a) && a == init + [last]
    ensures forall e :: e in init <==> e in a && e.seqNo < last.seqNo
    ensures Increasing(init) && last in a && forall e | e in a :: e.seqNo <= last.seqNo
  {
    assert a[|init|] == last && a[..|init|] == init;
    PrefixIncreasing(a, |init|);
    forall e | e in init ensures e.seqNo < last.seqNo {
      var i :| 0 <= i < |init| && init[i] == e;
      assert a[i] == e;
    }
  }
}
