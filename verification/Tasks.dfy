/** Pending tasks and acknowledgements, and what compaction does to them: neither kind of
    event is state-bearing, so both are simply forgotten before the cut. */
module Tasks {
  import opened Wrappers
  import opened Events
  import opened StateKeys
  import opened Retention

  ghost predicate ResolvedIn(log: seq<Event>, id: string) {
    exists x :: x in log && x.body == Terminal(Some(id))
  }

  /** The pending tasks of a snapshot: tasks whose id no terminal event resolves. */
  ghost predicate Pending(log: seq<Event>, task: Event) {
    task in log && task.body.Task? && !ResolvedIn(log, task.id)
  }

  method PendingTasks(events: seq<Event>) returns (pending: seq<Event>)
    ensures forall e :: e in pending <==> Pending(events, e)
    ensures Increasing(events) ==> Increasing(pending)
  {
    var resolvedIds: set<string> := {};
    for i := 0 to |events|
      invariant forall id :: id in resolvedIds <==> ResolvedIn(events[..i], id)
    {
      assert events[..i + 1] == events[..i] + [events[i]];
      assert forall id :: ResolvedIn(events[..i + 1], id) <==>
                          ResolvedIn(events[..i], id) || events[i].body == Terminal(Some(id));
      if events[i].body.Terminal? && events[i].body.resolves.Some? {
        resolvedIds := resolvedIds + {events[i].body.resolves.value};
      }
    }
    assert events[..|events|] == events;
    pending := [];
    for i := 0 to |events|
      invariant forall e :: e in pending <==> e in events[..i] && e.body.Task? && e.id !in resolvedIds
      invariant Increasing(events) ==> Increasing(pending)
    {
      assert events[..i + 1] == events[..i] + [events[i]];
      if Increasing(events) {
        forall e | e in pending ensures e.seqNo < events[i].seqNo {
          var j :| 0 <= j < i && events[..i][j] == e;
        }
      }
      if events[i].body.Task? && events[i].id !in resolvedIds {
        pending := pending + [events[i]];
      }
    }
  }

  /** A task that is resolved at all is resolved by an event after it. */
  ghost predicate ResolutionsFollow(log: seq<Event>) {
    forall t | t in log && t.body.Task? && ResolvedIn(log, t.id) ::
      exists x :: x in log && x.body == Terminal(Some(t.id)) && x.seqNo > t.seqNo
  }

  /** Events that carry no state survive exactly from the cut on. */
  lemma {:induction false} Forgotten(log: seq<Event>, keepStart: nat, id: string, now: int, e: Event)
    requires Increasing(log) && keepStart <= |log| && (e.body.Task? || e.body.Terminal? || e.body.Ack?)
    ensures e in CompactAt(log, keepStart, id, now) <==>
              e in log[keepStart..] || (Removed(log[..keepStart], log[keepStart..]) == [] && e in log)
  {
    assert log == log[..keepStart] + log[keepStart..];
    if Removed(log[..keepStart], log[keepStart..]) != [] {
      ForgottenLines(log, log[..keepStart], log[keepStart..],
                     SummaryEvent(Removed(log[..keepStart], log[keepStart..]), id, now), e);
    }
  }

  lemma {:induction false} ForgottenLines(log: seq<Event>, removable: seq<Event>, kept: seq<Event>, summary: Event,
                                          e: Event)
    requires log == removable + kept && Increasing(log) && Removed(removable, kept) != []
    requires summary.seqNo == Removed(removable, kept)[|Removed(removable, kept)| - 1].seqNo
    requires summary.body.Plain? && (e.body.Task? || e.body.Terminal? || e.body.Ack?)
    ensures e in Rewritten(removable, kept, summary) <==> e in kept
  {
    CompactedLog(log, removable, kept, summary);
    assert StateKey(e).None?;
  }

  lemma {:induction false} AfterIsKept(log: seq<Event>, keepStart: nat, t: Event, x: Event)
    requires Increasing(log) && keepStart <= |log| && t in log[keepStart..] && x in log && x.seqNo > t.seqNo
    ensures x in log[keepStart..]
  {
    var i :| 0 <= i < |log| - keepStart && log[keepStart..][i] == t;
    var j :| 0 <= j < |log| && log[j] == x;
    assert log[keepStart + i] == t;
    assert log[keepStart..][j - keepStart] == x;
  }

  /** When resolutions follow their tasks, the pending tasks after compaction are the pending
      tasks before it that were retained: nothing finished comes back. */
  lemma {:induction false} PendingAfterCompaction(log: seq<Event>, keepStart: nat, id: string, now: int, t: Event)
    requires Increasing(log) && keepStart <= |log| && ResolutionsFollow(log)
    ensures Pending(CompactAt(log, keepStart, id, now), t) <==>
              Pending(log, t) && t in CompactAt(log, keepStart, id, now)
  {
    var compacted := CompactAt(log, keepStart, id, now);
    assert forall e | e in log[keepStart..] :: e in log;
    if t in compacted && t.body.Task? {
      Forgotten(log, keepStart, id, now, t);
      assert t in log;
      if ResolvedIn(log, t.id) {
        var x :| x in log && x.body == Terminal(Some(t.id)) && x.seqNo > t.seqNo;
        if t in log[keepStart..] {
          AfterIsKept(log, keepStart, t, x);
        }
        Forgotten(log, keepStart, id, now, x);
        assert x in compacted;
      } else if ResolvedIn(compacted, t.id) {
        var x :| x in compacted && x.body == Terminal(Some(t.id));
        Forgotten(log, keepStart, id, now, x);
      }
    }
  }

  /** No cut brings finished work back exactly when resolutions follow their tasks. */
  lemma {:induction false} NoResurrectionExactly(log: seq<Event>, id: string, now: int)
    requires Increasing(log)
    ensures ResolutionsFollow(log) <==>
            forall keepStart: nat, t: Event | keepStart <= |log| && Pending(CompactAt(log, keepStart, id, now), t) ::
              Pending(log, t)
  {
    if ResolutionsFollow(log) {
      forall keepStart: nat, t: Event | keepStart <= |log| && Pending(CompactAt(log, keepStart, id, now), t)
        ensures Pending(log, t)
      {
        PendingAfterCompaction(log, keepStart, id, now, t);
      }
    } else {
      var t :| t in log && t.body.Task? && ResolvedIn(log, t.id) &&
               !exists x :: x in log && x.body == Terminal(Some(t.id)) && x.seqNo > t.seqNo;
      var keepStart: nat :| keepStart < |log| && log[keepStart] == t;
      EarlyResolutionIsLost(log, keepStart, id, now, t);
    }
  }

  lemma {:induction false} EarlyResolutionIsLost(log: seq<Event>, keepStart: nat, id: string, now: int, t: Event)
    requires Increasing(log) && keepStart < |log| && log[keepStart] == t && t.body.Task? && ResolvedIn(log, t.id)
    requires !exists x :: x in log && x.body == Terminal(Some(t.id)) && x.seqNo > t.seqNo
    ensures Pending(CompactAt(log, keepStart, id, now), t) && !Pending(log, t)
  {
    var removable, kept := log[..keepStart], log[keepStart..];
    assert removable + kept == log && kept[0] == t;
    forall x | x in kept ensures x.body != Terminal(Some(t.id)) { LaterInLog(log, keepStart, x); }
    var early :| early in log && early.body == Terminal(Some(t.id));
    UnkeyedIsRemoved(removable, kept, early);
    PendingInKept(log, keepStart, id, now, t);
  }

  lemma {:induction false} LaterInLog(log: seq<Event>, keepStart: nat, x: Event)
    requires Increasing(log) && keepStart < |log| && x in log[keepStart..]
    ensures x in log && (x == log[keepStart] || x.seqNo > log[keepStart].seqNo)
  {
    var i :| 0 <= i < |log[keepStart..]| && log[keepStart..][i] == x;
    assert log[keepStart + i] == x;
  }

  lemma {:induction false} UnkeyedIsRemoved(removable: seq<Event>, kept: seq<Event>, e: Event)
    requires Increasing(removable + kept) && e in removable && e.body.Terminal?
    ensures Removed(removable, kept) != []
  {
    CheckpointsAreLatest(removable, kept);
    assert StateKey(e).None?;
    assert e in Removed(removable, kept);
  }

  lemma {:induction false} PendingInKept(log: seq<Event>, keepStart: nat, id: string, now: int, t: Event)
    requires Increasing(log) && keepStart <= |log| && t in log[keepStart..] && t.body.Task?
    requires Removed(log[..keepStart], log[keepStart..]) != []
    requires forall x | x in log[keepStart..] :: x.body != Terminal(Some(t.id))
    ensures Pending(CompactAt(log, keepStart, id, now), t)
  {
    Forgotten(log, keepStart, id, now, t);
    forall x | x in CompactAt(log, keepStart, id, now) ensures x.body != Terminal(Some(t.id)) {
      if x.body.Terminal? { Forgotten(log, keepStart, id, now, x); }
    }
  }

  /** A log with a resolution in front of its task, and the cut between them that brings the task back. */
  lemma {:induction false} EarlyResolutionExample(task: string, id: string, now: int)
    ensures var log := [Event(0, "done", "a", "*", 0, Terminal(Some(task))), Event(1, task, "b", "a", 0, Task)];
            Increasing(log) && Pending(CompactAt(log, 1, id, now), log[1]) && !Pending(log, log[1])
  {
    var log := [Event(0, "done", "a", "*", 0, Terminal(Some(task))), Event(1, task, "b", "a", 0, Task)];
    assert log[0] in log && log[1].seqNo == 1;
    assert forall x | x in log && x.body == Terminal(Some(task)) :: x == log[0];
    EarlyResolutionIsLost(log, 1, id, now, log[1]);
  }

  // ---- Acknowledgements ----

  /** The highest sequence number an agent has acknowledged, -1 before its first one. */
  function AckCursor(log: seq<Event>, agent: string): int {
    if log == [] then -1
    else
      var before, last := AckCursor(log[..|log| - 1], agent), log[|log| - 1];
      if last.body.Ack? && last.from == agent && last.body.eventSeq > before then last.body.eventSeq else before
  }

  method AckCursors(events: seq<Event>) returns (cursors: map<string, int>)
    ensures forall agent :: (if agent in cursors then cursors[agent] else -1) == AckCursor(events, agent)
  {
    cursors := map[];
    for i := 0 to |events|
      invariant forall agent :: (if agent in cursors then cursors[agent] else -1) == AckCursor(events[..i], agent)
    {
      assert events[..i + 1][..i] == events[..i];
      var event := events[i];
      if !event.body.Ack? { continue; }
      var current := if event.from in cursors then cursors[event.from] else -1;
      if event.body.eventSeq > current { cursors := cursors[event.from := event.body.eventSeq]; }
    }
    assert events[..|events|] == events;
  }

  lemma {:induction false} AckCursorBounds(log: seq<Event>, agent: string)
    ensures AckCursor(log, agent) >= -1
    ensures forall e | e in log && e.body.Ack? && e.from == agent :: e.body.eventSeq <= AckCursor(log, agent)
    ensures AckCursor(log, agent) >= 0 ==>
              exists e :: e in log && e.body.Ack? && e.from == agent && e.body.eventSeq == AckCursor(log, agent)
  {
    if log != [] {
      var init, last := log[..|log| - 1], log[|log| - 1];
      assert log == init + [last];
      AckCursorBounds(init, agent);
      if AckCursor(log, agent) >= 0 {
        if AckCursor(log, agent) == AckCursor(init, agent) {
          var e :| e in init && e.body.Ack? && e.from == agent && e.body.eventSeq == AckCursor(init, agent);
          assert e in log;
        } else {
          assert last in log;
        }
      }
    }
  }

  /** Compaction never acknowledges anything: cursors only go down. */
  lemma {:induction false} CompactionNeverAcknowledges(log: seq<Event>, keepStart: nat, id: string, now: int,
                                                       agent: string)
    requires Increasing(log) && keepStart <= |log|
    ensures AckCursor(CompactAt(log, keepStart, id, now), agent) <= AckCursor(log, agent)
  {
    var compacted := CompactAt(log, keepStart, id, now);
    AckCursorBounds(log, agent);
    AckCursorBounds(compacted, agent);
    if AckCursor(compacted, agent) >= 0 {
      var e :| e in compacted && e.body.Ack? && e.from == agent && e.body.eventSeq == AckCursor(compacted, agent);
      Forgotten(log, keepStart, id, now, e);
      assert e in log;
    }
  }

  /** Not acknowledged by any agent of the log other than its sender. */
  ghost predicate Unacked(log: seq<Event>, e: Event) {
    e in log && !e.body.Ack? &&
    forall x | x in log && x.from != e.from :: AckCursor(log, x.from) < e.seqNo
  }

  /** Not acknowledged by one agent: what the snapshot lists for it. */
  ghost predicate UnackedFor(log: seq<Event>, agent: string, e: Event) {
    e in log && e.seqNo > AckCursor(log, agent) && e.from != agent && !e.body.Ack?
  }

  lemma {:induction false} CursorBelowExactly(log: seq<Event>, agent: string, n: nat)
    ensures AckCursor(log, agent) < n
            <==> forall a | a in log && a.body.Ack? && a.from == agent :: a.body.eventSeq < n
  {
    AckCursorBounds(log, agent);
  }

  /** Listed for an agent is what others logged, acknowledgements apart, above all it acknowledged. */
  lemma {:induction false} UnackedForExactly(log: seq<Event>, agent: string, e: Event)
    ensures UnackedFor(log, agent, e)
            <==> && e in log && !e.body.Ack? && e.from != agent
                 && forall a | a in log && a.body.Ack? && a.from == agent :: a.body.eventSeq < e.seqNo
  {
    CursorBelowExactly(log, agent, e.seqNo);
  }

  /** Unacknowledged is what no agent but its own has acknowledged, or anything above it. */
  lemma {:induction false} UnackedExactly(log: seq<Event>, e: Event)
    ensures Unacked(log, e)
            <==> && e in log && !e.body.Ack?
                 && forall a | a in log && a.body.Ack? && a.from != e.from :: a.body.eventSeq < e.seqNo
  {
    forall x | x in log && x.from != e.from
      ensures AckCursor(log, x.from) < e.seqNo
              <==> forall a | a in log && a.body.Ack? && a.from == x.from :: a.body.eventSeq < e.seqNo
    {
      CursorBelowExactly(log, x.from, e.seqNo);
    }
  }

  lemma {:induction false} UnackedForStays(log: seq<Event>, keepStart: nat, id: string, now: int, agent: string,
                                           e: Event)
    requires Increasing(log) && keepStart <= |log|
    requires UnackedFor(log, agent, e) && e in CompactAt(log, keepStart, id, now)
    ensures UnackedFor(CompactAt(log, keepStart, id, now), agent, e)
  {
    CompactionNeverAcknowledges(log, keepStart, id, now, agent);
  }

  /** A retained event nobody had acknowledged is still unacknowledged afterwards. */
  lemma {:induction false} UnackedStaysUnacked(log: seq<Event>, keepStart: nat, id: string, now: int, e: Event)
    requires Increasing(log) && keepStart <= |log|
    requires Unacked(log, e) && e in CompactAt(log, keepStart, id, now)
    ensures Unacked(CompactAt(log, keepStart, id, now), e)
  {
    var compacted := CompactAt(log, keepStart, id, now);
    forall x | x in compacted && x.from != e.from ensures AckCursor(compacted, x.from) < e.seqNo {
      CompactionNeverAcknowledges(log, keepStart, id, now, x.from);
      AckCursorBounds(log, x.from);
      if AckCursor(log, x.from) >= 0 {
        var ack :| ack in log && ack.body.Ack? && ack.from == x.from && ack.body.eventSeq == AckCursor(log, x.from);
        assert AckCursor(log, ack.from) < e.seqNo;
      }
    }
  }
}
