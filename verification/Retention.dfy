/** The compactor: cut, checkpoints, summary, and what they keep. */
module Retention {
  import opened Wrappers
  import opened Events
  import opened StateKeys
  import opened Ownership

  const SUMMARY_SENDER := "loadout"

  ghost function KeysOf(log: seq<Event>): set<string> {
    set e | e in log && StateKey(e).Some? :: StateKey(e).value
  }

  lemma {:induction false} KeysOfPrepend(e: Event, log: seq<Event>)
    ensures KeysOf([e] + log) == (if StateKey(e).Some? then {StateKey(e).value} else {}) + KeysOf(log)
    ensures KeysOf(log + [e]) == KeysOf([e] + log)
  {
    assert forall x :: x in [e] + log <==> x == e || x in log;
    assert forall x :: x in log + [e] <==> x == e || x in log;
  }

  /** No later event speaks for this one's state, among the removable or the kept. */
  ghost predicate Unspoken(e: Event, later: seq<Event>, kept: seq<Event>) {
    StateKey(e).Some? && StateKey(e).value !in KeysOf(later) + KeysOf(kept)
  }

  ghost function Checkpoints(removable: seq<Event>, kept: seq<Event>): seq<Event> {
    if removable == [] then []
    else
      (if Unspoken(removable[0], removable[1..], kept) then [removable[0]] else [])
      + Checkpoints(removable[1..], kept)
  }

  /** The other removable events. */
  ghost function Removed(removable: seq<Event>, kept: seq<Event>): seq<Event> {
    if removable == [] then []
    else
      (if Unspoken(removable[0], removable[1..], kept) then [] else [removable[0]])
      + Removed(removable[1..], kept)
  }

  function Reverse(s: seq<Event>): seq<Event> {
    if s == [] then [] else Reverse(s[1..]) + [s[0]]
  }

  lemma {:induction false} ReverseAppend(s: seq<Event>, e: Event)
    ensures Reverse(s + [e]) == [e] + Reverse(s)
  {
    if s != [] {
      assert (s + [e])[1..] == s[1..] + [e];
      ReverseAppend(s[1..], e);
    }
  }

  method CollectKeys(events: seq<Event>) returns (keys: set<string>)
    ensures keys == KeysOf(events)
  {
    keys := {};
    for j := 0 to |events|
      invariant keys == KeysOf(events[..j])
    {
      assert events[..j + 1] == events[..j] + [events[j]];
      KeysOfPrepend(events[j], events[..j]);
      var key := StateKey(events[j]);
      if key.Some? { keys := keys + {key.value}; }
    }
    assert events[..|events|] == events;
  }

  lemma {:induction false} WalkStep(e: Event, later: seq<Event>, kept: seq<Event>)
    ensures var chosen := Unspoken(e, later, kept);
            && Checkpoints([e] + later, kept) == (if chosen then [e] else []) + Checkpoints(later, kept)
            && Removed([e] + later, kept) == (if chosen then [] else [e]) + Removed(later, kept)
    ensures KeysOf([e] + later) ==
            KeysOf(later) + if StateKey(e).Some? then {StateKey(e).value} else {}
  {
    assert ([e] + later)[1..] == later;
    KeysOfPrepend(e, later);
  }

  /** Walks the removable events backwards and collects the checkpoints, as
      extractStateCheckpoints does. The events passed over are those that compact then finds
      by filtering the checkpoint objects out. */
  method ExtractStateCheckpoints(removable: seq<Event>, kept: seq<Event>)
    returns (checkpoints: seq<Event>, remove: seq<Event>)
    ensures checkpoints == Checkpoints(removable, kept)
    ensures remove == Removed(removable, kept)
  {
    var keptKeys := CollectKeys(kept);
    var seen: set<string> := {};
    var backwards: seq<Event> := [];
    remove := [];
    for i := |removable| downto 0
      invariant Reverse(backwards) == Checkpoints(removable[i..], kept)
      invariant remove == Removed(removable[i..], kept)
      invariant seen + keptKeys == KeysOf(removable[i..]) + KeysOf(kept)
    {
      assert removable[i..] == [removable[i]] + removable[i + 1..];
      WalkStep(removable[i], removable[i + 1..], kept);
      ghost var all := seen + keptKeys;
      var key := StateKey(removable[i]);
      if key.Some? && key.value !in keptKeys && key.value !in seen {
        assert key.value !in all;
        seen := seen + {key.value};
        ReverseAppend(backwards, removable[i]);
        backwards := backwards + [removable[i]];
      } else {
        assert key.Some? ==> key.value in all;
        remove := [removable[i]] + remove;
      }
    }
    assert removable[0..] == removable;
    checkpoints := Reverse(backwards);
  }

  /** Stable sort by sequence number. */
  function InsertBySeq(e: Event, sorted: seq<Event>): seq<Event> {
    if sorted == [] || e.seqNo <= sorted[0].seqNo then [e] + sorted
    else [sorted[0]] + InsertBySeq(e, sorted[1..])
  }

  function SortBySeq(events: seq<Event>): seq<Event> {
    if events == [] then [] else InsertBySeq(events[0], SortBySeq(events[1..]))
  }

  function SummaryEvent(removed: seq<Event>, id: string, now: int): Event
    requires removed != []
  {
    Event(removed[|removed| - 1].seqNo, id, SUMMARY_SENDER, "*", now, Plain)
  }

  /** The lines of the rewritten log: checkpoints, summary and kept events, sorted. */
  ghost function Rewritten(removable: seq<Event>, kept: seq<Event>, summary: Event): seq<Event> {
    SortBySeq(Checkpoints(removable, kept) + [summary] + kept)
  }

  /** The log after compaction when everything before keepStart may go. */
  ghost function CompactAt(log: seq<Event>, keepStart: nat, id: string, now: int): seq<Event>
    requires keepStart <= |log|
  {
    var removed := Removed(log[..keepStart], log[keepStart..]);
    if removed == [] then log
    else Rewritten(log[..keepStart], log[keepStart..], SummaryEvent(removed, id, now))
  }

  /** Where the retained suffix starts: after the events older than the cutoff, and late
      enough to keep at most maxEvents. */
  function AgeStart(log: seq<Event>, cutoff: int): (start: nat)
    ensures start <= |log|
  {
    if log == [] || log[0].timestamp >= cutoff then 0 else 1 + AgeStart(log[1..], cutoff)
  }

  lemma {:induction false} AgeStartMeaning(log: seq<Event>, cutoff: int)
    ensures forall i | 0 <= i < AgeStart(log, cutoff) :: log[i].timestamp < cutoff
    ensures AgeStart(log, cutoff) < |log| ==> log[AgeStart(log, cutoff)].timestamp >= cutoff
  {
    if log != [] && log[0].timestamp < cutoff {
      AgeStartMeaning(log[1..], cutoff);
    }
  }

  function KeepStart(log: seq<Event>, cutoff: int, maxEvents: nat): (start: nat)
    ensures start <= |log| <= start + maxEvents || (start <= |log| && start == AgeStart(log, cutoff))
  {
    var countStart := if |log| > maxEvents then |log| - maxEvents else 0;
    if AgeStart(log, cutoff) > countStart then AgeStart(log, cutoff) else countStart
  }

  /** The event is among the last maxEvents, and it or one before it is young. */
  ghost predicate Within(log: seq<Event>, i: int, cutoff: int, maxEvents: int) {
    |log| - maxEvents <= i < |log| && exists j | 0 <= j <= i :: log[j].timestamp >= cutoff
  }

  /** Both limits hold at once: an event is cut off when it is too far back, or all up to it are old. */
  lemma {:induction false} KeepStartExactly(log: seq<Event>, cutoff: int, maxEvents: nat, i: nat)
    requires i < |log|
    ensures i < KeepStart(log, cutoff, maxEvents)
            <==> i < |log| - maxEvents || forall j | 0 <= j <= i :: log[j].timestamp < cutoff
  {
    AgeStartMeaning(log, cutoff);
  }

  datatype CompactionError = BadMaxEvents | BadMaxAge

  datatype CompactionResult = CompactionResult(before: nat, after: nat, removed: nat, compacted: bool)

  /** The index of the first event that is young enough, or the length of the log. */
  method FirstYoung(log: seq<Event>, cutoff: int) returns (start: nat)
    ensures start == AgeStart(log, cutoff)
  {
    start := 0;
    while start < |log| && log[start].timestamp < cutoff
      invariant 0 <= start <= |log|
      invariant AgeStart(log, cutoff) == start + AgeStart(log[start..], cutoff)
    {
      start := start + 1;
    }
  }

  /** The body of compact once the lock is held and the kill switch is off. */
  method Compact(log: seq<Event>, cutoff: int, maxEvents: int, maxAgeDays: int, id: string, now: int)
    returns (r: Result<CompactionResult, CompactionError>, rewritten: seq<Event>)
    ensures maxEvents < 1 ==> r == Err(BadMaxEvents) && rewritten == log
    ensures maxEvents >= 1 && maxAgeDays < 0 ==> r == Err(BadMaxAge) && rewritten == log
    ensures maxEvents >= 1 && maxAgeDays >= 0 ==>
              && rewritten == CompactAt(log, KeepStart(log, cutoff, maxEvents), id, now)
              && r.Ok? && r.value.before == |log| && r.value.after == |rewritten|
              && (!r.value.compacted ==> rewritten == log && r.value.removed == 0)
              && (r.value.compacted ==> r.value.removed >= 1 && |rewritten| == |log| - r.value.removed + 1)
    ensures maxEvents >= 1 && maxAgeDays >= 0 && Increasing(log) && Fresh(log, id) ==>
              && (forall i | 0 <= i < |log| ::
                    log[i] in rewritten <==> IsLatest(log, log[i]) || Within(log, i, cutoff, maxEvents))
              && |Passing(log, rewritten)| <= maxEvents
              && (r.value.compacted <==>
                  exists i :: 0 <= i < |log| && !IsLatest(log, log[i]) && !Within(log, i, cutoff, maxEvents))
  {
    if maxEvents >= 1 && Increasing(log) && Fresh(log, id) { StaysExactly(log, cutoff, maxEvents, id, now); }
    rewritten := log;
    if maxEvents < 1 { return Err(BadMaxEvents), log; }
    if maxAgeDays < 0 { return Err(BadMaxAge), log; }
    var ageStart := FirstYoung(log, cutoff);
    var countStart := if |log| > maxEvents then |log| - maxEvents else 0;
    var keepStart := if ageStart > countStart then ageStart else countStart;
    var removable, kept := log[..keepStart], log[keepStart..];
    var checkpoints, remove := ExtractStateCheckpoints(removable, kept);
    if remove == [] {
      return Ok(CompactionResult(|log|, |log|, 0, false)), log;
    }
    CheckpointsPartition(removable, kept);
    rewritten := SortBySeq(checkpoints + [SummaryEvent(remove, id, now)] + kept);
    SortKeepsLength(checkpoints, SummaryEvent(remove, id, now), kept);
    return Ok(CompactionResult(|log|, |checkpoints| + |kept| + 1, |remove|, true)), rewritten;
  }

  lemma {:induction false} SortKeepsLength(checkpoints: seq<Event>, summary: Event, kept: seq<Event>)
    ensures |SortBySeq(checkpoints + [summary] + kept)| == |checkpoints| + 1 + |kept|
  {
    SortKeepsEvents(checkpoints + [summary] + kept);
  }

  lemma {:induction false} CheckpointsPartition(removable: seq<Event>, kept: seq<Event>)
    ensures |Removed(removable, kept)| + |Checkpoints(removable, kept)| == |removable|
  {
    if removable != [] {
      CheckpointsPartition(removable[1..], kept);
    }
  }

  lemma {:induction false} InsertKeepsEvents(e: Event, sorted: seq<Event>)
    ensures |InsertBySeq(e, sorted)| == |sorted| + 1
    ensures forall x :: x in InsertBySeq(e, sorted) <==> x == e || x in sorted
  {
    if sorted != [] && e.seqNo > sorted[0].seqNo {
      InsertKeepsEvents(e, sorted[1..]);
      assert sorted == [sorted[0]] + sorted[1..];
    }
  }

  lemma {:induction false} InsertKeepsOrder(e: Event, sorted: seq<Event>)
    requires Increasing(sorted) && forall x | x in sorted :: x.seqNo != e.seqNo
    ensures Increasing(InsertBySeq(e, sorted))
  {
    if sorted != [] {
      assert sorted[0] in sorted;
      if e.seqNo > sorted[0].seqNo {
        var rest := InsertBySeq(e, sorted[1..]);
        InsertKeepsOrder(e, sorted[1..]);
        InsertKeepsEvents(e, sorted[1..]);
        forall j | 0 <= j < |rest| ensures sorted[0].seqNo < rest[j].seqNo {
          assert rest[j] in rest;
        }
      }
    }
  }

  ghost predicate DistinctSeqs(events: seq<Event>) {
    forall i, j | 0 <= i < j < |events| :: events[i].seqNo != events[j].seqNo
  }

  lemma {:induction false} SortKeepsEvents(events: seq<Event>)
    ensures |SortBySeq(events)| == |events|
    ensures forall x :: x in SortBySeq(events) <==> x in events
    ensures DistinctSeqs(events) ==> Increasing(SortBySeq(events))
  {
    if events != [] {
      SortKeepsEvents(events[1..]);
      InsertKeepsEvents(events[0], SortBySeq(events[1..]));
      assert events == [events[0]] + events[1..];
      if DistinctSeqs(events) { InsertKeepsOrder(events[0], SortBySeq(events[1..])); }
    }
  }

  // ---- What compaction keeps ----

  /** e carries the current value of its state: no event with its key comes later. */
  ghost predicate IsLatest(log: seq<Event>, e: Event) {
    e in log && StateKey(e).Some? &&
    forall x | x in log && StateKey(x) == StateKey(e) :: x.seqNo <= e.seqNo
  }

  lemma {:induction false} CheckpointsAreLatest(removable: seq<Event>, kept: seq<Event>)
    requires Increasing(removable + kept)
    ensures forall e :: e in Checkpoints(removable, kept) <==> e in removable && IsLatest(removable + kept, e)
    ensures forall e :: e in Removed(removable, kept) <==> e in removable && !IsLatest(removable + kept, e)
  {
    if removable != [] {
      var first, rest := removable[0], removable[1..];
      var all, later := removable + kept, removable[1..] + kept;
      assert all == [first] + later && removable == [first] + rest;
      assert Increasing(later) by { assert later == all[1..]; PrefixIncreasing(all, 1); }
      CheckpointsAreLatest(rest, kept);
      FirstIsSmallest(all, later, first);
      UnspokenIsLatest(all, rest, kept, first);
      forall e | e in rest ensures IsLatest(all, e) <==> IsLatest(later, e) {
        assert e in later;
      }
    }
  }

  lemma {:induction false} FirstIsSmallest(all: seq<Event>, later: seq<Event>, first: Event)
    requires all == [first] + later && Increasing(all)
    ensures forall x | x in later :: first.seqNo < x.seqNo
  {
    forall x | x in later ensures first.seqNo < x.seqNo {
      var i :| 0 <= i < |later| && later[i] == x;
      assert all[0] == first && all[i + 1] == x;
    }
  }

  lemma {:induction false} UnspokenIsLatest(all: seq<Event>, rest: seq<Event>, kept: seq<Event>, first: Event)
    requires all == [first] + (rest + kept)
    requires forall x | x in rest + kept :: first.seqNo < x.seqNo
    ensures Unspoken(first, rest, kept) <==> IsLatest(all, first)
  {
    assert forall x :: x in rest + kept <==> x in rest || x in kept;
    assert first in all;
    if StateKey(first).Some? {
      if StateKey(first).value in KeysOf(rest) + KeysOf(kept) {
        var x :| x in rest + kept && StateKey(x) == StateKey(first);
        assert x in all;
      }
      assert forall x | x in rest + kept && StateKey(x) == StateKey(first) ::
          StateKey(x).value in KeysOf(rest) + KeysOf(kept);
    }
  }

  lemma {:induction false} SubsequencesOrdered(removable: seq<Event>, kept: seq<Event>)
    requires Increasing(removable)
    ensures Increasing(Checkpoints(removable, kept)) && Increasing(Removed(removable, kept))
    ensures forall e | e in Checkpoints(removable, kept) || e in Removed(removable, kept) :: e in removable
  {
    if removable != [] {
      var first, rest := removable[0], removable[1..];
      assert removable == [first] + rest;
      SubsequencesOrdered(rest, kept);
      FirstIsSmallest(removable, rest, first);
    }
  }

  /** The compacted log: every event from the cut on, every current value before it, and one
      summary in the place of the last event removed; in order, with the same high watermark. */
  lemma {:induction false} CompactedLog(log: seq<Event>, removable: seq<Event>, kept: seq<Event>, summary: Event)
    requires log == removable + kept && Increasing(log) && Removed(removable, kept) != []
    requires summary.seqNo == Removed(removable, kept)[|Removed(removable, kept)| - 1].seqNo
    requires StateKey(summary).None?
    ensures var compacted := Rewritten(removable, kept, summary);
            && Increasing(compacted)
            && HighSeq(compacted) == HighSeq(log)
            && (forall e | e in compacted && StateKey(e).Some? :: e in log)
            && (forall e | e in compacted :: e == summary || e in kept || IsLatest(log, e))
            && (forall e | e in kept :: e in compacted)
            && (forall e | IsLatest(log, e) :: e in compacted)
  {
    var checkpoints, removed := Checkpoints(removable, kept), Removed(removable, kept);
    var last := removed[|removed| - 1];
    var lines := checkpoints + [summary] + kept;
    var compacted := SortBySeq(lines);
    SortKeepsEvents(lines);
    assert Increasing(compacted) by {
      PrefixIncreasing(log, |removable|);
      assert log[..|removable|] == removable;
      SubsequencesOrdered(removable, kept);
      LastIsNoCheckpoint(removable, kept);
      assert last in removed;
      LinesAreDistinct(removable, kept, checkpoints, last, summary);
    }
    CompactedMembers(log, removable, kept, compacted, summary);
    assert HighSeq(compacted) == HighSeq(log) by {
      LastRemovedIsTop(removable, kept);
      HighSeqKept(log, compacted, last, summary);
    }
  }

  /** Every event that goes is at most the one the summary is numbered after. */
  lemma {:induction false} LastRemovedIsTop(removable: seq<Event>, kept: seq<Event>)
    requires Increasing(removable + kept) && Removed(removable, kept) != []
    ensures var removed := Removed(removable, kept);
            && removed[|removed| - 1] in removable + kept
            && forall e | e in removable + kept ::
                 e in kept || IsLatest(removable + kept, e) || e.seqNo <= removed[|removed| - 1].seqNo
  {
    var removed := Removed(removable, kept);
    assert Increasing(removable) by {
      PrefixIncreasing(removable + kept, |removable|);
      assert (removable + kept)[..|removable|] == removable;
    }
    SubsequencesOrdered(removable, kept);
    CheckpointsAreLatest(removable, kept);
    assert removed[|removed| - 1] in removed;
    forall e | e in removed ensures e.seqNo <= removed[|removed| - 1].seqNo {
      var i :| 0 <= i < |removed| && removed[i] == e;
    }
  }

  lemma {:induction false} LastIsNoCheckpoint(removable: seq<Event>, kept: seq<Event>)
    requires Increasing(removable + kept) && Removed(removable, kept) != []
    ensures var removed := Removed(removable, kept);
            removed[|removed| - 1] !in Checkpoints(removable, kept)
  {
    CheckpointsAreLatest(removable, kept);
    var removed := Removed(removable, kept);
    assert removed[|removed| - 1] in removed;
  }

  lemma {:induction false} CompactedMembers(log: seq<Event>, removable: seq<Event>, kept: seq<Event>,
                                            compacted: seq<Event>, summary: Event)
    requires log == removable + kept && Increasing(log) && StateKey(summary).None?
    requires forall x :: x in compacted <==> x in Checkpoints(removable, kept) + [summary] + kept
    ensures summary in compacted
    ensures forall e | e in compacted && StateKey(e).Some? :: e in log
    ensures forall e | e in compacted :: e == summary || e in kept || IsLatest(log, e)
    ensures forall e | e in kept :: e in compacted
    ensures forall e | IsLatest(log, e) :: e in compacted
    ensures forall e | e in compacted :: e in log || e == summary
  {
    CheckpointsAreLatest(removable, kept);
    assert forall e :: e in log <==> e in removable || e in kept;
  }

  lemma {:induction false} LinesAreDistinct(removable: seq<Event>, kept: seq<Event>, checkpoints: seq<Event>,
                                            last: Event, summary: Event)
    requires Increasing(removable + kept) && Increasing(checkpoints)
    requires forall e | e in checkpoints :: e in removable
    requires last in removable && last !in checkpoints && summary.seqNo == last.seqNo
    ensures DistinctSeqs(checkpoints + [summary] + kept)
  {
    var log := removable + kept;
    assert Increasing(removable) && Increasing(kept) by {
      PrefixIncreasing(log, |removable|);
      assert log[..|removable|] == removable && log[|removable|..] == kept;
    }
    forall a, b | a in removable && b in kept ensures a.seqNo < b.seqNo {
      var i :| 0 <= i < |removable| && removable[i] == a;
      var j :| 0 <= j < |kept| && kept[j] == b;
      assert log[i] == a && log[|removable| + j] == b;
    }
    forall c | c in checkpoints ensures c.seqNo != summary.seqNo {
      if c.seqNo == last.seqNo { SameSeqSameEvent(removable, c, last); }
    }
    var lines := checkpoints + [summary] + kept;
    forall i, j | 0 <= i < j < |lines| ensures lines[i].seqNo != lines[j].seqNo {
      if j > |checkpoints| { assert lines[j] in kept; }
      if i < |checkpoints| { assert lines[i] in checkpoints; }
    }
  }

  /** The top event is kept, or its number is taken over by the summary. */
  lemma {:induction false} HighSeqKept(log: seq<Event>, compacted: seq<Event>, last: Event, summary: Event)
    requires Increasing(log) && Increasing(compacted) && last in log && summary in compacted
    requires summary.seqNo == last.seqNo
    requires forall e | e in compacted :: e in log || e == summary
    requires forall e | e in log :: e in compacted || e.seqNo <= last.seqNo
    ensures HighSeq(compacted) == HighSeq(log)
  {
    HighSeqBounds(log);
    HighSeqBounds(compacted);
  }

  // ---- The compacted log simulates the history ----

  /** The working log stands for the history: both in order, same watermark, nothing made up
      among the state-bearing events, and every current value still there. */
  ghost predicate Simulates(history: seq<Event>, log: seq<Event>) {
    && Increasing(history) && Increasing(log)
    && HighSeq(history) == HighSeq(log)
    && (forall e | e in log && StateKey(e).Some? :: e in history)
    && (forall e | IsLatest(history, e) :: e in log)
  }

  lemma {:induction false} AppendSimulates(history: seq<Event>, log: seq<Event>, e: Event)
    requires Simulates(history, log) && e.seqNo == HighSeq(history) + 1
    ensures Simulates(history + [e], log + [e])
  {
    AppendIncreasing(history, e);
    AppendIncreasing(log, e);
    HighSeqBounds(history);
    forall x | IsLatest(history + [e], x) ensures x in log + [e] {
      if x != e {
        assert forall y | y in history :: y in history + [e];
        assert IsLatest(history, x);
      }
    }
  }

  lemma {:induction false} LatestInBoth(history: seq<Event>, log: seq<Event>, e: Event)
    requires Simulates(history, log) && IsLatest(history, e)
    ensures IsLatest(log, e)
  {
  }

  /** What later reads rely on: order, watermark, and every current value. */
  ghost predicate KeepsState(log: seq<Event>, compacted: seq<Event>) {
    && Increasing(compacted)
    && HighSeq(compacted) == HighSeq(log)
    && (forall e | e in compacted && StateKey(e).Some? :: e in log)
    && (forall e | IsLatest(log, e) :: e in compacted)
  }

  // ---- What stays, event by event ----

  /** No event has the id yet. */
  ghost predicate Fresh(log: seq<Event>, id: string) {
    forall e | e in log :: e.id != id
  }

  /** The events of the rewritten log that are there although they carry no current value. */
  ghost function Passing(log: seq<Event>, rewritten: seq<Event>): set<Event> {
    set e | e in rewritten && e in log && !IsLatest(log, e)
  }

  lemma {:induction false} InSuffixExactly(log: seq<Event>, start: nat, i: nat)
    requires Increasing(log) && start <= |log| && i < |log|
    ensures log[i] in log[start..] <==> i >= start
    ensures log[i] in log[..start] <==> i < start
  {
    if i >= start { assert log[start..][i - start] == log[i]; } else { assert log[..start][i] == log[i]; }
  }

  lemma {:induction false} InCompactedExactly(log: seq<Event>, start: nat, id: string, now: int, i: nat)
    requires Increasing(log) && Fresh(log, id) && start <= |log| && i < |log|
    ensures log[i] in CompactAt(log, start, id, now) <==> IsLatest(log, log[i]) || i >= start
  {
    var removable, kept := log[..start], log[start..];
    assert log == removable + kept;
    CheckpointsAreLatest(removable, kept);
    InSuffixExactly(log, start, i);
    assert log[i] in log;
    if Removed(removable, kept) != [] {
      SortKeepsEvents(Checkpoints(removable, kept) + [SummaryEvent(Removed(removable, kept), id, now)] + kept);
    }
  }

  lemma {:induction false} ElementsAtMost(events: seq<Event>, some: set<Event>)
    requires forall e | e in some :: e in events
    ensures |some| <= |events|
  {
    if events == [] {
      assert some == {};
    } else {
      ElementsAtMost(events[1..], some - {events[0]});
    }
  }

  lemma {:induction false} RemovedExactly(log: seq<Event>, start: nat)
    requires Increasing(log) && start <= |log|
    ensures Removed(log[..start], log[start..]) != []
            <==> exists i :: 0 <= i < |log| && !IsLatest(log, log[i]) && i < start
  {
    var removable, kept := log[..start], log[start..];
    assert log == removable + kept;
    CheckpointsAreLatest(removable, kept);
    if Removed(removable, kept) != [] {
      var e := Removed(removable, kept)[0];
      assert e in Removed(removable, kept);
      var i :| 0 <= i < |removable| && removable[i] == e;
      assert log[i] == e;
    }
    if i :| 0 <= i < |log| && !IsLatest(log, log[i]) && i < start {
      assert removable[i] == log[i] && log[i] in Removed(removable, kept);
    }
  }

  /** After a compaction with both limits, what stays are the current values, and of the rest what is
      within the limits, which is at most maxEvents. */
  lemma {:induction false} StaysExactly(log: seq<Event>, cutoff: int, maxEvents: nat, id: string, now: int)
    requires Increasing(log) && Fresh(log, id)
    ensures var rewritten := CompactAt(log, KeepStart(log, cutoff, maxEvents), id, now);
            && (forall i | 0 <= i < |log| ::
                  log[i] in rewritten <==> IsLatest(log, log[i]) || Within(log, i, cutoff, maxEvents))
            && |Passing(log, rewritten)| <= maxEvents
    ensures var start := KeepStart(log, cutoff, maxEvents);
            Removed(log[..start], log[start..]) != []
            <==> exists i :: 0 <= i < |log| && !IsLatest(log, log[i]) && !Within(log, i, cutoff, maxEvents)
  {
    var start := KeepStart(log, cutoff, maxEvents);
    var rewritten := CompactAt(log, start, id, now);
    forall i | 0 <= i < |log| ensures i >= start <==> Within(log, i, cutoff, maxEvents) {
      KeepStartExactly(log, cutoff, maxEvents, i);
    }
    forall i | 0 <= i < |log|
      ensures log[i] in rewritten <==> IsLatest(log, log[i]) || Within(log, i, cutoff, maxEvents)
    {
      InCompactedExactly(log, start, id, now, i);
    }
    PassingIsSuffix(log, start, id, now);
    ElementsAtMost(log[start..], Passing(log, rewritten));
    if start < |log| { KeepStartExactly(log, cutoff, maxEvents, start); }
    RemovedExactly(log, start);
  }

  /** What takes the place of the removed events: one broadcast by the compactor, of that time, with
      the number of the last event that is gone. */
  lemma {:induction false} SummaryTells(log: seq<Event>, start: nat, id: string, now: int)
    requires Increasing(log) && Fresh(log, id) && start <= |log|
    requires exists i :: 0 <= i < start && !IsLatest(log, log[i])
    ensures exists e | e in CompactAt(log, start, id, now) ::
              && e.id == id && e.from == "loadout" && e.to == "*" && e.timestamp == now && e.body == Plain
              && (exists i :: 0 <= i < start && !IsLatest(log, log[i]) && e.seqNo == log[i].seqNo)
              && forall i | 0 <= i < start && !IsLatest(log, log[i]) :: log[i].seqNo <= e.seqNo
  {
    var removable, kept := log[..start], log[start..];
    var removed := Removed(removable, kept);
    assert log == removable + kept;
    RemovedExactly(log, start);
    CheckpointsAreLatest(removable, kept);
    var summary := SummaryEvent(removed, id, now);
    SortKeepsEvents(Checkpoints(removable, kept) + [summary] + kept);
    assert summary in Checkpoints(removable, kept) + [summary] + kept;
    LastRemoved(log, start, removed[|removed| - 1]);
  }

  lemma {:induction false} LastRemoved(log: seq<Event>, start: nat, last: Event)
    requires Increasing(log) && start <= |log|
    requires var removed := Removed(log[..start], log[start..]); removed != [] && last == removed[|removed| - 1]
    ensures exists i :: 0 <= i < start && !IsLatest(log, log[i]) && last == log[i]
    ensures forall i | 0 <= i < start && !IsLatest(log, log[i]) :: log[i].seqNo <= last.seqNo
  {
    var removable, kept := log[..start], log[start..];
    var removed := Removed(removable, kept);
    assert log == removable + kept;
    CheckpointsAreLatest(removable, kept);
    PrefixIncreasing(log, start);
    SubsequencesOrdered(removable, kept);
    assert last in removed;
    var k :| 0 <= k < |removable| && removable[k] == last;
    assert log[k] == last;
    forall i | 0 <= i < start && !IsLatest(log, log[i]) ensures log[i].seqNo <= last.seqNo {
      assert removable[i] == log[i] && log[i] in removed;
      var j :| 0 <= j < |removed| && removed[j] == log[i];
    }
  }

  lemma {:induction false} PassingIsSuffix(log: seq<Event>, start: nat, id: string, now: int)
    requires Increasing(log) && Fresh(log, id) && start <= |log|
    ensures forall e | e in Passing(log, CompactAt(log, start, id, now)) :: e in log[start..]
  {
    forall e | e in Passing(log, CompactAt(log, start, id, now)) ensures e in log[start..] {
      var i :| 0 <= i < |log| && log[i] == e;
      InCompactedExactly(log, start, id, now, i);
      InSuffixExactly(log, start, i);
    }
  }

  lemma {:induction false} CompactionKeepsState(log: seq<Event>, keepStart: nat, id: string, now: int)
    requires Increasing(log) && keepStart <= |log|
    ensures KeepsState(log, CompactAt(log, keepStart, id, now))
  {
    if Removed(log[..keepStart], log[keepStart..]) != [] {
      RewritingKeepsState(log, log[..keepStart], log[keepStart..],
                          SummaryEvent(Removed(log[..keepStart], log[keepStart..]), id, now));
    }
  }

  lemma {:induction false} RewritingKeepsState(log: seq<Event>, removable: seq<Event>, kept: seq<Event>, summary: Event)
    requires log == removable + kept && Increasing(log) && Removed(removable, kept) != []
    requires summary.seqNo == Removed(removable, kept)[|Removed(removable, kept)| - 1].seqNo
    requires StateKey(summary).None?
    ensures KeepsState(log, Rewritten(removable, kept, summary))
  {
    CompactedLog(log, removable, kept, summary);
  }

  /** Compacting the working log, at any cut, does not lose what the history says. */
  lemma {:induction false} CompactSimulates(history: seq<Event>, log: seq<Event>, keepStart: nat, id: string, now: int)
    requires Simulates(history, log) && keepStart <= |log|
    ensures Simulates(history, CompactAt(log, keepStart, id, now))
  {
    CompactionKeepsState(log, keepStart, id, now);
    var compacted := CompactAt(log, keepStart, id, now);
    forall e | IsLatest(history, e) ensures e in compacted {
      LatestInBoth(history, log, e);
    }
  }

  ghost predicate AllKeySafe(log: seq<Event>) {
    forall e | e in log :: KeySafe(e)
  }

  /** With safe names, the last thing an agent said about a path is the latest of its key. */
  lemma {:induction false} LastWordIsLatest(history: seq<Event>, b: Event, path: string)
    requires Increasing(history) && AllKeySafe(history) && LastTouchBy(history, b, path)
    ensures IsLatest(history, b)
  {
    forall x | x in history && StateKey(x) == StateKey(b) ensures x.seqNo <= b.seqNo {
      SameKeyExactly(x, b);
      assert path in multiset(b.body.paths);
      assert x.body.Ownership? && path in multiset(x.body.paths);
      assert Touches(x, path) && x.from == b.from;
    }
  }

  lemma {:induction false} LastWordExists(log: seq<Event>, x: Event, path: string) returns (b: Event)
    requires Increasing(log) && x in log && Touches(x, path)
    ensures LastTouchBy(log, b, path) && b.from == x.from && x.seqNo <= b.seqNo
  {
    var init, last := log[..|log| - 1], log[|log| - 1];
    assert log == init + [last];
    if Touches(last, path) && last.from == x.from {
      b := last;
      forall e | e in log ensures e.seqNo <= b.seqNo { var i :| 0 <= i < |log| && log[i] == e; }
    } else {
      b := LastWordExists(init, x, path);
    }
  }

  /** Path by path, the simulating log names the same owner as a history without takeovers,
      although releases and multi-path claims fall under different keys. */
  lemma {:induction false} OwnersAgree(history: seq<Event>, log: seq<Event>, path: string)
    requires Simulates(history, log) && AllKeySafe(history) && TakeoverFree(history)
    ensures OwnerAt(log, path) == OwnerAt(history, path)
  {
    if OwnerAt(log, path).Some? {
      var b := OwnerSpokeLast(log, path);
      assert StateKey(b).Some?;
      var last := LastWordExists(history, b, path);
      LastWordIsLatest(history, last, path);
      assert last in log;
      SameSeqSameEvent(history, b, last);
      LastWordOwns(history, b, path);
    } else if OwnerAt(history, path).Some? {
      var b := OwnerTouchedLast(history, path);
      LastWordIsLatest(history, b, path);
      assert b in log;
      forall e | e in log && Touches(e, path) ensures e.seqNo <= b.seqNo {
        assert StateKey(e).Some?;
      }
      LastClaimOwns(log, b, path);
      assert false;
    }
  }

  /** Any cut, any number of compactions: the whole ownership map is that of the history. */
  lemma {:induction false} OwnershipAgrees(history: seq<Event>, log: seq<Event>)
    requires Simulates(history, log) && AllKeySafe(history) && TakeoverFree(history) && Readable(history)
    ensures Readable(log)
    ensures FoldOwnership(log) == FoldOwnership(history)
  {
    forall e, p | e in log && Touches(e, p) ensures Paths.Stable(p) {
      assert StateKey(e).Some?;
      assert e in history;
    }
    forall p ensures OwnerAt(log, p) == OwnerAt(history, p) {
      OwnersAgree(history, log, p);
    }
    SameOwnersSameMap(log, history);
  }

  // ---- Exactly when compaction is faithful to ownership ----

  /** The claim c and the release r of the same paths by the same agent. */
  ghost predicate ClaimThenRelease(c: Event, r: Event) {
    && c.body.Ownership? && !c.body.mode.Release?
    && r.body == Ownership(c.body.paths, Release) && r.from == c.from
  }

  /** A release that may come next in the log: by the agent of c, of any paths, none of them another's. */
  ghost predicate NextRelease(history: seq<Event>, c: Event, r: Event) {
    && r.body.Ownership? && r.body.mode.Release? && r.from == c.from && KeySafe(r)
    && Increasing(history + [c, r]) && Readable(history + [c, r])
    && NoTakeover(history + [c], r)
  }

  /** Compaction at any cut leaves the ownership map of the log as it is. */
  ghost predicate CompactsSafely(log: seq<Event>, id: string, now: int) {
    forall keepStart: nat | keepStart <= |log| ::
      FoldOwnership(CompactAt(log, keepStart, id, now)) == FoldOwnership(log)
  }

  /** A claim is safe under compaction, whatever its agent releases next and wherever the log is
      cut, exactly when it does not replace another agent's entry. Only shared claims can do that:
      the release of the same paths then leaves the replaced claim as the latest of its key. */
  lemma {:induction false} CompactionSafeExactly(history: seq<Event>, c: Event, id: string, now: int)
    requires c.body.Ownership? && !c.body.mode.Release? && TakeoverFree(history)
    requires Increasing(history + [c]) && AllKeySafe(history + [c]) && Readable(history + [c])
    ensures NoTakeover(history, c) <==>
            forall r | NextRelease(history, c, r) :: CompactsSafely(history + [c, r], id, now)
  {
    if NoTakeover(history, c) {
      forall r | NextRelease(history, c, r) ensures CompactsSafely(history + [c, r], id, now) {
        OwnClaimIsSafe(history, c, r, id, now);
      }
    } else {
      var path :| Touches(c, path) && OwnerAt(history, path).Some?
                  && OwnerAt(history, path).value.agent != c.from;
      var r := ReleaseOf(history, c);
      TakeoverDiverges(history, c, r, path, id, now);
    }
  }

  lemma {:induction false} OwnClaimIsSafe(history: seq<Event>, c: Event, r: Event, id: string, now: int)
    requires TakeoverFree(history) && NoTakeover(history, c) && NextRelease(history, c, r)
    requires AllKeySafe(history + [c])
    ensures CompactsSafely(history + [c, r], id, now)
  {
    var log := history + [c, r];
    assert log[..|log| - 1] == history + [c] && log[|log| - 1] == r && (history + [c])[..|history|] == history;
    assert TakeoverFree(log) && AllKeySafe(log);
    forall keepStart: nat | keepStart <= |log|
      ensures FoldOwnership(CompactAt(log, keepStart, id, now)) == FoldOwnership(log)
    {
      CompactSimulates(log, log, keepStart, id, now);
      OwnershipAgrees(log, CompactAt(log, keepStart, id, now));
    }
  }

  /** The release of exactly the paths of c. */
  lemma {:induction false} ReleaseOf(history: seq<Event>, c: Event) returns (r: Event)
    requires c.body.Ownership? && !c.body.mode.Release?
    requires Increasing(history + [c]) && AllKeySafe(history + [c]) && Readable(history + [c])
    ensures ClaimThenRelease(c, r) && NextRelease(history, c, r) && AllKeySafe(history + [c, r])
  {
    r := Event(c.seqNo + 1, "", c.from, "*", 0, Ownership(c.body.paths, Release));
    var before := history + [c];
    assert before + [r] == history + [c, r] && before[|history|] == c && before[..|history|] == history;
    NextInOrder(before, r);
    assert c in before && KeySafe(c);
    assert forall e | e in before + [r] :: e in before || e == r;
  }

  lemma {:induction false} NextInOrder(log: seq<Event>, e: Event)
    requires log != [] && Increasing(log) && e.seqNo == log[|log| - 1].seqNo + 1
    ensures Increasing(log + [e])
  {
    assert forall i | 0 <= i < |log| :: (log + [e])[i] == log[i] && log[i].seqNo < e.seqNo;
  }

  /** After a takeover and its release, full compaction brings the replaced owner back. */
  lemma {:induction false} TakeoverDiverges(history: seq<Event>, c: Event, r: Event, path: string, id: string, now: int)
    requires ClaimThenRelease(c, r) && TakeoverFree(history)
    requires Increasing(history + [c, r]) && AllKeySafe(history + [c, r]) && Readable(history + [c, r])
    requires Touches(c, path) && OwnerAt(history, path).Some? && OwnerAt(history, path).value.agent != c.from
    ensures var log := history + [c, r];
            FoldOwnership(CompactAt(log, |log|, id, now)) != FoldOwnership(log)
  {
    var log := history + [c, r];
    assert log[..|history|] == history;
    PrefixIncreasing(log, |history|);
    var b := OwnerTouchedLast(history, path);
    OwnerAfterRelease(history, c, r, path);
    var compacted := CompactAt(log, |log|, id, now);
    ReplacedClaimSurvives(history, c, r, path, b, id, now);
    CompactionKeepsState(log, |log|, id, now);
    forall e, p | e in compacted && Touches(e, p) ensures Paths.Stable(p) {
      assert StateKey(e).Some?;
    }
    FoldMeaning(log);
    FoldMeaning(compacted);
    assert Lookup(FoldOwnership(log).value, path) != Lookup(FoldOwnership(compacted).value, path);
  }

  lemma {:induction false} OwnerAfterRelease(history: seq<Event>, c: Event, r: Event, path: string)
    requires ClaimThenRelease(c, r) && Touches(c, path)
    ensures OwnerAt(history + [c, r], path) == None
  {
    var log := history + [c, r];
    assert log[..|log| - 1] == history + [c];
    assert (history + [c])[..|history|] == history;
  }

  lemma {:induction false} ReplacedClaimSurvives(history: seq<Event>, c: Event, r: Event, path: string, b: Event,
                                                 id: string, now: int)
    requires ClaimThenRelease(c, r) && Touches(c, path)
    requires Increasing(history + [c, r]) && AllKeySafe(history + [c, r])
    requires LastTouch(history, b, path) && Claims(b, path) && b.from != c.from
    ensures OwnerAt(CompactAt(history + [c, r], |history + [c, r]|, id, now), path) == Some(ClaimOf(b))
  {
    var log := history + [c, r];
    LatestAfterTakeover(history, c, r, path, b);
    assert c in log && log[|log| - 1] == r by { assert log[|history|] == c; }
    OwnerAfterFullCompaction(log, c, b, r, path, id, now);
  }

  lemma {:induction false} OwnerAfterFullCompaction(log: seq<Event>, dropped: Event, b: Event, r: Event, path: string,
                                                    id: string, now: int)
    requires Increasing(log) && dropped in log && !IsLatest(log, dropped)
    requires IsLatest(log, b) && IsLatest(log, r) && log[|log| - 1] == r
    requires r.body.Ownership? && r.body.mode.Release? && Claims(b, path) && b.from != r.from
    requires forall e | IsLatest(log, e) && Touches(e, path) :: e == r || e.seqNo <= b.seqNo
    ensures OwnerAt(CompactAt(log, |log|, id, now), path) == Some(ClaimOf(b))
  {
    FullCompactionKeepsLatest(log, dropped, id, now);
    OwnerOfLatest(log, CompactAt(log, |log|, id, now), b, r, path);
  }

  lemma {:induction false} OwnerOfLatest(log: seq<Event>, compacted: seq<Event>, b: Event, r: Event, path: string)
    requires Increasing(log) && KeepsState(log, compacted)
    requires forall e | e in compacted && StateKey(e).Some? :: IsLatest(log, e)
    requires IsLatest(log, b) && IsLatest(log, r) && log[|log| - 1] == r
    requires r.body.Ownership? && r.body.mode.Release? && Claims(b, path) && b.from != r.from
    requires forall e | IsLatest(log, e) && Touches(e, path) :: e == r || e.seqNo <= b.seqNo
    ensures OwnerAt(compacted, path) == Some(ClaimOf(b))
  {
    TopIsLast(log, compacted, r);
    forall e | e in compacted && Touches(e, path) ensures e == r || e.seqNo <= b.seqNo {
      assert StateKey(e).Some?;
    }
    OwnerBelowRelease(compacted, b, r, path);
  }

  /** With c superseded by r under the same key, the replaced claim b and r are the current
      values that speak about the path. */
  lemma {:induction false} LatestAfterTakeover(history: seq<Event>, c: Event, r: Event, path: string, b: Event)
    requires ClaimThenRelease(c, r) && Touches(c, path)
    requires Increasing(history + [c, r]) && AllKeySafe(history + [c, r])
    requires LastTouch(history, b, path) && Claims(b, path) && b.from != c.from
    ensures var log := history + [c, r];
            && IsLatest(log, b) && IsLatest(log, r) && !IsLatest(log, c)
            && forall e | IsLatest(log, e) && Touches(e, path) :: e == r || e.seqNo <= b.seqNo
  {
    var log := history + [c, r];
    assert log[|history|] == c && log[|history| + 1] == r && c in log && r in log;
    assert !IsLatest(log, c) by { assert StateKey(r) == StateKey(c); }
    assert forall e | e in log :: e in history || e == c || e == r;
    assert LastTouchBy(log, b, path);
    LastWordIsLatest(log, b, path);
    forall i | 0 <= i < |log| ensures log[i].seqNo <= r.seqNo {}
  }

  lemma {:induction false} OwnerBelowRelease(log: seq<Event>, b: Event, r: Event, path: string)
    requires Increasing(log) && log != [] && log[|log| - 1] == r && b in log
    requires r.body.Ownership? && r.body.mode.Release? && Claims(b, path) && b.from != r.from
    requires forall e | e in log && Touches(e, path) :: e == r || e.seqNo <= b.seqNo
    ensures OwnerAt(log, path) == Some(ClaimOf(b))
  {
    var before := log[..|log| - 1];
    assert log == before + [r];
    PrefixIncreasing(log, |before|);
    forall e | e in before && Touches(e, path) ensures e.seqNo <= b.seqNo {
      var i :| 0 <= i < |before| && before[i] == e;
      assert log[i] == e;
    }
    LastClaimOwns(before, b, path);
    ForeignReleaseKeepsOwner(before, r, path);
  }

  lemma {:induction false} ForeignReleaseKeepsOwner(log: seq<Event>, r: Event, path: string)
    requires r.body.Ownership? && r.body.mode.Release?
    requires OwnerAt(log, path).Some? && OwnerAt(log, path).value.agent != r.from
    ensures OwnerAt(log + [r], path) == OwnerAt(log, path)
  {
    assert (log + [r])[..|log|] == log;
  }

  lemma {:induction false} TopIsLast(log: seq<Event>, compacted: seq<Event>, r: Event)
    requires Increasing(log) && Increasing(compacted) && HighSeq(compacted) == HighSeq(log)
    requires log != [] && r == log[|log| - 1] && r in compacted
    ensures compacted != [] && compacted[|compacted| - 1] == r
  {
    HighSeqBounds(log);
    HighSeqBounds(compacted);
    SameSeqSameEvent(compacted, compacted[|compacted| - 1], r);
  }

  lemma {:induction false} FullCompactionKeepsLatest(log: seq<Event>, dropped: Event, id: string, now: int)
    requires Increasing(log) && dropped in log && !IsLatest(log, dropped)
    ensures var compacted := CompactAt(log, |log|, id, now);
            && KeepsState(log, compacted)
            && forall e | e in compacted && StateKey(e).Some? :: IsLatest(log, e)
  {
    assert log[..|log|] == log && log[|log|..] == [] && log + [] == log;
    CheckpointsAreLatest(log, []);
    assert dropped in Removed(log, []);
    CompactedLog(log, log, [], SummaryEvent(Removed(log, []), id, now));
  }

  /** The smallest divergence: B and A both share x, A releases it. The history says nobody owns
      x; the fully compacted log, which dropped A's claim as superseded, says B does. */
  lemma {:induction false} SharedTakeoverExample(id: string, now: int)
    ensures var b := Event(0, "b1", "B", "*", 0, Ownership(["x"], Shared));
            var c := Event(1, "a1", "A", "*", 0, Ownership(["x"], Shared));
            var r := Event(2, "a2", "A", "*", 0, Ownership(["x"], Release));
            var log := [b] + [c, r];
            && OwnerAt(log, "x") == None
            && OwnerAt(CompactAt(log, |log|, id, now), "x") == Some(Claim("B", Shared, "b1", 0))
  {
    var b := Event(0, "b1", "B", "*", 0, Ownership(["x"], Shared));
    var c := Event(1, "a1", "A", "*", 0, Ownership(["x"], Shared));
    var r := Event(2, "a2", "A", "*", 0, Ownership(["x"], Release));
    OwnerAfterRelease([b], c, r, "x");
    assert LastTouch([b], b, "x");
    ReplacedClaimSurvives([b], c, r, "x", b, id, now);
  }
}
