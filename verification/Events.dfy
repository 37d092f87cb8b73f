/** The events of the coordination log and the order they must keep in it. */
module Events {
  import opened Wrappers

  datatype Mode = Exclusive | Shared | Release

  datatype DiscussionKind = Started | Proposal | Critique | Revision | Summary | Closed

  datatype DiscussionOutcome = Decided | Failed

  /** The typed payload; Terminal stands for done, error and cancel, with the id the event
      resolves, and Plain for the types that carry no state (handoff, question, status, update). */
  datatype Body =
    | Ownership(paths: seq<string>, mode: Mode)
    | Contract(name: string, revision: int, text: string)
    | Decision(title: string)
    | Ack(eventSeq: nat)
    | Task
    | Terminal(resolves: Option<string>)
    | Discussion(threadId: string, kind: DiscussionKind, round: nat, content: string,
                 replyTo: Option<string>, participants: Option<(string, string)>,
                 outcome: Option<DiscussionOutcome>)
    | Plain

  datatype Event = Event(seqNo: nat, id: string, from: string, to: string, timestamp: int, body: Body)

  /** Highest sequence number seen, -1 for an empty log. */
  function HighSeq(log: seq<Event>): (high: int)
    ensures high >= -1
  {
    if log == [] then -1
    else
      var rest, last := HighSeq(log[..|log| - 1]), log[|log| - 1];
      if last.seqNo > rest then last.seqNo else rest
  }

  /** Sequence numbers strictly increase along the log. */
  ghost predicate Increasing(log: seq<Event>) {
    forall i, j | 0 <= i < j < |log| :: log[i].seqNo < log[j].seqNo
  }

  /** What the loop of readCoordLog accumulates. */
  method ComputeHighSeq(log: seq<Event>) returns (high: int)
    ensures high == HighSeq(log)
  {
    high := -1;
    for i := 0 to |log|
      invariant high == HighSeq(log[..i])
    {
      assert log[..i + 1][..i] == log[..i];
      if log[i].seqNo > high { high := log[i].seqNo; }
    }
    assert log[..|log|] == log;
  }

  lemma {:induction false} HighSeqBounds(log: seq<Event>)
    ensures forall e | e in log :: e.seqNo <= HighSeq(log)
    ensures log != [] ==> exists e :: e in log && e.seqNo == HighSeq(log)
    ensures Increasing(log) && log != [] ==> HighSeq(log) == log[|log| - 1].seqNo
  {
    if log != [] {
      var init := log[..|log| - 1];
      HighSeqBounds(init);
      assert log == init + [log[|log| - 1]];
      assert log[|log| - 1] in log;
      if init != [] {
        var top :| top in init && top.seqNo == HighSeq(init);
        assert top in log;
      }
    }
  }

  /** An event numbered after the high watermark keeps the order. */
  lemma {:induction false} AppendIncreasing(log: seq<Event>, e: Event)
    requires Increasing(log) && e.seqNo == HighSeq(log) + 1
    ensures Increasing(log + [e]) && HighSeq(log + [e]) == e.seqNo
    ensures e !in log
  {
    HighSeqBounds(log);
    assert (log + [e])[..|log|] == log;
    forall i | 0 <= i < |log| ensures log[i].seqNo < e.seqNo {
      assert log[i] in log;
    }
  }

  /** In an ordered log a sequence number identifies its event and its position. */
  lemma {:induction false} SameSeqSameEvent(log: seq<Event>, a: Event, b: Event)
    requires Increasing(log) && a in log && b in log && a.seqNo == b.seqNo
    ensures a == b
  {
    var i :| 0 <= i < |log| && log[i] == a;
    var j :| 0 <= j < |log| && log[j] == b;
  }

  lemma {:induction false} PrefixIncreasing(log: seq<Event>, n: nat)
    requires Increasing(log) && n <= |log|
    ensures Increasing(log[..n]) && Increasing(log[n..])
  {
  }
}
