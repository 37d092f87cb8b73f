/** Versioned contracts: revision allocation, the stale check, and the fold that shows the
    latest revision of each name. */
module Contracts {
  import opened Wrappers
  import opened Events
  import opened StateKeys
  import opened Retention

  datatype ActiveContract = ActiveContract(revision: int, text: string, publisher: string, eventId: string, seqNo: nat)

  predicate Names(e: Event, name: string) {
    e.body.Contract? && e.body.name == name
  }

  function MaxRevision(log: seq<Event>, name: string): int {
    if log == [] then 0
    else
      var highest, last := MaxRevision(log[..|log| - 1], name), log[|log| - 1];
      if Names(last, name) && last.body.revision > highest then last.body.revision else highest
  }

  method CurrentRevision(events: seq<Event>, name: string) returns (highest: int)
    ensures highest == MaxRevision(events, name)
  {
    highest := 0;
    for i := 0 to |events|
      invariant highest == MaxRevision(events[..i], name)
    {
      assert events[..i + 1][..i] == events[..i];
      if Names(events[i], name) && events[i].body.revision > highest {
        highest := events[i].body.revision;
      }
    }
    assert events[..|events|] == events;
  }

  function Active(e: Event): ActiveContract
    requires e.body.Contract?
  {
    ActiveContract(e.body.revision, e.body.text, e.from, e.id, e.seqNo)
  }

  /** The contract shown for one name: the first event with its highest revision. */
  function ContractAt(log: seq<Event>, name: string): Option<ActiveContract> {
    if log == [] then None
    else
      var before, last := ContractAt(log[..|log| - 1], name), log[|log| - 1];
      if Names(last, name) && (before.None? || last.body.revision > before.value.revision) then Some(Active(last))
      else before
  }

  /** The contract is what event i of the name says, and i is the first of its highest revision. */
  ghost predicate Shows(c: ActiveContract, events: seq<Event>, name: string, i: int)
    requires 0 <= i < |events|
  {
    && events[i].body == Contract(name, c.revision, c.text)
    && c.publisher == events[i].from && c.eventId == events[i].id && c.seqNo == events[i].seqNo
    && (forall j | 0 <= j < |events| && events[j].body.Contract? && events[j].body.name == name ::
          events[j].body.revision <= c.revision)
    && (forall j | 0 <= j < i && events[j].body.Contract? && events[j].body.name == name ::
          events[j].body.revision < c.revision)
  }

  lemma {:induction false} ShownContract(log: seq<Event>, name: string)
    ensures ContractAt(log, name).Some? ==>
              exists i | 0 <= i < |log| :: Shows(ContractAt(log, name).value, log, name, i)
    ensures forall i | 0 <= i < |log| && log[i].body.Contract? && log[i].body.name == name ::
              ContractAt(log, name).Some?
  {
    if log != [] {
      var init, last := log[..|log| - 1], log[|log| - 1];
      assert log == init + [last];
      ShownContract(init, name);
      var now := ContractAt(log, name);
      if now.Some? {
        if now == ContractAt(init, name) {
          var i :| 0 <= i < |init| && Shows(now.value, init, name, i);
          assert log[i] == init[i];
          assert Shows(now.value, log, name, i);
        } else {
          assert Shows(now.value, log, name, |init|);
        }
      }
    }
  }

  method ContractsFromEvents(events: seq<Event>) returns (contracts: map<string, ActiveContract>)
    ensures forall name :: (if name in contracts then Some(contracts[name]) else None) == ContractAt(events, name)
    ensures forall name | name in contracts :: exists i | 0 <= i < |events| :: Shows(contracts[name], events, name, i)
    ensures forall i | 0 <= i < |events| && events[i].body.Contract? :: events[i].body.name in contracts
  {
    forall name ensures ContractAt(events, name).Some? ==>
                  exists i | 0 <= i < |events| :: Shows(ContractAt(events, name).value, events, name, i)
      ensures forall i | 0 <= i < |events| && events[i].body.Contract? && events[i].body.name == name ::
                ContractAt(events, name).Some?
    {
      ShownContract(events, name);
    }
    contracts := map[];
    for i := 0 to |events|
      invariant forall name ::
                  (if name in contracts then Some(contracts[name]) else None) == ContractAt(events[..i], name)
    {
      assert events[..i + 1][..i] == events[..i];
      var event := events[i];
      if !event.body.Contract? { continue; }
      var name := event.body.name;
      assert (if name in contracts then Some(contracts[name]) else None) == ContractAt(events[..i], name);
      if name !in contracts || event.body.revision > contracts[name].revision {
        contracts := contracts[name := Active(event)];
      }
    }
    assert events[..|events|] == events;
  }

  /** Revisions are positive and strictly increase per name along the log. */
  ghost predicate RevisionsIncrease(log: seq<Event>) {
    && (forall e | e in log && e.body.Contract? :: e.body.revision >= 1)
    && forall a, b | a in log && b in log && a.body.Contract? && Names(b, a.body.name) && a.seqNo < b.seqNo ::
         a.body.revision < b.body.revision
  }

  lemma {:induction false} MaxRevisionBounds(log: seq<Event>, name: string)
    ensures MaxRevision(log, name) >= 0
    ensures forall e | e in log && Names(e, name) :: e.body.revision <= MaxRevision(log, name)
    ensures MaxRevision(log, name) > 0 ==>
              exists e :: e in log && Names(e, name) && e.body.revision == MaxRevision(log, name)
  {
    if log != [] {
      var init, last := log[..|log| - 1], log[|log| - 1];
      assert log == init + [last];
      MaxRevisionBounds(init, name);
      if MaxRevision(log, name) > 0 {
        if MaxRevision(log, name) == MaxRevision(init, name) {
          var e :| e in init && Names(e, name) && e.body.revision == MaxRevision(init, name);
          assert e in log;
        } else {
          assert last in log && Names(last, name);
        }
      }
    }
  }

  /** The stale check is exact: an appended revision keeps the order exactly when it exceeds
      every revision of its name so far. */
  lemma {:induction false} StaleCheckIsExact(log: seq<Event>, e: Event)
    requires Increasing(log) && RevisionsIncrease(log) && e.seqNo == HighSeq(log) + 1 && e.body.Contract?
    ensures RevisionsIncrease(log + [e]) <==> e.body.revision > MaxRevision(log, e.body.name)
  {
    var name := e.body.name;
    MaxRevisionBounds(log, name);
    HighSeqBounds(log);
    assert forall x | x in log :: x in log + [e];
    assert e in log + [e];
    if RevisionsIncrease(log + [e]) && MaxRevision(log, name) > 0 {
      var x :| x in log && Names(x, name) && x.body.revision == MaxRevision(log, name);
      assert x in log + [e] && x.seqNo < e.seqNo;
    }
    if e.body.revision > MaxRevision(log, name) {
      forall a, b | a in log + [e] && b in log + [e] && a.body.Contract? && Names(b, a.body.name) && a.seqNo < b.seqNo
        ensures a.body.revision < b.body.revision
      {
        assert a in log && (b in log || b == e);
      }
    }
  }

  lemma {:induction false} OtherKeepsRevisions(log: seq<Event>, e: Event)
    requires RevisionsIncrease(log) && !e.body.Contract?
    ensures RevisionsIncrease(log + [e])
  {
  }

  /** b has the highest revision of its name, and no other event of that name has it. */
  ghost predicate Tops(log: seq<Event>, b: Event, name: string) {
    b in log && Names(b, name) && b.body.revision >= 1 &&
    forall e | e in log && Names(e, name) :: e == b || e.body.revision < b.body.revision
  }

  lemma {:induction false} ToppedFold(log: seq<Event>, b: Event, name: string)
    requires Tops(log, b, name)
    ensures ContractAt(log, name) == Some(Active(b)) && MaxRevision(log, name) == b.body.revision
  {
    var init, last := log[..|log| - 1], log[|log| - 1];
    assert log == init + [last];
    assert last in log;
    if b in init {
      ToppedFold(init, b, name);
    } else {
      assert b == last;
      MaxRevisionBounds(init, name);
      ContractWithin(init, name);
    }
  }

  lemma {:induction false} ContractWithin(log: seq<Event>, name: string)
    ensures ContractAt(log, name).Some? ==>
              exists e :: e in log && Names(e, name) && ContractAt(log, name) == Some(Active(e))
    ensures ContractAt(log, name).None? ==> forall e | e in log :: !Names(e, name)
  {
    if log != [] {
      var init, last := log[..|log| - 1], log[|log| - 1];
      assert log == init + [last];
      ContractWithin(init, name);
      if ContractAt(log, name).Some? {
        if ContractAt(log, name) == ContractAt(init, name) {
          var e :| e in init && Names(e, name) && ContractAt(init, name) == Some(Active(e));
          assert e in log;
        } else {
          assert last in log && Names(last, name);
        }
      }
    }
  }

  lemma {:induction false} LastNamed(log: seq<Event>, name: string, x: Event) returns (b: Event)
    requires Increasing(log) && x in log && Names(x, name)
    ensures b in log && Names(b, name) && forall e | e in log && Names(e, name) :: e.seqNo <= b.seqNo
  {
    var init, last := log[..|log| - 1], log[|log| - 1];
    assert log == init + [last];
    if Names(last, name) {
      b := last;
      forall e | e in log ensures e.seqNo <= b.seqNo { var i :| 0 <= i < |log| && log[i] == e; }
    } else {
      b := LastNamed(init, name, x);
    }
  }

  /** On a log whose revisions increase, the fold by highest revision is "the latest event of
      that name", and that event is what compaction keeps: same contract, same next revision,
      so a stale revision stays stale. Nothing is asked of the names of claims. */
  lemma {:induction false} ContractsAgree(history: seq<Event>, log: seq<Event>, name: string)
    requires Simulates(history, log) && RevisionsIncrease(history)
    ensures ContractAt(log, name) == ContractAt(history, name)
    ensures MaxRevision(log, name) == MaxRevision(history, name)
  {
    if x :| x in history && Names(x, name) {
      var b := LastNamed(history, name, x);
      assert Tops(history, b, name) by {
        forall e | e in history && Names(e, name) ensures e == b || e.body.revision < b.body.revision {
          if e.seqNo == b.seqNo { SameSeqSameEvent(history, e, b); }
        }
      }
      assert IsLatest(history, b) by {
        forall e | e in history && StateKey(e) == StateKey(b) ensures e.seqNo <= b.seqNo {
          OwnKeyExactly(e, b);
        }
      }
      assert b in log;
      NamedInHistory(history, log, name);
      ToppedFold(history, b, name);
      ToppedFold(log, b, name);
    } else {
      NamedInHistory(history, log, name);
      ContractWithin(history, name);
      ContractWithin(log, name);
      MaxRevisionBounds(history, name);
      MaxRevisionBounds(log, name);
    }
  }

  lemma {:induction false} NamedInHistory(history: seq<Event>, log: seq<Event>, name: string)
    requires Simulates(history, log)
    ensures forall e | e in log && Names(e, name) :: e in history
  {
    forall e | e in log && Names(e, name) ensures e in history {
      assert StateKey(e).Some?;
    }
  }
}
