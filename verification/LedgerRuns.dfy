/** What any run whatever has ever appended, and what its compacted working log still says of it:
    contracts, pending tasks, acknowledgements. */
module LedgerRuns {
  import opened Wrappers
  import opened Events
  import opened StateKeys
  import opened Retention
  import opened Contracts
  import opened Tasks
  import opened Coordination

  predicate Stateless(e: Event) {
    e.body.Task? || e.body.Terminal? || e.body.Ack?
  }

  /** Of the events that carry no state, the log has exactly those of the history from n on. */
  ghost predicate TailOf(history: seq<Event>, log: seq<Event>, n: int) {
    && n <= HighSeq(history) + 1
    && forall e | Stateless(e) :: e in log <==> e in history && e.seqNo >= n
  }

  lemma {:induction false} SuffixByNumber(log: seq<Event>, keepStart: nat, e: Event)
    requires Increasing(log) && keepStart < |log|
    ensures e in log[keepStart..] <==> e in log && e.seqNo >= log[keepStart].seqNo
  {
    if e in log[keepStart..] {
      var i :| 0 <= i < |log[keepStart..]| && log[keepStart..][i] == e;
      assert log[keepStart + i] == e;
    }
    if e in log && e.seqNo >= log[keepStart].seqNo {
      var j :| 0 <= j < |log| && log[j] == e;
      assert log[keepStart..][j - keepStart] == e;
    }
  }

  /** Compaction cuts the tail at a number. */
  lemma {:induction false} CompactionCutsTail(history: seq<Event>, log: seq<Event>, n: int, keepStart: nat, id: string,
                                              now: int)
    returns (m: int)
    requires Simulates(history, log) && TailOf(history, log, n) && keepStart <= |log|
    ensures TailOf(history, CompactAt(log, keepStart, id, now), m)
  {
    var compacted := CompactAt(log, keepStart, id, now);
    forall e | Stateless(e)
      ensures e in compacted <==>
                e in log[keepStart..] || (Removed(log[..keepStart], log[keepStart..]) == [] && e in log)
    {
      Forgotten(log, keepStart, id, now, e);
    }
    assert forall e | e in log[keepStart..] :: e in log;
    HighSeqBounds(log);
    HighSeqBounds(history);
    if Removed(log[..keepStart], log[keepStart..]) == [] {
      m := n;
    } else if keepStart == |log| {
      m := HighSeq(history) + 1;
    } else {
      m := if n > log[keepStart].seqNo then n else log[keepStart].seqNo;
      assert log[keepStart] in log;
      forall e ensures e in log[keepStart..] <==> e in log && e.seqNo >= log[keepStart].seqNo {
        SuffixByNumber(log, keepStart, e);
      }
    }
  }

  lemma {:induction false} AppendKeepsTail(history: seq<Event>, log: seq<Event>, n: int, e: Event)
    requires TailOf(history, log, n) && e.seqNo == HighSeq(history) + 1
    ensures TailOf(history + [e], log + [e], n)
  {
    HighSeqBounds(history + [e]);
    assert (history + [e])[|history|] == e;
  }

  // ---- What a run has appended ----

  /** The appended events, in order: the log as it would be had nothing been removed. */
  ghost function Ledger(outcomes: seq<Outcome>): seq<Event> {
    if outcomes == [] then [] else Noted(outcomes[0]) + Ledger(outcomes[1..])
  }

  ghost function Noted(outcome: Outcome): seq<Event> {
    if outcome.Appended? then [outcome.event] else []
  }

  /** The working log has the latest event of every state, and of the rest all from n on. */
  ghost predicate Backs(ledger: seq<Event>, s: State, n: int) {
    Simulates(ledger, s.log) && TailOf(ledger, s.log, n) && RevisionsIncrease(ledger)
  }

  /** Whatever is appended has the next number, and a contract a new revision. */
  lemma {:induction false} AppendNumbers(s: State, c: Command)
    requires !c.Compact? && !c.Activate? && !c.Deactivate? && Decide(s, c).Ok?
    ensures var e := Decide(s, c).value;
            && e.seqNo == HighSeq(s.log) + 1
            && (e.body.Contract? ==> e.body.revision > MaxRevision(s.log, e.body.name))
  {
  }

  lemma {:induction false} AppendBacks(ledger: seq<Event>, s: State, n: int, e: Event)
    requires Backs(ledger, s, n) && e.seqNo == HighSeq(s.log) + 1
    requires e.body.Contract? ==> e.body.revision > MaxRevision(s.log, e.body.name)
    ensures Backs(ledger + [e], s.(log := s.log + [e]), n)
  {
    AppendSimulates(ledger, s.log, e);
    AppendKeepsTail(ledger, s.log, n, e);
    if e.body.Contract? {
      ContractsAgree(ledger, s.log, e.body.name);
      StaleCheckIsExact(ledger, e);
    } else {
      OtherKeepsRevisions(ledger, e);
    }
  }

  lemma {:induction false} CompactBacks(ledger: seq<Event>, s: State, n: int, keepStart: nat, id: string, now: int)
    returns (m: int)
    requires Backs(ledger, s, n) && keepStart <= |s.log|
    ensures Backs(ledger, s.(log := CompactAt(s.log, keepStart, id, now)), m)
  {
    CompactSimulates(ledger, s.log, keepStart, id, now);
    m := CompactionCutsTail(ledger, s.log, n, keepStart, id, now);
  }

  lemma {:induction false} QuietBacks(ledger: seq<Event>, s: State, n: int, after: State, outcome: Outcome)
    requires Backs(ledger, s, n) && after.log == s.log && !outcome.Appended?
    ensures Backs(ledger + Noted(outcome), after, n)
  {
    assert ledger + [] == ledger;
  }

  lemma {:induction false} StepBacks(ledger: seq<Event>, s: State, n: int, c: Command) returns (m: int)
    requires Backs(ledger, s, n)
    ensures Backs(ledger + Noted(Next(s, c, true).1), Next(s, c, true).0, m)
  {
    if c.Compact? && !s.halted && c.maxEvents >= 1 && c.maxAgeDays >= 0 {
      m := CompactBacks(ledger, s, n, KeepStart(s.log, c.cutoff, c.maxEvents), c.id, c.now);
      QuietBacks(ledger, Next(s, c, true).0, m, Next(s, c, true).0, Done);
    } else if c.Compact? || c.Activate? || c.Deactivate? || Decide(s, c).Err? {
      m := n;
      QuietBacks(ledger, s, n, Next(s, c, true).0, Next(s, c, true).1);
    } else {
      m := n;
      AppendNumbers(s, c);
      AppendBacks(ledger, s, n, Decide(s, c).value);
    }
  }

  lemma {:induction false} RunBacks(ledger: seq<Event>, s: State, n: int, commands: seq<Command>) returns (m: int)
    requires Backs(ledger, s, n)
    ensures Backs(ledger + Ledger(Run(s, commands, true).1), Run(s, commands, true).0, m)
    decreases |commands|
  {
    if commands == [] {
      assert ledger + [] == ledger;
      m := n;
    } else {
      var k := StepBacks(ledger, s, n, commands[0]);
      var s1, outcome := Next(s, commands[0], true).0, Next(s, commands[0], true).1;
      m := RunBacks(ledger + Noted(outcome), s1, k, commands[1..]);
      LedgerOfMore(ledger, outcome, Run(s1, commands[1..], true).1);
    }
  }

  lemma {:induction false} LedgerOfMore(ledger: seq<Event>, outcome: Outcome, outcomes: seq<Outcome>)
    ensures ledger + Ledger([outcome] + outcomes) == (ledger + Noted(outcome)) + Ledger(outcomes)
  {
    assert ([outcome] + outcomes)[1..] == outcomes;
  }

  lemma {:induction false} RunLedger(commands: seq<Command>) returns (n: int)
    ensures var run := Run(Start, commands, true); Backs(Ledger(run.1), run.0, n)
  {
    n := RunBacks([], Start, 0, commands);
    assert [] + Ledger(Run(Start, commands, true).1) == Ledger(Run(Start, commands, true).1);
  }

  /** Without compaction the log is the ledger. */
  lemma {:induction false} UncompactedLog(s: State, commands: seq<Command>)
    ensures Run(s, commands, false).0.log == s.log + Ledger(Run(s, commands, false).1)
    decreases |commands|
  {
    if commands != [] {
      var (s1, outcome) := Next(s, commands[0], false);
      UncompactedLog(s1, commands[1..]);
      LedgerOfMore(s.log, outcome, Run(s1, commands[1..], false).1);
    }
  }

  /** With clean names and no takeovers the ledger is the log of the reference run. */
  lemma {:induction false} LedgerIsReference(commands: seq<Command>)
    requires CleanRun(Start, commands)
    ensures Ledger(Run(Start, commands, true).1) == Run(Start, commands, false).0.log
  {
    CompactionIsInvisible(commands);
    UncompactedLog(Start, commands);
  }

  /** In any run no number is given out twice, and the latest event of every state is still there. */
  lemma {:induction false} NumbersOverRuns(commands: seq<Command>)
    ensures var (s, outcomes) := Run(Start, commands, true);
            && Increasing(Ledger(outcomes)) && HighSeq(s.log) == HighSeq(Ledger(outcomes))
            && forall e | IsLatest(Ledger(outcomes), e) :: e in s.log
  {
    var n := RunLedger(commands);
  }

  // ---- What a reader of the working log sees ----

  lemma {:induction false} TailPending(history: seq<Event>, log: seq<Event>, n: int, t: Event)
    requires TailOf(history, log, n) && ResolutionsFollow(history)
    ensures Pending(log, t) <==> Pending(history, t) && t in log
  {
    if t in log && t.body.Task? {
      if ResolvedIn(history, t.id) {
        var x :| x in history && x.body == Terminal(Some(t.id)) && x.seqNo > t.seqNo;
        assert Stateless(x) && Stateless(t) && x in log;
      }
      if ResolvedIn(log, t.id) {
        var x :| x in log && x.body == Terminal(Some(t.id));
        assert Stateless(x) && x in history;
      }
      assert Stateless(t);
    }
  }

  /** In any run, whatever its commands and their names: when resolutions follow their tasks, the
      pending tasks of the working log are the pending tasks ever logged that it still has. */
  lemma {:induction false} PendingOverRuns(commands: seq<Command>, t: Event)
    requires ResolutionsFollow(Ledger(Run(Start, commands, true).1))
    ensures var (s, outcomes) := Run(Start, commands, true);
            Pending(s.log, t) <==> Pending(Ledger(outcomes), t) && t in s.log
  {
    var n := RunLedger(commands);
    TailPending(Ledger(Run(Start, commands, true).1), Run(Start, commands, true).0.log, n, t);
  }

  lemma {:induction false} TailAcks(history: seq<Event>, log: seq<Event>, n: int, agent: string)
    requires TailOf(history, log, n)
    ensures AckCursor(log, agent) <= AckCursor(history, agent)
  {
    AckCursorBounds(history, agent);
    AckCursorBounds(log, agent);
    if AckCursor(log, agent) >= 0 {
      var e :| e in log && e.body.Ack? && e.from == agent && e.body.eventSeq == AckCursor(log, agent);
      assert Stateless(e) && e in history;
    }
  }

  /** No compaction ever acknowledges anything: in any run every agent's cursor is at most that of
      all that was logged, so what an agent had not acknowledged, and is still there, is listed
      for it. */
  lemma {:induction false} AcksOverRuns(commands: seq<Command>, agent: string, e: Event)
    ensures var (s, outcomes) := Run(Start, commands, true);
            && AckCursor(s.log, agent) <= AckCursor(Ledger(outcomes), agent)
            && (UnackedFor(Ledger(outcomes), agent, e) && e in s.log ==> UnackedFor(s.log, agent, e))
  {
    var n := RunLedger(commands);
    TailAcks(Ledger(Run(Start, commands, true).1), Run(Start, commands, true).0.log, n, agent);
  }

  lemma {:induction false} TailUnacked(history: seq<Event>, log: seq<Event>, n: int, e: Event)
    requires TailOf(history, log, n) && Unacked(history, e) && e in log
    ensures Unacked(log, e)
  {
    forall x | x in log && x.from != e.from ensures AckCursor(log, x.from) < e.seqNo {
      AckCursorBounds(log, x.from);
      TailAcks(history, log, n, x.from);
      if AckCursor(log, x.from) >= 0 {
        var ack :| ack in log && ack.body.Ack? && ack.from == x.from && ack.body.eventSeq == AckCursor(log, x.from);
        assert Stateless(ack) && ack in history;
        assert AckCursor(history, ack.from) < e.seqNo;
      }
    }
  }

  /** Nor is anything that nobody had acknowledged taken off the list of such events. */
  lemma {:induction false} UnackedOverRuns(commands: seq<Command>, e: Event)
    ensures var (s, outcomes) := Run(Start, commands, true);
            Unacked(Ledger(outcomes), e) && e in s.log ==> Unacked(s.log, e)
  {
    var ledger, log := Ledger(Run(Start, commands, true).1), Run(Start, commands, true).0.log;
    var n := RunLedger(commands);
    if Unacked(ledger, e) && e in log { TailUnacked(ledger, log, n, e); }
  }

  /** In any run the revisions of a name increase, and the active contract and the revision that
      the next publication must exceed are those of all that was ever logged. */
  lemma {:induction false} ContractsOverRuns(commands: seq<Command>, name: string)
    ensures var (s, outcomes) := Run(Start, commands, true);
            && RevisionsIncrease(Ledger(outcomes))
            && ContractAt(s.log, name) == ContractAt(Ledger(outcomes), name)
            && MaxRevision(s.log, name) == MaxRevision(Ledger(outcomes), name)
  {
    var n := RunLedger(commands);
    ContractsAgree(Ledger(Run(Start, commands, true).1), Run(Start, commands, true).0.log, name);
  }
}
